/** `_convert_CFUID_to_UID`: before an XML plist is converted to binary,
    every dict that stands for a UID (`{"CF$UID": n}` with `n` an integer)
    is replaced, where it sits in its parent, by a UID object. */
module CFUid {
  import opened Plist

  const UidKey: Key := KText("CF$UID")

  /** `num = d.get('CF$UID', None)` when `isinstance(num, int)` holds; Python
      bools are ints, `True` standing for 1. */
  function UidNumber(d: seq<(Key, Value)>): Option<int>
  {
    match Lookup(d, UidKey)
    case Some(Int(n)) => Some(n)
    case Some(Bool(b)) => Some(if b then 1 else 0)
    case _ => None
  }

  /** What one dict entry or list element becomes: a dict carrying an integer
      `CF$UID` turns into `Uid(num)`; any other dict, and any list, is walked;
      everything else stays. */
  function RewriteChild(v: Value): (r: Value)
    ensures v.Dict? && UidNumber(v.entries).Some? ==> r == Uid(UidNumber(v.entries).value)
    ensures v.Dict? && UidNumber(v.entries).None? ==> r.Dict? && KeysOf(r.entries) == KeysOf(v.entries)
    ensures v.List? ==> r.List? && |r.items| == |v.items|
    ensures !IsContainer(v) ==> r == v
    decreases v, 1
  {
    match v
    case Dict(es) =>
      (match UidNumber(es)
       case Some(n) => Uid(n)
       case None => Rewritten(v))
    case List(_) => Rewritten(v)
    case _ => v
  }

  /** A dict or list after the walk: keys and positions stay, every child is
      rewritten. */
  function Rewritten(v: Value): (r: Value)
    ensures v.Dict? ==> r.Dict? && KeysOf(r.entries) == KeysOf(v.entries)
    ensures v.List? ==> r.List? && |r.items| == |v.items|
    decreases v, 0
  {
    match v
    case Dict(es) => Dict(seq(|es|, i requires 0 <= i < |es| => (es[i].0, RewriteChild(es[i].1))))
    case List(xs) => List(seq(|xs|, i requires 0 <= i < |xs| => RewriteChild(xs[i])))
    case _ => v
  }

  /** Nothing left to rewrite: no dict below the top carries an integer
      `CF$UID`. */
  predicate Settled(v: Value)
  {
    match v
    case Dict(es) =>
      forall i :: 0 <= i < |es| ==>
        (es[i].1.Dict? ==> UidNumber(es[i].1.entries).None?) && Settled(es[i].1)
    case List(xs) =>
      forall i :: 0 <= i < |xs| ==>
        (xs[i].Dict? ==> UidNumber(xs[i].entries).None?) && Settled(xs[i])
    case _ => true
  }

  /** Looking `CF$UID` up in a rewritten dict finds the rewritten value. */
  lemma LookupRewritten(es: seq<(Key, Value)>)
    ensures var es' := Rewritten(Dict(es)).entries;
      Lookup(es', UidKey) == match Lookup(es, UidKey) case Some(u) => Some(RewriteChild(u)) case None => None
  {
    var es' := Rewritten(Dict(es)).entries;
    assert KeysOf(es') == KeysOf(es);
    if UidKey in KeysOf(es) {
      SameFirstIndex(es, es', UidKey);
    }
  }

  /** A dict that is not a UID stand-in does not become one by the walk. */
  lemma StaysNonUid(es: seq<(Key, Value)>)
    requires UidNumber(es).None?
    ensures UidNumber(Rewritten(Dict(es)).entries).None?
  {
    LookupRewritten(es);
  }

  /** After the walk nothing is left to rewrite. */
  lemma {:induction false} RewrittenSettled(v: Value)
    ensures Settled(Rewritten(v))
    decreases v, 0
  {
    match v
    case Dict(es) =>
      forall i | 0 <= i < |es| ensures ChildSettled(RewriteChild(es[i].1)) {
        ChildRewrittenSettled(es[i].1);
      }
    case List(xs) =>
      forall i | 0 <= i < |xs| ensures ChildSettled(RewriteChild(xs[i])) {
        ChildRewrittenSettled(xs[i]);
      }
    case _ =>
  }

  predicate ChildSettled(c: Value)
  {
    (c.Dict? ==> UidNumber(c.entries).None?) && Settled(c)
  }

  lemma {:induction false} ChildRewrittenSettled(c: Value)
    ensures ChildSettled(RewriteChild(c))
    decreases c, 1
  {
    match c
    case Dict(es) =>
      if UidNumber(es).None? {
        StaysNonUid(es);
        RewrittenSettled(c);
      }
    case List(_) =>
      RewrittenSettled(c);
    case _ =>
  }

  /** The walk changes a value exactly when something in it is left to
      rewrite. */
  lemma {:induction false} FixedIffSettled(v: Value)
    ensures Rewritten(v) == v <==> Settled(v)
    decreases v, 0
  {
    match v
    case Dict(es) =>
      var es' := Rewritten(v).entries;
      forall i | 0 <= i < |es| ensures RewriteChild(es[i].1) == es[i].1 <==> ChildSettled(es[i].1) {
        ChildFixedIffSettled(es[i].1);
      }
      if Settled(v) {
        assert es' == es;
      } else {
        var i :| 0 <= i < |es| && !ChildSettled(es[i].1);
        assert es'[i].1 != es[i].1;
      }
    case List(xs) =>
      var xs' := Rewritten(v).items;
      forall i | 0 <= i < |xs| ensures RewriteChild(xs[i]) == xs[i] <==> ChildSettled(xs[i]) {
        ChildFixedIffSettled(xs[i]);
      }
      if Settled(v) {
        assert xs' == xs;
      } else {
        var i :| 0 <= i < |xs| && !ChildSettled(xs[i]);
        assert xs'[i] != xs[i];
      }
    case _ =>
  }

  lemma {:induction false} ChildFixedIffSettled(c: Value)
    ensures RewriteChild(c) == c <==> ChildSettled(c)
    decreases c, 1
  {
    match c
    case Dict(es) =>
      if UidNumber(es).None? {
        FixedIffSettled(c);
      }
    case List(_) =>
      FixedIffSettled(c);
    case _ =>
  }

  /** Running the walk twice is the same as running it once. */
  lemma RewriteIdempotent(v: Value)
    ensures Rewritten(Rewritten(v)) == Rewritten(v)
  {
    RewrittenSettled(v);
    FixedIffSettled(Rewritten(v));
  }

  /** A UID stand-in below the top becomes a UID object, at any depth; the
      container passed in is itself never replaced, even when it is a
      stand-in; a `CF$UID` that is not an integer leaves its dict a dict. */
  lemma RewriteExamples()
    ensures var inner := Dict([(UidKey, Int(7))]);
      Rewritten(Dict([(KText("obj"), inner)])) == Dict([(KText("obj"), Uid(7))]) &&
      Rewritten(List([List([inner])])) == List([List([Uid(7)])]) &&
      Rewritten(inner) == inner
    ensures var odd := Dict([(UidKey, Str("7"))]);
      Rewritten(List([odd])) == List([odd])
  {
    var inner := Dict([(UidKey, Int(7))]);
    assert KeysOf(inner.entries)[0] == UidKey;
    assert Lookup(inner.entries, UidKey) == Some(Int(7));
    assert Rewritten(List([inner])) == List([Uid(7)]);
    var odd := Dict([(UidKey, Str("7"))]);
    assert KeysOf(odd.entries)[0] == UidKey;
    assert Lookup(odd.entries, UidKey) == Some(Str("7"));
    assert Rewritten(odd) == odd;
  }

  /** The walk, in place: each entry or element that needs it is overwritten. */
  method ConvertCFUIDToUID(plist: Value) returns (r: Value)
    requires IsContainer(plist)
    ensures r == Rewritten(plist)
    decreases plist, 0
  {
    if plist.Dict? {
      var es := plist.entries;
      var i := 0;
      while i < |es|
        invariant i <= |es| == |plist.entries|
        invariant forall j :: 0 <= j < i ==> es[j] == (plist.entries[j].0, RewriteChild(plist.entries[j].1))
        invariant forall j :: i <= j < |es| ==> es[j] == plist.entries[j]
      {
        var (k, v) := es[i];
        if IsContainer(v) {
          var w := ConvertChild(v);
          es := es[i := (k, w)];
        }
        i := i + 1;
      }
      r := Dict(es);
    } else {
      var xs := plist.items;
      var i := 0;
      while i < |xs|
        invariant i <= |xs| == |plist.items|
        invariant forall j :: 0 <= j < i ==> xs[j] == RewriteChild(plist.items[j])
        invariant forall j :: i <= j < |xs| ==> xs[j] == plist.items[j]
      {
        var v := xs[i];
        if IsContainer(v) {
          var w := ConvertChild(v);
          xs := xs[i := w];
        }
        i := i + 1;
      }
      r := List(xs);
    }
  }

  /** The body shared by both loops, for a dict or list child: a stand-in
      becomes `Uid(num)`, anything else is walked. */
  method ConvertChild(v: Value) returns (w: Value)
    requires IsContainer(v)
    ensures w == RewriteChild(v)
    decreases v, 1
  {
    if v.Dict? {
      var num := Lookup(v.entries, UidKey);
      if num.None? || !(num.value.Int? || num.value.Bool?) {
        w := ConvertCFUIDToUID(v);
      } else {
        w := Uid(if num.value.Int? then num.value.i else if num.value.b then 1 else 0);
      }
    } else {
      w := ConvertCFUIDToUID(v);
    }
  }
}
