/** The graph flattener: `_recurse_create_plist` and `_recurse_safely`.
    It walks a dict or list, resolves typed back-references through the
    object table (after the library's class-unwrapping hook), expands the
    containers they lead to, and breaks cycles with a stack of the UIDs
    being expanded. The pure functions below specify it; the class
    `Deserializer` holds the module's two globals and runs it. */
module Flatten {
  import opened Plist

  /** The archive's object table, indexed by UID. */
  type Table = seq<Value>

  /** `NSKeyedArchiver_convert(obj, object_table)` of the binary-plist
      library: unwraps well-known archived classes; its code is not modelled. */
  type Converter = (Value, Table) -> Value

  const ClassKey: Key := KText("$class")

  /** What the flattener does with one value: leave it out (a back-edge), or
      insert `v`. */
  datatype Step = Skip | Keep(v: Value)

  // ---------------------------------------------------------------------------
  // Termination: the table indices that are not on the guard stack

  function FreeIndices(t: Table, guard: seq<nat>): set<nat>
  {
    set i: nat | i < |t| && i !in guard
  }

  function Free(t: Table, guard: seq<nat>): nat
  {
    |FreeIndices(t, guard)|
  }

  /** Pushing an index that is in range and not yet on the stack uses up one
      free index, so guarded expansion cannot go on forever. */
  lemma PushShrinks(t: Table, guard: seq<nat>, i: nat)
    requires i < |t|
    ensures i !in guard ==> Free(t, guard + [i]) == Free(t, guard) - 1
  {
    if i !in guard {
      assert FreeIndices(t, guard + [i]) == FreeIndices(t, guard) - {i};
    }
  }

  // ---------------------------------------------------------------------------
  // What a flattened node looks like

  /** A flattened node: every dict key is text, none is `$class`, keys are
      distinct, and no value anywhere is null. */
  predicate Flat(v: Value)
  {
    match v
    case Dict(es) =>
      DistinctKeys(es) &&
      forall i :: 0 <= i < |es| ==> es[i].0.KText? && es[i].0 != ClassKey && Flat(es[i].1)
    case List(xs) => forall i :: 0 <= i < |xs| ==> Flat(xs[i])
    case Null => false
    case _ => true
  }

  /** No typed back-reference anywhere. */
  predicate RefFree(v: Value)
  {
    match v
    case Dict(es) => forall i :: 0 <= i < |es| ==> RefFree(es[i].1)
    case List(xs) => forall i :: 0 <= i < |xs| ==> RefFree(xs[i])
    case Ref(_) => false
    case _ => true
  }

  /** The converter never hands back a bare reference for a table record. */
  predicate ConverterResolves(t: Table, cv: Converter)
  {
    forall i :: 0 <= i < |t| ==> !cv(t[i], t).Ref?
  }

  /** `x` is a back-edge: a reference, resolvable, to a container whose UID
      is already being expanded. */
  predicate BackEdge(t: Table, cv: Converter, guard: seq<nat>, x: Value)
  {
    x.Ref? && x.index < |t| && IsContainer(cv(t[x.index], t)) && x.index in guard
  }

  /** A null value is inserted as the empty string. */
  function NullToEmpty(v: Value): (r: Value)
    ensures !r.Null?
    ensures !v.Null? ==> r == v
  {
    if v.Null? then Str("") else v
  }

  /** The text key a key is stored under. */
  function OutKey(k: Key): Key
  {
    KText(KeyText(k))
  }

  lemma OutKeyIsNotClass(k: Key)
    requires k != ClassKey
    ensures OutKey(k).KText? && OutKey(k) != ClassKey
  {
    if k.KInt? {
      assert DecimalText(k.n)[0] != '$';
    }
  }

  // ---------------------------------------------------------------------------
  // The specification

  /** `_recurse_safely(uid, plist, root, object_table)`: a UID already on the
      stack is a back-edge and is left out; otherwise `root` is expanded with
      `uid` pushed. */
  function Guarded(t: Table, cv: Converter, guard: seq<nat>, uid: nat, root: Value): (r: Result<Step>)
    requires uid < |t| && IsContainer(root)
    ensures uid in guard <==> r == Ok(Skip)
    ensures r.Ok? && r.value.Keep? ==> (r.value.v.Dict? <==> root.Dict?)
    decreases if uid in guard then 0 else 2 * Free(t, guard + [uid]) + 2, root, 0
  {
    if uid in guard then Ok(Skip)
    else
      var c :- FlattenContainer(t, cv, guard + [uid], root);
      Ok(Keep(c))
  }

  /** What the loop body of `_recurse_create_plist` makes of one value of a
      dict or list: a reference is looked up and converted, and a container
      it leads to is expanded under the guard; an inline container is
      expanded without the guard; anything else is taken as it is; null
      becomes the empty string. */
  function FlattenValue(t: Table, cv: Converter, guard: seq<nat>, x: Value): (r: Result<Step>)
    ensures r == Ok(Skip) <==> BackEdge(t, cv, guard, x)
    ensures x.Ref? && x.index >= |t| ==> r == Err(IndexError)
    decreases 2 * Free(t, guard) + 1, x, 2
  {
    match x
    case Ref(i) =>
      if i >= |t| then Err(IndexError)
      else
        var v2 := cv(t[i], t);
        if IsContainer(v2) then
          PushShrinks(t, guard, i);
          Guarded(t, cv, guard, i, v2)
        else Ok(Keep(NullToEmpty(v2)))
    case Dict(_) =>
      var c :- FlattenContainer(t, cv, guard, x);
      Ok(Keep(c))
    case List(_) =>
      var c :- FlattenContainer(t, cv, guard, x);
      Ok(Keep(c))
    case _ => Ok(Keep(NullToEmpty(x)))
  }

  /** `_recurse_create_plist(plist, root, object_table)` with `plist` a fresh
      empty container of `root`'s kind: the container it is filled to. */
  function FlattenContainer(t: Table, cv: Converter, guard: seq<nat>, root: Value): (r: Result<Value>)
    requires IsContainer(root)
    ensures r.Ok? ==> (r.value.Dict? <==> root.Dict?)
    decreases 2 * Free(t, guard) + 1, root, 1
  {
    if root.Dict? then
      var es :- FlattenEntries(t, cv, guard, root, |root.entries|);
      Ok(Dict(es))
    else
      var xs :- FlattenItems(t, cv, guard, root, |root.items|);
      Ok(List(xs))
  }

  /** The dict filled from the first `n` entries of `root`: `$class` is
      skipped, keys are stringified, and a later key overwrites an equal
      earlier one. */
  function FlattenEntries(t: Table, cv: Converter, guard: seq<nat>, root: Value, n: nat): Result<seq<(Key, Value)>>
    requires root.Dict? && n <= |root.entries|
    decreases 2 * Free(t, guard) + 1, root, 0, n
  {
    if n == 0 then Ok([])
    else
      var acc :- FlattenEntries(t, cv, guard, root, n - 1);
      var (k, x) := root.entries[n - 1];
      if k == ClassKey then Ok(acc)
      else
        var step :- FlattenValue(t, cv, guard, x);
        if step.Skip? then Ok(acc)
        else
          OutKeyIsNotClass(k);
          Ok(DictSet(acc, OutKey(k), step.v))
  }

  /** The list filled from the first `n` items of `root`, in order, without
      the items left out as back-edges. */
  function FlattenItems(t: Table, cv: Converter, guard: seq<nat>, root: Value, n: nat): (r: Result<seq<Value>>)
    requires root.List? && n <= |root.items|
    ensures r.Ok? ==> |r.value| <= n
    decreases 2 * Free(t, guard) + 1, root, 0, n
  {
    if n == 0 then Ok([])
    else
      var acc :- FlattenItems(t, cv, guard, root, n - 1);
      var step :- FlattenValue(t, cv, guard, root.items[n - 1]);
      if step.Skip? then Ok(acc) else Ok(acc + [step.v])
  }

  // ---------------------------------------------------------------------------
  // What comes out is flat, and free of references when the converter
  // resolves every record

  /** `v` is a flattened node, with no reference left when the converter
      resolves every record. */
  predicate Clean(t: Table, cv: Converter, v: Value)
  {
    Flat(v) && (ConverterResolves(t, cv) ==> RefFree(v))
  }

  lemma {:induction false} GuardedClean(t: Table, cv: Converter, guard: seq<nat>, uid: nat, root: Value)
    requires uid < |t| && IsContainer(root)
    ensures var r := Guarded(t, cv, guard, uid, root);
      r.Ok? && r.value.Keep? ==> Clean(t, cv, r.value.v)
    decreases if uid in guard then 0 else 2 * Free(t, guard + [uid]) + 2, root, 0
  {
    if uid !in guard {
      ContainerClean(t, cv, guard + [uid], root);
    }
  }

  lemma {:induction false} ValueClean(t: Table, cv: Converter, guard: seq<nat>, x: Value)
    ensures var r := FlattenValue(t, cv, guard, x);
      r.Ok? && r.value.Keep? ==> Clean(t, cv, r.value.v)
    decreases 2 * Free(t, guard) + 1, x, 2
  {
    match x
    case Ref(i) =>
      if i < |t| && IsContainer(cv(t[i], t)) {
        PushShrinks(t, guard, i);
        GuardedClean(t, cv, guard, i, cv(t[i], t));
      }
    case Dict(_) =>
      ContainerClean(t, cv, guard, x);
    case List(_) =>
      ContainerClean(t, cv, guard, x);
    case _ =>
  }

  /** Whatever the walk fills a container with is flat, and reference-free
      when the converter resolves every record. */
  lemma {:induction false} ContainerClean(t: Table, cv: Converter, guard: seq<nat>, root: Value)
    requires IsContainer(root)
    ensures var r := FlattenContainer(t, cv, guard, root);
      r.Ok? ==> Clean(t, cv, r.value)
    decreases 2 * Free(t, guard) + 1, root, 1
  {
    if root.Dict? {
      EntriesClean(t, cv, guard, root, |root.entries|);
    } else {
      ItemsClean(t, cv, guard, root, |root.items|);
    }
  }

  lemma {:induction false} EntriesClean(t: Table, cv: Converter, guard: seq<nat>, root: Value, n: nat)
    requires root.Dict? && n <= |root.entries|
    ensures var r := FlattenEntries(t, cv, guard, root, n);
      r.Ok? ==> Clean(t, cv, Dict(r.value))
    decreases 2 * Free(t, guard) + 1, root, 0, n
  {
    if n > 0 {
      var r := FlattenEntries(t, cv, guard, root, n);
      var prev := FlattenEntries(t, cv, guard, root, n - 1);
      EntriesClean(t, cv, guard, root, n - 1);
      var (k, x) := root.entries[n - 1];
      if r.Ok? && k != ClassKey {
        assert prev.Ok?;
        var step := FlattenValue(t, cv, guard, x);
        assert step.Ok?;
        if step.value.Keep? {
          ValueClean(t, cv, guard, x);
          OutKeyIsNotClass(k);
          var acc := prev.value;
          var es := DictSet(acc, OutKey(k), step.value.v);
          assert r.value == es;
          DictSetKeys(acc, OutKey(k), step.value.v);
          DictSetEntries(acc, OutKey(k), step.value.v);
          forall i | 0 <= i < |es|
            ensures es[i].0.KText? && es[i].0 != ClassKey && Flat(es[i].1)
            ensures ConverterResolves(t, cv) ==> RefFree(es[i].1)
          {
            if es[i] != (OutKey(k), step.value.v) {
              assert es[i] == acc[i];
            }
          }
        }
      }
    }
  }

  lemma {:induction false} ItemsClean(t: Table, cv: Converter, guard: seq<nat>, root: Value, n: nat)
    requires root.List? && n <= |root.items|
    ensures var r := FlattenItems(t, cv, guard, root, n);
      r.Ok? ==> Clean(t, cv, List(r.value))
    decreases 2 * Free(t, guard) + 1, root, 0, n
  {
    if n > 0 {
      var r := FlattenItems(t, cv, guard, root, n);
      var prev := FlattenItems(t, cv, guard, root, n - 1);
      ItemsClean(t, cv, guard, root, n - 1);
      if r.Ok? {
        assert prev.Ok?;
        var step := FlattenValue(t, cv, guard, root.items[n - 1]);
        assert step.Ok?;
        if step.value.Keep? {
          ValueClean(t, cv, guard, root.items[n - 1]);
          var xs := prev.value + [step.value.v];
          assert r.value == xs;
          forall i | 0 <= i < |xs|
            ensures Flat(xs[i]) && (ConverterResolves(t, cv) ==> RefFree(xs[i]))
          {
            if i < |prev.value| {
              assert xs[i] == prev.value[i];
            }
          }
        }
      }
    }
  }

  // ---------------------------------------------------------------------------
  // What is kept: every key but `$class` and back-edges; list order

  /** Entry `j` of `root` reaches the output: it is neither `$class` nor a
      back-edge. */
  predicate Kept(t: Table, cv: Converter, guard: seq<nat>, root: Value, j: nat)
    requires root.Dict? && j < |root.entries|
  {
    root.entries[j].0 != ClassKey && !BackEdge(t, cv, guard, root.entries[j].1)
  }

  /** Filling one more entry keeps every key and adds at most that entry's. */
  lemma EntriesKeysStep(t: Table, cv: Converter, guard: seq<nat>, root: Value, n: nat)
    requires root.Dict? && 0 < n <= |root.entries|
    requires FlattenEntries(t, cv, guard, root, n).Ok?
    ensures FlattenEntries(t, cv, guard, root, n - 1).Ok?
    ensures var before := KeysOf(FlattenEntries(t, cv, guard, root, n - 1).value);
      var after := KeysOf(FlattenEntries(t, cv, guard, root, n).value);
      (forall k :: k in before ==> k in after) &&
      (Kept(t, cv, guard, root, n - 1) ==> OutKey(root.entries[n - 1].0) in after) &&
      (forall k :: k in after ==> k in before || (Kept(t, cv, guard, root, n - 1) && k == OutKey(root.entries[n - 1].0)))
  {
    var acc := FlattenEntries(t, cv, guard, root, n - 1).value;
    var (k, x) := root.entries[n - 1];
    if k != ClassKey {
      var step := FlattenValue(t, cv, guard, x);
      if step.value.Keep? {
        DictSetKeys(acc, OutKey(k), step.value.v);
      }
    }
  }

  /** Every entry that is neither `$class` nor a back-edge has its key in the
      filled dict. */
  lemma {:induction false} KeptKeysPresent(t: Table, cv: Converter, guard: seq<nat>, root: Value, n: nat)
    requires root.Dict? && n <= |root.entries|
    requires FlattenEntries(t, cv, guard, root, n).Ok?
    ensures forall j :: 0 <= j < n && Kept(t, cv, guard, root, j) ==>
      OutKey(root.entries[j].0) in KeysOf(FlattenEntries(t, cv, guard, root, n).value)
  {
    if n > 0 {
      EntriesKeysStep(t, cv, guard, root, n);
      KeptKeysPresent(t, cv, guard, root, n - 1);
      var before := KeysOf(FlattenEntries(t, cv, guard, root, n - 1).value);
      var after := KeysOf(FlattenEntries(t, cv, guard, root, n).value);
      forall j | 0 <= j < n && Kept(t, cv, guard, root, j)
        ensures OutKey(root.entries[j].0) in after
      {
        if j < n - 1 {
          assert OutKey(root.entries[j].0) in before;
        }
      }
    }
  }

  /** Every key of the filled dict comes from an entry that is neither
      `$class` nor a back-edge. */
  lemma {:induction false} KeysFromKept(t: Table, cv: Converter, guard: seq<nat>, root: Value, n: nat)
    requires root.Dict? && n <= |root.entries|
    requires FlattenEntries(t, cv, guard, root, n).Ok?
    ensures forall k :: k in KeysOf(FlattenEntries(t, cv, guard, root, n).value) ==>
      exists j :: 0 <= j < n && Kept(t, cv, guard, root, j) && k == OutKey(root.entries[j].0)
  {
    if n > 0 {
      EntriesKeysStep(t, cv, guard, root, n);
      KeysFromKept(t, cv, guard, root, n - 1);
      var before := KeysOf(FlattenEntries(t, cv, guard, root, n - 1).value);
      forall k | k in KeysOf(FlattenEntries(t, cv, guard, root, n).value)
        ensures exists j :: 0 <= j < n && Kept(t, cv, guard, root, j) && k == OutKey(root.entries[j].0)
      {
        if k !in before {
          assert Kept(t, cv, guard, root, n - 1) && k == OutKey(root.entries[n - 1].0);
        }
      }
    }
  }

  /** The keys of the filled dict are exactly the stringified keys of the
      entries that are neither `$class` nor a back-edge. */
  lemma EntriesKeys(t: Table, cv: Converter, guard: seq<nat>, root: Value, n: nat)
    requires root.Dict? && n <= |root.entries|
    requires FlattenEntries(t, cv, guard, root, n).Ok?
    ensures forall j :: 0 <= j < n && Kept(t, cv, guard, root, j) ==>
      OutKey(root.entries[j].0) in KeysOf(FlattenEntries(t, cv, guard, root, n).value)
    ensures forall k :: k in KeysOf(FlattenEntries(t, cv, guard, root, n).value) ==>
      exists j :: 0 <= j < n && Kept(t, cv, guard, root, j) && k == OutKey(root.entries[j].0)
  {
    KeptKeysPresent(t, cv, guard, root, n);
    KeysFromKept(t, cv, guard, root, n);
  }

  /** Entry `j` is the last of the first `n` entries that reaches the output
      under its stringified key: no later kept entry has the same one. */
  predicate LastKept(t: Table, cv: Converter, guard: seq<nat>, root: Value, n: nat, j: nat)
    requires root.Dict? && j < n <= |root.entries|
  {
    Kept(t, cv, guard, root, j) &&
    forall j' :: j < j' < n && Kept(t, cv, guard, root, j') ==>
      OutKey(root.entries[j'].0) != OutKey(root.entries[j].0)
  }

  /** The last entry, when kept, is what its key maps to. */
  lemma EntryLast(t: Table, cv: Converter, guard: seq<nat>, root: Value, n: nat)
    requires root.Dict? && 0 < n <= |root.entries|
    requires FlattenEntries(t, cv, guard, root, n).Ok?
    requires Kept(t, cv, guard, root, n - 1)
    ensures var out := FlattenEntries(t, cv, guard, root, n).value;
      var k := OutKey(root.entries[n - 1].0);
      Lookup(out, k).Some? && FlattenValue(t, cv, guard, root.entries[n - 1].1) == Ok(Keep(Lookup(out, k).value))
  {
    var prev := FlattenEntries(t, cv, guard, root, n - 1);
    assert prev.Ok?;
    EntriesNext(t, cv, guard, root, n - 1);
    var (k, x) := root.entries[n - 1];
    DictSetLookup(prev.value, OutKey(k), FlattenValue(t, cv, guard, x).value.v);
  }

  /** An entry that is left out, or stored under another key, does not
      change what `key` maps to. */
  lemma EntryElsewhere(t: Table, cv: Converter, guard: seq<nat>, root: Value, n: nat, key: Key)
    requires root.Dict? && 0 < n <= |root.entries|
    requires FlattenEntries(t, cv, guard, root, n).Ok?
    requires Kept(t, cv, guard, root, n - 1) ==> OutKey(root.entries[n - 1].0) != key
    ensures FlattenEntries(t, cv, guard, root, n - 1).Ok?
    ensures Lookup(FlattenEntries(t, cv, guard, root, n).value, key) == Lookup(FlattenEntries(t, cv, guard, root, n - 1).value, key)
  {
    var prev := FlattenEntries(t, cv, guard, root, n - 1);
    assert prev.Ok?;
    EntriesNext(t, cv, guard, root, n - 1);
    var (k, x) := root.entries[n - 1];
    var step := FlattenValue(t, cv, guard, x);
    if k != ClassKey && step.value.Keep? {
      DictSetLookupOther(prev.value, OutKey(k), step.value.v, key);
    }
  }

  /** What a key maps to: the flattened value of the last kept entry with
      that stringified key, since a later `plist[key] = v` overwrites. */
  lemma {:induction false} EntryAt(t: Table, cv: Converter, guard: seq<nat>, root: Value, n: nat, j: nat)
    requires root.Dict? && j < n <= |root.entries|
    requires FlattenEntries(t, cv, guard, root, n).Ok?
    requires LastKept(t, cv, guard, root, n, j)
    ensures var out := FlattenEntries(t, cv, guard, root, n).value;
      var k := OutKey(root.entries[j].0);
      Lookup(out, k).Some? && FlattenValue(t, cv, guard, root.entries[j].1) == Ok(Keep(Lookup(out, k).value))
  {
    if j < n - 1 {
      EntryElsewhere(t, cv, guard, root, n, OutKey(root.entries[j].0));
      assert LastKept(t, cv, guard, root, n - 1, j);
      EntryAt(t, cv, guard, root, n - 1, j);
    } else {
      EntryLast(t, cv, guard, root, n);
    }
  }

  /** Every key of the filled dict holds the flattened value of the last
      entry that is neither `$class` nor a back-edge and has that key once
      stringified. */
  lemma EntriesValues(t: Table, cv: Converter, guard: seq<nat>, root: Value, n: nat)
    requires root.Dict? && n <= |root.entries|
    requires FlattenEntries(t, cv, guard, root, n).Ok?
    ensures forall j :: 0 <= j < n && LastKept(t, cv, guard, root, n, j) ==>
      var out := FlattenEntries(t, cv, guard, root, n).value;
      Lookup(out, OutKey(root.entries[j].0)).Some? &&
      FlattenValue(t, cv, guard, root.entries[j].1) == Ok(Keep(Lookup(out, OutKey(root.entries[j].0)).value))
  {
    forall j | 0 <= j < n && LastKept(t, cv, guard, root, n, j) {
      EntryAt(t, cv, guard, root, n, j);
    }
  }

  /** How many of `xs` are back-edges. */
  function Skips(t: Table, cv: Converter, guard: seq<nat>, xs: seq<Value>): (c: nat)
    ensures c <= |xs|
  {
    if xs == [] then 0
    else Skips(t, cv, guard, xs[..|xs| - 1]) + if BackEdge(t, cv, guard, xs[|xs| - 1]) then 1 else 0
  }

  /** The filled list has one item for every item that is not a back-edge. */
  lemma {:induction false} ItemsCount(t: Table, cv: Converter, guard: seq<nat>, root: Value, n: nat)
    requires root.List? && n <= |root.items|
    requires FlattenItems(t, cv, guard, root, n).Ok?
    ensures |FlattenItems(t, cv, guard, root, n).value| == n - Skips(t, cv, guard, root.items[..n])
  {
    if n > 0 {
      var items := root.items;
      assert FlattenItems(t, cv, guard, root, n - 1).Ok?;
      ItemsCount(t, cv, guard, root, n - 1);
      assert items[..n][..n - 1] == items[..n - 1];
    }
  }

  /** Where a kept item lands: after the kept items before it. */
  lemma {:induction false} ItemAt(t: Table, cv: Converter, guard: seq<nat>, root: Value, n: nat, j: nat)
    requires root.List? && j < n <= |root.items|
    requires FlattenItems(t, cv, guard, root, n).Ok?
    requires !BackEdge(t, cv, guard, root.items[j])
    ensures Skips(t, cv, guard, root.items[..j]) <= j
    ensures j - Skips(t, cv, guard, root.items[..j]) < |FlattenItems(t, cv, guard, root, n).value|
    ensures FlattenValue(t, cv, guard, root.items[j]) ==
      Ok(Keep(FlattenItems(t, cv, guard, root, n).value[j - Skips(t, cv, guard, root.items[..j])]))
  {
    var prev := FlattenItems(t, cv, guard, root, n - 1);
    assert prev.Ok?;
    var step := FlattenValue(t, cv, guard, root.items[n - 1]);
    assert step.Ok?;
    var out := FlattenItems(t, cv, guard, root, n).value;
    if j < n - 1 {
      ItemAt(t, cv, guard, root, n - 1, j);
      assert out == if step.value.Skip? then prev.value else prev.value + [step.value.v];
    } else {
      ItemsCount(t, cv, guard, root, n - 1);
      assert out == prev.value + [step.value.v];
    }
  }

  /** The filled list holds, in input order, the flattened form of every item
      that is not a back-edge, and nothing else. */
  lemma ItemsInOrder(t: Table, cv: Converter, guard: seq<nat>, root: Value, n: nat)
    requires root.List? && n <= |root.items|
    requires FlattenItems(t, cv, guard, root, n).Ok?
    ensures |FlattenItems(t, cv, guard, root, n).value| == n - Skips(t, cv, guard, root.items[..n])
    ensures forall j :: 0 <= j < n && !BackEdge(t, cv, guard, root.items[j]) ==>
      Skips(t, cv, guard, root.items[..j]) <= j &&
      j - Skips(t, cv, guard, root.items[..j]) < |FlattenItems(t, cv, guard, root, n).value| &&
      FlattenValue(t, cv, guard, root.items[j]) ==
        Ok(Keep(FlattenItems(t, cv, guard, root, n).value[j - Skips(t, cv, guard, root.items[..j])]))
  {
    ItemsCount(t, cv, guard, root, n);
    forall j | 0 <= j < n && !BackEdge(t, cv, guard, root.items[j]) {
      ItemAt(t, cv, guard, root, n, j);
    }
  }

  /** Two records that refer to each other: `A = {"to_b": B}`, `B = {"to_a": A}`. */
  function CycleTable(): Table
  {
    [Dict([(KText("to_b"), Ref(1))]), Dict([(KText("to_a"), Ref(0))])]
  }

  /** Walking from `A` with an empty stack terminates. The walk does not push
      the root's own UID, so `A` is expanded a second time inside `B`, and
      only there is the edge back to `B` left out. */
  lemma CycleExample()
    ensures FlattenContainer(CycleTable(), (x, t) => x, [], CycleTable()[0]) ==
      Ok(Dict([(KText("to_b"), Dict([(KText("to_a"), Dict([]))]))]))
  {
    var t := CycleTable();
    var cv: Converter := (x, t) => x;
    var a, b := t[0], t[1];
    assert FlattenValue(t, cv, [1, 0], Ref(1)) == Ok(Skip);
    assert FlattenEntries(t, cv, [1, 0], a, 1) == Ok([]);
    assert FlattenContainer(t, cv, [1, 0], a) == Ok(Dict([]));
    assert cv(t[0], t) == a && [1] + [0] == [1, 0];
    assert Guarded(t, cv, [1], 0, a) == Ok(Keep(Dict([])));
    assert FlattenValue(t, cv, [1], Ref(0)) == Ok(Keep(Dict([])));
    assert OutKey(KText("to_a")) == KText("to_a") && OutKey(KText("to_b")) == KText("to_b");
    assert DictSet([], KText("to_a"), Dict([])) == [(KText("to_a"), Dict([]))];
    assert FlattenEntries(t, cv, [1], b, 1) == Ok([(KText("to_a"), Dict([]))]);
    var inner := Dict([(KText("to_a"), Dict([]))]);
    assert FlattenContainer(t, cv, [1], b) == Ok(inner);
    assert cv(t[1], t) == b && [] + [1] == [1];
    assert Guarded(t, cv, [], 1, b) == Ok(Keep(inner));
    assert FlattenValue(t, cv, [], Ref(1)) == Ok(Keep(inner));
    assert DictSet([], KText("to_b"), inner) == [(KText("to_b"), inner)];
    assert FlattenEntries(t, cv, [], a, 1) == Ok([(KText("to_b"), inner)]);
  }

  /** `$class` is dropped before its value is looked at (so even a reference
      past the end of the table raises nothing there); the integer key `1`
      and the text key `"1"` collide once stringified and the later value
      wins; null is stored as the empty string. */
  lemma KeyExample()
    ensures FlattenContainer([], (x, t) => x, [], Dict([(ClassKey, Ref(0)), (KInt(1), Str("a")), (KText("1"), Null)])) ==
      Ok(Dict([(KText("1"), Str(""))]))
  {
    var t: Table := [];
    var cv: Converter := (x, t) => x;
    var root := Dict([(ClassKey, Ref(0)), (KInt(1), Str("a")), (KText("1"), Null)]);
    assert root.entries[0].0 == ClassKey;
    assert FlattenEntries(t, cv, [], root, 0) == Ok([]);
    assert FlattenEntries(t, cv, [], root, 1) == Ok([]);
    assert FlattenValue(t, cv, [], Str("a")) == Ok(Keep(Str("a")));
    assert FlattenValue(t, cv, [], Null) == Ok(Keep(Str("")));
    assert DecimalText(1) == "1";
    assert OutKey(KInt(1)) == KText("1") && OutKey(KText("1")) == KText("1");
    assert DictSet([], KText("1"), Str("a")) == [(KText("1"), Str("a"))];
    assert FlattenEntries(t, cv, [], root, 2) == Ok([(KText("1"), Str("a"))]);
    assert KeysOf([(KText("1"), Str("a"))])[0] == KText("1");
    assert DictSet([(KText("1"), Str("a"))], KText("1"), Str("")) == [(KText("1"), Str(""))];
    assert FlattenEntries(t, cv, [], root, 3) == Ok([(KText("1"), Str(""))]);
    assert |root.entries| == 3;
  }

  /** One more entry, as the loop body of the dict branch takes it. */
  lemma EntriesNext(t: Table, cv: Converter, guard: seq<nat>, root: Value, i: nat)
    requires root.Dict? && i < |root.entries|
    requires FlattenEntries(t, cv, guard, root, i).Ok?
    ensures var (k, x) := root.entries[i];
      var acc := FlattenEntries(t, cv, guard, root, i).value;
      FlattenEntries(t, cv, guard, root, i + 1) ==
        if k == ClassKey then Ok(acc)
        else match FlattenValue(t, cv, guard, x)
          case Err(e) => Err(e)
          case Ok(Skip) => Ok(acc)
          case Ok(Keep(v)) => Ok(DictSet(acc, OutKey(k), v))
  {
  }

  // ---------------------------------------------------------------------------
  // An exception stops the walk: once a prefix raises, the whole does

  lemma {:induction false} EntriesErrPersists(t: Table, cv: Converter, guard: seq<nat>, root: Value, m: nat, n: nat)
    requires root.Dict? && m <= n <= |root.entries|
    requires FlattenEntries(t, cv, guard, root, m).Err?
    ensures FlattenEntries(t, cv, guard, root, n) == FlattenEntries(t, cv, guard, root, m)
  {
    if m < n {
      EntriesErrPersists(t, cv, guard, root, m, n - 1);
      var prev := FlattenEntries(t, cv, guard, root, n - 1);
      assert prev.IsFailure();
      assert FlattenEntries(t, cv, guard, root, n) == prev.PropagateFailure();
    }
  }

  lemma {:induction false} ItemsErrPersists(t: Table, cv: Converter, guard: seq<nat>, root: Value, m: nat, n: nat)
    requires root.List? && m <= n <= |root.items|
    requires FlattenItems(t, cv, guard, root, m).Err?
    ensures FlattenItems(t, cv, guard, root, n) == FlattenItems(t, cv, guard, root, m)
  {
    if m < n {
      ItemsErrPersists(t, cv, guard, root, m, n - 1);
    }
  }

  // ---------------------------------------------------------------------------
  // The module's globals and the recursive walk over them

  /** The state `nska_deserialize` keeps in module globals. Python has no
      try/finally around the push and pop, so an exception leaves the pushed
      UIDs and the depth count behind; the contracts below say so. */
  class Deserializer {
    /** `ccl_bplist.NSKeyedArchiver_convert`. */
    const convert: Converter
    /** `rec_depth`: how many walks are active. */
    var recDepth: int
    /** `rec_uids`: the UIDs whose expansion is on the active call path. */
    var recUids: seq<nat>

    /** The globals as the module is imported. */
    constructor (convert: Converter)
      ensures this.convert == convert && recDepth == 0 && recUids == []
    {
      this.convert := convert;
      recDepth := 0;
      recUids := [];
    }

    /** `_recurse_safely`: returns `Skip` (Python's False) without recursing
        when `uid` is already being expanded; otherwise pushes `uid`, expands
        `root`, and pops it again. */
    method RecurseSafely(uid: nat, root: Value, objectTable: Table) returns (r: Result<Step>)
      requires uid < |objectTable| && IsContainer(root)
      modifies this
      decreases if uid in recUids then 0 else 2 * Free(objectTable, recUids + [uid]) + 2, root, 3
      ensures r == Guarded(objectTable, convert, old(recUids), uid, root)
      ensures r.Ok? ==> recUids == old(recUids) && recDepth == old(recDepth)
      ensures r.Err? ==> old(recUids) + [uid] <= recUids && recDepth > old(recDepth)
    {
      if uid in recUids {
        return Ok(Skip);
      }
      recUids := recUids + [uid];
      var c := CreatePlist(root, objectTable);
      if c.Err? {
        return Err(c.error);
      }
      recUids := recUids[..|recUids| - 1];
      assert recUids == old(recUids);
      r := Ok(Keep(c.value));
    }

    /** The body of the loops in `_recurse_create_plist`, for one value. */
    method ExpandValue(value: Value, objectTable: Table) returns (r: Result<Step>)
      modifies this
      decreases 2 * Free(objectTable, recUids) + 1, value, 2
      ensures r == FlattenValue(objectTable, convert, old(recUids), value)
      ensures r.Ok? ==> recUids == old(recUids) && recDepth == old(recDepth)
      ensures r.Err? ==> old(recUids) <= recUids && recDepth >= old(recDepth)
    {
      var v: Value;
      if value.Ref? {
        if value.index >= |objectTable| {
          return Err(IndexError);
        }
        var v2 := convert(objectTable[value.index], objectTable);
        if IsContainer(v2) {
          PushShrinks(objectTable, recUids, value.index);
          r := RecurseSafely(value.index, v2, objectTable);
          return;
        }
        v := v2;
      } else if IsContainer(value) {
        var c := CreatePlist(value, objectTable);
        if c.Err? {
          return Err(c.error);
        }
        v := c.value;
      } else {
        v := value;
      }
      if v == Null {
        v := Str("");
      }
      r := Ok(Keep(v));
    }

    /** `_recurse_create_plist(plist, root, object_table)`, where `plist` is
        the fresh empty container every caller passes: returns what `plist`
        is filled with. */
    method CreatePlist(root: Value, objectTable: Table) returns (r: Result<Value>)
      requires IsContainer(root)
      modifies this
      decreases 2 * Free(objectTable, recUids) + 1, root, 1
      ensures r == FlattenContainer(objectTable, convert, old(recUids), root)
      ensures r.Ok? ==> recUids == old(recUids) && recDepth == old(recDepth)
      ensures r.Err? ==> old(recUids) <= recUids && recDepth > old(recDepth)
    {
      recDepth := recDepth + 1;
      if root.Dict? {
        var es := FillEntries(root, objectTable);
        if es.Err? {
          return Err(es.error);
        }
        r := Ok(Dict(es.value));
      } else {
        var xs := FillItems(root, objectTable);
        if xs.Err? {
          return Err(xs.error);
        }
        r := Ok(List(xs.value));
      }
      recDepth := recDepth - 1;
    }

    /** The dict branch of `_recurse_create_plist`: the entries `plist` is
        filled with. */
    method FillEntries(root: Value, objectTable: Table) returns (r: Result<seq<(Key, Value)>>)
      requires root.Dict?
      modifies this
      decreases 2 * Free(objectTable, recUids) + 1, root, 0
      ensures r == FlattenEntries(objectTable, convert, old(recUids), root, |root.entries|)
      ensures r.Ok? ==> recUids == old(recUids) && recDepth == old(recDepth)
      ensures r.Err? ==> old(recUids) <= recUids && recDepth >= old(recDepth)
    {
      ghost var guard := recUids;
      var plist: seq<(Key, Value)> := [];
      var i := 0;
      while i < |root.entries|
        invariant i <= |root.entries|
        invariant recUids == guard && recDepth == old(recDepth)
        invariant FlattenEntries(objectTable, convert, guard, root, i) == Ok(plist)
      {
        var (key, value) := root.entries[i];
        EntriesNext(objectTable, convert, guard, root, i);
        if key != ClassKey {
          assert root.entries[i] in root.entries;
          var step := ExpandValue(value, objectTable);
          if step.Err? {
            EntriesErrPersists(objectTable, convert, guard, root, i + 1, |root.entries|);
            return Err(step.error);
          }
          if step.value.Keep? {
            plist := DictSet(plist, OutKey(key), step.value.v);
          }
        }
        i := i + 1;
      }
      r := Ok(plist);
    }

    /** The list branch of `_recurse_create_plist`: the items `plist` is
        filled with. */
    method FillItems(root: Value, objectTable: Table) returns (r: Result<seq<Value>>)
      requires root.List?
      modifies this
      decreases 2 * Free(objectTable, recUids) + 1, root, 0
      ensures r == FlattenItems(objectTable, convert, old(recUids), root, |root.items|)
      ensures r.Ok? ==> recUids == old(recUids) && recDepth == old(recDepth)
      ensures r.Err? ==> old(recUids) <= recUids && recDepth >= old(recDepth)
    {
      ghost var guard := recUids;
      var plist: seq<Value> := [];
      var i := 0;
      while i < |root.items|
        invariant i <= |root.items|
        invariant recUids == guard && recDepth == old(recDepth)
        invariant FlattenItems(objectTable, convert, guard, root, i) == Ok(plist)
      {
        var step := ExpandValue(root.items[i], objectTable);
        if step.Err? {
          ItemsErrPersists(objectTable, convert, guard, root, i + 1, |root.items|);
          return Err(step.error);
        }
        if step.value.Keep? {
          plist := plist + [step.value.v];
        }
        i := i + 1;
      }
      r := Ok(plist);
    }
  }
}
