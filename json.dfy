/** `_get_json_writeable_plist`: copies a deserialized plist container by
    container into one JSON can hold, turning byte strings into lowercase
    hex and every other scalar into the text `str()` gives it. */
module Json {
  import opened Plist

  // ---------------------------------------------------------------------------
  // bytes.hex()

  /** A lowercase hex digit. */
  predicate IsHexDigit(c: char)
  {
    '0' <= c <= '9' || 'a' <= c <= 'f'
  }

  function HexDigit(n: nat): (c: char)
    requires n < 16
    ensures IsHexDigit(c)
  {
    "0123456789abcdef"[n]
  }

  /** `b.hex()`: two lowercase hex digits per byte, high nibble first. */
  function Hex(b: seq<byte>): (s: string)
    ensures |s| == 2 * |b|
    ensures forall i :: 0 <= i < |s| ==> IsHexDigit(s[i])
  {
    if b == [] then [] else [HexDigit(b[0] / 16), HexDigit(b[0] % 16)] + Hex(b[1..])
  }

  function HexValue(c: char): nat
  {
    if '0' <= c <= '9' then (c - '0') as nat
    else if 'a' <= c <= 'f' then (c - 'a') as nat + 10
    else 0
  }

  /** `bytes.fromhex(s)`, for the text `Hex` produces. */
  function Unhex(s: string): seq<byte>
  {
    if |s| < 2 then []
    else
      var hi, lo := HexValue(s[0]), HexValue(s[1]);
      [if hi < 16 && lo < 16 then hi * 16 + lo else 0] + Unhex(s[2..])
  }

  lemma HexDigitValue(n: nat)
    requires n < 16
    ensures HexValue(HexDigit(n)) == n
  {
  }

  /** No two byte strings share a hex text: reading it back gives the bytes. */
  lemma {:induction false} HexRoundTrip(b: seq<byte>)
    ensures Unhex(Hex(b)) == b
  {
    if b != [] {
      var s := Hex(b);
      assert s[2..] == Hex(b[1..]);
      HexDigitValue(b[0] / 16);
      HexDigitValue(b[0] % 16);
      HexRoundTrip(b[1..]);
      assert b == [b[0]] + b[1..];
    }
  }

  // ---------------------------------------------------------------------------
  // str() of a scalar

  /** `str(v)` of a scalar that is not a byte string. The two UID classes
      print as their libraries' `__repr__` does. */
  function ScalarText(v: Value): (s: string)
    requires !IsContainer(v) && !v.Bytes?
    ensures v.Str? ==> s == v.s
    ensures v.Int? ==> DecimalValue(s) == v.i
    ensures v.Bool? ==> (s == "True" <==> v.b) && (s == "False" <==> !v.b)
    ensures v.Uid? ==> |s| > 5 && s[..4] == "Uid(" && DecimalValue(s[4..|s| - 1]) == v.num
  {
    match v
    case Str(s) => s
    case Int(i) => DecimalText(i)
    case Bool(b) => if b then "True" else "False"
    case Null => "None"
    case Uid(n) => "Uid(" + DecimalText(n) + ")"
    case Ref(i) => "UID: " + DecimalText(i)
    case Other(text) => text
  }

  // ---------------------------------------------------------------------------
  // The specification

  /** What one dict value or list item becomes. */
  function JsonChild(v: Value): (r: Value)
    ensures IsContainer(v) <==> IsContainer(r)
    ensures !IsContainer(v) ==> r.Str?
    decreases v, 1
  {
    if IsContainer(v) then JsonForm(v)
    else if v.Bytes? then Str(Hex(v.data))
    else Str(ScalarText(v))
  }

  /** The container `out_plist` is filled to, from a fresh empty one. */
  function JsonForm(v: Value): (r: Value)
    requires IsContainer(v)
    ensures v.Dict? <==> r.Dict?
    decreases v, 0
  {
    if v.List? then List(seq(|v.items|, i requires 0 <= i < |v.items| => JsonChild(v.items[i])))
    else Dict(JsonEntries(v, |v.entries|))
  }

  /** `out_plist[k] = ...` for the first `n` entries of `v`. */
  function JsonEntries(v: Value, n: nat): seq<(Key, Value)>
    requires v.Dict? && n <= |v.entries|
    decreases v, 0, n
  {
    if n == 0 then []
    else DictSet(JsonEntries(v, n - 1), v.entries[n - 1].0, JsonChild(v.entries[n - 1].1))
  }

  /** What the normaliser produces: dicts with distinct keys, lists, and
      text. */
  predicate JsonReady(v: Value)
  {
    match v
    case Dict(es) => DistinctKeys(es) && forall i :: 0 <= i < |es| ==> JsonReady(es[i].1)
    case List(xs) => forall i :: 0 <= i < |xs| ==> JsonReady(xs[i])
    case Str(_) => true
    case _ => false
  }

  // ---------------------------------------------------------------------------
  // Properties

  /** The output holds only dicts with distinct keys, lists and text. */
  lemma {:induction false} JsonFormReady(v: Value)
    requires IsContainer(v)
    ensures JsonReady(JsonForm(v))
    decreases v, 0
  {
    if v.List? {
      forall i | 0 <= i < |v.items| ensures JsonReady(JsonForm(v).items[i]) {
        JsonChildReady(v.items[i]);
      }
    } else {
      JsonEntriesReady(v, |v.entries|);
    }
  }

  lemma {:induction false} JsonEntriesReady(v: Value, n: nat)
    requires v.Dict? && n <= |v.entries|
    ensures DistinctKeys(JsonEntries(v, n))
    ensures forall i :: 0 <= i < |JsonEntries(v, n)| ==> JsonReady(JsonEntries(v, n)[i].1)
    decreases v, 0, n
  {
    if n > 0 {
      JsonEntriesReady(v, n - 1);
      var prev := JsonEntries(v, n - 1);
      var (k, c) := (v.entries[n - 1].0, JsonChild(v.entries[n - 1].1));
      JsonChildReady(v.entries[n - 1].1);
      var es := DictSet(prev, k, c);
      DictSetKeys(prev, k, c);
      DictSetEntries(prev, k, c);
      forall i | 0 <= i < |es| ensures JsonReady(es[i].1) {
        if es[i] != (k, c) {
          assert es[i] == prev[i];
        }
      }
    }
  }

  lemma {:induction false} JsonChildReady(v: Value)
    ensures JsonReady(JsonChild(v))
    decreases v, 1
  {
    if IsContainer(v) {
      JsonFormReady(v);
    }
  }

  /** Every dict, at any depth, has distinct keys (as every Python dict has). */
  predicate UniqueKeys(v: Value)
  {
    match v
    case Dict(es) => DistinctKeys(es) && forall i :: 0 <= i < |es| ==> UniqueKeys(es[i].1)
    case List(xs) => forall i :: 0 <= i < |xs| ==> UniqueKeys(xs[i])
    case _ => true
  }

  /** `b` has the container shape of `a`: same kinds, same list lengths, the
      same dict keys in the same order, and text wherever `a` has a scalar. */
  predicate SameShape(a: Value, b: Value)
  {
    match a
    case Dict(es) =>
      b.Dict? && KeysOf(b.entries) == KeysOf(es) &&
      forall i :: 0 <= i < |es| ==> SameShape(es[i].1, b.entries[i].1)
    case List(xs) =>
      b.List? && |b.items| == |xs| &&
      forall i :: 0 <= i < |xs| ==> SameShape(xs[i], b.items[i])
    case _ => b.Str?
  }

  /** With distinct keys, filling the dict entry by entry keeps every key in
      its place with its converted value. */
  lemma {:induction false} JsonEntriesInPlace(v: Value, n: nat)
    requires v.Dict? && n <= |v.entries| && DistinctKeys(v.entries)
    ensures |JsonEntries(v, n)| == n
    ensures forall i :: 0 <= i < n ==> JsonEntries(v, n)[i] == (v.entries[i].0, JsonChild(v.entries[i].1))
  {
    if n > 0 {
      JsonEntriesInPlace(v, n - 1);
      var prev := JsonEntries(v, n - 1);
      var (k, x) := v.entries[n - 1];
      var c := JsonChild(x);
      forall i | 0 <= i < |prev| ensures KeysOf(prev)[i] != k {
        assert prev[i].0 == v.entries[i].0;
      }
      DictSetNew(prev, k, c);
      var r := JsonEntries(v, n);
      assert r == prev + [(k, c)];
      forall i | 0 <= i < n ensures r[i] == (v.entries[i].0, JsonChild(v.entries[i].1)) {
        if i < n - 1 {
          SnocAt(prev, (k, c), i);
        }
      }
    }
  }

  lemma SnocAt<T>(s: seq<T>, e: T, i: nat)
    requires i < |s|
    ensures (s + [e])[i] == s[i]
  {
  }

  /** The output has the input's shape. */
  lemma {:induction false} JsonFormShape(v: Value)
    requires IsContainer(v) && UniqueKeys(v)
    ensures SameShape(v, JsonForm(v))
    decreases v, 0
  {
    if v.Dict? {
      JsonEntriesInPlace(v, |v.entries|);
      var out := JsonForm(v).entries;
      assert KeysOf(out) == KeysOf(v.entries);
      forall i | 0 <= i < |v.entries| ensures SameShape(v.entries[i].1, out[i].1) {
        JsonChildShape(v.entries[i].1);
      }
    } else {
      forall i | 0 <= i < |v.items| ensures SameShape(v.items[i], JsonForm(v).items[i]) {
        JsonChildShape(v.items[i]);
      }
    }
  }

  lemma {:induction false} JsonChildShape(v: Value)
    requires UniqueKeys(v)
    ensures SameShape(v, JsonChild(v))
    decreases v, 1
  {
    if IsContainer(v) {
      JsonFormShape(v);
    }
  }

  /** Output already fit for JSON comes back unchanged. */
  lemma {:induction false} JsonReadyFixed(v: Value)
    requires IsContainer(v) && JsonReady(v)
    ensures JsonForm(v) == v
    decreases v, 0
  {
    if v.Dict? {
      JsonEntriesInPlace(v, |v.entries|);
      forall i | 0 <= i < |v.entries| ensures JsonChild(v.entries[i].1) == v.entries[i].1 {
        JsonChildFixed(v.entries[i].1);
      }
      assert JsonForm(v).entries == v.entries;
    } else {
      forall i | 0 <= i < |v.items| ensures JsonChild(v.items[i]) == v.items[i] {
        JsonChildFixed(v.items[i]);
      }
      assert JsonForm(v).items == v.items;
    }
  }

  lemma {:induction false} JsonChildFixed(v: Value)
    requires JsonReady(v)
    ensures JsonChild(v) == v
    decreases v, 1
  {
    if IsContainer(v) {
      JsonReadyFixed(v);
    }
  }

  /** Normalising twice is normalising once. */
  lemma JsonFormIdempotent(v: Value)
    requires IsContainer(v)
    ensures JsonForm(JsonForm(v)) == JsonForm(v)
  {
    JsonFormReady(v);
    JsonReadyFixed(JsonForm(v));
  }

  /** Byte strings become lowercase hex. */
  lemma HexExample()
    ensures JsonForm(List([Bytes([1, 171])])) == List([Str("01ab")])
  {
    var xs := [Bytes([1, 171])];
    assert Hex([171]) == "ab";
    assert Hex([1, 171]) == "01" + Hex([171]);
    assert JsonChild(xs[0]) == Str("01ab");
    assert JsonForm(List(xs)).items[0] == JsonChild(xs[0]);
  }

  /** Python's other scalars become the text `str()` gives them. */
  lemma ScalarExample()
    ensures JsonForm(List([Bool(true), Int(-5), Null])) == List([Str("True"), Str("-5"), Str("None")])
  {
    var xs := [Bool(true), Int(-5), Null];
    assert DecimalText(-5) == "-5";
    assert JsonForm(List(xs)).items[1] == JsonChild(xs[1]);
  }

  // ---------------------------------------------------------------------------
  // The method

  /** `_get_json_writeable_plist(in_plist, out_plist)` with `out_plist` the
      fresh empty container of `in_plist`'s kind that every caller passes:
      returns what `out_plist` is filled with. */
  method JsonWriteable(inPlist: Value) returns (outPlist: Value)
    requires IsContainer(inPlist)
    ensures outPlist == JsonForm(inPlist)
    decreases inPlist
  {
    if inPlist.List? {
      var out: seq<Value> := [];
      var i := 0;
      while i < |inPlist.items|
        invariant i <= |inPlist.items| && |out| == i
        invariant forall j :: 0 <= j < i ==> out[j] == JsonChild(inPlist.items[j])
      {
        var item := inPlist.items[i];
        if IsContainer(item) {
          var sub := JsonWriteable(item);
          out := out + [sub];
        } else if item.Bytes? {
          out := out + [Str(Hex(item.data))];
        } else {
          out := out + [Str(ScalarText(item))];
        }
        i := i + 1;
      }
      outPlist := List(out);
    } else {
      var out: seq<(Key, Value)> := [];
      var i := 0;
      while i < |inPlist.entries|
        invariant i <= |inPlist.entries|
        invariant out == JsonEntries(inPlist, i)
      {
        var (k, v) := inPlist.entries[i];
        if IsContainer(v) {
          var sub := JsonWriteable(v);
          out := DictSet(out, k, sub);
        } else if v.Bytes? {
          out := DictSet(out, k, Str(Hex(v.data)));
        } else {
          out := DictSet(out, k, Str(ScalarText(v)));
        }
        i := i + 1;
      }
      outPlist := Dict(out);
    }
  }
}
