/** Property-list values as the deserializer sees them, Python-style dict
    insertion, and the text forms Python's `str()` gives keys. */
module Plist {

  /** The exceptions the modelled code can raise. */
  datatype Error =
    | IndexError      // a typed reference past the end of the object table
    | AttributeError  // `.get`, `.keys`, `.lower` or `.items` on a value that lacks it
    | NameError       // a name the module never defines
    | NotAnArchive    // DeserializeError: the document has no `$top` element

  datatype Option<+T> = None | Some(value: T)

  datatype Result<+T> = Ok(value: T) | Err(error: Error) {
    predicate IsFailure() { Err? }
    function PropagateFailure<U>(): Result<U> requires Err? { Err(error) }
    function Extract(): T requires Ok? { value }
  }

  type byte = b: int | 0 <= b < 256

  /** Dictionary keys: text, or an integer (which Python stringifies on output). */
  datatype Key = KText(text: string) | KInt(n: int)

  /** A property-list value. `Ref` is the typed back-reference of the binary
      reader (an index into the object table); `Uid` is the UID object the XML
      rewriter creates; `Other` is any further object (a date, ...) carried by
      the text `str()` gives it. Dicts are ordered lists of entries. */
  datatype Value =
    | Dict(entries: seq<(Key, Value)>)
    | List(items: seq<Value>)
    | Ref(index: nat)
    | Uid(num: int)
    | Str(s: string)
    | Bytes(data: seq<byte>)
    | Int(i: int)
    | Bool(b: bool)
    | Null
    | Other(text: string)

  predicate IsContainer(v: Value) { v.Dict? || v.List? }

  // ---------------------------------------------------------------------------
  // Dicts as ordered entry lists

  function KeysOf(d: seq<(Key, Value)>): seq<Key>
  {
    seq(|d|, i requires 0 <= i < |d| => d[i].0)
  }

  predicate DistinctKeys(d: seq<(Key, Value)>)
  {
    forall i, j :: 0 <= i < j < |d| ==> d[i].0 != d[j].0
  }

  /** Where key `k` sits in `d`: its first occurrence. */
  function IndexOfKey(d: seq<(Key, Value)>, k: Key): (i: nat)
    requires k in KeysOf(d)
    ensures i < |d| && d[i].0 == k
    ensures forall j :: 0 <= j < i ==> d[j].0 != k
  {
    if d[0].0 == k then 0
    else
      assert KeysOf(d[1..]) == KeysOf(d)[1..];
      1 + IndexOfKey(d[1..], k)
  }

  /** The first place that holds `k` is where `IndexOfKey` finds it. */
  lemma {:induction false} FirstIndexIs(d: seq<(Key, Value)>, k: Key, i: nat)
    requires i < |d| && d[i].0 == k
    requires forall j :: 0 <= j < i ==> d[j].0 != k
    ensures k in KeysOf(d) && IndexOfKey(d, k) == i
  {
    assert KeysOf(d)[i] == k;
    if i > 0 {
      FirstIndexIs(d[1..], k, i - 1);
      assert KeysOf(d[1..]) == KeysOf(d)[1..];
    }
  }

  /** `d.get(k)` of a Python dict. */
  function Lookup(d: seq<(Key, Value)>, k: Key): Option<Value>
  {
    if k in KeysOf(d) then Some(d[IndexOfKey(d, k)].1) else None
  }

  /** Two entry lists whose keys agree up to the first occurrence of `k` in
      either find `k` at the same place. */
  lemma SameFirstIndex(d: seq<(Key, Value)>, e: seq<(Key, Value)>, k: Key)
    requires k in KeysOf(d)
    requires |d| <= |e| && forall j :: 0 <= j < |d| ==> e[j].0 == d[j].0
    ensures k in KeysOf(e) && IndexOfKey(e, k) == IndexOfKey(d, k)
  {
    var i := IndexOfKey(d, k);
    assert KeysOf(e)[i] == k;
  }

  /** `d[k] = v` of a Python dict. */
  function DictSet(d: seq<(Key, Value)>, k: Key, v: Value): seq<(Key, Value)>
  {
    if k in KeysOf(d) then d[IndexOfKey(d, k) := (k, v)] else d + [(k, v)]
  }

  /** `d[k] = v` keeps an existing key in its place and appends a new one, so
      keys stay distinct. */
  lemma DictSetKeys(d: seq<(Key, Value)>, k: Key, v: Value)
    ensures KeysOf(DictSet(d, k, v)) == if k in KeysOf(d) then KeysOf(d) else KeysOf(d) + [k]
    ensures DistinctKeys(d) ==> DistinctKeys(DictSet(d, k, v))
  {
    var r := DictSet(d, k, v);
    if k in KeysOf(d) {
      assert KeysOf(r) == KeysOf(d);
    } else {
      assert KeysOf(r) == KeysOf(d) + [k];
      assert forall j :: 0 <= j < |d| ==> r[j].0 == KeysOf(d)[j] != k;
    }
  }

  /** After `d[k] = v` the key maps to `v`. */
  lemma DictSetLookup(d: seq<(Key, Value)>, k: Key, v: Value)
    ensures Lookup(DictSet(d, k, v), k) == Some(v)
  {
    var r := DictSet(d, k, v);
    DictSetKeys(d, k, v);
    if k in KeysOf(d) {
      SameFirstIndex(d, r, k);
    } else {
      forall j | 0 <= j < |d| ensures r[j].0 != k {
        assert KeysOf(d)[j] == r[j].0;
      }
      FirstIndexIs(r, k, |d|);
    }
  }

  /** After `d[k] = v` every other key keeps its value. */
  lemma DictSetLookupOther(d: seq<(Key, Value)>, k: Key, v: Value, k': Key)
    requires k' != k
    ensures Lookup(DictSet(d, k, v), k') == Lookup(d, k')
  {
    var r := DictSet(d, k, v);
    DictSetKeys(d, k, v);
    if k' in KeysOf(d) {
      SameFirstIndex(d, r, k');
    } else {
      assert k' !in KeysOf(r);
    }
  }

  /** After `d[k] = v` every entry is the new one or the entry of `d` at the
      same place. */
  lemma DictSetEntries(d: seq<(Key, Value)>, k: Key, v: Value)
    ensures forall i :: 0 <= i < |DictSet(d, k, v)| ==>
      DictSet(d, k, v)[i] == (k, v) || (i < |d| && DictSet(d, k, v)[i] == d[i])
  {
  }

  /** Inserting a key the dict does not hold appends it. */
  lemma DictSetNew(d: seq<(Key, Value)>, k: Key, v: Value)
    requires k !in KeysOf(d)
    ensures DictSet(d, k, v) == d + [(k, v)]
  {
  }

  // ---------------------------------------------------------------------------
  // Python's str() of integers and keys

  function DigitChar(d: nat): (c: char)
    requires d < 10
    ensures '0' <= c <= '9'
  {
    "0123456789"[d]
  }

  /** Decimal digits of a natural number, most significant first. */
  function Digits(n: nat): (s: string)
    ensures |s| >= 1
    ensures forall i :: 0 <= i < |s| ==> '0' <= s[i] <= '9'
  {
    if n < 10 then [DigitChar(n)] else Digits(n / 10) + [DigitChar(n % 10)]
  }

  /** The number a string of decimal digits spells, `int(s)`. */
  function DigitsValue(s: string): nat
  {
    if s == [] then 0
    else
      var c := s[|s| - 1];
      DigitsValue(s[..|s| - 1]) * 10 + if '0' <= c <= '9' then (c - '0') as nat else 0
  }

  /** Reading the digits back gives the number. */
  lemma {:induction false} DigitsRoundTrip(n: nat)
    ensures DigitsValue(Digits(n)) == n
  {
    var s := Digits(n);
    var d := n % 10;
    assert "0123456789"[d] - '0' == d as char;
    if n >= 10 {
      DigitsRoundTrip(n / 10);
      assert s[..|s| - 1] == Digits(n / 10);
    }
  }

  /** `int(s)` for an optional minus sign followed by decimal digits. */
  function DecimalValue(s: string): int
  {
    if s != [] && s[0] == '-' then -(DigitsValue(s[1..]) as int) else DigitsValue(s)
  }

  /** `str(n)` of a Python int: it is never empty, starts with `-` exactly
      for a negative number, and `int()` reads it back. */
  function DecimalText(n: int): (s: string)
    ensures |s| >= 1 && (s[0] == '-' <==> n < 0)
    ensures DecimalValue(s) == n
  {
    if n < 0 then
      DigitsRoundTrip(-n);
      assert ("-" + Digits(-n))[1..] == Digits(-n);
      "-" + Digits(-n)
    else
      DigitsRoundTrip(n);
      Digits(n)
  }

  /** `str(key)`: text keys are kept, integer keys become their decimal text. */
  function KeyText(k: Key): string
  {
    match k
    case KText(s) => s
    case KInt(n) => DecimalText(n)
  }

}
