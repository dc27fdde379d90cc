/** Root naming and assembly: `_get_root_element_names` reads the names of
    the archive's top objects from its `$top` dict, and the loop of
    `deserialize_plist` flattens each top object and puts the results
    together. */
module Roots {
  import opened Plist
  import opened Flatten

  const TopKey: Key := KText("$top")

  /** Python truthiness (`if top_element:`). Of the further objects
      `Other` stands for, only a float zero is falsy; the UID objects are
      plain objects and always truthy. */
  predicate Truthy(v: Value)
  {
    match v
    case Dict(es) => |es| > 0
    case List(xs) => |xs| > 0
    case Str(s) => |s| > 0
    case Bytes(b) => |b| > 0
    case Int(i) => i != 0
    case Bool(b) => b
    case Null => false
    case Other(text) => text != "0.0" && text != "-0.0"
    case Ref(_) => true
    case Uid(_) => true
  }

  /** `plist.get('$top', None)`: only a dict has `.get`. */
  function TopElement(doc: Value): Result<Value>
  {
    if !doc.Dict? then Err(AttributeError)
    else match Lookup(doc.entries, TopKey)
      case Some(v) => Ok(v)
      case None => Ok(Null)
  }

  /** The names, or `missing` when `$top` is absent or empty. */
  function TopNames(doc: Value, missing: Error): (r: Result<seq<Key>>)
  {
    var top :- TopElement(doc);
    if !Truthy(top) then Err(missing)
    else if !top.Dict? then Err(AttributeError)
    else Ok(KeysOf(top.entries))
  }

  /** `_get_root_element_names` as written: its error branch raises
      `NskaDeserializeError`, a name the module never defines, so a document
      without `$top` raises NameError; in every other case it agrees with
      the corrected version. */
  function RootNamesAsWritten(doc: Value): (r: Result<seq<Key>>)
    ensures r == Err(NameError) <==> RootNames(doc) == Err(NotAnArchive)
    ensures RootNames(doc) != Err(NotAnArchive) ==> r == RootNames(doc)
  {
    TopNames(doc, NameError)
  }

  /** `_get_root_element_names` as intended: a document without `$top`
      raises the module's DeserializeError. The names are the keys of `$top`
      in order, and there is at least one. */
  function RootNames(doc: Value): (r: Result<seq<Key>>)
    ensures r.Ok? <==> doc.Dict? && Lookup(doc.entries, TopKey).Some? &&
                       Lookup(doc.entries, TopKey).value.Dict? && |Lookup(doc.entries, TopKey).value.entries| > 0
    ensures r.Ok? ==> |r.value| > 0 && r.value == KeysOf(Lookup(doc.entries, TopKey).value.entries)
    ensures r == Err(NotAnArchive) <==> doc.Dict? && (Lookup(doc.entries, TopKey).None? || !Truthy(Lookup(doc.entries, TopKey).value))
    ensures !doc.Dict? ==> r == Err(AttributeError)
    ensures doc.Dict? && Lookup(doc.entries, TopKey).Some? ==>
      var top := Lookup(doc.entries, TopKey).value;
      Truthy(top) && !top.Dict? ==> r == Err(AttributeError)
  {
    TopNames(doc, NotAnArchive)
  }

  /** A dict without `$top`, or with a falsy `$top` such as the float
      `0.0`: the code as written raises NameError instead of
      DeserializeError. */
  lemma MissingTopExample()
    ensures RootNamesAsWritten(Dict([])) == Err(NameError)
    ensures RootNames(Dict([])) == Err(NotAnArchive)
    ensures var doc := Dict([(TopKey, Other("0.0"))]);
      RootNamesAsWritten(doc) == Err(NameError) && RootNames(doc) == Err(NotAnArchive)
  {
    var doc := Dict([(TopKey, Other("0.0"))]);
    assert KeysOf(doc.entries)[0] == TopKey;
    assert Lookup(doc.entries, TopKey) == Some(Other("0.0"));
  }

  // ---------------------------------------------------------------------------
  // `root_name.lower() != 'root'`

  function LowerChar(c: char): char
  {
    if 'A' <= c <= 'Z' then (c as int + 32) as char else c
  }

  /** `s.lower()` on ASCII letters. */
  function Lower(s: string): (r: string)
    ensures |r| == |s|
  {
    seq(|s|, i requires 0 <= i < |s| => LowerChar(s[i]))
  }

  /** The canonical root name, in any letter case. */
  predicate IsRootName(name: string)
  {
    Lower(name) == "root"
  }

  lemma IsRootNameCases(name: string)
    ensures IsRootName(name) <==>
      |name| == 4 && name[0] in "rR" && name[1] in "oO" && name[2] in "oO" && name[3] in "tT"
  {
    if |name| == 4 && name[0] in "rR" && name[1] in "oO" && name[2] in "oO" && name[3] in "tT" {
      assert Lower(name) == "root";
    }
    if IsRootName(name) {
      assert Lower(name)[0] == 'r' && Lower(name)[1] == 'o' && Lower(name)[2] == 'o' && Lower(name)[3] == 't';
    }
  }

  // ---------------------------------------------------------------------------
  // Assembly

  /** `ns_keyed_archiver_obj[root_name]` of the binary-plist library. */
  type Resolver = Key -> Value

  /** The plist the loop makes of one top object: a dict or list is
      flattened and wrapped as `{name: value}` unless its name is `root`
      (only a text name has `.lower()`); anything else is wrapped as it is. */
  function RootPlist(t: Table, cv: Converter, guard: seq<nat>, name: Key, root: Value): (r: Result<Value>)
    ensures !IsContainer(root) ==> r == Ok(Dict([(name, root)]))
    ensures IsContainer(root) && name.KText? && FlattenContainer(t, cv, guard, root).Ok? ==>
      var p := FlattenContainer(t, cv, guard, root).value;
      r == Ok(if IsRootName(name.text) then p else Dict([(name, p)]))
    ensures IsContainer(root) && FlattenContainer(t, cv, guard, root).Err? ==> r == FlattenContainer(t, cv, guard, root)
    ensures IsContainer(root) && !name.KText? && FlattenContainer(t, cv, guard, root).Ok? ==> r == Err(AttributeError)
  {
    if IsContainer(root) then
      var p :- FlattenContainer(t, cv, guard, root);
      if !name.KText? then Err(AttributeError)
      else if IsRootName(name.text) then Ok(p)
      else Ok(Dict([(name, p)]))
    else Ok(Dict([(name, root)]))
  }

  /** The plists of the first `n` names, in order. */
  function RootPlists(t: Table, cv: Converter, guard: seq<nat>, names: seq<Key>, resolve: Resolver, n: nat): (r: Result<seq<Value>>)
    requires n <= |names|
    ensures r.Ok? <==> forall i :: 0 <= i < n ==> RootPlist(t, cv, guard, names[i], resolve(names[i])).Ok?
    ensures r.Ok? ==> |r.value| == n
    ensures r.Ok? ==> forall i :: 0 <= i < n ==> RootPlist(t, cv, guard, names[i], resolve(names[i])) == Ok(r.value[i])
  {
    if n == 0 then Ok([])
    else
      var ps :- RootPlists(t, cv, guard, names, resolve, n - 1);
      var p :- RootPlist(t, cv, guard, names[n - 1], resolve(names[n - 1]));
      Ok(ps + [p])
  }

  /** What `deserialize_plist` returns: the one plist when there is exactly
      one name, otherwise the list of them in declared order. */
  function Assembled(t: Table, cv: Converter, guard: seq<nat>, names: seq<Key>, resolve: Resolver): (r: Result<Value>)
    ensures r.Ok? <==> forall i :: 0 <= i < |names| ==> RootPlist(t, cv, guard, names[i], resolve(names[i])).Ok?
    ensures |names| == 1 ==> r == RootPlist(t, cv, guard, names[0], resolve(names[0]))
    ensures |names| != 1 && r.Ok? ==>
      r.value.List? && |r.value.items| == |names| &&
      forall i :: 0 <= i < |names| ==> RootPlist(t, cv, guard, names[i], resolve(names[i])) == Ok(r.value.items[i])
  {
    var ps :- RootPlists(t, cv, guard, names, resolve, |names|);
    if |names| == 1 then
      assert RootPlists(t, cv, guard, names, resolve, 1).Ok? <==> RootPlist(t, cv, guard, names[0], resolve(names[0])).Ok?;
      Ok(ps[0])
    else Ok(List(ps))
  }

  /** Naming, with an empty object table and an empty top object: `Root` (any
      letter case) is not wrapped, even when there are further top objects;
      any other name is; a scalar is wrapped whatever its name. */
  lemma NamingExamples()
    ensures var t: Table := []; var cv: Converter := (x, t) => x;
      RootPlist(t, cv, [], KText("Root"), Dict([])) == Ok(Dict([])) &&
      RootPlist(t, cv, [], KText("TopObject"), Dict([])) == Ok(Dict([(KText("TopObject"), Dict([]))])) &&
      RootPlist(t, cv, [], KText("root"), Int(5)) == Ok(Dict([(KText("root"), Int(5))])) &&
      Assembled(t, cv, [], [KText("root"), KText("extra")], k => Dict([])) ==
        Ok(List([Dict([]), Dict([(KText("extra"), Dict([]))])]))
  {
    var t: Table := [];
    var cv: Converter := (x, t) => x;
    assert FlattenEntries(t, cv, [], Dict([]), 0) == Ok([]);
    assert FlattenContainer(t, cv, [], Dict([])) == Ok(Dict([]));
    assert IsRootName("Root") && IsRootName("root");
    assert !IsRootName("TopObject") && !IsRootName("extra");
    var names := [KText("root"), KText("extra")];
    var resolve: Resolver := k => Dict([]);
    assert resolve(names[0]) == Dict([]) && resolve(names[1]) == Dict([]);
    assert RootPlist(t, cv, [], names[0], resolve(names[0])) == Ok(Dict([]));
    assert RootPlist(t, cv, [], names[1], resolve(names[1])) == Ok(Dict([(KText("extra"), Dict([]))]));
    assert RootPlists(t, cv, [], names, resolve, 0) == Ok([]);
    assert [] + [Dict([])] == [Dict([])];
    assert RootPlists(t, cv, [], names, resolve, 1) == Ok([Dict([])]);
    assert [Dict([])] + [Dict([(KText("extra"), Dict([]))])] == [Dict([]), Dict([(KText("extra"), Dict([]))])];
    assert RootPlists(t, cv, [], names, resolve, 2) == Ok([Dict([]), Dict([(KText("extra"), Dict([]))])]);
  }

  /** The loop of `deserialize_plist` over the root names, with the
      flattener's globals in `d`. */
  method AssembleRoots(d: Deserializer, names: seq<Key>, resolve: Resolver, objectTable: Table) returns (r: Result<Value>)
    modifies d
    ensures r == Assembled(objectTable, d.convert, old(d.recUids), names, resolve)
    ensures r.Ok? ==> d.recUids == old(d.recUids) && d.recDepth == old(d.recDepth)
  {
    ghost var guard := d.recUids;
    var topLevel: Value := List([]);
    var i := 0;
    while i < |names|
      invariant i <= |names|
      invariant d.recUids == guard && d.recDepth == old(d.recDepth)
      invariant RootPlists(objectTable, d.convert, guard, names, resolve, i).Ok?
      invariant |names| != 1 ==> topLevel == List(RootPlists(objectTable, d.convert, guard, names, resolve, i).value)
      invariant |names| == 1 && i == 0 ==> topLevel == List([])
      invariant |names| == 1 && i == 1 ==> topLevel == RootPlists(objectTable, d.convert, guard, names, resolve, 1).value[0]
    {
      var rootName := names[i];
      var root := resolve(rootName);
      var plist: Value;
      if IsContainer(root) {
        var c := d.CreatePlist(root, objectTable);
        if c.Err? {
          RootPlistsErr(objectTable, d.convert, guard, names, resolve, i);
          return Err(c.error);
        }
        plist := c.value;
        if !rootName.KText? {
          RootPlistsErr(objectTable, d.convert, guard, names, resolve, i);
          return Err(AttributeError);
        }
        if !IsRootName(rootName.text) {
          plist := Dict([(rootName, plist)]);
        }
      } else {
        plist := Dict([(rootName, root)]);
      }
      if |names| == 1 {
        topLevel := plist;
      } else {
        topLevel := List(topLevel.items + [plist]);
      }
      i := i + 1;
    }
    r := Ok(topLevel);
  }

  /** An exception for name `i` ends the whole assembly with it. */
  lemma RootPlistsErr(t: Table, cv: Converter, guard: seq<nat>, names: seq<Key>, resolve: Resolver, i: nat)
    requires i < |names|
    requires RootPlists(t, cv, guard, names, resolve, i).Ok?
    requires RootPlist(t, cv, guard, names[i], resolve(names[i])).Err?
    ensures Assembled(t, cv, guard, names, resolve) == RootPlist(t, cv, guard, names[i], resolve(names[i]))
  {
    RootPlistsErrFrom(t, cv, guard, names, resolve, i, |names|);
  }

  lemma {:induction false} RootPlistsErrFrom(t: Table, cv: Converter, guard: seq<nat>, names: seq<Key>, resolve: Resolver, i: nat, n: nat)
    requires i < n <= |names|
    requires RootPlists(t, cv, guard, names, resolve, i).Ok?
    requires RootPlist(t, cv, guard, names[i], resolve(names[i])).Err?
    ensures RootPlists(t, cv, guard, names, resolve, n) == RootPlist(t, cv, guard, names[i], resolve(names[i])).PropagateFailure()
  {
    if n > i + 1 {
      RootPlistsErrFrom(t, cv, guard, names, resolve, i, n - 1);
    }
  }
}
