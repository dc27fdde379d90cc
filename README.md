# nska_deserialize in Dafny

A model of the core of `nska_deserialize`, the Python module that turns
Apple NSKeyedArchiver property lists into plain nested dicts and lists. An
NSKeyedArchiver file stores an object graph as a flat table of records. The
records refer to each other through integer UIDs. This model covers the
module's four tree transformations:

- **Graph flattener** (`flatten.dfy`, module `Flatten`). This is
  `_recurse_create_plist` together with `_recurse_safely`. It walks a dict
  or list and resolves typed references through the object table.
  - A resolved dict or list is expanded while its UID is on the guard stack
    (the global `rec_uids`). A UID already on the stack is a back-edge and
    is left out.
  - `$class` keys are dropped, null becomes `''`, and keys are stringified.
  - The pure functions `FlattenValue`, `FlattenContainer`, `FlattenEntries`,
    `FlattenItems` and `Guarded` specify the walk.
  - The class `Deserializer` holds the module's globals `rec_uids` and
    `rec_depth` and runs the walk with loops. Each of its methods is proved
    equal to the specification function.
- **CF$UID rewriter** (`cfuid.dfy`, module `CFUid`). This is
  `_convert_CFUID_to_UID`. Every dict below the top that carries an integer
  `CF$UID` is replaced, in its parent, by a UID object.
- **Root naming and assembly** (`roots.dfy`, module `Roots`).
  - `_get_root_element_names` gives the keys of `$top`.
  - The loop of `deserialize_plist` flattens each root and wraps it as
    `{name: value}` unless the name is `root`, ignoring letter case.
  - One root gives that plist. Several roots give a list, in declared order.
- **JSON normaliser** (`json.dfy`, module `Json`). This is
  `_get_json_writeable_plist`. It copies the tree shape for shape. Byte
  strings become lowercase hex, and every other scalar becomes the text
  `str()` gives it.

`plist.dfy` (module `Plist`) holds the shared pieces:
- the value datatype;
- Python dict insertion (`d[k] = v` keeps an existing key's place and
  appends a new key);
- `str()` of integers and keys;
- the exceptions the modelled code raises, returned as `Result` values.

Python fills a fresh empty container that the caller passes in. Every caller
passes a new `{}` or `[]`. So the model's recursive methods return the
filled container, built in a loop by reassigning a local sequence.

Modelling choices:
- **Two UID kinds.** The binary reader's `BplistUID` is `Ref(index)`, which
  the flattener resolves. The XML rewriter's `biplist.Uid` is `Uid(num)`;
  the flattener copies it as a plain scalar, as the Python does.
- **Bool counts as an int.** `isinstance(num, int)` accepts Python's `bool`,
  so a `CF$UID` of `True` becomes `Uid(1)`.
- **Error paths.** The module has no `try`/`finally` around the guard
  stack. After an exception, the model leaves the pushed UIDs and the
  raised `rec_depth` in place, as the Python does.

Two behaviours of the code are worth stating outright:

- **Cycles.** The walk never pushes the UID of the root it starts from.
  So in a cycle `A -> B -> A`, record `A` is expanded again inside `B`,
  and flattening `A` gives `{"to_b": {"to_a": {}}}`
  (`Flatten.CycleExample`).
- **Multi-root archives.** A root named `root` is not wrapped, whatever
  the number of roots (`Roots.NamingExamples`).

## Model

| member | source | states |
|---|---|---|
| Plist.DecimalText | nska_deserialize.py:96-97 | `str()` of an integer key is never empty, starts with `-` exactly for a negative number, and reads back as the same integer, so distinct integer keys give distinct text |
| Plist.DigitsRoundTrip | nska_deserialize.py:96-97 | the decimal digits of a natural number read back as that number |
| Plist.DictSetKeys | nska_deserialize.py:99 | `plist[key] = v` keeps an existing key in its place and appends a new key at the end, so distinct keys stay distinct |
| Plist.DictSetLookup | nska_deserialize.py:99 | after `plist[key] = v` the key maps to `v` |
| Plist.DictSetLookupOther | nska_deserialize.py:99 | after `plist[key] = v` every other key keeps the value it had |
| Flatten.PushShrinks | nska_deserialize.py:53-56 | pushing a UID that is in the table and not yet on the stack leaves one fewer UID that can still be pushed, so the guarded expansion of references is finite (Python's recursion limit aside, see below) |
| Flatten.NullToEmpty | nska_deserialize.py:93-94 | the stored value is never null, and any value that was not null is stored unchanged |
| Flatten.OutKeyIsNotClass | nska_deserialize.py:96-97 | a key other than `$class` is stored as text and never as `$class`, also after `str()` of an integer key |
| Flatten.Guarded | nska_deserialize.py:50-59 | `_recurse_safely` reports a skip exactly when the UID is already on the stack; otherwise the expanded container has the kind of the one it expands |
| Flatten.FlattenValue | nska_deserialize.py:71-95 | one dict value or list item is left out exactly when it is a reference to a container whose UID is on the stack; a reference past the end of the table raises IndexError |
| Flatten.FlattenContainer | nska_deserialize.py:61-128 | the filled container has the input's kind |
| Flatten.FlattenItems | nska_deserialize.py:100-127 | the list filled from the first n items has at most n items |
| Flatten.GuardedClean | nska_deserialize.py:50-59 | a container expanded under the guard is flat, and has no references left when the converter resolves every record |
| Flatten.ValueClean | nska_deserialize.py:71-95 | a kept value is flat (text keys, never `$class`, distinct keys, no null anywhere), and reference-free when the converter resolves every record |
| Flatten.ContainerClean | nska_deserialize.py:61-128 | the filled container is flat, and reference-free when the converter resolves every record |
| Flatten.EntriesClean | nska_deserialize.py:67-99 | the dict filled from the first n entries is flat, and reference-free when the converter resolves every record |
| Flatten.ItemsClean | nska_deserialize.py:100-127 | the list filled from the first n items is flat, and reference-free when the converter resolves every record |
| Flatten.EntriesKeysStep | nska_deserialize.py:67-99 | one more entry keeps every key already stored and adds at most that entry's stringified key, exactly when it is neither `$class` nor a back-edge |
| Flatten.KeptKeysPresent | nska_deserialize.py:67-99 | every entry that is neither `$class` nor a back-edge has its stringified key in the output |
| Flatten.KeysFromKept | nska_deserialize.py:67-99 | every output key is the stringified key of an entry that is neither `$class` nor a back-edge |
| Flatten.EntriesKeys | nska_deserialize.py:67-99 | the output keys are exactly the stringified keys of the entries that are neither `$class` nor a back-edge, in both directions |
| Flatten.EntryLast | nska_deserialize.py:99 | when the last entry is kept, its stringified key maps to its flattened value |
| Flatten.EntryElsewhere | nska_deserialize.py:67-99 | an entry that is left out, or stored under another key, leaves what a key maps to unchanged |
| Flatten.EntryAt | nska_deserialize.py:67-99 | a key of the filled dict maps to the flattened value of the last kept entry with that stringified key, so a later entry overwrites an earlier one |
| Flatten.EntriesValues | nska_deserialize.py:67-99 | every kept entry that no later kept entry overwrites has its flattened value stored under its stringified key |
| Flatten.ItemsCount | nska_deserialize.py:100-127 | the output list has one item for every input item that is not a back-edge |
| Flatten.ItemAt | nska_deserialize.py:100-127 | a kept item sits at its input index minus the number of back-edges before it, and holds that item's flattened value |
| Flatten.ItemsInOrder | nska_deserialize.py:100-127 | the output list is the input list minus its back-edges: its length is n minus the skips, and each kept item sits at its index minus the skips before it |
| Flatten.CycleExample | nska_deserialize.py:50-59 | two records referring to each other flatten from the first to `{"to_b": {"to_a": {}}}`, so the walk stops |
| Flatten.KeyExample | nska_deserialize.py:67-99 | `$class` is dropped before its value is looked up; integer key `1` and text key `"1"` collide and the later value wins; null is stored as `''` |
| Flatten.EntriesErrPersists | nska_deserialize.py:67-99 | once an entry raises, filling the dict from any longer prefix raises the same exception |
| Flatten.ItemsErrPersists | nska_deserialize.py:100-127 | once an item raises, filling the list from any longer prefix raises the same exception |
| Flatten.Deserializer.constructor | nska_deserialize.py:40-41 | the globals start as `rec_depth = 0` and an empty `rec_uids` |
| Flatten.Deserializer.RecurseSafely | nska_deserialize.py:50-59 | the method returns `Guarded` of the stack it found; on a normal return `rec_uids` and `rec_depth` are as they were; after an exception the pushed UID is still on the stack |
| Flatten.Deserializer.ExpandValue | nska_deserialize.py:71-95 | the method returns `FlattenValue` of the stack it found, and on a normal return the globals are as they were |
| Flatten.Deserializer.CreatePlist | nska_deserialize.py:61-128 | the method returns `FlattenContainer` of the stack it found; on a normal return the globals are as they were; after an exception `rec_depth` stays raised and the stack only grew |
| Flatten.Deserializer.FillEntries | nska_deserialize.py:67-99 | the loop over the dict's entries returns `FlattenEntries` of all of them, and on a normal return leaves the globals as they were |
| Flatten.Deserializer.FillItems | nska_deserialize.py:100-127 | the loop over the list's items returns `FlattenItems` of all of them, and on a normal return leaves the globals as they were |
| CFUid.Rewritten | nska_deserialize.py:130-153 | the rewrite keeps a dict a dict with the same keys in the same order, and a list a list of the same length |
| CFUid.RewriteChild | nska_deserialize.py:136-143 | a dict whose `CF$UID` is an integer becomes `Uid(num)`; any other dict stays a dict with the same keys in order; a list stays a list of the same length; anything else is left as it is |
| CFUid.RewrittenSettled | nska_deserialize.py:130-153 | after the rewrite no dict below the top carries an integer `CF$UID` |
| CFUid.ChildRewrittenSettled | nska_deserialize.py:136-143 | a rewritten entry or element is not itself a stand-in and has none below it |
| CFUid.FixedIffSettled | nska_deserialize.py:130-153 | the rewrite leaves a value unchanged exactly when no dict below its top carries an integer `CF$UID` |
| CFUid.ChildFixedIffSettled | nska_deserialize.py:136-143 | an entry or element is left as it is exactly when neither it nor anything below it is a stand-in |
| CFUid.RewriteIdempotent | nska_deserialize.py:130-153 | rewriting twice gives the same as rewriting once |
| CFUid.RewriteExamples | nska_deserialize.py:136-153 | `{"CF$UID": 7}` becomes `Uid(7)` under a dict key and inside nested lists; the top container is never replaced; a non-integer `CF$UID` leaves its dict as it is |
| CFUid.ConvertCFUIDToUID | nska_deserialize.py:130-153 | the loops that overwrite entries and elements in place produce `Rewritten` of the input |
| CFUid.ConvertChild | nska_deserialize.py:136-143 | a dict or list child becomes what `RewriteChild` gives: `Uid(num)` for a stand-in, the walked container otherwise |
| Roots.RootNames | nska_deserialize.py:155-169 | the names are exactly the keys of `$top`, in order, and there is at least one; a missing or falsy `$top` (a falsy non-dict such as `''`, `0` or `0.0` included) raises DeserializeError; a non-dict document or a truthy non-dict `$top` raises AttributeError |
| Roots.RootNamesAsWritten | nska_deserialize.py:155-169 | the code as written raises NameError exactly where the corrected version raises DeserializeError, and agrees with it everywhere else |
| Roots.MissingTopExample | nska_deserialize.py:164-167 | a document without `$top`, or whose `$top` is the float `0.0`, raises NameError as written, and DeserializeError once corrected |
| Roots.IsRootNameCases | nska_deserialize.py:241 | a name counts as `root` exactly when it is four letters spelling `root` in any mix of letter case |
| Roots.RootPlists | nska_deserialize.py:236-249 | the root plists succeed exactly when every root's plist does; there is one per name, in declared order |
| Roots.RootPlist | nska_deserialize.py:238-249 | a scalar root is wrapped as `{name: root}`; a container root is flattened and then wrapped unless its name is `root`; an exception from flattening is passed on; a non-text name of a container root raises AttributeError |
| Roots.Assembled | nska_deserialize.py:233-256 | the assembly succeeds exactly when every root's plist does; one name gives that root's plist itself; any other number gives a list with one plist per name, in declared order |
| Roots.NamingExamples | nska_deserialize.py:236-256 | `Root` is not wrapped, `TopObject` is wrapped, a scalar is wrapped under any name, and roots `root` and `extra` give `[{}, {"extra": {}}]` |
| Roots.RootPlistsErr | nska_deserialize.py:236-256 | an exception for one root ends the whole assembly with that exception |
| Roots.AssembleRoots | nska_deserialize.py:233-256 | the loop over the root names returns `Assembled` of the stack it found, and on a normal return leaves the globals as they were |
| Json.Hex | nska_deserialize.py:270 | `bytes.hex()` gives two characters per byte, each a lowercase hex digit |
| Json.HexRoundTrip | nska_deserialize.py:284 | reading the hex text back gives the original bytes, so no two byte strings share a text |
| Json.ScalarText | nska_deserialize.py:271-272 | `str()` keeps a string as it is, gives an integer a text that reads back as that integer, gives `True`/`False` by the boolean, and writes a UID number inside `Uid(...)` so that it reads back |
| Json.JsonChild | nska_deserialize.py:262-272 | a converted item is a container exactly when the input is, and text otherwise |
| Json.JsonForm | nska_deserialize.py:258-286 | the output container has the input's kind |
| Json.JsonFormReady | nska_deserialize.py:258-286 | the output holds only dicts with distinct keys, lists and text, at every depth |
| Json.JsonEntriesReady | nska_deserialize.py:275-286 | the filled dict has distinct keys and only JSON-ready values |
| Json.JsonChildReady | nska_deserialize.py:262-272 | each converted item is JSON-ready |
| Json.JsonEntriesInPlace | nska_deserialize.py:275-286 | with distinct input keys, every key keeps its place and maps to its converted value |
| Json.JsonFormShape | nska_deserialize.py:258-286 | the output has the input's shape: the same kinds, list lengths and dict keys in order, with text wherever the input has a scalar |
| Json.JsonChildShape | nska_deserialize.py:262-272 | each converted item has its input's shape |
| Json.JsonReadyFixed | nska_deserialize.py:258-286 | a tree already fit for JSON comes back unchanged |
| Json.JsonChildFixed | nska_deserialize.py:262-272 | an item already fit for JSON is converted to itself |
| Json.JsonFormIdempotent | nska_deserialize.py:258-286 | normalising twice gives the same as normalising once |
| Json.HexExample | nska_deserialize.py:270 | bytes `01 ab` become the text `"01ab"` |
| Json.ScalarExample | nska_deserialize.py:272 | `True`, `-5` and `None` become `"True"`, `"-5"` and `"None"` |
| Json.JsonWriteable | nska_deserialize.py:258-286 | the loops that fill the output container produce `JsonForm` of the input |

## Left out

- File and stream I/O are not modelled: opening files, `seek`/`read`, and the writers `write_plist_to_json_file` and `write_plist_to_file`. They are plumbing around the modelled functions.
- Flatten.Converter and Roots.Resolver are total functions: the model assumes `NSKeyedArchiver_convert` and `ns_keyed_archiver_obj[root_name]` never raise. An exception from either (a KeyError on a malformed archive, say) is not modelled, nor are the UIDs it would leave on `rec_uids`.
- The binary-plist libraries are not modelled. The converter `NSKeyedArchiver_convert` is a function parameter (`Flatten.Converter`). The object table is an input sequence. The lookup `ns_keyed_archiver_obj[root_name]` is a function parameter (`Roots.Resolver`). Reading the document that `$top` comes from is also outside the model.
- `_get_valid_nska_plist` is not modelled. It is library calls around a check of the 8-byte header.
- `get_version` is not modelled. It returns a constant.
- Aliasing is not modelled. The Python fills shared objects in place; the model treats containers as values, so two references to one object are two copies. Every caller passes a fresh container, so nothing observable depends on this.
- Floating-point values, dates and other library objects are `Other(text)`, carrying the text `str()` gives them. Only a float zero (`0.0` or `-0.0`) is falsy among them; truthiness of any other library object (an empty custom container, say) is not modelled.
- Only integer and text keys are modelled. Bool, float and tuple keys are not.
- Roots.IsRootName: `str.lower()` is modelled on ASCII letters only. Python's full Unicode lower-casing is not modelled.
- CFUid.ConvertCFUIDToUID: requires a dict or list. For any other top value the Python would iterate it as a list, which the model does not cover.
- Json.ScalarText: the text of a `biplist.Uid` (`Uid(n)`) and of a `BplistUID` (`UID: n`) comes from the `__repr__` of the libraries' classes. Those classes are not part of this model.
- `rec_depth` is only counted. The Python only reads it in a commented-out debug check.
- Flatten.FlattenContainer, CFUid.Rewritten and Json.JsonForm return a value at every depth of nesting: Python's recursion limit is not modelled. The flattener uses two stack frames per level of reference nesting (`_recurse_safely` and `_recurse_create_plist`), and the CF$UID rewriter and the JSON normaliser one each, so a document nested a few hundred levels deep makes the Python raise RecursionError, which the model does not.

## Findings

| source | as written | input that shows it | evidently intended | confidence | as-written member | corrected member |
|---|---|---|---|---|---|---|
| nska_deserialize.py:167 | raises `NskaDeserializeError`, a name the module never defines, so Python raises NameError | a document without `$top` (for example an empty dict) | raise the module's `DeserializeError` (line 43) | high; not executed | Roots.MissingTopExample | Roots.RootNames |
