# MiyukiRenderer object-graph persistence, modelled in Dafny

This project models the reflection layer of MiyukiRenderer
(`include/miyuki/reflection.h`). That layer writes a graph of components to
JSON and reads it back. It also models the leaf nodes of the scene graph
(`include/miyuki/graph/leaf.h`).

A component is an instance of a registered type. It holds:
- values of fixed type (scalars, nested components held by value);
- owning pointers (`Box<T>`);
- weak pointers (`T*`);
- vectors and maps of these.

Save walks the graph depth first through an `OutObjectStream`. Every
sub-stream of one pass shares a `visited` set. Save throws when a pointee is
owned twice. The wire format is:
- an owned node is `{"meta":"val","addr":A,"val":{"type":Name,"val":{fields}}}`;
- a weak pointer is `{"meta":"ref","val":A}`.

Load walks the document through an `InObjectStream`. Every sub-stream of one
pass shares an `address -> instance` map. A box is constructed and recorded
under its address before its fields are loaded. A weak pointer resolves
through that map or throws.

## How the model is built

- `json.dfy` (module `Json`): a JSON datatype. It has the accessor behaviour
  the streams rely on: which calls throw, what `size()` and `contains()`
  answer, and the 64-bit wrap of `get<uint64_t>`.
- `schema.dfy` (module `Schema`):
  - the static type of a slot (`Kind`);
  - a type's field list (`TypeInfo`, `FieldDecl`), which stands in for the
    `MYK_REFL` macros;
  - the graph itself (`Value`, `Obj`);
  - the exceptions the code throws (`Error`).
- Identities are abstract: a box is `VBox(id, obj)` and a weak pointer is
  `VPtr(id)`. `id` stands for the address the code writes with
  `reinterpret_cast`.
- `save.dfy`:
  - module `Saving` specifies one `save` call as a function. It takes the
    visited set and returns the document and the new set, or the exception.
  - module `SaveOwnership` proves when save succeeds: exactly when no
    pointee is owned twice across the whole pass.
- `load.dfy` (module `Loading`) specifies one `load` call the same way. The
  pass state is `Ctx`: the address map plus the next fresh instance
  identity, which stands in for `new`.
- `outstream.dfy` and `instream.dfy` are the streams as classes.
  - Their fields are the document and the shared `State` object.
  - The `save`/`load` overloads are methods with loops.
  - Each method is proved to end as the specification function says.
- `loadfacts.dfy` proves the loader's error cases, its ordering and its
  monotonicity.
- `roundtrip.dfy` proves the round trip. Loading what save wrote gives back
  the same graph up to a one-to-one renaming of instance identities.
- `names.dfy`, `registry.dfy`: the type registry (`detail::Types`), the
  once-built `TypeInfo` table, and the name order of `ImplSet`.
- `dispatch.dfy`: `typeof`, `ComponentVisitor` and the `match(..).with<U>(..)` chain.
- `leaf.dfy`: `LeafType`, its names, the type-to-kind trait and `LeafNode<T>`.

Where the code and its design description disagree, the model follows the
code. `registerType` overwrites the name entry, so the LAST type registered
under a name is the one `getTypeByName` finds. The design description says
the first registration wins. Only `GetTypeInfo<T>` behaves that way, through
its `call_once`.

## Model

| member | source | states |
|---|---|---|
| Json.Put | include/miyuki/reflection.h:51-62 | a keyed write turns null into an object; it fails on any other non-object; the key then maps to the new value and every other key keeps its value |
| Json.PushBack | include/miyuki/reflection.h:66-71 | an append turns null into an array; it fails on other non-arrays; the items become the old items followed by the new one |
| Json.At | include/miyuki/reflection.h:215-218 | `at(key)` yields a value exactly when the document is an object holding the key, and the value is the one under the key |
| Json.AtIndex | include/miyuki/reflection.h:155-157 | `at(i)` yields a value exactly when the document is an array longer than `i` |
| Json.Size | include/miyuki/reflection.h:173 | `size()` is 0 for null, 1 for any scalar, the element count of an array and the member count of an object |
| Json.Contains | include/miyuki/reflection.h:158-160 | `contains(key)` holds exactly when `at(key)` would not throw: the value is an object holding the key |
| Json.GetString | include/miyuki/reflection.h:324-327 | a string conversion succeeds exactly on strings and returns the stored string |
| Json.GetBool | include/miyuki/reflection.h:324-330 | a boolean conversion succeeds exactly on booleans and returns the stored boolean |
| Json.GetInt | include/miyuki/reflection.h:324-337 | a conversion to one of the narrow integer types (`int32_t`, `uint32_t`, `int8_t`, `char`, `uint8_t`) succeeds exactly on numbers and booleans; a number comes back unchanged, and a boolean as 1 or 0 |
| Json.GetU64 | include/miyuki/reflection.h:218 | `get<uint64_t>` succeeds exactly on numbers (a boolean throws); the result is below 2^64, congruent to the number modulo 2^64, and equal to any number already in range |
| Json.StringAt | include/miyuki/reflection.h:192 | `at(key).get<std::string>()` succeeds exactly when the member exists and is a string, and returns that string |
| Saving.Save | include/miyuki/reflection.h:97-136 | one `save` call on a fresh sub-stream only ever adds to the shared visited set, and the only exception it can raise is MultipleStrongReference |
| Saving.SaveObj | include/miyuki/reflection.h:97-105 | saving a component by value only adds to the visited set, and fails only with MultipleStrongReference |
| Saving.SaveFields | include/miyuki/reflection.h:86-95 | saving the remaining fields only adds to the visited set, and fails only with MultipleStrongReference |
| Saving.SaveItems | include/miyuki/reflection.h:253-260 | saving the remaining vector items only adds to the visited set, and fails only with MultipleStrongReference |
| Saving.SaveEntries | include/miyuki/reflection.h:271-307 | saving the remaining map entries only adds to the visited set, and fails only with MultipleStrongReference |
| Loading.Meta | include/miyuki/reflection.h:207 | the meta tag is present exactly on an object whose "meta" member is a string, and it is that string |
| Loading.Load | include/miyuki/reflection.h:188-318 | a successful `load` leaves in the slot a value of the slot's static type: a bool, an integer, a string, a null or non-null box, a null or non-null pointer, an instance of the fixed type, a vector or a map |
| Loading.LoadBox | include/miyuki/reflection.h:203-228 | a successful owning-pointer load yields a null box or a box |
| Loading.LoadPtr | include/miyuki/reflection.h:230-252 | a weak-pointer load never changes the pass state, and a non-null result is an instance the address map already holds |
| Loading.LoadFixed | include/miyuki/reflection.h:188-199 | a by-value load keeps the instance's dynamic type and its field count |
| Loading.LoadFields | include/miyuki/reflection.h:357-368 | loading the fields keeps one value per declared field |
| Loading.LoadItems | include/miyuki/reflection.h:261-269 | a successful vector load yields a vector |
| Loading.Assign | include/miyuki/reflection.h:292 | `map[key] = val` grows the map by at most one entry; the lookup facts are `LoadFacts.AssignLookup` |
| Loading.LoadEntries | include/miyuki/reflection.h:284-318 | a successful map load yields a map |
| Schema.DefaultObj | include/miyuki/reflection.h:394-396 | a newly constructed instance has the given type and every field at its initial value |
| OutStream.OutState.constructor | include/miyuki/reflection.h:38-45 | a new pass state has an empty visited set |
| OutStream.OutObjectStream.constructor | include/miyuki/reflection.h:43-45 | a root stream has a null document and its own fresh, empty state |
| OutStream.OutObjectStream.Sharing | include/miyuki/reflection.h:46-49 | the stream `sub()` builds has a null document and shares the given state object |
| OutStream.OutObjectStream.Sub | include/miyuki/reflection.h:46-50 | `sub()` is a new stream with a null document that shares the parent's state object |
| OutStream.OutObjectStream.Write | include/miyuki/reflection.h:51-62 | a keyed write succeeds exactly when the document is null or an object, and then the document is the updated object; on failure the document is unchanged |
| OutStream.OutObjectStream.WriteValue | include/miyuki/reflection.h:78-81 | writing a whole value replaces the document |
| OutStream.OutObjectStream.Append | include/miyuki/reflection.h:66-71 | an append succeeds exactly when the document is null or an array, and then the document is the extended array |
| OutStream.OutObjectStream.AddSerialized | include/miyuki/reflection.h:75-77 | the visited set gains the identity and nothing else, so `hasSerialized` now holds for it |
| OutStream.OutObjectStream.HasSerialized | include/miyuki/reflection.h:72-74 | `hasSerialized(p)` holds exactly when the shared visited set of the pass holds `p` |
| OutStream.OutObjectStream.ToJson | include/miyuki/reflection.h:83 | `toJson()` is the document written so far |
| OutStream.SaveValue | include/miyuki/reflection.h:97-136 | the save overload for the value's shape leaves the document and the shared visited set that `Saving.Save` specifies, or raises the same error |
| OutStream.SavePtr | include/miyuki/reflection.h:108-117 | a weak pointer writes `{"meta":"ref","val":A}` and cannot touch the visited set (it is outside the method's frame) |
| OutStream.SaveBox | include/miyuki/reflection.h:119-136 | a box already visited raises MultipleStrongReference; otherwise the pointee is written and its identity joins the visited set after its fields |
| OutStream.SaveComponent | include/miyuki/reflection.h:97-105 | a component held by value writes `{"type":Name,"val":{fields}}` as `Saving.SaveObj` specifies |
| OutStream.VisitFields | include/miyuki/reflection.h:86-95 | every declared field is saved into its own sub-stream and written under its name, in declaration order |
| OutStream.SaveVector | include/miyuki/reflection.h:253-260 | one element is appended per item, in order, threading the shared visited set |
| OutStream.SaveMap | include/miyuki/reflection.h:271-307 | one `{"key":K,"val":V}` element is appended per entry in iteration order; the key is saved before the value |
| SaveOwnership.NullSavesNull | include/miyuki/reflection.h:108-124 | null owning and null weak pointers both save as JSON null and leave the visited set unchanged |
| SaveOwnership.PtrSavesRef | include/miyuki/reflection.h:113-116 | a weak pointer saves as a reference node for any visited set, and the set is unchanged |
| SaveOwnership.BoxSave | include/miyuki/reflection.h:125-134 | a visited pointee raises MultipleStrongReference; otherwise the owned node wraps the typed fields document, and the identity is added to the set only after the fields; a failure inside the fields is propagated |
| SaveOwnership.DuplicateOwnerAcrossSiblings | include/miyuki/reflection.h:46-50 | because sub-streams share the visited set, two sibling vector elements owning one pointee fail at the second |
| SaveOwnership.ExclusiveSplit | include/miyuki/reflection.h:72-77 | owning a run of boxes exclusively splits into the first part, then the rest against the set extended by the first part |
| SaveOwnership.SaveExclusive | include/miyuki/reflection.h:119-136 | save succeeds if and only if no pointee is owned twice in the value and none was already visited; on success the visited set grows by exactly the owned identities |
| SaveOwnership.SaveFieldsExclusive | include/miyuki/reflection.h:86-95 | the same if-and-only-if over the remaining fields of a component |
| SaveOwnership.SaveItemsExclusive | include/miyuki/reflection.h:253-260 | the same if-and-only-if over the remaining items of a vector |
| SaveOwnership.SaveEntriesExclusive | include/miyuki/reflection.h:271-283 | the same if-and-only-if over the remaining entries of a map |
| InStream.LoadState.constructor | include/miyuki/reflection.h:146-151 | a new pass state has an empty address map |
| InStream.LoadState.Allocate | include/miyuki/reflection.h:219 | constructing an instance gives the next fresh identity and leaves the address map alone |
| InStream.InObjectStream.Root | include/miyuki/reflection.h:146-151 | a root input stream views the document with its own fresh, empty state |
| InStream.InObjectStream.Sharing | include/miyuki/reflection.h:146-151 | a stream built with a state shares that state object |
| InStream.InObjectStream.SubKey | include/miyuki/reflection.h:152-154 | `sub(key)` succeeds exactly when the member exists, views it, and shares the state; otherwise it raises Malformed |
| InStream.InObjectStream.SubIndex | include/miyuki/reflection.h:155-157 | `sub(i)` succeeds exactly on an array longer than `i`, views element `i`, and shares the state |
| InStream.InObjectStream.Contains | include/miyuki/reflection.h:158-160 | `contains(key)` holds exactly when `at(key)` on the viewed node would not throw |
| InStream.InObjectStream.GetJson | include/miyuki/reflection.h:161-163 | `getJson()` is the viewed node |
| InStream.InObjectStream.Has | include/miyuki/reflection.h:164-166 | `has(addr)` holds exactly when the shared address map records `addr` |
| InStream.InObjectStream.FetchByAddr | include/miyuki/reflection.h:167-169 | `fetchByAddr` returns the recorded instance exactly when the address was recorded, that is exactly when `has(addr)` holds |
| InStream.InObjectStream.Add | include/miyuki/reflection.h:170-172 | `add` records, or re-records, the instance under the address and changes nothing else |
| InStream.InObjectStream.Size | include/miyuki/reflection.h:173 | `size()` is 0 for a null node, 1 for a number, string or boolean, the element count of an array and the member count of an object |
| InStream.LoadValue | include/miyuki/reflection.h:188-318 | the load overload for the slot's static type leaves the value and the shared address map that `Loading.Load` specifies, or raises the same error |
| InStream.LoadBoxFrom | include/miyuki/reflection.h:203-228 | the owning-pointer loader ends as `Loading.LoadBox` says: null, the meta errors, unknown type, or a new instance recorded under its address before its fields load |
| InStream.LoadPtrFrom | include/miyuki/reflection.h:230-252 | the weak-pointer loader ends as `Loading.LoadPtr` says and leaves the address map unchanged |
| InStream.LoadComponent | include/miyuki/reflection.h:188-199 | the by-value loader ends as `Loading.LoadFixed` says: a type-name check, then the fields |
| InStream.VisitFields | include/miyuki/reflection.h:357-368 | fields are loaded in declaration order, and a field whose key is absent is skipped |
| InStream.LoadVector | include/miyuki/reflection.h:261-269 | elements are loaded in index order into fresh temporaries and appended |
| InStream.LoadMap | include/miyuki/reflection.h:284-318 | pairs are loaded in array order, key before value, and assigned with `map[key] = val` |
| LoadFacts.ExtendsTrans | include/miyuki/reflection.h:141-144 | a later state of a later state is a later state of the pass |
| LoadFacts.LoadExtends | include/miyuki/reflection.h:170-172 | a successful load only advances the allocator; every address stays recorded, and any new or changed entry names a freshly constructed instance |
| LoadFacts.LoadBoxExtends | include/miyuki/reflection.h:214-224 | a loaded box is the next fresh instance, the allocator moves past it, and its address is in the final address map (recording before the fields is `LoadFacts.OwnedNodeLoads`) |
| LoadFacts.AbsentFieldsUnchanged | include/miyuki/reflection.h:362-367 | a field whose key the document lacks keeps its previous value |
| LoadFacts.FixedKeepsAbsentFields | include/miyuki/reflection.h:188-199 | loading a component by value keeps its type and every field the document does not name |
| LoadFacts.ItemsAppend | include/miyuki/reflection.h:261-269 | loading a vector from index `i` appends one element per remaining array element and keeps the earlier elements in front |
| LoadFacts.VectorLoadAppends | include/miyuki/reflection.h:261-269 | loading into a non-empty vector keeps its old elements in front and adds `size()` new ones |
| LoadFacts.AssignLookup | include/miyuki/reflection.h:284-294 | after `map[key] = val` the key finds `val`, every other key finds what it found before, the key set gains the key, and distinct keys stay distinct |
| LoadFacts.AssignHit | include/miyuki/reflection.h:292 | when the first entry holds the key, the assignment overwrites it there and every `AssignLookup` fact holds |
| LoadFacts.AssignMiss | include/miyuki/reflection.h:292 | when the first entry holds another key, the `AssignLookup` facts carry over from the rest of the map |
| LoadFacts.KeysCons | include/miyuki/reflection.h:284-294 | the keys of a map with one entry in front are that key plus the rest |
| LoadFacts.DistinctCons | include/miyuki/reflection.h:284-294 | a map with one entry in front has distinct keys exactly when the rest does and does not hold that key |
| LoadFacts.NullLoadsNull | include/miyuki/reflection.h:203-235 | JSON null loads as a null owning or weak pointer and leaves the address map unchanged |
| LoadFacts.MetaMismatch | include/miyuki/reflection.h:210-251 | an owning slot rejects "ref", a weak slot rejects "val", and both reject any other meta with UnrecognizedMeta |
| LoadFacts.PtrResolution | include/miyuki/reflection.h:236-245 | a reference resolves if and only if its address is recorded, to exactly the recorded instance; otherwise it raises UnresolvedReference |
| LoadFacts.UnknownTypeRejected | include/miyuki/reflection.h:215-217 | an owned node naming an unregistered type raises UnknownType with that name |
| LoadFacts.FixedTypeMismatch | include/miyuki/reflection.h:189-195 | a stored type name that differs from the static type raises TypeMismatch |
| LoadFacts.DuplicateKeyLaterWins | include/miyuki/reflection.h:308-318 | two pairs with the same key load as one entry holding the later value |
| LoadFacts.SelfReferenceResolves | include/miyuki/reflection.h:218-222 | a box with a weak pointer to itself loads, because its address is recorded before its fields |
| LoadFacts.OwnedNodeLoads | include/miyuki/reflection.h:214-224 | an owned node of a registered type takes the next fresh instance, records it under its address, and then loads the fields into a default instance of that type; errors in the fields are propagated |
| LoadFacts.SelfFieldResolves | include/miyuki/reflection.h:236-241 | that box's weak field resolves to the instance recorded under its address |
| LoadFacts.ForwardReferenceFails | include/miyuki/reflection.h:237-244 | a weak field declared before the field owning its target raises UnresolvedReference |
| RoundTrip.SaveLoadRoundTrip | include/miyuki/reflection.h:97-318 | the main round-trip theorem, stated below |
| RoundTrip.RoundTripValue | include/miyuki/reflection.h:97-318 | the same round trip for one slot, from any state of the pass that has recorded everything the value's weak pointers need |
| RoundTrip.BoxRoundTrip | include/miyuki/reflection.h:119-228 | an owned node reads back as a fresh instance holding the renamed fields, with its address recorded first |
| RoundTrip.ObjRoundTrip | include/miyuki/reflection.h:97-199 | a component held by value reads back as the renamed component |
| RoundTrip.FieldsRoundTrip | include/miyuki/reflection.h:357-368 | the remaining fields read back renamed, and the address map grows by exactly the boxes they own |
| RoundTrip.ItemsRoundTrip | include/miyuki/reflection.h:253-269 | the remaining vector items read back renamed, in order |
| RoundTrip.EntriesRoundTrip | include/miyuki/reflection.h:271-318 | the remaining map entries read back with their keys and renamed values, appended in order |
| Names.StrLessIrreflexive | include/miyuki/reflection.h:474-479 | the name order used by TypeInfoCompare is irreflexive |
| Names.StrLessTransitive | include/miyuki/reflection.h:474-479 | the name order is transitive |
| Names.StrLessTotal | include/miyuki/reflection.h:474-479 | any two different names are ordered one way or the other |
| Registry.InterfaceKey | include/miyuki/reflection.h:404-406 | an interface's key is `"Interface."` followed by its name |
| Registry.InterfaceKeyInjective | include/miyuki/reflection.h:404-406 | different interfaces get different keys |
| Registry.IsOfName | include/miyuki/reflection.h:380-382 | `isOfName(name)` holds exactly when the type's name equals `name` |
| Registry.InsertByName | include/miyuki/reflection.h:474-479 | inserting into an ImplSet keeps it strictly sorted by name; an element with a name already present is ignored, otherwise it is added |
| Registry.Types.constructor | include/miyuki/reflection.h:480-490 | the registry starts with three empty tables |
| Registry.Types.RegisterType | include/miyuki/reflection.h:493-498 | the type joins the set, its name entry is overwritten (the last registration wins), and the implementation table is unchanged |
| Registry.Types.RegisterImplementation | include/miyuki/reflection.h:500-509 | the interface's set is created when missing, then the implementation is inserted by name; every other table and set is unchanged |
| Registry.Types.GetImplementations | include/miyuki/reflection.h:511-516 | the name-ordered, non-empty set is returned exactly for an interface with registrations; otherwise it raises NoImplementations |
| Registry.Types.GetTypeByName | include/miyuki/reflection.h:522-524 | the registered type of that name is returned exactly when one exists; otherwise it raises UnknownType |
| Registry.Types.CreateComponent | include/miyuki/reflection.h:518-521 | a default instance of the named type is returned exactly when the name is registered; otherwise it raises UnknownType |
| Registry.TypeInfoTable.GetTypeInfo | include/miyuki/reflection.h:384-402 | the first call for a type builds its info with the given name; later calls return that info unchanged |
| Registry.FirstNameWins | include/miyuki/reflection.h:384-402 | two calls for one type return one info, and it carries the first call's name |
| Dispatch.TypeOf | include/miyuki/reflection.h:525-528 | `typeof` is null exactly for a null pointer, otherwise it is the dynamic type |
| Dispatch.ComponentVisitor.constructor | include/miyuki/reflection.h:422-424 | a new visitor has no callbacks |
| Dispatch.ComponentVisitor.On | include/miyuki/reflection.h:433-438 | installing a callback replaces the callback for that type only |
| Dispatch.ComponentVisitor.Visit | include/miyuki/reflection.h:425-432 | a null component runs nothing; otherwise the dynamic type's callback runs, or NoHandler is raised when it has none |
| Dispatch.Match.constructor | include/miyuki/reflection.h:458-461 | `match(x)` starts with no arm run |
| Dispatch.Match.With | include/miyuki/reflection.h:446-455 | an arm runs exactly when none has run yet and the value is a non-null instance of its type; once an arm has run, nothing changes |
| Dispatch.RunArmsFirst | include/miyuki/reflection.h:446-455 | a chain runs some arm if and only if the value is non-null and some arm names its type, and then it runs the first such arm |
| Dispatch.RunArmsDone | include/miyuki/reflection.h:448 | after an arm has run, the rest of the chain does nothing |
| Dispatch.MatchChain | include/miyuki/reflection.h:440-461 | a whole `with` chain on a `Match` object runs what `RunArms` says |
| Leaf.GetLeafType | include/miyuki/graph/leaf.h:21-54 | the trait maps Float to kFloat, Vec3f to kFloat3, int to kInt, Transform to kTransform, std::string to kString and IO::ImagePtr to kImage, and every other type to kNull |
| Leaf.GetLeafTypeBijective | include/miyuki/graph/leaf.h:21-54 | the six special types get distinct kinds, and every kind except kNull comes from one of them |
| Leaf.LeafTypeToString | include/miyuki/graph/leaf.h:56-72 | nullptr exactly for kNull; "Image", "String", "Float", "Int", "Float3" and "Tranform" (spelled as in the code) for the other six kinds |
| Leaf.LeafNamesDistinct | include/miyuki/graph/leaf.h:56-72 | different kinds have different names |
| Leaf.ConvertToLeafType | include/miyuki/graph/leaf.h:122-125 | a kNull type stays as it is, and every other type is wrapped in `LeafNode<T>` |
| Leaf.LeafNode.Unnamed | include/miyuki/graph/leaf.h:85-86 | a leaf made from a value alone has the empty name and holds that value |
| Leaf.LeafNode.constructor | include/miyuki/graph/leaf.h:87-88 | a leaf made from a name and a value holds both |
| Leaf.LeafNode.LeafKind | include/miyuki/graph/leaf.h:89-91 | `leafType()` is the trait's kind for the element type, and it is kNull exactly for a non-special type |
| Leaf.LeafNode.TypeName | include/miyuki/graph/leaf.h:92-94 | `type()` is the name of `leafType()`, and it is null exactly for a non-special type |
| Leaf.LeafNode.Subnodes | include/miyuki/graph/leaf.h:78 | a leaf has no outgoing edges |
| Leaf.LeafNode.IsLeaf | include/miyuki/graph/leaf.h:95 | `isLeaf()` is true for every leaf node |
| Leaf.LeafNode.GetValue | include/miyuki/graph/leaf.h:100-102 | `getValue()` is the value the node holds |
| Leaf.LeafNode.SetValue | include/miyuki/graph/leaf.h:100-103 | after `setValue(v)`, `getValue()` returns `v`; only the value field can change |
| Leaf.LeafNode.Serialize | include/miyuki/graph/leaf.h:96-99 | the Node part is written first; then "value" holds the encoded value, or the write fails when the document is neither null nor an object |
| Leaf.IntLeafLifeCycle | include/miyuki/graph/leaf.h:100-103 | an `IntNode` reports kind kInt and name "Int", and shows the value it was built with, then the value it was set to |

`RoundTrip.SaveLoadRoundTrip` states the main theorem. Take a well-formed
graph:
- the registry is consistent;
- no pointee is owned twice;
- addresses fit in 64 bits;
- container fields start empty;
- map keys are scalars and distinct;
- every weak pointer aims at a box the loader reaches earlier (field order,
  element order, key before value).

Save it into a fresh stream, then load it back with the allocator starting at
`first`. Then:
- both calls succeed;
- the final address map is one-to-one;
- its domain is exactly the set of owned identities;
- every new instance is numbered from `first` on;
- the loaded graph is the original with every identity renamed through that
  map.

So sharing and weak pointers come back exactly.

## Left out

- Floating-point scalars (`Float`, `double`, `Vec3f`, `Spectrum`, `Point2f`,
  `Point3f`, `Point2i`): the model has booleans, unbounded integers and
  strings only.
- Json.GetInt: the model does not narrow to the 8- or 32-bit widths or
  through `char`. Integers are unbounded, and only address reads wrap
  modulo 2^64 (`Json.GetU64`). `KInt` stands for the narrow integer types,
  which accept booleans. Reflected `int64_t` and `uint64_t` fields are not
  modelled as a separate kind; like `Json.GetU64`, they would reject
  booleans.
- `std::call_once`, `once_flag` and every thread-safety aspect: "build
  once" is modelled by `Registry.TypeInfoTable`.
- The `MYK_REFL`, `MYK_ATTR`, `MYK_META` and `MYK_IMPL` macros: a type's
  fields are an explicit `FieldDecl` list, and registration is the explicit
  method calls.
- The `Deleter`, `std::function` closures, the `dynamic_cast` in
  `static_unique_ptr_cast`, and `reinterpret_cast`:
  - identities are abstract numbers;
  - a TypeInfo's loader and saver are the model's `Load` and `Save`;
  - the static element type of a `Box<T>`, or of a `T*` resolved by
    `fetchByAddr` (reflection.h:240), is not checked against the loaded
    dynamic type; a pointer slot carries no type.
- InStream.LoadValue and OutStream.SaveValue: they assume that the
  sub-stream a save writes into starts empty, which is how every caller uses
  it. Saving into a stream that already holds data is not modelled.
- `std::unordered_map` has no key order in the model. Iteration order is
  the entry order of the `VMap` value, and `std::map`'s sorting of keys is
  not modelled.
- Ownership cycles cannot be built from values. A graph that repeats a
  pointee inside its own fields is excluded from `SaveOwnership.SaveExclusive`
  by `NoSelfNesting`. The code adds a pointee to `visited` only after its
  fields, so it would recurse instead of throwing.
- RoundTrip.SaveLoadRoundTrip: it is stated only for well-formed graphs (the
  conditions above). The failing cases are covered one by one in `LoadFacts`
  and `SaveOwnership`.
- The `Node` base class and `Graph` of leaf.h. They are not part of this
  model: `Leaf.LeafNode.Serialize` takes the base part's effect as a
  parameter, and the graph back-pointer is dropped.
- `LeafNodeDeserializer` (leaf.h:106-112) and the `IntNode` type aliases
  other than `IntNode`.
- Leaf.LeafNode.LeafKind: Dafny cannot relate a type parameter to a value.
  The element type is a `CppType` field set by the constructor, and nothing
  checks that it names `T`, as the C++ template does.
- The "Tranform" name for kTransform is kept exactly as the code spells it.
- Callbacks of ComponentVisitor and Match are modelled as numbers. The model
  records which callback runs, not what it does.
- UI, rendering, integrators and the other context files are outside the
  core.
