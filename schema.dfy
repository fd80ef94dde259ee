/** The data model of reflection.h: what a component is, how each of its
    reflected fields is typed, and the errors the persistence layer raises.

    A C++ component lives at an address; the model gives it an abstract
    identity `Id`. An owning `Box<T>` holds the object it owns, so the
    ownership edges of a graph form a tree of values; a non-owning `T*` is
    just the identity of its target. Two boxes carrying the same identity stand
    for two `unique_ptr`s aimed at one object, the situation save rejects. */
module Schema {
  import opened Json

  type Id = nat

  /** The static C++ type of a reflected slot: it selects the `load` overload. */
  datatype Kind =
    | KBool
    | KInt                      // int32_t, uint32_t, int8_t, char, uint8_t (width not modelled)
    | KStr                      // std::string
    | KBox                      // Box<T>: owning, nullable
    | KPtr                      // T*: non-owning, nullable
    | KFixed(info: TypeInfo)    // a component held by value, its type known statically
    | KVec(elem: Kind)          // std::vector<T>
    | KMap(key: Kind, val: Kind) // std::map<K, V> and std::unordered_map<K, V>

  /** One reflected attribute, in declaration order: its name, its type, and the
      value a default-constructed instance holds in it. */
  datatype FieldDecl = FieldDecl(name: string, kind: Kind, init: Value)

  /** `TypeInfo`: the type's registered name and its field list, which stand for
      the constructor, loader and saver closures; `cppType` is the identity of
      the C++ type it was built for. */
  datatype TypeInfo = TypeInfo(cppType: nat, name: string, fields: seq<FieldDecl>)

  /** A component instance: its dynamic type and one value per declared field. */
  datatype Obj = Obj(info: TypeInfo, vals: seq<Value>)

  /** One key/value pair of a map, in the container's iteration order. */
  datatype Entry = Entry(key: Value, val: Value)

  datatype Value =
    | VBool(b: bool)
    | VInt(i: int)
    | VStr(s: string)
    | VNullBox
    | VBox(id: Id, obj: Obj)
    | VNullPtr
    | VPtr(target: Id)
    | VInline(obj: Obj)
    | VVec(items: seq<Value>)
    | VMap(entries: seq<Entry>)

  /** The exceptions thrown by save and load, and by the registry lookups. */
  datatype Error =
    | MultipleStrongReference(id: Id)   // save: a box whose pointee was already written
    | RefInOwningSlot                   // load into Box: meta "ref"
    | ValInWeakSlot                     // load into T*: meta "val"
    | UnrecognizedMeta(meta: string)    // load: meta neither "val" nor "ref"
    | UnresolvedReference(addr: nat)    // load into T*: address not loaded yet
    | TypeMismatch(expected: string, found: string)
    | UnknownType(name: string)         // registry has no type of that name
    | NoImplementations(iface: string)  // registry has no implementation of an interface
    | NoHandler(name: string)           // ComponentVisitor has no callback for a type
    | Malformed                         // a JSON access (`at`, `get`, `push_back`) threw

  /** Every object has one value per declared field, as C++ typing guarantees. */
  predicate Shaped(v: Value)
    decreases v, 0
  {
    match v
    case VBox(_, o) => ShapedObj(o)
    case VInline(o) => ShapedObj(o)
    case VVec(items) => forall i :: 0 <= i < |items| ==> Shaped(items[i])
    case VMap(es) => forall i :: 0 <= i < |es| ==> Shaped(es[i].key) && Shaped(es[i].val)
    case _ => true
  }

  predicate ShapedObj(o: Obj)
    decreases o, 1
  {
    |o.vals| == |o.info.fields| && forall i :: 0 <= i < |o.vals| ==> Shaped(o.vals[i])
  }

  /** `v` is a value of the static type `k`. */
  predicate HasKind(v: Value, k: Kind)
    decreases v, 0
  {
    match k
    case KBool => v.VBool?
    case KInt => v.VInt?
    case KStr => v.VStr?
    case KBox => v.VNullBox? || (v.VBox? && Typed(v.obj))
    case KPtr => v.VNullPtr? || v.VPtr?
    case KFixed(info) => v.VInline? && v.obj.info == info && Typed(v.obj)
    case KVec(e) => v.VVec? && forall i :: 0 <= i < |v.items| ==> HasKind(v.items[i], e)
    case KMap(kk, vk) =>
      v.VMap? && forall i :: 0 <= i < |v.entries| ==>
        HasKind(v.entries[i].key, kk) && HasKind(v.entries[i].val, vk)
  }

  /** The object holds a value of the declared type in every declared field. */
  predicate Typed(o: Obj)
    decreases o, 1
  {
    |o.vals| == |o.info.fields| &&
    forall i :: 0 <= i < |o.vals| ==> HasKind(o.vals[i], o.info.fields[i].kind)
  }

  /** What `new T()` produces: every field at its initial value. */
  function DefaultObj(info: TypeInfo): (o: Obj)
    ensures o.info == info && |o.vals| == |info.fields|
    ensures forall i :: 0 <= i < |info.fields| ==> o.vals[i] == info.fields[i].init
  {
    Obj(info, seq(|info.fields|, i requires 0 <= i < |info.fields| => info.fields[i].init))
  }

  /** The temporary `T value;` that the vector and map loaders fill in. */
  function DefaultOf(k: Kind): Value
  {
    match k
    case KBool => VBool(false)
    case KInt => VInt(0)
    case KStr => VStr("")
    case KBox => VNullBox
    case KPtr => VNullPtr
    case KFixed(info) => VInline(DefaultObj(info))
    case KVec(_) => VVec([])
    case KMap(_, _) => VMap([])
  }

  /** Number of direct children of a container value (a termination measure). */
  function ChildCount(v: Value): nat
  {
    match v
    case VVec(items) => |items|
    case VMap(es) => |es|
    case _ => 0
  }
}
