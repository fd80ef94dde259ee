/** Leaf nodes of the scene graph (graph/leaf.h): the kinds of value a leaf
    can hold, their display names, the C++-type-to-kind trait, and the
    `LeafNode<T>` value cell. */
module Leaf {
  import opened Wrappers
  import opened Json

  /** `enum LeafType`, in declaration order. */
  datatype LeafType = kNull | kInt | kFloat | kFloat3 | kTransform | kString | kImage

  /** The C++ types the `_GetLeafType` trait distinguishes; `Other` is any
      other type, named for identity only. */
  datatype CppType =
    | FloatT        // Float
    | Vec3fT        // Vec3f
    | IntT          // int
    | TransformT    // Transform
    | StringT       // std::string
    | ImagePtrT     // IO::ImagePtr
    | Other(name: string)

  /** `_GetLeafType<T>::Type`: the kind of each special type, kNull for the
      rest. */
  function GetLeafType(t: CppType): (k: LeafType)
    ensures k == kNull <==> t.Other?
    ensures t == FloatT ==> k == kFloat
    ensures t == Vec3fT ==> k == kFloat3
    ensures t == IntT ==> k == kInt
    ensures t == TransformT ==> k == kTransform
    ensures t == StringT ==> k == kString
    ensures t == ImagePtrT ==> k == kImage
  {
    match t
    case FloatT => kFloat
    case Vec3fT => kFloat3
    case IntT => kInt
    case TransformT => kTransform
    case StringT => kString
    case ImagePtrT => kImage
    case Other(_) => kNull
  }

  /** The trait is one-to-one on the types it recognises, and every kind
      but kNull comes from one of them. */
  lemma GetLeafTypeBijective(a: CppType, b: CppType, k: LeafType)
    ensures GetLeafType(a) == GetLeafType(b) && !a.Other? ==> a == b
    ensures k != kNull ==> exists t: CppType :: !t.Other? && GetLeafType(t) == k
  {
    if k != kNull {
      var t := match k
        case kInt => IntT
        case kFloat => FloatT
        case kFloat3 => Vec3fT
        case kTransform => TransformT
        case kString => StringT
        case kImage => ImagePtrT
        case kNull => IntT;
      assert GetLeafType(t) == k;
    }
  }

  /** `LeafTypeToString(t)`: nullptr (None) for kNull and only for it. */
  function LeafTypeToString(t: LeafType): (r: Option<string>)
    ensures r.None? <==> t == kNull
    ensures t == kImage ==> r == Some("Image")
    ensures t == kString ==> r == Some("String")
    ensures t == kFloat ==> r == Some("Float")
    ensures t == kInt ==> r == Some("Int")
    ensures t == kFloat3 ==> r == Some("Float3")
    ensures t == kTransform ==> r == Some("Tranform")
  {
    match t
    case kImage => Some("Image")
    case kString => Some("String")
    case kFloat => Some("Float")
    case kInt => Some("Int")
    case kFloat3 => Some("Float3")
    case kTransform => Some("Tranform")
    case kNull => None
  }

  /** Distinct kinds have distinct names, so a name identifies its kind. */
  lemma LeafNamesDistinct(a: LeafType, b: LeafType)
    requires a != b
    ensures LeafTypeToString(a) != LeafTypeToString(b)
  {
  }

  /** The result of `_ConvertToLeafType<T>::type`: `T` itself or `LeafNode<T>`. */
  datatype Converted = Plain(t: CppType) | Wrapped(t: CppType)

  function ConvertToLeafType(t: CppType): (r: Converted)
    ensures r.t == t
    ensures r.Plain? <==> GetLeafType(t) == kNull
  {
    if GetLeafType(t) == kNull then Plain(t) else Wrapped(t)
  }

  /** A `json&` that a serializer writes into. */
  class JsonDoc {
    var j: Json

    constructor(j: Json)
      ensures this.j == j
    {
      this.j := j;
    }
  }

  /** `LeafNode<T>`: a named node holding one value of the C++ type
      `elemType`. The graph back-pointer of the Node base is not modelled.
      Dafny cannot tie the type parameter `T` to a `CppType` value, so
      `elemType` is a field set by the constructor; nothing checks that it
      names `T`, and `LeafKind()` reports the kind of `elemType`. */
  class LeafNode<T> {
    const name: string
    const elemType: CppType
    var value: T

    /** `LeafNode(value, graph)`: an unnamed leaf. */
    constructor Unnamed(elemType: CppType, value: T)
      ensures name == "" && this.elemType == elemType && this.value == value
    {
      name := "";
      this.elemType := elemType;
      this.value := value;
    }

    /** `LeafNode(name, value, graph)`. */
    constructor(name: string, elemType: CppType, value: T)
      ensures this.name == name && this.elemType == elemType && this.value == value
    {
      this.name := name;
      this.elemType := elemType;
      this.value := value;
    }

    /** `leafType()`: the kind the trait assigns to `T`. */
    function LeafKind(): (k: LeafType)
      ensures k == GetLeafType(elemType)
      ensures k == kNull <==> elemType.Other?
    {
      GetLeafType(elemType)
    }

    /** `type()`: the name of the leaf's kind. */
    function TypeName(): (r: Option<string>)
      ensures r == LeafTypeToString(LeafKind())
      ensures r.None? <==> elemType.Other?
    {
      LeafTypeToString(LeafKind())
    }

    /** `isLeaf()`: every leaf node answers yes. */
    predicate IsLeaf(): (r: bool)
      ensures r
    {
      true
    }

    /** `BasicLeafNode::subnodes()`: a leaf has no outgoing edges. */
    function Subnodes(): (r: seq<nat>)
      ensures |r| == 0
    {
      []
    }

    /** `getValue()`. */
    function GetValue(): (r: T)
      reads this
      ensures r == value
    {
      value
    }

    /** `setValue(v)`: the value changes and nothing else does. */
    method SetValue(v: T)
      modifies this
      ensures value == v && GetValue() == v
    {
      value := v;
    }

    /** `serialize(j)`: the Node base writes its part (`nodePart`, not part
        of this model), then the value is stored under "value", which throws
        unless the document is null or an object by then. */
    method Serialize(doc: JsonDoc, nodePart: Json -> Json, encode: T -> Json) returns (ok: bool)
      modifies doc
      ensures var base := nodePart(old(doc.j));
        ok == (base.JNull? || base.JObj?) &&
        (ok ==> doc.j.JObj? && "value" in doc.j.fields && doc.j.fields["value"] == encode(value) &&
                doc.j == Put(base, "value", encode(value)).value) &&
        (!ok ==> doc.j == base)
    {
      doc.j := nodePart(doc.j);
      var r := Put(doc.j, "value", encode(value));
      ok := r.Some?;
      if ok {
        doc.j := r.value;
      }
    }
  }

  /** A concrete `IntNode` goes through its whole life cycle. */
  method IntLeafLifeCycle() returns (kind: LeafType, typeName: Option<string>, before: int, after: int)
    ensures kind == kInt && typeName == Some("Int") && before == 16 && after == 32
  {
    var node := new LeafNode<int>("spp", IntT, 16);
    kind := node.LeafKind();
    typeName := node.TypeName();
    before := node.GetValue();
    node.SetValue(32);
    after := node.GetValue();
  }
}
