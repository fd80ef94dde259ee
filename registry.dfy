/** The process-wide type registry of reflection.h (`detail::Types`) and the
    per-type `TypeInfo` cache that `GetTypeInfo<T>` builds once. */
module Registry {
  import opened Wrappers
  import opened Schema
  import opened Names

  /** `Interface::interfaceInfo()`, the key under which an interface's
      implementations are filed. */
  function InterfaceKey(tag: string): (key: string)
    ensures |key| == |"Interface."| + |tag|
    ensures key[..|"Interface."|] == "Interface." && key[|"Interface."|..] == tag
  {
    "Interface." + tag
  }

  /** Different interfaces are filed under different keys. */
  lemma InterfaceKeyInjective(a: string, b: string)
    requires InterfaceKey(a) == InterfaceKey(b)
    ensures a == b
  {
    assert a == InterfaceKey(a)[|"Interface."|..];
  }

  /** `TypeInfo::isOfName(name)`: the names compare equal. */
  predicate IsOfName(info: TypeInfo, name: string): (r: bool)
    ensures r <==> info.name == name
  {
    info.name == name
  }

  /** An `ImplSet`: strictly increasing by name under TypeInfoCompare, so no
      two members share a name. */
  predicate SortedByName(s: seq<TypeInfo>)
  {
    forall i, j :: 0 <= i < j < |s| ==> StrLess(s[i].name, s[j].name)
  }

  predicate HasName(s: seq<TypeInfo>, name: string)
  {
    exists i :: 0 <= i < |s| && s[i].name == name
  }

  /** `ImplSet::insert`: adds `t` in name order unless a member with the same
      name (an equivalent element under the comparator) is already present. */
  function InsertByName(s: seq<TypeInfo>, t: TypeInfo): (r: seq<TypeInfo>)
    requires SortedByName(s)
    ensures SortedByName(r)
    ensures HasName(s, t.name) ==> r == s
    ensures !HasName(s, t.name) ==> multiset(r) == multiset(s) + multiset{t}
  {
    if s == [] then [t]
    else if StrLess(t.name, s[0].name) then
      BelowAll(s, t.name);
      [t] + s
    else if t.name == s[0].name then s
    else
      StrLessTotal(t.name, s[0].name);
      var rest := InsertByName(s[1..], t);
      HasNameTail(s, t.name);
      assert s == [s[0]] + s[1..];
      AboveHead(s, t, rest);
      [s[0]] + rest
  }

  /** A name below the first of a sorted set is below all of them, and so
      not among them. */
  lemma BelowAll(s: seq<TypeInfo>, name: string)
    requires SortedByName(s) && s != [] && StrLess(name, s[0].name)
    ensures forall j :: 0 <= j < |s| ==> StrLess(name, s[j].name)
    ensures !HasName(s, name)
  {
    forall j | 0 <= j < |s| ensures StrLess(name, s[j].name) {
      if j > 0 { StrLessTransitive(name, s[0].name, s[j].name); }
    }
    forall j | 0 <= j < |s| ensures s[j].name != name {
      StrLessIrreflexive(name);
    }
  }

  lemma HasNameTail(s: seq<TypeInfo>, name: string)
    requires s != [] && s[0].name != name
    ensures HasName(s, name) <==> HasName(s[1..], name)
  {
    if HasName(s, name) {
      var i :| 0 <= i < |s| && s[i].name == name;
      assert s[1..][i - 1].name == name;
    }
    if HasName(s[1..], name) {
      var i :| 0 <= i < |s[1..]| && s[1..][i].name == name;
      assert s[i + 1].name == name;
    }
  }

  /** Every member of the tail with `t` inserted sorts after the head. */
  lemma AboveHead(s: seq<TypeInfo>, t: TypeInfo, rest: seq<TypeInfo>)
    requires SortedByName(s) && s != [] && StrLess(s[0].name, t.name)
    requires multiset(rest) <= multiset(s[1..]) + multiset{t}
    ensures forall j :: 0 <= j < |rest| ==> StrLess(s[0].name, rest[j].name)
  {
    forall j | 0 <= j < |rest| ensures StrLess(s[0].name, rest[j].name) {
      assert rest[j] in multiset(rest);
      if rest[j] != t {
        assert rest[j] in multiset(s[1..]);
        var k :| 0 <= k < |s[1..]| && s[1..][k] == rest[j];
        assert s[k + 1] == rest[j];
      }
    }
  }

  /** `detail::Types`: the registered types, the name index, and the
      implementation sets keyed by `InterfaceKey`. */
  class Types {
    var registered: set<TypeInfo>
    var byName: map<string, TypeInfo>
    var impls: map<string, seq<TypeInfo>>

    ghost predicate Valid()
      reads this
    {
      (forall n :: n in byName ==> byName[n].name == n && byName[n] in registered) &&
      (forall key :: key in impls ==> impls[key] != [] && SortedByName(impls[key]))
    }

    constructor()
      ensures Valid()
      ensures registered == {} && byName == map[] && impls == map[]
    {
      registered := {};
      byName := map[];
      impls := map[];
    }

    /** `registerType<T>()`: the type joins the set and takes its name in the
        index, replacing whatever held that name before. */
    method RegisterType(t: TypeInfo)
      requires Valid()
      modifies this
      ensures Valid()
      ensures registered == old(registered) + {t}
      ensures byName == old(byName)[t.name := t]
      ensures impls == old(impls)
    {
      registered := registered + {t};
      byName := byName[t.name := t];
    }

    /** `registerImplementation<Impl, Interface>()`: creates the interface's
        set when it is missing and inserts the type into it. */
    method RegisterImplementation(t: TypeInfo, tag: string)
      requires Valid()
      modifies this
      ensures Valid()
      ensures var key := InterfaceKey(tag);
        impls == old(impls)[key := InsertByName(if key in old(impls) then old(impls)[key] else [], t)]
      ensures registered == old(registered) && byName == old(byName)
    {
      var key := InterfaceKey(tag);
      var set0: seq<TypeInfo> := [];
      if key in impls {
        set0 := impls[key];
      }
      var set1 := InsertByName(set0, t);
      assert t in multiset(set1) || HasName(set0, t.name);
      impls := impls[key := set1];
    }

    /** `getImplementations<Interface>()`: the set, or `at` throws. */
    method GetImplementations(tag: string) returns (r: Result<seq<TypeInfo>, Error>)
      requires Valid()
      ensures r.Ok? <==> InterfaceKey(tag) in impls
      ensures r.Ok? ==> r.value == impls[InterfaceKey(tag)] && r.value != [] && SortedByName(r.value)
      ensures r.Err? ==> r.error == NoImplementations(InterfaceKey(tag))
    {
      var key := InterfaceKey(tag);
      if key in impls {
        r := Ok(impls[key]);
      } else {
        r := Err(NoImplementations(key));
      }
    }

    /** `getTypeByName(name)`: the registered type of that name, or `at`
        throws. */
    method GetTypeByName(name: string) returns (r: Result<TypeInfo, Error>)
      requires Valid()
      ensures r.Ok? <==> name in byName
      ensures r.Ok? ==> r.value == byName[name] && IsOfName(r.value, name) && r.value in registered
      ensures r.Err? ==> r.error == UnknownType(name)
    {
      if name in byName {
        r := Ok(byName[name]);
      } else {
        r := Err(UnknownType(name));
      }
    }

    /** `createComponent(name)`: a default-constructed instance of the type
        registered under `name`. */
    method CreateComponent(name: string) returns (r: Result<Obj, Error>)
      requires Valid()
      ensures r.Ok? <==> name in byName
      ensures r.Ok? ==> r.value.info == byName[name] && r.value.info.name == name
      ensures r.Ok? ==> |r.value.vals| == |r.value.info.fields|
      ensures r.Ok? ==> forall i :: 0 <= i < |r.value.info.fields| ==> r.value.vals[i] == r.value.info.fields[i].init
      ensures r.Err? ==> r.error == UnknownType(name)
    {
      var t := GetTypeByName(name);
      match t
      case Err(e) => r := Err(e);
      case Ok(info) => r := Ok(DefaultObj(info));
    }
  }

  /** The `static TypeInfo* info` of every `GetTypeInfo<T>` instantiation,
      keyed by the C++ type. */
  class TypeInfoTable {
    var built: map<nat, TypeInfo>

    ghost predicate Valid()
      reads this
    {
      forall c :: c in built ==> built[c].cppType == c
    }

    constructor()
      ensures Valid() && built == map[]
    {
      built := map[];
    }

    /** `GetTypeInfo<T>(name)`: the first call for a type builds its info
        with the name it is given; every later call returns that same info,
        whatever name it passes. */
    method GetTypeInfo(cppType: nat, name: string, fields: seq<FieldDecl>) returns (info: TypeInfo)
      requires Valid()
      modifies this
      ensures Valid()
      ensures info.cppType == cppType
      ensures cppType in old(built) ==> info == old(built)[cppType] && built == old(built)
      ensures cppType !in old(built) ==>
        info == TypeInfo(cppType, name, fields) && built == old(built)[cppType := info]
    {
      if cppType in built {
        info := built[cppType];
      } else {
        info := TypeInfo(cppType, name, fields);
        built := built[cppType := info];
      }
    }
  }

  /** Two calls for one type give one info, named by the first call. */
  method FirstNameWins(table: TypeInfoTable, cppType: nat, first: string, second: string, fields: seq<FieldDecl>)
    returns (a: TypeInfo, b: TypeInfo)
    requires table.Valid()
    modifies table
    ensures a == b
    ensures cppType !in old(table.built) ==> b.name == first
  {
    a := table.GetTypeInfo(cppType, first, fields);
    b := table.GetTypeInfo(cppType, second, fields);
  }
}
