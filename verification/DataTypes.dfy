/** Column data types, their factories and their equality. */
module DataTypes {
  import opened Common

  type Byte = b: nat | b < 256

  type Name = seq<Byte>

  // DataTypeId
  const UNKNOWN: Byte := 2
  const VARCHAR: Byte := 25
  const STRUCT: Byte := 100
  const LIST: Byte := 101
  const MAP: Byte := 102
  const ARRAY: Byte := 108
  const VERTEX: Byte := 200
  const EDGE: Byte := 201
  const PATH: Byte := 202

  datatype DataType = DataType(id: Byte, info: Option<Info>)

  /** ExtraTypeInfo and its subclasses. */
  datatype Info =
    | ListInfo(child: DataType)
    | ArrayInfo(child: DataType, num: nat)
    | StructInfo(children: seq<DataType>, names: seq<Name>)
    | StringInfo(max: nat)
    | MapInfo(key: DataType, val: DataType)
    | GraphInfo(rel: bool, children: seq<DataType>, names: seq<Name>)

  // ---- factories -----------------------------------------------------------------------------

  function Plain(id: Byte): DataType { DataType(id, None) }

  function List(child: DataType): DataType { DataType(LIST, Some(ListInfo(child))) }

  function Varchar(max: nat): DataType { DataType(VARCHAR, Some(StringInfo(max))) }

  function Tuple(children: seq<DataType>): DataType { DataType(STRUCT, Some(StructInfo(children, []))) }

  function Array(child: DataType, num: nat): Result<DataType> {
    if num == 0 && child.id != UNKNOWN then Err("array without elements")
    else Ok(DataType(ARRAY, Some(ArrayInfo(child, num))))
  }

  predicate Positional(names: seq<Name>) { forall i :: 0 <= i < |names| ==> names[i] == [] }

  predicate Named(names: seq<Name>) { forall i :: 0 <= i < |names| ==> names[i] != [] }

  predicate Unique(names: seq<Name>) {
    forall i, j :: 0 <= i < j < |names| && names[i] != [] ==> names[i] != names[j]
  }

  /** All names blank, or all given and different. */
  predicate GoodNames(names: seq<Name>) {
    (Positional(names) || Named(names)) && Unique(names)
  }

  function Struct(names: seq<Name>, children: seq<DataType>): Result<DataType> {
    if |names| != |children| then Err("name count")
    else if !(Positional(names) || Named(names)) then Err("mixed names")
    else if !Unique(names) then Err("duplicate name")
    else Ok(DataType(STRUCT, Some(StructInfo(children, names))))
  }

  /** The loops of DataType::Struct that look for blank, given and repeated names. */
  method CheckNames(names: seq<Name>) returns (ok: bool)
    ensures ok == GoodNames(names)
  {
    var blank, named := false, false;
    for i := 0 to |names|
      invariant blank == exists k :: 0 <= k < i && names[k] == []
      invariant named == exists k :: 0 <= k < i && names[k] != []
    {
      if names[i] == [] { blank := true; } else { named := true; }
    }
    if blank && named { return false; }
    var seen: set<Name> := {};
    for i := 0 to |names|
      invariant seen == set k | 0 <= k < i && names[k] != [] :: names[k]
      invariant Unique(names[..i])
    {
      if names[i] != [] && names[i] in seen {
        var k :| 0 <= k < i && names[k] == names[i];
        return false;
      }
      seen := if names[i] != [] then seen + {names[i]} else seen;
    }
    assert names[..|names|] == names;
    return true;
  }

  /** Types the factories can build, with sizes that fit a 64-bit word. */
  ghost predicate Built(t: DataType)
    decreases t
  {
    match t.info
    case None => true
    case Some(ListInfo(c)) => t.id == LIST && Built(c)
    case Some(ArrayInfo(c, n)) => t.id == ARRAY && Built(c) && n < TWO64 && (n == 0 ==> c.id == UNKNOWN)
    case Some(StructInfo(cs, ns)) =>
      t.id == STRUCT && |cs| < TWO64 && (forall c :: c in cs ==> Built(c))
      && (ns == [] || (|ns| == |cs| && GoodNames(ns))) && forall n :: n in ns ==> |n| < TWO64
    case Some(StringInfo(max)) => t.id == VARCHAR && max < TWO64
    case Some(MapInfo(k, v)) => t.id == MAP && Built(k) && Built(v)
    case Some(GraphInfo(_, cs, _)) => (t.id == VERTEX || t.id == EDGE || t.id == PATH) && (forall c :: c in cs ==> Built(c))
  }

  const TWO64: nat := 0x1_0000_0000_0000_0000

  // ---- equality ----------------------------------------------------------------------------------

  /** DataType::operator== with ExtraTypeInfo::Equals and the EqualsInternal overrides. */
  predicate Equal(a: DataType, b: DataType)
    decreases a
  {
    a.id == b.id &&
    match a.info
    case None => b.info.None? || b.info.value.StringInfo?
    case Some(StringInfo(_)) => true
    case Some(ListInfo(c)) => b.info.Some? && b.info.value.ListInfo? && Equal(c, b.info.value.child)
    case Some(ArrayInfo(c, n)) =>
      b.info.Some? && b.info.value.ArrayInfo? && Equal(c, b.info.value.child) && n == b.info.value.num
    case Some(MapInfo(k, v)) =>
      b.info.Some? && b.info.value.MapInfo? && Equal(k, b.info.value.key) && Equal(v, b.info.value.val)
    case Some(StructInfo(cs, ns)) =>
      b.info.Some? && b.info.value.StructInfo? && AllEqual(cs, b.info.value.children) && ns == b.info.value.names
    case Some(GraphInfo(r, cs, ns)) =>
      b.info.Some? && b.info.value.GraphInfo? && r == b.info.value.rel
      && AllEqual(cs, b.info.value.children) && ns == b.info.value.names
  }

  predicate AllEqual(a: seq<DataType>, b: seq<DataType>)
    decreases a
  {
    |a| == |b| && forall i :: 0 <= i < |a| ==> Equal(a[i], b[i])
  }

  /** A type with every varchar length forgotten. */
  function Erase(t: DataType): DataType
    decreases t
  {
    match t.info
    case None => t
    case Some(StringInfo(_)) => Plain(t.id)
    case Some(ListInfo(c)) => DataType(t.id, Some(ListInfo(Erase(c))))
    case Some(ArrayInfo(c, n)) => DataType(t.id, Some(ArrayInfo(Erase(c), n)))
    case Some(MapInfo(k, v)) => DataType(t.id, Some(MapInfo(Erase(k), Erase(v))))
    case Some(StructInfo(cs, ns)) => DataType(t.id, Some(StructInfo(EraseAll(cs), ns)))
    case Some(GraphInfo(r, cs, ns)) => DataType(t.id, Some(GraphInfo(r, EraseAll(cs), ns)))
  }

  function EraseAll(ts: seq<DataType>): (r: seq<DataType>)
    ensures |r| == |ts|
    decreases ts
  {
    seq(|ts|, i requires 0 <= i < |ts| => Erase(ts[i]))
  }

  /** Equality of types forgets varchar lengths and nothing else; in particular it is an equivalence. */
  lemma {:induction false} EqualIffErased(a: DataType, b: DataType)
    requires Built(a) && Built(b)
    ensures Equal(a, b) <==> Erase(a) == Erase(b)
    decreases a
  {
    if a.info.Some? && b.info.Some? {
      match a.info.value
      case ListInfo(c) => if b.info.value.ListInfo? { EqualIffErased(c, b.info.value.child); }
      case ArrayInfo(c, _) => if b.info.value.ArrayInfo? { EqualIffErased(c, b.info.value.child); }
      case MapInfo(k, v) =>
        if b.info.value.MapInfo? {
          EqualIffErased(k, b.info.value.key);
          EqualIffErased(v, b.info.value.val);
        }
      case StructInfo(cs, _) => if b.info.value.StructInfo? { AllEqualIffErased(cs, b.info.value.children); }
      case GraphInfo(_, cs, _) => if b.info.value.GraphInfo? { AllEqualIffErased(cs, b.info.value.children); }
      case StringInfo(_) =>
    }
  }

  lemma {:induction false} AllEqualIffErased(a: seq<DataType>, b: seq<DataType>)
    requires (forall c :: c in a ==> Built(c)) && (forall c :: c in b ==> Built(c))
    ensures AllEqual(a, b) <==> EraseAll(a) == EraseAll(b)
    decreases a
  {
    if |a| == |b| {
      forall i | 0 <= i < |a| ensures Equal(a[i], b[i]) <==> Erase(a[i]) == Erase(b[i]) {
        EqualIffErased(a[i], b[i]);
      }
      if EraseAll(a) == EraseAll(b) {
        forall i | 0 <= i < |a| ensures Erase(a[i]) == Erase(b[i]) {
          assert EraseAll(a)[i] == EraseAll(b)[i];
        }
      }
    } else {
      assert |EraseAll(a)| != |EraseAll(b)|;
    }
  }

  /** Different lengths compare equal. */
  lemma LengthsAreIgnored(m: nat, n: nat)
    ensures Equal(Varchar(m), Varchar(n)) && Equal(List(Varchar(m)), List(Varchar(n)))
    ensures m != n ==> List(Varchar(m)) != List(Varchar(n))
  {
  }
}
