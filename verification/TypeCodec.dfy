/** The archive format of data types. */
module TypeCodec {
  import opened Common
  import opened DataTypes

  type Bytes = seq<Byte>

  // ---- words and strings ------------------------------------------------------------------------

  /** A 64-bit word, little-endian. */
  function Word(n: nat, k: nat): (b: Bytes)
    ensures |b| == k
  {
    if k == 0 then [] else [n % 256] + Word(n / 256, k - 1)
  }

  function Value(b: Bytes): nat {
    if b == [] then 0 else b[0] + 256 * Value(b[1..])
  }

  function Pow256(k: nat): nat { if k == 0 then 1 else 256 * Pow256(k - 1) }

  lemma {:induction false} ValueOfWord(n: nat, k: nat)
    requires n < Pow256(k)
    ensures Value(Word(n, k)) == n
  {
    if k > 0 {
      ValueOfWord(n / 256, k - 1);
      assert Word(n, k)[1..] == Word(n / 256, k - 1);
    }
  }

  lemma {:induction false} ValueBound(b: Bytes)
    ensures Value(b) < Pow256(|b|)
  {
    if b != [] { ValueBound(b[1..]); }
  }

  lemma EightBytes()
    ensures Pow256(8) == TWO64
  {
    assert Pow256(4) == 0x1_0000_0000;
  }

  function Size(n: nat): (b: Bytes)
    ensures |b| == 8
  {
    Word(n, 8)
  }

  function GetSize(b: Bytes): Option<(nat, Bytes)> {
    if |b| < 8 then None else Some((Value(b[..8]), b[8..]))
  }

  lemma GetPutSize(n: nat, rest: Bytes)
    requires n < TWO64
    ensures GetSize(Size(n) + rest) == Some((n, rest))
  {
    EightBytes();
    ValueOfWord(n, 8);
    assert (Size(n) + rest)[..8] == Size(n) && (Size(n) + rest)[8..] == rest;
  }

  lemma GetSizeFits(b: Bytes)
    ensures GetSize(b).Some? ==> GetSize(b).value.0 < TWO64
  {
    if |b| >= 8 {
      EightBytes();
      ValueBound(b[..8]);
    }
  }

  function PutName(n: Name): Bytes { Size(|n|) + n }

  function GetName(b: Bytes): (r: Option<(Name, Bytes)>)
    ensures r.Some? ==> |r.value.1| < |b|
  {
    match GetSize(b)
    case None => None
    case Some((n, rest)) => if |rest| < n then None else Some((rest[..n], rest[n..]))
  }

  lemma GetPutName(n: Name, rest: Bytes)
    requires |n| < TWO64
    ensures GetName(PutName(n) + rest) == Some((n, rest))
  {
    assert PutName(n) + rest == Size(|n|) + (n + rest);
    GetPutSize(|n|, n + rest);
    assert (n + rest)[..|n|] == n && (n + rest)[|n|..] == rest;
  }

  function PutNames(ns: seq<Name>): Bytes {
    if ns == [] then [] else PutName(ns[0]) + PutNames(ns[1..])
  }

  function GetNames(k: nat, b: Bytes): (r: Option<(seq<Name>, Bytes)>)
    ensures r.Some? ==> |r.value.1| <= |b| && |r.value.0| == k
    decreases k
  {
    if k == 0 then Some(([], b))
    else
      match GetName(b)
      case None => None
      case Some((n, rest)) =>
        match GetNames(k - 1, rest)
        case None => None
        case Some((ns, rest')) => Some(([n] + ns, rest'))
  }

  lemma {:induction false} GetPutNames(ns: seq<Name>, rest: Bytes)
    requires forall n :: n in ns ==> |n| < TWO64
    ensures GetNames(|ns|, PutNames(ns) + rest) == Some((ns, rest))
    decreases |ns|
  {
    hide PutName, GetName;
    if ns != [] {
      assert PutNames(ns) + rest == PutName(ns[0]) + (PutNames(ns[1..]) + rest);
      GetPutName(ns[0], PutNames(ns[1..]) + rest);
      GetPutNames(ns[1..], rest);
      assert [ns[0]] + ns[1..] == ns;
    } else {
      assert PutNames(ns) + rest == rest;
    }
  }

  // ---- types -----------------------------------------------------------------------------------------

  const NO_INFO: Byte := 0
  const WITH_INFO: Byte := 1

  /** Whether the encoder supports the type: no map and no graph type info anywhere. */
  predicate Supported(t: DataType)
    decreases t
  {
    match t.info
    case None => true
    case Some(StringInfo(_)) => true
    case Some(ListInfo(c)) => Supported(c)
    case Some(ArrayInfo(c, _)) => Supported(c)
    case Some(StructInfo(cs, _)) => forall c :: c in cs ==> Supported(c)
    case Some(MapInfo(_, _)) => false
    case Some(GraphInfo(_, _, _)) => false
  }

  function Put(t: DataType): Bytes
    requires Supported(t)
    decreases t, 0
  {
    match t.info
    case None => [t.id, NO_INFO]
    case Some(StringInfo(max)) => [t.id, WITH_INFO] + Size(max)
    case Some(ListInfo(c)) => [t.id, WITH_INFO] + Put(c)
    case Some(ArrayInfo(c, n)) => [t.id, WITH_INFO] + Put(c) + Size(n)
    case Some(StructInfo(cs, ns)) =>
      [t.id, WITH_INFO] + Size(|cs|) + PutAll(cs) + Size(|ns|) + PutNames(ns)
  }

  function PutAll(ts: seq<DataType>): Bytes
    requires forall t :: t in ts ==> Supported(t)
    decreases ts, 1
  {
    if ts == [] then [] else Put(ts[0]) + PutAll(ts[1..])
  }

  type Parsed = Result<(DataType, Bytes)>

  function Get(b: Bytes): (r: Parsed)
    ensures r.Ok? ==> |r.value.1| < |b|
    decreases |b|, 0
  {
    if |b| < 2 then Err("truncated")
    else if b[1] == NO_INFO then Ok((Plain(b[0]), b[2..]))
    else if b[0] == LIST then
      match Get(b[2..])
      case Err(e) => Err(e)
      case Ok((c, rest)) => Ok((List(c), rest))
    else if b[0] == STRUCT then GetStruct(b[2..])
    else if b[0] == ARRAY then GetArray(b[2..])
    else if b[0] == VARCHAR then
      match GetSize(b[2..])
      case None => Err("truncated")
      case Some((max, rest)) => Ok((Varchar(max), rest))
    else Err("unsupported data type with extra type info")
  }

  function GetArray(b: Bytes): (r: Parsed)
    ensures r.Ok? ==> |r.value.1| < |b|
    decreases |b|, 1
  {
    match Get(b)
    case Err(e) => Err(e)
    case Ok((c, rest)) =>
      match GetSize(rest)
      case None => Err("truncated")
      case Some((n, rest')) =>
        match Array(c, n)
        case Err(e) => Err(e)
        case Ok(t) => Ok((t, rest'))
  }

  function GetStruct(b: Bytes): (r: Parsed)
    ensures r.Ok? ==> |r.value.1| < |b|
    decreases |b|, 2
  {
    match GetSize(b)
    case None => Err("truncated")
    case Some((k, b1)) =>
      match GetAll(k, b1)
      case Err(e) => Err(e)
      case Ok((cs, b2)) =>
        match GetSize(b2)
        case None => Err("truncated")
        case Some((m, b3)) =>
          match GetNames(m, b3)
          case None => Err("truncated")
          case Some((ns, rest)) =>
            if ns == [] then Ok((Tuple(cs), rest))
            else
              match Struct(ns, cs)
              case Err(e) => Err(e)
              case Ok(t) => Ok((t, rest))
  }

  function GetAll(k: nat, b: Bytes): (r: Result<(seq<DataType>, Bytes)>)
    ensures r.Ok? ==> |r.value.1| <= |b| && |r.value.0| == k
    decreases |b|, 1, k
  {
    if k == 0 then Ok(([], b))
    else
      match Get(b)
      case Err(e) => Err(e)
      case Ok((t, rest)) =>
        match GetAll(k - 1, rest)
        case Err(e) => Err(e)
        case Ok((ts, rest')) => Ok(([t] + ts, rest'))
  }

  // ---- layout ------------------------------------------------------------------------------------------

  /** Four bytes, the least significant first. */
  function Weighted(b0: nat, b1: nat, b2: nat, b3: nat): nat { b0 + 0x100 * b1 + 0x1_0000 * b2 + 0x100_0000 * b3 }

  /** The eight bytes of a size that fits a 64-bit word. */
  ghost predicate LittleEndian(n: nat, b: Bytes) {
    && |b| == 8
    && (n < TWO64 ==> n == Weighted(b[0], b[1], b[2], b[3]) + 0x1_0000_0000 * Weighted(b[4], b[5], b[6], b[7]))
  }

  lemma FourBytes(b: Bytes)
    requires |b| >= 4
    ensures Value(b) == Weighted(b[0], b[1], b[2], b[3]) + 0x1_0000_0000 * Value(b[4..])
  {
    assert Value(b) == b[0] + 256 * Value(b[1..]);
    assert b[1..][1..] == b[2..] && b[2..][1..] == b[3..] && b[3..][1..] == b[4..];
    assert Value(b[1..]) == b[1] + 256 * Value(b[2..]);
    assert Value(b[2..]) == b[2] + 256 * Value(b[3..]);
    assert Value(b[3..]) == b[3] + 256 * Value(b[4..]);
  }

  lemma SizeIs(n: nat)
    ensures LittleEndian(n, Size(n))
  {
    if n < TWO64 {
      EightBytes();
      ValueOfWord(n, 8);
      var b := Size(n);
      FourBytes(b);
      FourBytes(b[4..]);
      assert b[4..][4..] == [];
    }
  }

  /** Bytes of a value with extra information: what follows the two leading ones. */
  ghost predicate Follows(t: DataType, b: Bytes)
    requires Supported(t) && t.info.Some?
  {
    match t.info.value
    case StringInfo(max) => LittleEndian(max, b)
    case ListInfo(c) => b == Put(c)
    case ArrayInfo(c, n) => exists size :: b == Put(c) + size && LittleEndian(n, size)
    case StructInfo(cs, ns) =>
      exists k, m :: LittleEndian(|cs|, k) && LittleEndian(|ns|, m) && b == k + PutAll(cs) + m + PutNames(ns)
  }

  /**
    The encoding starts with the type id and a byte 0 or 1. Then come the child of a list, the
    child and the size of an array, the length of a varchar, or the number of children, the
    children, the number of names and the names of a struct.
   */
  lemma Layout(t: DataType)
    requires Supported(t)
    ensures |Put(t)| >= 2 && Put(t)[0] == t.id && Put(t)[1] == (if t.info.Some? then 1 else 0)
    ensures if t.info.Some? then Follows(t, Put(t)[2..]) else |Put(t)| == 2
  {
    hide Size, LittleEndian, PutNames;
    if t.info.Some? {
      match t.info.value
      case StringInfo(max) =>
        SizeIs(max);
        assert Put(t)[2..] == Size(max);
      case ListInfo(c) => assert Put(t)[2..] == Put(c);
      case ArrayInfo(c, n) =>
        SizeIs(n);
        assert Put(t)[2..] == Put(c) + Size(n);
      case StructInfo(cs, ns) =>
        SizeIs(|cs|);
        SizeIs(|ns|);
        assert Put(t)[2..] == Size(|cs|) + PutAll(cs) + Size(|ns|) + PutNames(ns);
    }
  }

  /** The first byte of a type with extra information. */
  lemma LeadingByte(t: DataType)
    requires Built(t) && Supported(t) && t.info.Some?
    ensures Put(t)[0] == match t.info.value
                         case StringInfo(_) => 25
                         case StructInfo(_, _) => 100
                         case ListInfo(_) => 101
                         case ArrayInfo(_, _) => 108
                         case _ => 0
  {
    Layout(t);
    hide Put;
  }

  /** Children stand one behind the other. */
  lemma {:induction false} ChildAt(ts: seq<DataType>, k: nat)
    requires k < |ts| && forall t :: t in ts ==> Supported(t)
    ensures PutAll(ts) == PutAll(ts[..k]) + Put(ts[k]) + PutAll(ts[k + 1..])
    decreases ts
  {
    hide Put, Supported;
    if k > 0 {
      ChildAt(ts[1..], k - 1);
      assert ts[1..][..k - 1] == ts[..k][1..] && ts[1..][k..] == ts[k + 1..];
    } else {
      assert PutAll(ts[..0]) == [];
    }
  }

  /** Names stand one behind the other, each behind its length. */
  lemma {:induction false} NameAt(ns: seq<Name>, k: nat) returns (size: Bytes)
    requires k < |ns|
    ensures PutNames(ns) == PutNames(ns[..k]) + size + ns[k] + PutNames(ns[k + 1..]) && LittleEndian(|ns[k]|, size)
    decreases ns
  {
    hide Size, LittleEndian;
    if k > 0 {
      size := NameAt(ns[1..], k - 1);
      assert ns[1..][..k - 1] == ns[..k][1..] && ns[1..][k..] == ns[k + 1..];
    } else {
      size := Size(|ns[0]|);
      SizeIs(|ns[0]|);
      assert PutNames(ns[..0]) == [];
    }
  }

  // ---- round trip --------------------------------------------------------------------------------------

  /**
    Decoding an encoding followed by anything returns the same type, with its varchar
    lengths and its blank or absent field names, and leaves exactly what followed.
   */
  lemma {:induction false} RoundTrip(t: DataType, rest: Bytes)
    requires Built(t) && Supported(t)
    ensures Get(Put(t) + rest) == Ok((t, rest))
    decreases t, 0
  {
    hide Size, GetSize, PutNames, PutAll, GetStruct;
    var b := Put(t) + rest;
    match t.info
    case None => assert b == [t.id, NO_INFO] + rest;
    case Some(StringInfo(max)) =>
      assert b[2..] == Size(max) + rest;
      GetPutSize(max, rest);
    case Some(ListInfo(c)) =>
      assert b[2..] == Put(c) + rest;
      RoundTrip(c, rest);
    case Some(ArrayInfo(c, n)) =>
      assert b[2..] == Put(c) + (Size(n) + rest);
      RoundTrip(c, Size(n) + rest);
      GetPutSize(n, rest);
    case Some(StructInfo(cs, ns)) =>
      assert b[2..] == Size(|cs|) + (PutAll(cs) + (Size(|ns|) + (PutNames(ns) + rest)));
      RoundTripAll(cs, Size(|ns|) + (PutNames(ns) + rest));
      RoundTripStruct(cs, ns, rest);
  }

  lemma RoundTripStruct(cs: seq<DataType>, ns: seq<Name>, rest: Bytes)
    requires forall c :: c in cs ==> Supported(c)
    requires var t := DataType(STRUCT, Some(StructInfo(cs, ns))); Built(t)
    requires GetAll(|cs|, PutAll(cs) + (Size(|ns|) + (PutNames(ns) + rest)))
          == Ok((cs, Size(|ns|) + (PutNames(ns) + rest)))
    ensures GetStruct(Size(|cs|) + (PutAll(cs) + (Size(|ns|) + (PutNames(ns) + rest))))
         == Ok((DataType(STRUCT, Some(StructInfo(cs, ns))), rest))
  {
    hide Size, GetSize, PutAll, GetAll, PutNames, GetNames;
    GetPutSize(|cs|, PutAll(cs) + (Size(|ns|) + (PutNames(ns) + rest)));
    GetPutSize(|ns|, PutNames(ns) + rest);
    GetPutNames(ns, rest);
  }

  lemma {:induction false} RoundTripAll(ts: seq<DataType>, rest: Bytes)
    requires forall t :: t in ts ==> Built(t) && Supported(t)
    ensures GetAll(|ts|, PutAll(ts) + rest) == Ok((ts, rest))
    decreases ts, 1
  {
    if ts != [] {
      assert PutAll(ts) + rest == Put(ts[0]) + (PutAll(ts[1..]) + rest);
      RoundTrip(ts[0], PutAll(ts[1..]) + rest);
      RoundTripAll(ts[1..], rest);
      assert [ts[0]] + ts[1..] == ts;
    } else {
      assert PutAll(ts) + rest == rest;
    }
  }

  // ---- what decoding can return ---------------------------------------------------------------------------

  lemma {:induction false} NamesFit(k: nat, b: Bytes)
    ensures GetNames(k, b).Some? ==> forall n :: n in GetNames(k, b).value.0 ==> |n| < TWO64
    decreases k
  {
    if k > 0 && GetName(b).Some? {
      GetSizeFits(b);
      NamesFit(k - 1, GetName(b).value.1);
    }
  }

  /** Whatever decodes is a type the factories build and the encoder supports. */
  lemma {:induction false} DecodedIsBuilt(b: Bytes)
    ensures Get(b).Ok? ==> Built(Get(b).value.0) && Supported(Get(b).value.0)
    decreases |b|, 0
  {
    if |b| >= 2 && b[1] != NO_INFO {
      if b[0] == LIST {
        DecodedIsBuilt(b[2..]);
      } else if b[0] == STRUCT {
        StructIsBuilt(b[2..]);
      } else if b[0] == ARRAY {
        DecodedIsBuilt(b[2..]);
        if Get(b[2..]).Ok? { GetSizeFits(Get(b[2..]).value.1); }
      } else if b[0] == VARCHAR {
        GetSizeFits(b[2..]);
      }
    }
  }

  lemma {:induction false} StructIsBuilt(b: Bytes)
    ensures GetStruct(b).Ok? ==> Built(GetStruct(b).value.0) && Supported(GetStruct(b).value.0)
    decreases |b|, 2
  {
    if GetStruct(b).Ok? {
      var (k, b1) := GetSize(b).value;
      GetSizeFits(b);
      AllBuilt(k, b1);
      var (cs, b2) := GetAll(k, b1).value;
      var (m, b3) := GetSize(b2).value;
      NamesFit(m, b3);
    }
  }

  lemma {:induction false} AllBuilt(k: nat, b: Bytes)
    ensures GetAll(k, b).Ok? ==> forall t :: t in GetAll(k, b).value.0 ==> Built(t) && Supported(t)
    decreases |b|, 1, k
  {
    if k > 0 {
      DecodedIsBuilt(b);
      if Get(b).Ok? { AllBuilt(k - 1, Get(b).value.1); }
    }
  }

  /** Decoding again what was decoded once gives the same type. */
  lemma DecodeEncodeDecode(b: Bytes)
    requires Get(b).Ok?
    ensures Supported(Get(b).value.0)
    ensures Get(Put(Get(b).value.0) + Get(b).value.1) == Get(b)
  {
    DecodedIsBuilt(b);
    RoundTrip(Get(b).value.0, Get(b).value.1);
  }
}
