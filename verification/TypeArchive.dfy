/** The archive operators for data types: appending to and consuming a buffer in place. */
module TypeArchive {
  import opened Common
  import opened DataTypes
  import opened TypeCodec

  lemma {:induction false} PutAllSnoc(ts: seq<DataType>, t: DataType)
    requires (forall x :: x in ts ==> Supported(x)) && Supported(t)
    ensures PutAll(ts + [t]) == PutAll(ts) + Put(t)
    decreases |ts|
  {
    hide Put, Supported;
    if ts == [] {
      assert ts + [t] == [t];
      assert PutAll([t]) == Put(t) + PutAll([]);
    } else {
      PutAllSnoc(ts[1..], t);
      assert (ts + [t])[1..] == ts[1..] + [t];
    }
  }

  lemma {:induction false} PutNamesSnoc(ns: seq<Name>, n: Name)
    ensures PutNames(ns + [n]) == PutNames(ns) + PutName(n)
    decreases |ns|
  {
    hide PutName;
    if ns == [] {
      assert ns + [n] == [n];
      assert PutNames([n]) == PutName(n) + PutNames([]);
    } else {
      PutNamesSnoc(ns[1..], n);
      assert (ns + [n])[1..] == ns[1..] + [n];
    }
  }

  class InArchive {
    var buffer: Bytes

    constructor ()
      ensures buffer == []
    {
      buffer := [];
    }

    method AddBytes(b: Bytes)
      modifies this
      ensures buffer == old(buffer) + b
    {
      buffer := buffer + b;
    }

    /** The loop over the field names. */
    method AddNames(ns: seq<Name>)
      modifies this
      ensures buffer == old(buffer) + PutNames(ns)
    {
      for i := 0 to |ns|
        invariant buffer == old(buffer) + PutNames(ns[..i])
      {
        PutNamesSnoc(ns[..i], ns[i]);
        assert ns[..i + 1] == ns[..i] + [ns[i]];
        AddBytes(PutName(ns[i]));
      }
      assert ns[..|ns|] == ns;
    }

    /** The loop over the child types; it stops at the first unsupported one. */
    method AddChildren(ts: seq<DataType>) returns (ok: bool)
      modifies this
      ensures ok <==> forall t :: t in ts ==> Supported(t)
      ensures ok ==> buffer == old(buffer) + PutAll(ts)
      ensures old(buffer) <= buffer
      decreases ts, 1
    {
      for i := 0 to |ts|
        invariant forall t :: t in ts[..i] ==> Supported(t)
        invariant buffer == old(buffer) + PutAll(ts[..i])
      {
        ok := Add(ts[i]);
        if !ok {
          assert ts[i] in ts;
          return;
        }
        PutAllSnoc(ts[..i], ts[i]);
        assert ts[..i + 1] == ts[..i] + [ts[i]];
      }
      assert ts[..|ts|] == ts;
      return true;
    }

    /** operator<<: fails on map and graph type info, after having written part of the type. */
    method Add(t: DataType) returns (ok: bool)
      modifies this
      ensures ok == Supported(t)
      ensures ok ==> buffer == old(buffer) + Put(t)
      ensures old(buffer) <= buffer
      decreases t, 0
    {
      hide Size, PutNames, PutAll;
      ok := true;
      match t.info
      case None => AddBytes([t.id, NO_INFO]);
      case Some(StringInfo(max)) =>
        AddBytes([t.id, WITH_INFO]);
        AddBytes(Size(max));
      case Some(ListInfo(c)) =>
        AddBytes([t.id, WITH_INFO]);
        ok := Add(c);
      case Some(ArrayInfo(c, n)) =>
        AddBytes([t.id, WITH_INFO]);
        ok := Add(c);
        if ok { AddBytes(Size(n)); }
      case Some(StructInfo(cs, ns)) =>
        AddBytes([t.id, WITH_INFO]);
        AddBytes(Size(|cs|));
        ok := AddChildren(cs);
        if ok {
          AddBytes(Size(|ns|));
          AddNames(ns);
        }
      case Some(_) =>
        AddBytes([t.id, WITH_INFO]);
        ok := false;
    }
  }

  // ---- decoding ------------------------------------------------------------------------------------

  /** Decoding k more children after those already decoded. */
  function Prepend(cs: seq<DataType>, r: Result<(seq<DataType>, Bytes)>): Result<(seq<DataType>, Bytes)> {
    match r
    case Err(e) => Err(e)
    case Ok((ts, rest)) => Ok((cs + ts, rest))
  }

  lemma PrependNothing(r: Result<(seq<DataType>, Bytes)>)
    ensures Prepend([], r) == r
  {
    if r.Ok? { assert [] + r.value.0 == r.value.0; }
  }

  lemma GetAllStep(k: nat, b: Bytes, cs: seq<DataType>)
    requires k > 0
    ensures Get(b).Err? ==> Prepend(cs, GetAll(k, b)).Err?
    ensures Get(b).Ok? ==>
      Prepend(cs, GetAll(k, b)) == Prepend(cs + [Get(b).value.0], GetAll(k - 1, Get(b).value.1))
  {
    if Get(b).Ok? && GetAll(k - 1, Get(b).value.1).Ok? {
      var ts := GetAll(k - 1, Get(b).value.1).value.0;
      assert cs + ([Get(b).value.0] + ts) == cs + [Get(b).value.0] + ts;
    }
  }

  function PrependNames(ns: seq<Name>, r: Option<(seq<Name>, Bytes)>): Option<(seq<Name>, Bytes)> {
    match r
    case None => None
    case Some((ms, rest)) => Some((ns + ms, rest))
  }

  lemma PrependNoNames(r: Option<(seq<Name>, Bytes)>)
    ensures PrependNames([], r) == r
  {
    if r.Some? { assert [] + r.value.0 == r.value.0; }
  }

  lemma GetNamesStep(k: nat, b: Bytes, ns: seq<Name>)
    requires k > 0
    ensures GetName(b).None? ==> PrependNames(ns, GetNames(k, b)).None?
    ensures GetName(b).Some? ==>
      PrependNames(ns, GetNames(k, b)) == PrependNames(ns + [GetName(b).value.0], GetNames(k - 1, GetName(b).value.1))
  {
    if GetName(b).Some? && GetNames(k - 1, GetName(b).value.1).Some? {
      var ms := GetNames(k - 1, GetName(b).value.1).value.0;
      assert ns + ([GetName(b).value.0] + ms) == ns + [GetName(b).value.0] + ms;
    }
  }

  class OutArchive {
    var rest: Bytes

    constructor (b: Bytes)
      ensures rest == b
    {
      rest := b;
    }

    method ReadSize() returns (r: Option<nat>)
      modifies this
      ensures |rest| <= |old(rest)|
      ensures match GetSize(old(rest))
        case None => r.None? && rest == old(rest)
        case Some((n, b)) => r == Some(n) && rest == b
    {
      if |rest| < 8 { return None; }
      r := Some(Value(rest[..8]));
      rest := rest[8..];
    }

    /** The loop over the field names. */
    method ReadNames(k: nat) returns (r: Option<seq<Name>>)
      modifies this
      ensures |rest| <= |old(rest)|
      ensures match GetNames(k, old(rest))
        case None => r.None?
        case Some((ns, b)) => r == Some(ns) && rest == b
    {
      hide GetNames, GetSize, Value;
      var ns: seq<Name> := [];
      PrependNoNames(GetNames(k, rest));
      for i := 0 to k
        invariant |rest| <= |old(rest)|
        invariant GetNames(k, old(rest)) == PrependNames(ns, GetNames(k - i, rest))
      {
        GetNamesStep(k - i, rest, ns);
        var n := ReadName();
        if n.None? { return None; }
        ns := ns + [n.value];
      }
      NoNames(rest);
      assert ns + [] == ns;
      r := Some(ns);
    }

    method ReadName() returns (r: Option<Name>)
      modifies this
      ensures |rest| <= |old(rest)|
      ensures match GetName(old(rest))
        case None => r.None?
        case Some((n, b)) => r == Some(n) && rest == b
    {
      var n := ReadSize();
      if n.None? || |rest| < n.value { return None; }
      r := Some(rest[..n.value]);
      rest := rest[n.value..];
    }

    /** The loop over the child types. */
    method ReadChildren(k: nat) returns (r: Result<seq<DataType>>)
      modifies this
      ensures |rest| <= |old(rest)|
      ensures match GetAll(k, old(rest))
        case Err(_) => r.Err?
        case Ok((cs, b)) => r == Ok(cs) && rest == b
      decreases |rest|, 2
    {
      hide GetAll, Get;
      var cs: seq<DataType> := [];
      PrependNothing(GetAll(k, rest));
      for i := 0 to k
        invariant |rest| <= |old(rest)|
        invariant GetAll(k, old(rest)) == Prepend(cs, GetAll(k - i, rest))
      {
        GetAllStep(k - i, rest, cs);
        var t := Read();
        if t.Err? { return Err("child"); }
        cs := cs + [t.value];
      }
      NoChildren(rest);
      assert cs + [] == cs;
      r := Ok(cs);
    }

    /** operator>>. */
    method Read() returns (r: Result<DataType>)
      modifies this
      ensures |rest| <= |old(rest)|
      ensures match Get(old(rest))
        case Err(_) => r.Err?
        case Ok((t, b)) => r == Ok(t) && rest == b
      decreases |rest|, 1
    {
      hide GetStruct, GetArray, GetSize;
      if |rest| < 2 { return Err("truncated"); }
      var id, flag := rest[0], rest[1];
      rest := rest[2..];
      if flag == NO_INFO { return Ok(Plain(id)); }
      if id == LIST {
        var c := Read();
        if c.Err? { return c; }
        r := Ok(List(c.value));
      } else if id == STRUCT {
        r := ReadStruct();
      } else if id == ARRAY {
        r := ReadArray();
      } else if id == VARCHAR {
        var n := ReadSize();
        if n.None? { return Err("truncated"); }
        r := Ok(Varchar(n.value));
      } else {
        r := Err("unsupported data type with extra type info");
      }
    }

    method ReadArray() returns (r: Result<DataType>)
      modifies this
      ensures |rest| <= |old(rest)|
      ensures match GetArray(old(rest))
        case Err(_) => r.Err?
        case Ok((t, b)) => r == Ok(t) && rest == b
      decreases |rest|, 3
    {
      hide Get, GetSize;
      var c := Read();
      if c.Err? { return c; }
      var n := ReadSize();
      if n.None? { return Err("truncated"); }
      r := Array(c.value, n.value);
    }

    method ReadStruct() returns (r: Result<DataType>)
      modifies this
      ensures |rest| <= |old(rest)|
      ensures match GetStruct(old(rest))
        case Err(_) => r.Err?
        case Ok((t, b)) => r == Ok(t) && rest == b
      decreases |rest|, 3
    {
      hide GetSize, GetAll, GetNames;
      var k := ReadSize();
      if k.None? { return Err("truncated"); }
      var cs := ReadChildren(k.value);
      if cs.Err? { return Err(cs.error); }
      var m := ReadSize();
      if m.None? { return Err("truncated"); }
      var ns := ReadNames(m.value);
      if ns.None? { return Err("truncated"); }
      if ns.value == [] { return Ok(Tuple(cs.value)); }
      r := Struct(ns.value, cs.value);
    }
  }

  lemma NoNames(b: Bytes)
    ensures GetNames(0, b) == Some(([], b))
  {
  }

  lemma NoChildren(b: Bytes)
    ensures GetAll(0, b) == Ok(([], b))
  {
  }

  /** Writing a type and reading it back in place. */
  method WriteAndRead(t: DataType, suffix: Bytes) returns (r: Result<DataType>, left: Bytes)
    requires Built(t) && Supported(t)
    ensures r == Ok(t) && left == suffix
  {
    hide Put, Get;
    var arc := new InArchive();
    var ok := arc.Add(t);
    arc.AddBytes(suffix);
    RoundTrip(t, suffix);
    assert arc.buffer == Put(t) + suffix;
    var out := new OutArchive(arc.buffer);
    r := out.Read();
    left := out.rest;
  }
}
