/** Replaying a redo log refines the live execution that wrote it. */
module RedoProof {
  import opened Common
  import opened Redo

  // ---- filtering vertex types -------------------------------------------------------------------

  /** How many persistent types come before position i: the label on replay. */
  function RankV(vs: seq<VType>, i: nat): nat
    requires i <= |vs|
  {
    if i == 0 then 0 else (if vs[0].temp then 0 else 1) + RankV(vs[1..], i - 1)
  }

  lemma {:induction false} KeptAtV(vs: seq<VType>, i: nat)
    requires i < |vs| && !vs[i].temp
    ensures RankV(vs, i) < |KeptV(vs)| && KeptV(vs)[RankV(vs, i)] == vs[i]
  {
    if i > 0 { KeptAtV(vs[1..], i - 1); }
  }

  lemma {:induction false} KeptUpdateV(vs: seq<VType>, i: nat, t: VType)
    requires i < |vs| && t.temp == vs[i].temp
    ensures !vs[i].temp ==> RankV(vs, i) < |KeptV(vs)| && KeptV(vs[i := t]) == KeptV(vs)[RankV(vs, i) := t]
    ensures vs[i].temp ==> KeptV(vs[i := t]) == KeptV(vs)
  {
    if i > 0 {
      KeptUpdateV(vs[1..], i - 1, t);
      assert vs[i := t][1..] == vs[1..][i - 1 := t];
    } else {
      assert vs[i := t][1..] == vs[1..];
    }
  }

  lemma {:induction false} KeptAppendV(vs: seq<VType>, t: VType)
    ensures KeptV(vs + [t]) == KeptV(vs) + (if t.temp then [] else [t])
  {
    if vs == [] {
      assert vs + [t] == [t];
      assert KeptV([t]) == (if t.temp then [] else [t]) + KeptV([]);
    } else {
      KeptAppendV(vs[1..], t);
      assert (vs + [t])[1..] == vs[1..] + [t];
    }
  }

  lemma {:induction false} KeptSubV(vs: seq<VType>, k: nat)
    requires k < |KeptV(vs)|
    ensures exists i :: 0 <= i < |vs| && !vs[i].temp && vs[i] == KeptV(vs)[k]
  {
    if vs[0].temp {
      KeptSubV(vs[1..], k);
      var i :| 0 <= i < |vs[1..]| && !vs[1..][i].temp && vs[1..][i] == KeptV(vs[1..])[k];
      assert vs[i + 1] == KeptV(vs)[k];
    } else if k > 0 {
      KeptSubV(vs[1..], k - 1);
      var i :| 0 <= i < |vs[1..]| && !vs[1..][i].temp && vs[1..][i] == KeptV(vs[1..])[k - 1];
      assert vs[i + 1] == KeptV(vs)[k];
    }
  }

  lemma FindConsV(x: VType, rest: seq<VType>, key: Name)
    ensures FindV([x] + rest, key) ==
      if x.name == key then Some(0)
      else match FindV(rest, key)
           case None => None
           case Some(i) => Some(i + 1)
  {
    assert ([x] + rest)[1..] == rest;
  }

  lemma KeptConsV(vs: seq<VType>)
    requires vs != []
    ensures KeptV(vs) == if vs[0].temp then KeptV(vs[1..]) else [vs[0]] + KeptV(vs[1..])
  {
  }

  /** A persistent type is found by name, at its rank. */
  lemma {:induction false} FindKeptV(vs: seq<VType>, i: nat)
    requires UniqueV(vs) && i < |vs| && !vs[i].temp
    ensures FindV(KeptV(vs), vs[i].name) == Some(RankV(vs, i))
  {
    hide FindV, KeptV;
    KeptConsV(vs);
    FindConsV(vs[0], KeptV(vs[1..]), vs[i].name);
    if i > 0 {
      FindKeptV(vs[1..], i - 1);
      assert vs[0].name != vs[i].name && vs[1..][i - 1] == vs[i];
    }
  }

  lemma {:induction false} FindAtV(vs: seq<VType>, i: nat)
    requires UniqueV(vs) && i < |vs|
    ensures FindV(vs, vs[i].name) == Some(i)
  {
    if i > 0 { FindAtV(vs[1..], i - 1); }
  }

  lemma NotKeptV(vs: seq<VType>, name: Name)
    requires FindV(vs, name).None?
    ensures FindV(KeptV(vs), name).None?
  {
    if FindV(KeptV(vs), name).Some? { KeptSubV(vs, FindV(KeptV(vs), name).value); }
  }

  // ---- filtering edge types -----------------------------------------------------------------------

  function RankE(es: seq<EType>, i: nat): nat
    requires i <= |es|
  {
    if i == 0 then 0 else (if es[0].temp then 0 else 1) + RankE(es[1..], i - 1)
  }

  lemma {:induction false} KeptAtE(es: seq<EType>, i: nat)
    requires i < |es| && !es[i].temp
    ensures RankE(es, i) < |KeptE(es)| && KeptE(es)[RankE(es, i)] == es[i]
  {
    if i > 0 { KeptAtE(es[1..], i - 1); }
  }

  lemma {:induction false} KeptUpdateE(es: seq<EType>, i: nat, t: EType)
    requires i < |es| && t.temp == es[i].temp
    ensures !es[i].temp ==> RankE(es, i) < |KeptE(es)| && KeptE(es[i := t]) == KeptE(es)[RankE(es, i) := t]
    ensures es[i].temp ==> KeptE(es[i := t]) == KeptE(es)
  {
    if i > 0 {
      KeptUpdateE(es[1..], i - 1, t);
      assert es[i := t][1..] == es[1..][i - 1 := t];
    } else {
      assert es[i := t][1..] == es[1..];
    }
  }

  lemma {:induction false} KeptAppendE(es: seq<EType>, t: EType)
    ensures KeptE(es + [t]) == KeptE(es) + (if t.temp then [] else [t])
  {
    if es == [] {
      assert es + [t] == [t];
      assert KeptE([t]) == (if t.temp then [] else [t]) + KeptE([]);
    } else {
      KeptAppendE(es[1..], t);
      assert (es + [t])[1..] == es[1..] + [t];
    }
  }

  lemma {:induction false} KeptSubE(es: seq<EType>, k: nat)
    requires k < |KeptE(es)|
    ensures exists i :: 0 <= i < |es| && !es[i].temp && es[i] == KeptE(es)[k]
  {
    if es[0].temp {
      KeptSubE(es[1..], k);
      var i :| 0 <= i < |es[1..]| && !es[1..][i].temp && es[1..][i] == KeptE(es[1..])[k];
      assert es[i + 1] == KeptE(es)[k];
    } else if k > 0 {
      KeptSubE(es[1..], k - 1);
      var i :| 0 <= i < |es[1..]| && !es[1..][i].temp && es[1..][i] == KeptE(es[1..])[k - 1];
      assert es[i + 1] == KeptE(es)[k];
    }
  }

  lemma FindConsE(x: EType, rest: seq<EType>, key: Key)
    ensures FindE([x] + rest, key) ==
      if KeyOf(x) == key then Some(0)
      else match FindE(rest, key)
           case None => None
           case Some(i) => Some(i + 1)
  {
    assert ([x] + rest)[1..] == rest;
  }

  lemma KeptConsE(es: seq<EType>)
    requires es != []
    ensures KeptE(es) == if es[0].temp then KeptE(es[1..]) else [es[0]] + KeptE(es[1..])
  {
  }

  lemma {:induction false} FindKeptE(es: seq<EType>, i: nat)
    requires UniqueE(es) && i < |es| && !es[i].temp
    ensures FindE(KeptE(es), KeyOf(es[i])) == Some(RankE(es, i))
  {
    hide FindE, KeptE;
    KeptConsE(es);
    FindConsE(es[0], KeptE(es[1..]), KeyOf(es[i]));
    if i > 0 {
      FindKeptE(es[1..], i - 1);
      assert KeyOf(es[0]) != KeyOf(es[i]) && es[1..][i - 1] == es[i];
    }
  }

  lemma NotKeptE(es: seq<EType>, key: Key)
    requires FindE(es, key).None?
    ensures FindE(KeptE(es), key).None?
  {
    if FindE(KeptE(es), key).Some? { KeptSubE(es, FindE(KeptE(es), key).value); }
  }

  /** Detaching a vertex from every edge type commutes with dropping the temporary ones. */
  lemma {:induction false} KeptDetached(es: seq<EType>, ty: Name, v: nat)
    ensures KeptE(DetachedAll(es, ty, v)) == DetachedAll(KeptE(es), ty, v)
  {
    if es != [] {
      KeptDetached(es[1..], ty, v);
      assert DetachedAll(es, ty, v)[1..] == DetachedAll(es[1..], ty, v);
      if !es[0].temp { assert KeptE(es)[1..] == KeptE(es[1..]); }
    }
  }

  // ---- vertices ------------------------------------------------------------------------------------------

  lemma {:induction false} FindRowAt(rows: seq<Row>, i: nat)
    requires i < |rows| && forall a, b :: 0 <= a < b < |rows| ==> rows[a].oid != rows[b].oid
    ensures FindRow(rows, rows[i].oid) == Some(i)
  {
    if i > 0 { FindRowAt(rows[1..], i - 1); }
  }

  /** A live vertex of a persistent type has the same local id on replay. */
  lemma SameLid(g: Graph, l: nat, lid: nat)
    requires WellFormed(g) && l < |g.vs| && !g.vs[l].temp && Alive(g.vs[l], lid)
    ensures Lid(Persist(g), g.vs[l].name, g.vs[l].rows[lid].oid) == Some(lid)
    ensures FindV(Persist(g).vs, g.vs[l].name) == Some(RankV(g.vs, l))
    ensures RankV(g.vs, l) < |Persist(g).vs| && Persist(g).vs[RankV(g.vs, l)] == g.vs[l]
  {
    FindKeptV(g.vs, l);
    KeptAtV(g.vs, l);
    assert UniqueRows(g.vs[l]);
    FindRowAt(g.vs[l].rows, lid);
  }

  // ---- one operation -----------------------------------------------------------------------------------

  /** Logging and replaying one operation commutes with dropping everything temporary. */
  ghost predicate Agrees(g: Graph, op: Op, g': Graph) {
    ReplayAll(Persist(g), LogOf(g, op)) == Some(Persist(g'))
  }

  lemma ReplayNothing(g: Graph)
    ensures ReplayAll(g, []) == Some(g)
  {
  }

  lemma ReplayOne(g: Graph, r: Rec)
    ensures ReplayAll(g, [r]) == Replay(g, r)
  {
    if Replay(g, r).Some? { assert [r][1..] == []; ReplayNothing(Replay(g, r).value); }
  }

  lemma CreateVAgrees(g: Graph, op: Op, g': Graph)
    requires WellFormed(g) && op.CreateV? && Exec(g, op) == Some(g')
    ensures Agrees(g, op, g')
  {
    KeptAppendV(g.vs, VType(op.name, op.temp, op.cols, []));
    NotKeptV(g.vs, op.name);
    if op.temp {
      assert KeptV(g.vs) + [] == KeptV(g.vs);
      ReplayNothing(Persist(g));
    } else {
      ReplayOne(Persist(g), RCreateV(op.name, op.cols));
    }
  }

  lemma KeptLabel(g: Graph, name: Name)
    requires WellFormed(g) && FindV(g.vs, name).Some? && !TempLabel(g, name)
    ensures FindV(Persist(g).vs, name).Some? && !TempLabel(Persist(g), name)
  {
    var i := FindV(g.vs, name).value;
    FindKeptV(g.vs, i);
    KeptAtV(g.vs, i);
  }

  lemma CreateEAgrees(g: Graph, op: Op, g': Graph)
    requires WellFormed(g) && op.CreateE? && Exec(g, op) == Some(g')
    ensures Agrees(g, op, g')
  {
    var temp := op.temp || TempLabel(g, op.src) || TempLabel(g, op.dst);
    var t := EType(op.src, op.dst, op.name, temp, op.cols, map[], map[]);
    var key := Key(op.src, op.dst, op.name);
    KeptAppendE(g.es, t);
    NotKeptE(g.es, key);
    if temp {
      assert KeptE(g.es) + [] == KeptE(g.es);
      ReplayNothing(Persist(g));
    } else {
      KeptLabel(g, op.src);
      KeptLabel(g, op.dst);
      ReplayOne(Persist(g), RCreateE(key, op.cols));
    }
  }

  lemma AddVAgrees(g: Graph, op: Op, g': Graph)
    requires WellFormed(g) && op.AddV? && Exec(g, op) == Some(g')
    ensures Agrees(g, op, g')
  {
    hide KeptV, KeptE, FindV, RankV, ReplayAll, WellFormed;
    var t := AddRow(g.vs[op.l], op.oid, op.props).value;
    KeptUpdateV(g.vs, op.l, t);
    if g.vs[op.l].temp {
      ReplayNothing(Persist(g));
    } else {
      RankOfV(g, op.l);
      ReplayOne(Persist(g), RAddV(g.vs[op.l].name, op.oid, op.props));
    }
  }

  lemma DelVAgrees(g: Graph, op: Op, g': Graph)
    requires WellFormed(g) && op.DelV? && Exec(g, op) == Some(g')
    ensures Agrees(g, op, g')
  {
    hide KeptV, KeptE, FindV, FindRow, RankV, DetachedAll, ReplayAll, WellFormed, Lid;
    var v := g.vs[op.l];
    if !Alive(v, op.lid) {
      ReplayNothing(Persist(g));
    } else {
      KeptUpdateV(g.vs, op.l, KillRow(v, op.lid));
      KeptDetached(g.es, v.name, op.lid);
      if v.temp {
        TempTouchesNothing(g, op.l, op.lid);
        ReplayNothing(Persist(g));
      } else {
        SameLid(g, op.l, op.lid);
        ReplayOne(Persist(g), RDelV(v.name, v.rows[op.lid].oid));
      }
    }
  }

  /** No persistent edge type is incident to a temporary vertex type. */
  lemma TempTouchesNothing(g: Graph, l: nat, v: nat)
    requires WellFormed(g) && l < |g.vs| && g.vs[l].temp
    ensures DetachedAll(KeptE(g.es), g.vs[l].name, v) == KeptE(g.es)
  {
    var name := g.vs[l].name;
    FindAtV(g.vs, l);
    var ks := KeptE(g.es);
    forall k | 0 <= k < |ks| ensures Detached(ks[k], name, v) == ks[k] {
      KeptSubE(g.es, k);
      var i :| 0 <= i < |g.es| && !g.es[i].temp && g.es[i] == ks[k];
      assert !TempLabel(g, g.es[i].src) && !TempLabel(g, g.es[i].dst);
    }
  }

  lemma SetVAgrees(g: Graph, op: Op, g': Graph)
    requires WellFormed(g) && op.SetV? && Exec(g, op) == Some(g')
    ensures Agrees(g, op, g')
  {
    hide KeptV, KeptE, FindV, FindRow, RankV, ReplayAll, WellFormed, Lid;
    var t := SetCell(g.vs[op.l], op.lid, op.c, op.x).value;
    KeptUpdateV(g.vs, op.l, t);
    if g.vs[op.l].temp {
      ReplayNothing(Persist(g));
    } else {
      SameLid(g, op.l, op.lid);
      ReplayOne(Persist(g), RSetV(g.vs[op.l].name, g.vs[op.l].rows[op.lid].oid, op.c, op.x));
    }
  }

  // ---- schema operations -----------------------------------------------------------------------------------

  lemma {:induction false} KeptRemoveV(vs: seq<VType>, i: nat)
    requires i < |vs|
    ensures vs[i].temp ==> KeptV(RemoveAt(vs, i)) == KeptV(vs)
    ensures !vs[i].temp ==> RankV(vs, i) < |KeptV(vs)| && KeptV(RemoveAt(vs, i)) == RemoveAt(KeptV(vs), RankV(vs, i))
  {
    hide KeptV;
    KeptConsV(vs);
    if i == 0 {
      assert RemoveAt(vs, 0) == vs[1..];
      if !vs[0].temp { assert RemoveAt(KeptV(vs), 0) == KeptV(vs[1..]); }
    } else {
      KeptRemoveV(vs[1..], i - 1);
      assert RemoveAt(vs, i)[0] == vs[0] && RemoveAt(vs, i)[1..] == RemoveAt(vs[1..], i - 1);
      KeptConsV(RemoveAt(vs, i));
      if !vs[0].temp && !vs[i].temp { RemoveCons(vs[0], KeptV(vs[1..]), RankV(vs[1..], i - 1)); }
    }
  }

  lemma RemoveCons<T>(x: T, xs: seq<T>, i: nat)
    requires i < |xs|
    ensures RemoveAt([x] + xs, i + 1) == [x] + RemoveAt(xs, i)
  {
    assert ([x] + xs)[i + 2..] == xs[i + 1..] && ([x] + xs)[..i + 1] == [x] + xs[..i];
  }

  lemma {:induction false} KeptRemoveE(es: seq<EType>, i: nat)
    requires i < |es|
    ensures es[i].temp ==> KeptE(RemoveAt(es, i)) == KeptE(es)
    ensures !es[i].temp ==> RankE(es, i) < |KeptE(es)| && KeptE(RemoveAt(es, i)) == RemoveAt(KeptE(es), RankE(es, i))
  {
    hide KeptE;
    KeptConsE(es);
    if i == 0 {
      assert RemoveAt(es, 0) == es[1..];
      if !es[0].temp { assert RemoveAt(KeptE(es), 0) == KeptE(es[1..]); }
    } else {
      KeptRemoveE(es[1..], i - 1);
      assert RemoveAt(es, i)[0] == es[0] && RemoveAt(es, i)[1..] == RemoveAt(es[1..], i - 1);
      KeptConsE(RemoveAt(es, i));
      if !es[0].temp && !es[i].temp { RemoveCons(es[0], KeptE(es[1..]), RankE(es[1..], i - 1)); }
    }
  }

  /** Dropping the edge types of a vertex type commutes with dropping the temporary ones. */
  lemma {:induction false} KeptUntouched(es: seq<EType>, ty: Name)
    ensures KeptE(Untouched(es, ty)) == Untouched(KeptE(es), ty)
  {
    hide KeptE, Untouched;
    if es == [] {
      UntouchedNil(ty);
    } else {
      KeptUntouched(es[1..], ty);
      KeptConsE(es);
      UntouchedCons(es[0], es[1..], ty);
      assert [es[0]] + es[1..] == es;
      UntouchedCons(es[0], KeptE(es[1..]), ty);
      KeptFirst(es[0], Untouched(es[1..], ty));
    }
  }

  lemma UntouchedNil(ty: Name)
    ensures KeptE([]) == [] && Untouched([], ty) == []
  {
  }

  lemma UntouchedCons(x: EType, rest: seq<EType>, ty: Name)
    ensures Untouched([x] + rest, ty) == if x.src == ty || x.dst == ty then Untouched(rest, ty) else [x] + Untouched(rest, ty)
  {
    assert ([x] + rest)[1..] == rest;
  }

  lemma KeptFirst(x: EType, rest: seq<EType>)
    ensures KeptE([x] + rest) == if x.temp then KeptE(rest) else [x] + KeptE(rest)
  {
    assert ([x] + rest)[1..] == rest;
  }

  lemma {:induction false} NoneTouched(es: seq<EType>, ty: Name)
    requires forall i :: 0 <= i < |es| ==> es[i].src != ty && es[i].dst != ty
    ensures Untouched(es, ty) == es
  {
    if es != [] {
      NoneTouched(es[1..], ty);
      assert [es[0]] + es[1..] == es;
    }
  }

  /** No persistent edge type has a temporary vertex type at an end. */
  lemma TempHasNoKept(g: Graph, l: nat)
    requires WellFormed(g) && l < |g.vs| && g.vs[l].temp
    ensures Untouched(KeptE(g.es), g.vs[l].name) == KeptE(g.es)
  {
    var name, ks := g.vs[l].name, KeptE(g.es);
    FindAtV(g.vs, l);
    forall k | 0 <= k < |ks| ensures ks[k].src != name && ks[k].dst != name {
      KeptSubE(g.es, k);
      var i :| 0 <= i < |g.es| && !g.es[i].temp && g.es[i] == ks[k];
      assert !TempLabel(g, g.es[i].src) && !TempLabel(g, g.es[i].dst);
    }
    NoneTouched(ks, name);
  }

  lemma DropVAgrees(g: Graph, op: Op, g': Graph)
    requires WellFormed(g) && op.DropV? && Exec(g, op) == Some(g')
    ensures Agrees(g, op, g')
  {
    hide KeptV, KeptE, FindV, RankV, ReplayAll, WellFormed, Untouched, RemoveAt;
    var v := g.vs[op.l];
    KeptRemoveV(g.vs, op.l);
    KeptUntouched(g.es, v.name);
    if v.temp {
      TempHasNoKept(g, op.l);
      ReplayNothing(Persist(g));
    } else {
      RankOfV(g, op.l);
      ReplayOne(Persist(g), RDropV(v.name));
    }
  }

  lemma RankOfV(g: Graph, l: nat)
    requires WellFormed(g) && l < |g.vs| && !g.vs[l].temp
    ensures FindV(Persist(g).vs, g.vs[l].name) == Some(RankV(g.vs, l))
    ensures RankV(g.vs, l) < |Persist(g).vs| && Persist(g).vs[RankV(g.vs, l)] == g.vs[l]
  {
    FindKeptV(g.vs, l);
    KeptAtV(g.vs, l);
  }

  lemma RankOfE(g: Graph, e: nat)
    requires WellFormed(g) && e < |g.es| && !g.es[e].temp
    ensures FindE(Persist(g).es, KeyOf(g.es[e])) == Some(RankE(g.es, e))
    ensures RankE(g.es, e) < |Persist(g).es| && Persist(g).es[RankE(g.es, e)] == g.es[e]
  {
    FindKeptE(g.es, e);
    KeptAtE(g.es, e);
  }

  lemma DropEAgrees(g: Graph, op: Op, g': Graph)
    requires WellFormed(g) && op.DropE? && Exec(g, op) == Some(g')
    ensures Agrees(g, op, g')
  {
    hide KeptV, KeptE, FindE, RankE, ReplayAll, WellFormed, RemoveAt;
    KeptRemoveE(g.es, op.e);
    if g.es[op.e].temp {
      ReplayNothing(Persist(g));
    } else {
      RankOfE(g, op.e);
      ReplayOne(Persist(g), RDropE(KeyOf(g.es[op.e])));
    }
  }

  lemma ChangeVAgrees(g: Graph, op: Op, g': Graph)
    requires WellFormed(g) && op.ChangeV? && Exec(g, op) == Some(g')
    ensures Agrees(g, op, g')
  {
    hide KeptV, KeptE, FindV, RankV, ReplayAll, WellFormed, ChangedCols, ChangedRows;
    KeptUpdateV(g.vs, op.l, ChangedV(g.vs[op.l], op.ch).value);
    if g.vs[op.l].temp {
      ReplayNothing(Persist(g));
    } else {
      RankOfV(g, op.l);
      ReplayOne(Persist(g), RChangeV(g.vs[op.l].name, op.ch));
    }
  }

  // ---- rebuilt lists -------------------------------------------------------------------------------

  function Undeleted(l: seq<Ent>): seq<Ent> {
    if l == [] then [] else Undeleted(l[..|l| - 1]) + if l[|l| - 1].dead then [] else [l[|l| - 1]]
  }

  lemma PutOne(es: seq<Half>, h: Half, v: nat)
    ensures ListAt(OutOf(es + [h]), v) == ListAt(OutOf(es), v) + if h.src == v then [h.ent] else []
  {
    assert (es + [h])[..|es|] == es;
  }

  lemma {:induction false} PutList(es: seq<Half>, l: seq<Ent>, u: nat, v: nat)
    ensures ListAt(OutOf(es + LiveOf(l, u)), v) == ListAt(OutOf(es), v) + if u == v then Undeleted(l) else []
    decreases |l|
  {
    hide OutOf, ListAt;
    if l == [] {
      assert es + LiveOf(l, u) == es;
    } else {
      var pre, e := l[..|l| - 1], l[|l| - 1];
      PutList(es, pre, u, v);
      if e.dead {
        assert LiveOf(l, u) == LiveOf(pre, u);
      } else {
        assert es + LiveOf(l, u) == es + LiveOf(pre, u) + [Half(u, e)];
        PutOne(es + LiveOf(pre, u), Half(u, e), v);
      }
    }
  }

  /** A rebuilt list holds the entries that were not deleted, in their order: offsets behind a deleted entry move. */
  lemma {:induction false} RebuiltList(out: Adj, n: nat, v: nat)
    ensures ListAt(OutOf(Exported(out, n)), v) == if v < n then Undeleted(ListAt(out, v)) else []
  {
    hide OutOf, ListAt, LiveOf;
    if n == 0 {
      assert ListAt(OutOf([]), v) == [] by { NoLists(v); }
    } else {
      RebuiltList(out, n - 1, v);
      PutList(Exported(out, n - 1), ListAt(out, n - 1), n - 1, v);
    }
  }

  lemma NoLists(v: nat)
    ensures ListAt(OutOf([]), v) == []
  {
  }

  lemma ChangeShape(t: EType, ch: Change, n: nat)
    ensures var r := ChangedE(t, ch, n); r.Some? ==> KeyOf(r.value) == KeyOf(t) && r.value.temp == t.temp
  {
  }

  /** The source type of a persistent edge type is persistent, and replay sees the same rows. */
  lemma SameRowCount(g: Graph, e: nat)
    requires WellFormed(g) && e < |g.es| && !g.es[e].temp
    ensures RowCount(Persist(g), g.es[e].src) == RowCount(g, g.es[e].src)
  {
    var l := FindV(g.vs, g.es[e].src).value;
    RankOfV(g, l);
  }

  lemma ChangeEAgrees(g: Graph, op: Op, g': Graph)
    requires WellFormed(g) && op.ChangeE? && Exec(g, op) == Some(g')
    ensures Agrees(g, op, g')
  {
    hide KeptV, KeptE, FindE, RankE, ReplayAll, WellFormed, ChangedE, RowCount;
    var n := RowCount(g, g.es[op.e].src);
    ChangeShape(g.es[op.e], op.ch, n);
    KeptUpdateE(g.es, op.e, ChangedE(g.es[op.e], op.ch, n).value);
    if g.es[op.e].temp {
      ReplayNothing(Persist(g));
    } else {
      SameRowCount(g, op.e);
      RankOfE(g, op.e);
      ReplayOne(Persist(g), RChangeE(KeyOf(g.es[op.e]), op.ch));
    }
  }

  // ---- edge operations -----------------------------------------------------------------------------------

  /** Both ends of an edge of a persistent type resolve to the same local ids, and the type to its rank. */
  lemma SameEnds(g: Graph, e: nat, s: nat, d: nat)
    requires WellFormed(g) && Ends(g, e, s, d) && !g.es[e].temp
    ensures Lid(Persist(g), g.es[e].src, OidOf(g, g.es[e].src, s)) == Some(s)
    ensures Lid(Persist(g), g.es[e].dst, OidOf(g, g.es[e].dst, d)) == Some(d)
    ensures FindE(Persist(g).es, KeyOf(g.es[e])) == Some(RankE(g.es, e))
    ensures RankE(g.es, e) < |Persist(g).es| && Persist(g).es[RankE(g.es, e)] == g.es[e]
    ensures Ends(Persist(g), RankE(g.es, e), s, d)
  {
    assert !TempLabel(g, g.es[e].src) && !TempLabel(g, g.es[e].dst);
    SameLid(g, FindV(g.vs, g.es[e].src).value, s);
    SameLid(g, FindV(g.vs, g.es[e].dst).value, d);
    FindKeptE(g.es, e);
    KeptAtE(g.es, e);
  }

  lemma LinkShape(e: EType, op: Op)
    requires op.AddE?
    ensures Link(e, op.s, op.d, op.props).temp == e.temp
  {
  }

  lemma UnlinkShape(e: EType, op: Op)
    requires op.DelE?
    ensures Unlink(e, op.s, op.d, op.i, op.j).Some? ==> Unlink(e, op.s, op.d, op.i, op.j).value.temp == e.temp
  {
  }

  lemma SetLinkShape(e: EType, op: Op)
    requires op.SetE?
    ensures var r := SetLink(e, op.s, op.d, op.i, op.j, op.c, op.x); r.Some? ==> r.value.temp == e.temp
  {
  }

  lemma AddEAgrees(g: Graph, op: Op, g': Graph)
    requires WellFormed(g) && op.AddE? && Exec(g, op) == Some(g')
    ensures Agrees(g, op, g')
  {
    hide KeptV, KeptE, FindV, FindE, FindRow, Lid, OidOf, RankE, ReplayAll, WellFormed, Link;
    LinkShape(g.es[op.e], op);
    KeptUpdateE(g.es, op.e, Link(g.es[op.e], op.s, op.d, op.props));
    if g.es[op.e].temp {
      ReplayNothing(Persist(g));
    } else {
      SameEnds(g, op.e, op.s, op.d);
      var e := g.es[op.e];
      ReplayOne(Persist(g), RAddE(KeyOf(e), OidOf(g, e.src, op.s), OidOf(g, e.dst, op.d), op.props));
    }
  }

  lemma DelEAgrees(g: Graph, op: Op, g': Graph)
    requires WellFormed(g) && op.DelE? && Exec(g, op) == Some(g')
    ensures Agrees(g, op, g')
  {
    hide KeptV, KeptE, FindV, FindE, FindRow, Lid, OidOf, RankE, ReplayAll, WellFormed, Unlink;
    UnlinkShape(g.es[op.e], op);
    KeptUpdateE(g.es, op.e, Unlink(g.es[op.e], op.s, op.d, op.i, op.j).value);
    if g.es[op.e].temp {
      ReplayNothing(Persist(g));
    } else {
      SameEnds(g, op.e, op.s, op.d);
      var e := g.es[op.e];
      ReplayOne(Persist(g), RDelE(KeyOf(e), OidOf(g, e.src, op.s), OidOf(g, e.dst, op.d), op.i, op.j));
    }
  }

  lemma SetEAgrees(g: Graph, op: Op, g': Graph)
    requires WellFormed(g) && op.SetE? && Exec(g, op) == Some(g')
    ensures Agrees(g, op, g')
  {
    hide KeptV, KeptE, FindV, FindE, FindRow, Lid, OidOf, RankE, ReplayAll, WellFormed, SetLink;
    SetLinkShape(g.es[op.e], op);
    KeptUpdateE(g.es, op.e, SetLink(g.es[op.e], op.s, op.d, op.i, op.j, op.c, op.x).value);
    if g.es[op.e].temp {
      ReplayNothing(Persist(g));
    } else {
      SameEnds(g, op.e, op.s, op.d);
      var e := g.es[op.e];
      ReplayOne(Persist(g), RSetE(KeyOf(e), OidOf(g, e.src, op.s), OidOf(g, e.dst, op.d), op.i, op.j, op.c, op.x));
    }
  }

  lemma OpAgrees(g: Graph, op: Op, g': Graph)
    requires WellFormed(g) && Exec(g, op) == Some(g')
    ensures Agrees(g, op, g')
  {
    hide Exec, LogOf, Agrees, WellFormed;
    match op
    case CreateV(_, _, _) => CreateVAgrees(g, op, g');
    case CreateE(_, _, _, _, _) => CreateEAgrees(g, op, g');
    case DropV(_) => DropVAgrees(g, op, g');
    case DropE(_) => DropEAgrees(g, op, g');
    case ChangeV(_, _) => ChangeVAgrees(g, op, g');
    case ChangeE(_, _) => ChangeEAgrees(g, op, g');
    case AddV(_, _, _) => AddVAgrees(g, op, g');
    case DelV(_, _) => DelVAgrees(g, op, g');
    case SetV(_, _, _, _) => SetVAgrees(g, op, g');
    case AddE(_, _, _, _) => AddEAgrees(g, op, g');
    case DelE(_, _, _, _, _) => DelEAgrees(g, op, g');
    case SetE(_, _, _, _, _, _, _) => SetEAgrees(g, op, g');
  }

  // ---- well-formedness -----------------------------------------------------------------------------------

  lemma {:induction false} FindSameNames(vs: seq<VType>, ws: seq<VType>, name: Name)
    requires |vs| == |ws| && forall i :: 0 <= i < |vs| ==> vs[i].name == ws[i].name
    ensures FindV(ws, name) == FindV(vs, name)
  {
    if vs != [] { FindSameNames(vs[1..], ws[1..], name); }
  }

  lemma {:induction false} FindLonger(vs: seq<VType>, t: VType, name: Name)
    requires FindV(vs, name).Some?
    ensures FindV(vs + [t], name) == FindV(vs, name)
  {
    if vs[0].name != name {
      FindLonger(vs[1..], t, name);
      assert (vs + [t])[1..] == vs[1..] + [t];
    }
  }

  lemma UniqueRowsUpdate(t: VType, t': VType)
    requires UniqueRows(t) && |t'.rows| == |t.rows| && forall i :: 0 <= i < |t.rows| ==> t'.rows[i].oid == t.rows[i].oid
    ensures UniqueRows(t')
  {
  }

  lemma AddRowUnique(t: VType, oid: int, props: seq<int>)
    requires UniqueRows(t) && AddRow(t, oid, props).Some?
    ensures UniqueRows(AddRow(t, oid, props).value)
    ensures AddRow(t, oid, props).value.name == t.name && AddRow(t, oid, props).value.temp == t.temp
  {
  }

  /** Replacing one vertex type by another of the same name and kind. */
  lemma PutVKeeps(g: Graph, l: nat, t: VType)
    requires WellFormed(g) && l < |g.vs| && UniqueRows(t) && t.name == g.vs[l].name && t.temp == g.vs[l].temp
    ensures WellFormed(g.(vs := g.vs[l := t]))
  {
    var g' := g.(vs := g.vs[l := t]);
    forall name ensures FindV(g'.vs, name) == FindV(g.vs, name) { FindSameNames(g.vs, g'.vs, name); }
    assert forall name :: TempLabel(g', name) == TempLabel(g, name);
  }

  lemma PutEsKeeps(g: Graph, es: seq<EType>)
    requires WellFormed(g) && |es| == |g.es|
    requires forall i :: 0 <= i < |es| ==> KeyOf(es[i]) == KeyOf(g.es[i]) && es[i].temp == g.es[i].temp
    ensures WellFormed(g.(es := es))
  {
    var g' := g.(es := es);
    assert forall name :: TempLabel(g', name) == TempLabel(g, name);
    assert UniqueE(es);
  }

  lemma CreateVKeeps(g: Graph, op: Op, g': Graph)
    requires WellFormed(g) && op.CreateV? && Exec(g, op) == Some(g')
    ensures WellFormed(g')
  {
    var t := VType(op.name, op.temp, op.cols, []);
    forall name | FindV(g.vs, name).Some?
      ensures FindV(g'.vs, name) == FindV(g.vs, name) && TempLabel(g', name) == TempLabel(g, name)
    {
      FindLonger(g.vs, t, name);
    }
  }

  lemma CreateEKeeps(g: Graph, op: Op, g': Graph)
    requires WellFormed(g) && op.CreateE? && Exec(g, op) == Some(g')
    ensures WellFormed(g')
  {
    assert forall name :: TempLabel(g', name) == TempLabel(g, name);
  }

  /** Another type is still found by name after one is dropped. */
  lemma {:induction false} FindRemoved(vs: seq<VType>, l: nat, name: Name)
    requires UniqueV(vs) && l < |vs| && name != vs[l].name && FindV(vs, name).Some?
    ensures FindV(RemoveAt(vs, l), name).Some?
    ensures RemoveAt(vs, l)[FindV(RemoveAt(vs, l), name).value] == vs[FindV(vs, name).value]
  {
    hide FindV;
    assert vs == [vs[0]] + vs[1..];
    FindConsV(vs[0], vs[1..], name);
    if l == 0 {
      assert RemoveAt(vs, 0) == vs[1..];
    } else {
      RemoveCons(vs[0], vs[1..], l - 1);
      FindConsV(vs[0], RemoveAt(vs[1..], l - 1), name);
      if vs[0].name != name { FindRemoved(vs[1..], l - 1, name); }
    }
  }

  /** What is left after dropping a vertex type: types that do not touch it, each once. */
  lemma {:induction false} UntouchedShape(es: seq<EType>, ty: Name)
    ensures forall e :: e in Untouched(es, ty) ==> e in es && e.src != ty && e.dst != ty
    ensures UniqueE(es) ==> UniqueE(Untouched(es, ty))
  {
    if es != [] {
      UntouchedShape(es[1..], ty);
      if UniqueE(es) {
        assert UniqueE(es[1..]);
        assert forall e :: e in es[1..] ==> KeyOf(e) != KeyOf(es[0]);
        assert forall i :: 0 <= i < |Untouched(es[1..], ty)| ==> Untouched(es[1..], ty)[i] in es[1..];
      }
    }
  }

  lemma DropVKeeps(g: Graph, op: Op, g': Graph)
    requires WellFormed(g) && op.DropV? && Exec(g, op) == Some(g')
    ensures WellFormed(g')
  {
    hide FindV, Untouched;
    var name := g.vs[op.l].name;
    UntouchedShape(g.es, name);
    forall i | 0 <= i < |g'.es|
      ensures FindV(g'.vs, g'.es[i].src).Some? && FindV(g'.vs, g'.es[i].dst).Some?
      ensures !g'.es[i].temp ==> !TempLabel(g', g'.es[i].src) && !TempLabel(g', g'.es[i].dst)
    {
      assert g'.es[i] in g.es;
      FindRemoved(g.vs, op.l, g'.es[i].src);
      FindRemoved(g.vs, op.l, g'.es[i].dst);
    }
  }

  lemma DropEKeeps(g: Graph, op: Op, g': Graph)
    requires WellFormed(g) && op.DropE? && Exec(g, op) == Some(g')
    ensures WellFormed(g')
  {
    hide FindV;
    assert forall name :: TempLabel(g', name) == TempLabel(g, name);
  }

  lemma VertexOpKeeps(g: Graph, op: Op, g': Graph)
    requires WellFormed(g) && (op.AddV? || op.ChangeV? || op.SetV? || op.DelV?) && Exec(g, op) == Some(g')
    ensures WellFormed(g')
  {
    hide WellFormed, FindV, FindRow, DetachedAll;
    RowsOf(g, op.l);
    if op.AddV? {
      hide AddRow;
      AddRowUnique(g.vs[op.l], op.oid, op.props);
      PutVKeeps(g, op.l, AddRow(g.vs[op.l], op.oid, op.props).value);
    } else if op.ChangeV? {
      hide ChangedRows, ChangedCols;
      UniqueRowsUpdate(g.vs[op.l], ChangedV(g.vs[op.l], op.ch).value);
      PutVKeeps(g, op.l, ChangedV(g.vs[op.l], op.ch).value);
    } else if op.SetV? {
      UniqueRowsUpdate(g.vs[op.l], SetCell(g.vs[op.l], op.lid, op.c, op.x).value);
      PutVKeeps(g, op.l, SetCell(g.vs[op.l], op.lid, op.c, op.x).value);
    } else if Alive(g.vs[op.l], op.lid) {
      UniqueRowsUpdate(g.vs[op.l], KillRow(g.vs[op.l], op.lid));
      PutVKeeps(g, op.l, KillRow(g.vs[op.l], op.lid));
      DetachedShape(g.es, g.vs[op.l].name, op.lid);
      PutEsKeeps(g.(vs := g'.vs), g'.es);
    }
  }

  lemma RowsOf(g: Graph, l: nat)
    requires WellFormed(g)
    ensures l < |g.vs| ==> UniqueRows(g.vs[l])
  {
  }

  lemma DetachedShape(es: seq<EType>, ty: Name, v: nat)
    ensures forall i :: 0 <= i < |es| ==>
      KeyOf(DetachedAll(es, ty, v)[i]) == KeyOf(es[i]) && DetachedAll(es, ty, v)[i].temp == es[i].temp
  {
  }

  lemma EdgeOpKeeps(g: Graph, op: Op, g': Graph)
    requires WellFormed(g) && (op.AddE? || op.SetE? || op.DelE? || op.ChangeE?) && Exec(g, op) == Some(g')
    ensures WellFormed(g')
  {
    hide WellFormed, FindV, FindRow, ListAt, Kill, SetEnt, ChangedE, RowCount;
    if op.ChangeE? { ChangeShape(g.es[op.e], op.ch, RowCount(g, g.es[op.e].src)); }
    PutEsKeeps(g, g'.es);
  }

  lemma ExecKeeps(g: Graph, op: Op, g': Graph)
    requires WellFormed(g) && Exec(g, op) == Some(g')
    ensures WellFormed(g')
  {
    hide WellFormed, Exec;
    if op.CreateV? {
      CreateVKeeps(g, op, g');
    } else if op.CreateE? {
      CreateEKeeps(g, op, g');
    } else if op.DropV? {
      DropVKeeps(g, op, g');
    } else if op.DropE? {
      DropEKeeps(g, op, g');
    } else if op.AddV? || op.ChangeV? || op.SetV? || op.DelV? {
      VertexOpKeeps(g, op, g');
    } else {
      EdgeOpKeeps(g, op, g');
    }
  }

  // ---- whole transactions ----------------------------------------------------------------------------------

  /** Runs a transaction: the final graph and the log, or None if a statement failed. */
  function ExecAll(g: Graph, ops: seq<Op>): Option<(Graph, seq<Rec>)>
    decreases |ops|
  {
    if ops == [] then Some((g, []))
    else
      match Exec(g, ops[0])
      case None => None
      case Some(g') =>
        match ExecAll(g', ops[1..])
        case None => None
        case Some((g'', log)) => Some((g'', LogOf(g, ops[0]) + log))
  }

  lemma {:induction false} ReplayConcat(g: Graph, a: seq<Rec>, b: seq<Rec>)
    requires ReplayAll(g, a).Some?
    ensures ReplayAll(g, a + b) == ReplayAll(ReplayAll(g, a).value, b)
    decreases |a|
  {
    hide Replay;
    if a == [] {
      assert a + b == b;
    } else {
      ReplayConcat(Replay(g, a[0]).value, a[1..], b);
      assert (a + b)[1..] == a[1..] + b;
    }
  }

  /**
    For every transaction that commits, replaying its log on the persistent part of the
    graph it started from gives the persistent part of the graph it produced.
   */
  lemma {:induction false} ReplayRefinesExecution(g: Graph, ops: seq<Op>)
    requires WellFormed(g) && ExecAll(g, ops).Some?
    ensures ReplayAll(Persist(g), ExecAll(g, ops).value.1) == Some(Persist(ExecAll(g, ops).value.0))
    decreases |ops|
  {
    hide Exec, LogOf, Persist, ReplayAll, WellFormed;
    if ops == [] {
      ReplayNothing(Persist(g));
    } else {
      var g' := Exec(g, ops[0]).value;
      OpAgrees(g, ops[0], g');
      ExecKeeps(g, ops[0], g');
      ReplayRefinesExecution(g', ops[1..]);
      ReplayConcat(Persist(g), LogOf(g, ops[0]), ExecAll(g', ops[1..]).value.1);
    }
  }

  /** ReplayCowGraphWal: the loop over the records of one transaction. */
  method ReplayWal(g: Graph, log: seq<Rec>) returns (r: Option<Graph>)
    ensures r == ReplayAll(g, log)
  {
    hide Replay;
    var cur := g;
    var i := 0;
    assert log[0..] == log;
    while i < |log|
      invariant 0 <= i <= |log| && ReplayAll(g, log) == ReplayAll(cur, log[i..])
    {
      assert log[i..][0] == log[i] && log[i..][1..] == log[i + 1..];
      var next := Replay(cur, log[i]);
      if next.None? { return None; }
      cur := next.value;
      i := i + 1;
    }
    r := Some(cur);
  }
}
