/**
  Integrity of the graph under transactions: no undeleted edge stands at, or names, a vertex
  that is not there, and every vertex and edge has one value for every property.
 */
module RedoIntegrity {
  import opened Common
  import opened Redo
  import opened RedoEffects
  import opened RedoChanges
  import opened RedoProof

  /** A vertex of the type with this name is there. */
  ghost predicate Live(g: Graph, name: Name, lid: nat) {
    exists a :: 0 <= a < |g.vs| && g.vs[a].name == name && Alive(g.vs[a], lid)
  }

  ghost predicate ListOk(g: Graph, here: Name, v: nat, there: Name, l: seq<Ent>) {
    forall i :: 0 <= i < |l| && !l[i].dead ==> Live(g, here, v) && Live(g, there, l[i].vid)
  }

  /** Both ends of every undeleted edge are there. */
  ghost predicate TypeOk(g: Graph, t: EType) {
    forall v :: ListOk(g, t.src, v, t.dst, ListAt(t.out, v)) && ListOk(g, t.dst, v, t.src, ListAt(t.inn, v))
  }

  ghost predicate Integrity(g: Graph) { forall e :: 0 <= e < |g.es| ==> TypeOk(g, g.es[e]) }

  ghost predicate Aligned(g: Graph) {
    && (forall l :: 0 <= l < |g.vs| ==> AlignedRows(g.vs[l]))
    && (forall e :: 0 <= e < |g.es| ==> AlignedEdges(g.es[e]))
  }

  // ---- frames ------------------------------------------------------------------------------------------

  /** Every vertex of this type that was there still is. */
  ghost predicate StillLive(g: Graph, g': Graph, name: Name) { forall lid :: Live(g, name, lid) ==> Live(g', name, lid) }

  lemma TypeStays(g: Graph, g': Graph, t: EType)
    requires TypeOk(g, t) && StillLive(g, g', t.src) && StillLive(g, g', t.dst)
    ensures TypeOk(g', t)
  {
    hide Live;
    forall v
      ensures ListOk(g', t.src, v, t.dst, ListAt(t.out, v)) && ListOk(g', t.dst, v, t.src, ListAt(t.inn, v))
    {
      assert ListOk(g, t.src, v, t.dst, ListAt(t.out, v)) && ListOk(g, t.dst, v, t.src, ListAt(t.inn, v));
    }
  }

  lemma RowsStay(g: Graph, g': Graph, name: Name)
    requires SameSchema(g, g')
    requires forall k: nat, i: nat :: RowAt(g, k, i).Some? && RowAt(g, k, i).value.alive ==>
      RowAt(g', k, i).Some? && RowAt(g', k, i).value.alive
    ensures StillLive(g, g', name)
  {
    forall lid | Live(g, name, lid) ensures Live(g', name, lid) {
      var a :| 0 <= a < |g.vs| && g.vs[a].name == name && Alive(g.vs[a], lid);
      assert RowAt(g, a, lid).Some? && RowAt(g, a, lid).value.alive;
      assert RowAt(g', a, lid).Some? && RowAt(g', a, lid).value.alive;
    }
  }

  lemma SameVertices(g: Graph, g': Graph, name: Name)
    requires g'.vs == g.vs
    ensures StillLive(g, g', name)
  {
  }

  lemma FoundIsLive(g: Graph, name: Name, lid: nat)
    requires FindV(g.vs, name).Some? && Alive(g.vs[FindV(g.vs, name).value], lid)
    ensures Live(g, name, lid)
  {
  }

  // ---- vertices ---------------------------------------------------------------------------------------------

  lemma SameEdges(g: Graph, g': Graph)
    requires Integrity(g) && g'.es == g.es && (forall name :: StillLive(g, g', name))
    ensures Integrity(g')
  {
    hide TypeOk, StillLive;
    forall e | 0 <= e < |g'.es| ensures TypeOk(g', g'.es[e]) { TypeStays(g, g', g.es[e]); }
  }

  lemma AddVKeeps(g: Graph, op: Op, g': Graph)
    requires Integrity(g) && op.AddV? && Exec(g, op) == Some(g')
    ensures Integrity(g')
  {
    var lid := AddVertexEffect(g, op.l, op.oid, op.props, g');
    hide Integrity, Live, StillLive, AddRow;
    forall name ensures StillLive(g, g', name) { RowsStay(g, g', name); }
    SameEdges(g, g');
  }

  lemma SetVKeeps(g: Graph, op: Op, g': Graph)
    requires Integrity(g) && op.SetV? && Exec(g, op) == Some(g')
    ensures Integrity(g')
  {
    SetVertexEffect(g, op.l, op.lid, op.c, op.x, g');
    hide Integrity, Live, StillLive, SetCell;
    forall name ensures StillLive(g, g', name) { RowsStay(g, g', name); }
    SameEdges(g, g');
  }

  /** Other vertices are there as before. */
  lemma OthersLive(g: Graph, l: nat, lid: nat, g': Graph, name: Name, v: nat)
    requires l < |g.vs| && SameSchema(g, g') && Live(g, name, v) && (name != g.vs[l].name || v != lid)
    requires forall k: nat, i: nat :: k != l || i != lid ==> RowAt(g', k, i) == RowAt(g, k, i)
    ensures Live(g', name, v)
  {
    var a :| 0 <= a < |g.vs| && g.vs[a].name == name && Alive(g.vs[a], v);
    assert RowAt(g', a, v) == RowAt(g, a, v);
  }

  /** A deleted vertex is gone, and every undeleted edge keeps its ends. */
  lemma DelVKeeps(g: Graph, op: Op, g': Graph)
    requires Integrity(g) && op.DelV? && Exec(g, op) == Some(g')
    ensures Integrity(g')
  {
    if Alive(g.vs[op.l], op.lid) {
      DeleteVertexEffect(g, op.l, op.lid, g');
      hide Exec, Live;
      var ty := g.vs[op.l].name;
      forall e, v | 0 <= e < |g'.es| && 0 <= v
        ensures ListOk(g', g'.es[e].src, v, g'.es[e].dst, ListAt(g'.es[e].out, v))
        ensures ListOk(g', g'.es[e].dst, v, g'.es[e].src, ListAt(g'.es[e].inn, v))
      {
        DetachedOut(g, op.l, op.lid, g', e, v);
        DetachedIn(g, op.l, op.lid, g', e, v);
      }
    }
  }

  lemma DetachedOut(g: Graph, l: nat, lid: nat, g': Graph, e: nat, v: nat)
    requires l < |g.vs| && e < |g.es| && TypeOk(g, g.es[e]) && SameSchema(g, g')
    requires forall k: nat, i: nat :: k != l || i != lid ==> RowAt(g', k, i) == RowAt(g, k, i)
    requires forall e: nat, v: nat, i: nat ::
      OutAt(g', e, v, i) == KilledIf(OutAt(g, e, v, i), OutTouches(g, e, v, i, g.vs[l].name, lid))
    ensures ListOk(g', g'.es[e].src, v, g'.es[e].dst, ListAt(g'.es[e].out, v))
  {
    hide Live;
    var t, l' := g.es[e], ListAt(g'.es[e].out, v);
    assert KeyOf(g'.es[e]) == KeyOf(t);
    forall i | 0 <= i < |l'| && !l'[i].dead ensures Live(g', t.src, v) && Live(g', t.dst, l'[i].vid) {
      assert OutAt(g', e, v, i) == Some(l'[i]);
      assert OutAt(g, e, v, i) == Some(l'[i]) && !OutTouches(g, e, v, i, g.vs[l].name, lid);
      assert ListOk(g, t.src, v, t.dst, ListAt(t.out, v));
      OthersLive(g, l, lid, g', t.src, v);
      OthersLive(g, l, lid, g', t.dst, l'[i].vid);
    }
  }

  lemma DetachedIn(g: Graph, l: nat, lid: nat, g': Graph, e: nat, v: nat)
    requires l < |g.vs| && e < |g.es| && TypeOk(g, g.es[e]) && SameSchema(g, g')
    requires forall k: nat, i: nat :: k != l || i != lid ==> RowAt(g', k, i) == RowAt(g, k, i)
    requires forall e: nat, v: nat, i: nat ::
      InAt(g', e, v, i) == KilledIf(InAt(g, e, v, i), InTouches(g, e, v, i, g.vs[l].name, lid))
    ensures ListOk(g', g'.es[e].dst, v, g'.es[e].src, ListAt(g'.es[e].inn, v))
  {
    hide Live;
    var t, l' := g.es[e], ListAt(g'.es[e].inn, v);
    assert KeyOf(g'.es[e]) == KeyOf(t);
    forall i | 0 <= i < |l'| && !l'[i].dead ensures Live(g', t.dst, v) && Live(g', t.src, l'[i].vid) {
      assert InAt(g', e, v, i) == Some(l'[i]);
      assert InAt(g, e, v, i) == Some(l'[i]) && !InTouches(g, e, v, i, g.vs[l].name, lid);
      assert ListOk(g, t.dst, v, t.src, ListAt(t.inn, v));
      OthersLive(g, l, lid, g', t.dst, v);
      OthersLive(g, l, lid, g', t.src, l'[i].vid);
    }
  }

  // ---- edges --------------------------------------------------------------------------------------------------

  lemma PutEOk(g: Graph, e: nat, t: EType)
    requires Integrity(g) && e < |g.es| && TypeOk(g, t)
    ensures Integrity(g.(es := g.es[e := t]))
  {
    hide TypeOk;
    var g' := g.(es := g.es[e := t]);
    forall f | 0 <= f < |g'.es| ensures TypeOk(g', g'.es[f]) {
      SameVertices(g, g', g'.es[f].src);
      SameVertices(g, g', g'.es[f].dst);
      hide StillLive;
      TypeStays(g, g', g'.es[f]);
    }
  }

  lemma LinkOk(g: Graph, t: EType, s: nat, d: nat, props: seq<int>)
    requires TypeOk(g, t) && Live(g, t.src, s) && Live(g, t.dst, d)
    ensures TypeOk(g, Link(t, s, d, props))
  {
    hide Live;
    var t' := Link(t, s, d, props);
    forall v
      ensures ListOk(g, t'.src, v, t'.dst, ListAt(t'.out, v)) && ListOk(g, t'.dst, v, t'.src, ListAt(t'.inn, v))
    {
      assert ListOk(g, t.src, v, t.dst, ListAt(t.out, v)) && ListOk(g, t.dst, v, t.src, ListAt(t.inn, v));
    }
  }

  lemma AddEKeeps(g: Graph, op: Op, g': Graph)
    requires Integrity(g) && op.AddE? && Exec(g, op) == Some(g')
    ensures Integrity(g')
  {
    hide Integrity, TypeOk, Live, FindV, Link;
    FoundIsLive(g, g.es[op.e].src, op.s);
    FoundIsLive(g, g.es[op.e].dst, op.d);
    TypeAt(g, op.e);
    LinkOk(g, g.es[op.e], op.s, op.d, op.props);
    PutEOk(g, op.e, g'.es[op.e]);
  }

  lemma TypeAt(g: Graph, e: nat)
    requires Integrity(g) && e < |g.es|
    ensures TypeOk(g, g.es[e])
  {
  }

  /** Fewer undeleted entries, at the same vertices. */
  ghost predicate Weaker(l: seq<Ent>, l': seq<Ent>) {
    |l'| == |l| && forall i :: 0 <= i < |l| ==> l'[i].vid == l[i].vid && (l[i].dead ==> l'[i].dead)
  }

  lemma WeakerOk(g: Graph, t: EType, t': EType)
    requires TypeOk(g, t) && KeyOf(t') == KeyOf(t)
    requires forall v :: Weaker(ListAt(t.out, v), ListAt(t'.out, v)) && Weaker(ListAt(t.inn, v), ListAt(t'.inn, v))
    ensures TypeOk(g, t')
  {
    hide Live, ListAt;
    forall v
      ensures ListOk(g, t'.src, v, t'.dst, ListAt(t'.out, v)) && ListOk(g, t'.dst, v, t'.src, ListAt(t'.inn, v))
    {
      assert ListOk(g, t.src, v, t.dst, ListAt(t.out, v)) && ListOk(g, t.dst, v, t.src, ListAt(t.inn, v));
      assert Weaker(ListAt(t.out, v), ListAt(t'.out, v)) && Weaker(ListAt(t.inn, v), ListAt(t'.inn, v));
    }
  }

  lemma DelOrSetEKeeps(g: Graph, op: Op, g': Graph)
    requires Integrity(g) && (op.DelE? || op.SetE?) && Exec(g, op) == Some(g')
    ensures Integrity(g')
  {
    hide Integrity, TypeOk, Live, FindV;
    TypeAt(g, op.e);
    WeakerOk(g, g.es[op.e], g'.es[op.e]);
    PutEOk(g, op.e, g'.es[op.e]);
  }

  // ---- types ---------------------------------------------------------------------------------------------------

  lemma CreateVKeeps(g: Graph, op: Op, g': Graph)
    requires Integrity(g) && op.CreateV? && Exec(g, op) == Some(g')
    ensures Integrity(g')
  {
    hide Integrity;
    forall name ensures StillLive(g, g', name) {
      forall lid | Live(g, name, lid) ensures Live(g', name, lid) {
        var a :| 0 <= a < |g.vs| && g.vs[a].name == name && Alive(g.vs[a], lid);
        assert g'.vs[a] == g.vs[a];
      }
    }
    hide StillLive;
    SameEdges(g, g');
  }

  lemma CreateEKeeps(g: Graph, op: Op, g': Graph)
    requires Integrity(g) && op.CreateE? && Exec(g, op) == Some(g')
    ensures Integrity(g')
  {
    hide FindE, FindV;
    forall e | 0 <= e < |g'.es| ensures TypeOk(g', g'.es[e]) {
      if e < |g.es| {
        SameVertices(g, g', g.es[e].src);
        SameVertices(g, g', g.es[e].dst);
        TypeStays(g, g', g.es[e]);
      }
    }
  }

  lemma DropVKeeps(g: Graph, op: Op, g': Graph)
    requires UniqueV(g.vs) && Integrity(g) && op.DropV? && Exec(g, op) == Some(g')
    ensures Integrity(g')
  {
    DropVertexTypeEffect(g, op.l, g');
    hide Exec, TypeOk;
    var ty := g.vs[op.l].name;
    forall e | 0 <= e < |g'.es| ensures TypeOk(g', g'.es[e]) {
      var t := g'.es[e];
      assert t in g'.es;
      assert t in g.es && t.src != ty && t.dst != ty;
      RestLive(g, g', ty, t.src);
      RestLive(g, g', ty, t.dst);
      hide StillLive;
      TypeStays(g, g', t);
    }
  }

  lemma RestLive(g: Graph, g': Graph, ty: Name, name: Name)
    requires name != ty && forall t :: t in g.vs && t.name != ty ==> t in g'.vs
    ensures StillLive(g, g', name)
  {
    forall lid | Live(g, name, lid) ensures Live(g', name, lid) {
      var a :| 0 <= a < |g.vs| && g.vs[a].name == name && Alive(g.vs[a], lid);
      assert g.vs[a] in g.vs;
      var b :| 0 <= b < |g'.vs| && g'.vs[b] == g.vs[a];
    }
  }

  lemma DropEKeeps(g: Graph, op: Op, g': Graph)
    requires Integrity(g) && op.DropE? && Exec(g, op) == Some(g')
    ensures Integrity(g')
  {
    hide TypeOk;
    forall e | 0 <= e < |g'.es| ensures TypeOk(g', g'.es[e]) {
      var t := g.es[if e < op.e then e else e + 1];
      assert g'.es[e] == t;
      SameVertices(g, g', t.src);
      SameVertices(g, g', t.dst);
      hide StillLive;
      TypeStays(g, g', t);
    }
  }

  lemma ChangeVKeeps(g: Graph, op: Op, g': Graph)
    requires Integrity(g) && op.ChangeV? && Exec(g, op) == Some(g')
    ensures Integrity(g')
  {
    hide Integrity, ChangedCols, ChangedProps;
    forall name ensures StillLive(g, g', name) {
      forall lid | Live(g, name, lid) ensures Live(g', name, lid) {
        var a :| 0 <= a < |g.vs| && g.vs[a].name == name && Alive(g.vs[a], lid);
        assert g'.vs[a].name == name && Alive(g'.vs[a], lid);
      }
    }
    hide StillLive;
    SameEdges(g, g');
  }

  lemma {:induction false} BackwardsFrom(l: seq<Ent>, u: nat, d: nat)
    ensures forall i :: 0 <= i < |Backwards(l, u, d)| ==>
      !Backwards(l, u, d)[i].dead && Backwards(l, u, d)[i].vid == u && exists k :: 0 <= k < |l| && !l[k].dead && l[k].vid == d
    decreases |l|
  {
    if l != [] {
      var n := |l| - 1;
      BackwardsFrom(l[..n], u, d);
      if Backwards(l[..n], u, d) != [] {
        var x := Backwards(l[..n], u, d)[0];
        var k :| 0 <= k < |l[..n]| && !l[..n][k].dead && l[..n][k].vid == d;
        assert !l[k].dead && l[k].vid == d;
      }
      if !l[n].dead && l[n].vid == d { assert exists k :: 0 <= k < |l| && !l[k].dead && l[k].vid == d; }
    }
  }

  /** A list read backwards is in order if the lists it is read from are. */
  lemma {:induction false} IncomingOk(g: Graph, src: Name, dst: Name, out: Adj, n: nat, d: nat)
    requires forall v :: ListOk(g, src, v, dst, ListAt(out, v))
    ensures ListOk(g, dst, d, src, Incoming(out, n, d))
  {
    hide Live, Backwards, ListAt;
    if n > 0 {
      IncomingOk(g, src, dst, out, n - 1, d);
      var l := ListAt(out, n - 1);
      BackwardsFrom(l, n - 1, d);
      assert ListOk(g, src, n - 1, dst, l);
    }
  }

  lemma RebuiltOk(g: Graph, t: EType, ch: Change, n: nat, t': EType)
    requires TypeOk(g, t) && AlignedEdges(t) && ChangedE(t, ch, n) == Some(t') && Rebuilds(t.cols, t'.cols, ch)
    ensures TypeOk(g, t')
  {
    hide Live, ListAt, ChangedE, Rebuilds, Undeleted, Follows, Incoming;
    forall v ensures ListOk(g, t'.src, v, t'.dst, ListAt(t'.out, v)) {
      ChangeRebuilds(t, ch, n, t', v);
      UndeletedLive(ListAt(t.out, v));
      assert ListOk(g, t.src, v, t.dst, ListAt(t.out, v));
    }
    forall v ensures ListOk(g, t'.dst, v, t'.src, ListAt(t'.inn, v)) {
      ChangeRebuilds(t, ch, n, t', v);
      IncomingOk(g, t'.src, t'.dst, t'.out, n, v);
    }
  }

  lemma InPlaceOk(g: Graph, t: EType, ch: Change, n: nat, t': EType)
    requires TypeOk(g, t) && AlignedEdges(t) && ChangedE(t, ch, n) == Some(t') && !Rebuilds(t.cols, t'.cols, ch)
    ensures TypeOk(g, t')
  {
    hide Live, ListAt, ChangedE, Rebuilds, Follows, TypeOk, AlignedEdges;
    ChangeInPlace(t, ch, n, t', 0);
    forall v ensures Weaker(ListAt(t.out, v), ListAt(t'.out, v)) && Weaker(ListAt(t.inn, v), ListAt(t'.inn, v)) {
      ChangeInPlace(t, ch, n, t', v);
    }
    WeakerOk(g, t, t');
  }

  lemma ChangeEKeeps(g: Graph, op: Op, g': Graph)
    requires Integrity(g) && Aligned(g) && op.ChangeE? && Exec(g, op) == Some(g')
    ensures Integrity(g')
  {
    hide Integrity, TypeOk, AlignedEdges, ChangedE, Rebuilds, RowCount;
    var t, t', n := g.es[op.e], g'.es[op.e], RowCount(g, g.es[op.e].src);
    TypeAt(g, op.e);
    if Rebuilds(t.cols, t'.cols, op.ch) { RebuiltOk(g, t, op.ch, n, t'); } else { InPlaceOk(g, t, op.ch, n, t'); }
    PutEOk(g, op.e, t');
  }

  /** Every operation keeps the integrity of the graph. */
  lemma ExecKeepsIntegrity(g: Graph, op: Op, g': Graph)
    requires WellFormed(g) && Aligned(g) && Integrity(g) && Exec(g, op) == Some(g')
    ensures Integrity(g')
  {
    hide Integrity, Exec, Aligned;
    match op
    case CreateV(_, _, _) => CreateVKeeps(g, op, g');
    case CreateE(_, _, _, _, _) => CreateEKeeps(g, op, g');
    case DropV(_) => DropVKeeps(g, op, g');
    case DropE(_) => DropEKeeps(g, op, g');
    case ChangeV(_, _) => ChangeVKeeps(g, op, g');
    case ChangeE(_, _) => ChangeEKeeps(g, op, g');
    case AddV(_, _, _) => AddVKeeps(g, op, g');
    case DelV(_, _) => DelVKeeps(g, op, g');
    case SetV(_, _, _, _) => SetVKeeps(g, op, g');
    case AddE(_, _, _, _) => AddEKeeps(g, op, g');
    case DelE(_, _, _, _, _) => DelOrSetEKeeps(g, op, g');
    case SetE(_, _, _, _, _, _, _) => DelOrSetEKeeps(g, op, g');
  }

  /**
    After a deletion the vertex is not there, and no undeleted edge of any type stands at it or
    names it, in either direction.
   */
  lemma DeletedVertexIsGone(g: Graph, l: nat, lid: nat, g': Graph)
    requires WellFormed(g) && Integrity(g) && l < |g.vs| && Exec(g, DelV(l, lid)) == Some(g')
    ensures l < |g'.vs| && !Alive(g'.vs[l], lid)
    ensures forall e: nat, v: nat, i: nat :: OutTouches(g', e, v, i, g.vs[l].name, lid) ==> OutAt(g', e, v, i).value.dead
    ensures forall e: nat, v: nat, i: nat :: InTouches(g', e, v, i, g.vs[l].name, lid) ==> InAt(g', e, v, i).value.dead
  {
    DelVKeeps(g, DelV(l, lid), g');
    var ty := g.vs[l].name;
    assert !Alive(g'.vs[l], lid) && g'.vs[l].name == ty && UniqueV(g'.vs);
    NotLive(g', l, lid);
    hide Exec, WellFormed, Live;
    forall e: nat, v: nat, i: nat | OutTouches(g', e, v, i, ty, lid) ensures OutAt(g', e, v, i).value.dead {
      var t := g'.es[e];
      assert ListOk(g', t.src, v, t.dst, ListAt(t.out, v));
    }
    forall e: nat, v: nat, i: nat | InTouches(g', e, v, i, ty, lid) ensures InAt(g', e, v, i).value.dead {
      var t := g'.es[e];
      assert ListOk(g', t.dst, v, t.src, ListAt(t.inn, v));
    }
  }

  lemma NotLive(g: Graph, l: nat, lid: nat)
    requires UniqueV(g.vs) && l < |g.vs| && !Alive(g.vs[l], lid)
    ensures !Live(g, g.vs[l].name, lid)
  {
  }

  // ---- values ----------------------------------------------------------------------------------------------------

  lemma VertexAligned(g: Graph, op: Op, g': Graph)
    requires Aligned(g) && (op.AddV? || op.SetV? || op.DelV? || op.ChangeV?) && Exec(g, op) == Some(g')
    ensures op.l < |g.vs| && |g'.vs| == |g.vs| && AlignedRows(g'.vs[op.l])
    ensures forall i :: 0 <= i < |g.vs| && i != op.l ==> g'.vs[i] == g.vs[i]
  {
    hide AlignedEdges, DetachedAll;
    assert AlignedRows(g.vs[op.l]);
    if op.ChangeV? {
      ChangeVertexTypeEffect(g, op.l, op.ch, g');
      forall i | 0 <= i < |g'.vs[op.l].rows| ensures |g'.vs[op.l].rows[i].props| == |g'.vs[op.l].cols| {
        assert Follows(g.vs[op.l].cols, g.vs[op.l].rows[i].props, op.ch, g'.vs[op.l].cols, g'.vs[op.l].rows[i].props);
      }
    }
  }

  lemma DetachedAligned(t: EType, ty: Name, v: nat)
    requires AlignedEdges(t)
    ensures AlignedEdges(Detached(t, ty, v))
  {
    var t' := Detached(t, ty, v);
    forall u ensures AlignedList(t'.cols, ListAt(t'.out, u)) && AlignedList(t'.cols, ListAt(t'.inn, u)) {
      assert AlignedList(t.cols, ListAt(t.out, u)) && AlignedList(t.cols, ListAt(t.inn, u));
    }
  }

  lemma {:induction false} IncomingAligned(cols: seq<Col>, out: Adj, n: nat, d: nat)
    requires forall v :: AlignedList(cols, ListAt(out, v))
    ensures AlignedList(cols, Incoming(out, n, d))
  {
    hide ListAt, Backwards;
    if n > 0 {
      IncomingAligned(cols, out, n - 1, d);
      assert AlignedList(cols, ListAt(out, n - 1));
      BackwardsAligned(cols, ListAt(out, n - 1), n - 1, d);
    }
  }

  lemma {:induction false} BackwardsAligned(cols: seq<Col>, l: seq<Ent>, u: nat, d: nat)
    requires AlignedList(cols, l)
    ensures AlignedList(cols, Backwards(l, u, d))
    decreases |l|
  {
    if l != [] { BackwardsAligned(cols, l[..|l| - 1], u, d); }
  }

  lemma FollowsAligned(cols: seq<Col>, l: seq<Ent>, ch: Change, cols': seq<Col>, l': seq<Ent>)
    requires ListFollows(cols, l, ch, cols', l')
    ensures AlignedList(cols', l')
  {
  }

  lemma ChangedAligned(t: EType, ch: Change, n: nat, t': EType)
    requires AlignedEdges(t) && ChangedE(t, ch, n) == Some(t')
    ensures AlignedEdges(t')
  {
    hide ListAt, ChangedE, Rebuilds, Undeleted, Incoming, ListFollows, AlignedList;
    if Rebuilds(t.cols, t'.cols, ch) {
      forall v: nat ensures AlignedList(t'.cols, ListAt(t'.out, v)) {
        ChangeRebuilds(t, ch, n, t', v);
        FollowsAligned(t.cols, if v < n then Undeleted(ListAt(t.out, v)) else [], ch, t'.cols, ListAt(t'.out, v));
      }
      forall v ensures AlignedList(t'.cols, ListAt(t'.inn, v)) {
        ChangeRebuilds(t, ch, n, t', v);
        IncomingAligned(t'.cols, t'.out, n, v);
      }
    } else {
      forall v ensures AlignedList(t'.cols, ListAt(t'.out, v)) && AlignedList(t'.cols, ListAt(t'.inn, v)) {
        ChangeInPlace(t, ch, n, t', v);
        FollowsAligned(t.cols, ListAt(t.out, v), ch, t'.cols, ListAt(t'.out, v));
        FollowsAligned(t.cols, ListAt(t.inn, v), ch, t'.cols, ListAt(t'.inn, v));
      }
    }
  }

  lemma LinkAligned(t: EType, s: nat, d: nat, props: seq<int>)
    requires AlignedEdges(t) && |props| == |t.cols|
    ensures AlignedEdges(Link(t, s, d, props))
  {
    var t' := Link(t, s, d, props);
    forall v ensures AlignedList(t'.cols, ListAt(t'.out, v)) && AlignedList(t'.cols, ListAt(t'.inn, v)) {
      assert AlignedList(t.cols, ListAt(t.out, v)) && AlignedList(t.cols, ListAt(t.inn, v));
    }
  }

  lemma UnlinkAligned(t: EType, s: nat, d: nat, i: nat, j: nat)
    requires AlignedEdges(t) && Unlink(t, s, d, i, j).Some?
    ensures AlignedEdges(Unlink(t, s, d, i, j).value)
  {
    var t' := Unlink(t, s, d, i, j).value;
    forall v ensures AlignedList(t'.cols, ListAt(t'.out, v)) && AlignedList(t'.cols, ListAt(t'.inn, v)) {
      assert AlignedList(t.cols, ListAt(t.out, v)) && AlignedList(t.cols, ListAt(t.inn, v));
    }
  }

  lemma SetLinkAligned(t: EType, s: nat, d: nat, i: nat, j: nat, c: nat, x: int)
    requires AlignedEdges(t) && SetLink(t, s, d, i, j, c, x).Some?
    ensures AlignedEdges(SetLink(t, s, d, i, j, c, x).value)
  {
    var t' := SetLink(t, s, d, i, j, c, x).value;
    forall v ensures AlignedList(t'.cols, ListAt(t'.out, v)) && AlignedList(t'.cols, ListAt(t'.inn, v)) {
      assert AlignedList(t.cols, ListAt(t.out, v)) && AlignedList(t.cols, ListAt(t.inn, v));
    }
  }

  lemma {:induction false} UntouchedFrom(es: seq<EType>, ty: Name)
    ensures forall i :: 0 <= i < |Untouched(es, ty)| ==> Untouched(es, ty)[i] in es
  {
    if es != [] { UntouchedFrom(es[1..], ty); }
  }

  /** Every operation keeps one value for every property of every vertex and edge. */
  lemma ExecKeepsAligned(g: Graph, op: Op, g': Graph)
    requires Aligned(g) && Exec(g, op) == Some(g')
    ensures Aligned(g')
  {
    hide AlignedRows, AlignedEdges, FindV, FindE, ChangedE, ChangedV, Link, Unlink, SetLink, AddRow, SetCell, KillRow;
    match op
    case CreateV(_, _, _) => NewTypeAligned(g'.vs[|g.vs|]);
    case CreateE(_, _, _, _, _) => NewEdgesAligned(g'.es[|g.es|]);
    case DropV(l) => UntouchedFrom(g.es, g.vs[l].name);
    case DropE(_) =>
    case ChangeV(_, _) => VertexAligned(g, op, g');
    case ChangeE(e, ch) => ChangedAligned(g.es[e], ch, RowCount(g, g.es[e].src), g'.es[e]);
    case AddV(_, _, _) => VertexAligned(g, op, g');
    case SetV(_, _, _, _) => VertexAligned(g, op, g');
    case DelV(l, lid) =>
      VertexAligned(g, op, g');
      forall i | 0 <= i < |g.es| ensures AlignedEdges(Detached(g.es[i], g.vs[l].name, lid)) {
        DetachedAligned(g.es[i], g.vs[l].name, lid);
      }
    case AddE(e, s, d, props) => LinkAligned(g.es[e], s, d, props);
    case DelE(e, s, d, i, j) => UnlinkAligned(g.es[e], s, d, i, j);
    case SetE(e, s, d, i, j, c, x) => SetLinkAligned(g.es[e], s, d, i, j, c, x);
  }

  lemma NewTypeAligned(t: VType)
    requires t.rows == []
    ensures AlignedRows(t)
  {
  }

  lemma NewEdgesAligned(t: EType)
    requires t.out == map[] && t.inn == map[]
    ensures AlignedEdges(t)
  {
  }

  // ---- transactions -------------------------------------------------------------------------------------------------

  /** Whatever a transaction does, the graph keeps its integrity. */
  lemma {:induction false} TransactionKeepsIntegrity(g: Graph, ops: seq<Op>)
    requires WellFormed(g) && Aligned(g) && Integrity(g) && ExecAll(g, ops).Some?
    ensures var g' := ExecAll(g, ops).value.0; WellFormed(g') && Aligned(g') && Integrity(g')
    decreases |ops|
  {
    hide Exec, WellFormed, Aligned, Integrity, LogOf;
    if ops != [] {
      var g' := Exec(g, ops[0]).value;
      ExecKeeps(g, ops[0], g');
      ExecKeepsAligned(g, ops[0], g');
      ExecKeepsIntegrity(g, ops[0], g');
      TransactionKeepsIntegrity(g', ops[1..]);
    }
  }

  // ---- which operations succeed ----------------------------------------------------------------------------------------

  ghost predicate Has(cols: seq<Col>, name: Name) { exists i :: 0 <= i < |cols| && cols[i].name == name }

  ghost predicate ChangeAllowed(cols: seq<Col>, ch: Change) {
    match ch
    case NewCols(cs, xs) => |cs| == |xs| && !Repeats(cs) && forall i :: 0 <= i < |cs| ==> !Has(cols, cs[i].name)
    case NoCols(names) => forall i :: 0 <= i < |names| ==> Has(cols, names[i])
    case Renames(pairs) => forall i :: 0 <= i < |pairs| ==> Has(cols, pairs[i].0)
  }

  /** Edge properties are renamed by names that are there when their turn comes. */
  ghost predicate NamesThere(cols: seq<Col>, pairs: seq<(Name, Name)>) {
    forall k :: 0 <= k < |pairs| ==> Has(RenamedCols(cols, pairs[..k]), pairs[k].0)
  }

  lemma {:induction false} AllThereIff(cols: seq<Col>, pairs: seq<(Name, Name)>)
    ensures AllThere(cols, pairs) <==> NamesThere(cols, pairs)
    decreases |pairs|
  {
    hide ColumnOf, Has;
    if pairs != [] {
      assert pairs[..0] == [];
      ColumnIff(cols, pairs[0].0);
      assert NamesThere(cols, pairs) ==> Has(RenamedCols(cols, pairs[..0]), pairs[0].0);
      if ColumnOf(cols, pairs[0].0).Some? {
        var c := ColumnOf(cols, pairs[0].0).value;
        var cols', rest := cols[c := cols[c].(name := pairs[0].1)], pairs[1..];
        AllThereIff(cols', rest);
        forall k | 0 <= k < |rest| ensures RenamedCols(cols', rest[..k]) == RenamedCols(cols, pairs[..k + 1]) {
          assert pairs[..k + 1][1..] == rest[..k];
        }
        LaterThere(cols, cols', pairs);
      }
    }
  }

  lemma LaterThere(cols: seq<Col>, cols': seq<Col>, pairs: seq<(Name, Name)>)
    requires pairs != [] && Has(cols, pairs[0].0)
    requires forall k :: 0 <= k < |pairs| - 1 ==> RenamedCols(cols', pairs[1..][..k]) == RenamedCols(cols, pairs[..k + 1])
    ensures NamesThere(cols', pairs[1..]) <==> NamesThere(cols, pairs)
  {
    hide Has;
    var rest := pairs[1..];
    assert RenamedCols(cols, pairs[..0]) == cols;
    if NamesThere(cols', rest) {
      forall k | 0 <= k < |pairs| ensures Has(RenamedCols(cols, pairs[..k]), pairs[k].0) {
        if k > 0 { assert Has(RenamedCols(cols', rest[..k - 1]), rest[k - 1].0); }
      }
    }
    if NamesThere(cols, pairs) {
      forall k | 0 <= k < |rest| ensures Has(RenamedCols(cols', rest[..k]), rest[k].0) {
        assert Has(RenamedCols(cols, pairs[..k + 1]), pairs[k + 1].0);
      }
    }
  }

  ghost predicate LiveEnds(g: Graph, e: nat, s: nat, d: nat) {
    e < |g.es| && Live(g, g.es[e].src, s) && Live(g, g.es[e].dst, d)
  }

  /** What an operation needs. */
  ghost predicate Allowed(g: Graph, op: Op) {
    match op
    case CreateV(name, _, _) => !HasType(g, name)
    case CreateE(src, dst, name, _, _) =>
      HasType(g, src) && HasType(g, dst) && forall e :: 0 <= e < |g.es| ==> KeyOf(g.es[e]) != Key(src, dst, name)
    case DropV(l) => l < |g.vs|
    case DropE(e) => e < |g.es|
    case ChangeV(l, ch) => l < |g.vs| && ChangeAllowed(g.vs[l].cols, ch)
    case ChangeE(e, ch) =>
      e < |g.es| && ChangeAllowed(g.es[e].cols, ch) && (ch.Renames? ==> NamesThere(g.es[e].cols, ch.pairs))
    case AddV(l, oid, props) =>
      l < |g.vs| && |props| == |g.vs[l].cols|
      && forall i :: 0 <= i < |g.vs[l].rows| && g.vs[l].rows[i].oid == oid ==> !g.vs[l].rows[i].alive
    case DelV(l, _) => l < |g.vs|
    case SetV(l, lid, c, _) => l < |g.vs| && Alive(g.vs[l], lid) && c < |g.vs[l].rows[lid].props|
    case AddE(e, s, d, props) => LiveEnds(g, e, s, d) && |props| == |g.es[e].cols|
    case DelE(e, s, d, i, j) => LiveEnds(g, e, s, d) && OutAt(g, e, s, i).Some? && InAt(g, e, d, j).Some?
    case SetE(e, s, d, i, j, c, _) =>
      && LiveEnds(g, e, s, d) && OutAt(g, e, s, i).Some? && InAt(g, e, d, j).Some?
      && !OutAt(g, e, s, i).value.dead && c < |OutAt(g, e, s, i).value.props|
      && !InAt(g, e, d, j).value.dead && c < |InAt(g, e, d, j).value.props|
  }

  lemma ColumnIff(cols: seq<Col>, name: Name)
    ensures ColumnOf(cols, name).Some? <==> Has(cols, name)
  {
  }

  lemma ChangeSucceedsIff(cols: seq<Col>, ch: Change)
    ensures ChangedCols(cols, ch).Some? <==> ChangeAllowed(cols, ch)
  {
    hide ColumnOf, Has, Repeats, WithoutCols, RenamedCols;
    match ch
    case NewCols(cs, _) => forall i | 0 <= i < |cs| { ColumnIff(cols, cs[i].name); }
    case NoCols(names) => forall i | 0 <= i < |names| { ColumnIff(cols, names[i]); }
    case Renames(pairs) => forall i | 0 <= i < |pairs| { ColumnIff(cols, pairs[i].0); }
  }

  lemma EndsIff(g: Graph, e: nat, s: nat, d: nat)
    requires WellFormed(g)
    ensures Ends(g, e, s, d) <==> LiveEnds(g, e, s, d)
  {
    if e < |g.es| {
      FoundIff(g, g.es[e].src, s);
      FoundIff(g, g.es[e].dst, d);
    }
  }

  lemma FoundIff(g: Graph, name: Name, lid: nat)
    requires UniqueV(g.vs)
    ensures Live(g, name, lid) <==> FindV(g.vs, name).Some? && Alive(g.vs[FindV(g.vs, name).value], lid)
  {
  }

  /** An operation succeeds exactly if what it needs is there. */
  lemma ExecSucceedsIff(g: Graph, op: Op)
    requires WellFormed(g)
    ensures Exec(g, op).Some? <==> Allowed(g, op)
  {
    match op
    case CreateV(_, _, _) =>
    case CreateE(src, dst, _, _, _) =>
      TempIs(g, src);
      TempIs(g, dst);
    case DropV(_) =>
    case DropE(_) =>
    case ChangeV(l, ch) => if l < |g.vs| { ChangeSucceedsIff(g.vs[l].cols, ch); }
    case ChangeE(e, ch) =>
      if e < |g.es| {
        ChangeSucceedsIff(g.es[e].cols, ch);
        if ch.Renames? { AllThereIff(g.es[e].cols, ch.pairs); }
      }
    case AddV(l, _, _) =>
    case DelV(_, _) =>
    case SetV(_, _, _, _) =>
    case AddE(e, s, d, _) => EndsIff(g, e, s, d);
    case DelE(e, s, d, _, _) => EndsIff(g, e, s, d);
    case SetE(e, s, d, _, _, _, _) => EndsIff(g, e, s, d);
  }
}
