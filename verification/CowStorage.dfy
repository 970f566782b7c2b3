/** The mutators of CowGraphStorage: detach what the operation writes, then write. */
module CowStorage {
  import opened CowState
  import opened CowEdges
  import opened EdgeOffsets
  import opened CowSchema
  import opened CowColumns
  import opened CowRebuild
  import opened CowTables
  import opened CowMirror
  import opened CowDelete
  import opened CowRows
  import opened CowProperties
  import opened CowEffects
  import P = PropertyLists

  class CowGraphStorage {
    var st: St
    var sc: Schema
    ghost const base: map<Ref, Block>
    const writeTs: nat
    const readTs: nat

    ghost predicate Valid()
      reads this
    {
      Inv(st, base) && SchemaOk(sc) && Complete(st, sc) && writeTs <= readTs
    }

    /** A clone shares every block with the base graph, and no flag is set. */
    constructor (heap: map<Ref, Block>, refs: map<Slot, Ref>, next: Ref, schema: Schema, read: nat, write: nat)
      requires Shaped(St(heap, refs, {}, {}, next)) && Separate(St(heap, refs, {}, {}, next))
      requires SchemaOk(schema) && Complete(St(heap, refs, {}, {}, next), schema) && write <= read
      ensures Valid() && base == heap && st == St(heap, refs, {}, {}, next)
    {
      st := St(heap, refs, {}, {}, next);
      sc, base, readTs, writeTs := schema, heap, read, write;
    }

    // ---- detach functions ------------------------------------------------------------------------

    method Detach(s: Slot)
      requires Valid() && s in st.refs
      modifies this`st
      ensures Valid() && Quietly(old(st), st) && s in st.own
    {
      hide Isolated, Shaped, Separate, Flags, Inv;
      QuietlyStays(st);
      if s !in st.own {
        Present(st, s, base);
        CopiedInv(st, s, base);
        st := Copied(st, s);
      }
    }

    /** One more detach after others that started from st0. */
    method AlsoDetach(s: Slot, ghost st0: St)
      requires Valid() && s in st.refs && Quietly(st0, st)
      modifies this`st
      ensures Valid() && Quietly(st0, st) && Grows(old(st), st) && s in st.own
    {
      hide Inv, SameView;
      Detach(s);
      QuietlyTwice(st0, old(st), st);
    }

    method DetachVertexTableForInsert(l: Label)
      requires Valid() && l in sc.live
      modifies this`st
      ensures Valid() && Quietly(old(st), st)
      ensures Indexer(l) in st.own && Stamps(l) in st.own
      ensures forall c: nat :: c < sc.VCols(l) ==> VCol(l, c) in st.own
    {
      hide Inv, SameView;
      Detach(Indexer(l));
      AlsoDetach(Stamps(l), old(st));
      for c := 0 to sc.VCols(l)
        invariant Valid() && Quietly(old(st), st)
        invariant Indexer(l) in st.own && Stamps(l) in st.own
        invariant forall k: nat :: k < c ==> VCol(l, k) in st.own
      {
        AlsoDetach(VCol(l, c), old(st));
      }
    }

    method DetachVertexTableForDelete(l: Label)
      requires Valid() && l in sc.live
      modifies this`st
      ensures Valid() && Quietly(old(st), st) && Stamps(l) in st.own
      ensures forall c: nat :: c < sc.VCols(l) && sc.Vec(l, c) ==> VCol(l, c) in st.own
    {
      hide Inv, SameView;
      Detach(Stamps(l));
      for c := 0 to sc.VCols(l)
        invariant Valid() && Quietly(old(st), st) && Stamps(l) in st.own
        invariant forall k: nat :: k < c && sc.Vec(l, k) ==> VCol(l, k) in st.own
      {
        if sc.Vec(l, c) { AlsoDetach(VCol(l, c), old(st)); }
      }
    }

    method DetachEdgeTableForDelete(t: Trip)
      requires Valid() && t in sc.trips
      modifies this`st
      ensures Valid() && Quietly(old(st), st)
      ensures OutCsr(t) in st.own && InCsr(t) in st.own
    {
      hide Inv, SameView;
      Detach(OutCsr(t));
      AlsoDetach(InCsr(t), old(st));
    }

    method DetachEdgeTableForInsert(t: Trip)
      requires Valid() && t in sc.trips
      modifies this`st
      ensures Valid() && Quietly(old(st), st)
      ensures OutCsr(t) in st.own && InCsr(t) in st.own
      ensures forall c: nat :: c < sc.ECols(t) ==> ECol(t, c) in st.own
    {
      hide Inv, SameView;
      DetachEdgeTableForDelete(t);
      for c := 0 to sc.ECols(t)
        invariant Valid() && Quietly(old(st), st)
        invariant OutCsr(t) in st.own && InCsr(t) in st.own
        invariant forall k: nat :: k < c ==> ECol(t, k) in st.own
      {
        AlsoDetach(ECol(t, c), old(st));
      }
    }

    method DetachAdjlist(s: Slot, v: Vid)
      requires Valid() && s in st.own && IsCsr(s)
      modifies this`st
      ensures Valid() && Quietly(old(st), st) && (s, v) in st.ownAdj
    {
      hide Isolated, Shaped, Separate, Flags, Inv;
      QuietlyStays(st);
      if (s, v) !in st.ownAdj {
        OwnedIsPresent(st, s, base);
        Present(st, s, base);
        CopiedAdjInv(st, s, v, base);
        st := CopiedAdj(st, s, v);
      }
    }

    method DetachAdjlists(t: Trip, src: Vid, dst: Vid)
      requires Valid() && OutCsr(t) in st.own && InCsr(t) in st.own
      modifies this`st
      ensures Valid() && Quietly(old(st), st)
      ensures (OutCsr(t), src) in st.ownAdj && (InCsr(t), dst) in st.ownAdj
    {
      hide Inv, SameView;
      DetachAdjlist(OutCsr(t), src);
      ghost var mid := st;
      DetachAdjlist(InCsr(t), dst);
      QuietlyTwice(old(st), mid, st);
    }

    /** Every CSR with the label on either side. */
    method DetachIncidentEdgeTablesForResize(l: Label)
      requires Valid() && l in sc.live
      modifies this`st
      ensures Valid() && Quietly(old(st), st)
      ensures forall t :: t in sc.trips && Touches(l, t) ==> OutCsr(t) in st.own && InCsr(t) in st.own
    {
      hide Inv, SameView;
      QuietlyStays(st);
      for other := 0 to sc.labels
        invariant Valid() && Quietly(old(st), st)
        invariant forall t :: t in sc.trips && Touches(l, t) && Other(l, t) < other ==> OutCsr(t) in st.own && InCsr(t) in st.own
      {
        for e := 0 to sc.edgeLabels
          invariant Valid() && Quietly(old(st), st)
          invariant forall t :: t in sc.trips && Touches(l, t) && Other(l, t) < other ==> OutCsr(t) in st.own && InCsr(t) in st.own
          invariant forall t :: t in sc.trips && Touches(l, t) && Other(l, t) == other && t.e < e ==>
            OutCsr(t) in st.own && InCsr(t) in st.own
        {
          ghost var mid := st;
          if Trip(l, other, e) in sc.trips { DetachEdgeTableForDelete(Trip(l, other, e)); } else { QuietlyStays(st); }
          QuietlyTwice(old(st), mid, st);
          mid := st;
          if l != other && Trip(other, l, e) in sc.trips {
            DetachEdgeTableForDelete(Trip(other, l, e));
          } else {
            QuietlyStays(st);
          }
          QuietlyTwice(old(st), mid, st);
          OtherIs(l, other, e);
        }
      }
    }

    // ---- incident edges -----------------------------------------------------------------------------

    /** Neighbours in the visible entries of one adjacency list. */
    method Collect(s: Slot, v: Vid, ts: nat) returns (r: seq<Vid>)
      ensures forall w :: w in r <==> Sees(ListOf(st, s, v), w, ts)
    {
      var edges := ListOf(st, s, v);
      r := [];
      for i := 0 to |edges|
        invariant forall w :: w in r <==> Sees(edges[..i], w, ts)
      {
        SeesMore(edges, i, ts);
        if Visible(edges[i], ts) { r := r + [edges[i].vid]; }
      }
      assert edges[..|edges|] == edges;
    }

    /** collect_triplet: the edges of one triple in which v plays one role. */
    method CollectTriplet(t: Trip, v: Vid, isSrc: bool, ts: nat) returns (r: seq<Incident>)
      ensures forall x :: x in r <==> InRole(st, t, v, isSrc, ts, x)
    {
      var ws := Collect(if isSrc then OutCsr(t) else InCsr(t), v, ts);
      r := seq(|ws|, i requires 0 <= i < |ws| => MakeIncident(t, v, ws[i], isSrc));
      forall x ensures x in r <==> InRole(st, t, v, isSrc, ts, x) {
        if InRole(st, t, v, isSrc, ts, x) {
          var w := if isSrc then x.dst else x.src;
          var i :| 0 <= i < |ws| && ws[i] == w;
          assert r[i] == x;
        }
      }
    }

    /** fetch_edges_related_to_vertex: exactly the visible edges at the vertex, in both roles. */
    method FetchEdges(l: Label, v: Vid, ts: nat) returns (r: seq<Incident>)
      requires SchemaOk(sc)
      ensures forall x :: x in r <==> IncidentTo(st, sc, l, v, ts, x)
    {
      hide Sees, ListOf;
      r := [];
      for other := 0 to sc.labels
        invariant forall x :: x in r <==> IncidentTo(st, sc, l, v, ts, x) && Other(l, x.t) < other
      {
        for e := 0 to sc.edgeLabels
          invariant forall x :: x in r <==>
            (IncidentTo(st, sc, l, v, ts, x) && (Other(l, x.t) < other || (Other(l, x.t) == other && x.t.e < e)))
        {
          var a: seq<Incident>, b: seq<Incident> := [], [];
          if Trip(l, other, e) in sc.trips { a := CollectTriplet(Trip(l, other, e), v, true, ts); }
          if Trip(other, l, e) in sc.trips { b := CollectTriplet(Trip(other, l, e), v, false, ts); }
          OtherIs(l, other, e);
          r := r + a + b;
        }
      }
    }

    /** Both lists of every visible edge at the vertex are detached. */
    ghost predicate Prepared(l: Label, v: Vid, ts: nat)
      reads this
    {
      forall x :: IncidentTo(st, sc, l, v, ts, x) ==> ReadyFor(x)
    }

    ghost predicate ReadyFor(x: Incident)
      reads this
    {
      && OutCsr(x.t) in st.own && InCsr(x.t) in st.own
      && (OutCsr(x.t), x.src) in st.ownAdj && (InCsr(x.t), x.dst) in st.ownAdj
    }

    method DetachEdge(x: Incident, ghost st0: St)
      requires Valid() && x.t in sc.trips && Quietly(st0, st)
      modifies this`st
      ensures Valid() && Quietly(st0, st) && Grows(old(st), st) && ReadyFor(x)
    {
      hide Inv, SameView;
      DetachEdgeTableForDelete(x.t);
      QuietlyTwice(st0, old(st), st);
      ghost var mid := st;
      DetachAdjlists(x.t, x.src, x.dst);
      QuietlyTwice(st0, mid, st);
    }

    method PrepareVertexDelete(l: Label, v: Vid)
      requires Valid() && l in sc.live
      modifies this`st
      ensures Valid() && Quietly(old(st), st) && Stamps(l) in st.own && Prepared(l, v, readTs)
      ensures forall c: nat :: c < sc.VCols(l) && sc.Vec(l, c) ==> VCol(l, c) in st.own
    {
      hide Inv, SameView, IncidentTo;
      DetachVertexTableForDelete(l);
      ghost var mid := st;
      var edges := FetchEdges(l, v, readTs);
      for i := 0 to |edges|
        invariant Valid() && Quietly(old(st), st) && Grows(mid, st)
        invariant forall k :: 0 <= k < i ==> ReadyFor(edges[k])
      {
        assert edges[i] in edges;
        IncidentIsTrip(mid, sc, l, v, readTs, edges[i]);
        DetachEdge(edges[i], old(st));
      }
      forall x | IncidentTo(st, sc, l, v, readTs, x) ensures ReadyFor(x) {
        SameIncident(old(st), st, sc, l, v, readTs, x);
        SameIncident(old(st), mid, sc, l, v, readTs, x);
        assert x in edges;
      }
    }

    // ---- writes ---------------------------------------------------------------------------------------

    method WriteSlot(s: Slot, data: seq<int>)
      requires Valid() && s in st.own && !IsCsr(s)
      modifies this`st
      ensures Valid() && Grows(old(st), st) && CellsOf(st, s) == data
      ensures ViewExcept(old(st), st, {s}, {})
    {
      hide Isolated, Shaped, Separate, Flags, Inv;
      OwnedIsPresent(st, s, base);
      WriteCells(st, s, data, base);
      st := WithCells(st, s, data);
    }

    method WriteAdjlist(s: Slot, v: Vid, edges: seq<Nbr>)
      requires Valid() && s in st.own && IsCsr(s) && (s, v) in st.ownAdj
      modifies this`st
      ensures Valid() && Grows(old(st), st) && ListOf(st, s, v) == edges
      ensures ViewExcept(old(st), st, {}, {(s, v)})
    {
      hide Isolated, Shaped, Separate, Flags, Inv;
      OwnedIsPresent(st, s, base);
      Present(st, s, base);
      WriteList(st, s, v, edges, base);
      WithListKeys(st, s, v, edges);
      st := WithList(st, s, v, edges);
    }

    /** UpdateVertexPropertyImpl. */
    method UpdateVertexProperty(l: Label, v: Vid, c: nat, value: int) returns (ok: bool)
      requires Valid() && l in sc.live
      modifies this`st
      ensures Valid() && ok == (c < sc.VCols(l) && old(Live(st, l, v, writeTs)))
      ensures ViewExcept(old(st), st, {VCol(l, c)}, {})
      ensures ok ==> CellsOf(st, VCol(l, c)) == PutAt(old(CellsOf(st, VCol(l, c))), v, value)
      ensures !ok ==> SameView(old(st), st)
    {
      hide Inv, CellsOf, ListOf;
      QuietlyStays(st);
      QuietExcept(st, st, {VCol(l, c)}, {});
      if !Live(st, l, v, readTs) || c >= sc.VCols(l) { return false; }
      Detach(VCol(l, c));
      ghost var mid := st;
      SameLive(old(st), mid, l, v, writeTs);
      QuietExcept(old(st), mid, {VCol(l, c)}, {});
      if !Live(st, l, v, writeTs) { return false; }
      SameCells(old(st), st, VCol(l, c));
      WriteSlot(VCol(l, c), PutAt(CellsOf(st, VCol(l, c)), v, value));
      DetachThenWrite(old(st), mid, st, {VCol(l, c)}, {});
      return true;
    }

    /** The two adjacency lists of an edge, both detached. */
    method WriteEdge(t: Trip, src: Vid, dst: Vid, out: seq<Nbr>, in_: seq<Nbr>)
      requires Valid() && ReadyFor(Incident(t, src, dst))
      modifies this`st
      ensures Valid() && Grows(old(st), st)
      ensures ListOf(st, OutCsr(t), src) == out && ListOf(st, InCsr(t), dst) == in_
      ensures ViewExcept(old(st), st, {}, Both(t, src, dst))
    {
      hide Inv, CellsOf, ListOf;
      WriteAdjlist(OutCsr(t), src, out);
      ghost var mid := st;
      WriteAdjlist(InCsr(t), dst, in_);
      WriteThenWrite(old(st), mid, st, {}, {(OutCsr(t), src)}, {}, {(InCsr(t), dst)});
      assert {(OutCsr(t), src)} + {(InCsr(t), dst)} == Both(t, src, dst);
    }

    /** DeleteEdgeImpl: the two halves are marked one after the other; an offset outside its list throws. */
    method DeleteEdge(t: Trip, src: Vid, dst: Vid, i: nat, j: nat) returns (ok: bool)
      requires Valid()
      modifies this`st
      ensures Valid() && ViewExcept(old(st), st, {}, Both(t, src, dst))
      ensures ok ==> t in sc.trips && old(Live(st, t.src, src, readTs)) && old(Live(st, t.dst, dst, readTs))
      ensures ok == (old(Ends(st, sc, t, src, dst, readTs))
                     && i < |old(ListOf(st, OutCsr(t), src))| && j < |old(ListOf(st, InCsr(t), dst))|)
      ensures ListOf(st, OutCsr(t), src) ==
        if old(Ends(st, sc, t, src, dst, readTs)) then Kill(old(ListOf(st, OutCsr(t), src)), i, writeTs)
        else old(ListOf(st, OutCsr(t), src))
      ensures ListOf(st, InCsr(t), dst) ==
        if ok then Kill(old(ListOf(st, InCsr(t), dst)), j, writeTs) else old(ListOf(st, InCsr(t), dst))
      ensures old(AllMirrored(st, writeTs) && SameEdge(st, t, src, dst, writeTs, i, j)) ==> AllMirrored(st, writeTs)
    {
      hide Inv, CellsOf, ListOf, SameView, AllMirrored, Live;
      QuietlyStays(st);
      QuietExcept(st, st, {}, Both(t, src, dst));
      if !Ends(st, sc, t, src, dst, readTs) { return false; }
      DetachEdge(Incident(t, src, dst), old(st));
      ghost var mid := st;
      SameList(old(st), st, OutCsr(t), src);
      SameList(old(st), st, InCsr(t), dst);
      var out, in_ := ListOf(st, OutCsr(t), src), ListOf(st, InCsr(t), dst);
      ok := i < |out| && j < |in_|;
      WriteEdge(t, src, dst, Kill(out, i, writeTs), if i < |out| then Kill(in_, j, writeTs) else in_);
      DetachThenWrite(old(st), mid, st, {}, Both(t, src, dst));
      if old(AllMirrored(st, writeTs) && SameEdge(st, t, src, dst, writeTs, i, j)) {
        KillMirrors(old(st), st, t, src, dst, i, j, writeTs);
      }
    }

    /**
      UpdateEdgePropertyImpl: bundled properties live in both lists, others in the property
      table. An offset that is no visible entry throws; for the second list that is after the
      first was written.
     */
    method UpdateEdgeProperty(t: Trip, src: Vid, dst: Vid, i: nat, j: nat, c: nat, value: int) returns (ok: bool)
      requires Valid()
      modifies this`st
      ensures Valid()
      ensures ok ==> t in sc.trips && old(Live(st, t.src, src, readTs)) && old(Live(st, t.dst, dst, readTs))
      ensures ok == (old(Ends(st, sc, t, src, dst, readTs) && At(ListOf(st, OutCsr(t), src), i, writeTs))
                     && if sc.Bundled(t) then old(At(ListOf(st, InCsr(t), dst), j, writeTs)) else c < sc.ECols(t))
      ensures sc.Bundled(t) ==> ViewExcept(old(st), st, {}, Both(t, src, dst))
      ensures sc.Bundled(t) ==> (
        ListOf(st, OutCsr(t), src) ==
        if old(Ends(st, sc, t, src, dst, readTs) && At(ListOf(st, OutCsr(t), src), i, writeTs))
        then SetProp(old(ListOf(st, OutCsr(t), src)), i, value, writeTs) else old(ListOf(st, OutCsr(t), src)))
      ensures sc.Bundled(t) ==> (
        ListOf(st, InCsr(t), dst) ==
        if ok then SetProp(old(ListOf(st, InCsr(t), dst)), j, value, writeTs) else old(ListOf(st, InCsr(t), dst)))
      ensures !sc.Bundled(t) ==> ViewExcept(old(st), st, {ECol(t, c)}, {})
      ensures !sc.Bundled(t) ==> (
        CellsOf(st, ECol(t, c)) ==
        if ok then SetRow(old(CellsOf(st, ECol(t, c))), RowOf(old(ListOf(st, OutCsr(t), src)), i), value)
        else old(CellsOf(st, ECol(t, c))))
      ensures old(AllMirrored(st, writeTs)) && old(SameEdge(st, t, src, dst, writeTs, i, j)) ==> AllMirrored(st, writeTs)
    {
      hide Inv, CellsOf, ListOf, SameView, AllMirrored, Live;
      QuietlyStays(st);
      QuietExcept(st, st, {}, Both(t, src, dst));
      QuietExcept(st, st, {ECol(t, c)}, {});
      if !Ends(st, sc, t, src, dst, readTs) { return false; }
      if sc.Bundled(t) {
        ok := SetBundled(t, src, dst, i, j, value);
      } else {
        if c >= sc.ECols(t) { return false; }
        Detach(ECol(t, c));
        ghost var mid := st;
        SameCells(old(st), st, ECol(t, c));
        SameList(old(st), st, OutCsr(t), src);
        ok := At(ListOf(st, OutCsr(t), src), i, writeTs);
        WriteSlot(ECol(t, c), if ok then SetRow(CellsOf(st, ECol(t, c)), RowOf(ListOf(st, OutCsr(t), src), i), value)
                              else CellsOf(st, ECol(t, c)));
        DetachThenWrite(old(st), mid, st, {ECol(t, c)}, {});
        if old(AllMirrored(st, writeTs)) { CellsMirror(old(st), st, {ECol(t, c)}, writeTs); }
      }
    }

    method SetBundled(t: Trip, src: Vid, dst: Vid, i: nat, j: nat, value: int) returns (ok: bool)
      requires Valid() && t in sc.trips
      modifies this`st
      ensures Valid() && ViewExcept(old(st), st, {}, Both(t, src, dst))
      ensures ok == (old(At(ListOf(st, OutCsr(t), src), i, writeTs)) && old(At(ListOf(st, InCsr(t), dst), j, writeTs)))
      ensures ListOf(st, OutCsr(t), src) ==
        if old(At(ListOf(st, OutCsr(t), src), i, writeTs)) then SetProp(old(ListOf(st, OutCsr(t), src)), i, value, writeTs)
        else old(ListOf(st, OutCsr(t), src))
      ensures ListOf(st, InCsr(t), dst) ==
        if ok then SetProp(old(ListOf(st, InCsr(t), dst)), j, value, writeTs) else old(ListOf(st, InCsr(t), dst))
      ensures old(AllMirrored(st, writeTs)) && old(SameEdge(st, t, src, dst, writeTs, i, j)) ==> AllMirrored(st, writeTs)
    {
      hide Inv, CellsOf, ListOf, SameView, AllMirrored;
      QuietlyStays(st);
      DetachEdge(Incident(t, src, dst), old(st));
      ghost var mid := st;
      SameList(old(st), st, OutCsr(t), src);
      SameList(old(st), st, InCsr(t), dst);
      var out, in_ := ListOf(st, OutCsr(t), src), ListOf(st, InCsr(t), dst);
      ok := At(out, i, writeTs) && At(in_, j, writeTs);
      WriteEdge(t, src, dst, if At(out, i, writeTs) then SetProp(out, i, value, writeTs) else out,
                if ok then SetProp(in_, j, value, writeTs) else in_);
      DetachThenWrite(old(st), mid, st, {}, Both(t, src, dst));
      if old(AllMirrored(st, writeTs)) && old(SameEdge(st, t, src, dst, writeTs, i, j)) {
        SetMirrors(old(st), st, t, src, dst, i, j, value, writeTs);
      }
    }

    /** One block of a resized table or CSR. */
    method Move(s: Slot, ghost st0: St)
      requires Valid() && s in st.own && Quietly(st0, st)
      modifies this`st
      ensures Valid() && Quietly(st0, st) && Grows(old(st), st)
    {
      hide Isolated, Shaped, Separate, Flags, Inv, SameView;
      MovedInv(st, s, base);
      QuietlyTwice(st0, st, Moved(st, s));
      st := Moved(st, s);
    }

    /** VertexTable::EnsureCapacity: every buffer of the table moves to a larger one. */
    method EnsureVertexCapacity(l: Label)
      requires Valid() && Indexer(l) in st.own && Stamps(l) in st.own
      requires forall c: nat :: c < sc.VCols(l) ==> VCol(l, c) in st.own
      modifies this`st
      ensures Valid() && Quietly(old(st), st)
    {
      hide Inv, SameView;
      QuietlyStays(st);
      Move(Indexer(l), old(st));
      Move(Stamps(l), old(st));
      for c := 0 to sc.VCols(l)
        invariant Valid() && Quietly(old(st), st)
      {
        Move(VCol(l, c), old(st));
      }
    }

    /** PropertyGraph::EnsureCapacity: the table, and every CSR with the label on either side. */
    method EnsureCapacity(l: Label)
      requires Valid() && Indexer(l) in st.own && Stamps(l) in st.own
      requires forall c: nat :: c < sc.VCols(l) ==> VCol(l, c) in st.own
      requires forall t :: t in sc.trips && Touches(l, t) ==> OutCsr(t) in st.own && InCsr(t) in st.own
      modifies this`st
      ensures Valid() && Quietly(old(st), st)
    {
      hide Inv, SameView;
      EnsureVertexCapacity(l);
      for other := 0 to sc.labels
        invariant Valid() && Quietly(old(st), st)
      {
        for e := 0 to sc.edgeLabels
          invariant Valid() && Quietly(old(st), st)
        {
          if Trip(l, other, e) in sc.trips {
            Move(OutCsr(Trip(l, other, e)), old(st));
            Move(InCsr(Trip(l, other, e)), old(st));
          }
          if l != other && Trip(other, l, e) in sc.trips {
            Move(OutCsr(Trip(other, l, e)), old(st));
            Move(InCsr(Trip(other, l, e)), old(st));
          }
        }
      }
    }

    /** EdgeTable::EnsureCapacity: the property columns. */
    method EnsureEdgeCapacity(t: Trip)
      requires Valid() && forall c: nat :: c < sc.ECols(t) ==> ECol(t, c) in st.own
      modifies this`st
      ensures Valid() && Quietly(old(st), st)
    {
      hide Inv, SameView;
      QuietlyStays(st);
      for c := 0 to sc.ECols(t)
        invariant Valid() && Quietly(old(st), st)
      {
        Move(ECol(t, c), old(st));
      }
    }

    method PutCell(s: Slot, i: nat, x: int, ghost st0: St, ghost done: set<Slot>)
      requires Valid() && s in st.own && !IsCsr(s) && ViewExcept(st0, st, done, {}) && Grows(st0, st)
      modifies this`st
      ensures Valid() && ViewExcept(st0, st, done + {s}, {}) && Grows(st0, st) && Grows(old(st), st)
      ensures CellsOf(st, s) == PutAt(old(CellsOf(st, s)), i, x)
      ensures ViewExcept(old(st), st, {s}, {})
    {
      hide Inv, CellsOf, ListOf;
      WriteSlot(s, PutAt(CellsOf(st, s), i, x));
      WriteThenWrite(st0, old(st), st, done, {}, {s}, {});
    }

    /** The table writes of an insertion at a row, after everything it writes is detached. */
    method PutRow(l: Label, vid: Vid, oid: int, props: seq<int>)
      requires Valid() && Indexer(l) in st.own && Stamps(l) in st.own && |props| == sc.VCols(l)
      requires forall c: nat :: c < sc.VCols(l) ==> VCol(l, c) in st.own
      modifies this`st
      ensures Valid() && ViewExcept(old(st), st, VertexSlots(l, |props|), {}) && Grows(old(st), st)
      ensures CellsOf(st, Indexer(l)) == PutAt(old(CellsOf(st, Indexer(l))), vid, oid)
      ensures CellsOf(st, Stamps(l)) == PutAt(old(CellsOf(st, Stamps(l))), vid, writeTs)
      ensures forall c: nat :: c < |props| ==> CellsOf(st, VCol(l, c)) == PutAt(old(CellsOf(st, VCol(l, c))), vid, props[c])
    {
      hide Inv, CellsOf, ListOf, PutAt;
      NothingWritten(st, {}, {});
      PutCell(Indexer(l), vid, oid, old(st), {});
      PutCell(Stamps(l), vid, writeTs, old(st), {} + {Indexer(l)});
      assert {} + {Indexer(l)} + {Stamps(l)} == VertexSlots(l, 0);
      for c := 0 to |props|
        invariant Valid() && ViewExcept(old(st), st, VertexSlots(l, c), {}) && Grows(old(st), st)
        invariant CellsOf(st, Indexer(l)) == PutAt(old(CellsOf(st, Indexer(l))), vid, oid)
        invariant CellsOf(st, Stamps(l)) == PutAt(old(CellsOf(st, Stamps(l))), vid, writeTs)
        invariant forall k: nat :: k < c ==> CellsOf(st, VCol(l, k)) == PutAt(old(CellsOf(st, VCol(l, k))), vid, props[k])
      {
        assert VCol(l, c) !in VertexSlots(l, c);
        PutCell(VCol(l, c), vid, props[c], old(st), VertexSlots(l, c));
        assert VertexSlots(l, c) + {VCol(l, c)} == VertexSlots(l, c + 1);
      }
    }

    /**
      AddVertexImpl, with the table at capacity or not: a new key takes the next row, the key
      of a deleted vertex takes its old row, and the key of a valid vertex is refused.
     */
    method AddVertex(l: Label, oid: int, props: seq<int>, full: bool) returns (ok: bool, vid: Vid)
      requires Valid() && l in sc.live
      modifies this`st
      ensures Valid() && vid == IndexOf(old(CellsOf(st, Indexer(l))), oid)
      ensures ok == (|props| == sc.VCols(l) && !old(Live(st, l, IndexOf(CellsOf(st, Indexer(l)), oid), writeTs)))
      ensures !ok ==> SameView(old(st), st)
      ensures ok ==> ViewExcept(old(st), st, VertexSlots(l, |props|), {})
      ensures ok ==> CellsOf(st, Indexer(l)) == PutAt(old(CellsOf(st, Indexer(l))), vid, oid)
      ensures ok ==> CellsOf(st, Stamps(l)) == PutAt(old(CellsOf(st, Stamps(l))), vid, writeTs)
      ensures ok ==> forall c: nat :: c < |props| ==>
        CellsOf(st, VCol(l, c)) == PutAt(old(CellsOf(st, VCol(l, c))), vid, props[c])
      ensures ok ==> Live(st, l, vid, writeTs)
    {
      hide Inv, CellsOf, ListOf, PutAt;
      QuietlyStays(st);
      vid := IndexOf(CellsOf(st, Indexer(l)), oid);
      if |props| != sc.VCols(l) { return false, vid; }
      ReadyVertex(l, full);
      ghost var mid := st;
      forall s ensures CellsOf(mid, s) == CellsOf(old(st), s) { SameCells(old(st), mid, s); }
      SameLive(old(st), mid, l, vid, writeTs);
      if Live(st, l, vid, writeTs) { return false, vid; }
      PutRow(l, vid, oid, props);
      DetachThenWrite(old(st), mid, st, VertexSlots(l, |props|), {});
      return true, vid;
    }

    /** Everything an insertion writes, and everything a resize rewrites, is detached. */
    method ReadyVertex(l: Label, full: bool)
      requires Valid() && l in sc.live
      modifies this`st
      ensures Valid() && Quietly(old(st), st)
      ensures Indexer(l) in st.own && Stamps(l) in st.own
      ensures forall c: nat :: c < sc.VCols(l) ==> VCol(l, c) in st.own
    {
      hide Inv, SameView;
      QuietlyStays(st);
      if full {
        DetachVertexTableForInsert(l);
        ghost var mid := st;
        DetachIncidentEdgeTablesForResize(l);
        QuietlyTwice(old(st), mid, st);
        mid := st;
        EnsureCapacity(l);
        QuietlyTwice(old(st), mid, st);
      }
      ghost var mid := st;
      DetachVertexTableForInsert(l);
      QuietlyTwice(old(st), mid, st);
    }

    /** The property row of a new edge, in the unbundled case. */
    method PutEdgeRow(t: Trip, r: nat, row: seq<int>)
      requires Valid() && forall c: nat :: c < |row| ==> ECol(t, c) in st.own
      modifies this`st
      ensures Valid() && ViewExcept(old(st), st, EdgeCols(t, |row|), {}) && Grows(old(st), st)
      ensures forall c: nat :: c < |row| ==> CellsOf(st, ECol(t, c)) == PutAt(old(CellsOf(st, ECol(t, c))), r, row[c])
    {
      hide Inv, CellsOf, ListOf, PutAt;
      NothingWritten(st, EdgeCols(t, 0), {});
      for c := 0 to |row|
        invariant Valid() && ViewExcept(old(st), st, EdgeCols(t, c), {}) && Grows(old(st), st)
        invariant forall k: nat :: k < c ==> CellsOf(st, ECol(t, k)) == PutAt(old(CellsOf(st, ECol(t, k))), r, row[k])
      {
        assert ECol(t, c) !in EdgeCols(t, c);
        PutCell(ECol(t, c), r, row[c], old(st), EdgeCols(t, c));
        assert EdgeCols(t, c) + {ECol(t, c)} == EdgeCols(t, c + 1);
      }
    }

    /** Everything a new edge writes, and everything a resize of the property table rewrites, is detached. */
    method ReadyEdge(t: Trip, src: Vid, dst: Vid, full: bool)
      requires Valid() && t in sc.trips
      modifies this`st
      ensures Valid() && Quietly(old(st), st) && ReadyFor(Incident(t, src, dst))
      ensures forall c: nat :: c < sc.ECols(t) ==> ECol(t, c) in st.own
    {
      hide Inv, SameView;
      DetachEdgeTableForInsert(t);
      ghost var mid := st;
      QuietlyStays(st);
      if full { EnsureEdgeCapacity(t); }
      QuietlyTwice(old(st), mid, st);
      mid := st;
      DetachAdjlists(t, src, dst);
      QuietlyTwice(old(st), mid, st);
    }

    /**
      AddEdgeImpl, with the property table at capacity or not: one entry in each list. It
      carries the bundled property, or the number of a new row of the property table. The
      redo record of a persistent edge needs the keys of both ends, so an invalid end throws.
     */
    method AddEdge(t: Trip, src: Vid, dst: Vid, prop: int, row: seq<int>, full: bool) returns (ok: bool)
      requires Valid()
      modifies this`st
      ensures Valid()
      ensures ok == (t in sc.trips && |row| == sc.ECols(t) && (t in sc.temp || old(Ends(st, sc, t, src, dst, readTs))))
      ensures ok && t !in sc.temp ==> old(Live(st, t.src, src, readTs)) && old(Live(st, t.dst, dst, readTs))
      ensures !ok ==> SameView(old(st), st)
      ensures ok ==> ViewExcept(old(st), st, EdgeCols(t, |row|), Both(t, src, dst))
      ensures ok ==> var data := if sc.eprops(t) == [] then 0 else if sc.Bundled(t) then prop else |old(CellsOf(st, ECol(t, 0)))|;
        && ListOf(st, OutCsr(t), src) == old(ListOf(st, OutCsr(t), src)) + [Nbr(dst, writeTs, false, data)]
        && ListOf(st, InCsr(t), dst) == old(ListOf(st, InCsr(t), dst)) + [Nbr(src, writeTs, false, data)]
      ensures ok ==> forall c: nat :: c < |row| ==>
        CellsOf(st, ECol(t, c)) == PutAt(old(CellsOf(st, ECol(t, c))), |old(CellsOf(st, ECol(t, 0)))|, row[c])
      ensures old(AllMirrored(st, writeTs)) ==> AllMirrored(st, writeTs)
    {
      hide Inv, CellsOf, ListOf, SameView, AllMirrored, PutAt, Live;
      QuietlyStays(st);
      if t !in sc.trips || |row| != sc.ECols(t) { return false; }
      ReadyEdge(t, src, dst, full);
      ghost var mid := st;
      SameEnds(old(st), mid, sc, t, src, dst, readTs);
      if old(AllMirrored(st, writeTs)) { QuietMirrors(old(st), mid, writeTs); }
      if t !in sc.temp && !Ends(st, sc, t, src, dst, readTs) { return false; }
      SameList(old(st), mid, OutCsr(t), src);
      SameList(old(st), mid, InCsr(t), dst);
      forall s ensures CellsOf(mid, s) == CellsOf(old(st), s) { SameCells(old(st), mid, s); }
      var r := |CellsOf(st, ECol(t, 0))|;
      var data := if sc.eprops(t) == [] then 0 else if sc.Bundled(t) then prop else r;
      PutEdgeRow(t, r, row);
      ghost var rowed := st;
      WriteEdge(t, src, dst, ListOf(st, OutCsr(t), src) + [Nbr(dst, writeTs, false, data)],
                ListOf(st, InCsr(t), dst) + [Nbr(src, writeTs, false, data)]);
      WriteThenWrite(mid, rowed, st, EdgeCols(t, |row|), {}, {}, Both(t, src, dst));
      assert EdgeCols(t, |row|) + {} == EdgeCols(t, |row|) && {} + Both(t, src, dst) == Both(t, src, dst);
      DetachThenWrite(old(st), mid, st, EdgeCols(t, |row|), Both(t, src, dst));
      if old(AllMirrored(st, writeTs)) { AddMirrors(old(st), st, t, src, dst, EdgeCols(t, |row|), data, writeTs); }
      return true;
    }

    // ---- all edges between two vertices --------------------------------------------------------------

    /** The deletions of DeleteEdgesImpl, one pair of offsets after the other; an offset that was not found throws. */
    method KillPairs(t: Trip, src: Vid, dst: Vid, offs: seq<int>, ins: seq<int>) returns (ok: bool)
      requires Valid() && ReadyFor(Incident(t, src, dst)) && |offs| == |ins|
      modifies this`st
      ensures Valid() && Grows(old(st), st) && ViewExcept(old(st), st, {}, Both(t, src, dst))
      ensures ok == (-1 !in ins) && SameProps(old(ListOf(st, OutCsr(t), src)), ListOf(st, OutCsr(t), src))
      ensures ok ==> ListOf(st, OutCsr(t), src) == KillAll(old(ListOf(st, OutCsr(t), src)), offs, writeTs)
      ensures ok ==> ListOf(st, InCsr(t), dst) == KillAll(old(ListOf(st, InCsr(t), dst)), ins, writeTs)
    {
      hide Inv, CellsOf, ListOf, KillAll;
      NothingWritten(st, {}, Both(t, src, dst));
      KillNothing(ListOf(st, OutCsr(t), src), writeTs);
      KillNothing(ListOf(st, InCsr(t), dst), writeTs);
      for i := 0 to |offs|
        invariant Valid() && Grows(old(st), st) && ViewExcept(old(st), st, {}, Both(t, src, dst)) && -1 !in ins[..i]
        invariant ListOf(st, OutCsr(t), src) == KillAll(old(ListOf(st, OutCsr(t), src)), offs[..i], writeTs)
        invariant ListOf(st, InCsr(t), dst) == KillAll(old(ListOf(st, InCsr(t), dst)), ins[..i], writeTs)
      {
        ghost var mid := st;
        KillSnoc(old(ListOf(st, OutCsr(t), src)), offs[..i], offs[i], writeTs);
        KillSnoc(old(ListOf(st, InCsr(t), dst)), ins[..i], ins[i], writeTs);
        assert offs[..i + 1] == offs[..i] + [offs[i]] && ins[..i + 1] == ins[..i] + [ins[i]];
        WriteEdge(t, src, dst, Kill(ListOf(st, OutCsr(t), src), offs[i], writeTs),
                  Kill(ListOf(st, InCsr(t), dst), ins[i], writeTs));
        WriteThenWrite(old(st), mid, st, {}, Both(t, src, dst), {}, Both(t, src, dst));
        assert Both(t, src, dst) + Both(t, src, dst) == Both(t, src, dst);
        if ins[i] == -1 {
          assert ins[i] in ins;
          KillAllProps(old(ListOf(st, OutCsr(t), src)), offs[..i + 1], writeTs);
          return false;
        }
      }
      KillAllProps(old(ListOf(st, OutCsr(t), src)), offs, writeTs);
      assert offs[..|offs|] == offs && ins[..|offs|] == ins;
      return true;
    }

    /**
      DeleteEdgesImpl: the offsets of all visible edges are collected, then deleted. If every
      edge is stored in both lists, no invisible entry stands before one of these edges and no
      two of them look alike, exactly these are deleted, and every edge left is in both lists.
     */
    method DeleteEdges(t: Trip, src: Vid, dst: Vid) returns (ok: bool)
      requires Valid()
      modifies this`st
      ensures Valid() && ViewExcept(old(st), st, {}, Both(t, src, dst))
      ensures ok ==> t in sc.trips && old(Live(st, t.src, src, readTs)) && old(Live(st, t.dst, dst, readTs))
      ensures SameProps(old(ListOf(st, OutCsr(t), src)), ListOf(st, OutCsr(t), src))
      ensures old(Ends(st, sc, t, src, dst, readTs)) ==> (
        var out, in_ := old(ListOf(st, OutCsr(t), src)), old(ListOf(st, InCsr(t), dst));
        var offs, ins := Offsets(out, dst, readTs, |out|), OtherOffsets(out, in_, src, dst, readTs, |out|);
        && ok == (-1 !in ins)
        && (ok ==> ListOf(st, OutCsr(t), src) == KillAll(out, offs, writeTs))
        && (ok ==> ListOf(st, InCsr(t), dst) == KillAll(in_, ins, writeTs)))
      ensures !old(Ends(st, sc, t, src, dst, readTs)) ==> !ok && SameView(old(st), st)
      ensures old(Ends(st, sc, t, src, dst, readTs)) && old(Deletable(st, t, src, dst, readTs, writeTs)) ==>
        ok && AllMirrored(st, writeTs)
        && !Sees(ListOf(st, OutCsr(t), src), dst, writeTs) && !Sees(ListOf(st, InCsr(t), dst), src, writeTs)
    {
      hide Inv, CellsOf, ListOf, SameView, Live, Offsets, OtherOffsets, KillAll, Deletable, AllMirrored, Sees;
      QuietlyStays(st);
      QuietExcept(st, st, {}, Both(t, src, dst));
      if !Ends(st, sc, t, src, dst, readTs) { return false; }
      var out, in_ := ListOf(st, OutCsr(t), src), ListOf(st, InCsr(t), dst);
      var offs, ins := MatchedOffsets(out, in_, src, dst, readTs);
      SameLength(out, in_, src, dst, readTs, |out|);
      DetachEdge(Incident(t, src, dst), old(st));
      ghost var mid := st;
      SameList(old(st), st, OutCsr(t), src);
      SameList(old(st), st, InCsr(t), dst);
      ok := KillPairs(t, src, dst, offs, ins);
      DetachThenWrite(old(st), mid, st, {}, Both(t, src, dst));
      if old(Deletable(st, t, src, dst, readTs, writeTs)) {
        DeletesAll(old(st), st, t, src, dst, readTs, writeTs);
      }
    }

    // ---- vertex deletion --------------------------------------------------------------------------------

    /** What prepareVertexDelete established still covers every edge that is left. */
    ghost predicate Covered(l: Label, v: Vid)
      reads this
    {
      forall x :: IncidentTo(st, sc, l, v, writeTs, x) ==> ReadyFor(x)
    }

    /** EdgeTable::DeleteVertex for one role of the vertex. */
    method KillRole(l: Label, t: Trip, v: Vid, isSrc: bool) returns (ok: bool)
      requires Valid() && t in sc.trips && RoleLabel(t, isSrc) == l && Covered(l, v)
      modifies this`st
      ensures Valid() && Covered(l, v) && Fewer(old(st), st, l, v) && Grows(old(st), st)
      ensures ok ==> NoneVisible(ListOf(st, RoleSlot(t, isSrc), v), writeTs)
      ensures forall s :: CellsOf(st, s) == old(CellsOf(st, s))
      ensures old(AllMirrored(st, writeTs)) ==> ok && AllMirrored(st, writeTs)
    {
      hide Inv, CellsOf, ListOf, IncidentTo, Fewer, Sees, InRole, AllMirrored;
      var own := RoleSlot(t, isSrc);
      ghost var n := |ListOf(st, own, v)|;
      var k := 0;
      FewerStays(st, l, v);
      while k < |ListOf(st, own, v)|
        invariant Valid() && Covered(l, v) && Fewer(old(st), st, l, v) && Grows(old(st), st)
        invariant 0 <= k <= |ListOf(st, own, v)| == n
        invariant NoneVisible(ListOf(st, own, v)[..k], writeTs)
        invariant forall s :: CellsOf(st, s) == old(CellsOf(st, s))
        invariant old(AllMirrored(st, writeTs)) ==> AllMirrored(st, writeTs)
        decreases n - k
      {
        var edges := ListOf(st, own, v);
        ghost var mid := st;
        if Visible(edges[k], writeTs) {
          EntryIsIncident(st, sc, l, t, v, isSrc, writeTs, k);
          ok := KillPair(l, t, v, edges[k].vid, k, isSrc);
          FewerIncident(mid, st, sc, l, v, writeTs);
          FewerTwice(old(st), mid, st, l, v);
          if !ok { return; }
        }
        KillPrefix(edges, ListOf(st, own, v), k, writeTs);
        k := k + 1;
      }
      assert ListOf(st, own, v)[..n] == ListOf(st, own, v);
      return true;
    }

    /**
      DeleteEdge on an entry of the vertex and the half found for it. If none is found, its
      offset throws: for an outgoing edge after the entry was marked, for an incoming one before.
     */
    method KillPair(l: Label, t: Trip, v: Vid, w: Vid, k: nat, isSrc: bool) returns (ok: bool)
      requires Valid() && ReadyFor(MakeIncident(t, v, w, isSrc)) && RoleLabel(t, isSrc) == l
      requires Matches(ListOf(st, RoleSlot(t, isSrc), v), w, writeTs, k)
      modifies this`st
      ensures Valid() && Grows(old(st), st) && Fewer(old(st), st, l, v)
      ensures ok ==> ListOf(st, RoleSlot(t, isSrc), v) == Kill(old(ListOf(st, RoleSlot(t, isSrc), v)), k, writeTs)
      ensures forall s :: CellsOf(st, s) == old(CellsOf(st, s))
      ensures old(AllMirrored(st, writeTs)) ==> ok && AllMirrored(st, writeTs)
    {
      hide Inv, CellsOf, ListOf, Fewer, AllMirrored;
      FewerStays(st, l, v);
      var own, other := ListOf(st, RoleSlot(t, isSrc), v), ListOf(st, RoleSlot(t, !isSrc), w);
      var m := FindHalf(other, v, KeyOf(own[k]), writeTs);
      if AllMirrored(st, writeTs) { OtherHalf(st, t, v, w, k, isSrc, writeTs); }
      ok := m != -1;
      if isSrc {
        WriteEdge(t, v, w, Kill(own, k, writeTs), Kill(other, m, writeTs));
        KillIsFewer(old(st), st, t, v, w, k, m, l, v, writeTs);
        if old(AllMirrored(st, writeTs)) { KillMirrors(old(st), st, t, v, w, k, m, writeTs); }
      } else if ok {
        WriteEdge(t, w, v, Kill(other, m, writeTs), Kill(own, k, writeTs));
        KillIsFewer(old(st), st, t, w, v, m, k, l, v, writeTs);
        if old(AllMirrored(st, writeTs)) { KillMirrors(old(st), st, t, w, v, m, k, writeTs); }
      }
    }

    /** PropertyGraph::DeleteVertex on the edges: every triple the label takes part in, in both roles. */
    method KillEdges(l: Label, v: Vid) returns (ok: bool)
      requires Valid() && l in sc.live && Covered(l, v)
      modifies this`st
      ensures Valid() && Fewer(old(st), st, l, v) && Grows(old(st), st)
      ensures ok ==> forall t :: t in sc.trips && Touches(l, t) ==> Bare(st, l, t, v, writeTs)
      ensures forall s :: CellsOf(st, s) == old(CellsOf(st, s))
      ensures old(AllMirrored(st, writeTs)) ==> ok && AllMirrored(st, writeTs)
    {
      hide Inv, CellsOf, ListOf, IncidentTo, Fewer, Bare, AllMirrored;
      FewerStays(st, l, v);
      for other := 0 to sc.labels
        invariant Valid() && Covered(l, v) && Fewer(old(st), st, l, v) && Grows(old(st), st)
        invariant forall t :: t in sc.trips && Touches(l, t) && Other(l, t) < other ==> Bare(st, l, t, v, writeTs)
        invariant forall s :: CellsOf(st, s) == old(CellsOf(st, s))
        invariant old(AllMirrored(st, writeTs)) ==> AllMirrored(st, writeTs)
      {
        for e := 0 to sc.edgeLabels
          invariant Valid() && Covered(l, v) && Fewer(old(st), st, l, v) && Grows(old(st), st)
          invariant forall t :: t in sc.trips && Touches(l, t) && Other(l, t) < other ==> Bare(st, l, t, v, writeTs)
          invariant forall t :: t in sc.trips && Touches(l, t) && Other(l, t) == other && t.e < e ==>
            Bare(st, l, t, v, writeTs)
          invariant forall s :: CellsOf(st, s) == old(CellsOf(st, s))
          invariant old(AllMirrored(st, writeTs)) ==> AllMirrored(st, writeTs)
        {
          ghost var mid := st;
          ok := KillRoles(l, other, e, v);
          FewerTwice(old(st), mid, st, l, v);
          if !ok { return; }
          forall t | Bare(mid, l, t, v, writeTs) ensures Bare(st, l, t, v, writeTs) { BareStays(mid, st, l, t, v, writeTs); }
          OtherIs(l, other, e);
        }
      }
      return true;
    }

    /** Both triples between two labels with one edge label. */
    method KillRoles(l: Label, other: Label, e: Label, v: Vid) returns (ok: bool)
      requires Valid() && Covered(l, v)
      modifies this`st
      ensures Valid() && Covered(l, v) && Fewer(old(st), st, l, v) && Grows(old(st), st)
      ensures forall s :: CellsOf(st, s) == old(CellsOf(st, s))
      ensures ok && Trip(other, l, e) in sc.trips ==> Bare(st, l, Trip(other, l, e), v, writeTs)
      ensures ok && Trip(l, other, e) in sc.trips ==> Bare(st, l, Trip(l, other, e), v, writeTs)
      ensures old(AllMirrored(st, writeTs)) ==> ok && AllMirrored(st, writeTs)
    {
      hide Inv, CellsOf, ListOf, IncidentTo, Fewer, AllMirrored, NoneVisible;
      FewerStays(st, l, v);
      if Trip(other, l, e) in sc.trips {
        ok := KillRole(l, Trip(other, l, e), v, false);
        if !ok { return; }
      }
      ghost var half := st;
      FewerStays(st, l, v);
      if Trip(l, other, e) in sc.trips {
        ok := KillRole(l, Trip(l, other, e), v, true);
        FewerTwice(old(st), half, st, l, v);
        if !ok { return; }
      }
      if Trip(other, l, e) in sc.trips {
        FewerAt(half, st, l, v, InCsr(Trip(other, l, e)), v);
        NoneVisibleStays(ListOf(half, InCsr(Trip(other, l, e)), v), ListOf(st, InCsr(Trip(other, l, e)), v), writeTs);
      }
      return true;
    }

    /**
      DeleteVertexImpl. The vertex is stamped out, no entry of its own lists stays visible, and
      only entries of edges at the vertex are marked. If every edge is stored in both lists,
      the deletion goes through, no list of another vertex still names it, and every edge that
      is left is stored in both lists.
     */
    method DeleteVertex(l: Label, v: Vid) returns (ok: bool)
      requires Valid() && l in sc.live
      modifies this`st
      ensures Valid() && Fewer(old(st), st, l, v)
      ensures !old(Live(st, l, v, writeTs)) ==> ok && SameView(old(st), st)
      ensures ok && old(Live(st, l, v, writeTs)) ==>
        forall t :: t in sc.trips && Touches(l, t) ==> Bare(st, l, t, v, writeTs)
      ensures CellsOf(st, Stamps(l)) ==
        if ok && old(Live(st, l, v, writeTs)) then old(CellsOf(st, Stamps(l)))[v := -1] else old(CellsOf(st, Stamps(l)))
      ensures forall s :: s != Stamps(l) ==> CellsOf(st, s) == old(CellsOf(st, s))
      ensures ok ==> !Live(st, l, v, writeTs)
      ensures old(AllMirrored(st, writeTs)) ==> ok && AllMirrored(st, writeTs)
      ensures old(AllMirrored(st, writeTs)) && old(Live(st, l, v, writeTs)) ==>
        forall t :: t in sc.trips && Touches(l, t) ==> Gone(st, l, t, v, writeTs)
    {
      hide Inv, CellsOf, ListOf, IncidentTo, SameView, Fewer, Bare, AllMirrored, Gone;
      QuietlyStays(st);
      QuietIsFewer(st, st, l, v);
      if !Live(st, l, v, readTs) { return true; }
      PrepareVertexDelete(l, v);
      ghost var mid := st;
      CoveredLater(st, sc, l, v, writeTs, readTs);
      forall s ensures CellsOf(mid, s) == CellsOf(old(st), s) { SameCells(old(st), mid, s); }
      QuietIsFewer(old(st), mid, l, v);
      if old(AllMirrored(st, writeTs)) { QuietMirrors(old(st), mid, writeTs); }
      if !Live(st, l, v, writeTs) { return true; }
      ok := KillEdges(l, v);
      FewerTwice(old(st), mid, st, l, v);
      if !ok { return; }
      ghost var killed := st;
      WriteSlot(Stamps(l), CellsOf(st, Stamps(l))[v := -1]);
      WriteIsFewer(killed, st, {Stamps(l)}, l, v);
      FewerTwice(old(st), killed, st, l, v);
      if old(AllMirrored(st, writeTs)) { CellsMirror(killed, st, {Stamps(l)}, writeTs); }
      forall t | t in sc.trips && Touches(l, t) ensures Bare(st, l, t, v, writeTs) {
        BareStays(killed, st, l, t, v, writeTs);
      }
      if old(AllMirrored(st, writeTs)) {
        forall t | t in sc.trips && Touches(l, t) ensures Gone(st, l, t, v, writeTs) { BareIsGone(st, l, t, v, writeTs); }
      }
    }

    // ---- schema operations --------------------------------------------------------------------------------

    /** A new part with a fresh block, whose flag is set. */
    method Allocate(s: Slot, b: Block, ghost st0: St)
      requires Inv(st, base) && s !in st.refs && FreshBlock(s, b) && (b.Cells? ==> b.data == []) && SameReads(st0, st)
      modifies this`st
      ensures Inv(st, base) && st.refs.Keys == old(st).refs.Keys + {s} && SameReads(st0, st)
    {
      hide Inv, ListOf, CellsOf;
      AllocatedInv(st, s, b, base);
      AbsentReads(st, s);
      st := Allocated(st, s, b);
    }

    /** applyCreateVertexType: an empty table under a free label. */
    method CreateVertexType(l: Label, ps: seq<Prop>) returns (ok: bool)
      requires Valid()
      modifies this`st, this`sc
      ensures SameReads(old(st), st) && ok == (l !in old(sc.live))
      ensures if ok then sc == WithVertexType(old(sc), l, ps) && (Valid() <==> Distinct(ps)) else sc == old(sc) && Valid()
    {
      hide Inv, ListOf, CellsOf, SameReads, InSchema, VertexSlots;
      ReadsStay(st);
      if l in sc.live { return false; }
      NoVertexSlots(st, sc, l);
      Allocate(Indexer(l), Cells([]), old(st));
      Allocate(Stamps(l), Cells([]), old(st));
      VertexSlotsStart(l);
      for c := 0 to |ps|
        invariant sc == old(sc) && Inv(st, base) && SameReads(old(st), st) && st.refs.Keys == old(st).refs.Keys + VertexSlots(l, c)
      {
        VertexSlotsStep(l, c);
        Allocate(VCol(l, c), Cells([]), old(st));
      }
      VertexTypeComplete(old(st), st, sc, l, ps);
      sc := WithVertexType(sc, l, ps);
      return true;
    }

    /** applyCreateEdgeType: empty lists in both directions. */
    method CreateEdgeType(t: Trip, ps: seq<Prop>, temp: bool) returns (ok: bool)
      requires Valid()
      modifies this`st, this`sc
      ensures SameReads(old(st), st)
      ensures ok == (t !in old(sc.trips) && t.src in old(sc.live) && t.dst in old(sc.live))
      ensures if ok then sc == WithEdgeType(old(sc), t, ps, temp) && (Valid() <==> Distinct(ps)) else sc == old(sc) && Valid()
      ensures ok ==> forall u :: u in sc.temp <==> if u == t then temp else u in old(sc.temp)
    {
      hide Inv, ListOf, CellsOf, SameReads, InSchema, EdgeSlots, Distinct;
      ReadsStay(st);
      if t in sc.trips || t.src !in sc.live || t.dst !in sc.live { return false; }
      NoEdgeSlots(st, sc, t);
      Allocate(OutCsr(t), Dir(map[]), old(st));
      Allocate(InCsr(t), Dir(map[]), old(st));
      EdgeSlotsStart(t);
      var cols := WithEdgeType(sc, t, ps, temp).ECols(t);
      for c := 0 to cols
        invariant sc == old(sc) && Inv(st, base) && SameReads(old(st), st) && st.refs.Keys == old(st).refs.Keys + EdgeSlots(t, c)
      {
        EdgeSlotsStep(t, c);
        Allocate(ECol(t, c), Cells([]), old(st));
      }
      EdgeTypeComplete(old(st), st, sc, t, ps, temp);
      sc := WithEdgeType(sc, t, ps, temp);
      return true;
    }

    /** Keeps some parts, under their new names. */
    method Keep(keep: map<Slot, Slot>)
      requires Inv(st, base) && CanKeep(st, keep)
      modifies this`st
      ensures Inv(st, base) && st.refs.Keys == keep.Keys && KeptReads(old(st), st, keep)
    {
      hide Inv, ListOf, CellsOf;
      KeptInv(st, keep, base);
      st := Kept(st, keep);
    }

    /** DeleteVertexTypeImpl: the table of the label and every edge table that touches it. */
    method DeleteVertexType(l: Label)
      requires Valid() && l in sc.live
      modifies this`st, this`sc
      ensures Valid() && sc == WithoutLabel(old(sc), l) && Forgets(old(st), st, (s: Slot) => OfLabel(s, l))
    {
      hide Inv, ListOf, CellsOf, InSchema, KeptReads, Forgets;
      var keep := map s | s in st.refs && !OfLabel(s, l) :: s;
      Keep(keep);
      LabelGone(old(st), st, sc, l, keep);
      sc := WithoutLabel(sc, l);
    }

    /** DeleteEdgeTypeImpl. */
    method DeleteEdgeType(t: Trip)
      requires Valid()
      modifies this`st, this`sc
      ensures Valid() && sc == WithoutTrip(old(sc), t) && Forgets(old(st), st, (s: Slot) => OfTrip(s, t))
    {
      hide Inv, ListOf, CellsOf, InSchema, KeptReads, Forgets;
      var keep := map s | s in st.refs && !OfTrip(s, t) :: s;
      Keep(keep);
      TripGone(old(st), st, sc, t, keep);
      sc := WithoutTrip(sc, t);
    }

    // ---- lists of properties -------------------------------------------------------------------------------

    /** add_columns: private columns with a default value in every row. */
    method AppendColumns(tb: Table, k: nat, values: seq<int>, rows: nat)
      requires Inv(st, base) && FreeFrom(st, tb, k)
      modifies this`st
      ensures Inv(st, base) && NewColumns(old(st), st, tb, k, values, rows)
    {
      hide Inv, NewColumns, Column;
      NoNewColumns(st, tb, k, rows);
      assert values[..0] == [];
      for i := 0 to |values|
        invariant Inv(st, base) && NewColumns(old(st), st, tb, k, values[..i], rows)
      {
        OneMoreColumn(old(st), st, tb, k, values, i, rows, base);
        st := Allocated(st, Column(tb, k + i), Cells(Fill(rows, values[i])));
      }
      assert values[..|values|] == values;
    }

    /**
      AddVertexPropertiesImpl. A name that exists is refused; a name that the list repeats is
      not, and then two columns have one name.
     */
    method AddVertexProperties(l: Label, ps: seq<Prop>) returns (ok: bool)
      requires Valid() && l in sc.live
      modifies this`st, this`sc
      ensures ok == NoneNamed(old(sc.vprops(l)), ps) && (!ok ==> st == old(st) && sc == old(sc))
      ensures ok ==> sc == WithProps(old(sc), l, old(sc.vprops(l)) + ps)
      ensures ok ==>
        NewColumns(old(st), st, VTable(l), old(sc.VCols(l)), Defaults(ps), |old(CellsOf(st, Indexer(l)))|)
      ensures ok ==> (Valid() <==> Distinct(ps))
    {
      hide Inv, ListOf, CellsOf, NewColumns, Complete;
      if !NoneNamed(sc.vprops(l), ps) { return false; }
      FreeColumns(st, sc, VTable(l));
      AppendColumns(VTable(l), sc.VCols(l), Defaults(ps), |CellsOf(st, Indexer(l))|);
      NewColumnsComplete(old(st), st, sc, l, ps, Defaults(ps), |old(CellsOf(st, Indexer(l)))|);
      DistinctTogether(sc.vprops(l), ps);
      sc := WithProps(sc, l, sc.vprops(l) + ps);
      return true;
    }

    /**
      DeleteVertexPropertiesImpl: the columns are dropped by name, the flags by the numbers
      that the names had before, largest first.
     */
    method DeleteVertexProperties(l: Label, list: seq<Name>) returns (ok: bool)
      requires Valid() && l in sc.live
      modifies this`st, this`sc
      ensures var names := Names(old(sc.vprops(l))); var o := Order(names, P.SetOf(list));
        && ok == (forall n :: n in list ==> n in names) && (!ok ==> st == old(st) && sc == old(sc))
        && (ok ==> sc == WithProps(old(sc), l, Remaining(old(sc.vprops(l)), list)))
        && (ok ==> KeptReads(old(st), st, KeepCols(old(st), VTable(l), o)))
        && (ok ==> st.own == OwnAfter(old(st.own), VTable(l), |o|, ErasedFlags(old(st), VTable(l), names, list)))
        && (ok && Harmless(names, list) ==> Valid())
        && (ok && !Harmless(names, list) ==>
              && o != [] && VCol(l, o[|o| - 1]) in old(st.refs)
              && (old(st.refs)[VCol(l, o[|o| - 1])] in base ==> !Valid()))
      ensures ok ==> ColumnsKept(old(st), old(sc), st, sc, l) && ElseSame(old(st), st, l)
    {
      hide Inv, Complete, KeptReads, KeepCols, Harmless, Order, SchemaOk, Remaining, ColumnsKept, ElseSame, Distinct;
      hide OwnAfter, Names, P.SetOf, ListOf, CellsOf, FlagVec, Index, P.Ids, P.EraseAll, P.SortDown, Column;
      var names := Names(sc.vprops(l));
      if exists n :: n in list && n !in names { return false; }
      var ids := P.CollectIds(Index(names), list);
      var flags := P.EraseFlags(FlagVec(st, VTable(l), |names|), P.SortDown(ids));
      VertexDrop(st, sc, l, list, base);
      st := DropCols(st, VTable(l), Order(names, P.SetOf(list)), flags);
      SchemaAt(sc, l);
      VertexColumnsDeleted(old(st), sc, st, l, list);
      sc := WithProps(sc, l, Remaining(sc.vprops(l), list));
      return true;
    }

    /** RenameVertexPropertiesImpl: no block and no flag changes. */
    method RenameVertexProperties(l: Label, pairs: seq<(Name, Name)>) returns (ok: bool)
      requires Valid() && l in sc.live
      modifies this`sc
      ensures ok == (forall x :: x in pairs ==> x.0 in Names(old(sc.vprops(l)))) && (!ok ==> sc == old(sc))
      ensures ok ==> sc == WithProps(old(sc), l, RenamedProps(old(sc.vprops(l)), pairs))
      ensures ok ==> RenamesTo(old(sc.vprops(l)), pairs, sc.vprops(l))
      ensures ok ==> (Valid() <==> Distinct(RenamedProps(old(sc.vprops(l)), pairs)))
    {
      hide Inv, Distinct;
      if exists x :: x in pairs && x.0 !in Names(sc.vprops(l)) { return false; }
      var ps := RenamedProps(sc.vprops(l), pairs);
      sc := WithProps(sc, l, ps);
      assert sc.vprops(l) == ps;
      RenamesToIff(old(sc.vprops(l)), pairs, ps);
      return true;
    }

    /**
      RenameEdgePropertiesImpl. A name that is not there is refused. A name that an earlier
      pair has renamed away throws, with the pairs before it applied.
     */
    method RenameEdgeProperties(t: Trip, pairs: seq<(Name, Name)>) returns (ok: bool)
      requires Valid() && t in sc.trips
      modifies this`sc
      ensures var ps := old(sc.eprops(t)); var n := Applied(ps, pairs);
        if forall x :: x in pairs ==> x.0 in Names(ps) then
          && StopsAt(ps, pairs, n) && ok == (n == |pairs|) && sc == WithEdgeProps(old(sc), t, RenamedProps(ps, pairs[..n]))
          && RenamesTo(ps, pairs[..n], sc.eprops(t)) && (Valid() <==> Distinct(RenamedProps(ps, pairs[..n])))
        else !ok && sc == old(sc)
    {
      hide Inv, Distinct, StopsAt, RenamesTo, RenamedProps, Applied;
      var ps := sc.eprops(t);
      if exists x :: x in pairs && x.0 !in Names(ps) { return false; }
      var n := Applied(ps, pairs);
      AppliedIs(ps, pairs);
      var r := RenamedProps(ps, pairs[..n]);
      sc := WithEdgeProps(sc, t, r);
      KeepsLayout(old(sc), t, r);
      RenamesToIff(ps, pairs[..n], r);
      return n == |pairs|;
    }

    // ---- rebuilt edge types ---------------------------------------------------------------------------------

    /** vertex_capacity: a number above every vertex that has a list. */
    method Capacity(s: Slot) returns (n: nat)
      ensures forall v :: v in Lists(st, s) ==> v < n
    {
      n := 0;
      var todo := Lists(st, s).Keys;
      while todo != {}
        invariant forall v :: v in Lists(st, s) && v !in todo ==> v < n
        decreases todo
      {
        var v :| v in todo;
        todo := todo - {v};
        if n <= v { n := v + 1; }
      }
    }

    /** batch_export of the outgoing lists. */
    method Export(t: Trip, n: nat) returns (es: seq<Edge>)
      ensures es == Exported(st, OutCsr(t), n)
    {
      hide ListOf;
      es := [];
      for v := 0 to n
        invariant es == Exported(st, OutCsr(t), v)
      {
        var edges := ListOf(st, OutCsr(t), v);
        ghost var es0 := es;
        for i := 0 to |edges|
          invariant es == es0 + Alive(edges[..i], v)
        {
          assert edges[..i + 1] == edges[..i] + [edges[i]];
          AliveSnoc(edges[..i], edges[i], v);
          if !edges[i].dead { es := es + [Edge(v, edges[i].vid, edges[i].prop)]; }
        }
        assert edges[..|edges|] == edges;
      }
    }

    /** A fresh CSR, and batch_put_edges into it; its flags are set as given. */
    method BuildCsr(s: Slot, es: seq<Edge>, out: bool, own: bool, adj: set<(Slot, Vid)>)
      requires Inv(st, base) && s !in st.refs && IsCsr(s)
      requires (forall x :: x in adj ==> x.0 == s) && (adj != {} ==> own)
      modifies this`st
      ensures Inv(st, base) && st.refs.Keys == old(st).refs.Keys + {s}
      ensures forall v: Vid :: ListOf(st, s, v) == Entries(es, v, out)
      ensures forall a: Slot, v: Vid :: a != s ==> ListOf(st, a, v) == old(ListOf(st, a, v))
      ensures forall a: Slot :: a != s ==> CellsOf(st, a) == old(CellsOf(st, a))
      ensures FlagsExcept(old(st), st, s) && (s in st.own <==> own) && forall v: Vid :: (s, v) in st.ownAdj <==> (s, v) in adj
    {
      hide Inv, ListOf, CellsOf, Entries, Home, Entry, Private, Putting;
      StartsPutting(st, s, es, out, base);
      st := Allocated(st, s, Dir(map[]));
      for i := 0 to |es|
        invariant Putting(old(st), st, s, es[..i], out, base)
      {
        PutsOneMore(old(st), st, s, es, i, out, base);
        st := Appended(st, s, Home(es[i], out), Entry(es[i], out));
      }
      assert es[..|es|] == es;
      StopsPutting(old(st), st, s, es, out, own, adj, base);
      st := Reflagged(st, s, own, adj);
    }

    /** A new property table with these columns. */
    method BuildTable(t: Trip, cols: seq<seq<int>>)
      requires Inv(st, base) && forall c: nat :: ECol(t, c) !in st.refs
      modifies this`st
      ensures Inv(st, base) && st.refs.Keys == old(st).refs.Keys + EdgeCols(t, |cols|) && OthersSame(old(st), st, t)
      ensures forall c: nat :: c < |cols| ==> CellsOf(st, ECol(t, c)) == cols[c]
    {
      hide Inv, ListOf, CellsOf;
      for i := 0 to |cols|
        invariant Inv(st, base) && st.refs.Keys == old(st).refs.Keys + EdgeCols(t, i) && OthersSame(old(st), st, t)
        invariant forall c: nat :: c < i ==> CellsOf(st, ECol(t, c)) == cols[c]
      {
        AllocatedInv(st, ECol(t, i), Cells(cols[i]), base);
        assert EdgeCols(t, i) + {ECol(t, i)} == EdgeCols(t, i + 1);
        st := Allocated(st, ECol(t, i), Cells(cols[i]));
      }
    }

    /** Both directions. */
    method BuildLists(t: Trip, es: seq<Edge>, own: set<Slot>, adj: set<(Slot, Vid)>)
      requires Inv(st, base) && OutCsr(t) !in st.refs && InCsr(t) !in st.refs && forall x: (Slot, Vid) :: x in adj ==> x.0 in own
      modifies this`st
      ensures Inv(st, base) && st.refs.Keys == old(st).refs.Keys + {OutCsr(t)} + {InCsr(t)} && ListsBuilt(old(st), st, t, es)
      ensures FlagsOf(st, OutCsr(t), own, adj) && FlagsOf(st, InCsr(t), own, adj)
    {
      hide Inv, ListOf, CellsOf, Entries;
      BuildCsr(OutCsr(t), es, true, OutCsr(t) in own, set x | x in adj && x.0 == OutCsr(t));
      BuildCsr(InCsr(t), es, false, InCsr(t) in own, set x | x in adj && x.0 == InCsr(t));
    }

    /**
      dropAndCreateNewBundledCSR and dropAndCreateNewUnbundledCSR: the edge table is replaced.
      Deleting a property marks the new lists as detached and forgets about single lists;
      adding one leaves these flags as they were.
     */
    method Rebuild(t: Trip, es: seq<Edge>, cols: seq<seq<int>>, ps: seq<Prop>, adds: bool)
      requires Valid() && t in sc.trips && Distinct(ps) && |cols| == WithEdgeProps(sc, t, ps).ECols(t)
      modifies this`st, this`sc
      ensures Valid() && sc == WithEdgeProps(old(sc), t, ps) && RebuiltAs(old(st), st, t, es, cols)
      ensures if adds then FlagsOf(st, OutCsr(t), old(st.own), old(st.ownAdj)) && FlagsOf(st, InCsr(t), old(st.own), old(st.ownAdj))
              else FlagsOf(st, OutCsr(t), {OutCsr(t)}, {}) && FlagsOf(st, InCsr(t), {InCsr(t)}, {})
    {
      hide Inv, ListOf, CellsOf, Entries, KeptReads, Complete, OthersSame, ListsBuilt, FlagsOf, EdgeCols, RebuiltAs;
      hide SchemaOk, Distinct;
      AdjIsOwned(st, base);
      var own, adj := if adds then st.own else {OutCsr(t), InCsr(t)}, if adds then st.ownAdj else {};
      var keep := map s | s in st.refs && !OfTrip(s, t) :: s;
      Keep(keep);
      KeptOthers(old(st), st, t, keep);
      ghost var kept := st;
      BuildTable(t, cols);
      ghost var tabled := st;
      NotColumns(t, |cols|);
      BuildLists(t, es, own, adj);
      RebuiltParts(old(st), kept, tabled, st, t, es, cols);
      SameFlags(st, t);
      TableComplete(old(st), st, sc, t, ps);
      sc := WithEdgeProps(sc, t, ps);
    }

    /** The edges that are not deleted, and a bound on the vertices that have some. */
    method ExportAll(t: Trip) returns (es: seq<Edge>, ghost n: nat)
      ensures es == Exported(st, OutCsr(t), n) && forall v: Vid :: v >= n ==> ListOf(st, OutCsr(t), v) == []
    {
      var cap := Capacity(OutCsr(t));
      es := Export(t, cap);
      n := cap;
    }

    /**
      Properties are added to a bundled edge type, which gets a property table: the bundled
      property, if any, becomes the first column, the new ones the others.
     */
    method Unbundle(t: Trip, ps: seq<Prop>)
      requires Valid() && t in sc.trips && sc.Bundled(t) && Distinct(sc.eprops(t) + ps)
      requires !WithEdgeProps(sc, t, sc.eprops(t) + ps).Bundled(t)
      modifies this`st, this`sc
      ensures Valid() && sc == WithEdgeProps(old(sc), t, old(sc.eprops(t)) + ps) && OthersSame(old(st), st, t)
      ensures old(sc.eprops(t)) != [] ==>
        forall v: Vid :: EdgesFrom(st, t, v, InColumn(CellsOf(st, ECol(t, 0)))) == old(EdgesFrom(st, t, v, Inline))
      ensures forall i: nat, v: Vid :: i < |ps| ==>
        EdgesFrom(st, t, v, InColumn(CellsOf(st, ECol(t, old(|sc.eprops(t)|) + i))))
        == old(EdgesFrom(st, t, v, Always(ps[i].value)))
      ensures Mirrored(st, t, writeTs) && (old(AllMirrored(st, writeTs)) ==> AllMirrored(st, writeTs))
      ensures old(RowsOk(st, sc)) ==> RowsOk(st, sc)
    {
      hide RowsOk, TableOk, Inv, ListOf, CellsOf, Complete, Exported, Read, EdgesFrom, AllMirrored, Mirrored;
      hide FlagsOf, Entries, Numbered, Fill, Props, Distinct;
      var es, n := ExportAll(t);
      var first := if sc.eprops(t) == [] then [] else [Props(es)];
      var cols := first + Fills(|es|, Defaults(ps));
      Rebuild(t, Numbered(es), cols, sc.eprops(t) + ps, true);
      RebuildMirrors(old(st), st, t, Numbered(es), cols, writeTs);
      if first != [] {
        NumberedReads(es, 0);
        RebuildKeeps(old(st), st, t, n, Inline, Numbered(es), cols, InColumn(cols[0]));
      }
      forall i: nat | i < |ps|
        ensures forall v: Vid :: EdgesFrom(st, t, v, InColumn(CellsOf(st, ECol(t, |first| + i))))
                                 == old(EdgesFrom(st, t, v, Always(ps[i].value)))
      {
        NumberedReads(es, ps[i].value);
        assert cols[|first| + i] == Fill(|es|, ps[i].value);
        RebuildKeeps(old(st), st, t, n, Always(ps[i].value), Numbered(es), cols, InColumn(cols[|first| + i]));
      }
      NumberedTable(old(st), st, t, es, cols);
      if old(RowsOk(st, sc)) { OtherRows(old(st), st, old(sc), sc, t); }
    }

    /** Every edge gets the same bundled value: a first property is added, or the last ones are deleted. */
    method Refill(t: Trip, value: int, ps: seq<Prop>, adds: bool)
      requires Valid() && t in sc.trips && Distinct(ps) && WithEdgeProps(sc, t, ps).Bundled(t)
      modifies this`st, this`sc
      ensures Valid() && sc == WithEdgeProps(old(sc), t, ps) && OthersSame(old(st), st, t)
      ensures forall v: Vid :: EdgesFrom(st, t, v, Inline) == old(EdgesFrom(st, t, v, Always(value)))
      ensures Mirrored(st, t, writeTs) && (old(AllMirrored(st, writeTs)) ==> AllMirrored(st, writeTs))
      ensures old(RowsOk(st, sc)) ==> RowsOk(st, sc)
    {
      hide RowsOk, TableOk, Inv, ListOf, CellsOf, Complete, Exported, Read, EdgesFrom, AllMirrored, Mirrored;
      hide FlagsOf, Entries, Distinct;
      var es, n := ExportAll(t);
      var filled := Read(es, Always(value));
      Rebuild(t, filled, [], ps, adds);
      ReadTwice(es, Always(value));
      RebuildMirrors(old(st), st, t, filled, [], writeTs);
      RebuildKeeps(old(st), st, t, n, Always(value), filled, [], Inline);
      if old(RowsOk(st, sc)) { OtherRows(old(st), st, old(sc), sc, t); }
    }

    /**
      The one column that is left becomes a bundled property. An entry that names no row of it
      fails a fatal check.
     */
    method Bundle(t: Trip, c: nat, ps: seq<Prop>) returns (ok: bool)
      requires Valid() && t in sc.trips && c < sc.ECols(t) && Distinct(ps) && WithEdgeProps(sc, t, ps).Bundled(t)
      modifies this`st, this`sc
      ensures Valid() && ok == old(RowsIn(st, t, CellsOf(st, ECol(t, c)))) && (!ok ==> st == old(st) && sc == old(sc))
      ensures ok ==> sc == WithEdgeProps(old(sc), t, ps) && OthersSame(old(st), st, t) && Mirrored(st, t, writeTs)
      ensures ok ==> forall v: Vid :: EdgesFrom(st, t, v, Inline) == old(EdgesFrom(st, t, v, InColumn(CellsOf(st, ECol(t, c)))))
      ensures old(AllMirrored(st, writeTs)) ==> AllMirrored(st, writeTs)
      ensures old(RowsOk(st, sc)) ==> RowsOk(st, sc)
    {
      hide RowsOk, TableOk, Inv, ListOf, CellsOf, Complete, Exported, Read, EdgesFrom, AllMirrored, Mirrored;
      hide FlagsOf, Entries, RowsIn, Distinct;
      var es, n := ExportAll(t);
      var cells := CellsOf(st, ECol(t, c));
      RowsExported(st, t, n, cells);
      ok := forall e | e in es :: 0 <= e.prop < |cells|;
      if ok {
        var filled := Read(es, InColumn(cells));
        Rebuild(t, filled, [], ps, false);
        ReadTwice(es, InColumn(cells));
        RebuildMirrors(old(st), st, t, filled, [], writeTs);
        RebuildKeeps(old(st), st, t, n, InColumn(cells), filled, [], Inline);
        if old(RowsOk(st, sc)) { OtherRows(old(st), st, old(sc), sc, t); }
      }
    }

    // ---- lists of edge properties -----------------------------------------------------------------------------

    /**
      AddEdgePropertiesImpl. A name that exists is refused. A name that the list repeats throws
      when the names before it are in the schema already.
     */
    method AddEdgeProperties(t: Trip, ps: seq<Prop>) returns (ok: bool)
      requires Valid() && t in sc.trips
      modifies this`st, this`sc
      ensures ok == (NoneNamed(old(sc.eprops(t)), ps) && Distinct(ps)) && (!ok ==> st == old(st))
      ensures ok ==> sc == WithEdgeProps(old(sc), t, old(sc.eprops(t)) + ps)
      ensures !NoneNamed(old(sc.eprops(t)), ps) ==> sc == old(sc)
      ensures NoneNamed(old(sc.eprops(t)), ps) && !ok ==>
        exists n: nat :: n < |ps| && Distinct(ps[..n]) && sc == WithEdgeProps(old(sc), t, old(sc.eprops(t)) + ps[..n])
      ensures ok ==> KeepsEdges(old(st), st, t) && OldKept(old(st), old(sc), st, sc, t) && OthersSame(old(st), st, t)
      ensures ok && old(RowsOk(st, sc)) ==> NewRead(old(st), old(sc), st, sc, t, ps)
      ensures Distinct(ps) ==>
        Valid() && (old(AllMirrored(st, writeTs)) ==> AllMirrored(st, writeTs)) && (old(RowsOk(st, sc)) ==> RowsOk(st, sc))
    {
      hide RowsOk, Inv, CellsOf, ListOf, AllMirrored, Complete, Mirrored, EdgesFrom, OthersSame, NewColumns;
      hide KeepsEdges, OldKept, NewRead;
      if !NoneNamed(sc.eprops(t), ps) { return false; }
      var n := FirstRepeat(ps);
      if n < |ps| {
        sc := WithEdgeProps(sc, t, sc.eprops(t) + ps[..n]);
        return false;
      }
      DistinctTogether(sc.eprops(t), ps);
      if ps == [] {
        SameProperties(st, sc, t, sc.eprops(t) + ps);
        if RowsOk(st, sc) { RenamedRows(st, sc, t, sc.eprops(t) + ps); }
        NoneAdded(st, sc, t, sc.eprops(t) + ps);
        NothingElse(st, t);
        sc := WithEdgeProps(sc, t, sc.eprops(t) + ps);
      } else if !sc.Bundled(t) {
        AddEdgeColumns(t, ps);
        ColumnsAdded(old(st), old(sc), st, t, ps);
        if old(RowsOk(st, sc)) { TableAt(old(st), old(sc), t); }
      } else if WithEdgeProps(sc, t, sc.eprops(t) + ps).Bundled(t) {
        Refill(t, ps[0].value, sc.eprops(t) + ps, true);
        FilledIn(old(st), old(sc), st, t, ps);
      } else {
        Unbundle(t, ps);
        MovedOut(old(st), old(sc), st, t, ps);
      }
      return true;
    }

    /** New columns of a property table. */
    method AddEdgeColumns(t: Trip, ps: seq<Prop>)
      requires Valid() && t in sc.trips && !sc.Bundled(t) && Distinct(sc.eprops(t) + ps)
      modifies this`st, this`sc
      ensures Valid() && sc == WithEdgeProps(old(sc), t, old(sc.eprops(t)) + ps)
      ensures NewColumns(old(st), st, ETable(t), old(sc.ECols(t)), Defaults(ps), |old(CellsOf(st, ECol(t, 0)))|)
      ensures old(AllMirrored(st, writeTs)) ==> AllMirrored(st, writeTs)
      ensures old(RowsOk(st, sc)) ==> RowsOk(st, sc)
    {
      hide RowsOk, Inv, ListOf, CellsOf, NewColumns, Complete, AllMirrored, Distinct;
      FreeColumns(st, sc, ETable(t));
      var rows := |CellsOf(st, ECol(t, 0))|;
      AppendColumns(ETable(t), sc.ECols(t), Defaults(ps), rows);
      NewEdgeColumnsComplete(old(st), st, sc, t, ps, Defaults(ps), rows);
      NewColumnsMirror(old(st), st, ETable(t), sc.ECols(t), Defaults(ps), rows, writeTs);
      if old(RowsOk(st, sc)) { NewEdgeColumnRows(old(st), st, sc, t, ps, Defaults(ps)); }
      sc := WithEdgeProps(sc, t, sc.eprops(t) + ps);
    }

    /**
      DeleteEdgePropertiesImpl for a table that stays one. Whether it was rebuilt is read off
      the number of flags, so that a repeated name looks like a rebuilt table.
     */
    method DropEdgeColumns(t: Trip, list: seq<Name>)
      requires Valid() && t in sc.trips && !sc.Bundled(t) && forall n :: n in list ==> n in Names(sc.eprops(t))
      requires !WithEdgeProps(sc, t, Remaining(sc.eprops(t), list)).Bundled(t)
      modifies this`st, this`sc
      ensures sc == WithEdgeProps(old(sc), t, Remaining(old(sc.eprops(t)), list))
      ensures var o := Order(Names(old(sc.eprops(t))), P.SetOf(list));
        && KeptReads(old(st), st, KeepCols(old(st), ETable(t), o))
        && (P.Distinct(list) ==> Valid())
        && (!P.Distinct(list) ==> (Valid() <==> AllPrivate(old(st), t, o, base)))
      ensures KeepsEdges(old(st), st, t) && NamedKept(old(st), old(sc), st, sc, t) && OthersSame(old(st), st, t)
      ensures old(AllMirrored(st, writeTs)) ==> AllMirrored(st, writeTs)
      ensures old(RowsOk(st, sc)) ==> RowsOk(st, sc)
    {
      hide Inv, Complete, KeptReads, KeepCols, Order, RowsOk, AllMirrored, AllPrivate, SchemaOk, Remaining;
      hide KeepsEdges, NamedKept, OthersSame;
      var names := Names(sc.eprops(t));
      var o := Order(names, P.SetOf(list));
      var ids := P.CollectIds(Index(names), list);
      EdgeDrop(st, sc, t, list, base);
      SchemaAtTrip(sc, t);
      RepeatedResets(st, t, names, list);
      if P.Resets(false, false, |Remaining(sc.eprops(t), list)|, |names|, |ids|) {
        st := ResetFlags(DropCols(st, ETable(t), o, AllSet(|o|)), t);
      } else {
        var flags := P.EraseFlags(FlagVec(st, ETable(t), |names|), P.SortDown(ids));
        st := DropCols(st, ETable(t), o, flags);
      }
      KeptMirror(old(st), st, ETable(t), o, base, writeTs);
      TableColumns(old(st), sc, t);
      OtherPartsKept(old(st), st, t, o);
      ColumnsDeleted(old(st), sc, st, t, list);
      if old(RowsOk(st, sc)) { NoEdgeColumnRows(old(st), st, sc, t, Remaining(sc.eprops(t), list), o); }
      sc := WithEdgeProps(sc, t, Remaining(sc.eprops(t), list));
    }

    /** DeleteEdgePropertiesImpl. */
    method DeleteEdgeProperties(t: Trip, list: seq<Name>) returns (ok: bool)
      requires Valid() && t in sc.trips
      modifies this`st, this`sc
      ensures var ps := old(sc.eprops(t));
        && ok == ((forall n :: n in list ==> n in Names(ps))
                  && (Bundles(old(sc), t, list) ==> old(LastColumnFits(st, sc, t, list))))
        && (!ok ==> st == old(st) && sc == old(sc))
        && (ok ==> sc == WithEdgeProps(old(sc), t, Remaining(ps, list)))
      ensures ok ==> KeepsEdges(old(st), st, t) && NamedKept(old(st), old(sc), st, sc, t) && OthersSame(old(st), st, t)
      ensures ok && TidyEdge(old(sc), t, list) ==> Valid()
      ensures ok && !TidyEdge(old(sc), t, list) ==>
        (Valid() <==> AllPrivate(old(st), t, Order(Names(old(sc.eprops(t))), P.SetOf(list)), base))
      ensures old(AllMirrored(st, writeTs)) ==> AllMirrored(st, writeTs)
      ensures old(RowsOk(st, sc)) ==> RowsOk(st, sc) && ok == (forall n :: n in list ==> n in Names(old(sc.eprops(t))))
    {
      hide RowsOk, Inv, CellsOf, ListOf, AllMirrored, Complete, Mirrored, EdgesFrom, OthersSame, RowsIn, KeptReads;
      hide Order, AllPrivate, KeepsEdges, NamedKept;
      var ps := sc.eprops(t);
      if exists n :: n in list && n !in Names(ps) { return false; }
      RemainingIs(ps, list);
      var rem := Remaining(ps, list);
      if list == [] {
        NothingRemoved(ps);
        SameProperties(st, sc, t, rem);
        if RowsOk(st, sc) { RenamedRows(st, sc, t, rem); }
        NoneDeleted(st, sc, t, rem);
        NothingElse(st, t);
        sc := WithEdgeProps(sc, t, rem);
        return true;
      }
      if !WithEdgeProps(sc, t, rem).Bundled(t) {
        if sc.Bundled(t) { StaysBundled(sc, t, list); }
        DropEdgeColumns(t, list);
        return true;
      }
      if !Bundles(sc, t, list) {
        NothingLeft(sc, t, list);
        Refill(t, 0, rem, false);
        AllDeleted(old(st), old(sc), st, t);
        return true;
      }
      LastColumn(sc, t, list);
      if RowsOk(st, sc) { RowsFit(st, sc, t, Order(Names(ps), P.SetOf(list))[0]); }
      ghost var c := Order(Names(ps), P.SetOf(list))[0];
      ok := Bundle(t, Order(Names(ps), P.SetOf(list))[0], rem);
      if ok { OneLeft(old(st), old(sc), st, t, list, c); }
    }

    // ---- whole transactions ---------------------------------------------------------------------------------

    /** One operation of a transaction. */
    method Apply(op: Op) returns (ok: bool)
      requires Valid()
      modifies this`st, this`sc
      ensures Effect(old(st), old(sc), op, readTs, writeTs, ok, st, sc)
      ensures Orderly(old(sc), op) ==> Valid()
      ensures Orderly(old(sc), op) && old(AllMirrored(st, writeTs)) && old(NamesEdge(st, op, readTs, writeTs)) ==>
        AllMirrored(st, writeTs)
      ensures Orderly(old(sc), op) && old(RowsOk(st, sc)) ==> RowsOk(st, sc)
    {
      hide RowsOk, Inv, CellsOf, ListOf, Fewer, Bare, ViewExcept, AllMirrored, SameEdge, SameView, Gone, PutAt;
      hide Deletable, Complete, Tidy, VertexAdded, VertexDeleted, VertexSet, EdgeAdded, EdgesDeleted, EdgeDeleted, EdgeSet;
      hide Changed;
      ok := false;
      match op
      case OpAddVertex(l, oid, props, full) => if l in sc.live { ok := ApplyAddVertex(l, oid, props, full); }
      case OpDeleteVertex(l, v) => if l in sc.live { ok := ApplyDeleteVertex(l, v); }
      case OpSetVertex(l, v, c, x) => if l in sc.live { ok := ApplySetVertex(l, v, c, x); }
      case OpAddEdge(t, src, dst, p, row, full) => ok := ApplyAddEdge(t, src, dst, p, row, full);
      case OpDeleteEdges(t, src, dst) => ok := ApplyDeleteEdges(t, src, dst);
      case OpDeleteEdge(t, src, dst, i, j) => ok := ApplyDeleteEdge(t, src, dst, i, j);
      case OpSetEdge(t, src, dst, i, j, c, x) => ok := ApplySetEdge(t, src, dst, i, j, c, x);
      case OpSchema(change) => ok := ApplyChange(change);
    }

    /** One schema operation. */
    method ApplyChange(op: Change) returns (ok: bool)
      requires Valid()
      modifies this`st, this`sc
      ensures Changed(old(st), old(sc), op, ok, st, sc)
      ensures Tidy(old(sc), op) ==> Valid()
      ensures Tidy(old(sc), op) && old(AllMirrored(st, writeTs)) ==> AllMirrored(st, writeTs)
      ensures Tidy(old(sc), op) && old(RowsOk(st, sc)) ==> RowsOk(st, sc)
    {
      hide RowsOk, Inv, CellsOf, ListOf, AllMirrored, Complete, Forgets, SameReads, Harmless, Distinct, TidyEdge, Order;
      hide NewColumns, ColumnsKept, ElseSame, KeepsEdges, OldKept, NewRead, NamedKept, OthersSame, RenamesTo, LastColumnFits;
      hide Applied, RenamedProps;
      ReadsStay(st);
      ReadsMirror(st, st, writeTs);
      ok := false;
      match op {
        case NewVertexType(l, ps) => ok := ApplyVertexType(l, ps);
        case NewEdgeType(t, ps, temp) => ok := ApplyEdgeType(t, ps, temp);
        case NoVertexType(l) =>
          if l in sc.live {
            ok := true;
            DeleteVertexType(l);
            ForgetsMirror(old(st), st, s => OfLabel(s, l), writeTs);
            if old(RowsOk(st, sc)) { ForgetsRows(old(st), st, old(sc), sc, s => OfLabel(s, l)); }
          }
        case NoEdgeType(t) =>
          ok := true;
          DeleteEdgeType(t);
          ForgetsMirror(old(st), st, s => OfTrip(s, t), writeTs);
          if old(RowsOk(st, sc)) { ForgetsRows(old(st), st, old(sc), sc, s => OfTrip(s, t)); }
        case NewVertexProps(l, ps) => if l in sc.live { ok := ApplyVertexProps(l, ps); }
        case NoVertexProps(l, list) => if l in sc.live { ok := ApplyNoVertexProps(l, list); }
        case NewEdgeProps(t, ps) => if t in sc.trips { ok := AddEdgeProperties(t, ps); }
        case NoEdgeProps(t, list) => if t in sc.trips { ok := DeleteEdgeProperties(t, list); }
        case RenameVertexProps(l, pairs) =>
          if l in sc.live {
            ok := RenameVertexProperties(l, pairs);
            if ok { SamePropsAgain(old(sc), l, RenamedProps(old(sc.vprops(l)), pairs)); }
            if old(RowsOk(st, sc)) && ok { ReadsRows(st, st, old(sc), sc); }
          }
        case RenameEdgeProps(t, pairs) =>
          if t in sc.trips { ok := ApplyRenameEdge(t, pairs); }
      }
    }

    method ApplyRenameEdge(t: Trip, pairs: seq<(Name, Name)>) returns (ok: bool)
      requires Valid() && t in sc.trips
      modifies this`sc
      ensures Changed(old(st), old(sc), RenameEdgeProps(t, pairs), ok, st, sc)
      ensures Tidy(old(sc), RenameEdgeProps(t, pairs)) ==> Valid()
      ensures old(RowsOk(st, sc)) ==> RowsOk(st, sc)
    {
      hide RowsOk, Inv, CellsOf, ListOf, Complete, Distinct, RenamesTo, RenamedProps, Applied, StopsAt;
      ok := RenameEdgeProperties(t, pairs);
      ghost var r := RenamedProps(old(sc.eprops(t)), pairs[..Applied(old(sc.eprops(t)), pairs)]);
      SameEdgePropsAgain(old(sc), t, r);
      if old(RowsOk(st, sc)) && sc != old(sc) { RenamedRows(st, old(sc), t, r); }
    }

    method ApplyVertexType(l: Label, ps: seq<Prop>) returns (ok: bool)
      requires Valid()
      modifies this`st, this`sc
      ensures SameReads(old(st), st) && ok == (l !in old(sc.live))
      ensures sc == if ok then WithVertexType(old(sc), l, ps) else old(sc)
      ensures (Distinct(ps) ==> Valid()) && (old(AllMirrored(st, writeTs)) ==> AllMirrored(st, writeTs))
      ensures old(RowsOk(st, sc)) ==> RowsOk(st, sc)
    {
      hide RowsOk, Inv, CellsOf, ListOf, AllMirrored, Complete, SameReads, Distinct;
      ok := CreateVertexType(l, ps);
      ReadsMirror(old(st), st, writeTs);
      if old(RowsOk(st, sc)) { ReadsRows(old(st), st, old(sc), sc); }
    }

    method ApplyEdgeType(t: Trip, ps: seq<Prop>, temp: bool) returns (ok: bool)
      requires Valid()
      modifies this`st, this`sc
      ensures SameReads(old(st), st) && ok == (t !in old(sc.trips) && t.src in old(sc.live) && t.dst in old(sc.live))
      ensures sc == if ok then WithEdgeType(old(sc), t, ps, temp) else old(sc)
      ensures (Distinct(ps) ==> Valid()) && (old(AllMirrored(st, writeTs)) ==> AllMirrored(st, writeTs))
      ensures old(RowsOk(st, sc)) ==> RowsOk(st, sc)
    {
      hide RowsOk, Inv, CellsOf, ListOf, AllMirrored, SameReads, Distinct;
      ok := CreateEdgeType(t, ps, temp);
      ReadsMirror(old(st), st, writeTs);
      if old(RowsOk(st, sc)) && ok { NewTypeRows(old(st), st, old(sc), t, ps, temp); }
      if old(RowsOk(st, sc)) && !ok { ReadsRows(old(st), st, sc, sc); }
    }

    method ApplyVertexProps(l: Label, ps: seq<Prop>) returns (ok: bool)
      requires Valid() && l in sc.live
      modifies this`st, this`sc
      ensures ok == NoneNamed(old(sc.vprops(l)), ps) && (!ok ==> st == old(st) && sc == old(sc))
      ensures ok ==> sc == WithProps(old(sc), l, old(sc.vprops(l)) + ps)
      ensures ok ==>
        NewColumns(old(st), st, VTable(l), old(sc.VCols(l)), Defaults(ps), |old(CellsOf(st, Indexer(l)))|)
      ensures (Distinct(ps) ==> Valid()) && (old(AllMirrored(st, writeTs)) ==> AllMirrored(st, writeTs))
      ensures old(RowsOk(st, sc)) ==> RowsOk(st, sc)
    {
      hide RowsOk, Inv, CellsOf, ListOf, AllMirrored, Complete, NewColumns, Distinct;
      ghost var k, rows := sc.VCols(l), |CellsOf(st, Indexer(l))|;
      ok := AddVertexProperties(l, ps);
      if ok {
        NewColumnsMirror(old(st), st, VTable(l), k, Defaults(ps), rows, writeTs);
        if old(RowsOk(st, sc)) { NewVertexColumnRows(old(st), st, old(sc), sc, l, k, Defaults(ps), rows); }
      }
    }

    method ApplyNoVertexProps(l: Label, list: seq<Name>) returns (ok: bool)
      requires Valid() && l in sc.live
      modifies this`st, this`sc
      ensures ok == (forall n :: n in list ==> n in Names(old(sc.vprops(l)))) && (!ok ==> st == old(st) && sc == old(sc))
      ensures ok ==> sc == WithProps(old(sc), l, Remaining(old(sc.vprops(l)), list))
      ensures ok ==> ColumnsKept(old(st), old(sc), st, sc, l) && ElseSame(old(st), st, l)
      ensures Harmless(Names(old(sc.vprops(l))), list) ==> Valid()
      ensures old(AllMirrored(st, writeTs)) ==> AllMirrored(st, writeTs)
      ensures old(RowsOk(st, sc)) ==> RowsOk(st, sc)
    {
      hide RowsOk, Inv, CellsOf, ListOf, AllMirrored, Complete, KeptReads, KeepCols, Harmless, Order, ErasedFlags;
      hide ColumnsKept, ElseSame;
      ghost var o := Order(Names(sc.vprops(l)), P.SetOf(list));
      ok := DeleteVertexProperties(l, list);
      if ok {
        KeptMirror(old(st), st, VTable(l), o, base, writeTs);
        if old(RowsOk(st, sc)) { NoVertexColumnRows(old(st), st, old(sc), sc, l, o); }
      }
    }

    method ApplyAddEdge(t: Trip, src: Vid, dst: Vid, p: int, row: seq<int>, full: bool) returns (ok: bool)
      requires Valid()
      modifies this`st
      ensures EdgeAdded(old(st), sc, t, src, dst, p, row, readTs, writeTs, ok, st)
      ensures Valid() && (old(AllMirrored(st, writeTs)) ==> AllMirrored(st, writeTs))
      ensures old(RowsOk(st, sc)) ==> RowsOk(st, sc)
    {
      hide RowsOk, Inv, CellsOf, ListOf, AllMirrored, PutAt, Live, Complete;
      ok := AddEdge(t, src, dst, p, row, full);
      if old(RowsOk(st, sc)) {
        if ok { AddRows(old(st), st, sc, t, src, dst, row); } else { ViewRows(old(st), st, sc); }
      }
    }

    method ApplyAddVertex(l: Label, oid: int, props: seq<int>, full: bool) returns (ok: bool)
      requires Valid() && l in sc.live
      modifies this`st
      ensures VertexAdded(old(st), sc, l, oid, props, writeTs, ok, st)
      ensures Valid() && (old(AllMirrored(st, writeTs)) ==> AllMirrored(st, writeTs))
      ensures old(RowsOk(st, sc)) ==> RowsOk(st, sc)
    {
      hide RowsOk, Inv, CellsOf, ListOf, AllMirrored, PutAt;
      var vid;
      ok, vid := AddVertex(l, oid, props, full);
      if !ok { QuietExcept(old(st), st, VertexSlots(l, |props|), {}); }
      if old(AllMirrored(st, writeTs)) { CellsMirror(old(st), st, VertexSlots(l, |props|), writeTs); }
      if old(RowsOk(st, sc)) { ExceptRows(old(st), st, sc, VertexSlots(l, |props|)); }
    }

    method ApplyDeleteVertex(l: Label, v: Vid) returns (ok: bool)
      requires Valid() && l in sc.live
      modifies this`st
      ensures VertexDeleted(old(st), sc, l, v, writeTs, ok, st)
      ensures Valid() && (old(AllMirrored(st, writeTs)) ==> AllMirrored(st, writeTs))
      ensures old(RowsOk(st, sc)) ==> RowsOk(st, sc)
    {
      hide RowsOk, Inv, CellsOf, ListOf, AllMirrored, Fewer, Bare, Gone, SameView;
      ok := DeleteVertex(l, v);
      if old(RowsOk(st, sc)) { FewerRows(old(st), st, sc, l, v); }
    }

    method ApplyDeleteEdge(t: Trip, src: Vid, dst: Vid, i: nat, j: nat) returns (ok: bool)
      requires Valid()
      modifies this`st
      ensures EdgeDeleted(old(st), sc, t, src, dst, i, j, readTs, writeTs, ok, st)
      ensures Valid()
      ensures old(AllMirrored(st, writeTs)) && old(SameEdge(st, t, src, dst, writeTs, i, j)) ==> AllMirrored(st, writeTs)
      ensures old(RowsOk(st, sc)) ==> RowsOk(st, sc)
    {
      hide RowsOk, Inv, CellsOf, ListOf, AllMirrored, SameEdge;
      ok := DeleteEdge(t, src, dst, i, j);
      if old(RowsOk(st, sc)) { KillRows(old(st), st, sc, t, src, dst); }
    }

    method ApplySetEdge(t: Trip, src: Vid, dst: Vid, i: nat, j: nat, c: nat, x: int) returns (ok: bool)
      requires Valid()
      modifies this`st
      ensures EdgeSet(old(st), sc, t, src, dst, i, j, c, x, readTs, writeTs, ok, st)
      ensures Valid()
      ensures old(AllMirrored(st, writeTs)) && old(SameEdge(st, t, src, dst, writeTs, i, j)) ==> AllMirrored(st, writeTs)
      ensures old(RowsOk(st, sc)) ==> RowsOk(st, sc)
    {
      hide RowsOk, Inv, CellsOf, ListOf, AllMirrored, SameEdge;
      ok := UpdateEdgeProperty(t, src, dst, i, j, c, x);
      if old(RowsOk(st, sc)) { SetRows(old(st), st, sc, t, src, dst, c); }
    }

    method ApplyDeleteEdges(t: Trip, src: Vid, dst: Vid) returns (ok: bool)
      requires Valid()
      modifies this`st
      ensures EdgesDeleted(old(st), sc, t, src, dst, readTs, writeTs, ok, st)
      ensures Valid()
      ensures old(AllMirrored(st, writeTs)) && old(Deletable(st, t, src, dst, readTs, writeTs)) ==> AllMirrored(st, writeTs)
      ensures old(RowsOk(st, sc)) ==> RowsOk(st, sc)
    {
      hide RowsOk, Inv, CellsOf, ListOf, AllMirrored, Deletable, Offsets, OtherOffsets, KillAll, Sees, Live;
      ok := DeleteEdges(t, src, dst);
      if old(AllMirrored(st, writeTs)) && SameView(old(st), st) { ViewMirrors(old(st), st, writeTs); }
      if old(RowsOk(st, sc)) { KillRows(old(st), st, sc, t, src, dst); }
    }

    method ApplySetVertex(l: Label, v: Vid, c: nat, x: int) returns (ok: bool)
      requires Valid() && l in sc.live
      modifies this`st
      ensures VertexSet(old(st), sc, l, v, c, x, writeTs, ok, st)
      ensures Valid() && (old(AllMirrored(st, writeTs)) ==> AllMirrored(st, writeTs))
      ensures old(RowsOk(st, sc)) ==> RowsOk(st, sc)
    {
      hide RowsOk, Inv, CellsOf, ListOf, AllMirrored, PutAt;
      ok := UpdateVertexProperty(l, v, c, x);
      if old(AllMirrored(st, writeTs)) { CellsMirror(old(st), st, {VCol(l, c)}, writeTs); }
      if old(RowsOk(st, sc)) { ExceptRows(old(st), st, sc, {VCol(l, c)}); }
    }

    /**
      A sequence of operations, up to the first list of properties with a harmful repetition:
      each operation has its effect on what the ones before it have left, and the base graph
      is as it was.
     */
    method Run(ops: seq<Op>) returns (n: nat, oks: seq<bool>, ghost trace: seq<(St, Schema)>)
      requires Valid()
      modifies this`st, this`sc
      ensures Valid() && n <= |ops| && (n < |ops| ==> !Orderly(sc, ops[n]))
      ensures |oks| == n && |trace| == n + 1 && trace[0] == old((st, sc)) && trace[n] == (st, sc)
      ensures forall k :: 0 <= k < n ==> Steps(trace[k], ops[k], readTs, writeTs, oks[k], trace[k + 1])
      ensures old(AllMirrored(st, writeTs)) && (forall k :: 0 <= k < n ==> NamesEdge(trace[k].0, ops[k], readTs, writeTs)) ==>
        AllMirrored(st, writeTs)
      ensures old(RowsOk(st, sc)) ==> RowsOk(st, sc)
      ensures forall r :: r in base ==> r in st.heap && st.heap[r] == base[r]
    {
      hide Inv, RowsOk, Orderly, Steps, NamesEdge, AllMirrored, Complete, SchemaOk;
      n, oks, trace := 0, [], [(st, sc)];
      while n < |ops| && Orderly(sc, ops[n])
        invariant Valid() && n <= |ops| && (old(RowsOk(st, sc)) ==> RowsOk(st, sc))
        invariant |oks| == n && |trace| == n + 1 && trace[0] == old((st, sc)) && trace[n] == (st, sc)
        invariant forall k :: 0 <= k < n ==> Steps(trace[k], ops[k], readTs, writeTs, oks[k], trace[k + 1])
        invariant old(AllMirrored(st, writeTs)) && (forall k :: 0 <= k < n ==> NamesEdge(trace[k].0, ops[k], readTs, writeTs)) ==>
          AllMirrored(st, writeTs)
      {
        ghost var x := (st, sc);
        var ok := Apply(ops[n]);
        StepIs(x, ops[n], readTs, writeTs, ok, (st, sc));
        oks, trace := oks + [ok], trace + [(st, sc)];
        n := n + 1;
      }
      BaseAsItWas(st, base);
    }
  }
}
