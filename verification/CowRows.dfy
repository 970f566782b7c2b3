/** Every entry of an edge type with a property table names a row of it, through all operations. */
module CowRows {
  import opened CowState
  import opened CowEdges
  import opened EdgeOffsets
  import opened CowSchema
  import opened CowColumns
  import P = PropertyLists
  import opened CowRebuild
  import opened CowTables
  import opened CowDelete

  lemma {:induction false} KillAllProps(edges: seq<Nbr>, offs: seq<int>, ts: nat)
    ensures SameProps(edges, KillAll(edges, offs, ts))
    decreases |offs|
  {
    if offs != [] { KillAllProps(edges, offs[..|offs| - 1], ts); }
  }

  /** Everything but one edge type is as before, and that one is bundled or in order. */
  lemma OtherRows(st: St, st': St, sc: Schema, sc': Schema, t: Trip)
    requires RowsOk(st, sc) && OthersSame(st, st', t) && sc'.trips == sc.trips
    requires forall u :: u != t ==> sc'.eprops(u) == sc.eprops(u)
    requires sc'.Bundled(t) || TableOk(st', t, sc'.ECols(t))
    ensures RowsOk(st', sc')
  {
    hide ListOf, CellsOf, RowsOk, TableOk, TableSame;
    forall u | u != t ensures TableSame(st, st', u) { SameTable(st, st', u); }
    RowsStay(st, st', sc, sc', {t});
  }

  lemma ReadsRows(st: St, st': St, sc: Schema, sc': Schema)
    requires RowsOk(st, sc) && SameReads(st, st') && sc'.trips == sc.trips && sc'.eprops == sc.eprops
    ensures RowsOk(st', sc')
  {
    hide ListOf, CellsOf, RowsOk, TableSame;
    forall u ensures TableSame(st, st', u) { SameTable(st, st', u); }
    RowsStay(st, st', sc, sc', {});
  }

  lemma ViewRows(st: St, st': St, sc: Schema)
    requires RowsOk(st, sc) && SameView(st, st')
    ensures RowsOk(st', sc)
  {
    hide ListOf, CellsOf, RowsOk;
    ReadsRows(st, st', sc, sc);
  }

  lemma ExceptRows(st: St, st': St, sc: Schema, cells: set<Slot>)
    requires RowsOk(st, sc) && ViewExcept(st, st', cells, {}) && forall s :: s in cells ==> !s.ECol?
    ensures RowsOk(st', sc)
  {
    hide ListOf, CellsOf, RowsOk, TableSame;
    forall u ensures TableSame(st, st', u) { SameTable(st, st', u); }
    RowsStay(st, st', sc, sc, {});
  }

  lemma NewTypeRows(st: St, st': St, sc: Schema, t: Trip, ps: seq<Prop>, temp: bool)
    requires RowsOk(st, sc) && SameReads(st, st') && Complete(st, sc) && t !in sc.trips
    ensures RowsOk(st', WithEdgeType(sc, t, ps, temp))
  {
    hide ListOf, CellsOf, RowsOk, TableSame;
    forall u ensures TableSame(st, st', u) { SameTable(st, st', u); }
    forall v: Vid ensures ListOf(st', OutCsr(t), v) == [] { Absent(st, OutCsr(t), v); }
    forall c: nat ensures CellsOf(st', ECol(t, c)) == [] { Absent(st, ECol(t, c), 0); }
    RowsStay(st, st', sc, WithEdgeType(sc, t, ps, temp), {t});
  }

  lemma ForgetsRows(st: St, st': St, sc: Schema, sc': Schema, gone: Slot -> bool)
    requires RowsOk(st, sc) && Forgets(st, st', gone) && sc'.trips <= sc.trips && sc'.eprops == sc.eprops
    requires forall t :: t in sc'.trips ==> !gone(OutCsr(t)) && forall c: nat :: !gone(ECol(t, c))
    ensures RowsOk(st', sc')
  {
    hide ListOf, CellsOf, RowsOk, TableSame;
    forall u | u in sc'.trips ensures TableSame(st, st', u) { SameTable(st, st', u); }
    RowsStay(st, st', sc, sc', {});
  }

  lemma NewVertexColumnRows(st: St, st': St, sc: Schema, sc': Schema, l: Label, k: nat, values: seq<int>, rows: nat)
    requires RowsOk(st, sc) && NewColumns(st, st', VTable(l), k, values, rows)
    requires sc'.trips == sc.trips && sc'.eprops == sc.eprops
    ensures RowsOk(st', sc')
  {
    hide ListOf, CellsOf, RowsOk, TableSame;
    forall u ensures TableSame(st, st', u) { SameTable(st, st', u); }
    RowsStay(st, st', sc, sc', {});
  }

  lemma NoVertexColumnRows(st: St, st': St, sc: Schema, sc': Schema, l: Label, order: seq<nat>)
    requires RowsOk(st, sc) && KeptReads(st, st', KeepCols(st, VTable(l), order))
    requires sc'.trips == sc.trips && sc'.eprops == sc.eprops
    ensures RowsOk(st', sc')
  {
    hide ListOf, CellsOf, RowsOk, TableSame;
    forall u ensures TableSame(st, st', u) {
      forall v: Vid ensures ListOf(st', OutCsr(u), v) == ListOf(st, OutCsr(u), v) { Absent(st, OutCsr(u), v); }
      forall k: nat ensures CellsOf(st', ECol(u, k)) == CellsOf(st, ECol(u, k)) { Absent(st, ECol(u, k), 0); }
      SameTable(st, st', u);
    }
    RowsStay(st, st', sc, sc', {});
  }

  lemma NewEdgeColumnRows(st: St, st': St, sc: Schema, t: Trip, ps: seq<Prop>, values: seq<int>)
    requires RowsOk(st, sc) && t in sc.trips && !sc.Bundled(t) && |values| == |ps|
    requires NewColumns(st, st', ETable(t), sc.ECols(t), values, |CellsOf(st, ECol(t, 0))|)
    ensures RowsOk(st', WithEdgeProps(sc, t, sc.eprops(t) + ps))
  {
    hide ListOf, CellsOf;
    var sc' := WithEdgeProps(sc, t, sc.eprops(t) + ps);
    assert TableOk(st, t, sc.ECols(t));
    forall c: nat | c < sc.ECols(t) + |ps| ensures |CellsOf(st', ECol(t, c))| == |CellsOf(st, ECol(t, 0))| {
      if c >= sc.ECols(t) {
        var i := c - sc.ECols(t);
        assert CellsOf(st', Column(ETable(t), sc.ECols(t) + i)) == Fill(|CellsOf(st, ECol(t, 0))|, values[i]);
      }
    }
    assert TableOk(st', t, sc.ECols(t) + |ps|);
    hide RowsOk, TableSame, TableOk;
    forall u | u != t ensures TableSame(st, st', u) { SameTable(st, st', u); }
    assert sc'.eprops(t) == sc.eprops(t) + ps;
    RowsStay(st, st', sc, sc', {t});
  }

  lemma NoEdgeColumnRows(st: St, st': St, sc: Schema, t: Trip, ps: seq<Prop>, order: seq<nat>)
    requires RowsOk(st, sc) && Complete(st, sc) && t in sc.trips && !sc.Bundled(t) && Rising(order, sc.ECols(t))
    requires KeptReads(st, st', KeepCols(st, ETable(t), order)) && |order| == |ps| > 0
    ensures RowsOk(st', WithEdgeProps(sc, t, ps))
  {
    hide ListOf, CellsOf;
    assert TableOk(st, t, sc.ECols(t));
    forall k: nat | k < |order| ensures |CellsOf(st', ECol(t, k))| == |CellsOf(st, ECol(t, 0))| {
      RisingAbove(order, sc.ECols(t), k);
      assert ECol(t, k) in KeepCols(st, ETable(t), order);
    }
    forall v: Vid ensures ListOf(st', OutCsr(t), v) == ListOf(st, OutCsr(t), v) { Absent(st, OutCsr(t), v); }
    assert TableOk(st', t, |order|);
    hide RowsOk, TableSame, TableOk;
    forall u | u != t ensures TableSame(st, st', u) {
      forall v: Vid ensures ListOf(st', OutCsr(u), v) == ListOf(st, OutCsr(u), v) { Absent(st, OutCsr(u), v); }
      forall k: nat ensures CellsOf(st', ECol(u, k)) == CellsOf(st, ECol(u, k)) { Absent(st, ECol(u, k), 0); }
      SameTable(st, st', u);
    }
    RowsStay(st, st', sc, WithEdgeProps(sc, t, ps), {t});
  }

  lemma FewerRows(st: St, st': St, sc: Schema, l: Label, v: Vid)
    requires RowsOk(st, sc) && Fewer(st, st', l, v) && forall s :: s != Stamps(l) ==> CellsOf(st', s) == CellsOf(st, s)
    ensures RowsOk(st', sc)
  {
    hide ListOf, CellsOf, RowsOk;
    forall u ensures TableSame(st, st', u) {
      forall w: Vid ensures SameProps(ListOf(st, OutCsr(u), w), ListOf(st', OutCsr(u), w)) {
        FewerAt(st, st', l, v, OutCsr(u), w);
      }
    }
    hide TableSame;
    RowsStay(st, st', sc, sc, {});
  }

  lemma KillRows(st: St, st': St, sc: Schema, t: Trip, src: Vid, dst: Vid)
    requires RowsOk(st, sc) && ViewExcept(st, st', {}, Both(t, src, dst))
    requires SameProps(ListOf(st, OutCsr(t), src), ListOf(st', OutCsr(t), src))
    ensures RowsOk(st', sc)
  {
    hide ListOf, CellsOf, RowsOk;
    forall u ensures TableSame(st, st', u) {
      forall w: Vid ensures SameProps(ListOf(st, OutCsr(u), w), ListOf(st', OutCsr(u), w)) {
        if (u, w) != (t, src) { assert (OutCsr(u), w) !in Both(t, src, dst); }
      }
    }
    hide TableSame;
    RowsStay(st, st', sc, sc, {});
  }

  lemma SetRows(st: St, st': St, sc: Schema, t: Trip, src: Vid, dst: Vid, c: nat)
    requires RowsOk(st, sc)
    requires sc.Bundled(t) ==> ViewExcept(st, st', {}, Both(t, src, dst))
    requires !sc.Bundled(t) ==> ViewExcept(st, st', {ECol(t, c)}, {}) && |CellsOf(st', ECol(t, c))| == |CellsOf(st, ECol(t, c))|
    ensures RowsOk(st', sc)
  {
    hide ListOf, CellsOf, RowsOk, TableOk;
    forall u | u != t || !sc.Bundled(t) ensures TableSame(st, st', u) {
      forall w: Vid ensures ListOf(st', OutCsr(u), w) == ListOf(st, OutCsr(u), w) {
        if u != t { assert (OutCsr(u), w) !in Both(t, src, dst); }
      }
    }
    hide TableSame;
    RowsStay(st, st', sc, sc, if sc.Bundled(t) then {t} else {});
  }

  lemma AddRows(st: St, st': St, sc: Schema, t: Trip, src: Vid, dst: Vid, row: seq<int>)
    requires RowsOk(st, sc) && SchemaOk(sc) && t in sc.trips && |row| == sc.ECols(t)
    requires ViewExcept(st, st', EdgeCols(t, |row|), Both(t, src, dst))
    requires !sc.Bundled(t) ==> exists n: Nbr ::
      n.prop == |CellsOf(st, ECol(t, 0))| && ListOf(st', OutCsr(t), src) == ListOf(st, OutCsr(t), src) + [n]
    requires forall c: nat :: c < |row| ==>
      CellsOf(st', ECol(t, c)) == PutAt(CellsOf(st, ECol(t, c)), |CellsOf(st, ECol(t, 0))|, row[c])
    ensures RowsOk(st', sc)
  {
    hide ListOf, CellsOf;
    if !sc.Bundled(t) {
      assert TableOk(st, t, |row|);
      forall c: nat | c < |row| ensures |CellsOf(st', ECol(t, c))| == |CellsOf(st, ECol(t, 0))| + 1 { }
      forall v: Vid ensures InRows(ListOf(st', OutCsr(t), v), |CellsOf(st, ECol(t, 0))| + 1) {
        assert InRows(ListOf(st, OutCsr(t), v), |CellsOf(st, ECol(t, 0))|);
        if v != src { assert (OutCsr(t), v) !in Both(t, src, dst); }
      }
      assert TableOk(st', t, |row|);
    }
    hide RowsOk, TableOk;
    forall u | u != t ensures TableSame(st, st', u) {
      forall w: Vid ensures ListOf(st', OutCsr(u), w) == ListOf(st, OutCsr(u), w) {
        assert (OutCsr(u), w) !in Both(t, src, dst);
      }
      SameTable(st, st', u);
    }
    hide TableSame;
    RowsStay(st, st', sc, sc, {t});
  }

  /** Only the schema is written anew, with properties of the same kind. */
  lemma RenamedRows(st: St, sc: Schema, t: Trip, ps: seq<Prop>)
    requires RowsOk(st, sc) && |ps| == |sc.eprops(t)| && forall i :: 0 <= i < |ps| ==> ps[i].special == sc.eprops(t)[i].special
    ensures RowsOk(st, WithEdgeProps(sc, t, ps))
  {
    hide TableOk;
    var sc' := WithEdgeProps(sc, t, ps);
    forall u | u in sc'.trips && !sc'.Bundled(u) ensures TableOk(st, u, sc'.ECols(u)) {
      assert sc'.Bundled(u) == sc.Bundled(u) && sc'.ECols(u) == sc.ECols(u);
    }
  }
}
