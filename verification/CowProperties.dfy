/**
  The properties of an edge type as a reader sees them, by number, whether they stand in the
  adjacency lists or in a property table.
 */
module CowProperties {
  import opened CowState
  import opened CowEdges
  import opened CowSchema
  import opened CowColumns
  import opened CowRebuild
  import P = PropertyLists

  /** Where property number i stands. */
  function PropReader(st: St, sc: Schema, t: Trip, i: nat): Reader {
    if sc.Bundled(t) then Inline else InColumn(CellsOf(st, ECol(t, i)))
  }

  /** The edges of a vertex with the value of property number i. */
  function PropOf(st: St, sc: Schema, t: Trip, v: Vid, i: nat): seq<Edge> {
    EdgesFrom(st, t, v, PropReader(st, sc, t, i))
  }

  /** Every vertex has the same edges in the same order. */
  ghost predicate KeepsEdges(st: St, st': St, t: Trip) {
    forall v: Vid :: EdgesFrom(st', t, v, Always(0)) == EdgesFrom(st, t, v, Always(0))
  }

  /** The first properties are the old ones, with the values they had. */
  ghost predicate OldKept(st: St, sc: Schema, st': St, sc': Schema, t: Trip) {
    forall i: nat, v: Vid :: i < |sc.eprops(t)| ==> PropOf(st', sc', t, v, i) == PropOf(st, sc, t, v, i)
  }

  /** The others are new, and every edge has their default values. */
  ghost predicate NewRead(st: St, sc: Schema, st': St, sc': Schema, t: Trip, ps: seq<Prop>) {
    forall i: nat, v: Vid :: i < |ps| ==>
      PropOf(st', sc', t, v, |sc.eprops(t)| + i) == EdgesFrom(st, t, v, Always(ps[i].value))
  }

  /** A property that is still there has the values it had, whatever its number is now. */
  ghost predicate NamedKept(st: St, sc: Schema, st': St, sc': Schema, t: Trip) {
    forall i: nat, j: nat, v: Vid :: i < |sc.eprops(t)| && j < |sc'.eprops(t)| && sc.eprops(t)[i].name == sc'.eprops(t)[j].name ==>
      PropOf(st', sc', t, v, j) == PropOf(st, sc, t, v, i)
  }

  /** For a vertex type: a column that is still there holds what it held, whatever its number is now. */
  ghost predicate ColumnsKept(st: St, sc: Schema, st': St, sc': Schema, l: Label) {
    forall i: nat, j: nat :: i < |sc.vprops(l)| && j < |sc'.vprops(l)| && sc.vprops(l)[i].name == sc'.vprops(l)[j].name ==>
      CellsOf(st', VCol(l, j)) == CellsOf(st, VCol(l, i))
  }

  /** Everything but the columns of a vertex table reads as before. */
  ghost predicate ElseSame(st: St, st': St, l: Label) {
    && (forall a: Slot, v: Vid :: !IsColumn(a, VTable(l)) ==> ListOf(st', a, v) == ListOf(st, a, v))
    && (forall a: Slot :: !IsColumn(a, VTable(l)) ==> CellsOf(st', a) == CellsOf(st, a))
  }

  // ---- reading ---------------------------------------------------------------------------------------

  lemma ReadAlways(es: seq<Edge>, r: Reader, es': seq<Edge>, r': Reader)
    requires Read(es', r') == Read(es, r)
    ensures Read(es', Always(0)) == Read(es, Always(0))
  {
    forall i | 0 <= i < |es| ensures es'[i].src == es[i].src && es'[i].dst == es[i].dst {
      assert Read(es', r')[i] == Read(es, r)[i];
    }
  }

  lemma ReadSame(st: St, st': St, t: Trip, r: Reader, r': Reader)
    requires forall v: Vid :: EdgesFrom(st', t, v, r') == EdgesFrom(st, t, v, r)
    ensures KeepsEdges(st, st', t)
  {
    hide Read, Alive, ListOf;
    forall v: Vid ensures EdgesFrom(st', t, v, Always(0)) == EdgesFrom(st, t, v, Always(0)) {
      assert EdgesFrom(st', t, v, r') == EdgesFrom(st, t, v, r);
      ReadAlways(Alive(ListOf(st, OutCsr(t), v), v), r, Alive(ListOf(st', OutCsr(t), v), v), r');
    }
  }

  lemma ListsSame(st: St, st': St, t: Trip)
    requires forall v: Vid :: ListOf(st', OutCsr(t), v) == ListOf(st, OutCsr(t), v)
    ensures KeepsEdges(st, st', t)
    ensures forall v: Vid, r: Reader :: EdgesFrom(st', t, v, r) == EdgesFrom(st, t, v, r)
  {
    hide Read, Alive, ListOf;
  }

  /** A column of one value reads as that value, if every entry names a row of it. */
  lemma FilledReads(st: St, t: Trip, v: Vid, n: nat, x: int)
    requires InRows(ListOf(st, OutCsr(t), v), n)
    ensures EdgesFrom(st, t, v, InColumn(Fill(n, x))) == EdgesFrom(st, t, v, Always(x))
  {
    hide Alive, ListOf, InRows;
    var es := Alive(ListOf(st, OutCsr(t), v), v);
    forall i | 0 <= i < |es| ensures 0 <= es[i].prop < n { AliveRows(ListOf(st, OutCsr(t), v), v, n, es[i]); }
  }

  // ---- added properties --------------------------------------------------------------------------------

  /** No property is added. */
  lemma NoneAdded(st: St, sc: Schema, t: Trip, ps: seq<Prop>)
    requires ps == sc.eprops(t)
    ensures KeepsEdges(st, st, t) && OldKept(st, sc, st, WithEdgeProps(sc, t, ps), t)
    ensures NewRead(st, sc, st, WithEdgeProps(sc, t, ps), t, [])
  {
  }

  /** New columns of a property table. */
  lemma ColumnsAdded(st: St, sc: Schema, st': St, t: Trip, ps: seq<Prop>)
    requires !sc.Bundled(t)
    requires NewColumns(st, st', ETable(t), sc.ECols(t), Defaults(ps), |CellsOf(st, ECol(t, 0))|)
    ensures var sc' := WithEdgeProps(sc, t, sc.eprops(t) + ps);
      && KeepsEdges(st, st', t) && OldKept(st, sc, st', sc', t) && OthersSame(st, st', t)
      && (TableOk(st, t, sc.ECols(t)) ==> NewRead(st, sc, st', sc', t, ps))
  {
    hide CellsOf, ListOf, EdgesFrom, InRows, Fill, Defaults;
    var sc' := WithEdgeProps(sc, t, sc.eprops(t) + ps);
    var n := |CellsOf(st, ECol(t, 0))|;
    ListsSame(st, st', t);
    forall i: nat, v: Vid | i < |sc.eprops(t)| ensures PropOf(st', sc', t, v, i) == PropOf(st, sc, t, v, i) {
      assert CellsOf(st', ECol(t, i)) == CellsOf(st, ECol(t, i));
    }
    if TableOk(st, t, sc.ECols(t)) {
      forall i: nat, v: Vid | i < |ps|
        ensures PropOf(st', sc', t, v, |sc.eprops(t)| + i) == EdgesFrom(st, t, v, Always(ps[i].value))
      {
        assert CellsOf(st', Column(ETable(t), sc.ECols(t) + i)) == Fill(n, Defaults(ps)[i]);
        FilledReads(st, t, v, n, ps[i].value);
      }
    }
  }

  /** A first property inside the lists. */
  lemma FilledIn(st: St, sc: Schema, st': St, t: Trip, ps: seq<Prop>)
    requires sc.eprops(t) == [] && |ps| == 1 && WithEdgeProps(sc, t, sc.eprops(t) + ps).Bundled(t)
    requires forall v: Vid :: EdgesFrom(st', t, v, Inline) == EdgesFrom(st, t, v, Always(ps[0].value))
    ensures var sc' := WithEdgeProps(sc, t, sc.eprops(t) + ps);
      KeepsEdges(st, st', t) && OldKept(st, sc, st', sc', t) && NewRead(st, sc, st', sc', t, ps)
  {
    hide EdgesFrom;
    ReadSame(st, st', t, Always(ps[0].value), Inline);
  }

  /** A bundled property becomes a column, and the new ones stand behind it. */
  lemma MovedOut(st: St, sc: Schema, st': St, t: Trip, ps: seq<Prop>)
    requires sc.Bundled(t) && ps != [] && !WithEdgeProps(sc, t, sc.eprops(t) + ps).Bundled(t)
    requires sc.eprops(t) != [] ==>
      forall v: Vid :: EdgesFrom(st', t, v, InColumn(CellsOf(st', ECol(t, 0)))) == EdgesFrom(st, t, v, Inline)
    requires forall i: nat, v: Vid :: i < |ps| ==>
      EdgesFrom(st', t, v, InColumn(CellsOf(st', ECol(t, |sc.eprops(t)| + i)))) == EdgesFrom(st, t, v, Always(ps[i].value))
    ensures var sc' := WithEdgeProps(sc, t, sc.eprops(t) + ps);
      KeepsEdges(st, st', t) && OldKept(st, sc, st', sc', t) && NewRead(st, sc, st', sc', t, ps)
  {
    hide EdgesFrom, CellsOf;
    var r' := InColumn(CellsOf(st', ECol(t, |sc.eprops(t)|)));
    forall v: Vid ensures EdgesFrom(st', t, v, r') == EdgesFrom(st, t, v, Always(ps[0].value)) {
      assert ECol(t, |sc.eprops(t)| + 0) == ECol(t, |sc.eprops(t)|);
    }
    ReadSame(st, st', t, Always(ps[0].value), r');
  }

  // ---- deleted properties --------------------------------------------------------------------------------

  /** Remaining property number p is the one that had number o[p]. */
  lemma RemainingAt(ps: seq<Prop>, list: seq<Name>, i: nat, j: nat)
    requires Distinct(ps) && i < |ps| && j < |Remaining(ps, list)| && ps[i].name == Remaining(ps, list)[j].name
    ensures var o := Order(Names(ps), P.SetOf(list)); j < |o| && o[j] == i
  {
    hide Order;
    OrderAt(ps, Names(ps), P.SetOf(list));
    var k := Order(Names(ps), P.SetOf(list))[j];
    assert Names(ps)[k] == Names(ps)[i];
  }

  lemma NoneDeleted(st: St, sc: Schema, t: Trip, ps: seq<Prop>)
    requires ps == sc.eprops(t) && Distinct(ps)
    ensures KeepsEdges(st, st, t) && NamedKept(st, sc, st, WithEdgeProps(sc, t, ps), t)
  {
    hide EdgesFrom;
    forall i, j | 0 <= i < |ps| && 0 <= j < |ps| && ps[i].name == ps[j].name ensures i == j {
      assert Names(ps)[i] == Names(ps)[j];
    }
  }

  /** Columns of a table that stays one. */
  lemma ColumnsDeleted(st: St, sc: Schema, st': St, t: Trip, list: seq<Name>)
    requires !sc.Bundled(t) && Distinct(sc.eprops(t)) && HasColumns(st, ETable(t), |sc.eprops(t)|)
    requires !WithEdgeProps(sc, t, Remaining(sc.eprops(t), list)).Bundled(t)
    requires KeptReads(st, st', KeepCols(st, ETable(t), Order(Names(sc.eprops(t)), P.SetOf(list))))
    requires forall v: Vid :: ListOf(st', OutCsr(t), v) == ListOf(st, OutCsr(t), v)
    ensures KeepsEdges(st, st', t) && NamedKept(st, sc, st', WithEdgeProps(sc, t, Remaining(sc.eprops(t), list)), t)
  {
    hide EdgesFrom, ListOf, CellsOf, Order, Distinct, Remaining;
    var ps := sc.eprops(t);
    var rem, o := Remaining(ps, list), Order(Names(ps), P.SetOf(list));
    var sc' := WithEdgeProps(sc, t, rem);
    ListsSame(st, st', t);
    forall i: nat, j: nat, v: Vid | i < |ps| && j < |rem| && ps[i].name == rem[j].name
      ensures PropOf(st', sc', t, v, j) == PropOf(st, sc, t, v, i)
    {
      RemainingAt(ps, list, i, j);
      RemainingIs(ps, list);
      assert ECol(t, j) in KeepCols(st, ETable(t), o) && KeepCols(st, ETable(t), o)[ECol(t, j)] == ECol(t, i);
    }
  }

  lemma VertexColumnsDeleted(st: St, sc: Schema, st': St, l: Label, list: seq<Name>)
    requires Complete(st, sc) && l in sc.live && Distinct(sc.vprops(l))
    requires KeptReads(st, st', KeepCols(st, VTable(l), Order(Names(sc.vprops(l)), P.SetOf(list))))
    ensures ColumnsKept(st, sc, st', WithProps(sc, l, Remaining(sc.vprops(l), list)), l) && ElseSame(st, st', l)
  {
    hide ListOf, CellsOf, Order, Distinct, Remaining;
    var ps := sc.vprops(l);
    var rem, o := Remaining(ps, list), Order(Names(ps), P.SetOf(list));
    forall i: nat, j: nat | i < |ps| && j < |rem| && ps[i].name == rem[j].name
      ensures CellsOf(st', VCol(l, j)) == CellsOf(st, VCol(l, i))
    {
      RemainingAt(ps, list, i, j);
      RemainingIs(ps, list);
      assert VCol(l, j) in KeepCols(st, VTable(l), o) && KeepCols(st, VTable(l), o)[VCol(l, j)] == VCol(l, i);
    }
    forall a: Slot, v: Vid ensures !IsColumn(a, VTable(l)) ==> ListOf(st', a, v) == ListOf(st, a, v) { Absent(st, a, v); }
    forall a: Slot ensures !IsColumn(a, VTable(l)) ==> CellsOf(st', a) == CellsOf(st, a) { Absent(st, a, 0); }
  }

  lemma OtherPartsKept(st: St, st': St, t: Trip, order: seq<nat>)
    requires KeptReads(st, st', KeepCols(st, ETable(t), order))
    ensures OthersSame(st, st', t)
  {
    hide ListOf, CellsOf;
    forall a: Slot, v: Vid ensures !OfTrip(a, t) ==> ListOf(st', a, v) == ListOf(st, a, v) { Absent(st, a, v); }
    forall a: Slot ensures !OfTrip(a, t) ==> CellsOf(st', a) == CellsOf(st, a) { Absent(st, a, 0); }
  }

  /** Nothing is left. */
  lemma AllDeleted(st: St, sc: Schema, st': St, t: Trip)
    requires forall v: Vid :: EdgesFrom(st', t, v, Inline) == EdgesFrom(st, t, v, Always(0))
    ensures KeepsEdges(st, st', t) && NamedKept(st, sc, st', WithEdgeProps(sc, t, []), t)
  {
    hide EdgesFrom;
    ReadSame(st, st', t, Always(0), Inline);
  }

  /** One column is left, and its values move into the lists. */
  lemma OneLeft(st: St, sc: Schema, st': St, t: Trip, list: seq<Name>, c: nat)
    requires Bundles(sc, t, list) && Distinct(sc.eprops(t))
    requires Order(Names(sc.eprops(t)), P.SetOf(list)) == [c]
    requires forall v: Vid :: EdgesFrom(st', t, v, Inline) == EdgesFrom(st, t, v, InColumn(CellsOf(st, ECol(t, c))))
    ensures KeepsEdges(st, st', t) && NamedKept(st, sc, st', WithEdgeProps(sc, t, Remaining(sc.eprops(t), list)), t)
  {
    hide EdgesFrom, CellsOf, Order, Distinct, Remaining;
    var ps := sc.eprops(t);
    var rem := Remaining(ps, list);
    ReadSame(st, st', t, InColumn(CellsOf(st, ECol(t, c))), Inline);
    forall i: nat, j: nat | i < |ps| && j < |rem| && ps[i].name == rem[j].name ensures i == c { RemainingAt(ps, list, i, j); }
  }

  /** A bundled result of a deletion that is not one column has no properties. */
  lemma NothingLeft(sc: Schema, t: Trip, list: seq<Name>)
    requires list != [] && (forall n :: n in list ==> n in Names(sc.eprops(t))) && !Bundles(sc, t, list)
    requires WithEdgeProps(sc, t, Remaining(sc.eprops(t), list)).Bundled(t)
    ensures Remaining(sc.eprops(t), list) == []
  {
    var ps := sc.eprops(t);
    assert list[0] in list;
    if sc.Bundled(t) {
      assert ps[0].name == list[0];
      assert list[0] in P.SetOf(list);
    }
  }

  lemma TableColumns(st: St, sc: Schema, t: Trip)
    requires Complete(st, sc) && t in sc.trips && !sc.Bundled(t)
    ensures HasColumns(st, ETable(t), |sc.eprops(t)|)
  {
  }

  lemma TableAt(st: St, sc: Schema, t: Trip)
    requires RowsOk(st, sc) && t in sc.trips && !sc.Bundled(t)
    ensures TableOk(st, t, sc.ECols(t))
  {
  }

  lemma NothingElse(st: St, t: Trip)
    ensures OthersSame(st, st, t)
  {
  }
}
