/** What one operation of a transaction does to what a clone holds. */
module CowEffects {
  import opened CowState
  import opened CowEdges
  import opened EdgeOffsets
  import opened CowSchema
  import opened CowColumns
  import opened CowRebuild
  import opened CowTables
  import opened CowMirror
  import opened CowDelete
  import opened CowProperties
  import P = PropertyLists

  datatype Op =
    | OpAddVertex(l: Label, oid: int, props: seq<int>, full: bool)
    | OpDeleteVertex(l: Label, v: Vid)
    | OpSetVertex(l: Label, v: Vid, c: nat, x: int)
    | OpAddEdge(t: Trip, src: Vid, dst: Vid, p: int, row: seq<int>, full: bool)
    | OpDeleteEdges(t: Trip, src: Vid, dst: Vid)
    | OpDeleteEdge(t: Trip, src: Vid, dst: Vid, i: nat, j: nat)
    | OpSetEdge(t: Trip, src: Vid, dst: Vid, i: nat, j: nat, c: nat, x: int)
    | OpSchema(change: Change)

  datatype Change =
    | NewVertexType(l: Label, ps: seq<Prop>) | NewEdgeType(t: Trip, ps: seq<Prop>, temp: bool)
    | NoVertexType(l: Label) | NoEdgeType(t: Trip)
    | NewVertexProps(l: Label, ps: seq<Prop>) | NoVertexProps(l: Label, list: seq<Name>)
    | NewEdgeProps(t: Trip, ps: seq<Prop>) | NoEdgeProps(t: Trip, list: seq<Name>)
    | RenameVertexProps(l: Label, pairs: seq<(Name, Name)>) | RenameEdgeProps(t: Trip, pairs: seq<(Name, Name)>)

  /**
    A list of properties that does not repeat a name, or repeats it where it does no harm.
    Renaming leaves different names.
   */
  predicate Tidy(sc: Schema, op: Change) {
    match op
    case NewVertexType(_, ps) => Distinct(ps)
    case NewEdgeType(_, ps, _) => Distinct(ps)
    case NewVertexProps(_, ps) => Distinct(ps)
    case NewEdgeProps(_, ps) => Distinct(ps)
    case NoVertexProps(l, list) => Harmless(Names(sc.vprops(l)), list)
    case NoEdgeProps(t, list) => TidyEdge(sc, t, list)
    case RenameVertexProps(l, pairs) => Distinct(RenamedProps(sc.vprops(l), pairs))
    case RenameEdgeProps(t, pairs) => Distinct(RenamedProps(sc.eprops(t), pairs[..Applied(sc.eprops(t), pairs)]))
    case _ => true
  }

  /** For edges: no repetition, or the table is rebuilt. */
  predicate TidyEdge(sc: Schema, t: Trip, list: seq<Name>) {
    P.Distinct(list) || sc.Bundled(t) || WithEdgeProps(sc, t, Remaining(sc.eprops(t), list)).Bundled(t)
  }

  predicate Orderly(sc: Schema, op: Op) { op.OpSchema? ==> Tidy(sc, op.change) }

  /** Every entry names a row of the column that is left. */
  ghost predicate LastColumnFits(st: St, sc: Schema, t: Trip, list: seq<Name>) {
    var o := Order(Names(sc.eprops(t)), P.SetOf(list));
    o != [] && RowsIn(st, t, CellsOf(st, ECol(t, o[0])))
  }

  /** The offsets of an edge operation name one edge; other operations carry no offsets. */
  ghost predicate NamesEdge(st: St, op: Op, read: nat, ts: nat) {
    match op
    case OpDeleteEdges(t, src, dst) => Deletable(st, t, src, dst, read, ts)
    case OpDeleteEdge(t, src, dst, i, j) => SameEdge(st, t, src, dst, ts, i, j)
    case OpSetEdge(t, src, dst, i, j, _, _) => SameEdge(st, t, src, dst, ts, i, j)
    case _ => true
  }

  // ---- rows and lists -------------------------------------------------------------------------------

  ghost predicate VertexAdded(st: St, sc: Schema, l: Label, oid: int, props: seq<int>, ts: nat, ok: bool, st': St) {
    var vid := IndexOf(CellsOf(st, Indexer(l)), oid);
    && ok == (|props| == sc.VCols(l) && !Live(st, l, vid, ts))
    && (!ok ==> SameView(st, st'))
    && (ok ==>
          && ViewExcept(st, st', VertexSlots(l, |props|), {})
          && CellsOf(st', Indexer(l)) == PutAt(CellsOf(st, Indexer(l)), vid, oid)
          && CellsOf(st', Stamps(l)) == PutAt(CellsOf(st, Stamps(l)), vid, ts)
          && forall c: nat :: c < |props| ==> CellsOf(st', VCol(l, c)) == PutAt(CellsOf(st, VCol(l, c)), vid, props[c]))
  }

  ghost predicate VertexDeleted(st: St, sc: Schema, l: Label, v: Vid, ts: nat, ok: bool, st': St) {
    && Fewer(st, st', l, v)
    && (!Live(st, l, v, ts) ==> ok && SameView(st, st'))
    && (ok && Live(st, l, v, ts) ==> forall t :: t in sc.trips && Touches(l, t) ==> Bare(st', l, t, v, ts))
    && CellsOf(st', Stamps(l)) ==
       (if ok && Live(st, l, v, ts) then PutAt(CellsOf(st, Stamps(l)), v, -1) else CellsOf(st, Stamps(l)))
    && (forall s :: s != Stamps(l) ==> CellsOf(st', s) == CellsOf(st, s))
    && (AllMirrored(st, ts) ==> ok)
    && (AllMirrored(st, ts) && Live(st, l, v, ts) ==> forall t :: t in sc.trips && Touches(l, t) ==> Gone(st', l, t, v, ts))
  }

  ghost predicate VertexSet(st: St, sc: Schema, l: Label, v: Vid, c: nat, x: int, ts: nat, ok: bool, st': St) {
    && ok == (c < sc.VCols(l) && Live(st, l, v, ts)) && ViewExcept(st, st', {VCol(l, c)}, {})
    && (ok ==> CellsOf(st', VCol(l, c)) == PutAt(CellsOf(st, VCol(l, c)), v, x))
    && (!ok ==> SameView(st, st'))
  }

  ghost predicate EdgeAdded(
    st: St, sc: Schema, t: Trip, src: Vid, dst: Vid, p: int, row: seq<int>, read: nat, ts: nat, ok: bool, st': St) {
    && ok == (t in sc.trips && |row| == sc.ECols(t) && (t in sc.temp || Ends(st, sc, t, src, dst, read)))
    && (!ok ==> SameView(st, st'))
    && (ok ==>
          var r := |CellsOf(st, ECol(t, 0))|;
          var data := if sc.eprops(t) == [] then 0 else if sc.Bundled(t) then p else r;
          && ViewExcept(st, st', EdgeCols(t, |row|), Both(t, src, dst))
          && ListOf(st', OutCsr(t), src) == ListOf(st, OutCsr(t), src) + [Nbr(dst, ts, false, data)]
          && ListOf(st', InCsr(t), dst) == ListOf(st, InCsr(t), dst) + [Nbr(src, ts, false, data)]
          && forall c: nat :: c < |row| ==> CellsOf(st', ECol(t, c)) == PutAt(CellsOf(st, ECol(t, c)), r, row[c]))
  }

  ghost predicate EdgeDeleted(
    st: St, sc: Schema, t: Trip, src: Vid, dst: Vid, i: nat, j: nat, read: nat, ts: nat, ok: bool, st': St) {
    var out, in_ := ListOf(st, OutCsr(t), src), ListOf(st, InCsr(t), dst);
    var ends := Ends(st, sc, t, src, dst, read);
    && ok == (ends && i < |out| && j < |in_|) && ViewExcept(st, st', {}, Both(t, src, dst))
    && ListOf(st', OutCsr(t), src) == (if ends then Kill(out, i, ts) else out)
    && ListOf(st', InCsr(t), dst) == (if ok then Kill(in_, j, ts) else in_)
  }

  ghost predicate EdgesDeleted(st: St, sc: Schema, t: Trip, src: Vid, dst: Vid, read: nat, ts: nat, ok: bool, st': St) {
    var out, in_ := ListOf(st, OutCsr(t), src), ListOf(st, InCsr(t), dst);
    var offs, ins := Offsets(out, dst, read, |out|), OtherOffsets(out, in_, src, dst, read, |out|);
    && ok == (Ends(st, sc, t, src, dst, read) && -1 !in ins) && ViewExcept(st, st', {}, Both(t, src, dst))
    && (ok ==> ListOf(st', OutCsr(t), src) == KillAll(out, offs, ts) && ListOf(st', InCsr(t), dst) == KillAll(in_, ins, ts))
    && (!Ends(st, sc, t, src, dst, read) ==> SameView(st, st'))
  }

  ghost predicate EdgeSet(
    st: St, sc: Schema, t: Trip, src: Vid, dst: Vid, i: nat, j: nat, c: nat, x: int, read: nat, ts: nat, ok: bool, st': St) {
    var out, in_ := ListOf(st, OutCsr(t), src), ListOf(st, InCsr(t), dst);
    var there := Ends(st, sc, t, src, dst, read) && At(out, i, ts);
    && ok == (there && if sc.Bundled(t) then At(in_, j, ts) else c < sc.ECols(t))
    && if sc.Bundled(t)
       then
         && ViewExcept(st, st', {}, Both(t, src, dst))
         && ListOf(st', OutCsr(t), src) == (if there then SetProp(out, i, x, ts) else out)
         && ListOf(st', InCsr(t), dst) == (if ok then SetProp(in_, j, x, ts) else in_)
       else
         && ViewExcept(st, st', {ECol(t, c)}, {})
         && CellsOf(st', ECol(t, c)) ==
            (if ok then SetRow(CellsOf(st, ECol(t, c)), RowOf(out, i), x) else CellsOf(st, ECol(t, c)))
  }

  // ---- the schema ------------------------------------------------------------------------------------

  ghost predicate Changed(st: St, sc: Schema, op: Change, ok: bool, st': St, sc': Schema) {
    && (!ok && !op.NewEdgeProps? && !op.RenameEdgeProps? ==> SameReads(st, st') && sc' == sc)
    && match op
       case NewVertexType(l, ps) =>
         ok == (l !in sc.live) && SameReads(st, st') && (ok ==> sc' == WithVertexType(sc, l, ps))
       case NewEdgeType(t, ps, temp) =>
         && ok == (t !in sc.trips && t.src in sc.live && t.dst in sc.live)
         && SameReads(st, st') && (ok ==> sc' == WithEdgeType(sc, t, ps, temp))
       case NoVertexType(l) =>
         ok == (l in sc.live) && (ok ==> sc' == WithoutLabel(sc, l) && Forgets(st, st', (s: Slot) => OfLabel(s, l)))
       case NoEdgeType(t) => ok && sc' == WithoutTrip(sc, t) && Forgets(st, st', (s: Slot) => OfTrip(s, t))
       case NewVertexProps(l, ps) =>
         && ok == (l in sc.live && NoneNamed(sc.vprops(l), ps))
         && (ok ==> sc' == WithProps(sc, l, sc.vprops(l) + ps)
                    && NewColumns(st, st', VTable(l), sc.VCols(l), Defaults(ps), |CellsOf(st, Indexer(l))|))
       case NoVertexProps(l, list) =>
         && ok == (l in sc.live && forall n :: n in list ==> n in Names(sc.vprops(l)))
         && (ok ==> sc' == WithProps(sc, l, Remaining(sc.vprops(l), list))
                    && ColumnsKept(st, sc, st', sc', l) && ElseSame(st, st', l))
       case NewEdgeProps(t, ps) =>
         && ok == (t in sc.trips && NoneNamed(sc.eprops(t), ps) && Distinct(ps)) && (!ok ==> st' == st)
         && (ok ==> sc' == WithEdgeProps(sc, t, sc.eprops(t) + ps)
                    && KeepsEdges(st, st', t) && OldKept(st, sc, st', sc', t) && OthersSame(st, st', t))
         && (ok && RowsOk(st, sc) ==> NewRead(st, sc, st', sc', t, ps))
       case NoEdgeProps(t, list) =>
         && ok == (t in sc.trips && (forall n :: n in list ==> n in Names(sc.eprops(t)))
                   && (Bundles(sc, t, list) ==> LastColumnFits(st, sc, t, list)))
         && (ok ==> sc' == WithEdgeProps(sc, t, Remaining(sc.eprops(t), list))
                    && KeepsEdges(st, st', t) && NamedKept(st, sc, st', sc', t) && OthersSame(st, st', t))
       case RenameVertexProps(l, pairs) =>
         && ok == (l in sc.live && forall x :: x in pairs ==> x.0 in Names(sc.vprops(l))) && st' == st
         && (ok ==> RenamesTo(sc.vprops(l), pairs, sc'.vprops(l)) && sc' == WithProps(sc, l, sc'.vprops(l)))
       case RenameEdgeProps(t, pairs) =>
         if t in sc.trips && forall x :: x in pairs ==> x.0 in Names(sc.eprops(t)) then
           && st' == st && sc' == WithEdgeProps(sc, t, sc'.eprops(t))
           && var n := Applied(sc.eprops(t), pairs);
              ok == (n == |pairs|) && RenamesTo(sc.eprops(t), pairs[..n], sc'.eprops(t))
         else !ok && st' == st && sc' == sc
  }

  // ---- operations ----------------------------------------------------------------------------------------

  /** The effect of an operation, and whether it succeeds. */
  ghost predicate Effect(st: St, sc: Schema, op: Op, read: nat, ts: nat, ok: bool, st': St, sc': Schema) {
    && (op.OpSchema? || sc' == sc)
    && match op
       case OpAddVertex(l, oid, props, _) =>
         if l in sc.live then VertexAdded(st, sc, l, oid, props, ts, ok, st') else !ok && st' == st
       case OpDeleteVertex(l, v) => if l in sc.live then VertexDeleted(st, sc, l, v, ts, ok, st') else !ok && st' == st
       case OpSetVertex(l, v, c, x) => if l in sc.live then VertexSet(st, sc, l, v, c, x, ts, ok, st') else !ok && st' == st
       case OpAddEdge(t, src, dst, p, row, _) => EdgeAdded(st, sc, t, src, dst, p, row, read, ts, ok, st')
       case OpDeleteEdges(t, src, dst) => EdgesDeleted(st, sc, t, src, dst, read, ts, ok, st')
       case OpDeleteEdge(t, src, dst, i, j) => EdgeDeleted(st, sc, t, src, dst, i, j, read, ts, ok, st')
       case OpSetEdge(t, src, dst, i, j, c, x) => EdgeSet(st, sc, t, src, dst, i, j, c, x, read, ts, ok, st')
       case OpSchema(change) => Changed(st, sc, change, ok, st', sc')
  }

  ghost predicate Steps(x: (St, Schema), op: Op, read: nat, ts: nat, ok: bool, y: (St, Schema)) {
    Effect(x.0, x.1, op, read, ts, ok, y.0, y.1)
  }

  lemma StepIs(x: (St, Schema), op: Op, read: nat, ts: nat, ok: bool, y: (St, Schema))
    requires Effect(x.0, x.1, op, read, ts, ok, y.0, y.1)
    ensures Steps(x, op, read, ts, ok, y)
  {
    hide Effect;
  }

  lemma BaseAsItWas(st: St, base: map<Ref, Block>)
    requires Inv(st, base)
    ensures forall r :: r in base ==> r in st.heap && st.heap[r] == base[r]
  {
  }

  /** Renaming does not move properties into the lists or out of them. */
  lemma KeepsLayout(sc: Schema, t: Trip, ps: seq<Prop>)
    requires |ps| == |sc.eprops(t)| && forall i :: 0 <= i < |ps| ==> ps[i].special == sc.eprops(t)[i].special
    ensures WithEdgeProps(sc, t, ps).Bundled(t) == sc.Bundled(t)
  {
  }

  lemma SamePropsAgain(sc: Schema, l: Label, ps: seq<Prop>)
    ensures WithProps(sc, l, WithProps(sc, l, ps).vprops(l)) == WithProps(sc, l, ps)
  {
  }

  lemma SameEdgePropsAgain(sc: Schema, t: Trip, ps: seq<Prop>)
    ensures WithEdgeProps(sc, t, WithEdgeProps(sc, t, ps).eprops(t)) == WithEdgeProps(sc, t, ps)
  {
  }
}
