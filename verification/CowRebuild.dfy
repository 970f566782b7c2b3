/**
  A change of an edge type between a property inside the adjacency lists and a property table
  rebuilds both CSRs: the edges that are not deleted are exported from the outgoing lists and
  put, with their new data, into fresh lists of both directions.
 */
module CowRebuild {
  import opened CowState
  import opened CowEdges
  import opened CowSchema
  import opened CowColumns

  datatype Edge = Edge(src: Vid, dst: Vid, prop: int)

  // ---- export -----------------------------------------------------------------------------------

  /** The entries of one list that are not deleted. */
  function Alive(edges: seq<Nbr>, v: Vid): seq<Edge> {
    if edges == [] then []
    else
      var n := edges[|edges| - 1];
      Alive(edges[..|edges| - 1], v) + if n.dead then [] else [Edge(v, n.vid, n.prop)]
  }

  lemma AliveSnoc(edges: seq<Nbr>, n: Nbr, v: Vid)
    ensures Alive(edges + [n], v) == Alive(edges, v) + if n.dead then [] else [Edge(v, n.vid, n.prop)]
  {
    assert (edges + [n])[..|edges|] == edges;
  }

  /** Exactly the entries that are not deleted are exported. */
  lemma {:induction false} AliveIff(edges: seq<Nbr>, v: Vid, e: Edge)
    ensures e in Alive(edges, v) <==>
      exists i :: 0 <= i < |edges| && !edges[i].dead && e == Edge(v, edges[i].vid, edges[i].prop)
    decreases |edges|
  {
    if edges != [] {
      var k := |edges| - 1;
      var pre, n := edges[..k], edges[k];
      AliveIff(pre, v, e);
      if e in Alive(pre, v) {
        var i :| 0 <= i < k && !pre[i].dead && e == Edge(v, pre[i].vid, pre[i].prop);
        assert edges[i] == pre[i];
      } else if !n.dead && e == Edge(v, n.vid, n.prop) {
        assert edges[k] == n;
      }
      if i :| 0 <= i < |edges| && !edges[i].dead && e == Edge(v, edges[i].vid, edges[i].prop) {
        if i < k { assert pre[i] == edges[i]; }
      }
    }
  }

  /** batch_export: the lists of the first n vertices, one after the other. */
  function Exported(st: St, s: Slot, n: nat): seq<Edge> {
    if n == 0 then [] else Exported(st, s, n - 1) + Alive(ListOf(st, s, n - 1), n - 1)
  }

  // ---- fresh lists --------------------------------------------------------------------------------

  function Home(e: Edge, out: bool): Vid { if out then e.src else e.dst }

  function Entry(e: Edge, out: bool): Nbr { Nbr(if out then e.dst else e.src, 0, false, e.prop) }

  /** batch_put_edges into an empty CSR: the list of one vertex. */
  function Entries(es: seq<Edge>, v: Vid, out: bool): seq<Nbr> {
    if es == [] then []
    else
      var e := es[|es| - 1];
      Entries(es[..|es| - 1], v, out) + if Home(e, out) == v then [Entry(e, out)] else []
  }

  lemma EntriesNil(v: Vid, out: bool)
    ensures Entries([], v, out) == []
  {
  }

  lemma EntriesSnoc(es: seq<Edge>, i: nat, v: Vid, out: bool)
    requires i < |es|
    ensures Entries(es[..i + 1], v, out)
         == Entries(es[..i], v, out) + if Home(es[i], out) == v then [Entry(es[i], out)] else []
  {
    assert es[..i + 1][..i] == es[..i];
  }

  /** Whatever is put is visible at every timestamp. */
  lemma {:induction false} EntriesVisible(es: seq<Edge>, v: Vid, out: bool, ts: nat)
    ensures forall i :: 0 <= i < |Entries(es, v, out)| ==> Visible(Entries(es, v, out)[i], ts)
    decreases |es|
  {
    if es != [] { EntriesVisible(es[..|es| - 1], v, out, ts); }
  }

  lemma LastHalf(es: seq<Edge>, v: Vid, w: Vid, out: bool, ts: nat)
    requires es != []
    ensures var e := es[|es| - 1];
      Half(Entries(es, v, out), w, ts) == Half(Entries(es[..|es| - 1], v, out), w, ts)
        + if Home(e, out) == v then Share(Entry(e, out), w, ts) else multiset{}
  {
    var pre := Entries(es[..|es| - 1], v, out);
    HalfSnoc(pre, Entry(es[|es| - 1], out), w, ts);
    assert pre + [] == pre;
  }

  /** Whatever is put, both directions hold the same edges. */
  lemma {:induction false} EntriesMirror(es: seq<Edge>, a: Vid, b: Vid, ts: nat)
    ensures Half(Entries(es, a, true), b, ts) == Half(Entries(es, b, false), a, ts)
    decreases |es|
  {
    if es != [] {
      var n := |es| - 1;
      EntriesMirror(es[..n], a, b, ts);
      LastHalf(es, a, b, true, ts);
      LastHalf(es, b, a, false, ts);
    }
  }

  // ---- what is kept ----------------------------------------------------------------------------------

  /** Where the value of a property stands: in the entry, or in a row of a column that the entry names. */
  datatype Reader = Inline | InColumn(cells: seq<int>) | Always(value: int)

  function Value(r: Reader, p: int): int {
    match r
    case Inline => p
    case InColumn(cells) => if 0 <= p < |cells| then cells[p] else 0
    case Always(value) => value
  }

  /** Edges with the value of a property. */
  function Read(es: seq<Edge>, r: Reader): (vs: seq<Edge>)
    ensures |vs| == |es|
  {
    seq(|es|, i requires 0 <= i < |es| => es[i].(prop := Value(r, es[i].prop)))
  }

  /** The edges of one vertex with the value of a property. */
  function EdgesFrom(st: St, t: Trip, v: Vid, r: Reader): seq<Edge> {
    Read(Alive(ListOf(st, OutCsr(t), v), v), r)
  }

  function From(es: seq<Edge>, v: Vid): seq<Edge> {
    if es == [] then []
    else From(es[..|es| - 1], v) + if es[|es| - 1].src == v then [es[|es| - 1]] else []
  }

  lemma {:induction false} FromAppend(a: seq<Edge>, b: seq<Edge>, v: Vid)
    ensures From(a + b, v) == From(a, v) + From(b, v)
    decreases |b|
  {
    if b == [] {
      assert a + b == a;
    } else {
      var n := |b| - 1;
      assert (a + b)[..|a + b| - 1] == a + b[..n];
      FromAppend(a, b[..n], v);
    }
  }

  lemma {:induction false} FromAlive(edges: seq<Nbr>, u: Vid, v: Vid)
    ensures From(Alive(edges, u), v) == if u == v then Alive(edges, v) else []
    decreases |edges|
  {
    if edges != [] {
      var n := edges[|edges| - 1];
      FromAlive(edges[..|edges| - 1], u, v);
      FromAppend(Alive(edges[..|edges| - 1], u), if n.dead then [] else [Edge(u, n.vid, n.prop)], v);
      if !n.dead { FromOne(Edge(u, n.vid, n.prop), v); }
    }
  }

  lemma FromOne(e: Edge, v: Vid)
    ensures From([e], v) == if e.src == v then [e] else []
  {
    assert [e][..0] == [];
  }

  /** The export holds the edges of every vertex, in the order of its list. */
  lemma {:induction false} FromExported(st: St, s: Slot, n: nat, v: Vid)
    ensures From(Exported(st, s, n), v) == if v < n then Alive(ListOf(st, s, v), v) else []
  {
    hide ListOf, From;
    if n > 0 {
      FromExported(st, s, n - 1, v);
      FromAppend(Exported(st, s, n - 1), Alive(ListOf(st, s, n - 1), n - 1), v);
      FromAlive(ListOf(st, s, n - 1), n - 1, v);
    } else {
      assert From([], v) == [] by { FromNil(v); }
    }
  }

  lemma FromNil(v: Vid)
    ensures From([], v) == []
  {
  }

  lemma {:induction false} FromHas(es: seq<Edge>, e: Edge, v: Vid)
    ensures e in From(es, v) <==> e in es && e.src == v
    decreases |es|
  {
    if es != [] {
      FromHas(es[..|es| - 1], e, v);
      assert es == es[..|es| - 1] + [es[|es| - 1]];
    }
  }

  /** Every edge that is not deleted names a row of the column. */
  ghost predicate RowsIn(st: St, t: Trip, cells: seq<int>) {
    forall v: Vid, e :: e in Alive(ListOf(st, OutCsr(t), v), v) ==> 0 <= e.prop < |cells|
  }

  /** The check on the export is a check on all lists. */
  lemma RowsExported(st: St, t: Trip, n: nat, cells: seq<int>)
    requires forall v: Vid :: v >= n ==> ListOf(st, OutCsr(t), v) == []
    ensures (forall e :: e in Exported(st, OutCsr(t), n) ==> 0 <= e.prop < |cells|) <==> RowsIn(st, t, cells)
  {
    hide ListOf, Alive, Exported, From;
    var es := Exported(st, OutCsr(t), n);
    forall v: Vid, e: Edge ensures e in Alive(ListOf(st, OutCsr(t), v), v) <==> e in es && e.src == v {
      FromExported(st, OutCsr(t), n, v);
      FromHas(es, e, v);
      if v >= n { AliveNil(v); FromHas(es, e, v); }
    }
    forall e: Edge | e in es ensures e in Alive(ListOf(st, OutCsr(t), e.src), e.src) {
    }
  }

  lemma {:induction false} AliveEntries(es: seq<Edge>, v: Vid)
    ensures Alive(Entries(es, v, true), v) == From(es, v)
    decreases |es|
  {
    if es != [] {
      AliveEntries(es[..|es| - 1], v);
      AliveSnoc(Entries(es[..|es| - 1], v, true), Entry(es[|es| - 1], true), v);
      assert Entries(es[..|es| - 1], v, true) + [] == Entries(es[..|es| - 1], v, true);
    }
  }

  lemma {:induction false} FromRead(es: seq<Edge>, r: Reader, v: Vid)
    ensures From(Read(es, r), v) == Read(From(es, v), r)
    decreases |es|
  {
    if es != [] {
      var n := |es| - 1;
      FromRead(es[..n], r, v);
      assert Read(es, r)[..n] == Read(es[..n], r);
    }
  }

  /** If the exported edges read the same before and after, so do the lists of every vertex. */
  lemma ListsReadSame(st: St, s: Slot, n: nat, v: Vid, r: Reader, es: seq<Edge>, r': Reader)
    requires Read(es, r') == Read(Exported(st, s, n), r) && (v < n || ListOf(st, s, v) == [])
    ensures Read(Alive(Entries(es, v, true), v), r') == Read(Alive(ListOf(st, s, v), v), r)
  {
    hide Alive, Entries, From, Read, Exported, ListOf;
    AliveEntries(es, v);
    FromRead(es, r', v);
    FromRead(Exported(st, s, n), r, v);
    FromExported(st, s, n, v);
    if v >= n { AliveNil(v); }
  }

  lemma AliveNil(v: Vid)
    ensures Alive([], v) == []
  {
  }

  // ---- new data ------------------------------------------------------------------------------------------

  /** Edge i refers to row i of a new property table. */
  function Numbered(es: seq<Edge>): (r: seq<Edge>)
    ensures |r| == |es|
  {
    seq(|es|, i requires 0 <= i < |es| => es[i].(prop := i))
  }

  /** The column of the properties that stood in the lists. */
  function Props(es: seq<Edge>): (r: seq<int>)
    ensures |r| == |es|
  {
    seq(|es|, i requires 0 <= i < |es| => es[i].prop)
  }

  function Fills(n: nat, values: seq<int>): (r: seq<seq<int>>)
    ensures |r| == |values| && forall i :: 0 <= i < |r| ==> r[i] == Fill(n, values[i])
  {
    seq(|values|, i requires 0 <= i < |values| => Fill(n, values[i]))
  }

  lemma NumberedReads(es: seq<Edge>, value: int)
    ensures Read(Numbered(es), InColumn(Props(es))) == Read(es, Inline)
    ensures Read(Numbered(es), InColumn(Fill(|es|, value))) == Read(es, Always(value))
  {
  }

  lemma ReadTwice(es: seq<Edge>, r: Reader)
    ensures Read(Read(es, r), Inline) == Read(es, r)
  {
  }

  // ---- rows ------------------------------------------------------------------------------------------------

  predicate InRows(edges: seq<Nbr>, n: nat) { forall i :: 0 <= i < |edges| ==> 0 <= edges[i].prop < n }

  /** All columns have the same length, and every entry names a row. */
  ghost predicate TableOk(st: St, t: Trip, cols: nat) {
    && (forall c: nat :: c < cols ==> |CellsOf(st, ECol(t, c))| == |CellsOf(st, ECol(t, 0))|)
    && (forall v: Vid :: InRows(ListOf(st, OutCsr(t), v), |CellsOf(st, ECol(t, 0))|))
  }

  ghost predicate RowsOk(st: St, sc: Schema) {
    forall t :: t in sc.trips && !sc.Bundled(t) ==> TableOk(st, t, sc.ECols(t))
  }

  predicate SameProps(a: seq<Nbr>, b: seq<Nbr>) { |a| == |b| && forall i :: 0 <= i < |a| ==> b[i].prop == a[i].prop }

  /** Entries name the same rows, and columns are as long as before. */
  ghost predicate TableSame(st: St, st': St, t: Trip) {
    && (forall v: Vid :: SameProps(ListOf(st, OutCsr(t), v), ListOf(st', OutCsr(t), v)))
    && (forall c: nat :: |CellsOf(st', ECol(t, c))| == |CellsOf(st, ECol(t, c))|)
  }

  lemma TableStays(st: St, st': St, t: Trip, cols: nat)
    requires TableSame(st, st', t) && TableOk(st, t, cols)
    ensures TableOk(st', t, cols)
  {
    hide ListOf, CellsOf;
    forall v: Vid ensures InRows(ListOf(st', OutCsr(t), v), |CellsOf(st', ECol(t, 0))|) {
      assert SameProps(ListOf(st, OutCsr(t), v), ListOf(st', OutCsr(t), v));
      assert InRows(ListOf(st, OutCsr(t), v), |CellsOf(st, ECol(t, 0))|);
    }
  }

  /** Only one edge type is written, or none. */
  lemma RowsStay(st: St, st': St, sc: Schema, sc': Schema, but: set<Trip>)
    requires RowsOk(st, sc) && forall t :: t in sc'.trips && t !in but ==> t in sc.trips && TableSame(st, st', t)
    requires forall t :: t in sc'.trips && t !in but ==> sc'.eprops(t) == sc.eprops(t)
    requires forall t :: t in but && t in sc'.trips && !sc'.Bundled(t) ==> TableOk(st', t, sc'.ECols(t))
    ensures RowsOk(st', sc')
  {
    hide TableOk, TableSame;
    forall t | t in sc'.trips && !sc'.Bundled(t) ensures TableOk(st', t, sc'.ECols(t)) {
      if t !in but { TableStays(st, st', t, sc.ECols(t)); }
    }
  }

  lemma SameTable(st: St, st': St, t: Trip)
    requires forall v: Vid :: ListOf(st', OutCsr(t), v) == ListOf(st, OutCsr(t), v)
    requires forall c: nat :: CellsOf(st', ECol(t, c)) == CellsOf(st, ECol(t, c))
    ensures TableSame(st, st', t)
  {
    hide ListOf, CellsOf;
  }

  /** So the fatal check on rows cannot fire. */
  lemma {:induction false} AliveRows(edges: seq<Nbr>, v: Vid, n: nat, e: Edge)
    requires InRows(edges, n) && e in Alive(edges, v)
    ensures 0 <= e.prop < n
    decreases |edges|
  {
    var pre := edges[..|edges| - 1];
    if e in Alive(pre, v) { AliveRows(pre, v, n, e); }
  }

  lemma RowsFit(st: St, sc: Schema, t: Trip, c: nat)
    requires RowsOk(st, sc) && t in sc.trips && !sc.Bundled(t) && c < sc.ECols(t)
    ensures RowsIn(st, t, CellsOf(st, ECol(t, c)))
  {
    hide ListOf, CellsOf, Alive;
    assert TableOk(st, t, sc.ECols(t));
    forall v: Vid, e | e in Alive(ListOf(st, OutCsr(t), v), v) ensures 0 <= e.prop < |CellsOf(st, ECol(t, c))| {
      AliveRows(ListOf(st, OutCsr(t), v), v, |CellsOf(st, ECol(t, 0))|, e);
    }
  }

  lemma {:induction false} EntriesInRows(es: seq<Edge>, v: Vid, n: nat)
    requires forall i :: 0 <= i < |es| ==> 0 <= es[i].prop < n
    ensures InRows(Entries(es, v, true), n)
    decreases |es|
  {
    if es != [] { EntriesInRows(es[..|es| - 1], v, n); }
  }

  /** A new table has a row for every edge. */
  lemma NumberedTable(st: St, st': St, t: Trip, es: seq<Edge>, cols: seq<seq<int>>)
    requires RebuiltAs(st, st', t, Numbered(es), cols) && cols != [] && forall c :: 0 <= c < |cols| ==> |cols[c]| == |es|
    ensures TableOk(st', t, |cols|)
  {
    hide ListOf, CellsOf, Entries, OthersSame;
    assert CellsOf(st', ECol(t, 0)) == cols[0];
    forall v: Vid ensures InRows(ListOf(st', OutCsr(t), v), |es|) { EntriesInRows(Numbered(es), v, |es|); }
  }

  // ---- the rebuilt part ---------------------------------------------------------------------------------

  /** The edge type is as given, and everything else reads as before. */
  ghost predicate RebuiltAs(st: St, st': St, t: Trip, es: seq<Edge>, cols: seq<seq<int>>) {
    && (forall v: Vid :: ListOf(st', OutCsr(t), v) == Entries(es, v, true))
    && (forall v: Vid :: ListOf(st', InCsr(t), v) == Entries(es, v, false))
    && (forall c: nat :: c < |cols| ==> CellsOf(st', ECol(t, c)) == cols[c])
    && OthersSame(st, st', t)
  }

  ghost predicate OthersSame(st: St, st': St, t: Trip) {
    && (forall a: Slot, v: Vid :: !OfTrip(a, t) ==> ListOf(st', a, v) == ListOf(st, a, v))
    && (forall a: Slot :: !OfTrip(a, t) ==> CellsOf(st', a) == CellsOf(st, a))
  }

  /** A rebuilt edge type has every edge in both lists, whatever it was before. */
  lemma RebuildMirrors(st: St, st': St, t: Trip, es: seq<Edge>, cols: seq<seq<int>>, ts: nat)
    requires RebuiltAs(st, st', t, es, cols)
    ensures Mirrored(st', t, ts) && (AllMirrored(st, ts) ==> AllMirrored(st', ts))
  {
    hide Half, ListOf, Entries;
    forall a: Vid, b: Vid ensures Half(ListOf(st', OutCsr(t), a), b, ts) == Half(ListOf(st', InCsr(t), b), a, ts) {
      EntriesMirror(es, a, b, ts);
    }
    if AllMirrored(st, ts) {
      forall u ensures Mirrored(st', u, ts) {
        forall a: Vid, b: Vid ensures u != t ==> Half(ListOf(st', OutCsr(u), a), b, ts) == Half(ListOf(st', InCsr(u), b), a, ts) {
          MirroredAt(st, u, a, b, ts);
        }
      }
    }
  }

  /** Every vertex has the same edges in the same order, each with the value it had. */
  lemma RebuildKeeps(st: St, st': St, t: Trip, n: nat, r: Reader, es: seq<Edge>, cols: seq<seq<int>>, r': Reader)
    requires RebuiltAs(st, st', t, es, cols) && Read(es, r') == Read(Exported(st, OutCsr(t), n), r)
    requires forall v: Vid :: v >= n ==> ListOf(st, OutCsr(t), v) == []
    ensures forall v: Vid :: EdgesFrom(st', t, v, r') == EdgesFrom(st, t, v, r)
  {
    hide Read, Alive, Entries, ListOf, Exported;
    forall v: Vid ensures EdgesFrom(st', t, v, r') == EdgesFrom(st, t, v, r) {
      ListsReadSame(st, OutCsr(t), n, v, r, es, r');
    }
  }

  // ---- the schema -------------------------------------------------------------------------------------------

  lemma TableComplete(st: St, st': St, sc: Schema, t: Trip, ps: seq<Prop>)
    requires Complete(st, sc) && SchemaOk(sc) && t in sc.trips && Distinct(ps)
    requires forall s :: s in st'.refs <==>
      (s in st.refs && !OfTrip(s, t)) || s in EdgeSlots(t, WithEdgeProps(sc, t, ps).ECols(t))
    ensures Complete(st', WithEdgeProps(sc, t, ps)) && SchemaOk(WithEdgeProps(sc, t, ps))
  {
    hide Distinct;
    var sc' := WithEdgeProps(sc, t, ps);
    var cols := sc'.ECols(t);
    forall s ensures s in st'.refs <==> InSchema(s, sc') {
      assert s in EdgeSlots(t, cols) <==> OfTrip(s, t) && (s.ECol? ==> s.c < cols);
    }
  }

  // ---- putting the parts together ---------------------------------------------------------------------

  lemma KeptOthers(st: St, st': St, t: Trip, keep: map<Slot, Slot>)
    requires KeptReads(st, st', keep) && keep == map s | s in st.refs && !OfTrip(s, t) :: s
    ensures OthersSame(st, st', t)
  {
    hide ListOf, CellsOf;
    forall a: Slot, v: Vid ensures !OfTrip(a, t) ==> ListOf(st', a, v) == ListOf(st, a, v) { Absent(st, a, v); }
    forall a: Slot ensures !OfTrip(a, t) ==> CellsOf(st', a) == CellsOf(st, a) { Absent(st, a, 0); }
  }

  ghost predicate ListsBuilt(st: St, st': St, t: Trip, es: seq<Edge>) {
    && (forall v: Vid :: ListOf(st', OutCsr(t), v) == Entries(es, v, true))
    && (forall v: Vid :: ListOf(st', InCsr(t), v) == Entries(es, v, false))
    && (forall a: Slot, v: Vid :: a != OutCsr(t) && a != InCsr(t) ==> ListOf(st', a, v) == ListOf(st, a, v))
    && (forall a: Slot :: a != OutCsr(t) && a != InCsr(t) ==> CellsOf(st', a) == CellsOf(st, a))
  }

  /** The flags of a part are as these sets say. */
  ghost predicate FlagsOf(st: St, s: Slot, own: set<Slot>, adj: set<(Slot, Vid)>) {
    (s in st.own <==> s in own) && forall v: Vid :: (s, v) in st.ownAdj <==> (s, v) in adj
  }

  lemma SameFlags(st: St, t: Trip)
    ensures FlagsOf(st, OutCsr(t), {OutCsr(t), InCsr(t)}, {}) ==> FlagsOf(st, OutCsr(t), {OutCsr(t)}, {})
    ensures FlagsOf(st, InCsr(t), {OutCsr(t), InCsr(t)}, {}) ==> FlagsOf(st, InCsr(t), {InCsr(t)}, {})
  {
  }

  lemma NotColumns(t: Trip, n: nat)
    ensures OutCsr(t) !in EdgeCols(t, n) && InCsr(t) !in EdgeCols(t, n)
  {
  }

  lemma RebuiltParts(st: St, kept: St, tabled: St, st': St, t: Trip, es: seq<Edge>, cols: seq<seq<int>>)
    requires forall s :: s in kept.refs <==> s in st.refs && !OfTrip(s, t)
    requires tabled.refs.Keys == kept.refs.Keys + EdgeCols(t, |cols|)
    requires st'.refs.Keys == tabled.refs.Keys + {OutCsr(t)} + {InCsr(t)}
    requires OthersSame(st, kept, t) && OthersSame(kept, tabled, t) && ListsBuilt(tabled, st', t, es)
    requires forall c: nat :: c < |cols| ==> CellsOf(tabled, ECol(t, c)) == cols[c]
    ensures RebuiltAs(st, st', t, es, cols)
    ensures forall s :: s in st'.refs <==> (s in st.refs && !OfTrip(s, t)) || s in EdgeSlots(t, |cols|)
  {
    hide ListOf, CellsOf, Entries, EdgeCols;
    forall s ensures s in st'.refs <==> (s in st.refs && !OfTrip(s, t)) || s in EdgeSlots(t, |cols|) {
      assert s in st'.refs <==> s in tabled.refs || s == OutCsr(t) || s == InCsr(t);
      assert s in tabled.refs <==> s in kept.refs || s in EdgeCols(t, |cols|);
    }
  }

  /** The flags of everything but one part are as before. */
  ghost predicate FlagsExcept(st: St, st': St, s: Slot) {
    && (forall a: Slot :: a != s ==> (a in st'.own <==> a in st.own))
    && (forall x: (Slot, Vid) :: x.0 != s ==> (x in st'.ownAdj <==> x in st.ownAdj))
  }

  /** A fresh CSR that holds some edges; nothing else is different. */
  ghost predicate Putting(st0: St, st: St, s: Slot, es: seq<Edge>, out: bool, base: map<Ref, Block>) {
    && Inv(st, base) && Private(st, s, base) && s in st.own && st.refs.Keys == st0.refs.Keys + {s} && FlagsExcept(st0, st, s)
    && (forall v: Vid :: ListOf(st, s, v) == Entries(es, v, out))
    && (forall a: Slot, v: Vid :: a != s ==> ListOf(st, a, v) == ListOf(st0, a, v))
    && (forall a: Slot :: a != s ==> CellsOf(st, a) == CellsOf(st0, a))
  }

  lemma StartsPutting(st: St, s: Slot, es: seq<Edge>, out: bool, base: map<Ref, Block>)
    requires Inv(st, base) && s !in st.refs && IsCsr(s)
    ensures Putting(st, Allocated(st, s, Dir(map[])), s, es[..0], out, base)
  {
    hide Inv, ListOf, CellsOf, Entries, Private;
    AllocatedInv(st, s, Dir(map[]), base);
    FreshIsPrivate(st, s, base);
    assert es[..0] == [];
    forall v: Vid ensures Entries(es[..0], v, out) == [] { EntriesNil(v, out); }
  }

  lemma PutsOneMore(st0: St, st: St, s: Slot, es: seq<Edge>, i: nat, out: bool, base: map<Ref, Block>)
    requires i < |es| && IsCsr(s) && Putting(st0, st, s, es[..i], out, base)
    ensures HasDir(st, s)
    ensures Putting(st0, Appended(st, s, Home(es[i], out), Entry(es[i], out)), s, es[..i + 1], out, base)
  {
    hide Inv, ListOf, CellsOf, Entries, Home, Entry, Private, Appended;
    AppendedInv(st, s, Home(es[i], out), Entry(es[i], out), base);
    var st' := Appended(st, s, Home(es[i], out), Entry(es[i], out));
    forall v: Vid ensures ListOf(st', s, v) == Entries(es[..i + 1], v, out) { EntriesSnoc(es, i, v, out); }
  }

  lemma StopsPutting(st0: St, st: St, s: Slot, es: seq<Edge>, out: bool, own: bool, adj: set<(Slot, Vid)>, base: map<Ref, Block>)
    requires Putting(st0, st, s, es, out, base) && IsCsr(s)
    requires (forall x: (Slot, Vid) :: x in adj ==> x.0 == s) && (adj != {} ==> own)
    ensures var st' := Reflagged(st, s, own, adj);
      && Inv(st', base) && st'.refs.Keys == st0.refs.Keys + {s}
      && (forall v: Vid :: ListOf(st', s, v) == Entries(es, v, out))
      && (forall a: Slot, v: Vid :: a != s ==> ListOf(st', a, v) == ListOf(st0, a, v))
      && (forall a: Slot :: a != s ==> CellsOf(st', a) == CellsOf(st0, a))
      && FlagsExcept(st0, st', s) && (s in st'.own <==> own) && forall v: Vid :: (s, v) in st'.ownAdj <==> (s, v) in adj
  {
    hide Inv, ListOf, CellsOf, Entries, Private;
    ReflaggedInv(st, s, own, adj, base);
  }

  lemma FreshIsPrivate(st: St, s: Slot, base: map<Ref, Block>)
    requires Inv(st, base) && s !in st.refs && IsCsr(s)
    ensures Private(Allocated(st, s, Dir(map[])), s, base)
  {
    AllocatedLists(st, s, Dir(map[]));
  }
}
