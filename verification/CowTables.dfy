/** Vertices, edges and cells as the mutators see them, and what a detach leaves as it was. */
module CowTables {
  import opened CowState
  import opened CowEdges
  import opened CowSchema

  /** An edge seen from a vertex: its triple, source and destination. */
  datatype Incident = Incident(t: Trip, src: Vid, dst: Vid)

  /** IsValidLid. */
  predicate Live(st: St, l: Label, v: Vid, ts: nat) {
    v < |CellsOf(st, Indexer(l))| && v < |CellsOf(st, Stamps(l))| && 0 <= CellsOf(st, Stamps(l))[v] <= ts
  }

  /** Both ends of an edge of an existing type are valid. */
  predicate Ends(st: St, sc: Schema, t: Trip, src: Vid, dst: Vid, ts: nat) {
    t in sc.trips && Live(st, t.src, src, ts) && Live(st, t.dst, dst, ts)
  }

  predicate InRole(st: St, t: Trip, v: Vid, isSrc: bool, ts: nat, x: Incident) {
    x.t == t && if isSrc then x.src == v && Sees(ListOf(st, OutCsr(t), v), x.dst, ts)
                else x.dst == v && Sees(ListOf(st, InCsr(t), v), x.src, ts)
  }

  /** x is an edge at vertex v of label l, in either role. */
  predicate IncidentTo(st: St, sc: Schema, l: Label, v: Vid, ts: nat, x: Incident) {
    x.t in sc.trips &&
    (|| (x.t.src == l && InRole(st, x.t, v, true, ts, x))
     || (x.t.dst == l && InRole(st, x.t, v, false, ts, x)))
  }

  /** The label on the other side of a triple. */
  ghost function Other(l: Label, t: Trip): nat {
    if t.src == l then t.dst else t.src
  }

  lemma OtherIs(l: Label, other: Label, e: Label)
    ensures forall t :: Touches(l, t) && Other(l, t) == other && t.e == e ==>
      t == Trip(l, other, e) || t == Trip(other, l, e)
  {
  }

  function MakeIncident(t: Trip, v: Vid, w: Vid, isSrc: bool): Incident {
    if isSrc then Incident(t, v, w) else Incident(t, w, v)
  }

  function RoleSlot(t: Trip, isSrc: bool): Slot { if isSrc then OutCsr(t) else InCsr(t) }

  function RoleLabel(t: Trip, isSrc: bool): Label { if isSrc then t.src else t.dst }

  lemma IncidentIsTrip(st: St, sc: Schema, l: Label, v: Vid, ts: nat, x: Incident)
    requires IncidentTo(st, sc, l, v, ts, x)
    ensures x.t in sc.trips
  {
  }

  lemma SameIncident(st: St, st': St, sc: Schema, l: Label, v: Vid, ts: nat, x: Incident)
    requires Quietly(st, st')
    ensures IncidentTo(st', sc, l, v, ts, x) <==> IncidentTo(st, sc, l, v, ts, x)
  {
  }

  lemma NothingWritten(st: St, cells: set<Slot>, lists: set<(Slot, Vid)>)
    ensures ViewExcept(st, st, cells, lists)
  {
  }

  lemma QuietExcept(st: St, st': St, cells: set<Slot>, lists: set<(Slot, Vid)>)
    requires SameView(st, st')
    ensures ViewExcept(st, st', cells, lists)
  {
  }

  lemma SameCells(st: St, st': St, s: Slot)
    requires Quietly(st, st')
    ensures CellsOf(st', s) == CellsOf(st, s)
  {
  }

  lemma SameList(st: St, st': St, s: Slot, v: Vid)
    requires Quietly(st, st')
    ensures ListOf(st', s, v) == ListOf(st, s, v)
  {
  }

  lemma SameLive(st: St, st': St, l: Label, v: Vid, ts: nat)
    requires Quietly(st, st')
    ensures Live(st', l, v, ts) == Live(st, l, v, ts)
  {
    SameCells(st, st', Indexer(l));
    SameCells(st, st', Stamps(l));
  }

  lemma SameEnds(st: St, st': St, sc: Schema, t: Trip, src: Vid, dst: Vid, ts: nat)
    requires Quietly(st, st')
    ensures Ends(st', sc, t, src, dst, ts) == Ends(st, sc, t, src, dst, ts)
  {
    hide Live, SameView;
    SameLive(st, st', t.src, src, ts);
    SameLive(st, st', t.dst, dst, ts);
  }

  lemma WithListKeys(st: St, s: Slot, v: Vid, edges: seq<Nbr>)
    requires HasDir(st, s)
    ensures WithList(st, s, v, edges).refs == st.refs
  {
  }

  /** An offset of a visible entry. */
  predicate At(edges: seq<Nbr>, i: nat, ts: nat) { i < |edges| && Visible(edges[i], ts) }

  function RowOf(edges: seq<Nbr>, i: nat): int { if i < |edges| then edges[i].prop else -1 }

  /** One row of a column, if it is there. */
  function SetRow(cells: seq<int>, row: int, value: int): (r: seq<int>)
    ensures |r| == |cells| && forall k :: 0 <= k < |r| ==> r[k] == if k == row then value else cells[k]
  {
    if 0 <= row < |cells| then cells[row := value] else cells
  }

  /** A row of a column; columns are resized with default values before they are written. */
  function PutAt(cells: seq<int>, i: nat, x: int): (r: seq<int>)
    ensures i < |r| && r[i] == x && |r| >= |cells|
    ensures forall k :: 0 <= k < |cells| && k != i ==> r[k] == cells[k]
  {
    if i < |cells| then cells[i := x] else cells + seq(i - |cells|, _ => 0) + [x]
  }

  /** The row of a key, or the next row if the key is new. */
  function IndexOf(cells: seq<int>, oid: int): (r: nat)
    ensures r <= |cells| && oid !in cells[..r] && (r < |cells| ==> cells[r] == oid)
  {
    if cells == [] || cells[0] == oid then 0 else 1 + IndexOf(cells[1..], oid)
  }

  function Both(t: Trip, src: Vid, dst: Vid): set<(Slot, Vid)> { {(OutCsr(t), src), (InCsr(t), dst)} }
}
