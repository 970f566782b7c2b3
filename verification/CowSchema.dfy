/** The schema of a copy-on-write clone, and what its changes do to the parts of the clone. */
module CowSchema {
  import opened CowState
  import PropertyLists

  type Name = PropertyLists.Name

  /**
    A property with its default value. The special ones are vector columns of vertices and,
    for edges, those of a type that is never bundled.
   */
  datatype Prop = Prop(name: Name, special: bool, value: int)

  function Names(ps: seq<Prop>): (r: seq<Name>)
    ensures |r| == |ps| && forall i :: 0 <= i < |r| ==> r[i] == ps[i].name
  {
    seq(|ps|, i requires 0 <= i < |ps| => ps[i].name)
  }

  function Defaults(ps: seq<Prop>): (r: seq<int>)
    ensures |r| == |ps| && forall i :: 0 <= i < |r| ==> r[i] == ps[i].value
  {
    seq(|ps|, i requires 0 <= i < |ps| => ps[i].value)
  }

  predicate Distinct(ps: seq<Prop>) { PropertyLists.Distinct(Names(ps)) }

  datatype Schema = Schema(
    labels: nat, edgeLabels: nat,      // vertex_label_frontier, edge_label_frontier
    live: set<Label>,                  // valid vertex labels
    trips: set<Trip>, temp: set<Trip>, // valid edge triplets, and the temporary ones among them
    vprops: Label -> seq<Prop>, eprops: Trip -> seq<Prop>)
  {
    function VCols(l: Label): nat { |vprops(l)| }

    /** A column that is cleared when its vertex is deleted. */
    predicate Vec(l: Label, c: nat) { c < |vprops(l)| && vprops(l)[c].special }

    /** is_bundled: at most one property, inside the adjacency lists. */
    predicate Bundled(t: Trip) { |eprops(t)| == 0 || (|eprops(t)| == 1 && !eprops(t)[0].special) }

    /** The columns of the property table. */
    function ECols(t: Trip): nat { if Bundled(t) then 0 else |eprops(t)| }
  }

  ghost predicate SchemaOk(sc: Schema) {
    && (forall l :: l in sc.live ==> l < sc.labels && Distinct(sc.vprops(l)))
    && (forall t :: t in sc.trips ==>
          t.src in sc.live && t.dst in sc.live && t.e < sc.edgeLabels && Distinct(sc.eprops(t)))
  }

  /** The parts that the schema names. */
  predicate InSchema(s: Slot, sc: Schema) {
    match s
    case Indexer(l) => l in sc.live
    case Stamps(l) => l in sc.live
    case VCol(l, c) => l in sc.live && c < sc.VCols(l)
    case OutCsr(t) => t in sc.trips
    case InCsr(t) => t in sc.trips
    case ECol(t, c) => t in sc.trips && c < sc.ECols(t)
  }

  /** The clone has exactly the parts that the schema names. */
  ghost predicate Complete(st: St, sc: Schema) { forall s :: s in st.refs <==> InSchema(s, sc) }

  predicate Touches(l: Label, t: Trip) { t.src == l || t.dst == l }

  /** The slots a vertex insertion writes. */
  function VertexSlots(l: Label, n: nat): set<Slot> {
    {Indexer(l), Stamps(l)} + set c | 0 <= c < n :: VCol(l, c)
  }

  function EdgeCols(t: Trip, n: nat): set<Slot> { set c | 0 <= c < n :: ECol(t, c) }

  // ---- changed schemas --------------------------------------------------------------------------

  function Put(f: Label -> seq<Prop>, l: Label, ps: seq<Prop>): Label -> seq<Prop> { (x: Label) => if x == l then ps else f(x) }

  function PutTrip(f: Trip -> seq<Prop>, t: Trip, ps: seq<Prop>): Trip -> seq<Prop> { (x: Trip) => if x == t then ps else f(x) }

  function WithVertexType(sc: Schema, l: Label, ps: seq<Prop>): Schema {
    sc.(labels := if l < sc.labels then sc.labels else l + 1, live := sc.live + {l}, vprops := Put(sc.vprops, l, ps))
  }

  function WithEdgeType(sc: Schema, t: Trip, ps: seq<Prop>, temp: bool): Schema {
    sc.(edgeLabels := if t.e < sc.edgeLabels then sc.edgeLabels else t.e + 1, trips := sc.trips + {t},
        temp := if temp then sc.temp + {t} else sc.temp - {t}, eprops := PutTrip(sc.eprops, t, ps))
  }

  function WithoutLabel(sc: Schema, l: Label): Schema {
    sc.(live := sc.live - {l}, trips := (set t | t in sc.trips && !Touches(l, t)))
  }

  function WithoutTrip(sc: Schema, t: Trip): Schema { sc.(trips := sc.trips - {t}) }

  function WithProps(sc: Schema, l: Label, ps: seq<Prop>): Schema { sc.(vprops := Put(sc.vprops, l, ps)) }

  function WithEdgeProps(sc: Schema, t: Trip, ps: seq<Prop>): Schema { sc.(eprops := PutTrip(sc.eprops, t, ps)) }

  // ---- reading ------------------------------------------------------------------------------------

  /** Both read the same everywhere, where a part that does not exist reads as empty. */
  ghost predicate SameReads(st: St, st': St) {
    (forall a: Slot, v: Vid :: ListOf(st', a, v) == ListOf(st, a, v)) && (forall a :: CellsOf(st', a) == CellsOf(st, a))
  }

  lemma Absent(st: St, a: Slot, v: Vid)
    ensures a !in st.refs ==> ListOf(st, a, v) == [] && CellsOf(st, a) == []
  {
  }

  lemma AbsentReads(st: St, s: Slot)
    ensures s !in st.refs ==> CellsOf(st, s) == [] && forall v: Vid :: ListOf(st, s, v) == []
  {
  }

  lemma NoList(st: St, a: Slot, v: Vid, base: map<Ref, Block>)
    requires Inv(st, base)
    ensures a !in st.refs || !IsCsr(a) ==> ListOf(st, a, v) == []
  {
  }

  predicate OfVertex(s: Slot, l: Label, cols: nat) {
    s == Indexer(l) || s == Stamps(l) || (s.VCol? && s.l == l && s.c < cols)
  }

  /** The parts that go with a vertex label. */
  predicate OfLabel(s: Slot, l: Label) {
    match s
    case Indexer(k) => k == l
    case Stamps(k) => k == l
    case VCol(k, _) => k == l
    case OutCsr(t) => Touches(l, t)
    case InCsr(t) => Touches(l, t)
    case ECol(t, _) => Touches(l, t)
  }

  predicate OfTrip(s: Slot, t: Trip) { (s.OutCsr? || s.InCsr? || s.ECol?) && s.t == t }

  lemma ReadsStay(st: St)
    ensures SameReads(st, st)
  {
  }

  ghost predicate KeptReads(st: St, st': St, keep: map<Slot, Slot>) {
    && (forall a: Slot, v: Vid :: ListOf(st', a, v) == if a in keep then ListOf(st, keep[a], v) else [])
    && (forall a :: CellsOf(st', a) == if a in keep then CellsOf(st, keep[a]) else [])
  }

  /** Some parts are gone, and every other one reads as before. */
  ghost predicate Forgets(st: St, st': St, gone: Slot -> bool) {
    && (forall a: Slot, v: Vid :: ListOf(st', a, v) == if gone(a) then [] else ListOf(st, a, v))
    && (forall a: Slot :: CellsOf(st', a) == if gone(a) then [] else CellsOf(st, a))
  }

  lemma KeepReads(st: St, st': St, keep: map<Slot, Slot>, gone: Slot -> bool)
    requires KeptReads(st, st', keep) && forall s :: s in keep ==> keep[s] == s
    requires forall s :: s in keep <==> s in st.refs && !gone(s)
    ensures Forgets(st, st', gone)
  {
    hide ListOf, CellsOf;
    forall a: Slot, v: Vid ensures ListOf(st', a, v) == if gone(a) then [] else ListOf(st, a, v) { Absent(st, a, v); }
    forall a: Slot ensures CellsOf(st', a) == if gone(a) then [] else CellsOf(st, a) { Absent(st, a, 0); }
  }

  // ---- types ----------------------------------------------------------------------------------------

  lemma NoVertexSlots(st: St, sc: Schema, l: Label)
    requires Complete(st, sc) && l !in sc.live
    ensures Indexer(l) !in st.refs && Stamps(l) !in st.refs && forall c: nat :: VCol(l, c) !in st.refs
  {
  }

  lemma VertexSlotsStart(l: Label)
    ensures VertexSlots(l, 0) == {Indexer(l)} + {Stamps(l)}
  {
  }

  lemma VertexSlotsStep(l: Label, c: nat)
    ensures VertexSlots(l, c + 1) == VertexSlots(l, c) + {VCol(l, c)} && VCol(l, c) !in VertexSlots(l, c)
  {
  }

  lemma VertexTypeComplete(st: St, st': St, sc: Schema, l: Label, ps: seq<Prop>)
    requires Complete(st, sc) && SchemaOk(sc) && l !in sc.live && st'.refs.Keys == st.refs.Keys + VertexSlots(l, |ps|)
    ensures Complete(st', WithVertexType(sc, l, ps)) && (SchemaOk(WithVertexType(sc, l, ps)) <==> Distinct(ps))
  {
    hide Distinct;
    var sc' := WithVertexType(sc, l, ps);
    forall s ensures s in st'.refs <==> InSchema(s, sc') {
      assert s in st'.refs <==> s in st.refs || s in VertexSlots(l, |ps|);
      assert s in VertexSlots(l, |ps|) <==> OfVertex(s, l, |ps|);
    }
    assert sc'.vprops(l) == ps;
  }

  function EdgeSlots(t: Trip, cols: nat): set<Slot> { {OutCsr(t), InCsr(t)} + EdgeCols(t, cols) }

  lemma NoEdgeSlots(st: St, sc: Schema, t: Trip)
    requires Complete(st, sc) && t !in sc.trips
    ensures OutCsr(t) !in st.refs && InCsr(t) !in st.refs && forall c: nat :: ECol(t, c) !in st.refs
  {
  }

  lemma EdgeSlotsStart(t: Trip)
    ensures EdgeSlots(t, 0) == {OutCsr(t)} + {InCsr(t)}
  {
  }

  lemma EdgeSlotsStep(t: Trip, c: nat)
    ensures EdgeSlots(t, c + 1) == EdgeSlots(t, c) + {ECol(t, c)} && ECol(t, c) !in EdgeSlots(t, c)
  {
  }

  lemma EdgeTypeComplete(st: St, st': St, sc: Schema, t: Trip, ps: seq<Prop>, temp: bool)
    requires Complete(st, sc) && SchemaOk(sc) && t !in sc.trips && t.src in sc.live && t.dst in sc.live
    requires var sc' := WithEdgeType(sc, t, ps, temp); st'.refs.Keys == st.refs.Keys + EdgeSlots(t, sc'.ECols(t))
    ensures Complete(st', WithEdgeType(sc, t, ps, temp)) && (SchemaOk(WithEdgeType(sc, t, ps, temp)) <==> Distinct(ps))
  {
    hide Distinct;
    var sc' := WithEdgeType(sc, t, ps, temp);
    var cols := sc'.ECols(t);
    forall s ensures s in st'.refs <==> InSchema(s, sc') {
      assert s in st'.refs <==> s in st.refs || s in EdgeSlots(t, cols);
      assert s in EdgeSlots(t, cols) <==> OfTrip(s, t) && (s.ECol? ==> s.c < cols);
    }
    assert sc'.eprops(t) == ps;
  }

  lemma LabelGone(st: St, st': St, sc: Schema, l: Label, keep: map<Slot, Slot>)
    requires Complete(st, sc) && SchemaOk(sc) && st'.refs.Keys == keep.Keys && KeptReads(st, st', keep)
    requires keep == map s | s in st.refs && !OfLabel(s, l) :: s
    ensures Complete(st', WithoutLabel(sc, l)) && SchemaOk(WithoutLabel(sc, l))
    ensures Forgets(st, st', (s: Slot) => OfLabel(s, l))
  {
    hide ListOf, CellsOf, KeptReads, Forgets;
    var sc' := WithoutLabel(sc, l);
    forall s ensures s in st'.refs <==> InSchema(s, sc') { assert s in st'.refs <==> s in keep; }
    KeepReads(st, st', keep, (s: Slot) => OfLabel(s, l));
  }

  lemma TripGone(st: St, st': St, sc: Schema, t: Trip, keep: map<Slot, Slot>)
    requires Complete(st, sc) && SchemaOk(sc) && st'.refs.Keys == keep.Keys && KeptReads(st, st', keep)
    requires keep == map s | s in st.refs && !OfTrip(s, t) :: s
    ensures Complete(st', WithoutTrip(sc, t)) && SchemaOk(WithoutTrip(sc, t))
    ensures Forgets(st, st', (s: Slot) => OfTrip(s, t))
  {
    hide ListOf, CellsOf, KeptReads, Forgets;
    forall s ensures s in st'.refs <==> InSchema(s, WithoutTrip(sc, t)) { assert s in st'.refs <==> s in keep; }
    KeepReads(st, st', keep, (s: Slot) => OfTrip(s, t));
  }
}
