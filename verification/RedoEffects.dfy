/**
  What each operation of a transaction does to what a reader sees: one row, or one entry of an
  adjacency list, looked up by its place.
 */
module RedoEffects {
  import opened Common
  import opened Redo

  // ---- readers -------------------------------------------------------------------------------------

  function RowAt(g: Graph, l: nat, lid: nat): Option<Row> {
    if l < |g.vs| && lid < |g.vs[l].rows| then Some(g.vs[l].rows[lid]) else None
  }

  function EntAt(l: seq<Ent>, i: nat): Option<Ent> { if i < |l| then Some(l[i]) else None }

  /** Entry i of the outgoing list of vertex v in edge type e. */
  function OutAt(g: Graph, e: nat, v: nat, i: nat): Option<Ent> {
    if e < |g.es| then EntAt(ListAt(g.es[e].out, v), i) else None
  }

  function InAt(g: Graph, e: nat, v: nat, i: nat): Option<Ent> {
    if e < |g.es| then EntAt(ListAt(g.es[e].inn, v), i) else None
  }

  ghost predicate SameSchema(g: Graph, g': Graph) {
    && |g'.vs| == |g.vs| && |g'.es| == |g.es|
    && (forall i :: 0 <= i < |g.vs| ==>
          g'.vs[i].name == g.vs[i].name && g'.vs[i].temp == g.vs[i].temp && g'.vs[i].cols == g.vs[i].cols)
    && (forall i :: 0 <= i < |g.es| ==>
          KeyOf(g'.es[i]) == KeyOf(g.es[i]) && g'.es[i].temp == g.es[i].temp && g'.es[i].cols == g.es[i].cols)
  }

  ghost predicate SameRows(g: Graph, g': Graph) { forall l, lid :: RowAt(g', l, lid) == RowAt(g, l, lid) }

  ghost predicate SameEntries(g: Graph, g': Graph) {
    && (forall e, v, i :: OutAt(g', e, v, i) == OutAt(g, e, v, i))
    && (forall e, v, i :: InAt(g', e, v, i) == InAt(g, e, v, i))
  }

  // ---- vertices --------------------------------------------------------------------------------------

  /** A vertex is written at one place: at the end, or where the same key was deleted. */
  lemma AddVertexEffect(g: Graph, l: nat, oid: int, props: seq<int>, g': Graph) returns (lid: nat)
    requires Exec(g, AddV(l, oid, props)) == Some(g')
    ensures l < |g.vs| && SameSchema(g, g') && SameEntries(g, g')
    ensures lid == |g.vs[l].rows| || (lid < |g.vs[l].rows| && g.vs[l].rows[lid].oid == oid && !g.vs[l].rows[lid].alive)
    ensures RowAt(g', l, lid) == Some(Row(oid, true, props))
    ensures forall k: nat, i: nat :: k != l || i != lid ==> RowAt(g', k, i) == RowAt(g, k, i)
  {
    hide FindRow;
    var at := FindRow(g.vs[l].rows, oid);
    lid := if at.Some? then at.value else |g.vs[l].rows|;
  }

  lemma SetVertexEffect(g: Graph, l: nat, lid: nat, c: nat, x: int, g': Graph)
    requires Exec(g, SetV(l, lid, c, x)) == Some(g')
    ensures SameSchema(g, g') && SameEntries(g, g')
    ensures RowAt(g, l, lid).Some? && RowAt(g, l, lid).value.alive && c < |RowAt(g, l, lid).value.props|
    ensures RowAt(g', l, lid) == Some(RowAt(g, l, lid).value.(props := RowAt(g, l, lid).value.props[c := x]))
    ensures forall k: nat, i: nat :: k != l || i != lid ==> RowAt(g', k, i) == RowAt(g, k, i)
  {
  }

  /** Entry i of the outgoing list of v stands at vertex lid of type ty, or names it. */
  predicate OutTouches(g: Graph, e: nat, v: nat, i: nat, ty: Name, lid: nat) {
    OutAt(g, e, v, i).Some? && ((g.es[e].src == ty && v == lid) || (g.es[e].dst == ty && OutAt(g, e, v, i).value.vid == lid))
  }

  predicate InTouches(g: Graph, e: nat, v: nat, i: nat, ty: Name, lid: nat) {
    InAt(g, e, v, i).Some? && ((g.es[e].dst == ty && v == lid) || (g.es[e].src == ty && InAt(g, e, v, i).value.vid == lid))
  }

  function KilledIf(x: Option<Ent>, hit: bool): Option<Ent> {
    if x.Some? && hit then Some(x.value.(dead := true)) else x
  }

  lemma OwnKilled(m: Adj, v: nat, u: nat, i: nat)
    ensures EntAt(ListAt(KillOwn(m, v), u), i) == KilledIf(EntAt(ListAt(m, u), i), u == v)
  {
  }

  lemma PointingKilled(m: Adj, v: nat, u: nat, i: nat)
    ensures var x := EntAt(ListAt(m, u), i);
      EntAt(ListAt(KillPointing(m, v), u), i) == KilledIf(x, x.Some? && x.value.vid == v)
  {
  }

  lemma DetachedAt(t: EType, ty: Name, v: nat, u: nat, i: nat)
    ensures var x := EntAt(ListAt(t.out, u), i);
      EntAt(ListAt(Detached(t, ty, v).out, u), i) ==
      KilledIf(x, x.Some? && ((t.src == ty && u == v) || (t.dst == ty && x.value.vid == v)))
    ensures var y := EntAt(ListAt(t.inn, u), i);
      EntAt(ListAt(Detached(t, ty, v).inn, u), i) ==
      KilledIf(y, y.Some? && ((t.dst == ty && u == v) || (t.src == ty && y.value.vid == v)))
  {
    hide KillOwn, KillPointing, ListAt, EntAt;
    var inn := if t.dst == ty then KillOwn(t.inn, v) else t.inn;
    var out := if t.dst == ty then KillPointing(t.out, v) else t.out;
    OwnKilled(t.inn, v, u, i);
    PointingKilled(t.out, v, u, i);
    OwnKilled(out, v, u, i);
    PointingKilled(inn, v, u, i);
  }

  /**
    Deleting a live vertex marks its row, and every entry that stands at it or names it, in
    both directions and of every edge type. Nothing else changes.
   */
  lemma DeleteVertexEffect(g: Graph, l: nat, lid: nat, g': Graph)
    requires Exec(g, DelV(l, lid)) == Some(g') && l < |g.vs| && Alive(g.vs[l], lid)
    ensures SameSchema(g, g') && RowAt(g', l, lid) == Some(g.vs[l].rows[lid].(alive := false))
    ensures forall k: nat, i: nat :: k != l || i != lid ==> RowAt(g', k, i) == RowAt(g, k, i)
    ensures forall e: nat, v: nat, i: nat ::
      OutAt(g', e, v, i) == KilledIf(OutAt(g, e, v, i), OutTouches(g, e, v, i, g.vs[l].name, lid))
    ensures forall e: nat, v: nat, i: nat ::
      InAt(g', e, v, i) == KilledIf(InAt(g, e, v, i), InTouches(g, e, v, i, g.vs[l].name, lid))
  {
    hide EntAt, ListAt;
    forall e: nat, v: nat, i: nat
      ensures OutAt(g', e, v, i) == KilledIf(OutAt(g, e, v, i), OutTouches(g, e, v, i, g.vs[l].name, lid))
      ensures InAt(g', e, v, i) == KilledIf(InAt(g, e, v, i), InTouches(g, e, v, i, g.vs[l].name, lid))
    {
      if e < |g.es| { DetachedAt(g.es[e], g.vs[l].name, lid, v, i); }
    }
  }

  /** Deleting a vertex that is not there succeeds and changes nothing. */
  lemma DeleteMissingVertex(g: Graph, l: nat, lid: nat)
    requires l < |g.vs| && !Alive(g.vs[l], lid)
    ensures Exec(g, DelV(l, lid)) == Some(g)
  {
  }

  // ---- edges -------------------------------------------------------------------------------------------

  lemma AddEdgeEffect(g: Graph, e: nat, s: nat, d: nat, props: seq<int>, g': Graph)
    requires Exec(g, AddE(e, s, d, props)) == Some(g')
    ensures e < |g.es| && SameSchema(g, g') && SameRows(g, g')
    ensures var n, m := |ListAt(g.es[e].out, s)|, |ListAt(g.es[e].inn, d)|;
      && OutAt(g', e, s, n) == Some(Ent(d, false, props)) && InAt(g', e, d, m) == Some(Ent(s, false, props))
      && (forall f: nat, v: nat, i: nat :: f != e || v != s || i != n ==> OutAt(g', f, v, i) == OutAt(g, f, v, i))
      && (forall f: nat, v: nat, i: nat :: f != e || v != d || i != m ==> InAt(g', f, v, i) == InAt(g, f, v, i))
  {
    hide FindV;
  }

  lemma DeleteEdgeEffect(g: Graph, e: nat, s: nat, d: nat, i: nat, j: nat, g': Graph)
    requires Exec(g, DelE(e, s, d, i, j)) == Some(g')
    ensures OutAt(g, e, s, i).Some? && InAt(g, e, d, j).Some? && SameSchema(g, g') && SameRows(g, g')
    ensures forall f: nat, v: nat, k: nat ::
      OutAt(g', f, v, k) == KilledIf(OutAt(g, f, v, k), f == e && v == s && k == i)
    ensures forall f: nat, v: nat, k: nat ::
      InAt(g', f, v, k) == KilledIf(InAt(g, f, v, k), f == e && v == d && k == j)
  {
    hide FindV;
  }

  /** One property of an entry. */
  function WrittenIf(x: Option<Ent>, hit: bool, c: nat, y: int): Option<Ent> {
    if x.Some? && hit && c < |x.value.props| then Some(x.value.(props := x.value.props[c := y])) else x
  }

  lemma SetEdgeEffect(g: Graph, e: nat, s: nat, d: nat, i: nat, j: nat, c: nat, x: int, g': Graph)
    requires Exec(g, SetE(e, s, d, i, j, c, x)) == Some(g')
    ensures OutAt(g, e, s, i).Some? && !OutAt(g, e, s, i).value.dead && c < |OutAt(g, e, s, i).value.props|
    ensures InAt(g, e, d, j).Some? && !InAt(g, e, d, j).value.dead && c < |InAt(g, e, d, j).value.props|
    ensures SameSchema(g, g') && SameRows(g, g')
    ensures forall f: nat, v: nat, k: nat ::
      OutAt(g', f, v, k) == WrittenIf(OutAt(g, f, v, k), f == e && v == s && k == i, c, x)
    ensures forall f: nat, v: nat, k: nat ::
      InAt(g', f, v, k) == WrittenIf(InAt(g, f, v, k), f == e && v == d && k == j, c, x)
  {
    hide FindV;
  }

  // ---- types ---------------------------------------------------------------------------------------------

  lemma CreateVertexTypeEffect(g: Graph, name: Name, temp: bool, cols: seq<Col>, g': Graph)
    requires Exec(g, CreateV(name, temp, cols)) == Some(g')
    ensures |g'.vs| == |g.vs| + 1 && (forall i :: 0 <= i < |g.vs| ==> g'.vs[i] == g.vs[i] && g.vs[i].name != name)
    ensures g'.vs[|g.vs|].name == name && g'.vs[|g.vs|].temp == temp && g'.vs[|g.vs|].cols == cols
    ensures SameRows(g, g') && g'.es == g.es
  {
  }

  ghost predicate HasType(g: Graph, name: Name) { exists a :: 0 <= a < |g.vs| && g.vs[a].name == name }

  ghost predicate HasTempType(g: Graph, name: Name) { exists a :: 0 <= a < |g.vs| && g.vs[a].name == name && g.vs[a].temp }

  /** A new edge type is temporary also where one of its ends is. */
  lemma CreateEdgeTypeEffect(g: Graph, key: Key, temp: bool, cols: seq<Col>, g': Graph)
    requires UniqueV(g.vs) && Exec(g, CreateE(key.src, key.dst, key.name, temp, cols)) == Some(g')
    ensures HasType(g, key.src) && HasType(g, key.dst)
    ensures |g'.es| == |g.es| + 1 && (forall i :: 0 <= i < |g.es| ==> g'.es[i] == g.es[i] && KeyOf(g.es[i]) != key)
    ensures KeyOf(g'.es[|g.es|]) == key && g'.es[|g.es|].cols == cols
    ensures g'.es[|g.es|].temp <==> temp || HasTempType(g, key.src) || HasTempType(g, key.dst)
    ensures SameEntries(g, g') && g'.vs == g.vs
  {
    hide FindE;
    TempIs(g, key.src);
    TempIs(g, key.dst);
  }

  lemma TempIs(g: Graph, name: Name)
    requires UniqueV(g.vs)
    ensures TempLabel(g, name) <==> HasTempType(g, name)
    ensures FindV(g.vs, name).Some? <==> HasType(g, name)
  {
  }

  /** Dropping a vertex type drops every edge type at it, and nothing else. */
  lemma DropVertexTypeEffect(g: Graph, l: nat, g': Graph)
    requires UniqueV(g.vs) && l < |g.vs| && Exec(g, DropV(l)) == Some(g')
    ensures forall t :: t in g'.vs <==> t in g.vs && t.name != g.vs[l].name
    ensures forall t :: t in g'.es <==> t in g.es && t.src != g.vs[l].name && t.dst != g.vs[l].name
  {
    forall t ensures t in g'.vs <==> t in g.vs && t.name != g.vs[l].name {
      if t in g.vs && t.name != g.vs[l].name {
        var i :| 0 <= i < |g.vs| && g.vs[i] == t;
        assert t == g'.vs[if i < l then i else i - 1];
      }
    }
    forall t ensures t in g'.es <==> t in g.es && t.src != g.vs[l].name && t.dst != g.vs[l].name {
      UntouchedIs(g.es, g.vs[l].name, t);
    }
  }

  lemma {:induction false} UntouchedIs(es: seq<EType>, ty: Name, t: EType)
    ensures t in Untouched(es, ty) <==> t in es && t.src != ty && t.dst != ty
  {
    if es != [] { UntouchedIs(es[1..], ty, t); }
  }

  lemma DropEdgeTypeEffect(g: Graph, e: nat, g': Graph)
    requires UniqueE(g.es) && e < |g.es| && Exec(g, DropE(e)) == Some(g')
    ensures g'.vs == g.vs && forall t :: t in g'.es <==> t in g.es && KeyOf(t) != KeyOf(g.es[e])
  {
    forall t ensures t in g'.es <==> t in g.es && KeyOf(t) != KeyOf(g.es[e]) {
      if t in g.es && KeyOf(t) != KeyOf(g.es[e]) {
        var i :| 0 <= i < |g.es| && g.es[i] == t;
        assert t == g'.es[if i < e then i else i - 1];
      }
    }
  }
}
