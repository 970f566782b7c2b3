/**
  The logical redo log of a copy-on-write transaction. Live operations name tables by
  numeric label and vertices by local id; redo records name them by label name and by
  primary key, and skip everything temporary, so that numeric labels differ on replay.
 */
module Redo {
  import opened Common

  type Name = nat

  /** A property column; edge properties of a wide type are never bundled. */
  datatype Col = Col(name: Name, wide: bool)

  datatype Row = Row(oid: int, alive: bool, props: seq<int>)

  datatype VType = VType(name: Name, temp: bool, cols: seq<Col>, rows: seq<Row>)

  datatype Ent = Ent(vid: nat, dead: bool, props: seq<int>)

  type Adj = map<nat, seq<Ent>>

  datatype EType = EType(src: Name, dst: Name, name: Name, temp: bool, cols: seq<Col>, out: Adj, inn: Adj)

  /** A numeric label is an index into these lists. */
  datatype Graph = Graph(vs: seq<VType>, es: seq<EType>)

  /** Adding properties with default values, deleting some, renaming some. */
  datatype Change = NewCols(cols: seq<Col>, xs: seq<int>) | NoCols(names: seq<Name>) | Renames(pairs: seq<(Name, Name)>)

  datatype Op =
    | CreateV(name: Name, temp: bool, cols: seq<Col>)
    | CreateE(src: Name, dst: Name, name: Name, temp: bool, cols: seq<Col>)
    | DropV(l: nat)
    | DropE(e: nat)
    | ChangeV(l: nat, ch: Change)
    | ChangeE(e: nat, ch: Change)
    | AddV(l: nat, oid: int, props: seq<int>)
    | DelV(l: nat, lid: nat)
    | SetV(l: nat, lid: nat, c: nat, x: int)
    | AddE(e: nat, s: nat, d: nat, props: seq<int>)
    | DelE(e: nat, s: nat, d: nat, i: nat, j: nat)
    | SetE(e: nat, s: nat, d: nat, i: nat, j: nat, c: nat, x: int)

  datatype Key = Key(src: Name, dst: Name, name: Name)

  datatype Rec =
    | RCreateV(name: Name, cols: seq<Col>)
    | RCreateE(key: Key, cols: seq<Col>)
    | RDropV(name: Name)
    | RDropE(key: Key)
    | RChangeV(ty: Name, ch: Change)
    | RChangeE(key: Key, ch: Change)
    | RAddV(ty: Name, oid: int, props: seq<int>)
    | RDelV(ty: Name, oid: int)
    | RSetV(ty: Name, oid: int, c: nat, x: int)
    | RAddE(key: Key, s: int, d: int, props: seq<int>)
    | RDelE(key: Key, s: int, d: int, i: nat, j: nat)
    | RSetE(key: Key, s: int, d: int, i: nat, j: nat, c: nat, x: int)

  // ---- lookups ---------------------------------------------------------------------------------

  function KeyOf(e: EType): Key { Key(e.src, e.dst, e.name) }

  function FindV(vs: seq<VType>, name: Name): (r: Option<nat>)
    ensures r.Some? ==> r.value < |vs| && vs[r.value].name == name
    ensures r.None? ==> forall i :: 0 <= i < |vs| ==> vs[i].name != name
  {
    if vs == [] then None
    else if vs[0].name == name then Some(0)
    else
      match FindV(vs[1..], name)
      case None => None
      case Some(i) => Some(i + 1)
  }

  function FindE(es: seq<EType>, key: Key): (r: Option<nat>)
    ensures r.Some? ==> r.value < |es| && KeyOf(es[r.value]) == key
    ensures r.None? ==> forall i :: 0 <= i < |es| ==> KeyOf(es[i]) != key
  {
    if es == [] then None
    else if KeyOf(es[0]) == key then Some(0)
    else
      match FindE(es[1..], key)
      case None => None
      case Some(i) => Some(i + 1)
  }

  function FindRow(rows: seq<Row>, oid: int): (r: Option<nat>)
    ensures r.Some? ==> r.value < |rows| && rows[r.value].oid == oid
    ensures r.None? ==> forall i :: 0 <= i < |rows| ==> rows[i].oid != oid
  {
    if rows == [] then None
    else if rows[0].oid == oid then Some(0)
    else
      match FindRow(rows[1..], oid)
      case None => None
      case Some(i) => Some(i + 1)
  }

  // ---- table operations -----------------------------------------------------------------------------

  /** insert_vertex_pk_internal: a deleted key comes back under its old local id. */
  function AddRow(t: VType, oid: int, props: seq<int>): Option<VType> {
    if |props| != |t.cols| then None
    else
      match FindRow(t.rows, oid)
      case None => Some(t.(rows := t.rows + [Row(oid, true, props)]))
      case Some(i) => if t.rows[i].alive then None else Some(t.(rows := t.rows[i := Row(oid, true, props)]))
  }

  predicate Alive(t: VType, lid: nat) { lid < |t.rows| && t.rows[lid].alive }

  function KillRow(t: VType, lid: nat): VType
    requires lid < |t.rows|
  {
    t.(rows := t.rows[lid := t.rows[lid].(alive := false)])
  }

  function SetCell(t: VType, lid: nat, c: nat, x: int): Option<VType> {
    if !Alive(t, lid) || c >= |t.rows[lid].props| then None
    else Some(t.(rows := t.rows[lid := t.rows[lid].(props := t.rows[lid].props[c := x])]))
  }

  function ListAt(m: Adj, v: nat): seq<Ent> { if v in m then m[v] else [] }

  function Link(e: EType, s: nat, d: nat, props: seq<int>): EType {
    e.(out := e.out[s := ListAt(e.out, s) + [Ent(d, false, props)]],
       inn := e.inn[d := ListAt(e.inn, d) + [Ent(s, false, props)]])
  }

  function Unlink(e: EType, s: nat, d: nat, i: nat, j: nat): Option<EType> {
    if i >= |ListAt(e.out, s)| || j >= |ListAt(e.inn, d)| then None
    else Some(e.(out := e.out[s := Kill(ListAt(e.out, s), i)], inn := e.inn[d := Kill(ListAt(e.inn, d), j)]))
  }

  function Kill(l: seq<Ent>, i: nat): seq<Ent>
    requires i < |l|
  {
    l[i := l[i].(dead := true)]
  }

  /** UpdateEdgeProperty rejects an offset outside the list or on a deleted entry. */
  function SetLink(e: EType, s: nat, d: nat, i: nat, j: nat, c: nat, x: int): Option<EType> {
    if i >= |ListAt(e.out, s)| || j >= |ListAt(e.inn, d)| then None
    else if ListAt(e.out, s)[i].dead || ListAt(e.inn, d)[j].dead then None
    else if c >= |ListAt(e.out, s)[i].props| || c >= |ListAt(e.inn, d)[j].props| then None
    else Some(e.(out := e.out[s := SetEnt(ListAt(e.out, s), i, c, x)], inn := e.inn[d := SetEnt(ListAt(e.inn, d), j, c, x)]))
  }

  function SetEnt(l: seq<Ent>, i: nat, c: nat, x: int): seq<Ent>
    requires i < |l| && c < |l[i].props|
  {
    l[i := l[i].(props := l[i].props[c := x])]
  }

  function KillAll(l: seq<Ent>): seq<Ent> { seq(|l|, i requires 0 <= i < |l| => l[i].(dead := true)) }

  function KillTo(l: seq<Ent>, v: nat): seq<Ent> {
    seq(|l|, i requires 0 <= i < |l| => if l[i].vid == v then l[i].(dead := true) else l[i])
  }

  /** All entries of vertex v, and all entries pointing to it, in one direction. */
  function KillOwn(m: Adj, v: nat): Adj { map k | k in m :: if k == v then KillAll(m[k]) else m[k] }

  function KillPointing(m: Adj, v: nat): Adj { map k | k in m :: KillTo(m[k], v) }

  /** EdgeTable::DeleteVertex in each role the label plays. */
  function Detached(e: EType, ty: Name, v: nat): EType {
    var e1 := if e.dst == ty then e.(inn := KillOwn(e.inn, v), out := KillPointing(e.out, v)) else e;
    if e1.src == ty then e1.(out := KillOwn(e1.out, v), inn := KillPointing(e1.inn, v)) else e1
  }

  function DetachedAll(es: seq<EType>, ty: Name, v: nat): (r: seq<EType>)
    ensures |r| == |es|
  {
    seq(|es|, i requires 0 <= i < |es| => Detached(es[i], ty, v))
  }

  function RemoveAt<T>(xs: seq<T>, i: nat): seq<T>
    requires i < |xs|
  {
    xs[..i] + xs[i + 1..]
  }

  /** The edge types without the given vertex type at either end. */
  function Untouched(es: seq<EType>, ty: Name): seq<EType> {
    if es == [] then []
    else (if es[0].src == ty || es[0].dst == ty then [] else [es[0]]) + Untouched(es[1..], ty)
  }

  // ---- property columns ------------------------------------------------------------------------

  /** The number of a property, which property updates are logged by. */
  function ColumnOf(cols: seq<Col>, name: Name): (r: Option<nat>)
    ensures r.Some? ==> r.value < |cols| && cols[r.value].name == name
    ensures r.None? ==> forall i :: 0 <= i < |cols| ==> cols[i].name != name
  {
    if cols == [] then None
    else if cols[0].name == name then Some(0)
    else
      match ColumnOf(cols[1..], name)
      case None => None
      case Some(i) => Some(i + 1)
  }

  predicate Repeats(cols: seq<Col>) { exists i, j :: 0 <= i < j < |cols| && cols[i].name == cols[j].name }

  /** Deleting by name, one after the other; the numbers of the columns behind shift. A repeated name is skipped. */
  function WithoutCols(cols: seq<Col>, names: seq<Name>): seq<Col>
    decreases |names|
  {
    if names == [] then cols
    else
      match ColumnOf(cols, names[0])
      case None => WithoutCols(cols, names[1..])
      case Some(c) => WithoutCols(RemoveAt(cols, c), names[1..])
  }

  function WithoutProps(cols: seq<Col>, props: seq<int>, names: seq<Name>): seq<int>
    decreases |names|
  {
    if names == [] then props
    else
      match ColumnOf(cols, names[0])
      case None => WithoutProps(cols, props, names[1..])
      case Some(c) => WithoutProps(RemoveAt(cols, c), if c < |props| then RemoveAt(props, c) else props, names[1..])
  }

  function RenamedCols(cols: seq<Col>, pairs: seq<(Name, Name)>): seq<Col>
    decreases |pairs|
  {
    if pairs == [] then cols
    else
      match ColumnOf(cols, pairs[0].0)
      case None => RenamedCols(cols, pairs[1..])
      case Some(c) => RenamedCols(cols[c := cols[c].(name := pairs[0].1)], pairs[1..])
  }

  /** Every pair finds its name when its turn comes. */
  predicate AllThere(cols: seq<Col>, pairs: seq<(Name, Name)>)
    decreases |pairs|
  {
    pairs == [] ||
    match ColumnOf(cols, pairs[0].0)
    case None => false
    case Some(c) => AllThere(cols[c := cols[c].(name := pairs[0].1)], pairs[1..])
  }

  /** The property columns after a change. */
  function ChangedCols(cols: seq<Col>, ch: Change): Option<seq<Col>> {
    match ch
    case NewCols(cs, xs) =>
      if |cs| != |xs| || Repeats(cs) || (exists i :: 0 <= i < |cs| && ColumnOf(cols, cs[i].name).Some?) then None
      else Some(cols + cs)
    case NoCols(names) =>
      if exists i :: 0 <= i < |names| && ColumnOf(cols, names[i]).None? then None else Some(WithoutCols(cols, names))
    case Renames(pairs) =>
      if exists i :: 0 <= i < |pairs| && ColumnOf(cols, pairs[i].0).None? then None else Some(RenamedCols(cols, pairs))
  }

  function ChangedProps(cols: seq<Col>, props: seq<int>, ch: Change): seq<int> {
    match ch
    case NewCols(_, xs) => props + xs
    case NoCols(names) => WithoutProps(cols, props, names)
    case Renames(_) => props
  }

  function ChangedRows(cols: seq<Col>, rows: seq<Row>, ch: Change): (r: seq<Row>)
    ensures |r| == |rows| && forall i :: 0 <= i < |r| ==> r[i].oid == rows[i].oid
  {
    seq(|rows|, i requires 0 <= i < |rows| => rows[i].(props := ChangedProps(cols, rows[i].props, ch)))
  }

  function ChangedList(cols: seq<Col>, l: seq<Ent>, ch: Change): seq<Ent> {
    seq(|l|, i requires 0 <= i < |l| => l[i].(props := ChangedProps(cols, l[i].props, ch)))
  }

  function ChangedAdj(cols: seq<Col>, m: Adj, ch: Change): Adj { map v | v in m :: ChangedList(cols, m[v], ch) }

  function ChangedV(t: VType, ch: Change): Option<VType> {
    if ChangedCols(t.cols, ch).None? then None
    else Some(t.(cols := ChangedCols(t.cols, ch).value, rows := ChangedRows(t.cols, t.rows, ch)))
  }

  // ---- rebuilt edge types ------------------------------------------------------------------------

  /** is_bundled: at most one property, inside the adjacency lists. */
  predicate Bundled(cols: seq<Col>) { cols == [] || (|cols| == 1 && !cols[0].wide) }

  /** The lists are rebuilt where the properties are bundled before or after. */
  predicate Rebuilds(cols: seq<Col>, cols': seq<Col>, ch: Change) {
    match ch
    case NewCols(cs, _) => cs != [] && (Bundled(cols) || Bundled(cols'))
    case NoCols(names) => names != [] && (Bundled(cols) || Bundled(cols'))
    case Renames(_) => false
  }

  datatype Half = Half(src: nat, ent: Ent)

  /** batch_export: the entries of the outgoing lists that are not deleted. */
  function Exported(out: Adj, n: nat): seq<Half> {
    if n == 0 then [] else Exported(out, n - 1) + LiveOf(ListAt(out, n - 1), n - 1)
  }

  function LiveOf(l: seq<Ent>, v: nat): seq<Half> {
    if l == [] then [] else LiveOf(l[..|l| - 1], v) + if l[|l| - 1].dead then [] else [Half(v, l[|l| - 1])]
  }

  /** batch_put_edges into fresh lists of both directions. */
  function OutOf(es: seq<Half>): Adj {
    if es == [] then map[]
    else
      var m, e := OutOf(es[..|es| - 1]), es[|es| - 1];
      m[e.src := ListAt(m, e.src) + [e.ent]]
  }

  function InOf(es: seq<Half>): Adj {
    if es == [] then map[]
    else
      var m, e := InOf(es[..|es| - 1]), es[|es| - 1];
      m[e.ent.vid := ListAt(m, e.ent.vid) + [e.ent.(vid := e.src)]]
  }

  /** Deleted entries are gone, and the incoming lists are in the order of the outgoing ones. */
  function Compacted(t: EType, n: nat): EType {
    var es := Exported(t.out, n);
    t.(out := OutOf(es), inn := InOf(es))
  }

  /** A change of an edge type whose source type has n rows. A name renamed away before its turn fails. */
  function ChangedE(t: EType, ch: Change, n: nat): Option<EType> {
    match ChangedCols(t.cols, ch)
    case None => None
    case Some(cols) =>
      if ch.Renames? && !AllThere(t.cols, ch.pairs) then None
      else
        var t' := t.(cols := cols, out := ChangedAdj(t.cols, t.out, ch), inn := ChangedAdj(t.cols, t.inn, ch));
        Some(if Rebuilds(t.cols, cols, ch) then Compacted(t', n) else t')
  }

  // ---- live execution -----------------------------------------------------------------------------------

  predicate TempLabel(g: Graph, name: Name) {
    FindV(g.vs, name).Some? && g.vs[FindV(g.vs, name).value].temp
  }

  /** Both ends of an edge operation are live vertices. */
  predicate Ends(g: Graph, e: nat, s: nat, d: nat) {
    && e < |g.es|
    && FindV(g.vs, g.es[e].src).Some? && Alive(g.vs[FindV(g.vs, g.es[e].src).value], s)
    && FindV(g.vs, g.es[e].dst).Some? && Alive(g.vs[FindV(g.vs, g.es[e].dst).value], d)
  }

  function RowCount(g: Graph, ty: Name): nat {
    if FindV(g.vs, ty).Some? then |g.vs[FindV(g.vs, ty).value].rows| else 0
  }

  function PutV(g: Graph, l: nat, t: Option<VType>): Option<Graph>
    requires l < |g.vs|
  {
    if t.None? then None else Some(g.(vs := g.vs[l := t.value]))
  }

  function PutE(g: Graph, e: nat, t: Option<EType>): Option<Graph>
    requires e < |g.es|
  {
    if t.None? then None else Some(g.(es := g.es[e := t.value]))
  }

  /** The *Impl mutators; None is a failed statement, after which the transaction cannot commit. */
  function Exec(g: Graph, op: Op): Option<Graph> {
    match op
    case CreateV(name, temp, cols) =>
      if FindV(g.vs, name).Some? then None else Some(g.(vs := g.vs + [VType(name, temp, cols, [])]))
    case CreateE(src, dst, name, temp, cols) =>
      if FindE(g.es, Key(src, dst, name)).Some? || FindV(g.vs, src).None? || FindV(g.vs, dst).None? then None
      else Some(g.(es := g.es + [EType(src, dst, name, temp || TempLabel(g, src) || TempLabel(g, dst), cols, map[], map[])]))
    case DropV(l) =>
      if l >= |g.vs| then None else Some(Graph(RemoveAt(g.vs, l), Untouched(g.es, g.vs[l].name)))
    case DropE(e) => if e >= |g.es| then None else Some(g.(es := RemoveAt(g.es, e)))
    case ChangeV(l, ch) => if l >= |g.vs| then None else PutV(g, l, ChangedV(g.vs[l], ch))
    case ChangeE(e, ch) => if e >= |g.es| then None else PutE(g, e, ChangedE(g.es[e], ch, RowCount(g, g.es[e].src)))
    case AddV(l, oid, props) => if l >= |g.vs| then None else PutV(g, l, AddRow(g.vs[l], oid, props))
    case DelV(l, lid) =>
      if l >= |g.vs| then None
      else if !Alive(g.vs[l], lid) then Some(g)
      else Some(Graph(g.vs[l := KillRow(g.vs[l], lid)], DetachedAll(g.es, g.vs[l].name, lid)))
    case SetV(l, lid, c, x) => if l >= |g.vs| then None else PutV(g, l, SetCell(g.vs[l], lid, c, x))
    case AddE(e, s, d, props) =>
      if !Ends(g, e, s, d) || |props| != |g.es[e].cols| then None else PutE(g, e, Some(Link(g.es[e], s, d, props)))
    case DelE(e, s, d, i, j) => if !Ends(g, e, s, d) then None else PutE(g, e, Unlink(g.es[e], s, d, i, j))
    case SetE(e, s, d, i, j, c, x) => if !Ends(g, e, s, d) then None else PutE(g, e, SetLink(g.es[e], s, d, i, j, c, x))
  }

  function OidOf(g: Graph, ty: Name, lid: nat): int {
    if FindV(g.vs, ty).Some? && lid < |g.vs[FindV(g.vs, ty).value].rows|
    then g.vs[FindV(g.vs, ty).value].rows[lid].oid else 0
  }

  /** What is logged for an operation, before it runs. */
  function LogOf(g: Graph, op: Op): seq<Rec> {
    match op
    case CreateV(name, temp, cols) => if temp then [] else [RCreateV(name, cols)]
    case CreateE(src, dst, name, temp, cols) =>
      if temp || TempLabel(g, src) || TempLabel(g, dst) then [] else [RCreateE(Key(src, dst, name), cols)]
    case DropV(l) => if l >= |g.vs| || g.vs[l].temp then [] else [RDropV(g.vs[l].name)]
    case DropE(e) => if e >= |g.es| || g.es[e].temp then [] else [RDropE(KeyOf(g.es[e]))]
    case ChangeV(l, ch) => if l >= |g.vs| || g.vs[l].temp then [] else [RChangeV(g.vs[l].name, ch)]
    case ChangeE(e, ch) => if e >= |g.es| || g.es[e].temp then [] else [RChangeE(KeyOf(g.es[e]), ch)]
    case AddV(l, oid, props) => if l >= |g.vs| || g.vs[l].temp then [] else [RAddV(g.vs[l].name, oid, props)]
    case DelV(l, lid) =>
      if l >= |g.vs| || g.vs[l].temp || !Alive(g.vs[l], lid) then [] else [RDelV(g.vs[l].name, g.vs[l].rows[lid].oid)]
    case SetV(l, lid, c, x) =>
      if l >= |g.vs| || g.vs[l].temp || lid >= |g.vs[l].rows| then []
      else [RSetV(g.vs[l].name, g.vs[l].rows[lid].oid, c, x)]
    case AddE(e, s, d, props) =>
      if e >= |g.es| || g.es[e].temp then []
      else [RAddE(KeyOf(g.es[e]), OidOf(g, g.es[e].src, s), OidOf(g, g.es[e].dst, d), props)]
    case DelE(e, s, d, i, j) =>
      if e >= |g.es| || g.es[e].temp then []
      else [RDelE(KeyOf(g.es[e]), OidOf(g, g.es[e].src, s), OidOf(g, g.es[e].dst, d), i, j)]
    case SetE(e, s, d, i, j, c, x) =>
      if e >= |g.es| || g.es[e].temp then []
      else [RSetE(KeyOf(g.es[e]), OidOf(g, g.es[e].src, s), OidOf(g, g.es[e].dst, d), i, j, c, x)]
  }

  // ---- replay ------------------------------------------------------------------------------------------------

  /** get_lid: the live vertex with this key. */
  function Lid(g: Graph, ty: Name, oid: int): Option<nat> {
    match FindV(g.vs, ty)
    case None => None
    case Some(l) =>
      match FindRow(g.vs[l].rows, oid)
      case None => None
      case Some(i) => if g.vs[l].rows[i].alive then Some(i) else None
  }

  function EdgeOp(g: Graph, key: Key, s: int, d: int, f: (nat, nat, nat) -> Op): Option<Graph> {
    if FindE(g.es, key).None? || Lid(g, key.src, s).None? || Lid(g, key.dst, d).None? then None
    else Exec(g, f(FindE(g.es, key).value, Lid(g, key.src, s).value, Lid(g, key.dst, d).value))
  }

  /** ReplayCowGraphWal for one record; None is a failed check. */
  function Replay(g: Graph, r: Rec): Option<Graph> {
    match r
    case RCreateV(name, cols) => Exec(g, CreateV(name, false, cols))
    case RCreateE(key, cols) => Exec(g, CreateE(key.src, key.dst, key.name, false, cols))
    case RDropV(name) => if FindV(g.vs, name).None? then None else Exec(g, DropV(FindV(g.vs, name).value))
    case RDropE(key) => if FindE(g.es, key).None? then None else Exec(g, DropE(FindE(g.es, key).value))
    case RChangeV(ty, ch) => if FindV(g.vs, ty).None? then None else Exec(g, ChangeV(FindV(g.vs, ty).value, ch))
    case RChangeE(key, ch) => if FindE(g.es, key).None? then None else Exec(g, ChangeE(FindE(g.es, key).value, ch))
    case RAddV(ty, oid, props) =>
      if FindV(g.vs, ty).None? then None
      else if Lid(g, ty, oid).Some? then Some(g)
      else Exec(g, AddV(FindV(g.vs, ty).value, oid, props))
    case RDelV(ty, oid) =>
      if Lid(g, ty, oid).None? then None else Exec(g, DelV(FindV(g.vs, ty).value, Lid(g, ty, oid).value))
    case RSetV(ty, oid, c, x) =>
      if Lid(g, ty, oid).None? then None
      else Exec(g, SetV(FindV(g.vs, ty).value, Lid(g, ty, oid).value, c, x))
    case RAddE(key, s, d, props) => EdgeOp(g, key, s, d, (e: nat, a: nat, b: nat) => AddE(e, a, b, props))
    case RDelE(key, s, d, i, j) => EdgeOp(g, key, s, d, (e: nat, a: nat, b: nat) => DelE(e, a, b, i, j))
    case RSetE(key, s, d, i, j, c, x) => EdgeOp(g, key, s, d, (e: nat, a: nat, b: nat) => SetE(e, a, b, i, j, c, x))
  }

  function ReplayAll(g: Graph, log: seq<Rec>): Option<Graph>
    decreases |log|
  {
    if log == [] then Some(g)
    else
      match Replay(g, log[0])
      case None => None
      case Some(g') => ReplayAll(g', log[1..])
  }

  // ---- persistent part ------------------------------------------------------------------------------------------

  function KeptV(vs: seq<VType>): seq<VType> {
    if vs == [] then [] else (if vs[0].temp then [] else [vs[0]]) + KeptV(vs[1..])
  }

  function KeptE(es: seq<EType>): seq<EType> {
    if es == [] then [] else (if es[0].temp then [] else [es[0]]) + KeptE(es[1..])
  }

  function Persist(g: Graph): Graph { Graph(KeptV(g.vs), KeptE(g.es)) }

  ghost predicate UniqueV(vs: seq<VType>) {
    forall i, j :: 0 <= i < j < |vs| ==> vs[i].name != vs[j].name
  }

  ghost predicate UniqueE(es: seq<EType>) {
    forall i, j :: 0 <= i < j < |es| ==> KeyOf(es[i]) != KeyOf(es[j])
  }

  ghost predicate UniqueRows(t: VType) {
    forall i, j :: 0 <= i < j < |t.rows| ==> t.rows[i].oid != t.rows[j].oid
  }

  /** Names and keys are unique, and an edge type at a temporary vertex type is temporary. */
  ghost predicate WellFormed(g: Graph) {
    && UniqueV(g.vs) && UniqueE(g.es)
    && (forall i :: 0 <= i < |g.vs| ==> UniqueRows(g.vs[i]))
    && (forall i :: 0 <= i < |g.es| ==>
          FindV(g.vs, g.es[i].src).Some? && FindV(g.vs, g.es[i].dst).Some?
          && (!g.es[i].temp ==> !TempLabel(g, g.es[i].src) && !TempLabel(g, g.es[i].dst)))
  }
}
