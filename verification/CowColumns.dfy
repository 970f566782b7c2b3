/**
  The columns of a vertex or edge table and their detached flags, when lists of properties
  are added and deleted. A column without a flag of its own is never detached, as if its flag
  were set.
 */
module CowColumns {
  import opened CowState
  import opened CowSchema
  import P = PropertyLists

  datatype Table = VTable(l: Label) | ETable(t: Trip)

  function Column(tb: Table, c: nat): Slot {
    match tb
    case VTable(l) => VCol(l, c)
    case ETable(t) => ECol(t, c)
  }

  predicate IsColumn(s: Slot, tb: Table) { (s.VCol? && tb == VTable(s.l)) || (s.ECol? && tb == ETable(s.t)) }

  function Fill(n: nat, value: int): (r: seq<int>)
    ensures |r| == n && forall i :: 0 <= i < n ==> r[i] == value
  {
    seq(n, _ => value)
  }

  // ---- new columns ---------------------------------------------------------------------------------

  /** Columns k, k + 1, ... hold one value each, in every row; nothing else is different. */
  ghost predicate NewColumns(st: St, st': St, tb: Table, k: nat, values: seq<int>, rows: nat) {
    && (forall s :: s in st'.refs <==> s in st.refs || (IsColumn(s, tb) && k <= s.c < k + |values|))
    && (forall a: Slot, v: Vid :: ListOf(st', a, v) == ListOf(st, a, v))
    && (forall a: Slot :: !(IsColumn(a, tb) && k <= a.c < k + |values|) ==> CellsOf(st', a) == CellsOf(st, a))
    && (forall i: nat :: i < |values| ==> CellsOf(st', Column(tb, k + i)) == Fill(rows, values[i]))
  }

  lemma NoNewColumns(st: St, tb: Table, k: nat, rows: nat)
    ensures NewColumns(st, st, tb, k, [], rows)
  {
  }

  lemma OneMoreColumn(st0: St, st: St, tb: Table, k: nat, values: seq<int>, i: nat, rows: nat, base: map<Ref, Block>)
    requires Inv(st, base) && i < |values| && NewColumns(st0, st, tb, k, values[..i], rows) && Column(tb, k + i) !in st0.refs
    ensures var s := Column(tb, k + i); var b := Cells(Fill(rows, values[i]));
      && s !in st.refs && Inv(Allocated(st, s, b), base)
      && NewColumns(st0, Allocated(st, s, b), tb, k, values[..i + 1], rows)
  {
    hide Inv, ListOf, CellsOf, Fill;
    var s, b := Column(tb, k + i), Cells(Fill(rows, values[i]));
    AllocatedInv(st, s, b, base);
    AbsentReads(st, s);
    var st' := Allocated(st, s, b);
    forall a: Slot, v: Vid ensures ListOf(st', a, v) == ListOf(st0, a, v) {
      if a == s { assert ListOf(st, a, v) == []; }
    }
    var more := values[..i + 1];
    forall j: nat | j < |more| ensures CellsOf(st', Column(tb, k + j)) == Fill(rows, more[j]) {
      if j < i { assert values[..i][j] == more[j]; }
    }
  }

  // ---- the order that is left ------------------------------------------------------------------------

  function Range(k: nat): (r: seq<nat>)
    ensures |r| == k && forall i :: 0 <= i < k ==> r[i] == i
  {
    seq(k, i requires 0 <= i < k => i)
  }

  /** The numbers of the columns whose names stay. */
  function Order(names: seq<Name>, gone: set<Name>): seq<nat> { P.Stays(Range(|names|), names, gone) }

  ghost predicate Rising(order: seq<nat>, k: nat) {
    (forall p :: 0 <= p < |order| ==> order[p] < k) && (forall p, q :: 0 <= p < q < |order| ==> order[p] < order[q])
  }

  lemma {:induction false} OrderAt<T>(xs: seq<T>, names: seq<Name>, gone: set<Name>)
    requires |xs| == |names|
    ensures var o, r := Order(names, gone), P.Stays(xs, names, gone);
      |o| == |r| && Rising(o, |names|) && forall p :: 0 <= p < |r| ==> r[p] == xs[o[p]]
    decreases |xs|
  {
    if xs != [] {
      var k := |xs| - 1;
      OrderAt(xs[..k], names[..k], gone);
      assert Range(|names|)[..k] == Range(k);
    }
  }

  // ---- dropped columns -----------------------------------------------------------------------------------

  predicate Skips(flags: seq<bool>, c: nat) { c >= |flags| || flags[c] }

  function FlagVec(st: St, tb: Table, k: nat): (r: seq<bool>)
    ensures |r| == k && forall c :: 0 <= c < k ==> (r[c] <==> Column(tb, c) in st.own)
  {
    seq(k, c requires 0 <= c < k => Column(tb, c) in st.own)
  }

  function KeepCols(st: St, tb: Table, order: seq<nat>): map<Slot, Slot> {
    map s | s in st.refs && (IsColumn(s, tb) ==> s.c < |order|) ::
      if IsColumn(s, tb) then Column(tb, order[s.c]) else s
  }

  /** The table has exactly these columns. */
  ghost predicate HasColumns(st: St, tb: Table, k: nat) {
    forall s :: IsColumn(s, tb) ==> (s in st.refs <==> s.c < k)
  }

  function OwnAfter(own: set<Slot>, tb: Table, n: nat, flags: seq<bool>): set<Slot> {
    (set s | s in own && !IsColumn(s, tb)) + (set p | 0 <= p < n && Skips(flags, p) :: Column(tb, p))
  }

  /** Columns in a new order under new flags; the two vectors are changed independently. */
  function DropCols(st: St, tb: Table, order: seq<nat>, flags: seq<bool>): St
    requires forall s :: s in KeepCols(st, tb, order) ==> KeepCols(st, tb, order)[s] in st.refs
  {
    Kept(st, KeepCols(st, tb, order)).(own := OwnAfter(st.own, tb, |order|, flags))
  }

  lemma CanDrop(st: St, tb: Table, k: nat, order: seq<nat>)
    requires HasColumns(st, tb, k) && Rising(order, k)
    ensures CanKeep(st, KeepCols(st, tb, order))
  {
    var keep := KeepCols(st, tb, order);
    forall s | s in keep ensures keep[s] in st.refs && IsCsr(keep[s]) == IsCsr(s) && (IsCsr(s) ==> keep[s] == s) {
      if IsColumn(s, tb) { assert IsColumn(keep[s], tb); }
    }
    forall a, b | a in keep && b in keep && keep[a] == keep[b] ensures a == b {
      if IsColumn(a, tb) { assert IsColumn(keep[a], tb) && IsColumn(b, tb); }
    }
  }

  /** Flags that stand for private blocks only. */
  ghost predicate FlagsRight(st: St, tb: Table, order: seq<nat>, flags: seq<bool>, base: map<Ref, Block>) {
    forall p: nat :: p < |order| && Skips(flags, p) && Column(tb, order[p]) in st.refs ==>
      st.refs[Column(tb, order[p])] !in base
  }

  lemma DroppedReads(st: St, tb: Table, k: nat, order: seq<nat>, flags: seq<bool>, base: map<Ref, Block>)
    requires Inv(st, base) && HasColumns(st, tb, k) && Rising(order, k)
    ensures CanKeep(st, KeepCols(st, tb, order))
    ensures var st' := DropCols(st, tb, order, flags);
      && Isolated(st', base) && Shaped(st') && Separate(st') && st'.refs.Keys == KeepCols(st, tb, order).Keys
      && KeptReads(st, st', KeepCols(st, tb, order))
  {
    hide KeepCols, Isolated, Shaped, Separate, Flags, ListOf, CellsOf;
    CanDrop(st, tb, k, order);
    KeptInv(st, KeepCols(st, tb, order), base);
    SameButOwn(Kept(st, KeepCols(st, tb, order)), OwnAfter(st.own, tb, |order|, flags), base);
  }

  lemma SameButOwn(st: St, own: set<Slot>, base: map<Ref, Block>)
    ensures var st' := st.(own := own);
      && (Isolated(st', base) <==> Isolated(st, base)) && (Shaped(st') <==> Shaped(st)) && (Separate(st') <==> Separate(st))
      && (forall a: Slot, v: Vid :: ListOf(st', a, v) == ListOf(st, a, v)) && (forall a :: CellsOf(st', a) == CellsOf(st, a))
  {
    var st' := st.(own := own);
    assert forall a :: Lists(st', a) == Lists(st, a);
  }

  lemma DroppedLists(st: St, tb: Table, k: nat, order: seq<nat>, flags: seq<bool>, base: map<Ref, Block>)
    requires ListFlags(st, base) && CanKeep(st, KeepCols(st, tb, order))
    ensures ListFlags(DropCols(st, tb, order, flags), base)
  {
    var keep := KeepCols(st, tb, order);
    KeptLists(st, keep);
    var st' := DropCols(st, tb, order, flags);
    forall x | x in st'.ownAdj
      ensures IsCsr(x.0) && x.0 in st'.own && (x.1 in Lists(st', x.0) ==> Lists(st', x.0)[x.1] !in base)
    {
      assert Lists(st', x.0) == Lists(Kept(st, keep), x.0);
    }
  }

  lemma DroppedOwn(st: St, tb: Table, k: nat, order: seq<nat>, flags: seq<bool>, base: map<Ref, Block>)
    requires SlotFlags(st, base) && HasColumns(st, tb, k) && Rising(order, k) && CanKeep(st, KeepCols(st, tb, order))
    requires FlagsRight(st, tb, order, flags, base)
    ensures SlotFlags(DropCols(st, tb, order, flags), base)
  {
    var st' := DropCols(st, tb, order, flags);
    forall s | s in st'.own ensures s in st'.refs && st'.refs[s] !in base {
      if IsColumn(s, tb) { ColumnAt(st, tb, k, order, flags, s.c); }
    }
  }

  lemma DroppedRight(st: St, tb: Table, k: nat, order: seq<nat>, flags: seq<bool>, base: map<Ref, Block>)
    requires HasColumns(st, tb, k) && Rising(order, k) && CanKeep(st, KeepCols(st, tb, order))
    requires SlotFlags(DropCols(st, tb, order, flags), base)
    ensures FlagsRight(st, tb, order, flags, base)
  {
    hide KeepCols;
    forall p: nat | p < |order| && Skips(flags, p) && Column(tb, order[p]) in st.refs
      ensures st.refs[Column(tb, order[p])] !in base
    {
      ColumnAt(st, tb, k, order, flags, p);
    }
  }

  /** Exactly when the flags are right for the columns they stand at. */
  lemma DroppedFlagsIff(st: St, tb: Table, k: nat, order: seq<nat>, flags: seq<bool>, base: map<Ref, Block>)
    requires Inv(st, base) && HasColumns(st, tb, k) && Rising(order, k)
    ensures CanKeep(st, KeepCols(st, tb, order))
    ensures Flags(DropCols(st, tb, order, flags), base) <==> FlagsRight(st, tb, order, flags, base)
  {
    CanDrop(st, tb, k, order);
    hide KeepCols, FlagsRight, SlotFlags, ListFlags;
    DroppedLists(st, tb, k, order, flags, base);
    if FlagsRight(st, tb, order, flags, base) { DroppedOwn(st, tb, k, order, flags, base); }
    if SlotFlags(DropCols(st, tb, order, flags), base) { DroppedRight(st, tb, k, order, flags, base); }
  }

  lemma ColumnAt(st: St, tb: Table, k: nat, order: seq<nat>, flags: seq<bool>, p: nat)
    requires HasColumns(st, tb, k) && Rising(order, k) && p < |order| && CanKeep(st, KeepCols(st, tb, order))
    ensures Column(tb, order[p]) in st.refs && Column(tb, p) in DropCols(st, tb, order, flags).refs
    ensures DropCols(st, tb, order, flags).refs[Column(tb, p)] == st.refs[Column(tb, order[p])]
    ensures Column(tb, p) in DropCols(st, tb, order, flags).own <==> Skips(flags, p)
  {
    RisingAbove(order, k, p);
    assert IsColumn(Column(tb, p), tb) && IsColumn(Column(tb, order[p]), tb);
    assert Column(tb, p) in KeepCols(st, tb, order);
  }

  lemma {:induction false} RisingAbove(order: seq<nat>, k: nat, p: nat)
    requires Rising(order, k) && p < |order|
    ensures p <= order[p] < k
  {
    if p > 0 { RisingAbove(order, k, p - 1); }
  }

  // ---- a list of names --------------------------------------------------------------------------------------

  function Index(names: seq<Name>): map<Name, nat> { map n | n in names :: P.Place(names, n) }

  /** The properties of the table; its flags stand in for the columns. */
  function PropsOf(st: St, tb: Table, names: seq<Name>): P.Props<bool> {
    P.Props(names, names, Index(names), FlagVec(st, tb, |names|), FlagVec(st, tb, |names|))
  }

  lemma PropsAreGood(st: St, tb: Table, names: seq<Name>)
    requires P.Distinct(names)
    ensures P.Good(PropsOf(st, tb, names))
  {
  }

  /** The flags after the numbers of the named columns are erased, from the largest down. */
  function ErasedFlags(st: St, tb: Table, names: seq<Name>, list: seq<Name>): seq<bool> {
    P.EraseAll(FlagVec(st, tb, |names|), P.SortDown(P.Ids(Index(names), list)))
  }

  /** No name that the list repeats has a property behind it that stays. */
  predicate Harmless(names: seq<Name>, list: seq<Name>) { P.Harmless(P.Ids(Index(names), list), |names|) }

  lemma DistinctIsHarmless(names: seq<Name>, list: seq<Name>)
    requires P.Distinct(names) && P.Distinct(list)
    ensures Harmless(names, list)
  {
    var st := St(map[], map[], {}, {}, 0);
    PropsAreGood(st, VTable(0), names);
    P.DistinctIsHarmless(PropsOf(st, VTable(0), names), list);
  }

  lemma ErasedIs(st: St, tb: Table, names: seq<Name>, list: seq<Name>)
    requires P.Distinct(names)
    ensures var o, r := Order(names, P.SetOf(list)), ErasedFlags(st, tb, names, list);
      && Rising(o, |names|) && |r| <= |o| && (|r| == |o| <==> Harmless(names, list))
      && (Harmless(names, list) ==> forall p: nat :: p < |o| ==> (r[p] <==> Column(tb, o[p]) in st.own))
  {
    hide P.Harmless, P.Good, P.Stays, P.EraseAll, P.SortDown, P.Ids, P.Distinct;
    PropsAreGood(st, tb, names);
    P.FlagsErased(PropsOf(st, tb, names), list);
    OrderAt(FlagVec(st, tb, |names|), names, P.SetOf(list));
  }

  /**
    Deleting a list of properties: a flag stands for a private column afterwards if the list
    is harmless. If it is not, the last column that stays is never detached again, and that is
    wrong as soon as its block belongs to the base graph.
   */
  lemma ListDropIff(st: St, tb: Table, names: seq<Name>, list: seq<Name>, base: map<Ref, Block>)
    requires Inv(st, base) && HasColumns(st, tb, |names|) && P.Distinct(names)
    ensures var o, r := Order(names, P.SetOf(list)), ErasedFlags(st, tb, names, list);
      && Rising(o, |names|) && CanKeep(st, KeepCols(st, tb, o))
      && (Harmless(names, list) ==> Flags(DropCols(st, tb, o, r), base))
      && (!Harmless(names, list) ==>
            && o != [] && Column(tb, o[|o| - 1]) in st.refs
            && (st.refs[Column(tb, o[|o| - 1])] in base ==> !Flags(DropCols(st, tb, o, r), base)))
  {
    hide Harmless, ErasedFlags, Order, KeepCols, SlotFlags, ListFlags;
    var o, r := Order(names, P.SetOf(list)), ErasedFlags(st, tb, names, list);
    ErasedIs(st, tb, names, list);
    DroppedFlagsIff(st, tb, |names|, o, r, base);
    if Harmless(names, list) {
      forall p: nat | p < |o| && Skips(r, p) && Column(tb, o[p]) in st.refs ensures st.refs[Column(tb, o[p])] !in base {
        OwnIsPrivate(st, Column(tb, o[p]), base);
      }
    } else {
      assert Skips(r, |o| - 1) && IsColumn(Column(tb, o[|o| - 1]), tb);
    }
  }

  lemma OwnIsPrivate(st: St, s: Slot, base: map<Ref, Block>)
    requires SlotFlags(st, base) && s in st.own
    ensures s in st.refs && st.refs[s] !in base
  {
  }

  /** In a clone that has not detached the table, the flags are right afterwards exactly if the list is harmless. */
  lemma FreshDropIff(st: St, tb: Table, names: seq<Name>, list: seq<Name>, base: map<Ref, Block>)
    requires Inv(st, base) && HasColumns(st, tb, |names|) && P.Distinct(names)
    requires forall s :: s in st.refs && IsColumn(s, tb) ==> st.refs[s] in base
    ensures var o, r := Order(names, P.SetOf(list)), ErasedFlags(st, tb, names, list);
      CanKeep(st, KeepCols(st, tb, o)) && (Flags(DropCols(st, tb, o, r), base) <==> Harmless(names, list))
  {
    hide Inv, Harmless, ErasedFlags, Order, KeepCols, Flags;
    ListDropIff(st, tb, names, list, base);
    var o := Order(names, P.SetOf(list));
    if !Harmless(names, list) { assert IsColumn(Column(tb, o[|o| - 1]), tb); }
  }

  // ---- the branch for rebuilt edge tables ----------------------------------------------------------------------

  /** All flags of an edge table are set, and those of single lists are forgotten. */
  function ResetFlags(st: St, t: Trip): St {
    st.(own := st.own + {OutCsr(t), InCsr(t)},
        ownAdj := (set x | x in st.ownAdj && x.0 != OutCsr(t) && x.0 != InCsr(t)))
  }

  function AllSet(n: nat): (r: seq<bool>)
    ensures |r| == n && forall i :: 0 <= i < n ==> r[i]
  {
    seq(n, _ => true)
  }

  lemma ResetFlagsIff(st: St, t: Trip, base: map<Ref, Block>)
    requires ListFlags(st, base) && OutCsr(t) in st.refs && InCsr(t) in st.refs
    ensures Flags(ResetFlags(st, t), base) <==>
      SlotFlags(st, base) && st.refs[OutCsr(t)] !in base && st.refs[InCsr(t)] !in base
  {
    var st' := ResetFlags(st, t);
    assert forall a :: Lists(st', a) == Lists(st, a);
    assert st.own <= st'.own && OutCsr(t) in st'.own && InCsr(t) in st'.own;
  }

  /** What the branch does to a table that was not rebuilt: right exactly if everything is private already. */
  lemma ResetDropIff(st: St, t: Trip, k: nat, order: seq<nat>, base: map<Ref, Block>)
    requires Inv(st, base) && HasColumns(st, ETable(t), k) && Rising(order, k) && OutCsr(t) in st.refs && InCsr(t) in st.refs
    ensures CanKeep(st, KeepCols(st, ETable(t), order))
    ensures Flags(ResetFlags(DropCols(st, ETable(t), order, AllSet(|order|)), t), base) <==>
      && st.refs[OutCsr(t)] !in base && st.refs[InCsr(t)] !in base
      && forall p: nat :: p < |order| && Column(ETable(t), order[p]) in st.refs ==> st.refs[Column(ETable(t), order[p])] !in base
  {
    hide SlotFlags, ListFlags;
    CanDrop(st, ETable(t), k, order);
    var d := DropCols(st, ETable(t), order, AllSet(|order|));
    DroppedLists(st, ETable(t), k, order, AllSet(|order|), base);
    DroppedFlagsIff(st, ETable(t), k, order, AllSet(|order|), base);
    assert d.refs[OutCsr(t)] == st.refs[OutCsr(t)] && d.refs[InCsr(t)] == st.refs[InCsr(t)];
    ResetFlagsIff(d, t, base);
    assert FlagsRight(st, ETable(t), order, AllSet(|order|), base) <==>
      forall p: nat :: p < |order| && Column(ETable(t), order[p]) in st.refs ==> st.refs[Column(ETable(t), order[p])] !in base;
  }

  // ---- why the flags matter ----------------------------------------------------------------------------------------

  /** A write to a column whose flag is wrongly set changes the base graph. */
  lemma WrongFlagWritesBase(st: St, s: Slot, data: seq<int>, base: map<Ref, Block>)
    requires Isolated(st, base) && s in st.refs && st.refs[s] in base && st.heap[st.refs[s]] != Cells(data)
    ensures !Isolated(WithCells(st, s, data), base)
  {
    assert WithCells(st, s, data).heap[st.refs[s]] == Cells(data);
  }

  /** So does the detaching of a list below a directory whose flag is wrongly set. */
  lemma WrongFlagWritesDirectory(st: St, s: Slot, v: Vid, base: map<Ref, Block>)
    requires Isolated(st, base) && Shaped(st) && HasDir(st, s) && st.refs[s] in base && v in Lists(st, s)
    ensures !Isolated(CopiedAdj(st, s, v), base)
  {
    assert Lists(st, s)[v] in st.heap && Lists(st, s)[v] < st.next;
    assert CopiedAdj(st, s, v).heap[st.refs[s]] != st.heap[st.refs[s]];
  }

  // ---- schema -----------------------------------------------------------------------------------------------------------

  /** The properties that stay. */
  function Remaining(ps: seq<Prop>, list: seq<Name>): seq<Prop> { P.Stays(ps, Names(ps), P.SetOf(list)) }

  lemma RemainingIs(ps: seq<Prop>, list: seq<Name>)
    requires Distinct(ps)
    ensures |Remaining(ps, list)| == |Order(Names(ps), P.SetOf(list))| <= |ps| && Distinct(Remaining(ps, list))
    ensures Names(Remaining(ps, list)) == P.Stays(Names(ps), Names(ps), P.SetOf(list))
  {
    hide P.Stays;
    OrderAt(ps, Names(ps), P.SetOf(list));
    OrderAt(Names(ps), Names(ps), P.SetOf(list));
    P.StaysDistinct(Names(ps), P.SetOf(list));
  }

  lemma VertexDropComplete(st: St, st': St, sc: Schema, l: Label, list: seq<Name>)
    requires Complete(st, sc) && SchemaOk(sc) && l in sc.live
    requires st'.refs.Keys == KeepCols(st, VTable(l), Order(Names(sc.vprops(l)), P.SetOf(list))).Keys
    ensures var sc' := WithProps(sc, l, Remaining(sc.vprops(l), list)); Complete(st', sc') && SchemaOk(sc')
  {
    hide Remaining, Order, Complete, Distinct;
    SchemaAt(sc, l);
    RemainingIs(sc.vprops(l), list);
    ShorterTable(st, st', sc, l, Remaining(sc.vprops(l), list), Order(Names(sc.vprops(l)), P.SetOf(list)));
  }

  lemma ShorterTable(st: St, st': St, sc: Schema, l: Label, ps: seq<Prop>, o: seq<nat>)
    requires Complete(st, sc) && l in sc.live && |ps| == |o| <= sc.VCols(l) && st'.refs.Keys == KeepCols(st, VTable(l), o).Keys
    ensures Complete(st', WithProps(sc, l, ps))
  {
    var sc' := WithProps(sc, l, ps);
    forall s ensures s in st'.refs <==> InSchema(s, sc') { assert s in st'.refs <==> s in KeepCols(st, VTable(l), o); }
  }

  lemma EdgeDropComplete(st: St, st': St, sc: Schema, t: Trip, list: seq<Name>)
    requires Complete(st, sc) && SchemaOk(sc) && t in sc.trips && !sc.Bundled(t)
    requires st'.refs.Keys == KeepCols(st, ETable(t), Order(Names(sc.eprops(t)), P.SetOf(list))).Keys
    requires !WithEdgeProps(sc, t, Remaining(sc.eprops(t), list)).Bundled(t)
    ensures var sc' := WithEdgeProps(sc, t, Remaining(sc.eprops(t), list)); Complete(st', sc') && SchemaOk(sc')
  {
    hide Remaining, Order;
    var o := Order(Names(sc.eprops(t)), P.SetOf(list));
    var sc' := WithEdgeProps(sc, t, Remaining(sc.eprops(t), list));
    RemainingIs(sc.eprops(t), list);
    OrderAt(Names(sc.eprops(t)), Names(sc.eprops(t)), P.SetOf(list));
    forall s ensures s in st'.refs <==> InSchema(s, sc') { assert s in st'.refs <==> s in KeepCols(st, ETable(t), o); }
  }

  lemma TableHasColumns(st: St, sc: Schema, tb: Table)
    requires Complete(st, sc)
    ensures tb.VTable? && tb.l in sc.live ==> HasColumns(st, tb, sc.VCols(tb.l))
    ensures tb.ETable? && tb.t in sc.trips ==> HasColumns(st, tb, sc.ECols(tb.t))
  {
  }

  lemma NewColumnsComplete(st: St, st': St, sc: Schema, l: Label, ps: seq<Prop>, values: seq<int>, rows: nat)
    requires Complete(st, sc) && SchemaOk(sc) && l in sc.live && |values| == |ps|
    requires NewColumns(st, st', VTable(l), sc.VCols(l), values, rows)
    ensures var sc' := WithProps(sc, l, sc.vprops(l) + ps);
      Complete(st', sc') && (SchemaOk(sc') <==> Distinct(sc.vprops(l) + ps))
  {
    hide ListOf, CellsOf, Distinct;
    var sc' := WithProps(sc, l, sc.vprops(l) + ps);
    forall s ensures s in st'.refs <==> InSchema(s, sc') { }
    assert sc'.vprops(l) == sc.vprops(l) + ps;
  }

  lemma NewEdgeColumnsComplete(st: St, st': St, sc: Schema, t: Trip, ps: seq<Prop>, values: seq<int>, rows: nat)
    requires Complete(st, sc) && SchemaOk(sc) && t in sc.trips && |values| == |ps| && !sc.Bundled(t)
    requires NewColumns(st, st', ETable(t), sc.ECols(t), values, rows) && Distinct(sc.eprops(t) + ps)
    ensures var sc' := WithEdgeProps(sc, t, sc.eprops(t) + ps); Complete(st', sc') && SchemaOk(sc') && !sc'.Bundled(t)
  {
    hide ListOf, CellsOf, Distinct;
    var sc' := WithEdgeProps(sc, t, sc.eprops(t) + ps);
    assert sc'.eprops(t) == sc.eprops(t) + ps && sc.eprops(t) != [];
    assert |sc'.eprops(t)| == 1 ==> sc'.eprops(t) == sc.eprops(t);
    forall s ensures s in st'.refs <==> InSchema(s, sc') { }
  }

  /** No property has the name of one of these. */
  predicate NoneNamed(old_: seq<Prop>, ps: seq<Prop>) { forall n :: n in Names(ps) ==> n !in Names(old_) }

  lemma DistinctTogether(old_: seq<Prop>, ps: seq<Prop>)
    requires Distinct(old_) && NoneNamed(old_, ps)
    ensures Distinct(old_ + ps) <==> Distinct(ps)
  {
    assert Names(old_ + ps) == Names(old_) + Names(ps);
    P.DistinctAppend(Names(old_), Names(ps));
  }

  ghost predicate FreeFrom(st: St, tb: Table, k: nat) { forall c: nat :: c >= k ==> Column(tb, c) !in st.refs }

  lemma FreeColumns(st: St, sc: Schema, tb: Table)
    requires Complete(st, sc)
    ensures tb.VTable? ==> FreeFrom(st, tb, sc.VCols(tb.l))
    ensures tb.ETable? ==> FreeFrom(st, tb, sc.ECols(tb.t))
  {
  }

  /** The first name that the list repeats, or the end of the list. */
  method FirstRepeat(ps: seq<Prop>) returns (n: nat)
    ensures n <= |ps| && (n == |ps| <==> Distinct(ps)) && Distinct(ps[..n])
  {
    n := 0;
    while n < |ps| && ps[n].name !in Names(ps[..n])
      invariant n <= |ps| && Distinct(ps[..n])
    {
      assert ps[..n + 1] == ps[..n] + [ps[n]];
      assert Names(ps[..n + 1]) == Names(ps[..n]) + [ps[n].name];
      n := n + 1;
    }
    if n < |ps| {
      var i :| 0 <= i < n && Names(ps[..n])[i] == ps[n].name;
      assert Names(ps)[i] == Names(ps)[n];
    } else {
      assert ps[..n] == ps;
    }
  }

  /** rename_properties: one pair after the other; a name that is not there is skipped. */
  function RenamedProps(ps: seq<Prop>, pairs: seq<(Name, Name)>): (r: seq<Prop>)
    ensures |r| == |ps| && forall i :: 0 <= i < |ps| ==> r[i].special == ps[i].special && r[i].value == ps[i].value
  {
    if pairs == [] then ps
    else
      var r := RenamedProps(ps, pairs[..|pairs| - 1]);
      var x := pairs[|pairs| - 1];
      var i := P.Place(Names(r), x.0);
      if i < |r| then r[i := r[i].(name := x.1)] else r
  }

  /** The first n pairs find their names; the next one, if any, does not. */
  ghost predicate StopsAt(ps: seq<Prop>, pairs: seq<(Name, Name)>, n: nat) {
    && n <= |pairs| && (forall k :: 0 <= k < n ==> pairs[k].0 in Names(RenamedProps(ps, pairs[..k])))
    && (n < |pairs| ==> pairs[n].0 !in Names(RenamedProps(ps, pairs[..n])))
  }

  function Applied(ps: seq<Prop>, pairs: seq<(Name, Name)>): (n: nat)
    ensures n <= |pairs|
  {
    if pairs == [] then 0
    else
      var k := |pairs| - 1;
      var n := Applied(ps, pairs[..k]);
      if n == k && pairs[k].0 in Names(RenamedProps(ps, pairs[..k])) then n + 1 else n
  }

  /** The pairs are applied up to the first one whose name is not there. */
  lemma {:induction false} AppliedIs(ps: seq<Prop>, pairs: seq<(Name, Name)>)
    ensures StopsAt(ps, pairs, Applied(ps, pairs))
    decreases |pairs|
  {
    hide RenamedProps;
    if pairs != [] {
      var k := |pairs| - 1;
      var n := Applied(ps, pairs[..k]);
      AppliedIs(ps, pairs[..k]);
      forall i | 0 <= i <= n ensures pairs[..k][..i] == pairs[..i] {}
    }
  }

  /** Property i is the first one with this name. */
  predicate FirstNamed(ps: seq<Prop>, n: Name, i: nat) {
    i < |ps| && ps[i].name == n && forall j :: 0 <= j < i ==> ps[j].name != n
  }

  /** One pair: the first property called a is called b, and nothing else is different. */
  ghost predicate RenamesOne(ps: seq<Prop>, a: Name, b: Name, r: seq<Prop>) {
    && |r| == |ps|
    && forall i :: 0 <= i < |ps| ==> r[i] == if FirstNamed(ps, a, i) then Prop(b, ps[i].special, ps[i].value) else ps[i]
  }

  /** A list of pairs: a chain of property lists, one pair between each two. */
  ghost predicate RenamesTo(ps: seq<Prop>, pairs: seq<(Name, Name)>, r: seq<Prop>) {
    exists chain: seq<seq<Prop>> :: IsChain(ps, pairs, r, chain)
  }

  ghost predicate IsChain(ps: seq<Prop>, pairs: seq<(Name, Name)>, r: seq<Prop>, chain: seq<seq<Prop>>) {
    && |chain| == |pairs| + 1 && chain[0] == ps && chain[|pairs|] == r
    && forall k :: 0 <= k < |pairs| ==> RenamesOne(chain[k], pairs[k].0, pairs[k].1, chain[k + 1])
  }

  lemma RenamedLast(ps: seq<Prop>, pairs: seq<(Name, Name)>)
    requires pairs != []
    ensures var n := |pairs| - 1;
      RenamesOne(RenamedProps(ps, pairs[..n]), pairs[n].0, pairs[n].1, RenamedProps(ps, pairs))
  {
    var r, x := RenamedProps(ps, pairs[..|pairs| - 1]), pairs[|pairs| - 1];
    var i := P.Place(Names(r), x.0);
    forall k | 0 <= k < |r| ensures FirstNamed(r, x.0, k) <==> k == i { NamedAt(r, x.0, k); }
  }

  lemma NamedAt(r: seq<Prop>, n: Name, k: nat)
    requires k < |r|
    ensures FirstNamed(r, n, k) <==> k == P.Place(Names(r), n)
  {
    var i := P.Place(Names(r), n);
    forall j | 0 <= j < i ensures r[j].name != n { assert Names(r)[..i][j] == r[j].name; }
  }

  lemma OneRename(ps: seq<Prop>, a: Name, b: Name, r: seq<Prop>, r': seq<Prop>)
    requires RenamesOne(ps, a, b, r) && RenamesOne(ps, a, b, r')
    ensures r == r'
  {
  }

  /** Renaming by pairs is what such a chain says, and nothing else. */
  lemma {:induction false} RenamesToIff(ps: seq<Prop>, pairs: seq<(Name, Name)>, r: seq<Prop>)
    ensures RenamesTo(ps, pairs, r) <==> r == RenamedProps(ps, pairs)
    decreases |pairs|
  {
    hide RenamesOne;
    if pairs == [] {
      assert IsChain(ps, pairs, ps, [ps]);
    } else {
      var n := |pairs| - 1;
      var pre := RenamedProps(ps, pairs[..n]);
      RenamedLast(ps, pairs);
      RenamesToIff(ps, pairs[..n], pre);
      if RenamesTo(ps, pairs, r) {
        var chain :| IsChain(ps, pairs, r, chain);
        assert IsChain(ps, pairs[..n], chain[n], chain[..n + 1]);
        RenamesToIff(ps, pairs[..n], chain[n]);
        OneRename(pre, pairs[n].0, pairs[n].1, r, RenamedProps(ps, pairs));
      }
      if r == RenamedProps(ps, pairs) {
        var chain :| IsChain(ps, pairs[..n], pre, chain);
        assert IsChain(ps, pairs, r, chain + [r]);
      }
    }
  }

  /** The names are those that the schema and the table have after renaming. */
  lemma RenamedEverywhere<C>(ps: seq<Prop>, p: P.Props<C>, a: Name, b: Name)
    requires P.Good(p) && p.names == Names(ps)
    ensures var names := Names(RenamedProps(ps, [(a, b)]));
      P.Renamed(p, a, b).schema == names && P.Renamed(p, a, b).names == names
  {
    assert [(a, b)][..0] == [];
    assert RenamedProps(ps, []) == ps;
    var i := P.Place(Names(ps), a);
    if a in p.names {
      P.PlaceIsId(p.names, p.ids, a);
      assert Names(ps[i := ps[i].(name := b)]) == Names(ps)[i := b];
    }
  }

  // ---- edge tables ---------------------------------------------------------------------------------------------------

  /** Directories and remaining columns are outside the base graph. */
  ghost predicate AllPrivate(st: St, t: Trip, order: seq<nat>, base: map<Ref, Block>) {
    && OutCsr(t) in st.refs && st.refs[OutCsr(t)] !in base && InCsr(t) in st.refs && st.refs[InCsr(t)] !in base
    && forall p: nat :: p < |order| && Column(ETable(t), order[p]) in st.refs ==> st.refs[Column(ETable(t), order[p])] !in base
  }

  lemma HasCsrs(st: St, sc: Schema, t: Trip)
    requires Complete(st, sc) && t in sc.trips
    ensures OutCsr(t) in st.refs && InCsr(t) in st.refs
  {
  }

  lemma RepeatedResets(st: St, t: Trip, names: seq<Name>, list: seq<Name>)
    requires P.Distinct(names) && forall n :: n in list ==> n in names
    ensures P.Resets(false, false, |Order(names, P.SetOf(list))|, |names|, |P.Ids(Index(names), list)|) <==> !P.Distinct(list)
  {
    hide P.Stays, P.Ids;
    PropsAreGood(st, ETable(t), names);
    P.ResetsIff(PropsOf(st, ETable(t), names), list);
    OrderAt(names, names, P.SetOf(list));
  }

  lemma ResetReads(st: St, t: Trip, base: map<Ref, Block>)
    ensures var st' := ResetFlags(st, t);
      && (Isolated(st, base) ==> Isolated(st', base)) && (Shaped(st) ==> Shaped(st')) && (Separate(st) ==> Separate(st'))
      && SameReads(st, st') && st'.refs == st.refs
  {
    var st' := ResetFlags(st, t);
    assert forall a :: Lists(st', a) == Lists(st, a);
  }

  lemma ReadsAfter(st: St, mid: St, st': St, keep: map<Slot, Slot>)
    requires KeptReads(st, mid, keep) && SameReads(mid, st')
    ensures KeptReads(st, st', keep)
  {
    hide ListOf, CellsOf;
  }

  /** Exactly one property is left, and it can be bundled. */
  predicate Bundles(sc: Schema, t: Trip, list: seq<Name>) {
    !sc.Bundled(t) && |Remaining(sc.eprops(t), list)| == 1 && !Remaining(sc.eprops(t), list)[0].special
  }

  lemma LastColumn(sc: Schema, t: Trip, list: seq<Name>)
    requires Bundles(sc, t, list) && Distinct(sc.eprops(t))
    ensures var o := Order(Names(sc.eprops(t)), P.SetOf(list)); |o| == 1 && o[0] < sc.ECols(t)
  {
    hide Remaining, Order;
    RemainingIs(sc.eprops(t), list);
    OrderAt(sc.eprops(t), Names(sc.eprops(t)), P.SetOf(list));
  }

  /** Deleting properties never leads to a property table. */
  lemma StaysBundled(sc: Schema, t: Trip, list: seq<Name>)
    requires sc.Bundled(t)
    ensures WithEdgeProps(sc, t, Remaining(sc.eprops(t), list)).Bundled(t)
  {
    var ps := sc.eprops(t);
    OrderAt(ps, Names(ps), P.SetOf(list));
  }

  lemma NothingRemoved(ps: seq<Prop>)
    ensures Remaining(ps, []) == ps
  {
    assert P.SetOf([]) == {};
    P.StaysAll(ps, Names(ps));
  }

  /** The same properties under the same names. */
  lemma SameProperties(st: St, sc: Schema, t: Trip, ps: seq<Prop>)
    requires ps == sc.eprops(t) && Complete(st, sc) && SchemaOk(sc)
    ensures Complete(st, WithEdgeProps(sc, t, ps)) && SchemaOk(WithEdgeProps(sc, t, ps))
  {
    hide Distinct;
    var sc' := WithEdgeProps(sc, t, ps);
    assert forall u :: sc'.eprops(u) == sc.eprops(u);
    assert forall s :: InSchema(s, sc') == InSchema(s, sc);
  }

  // ---- the clone after a deletion ----------------------------------------------------------------------------------------

  lemma VertexDrop(st: St, sc: Schema, l: Label, list: seq<Name>, base: map<Ref, Block>)
    requires Inv(st, base) && Complete(st, sc) && SchemaOk(sc) && l in sc.live
    ensures var names := Names(sc.vprops(l)); var o := Order(names, P.SetOf(list));
      var sc' := WithProps(sc, l, Remaining(sc.vprops(l), list));
      && CanKeep(st, KeepCols(st, VTable(l), o))
      && var st' := DropCols(st, VTable(l), o, ErasedFlags(st, VTable(l), names, list));
         && KeptReads(st, st', KeepCols(st, VTable(l), o)) && Complete(st', sc') && SchemaOk(sc')
         && (Harmless(names, list) ==> Inv(st', base))
         && (!Harmless(names, list) ==>
               && o != [] && VCol(l, o[|o| - 1]) in st.refs && (st.refs[VCol(l, o[|o| - 1])] in base ==> !Inv(st', base)))
  {
    hide Isolated, Shaped, Separate, Flags, Complete, KeptReads, KeepCols, Harmless, Order, ErasedFlags, SchemaOk, Remaining;
    SchemaAt(sc, l);
    var names := Names(sc.vprops(l));
    var o, r := Order(names, P.SetOf(list)), ErasedFlags(st, VTable(l), names, list);
    TableHasColumns(st, sc, VTable(l));
    ListDropIff(st, VTable(l), names, list, base);
    DroppedReads(st, VTable(l), |names|, o, r, base);
    VertexDropComplete(st, DropCols(st, VTable(l), o, r), sc, l, list);
  }

  lemma SchemaAt(sc: Schema, l: Label)
    requires SchemaOk(sc) && l in sc.live
    ensures Distinct(sc.vprops(l))
  {
  }

  lemma SchemaAtTrip(sc: Schema, t: Trip)
    requires SchemaOk(sc) && t in sc.trips
    ensures Distinct(sc.eprops(t))
  {
  }

  /** Without a repeated name the flags are erased; with one they are all set. */
  function EdgeDropped(st: St, t: Trip, names: seq<Name>, list: seq<Name>): St
    requires var keep := KeepCols(st, ETable(t), Order(names, P.SetOf(list))); forall s :: s in keep ==> keep[s] in st.refs
  {
    var o := Order(names, P.SetOf(list));
    if P.Distinct(list) then DropCols(st, ETable(t), o, ErasedFlags(st, ETable(t), names, list))
    else ResetFlags(DropCols(st, ETable(t), o, AllSet(|o|)), t)
  }

  lemma EdgeDropReads(st: St, t: Trip, names: seq<Name>, list: seq<Name>, base: map<Ref, Block>)
    requires Inv(st, base) && HasColumns(st, ETable(t), |names|) && P.Distinct(names)
    ensures var o := Order(names, P.SetOf(list)); var keep := KeepCols(st, ETable(t), o);
      && Rising(o, |names|) && CanKeep(st, keep)
      && var st' := EdgeDropped(st, t, names, list);
         && Isolated(st', base) && Shaped(st') && Separate(st') && KeptReads(st, st', keep) && st'.refs.Keys == keep.Keys
  {
    hide Isolated, Shaped, Separate, Flags, KeptReads, KeepCols, Order, ErasedFlags, SameReads;
    var o := Order(names, P.SetOf(list));
    OrderAt(names, names, P.SetOf(list));
    DroppedReads(st, ETable(t), |names|, o, ErasedFlags(st, ETable(t), names, list), base);
    DroppedReads(st, ETable(t), |names|, o, AllSet(|o|), base);
    var mid := DropCols(st, ETable(t), o, AllSet(|o|));
    ResetReads(mid, t, base);
    ReadsAfter(st, mid, ResetFlags(mid, t), KeepCols(st, ETable(t), o));
  }

  /** The flags are right exactly if the list repeats no name, or everything is private already. */
  lemma EdgeDropIff(st: St, t: Trip, names: seq<Name>, list: seq<Name>, base: map<Ref, Block>)
    requires Inv(st, base) && HasColumns(st, ETable(t), |names|) && P.Distinct(names) && OutCsr(t) in st.refs && InCsr(t) in st.refs
    ensures var o := Order(names, P.SetOf(list));
      && CanKeep(st, KeepCols(st, ETable(t), o))
      && (Flags(EdgeDropped(st, t, names, list), base) <==> P.Distinct(list) || AllPrivate(st, t, o, base))
  {
    hide Isolated, Shaped, Separate, Flags, KeepCols, Order, ErasedFlags, Harmless;
    var o := Order(names, P.SetOf(list));
    ListDropIff(st, ETable(t), names, list, base);
    ResetDropIff(st, t, |names|, o, base);
    if P.Distinct(list) { DistinctIsHarmless(names, list); }
  }

  lemma EdgeDrop(st: St, sc: Schema, t: Trip, list: seq<Name>, base: map<Ref, Block>)
    requires Inv(st, base) && Complete(st, sc) && SchemaOk(sc) && t in sc.trips && !sc.Bundled(t)
    requires !WithEdgeProps(sc, t, Remaining(sc.eprops(t), list)).Bundled(t)
    ensures var names := Names(sc.eprops(t)); var o := Order(names, P.SetOf(list));
      var sc' := WithEdgeProps(sc, t, Remaining(sc.eprops(t), list));
      && Rising(o, |names|) && |o| == |Remaining(sc.eprops(t), list)| && CanKeep(st, KeepCols(st, ETable(t), o))
      && var st' := EdgeDropped(st, t, names, list);
         && KeptReads(st, st', KeepCols(st, ETable(t), o)) && Complete(st', sc') && SchemaOk(sc')
         && (Inv(st', base) <==> P.Distinct(list) || AllPrivate(st, t, o, base))
  {
    hide Isolated, Shaped, Separate, Flags, Complete, KeptReads, KeepCols, Order, EdgeDropped, SchemaOk, Remaining, AllPrivate;
    SchemaAtTrip(sc, t);
    var names := Names(sc.eprops(t));
    TableHasColumns(st, sc, ETable(t));
    HasCsrs(st, sc, t);
    RemainingIs(sc.eprops(t), list);
    EdgeDropReads(st, t, names, list, base);
    EdgeDropIff(st, t, names, list, base);
    EdgeDropComplete(st, EdgeDropped(st, t, names, list), sc, t, list);
  }

  // ---- what a repeated name leads to ------------------------------------------------------------------------------------------

  /** The table after a list of names. */
  ghost function ListDropped(st: St, tb: Table, names: seq<Name>, list: seq<Name>): St {
    var o := Order(names, P.SetOf(list));
    if CanKeep(st, KeepCols(st, tb, o)) then DropCols(st, tb, o, ErasedFlags(st, tb, names, list)) else st
  }

  /** The last column that stays counts as detached, and the next write to it changes the base graph. */
  lemma HarmfulListWritesBase(st: St, tb: Table, names: seq<Name>, list: seq<Name>, data: seq<int>, base: map<Ref, Block>)
    requires Inv(st, base) && HasColumns(st, tb, |names|) && P.Distinct(names) && !Harmless(names, list)
    requires forall s :: s in st.refs && IsColumn(s, tb) ==> st.refs[s] in base && st.heap[st.refs[s]] != Cells(data)
    ensures var d, n := ListDropped(st, tb, names, list), |Order(names, P.SetOf(list))|;
      n > 0 && Column(tb, n - 1) in d.own && Column(tb, n - 1) in d.refs && !Isolated(WithCells(d, Column(tb, n - 1), data), base)
  {
    hide Isolated, Shaped, Separate, Flags, KeepCols, Harmless, Order, ErasedFlags;
    var o, r := Order(names, P.SetOf(list)), ErasedFlags(st, tb, names, list);
    ErasedIs(st, tb, names, list);
    ListDropIff(st, tb, names, list, base);
    DroppedReads(st, tb, |names|, o, r, base);
    ColumnAt(st, tb, |names|, o, r, |o| - 1);
    var d := DropCols(st, tb, o, r);
    assert IsColumn(Column(tb, o[|o| - 1]), tb) && d.heap == st.heap;
    WrongFlagWritesBase(d, Column(tb, |o| - 1), data, base);
  }

  /** Both directories count as detached, and the next insertion into a list changes the base graph. */
  lemma RepeatedNameWritesDirectory(st: St, t: Trip, names: seq<Name>, list: seq<Name>, v: Vid, base: map<Ref, Block>)
    requires Inv(st, base) && HasColumns(st, ETable(t), |names|) && P.Distinct(names) && !P.Distinct(list)
    requires OutCsr(t) in st.refs && st.refs[OutCsr(t)] in base && v in Lists(st, OutCsr(t))
    ensures var o := Order(names, P.SetOf(list));
      && CanKeep(st, KeepCols(st, ETable(t), o))
      && var d := EdgeDropped(st, t, names, list);
         && OutCsr(t) in d.own && (OutCsr(t), v) !in d.ownAdj && HasDir(d, OutCsr(t)) && v in Lists(d, OutCsr(t))
         && !Isolated(CopiedAdj(d, OutCsr(t), v), base)
  {
    EdgeDropReads(st, t, names, list, base);
    var o := Order(names, P.SetOf(list));
    var keep := KeepCols(st, ETable(t), o);
    assert OutCsr(t) in keep && keep[OutCsr(t)] == OutCsr(t);
    hide Isolated, Separate, Flags, KeepCols, Order, ErasedFlags, KeptReads;
    WrongFlagWritesDirectory(EdgeDropped(st, t, names, list), OutCsr(t), v, base);
  }
}
