/**
  A copy-on-write clone of a graph: blocks shared with the base graph until they are
  detached. A slot is one separately detachable part of the graph; the directory of a
  CSR points to one adjacency list per vertex, and each list is detachable by itself.
 */
module CowState {

  type Ref = nat
  type Label = nat
  type Vid = nat

  datatype Trip = Trip(src: Label, dst: Label, e: Label)

  datatype Slot =
    | Indexer(l: Label) | Stamps(l: Label) | VCol(l: Label, c: nat)
    | OutCsr(t: Trip) | InCsr(t: Trip) | ECol(t: Trip, c: nat)

  predicate IsCsr(s: Slot) { s.OutCsr? || s.InCsr? }

  /** An adjacency entry; prop is its bundled property or its row in the property table. */
  datatype Nbr = Nbr(vid: Vid, ts: nat, dead: bool, prop: int)

  datatype Block = Cells(data: seq<int>) | Dir(lists: map<Vid, Ref>) | Adj(edges: seq<Nbr>)

  datatype St = St(
    heap: map<Ref, Block>,
    refs: map<Slot, Ref>,
    own: set<Slot>,               // the detached flags
    ownAdj: set<(Slot, Vid)>,     // out_adjlists_detached, in_adjlists_detached
    next: Ref)                    // allocator

  // ---- reading --------------------------------------------------------------------------------

  predicate HasDir(st: St, s: Slot) {
    s in st.refs && st.refs[s] in st.heap && st.heap[st.refs[s]].Dir?
  }

  function Lists(st: St, s: Slot): map<Vid, Ref> {
    if HasDir(st, s) then st.heap[st.refs[s]].lists else map[]
  }

  /** The adjacency list of a vertex. */
  function ListOf(st: St, s: Slot, v: Vid): seq<Nbr> {
    if v in Lists(st, s) && Lists(st, s)[v] in st.heap && st.heap[Lists(st, s)[v]].Adj?
    then st.heap[Lists(st, s)[v]].edges else []
  }

  /** The contents of a column, indexer or timestamp array. */
  function CellsOf(st: St, s: Slot): seq<int> {
    if s in st.refs && st.refs[s] in st.heap && st.heap[st.refs[s]].Cells?
    then st.heap[st.refs[s]].data else []
  }

  // ---- invariant ---------------------------------------------------------------------------------

  /** The base graph's blocks are untouched. */
  ghost predicate Isolated(st: St, base: map<Ref, Block>) {
    forall r :: r in base ==> r in st.heap && st.heap[r] == base[r]
  }

  ghost predicate Shaped(st: St) {
    && (forall r :: r in st.heap ==> r < st.next)
    && (forall s :: s in st.refs ==> st.refs[s] in st.heap)
    && (forall s :: s in st.refs ==> if IsCsr(s) then st.heap[st.refs[s]].Dir? else st.heap[st.refs[s]].Cells?)
    && (forall s, v :: s in st.refs && v in Lists(st, s) ==>
          Lists(st, s)[v] in st.heap && st.heap[Lists(st, s)[v]].Adj?)
  }

  /** Within the clone no two slots and no two lists share a block. */
  ghost predicate Separate(st: St) {
    && (forall a, b :: a in st.refs && b in st.refs && st.refs[a] == st.refs[b] ==> a == b)
    && (forall a, b, v, w :: v in Lists(st, a) && w in Lists(st, b) && Lists(st, a)[v] == Lists(st, b)[w] ==>
          a == b && v == w)
  }

  /** A detached flag is only set for a block outside the base graph. */
  ghost predicate Flags(st: St, base: map<Ref, Block>) { SlotFlags(st, base) && ListFlags(st, base) }

  ghost predicate SlotFlags(st: St, base: map<Ref, Block>) {
    forall s :: s in st.own ==> s in st.refs && st.refs[s] !in base
  }

  ghost predicate ListFlags(st: St, base: map<Ref, Block>) {
    forall x :: x in st.ownAdj ==>
      IsCsr(x.0) && x.0 in st.own && (x.1 in Lists(st, x.0) ==> Lists(st, x.0)[x.1] !in base)
  }

  ghost predicate Inv(st: St, base: map<Ref, Block>) {
    Isolated(st, base) && Shaped(st) && Separate(st) && Flags(st, base)
  }

  /** Both show the same graph. */
  ghost predicate SameView(st: St, st': St) {
    && st'.refs.Keys == st.refs.Keys
    && (forall s :: s in st.refs ==> Lists(st', s).Keys == Lists(st, s).Keys)
    && (forall s: Slot, v: Vid :: ListOf(st', s, v) == ListOf(st, s, v))
    && (forall s :: CellsOf(st', s) == CellsOf(st, s))
  }

  /** Flags are only ever set. */
  ghost predicate Grows(st: St, st': St) { st.own <= st'.own && st.ownAdj <= st'.ownAdj }

  /** A detach: nothing visible changes, and flags are only set. */
  ghost predicate Quietly(st: St, st': St) { SameView(st, st') && Grows(st, st') }

  lemma QuietlyTwice(a: St, b: St, c: St)
    requires Quietly(a, b) && Quietly(b, c)
    ensures Quietly(a, c)
  {
  }

  lemma QuietlyStays(a: St)
    ensures Quietly(a, a)
  {
  }

  lemma Present(st: St, s: Slot, base: map<Ref, Block>)
    requires Inv(st, base) && s in st.refs
    ensures st.refs[s] in st.heap && (IsCsr(s) ==> HasDir(st, s))
  {
  }

  lemma OwnedIsPresent(st: St, s: Slot, base: map<Ref, Block>)
    requires Inv(st, base) && s in st.own
    ensures s in st.refs
  {
  }

  // ---- detaching -------------------------------------------------------------------------------------

  /** DetachIndexer, DetachVertexTimestamp, DetachColumn, DetachOutCsr, DetachInCsr. */
  function Copied(st: St, s: Slot): St
    requires s in st.refs && st.refs[s] in st.heap
  {
    st.(heap := st.heap[st.next := st.heap[st.refs[s]]], refs := st.refs[s := st.next],
        own := st.own + {s}, next := st.next + 1)
  }

  lemma CopiedKeepsView(st: St, s: Slot)
    requires Shaped(st) && s in st.refs
    ensures SameView(st, Copied(st, s)) && Shaped(Copied(st, s))
  {
    var st' := Copied(st, s);
    assert forall a :: a in st.refs ==> Lists(st', a) == Lists(st, a);
    assert forall a :: a !in st.refs ==> Lists(st', a) == Lists(st, a);
  }

  lemma CopiedSeparate(st: St, s: Slot)
    requires Shaped(st) && Separate(st) && s in st.refs
    ensures Separate(Copied(st, s))
  {
    var st' := Copied(st, s);
    assert forall a :: a in st.refs ==> Lists(st', a) == Lists(st, a);
  }

  /** Detaching changes nothing that can be seen and makes the block private. */
  lemma CopiedInv(st: St, s: Slot, base: map<Ref, Block>)
    requires Inv(st, base) && s in st.refs
    ensures Inv(Copied(st, s), base) && SameView(st, Copied(st, s)) && s in Copied(st, s).own
    ensures Grows(st, Copied(st, s))
  {
    var st' := Copied(st, s);
    CopiedKeepsView(st, s);
    CopiedSeparate(st, s);
    assert forall a :: a in st.refs ==> Lists(st', a) == Lists(st, a);
  }

  /** DetachOutAdjlist, DetachInAdjlist: a private copy of the list, entered in the private directory. */
  function CopiedAdj(st: St, s: Slot, v: Vid): St
    requires HasDir(st, s)
  {
    if v in Lists(st, s) && Lists(st, s)[v] in st.heap then
      st.(heap := st.heap[st.next := st.heap[Lists(st, s)[v]]][st.refs[s] := Dir(Lists(st, s)[v := st.next])],
          ownAdj := st.ownAdj + {(s, v)}, next := st.next + 1)
    else st.(ownAdj := st.ownAdj + {(s, v)})
  }

  lemma CopiedAdjLists(st: St, s: Slot, v: Vid, base: map<Ref, Block>)
    requires Inv(st, base) && s in st.own && IsCsr(s)
    ensures Lists(CopiedAdj(st, s, v), s) == if v in Lists(st, s) then Lists(st, s)[v := st.next] else Lists(st, s)
    ensures forall a :: a != s ==> Lists(CopiedAdj(st, s, v), a) == Lists(st, a)
  {
  }

  lemma CopiedAdjShaped(st: St, s: Slot, v: Vid, base: map<Ref, Block>)
    requires Inv(st, base) && s in st.own && IsCsr(s)
    ensures Shaped(CopiedAdj(st, s, v))
  {
    CopiedAdjLists(st, s, v, base);
  }

  lemma CopiedAdjList(st: St, s: Slot, v: Vid, base: map<Ref, Block>, a: Slot, w: Vid)
    requires Inv(st, base) && s in st.own && IsCsr(s)
    ensures ListOf(CopiedAdj(st, s, v), a, w) == ListOf(st, a, w)
  {
    CopiedAdjLists(st, s, v, base);
  }

  lemma CopiedAdjKeepsView(st: St, s: Slot, v: Vid, base: map<Ref, Block>)
    requires Inv(st, base) && s in st.own && IsCsr(s)
    ensures SameView(st, CopiedAdj(st, s, v))
  {
    var st' := CopiedAdj(st, s, v);
    CopiedAdjLists(st, s, v, base);
    forall a: Slot, w: Vid ensures ListOf(st', a, w) == ListOf(st, a, w) { CopiedAdjList(st, s, v, base, a, w); }
  }

  lemma CopiedAdjSeparate(st: St, s: Slot, v: Vid, base: map<Ref, Block>)
    requires Inv(st, base) && s in st.own && IsCsr(s)
    ensures Separate(CopiedAdj(st, s, v))
  {
    var st' := CopiedAdj(st, s, v);
    CopiedAdjLists(st, s, v, base);
    forall a, b, x, y | x in Lists(st', a) && y in Lists(st', b) && Lists(st', a)[x] == Lists(st', b)[y]
      ensures a == b && x == y
    {
      if (a, x) != (s, v) { assert Lists(st, a)[x] in st.heap; }
      if (b, y) != (s, v) { assert Lists(st, b)[y] in st.heap; }
    }
  }

  lemma CopiedAdjInv(st: St, s: Slot, v: Vid, base: map<Ref, Block>)
    requires Inv(st, base) && s in st.own && IsCsr(s)
    ensures Inv(CopiedAdj(st, s, v), base) && SameView(st, CopiedAdj(st, s, v))
    ensures (s, v) in CopiedAdj(st, s, v).ownAdj && Grows(st, CopiedAdj(st, s, v))
  {
    CopiedAdjShaped(st, s, v, base);
    CopiedAdjKeepsView(st, s, v, base);
    CopiedAdjSeparate(st, s, v, base);
    CopiedAdjLists(st, s, v, base);
  }

  // ---- writing ------------------------------------------------------------------------------------------

  /** Everything but the named parts is as before. */
  ghost predicate ViewExcept(st: St, st': St, cells: set<Slot>, lists: set<(Slot, Vid)>) {
    && st'.refs.Keys == st.refs.Keys
    && (forall s: Slot, v: Vid :: (s, v) !in lists ==> ListOf(st', s, v) == ListOf(st, s, v))
    && (forall s :: s !in cells ==> CellsOf(st', s) == CellsOf(st, s))
  }

  function WithCells(st: St, s: Slot, data: seq<int>): St
    requires s in st.refs
  {
    st.(heap := st.heap[st.refs[s] := Cells(data)])
  }

  /** Writing a detached column, indexer or timestamp array. */
  lemma WriteCells(st: St, s: Slot, data: seq<int>, base: map<Ref, Block>)
    requires Inv(st, base) && s in st.own && !IsCsr(s)
    ensures Inv(WithCells(st, s, data), base) && Grows(st, WithCells(st, s, data))
    ensures CellsOf(WithCells(st, s, data), s) == data
    ensures ViewExcept(st, WithCells(st, s, data), {s}, {})
  {
    var st' := WithCells(st, s, data);
    assert forall a :: Lists(st', a) == Lists(st, a);
  }

  function WithList(st: St, s: Slot, v: Vid, edges: seq<Nbr>): St
    requires HasDir(st, s)
  {
    if v in Lists(st, s) then st.(heap := st.heap[Lists(st, s)[v] := Adj(edges)])
    else st.(heap := st.heap[st.next := Adj(edges)][st.refs[s] := Dir(Lists(st, s)[v := st.next])],
             next := st.next + 1)
  }

  lemma WithListLists(st: St, s: Slot, v: Vid, edges: seq<Nbr>, base: map<Ref, Block>)
    requires Inv(st, base) && s in st.own && IsCsr(s)
    ensures Lists(WithList(st, s, v, edges), s)
         == if v in Lists(st, s) then Lists(st, s) else Lists(st, s)[v := st.next]
    ensures forall a :: a != s ==> Lists(WithList(st, s, v, edges), a) == Lists(st, a)
  {
  }

  lemma WithListShaped(st: St, s: Slot, v: Vid, edges: seq<Nbr>, base: map<Ref, Block>)
    requires Inv(st, base) && s in st.own && IsCsr(s)
    ensures Shaped(WithList(st, s, v, edges))
  {
    WithListLists(st, s, v, edges, base);
  }

  lemma WithListSeparate(st: St, s: Slot, v: Vid, edges: seq<Nbr>, base: map<Ref, Block>)
    requires Inv(st, base) && s in st.own && IsCsr(s)
    ensures Separate(WithList(st, s, v, edges))
  {
    var st' := WithList(st, s, v, edges);
    WithListLists(st, s, v, edges, base);
    forall a, b, x, y | x in Lists(st', a) && y in Lists(st', b) && Lists(st', a)[x] == Lists(st', b)[y]
      ensures a == b && x == y
    {
      if (a, x) != (s, v) { assert Lists(st, a)[x] in st.heap; }
      if (b, y) != (s, v) { assert Lists(st, b)[y] in st.heap; }
    }
  }

  lemma WithListView(st: St, s: Slot, v: Vid, edges: seq<Nbr>, base: map<Ref, Block>, a: Slot, w: Vid)
    requires Inv(st, base) && s in st.own && IsCsr(s)
    ensures ListOf(WithList(st, s, v, edges), a, w) == if (a, w) == (s, v) then edges else ListOf(st, a, w)
  {
    WithListLists(st, s, v, edges, base);
  }

  /** Writing a detached adjacency list. */
  lemma WriteList(st: St, s: Slot, v: Vid, edges: seq<Nbr>, base: map<Ref, Block>)
    requires Inv(st, base) && s in st.own && IsCsr(s) && (s, v) in st.ownAdj
    ensures Inv(WithList(st, s, v, edges), base) && Grows(st, WithList(st, s, v, edges))
    ensures ListOf(WithList(st, s, v, edges), s, v) == edges
    ensures ViewExcept(st, WithList(st, s, v, edges), {}, {(s, v)})
  {
    hide Isolated, Shaped, Separate, Flags, ListOf, CellsOf;
    WithListShaped(st, s, v, edges, base);
    WithListSeparate(st, s, v, edges, base);
    WithListPrivate(st, s, v, edges, base);
    WithListCells(st, s, v, edges, base);
    var st' := WithList(st, s, v, edges);
    forall a: Slot, w: Vid ensures ListOf(st', a, w) == if (a, w) == (s, v) then edges else ListOf(st, a, w) {
      WithListView(st, s, v, edges, base, a, w);
    }
  }

  /** Only private blocks are written. */
  lemma WithListPrivate(st: St, s: Slot, v: Vid, edges: seq<Nbr>, base: map<Ref, Block>)
    requires Inv(st, base) && s in st.own && IsCsr(s) && (s, v) in st.ownAdj
    ensures Isolated(WithList(st, s, v, edges), base) && Flags(WithList(st, s, v, edges), base)
  {
    WithListLists(st, s, v, edges, base);
  }

  lemma WithListCells(st: St, s: Slot, v: Vid, edges: seq<Nbr>, base: map<Ref, Block>)
    requires Inv(st, base) && s in st.own && IsCsr(s)
    ensures HasDir(st, s) && WithList(st, s, v, edges).refs == st.refs
    ensures forall a :: CellsOf(WithList(st, s, v, edges), a) == CellsOf(st, a)
  {
  }

  // ---- resizing -------------------------------------------------------------------------------------------

  /** A resize moves a block to a new place and gives the old one back. */
  function Moved(st: St, s: Slot): St
    requires s in st.refs && st.refs[s] in st.heap
  {
    st.(heap := (st.heap - {st.refs[s]})[st.next := st.heap[st.refs[s]]], refs := st.refs[s := st.next],
        next := st.next + 1)
  }

  lemma MovedLists(st: St, s: Slot, base: map<Ref, Block>)
    requires Inv(st, base) && s in st.own
    ensures s in st.refs && st.refs[s] in st.heap && forall a :: Lists(Moved(st, s), a) == Lists(st, a)
  {
    forall a ensures Lists(Moved(st, s), a) == Lists(st, a) {
      if a in st.refs && a != s { assert st.refs[a] != st.refs[s]; }
    }
  }

  lemma MovedView(st: St, s: Slot, base: map<Ref, Block>)
    requires Inv(st, base) && s in st.own
    ensures s in st.refs && st.refs[s] in st.heap && SameView(st, Moved(st, s)) && Shaped(Moved(st, s))
  {
    MovedLists(st, s, base);
    var st' := Moved(st, s);
    forall a, v | a in st.refs && v in Lists(st, a)
      ensures Lists(st, a)[v] in st'.heap && st'.heap[Lists(st, a)[v]] == st.heap[Lists(st, a)[v]]
    {
      assert st.heap[Lists(st, a)[v]].Adj? && !st.heap[st.refs[s]].Adj?;
    }
    forall a | a in st.refs ensures CellsOf(st', a) == CellsOf(st, a) {
      if a != s { assert st.refs[a] != st.refs[s]; }
    }
  }

  /** Only a private block can be given back: the base graph keeps all of its blocks. */
  lemma MovedInv(st: St, s: Slot, base: map<Ref, Block>)
    requires Inv(st, base) && s in st.own
    ensures s in st.refs && st.refs[s] in st.heap && Inv(Moved(st, s), base) && Quietly(st, Moved(st, s))
  {
    MovedLists(st, s, base);
    MovedView(st, s, base);
    assert st.refs[s] !in base;
  }

  // ---- new and dropped parts ----------------------------------------------------------------------------------

  /** A new, private part. */
  function Allocated(st: St, s: Slot, b: Block): St {
    st.(heap := st.heap[st.next := b], refs := st.refs[s := st.next], own := st.own + {s}, next := st.next + 1)
  }

  predicate FreshBlock(s: Slot, b: Block) { if IsCsr(s) then b == Dir(map[]) else b.Cells? }

  /** Nothing but the given part is different, and that one is as the block says. */
  ghost predicate Gains(st: St, st': St, s: Slot, b: Block) {
    && st'.refs.Keys == st.refs.Keys + {s}
    && (forall a: Slot, v: Vid :: ListOf(st', a, v) == if a == s then [] else ListOf(st, a, v))
    && (forall a :: CellsOf(st', a) == if a == s && b.Cells? then b.data else if a == s then [] else CellsOf(st, a))
  }

  lemma AllocatedInv(st: St, s: Slot, b: Block, base: map<Ref, Block>)
    requires Inv(st, base) && s !in st.refs && FreshBlock(s, b)
    ensures Inv(Allocated(st, s, b), base) && Gains(st, Allocated(st, s, b), s, b) && Grows(st, Allocated(st, s, b))
    ensures s in Allocated(st, s, b).own
  {
    hide Isolated, Shaped, Separate, Flags, ListOf, CellsOf;
    AllocatedView(st, s, b);
    AllocatedSeparate(st, s, b);
    AllocatedFlags(st, s, b, base);
  }

  lemma AllocatedLists(st: St, s: Slot, b: Block)
    requires Shaped(st) && s !in st.refs && FreshBlock(s, b)
    ensures forall a :: Lists(Allocated(st, s, b), a) == if a == s then map[] else Lists(st, a)
  {
  }

  lemma AllocatedView(st: St, s: Slot, b: Block)
    requires Shaped(st) && s !in st.refs && FreshBlock(s, b)
    ensures Shaped(Allocated(st, s, b)) && Gains(st, Allocated(st, s, b), s, b)
  {
    AllocatedLists(st, s, b);
  }

  lemma AllocatedSeparate(st: St, s: Slot, b: Block)
    requires Shaped(st) && Separate(st) && s !in st.refs && FreshBlock(s, b)
    ensures Separate(Allocated(st, s, b))
  {
    AllocatedLists(st, s, b);
  }

  lemma AllocatedFlags(st: St, s: Slot, b: Block, base: map<Ref, Block>)
    requires Inv(st, base) && s !in st.refs && FreshBlock(s, b)
    ensures Isolated(Allocated(st, s, b), base) && Flags(Allocated(st, s, b), base)
  {
    AllocatedLists(st, s, b);
  }

  /** All lists of a CSR are outside the base graph, flagged or not. */
  ghost predicate Private(st: St, s: Slot, base: map<Ref, Block>) {
    forall v :: v in Lists(st, s) ==> Lists(st, s)[v] !in base
  }

  /** One more entry at the end of a list of such a CSR. */
  function Appended(st: St, s: Slot, v: Vid, n: Nbr): St
    requires HasDir(st, s)
  {
    WithList(st.(ownAdj := st.ownAdj + {(s, v)}), s, v, ListOf(st, s, v) + [n])
  }

  lemma AppendedInv(st: St, s: Slot, v: Vid, n: Nbr, base: map<Ref, Block>)
    requires Inv(st, base) && s in st.own && IsCsr(s) && Private(st, s, base)
    ensures HasDir(st, s) && Inv(Appended(st, s, v, n), base) && Private(Appended(st, s, v, n), s, base)
    ensures Appended(st, s, v, n).refs == st.refs && Appended(st, s, v, n).own == st.own
    ensures forall x: (Slot, Vid) :: x.0 != s ==> (x in Appended(st, s, v, n).ownAdj <==> x in st.ownAdj)
    ensures ListOf(Appended(st, s, v, n), s, v) == ListOf(st, s, v) + [n]
    ensures ViewExcept(st, Appended(st, s, v, n), {}, {(s, v)})
  {
    Present(st, s, base);
    FlagList(st, s, v, base);
    hide Shaped, Separate, Flags, ListOf, CellsOf;
    var st1 := st.(ownAdj := st.ownAdj + {(s, v)});
    WriteList(st1, s, v, ListOf(st, s, v) + [n], base);
    WithListLists(st1, s, v, ListOf(st, s, v) + [n], base);
    NextIsFree(st, base);
  }

  /** A private list may be flagged. */
  lemma FlagList(st: St, s: Slot, v: Vid, base: map<Ref, Block>)
    requires Inv(st, base) && s in st.own && IsCsr(s) && Private(st, s, base)
    ensures var st1 := st.(ownAdj := st.ownAdj + {(s, v)});
      && Inv(st1, base) && (forall a: Slot, w: Vid :: ListOf(st1, a, w) == ListOf(st, a, w))
      && (forall a :: CellsOf(st1, a) == CellsOf(st, a))
  {
    var st1 := st.(ownAdj := st.ownAdj + {(s, v)});
    assert forall a :: Lists(st1, a) == Lists(st, a);
  }

  lemma NextIsFree(st: St, base: map<Ref, Block>)
    requires Isolated(st, base) && Shaped(st)
    ensures st.next !in base
  {
  }

  /** The flags of a CSR are set anew. */
  function Reflagged(st: St, s: Slot, own: bool, adj: set<(Slot, Vid)>): St {
    st.(own := if own then st.own else st.own - {s}, ownAdj := (set x | x in st.ownAdj && x.0 != s) + adj)
  }

  lemma ReflaggedInv(st: St, s: Slot, own: bool, adj: set<(Slot, Vid)>, base: map<Ref, Block>)
    requires Inv(st, base) && s in st.own && IsCsr(s) && Private(st, s, base)
    requires (forall x: (Slot, Vid) :: x in adj ==> x.0 == s) && (adj != {} ==> own)
    ensures Inv(Reflagged(st, s, own, adj), base)
    ensures forall a: Slot, v: Vid :: ListOf(Reflagged(st, s, own, adj), a, v) == ListOf(st, a, v)
    ensures forall a :: CellsOf(Reflagged(st, s, own, adj), a) == CellsOf(st, a)
  {
    var st' := Reflagged(st, s, own, adj);
    assert forall a :: Lists(st', a) == Lists(st, a);
  }

  lemma AdjIsOwned(st: St, base: map<Ref, Block>)
    requires Inv(st, base)
    ensures forall x :: x in st.ownAdj ==> x.0 in st.own
  {
  }

  /** The parts that are kept, each under the name it gets; a CSR keeps its name. */
  function Kept(st: St, keep: map<Slot, Slot>): St
    requires forall s :: s in keep ==> keep[s] in st.refs
  {
    st.(refs := map s | s in keep :: st.refs[keep[s]], own := (set s | s in keep && keep[s] in st.own),
        ownAdj := (set x | x in st.ownAdj && x.0 in keep && keep[x.0] == x.0))
  }

  ghost predicate CanKeep(st: St, keep: map<Slot, Slot>) {
    && (forall s :: s in keep ==> keep[s] in st.refs && IsCsr(keep[s]) == IsCsr(s) && (IsCsr(s) ==> keep[s] == s))
    && (forall a, b :: a in keep && b in keep && keep[a] == keep[b] ==> a == b)
  }

  lemma KeptLists(st: St, keep: map<Slot, Slot>)
    requires CanKeep(st, keep)
    ensures forall a :: Lists(Kept(st, keep), a) == if a in keep then Lists(st, keep[a]) else map[]
  {
  }

  lemma KeptInv(st: St, keep: map<Slot, Slot>, base: map<Ref, Block>)
    requires Inv(st, base) && CanKeep(st, keep)
    ensures (forall s :: s in keep ==> keep[s] in st.refs) && Inv(Kept(st, keep), base)
    ensures forall a: Slot, v: Vid :: ListOf(Kept(st, keep), a, v) == if a in keep then ListOf(st, keep[a], v) else []
    ensures forall a :: CellsOf(Kept(st, keep), a) == if a in keep then CellsOf(st, keep[a]) else []
  {
    hide Isolated, Shaped, Separate, Flags, ListOf, CellsOf;
    KeptSeparate(st, keep);
    KeptShaped(st, keep);
    KeptFlags(st, keep, base);
    forall a: Slot, v: Vid ensures ListOf(Kept(st, keep), a, v) == if a in keep then ListOf(st, keep[a], v) else [] {
      KeptList(st, keep, a, v);
    }
    KeptCells(st, keep);
  }

  lemma KeptFlags(st: St, keep: map<Slot, Slot>, base: map<Ref, Block>)
    requires Isolated(st, base) && Flags(st, base) && CanKeep(st, keep)
    ensures Isolated(Kept(st, keep), base) && Flags(Kept(st, keep), base)
  {
    KeptLists(st, keep);
  }

  lemma KeptList(st: St, keep: map<Slot, Slot>, a: Slot, v: Vid)
    requires CanKeep(st, keep)
    ensures ListOf(Kept(st, keep), a, v) == if a in keep then ListOf(st, keep[a], v) else []
  {
    KeptLists(st, keep);
  }

  lemma KeptCells(st: St, keep: map<Slot, Slot>)
    requires CanKeep(st, keep)
    ensures forall a :: CellsOf(Kept(st, keep), a) == if a in keep then CellsOf(st, keep[a]) else []
  {
  }

  lemma KeptSeparate(st: St, keep: map<Slot, Slot>)
    requires Separate(st) && CanKeep(st, keep)
    ensures Separate(Kept(st, keep))
  {
    KeptLists(st, keep);
    var st' := Kept(st, keep);
    forall a, b, v, w | v in Lists(st', a) && w in Lists(st', b) && Lists(st', a)[v] == Lists(st', b)[w]
      ensures a == b && v == w
    {
      assert keep[a] == keep[b] && v == w;
    }
  }

  lemma KeptShaped(st: St, keep: map<Slot, Slot>)
    requires Shaped(st) && CanKeep(st, keep)
    ensures Shaped(Kept(st, keep))
  {
    KeptLists(st, keep);
  }

  // ---- composing ----------------------------------------------------------------------------------------

  lemma DetachThenWrite(a: St, b: St, c: St, cells: set<Slot>, lists: set<(Slot, Vid)>)
    requires Quietly(a, b) && ViewExcept(b, c, cells, lists) && Grows(b, c)
    ensures ViewExcept(a, c, cells, lists) && Grows(a, c)
  {
  }

  lemma WriteThenWrite(a: St, b: St, c: St, c1: set<Slot>, l1: set<(Slot, Vid)>, c2: set<Slot>, l2: set<(Slot, Vid)>)
    requires ViewExcept(a, b, c1, l1) && ViewExcept(b, c, c2, l2) && Grows(a, b) && Grows(b, c)
    ensures ViewExcept(a, c, c1 + c2, l1 + l2) && Grows(a, c)
  {
  }
}
