/** Every edge stays in both lists: what the changes of lists and schema mean for the two halves. */
module CowMirror {
  import opened CowState
  import opened CowEdges
  import opened EdgeOffsets
  import opened CowSchema
  import opened CowColumns
  import opened CowTables

  lemma ListsMirror(st: St, st': St, ts: nat)
    requires forall a: Slot, v: Vid :: ListOf(st', a, v) == ListOf(st, a, v)
    ensures AllMirrored(st, ts) ==> AllMirrored(st', ts)
  {
    hide Half, ListOf;
    if AllMirrored(st, ts) {
      forall t ensures Mirrored(st', t, ts) {
        forall a: Vid, b: Vid ensures Half(ListOf(st', OutCsr(t), a), b, ts) == Half(ListOf(st', InCsr(t), b), a, ts) {
          MirroredAt(st, t, a, b, ts);
        }
      }
    }
  }

  lemma ViewMirrors(st: St, st': St, ts: nat)
    requires SameView(st, st') && AllMirrored(st, ts)
    ensures AllMirrored(st', ts)
  {
    hide ListOf, AllMirrored;
    ListsMirror(st, st', ts);
  }

  lemma ReadsMirror(st: St, st': St, ts: nat)
    requires SameReads(st, st')
    ensures AllMirrored(st, ts) ==> AllMirrored(st', ts)
  {
    hide ListOf, AllMirrored;
    ListsMirror(st, st', ts);
  }

  /** Columns come and go without touching a list. */
  lemma KeptMirror(st: St, st': St, tb: Table, order: seq<nat>, base: map<Ref, Block>, ts: nat)
    requires Inv(st, base) && KeptReads(st, st', KeepCols(st, tb, order))
    ensures forall a: Slot, v: Vid :: ListOf(st', a, v) == ListOf(st, a, v)
    ensures AllMirrored(st, ts) ==> AllMirrored(st', ts)
  {
    hide ListOf, CellsOf, AllMirrored, Inv;
    forall a: Slot, v: Vid ensures ListOf(st', a, v) == ListOf(st, a, v) {
      NoList(st, a, v, base);
      if a in KeepCols(st, tb, order) { NoList(st, KeepCols(st, tb, order)[a], v, base); }
    }
    ListsMirror(st, st', ts);
  }

  lemma NewColumnsMirror(st: St, st': St, tb: Table, k: nat, values: seq<int>, rows: nat, ts: nat)
    requires NewColumns(st, st', tb, k, values, rows)
    ensures AllMirrored(st, ts) ==> AllMirrored(st', ts)
  {
    hide ListOf, CellsOf, AllMirrored;
    ListsMirror(st, st', ts);
  }

  /** Dropping both directions of an edge type keeps every other edge in both lists. */
  lemma ForgetsMirror(st: St, st': St, gone: Slot -> bool, ts: nat)
    requires Forgets(st, st', gone) && forall t :: gone(OutCsr(t)) == gone(InCsr(t))
    ensures AllMirrored(st, ts) ==> AllMirrored(st', ts)
  {
    hide Half, ListOf;
    if AllMirrored(st, ts) {
      forall t ensures Mirrored(st', t, ts) {
        forall a: Vid, b: Vid ensures Half(ListOf(st', OutCsr(t), a), b, ts) == Half(ListOf(st', InCsr(t), b), a, ts) {
          MirroredAt(st, t, a, b, ts);
          HalfNil(a, ts);
          HalfNil(b, ts);
        }
      }
    }
  }

  /** With every edge in both lists, an entry at the vertex has its other half. */
  lemma OtherHalf(st: St, t: Trip, v: Vid, w: Vid, k: nat, isSrc: bool, ts: nat)
    requires AllMirrored(st, ts) && Matches(ListOf(st, RoleSlot(t, isSrc), v), w, ts, k)
    ensures KeyOf(ListOf(st, RoleSlot(t, isSrc), v)[k]) in Half(ListOf(st, RoleSlot(t, !isSrc), w), v, ts)
  {
    hide ListOf, AllMirrored;
    var edges := ListOf(st, RoleSlot(t, isSrc), v);
    HalfUpdate(edges, k, edges[k], w, ts);
    assert KeyOf(edges[k]) in Share(edges[k], w, ts);
    if isSrc { MirroredAt(st, t, v, w, ts); } else { MirroredAt(st, t, w, v, ts); }
  }

  lemma KillMirrors(st: St, st': St, t: Trip, a: Vid, b: Vid, i: int, j: int, ts: nat)
    requires AllMirrored(st, ts) && SameEdge(st, t, a, b, ts, i, j) && ViewExcept(st, st', {}, Both(t, a, b))
    requires ListOf(st', OutCsr(t), a) == Kill(ListOf(st, OutCsr(t), a), i, ts)
    requires ListOf(st', InCsr(t), b) == Kill(ListOf(st, InCsr(t), b), j, ts)
    ensures AllMirrored(st', ts)
  {
    hide ListOf, AllMirrored, Kill, Exchange;
    var out, in_ := ListOf(st, OutCsr(t), a), ListOf(st, InCsr(t), b);
    KillExchanges(out, i, b, ts);
    KillExchanges(in_, j, a, ts);
    ExchangeMirrors(st, st', t, a, b, ts, multiset{KeyOf(out[i])}, multiset{});
  }

  lemma SetMirrors(st: St, st': St, t: Trip, a: Vid, b: Vid, i: nat, j: nat, value: int, ts: nat)
    requires AllMirrored(st, ts) && SameEdge(st, t, a, b, ts, i, j) && ViewExcept(st, st', {}, Both(t, a, b))
    requires ListOf(st', OutCsr(t), a) == SetProp(ListOf(st, OutCsr(t), a), i, value, ts)
    requires ListOf(st', InCsr(t), b) == SetProp(ListOf(st, InCsr(t), b), j, value, ts)
    ensures AllMirrored(st', ts)
  {
    hide ListOf, AllMirrored, SetProp, Exchange;
    var out, in_ := ListOf(st, OutCsr(t), a), ListOf(st, InCsr(t), b);
    SetPropExchanges(out, i, b, value, ts, ts);
    SetPropExchanges(in_, j, a, value, ts, ts);
    ExchangeMirrors(st, st', t, a, b, ts, multiset{KeyOf(out[i])}, multiset{Key(ts, value)});
  }

  lemma AddMirrors(st: St, st': St, t: Trip, a: Vid, b: Vid, cells: set<Slot>, data: int, ts: nat)
    requires AllMirrored(st, ts) && ViewExcept(st, st', cells, Both(t, a, b))
    requires ListOf(st', OutCsr(t), a) == ListOf(st, OutCsr(t), a) + [Nbr(b, ts, false, data)]
    requires ListOf(st', InCsr(t), b) == ListOf(st, InCsr(t), b) + [Nbr(a, ts, false, data)]
    ensures AllMirrored(st', ts)
  {
    hide ListOf, AllMirrored, Exchange;
    AppendExchanges(ListOf(st, OutCsr(t), a), Nbr(b, ts, false, data), ts);
    AppendExchanges(ListOf(st, InCsr(t), b), Nbr(a, ts, false, data), ts);
    ExchangeMirrors(st, st', t, a, b, ts, multiset{}, multiset{Key(ts, data)});
  }

  /** All entries are visible as far as their timestamps go. */
  ghost predicate NoneAfter(edges: seq<Nbr>, ts: nat) { forall i :: 0 <= i < |edges| ==> edges[i].ts <= ts }

  /** The edges between two vertices can be deleted by their counts. */
  ghost predicate Deletable(st: St, t: Trip, src: Vid, dst: Vid, read: nat, ts: nat) {
    var out, in_ := ListOf(st, OutCsr(t), src), ListOf(st, InCsr(t), dst);
    && AllMirrored(st, ts) && ts <= read && NoneAfter(out, ts) && NoneAfter(in_, ts)
    && NoGapBefore(out, dst, ts) && SingleKeys(out, dst, ts)
  }

  lemma {:induction false} SameHalf(edges: seq<Nbr>, w: Vid, read: nat, ts: nat)
    requires ts <= read && NoneAfter(edges, ts)
    ensures Half(edges, w, read) == Half(edges, w, ts)
    decreases |edges|
  {
    if edges != [] { SameHalf(edges[..|edges| - 1], w, read, ts); }
  }

  lemma {:induction false} SameOffsets(edges: seq<Nbr>, w: Vid, read: nat, ts: nat, n: nat)
    requires ts <= read && NoneAfter(edges, ts) && n <= |edges|
    ensures Rank(edges, read, n) == Rank(edges, ts, n) && Offsets(edges, w, read, n) == Offsets(edges, w, ts, n)
  {
    if n > 0 { SameOffsets(edges, w, read, ts, n - 1); }
  }

  lemma {:induction false} SameFirst(edges: seq<Nbr>, w: Vid, key: Key, read: nat, ts: nat, from: nat)
    requires ts <= read && NoneAfter(edges, ts)
    ensures FirstMatch(edges, w, read, from) == FirstMatch(edges, w, ts, from)
    ensures FirstKey(edges, w, key, read, from) == FirstKey(edges, w, key, ts, from)
    decreases |edges| - from
  {
    if from < |edges| { SameFirst(edges, w, key, read, ts, from + 1); }
  }

  lemma {:induction false} SameOthers(out: seq<Nbr>, in_: seq<Nbr>, a: Vid, b: Vid, read: nat, ts: nat, n: nat)
    requires ts <= read && NoneAfter(out, ts) && NoneAfter(in_, ts) && n <= |out|
    ensures OtherOffsets(out, in_, a, b, read, n) == OtherOffsets(out, in_, a, b, ts, n)
  {
    hide FirstMatch, FirstKey, Half;
    if n > 0 {
      SameOthers(out, in_, a, b, read, ts, n - 1);
      SameHalf(in_, a, read, ts);
      SameFirst(in_, a, KeyOf(out[n - 1]), read, ts, 0);
    }
  }

  lemma KillNothing(edges: seq<Nbr>, ts: nat)
    ensures KillAll(edges, [], ts) == edges
  {
  }

  lemma KillSnoc(edges: seq<Nbr>, offs: seq<int>, o: int, ts: nat)
    ensures KillAll(edges, offs + [o], ts) == Kill(KillAll(edges, offs, ts), o, ts)
  {
    assert (offs + [o])[..|offs|] == offs;
  }

  /** What deleting by count leaves of the edges between two vertices, and of all others. */
  lemma DeletesAll(st: St, st': St, t: Trip, a: Vid, b: Vid, read: nat, ts: nat)
    requires Deletable(st, t, a, b, read, ts) && ViewExcept(st, st', {}, Both(t, a, b))
    ensures var out, in_ := ListOf(st, OutCsr(t), a), ListOf(st, InCsr(t), b);
      var offs, ins := Offsets(out, b, read, |out|), OtherOffsets(out, in_, a, b, read, |out|);
      -1 !in ins &&
      (ListOf(st', OutCsr(t), a) == KillAll(out, offs, ts) && ListOf(st', InCsr(t), b) == KillAll(in_, ins, ts) ==>
         AllMirrored(st', ts) && !Sees(ListOf(st', OutCsr(t), a), b, ts) && !Sees(ListOf(st', InCsr(t), b), a, ts))
  {
    hide ListOf, Half, Offsets, OtherOffsets, KillAll, AllMirrored, NoGapBefore, SingleKeys, DeletesMatches, Exchange, Sees;
    var out, in_ := ListOf(st, OutCsr(t), a), ListOf(st, InCsr(t), b);
    SameOffsets(out, b, read, ts, |out|);
    SameOthers(out, in_, a, b, read, ts, |out|);
    MirroredAt(st, t, a, b, ts);
    DeleteEdgesIff(out, in_, a, b, ts);
    var out', in' := KillAll(out, Offsets(out, b, ts, |out|), ts), KillAll(in_, OtherOffsets(out, in_, a, b, ts, |out|), ts);
    DeletesExchange(out, b, ts, out');
    DeletesExchange(in_, a, ts, in');
    if ListOf(st', OutCsr(t), a) == out' && ListOf(st', InCsr(t), b) == in' {
      ExchangeMirrors(st, st', t, a, b, ts, Half(out, b, ts), multiset{});
    }
  }
}
