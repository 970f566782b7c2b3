/**
  Adjacency entries. An edge is stored twice, in the outgoing list of its source and in the
  incoming list of its destination; nothing but equal contents ties the two halves together.
 */
module CowEdges {
  import opened CowState

  predicate Visible(n: Nbr, ts: nat) { n.ts <= ts && !n.dead }

  predicate NoneVisible(edges: seq<Nbr>, ts: nat) { forall i :: 0 <= i < |edges| ==> !Visible(edges[i], ts) }

  predicate Matches(edges: seq<Nbr>, w: Vid, ts: nat, i: nat) {
    i < |edges| && Visible(edges[i], ts) && edges[i].vid == w
  }

  predicate Sees(edges: seq<Nbr>, w: Vid, ts: nat) {
    exists i :: 0 <= i < |edges| && Visible(edges[i], ts) && edges[i].vid == w
  }

  lemma SeesMore(edges: seq<Nbr>, i: nat, ts: nat)
    requires i < |edges|
    ensures forall w: Vid :: Sees(edges[..i + 1], w, ts) <==>
      Sees(edges[..i], w, ts) || (Visible(edges[i], ts) && edges[i].vid == w)
  {
    assert edges[..i + 1] == edges[..i] + [edges[i]];
    forall w: Vid ensures Sees(edges[..i + 1], w, ts) <==>
        Sees(edges[..i], w, ts) || (Visible(edges[i], ts) && edges[i].vid == w) {
      if Sees(edges[..i], w, ts) {
        var k :| 0 <= k < i && Visible(edges[..i][k], ts) && edges[..i][k].vid == w;
        assert edges[..i + 1][k] == edges[k];
      }
      if Visible(edges[i], ts) && edges[i].vid == w { assert edges[..i + 1][i] == edges[i]; }
    }
  }

  /** delete_edge: a visible entry at a raw offset is marked dead; any other is left alone. */
  function Kill(edges: seq<Nbr>, i: int, ts: nat): (r: seq<Nbr>)
    ensures |r| == |edges|
  {
    if 0 <= i < |edges| && Visible(edges[i], ts) then edges[i := edges[i].(dead := true)] else edges
  }

  /** set_data on a bundled property: the entry at a raw offset gets the value and the writer's timestamp. */
  function SetProp(edges: seq<Nbr>, i: nat, value: int, ts: nat): (r: seq<Nbr>)
    ensures |r| == |edges|
  {
    if i < |edges| then edges[i := edges[i].(prop := value, ts := ts)] else edges
  }

  /** What each entry is after the one at an offset has got a value. */
  lemma SetPropAt(edges: seq<Nbr>, i: nat, value: int, ts: nat, k: nat)
    requires k < |edges|
    ensures var n, n' := edges[k], SetProp(edges, i, value, ts)[k];
      n'.vid == n.vid && n'.dead == n.dead && if k == i then n'.prop == value && n'.ts == ts else n' == n
  {
  }

  /** Killing marks the entry at the offset, if it is visible, and no other. */
  lemma KillAt(edges: seq<Nbr>, i: int, ts: nat, k: nat)
    requires k < |edges|
    ensures var n, n' := edges[k], Kill(edges, i, ts)[k];
      && n'.vid == n.vid && n'.ts == n.ts && n'.prop == n.prop
      && (n'.dead <==> n.dead || (k == i && n.ts <= ts))
  {
  }

  // ---- the entries for one neighbour ----------------------------------------------------------

  /** What one half of an edge carries to recognise the other half by. */
  datatype Key = Key(ts: nat, prop: int)

  function KeyOf(n: Nbr): Key { Key(n.ts, n.prop) }

  function Share(n: Nbr, w: Vid, ts: nat): multiset<Key> {
    if Visible(n, ts) && n.vid == w then multiset{KeyOf(n)} else multiset{}
  }

  /** The visible entries for neighbour w. */
  function Half(edges: seq<Nbr>, w: Vid, ts: nat): multiset<Key> {
    if edges == [] then multiset{}
    else Half(edges[..|edges| - 1], w, ts) + Share(edges[|edges| - 1], w, ts)
  }

  lemma HalfSnoc(edges: seq<Nbr>, n: Nbr, w: Vid, ts: nat)
    ensures Half(edges + [n], w, ts) == Half(edges, w, ts) + Share(n, w, ts)
  {
    assert (edges + [n])[..|edges|] == edges;
  }

  lemma Swap(h: multiset<Key>, gone: multiset<Key>, come: multiset<Key>, last: multiset<Key>)
    requires gone <= h
    ensures gone <= h + last && h + last - gone + come == (h - gone + come) + last
  {
  }

  /** Replacing one entry exchanges its share of the half. */
  lemma {:induction false} HalfUpdate(edges: seq<Nbr>, i: nat, n: Nbr, w: Vid, ts: nat)
    requires i < |edges|
    ensures Share(edges[i], w, ts) <= Half(edges, w, ts)
    ensures Half(edges[i := n], w, ts) == Half(edges, w, ts) - Share(edges[i], w, ts) + Share(n, w, ts)
    decreases |edges|
  {
    hide Share;
    var last := |edges| - 1;
    if i == last {
      assert edges[i := n][..last] == edges[..last];
    } else {
      HalfUpdate(edges[..last], i, n, w, ts);
      assert edges[i := n][..last] == edges[..last][i := n];
      Swap(Half(edges[..last], w, ts), Share(edges[i], w, ts), Share(n, w, ts), Share(edges[last], w, ts));
    }
  }

  lemma {:induction false} HalfMember(edges: seq<Nbr>, w: Vid, ts: nat)
    ensures Half(edges, w, ts) != multiset{} <==> Sees(edges, w, ts)
    decreases |edges|
  {
    if edges != [] {
      var last := |edges| - 1;
      HalfMember(edges[..last], w, ts);
      SeesMore(edges, last, ts);
      assert edges[..last + 1] == edges;
    }
  }

  lemma NoneVisibleHalf(edges: seq<Nbr>, w: Vid, ts: nat)
    requires NoneVisible(edges, ts)
    ensures Half(edges, w, ts) == multiset{}
  {
    HalfMember(edges, w, ts);
  }

  // ---- finding the other half -----------------------------------------------------------------

  /** The first visible entry for the neighbour from an offset on, or -1. */
  function FirstMatch(edges: seq<Nbr>, w: Vid, ts: nat, from: nat): int
    decreases |edges| - from
  {
    if from >= |edges| then -1
    else if Matches(edges, w, ts, from) then from
    else FirstMatch(edges, w, ts, from + 1)
  }

  /** The first with a given key, or -1. */
  function FirstKey(edges: seq<Nbr>, w: Vid, key: Key, ts: nat, from: nat): int
    decreases |edges| - from
  {
    if from >= |edges| then -1
    else if Matches(edges, w, ts, from) && KeyOf(edges[from]) == key then from
    else FirstKey(edges, w, key, ts, from + 1)
  }

  /**
    search_other_offset_with_cur_offset and fuzzy_search_offset_from_nbr_list: a single
    candidate is taken as it is, and among several the first with the same timestamp and
    property; -1 stands for no offset.
   */
  function Find(edges: seq<Nbr>, w: Vid, key: Key, ts: nat): int {
    if |Half(edges, w, ts)| == 1 then FirstMatch(edges, w, ts, 0) else FirstKey(edges, w, key, ts, 0)
  }

  ghost predicate NoneBefore(edges: seq<Nbr>, w: Vid, key: Key, ts: nat, m: nat) {
    forall k: nat :: k < m && Matches(edges, w, ts, k) ==> KeyOf(edges[k]) != key
  }

  /** The first visible entry for the neighbour with this key. */
  ghost predicate IsFirst(edges: seq<Nbr>, w: Vid, key: Key, ts: nat, m: int) {
    m >= 0 && Matches(edges, w, ts, m) && KeyOf(edges[m]) == key && NoneBefore(edges, w, key, ts, m)
  }

  lemma {:induction false} FirstMatchIs(edges: seq<Nbr>, w: Vid, ts: nat, from: nat)
    requires forall k: nat :: k < from ==> !Matches(edges, w, ts, k)
    ensures var m := FirstMatch(edges, w, ts, from);
      if m == -1 then forall k: nat :: !Matches(edges, w, ts, k)
      else m >= from && Matches(edges, w, ts, m) && forall k: nat :: k < m ==> !Matches(edges, w, ts, k)
    decreases |edges| - from
  {
    if from < |edges| && !Matches(edges, w, ts, from) { FirstMatchIs(edges, w, ts, from + 1); }
  }

  lemma {:induction false} FirstKeyIs(edges: seq<Nbr>, w: Vid, key: Key, ts: nat, from: nat)
    requires from <= |edges| && NoneBefore(edges, w, key, ts, from)
    ensures var m := FirstKey(edges, w, key, ts, from);
      if m == -1 then NoneBefore(edges, w, key, ts, |edges|) else IsFirst(edges, w, key, ts, m)
    decreases |edges| - from
  {
    if from < |edges| && !(Matches(edges, w, ts, from) && KeyOf(edges[from]) == key) {
      FirstKeyIs(edges, w, key, ts, from + 1);
    }
  }

  lemma NoneBeforeSnoc(edges: seq<Nbr>, n: Nbr, w: Vid, key: Key, ts: nat)
    ensures NoneBefore(edges + [n], w, key, ts, |edges| + 1) <==>
      NoneBefore(edges, w, key, ts, |edges|) && !(Visible(n, ts) && n.vid == w && KeyOf(n) == key)
  {
    var all := edges + [n];
    assert forall k: nat :: k < |edges| ==> Matches(all, w, ts, k) == Matches(edges, w, ts, k);
    assert Matches(all, w, ts, |edges|) == (Visible(n, ts) && n.vid == w);
  }

  /** A key of the half belongs to some entry, and an entry to some key. */
  lemma {:induction false} HalfHas(edges: seq<Nbr>, w: Vid, key: Key, ts: nat)
    ensures key in Half(edges, w, ts) <==> !NoneBefore(edges, w, key, ts, |edges|)
    decreases |edges|
  {
    hide NoneBefore, Half;
    if edges == [] {
      NoneOfNil(w, key, ts);
    } else {
      var last := |edges| - 1;
      HalfHas(edges[..last], w, key, ts);
      HalfSnoc(edges[..last], edges[last], w, ts);
      NoneBeforeSnoc(edges[..last], edges[last], w, key, ts);
      assert edges == edges[..last] + [edges[last]];
    }
  }

  lemma NoneOfNil(w: Vid, key: Key, ts: nat)
    ensures NoneBefore([], w, key, ts, 0) && Half([], w, ts) == multiset{}
  {
  }

  /** With one visible entry, its key is the only one. */
  lemma {:induction false} HalfOfOne(edges: seq<Nbr>, w: Vid, ts: nat, i: nat)
    requires Matches(edges, w, ts, i) && |Half(edges, w, ts)| == 1
    ensures Half(edges, w, ts) == multiset{KeyOf(edges[i])}
  {
    HalfUpdate(edges, i, edges[i], w, ts);
    assert Share(edges[i], w, ts) == multiset{KeyOf(edges[i])};
    assert |Half(edges, w, ts) - multiset{KeyOf(edges[i])}| == 0;
  }

  /** The search finds the other half whenever there is one, and the first of several equal ones. */
  lemma FindIs(edges: seq<Nbr>, w: Vid, key: Key, ts: nat)
    ensures var m := Find(edges, w, key, ts); m == -1 || (m >= 0 && Matches(edges, w, ts, m))
    ensures key in Half(edges, w, ts) ==> IsFirst(edges, w, key, ts, Find(edges, w, key, ts))
    ensures Find(edges, w, key, ts) == -1 ==> |Half(edges, w, ts)| != 1
  {
    hide Half;
    HalfHas(edges, w, key, ts);
    if |Half(edges, w, ts)| == 1 {
      HalfMember(edges, w, ts);
      FirstMatchIs(edges, w, ts, 0);
      var i :| 0 <= i < |edges| && Visible(edges[i], ts) && edges[i].vid == w;
      assert Matches(edges, w, ts, i);
      HalfOfOne(edges, w, ts, FirstMatch(edges, w, ts, 0));
    } else {
      FirstKeyIs(edges, w, key, ts, 0);
    }
  }

  /** Offsets of all visible entries for the neighbour among the first n, in order. */
  ghost predicate Collected(edges: seq<Nbr>, w: Vid, ts: nat, n: nat, cands: seq<nat>) {
    && (forall a :: 0 <= a < |cands| ==> cands[a] < n && Matches(edges, w, ts, cands[a]))
    && (forall a, b :: 0 <= a < b < |cands| ==> cands[a] < cands[b])
    && (forall k: nat :: k < n && Matches(edges, w, ts, k) ==> k in cands)
  }

  lemma OneCandidate(edges: seq<Nbr>, w: Vid, ts: nat, cands: seq<nat>)
    requires Collected(edges, w, ts, |edges|, cands) && |cands| == 1
    ensures FirstMatch(edges, w, ts, 0) == cands[0]
  {
    FirstMatchIs(edges, w, ts, 0);
    assert Matches(edges, w, ts, cands[0]);
  }

  lemma FirstCandidate(edges: seq<Nbr>, w: Vid, key: Key, ts: nat, cands: seq<nat>, a: nat)
    requires Collected(edges, w, ts, |edges|, cands) && a <= |cands|
    requires forall b :: 0 <= b < a ==> KeyOf(edges[cands[b]]) != key
    ensures a < |cands| && KeyOf(edges[cands[a]]) == key ==> FirstKey(edges, w, key, ts, 0) == cands[a]
    ensures a == |cands| ==> FirstKey(edges, w, key, ts, 0) == -1
  {
    FirstKeyIs(edges, w, key, ts, 0);
    forall k: nat | k < |edges| && Matches(edges, w, ts, k) ensures exists b :: 0 <= b < |cands| && cands[b] == k {
      assert k in cands;
    }
  }

  /** The loops of the search. */
  method FindHalf(edges: seq<Nbr>, w: Vid, key: Key, ts: nat) returns (m: int)
    ensures m == Find(edges, w, key, ts)
    ensures m == -1 || (m >= 0 && Matches(edges, w, ts, m))
    ensures key in Half(edges, w, ts) ==> IsFirst(edges, w, key, ts, m)
    ensures m == -1 ==> |Half(edges, w, ts)| != 1
  {
    hide Half, FirstKey, FirstMatch;
    FindIs(edges, w, key, ts);
    var cands: seq<nat> := [];
    HalfNil(w, ts);
    assert edges[..0] == [];
    for i := 0 to |edges|
      invariant Collected(edges, w, ts, i, cands) && |cands| == |Half(edges[..i], w, ts)|
    {
      HalfSnoc(edges[..i], edges[i], w, ts);
      assert edges[..i + 1] == edges[..i] + [edges[i]];
      if Visible(edges[i], ts) && edges[i].vid == w { cands := cands + [i]; }
    }
    assert edges[..|edges|] == edges;
    if |cands| == 1 {
      OneCandidate(edges, w, ts, cands);
      return cands[0];
    }
    for i := 0 to |cands|
      invariant forall b :: 0 <= b < i ==> KeyOf(edges[cands[b]]) != key
    {
      FirstCandidate(edges, w, key, ts, cands, i);
      if KeyOf(edges[cands[i]]) == key { return cands[i]; }
    }
    FirstCandidate(edges, w, key, ts, cands, |cands|);
    return -1;
  }

  lemma HalfNil(w: Vid, ts: nat)
    ensures Half([], w, ts) == multiset{}
  {
  }

  // ---- both halves of every edge -------------------------------------------------------------------

  /** Every edge of the triple is stored in both lists. */
  ghost predicate Mirrored(st: St, t: Trip, ts: nat) {
    forall a: Vid, b: Vid :: Half(ListOf(st, OutCsr(t), a), b, ts) == Half(ListOf(st, InCsr(t), b), a, ts)
  }

  ghost predicate AllMirrored(st: St, ts: nat) { forall t :: Mirrored(st, t, ts) }

  lemma MirroredAt(st: St, t: Trip, a: Vid, b: Vid, ts: nat)
    requires AllMirrored(st, ts)
    ensures Half(ListOf(st, OutCsr(t), a), b, ts) == Half(ListOf(st, InCsr(t), b), a, ts)
  {
    assert Mirrored(st, t, ts);
  }

  /** Two offsets that name the two halves of one visible edge. */
  predicate SameEdge(st: St, t: Trip, a: Vid, b: Vid, ts: nat, i: int, j: int) {
    && i >= 0 && j >= 0
    && Matches(ListOf(st, OutCsr(t), a), b, ts, i) && Matches(ListOf(st, InCsr(t), b), a, ts, j)
    && KeyOf(ListOf(st, OutCsr(t), a)[i]) == KeyOf(ListOf(st, InCsr(t), b)[j])
  }

  lemma QuietMirrors(st: St, st': St, ts: nat)
    requires Quietly(st, st') && AllMirrored(st, ts)
    ensures AllMirrored(st', ts)
  {
    hide Half, ListOf;
    forall t ensures Mirrored(st', t, ts) {
      forall a: Vid, b: Vid ensures Half(ListOf(st', OutCsr(t), a), b, ts) == Half(ListOf(st', InCsr(t), b), a, ts) {
        MirroredAt(st, t, a, b, ts);
      }
    }
  }

  lemma CellsMirror(st: St, st': St, cells: set<Slot>, ts: nat)
    requires ViewExcept(st, st', cells, {}) && AllMirrored(st, ts)
    ensures AllMirrored(st', ts)
  {
    hide Half, ListOf;
    forall t ensures Mirrored(st', t, ts) {
      forall a: Vid, b: Vid ensures Half(ListOf(st', OutCsr(t), a), b, ts) == Half(ListOf(st', InCsr(t), b), a, ts) {
        MirroredAt(st, t, a, b, ts);
        assert ListOf(st', OutCsr(t), a) == ListOf(st, OutCsr(t), a);
        assert ListOf(st', InCsr(t), b) == ListOf(st, InCsr(t), b);
      }
    }
  }

  /** Each list of the pair loses and gains the same entry for the other end, and nothing else. */
  ghost predicate Exchange(old_: seq<Nbr>, new_: seq<Nbr>, w: Vid, ts: nat, gone: multiset<Key>, come: multiset<Key>) {
    forall x: Vid :: Half(new_, x, ts) == if x == w then Half(old_, x, ts) - gone + come else Half(old_, x, ts)
  }

  /** Changing both halves of one edge alike keeps every edge in both lists. */
  lemma ExchangeMirrors(st: St, st': St, t: Trip, a: Vid, b: Vid, ts: nat, gone: multiset<Key>, come: multiset<Key>)
    requires AllMirrored(st, ts)
    requires forall s: Slot, v: Vid :: (s, v) != (OutCsr(t), a) && (s, v) != (InCsr(t), b) ==>
      ListOf(st', s, v) == ListOf(st, s, v)
    requires Exchange(ListOf(st, OutCsr(t), a), ListOf(st', OutCsr(t), a), b, ts, gone, come)
    requires Exchange(ListOf(st, InCsr(t), b), ListOf(st', InCsr(t), b), a, ts, gone, come)
    ensures AllMirrored(st', ts)
  {
    hide Half, ListOf;
    forall u ensures Mirrored(st', u, ts) {
      forall x: Vid, y: Vid ensures Half(ListOf(st', OutCsr(u), x), y, ts) == Half(ListOf(st', InCsr(u), y), x, ts) {
        MirroredAt(st, u, x, y, ts);
        if (u, x) != (t, a) { assert ListOf(st', OutCsr(u), x) == ListOf(st, OutCsr(u), x); }
        if (u, y) != (t, b) { assert ListOf(st', InCsr(u), y) == ListOf(st, InCsr(u), y); }
      }
    }
  }

  lemma AppendExchanges(edges: seq<Nbr>, n: Nbr, ts: nat)
    requires Visible(n, ts)
    ensures Exchange(edges, edges + [n], n.vid, ts, multiset{}, multiset{KeyOf(n)})
  {
    forall x: Vid ensures Half(edges + [n], x, ts)
        == if x == n.vid then Half(edges, x, ts) - multiset{} + multiset{KeyOf(n)} else Half(edges, x, ts) {
      HalfSnoc(edges, n, x, ts);
    }
  }

  lemma KillExchanges(edges: seq<Nbr>, i: nat, w: Vid, ts: nat)
    requires Matches(edges, w, ts, i)
    ensures Exchange(edges, Kill(edges, i, ts), w, ts, multiset{KeyOf(edges[i])}, multiset{})
  {
    var n := edges[i].(dead := true);
    forall x: Vid ensures Half(edges[i := n], x, ts)
        == if x == w then Half(edges, x, ts) - multiset{KeyOf(edges[i])} + multiset{} else Half(edges, x, ts) {
      HalfUpdate(edges, i, n, x, ts);
    }
  }

  lemma SetPropExchanges(edges: seq<Nbr>, i: nat, w: Vid, value: int, now: nat, ts: nat)
    requires Matches(edges, w, ts, i) && now <= ts
    ensures Exchange(edges, SetProp(edges, i, value, now), w, ts, multiset{KeyOf(edges[i])}, multiset{Key(now, value)})
  {
    var n := edges[i].(prop := value, ts := now);
    forall x: Vid ensures Half(edges[i := n], x, ts)
        == if x == w then Half(edges, x, ts) - multiset{KeyOf(edges[i])} + multiset{Key(now, value)} else Half(edges, x, ts) {
      HalfUpdate(edges, i, n, x, ts);
    }
  }
}
