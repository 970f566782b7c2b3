/**
  CowGraphStorage::DeleteEdgesImpl finds the edges between two vertices by iterating over
  the visible entries of the outgoing list and counting them. It hands the count to
  delete_edge, which takes it as a raw position in the list, together with the position
  found for the other half in the incoming list. All positions are found before anything
  is deleted.
 */
module EdgeOffsets {
  import opened CowState
  import opened CowEdges

  /** How many visible entries come before position i. */
  function Rank(edges: seq<Nbr>, ts: nat, i: nat): (r: nat)
    requires i <= |edges|
    ensures r <= i
  {
    if i == 0 then 0 else Rank(edges, ts, i - 1) + (if Visible(edges[i - 1], ts) then 1 else 0)
  }

  /** The counts collected for the matches among the first n entries. */
  function Offsets(edges: seq<Nbr>, w: Vid, ts: nat, n: nat): seq<int>
    requires n <= |edges|
  {
    if n == 0 then []
    else Offsets(edges, w, ts, n - 1) + (if Matches(edges, w, ts, n - 1) then [Rank(edges, ts, n - 1)] else [])
  }

  /** The positions found for the other halves of these matches. */
  function OtherOffsets(out: seq<Nbr>, in_: seq<Nbr>, a: Vid, b: Vid, ts: nat, n: nat): seq<int>
    requires n <= |out|
  {
    if n == 0 then []
    else
      OtherOffsets(out, in_, a, b, ts, n - 1)
      + (if Matches(out, b, ts, n - 1) then [Find(in_, a, KeyOf(out[n - 1]), ts)] else [])
  }

  lemma {:induction false} SameLength(out: seq<Nbr>, in_: seq<Nbr>, a: Vid, b: Vid, ts: nat, n: nat)
    requires n <= |out|
    ensures |OtherOffsets(out, in_, a, b, ts, n)| == |Offsets(out, b, ts, n)|
  {
    if n > 0 { SameLength(out, in_, a, b, ts, n - 1); }
  }

  /** The loop over the visible entries. */
  method MatchedOffsets(out: seq<Nbr>, in_: seq<Nbr>, a: Vid, b: Vid, ts: nat) returns (offs: seq<int>, ins: seq<int>)
    ensures offs == Offsets(out, b, ts, |out|) && ins == OtherOffsets(out, in_, a, b, ts, |out|)
  {
    hide Find, IsFirst;
    offs, ins := [], [];
    var count := 0;
    for i := 0 to |out|
      invariant offs == Offsets(out, b, ts, i) && ins == OtherOffsets(out, in_, a, b, ts, i)
      invariant count == Rank(out, ts, i)
    {
      if Visible(out[i], ts) {
        if out[i].vid == b {
          var m := FindHalf(in_, a, KeyOf(out[i]), ts);
          offs, ins := offs + [count], ins + [m];
        }
        count := count + 1;
      }
    }
  }

  function KillAll(edges: seq<Nbr>, offs: seq<int>, ts: nat): (r: seq<Nbr>)
    ensures |r| == |edges|
  {
    if offs == [] then edges else Kill(KillAll(edges, offs[..|offs| - 1], ts), offs[|offs| - 1], ts)
  }

  lemma {:induction false} KilledAt(edges: seq<Nbr>, offs: seq<int>, ts: nat, i: nat)
    requires i < |edges|
    ensures KillAll(edges, offs, ts)[i] == if i in offs && Visible(edges[i], ts) then edges[i].(dead := true) else edges[i]
    decreases |offs|
  {
    if offs != [] {
      KilledAt(edges, offs[..|offs| - 1], ts, i);
      assert offs == offs[..|offs| - 1] + [offs[|offs| - 1]];
    }
  }

  lemma {:induction false} OffsetIsRank(edges: seq<Nbr>, w: Vid, ts: nat, n: nat, o: int)
    requires n <= |edges|
    ensures o in Offsets(edges, w, ts, n) <==> exists i: nat :: i < n && Matches(edges, w, ts, i) && Rank(edges, ts, i) == o
  {
    if n > 0 {
      OffsetIsRank(edges, w, ts, n - 1, o);
      if Matches(edges, w, ts, n - 1) && Rank(edges, ts, n - 1) == o {
        assert n - 1 < n && Matches(edges, w, ts, n - 1) && Rank(edges, ts, n - 1) == o;
      }
    }
  }

  lemma {:induction false} FullRank(edges: seq<Nbr>, ts: nat, i: nat)
    requires i <= |edges|
    ensures Rank(edges, ts, i) == i <==> forall k: nat :: k < i ==> Visible(edges[k], ts)
  {
    if i > 0 { FullRank(edges, ts, i - 1); }
  }

  /** Exactly the visible edges to w are deleted. */
  ghost predicate DeletesMatches(edges: seq<Nbr>, w: Vid, ts: nat, result: seq<Nbr>) {
    |result| == |edges| &&
    forall i: nat :: i < |edges| ==>
      result[i] == if Matches(edges, w, ts, i) then edges[i].(dead := true) else edges[i]
  }

  /** No invisible entry stands before an edge to w. */
  ghost predicate NoGapBefore(edges: seq<Nbr>, w: Vid, ts: nat) {
    forall i: nat, k: nat :: Matches(edges, w, ts, i) && k < i ==> Visible(edges[k], ts)
  }

  lemma NoGapDeletes(edges: seq<Nbr>, w: Vid, ts: nat)
    requires NoGapBefore(edges, w, ts)
    ensures DeletesMatches(edges, w, ts, KillAll(edges, Offsets(edges, w, ts, |edges|), ts))
  {
    var offs := Offsets(edges, w, ts, |edges|);
    forall i: nat | i < |edges|
      ensures KillAll(edges, offs, ts)[i] == if Matches(edges, w, ts, i) then edges[i].(dead := true) else edges[i]
    {
      KilledAt(edges, offs, ts, i);
      OffsetIsRank(edges, w, ts, |edges|, i);
      if Matches(edges, w, ts, i) {
        FullRank(edges, ts, i);
        assert i < |edges| && Matches(edges, w, ts, i) && Rank(edges, ts, i) == i;
      }
      if i in offs {
        var j: nat :| j < |edges| && Matches(edges, w, ts, j) && Rank(edges, ts, j) == i;
        FullRank(edges, ts, j);
      }
    }
  }

  lemma {:induction false} LastMatch(edges: seq<Nbr>, w: Vid, ts: nat, n: nat) returns (m: nat)
    requires n <= |edges| && exists i: nat :: i < n && Matches(edges, w, ts, i)
    ensures m < n && Matches(edges, w, ts, m) && forall k: nat :: m < k < n ==> !Matches(edges, w, ts, k)
    decreases n
  {
    if Matches(edges, w, ts, n - 1) {
      m := n - 1;
    } else {
      m := LastMatch(edges, w, ts, n - 1);
    }
  }

  lemma DeletesNoGap(edges: seq<Nbr>, w: Vid, ts: nat)
    requires DeletesMatches(edges, w, ts, KillAll(edges, Offsets(edges, w, ts, |edges|), ts))
    ensures NoGapBefore(edges, w, ts)
  {
    var offs := Offsets(edges, w, ts, |edges|);
    if i: nat :| Matches(edges, w, ts, i) {
      assert i < |edges|;
      var m := LastMatch(edges, w, ts, |edges|);
      KilledAt(edges, offs, ts, m);
      OffsetIsRank(edges, w, ts, |edges|, m);
      var j: nat :| j < |edges| && Matches(edges, w, ts, j) && Rank(edges, ts, j) == m;
      assert j == m;
      FullRank(edges, ts, m);
    }
  }

  /** Deleting by count deletes the right entries of the list exactly when no invisible entry stands before one of them. */
  lemma OutDeletesIff(edges: seq<Nbr>, w: Vid, ts: nat)
    ensures DeletesMatches(edges, w, ts, KillAll(edges, Offsets(edges, w, ts, |edges|), ts)) <==> NoGapBefore(edges, w, ts)
  {
    if NoGapBefore(edges, w, ts) {
      NoGapDeletes(edges, w, ts);
    } else if DeletesMatches(edges, w, ts, KillAll(edges, Offsets(edges, w, ts, |edges|), ts)) {
      DeletesNoGap(edges, w, ts);
    }
  }

  // ---- the incoming list -----------------------------------------------------------------------

  /** No two of the edges to w have the same timestamp and property. */
  ghost predicate SingleKeys(edges: seq<Nbr>, w: Vid, ts: nat) {
    forall key :: Half(edges, w, ts)[key] <= 1
  }

  ghost predicate Twins(edges: seq<Nbr>, w: Vid, ts: nat, i: nat, j: nat) {
    i < j && Matches(edges, w, ts, i) && Matches(edges, w, ts, j) && KeyOf(edges[i]) == KeyOf(edges[j])
  }

  lemma TwinsCount(edges: seq<Nbr>, w: Vid, ts: nat, i: nat, j: nat)
    requires Twins(edges, w, ts, i, j)
    ensures Half(edges, w, ts)[KeyOf(edges[i])] >= 2
  {
    hide Half;
    var key, rest := KeyOf(edges[i]), edges[i := edges[i].(dead := true)];
    HalfUpdate(edges, i, edges[i].(dead := true), w, ts);
    HalfHas(rest, w, key, ts);
    assert Matches(rest, w, ts, j) && KeyOf(rest[j]) == key;
  }

  lemma CountTwins(edges: seq<Nbr>, w: Vid, ts: nat, key: Key)
    requires Half(edges, w, ts)[key] >= 2
    ensures exists i: nat, j: nat :: Twins(edges, w, ts, i, j)
  {
    hide Half;
    HalfHas(edges, w, key, ts);
    var i: nat :| i < |edges| && Matches(edges, w, ts, i) && KeyOf(edges[i]) == key;
    var rest := edges[i := edges[i].(dead := true)];
    HalfUpdate(edges, i, edges[i].(dead := true), w, ts);
    HalfHas(rest, w, key, ts);
    var j: nat :| j < |rest| && Matches(rest, w, ts, j) && KeyOf(rest[j]) == key;
    assert if i < j then Twins(edges, w, ts, i, j) else Twins(edges, w, ts, j, i);
  }

  lemma {:induction false} OtherOffsetIs(out: seq<Nbr>, in_: seq<Nbr>, a: Vid, b: Vid, ts: nat, n: nat, o: int)
    requires n <= |out|
    ensures o in OtherOffsets(out, in_, a, b, ts, n) <==>
      exists k: nat :: k < n && Matches(out, b, ts, k) && Find(in_, a, KeyOf(out[k]), ts) == o
  {
    hide Find;
    if n > 0 {
      OtherOffsetIs(out, in_, a, b, ts, n - 1, o);
      if Matches(out, b, ts, n - 1) && Find(in_, a, KeyOf(out[n - 1]), ts) == o {
        assert n - 1 < n && Matches(out, b, ts, n - 1) && Find(in_, a, KeyOf(out[n - 1]), ts) == o;
      }
    }
  }

  /** With every edge in both lists, a position of the incoming list is found exactly if it is the first of its key. */
  lemma FoundIsFirst(out: seq<Nbr>, in_: seq<Nbr>, a: Vid, b: Vid, ts: nat, o: int)
    requires Half(out, b, ts) == Half(in_, a, ts)
    ensures o in OtherOffsets(out, in_, a, b, ts, |out|) <==>
      o >= 0 && Matches(in_, a, ts, o) && IsFirst(in_, a, KeyOf(in_[o]), ts, o)
  {
    hide Half, Find;
    OtherOffsetIs(out, in_, a, b, ts, |out|, o);
    if o in OtherOffsets(out, in_, a, b, ts, |out|) {
      var k: nat :| k < |out| && Matches(out, b, ts, k) && Find(in_, a, KeyOf(out[k]), ts) == o;
      HalfHas(out, b, KeyOf(out[k]), ts);
      FindIs(in_, a, KeyOf(out[k]), ts);
    }
    if o >= 0 && Matches(in_, a, ts, o) && IsFirst(in_, a, KeyOf(in_[o]), ts, o) {
      var key := KeyOf(in_[o]);
      HalfHas(in_, a, key, ts);
      HalfHas(out, b, key, ts);
      var k: nat :| k < |out| && Matches(out, b, ts, k) && KeyOf(out[k]) == key;
      FindIs(in_, a, key, ts);
      FirstIsUnique(in_, a, key, ts, o, Find(in_, a, key, ts));
      assert k < |out| && Matches(out, b, ts, k) && Find(in_, a, KeyOf(out[k]), ts) == o;
    }
  }

  lemma FirstIsUnique(edges: seq<Nbr>, w: Vid, key: Key, ts: nat, m: int, n: int)
    requires IsFirst(edges, w, key, ts, m) && IsFirst(edges, w, key, ts, n)
    ensures m == n
  {
  }

  lemma InDeletes(out: seq<Nbr>, in_: seq<Nbr>, a: Vid, b: Vid, ts: nat)
    requires Half(out, b, ts) == Half(in_, a, ts) && SingleKeys(in_, a, ts)
    ensures DeletesMatches(in_, a, ts, KillAll(in_, OtherOffsets(out, in_, a, b, ts, |out|), ts))
  {
    hide Half, OtherOffsets, KillAll;
    var ins := OtherOffsets(out, in_, a, b, ts, |out|);
    forall i: nat | i < |in_|
      ensures KillAll(in_, ins, ts)[i] == if Matches(in_, a, ts, i) then in_[i].(dead := true) else in_[i]
    {
      KilledAt(in_, ins, ts, i);
      FoundIsFirst(out, in_, a, b, ts, i);
      if Matches(in_, a, ts, i) {
        forall k: nat | k < i && Matches(in_, a, ts, k) ensures KeyOf(in_[k]) != KeyOf(in_[i]) {
          if KeyOf(in_[k]) == KeyOf(in_[i]) { TwinsCount(in_, a, ts, k, i); }
        }
      }
    }
  }

  lemma InKeepsTwin(out: seq<Nbr>, in_: seq<Nbr>, a: Vid, b: Vid, ts: nat, i: nat, j: nat)
    requires Half(out, b, ts) == Half(in_, a, ts) && Twins(in_, a, ts, i, j)
    ensures KillAll(in_, OtherOffsets(out, in_, a, b, ts, |out|), ts)[j] == in_[j]
  {
    hide Half, OtherOffsets, KillAll;
    KilledAt(in_, OtherOffsets(out, in_, a, b, ts, |out|), ts, j);
    FoundIsFirst(out, in_, a, b, ts, j);
  }

  /** The incoming halves are all deleted exactly when no two of the edges look alike. */
  lemma InDeletesIff(out: seq<Nbr>, in_: seq<Nbr>, a: Vid, b: Vid, ts: nat)
    requires Half(out, b, ts) == Half(in_, a, ts)
    ensures DeletesMatches(in_, a, ts, KillAll(in_, OtherOffsets(out, in_, a, b, ts, |out|), ts)) <==> SingleKeys(out, b, ts)
  {
    hide Half, OtherOffsets, KillAll;
    if SingleKeys(out, b, ts) {
      InDeletes(out, in_, a, b, ts);
    } else {
      var key :| Half(out, b, ts)[key] > 1;
      CountTwins(in_, a, ts, key);
      var i: nat, j: nat :| Twins(in_, a, ts, i, j);
      InKeepsTwin(out, in_, a, b, ts, i, j);
      assert !DeletesMatches(in_, a, ts, KillAll(in_, OtherOffsets(out, in_, a, b, ts, |out|), ts)) by {
        assert Matches(in_, a, ts, j) && in_[j] != in_[j].(dead := true);
      }
    }
  }

  // ---- both lists --------------------------------------------------------------------------------

  /** Exactly the visible edges from a to b are deleted, in both lists. */
  ghost predicate DeletesEdges(out: seq<Nbr>, in_: seq<Nbr>, a: Vid, b: Vid, ts: nat) {
    && DeletesMatches(out, b, ts, KillAll(out, Offsets(out, b, ts, |out|), ts))
    && DeletesMatches(in_, a, ts, KillAll(in_, OtherOffsets(out, in_, a, b, ts, |out|), ts))
  }

  /**
    With every edge in both lists, deleting the edges between two vertices deletes exactly
    these exactly when no invisible entry stands before one of them in the outgoing list and
    no two of them have the same timestamp and property.
   */
  lemma DeleteEdgesIff(out: seq<Nbr>, in_: seq<Nbr>, a: Vid, b: Vid, ts: nat)
    requires Half(out, b, ts) == Half(in_, a, ts)
    ensures DeletesEdges(out, in_, a, b, ts) <==> NoGapBefore(out, b, ts) && SingleKeys(out, b, ts)
    ensures -1 !in OtherOffsets(out, in_, a, b, ts, |out|)
  {
    hide Half, OtherOffsets, KillAll, Offsets, DeletesMatches, NoGapBefore, SingleKeys;
    OutDeletesIff(out, b, ts);
    InDeletesIff(out, in_, a, b, ts);
    FoundIsFirst(out, in_, a, b, ts, -1);
  }

  lemma {:induction false} HalfPointwise(xs: seq<Nbr>, ys: seq<Nbr>, w: Vid, ts: nat)
    requires |xs| == |ys| && forall i :: 0 <= i < |xs| ==> Share(xs[i], w, ts) == Share(ys[i], w, ts)
    ensures Half(xs, w, ts) == Half(ys, w, ts)
    decreases |xs|
  {
    hide Share;
    if xs != [] { HalfPointwise(xs[..|xs| - 1], ys[..|ys| - 1], w, ts); }
  }

  /** What such a deletion takes from a list. */
  lemma DeletesExchange(edges: seq<Nbr>, w: Vid, ts: nat, result: seq<Nbr>)
    requires DeletesMatches(edges, w, ts, result)
    ensures Exchange(edges, result, w, ts, Half(edges, w, ts), multiset{}) && !Sees(result, w, ts)
  {
    hide Half;
    assert forall i: nat :: i < |edges| ==> result[i] == if Matches(edges, w, ts, i) then edges[i].(dead := true) else edges[i];
    HalfMember(result, w, ts);
    forall x: Vid ensures Half(result, x, ts)
        == if x == w then Half(edges, x, ts) - Half(edges, w, ts) + multiset{} else Half(edges, x, ts) {
      if x != w { HalfPointwise(edges, result, x, ts); }
    }
  }

  /**
    With a deleted entry in front, deleting the edges from a to w takes the outgoing half of
    the edge to x and the incoming half of the edge to w.
   */
  lemma DeletedEntryShiftsCount(a: Vid, v: Vid, x: Vid, w: Vid, ts: nat)
    requires x != w
    ensures var out, in_ := [Nbr(v, 0, true, 0), Nbr(x, 0, false, 0), Nbr(w, 0, false, 0)], [Nbr(a, 0, false, 0)];
      && Half(out, w, ts) == Half(in_, a, ts)
      && KillAll(out, Offsets(out, w, ts, 3), ts) == [Nbr(v, 0, true, 0), Nbr(x, 0, true, 0), Nbr(w, 0, false, 0)]
      && !Sees(KillAll(in_, OtherOffsets(out, in_, a, w, ts, 3), ts), a, ts)
  {
    var out, in_ := [Nbr(v, 0, true, 0), Nbr(x, 0, false, 0), Nbr(w, 0, false, 0)], [Nbr(a, 0, false, 0)];
    assert Rank(out, ts, 1) == 0 && Rank(out, ts, 2) == 1;
    assert Offsets(out, w, ts, 1) == [] && Offsets(out, w, ts, 2) == [];
    assert Offsets(out, w, ts, 3) == [1];
    KilledAt(out, [1], ts, 0);
    KilledAt(out, [1], ts, 1);
    KilledAt(out, [1], ts, 2);
    OneHalf(out, in_, a, w, ts);
    InDeletesIff(out, in_, a, w, ts);
    DeletesExchange(in_, a, ts, KillAll(in_, OtherOffsets(out, in_, a, w, ts, 3), ts));
  }

  lemma OneHalf(out: seq<Nbr>, in_: seq<Nbr>, a: Vid, w: Vid, ts: nat)
    requires |out| == 3 && !Visible(out[0], ts) && out[1].vid != w && out[2] == Nbr(w, 0, false, 0)
    requires in_ == [Nbr(a, 0, false, 0)]
    ensures Half(out, w, ts) == Half(in_, a, ts) == multiset{Key(0, 0)}
  {
    HalfNil(w, ts);
    HalfNil(a, ts);
    HalfSnoc([], out[0], w, ts);
    HalfSnoc([out[0]], out[1], w, ts);
    HalfSnoc([out[0], out[1]], out[2], w, ts);
    HalfSnoc([], in_[0], a, ts);
    assert out == [out[0], out[1]] + [out[2]] && [out[0]] + [out[1]] == [out[0], out[1]];
    assert [] + [out[0]] == [out[0]] && [] + [in_[0]] == in_;
  }

  /** Of two parallel edges that look alike, both outgoing halves are deleted and one incoming half stays. */
  lemma ParallelEdgesLeaveHalf(a: Vid, b: Vid, p: int, ts: nat)
    ensures var out, in_ := [Nbr(b, 0, false, p), Nbr(b, 0, false, p)], [Nbr(a, 0, false, p), Nbr(a, 0, false, p)];
      && Half(out, b, ts) == Half(in_, a, ts) && NoGapBefore(out, b, ts)
      && !Sees(KillAll(out, Offsets(out, b, ts, 2), ts), b, ts)
      && KillAll(in_, OtherOffsets(out, in_, a, b, ts, 2), ts)[1] == in_[1]
  {
    var out, in_ := [Nbr(b, 0, false, p), Nbr(b, 0, false, p)], [Nbr(a, 0, false, p), Nbr(a, 0, false, p)];
    LooksAlike(out, in_, a, b, ts);
    OutDeletesIff(out, b, ts);
    DeletesExchange(out, b, ts, KillAll(out, Offsets(out, b, ts, 2), ts));
    assert Twins(in_, a, ts, 0, 1);
    InKeepsTwin(out, in_, a, b, ts, 0, 1);
  }

  lemma LooksAlike(out: seq<Nbr>, in_: seq<Nbr>, a: Vid, b: Vid, ts: nat)
    requires |out| == |in_| == 2 && forall i :: 0 <= i < 2 ==> out[i].vid == b && in_[i].vid == a
    requires forall i :: 0 <= i < 2 ==> Visible(out[i], ts) && Visible(in_[i], ts) && KeyOf(out[i]) == KeyOf(in_[i])
    ensures Half(out, b, ts) == Half(in_, a, ts)
  {
    HalfNil(b, ts);
    HalfNil(a, ts);
    HalfSnoc([], out[0], b, ts);
    HalfSnoc([], in_[0], a, ts);
    HalfSnoc([out[0]], out[1], b, ts);
    HalfSnoc([in_[0]], in_[1], a, ts);
    assert out == [out[0]] + [out[1]] && in_ == [in_[0]] + [in_[1]];
    assert [] + [out[0]] == [out[0]] && [] + [in_[0]] == [in_[0]];
  }
}
