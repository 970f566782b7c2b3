/**
  Redo records name a deleted or updated edge by its offset in an adjacency list. Inserts of
  concurrent transactions reach a list in any order, each transaction's own entries in the
  order in which it wrote them; replay applies the transactions one after the other in
  timestamp order.
 */
module RedoOffsets {

  /** The k-th entry that the transaction with timestamp ts adds to the list. */
  datatype Tag = Tag(ts: nat, k: nat)

  predicate Less(a: Tag, b: Tag) { a.ts < b.ts || (a.ts == b.ts && a.k < b.k) }

  // ---- counting -----------------------------------------------------------------------------

  function CountAt(s: seq<Tag>, ts: nat): nat {
    if s == [] then 0 else CountAt(s[..|s| - 1], ts) + (if s[|s| - 1].ts == ts then 1 else 0)
  }

  function CountUpTo(s: seq<Tag>, ts: nat): nat {
    if s == [] then 0 else CountUpTo(s[..|s| - 1], ts) + (if s[|s| - 1].ts <= ts then 1 else 0)
  }

  /** How many entries come before a given one in timestamp order. */
  function CountLess(s: seq<Tag>, x: Tag): nat {
    if s == [] then 0 else CountLess(s[..|s| - 1], x) + (if Less(s[|s| - 1], x) then 1 else 0)
  }

  /** A list after inserts: every transaction's own entries stand in its own order. */
  predicate Applied(live: seq<Tag>) {
    forall i :: 0 <= i < |live| ==> live[i].k == CountAt(live[..i], live[i].ts)
  }

  lemma AppliedPrefix(live: seq<Tag>, n: nat)
    requires Applied(live) && n <= |live|
    ensures Applied(live[..n])
  {
    forall i | 0 <= i < n ensures live[..n][i].k == CountAt(live[..n][..i], live[..n][i].ts) {
      assert live[..n][..i] == live[..i];
    }
  }

  /** An entry is in the list exactly if its transaction has written so many. */
  lemma {:induction false} HasTag(live: seq<Tag>, ts: nat, k: nat)
    requires Applied(live)
    ensures Tag(ts, k) in live <==> k < CountAt(live, ts)
    decreases |live|
  {
    if live != [] {
      var n := |live| - 1;
      AppliedPrefix(live, n);
      HasTag(live[..n], ts, k);
      assert live == live[..n] + [live[n]];
    }
  }

  lemma {:induction false} CountPrefix(live: seq<Tag>, i: nat, ts: nat)
    requires i <= |live|
    ensures CountAt(live[..i], ts) <= CountAt(live, ts)
    decreases |live|
  {
    if i < |live| {
      CountPrefix(live[..|live| - 1], i, ts);
      assert live[..|live| - 1][..i] == live[..i];
    } else {
      assert live[..i] == live;
    }
  }

  // ---- replay ----------------------------------------------------------------------------------

  function Entries(ts: nat, n: nat): (r: seq<Tag>)
    ensures |r| == n && forall k :: 0 <= k < n ==> r[k] == Tag(ts, k)
  {
    seq(n, k requires 0 <= k < n => Tag(ts, k))
  }

  /** The list after replaying the transactions up to a timestamp. */
  function ReplayedTo(live: seq<Tag>, ts: nat): seq<Tag> {
    (if ts == 0 then [] else ReplayedTo(live, ts - 1)) + Entries(ts, CountAt(live, ts))
  }

  function LastTs(live: seq<Tag>): nat {
    if live == [] then 0
    else
      var m := LastTs(live[..|live| - 1]);
      if m < live[|live| - 1].ts then live[|live| - 1].ts else m
  }

  /** The list after replay of everything. */
  function Replayed(live: seq<Tag>): seq<Tag> { ReplayedTo(live, LastTs(live)) }

  lemma {:induction false} CountUpToZero(live: seq<Tag>)
    ensures CountUpTo(live, 0) == CountAt(live, 0)
  {
    if live != [] { CountUpToZero(live[..|live| - 1]); }
  }

  lemma {:induction false} CountUpToStep(live: seq<Tag>, ts: nat)
    requires ts > 0
    ensures CountUpTo(live, ts) == CountUpTo(live, ts - 1) + CountAt(live, ts)
    decreases |live|
  {
    if live != [] { CountUpToStep(live[..|live| - 1], ts); }
  }

  lemma {:induction false} ReplayedLength(live: seq<Tag>, ts: nat)
    ensures |ReplayedTo(live, ts)| == CountUpTo(live, ts)
    decreases ts
  {
    if ts == 0 {
      CountUpToZero(live);
    } else {
      ReplayedLength(live, ts - 1);
      CountUpToStep(live, ts);
    }
  }

  lemma {:induction false} CountAll(live: seq<Tag>, ts: nat)
    requires ts >= LastTs(live)
    ensures CountUpTo(live, ts) == |live|
    decreases |live|
  {
    if live != [] { CountAll(live[..|live| - 1], ts); }
  }

  /** Where replay puts an entry: behind all entries of smaller timestamps, at its place in its transaction. */
  function Place(live: seq<Tag>, x: Tag): nat { (if x.ts == 0 then 0 else CountUpTo(live, x.ts - 1)) + x.k }

  lemma {:induction false} PlaceIs(live: seq<Tag>, x: Tag, ts: nat)
    requires x.ts <= ts && x.k < CountAt(live, x.ts)
    ensures Place(live, x) < |ReplayedTo(live, ts)| && ReplayedTo(live, ts)[Place(live, x)] == x
    decreases ts
  {
    hide CountAt, CountUpTo, ReplayedTo;
    ReplayedStep(live, ts);
    if ts > x.ts {
      PlaceIs(live, x, ts - 1);
    } else if ts > 0 {
      ReplayedLength(live, ts - 1);
    }
  }

  lemma ReplayedStep(live: seq<Tag>, ts: nat)
    ensures ReplayedTo(live, ts) == (if ts == 0 then [] else ReplayedTo(live, ts - 1)) + Entries(ts, CountAt(live, ts))
  {
  }

  /** The place of an entry is the number of entries before it in timestamp order. */
  lemma {:induction false} CountLessIs(live: seq<Tag>, x: Tag)
    requires Applied(live)
    ensures CountLess(live, x) == (if x.ts == 0 then 0 else CountUpTo(live, x.ts - 1))
                                  + (if CountAt(live, x.ts) < x.k then CountAt(live, x.ts) else x.k)
    decreases |live|
  {
    if live != [] {
      AppliedPrefix(live, |live| - 1);
      CountLessIs(live[..|live| - 1], x);
    }
  }

  lemma {:induction false} AllUpTo(live: seq<Tag>, i: nat)
    requires i < |live|
    ensures live[i].ts <= LastTs(live)
    decreases |live|
  {
    if i < |live| - 1 { AllUpTo(live[..|live| - 1], i); }
  }

  /** Replay puts every entry of the list at its place. */
  lemma ReplayedAt(live: seq<Tag>, i: nat)
    requires Applied(live) && i < |live|
    ensures CountLess(live, live[i]) < |Replayed(live)| == |live|
    ensures Replayed(live)[CountLess(live, live[i])] == live[i]
  {
    hide CountAt, CountUpTo, CountLess, ReplayedTo, LastTs, Applied;
    AllUpTo(live, i);
    HasTag(live, live[i].ts, live[i].k);
    assert live[i] == Tag(live[i].ts, live[i].k) && live[i] in live;
    CountLessIs(live, live[i]);
    PlaceIs(live, live[i], LastTs(live));
    ReplayedLength(live, LastTs(live));
    CountAll(live, LastTs(live));
  }

  // ---- order ---------------------------------------------------------------------------------------

  predicate Ordered(s: seq<Tag>) { forall i, j :: 0 <= i < j < |s| ==> Less(s[i], s[j]) }

  lemma OrderedAppend(pre: seq<Tag>, ts: nat, n: nat)
    requires Ordered(pre) && forall x :: x in pre ==> x.ts < ts
    ensures Ordered(pre + Entries(ts, n)) && forall x :: x in pre + Entries(ts, n) ==> x.ts <= ts
  {
    var all := pre + Entries(ts, n);
    forall i, j | 0 <= i < j < |all| ensures Less(all[i], all[j]) {
      if i < |pre| { assert pre[i] in pre; }
    }
  }

  lemma {:induction false} ReplayedUpTo(live: seq<Tag>, ts: nat)
    ensures Ordered(ReplayedTo(live, ts)) && forall x :: x in ReplayedTo(live, ts) ==> x.ts <= ts
    decreases ts
  {
    hide ReplayedTo, CountAt;
    ReplayedStep(live, ts);
    if ts > 0 { ReplayedUpTo(live, ts - 1); }
    hide Ordered;
    NothingOrdered();
    OrderedAppend(if ts == 0 then [] else ReplayedTo(live, ts - 1), ts, CountAt(live, ts));
  }

  lemma NothingOrdered()
    ensures Ordered([])
  {
  }

  // ---- removal --------------------------------------------------------------------------------------

  /** The entries that are left after the one at an offset is removed. */
  function Rest(s: seq<Tag>, i: nat): set<Tag>
    requires i < |s|
  {
    (set x | x in s) - {s[i]}
  }

  lemma SameTags(live: seq<Tag>)
    requires Applied(live)
    ensures |Replayed(live)| == |live| && forall x :: x in live <==> x in Replayed(live)
  {
    ReplayedLength(live, LastTs(live));
    CountAll(live, LastTs(live));
    forall x | x in live ensures x in Replayed(live) {
      var i :| 0 <= i < |live| && live[i] == x;
      ReplayedAt(live, i);
    }
    forall x | x in Replayed(live) ensures x in live {
      FromEntries(live, x, LastTs(live));
      HasTag(live, x.ts, x.k);
    }
  }

  lemma {:induction false} FromEntries(live: seq<Tag>, x: Tag, ts: nat)
    requires x in ReplayedTo(live, ts)
    ensures x.k < CountAt(live, x.ts)
    decreases ts
  {
    if x !in Entries(ts, CountAt(live, ts)) { FromEntries(live, x, ts - 1); }
  }

  /**
    A removal that was logged by its offset hits the same edge on replay exactly when so many
    entries of the live list come before that edge in timestamp order. Both sides are about
    the list as the transaction sees it.
   */
  lemma RemovalReplaysIff(live: seq<Tag>, i: nat)
    requires Applied(live) && i < |live|
    ensures |Replayed(live)| == |live|
    ensures Rest(Replayed(live), i) == Rest(live, i) <==> CountLess(live, live[i]) == i
  {
    ReplayedAt(live, i);
    SameTags(live);
    ReplayedUpTo(live, LastTs(live));
    var r := Replayed(live);
    assert r[i] in r && live[i] in live;
    if Rest(r, i) == Rest(live, i) {
      assert r[i] == live[i] by {
        assert live[i] !in Rest(live, i) && r[i] !in Rest(r, i);
        assert live[i] in (set x | x in r) && r[i] in (set x | x in live);
      }
    }
  }

  /** Every offset names the same edge on replay exactly when the entries stand in timestamp order. */
  lemma AllRemovalsReplayIff(live: seq<Tag>)
    requires Applied(live)
    ensures |Replayed(live)| == |live|
    ensures (forall i :: 0 <= i < |live| ==> Rest(Replayed(live), i) == Rest(live, i))
       <==> (forall i, j :: 0 <= i < j < |live| ==> live[i].ts <= live[j].ts)
  {
    hide Rest, Replayed, Applied, CountLess;
    SameTags(live);
    forall i | 0 <= i < |live|
      ensures Rest(Replayed(live), i) == Rest(live, i) <==> CountLess(live, live[i]) == i
    {
      RemovalReplaysIff(live, i);
    }
    if forall i, j :: 0 <= i < j < |live| ==> live[i].ts <= live[j].ts {
      forall i | 0 <= i < |live| ensures CountLess(live, live[i]) == i { SortedCount(live, i); }
    } else {
      var i, j :| 0 <= i < j < |live| && live[i].ts > live[j].ts;
      NotBoth(live, i, j);
    }
  }

  lemma NotBoth(live: seq<Tag>, i: nat, j: nat)
    requires Applied(live) && i < j < |live| && live[i].ts > live[j].ts
    ensures CountLess(live, live[i]) != i || CountLess(live, live[j]) != j
  {
    ReplayedAt(live, i);
    ReplayedAt(live, j);
    ReplayedUpTo(live, LastTs(live));
  }

  lemma SortedCount(live: seq<Tag>, i: nat)
    requires Applied(live) && i < |live|
    requires forall a, b :: 0 <= a < b < |live| ==> live[a].ts <= live[b].ts
    ensures CountLess(live, live[i]) == i
  {
    hide CountLess, Applied;
    forall j | 0 <= j < |live| ensures Less(live[j], live[i]) <==> j < i {
      if j < i && live[j].ts == live[i].ts { OwnOrder(live, j, i); }
      if j > i && live[j].ts == live[i].ts { OwnOrder(live, i, j); }
    }
    CountFirst(live, live[i], i, |live|);
    assert live[..|live|] == live;
  }

  lemma OwnOrder(live: seq<Tag>, i: nat, j: nat)
    requires Applied(live) && i < j < |live| && live[i].ts == live[j].ts
    ensures live[i].k < live[j].k
  {
    assert live[..i + 1] == live[..i] + [live[i]] && live[..i + 1][..i] == live[..i];
    CountPrefix(live[..j], i + 1, live[i].ts);
    assert live[..j][..i + 1] == live[..i + 1];
  }

  lemma {:induction false} CountFirst(live: seq<Tag>, x: Tag, i: nat, n: nat)
    requires i <= |live| && n <= |live| && forall j :: 0 <= j < |live| ==> (Less(live[j], x) <==> j < i)
    ensures CountLess(live[..n], x) == if n < i then n else i
  {
    if n > 0 {
      CountFirst(live, x, i, n - 1);
      assert live[..n][..n - 1] == live[..n - 1];
    }
  }

  /**
    Two inserts with timestamps 5 and 6 reach a list in the opposite order. An update removes
    the first entry, the one of insert 6; its replay removes the one of insert 5.
   */
  lemma LaterInsertFirst()
    ensures var live := [Tag(6, 0), Tag(5, 0)];
      && Applied(live) && Replayed(live) == [Tag(5, 0), Tag(6, 0)]
      && Rest(live, 0) == {Tag(5, 0)} && Rest(Replayed(live), 0) == {Tag(6, 0)}
  {
    var live := [Tag(6, 0), Tag(5, 0)];
    assert live[..0] == [] && live[..1] == [Tag(6, 0)] && [Tag(6, 0)][..0] == [];
    assert Applied(live);
    assert LastTs([Tag(6, 0)]) == 6 && LastTs(live) == 6;
    ReplayedAt(live, 0);
    ReplayedAt(live, 1);
    assert CountLess([Tag(6, 0)], live[0]) == 0 && CountLess([Tag(6, 0)], live[1]) == 0;
    assert CountLess(live, live[0]) == 1 && CountLess(live, live[1]) == 0;
  }
}
