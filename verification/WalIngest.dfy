/** Reading the WAL files back and replaying them in timestamp order. */
module WalIngest {
  import opened Common
  import opened Store

  /** One WAL record: an insert, or an update or compaction. */
  datatype Record = Record(ts: nat, update: bool, w: Write)

  /** LocalWalParser after open: inserts by timestamp, updates in ascending order. */
  datatype Parser = Parser(inserts: seq<Option<Write>>, updates: seq<Record>, last: nat)

  // ---- what the records say -------------------------------------------------------------------

  predicate Distinct(rs: seq<Record>) {
    forall i, j :: 0 <= i < j < |rs| ==> rs[i].ts != rs[j].ts
  }

  predicate Positive(rs: seq<Record>) { forall r :: r in rs ==> 0 < r.ts < MAX_TS }

  function LastTs(rs: seq<Record>): nat {
    if rs == [] then 0 else Max(LastTs(rs[..|rs| - 1]), rs[|rs| - 1].ts)
  }

  /** The length the insert list grows to. */
  function Slots(rs: seq<Record>): nat {
    if rs == [] then FIRST_SLOTS
    else
      var r := rs[|rs| - 1];
      if r.update then Slots(rs[..|rs| - 1]) else Max(Slots(rs[..|rs| - 1]), r.ts + 1)
  }

  ghost predicate Ascending(us: seq<Record>) {
    forall i, j :: 0 <= i < j < |us| ==> us[i].ts < us[j].ts
  }

  /** The parser holds exactly the given records. */
  ghost predicate Holds(p: Parser, rs: seq<Record>) {
    && Ascending(p.updates)
    && (forall r :: r in p.updates <==> r in rs && r.update)
    && |p.inserts| == Slots(rs) && p.last == LastTs(rs)
    && (forall t, w :: 0 <= t < |p.inserts| ==> (p.inserts[t] == Some(w) <==> Record(t, false, w) in rs))
  }

  // ---- parsing -----------------------------------------------------------------------------------

  /** Puts an update at its place in an ascending list. */
  method Insert(us: seq<Record>, r: Record) returns (vs: seq<Record>)
    requires Ascending(us) && forall u :: u in us ==> u.ts != r.ts
    ensures Ascending(vs) && forall x :: x in vs <==> x in us || x == r
  {
    var i := 0;
    while i < |us| && us[i].ts < r.ts
      invariant 0 <= i <= |us| && forall k :: 0 <= k < i ==> us[k].ts < r.ts
    {
      i := i + 1;
    }
    if i < |us| { assert us[i] in us; }
    InsertAt(us, i, r);
    vs := us[..i] + [r] + us[i..];
  }

  lemma InsertAt(us: seq<Record>, i: nat, r: Record)
    requires Ascending(us) && i <= |us| && (i < |us| ==> r.ts < us[i].ts)
    requires forall k :: 0 <= k < i ==> us[k].ts < r.ts
    ensures Ascending(us[..i] + [r] + us[i..])
    ensures forall x :: x in us[..i] + [r] + us[i..] <==> x in us || x == r
  {
    var vs := us[..i] + [r] + us[i..];
    assert us == us[..i] + us[i..];
    assert forall k :: 0 <= k < |vs| ==> vs[k] == if k < i then us[k] else if k == i then r else us[k - 1];
    forall a, b | 0 <= a < b < |vs| ensures vs[a].ts < vs[b].ts {
    }
  }

  /** The final sort of the update list by timestamp. */
  method SortUpdates(us: seq<Record>) returns (vs: seq<Record>)
    requires Distinct(us)
    ensures Ascending(vs) && forall r :: r in vs <==> r in us
  {
    vs := [];
    for i := 0 to |us|
      invariant Ascending(vs) && forall r :: r in vs <==> r in us[..i]
    {
      assert forall u :: u in us[..i] ==> u.ts != us[i].ts;
      vs := Insert(vs, us[i]);
      assert us[..i + 1] == us[..i] + [us[i]];
    }
    assert us[..|us|] == us;
  }

  lemma {:induction false} SlotsCover(rs: seq<Record>)
    ensures Slots(rs) >= FIRST_SLOTS && forall r :: r in rs && !r.update ==> r.ts < Slots(rs)
  {
    if rs != [] {
      var pre := rs[..|rs| - 1];
      SlotsCover(pre);
      assert rs == pre + [rs[|rs| - 1]];
    }
  }

  lemma {:induction false} LastCovers(rs: seq<Record>)
    ensures forall r :: r in rs ==> r.ts <= LastTs(rs)
  {
    if rs != [] {
      var pre := rs[..|rs| - 1];
      LastCovers(pre);
      assert rs == pre + [rs[|rs| - 1]];
    }
  }

  lemma Snoc(pre: seq<Record>, r: Record)
    ensures LastTs(pre + [r]) == Max(LastTs(pre), r.ts)
    ensures Slots(pre + [r]) == if r.update then Slots(pre) else Max(Slots(pre), r.ts + 1)
  {
    assert (pre + [r])[..|pre|] == pre;
  }

  /** The parser's fields after some records, the update list still in file order. */
  ghost predicate Partial(pre: seq<Record>, inserts: seq<Option<Write>>, updates: seq<Record>, last: nat) {
    && last == LastTs(pre) && |inserts| == Slots(pre)
    && Distinct(updates) && (forall r :: r in updates <==> r in pre && r.update)
    && (forall t, w :: 0 <= t < |inserts| ==> (inserts[t] == Some(w) <==> Record(t, false, w) in pre))
  }

  lemma AddUpdate(pre: seq<Record>, inserts: seq<Option<Write>>, updates: seq<Record>, last: nat, r: Record)
    requires Partial(pre, inserts, updates, last) && r.update && forall x :: x in pre ==> x.ts != r.ts
    ensures Partial(pre + [r], inserts, updates + [r], Max(last, r.ts))
  {
    Snoc(pre, r);
    assert forall k :: 0 <= k < |updates| ==> updates[k] in pre;
  }

  function Grown(inserts: seq<Option<Write>>, ts: nat): (g: seq<Option<Write>>)
    ensures |g| == Max(|inserts|, ts + 1) && inserts <= g
    ensures forall i :: |inserts| <= i < |g| ==> g[i] == None
  {
    if ts >= |inserts| then inserts + seq(ts + 1 - |inserts|, _ => None) else inserts
  }

  lemma AddInsert(pre: seq<Record>, inserts: seq<Option<Write>>, updates: seq<Record>, last: nat, r: Record)
    requires Partial(pre, inserts, updates, last) && !r.update && forall x :: x in pre ==> x.ts != r.ts
    ensures Partial(pre + [r], Grown(inserts, r.ts)[r.ts := Some(r.w)], updates, Max(last, r.ts))
  {
    Snoc(pre, r);
    SlotsCover(pre);
    var b := Grown(inserts, r.ts)[r.ts := Some(r.w)];
    forall t, w | 0 <= t < |b| ensures b[t] == Some(w) <==> Record(t, false, w) in pre + [r] {
      if t == r.ts { assert r == Record(t, false, r.w); }
    }
  }

  lemma NoRecords(inserts: seq<Option<Write>>)
    requires |inserts| == FIRST_SLOTS && forall t :: 0 <= t < |inserts| ==> inserts[t] == None
    ensures Partial([], inserts, [], 0)
  {
  }

  /** LocalWalParser::open on the records of all files, in any order. */
  method Parse(rs: seq<Record>) returns (p: Parser)
    requires Positive(rs) && Distinct(rs)
    ensures Holds(p, rs)
  {
    var inserts: seq<Option<Write>> := seq(FIRST_SLOTS, _ => None);
    var updates: seq<Record> := [];
    var last := 0;
    hide Slots, LastTs;
    NoRecords(inserts);
    for i := 0 to |rs|
      invariant Partial(rs[..i], inserts, updates, last)
    {
      hide Partial;
      var r := rs[i];
      assert forall x :: x in rs[..i] ==> x.ts != r.ts;
      assert rs[..i + 1] == rs[..i] + [r];
      if r.update {
        AddUpdate(rs[..i], inserts, updates, last, r);
        updates := updates + [r];
      } else {
        AddInsert(rs[..i], inserts, updates, last, r);
        inserts := Grown(inserts, r.ts)[r.ts := Some(r.w)];
      }
      last := Max(last, r.ts);
    }
    assert rs[..|rs|] == rs;
    updates := SortUpdates(updates);
    p := Parser(inserts, updates, last);
  }

  // ---- replay ----------------------------------------------------------------------------------------

  /** The write replayed at a timestamp: the update with it, or else the insert in its slot. */
  function LogOf(p: Parser): Log {
    map t | t in Stamps(p) :: WriteAt(p, t)
  }

  function UpdateStamps(p: Parser): set<nat> { set r | r in p.updates :: r.ts }

  function InsertStamps(p: Parser): set<nat> { set t | 0 <= t < |p.inserts| && p.inserts[t].Some? }

  function Stamps(p: Parser): set<nat> { UpdateStamps(p) + InsertStamps(p) }

  function WriteAt(p: Parser, t: nat): Write
    requires t in Stamps(p)
  {
    if t in UpdateStamps(p) then UpdateAt(p.updates, t) else p.inserts[t].value
  }

  function UpdateAt(us: seq<Record>, t: nat): Write
    requires exists r :: r in us && r.ts == t
  {
    if us[0].ts == t then us[0].w else UpdateAt(us[1..], t)
  }

  lemma {:induction false} UpdateAtIndex(us: seq<Record>, i: nat)
    requires Ascending(us) && i < |us|
    ensures us[i] in us && UpdateAt(us, us[i].ts) == us[i].w
  {
    if i > 0 { UpdateAtIndex(us[1..], i - 1); }
  }

  /** A timestamp the replay looks up in the insert list. */
  ghost predicate LooksUp(p: Parser, base: nat, t: nat) {
    base < t <= p.last && t !in UpdateStamps(p)
  }

  /** Every looked-up timestamp has a slot. */
  ghost predicate Safe(p: Parser, base: nat) {
    forall t: nat :: LooksUp(p, base, t) ==> t < |p.inserts|
  }

  function Range(lo: nat, hi: nat): (r: seq<nat>)
    requires lo <= hi
    ensures |r| == hi - lo && forall i :: 0 <= i < |r| ==> r[i] == lo + i
  {
    seq(hi - lo, i requires 0 <= i < hi - lo => lo + i)
  }

  /** The replay so far: everything in (base, n) applied once, in order. */
  ghost predicate Replayed(p: Parser, base: nat, facts0: set<Fact>, n: nat, facts: set<Fact>, trace: seq<nat>) {
    base < n && trace == Range(base + 1, n) && facts == Serial(facts0, base, LogOf(p), n - 1)
  }

  lemma ReplayOne(p: Parser, base: nat, facts0: set<Fact>, n: nat, facts: set<Fact>, trace: seq<nat>)
    requires Replayed(p, base, facts0, n, facts, trace)
    ensures Replayed(p, base, facts0, n + 1,
                     if n in LogOf(p) then Apply(facts, LogOf(p)[n]) else facts, trace + [n])
  {
    assert Range(base + 1, n + 1) == Range(base + 1, n) + [n];
  }

  /** IngestWalRange; None stands for reading past the end of the insert list. */
  method IngestRange(p: Parser, from: nat, to: nat, facts: set<Fact>, trace: seq<nat>,
                     ghost base: nat, ghost facts0: set<Fact>)
    returns (r: Option<(set<Fact>, seq<nat>)>)
    requires from <= to && Replayed(p, base, facts0, from, facts, trace)
    requires forall t :: from <= t < to ==> t !in UpdateStamps(p)
    ensures r.Some? <==> from == to || to <= |p.inserts|
    ensures r.Some? ==> Replayed(p, base, facts0, to, r.value.0, r.value.1)
  {
    var fs, tr: seq<nat> := facts, trace;
    for j := from to to
      invariant j == from || j <= |p.inserts|
      invariant Replayed(p, base, facts0, j, fs, tr)
    {
      if j >= |p.inserts| { return None; }
      ReplayOne(p, base, facts0, j, fs, tr);
      if p.inserts[j].Some? { fs := Apply(fs, p.inserts[j].value); }
      tr := tr + [j];
    }
    r := Some((fs, tr));
  }

  ghost predicate WellParsed(p: Parser) {
    && Ascending(p.updates) && p.last < MAX_TS
    && (forall r :: r in p.updates ==> r.ts <= p.last)
    && (forall t :: 0 <= t < |p.inserts| && p.inserts[t].Some? ==> t <= p.last)
  }

  /** Where the replay stands before update i. */
  ghost predicate Position(p: Parser, base: nat, i: nat, from: nat) {
    && i <= |p.updates| && base < from <= Max(base, p.last) + 1
    && (forall k :: 0 <= k < i ==> p.updates[k].ts < from)
    && (forall k :: i <= k < |p.updates| ==> p.updates[k].ts <= base || from <= p.updates[k].ts)
    && (forall t: nat :: t < from && LooksUp(p, base, t) ==> t < |p.inserts|)
  }

  lemma NotSafe(p: Parser, base: nat, t: nat)
    requires LooksUp(p, base, t) && t >= |p.inserts|
    ensures !Safe(p, base)
  {
  }

  lemma GapBefore(p: Parser, base: nat, i: nat, from: nat)
    requires WellParsed(p) && Position(p, base, i, from) && i < |p.updates|
    ensures forall t :: from <= t < p.updates[i].ts ==> t !in UpdateStamps(p)
  {
    forall r | r in p.updates ensures r.ts < from || p.updates[i].ts <= r.ts || r.ts <= base {
      var k :| 0 <= k < |p.updates| && p.updates[k] == r;
      assert k < i || k == i || k > i;
    }
  }

  lemma GapAfter(p: Parser, base: nat, from: nat)
    requires WellParsed(p) && Position(p, base, |p.updates|, from)
    ensures forall t :: from <= t ==> t !in UpdateStamps(p)
  {
  }

  /** Past update i: its timestamp and the gap before it are done. */
  lemma Advance(p: Parser, base: nat, i: nat, from: nat)
    requires WellParsed(p) && Position(p, base, i, from) && i < |p.updates| && base < p.updates[i].ts
    requires from == p.updates[i].ts || p.updates[i].ts <= |p.inserts|
    ensures Position(p, base, i + 1, p.updates[i].ts + 1)
  {
    assert p.updates[i] in p.updates;
    GapBefore(p, base, i, from);
  }

  /**
    ingestWals: every timestamp in (base, last] is replayed exactly once, in increasing
    order, and nothing at or below base, unless a looked-up timestamp has no slot.
   */
  method IngestWals(p: Parser, base: nat, facts: set<Fact>) returns (r: Option<(nat, set<Fact>, seq<nat>)>)
    requires WellParsed(p) && base < MAX_TS
    ensures r.Some? <==> Safe(p, base)
    ensures r.Some? ==>
      r.value == (Max(base, p.last), Serial(facts, base, LogOf(p), Max(base, p.last)), Range(base + 1, Max(base, p.last) + 1))
  {
    hide Serial, LogOf, Replayed;
    var from: nat := base + 1;
    var fs, tr: seq<nat> := facts, [];
    NothingReplayed(p, base, facts);
    for i := 0 to |p.updates|
      invariant Position(p, base, i, from) && Replayed(p, base, facts, from, fs, tr)
    {
      var u := p.updates[i];
      assert u in p.updates;
      if u.ts > base {
        GapBefore(p, base, i, from);
        if from < u.ts {
          var x := IngestRange(p, from, u.ts, fs, tr, base, facts);
          if x.None? {
            NotSafe(p, base, u.ts - 1);
            return None;
          }
          fs, tr := x.value.0, x.value.1;
        }
        ReplayUpdate(p, base, facts, i, fs, tr);
        fs, tr := Apply(fs, u.w), tr + [u.ts];
        Advance(p, base, i, from);
        from := u.ts + 1;
      }
    }
    GapAfter(p, base, from);
    if from <= p.last {
      var x := IngestRange(p, from, p.last + 1, fs, tr, base, facts);
      if x.None? {
        NotSafe(p, base, p.last);
        return None;
      }
      fs, tr := x.value.0, x.value.1;
    }
    AllReplayed(p, base, facts, fs, tr);
    r := Some((Max(base, p.last), fs, tr));
  }

  lemma NothingReplayed(p: Parser, base: nat, facts: set<Fact>)
    ensures Replayed(p, base, facts, base + 1, facts, [])
  {
  }

  lemma AllReplayed(p: Parser, base: nat, facts0: set<Fact>, facts: set<Fact>, trace: seq<nat>)
    requires Replayed(p, base, facts0, Max(base, p.last) + 1, facts, trace)
    ensures facts == Serial(facts0, base, LogOf(p), Max(base, p.last))
    ensures trace == Range(base + 1, Max(base, p.last) + 1)
  {
  }

  lemma ReplayUpdate(p: Parser, base: nat, facts0: set<Fact>, i: nat, facts: set<Fact>, trace: seq<nat>)
    requires WellParsed(p) && i < |p.updates|
    requires Replayed(p, base, facts0, p.updates[i].ts, facts, trace)
    ensures Replayed(p, base, facts0, p.updates[i].ts + 1, Apply(facts, p.updates[i].w), trace + [p.updates[i].ts])
  {
    var u := p.updates[i];
    UpdateAtIndex(p.updates, i);
    assert u in p.updates && u.ts in UpdateStamps(p);
    ReplayOne(p, base, facts0, u.ts, facts, trace);
  }

  // ---- from files to a graph -------------------------------------------------------------------------

  lemma ParsedWell(p: Parser, rs: seq<Record>)
    requires Holds(p, rs) && Positive(rs)
    ensures WellParsed(p)
  {
    LastCovers(rs);
    LastReached(rs);
    forall t | 0 <= t < |p.inserts| && p.inserts[t].Some? ensures t <= p.last {
      assert Record(t, false, p.inserts[t].value) in rs;
    }
  }

  lemma {:induction false} LastReached(rs: seq<Record>)
    ensures LastTs(rs) == 0 || exists r :: r in rs && r.ts == LastTs(rs)
  {
    if rs != [] {
      var pre := rs[..|rs| - 1];
      LastReached(pre);
      if LastTs(pre) < rs[|rs| - 1].ts {
        assert rs[|rs| - 1] in rs;
      } else if LastTs(pre) > 0 {
        var r :| r in pre && r.ts == LastTs(pre);
        assert r in rs;
      }
    }
  }

  lemma {:induction false} UpdateAtRecord(us: seq<Record>, r: Record)
    requires Ascending(us) && r in us
    ensures UpdateAt(us, r.ts) == r.w
  {
    var i :| 0 <= i < |us| && us[i] == r;
    UpdateAtIndex(us, i);
  }

  /** The replayed log is the set of records, each under its own timestamp. */
  lemma LogIsRecords(p: Parser, rs: seq<Record>)
    requires Holds(p, rs) && Distinct(rs)
    ensures forall r :: r in rs ==> r.ts in LogOf(p) && LogOf(p)[r.ts] == r.w
    ensures forall t :: t in LogOf(p) ==> exists r :: r in rs && r.ts == t
  {
    SlotsCover(rs);
    forall r | r in rs ensures r.ts in LogOf(p) && LogOf(p)[r.ts] == r.w {
      if r.update {
        UpdateAtRecord(p.updates, r);
      } else {
        assert r == Record(r.ts, false, r.w);
        assert p.inserts[r.ts] == Some(r.w);
        NotAnUpdate(p, rs, r);
      }
    }
    forall t | t in LogOf(p) ensures exists r :: r in rs && r.ts == t {
      if t in UpdateStamps(p) {
        var r :| r in p.updates && r.ts == t;
        assert r in rs;
      } else {
        assert Record(t, false, p.inserts[t].value) in rs;
      }
    }
  }

  lemma NotAnUpdate(p: Parser, rs: seq<Record>, r: Record)
    requires Holds(p, rs) && Distinct(rs) && r in rs && !r.update
    ensures r.ts !in UpdateStamps(p)
  {
  }

  /** A timestamp without a record or with an insert record, which the insert list must cover. */
  ghost predicate Gap(rs: seq<Record>, base: nat, t: nat) {
    base < t <= LastTs(rs) && forall r :: r in rs && r.update ==> r.ts != t
  }

  /** Recovery from a set of WAL records succeeds exactly when no gap lies beyond the insert list. */
  method Recover(rs: seq<Record>, base: nat, facts: set<Fact>) returns (r: Option<(nat, set<Fact>, seq<nat>)>)
    requires Positive(rs) && Distinct(rs) && base < MAX_TS
    ensures r.Some? <==> forall t: nat :: Gap(rs, base, t) ==> t < Slots(rs)
    ensures r.Some? ==> r.value.0 == Max(base, LastTs(rs)) && r.value.2 == Range(base + 1, r.value.0 + 1)
    ensures r.Some? ==> exists log: Log :: IsLogOf(log, rs) && r.value.1 == Serial(facts, base, log, r.value.0)
  {
    var p := Parse(rs);
    ParsedWell(p, rs);
    LogIsRecords(p, rs);
    assert IsLogOf(LogOf(p), rs);
    forall t: nat ensures LooksUp(p, base, t) <==> Gap(rs, base, t) { LookUpIsGap(p, rs, base, t); }
    r := IngestWals(p, base, facts);
  }

  ghost predicate IsLogOf(log: Log, rs: seq<Record>) {
    && (forall r :: r in rs ==> r.ts in log && log[r.ts] == r.w)
    && (forall t :: t in log ==> exists r :: r in rs && r.ts == t)
  }

  lemma LookUpIsGap(p: Parser, rs: seq<Record>, base: nat, t: nat)
    requires Holds(p, rs)
    ensures LooksUp(p, base, t) <==> Gap(rs, base, t)
  {
    if t !in UpdateStamps(p) {
      forall r | r in rs && r.update ensures r.ts != t { assert r in p.updates; }
    }
  }

  /** Timestamps up to 4096 aborted and an update after them: by the contract of Recover, recovery reads past the list. */
  lemma AbortedGapBreaksRecovery(w: Write)
    ensures var rs := [Record(FIRST_SLOTS + 1, true, w)];
      Positive(rs) && Distinct(rs) && !(forall t: nat :: Gap(rs, 0, t) ==> t < Slots(rs))
  {
    var rs := [Record(FIRST_SLOTS + 1, true, w)];
    assert rs[..0] == [];
    assert Gap(rs, 0, FIRST_SLOTS) && Slots(rs) == FIRST_SLOTS;
  }
}
