/**
  The protocol's WAL in the hands of the code that reads it back: which records a crash
  leaves on disk, when ingestion can read them, and what it then rebuilds.
 */
module Recovery {
  import opened Common
  import Gate
  import Timeline
  import opened Store
  import opened Protocol
  import opened ProtocolInv
  import opened ProtocolSafety
  import opened History
  import opened Theorems
  import opened Progress
  import opened WalIngest

  // ---- what is on disk ------------------------------------------------------------------------

  /** The records of the WAL, one for each append. */
  function Records(db: Db): set<Record> {
    set t | t in db.wal :: Record(t, t in db.upd, db.wal[t])
  }

  /** The files hold every record once, in any order. */
  ghost predicate OnDisk(rs: seq<Record>, db: Db) { multiset(rs) == multiset(Records(db)) }

  /** A step leaves the WAL alone, starts a new one, or adds a record under the timestamp of an uncommitted transaction. */
  ghost predicate WalMove(p: Pc, db: Db, db': Db) {
    || (db'.wal == db.wal && db'.upd == db.upd && db'.ckpt == db.ckpt)
    || (db'.wal == map[] && db'.upd == {})
    || (LRole(p).Pending? && Uncommitted(p) && db'.ckpt == db.ckpt && Added(db, db', LRole(p).ts))
  }

  ghost predicate Added(db: Db, db': Db, ts: nat) {
    && ts in db'.wal && db'.wal == db.wal[ts := db'.wal[ts]]
    && (db'.upd == db.upd || db'.upd == db.upd + {ts})
  }

  lemma InsertWal(s: State, t: Tid, s': State)
    requires t in s.pc && InsertStep(s, t, s.pc[t], s')
    ensures WalMove(s.pc[t], s.db, s'.db)
  {
  }

  lemma TpWal(s: State, t: Tid, s': State)
    requires t in s.pc && TpStep(s, t, s.pc[t], s')
    ensures WalMove(s.pc[t], s.db, s'.db)
  {
  }

  lemma ApWalMove(s: State, t: Tid, s': State)
    requires t in s.pc && ApStep(s, t, s.pc[t], s')
    ensures WalMove(s.pc[t], s.db, s'.db)
  {
    hide Rewritten, PersistWrite, Persist, All;
  }

  lemma OtherWal(s: State, t: Tid, s': State)
    requires t in s.pc && (CompactStep(s, t, s.pc[t], s') || GuardStep(s, t, s.pc[t], s') || UpdateStep(s, t, s.pc[t], s'))
    ensures WalMove(s.pc[t], s.db, s'.db)
  {
    hide Compacted, Persist, All, Rewritten;
  }

  lemma StepWal(s: State, t: Tid, s': State)
    requires Step(s, t, s')
    ensures WalMove(s.pc[t], s.db, s'.db)
  {
    hide WalMove, InsertStep, TpStep, ApStep, CompactStep, GuardStep, UpdateStep;
    if !Writes(FamilyOf(s.pc[t])) {
      OthersKeepDb(s, t, s');
      Unmoved(s.pc[t], s.db);
    } else {
      match FamilyOf(s.pc[t])
      case FInsert => InsertWal(s, t, s');
      case FTp => TpWal(s, t, s');
      case FAp => ApWalMove(s, t, s');
      case FCompact => OtherWal(s, t, s');
      case FGuard => OtherWal(s, t, s');
      case FUpdate => OtherWal(s, t, s');
    }
  }

  lemma Unmoved(p: Pc, db: Db)
    ensures WalMove(p, db, db)
  {
  }

  /** No append ever meets an older record: the files hold one record per timestamp. */
  lemma AppendsAreFresh(s: State, t: Tid, s': State)
    requires Reachable(s) && Step(s, t, s') && s'.db.wal != s.db.wal && s'.db.wal != map[]
    ensures LRole(s.pc[t]).Pending? && LRole(s.pc[t]).ts !in s.db.wal
    ensures s'.db.wal.Keys == s.db.wal.Keys + {LRole(s.pc[t]).ts}
    ensures forall x :: x in s.db.wal ==> s'.db.wal[x] == s.db.wal[x] && (x in s'.db.upd <==> x in s.db.upd)
  {
    hide Reachable, StepOf;
    StepWal(s, t, s');
    UncommittedLeavesNoTrace(s, t);
  }

  ghost predicate Kinds(db: Db) { db.upd <= db.wal.Keys && 0 !in db.wal }

  lemma StepKinds(s: State, t: Tid, s': State)
    requires Reachable(s) && Step(s, t, s') && Kinds(s.db)
    ensures Kinds(s'.db)
  {
    hide Reachable, StepOf;
    StepWal(s, t, s');
    if LRole(s.pc[t]).Pending? && Uncommitted(s.pc[t]) { PendingAboveFrontier(s, t); }
  }

  lemma {:induction false} RunKinds(run: seq<State>, i: nat)
    requires IsRun(run) && i < |run|
    ensures Kinds(run[i].db)
  {
    hide Next, Reachable;
    if i > 0 {
      RunKinds(run, i - 1);
      PrefixReachable(run, i - 1);
      assert Next(run[i - 1], run[i - 1 + 1]);
      NextKinds(run[i - 1], run[i]);
    }
  }

  lemma NextKinds(s: State, s': State)
    requires Reachable(s) && Next(s, s') && Kinds(s.db)
    ensures Kinds(s'.db)
  {
    hide Reachable, Step;
    if !Crash(s, s') {
      var t :| Step(s, t, s');
      StepKinds(s, t, s');
    }
  }

  lemma ReachableKinds(s: State)
    requires Reachable(s)
    ensures Kinds(s.db)
  {
    var run :| IsRun(run) && s == run[|run| - 1];
    RunKinds(run, |run| - 1);
  }

  lemma Twice(rs: seq<Record>, i: nat, j: nat)
    requires i < j < |rs| && rs[i] == rs[j]
    ensures multiset(rs)[rs[i]] >= 2
  {
    assert rs == rs[..j] + [rs[j]] + rs[j + 1..];
    assert rs[i] in rs[..j];
  }

  lemma OnDiskIs(rs: seq<Record>, db: Db)
    requires OnDisk(rs, db)
    ensures forall r :: r in rs <==> r in Records(db)
    ensures Distinct(rs)
  {
    forall r ensures r in rs <==> r in Records(db) { assert r in rs <==> r in multiset(rs); }
    forall i, j | 0 <= i < j < |rs| ensures rs[i].ts != rs[j].ts {
      assert rs[i] in rs && rs[j] in rs;
      assert multiset(rs)[rs[i]] <= 1;
      if rs[i] == rs[j] { Twice(rs, i, j); }
    }
  }

  // ---- when it can be read ---------------------------------------------------------------------

  lemma {:induction false} SlotsIff(rs: seq<Record>, t: nat)
    ensures t < Slots(rs) <==> t < FIRST_SLOTS || exists r :: r in rs && !r.update && t <= r.ts
  {
    if rs != [] {
      var pre, r := rs[..|rs| - 1], rs[|rs| - 1];
      SlotsIff(pre, t);
      assert rs == pre + [r];
      if !r.update && t <= r.ts { assert r in rs; }
      if x :| x in pre && !x.update && t <= x.ts { assert x in rs; }
    }
  }

  lemma SlotsOnDisk(rs: seq<Record>, db: Db, t: nat)
    requires OnDisk(rs, db)
    ensures t < Slots(rs) <==> HasSlot(db, t)
  {
    OnDiskIs(rs, db);
    SlotsIff(rs, t);
    if r :| r in rs && !r.update && t <= r.ts { assert r in Records(db) && r.ts in db.wal && r.ts !in db.upd; }
    if i :| i in db.wal && i !in db.upd && t <= i { assert Record(i, false, db.wal[i]) in Records(db); }
  }

  lemma LastOnDisk(rs: seq<Record>, db: Db)
    requires OnDisk(rs, db)
    ensures LastDurable(db, Max(db.ckpt.ts, LastTs(rs)))
  {
    OnDiskIs(rs, db);
    LastCovers(rs);
    LastReached(rs);
    forall x | x in db.wal ensures x <= LastTs(rs) { assert Record(x, x in db.upd, db.wal[x]) in Records(db); }
  }

  lemma LastIsUnique(db: Db, m: nat, n: nat)
    requires LastDurable(db, m) && LastDurable(db, n)
    ensures m == n
  {
  }

  /** The timestamps ingestion looks up are those without an update record. */
  lemma GapOnDisk(rs: seq<Record>, db: Db, t: nat)
    requires OnDisk(rs, db) && db.upd <= db.wal.Keys
    ensures Gap(rs, db.ckpt.ts, t) <==> db.ckpt.ts < t <= LastTs(rs) && t !in db.upd
  {
    OnDiskIs(rs, db);
    if t in db.upd { assert Record(t, true, db.wal[t]) in Records(db); }
  }

  lemma ReadableOnDisk(rs: seq<Record>, db: Db)
    requires OnDisk(rs, db) && db.upd <= db.wal.Keys
    ensures (forall t: nat :: Gap(rs, db.ckpt.ts, t) ==> t < Slots(rs)) <==> Readable(db, Max(db.ckpt.ts, LastTs(rs)))
  {
    hide OnDisk, Gap, HasSlot, Slots, LastTs;
    forall t: nat
      ensures t < Slots(rs) <==> HasSlot(db, t)
      ensures Gap(rs, db.ckpt.ts, t) <==> db.ckpt.ts < t <= LastTs(rs) && t !in db.upd
    {
      SlotsOnDisk(rs, db, t);
      GapOnDisk(rs, db, t);
    }
  }

  /** The records on disk are what the parser expects. */
  lemma OnDiskParses(s: State, rs: seq<Record>)
    requires Reachable(s) && OnDisk(rs, s.db)
    ensures Positive(rs) && Distinct(rs) && s.db.ckpt.ts < MAX_TS && s.line.write >= 1
    ensures Max(s.db.ckpt.ts, LastTs(rs)) <= s.line.write - 1 < MAX_TS
  {
    hide Reachable;
    OnDiskIs(rs, s.db);
    LastOnDisk(rs, s.db);
    LastCovers(rs);
    ReachableKinds(s);
    ReachableInv(s);
    DurableIsReserved(s, Max(s.db.ckpt.ts, LastTs(rs)));
    WriteFits(s);
    forall r | r in rs ensures 0 < r.ts < MAX_TS { assert r in Records(s.db); }
  }

  lemma WriteFits(s: State)
    requires Inv(s)
    ensures s.line.write <= MAX_TS
  {
    hide Gate.Inv, DbInv;
  }

  lemma LogOnDisk(rs: seq<Record>, db: Db, log: Log)
    requires OnDisk(rs, db) && IsLogOf(log, rs)
    ensures log == db.wal
  {
    OnDiskIs(rs, db);
    forall t | t in db.wal ensures t in log && log[t] == db.wal[t] {
      assert Record(t, t in db.upd, db.wal[t]) in rs;
    }
    forall t | t in log ensures t in db.wal {
      var r :| r in rs && r.ts == t;
      assert r in Records(db);
    }
  }

  /** Recovery of the protocol's WAL, as a condition on the database before the crash. */
  ghost predicate Recoverable(db: Db) { forall n: nat :: LastDurable(db, n) ==> Readable(db, n) }

  /**
    Parsing and ingesting what a crash leaves on disk, in any order of the records. It
    succeeds exactly when every timestamp without an update record has a slot in the insert
    list; then it rebuilds the persistent part of all commits, and reopening with it is the
    crash step of the protocol.
   */
  method RecoverDatabase(ghost s: State, rs: seq<Record>, base: nat, facts: set<Fact>) returns (r: Option<(nat, set<Fact>)>)
    requires Reachable(s) && OnDisk(rs, s.db) && base == s.db.ckpt.ts && facts == s.db.ckpt.facts
    ensures r.Some? <==> Recoverable(s.db)
    ensures s.line.write >= 1
    ensures r.Some? ==> r.value.1 == Persist(Serial(s.db.base, s.db.t0, s.db.log, s.line.write - 1))
    ensures r.Some? ==> Crash(s, Opened(s.pc, r.value.1, r.value.0, s.db.wal, s.db.upd, s.db.ckpt))
  {
    hide Reachable, OnDisk, Readable, Gap, Slots, IsLogOf, Range;
    OnDiskParses(s, rs);
    ReachableKinds(s);
    ReadableOnDisk(rs, s.db);
    LastOnDisk(rs, s.db);
    var x := Recover(rs, base, facts);
    RecoverableAt(s.db, Max(base, LastTs(rs)));
    if x.None? { return None; }
    ghost var log: Log :| IsLogOf(log, rs) && x.value.1 == Serial(facts, base, log, x.value.0);
    LogOnDisk(rs, s.db, log);
    r := Some((x.value.0, x.value.1));
    RebuildsCommits(s, x.value.0);
  }

  lemma RecoverableAt(db: Db, n: nat)
    requires LastDurable(db, n)
    ensures Recoverable(db) <==> Readable(db, n)
  {
    hide Readable;
    forall m: nat | LastDurable(db, m) ensures m == n { LastIsUnique(db, m, n); }
  }

  lemma RebuildsCommits(s: State, n: nat)
    requires Reachable(s) && LastDurable(s.db, n)
    ensures s.line.write >= 1 && Recovered(s.db, n) == Persist(Serial(s.db.base, s.db.t0, s.db.log, s.line.write - 1))
  {
    hide Reachable;
    ReachableInv(s);
    DurableIsReserved(s, n);
    RecoveredIsSerial(s.line, s.db, n);
  }

  // ---- a database that cannot be read back -------------------------------------------------------

  /** Some transactions that all aborted, in a new database. */
  lemma {:induction false} OnlyAborts(k: nat) returns (s: State)
    requires k < MAX_TS - 1
    ensures Reachable(s) && AllIdle(s) && s.pc.Keys == {0} && s.line.write == k + 1
    ensures s.db.wal == map[] && s.db.upd == {} && s.db.ckpt == Ckpt({}, 0)
    decreases k
  {
    hide Reachable, CanReach, AllIdle;
    if k == 0 {
      OpenGetsThrough(map[0 := Idle], {});
      s := Opened(map[0 := Idle], {}, 0, map[], {}, Ckpt({}, 0));
    } else {
      var m := OnlyAborts(k - 1);
      s := AbortGetsThrough(m, 0);
      StaysReachable(m, 0, s);
    }
  }

  /**
    Such a database is reachable: 4096 transactions abort, one update commits, and a crash at
    this moment leaves files that recovery cannot read.
   */
  lemma UnreadableIsReachable(w: Write) returns (s: State)
    ensures Reachable(s) && AllIdle(s) && s.line.view.ts == FIRST_SLOTS + 1
    ensures OnDisk([Record(FIRST_SLOTS + 1, true, PersistWrite(w))], s.db) && !Recoverable(s.db)
    ensures forall s' :: !Crash(s, s')
  {
    hide Reachable, CanReach, AllIdle, PersistWrite;
    var m := OnlyAborts(FIRST_SLOTS);
    s := UpdateGetsThrough(m, 0, w);
    StaysReachable(m, 0, s);
    var last := FIRST_SLOTS + 1;
    assert Records(s.db) == {Record(last, true, PersistWrite(w))};
    assert LastDurable(s.db, last) && !HasSlot(s.db, FIRST_SLOTS);
    forall s' ensures !Crash(s, s') {
      forall n: nat | LastDurable(s.db, n) ensures n == last { LastIsUnique(s.db, n, last); }
    }
  }

  /** A database can be reopened after a crash exactly when it is recoverable. */
  lemma CrashIffRecoverable(s: State)
    requires Reachable(s)
    ensures (exists s' :: Crash(s, s')) <==> Recoverable(s.db)
  {
    hide Reachable;
    var n := SomeLast(s.db);
    RecoverableAt(s.db, n);
    ReachableInv(s);
    DurableIsReserved(s, n);
    WriteFits(s);
    if Recoverable(s.db) {
      assert Crash(s, Opened(s.pc, Recovered(s.db, n), n, s.db.wal, s.db.upd, s.db.ckpt));
    }
    if s' :| Crash(s, s') {
      var m: nat :| LastDurable(s.db, m) && m < MAX_TS && Readable(s.db, m)
        && s' == Opened(s.pc, Recovered(s.db, m), m, s.db.wal, s.db.upd, s.db.ckpt);
      LastIsUnique(s.db, m, n);
    }
  }

  lemma SomeLast(db: Db) returns (n: nat)
    ensures LastDurable(db, n)
  {
    n := LargestKey(db.wal.Keys, db.ckpt.ts);
  }

  lemma {:induction false} LargestKey(keys: set<nat>, floor: nat) returns (n: nat)
    ensures n >= floor && (n == floor || n in keys) && forall x :: x in keys ==> x <= n
    decreases keys
  {
    if keys == {} {
      n := floor;
    } else {
      var k :| k in keys;
      n := LargestKey(keys - {k}, floor);
      if n < k { n := k; }
      assert forall x :: x in keys ==> x == k || x in keys - {k};
    }
  }
}
