/**
  Operations that close the gate to everybody, run alone from a quiescent state: exclusive
  writes with their three ways to commit, the manual checkpoint, compaction, an exclusive
  operation and the lifecycle seal.
 */
module ExclusiveProgress {
  import opened Common
  import Gate
  import Timeline
  import opened Store
  import opened Protocol
  import opened ProtocolInv
  import opened Theorems
  import opened Progress

  lemma GoGuard(s: State, t: Tid, m: State, s': State)
    requires CanReach(s, t, m) && t in m.pc && FamilyOf(m.pc[t]) == FGuard && GuardStep(m, t, m.pc[t], s')
    ensures CanReach(s, t, s')
  {
    hide CanReach;
    Go(s, t, m, s');
  }

  lemma GoAp(s: State, t: Tid, m: State, s': State)
    requires CanReach(s, t, m) && t in m.pc && FamilyOf(m.pc[t]) == FAp && ApStep(m, t, m.pc[t], s')
    ensures CanReach(s, t, s')
  {
    hide CanReach;
    Go(s, t, m, s');
  }

  lemma GoReset(s: State, t: Tid, m: State, s': State)
    requires CanReach(s, t, m) && t in m.pc && FamilyOf(m.pc[t]) == FReset && ResetStep(m, t, m.pc[t], s')
    ensures CanReach(s, t, s')
  {
    hide CanReach;
    Go(s, t, m, s');
  }

  lemma GoCompact(s: State, t: Tid, m: State, s': State)
    requires CanReach(s, t, m) && t in m.pc && FamilyOf(m.pc[t]) == FCompact && CompactStep(m, t, m.pc[t], s')
    ensures CanReach(s, t, s')
  {
    hide CanReach;
    Go(s, t, m, s');
  }

  lemma GoExclusive(s: State, t: Tid, m: State, s': State)
    requires CanReach(s, t, m) && t in m.pc && FamilyOf(m.pc[t]) == FExclusive && ExclusiveStep(m, t, m.pc[t], s')
    ensures CanReach(s, t, s')
  {
    hide CanReach;
    Go(s, t, m, s');
  }

  lemma GoSeal(s: State, t: Tid, m: State, s': State)
    requires CanReach(s, t, m) && t in m.pc && FamilyOf(m.pc[t]) == FSeal && SealStep(m, t, m.pc[t], s')
    ensures CanReach(s, t, s')
  {
    hide CanReach;
    Go(s, t, m, s');
  }

  // ---- exclusive writes ---------------------------------------------------------------------------

  /** CurrentGraphWriteGuard::Acquire after the timestamp is taken. */
  lemma SoloGuard(s0: State, s: State, t: Tid, ts: nat) returns (s': State)
    requires CanReach(s0, t, s) && t in s.pc && s.pc[t] == UpHold(ts)
    requires s.gate.phase == Gate.InsertsBlocked && s.gate.readers == 0
    ensures CanReach(s0, t, s') && s' == SetGate(s, t, s.gate.(phase := Gate.AllBlocked), ApHold(ts))
  {
    hide CanReach;
    var s1 := To(s, t, Ph(BlockAp(ts), None));
    GoUpdate(s0, t, s, s1);
    var s2 := SoloPhase(s0, s1, t, BlockAp(ts));
    s' := To(s2, t, ApHold(ts));
    GoGuard(s0, t, s2, s');
    assert s'.pc == s.pc[t := ApHold(ts)];
  }

  /** The three ways in which an exclusive write commits. */
  datatype Kind = Logical | Transient | Bulk

  /** What a commit leaves in WAL and checkpoint. */
  ghost predicate Durably(kind: Kind, db: Db, db': Db, ts: nat, w: Write, facts: set<Fact>) {
    match kind
    case Logical => db'.wal == db.wal[ts := PersistWrite(w)] && db'.upd == db.upd + {ts} && db'.ckpt == db.ckpt
    case Transient => db'.wal == db.wal && db'.upd == db.upd && db'.ckpt == db.ckpt
    case Bulk => db'.wal == map[] && db'.upd == {} && db'.ckpt == Ckpt(Persist(Apply(facts, w)), ts)
  }

  lemma AllRewritten(snap: Snap, w: Write, ts: nat)
    ensures All(Rewritten(snap, w, ts)) == Apply(All(snap), w)
  {
    forall f ensures f in All(Rewritten(snap, w, ts)) <==> f in Apply(All(snap), w) {
      if f in All(snap) && f !in w.del {
        var i :| i in snap && i.fact == f;
        assert i in Rewritten(snap, w, ts);
      }
      if f in w.add { assert Item(ts, f) in Rewritten(snap, w, ts); }
    }
  }

  /** Clone, rewrite and make durable. */
  lemma SoloDecide(s0: State, s: State, t: Tid, ts: nat, w: Write, kind: Kind) returns (s': State)
    requires CanReach(s0, t, s) && t in s.pc && s.pc[t] == ApHold(ts) && s.db.cur in s.db.snaps
    requires kind.Transient? ==> PersistWrite(w) == Write({}, {})
    ensures CanReach(s0, t, s')
    ensures s' == SetDb(s, t, s'.db, ApReplace(ts, Rewritten(s.db.snaps[s.db.cur], w, ts), w))
    ensures s'.db == s.db.(log := s.db.log[ts := w], wal := s'.db.wal, upd := s'.db.upd, ckpt := s'.db.ckpt)
    ensures Durably(kind, s.db, s'.db, ts, w, All(s.db.snaps[s.db.cur]))
  {
    hide CanReach, Rewritten, PersistWrite, Persist, All, Apply;
    var clone := s.db.snaps[s.db.cur];
    var snap := Rewritten(clone, w, ts);
    AllRewritten(clone, w, ts);
    var s1 := To(s, t, ApWork(ts, clone));
    GoGuard(s0, t, s, s1);
    match kind
    case Logical =>
      s' := SetDb(s1, t, s1.db.(log := s.db.log[ts := w], wal := s.db.wal[ts := PersistWrite(w)], upd := s.db.upd + {ts}),
                  ApReplace(ts, snap, w));
      GoAp(s0, t, s1, s');
      assert s'.pc == s.pc[t := ApReplace(ts, snap, w)];
    case Transient =>
      s' := SetDb(s1, t, s1.db.(log := s.db.log[ts := w]), ApReplace(ts, snap, w));
      GoAp(s0, t, s1, s');
      assert s'.pc == s.pc[t := ApReplace(ts, snap, w)];
    case Bulk =>
      s' := SetDb(s1, t, s1.db.(log := s.db.log[ts := w], wal := map[], upd := {}, ckpt := Ckpt(Persist(All(snap)), ts)),
                  ApReplace(ts, snap, w));
      GoAp(s0, t, s1, s');
      assert s'.pc == s.pc[t := ApReplace(ts, snap, w)];
  }

  /** Replace the current snapshot and hand it to the completion. */
  lemma SoloReplace(s0: State, s: State, t: Tid, ts: nat, snap: Snap, w: Write) returns (s': State)
    requires CanReach(s0, t, s) && t in s.pc && s.pc[t] == ApReplace(ts, snap, w)
    ensures CanReach(s0, t, s') && s'.pc == s.pc[t := CpMark(Job(EXCLUSIVE, ts, true))]
    ensures s'.gate == s.gate && s'.line == s.line.(igen := s.db.cur)
    ensures s'.db == s.db.(snaps := s.db.snaps[s.db.cur := snap], installs := s.db.installs[ts := s.db.cur], inst := ts)
  {
    hide CanReach;
    var s1 := SetDb(s, t, s.db.(snaps := s.db.snaps[s.db.cur := snap], installs := s.db.installs[ts := s.db.cur], inst := ts),
                    UpGen(EXCLUSIVE, ts, s.db.cur));
    GoAp(s0, t, s, s1);
    s' := SetLine(s1, t, s1.line.(igen := s.db.cur), CpMark(Job(EXCLUSIVE, ts, true)));
    GoTp(s0, t, s1, s');
    assert s'.pc == s.pc[t := CpMark(Job(EXCLUSIVE, ts, true))];
  }

  lemma DurablyStill(kind: Kind, db: Db, db': Db, db'': Db, ts: nat, w: Write, facts: set<Fact>)
    requires Durably(kind, db, db', ts, w, facts) && db''.wal == db'.wal && db''.upd == db'.upd && db''.ckpt == db'.ckpt
    ensures Durably(kind, db, db'', ts, w, facts)
  {
  }

  /** From the timestamp to the point where only its completion is left. */
  lemma SoloExclusive(s0: State, s: State, t: Tid, ts: nat, w: Write, kind: Kind) returns (s': State)
    requires CanReach(s0, t, s) && t in s.pc && s.pc[t] == UpHold(ts) && s.db.cur in s.db.snaps
    requires s.gate == Gate.Word(Gate.InsertsBlocked, 0, 0) && (kind.Transient? ==> PersistWrite(w) == Write({}, {}))
    ensures CanReach(s0, t, s') && s'.pc == s.pc[t := CpMark(Job(EXCLUSIVE, ts, true))]
    ensures s'.gate == Gate.Word(Gate.AllBlocked, 0, 0) && s'.line == s.line.(igen := s.db.cur)
    ensures s'.db.base == s.db.base && s'.db.t0 == s.db.t0 && s'.db.log == s.db.log[ts := w]
    ensures Durably(kind, s.db, s'.db, ts, w, All(s.db.snaps[s.db.cur]))
  {
    hide CanReach, PersistWrite, Rewritten, All, Apply, Persist, Durably;
    var s1 := SoloGuard(s0, s, t, ts);
    var s2 := SoloDecide(s0, s1, t, ts, w, kind);
    s' := SoloReplace(s0, s2, t, ts, Rewritten(s.db.snaps[s.db.cur], w, ts), w);
    DurablyStill(kind, s.db, s2.db, s'.db, ts, w, All(s.db.snaps[s.db.cur]));
    assert s'.pc == s.pc[t := CpMark(Job(EXCLUSIVE, ts, true))];
  }

  /**
    An exclusive write that runs alone commits in each of its ways, and its write is applied
    to what is published when it returns.
   */
  lemma ExclusiveWriteGetsThrough(s: State, t: Tid, w: Write, kind: Kind) returns (s': State)
    requires Reachable(s) && AllIdle(s) && t in s.pc && s.line.write < MAX_TS
    requires kind.Transient? ==> PersistWrite(w) == Write({}, {})
    ensures CanReach(s, t, s') && AllIdle(s') && s'.pc.Keys == s.pc.Keys && s'.line.view.ts == s.line.write
    ensures s.line.view.gen in s.db.snaps && s'.line.view.gen in s'.db.snaps
    ensures var seen := Vis(s.db.snaps[s.line.view.gen], s.line.view.ts);
      && Vis(s'.db.snaps[s'.line.view.gen], s'.line.view.ts) == Apply(seen, w)
      && Durably(kind, s.db, s'.db, s.line.write, w, seen)
  {
    hide CanReach, Reachable, PersistWrite, Rewritten, Vis, All, Apply, Persist;
    QuietStart(s);
    QuietPair(s);
    var ts := s.line.write;
    var s1 := SoloTake(s, t);
    var s2 := SoloExclusive(s, s1, t, ts, w, kind);
    s' := SoloFinish(s, s2, t, Job(EXCLUSIVE, ts, true));
    assert s'.pc == s.pc[t := Idle];
    StaysReachable(s, t, s');
    Commits(s, s', w);
  }

  // ---- the manual checkpoint ------------------------------------------------------------------------

  /** The ring is cleared slot by slot. */
  lemma {:induction false} SoloRing(s0: State, s: State, t: Tid, i: nat) returns (s': State)
    requires CanReach(s0, t, s) && t in s.pc && s.pc[t] == RsRing(i) && i <= |s.line.ring|
    ensures CanReach(s0, t, s') && s' == SetLine(s, t, s.line.(ring := s'.line.ring), RsView)
    ensures |s'.line.ring| == |s.line.ring|
    decreases |s.line.ring| - i
  {
    hide CanReach;
    if i == |s.line.ring| {
      s' := To(s, t, RsView);
      GoReset(s0, t, s, s');
    } else {
      var m := SetLine(s, t, s.line.(ring := s.line.ring[i := 0]), RsRing(i + 1));
      GoReset(s0, t, s, m);
      s' := SoloRing(s0, m, t, i + 1);
    }
    assert s'.pc == s.pc[t := RsView];
  }

  /** finish_update_and_reset_timeline. */
  lemma SoloReset(s0: State, s: State, t: Tid, ts: nat) returns (s': State)
    requires CanReach(s0, t, s) && t in s.pc && s.pc[t] == RsWrite(ts)
    ensures CanReach(s0, t, s') && s'.pc == s.pc[t := Ph(Reopen(EXCLUSIVE), None)] && s'.gate == s.gate && s'.db == s.db
    ensures s'.line.write == 1 && s'.line.read == 0 && s'.line.view == Timeline.View(0, s.line.igen)
  {
    hide CanReach;
    var s1 := SetLine(s, t, s.line.(write := 1), RsRead);
    GoReset(s0, t, s, s1);
    var s2 := SetLine(s1, t, s1.line.(read := 0), RsRing(0));
    GoReset(s0, t, s1, s2);
    s' := SoloClear(s0, s2, t);
    assert s'.pc == s.pc[t := Ph(Reopen(EXCLUSIVE), None)];
  }

  lemma SoloClear(s0: State, s: State, t: Tid) returns (s': State)
    requires CanReach(s0, t, s) && t in s.pc && s.pc[t] == RsRing(0)
    ensures CanReach(s0, t, s')
    ensures s' == SetLine(s, t, s.line.(ring := s'.line.ring, view := Timeline.View(0, s.line.igen)), Ph(Reopen(EXCLUSIVE), None))
  {
    hide CanReach;
    var m := SoloRing(s0, s, t, 0);
    s' := SetLine(m, t, m.line.(view := Timeline.View(0, m.line.igen)), Ph(Reopen(EXCLUSIVE), None));
    GoReset(s0, t, m, s');
    assert s'.pc == s.pc[t := Ph(Reopen(EXCLUSIVE), None)];
  }

  /** The checkpoint is published and a new timeline starts. */
  lemma SoloCheckpoint(s0: State, s: State, t: Tid, ts: nat) returns (s': State)
    requires CanReach(s0, t, s) && t in s.pc && s.pc[t] == UpHold(ts) && s.db.cur in s.db.snaps
    requires s.gate == Gate.Word(Gate.InsertsBlocked, 0, 0)
    ensures CanReach(s0, t, s') && s'.pc == s.pc[t := Idle] && s'.gate == Gate.Word(Gate.Open, 0, 0)
    ensures s'.line.write == 1 && s'.line.view.ts == 0
    ensures s'.db == Checkpointed(s.db, Persist(All(s.db.snaps[s.db.cur])))
  {
    hide CanReach, Persist, All, Checkpointed;
    var s1 := SoloGuard(s0, s, t, ts);
    var s2 := SetDb(s1, t, Checkpointed(s.db, Persist(All(s.db.snaps[s.db.cur]))), RsWrite(ts));
    GoGuard(s0, t, s1, s2);
    var s3 := SoloReset(s0, s2, t, ts);
    s' := SoloPhase(s0, s3, t, Reopen(EXCLUSIVE));
    assert s'.pc == s.pc[t := Idle];
  }

  /**
    A manual checkpoint that runs alone gets through: the persistent part of what was published
    is in the checkpoint and is what is published, the WAL is empty and timestamps start over.
   */
  lemma CheckpointGetsThrough(s: State, t: Tid) returns (s': State)
    requires Reachable(s) && AllIdle(s) && t in s.pc && s.line.write < MAX_TS
    ensures CanReach(s, t, s') && AllIdle(s') && s'.pc.Keys == s.pc.Keys
    ensures s.line.view.gen in s.db.snaps && s'.line.view.gen in s'.db.snaps
    ensures var kept := Persist(Vis(s.db.snaps[s.line.view.gen], s.line.view.ts));
      && Vis(s'.db.snaps[s'.line.view.gen], s'.line.view.ts) == kept && s'.db.ckpt == Ckpt(kept, 0)
      && s'.db.wal == map[] && s'.db.upd == {} && s'.line.write == 1 && s'.line.view.ts == 0
  {
    hide CanReach, Reachable, Persist, All, Vis;
    QuietStart(s);
    QuietPair(s);
    var s1 := SoloTake(s, t);
    s' := SoloCheckpoint(s, s1, t, s.line.write);
    assert s'.pc == s.pc[t := Idle];
    StaysReachable(s, t, s');
    QuietPair(s');
  }

  // ---- compaction -------------------------------------------------------------------------------------

  /** acquire_compact_timestamp with nobody inside. */
  lemma SoloCompactor(s: State, t: Tid) returns (s': State)
    requires t in s.pc && s.pc[t].Idle? && s.gate == Gate.Word(Gate.Open, 0, 0)
    requires s.line.read < s.line.write <= s.line.read + Timeline.WINDOW && s.line.write < MAX_TS
    ensures CanReach(s, t, s') && s'.gate == Gate.Word(Gate.AllBlocked, 0, 0) && s'.db == s.db
    ensures s'.line == s.line.(write := s.line.write + 1) && s'.pc == s.pc[t := CmHold(s.line.write)]
  {
    hide CanReach;
    Stay(s, t);
    var s1 := To(s, t, Ph(EnterCompact, None));
    Go(s, t, s, s1);
    var s2 := SoloPhase(s, s1, t, EnterCompact);
    var s3 := To(s2, t, CmDrainI);
    GoCompact(s, t, s2, s3);
    var s4 := To(s3, t, ResW(EXCLUSIVE));
    GoCompact(s, t, s3, s4);
    s' := SoloReserve(s, s4, t, EXCLUSIVE);
    assert s'.pc == s.pc[t := CmHold(s.line.write)];
  }

  lemma SoloCompact(s0: State, s: State, t: Tid, ts: nat) returns (s': State)
    requires CanReach(s0, t, s) && t in s.pc && s.pc[t] == CmHold(ts) && s.db.cur in s.db.snaps
    ensures CanReach(s0, t, s') && s'.pc == s.pc[t := CpMark(Job(EXCLUSIVE, ts, false))]
    ensures s'.gate == s.gate && s'.line == s.line
    ensures s'.db.base == s.db.base && s'.db.t0 == s.db.t0 && s'.db.log == s.db.log[ts := Write({}, {})]
    ensures s'.db.wal == s.db.wal[ts := Write({}, {})] && s'.db.upd == s.db.upd + {ts} && s'.db.ckpt == s.db.ckpt
    ensures s'.db.cur == s.db.cur && s'.db.cur in s'.db.snaps
    ensures forall i :: i in s'.db.snaps[s'.db.cur] ==> i.ts == 0
  {
    hide CanReach;
    var s1 := SetDb(s, t, s.db.(log := s.db.log[ts := Write({}, {})], wal := s.db.wal[ts := Write({}, {})],
                                upd := s.db.upd + {ts}), CmApply(ts));
    GoCompact(s0, t, s, s1);
    s' := SetDb(s1, t, s1.db.(snaps := s1.db.snaps[s.db.cur := Compacted(s.db.snaps[s.db.cur])]),
                CpMark(Job(EXCLUSIVE, ts, false)));
    GoCompact(s0, t, s1, s');
    assert s'.pc == s.pc[t := CpMark(Job(EXCLUSIVE, ts, false))];
  }

  /** A compaction that runs alone resets all timestamps of the current snapshot and leaves what is published as it was. */
  lemma CompactionGetsThrough(s: State, t: Tid) returns (s': State)
    requires Reachable(s) && AllIdle(s) && t in s.pc && s.line.write < MAX_TS
    ensures CanReach(s, t, s') && AllIdle(s') && s'.pc.Keys == s.pc.Keys && s'.line.view.ts == s.line.write
    ensures s.line.view.gen in s.db.snaps && s'.line.view.gen in s'.db.snaps
    ensures Vis(s'.db.snaps[s'.line.view.gen], s'.line.view.ts) == Vis(s.db.snaps[s.line.view.gen], s.line.view.ts)
    ensures forall i :: i in s'.db.snaps[s'.line.view.gen] ==> i.ts == 0
    ensures s'.db.wal == s.db.wal[s.line.write := Write({}, {})] && s'.db.upd == s.db.upd + {s.line.write}
    ensures s'.db.ckpt == s.db.ckpt
  {
    hide CanReach, Reachable, Vis;
    QuietStart(s);
    var s1 := SoloCompactor(s, t);
    var s2 := SoloCompact(s, s1, t, s.line.write);
    s' := SoloFinish(s, s2, t, Job(EXCLUSIVE, s.line.write, false));
    assert s'.pc == s.pc[t := Idle];
    StaysReachable(s, t, s');
    QuietStart(s');
    Commits(s, s', Write({}, {}));
  }

  // ---- exclusive operations and the seal -----------------------------------------------------------------

  lemma SoloLease(s: State, t: Tid) returns (m: State)
    requires t in s.pc && s.pc[t].Idle? && s.gate == Gate.Word(Gate.Open, 0, 0)
    ensures CanReach(s, t, m) && m == SetGate(s, t, Gate.Word(Gate.AllBlocked, 0, 0), ExHold)
  {
    hide CanReach;
    Stay(s, t);
    var s1 := To(s, t, Ph(EnterExclusive, None));
    Go(s, t, s, s1);
    var s2 := SoloPhase(s, s1, t, EnterExclusive);
    var s3 := To(s2, t, ExDrainR);
    GoExclusive(s, t, s2, s3);
    m := To(s3, t, ExHold);
    GoExclusive(s, t, s3, m);
    assert m.pc == s.pc[t := ExHold];
  }

  lemma SoloReturn(m: State, t: Tid) returns (s': State)
    requires t in m.pc && m.pc[t] == ExHold && m.gate == Gate.Word(Gate.AllBlocked, 0, 0)
    ensures CanReach(m, t, s') && s' == SetGate(m, t, Gate.Word(Gate.Open, 0, 0), Idle)
  {
    hide CanReach;
    Stay(m, t);
    var m1 := To(m, t, Ph(Reopen(EXCLUSIVE), None));
    GoExclusive(m, t, m, m1);
    s' := SoloPhase(m, m1, t, Reopen(EXCLUSIVE));
    assert s'.pc == m.pc[t := Idle];
  }

  /** An exclusive operation that runs alone gets its lease and gives it back; nothing is changed. */
  lemma ExclusiveGetsThrough(s: State, t: Tid) returns (m: State, s': State)
    requires Reachable(s) && AllIdle(s) && t in s.pc
    ensures CanReach(s, t, m) && m == SetGate(s, t, Gate.Word(Gate.AllBlocked, 0, 0), ExHold)
    ensures CanReach(m, t, s') && s' == s
  {
    hide CanReach, Reachable;
    QuietStart(s);
    m := SoloLease(s, t);
    s' := SoloReturn(m, t);
    assert s'.pc == s.pc;
  }

  /** The lifecycle seal of a quiescent database closes the gate, and undoing it leaves everything as it was. */
  lemma SealGetsThrough(s: State, t: Tid) returns (m: State, s': State)
    requires Reachable(s) && AllIdle(s) && t in s.pc
    ensures CanReach(s, t, m) && m.gate == Gate.Word(Gate.AllBlocked, 0, 0) && m.line == s.line.(lock := Some(t)) && m.db == s.db
    ensures CanReach(m, t, s') && s' == s
  {
    hide CanReach, Reachable;
    QuietStart(s);
    Stay(s, t);
    var s1 := SetLine(s, t, s.line.(lock := Some(t)), SlSeal);
    Go(s, t, s, s1);
    m := SetGate(s1, t, Gate.Word(Gate.AllBlocked, 0, 0), Ph(Unseal, None));
    GoSeal(s, t, s1, m);
    Stay(m, t);
    var s2 := SoloPhase(m, m, t, Unseal);
    s' := SetLine(s2, t, s2.line.(lock := None), Idle);
    GoSeal(m, t, s2, s');
    assert s'.pc == s.pc;
  }

  // ---- giving up ---------------------------------------------------------------------------------------------

  /** Until it is committed, a transaction that holds its timestamp can be given up at every point. */
  lemma CanBeGivenUp(s: State, t: Tid)
    requires t in s.pc && Uncommitted(s.pc[t]) && !s.pc[t].ApDrain?
    ensures Step(s, t, To(s, t, CpMark(Job(GRole(s.pc[t]), LRole(s.pc[t]).ts, false))))
  {
  }

  /** Where a deadline is looked at: before admission, in the queue for the gate, while draining. */
  predicate Waiting(p: Pc) {
    p.RdLoad? || p.RdIn? || (p.Ph? && Enters(p.site)) || p.UpDrain? || p.ExDrainI? || p.ExDrainR?
  }

  lemma OwnerSeesPhase(s: State, t: Tid)
    requires Reachable(s) && t in s.pc && GRole(s.pc[t]).Owner?
    ensures s.gate.phase == GRole(s.pc[t]).phase
  {
    hide Reachable, Timeline.Inv, DbInv;
    ReachableInv(s);
    assert GRoles(s.pc)[t] == GRole(s.pc[t]);
  }

  lemma ReaderIsCounted(s: State, t: Tid)
    requires Reachable(s) && t in s.pc && GRole(s.pc[t]).Reader?
    ensures s.gate.readers > 0
  {
    hide Reachable;
    AdmissionsAreConserved(s);
    assert t in Threads(s, Gate.ReaderField);
  }

  /** A thread that waits when its deadline expires gets out by itself, and has changed neither timeline nor store. */
  lemma WaiterGetsOut(s: State, t: Tid) returns (s': State)
    requires Reachable(s) && t in s.pc && Waiting(s.pc[t])
    ensures CanReach(s, t, s') && s'.pc == s.pc[t := Idle] && s'.line == s.line && s'.db == s.db
  {
    hide CanReach, Reachable;
    Stay(s, t);
    if s.pc[t].RdLoad? {
      s' := To(s, t, Idle);
      Go(s, t, s, s');
    } else if s.pc[t].RdIn? {
      s' := ReaderGetsOut(s, t);
    } else if s.pc[t].Ph? {
      s' := EntrantGetsOut(s, t);
    } else {
      s' := OwnerGetsOut(s, t);
    }
  }

  lemma ReaderGetsOut(s: State, t: Tid) returns (s': State)
    requires Reachable(s) && t in s.pc && s.pc[t].RdIn?
    ensures CanReach(s, t, s') && s'.pc == s.pc[t := Idle] && s'.line == s.line && s'.db == s.db
  {
    hide CanReach, Reachable;
    ReaderIsCounted(s, t);
    Stay(s, t);
    var m := To(s, t, RdOut);
    Go(s, t, s, m);
    s' := SetGate(m, t, m.gate.(readers := m.gate.readers - 1), Idle);
    Go(s, t, m, s');
    assert s'.pc == s.pc[t := Idle];
  }

  lemma EntrantGetsOut(s: State, t: Tid) returns (s': State)
    requires t in s.pc && s.pc[t].Ph? && Enters(s.pc[t].site)
    ensures CanReach(s, t, s') && s'.pc == s.pc[t := Idle] && s'.line == s.line && s'.db == s.db
  {
    hide CanReach;
    Stay(s, t);
    var m := s;
    if s.pc[t].seen.None? {
      m := To(s, t, Ph(s.pc[t].site, Some(s.gate)));
      Go(s, t, s, m);
    }
    s' := To(m, t, Idle);
    Go(s, t, m, s');
    assert s'.pc == s.pc[t := Idle];
  }

  lemma OwnerGetsOut(s: State, t: Tid) returns (s': State)
    requires Reachable(s) && t in s.pc && (s.pc[t].UpDrain? || s.pc[t].ExDrainI? || s.pc[t].ExDrainR?)
    ensures CanReach(s, t, s') && s'.pc == s.pc[t := Idle] && s'.line == s.line && s'.db == s.db
  {
    hide CanReach, Reachable;
    OwnerSeesPhase(s, t);
    Stay(s, t);
    var m := To(s, t, Ph(Reopen(GRole(s.pc[t])), None));
    Go(s, t, s, m);
    s' := SoloPhase(s, m, t, Reopen(GRole(s.pc[t])));
    assert s'.pc == s.pc[t := Idle];
  }
}
