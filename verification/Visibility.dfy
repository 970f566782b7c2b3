/**
  When a commit becomes visible to new readers. A transaction that completes its timestamp
  moves the published view only if that timestamp is next after the frontier; otherwise it
  leaves this to the transaction whose timestamp is.
 */
module Visibility {
  import opened Common
  import Gate
  import Timeline
  import TimelineProof
  import opened Store
  import opened Protocol
  import opened ProtocolInv
  import opened ProtocolSafety
  import opened History
  import opened Theorems
  import opened Progress

  /** The loop of advance_read_ts_locked, up to the store of the view. */
  predicate Scans(p: Pc) { p.CpTest? || p.CpClear? || p.CpStore? || p.CpGen? || p.CpPub? }

  /** A scan starts right above the published view, which stays where it is until the scan ends. */
  predicate ScanOk(line: Timeline.Line, p: Pc) { Scans(p) ==> p.job.ts == line.view.ts + 1 }

  ghost predicate ScansFromView(s: State) { forall t :: t in s.pc ==> ScanOk(s.line, s.pc[t]) }

  lemma ScanIsAdvance(p: Pc)
    ensures Scans(p) <==> Timeline.Advancing(LRole(p))
  {
  }

  lemma CheckerSeesView(s: State, t: Tid)
    requires Reachable(s) && t in s.pc && s.pc[t].CpCheck?
    ensures s.line.view.ts == s.line.read
  {
    hide Reachable, Timeline.Inv;
    ReachableLine(s);
    TimelineProof.CheckingSeesView(s.line, LRoles(s.pc), t);
  }

  lemma OneScans(s: State, t: Tid, u: Tid)
    requires Reachable(s) && t in s.pc && u in s.pc && t != u && Scans(s.pc[u])
    ensures !s.pc[t].CpPub? && !s.pc[t].RsView?
  {
    hide Reachable, Timeline.Inv;
    ReachableLine(s);
    ScanIsAdvance(s.pc[u]);
    TimelineProof.OneHolds(s.line, LRoles(s.pc), t, u);
  }

  lemma CompleteScans(s: State, t: Tid, s': State)
    requires Reachable(s) && t in s.pc && CompleteStep(s, t, s.pc[t], s') && t in s'.pc
    ensures ScanOk(s'.line, s'.pc[t])
  {
    hide Reachable;
    if s.pc[t].CpCheck? { CheckerSeesView(s, t); }
  }

  lemma AdvanceScans(s: State, t: Tid, s': State)
    requires t in s.pc && AdvanceStep(s, t, s.pc[t], s') && t in s'.pc && ScanOk(s.line, s.pc[t])
    ensures ScanOk(s'.line, s'.pc[t])
  {
  }

  lemma ShortDoNotScan(s: State, t: Tid, s': State)
    requires Step(s, t, s') && t in s'.pc
    requires FamilyOf(s.pc[t]) in {FBegin, FRead, FInsert, FReserve, FPhase, FUpdate}
    ensures ScanOk(s'.line, s'.pc[t])
  {
    hide Rewritten, Persist;
  }

  lemma LongDoNotScan(s: State, t: Tid, s': State)
    requires Step(s, t, s') && t in s'.pc
    requires FamilyOf(s.pc[t]) in {FTp, FGuard, FAp, FReset, FCompact, FExclusive, FSeal}
    ensures ScanOk(s'.line, s'.pc[t])
  {
    hide Rewritten, Persist, PersistWrite, Compacted, All;
  }

  lemma StepScans(s: State, t: Tid, s': State)
    requires Reachable(s) && Step(s, t, s') && ScansFromView(s)
    ensures ScansFromView(s')
  {
    hide Reachable, StepOf, FamilyOf, ScanOk;
    StepIsLocal(s, t, s');
    forall u | u in s'.pc ensures ScanOk(s'.line, s'.pc[u]) {
      if u == t { OwnScan(s, t, s'); } else { OtherScan(s, t, s', u); }
    }
  }

  lemma OwnScan(s: State, t: Tid, s': State)
    requires Reachable(s) && Step(s, t, s') && ScansFromView(s) && t in s'.pc
    ensures ScanOk(s'.line, s'.pc[t])
  {
    hide Reachable, ScanOk, CompleteStep, AdvanceStep, FamilyOf;
    match FamilyOf(s.pc[t])
    case FComplete => CompleteScans(s, t, s');
    case FAdvance => AdvanceScans(s, t, s');
    case FTp => LongDoNotScan(s, t, s');
    case FGuard => LongDoNotScan(s, t, s');
    case FAp => LongDoNotScan(s, t, s');
    case FReset => LongDoNotScan(s, t, s');
    case FCompact => LongDoNotScan(s, t, s');
    case FExclusive => LongDoNotScan(s, t, s');
    case FSeal => LongDoNotScan(s, t, s');
    case _ => ShortDoNotScan(s, t, s');
  }

  lemma OtherScan(s: State, t: Tid, s': State, u: Tid)
    requires Reachable(s) && Step(s, t, s') && ScansFromView(s)
    requires u != t && u in s.pc && u in s'.pc && s'.pc[u] == s.pc[u]
    ensures ScanOk(s'.line, s'.pc[u])
  {
    hide Reachable, StepOf, FamilyOf;
    if Scans(s.pc[u]) { OneScans(s, t, u); }
    ViewWriters(s, t, s');
  }

  lemma NextScans(s: State, s': State)
    requires Reachable(s) && Next(s, s') && ScansFromView(s)
    ensures ScansFromView(s')
  {
    hide Reachable, Step;
    if !Crash(s, s') {
      var t :| Step(s, t, s');
      StepScans(s, t, s');
    }
  }

  lemma {:induction false} RunScans(run: seq<State>, i: nat)
    requires IsRun(run) && i < |run|
    ensures ScansFromView(run[i])
  {
    hide Next, Reachable;
    if i > 0 {
      RunScans(run, i - 1);
      PrefixReachable(run, i - 1);
      assert Next(run[i - 1], run[i - 1 + 1]);
      NextScans(run[i - 1], run[i]);
    }
  }

  lemma ReachableScans(s: State)
    requires Reachable(s)
    ensures ScansFromView(s)
  {
    var run :| IsRun(run) && s == run[|run| - 1];
    RunScans(run, |run| - 1);
  }

  // ---- the condition ---------------------------------------------------------------------------

  /** The thread has a timestamp above the frontier that is not passed yet. */
  predicate HoldsBack(line: Timeline.Line, p: Pc, ts: nat) {
    var r := LRole(p);
    (r.Pending? || r.Marked? || r.Checking?) && line.read < r.ts <= ts
  }

  /** The thread is about to publish this timestamp. */
  predicate WillPublish(p: Pc, ts: nat) { Scans(p) && p.job.ts <= ts }

  ghost predicate NothingBefore(s: State, ts: nat) {
    forall t :: t in s.pc ==> !HoldsBack(s.line, s.pc[t], ts) && !WillPublish(s.pc[t], ts)
  }

  lemma PassedMeansNothing(s: State, ts: nat)
    requires Reachable(s) && 0 < ts <= s.line.view.ts && s.line.view.ts <= s.line.read
    ensures NothingBefore(s, ts)
  {
    hide Reachable;
    ReachableScans(s);
  }

  lemma NothingMeansPassed(s: State, ts: nat)
    requires Reachable(s) && Timeline.Normal(s.line, LRoles(s.pc)) && ts < s.line.write && NothingBefore(s, ts)
    ensures ts <= s.line.view.ts
  {
    hide Reachable, Scans, Timeline.Normal, LRole;
    ReachableScans(s);
    var rs := LRoles(s.pc);
    if t :| t in s.pc && Scans(s.pc[t]) {
    } else {
      forall t | t in rs ensures !Timeline.Advancing(rs[t]) { ScanIsAdvance(s.pc[t]); }
      TimelineProof.QuietView(s.line, rs);
      if s.line.read < ts {
        assert forall t :: t in rs ==> !TimelineProof.AtFrontier(rs[t], s.line.read);
        TimelineProof.NobodyAtFrontier(s.line, rs);
      }
    }
  }

  lemma NormalLine(s: State, ts: nat)
    requires Reachable(s) && 0 < ts < s.line.write
    ensures Timeline.Normal(s.line, LRoles(s.pc)) && s.line.view.ts <= s.line.read
  {
    hide Reachable;
    ReachableLine(s);
  }

  /**
    A timestamp is visible to new readers exactly when no thread with a timestamp up to it
    and above the frontier is still before its check of the frontier, and no scan that began
    at or below it is still going on.
   */
  lemma VisibleIff(s: State, ts: nat)
    requires Reachable(s) && 0 < ts < s.line.write
    ensures ts <= s.line.view.ts <==> NothingBefore(s, ts)
  {
    hide Reachable, Timeline.Normal, NothingBefore;
    NormalLine(s, ts);
    if ts <= s.line.view.ts { PassedMeansNothing(s, ts); }
    if NothingBefore(s, ts) { NothingMeansPassed(s, ts); }
  }

  /** The moment a commit returns: its own completion is over, and it holds the lock a last time. */
  lemma ReturnIsVisibleIff(s: State, t: Tid)
    requires Reachable(s) && t in s.pc && s.pc[t].CpUnlock? && s.pc[t].job.ts in s.db.log
    ensures var ts := s.pc[t].job.ts;
      ts <= s.line.view.ts <==> forall u :: u in s.pc ==> !Waits(s.line, s.pc[u], ts)
  {
    hide Reachable, NothingBefore;
    var ts := s.pc[t].job.ts;
    LogBounds(s, ts);
    VisibleIff(s, ts);
    OnlyWaiters(s, t, ts);
  }

  lemma OnlyWaiters(s: State, t: Tid, ts: nat)
    requires Reachable(s) && t in s.pc && s.pc[t].CpUnlock?
    ensures NothingBefore(s, ts) <==> forall u :: u in s.pc ==> !Waits(s.line, s.pc[u], ts)
  {
    hide Reachable, Timeline.Inv, Scans;
    ReachableLine(s);
    forall u | u in s.pc
      ensures !WillPublish(s.pc[u], ts) && (HoldsBack(s.line, s.pc[u], ts) <==> Waits(s.line, s.pc[u], ts))
    {
      if u != t { TimelineProof.OneHolds(s.line, LRoles(s.pc), u, t); }
      ScanIsAdvance(s.pc[u]);
    }
  }

  /** A timestamp above the frontier that is not marked completed, or whose thread waits for the lock. */
  predicate Waits(line: Timeline.Line, p: Pc, ts: nat) {
    var r := LRole(p);
    (r.Pending? || r.Marked?) && line.read < r.ts <= ts
  }

  lemma LogBounds(s: State, ts: nat)
    requires Reachable(s) && ts in s.db.log
    ensures 0 < ts < s.line.write
  {
    hide Reachable, Gate.Inv, Timeline.Inv;
    ReachableInv(s);
  }

  /** Between completions: visible exactly when none below it is unfinished. */
  lemma FinishedIsVisibleIff(s: State, ts: nat)
    requires Reachable(s) && NobodyCompletes(s) && 0 < ts < s.line.write && !Unfinished(s, ts)
    ensures ts <= s.line.view.ts <==> forall x: nat :: x < ts ==> !Unfinished(s, x)
  {
    hide Reachable;
    VisibleIff(s, ts);
    forall x: nat | Unfinished(s, x) ensures s.line.read < x { UnfinishedAboveFrontier(s, x); }
    forall t | t in s.pc ensures !Scans(s.pc[t]) && (HoldsBack(s.line, s.pc[t], ts) ==> LRole(s.pc[t]).Pending?) {
      ScanIsAdvance(s.pc[t]);
    }
    if t :| t in s.pc && HoldsBack(s.line, s.pc[t], ts) { assert Unfinished(s, LRole(s.pc[t]).ts); }
  }

  // ---- commits that return before they are visible -----------------------------------------------

  /** A completion that finds an older timestamp at the frontier marks its own and returns. */
  lemma PassBy(s0: State, s: State, t: Tid, job: Job) returns (s': State)
    requires CanReach(s0, t, s) && t in s.pc && s.pc[t] == CpMark(job) && job.role.Inserter?
    requires |s.line.ring| == Timeline.WINDOW && s.line.lock.None? && job.ts != s.line.read + 1
    ensures CanReach(s0, t, s') && s'.pc == s.pc[t := InRel] && s'.db == s.db && s'.gate == s.gate
    ensures s'.line == s.line.(ring := s'.line.ring) && |s'.line.ring| == Timeline.WINDOW
  {
    hide CanReach, Timeline.TsIndex;
    var s1 := SoloMarks(s0, s, t, job);
    s' := SoloLooks(s0, s1, t, job);
    assert s'.pc == s.pc[t := InRel];
  }

  lemma SoloLooks(s0: State, s: State, t: Tid, job: Job) returns (s': State)
    requires CanReach(s0, t, s) && t in s.pc && s.pc[t] == CpLock(job) && job.role.Inserter?
    requires s.line.lock.None? && job.ts != s.line.read + 1
    ensures CanReach(s0, t, s') && s' == To(s, t, InRel)
  {
    hide CanReach;
    var s1 := SetLine(s, t, s.line.(lock := Some(t)), CpCheck(job));
    GoComplete(s0, t, s, s1);
    var s2 := To(s1, t, CpUnlock(job));
    GoComplete(s0, t, s1, s2);
    s' := SetLine(s2, t, s.line, InRel);
    GoComplete(s0, t, s2, s');
    assert s'.pc == s.pc[t := InRel];
  }

  lemma SoloMarks(s0: State, s: State, t: Tid, job: Job) returns (s': State)
    requires CanReach(s0, t, s) && t in s.pc && s.pc[t] == CpMark(job) && |s.line.ring| == Timeline.WINDOW
    ensures CanReach(s0, t, s')
    ensures s' == SetLine(s, t, s.line.(ring := s'.line.ring), CpLock(job)) && |s'.line.ring| == Timeline.WINDOW
  {
    hide CanReach, Timeline.TsIndex;
    s' := SetLine(s, t, s.line.(ring := s.line.ring[Timeline.TsIndex(job.ts) := job.ts]), CpLock(job));
    GoComplete(s0, t, s, s');
  }

  /** A durable insert that is not next at the frontier returns. */
  lemma InsertPassesBy(s: State, u: Tid, g: Fact) returns (s': State)
    requires u in s.pc && s.pc[u].Idle? && s.gate.phase == Gate.Open && !g.temp && s.db.cur in s.db.snaps
    requires s.line.read + 1 < s.line.write <= s.line.read + Timeline.WINDOW && s.line.write < MAX_TS
    requires |s.line.ring| == Timeline.WINDOW && s.line.lock.None?
    ensures CanReach(s, u, s') && s'.pc == s.pc && s'.line.view == s.line.view
    ensures s'.db.log == s.db.log[s.line.write := Write({}, {g})]
  {
    hide CanReach;
    var ts := s.line.write;
    var s1 := SoloDurable(s, u, g);
    var s2 := SoloApply(s, s1, u, ts, s.db.cur, {g});
    var s3 := PassBy(s, s2, u, Job(Gate.Inserter, ts, false));
    s' := SoloRelease(s, s3, u);
    assert s'.pc == s.pc;
  }

  /**
    An insert that returns while an older one is being applied: it is committed, its thread is
    back, and a new reader does not see it.
   */
  lemma ReturnsBeforeVisible(s: State, t: Tid, u: Tid, f: Fact, g: Fact) returns (s': State)
    requires Reachable(s) && AllIdle(s) && t in s.pc && u in s.pc && t != u && s.line.write < MAX_TS - 1
    requires !f.temp && !g.temp
    ensures Reachable(s') && s'.pc == s.pc[t := InApply(s.line.write, s.db.cur, {f})]
    ensures s.line.write + 1 in s'.db.log && s'.db.log[s.line.write + 1] == Write({}, {g})
    ensures s'.line.view.ts < s.line.write + 1
  {
    hide CanReach, Reachable;
    QuietStart(s);
    var s1 := SoloDurable(s, t, f);
    StaysReachable(s, t, s1);
    s' := InsertPassesBy(s1, u, g);
    StaysReachable(s1, u, s');
  }

  /**
    That nobody has an unfinished timestamp is not enough: here every timestamp is marked
    completed, and the thread of the older one waits for the lock.
   */
  lemma FinishedAndNotVisible(s: State, t: Tid, u: Tid, f: Fact, g: Fact) returns (s': State)
    requires Reachable(s) && AllIdle(s) && t in s.pc && u in s.pc && t != u && s.line.write < MAX_TS - 1
    requires !f.temp && !g.temp
    ensures Reachable(s') && s'.pc == s.pc[t := CpLock(Job(Gate.Inserter, s.line.write, false))]
    ensures forall x: nat :: !Unfinished(s', x)
    ensures s.line.write + 1 in s'.db.log && s'.db.log[s.line.write + 1] == Write({}, {g})
    ensures s'.line.view.ts < s.line.write + 1
  {
    hide CanReach, Reachable;
    QuietStart(s);
    var s1 := InsertMarks(s, t, f);
    StaysReachable(s, t, s1);
    s' := InsertPassesBy(s1, u, g);
    StaysReachable(s1, u, s');
  }

  /** An insert up to the point where it waits for the lock. */
  lemma InsertMarks(s: State, t: Tid, f: Fact) returns (s': State)
    requires t in s.pc && s.pc[t].Idle? && s.gate.phase == Gate.Open && !f.temp && s.db.cur in s.db.snaps
    requires s.line.read < s.line.write <= s.line.read + Timeline.WINDOW && s.line.write < MAX_TS
    requires |s.line.ring| == Timeline.WINDOW
    ensures CanReach(s, t, s') && s'.pc == s.pc[t := CpLock(Job(Gate.Inserter, s.line.write, false))]
    ensures s'.line == s.line.(write := s.line.write + 1, ring := s'.line.ring) && |s'.line.ring| == Timeline.WINDOW
    ensures s'.gate.phase == Gate.Open && s'.db.cur in s'.db.snaps
  {
    hide CanReach;
    var s1 := SoloDurable(s, t, f);
    var s2 := SoloApply(s, s1, t, s.line.write, s.db.cur, {f});
    s' := SoloMarks(s, s2, t, Job(Gate.Inserter, s.line.write, false));
    assert s'.pc == s.pc[t := CpLock(Job(Gate.Inserter, s.line.write, false))];
  }
}
