/**
  The protocol is not stuck: from every reachable state in which nobody is inside, a
  thread that runs alone gets through, whatever has happened before.
 */
module Progress {
  import opened Common
  import Gate
  import Timeline
  import opened Store
  import opened Protocol
  import opened Theorems

  /** Steps of one thread lead from the first state to the last. */
  ghost predicate SoloRun(run: seq<State>, t: Tid) {
    |run| > 0 && forall i :: 0 <= i < |run| - 1 ==> Step(run[i], t, run[i + 1])
  }

  ghost predicate CanReach(s: State, t: Tid, s': State) {
    exists run :: SoloRun(run, t) && run[0] == s && run[|run| - 1] == s'
  }

  lemma Stay(s: State, t: Tid)
    ensures CanReach(s, t, s)
  {
    assert SoloRun([s], t) && [s][0] == s && [s][|[s]| - 1] == s;
  }

  lemma Go(s: State, t: Tid, m: State, s': State)
    requires CanReach(s, t, m) && Step(m, t, s')
    ensures CanReach(s, t, s')
  {
    hide Step;
    var run :| SoloRun(run, t) && run[0] == s && run[|run| - 1] == m;
    var run' := run + [s'];
    assert SoloRun(run', t) && run'[0] == s && run'[|run'| - 1] == s';
  }

  lemma GoComplete(s: State, t: Tid, m: State, s': State)
    requires CanReach(s, t, m) && t in m.pc && FamilyOf(m.pc[t]) == FComplete && CompleteStep(m, t, m.pc[t], s')
    ensures CanReach(s, t, s')
  {
    hide CanReach;
    Go(s, t, m, s');
  }

  lemma GoAdvance(s: State, t: Tid, m: State, s': State)
    requires CanReach(s, t, m) && t in m.pc && FamilyOf(m.pc[t]) == FAdvance && AdvanceStep(m, t, m.pc[t], s')
    ensures CanReach(s, t, s')
  {
    hide CanReach;
    Go(s, t, m, s');
  }

  lemma GoInsert(s: State, t: Tid, m: State, s': State)
    requires CanReach(s, t, m) && t in m.pc && FamilyOf(m.pc[t]) == FInsert && InsertStep(m, t, m.pc[t], s')
    ensures CanReach(s, t, s')
  {
    hide CanReach;
    Go(s, t, m, s');
  }

  lemma GoTp(s: State, t: Tid, m: State, s': State)
    requires CanReach(s, t, m) && t in m.pc && FamilyOf(m.pc[t]) == FTp && TpStep(m, t, m.pc[t], s')
    ensures CanReach(s, t, s')
  {
    hide CanReach;
    Go(s, t, m, s');
  }

  lemma GoUpdate(s: State, t: Tid, m: State, s': State)
    requires CanReach(s, t, m) && t in m.pc && FamilyOf(m.pc[t]) == FUpdate && UpdateStep(m, t, m.pc[t], s')
    ensures CanReach(s, t, s')
  {
    hide CanReach;
    Go(s, t, m, s');
  }

  lemma {:induction false} SoloReachable(run: seq<State>, t: Tid, i: nat)
    requires SoloRun(run, t) && Reachable(run[0]) && i < |run|
    ensures Reachable(run[i])
    decreases i
  {
    hide Reachable, Step;
    if i > 0 {
      SoloReachable(run, t, i - 1);
      assert Step(run[i - 1], t, run[i - 1 + 1]);
      ReachableNext(run[i - 1], run[i]);
    }
  }

  lemma StaysReachable(s: State, t: Tid, s': State)
    requires Reachable(s) && CanReach(s, t, s')
    ensures Reachable(s')
  {
    hide Reachable;
    var run :| SoloRun(run, t) && run[0] == s && run[|run| - 1] == s';
    SoloReachable(run, t, |run| - 1);
  }

  ghost predicate AllIdle(s: State) { forall t :: t in s.pc ==> s.pc[t].Idle? }

  // ---- parts of an operation ------------------------------------------------------------------

  /** ReserveWriteTimestamp with room in the window. */
  lemma SoloReserve(s0: State, s: State, t: Tid, role: Gate.Role) returns (s': State)
    requires CanReach(s0, t, s) && t in s.pc && s.pc[t] == ResW(role)
    requires s.line.read < s.line.write <= s.line.read + Timeline.WINDOW && s.line.write < MAX_TS
    ensures CanReach(s0, t, s')
    ensures s' == SetLine(s, t, s.line.(write := s.line.write + 1), Reserved(role, s.line.write))
  {
    hide CanReach;
    var w := s.line.write;
    var s1 := To(s, t, ResR(role, w));
    Go(s0, t, s, s1);
    var s2 := To(s1, t, ResCas(role, w));
    Go(s0, t, s1, s2);
    var s3 := SetLine(s2, t, s2.line.(write := w + 1), Reserved(role, w));
    Go(s0, t, s2, s3);
    s' := s3;
    assert s3.pc == s.pc[t := Reserved(role, w)];
  }

  ghost predicate Clean(line: Timeline.Line) {
    && |line.ring| == Timeline.WINDOW && line.lock == None
    && forall i :: 0 <= i < |line.ring| ==> line.ring[i] == 0
  }

  /** mark_completed, lock and the first test of complete_write_timestamp. */
  lemma SoloMark(s0: State, s: State, t: Tid, job: Job) returns (s': State)
    requires CanReach(s0, t, s) && t in s.pc && s.pc[t] == CpMark(job)
    requires Clean(s.line) && job.ts == s.line.read + 1
    ensures CanReach(s0, t, s')
    ensures s' == SetLine(s, t, s.line.(ring := s.line.ring[Timeline.TsIndex(job.ts) := job.ts], lock := Some(t)),
                          CpTest(job, s.line.read))
  {
    hide CanReach, Timeline.TsIndex;
    var s1 := SetLine(s, t, s.line.(ring := s.line.ring[Timeline.TsIndex(job.ts) := job.ts]), CpLock(job));
    GoComplete(s0, t, s, s1);
    s' := SoloLock(s0, s1, t, job);
    assert s'.pc == s.pc[t := CpTest(job, s.line.read)];
  }

  /** The uncontended way into the scan. */
  lemma SoloLock(s0: State, s: State, t: Tid, job: Job) returns (s': State)
    requires CanReach(s0, t, s) && t in s.pc && s.pc[t] == CpLock(job)
    requires s.line.lock.None? && job.ts == s.line.read + 1
    ensures CanReach(s0, t, s')
    ensures s' == SetLine(s, t, s.line.(lock := Some(t)), CpTest(job, s.line.read))
  {
    hide CanReach, Timeline.TsIndex;
    var s1 := SetLine(s, t, s.line.(lock := Some(t)), CpCheck(job));
    GoComplete(s0, t, s, s1);
    s' := To(s1, t, CpTest(job, s.line.read));
    GoComplete(s0, t, s1, s');
    assert s'.pc == s.pc[t := CpTest(job, s.line.read)];
  }

  /** One turn of the scan: test, clear, store. */
  lemma SoloPass(s0: State, s: State, t: Tid, job: Job, cur: nat) returns (s': State)
    requires CanReach(s0, t, s) && t in s.pc && s.pc[t] == CpTest(job, cur) && Timeline.InRing(s.line, cur + 1)
    ensures CanReach(s0, t, s')
    ensures s' == SetLine(s, t, s.line.(ring := s.line.ring[Timeline.TsIndex(cur + 1) := 0], read := cur + 1),
                          CpTest(job, cur + 1))
  {
    hide CanReach, Timeline.TsIndex;
    var s1 := To(s, t, CpClear(job, cur + 1));
    GoAdvance(s0, t, s, s1);
    var s2 := SetLine(s1, t, s1.line.(ring := s1.line.ring[Timeline.TsIndex(cur + 1) := 0]), CpStore(job, cur + 1));
    GoAdvance(s0, t, s1, s2);
    s' := SetLine(s2, t, s2.line.(read := cur + 1), CpTest(job, cur + 1));
    GoAdvance(s0, t, s2, s');
    assert s'.pc == s.pc[t := CpTest(job, cur + 1)];
  }

  /** The scan passes one timestamp and stops. */
  lemma SoloScan(s0: State, s: State, t: Tid, job: Job, old_: Timeline.Line) returns (s': State)
    requires CanReach(s0, t, s) && t in s.pc && s.pc[t] == CpTest(job, old_.read)
    requires Clean(old_) && job.ts == old_.read + 1
    requires s.line == old_.(ring := old_.ring[Timeline.TsIndex(job.ts) := job.ts], lock := Some(t))
    ensures CanReach(s0, t, s')
    ensures s' == SetLine(s, t, old_.(read := job.ts, lock := Some(t)), CpGen(job, job.ts))
  {
    hide CanReach, Timeline.TsIndex;
    var m := SoloPass(s0, s, t, job, old_.read);
    assert m.line.ring == old_.ring;
    s' := To(m, t, CpGen(job, job.ts));
    GoAdvance(s0, t, m, s');
    assert s'.pc == s.pc[t := CpGen(job, job.ts)];
  }

  /** Publication and unlock. */
  lemma SoloView(s0: State, s: State, t: Tid, job: Job, cur: nat) returns (s': State)
    requires CanReach(s0, t, s) && t in s.pc && s.pc[t] == CpGen(job, cur)
    ensures CanReach(s0, t, s')
    ensures s' == SetLine(s, t, s.line.(view := Timeline.View(cur, s.line.igen), lock := None), GiveBack(job.role))
  {
    hide CanReach;
    var s1 := To(s, t, CpPub(job, cur, s.line.igen));
    GoAdvance(s0, t, s, s1);
    var s2 := SetLine(s1, t, s1.line.(view := Timeline.View(cur, s.line.igen)), CpUnlock(job));
    GoAdvance(s0, t, s1, s2);
    s' := SetLine(s2, t, s2.line.(lock := None), GiveBack(job.role));
    GoComplete(s0, t, s2, s');
    assert s'.pc == s.pc[t := GiveBack(job.role)];
  }

  /** complete_write_timestamp of the only unfinished timestamp publishes it. */
  lemma SoloComplete(s0: State, s: State, t: Tid, job: Job) returns (s': State)
    requires CanReach(s0, t, s) && t in s.pc && s.pc[t] == CpMark(job)
    requires Clean(s.line) && job.ts == s.line.read + 1
    ensures CanReach(s0, t, s')
    ensures s' == SetLine(s, t, s.line.(read := job.ts, view := Timeline.View(job.ts, s.line.igen)), GiveBack(job.role))
  {
    hide CanReach, Timeline.TsIndex;
    var s1 := SoloMark(s0, s, t, job);
    var s2 := SoloScan(s0, s1, t, job, s.line);
    s' := SoloView(s0, s2, t, job, job.ts);
    assert s'.pc == s.pc[t := GiveBack(job.role)];
  }

  /** A phase change from the observed word. */
  lemma SoloPhase(s0: State, s: State, t: Tid, site: Site) returns (s': State)
    requires CanReach(s0, t, s) && t in s.pc && s.pc[t] == Ph(site, None) && Expected(site, s.gate.phase)
    ensures CanReach(s0, t, s') && s' == SetGate(s, t, s.gate.(phase := Target(site)), AfterPhase(site))
  {
    hide CanReach;
    var s1 := To(s, t, Ph(site, Some(s.gate)));
    Go(s0, t, s, s1);
    s' := SetGate(s1, t, s.gate.(phase := Target(site)), AfterPhase(site));
    Go(s0, t, s1, s');
    assert s'.pc == s.pc[t := AfterPhase(site)];
  }

  /** The facts of an insert are applied one by one. */
  lemma {:induction false} SoloApply(s0: State, s: State, t: Tid, ts: nat, g: nat, todo: set<Fact>) returns (s': State)
    requires CanReach(s0, t, s) && t in s.pc && s.pc[t] == InApply(ts, g, todo) && g in s.db.snaps
    ensures CanReach(s0, t, s')
    ensures s' == SetDb(s, t, s.db.(snaps := s'.db.snaps), CpMark(Job(Gate.Inserter, ts, false)))
    ensures s'.db.snaps.Keys == s.db.snaps.Keys
    decreases |todo|
  {
    hide CanReach;
    if todo == {} {
      s' := To(s, t, CpMark(Job(Gate.Inserter, ts, false)));
      GoInsert(s0, t, s, s');
    } else {
      var f :| f in todo;
      var m := SetDb(s, t, s.db.(snaps := s.db.snaps[g := s.db.snaps[g] + {Item(ts, f)}]), InApply(ts, g, todo - {f}));
      GoInsert(s0, t, s, m);
      s' := SoloApply(s0, m, t, ts, g, todo - {f});
    }
    assert s'.pc == s.pc[t := CpMark(Job(Gate.Inserter, ts, false))];
  }

  // ---- whole operations ------------------------------------------------------------------------

  lemma QuietStart(s: State)
    requires Reachable(s) && AllIdle(s)
    ensures s.gate == Gate.Word(Gate.Open, 0, 0) && Clean(s.line) && s.line.write == s.line.read + 1
    ensures s.line.view == Timeline.View(s.line.read, s.db.cur) && s.db.cur in s.db.snaps
    ensures All(s.db.snaps[s.db.cur]) == Serial(s.db.base, s.db.t0, s.db.log, s.line.read)
    ensures s.db.t0 <= s.line.read
  {
    hide Reachable;
    QuiescentIsClean(s);
    QuietShape(s);
  }

  lemma QuietShape(s: State)
    requires Reachable(s) && AllIdle(s)
    ensures |s.line.ring| == Timeline.WINDOW && s.db.t0 <= s.line.read
  {
    hide Reachable, Gate.Inv;
    ReachableInv(s);
  }

  /** acquire_inserter with the gate open. */
  lemma SoloAdmit(s: State, t: Tid) returns (s': State)
    requires t in s.pc && s.pc[t].Idle? && s.gate.phase == Gate.Open
    ensures CanReach(s, t, s') && s' == SetGate(s, t, s.gate.(inserters := s.gate.inserters + 1), ResW(Gate.Inserter))
  {
    hide CanReach;
    Stay(s, t);
    var s1 := To(s, t, InLoad);
    Go(s, t, s, s1);
    var s2 := To(s1, t, InCas(s.gate));
    Go(s, t, s1, s2);
    s' := SetGate(s2, t, s.gate.(inserters := s.gate.inserters + 1), ResW(Gate.Inserter));
    Go(s, t, s2, s');
    assert s'.pc == s.pc[t := ResW(Gate.Inserter)];
  }

  /** The WAL append of an insert. */
  lemma SoloLog(s0: State, s: State, t: Tid, ts: nat, fs: set<Fact>) returns (s': State)
    requires CanReach(s0, t, s) && t in s.pc && s.pc[t] == InHold(ts) && Persist(fs) == fs
    ensures CanReach(s0, t, s')
    ensures s' == SetDb(s, t, s.db.(log := s.db.log[ts := Write({}, fs)], wal := s.db.wal[ts := Write({}, fs)]),
                        InApply(ts, s.db.cur, fs))
  {
    hide CanReach, Persist;
    var m := To(s, t, InWork(ts, s.db.cur));
    GoInsert(s0, t, s, m);
    s' := SetDb(m, t, m.db.(log := m.db.log[ts := Write({}, fs)], wal := m.db.wal[ts := Write({}, fs)]),
                InApply(ts, s.db.cur, fs));
    GoInsert(s0, t, m, s');
    assert s'.pc == s.pc[t := InApply(ts, s.db.cur, fs)];
  }

  lemma SoloRelease(s0: State, s: State, t: Tid) returns (s': State)
    requires CanReach(s0, t, s) && t in s.pc && s.pc[t] == InRel && s.gate.inserters > 0
    ensures CanReach(s0, t, s') && s'.pc == s.pc[t := Idle] && s'.line == s.line && s'.db == s.db
  {
    hide CanReach;
    s' := SetGate(s, t, s.gate.(inserters := s.gate.inserters - 1), Idle);
    GoInsert(s0, t, s, s');
  }

  lemma SoloInserted(s0: State, s: State, t: Tid, ts: nat) returns (s': State)
    requires CanReach(s0, t, s) && t in s.pc && s.pc[t] == CpMark(Job(Gate.Inserter, ts, false)) && s.gate.inserters > 0
    requires Clean(s.line) && ts == s.line.read + 1
    ensures CanReach(s0, t, s') && s'.pc == s.pc[t := Idle] && s'.line.read == ts && s'.db == s.db
  {
    hide CanReach, Clean;
    var s1 := SoloComplete(s0, s, t, Job(Gate.Inserter, ts, false));
    s' := SoloRelease(s0, s1, t);
    assert s'.pc == s.pc[t := Idle];
  }

  /** From the reservation of an insert to its return. */
  lemma SoloInsertBody(s0: State, s: State, t: Tid, fs: set<Fact>) returns (s': State)
    requires CanReach(s0, t, s) && t in s.pc && s.pc[t] == ResW(Gate.Inserter) && s.gate.inserters > 0
    requires Clean(s.line) && s.line.write == s.line.read + 1 < MAX_TS && s.db.cur in s.db.snaps
    requires Persist(fs) == fs
    ensures CanReach(s0, t, s') && s'.pc == s.pc[t := Idle]
    ensures s'.line.read == s.line.write && s'.db.base == s.db.base && s'.db.t0 == s.db.t0
    ensures s'.db.log == s.db.log[s.line.write := Write({}, fs)]
  {
    hide CanReach, Persist, Timeline.TsIndex;
    var ts := s.line.write;
    var s1 := SoloReserve(s0, s, t, Gate.Inserter);
    var s2 := SoloLog(s0, s1, t, ts, fs);
    var s3 := SoloApply(s0, s2, t, ts, s.db.cur, fs);
    s' := SoloInserted(s0, s3, t, ts);
    assert s'.pc == s.pc[t := Idle];
  }

  /** An insert of one fact up to the point where it is durable and not applied. */
  lemma SoloDurable(s: State, t: Tid, f: Fact) returns (s': State)
    requires t in s.pc && s.pc[t].Idle? && s.gate.phase == Gate.Open && !f.temp
    requires s.line.read < s.line.write <= s.line.read + Timeline.WINDOW && s.line.write < MAX_TS
    ensures CanReach(s, t, s') && s'.pc == s.pc[t := InApply(s.line.write, s.db.cur, {f})]
    ensures s'.gate == s.gate.(inserters := s.gate.inserters + 1) && s'.line == s.line.(write := s.line.write + 1)
    ensures s'.db == s.db.(log := s.db.log[s.line.write := Write({}, {f})], wal := s.db.wal[s.line.write := Write({}, {f})])
  {
    hide CanReach;
    var s1 := SoloAdmit(s, t);
    var s2 := SoloReserve(s, s1, t, Gate.Inserter);
    assert Persist({f}) == {f};
    s' := SoloLog(s, s2, t, s.line.write, {f});
    assert s'.pc == s.pc[t := InApply(s.line.write, s.db.cur, {f})];
  }

  /**
    Two inserts in progress can reach the current snapshot in the opposite of timestamp order:
    both are committed, the later one is applied, and the earlier one is not.
   */
  lemma LaterInsertAppliedFirst(s: State, t: Tid, u: Tid, f: Fact, g: Fact) returns (s': State)
    requires Reachable(s) && AllIdle(s) && t in s.pc && u in s.pc && t != u && s.line.write < MAX_TS - 1
    requires !f.temp && !g.temp
    ensures Reachable(s') && s'.db.cur in s'.db.snaps
    ensures var ts := s.line.write;
      && ts in s'.db.log && ts + 1 in s'.db.log && s'.db.log[ts].add == {f} && s'.db.log[ts + 1].add == {g}
      && Item(ts + 1, g) in s'.db.snaps[s'.db.cur] && Item(ts, f) !in s'.db.snaps[s'.db.cur]
  {
    hide CanReach, Reachable;
    QuietStart(s);
    NothingNewer(s, f);
    var s1 := SoloDurable(s, t, f);
    StaysReachable(s, t, s1);
    var s2 := SoloDurable(s1, u, g);
    StaysReachable(s1, u, s2);
    Stay(s2, u);
    s' := SetDb(s2, u, s2.db.(snaps := s2.db.snaps[s2.db.cur := s2.db.snaps[s2.db.cur] + {Item(s.line.write + 1, g)}]),
                InApply(s.line.write + 1, s2.db.cur, {g} - {g}));
    GoInsert(s2, u, s2, s');
    StaysReachable(s2, u, s');
  }

  lemma NothingNewer(s: State, f: Fact)
    requires Reachable(s) && AllIdle(s)
    ensures s.db.cur in s.db.snaps && Item(s.line.write, f) !in s.db.snaps[s.db.cur]
  {
    hide Reachable, Gate.Inv, Timeline.Inv;
    QuietStart(s);
    ReachableInv(s);
  }

  /** An insert that runs alone commits, and its facts are visible when it returns. */
  lemma InsertGetsThrough(s: State, t: Tid, fs: set<Fact>) returns (s': State)
    requires Reachable(s) && AllIdle(s) && t in s.pc && s.line.write < MAX_TS && Persist(fs) == fs
    ensures CanReach(s, t, s') && AllIdle(s') && s'.line.view.ts == s.line.write
    ensures s.line.view.gen in s.db.snaps && s'.line.view.gen in s'.db.snaps
    ensures Vis(s'.db.snaps[s'.line.view.gen], s'.line.view.ts) == Vis(s.db.snaps[s.line.view.gen], s.line.view.ts) + fs
  {
    hide CanReach, Reachable;
    QuietStart(s);
    var s1 := SoloAdmit(s, t);
    s' := SoloInsertBody(s, s1, t, fs);
    assert s'.pc == s.pc[t := Idle];
    StaysReachable(s, t, s');
    Commits(s, s', Write({}, fs));
  }

  /** The published state moved by exactly one write. */
  lemma Commits(s: State, s': State, w: Write)
    requires Reachable(s) && AllIdle(s) && Reachable(s') && AllIdle(s')
    requires s'.line.read == s.line.write && s'.db.base == s.db.base && s'.db.t0 == s.db.t0
    requires s'.db.log == s.db.log[s.line.write := w]
    ensures s.line.view.gen in s.db.snaps && s'.line.view.gen in s'.db.snaps && s'.line.view.ts == s.line.write
    ensures Vis(s'.db.snaps[s'.line.view.gen], s'.line.view.ts)
         == Apply(Vis(s.db.snaps[s.line.view.gen], s.line.view.ts), w)
  {
    hide Reachable;
    QuietStart(s);
    QuietStart(s');
    QuietPair(s);
    QuietPair(s');
    SerialFrame(s.db.base, s.db.t0, s.db.log, s'.db.log, s.line.read);
  }

  lemma QuietPair(s: State)
    requires Reachable(s) && AllIdle(s)
    ensures s.line.view.gen in s.db.snaps
    ensures Vis(s.db.snaps[s.line.view.gen], s.line.view.ts) == Serial(s.db.base, s.db.t0, s.db.log, s.line.view.ts)
  {
    hide Reachable;
    PublishedPairMatches(s);
  }

  /** acquire_update_timestamp with nobody inside. */
  lemma SoloOwn(s: State, t: Tid) returns (s': State)
    requires t in s.pc && s.pc[t].Idle? && s.gate == Gate.Word(Gate.Open, 0, 0)
    ensures CanReach(s, t, s') && s' == SetGate(s, t, s.gate.(phase := Gate.InsertsBlocked), ResW(UPDATE))
  {
    hide CanReach;
    Stay(s, t);
    var s1 := To(s, t, Ph(EnterUpdate, None));
    Go(s, t, s, s1);
    var s2 := SoloPhase(s, s1, t, EnterUpdate);
    s' := To(s2, t, ResW(UPDATE));
    Go(s, t, s2, s');
    assert s'.pc == s.pc[t := ResW(UPDATE)];
  }

  /** An update gets its timestamp. */
  lemma SoloTake(s: State, t: Tid) returns (s': State)
    requires t in s.pc && s.pc[t].Idle? && s.gate == Gate.Word(Gate.Open, 0, 0)
    requires s.line.read < s.line.write <= s.line.read + Timeline.WINDOW && s.line.write < MAX_TS
    ensures CanReach(s, t, s') && s'.gate == s.gate.(phase := Gate.InsertsBlocked) && s'.db == s.db
    ensures s'.line == s.line.(write := s.line.write + 1) && s'.pc == s.pc[t := UpHold(s.line.write)]
  {
    hide CanReach;
    var s1 := SoloOwn(s, t);
    s' := SoloReserve(s, s1, t, UPDATE);
    assert s'.pc == s.pc[t := UpHold(s.line.write)];
  }

  lemma SoloAbandon(s0: State, s: State, t: Tid, ts: nat) returns (s': State)
    requires CanReach(s0, t, s) && t in s.pc && s.pc[t] == UpHold(ts)
    ensures CanReach(s0, t, s') && s' == To(s, t, CpMark(Job(UPDATE, ts, false)))
  {
    hide CanReach;
    s' := To(s, t, Abandon(UPDATE, ts));
    GoUpdate(s0, t, s, s');
  }

  /** It completes the timestamp and opens the gate again. */
  lemma SoloFinish(s0: State, s: State, t: Tid, job: Job) returns (s': State)
    requires CanReach(s0, t, s) && t in s.pc && s.pc[t] == CpMark(job) && Clean(s.line) && job.ts == s.line.read + 1
    requires job.role.Owner? && Expected(Reopen(job.role), s.gate.phase)
    ensures CanReach(s0, t, s') && s'.gate == s.gate.(phase := Gate.Open) && s'.db == s.db
    ensures s'.line == s.line.(read := job.ts, view := Timeline.View(job.ts, s.line.igen)) && s'.pc == s.pc[t := Idle]
  {
    hide CanReach, Clean;
    var s1 := SoloComplete(s0, s, t, job);
    s' := SoloPhase(s0, s1, t, Reopen(job.role));
    assert s'.pc == s.pc[t := Idle];
  }

  /** Clone and rewrite. */
  lemma SoloClone(s0: State, s: State, t: Tid, ts: nat, w: Write) returns (s': State, snap: Snap, g: nat)
    requires CanReach(s0, t, s) && t in s.pc && s.pc[t] == UpHold(ts) && s.db.cur in s.db.snaps
    ensures CanReach(s0, t, s') && s' == SetDb(s, t, s.db.(lastGen := g), TpReady(ts, snap, w, g))
  {
    hide CanReach, Rewritten;
    g := s.db.lastGen + 1;
    snap := Rewritten(s.db.snaps[s.db.cur], w, ts);
    var m := To(s, t, TpWork(ts, s.db.snaps[s.db.cur]));
    GoUpdate(s0, t, s, m);
    s' := SetDb(m, t, m.db.(lastGen := g), TpReady(ts, snap, w, g));
    GoUpdate(s0, t, m, s');
    assert s'.pc == s.pc[t := TpReady(ts, snap, w, g)];
  }

  /** Clone, rewrite and log. */
  lemma SoloPrepare(s0: State, s: State, t: Tid, ts: nat, w: Write) returns (s': State, snap: Snap, g: nat)
    requires CanReach(s0, t, s) && t in s.pc && s.pc[t] == UpHold(ts) && s.db.cur in s.db.snaps
    ensures CanReach(s0, t, s')
    ensures s' == SetDb(s, t, s.db.(lastGen := g, log := s.db.log[ts := w], wal := s.db.wal[ts := PersistWrite(w)],
                                  upd := s.db.upd + {ts}),
                        Ph(BlockTp(ts, snap, w, g), None))
  {
    hide CanReach, PersistWrite;
    var m;
    m, snap, g := SoloClone(s0, s, t, ts, w);
    s' := SetDb(m, t, m.db.(log := m.db.log[ts := w], wal := m.db.wal[ts := PersistWrite(w)],
                          upd := m.db.upd + {ts}),
                Ph(BlockTp(ts, snap, w, g), None));
    GoTp(s0, t, m, s');
    assert s'.pc == s.pc[t := Ph(BlockTp(ts, snap, w, g), None)];
  }

  /** Clone, rewrite, log, block readers and publish. */
  lemma SoloPublish(s0: State, s: State, t: Tid, ts: nat, w: Write) returns (s': State)
    requires CanReach(s0, t, s) && t in s.pc && s.pc[t] == UpHold(ts) && s.gate.phase == Gate.InsertsBlocked
    requires s.db.cur in s.db.snaps
    ensures CanReach(s0, t, s') && s'.pc == s.pc[t := CpMark(Job(PUBLISH, ts, true))]
    ensures s'.gate == s.gate.(phase := Gate.AllBlocked) && s'.line == s.line.(igen := s'.line.igen)
    ensures s'.db.base == s.db.base && s'.db.t0 == s.db.t0 && s'.db.log == s.db.log[ts := w]
    ensures s'.db.wal == s.db.wal[ts := PersistWrite(w)] && s'.db.upd == s.db.upd + {ts} && s'.db.ckpt == s.db.ckpt
  {
    hide CanReach, PersistWrite;
    var s1, snap, g := SoloPrepare(s0, s, t, ts, w);
    var s2 := SoloPhase(s0, s1, t, BlockTp(ts, snap, w, g));
    var s3 := SetDb(s2, t, s2.db.(snaps := s2.db.snaps[g := snap], cur := g,
                                  installs := s2.db.installs[ts := g], inst := ts), UpGen(PUBLISH, ts, g));
    GoTp(s0, t, s2, s3);
    s' := SetLine(s3, t, s3.line.(igen := g), CpMark(Job(PUBLISH, ts, true)));
    GoTp(s0, t, s3, s');
    assert s'.pc == s.pc[t := CpMark(Job(PUBLISH, ts, true))];
  }

  /** A copy-on-write update that runs alone commits, and its write is visible when it returns. */
  lemma UpdateGetsThrough(s: State, t: Tid, w: Write) returns (s': State)
    requires Reachable(s) && AllIdle(s) && t in s.pc && s.line.write < MAX_TS
    ensures CanReach(s, t, s') && AllIdle(s') && s'.line.view.ts == s.line.write
    ensures s.line.view.gen in s.db.snaps && s'.line.view.gen in s'.db.snaps
    ensures Vis(s'.db.snaps[s'.line.view.gen], s'.line.view.ts)
         == Apply(Vis(s.db.snaps[s.line.view.gen], s.line.view.ts), w)
    ensures s'.db.wal == s.db.wal[s.line.write := PersistWrite(w)] && s'.db.upd == s.db.upd + {s.line.write}
    ensures s'.db.ckpt == s.db.ckpt && s'.pc.Keys == s.pc.Keys
  {
    hide CanReach, Reachable, PersistWrite;
    QuietStart(s);
    var s1 := SoloTake(s, t);
    var s2 := SoloPublish(s, s1, t, s.line.write, w);
    s' := SoloFinish(s, s2, t, Job(PUBLISH, s.line.write, true));
    assert s'.pc == s.pc[t := Idle];
    StaysReachable(s, t, s');
    Commits(s, s', w);
  }

  /** An update that is given up uses its timestamp and leaves everything else as it was. */
  lemma AbortGetsThrough(s: State, t: Tid) returns (s': State)
    requires Reachable(s) && AllIdle(s) && t in s.pc && s.line.write < MAX_TS
    ensures CanReach(s, t, s') && AllIdle(s') && s'.pc.Keys == s.pc.Keys
    ensures s'.line.write == s.line.write + 1 && s'.line.view.ts == s.line.write && s'.db == s.db
  {
    hide CanReach, Reachable;
    QuietStart(s);
    var s1 := SoloTake(s, t);
    var s2 := SoloAbandon(s, s1, t, s.line.write);
    s' := SoloFinish(s, s2, t, Job(UPDATE, s.line.write, false));
    assert s'.pc == s.pc[t := Idle];
  }

  /** A reader that runs alone gets its lease at the first attempt, on the newest state. */
  lemma ReadGetsThrough(s: State, t: Tid) returns (s': State)
    requires Reachable(s) && AllIdle(s) && t in s.pc
    ensures CanReach(s, t, s') && s'.pc == s.pc[t := RdLease(s.line.view.ts, s.line.view.gen)] && s'.db == s.db
    ensures s.line.view.gen in s.db.snaps && s.line.write >= 1
    ensures Vis(s.db.snaps[s.line.view.gen], s.line.view.ts) == Serial(s.db.base, s.db.t0, s.db.log, s.line.write - 1)
  {
    hide CanReach, Reachable;
    QuietStart(s);
    QuietPair(s);
    Stay(s, t);
    var s1 := To(s, t, RdLoad);
    Go(s, t, s, s1);
    var s2 := To(s1, t, RdAdd);
    Go(s, t, s1, s2);
    var s3 := SetGate(s2, t, s2.gate.(readers := s2.gate.readers + 1), RdIn);
    Go(s, t, s2, s3);
    var s4 := To(s3, t, RdPin(s.line.view));
    Go(s, t, s3, s4);
    var s5 := To(s4, t, RdCheck(s.line.view, s.db.cur));
    Go(s, t, s4, s5);
    s' := To(s5, t, RdLease(s.line.view.ts, s.line.view.gen));
    Go(s, t, s5, s');
    assert s'.pc == s.pc[t := RdLease(s.line.view.ts, s.line.view.gen)];
  }

  /** A database can always be opened, with any persistent contents and any threads. */
  lemma OpenGetsThrough(pc: map<Tid, Pc>, facts: set<Fact>)
    requires Persist(facts) == facts
    ensures var s := Opened(pc, facts, 0, map[], {}, Ckpt(facts, 0)); Reachable(s) && AllIdle(s) && s.pc.Keys == pc.Keys
  {
    var s := Opened(pc, facts, 0, map[], {}, Ckpt(facts, 0));
    var run := [s];
    assert IsRun(run) && s == run[|run| - 1];
  }
}
