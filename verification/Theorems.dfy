/**
  What the protocol guarantees, stated about reachable states and about the steps
  and runs between them. A state is reachable when some interleaving of any number
  of threads, with any number of crashes and restarts, leads to it.
 */
module Theorems {
  import opened Common
  import Gate
  import Timeline
  import TimelineProof
  import opened Store
  import opened Protocol
  import opened ProtocolInv
  import opened ProtocolData
  import opened ProtocolCommits
  import opened ProtocolRefines
  import opened ProtocolFacts
  import opened ProtocolSafety
  import opened History

  ghost predicate Reachable(s: State) {
    exists run :: IsRun(run) && s == run[|run| - 1]
  }

  lemma ReachableInv(s: State)
    requires Reachable(s)
    ensures Inv(s)
  {
    var run :| IsRun(run) && s == run[|run| - 1];
    RunInv(run, |run| - 1);
  }

  lemma ReachableLine(s: State)
    requires Reachable(s)
    ensures Timeline.Inv(s.line, LRoles(s.pc))
  {
    ReachableInv(s);
  }

  lemma ReachableLocal(s: State, t: Tid)
    requires Reachable(s) && t in s.pc
    ensures Local(s.line, s.db, s.pc[t])
  {
    ReachableInv(s);
  }

  lemma ReachableNormal(s: State, t: Tid)
    requires Reachable(s) && t in s.pc && !Outsider(s.pc[t]) && !Timeline.Resetting(LRole(s.pc[t]))
    ensures Timeline.Normal(s.line, LRoles(s.pc))
  {
    ReachableInv(s);
    NormalFor(s, t);
  }

  lemma ReachableNext(s: State, s': State)
    requires Reachable(s) && Next(s, s')
    ensures Reachable(s')
  {
    var run :| IsRun(run) && s == run[|run| - 1];
    var run' := run + [s'];
    assert forall i :: 0 <= i < |run'| - 1 ==> Next(run'[i], run'[i + 1]);
    assert IsRun(run') && s' == run'[|run'| - 1];
  }

  // ---- admission ---------------------------------------------------------------------------------

  ghost function Threads(s: State, f: Gate.Field): set<Tid> {
    set t | t in s.pc && Gate.FieldOf(GRole(s.pc[t])) == f
  }

  /** The gate word is exactly the sum of the admissions in progress, in every interleaving. */
  lemma AdmissionsAreConserved(s: State)
    requires Reachable(s)
    ensures s.gate.readers == |Threads(s, Gate.ReaderField)|
    ensures s.gate.inserters == |Threads(s, Gate.InserterField)|
    ensures |Threads(s, Gate.PhaseField)| == if s.gate.phase == Gate.Open then 0 else 1
  {
    hide Reachable, DbInv, Timeline.Inv;
    ReachableInv(s);
    var rs := GRoles(s.pc);
    assert Threads(s, Gate.ReaderField) == Gate.Members(rs, Gate.ReaderField);
    assert Threads(s, Gate.InserterField) == Gate.Members(rs, Gate.InserterField);
    assert Threads(s, Gate.PhaseField) == Gate.Members(rs, Gate.PhaseField);
  }

  lemma OwnerExcludes(s: State, t: Tid, u: Tid)
    requires Reachable(s) && t in s.pc && u in s.pc && t != u && GRole(s.pc[t]).Owner?
    ensures !GRole(s.pc[u]).Owner? && (IsExclusive(s.pc[t]) ==> !GRole(s.pc[u]).Reader?)
  {
    ReachableInv(s);
    OwnerFromRoles(s, t);
  }

  lemma OwnerIsAloneInTimeline(s: State, t: Tid, u: Tid)
    requires Reachable(s) && t in s.pc && u in s.pc && t != u && DrainedOwner(s.pc[t])
    ensures !GRole(s.pc[u]).Inserter? && Timeline.Passive(LRole(s.pc[u]))
  {
    ReachableInv(s);
    OwnerIsAlone(s, t);
    assert LRoles(s.pc)[u] == LRole(s.pc[u]);
  }

  /** Nobody works beside an exclusive owner, and nobody inserts beside an update. */
  lemma OwnersExclude(s: State, t: Tid, u: Tid)
    requires Reachable(s) && t in s.pc && u in s.pc && t != u && GRole(s.pc[t]).Owner?
    ensures !GRole(s.pc[u]).Owner?
    ensures DrainedOwner(s.pc[t]) ==> !GRole(s.pc[u]).Inserter? && Timeline.Passive(LRole(s.pc[u]))
    ensures IsExclusive(s.pc[t]) ==> !GRole(s.pc[u]).Reader?
  {
    OwnerExcludes(s, t, u);
    if DrainedOwner(s.pc[t]) { OwnerIsAloneInTimeline(s, t, u); }
  }

  lemma LocalNotBroken(line: Timeline.Line, db: Db, p: Pc)
    requires Local(line, db, p)
    ensures !p.PhThrow? && !p.ResBroken? && (p.ResFull? ==> GRole(p).Inserter?)
  {
  }

  /** The exceptions "phase transition failed" and "timestamp invariant broken" never happen. */
  lemma NoBrokenState(s: State, t: Tid)
    requires Reachable(s) && t in s.pc
    ensures !s.pc[t].PhThrow? && !s.pc[t].ResBroken?
    ensures s.pc[t].ResFull? ==> GRole(s.pc[t]).Inserter?
  {
    ReachableLocal(s, t);
    LocalNotBroken(s.line, s.db, s.pc[t]);
  }

  // ---- timestamps ----------------------------------------------------------------------------------

  /** Two threads never own one timestamp, and an owned timestamp is unfinished. */
  lemma TimestampsAreUnique(s: State, t: Tid, u: Tid)
    requires Reachable(s) && t in s.pc && u in s.pc && t != u && LRole(s.pc[t]).Pending?
    ensures LRole(s.pc[u]) != LRole(s.pc[t])
    ensures s.line.read < LRole(s.pc[t]).ts < s.line.write
  {
    ReachableLine(s);
    var rs := LRoles(s.pc);
    assert rs[t] == LRole(s.pc[t]) && rs[u] == LRole(s.pc[u]);
    NobodyPendingInReset(s.line, rs, t);
    assert Timeline.Local(s.line, rs[t]);
  }

  lemma NobodyPendingInReset(line: Timeline.Line, rs: Timeline.Roles, t: Tid)
    requires Timeline.Inv(line, rs) && t in rs && rs[t].Pending?
    ensures !Timeline.InReset(rs)
  {
  }

  /** A reserved timestamp is above every timestamp this timeline has handed out. */
  lemma ReservationIsNew(s: State, t: Tid, s': State, u: Tid)
    requires Reachable(s) && Step(s, t, s') && u in s.pc
    requires s.pc[t].ResCas? && LRole(s'.pc[t]).Pending?
    ensures LRole(s'.pc[t]) == Timeline.Pending(s.line.write) && s'.line.write == s.line.write + 1
    ensures LRole(s.pc[u]).Pending? ==> LRole(s.pc[u]).ts < s.line.write
    ensures s.line.read < s.line.write && forall x :: x in s.db.log ==> x < s.line.write
    ensures forall i :: 0 <= i < |s.line.ring| ==> s.line.ring[i] < s.line.write
  {
    hide Reachable, Timeline.Normal;
    ReserverRole(s, t);
    ReachableNormal(s, t);
    AllBelowWrite(s.line, LRoles(s.pc), u);
    LogBelowWrite(s);
  }

  lemma ReserverRole(s: State, t: Tid)
    requires Reachable(s) && t in s.pc && s.pc[t].ResCas?
    ensures !Outsider(s.pc[t])
  {
    ReachableLocal(s, t);
  }

  lemma LogBelowWrite(s: State)
    requires Reachable(s)
    ensures forall x :: x in s.db.log ==> x < s.line.write
  {
    ReachableInv(s);
  }

  lemma AllBelowWrite(line: Timeline.Line, rs: Timeline.Roles, u: Tid)
    requires Timeline.Normal(line, rs) && u in rs
    ensures rs[u].Pending? ==> rs[u].ts < line.write
    ensures line.read < line.write
    ensures forall i :: 0 <= i < |line.ring| ==> line.ring[i] < line.write
  {
    assert Timeline.Local(line, rs[u]);
    forall i | 0 <= i < |line.ring| ensures line.ring[i] < line.write {
      assert line.ring[i] != 0 ==> line.ring[i] < line.write;
    }
  }

  /** Completing a timestamp never overwrites another completion in the ring. */
  lemma CompletionHitsFreeSlot(s: State, t: Tid)
    requires Reachable(s) && t in s.pc && s.pc[t].CpMark?
    ensures |s.line.ring| == Timeline.WINDOW
    ensures s.line.ring[Timeline.TsIndex(s.pc[t].job.ts)] == 0
  {
    hide Reachable;
    ReachableLine(s);
    NobodyPendingInReset(s.line, LRoles(s.pc), t);
    TimelineProof.MarkHitsEmptySlot(s.line, LRoles(s.pc), t);
  }

  ghost predicate Unfinished(s: State, x: nat) {
    exists t :: t in s.pc && LRole(s.pc[t]) == Timeline.Pending(x)
  }

  ghost predicate NobodyCompletes(s: State) {
    forall t :: t in s.pc ==>
      !TimelineProof.Completing(LRole(s.pc[t])) && !Timeline.Resetting(LRole(s.pc[t]))
  }

  /** No advance is lost: between completions the published frontier is as far as it can be. */
  lemma FrontierIsMaximal(s: State)
    requires Reachable(s) && NobodyCompletes(s)
    ensures s.line.view.ts == s.line.read
    ensures s.line.read + 1 == s.line.write || Unfinished(s, s.line.read + 1)
  {
    ReachableLine(s);
    var rs := LRoles(s.pc);
    assert !Timeline.InReset(rs);
    TimelineProof.FrontierIsTight(s.line, rs);
    if Timeline.Held(rs, s.line.read + 1) {
      var t :| t in rs && rs[t] == Timeline.Pending(s.line.read + 1);
      assert t in s.pc && LRole(s.pc[t]) == Timeline.Pending(s.line.read + 1);
    }
  }

  lemma UnfinishedAboveFrontier(s: State, x: nat)
    requires Reachable(s) && Unfinished(s, x)
    ensures s.line.read < x < s.line.write
  {
    ReachableLine(s);
    var t :| t in s.pc && LRole(s.pc[t]) == Timeline.Pending(x);
    var rs := LRoles(s.pc);
    NobodyPendingInReset(s.line, rs, t);
    assert Timeline.Local(s.line, rs[t]);
  }

  // ---- reads -----------------------------------------------------------------------------------------

  /** A lease shows exactly the serial execution of the writes up to its timestamp. */
  lemma LeaseShowsSerialState(s: State, t: Tid)
    requires Reachable(s) && t in s.pc && s.pc[t].RdLease?
    ensures s.pc[t].g in s.db.snaps && s.pc[t].ts <= s.line.read
    ensures Vis(s.db.snaps[s.pc[t].g], s.pc[t].ts) == Serial(s.db.base, s.db.t0, s.db.log, s.pc[t].ts)
    ensures s.pc[t].g == GenAt(s.db.gen0, s.db.t0, s.db.installs, s.pc[t].ts)
  {
    ReachableLocal(s, t);
  }

  lemma CheckpointExcludesReaders(s: State, t: Tid, u: Tid)
    requires Reachable(s) && t in s.pc && u in s.pc && s.pc[t].ApHold?
    ensures !GRole(s.pc[u]).Reader?
  {
    if u != t { OwnerExcludes(s, t, u); }
  }

  lemma PendingAboveFrontier(s: State, t: Tid)
    requires Reachable(s) && t in s.pc && LRole(s.pc[t]).Pending?
    ensures s.line.read < LRole(s.pc[t]).ts
  {
    UnfinishedAboveFrontier(s, LRole(s.pc[t]).ts);
  }

  /** One step of anybody else does not change what a lease shows. */
  lemma LeaseStep(s: State, s': State, u: Tid, ts: nat, g: nat)
    requires Reachable(s) && Next(s, s') && u in s.pc && u in s'.pc
    requires s.pc[u] == s'.pc[u] == RdLease(ts, g)
    ensures g in s.db.snaps && g in s'.db.snaps
    ensures Vis(s'.db.snaps[g], ts) == Vis(s.db.snaps[g], ts)
  {
    hide StepOf, FamilyOf, Reachable, Local, LogGrows;
    ReachableNext(s, s');
    LeaseShowsSerialState(s, u);
    LeaseShowsSerialState(s', u);
    var t :| Step(s, t, s');
    StepIsLocal(s, t, s');
    if StartsTimeline(s.pc[t], s'.pc[t]) {
      CheckpointExcludesReaders(s, t, u);
    } else {
      ReachableLocal(s, t);
      CommitsStay(s, t, s');
      if LRole(s.pc[t]).Pending? { PendingAboveFrontier(s, t); }
      SerialStays(s.db, s.pc[t], s'.db, ts);
    }
  }

  lemma StepIsLocal(s: State, t: Tid, s': State)
    requires Reachable(s) && Step(s, t, s')
    ensures t in s'.pc && s'.pc == s.pc[t := s'.pc[t]]
  {
    hide StepOf, FamilyOf, Reachable, Local, Gate.Event, RoleOk;
    ReachableLocal(s, t);
    LocalGivesRole(s.line, s.db, s.pc[t]);
    StepGate(s, t, s');
  }

  /** A read lease shows one unchanging state for as long as it is held, in every run. */
  lemma {:induction false} LeaseIsStable(run: seq<State>, i: nat, j: nat, u: Tid, ts: nat, g: nat)
    requires IsRun(run) && i <= j < |run|
    requires forall k :: i <= k <= j ==> u in run[k].pc && run[k].pc[u] == RdLease(ts, g)
    ensures g in run[i].db.snaps && g in run[j].db.snaps
    ensures Vis(run[j].db.snaps[g], ts) == Vis(run[i].db.snaps[g], ts)
    decreases j
  {
    hide Reachable, Next;
    PrefixReachable(run, i);
    LeaseShowsSerialState(run[i], u);
    if i < j {
      LeaseIsStable(run, i, j - 1, u, ts, g);
      PrefixReachable(run, j - 1);
      LeaseStep(run[j - 1], run[j], u, ts, g);
    }
  }

  lemma PrefixReachable(run: seq<State>, i: nat)
    requires IsRun(run) && i < |run|
    ensures Reachable(run[i])
  {
    var pre := run[..i + 1];
    assert IsRun(pre) && run[i] == pre[|pre| - 1];
  }

  /** Outside an exclusive operation, the published pair names a snapshot and a matching timestamp. */
  lemma PublishedPairMatches(s: State)
    requires Reachable(s) && !AnyExclusive(s.pc)
    ensures s.line.view.gen in s.db.snaps
    ensures Vis(s.db.snaps[s.line.view.gen], s.line.view.ts)
         == Serial(s.db.base, s.db.t0, s.db.log, s.line.view.ts)
    ensures s.line.view.gen == GenAt(s.db.gen0, s.db.t0, s.db.installs, s.line.view.ts)
  {
    ReachableInv(s);
    ViewShows(s.line, s.db, s.pc);
  }

  /** Within one timeline, what is published never goes back. */
  lemma ViewIsMonotone(s: State, t: Tid, s': State)
    requires Reachable(s) && Step(s, t, s') && !s.pc[t].RsView? && !s.pc[t].RsRead?
    ensures s.line.view.ts <= s'.line.view.ts && s.line.read <= s'.line.read
  {
    hide StepOf, FamilyOf, Reachable;
    ViewWriters(s, t, s');
    if s.pc[t].CpPub? || s.pc[t].CpStore? { AdvancerBounds(s, t); }
  }

  lemma AdvancerBounds(s: State, t: Tid)
    requires Reachable(s) && t in s.pc && (s.pc[t].CpPub? || s.pc[t].CpStore?)
    ensures s.pc[t].CpPub? ==> s.pc[t].cur == s.line.read >= s.line.view.ts
    ensures s.pc[t].CpStore? ==> s.pc[t].nxt == s.line.read + 1
  {
    ReachableLocal(s, t);
    ReachableNormal(s, t);
    assert Timeline.Local(s.line, LRoles(s.pc)[t]);
  }

  // ---- updates ---------------------------------------------------------------------------------------

  lemma ReachableOwning(s: State, t: Tid)
    requires Reachable(s) && t in s.pc && DrainedOwner(s.pc[t]) && !Installed(s.pc[t])
    requires !Timeline.Resetting(LRole(s.pc[t])) && !TimelineProof.Completing(LRole(s.pc[t]))
    ensures Tight(s, t) && s.db.inst <= s.line.read
  {
    ReachableInv(s);
    OwningFor(s, t);
  }

  lemma TightView(s: State)
    requires Reachable(s) && s.db.inst <= s.line.read && s.line.view.ts == s.line.read
    ensures s.line.view.gen == s.db.cur && Shows(s.db, s.line.view.ts, s.db.cur)
  {
    ReachableInv(s);
    TightShows(s.line, s.db, s.pc);
  }

  /** Before the gate reopens after an update, everything handed out is finished and published. */
  lemma PublishedBeforeReopen(s: State, t: Tid)
    requires Reachable(s) && t in s.pc && s.pc[t].Ph? && s.pc[t].site.Reopen? && DrainedOwner(s.pc[t])
    ensures s.line.write >= 1
    ensures s.line.view == Timeline.View(s.line.write - 1, s.db.cur)
    ensures s.db.cur in s.db.snaps
    ensures Vis(s.db.snaps[s.db.cur], s.line.view.ts)
         == Serial(s.db.base, s.db.t0, s.db.log, s.line.write - 1)
  {
    ReachableOwning(s, t);
    TightView(s);
  }

  /** Program points that own a timestamp and have not committed under it. */
  predicate Uncommitted(p: Pc) {
    p.InHold? || p.InWork? || p.UpHold? || p.TpWork? || p.TpReady? || p.ApDrain? || p.ApHold? || p.ApWork? || p.CmHold?
  }

  /** Before its commit a transaction has left no trace, in memory or on disk. */
  lemma UncommittedLeavesNoTrace(s: State, t: Tid)
    requires Reachable(s) && t in s.pc && Uncommitted(s.pc[t])
    ensures LRole(s.pc[t]).Pending?
    ensures var ts := LRole(s.pc[t]).ts;
      && ts !in s.db.log && ts !in s.db.wal && ts != s.db.ckpt.ts
      && s.db.cur in s.db.snaps && forall i :: i in s.db.snaps[s.db.cur] ==> i.ts != ts
  {
    ReachableLocal(s, t);
    UnfinishedAboveFrontier(s, LRole(s.pc[t]).ts);
    NothingAbove(s, t);
    UnloggedHasNoTrace(s, LRole(s.pc[t]).ts);
  }

  lemma NothingAbove(s: State, t: Tid)
    requires Reachable(s) && t in s.pc && Uncommitted(s.pc[t])
    ensures s.db.inst <= s.line.read
  {
    UncommittedRole(s.pc[t]);
    ReachableInstalled(s, t);
  }

  lemma UncommittedRole(p: Pc)
    requires Uncommitted(p)
    ensures (GRole(p).Inserter? || GRole(p).Owner?) && !Installed(p)
  {
  }

  lemma ReachableInstalled(s: State, t: Tid)
    requires Reachable(s) && t in s.pc && (GRole(s.pc[t]).Inserter? || GRole(s.pc[t]).Owner?)
    ensures s.db.inst > s.line.read ==> Installed(s.pc[t])
  {
    ReachableInv(s);
    if s.db.inst > s.line.read { InstalledIsMine(s, t); }
  }

  lemma UnloggedHasNoTrace(s: State, ts: nat)
    requires Reachable(s) && ts > s.line.read && ts !in s.db.log && ts > s.db.ckpt.ts && s.db.inst <= s.line.read
    ensures ts !in s.db.wal
    ensures s.db.cur in s.db.snaps && forall i :: i in s.db.snaps[s.db.cur] ==> i.ts != ts
  {
    ReachableInv(s);
  }

  // ---- quiescence ------------------------------------------------------------------------------------

  /**
    When every thread has returned, by success, failure, deadline or abort, nothing is
    left behind: the gate is open and empty, no timestamp is unfinished, the ring is
    clean, and the published snapshot is the serial execution of every commit.
   */
  lemma QuiescentIsClean(s: State)
    requires Reachable(s) && forall t :: t in s.pc ==> s.pc[t].Idle?
    ensures s.gate == Gate.Word(Gate.Open, 0, 0)
    ensures s.line.write == s.line.read + 1 && s.line.lock == None
    ensures forall i :: 0 <= i < |s.line.ring| ==> s.line.ring[i] == 0
    ensures s.line.view == Timeline.View(s.line.read, s.db.cur)
    ensures s.db.cur in s.db.snaps
    ensures All(s.db.snaps[s.db.cur]) == Serial(s.db.base, s.db.t0, s.db.log, s.line.read)
  {
    QuiescentGate(s);
    QuiescentLine(s);
    QuiescentStore(s);
  }

  lemma QuiescentGate(s: State)
    requires Reachable(s) && forall t :: t in s.pc ==> s.pc[t].Idle?
    ensures s.gate == Gate.Word(Gate.Open, 0, 0)
  {
    AdmissionsAreConserved(s);
    assert Threads(s, Gate.ReaderField) == {};
    assert Threads(s, Gate.InserterField) == {};
    assert Threads(s, Gate.PhaseField) == {};
  }

  lemma QuiescentLine(s: State)
    requires Reachable(s) && forall t :: t in s.pc ==> s.pc[t].Idle?
    ensures s.line.write == s.line.read + 1 && s.line.lock == None && s.line.view.ts == s.line.read
    ensures forall i :: 0 <= i < |s.line.ring| ==> s.line.ring[i] == 0
  {
    FrontierIsMaximal(s);
    ReachableLine(s);
    assert !Unfinished(s, s.line.read + 1);
  }

  lemma QuiescentStore(s: State)
    requires Reachable(s) && s.line.write == s.line.read + 1 && s.line.view.ts == s.line.read
    requires forall t :: t in s.pc ==> s.pc[t].Idle?
    ensures s.line.view.gen == s.db.cur && s.db.cur in s.db.snaps
    ensures All(s.db.snaps[s.db.cur]) == Serial(s.db.base, s.db.t0, s.db.log, s.line.read)
  {
    ReachableInv(s);
    assert !AnyInstalled(s.pc);
    assert Vis(s.db.snaps[s.db.cur], s.line.read) == All(s.db.snaps[s.db.cur]);
  }

  // ---- manual checkpoint --------------------------------------------------------------------------------

  /** The last store of a timeline reset leaves a fresh timeline over the checkpointed facts. */
  lemma ResetStartsFresh(s: State, t: Tid, s': State)
    requires Reachable(s) && Step(s, t, s') && s.pc[t].RsView?
    ensures s'.line.write == 1 && s'.line.read == 0 && s'.line.view == Timeline.View(0, s'.db.cur)
    ensures forall i :: 0 <= i < |s'.line.ring| ==> s'.line.ring[i] == 0
    ensures s'.db.ckpt == Ckpt(s'.db.base, 0) && s'.db.wal == map[]
    ensures s'.db.cur in s'.db.snaps && All(s'.db.snaps[s'.db.cur]) == s'.db.base == Persist(s'.db.base)
  {
    ReachableLocal(s, t);
    ResetIsDone(s, t);
    VisStamped(s.db.base, 0, 0);
    assert Vis(Stamped(s.db.base, 0), 0) == All(Stamped(s.db.base, 0));
  }

  lemma ResetIsDone(s: State, t: Tid)
    requires Reachable(s) && t in s.pc && s.pc[t].RsView?
    ensures s.line.write == 1 && s.line.read == 0 && Timeline.ZeroUpTo(s.line.ring, |s.line.ring|)
  {
    hide Reachable;
    ReachableLine(s);
    var rs := LRoles(s.pc);
    assert t in rs && Timeline.Resetting(rs[t]);
    var r :| Timeline.ResetMode(s.line, rs, r);
    assert r == t;
  }

  /** A manual checkpoint keeps every persistent fact of every commit and nothing temporary. */
  lemma CheckpointKeepsFacts(s: State, t: Tid, s': State)
    requires Reachable(s) && Step(s, t, s') && StartsTimeline(s.pc[t], s'.pc[t])
    ensures s.line.write >= 1
    ensures s'.db.ckpt.facts == Persist(Serial(s.db.base, s.db.t0, s.db.log, s.line.write - 1))
    ensures s'.db.wal == map[] && s'.db.base == s'.db.ckpt.facts
  {
    ReachableOwning(s, t);
    HeldSnapshotIsSerial(s, t);
  }

  lemma HeldSnapshotIsSerial(s: State, t: Tid)
    requires Reachable(s) && t in s.pc && s.pc[t].ApHold?
    requires Tight(s, t) && s.db.inst <= s.line.read
    ensures s.db.cur in s.db.snaps && s.line.write >= 1
    ensures All(s.db.snaps[s.db.cur]) == Serial(s.db.base, s.db.t0, s.db.log, s.line.write - 1)
  {
    ReachableLocal(s, t);
    FreshSnapshotIsSerial(s, s.pc[t].ts);
  }

  lemma FreshSnapshotIsSerial(s: State, ts: nat)
    requires Reachable(s) && Fresh(s.line, s.db, ts) && s.line.read + 1 == ts && s.db.inst <= s.line.read
    ensures s.db.cur in s.db.snaps
    ensures All(s.db.snaps[s.db.cur]) == Serial(s.db.base, s.db.t0, s.db.log, ts)
  {
    ReachableInv(s);
    NothingAboveFresh(s.line, s.db, ts);
  }

  lemma NothingAboveFresh(line: Timeline.Line, db: Db, ts: nat)
    requires Basic(line, db) && Current(line, db) && Fresh(line, db, ts)
    requires line.read + 1 == ts && db.inst <= line.read
    ensures All(db.snaps[db.cur]) == Serial(db.base, db.t0, db.log, ts)
  {
    FreshIsNewest(line, db, ts);
    VisAll(db.snaps[db.cur], line.read);
  }

  // ---- crashes -------------------------------------------------------------------------------------------

  lemma DurableIsReserved(s: State, n: nat)
    requires Inv(s) && LastDurable(s.db, n)
    ensures Max(n, Mark(s.db)) <= s.line.write - 1
  {
    if n > Mark(s.db) { assert n in s.db.log; }
    if s.line.write <= Mark(s.db) {
      assert s.db.t0 >= s.line.write;
      WriteAboveStart(s);
    }
  }

  lemma WriteAboveStart(s: State)
    requires Inv(s)
    ensures s.db.t0 < s.line.write
  {
    hide Gate.Inv, Basic, Current, Completed, Published, WalOk, Local, LRoles, Timeline.InReset;
    hide Timeline.ResetMode, Timeline.Normal;
    var rs := LRoles(s.pc);
    if Timeline.InReset(rs) {
      var r :| Timeline.ResetMode(s.line, rs, r);
      ResetStart(s, r);
    } else {
      NormalStart(s.line, s.db, rs);
    }
  }

  lemma ResetStart(s: State, r: Tid)
    requires Timeline.ResetMode(s.line, LRoles(s.pc), r) && Locals(s.line, s.db, s.pc)
    ensures s.db.t0 < s.line.write
  {
    hide Timeline.NobodyElse, Timeline.LockOk, Timeline.ZeroUpTo, Shows, InsertPartly, JobOk, SiteOk, Fresh, Committed;
    assert Local(s.line, s.db, s.pc[r]);
  }

  lemma NormalStart(line: Timeline.Line, db: Db, rs: Timeline.Roles)
    requires Timeline.Normal(line, rs) && Basic(line, db)
    ensures db.t0 < line.write
  {
    hide Timeline.LockOk, Timeline.RingOk, Timeline.LocalOk, Timeline.Distinct, Timeline.Cover;
    hide Timeline.NoLostAdvance, Timeline.ViewOk;
  }

  /**
    After a crash at any moment, recovery publishes exactly the persistent part of the
    serial execution of all committed writes: no commit is lost, none is invented.
   */
  lemma CrashKeepsCommits(s: State, s': State)
    requires Reachable(s) && Crash(s, s')
    ensures s.line.write >= 1 && s'.line.view.gen in s'.db.snaps
    ensures Vis(s'.db.snaps[s'.line.view.gen], s'.line.view.ts)
         == Persist(Serial(s.db.base, s.db.t0, s.db.log, s.line.write - 1))
    ensures forall t :: t in s'.pc ==> s'.pc[t].Idle?
  {
    ReachableInv(s);
    var n: nat :| LastDurable(s.db, n) && n < MAX_TS && Readable(s.db, n)
      && s' == Opened(s.pc, Recovered(s.db, n), n, s.db.wal, s.db.upd, s.db.ckpt);
    DurableIsReserved(s, n);
    RecoveredIsSerial(s.line, s.db, n);
    VisStamped(Recovered(s.db, n), 0, n);
  }

  /** What recovery rebuilds extends, write by write, whatever any reader had been shown. */
  lemma CrashExtendsReads(s: State, t: Tid, s': State)
    requires Reachable(s) && Crash(s, s') && t in s.pc && s.pc[t].RdLease?
    ensures s.line.write >= 1 && s.pc[t].g in s.db.snaps && s'.line.view.gen in s'.db.snaps
    ensures Vis(s'.db.snaps[s'.line.view.gen], s'.line.view.ts)
         == Persist(Serial(Vis(s.db.snaps[s.pc[t].g], s.pc[t].ts), s.pc[t].ts, s.db.log, s.line.write - 1))
  {
    hide Reachable, Crash;
    CrashKeepsCommits(s, s');
    LeaseShowsSerialState(s, t);
    ReachableNormal(s, t);
    LeaseAboveStart(s, t);
    SerialRebase(s.db.base, s.db.t0, s.db.log, s.pc[t].ts, s.line.write - 1);
  }

  lemma LeaseAboveStart(s: State, t: Tid)
    requires Reachable(s) && t in s.pc && s.pc[t].RdLease?
    ensures s.db.t0 <= s.pc[t].ts
  {
    ReachableLocal(s, t);
  }
}
