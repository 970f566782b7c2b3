/** The invariant holds in every state of every run. */
module ProtocolSafety {
  import opened Common
  import Gate
  import Timeline
  import TimelineProof
  import opened Store
  import opened Protocol
  import opened ProtocolInv
  import opened ProtocolData
  import opened ProtocolCommits
  import opened ProtocolRefines
  import opened ProtocolFacts
  import opened ProtocolSteps
  import opened ProtocolOwners

  lemma OwningFor(s: State, t: Tid)
    requires Inv(s) && t in s.pc && DrainedOwner(s.pc[t]) && !Installed(s.pc[t])
    requires !Timeline.Resetting(LRole(s.pc[t])) && !TimelineProof.Completing(LRole(s.pc[t]))
    ensures Owning(s, t)
  {
    AdmittedKnows(s, t);
    OwnerKnows(s, t);
    TightKnows(s, t);
  }

  /** Program points at which an owner holds its timestamp and has not installed anything. */
  predicate HoldsFresh(p: Pc) {
    p.TpWork? || p.TpReady? || p.TpPublish? || p.ApDrain? || p.ApHold? || p.ApWork? || p.ApReplace?
    || p.CmHold? || p.CmApply?
  }

  lemma HoldsFreshRole(p: Pc)
    requires HoldsFresh(p)
    ensures DrainedOwner(p) && !Installed(p)
    ensures !Timeline.Resetting(LRole(p)) && !TimelineProof.Completing(LRole(p))
  {
  }

  lemma InsertRole(p: Pc)
    requires p.InWork? || p.InApply?
    ensures GRole(p).Inserter? && !Installed(p) && !Timeline.Resetting(LRole(p))
  {
  }

  lemma OwningAt(s: State, t: Tid)
    requires Inv(s) && t in s.pc && HoldsFresh(s.pc[t])
    ensures Owning(s, t)
  {
    HoldsFreshRole(s.pc[t]);
    OwningFor(s, t);
  }

  lemma InsertingFor(s: State, t: Tid)
    requires Inv(s) && t in s.pc && (s.pc[t].InWork? || s.pc[t].InApply?)
    ensures Inserting(s, t)
  {
    InsertRole(s.pc[t]);
    AdmittedKnows(s, t);
    InsertingKnows(s, t);
  }

  lemma ReservingRole(line: Timeline.Line, db: Db, p: Pc)
    requires Local(line, db, p) && FamilyOf(p).FReserve?
    ensures ReserveRole(GRole(p)) && !Timeline.Resetting(LRole(p)) && !TimelineProof.Completing(LRole(p))
  {
  }

  lemma ReserveKeepsDb(s: State, t: Tid, s': State)
    requires Inv(s) && t in s.pc && FamilyOf(s.pc[t]).FReserve? && ReserveStep(s, t, s.pc[t], s')
    ensures DbOk(s')
  {
    assert Local(s.line, s.db, s.pc[t]);
    ReservingRole(s.line, s.db, s.pc[t]);
    AdmittedKnows(s, t);
    if GRole(s.pc[t]).Owner? { TightKnows(s, t); }
    ReserveStepData(s, t, s');
  }

  /** A thread changing the phase under an exclusive role owns everything. */
  lemma PhaseRole(line: Timeline.Line, db: Db, p: Pc)
    requires Local(line, db, p) && p.Ph? && IsExclusive(p)
    ensures DrainedOwner(p) && !Installed(p)
    ensures !Timeline.Resetting(LRole(p)) && !TimelineProof.Completing(LRole(p))
  {
  }

  lemma PhaseKeepsDb(s: State, t: Tid, s': State)
    requires Inv(s) && t in s.pc && FamilyOf(s.pc[t]).FPhase? && PhaseStep(s, t, s.pc[t], s')
    ensures DbOk(s')
  {
    assert Local(s.line, s.db, s.pc[t]);
    if GRole(s.pc[t]).Owner? { OwnerFromRoles(s, t); }
    if IsExclusive(s.pc[t]) {
      PhaseRole(s.line, s.db, s.pc[t]);
      OwningFor(s, t);
      TightShows(s.line, s.db, s.pc);
    }
    PhaseData(s, t, s');
  }

  lemma TpKeepsDb(s: State, t: Tid, s': State)
    requires Inv(s) && t in s.pc && FamilyOf(s.pc[t]).FTp? && TpStep(s, t, s.pc[t], s')
    ensures DbOk(s')
  {
    if s.pc[t].UpGen? {
      assert Local(s.line, s.db, s.pc[t]);
    } else {
      OwningAt(s, t);
    }
    YieldsTo(s, t);
    TpData(s, t, s');
  }

  lemma InsertKeepsDb(s: State, t: Tid, s': State)
    requires Inv(s) && t in s.pc && InsertStep(s, t, s.pc[t], s')
    ensures DbOk(s')
  {
    if s.pc[t].InWork? || s.pc[t].InApply? { InsertingFor(s, t); }
    InsertData(s, t, s');
  }

  lemma UpdateKeepsDb(s: State, t: Tid, s': State)
    requires Inv(s) && t in s.pc && UpdateStep(s, t, s.pc[t], s')
    ensures DbOk(s')
  {
    if s.pc[t].TpWork? { OwningAt(s, t); }
    UpdateData(s, t, s');
  }

  lemma CompactKeepsDb(s: State, t: Tid, s': State)
    requires Inv(s) && t in s.pc && CompactStep(s, t, s.pc[t], s')
    ensures DbOk(s')
  {
    if s.pc[t].CmHold? || s.pc[t].CmApply? { OwningAt(s, t); }
    CompactStepData(s, t, s');
  }

  lemma GuardKeepsDb(s: State, t: Tid, s': State)
    requires Inv(s) && t in s.pc && FamilyOf(s.pc[t]).FGuard? && GuardStep(s, t, s.pc[t], s')
    ensures DbOk(s')
  {
    OwningAt(s, t);
    GuardData(s, t, s');
  }

  lemma ApKeepsDb(s: State, t: Tid, s': State)
    requires Inv(s) && t in s.pc && FamilyOf(s.pc[t]).FAp? && ApStep(s, t, s.pc[t], s')
    ensures DbOk(s')
  {
    OwningAt(s, t);
    ApData(s, t, s');
  }

  lemma ResetKeepsDb(s: State, t: Tid, s': State)
    requires Inv(s) && t in s.pc && FamilyOf(s.pc[t]).FReset? && ResetStep(s, t, s.pc[t], s')
    ensures DbOk(s')
  {
    OwnerKnows(s, t);
    ResetStepData(s, t, s');
  }

  /** The role a timestamp is completed under. */
  lemma CompletingRole(line: Timeline.Line, db: Db, p: Pc)
    requires Local(line, db, p) && (FamilyOf(p).FComplete? || FamilyOf(p).FAdvance?)
    ensures GRole(p).Inserter? || DrainedOwner(p)
    ensures !Timeline.Resetting(LRole(p))
  {
  }

  lemma CompleteKeepsDb(s: State, t: Tid, s': State)
    requires Inv(s) && t in s.pc && FamilyOf(s.pc[t]).FComplete? && CompleteStep(s, t, s.pc[t], s')
    ensures DbOk(s')
  {
    hide Gate.Inv, Timeline.Inv, DbInv;
    LocalAt(s, t);
    CompletingRole(s.line, s.db, s.pc[t]);
    YieldsTo(s, t);
    if s.pc[t].CpMark? && GRole(s.pc[t]).Owner? { TightKnows(s, t); }
    CompleteData(s, t, s');
  }

  lemma AdvanceKeepsDb(s: State, t: Tid, s': State)
    requires Inv(s) && t in s.pc && FamilyOf(s.pc[t]).FAdvance? && AdvanceStep(s, t, s.pc[t], s')
    ensures DbOk(s')
  {
    hide Gate.Inv, Timeline.Inv, DbInv;
    LocalAt(s, t);
    CompletingRole(s.line, s.db, s.pc[t]);
    AdmittedKnows(s, t);
    AdvancerKnows(s, t);
    AdvanceData(s, t, s');
  }

  /** Families whose steps run under a reserved timestamp. */
  predicate Timed(f: Family) {
    f.FUpdate? || f.FTp? || f.FGuard? || f.FAp? || f.FReset? || f.FCompact? || f.FComplete? || f.FAdvance?
  }

  lemma TimedKeepsDb(s: State, t: Tid, s': State)
    requires Inv(s) && Step(s, t, s') && Timed(FamilyOf(s.pc[t]))
    ensures DbOk(s')
  {
    hide Inv, DbOk;
    match FamilyOf(s.pc[t])
    case FUpdate => UpdateKeepsDb(s, t, s');
    case FTp => TpKeepsDb(s, t, s');
    case FGuard => GuardKeepsDb(s, t, s');
    case FAp => ApKeepsDb(s, t, s');
    case FReset => ResetKeepsDb(s, t, s');
    case FCompact => CompactKeepsDb(s, t, s');
    case FComplete => CompleteKeepsDb(s, t, s');
    case FAdvance => AdvanceKeepsDb(s, t, s');
  }

  lemma BeginKeepsDb(s: State, t: Tid, s': State)
    requires Inv(s) && t in s.pc && FamilyOf(s.pc[t]).FBegin? && Begin(s, t, s')
    ensures DbOk(s')
  {
    hide DbInv, Gate.Inv, Timeline.Inv, Begin;
    BeginData(s, t, s');
  }

  lemma UntimedKeepsDb(s: State, t: Tid, s': State)
    requires Inv(s) && Step(s, t, s') && !Timed(FamilyOf(s.pc[t]))
    ensures DbOk(s')
  {
    hide DbInv, Gate.Inv, Timeline.Inv;
    match FamilyOf(s.pc[t])
    case FBegin => BeginKeepsDb(s, t, s');
    case FRead => ReadData(s, t, s');
    case FInsert => InsertKeepsDb(s, t, s');
    case FReserve => ReserveKeepsDb(s, t, s');
    case FPhase => PhaseKeepsDb(s, t, s');
    case FExclusive => ExclusiveData(s, t, s');
    case FSeal => SealData(s, t, s');
  }

  /** Every step keeps the store half of the invariant. */
  lemma StepKeepsDb(s: State, t: Tid, s': State)
    requires Inv(s) && Step(s, t, s')
    ensures DbOk(s')
  {
    hide StepOf, FamilyOf, Inv, DbOk, Timed;
    if Timed(FamilyOf(s.pc[t])) { TimedKeepsDb(s, t, s'); } else { UntimedKeepsDb(s, t, s'); }
  }

  /** Every step of every thread keeps the whole invariant. */
  lemma StepKeepsInv(s: State, t: Tid, s': State)
    requires Inv(s) && Step(s, t, s')
    ensures Inv(s')
  {
    hide StepOf, FamilyOf, DbInv, Gate.Inv, Timeline.Inv, Gate.Event, Timeline.Event, RoleOk;
    StepPremises(s, t);
    StepGate(s, t, s');
    StepLine(s, t, s');
    StepKeepsGate(s, t, s');
    StepKeepsLine(s, t, s');
    StepKeepsDb(s, t, s');
  }

  // ---- opening and recovery ---------------------------------------------------------------------

  lemma NobodyCounted(rs: Gate.Roles, f: Gate.Field)
    requires f != Gate.NoField && forall t :: t in rs ==> rs[t].Outside?
    ensures Gate.Members(rs, f) == {}
  {
  }

  lemma OpenedGate(pc: map<Tid, Pc>)
    requires forall t :: t in pc ==> pc[t].Idle?
    ensures Gate.Inv(Gate.Word(Gate.Open, 0, 0), GRoles(pc))
  {
    NobodyCounted(GRoles(pc), Gate.ReaderField);
    NobodyCounted(GRoles(pc), Gate.InserterField);
    NobodyCounted(GRoles(pc), Gate.PhaseField);
  }

  lemma OpenedLine(pc: map<Tid, Pc>, ts: nat)
    requires (forall t :: t in pc ==> pc[t].Idle?) && ts < MAX_TS
    ensures Timeline.Inv(Timeline.Line(ts + 1, ts, EmptyRing(), None, 0, Timeline.View(ts, 0)), LRoles(pc))
  {
  }

  /** A freshly opened database satisfies the invariant. */
  lemma OpenedInv(pc: map<Tid, Pc>, facts: set<Fact>, ts: nat, wal: Log, upd: set<nat>, ckpt: Ckpt)
    requires ts < MAX_TS && ckpt.ts <= ts && Persist(facts) == facts
    requires Serial(ckpt.facts, ckpt.ts, wal, ts) == facts && forall x :: x in wal ==> x <= ts
    ensures Inv(Opened(pc, facts, ts, wal, upd, ckpt))
  {
    var s := Opened(pc, facts, ts, wal, upd, ckpt);
    OpenedGate(s.pc);
    OpenedLine(s.pc, ts);
    VisStamped(facts, 0, ts);
  }

  lemma InitInv(s: State)
    requires Init(s)
    ensures Inv(s)
  {
    var facts, pc :| Persist(facts) == facts && s == Opened(pc, facts, 0, map[], {}, Ckpt(facts, 0));
    OpenedInv(pc, facts, 0, map[], {}, Ckpt(facts, 0));
  }

  /** Recovery rebuilds the persistent part of a serial state: no committed write is lost. */
  lemma RecoveredIsSerial(line: Timeline.Line, db: Db, n: nat)
    requires Basic(line, db) && WalOk(line, db) && LastDurable(db, n)
    ensures forall m :: m >= Max(n, Mark(db)) ==> Recovered(db, n) == Persist(Serial(db.base, db.t0, db.log, m))
  {
    forall m | m >= Max(n, Mark(db)) ensures Recovered(db, n) == Persist(Serial(db.base, db.t0, db.log, m)) {
      ReplayIsPersistent(db.base, db.t0, db.log, db.ckpt.facts, db.ckpt.ts, db.wal, Mark(db), m);
      SerialNothing(db.ckpt.facts, db.ckpt.ts, db.wal, n, m);
    }
  }

  lemma PersistTwice(fs: set<Fact>)
    ensures Persist(Persist(fs)) == Persist(fs)
  {
  }

  /** A crash at any moment leads to a state in which the invariant holds again. */
  lemma CrashKeepsInv(s: State, s': State)
    requires Inv(s) && Crash(s, s')
    ensures Inv(s')
  {
    var n: nat :| LastDurable(s.db, n) && n < MAX_TS && Readable(s.db, n)
      && s' == Opened(s.pc, Recovered(s.db, n), n, s.db.wal, s.db.upd, s.db.ckpt);
    RecoveredIsSerial(s.line, s.db, n);
    var m := Max(n, Mark(s.db));
    PersistTwice(Serial(s.db.base, s.db.t0, s.db.log, m));
    OpenedInv(s.pc, Recovered(s.db, n), n, s.db.wal, s.db.upd, s.db.ckpt);
  }

  lemma NextKeepsInv(s: State, s': State)
    requires Inv(s) && Next(s, s')
    ensures Inv(s')
  {
    hide Step, Crash, Inv;
    if Crash(s, s') {
      CrashKeepsInv(s, s');
    } else {
      var t :| Step(s, t, s');
      StepKeepsInv(s, t, s');
    }
  }

  /** The invariant holds in every state of every run, crashes included. */
  lemma {:induction false} RunInv(run: seq<State>, i: nat)
    requires IsRun(run) && i < |run|
    ensures Inv(run[i])
  {
    if i == 0 {
      InitInv(run[0]);
    } else {
      RunInv(run, i - 1);
      NextKeepsInv(run[i - 1], run[i]);
    }
  }
}
