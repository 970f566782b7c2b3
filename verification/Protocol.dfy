/**
  The whole transaction protocol as a state machine: an unbounded set of threads,
  each at a program point between two atomic accesses, running snapshot reads,
  in-place inserts, copy-on-write updates (TP and AP), compactions, checkpoints and
  exclusive operations over the gate, the timeline and the store.

  A step is one atomic load, CAS, fetch_add, store, lock operation, WAL append or
  snapshot switch by one thread, or a crash followed by recovery.
 */
module Protocol {
  import opened Common
  import Gate
  import Timeline
  import opened Store

  type Tid = Gate.Tid
  type Word = Gate.Word
  type View = Timeline.View

  datatype Ckpt = Ckpt(facts: set<Fact>, ts: nat)

  datatype Db = Db(
    snaps: map<nat, Snap>,      // snapshot contents by generation
    cur: nat,                   // generation in the current slot
    lastGen: nat,               // last_reserved_snapshot_generation_
    wal: Log,                   // durable records of the current WAL epoch
    upd: set<nat>,              // those of kind update or compaction; the others are inserts
    ckpt: Ckpt,                 // durable checkpoint and its base timestamp
    // history, read by no operation
    base: set<Fact>, t0: nat, gen0: nat,  // state and generation at the start of the timeline
    log: Log,                   // committed writes of this timeline
    installs: map<nat, nat>,    // generation installed by each update of this timeline
    inst: nat)                  // timestamp of the last installed update

  /** A timestamp to complete: the role it is held under and whether its snapshot is installed. */
  datatype Job = Job(role: Gate.Role, ts: nat, inst: bool)

  /** Where a phase change happens, with what the thread carries across it. */
  datatype Site =
    | EnterUpdate | EnterCompact | EnterExclusive
    | BlockTp(ts: nat, snap: Snap, w: Write, g: nat)
    | BlockAp(ts: nat)
    | Reopen(role: Gate.Role)
    | Unseal

  datatype Pc =
    | Idle
    // snapshot reads
    | RdLoad | RdAdd | RdSpec | RdIn
    | RdPin(v: View) | RdCheck(v: View, g: nat) | RdLease(ts: nat, g: nat) | RdOut
    // inserts
    | InLoad | InCas(obs: Word) | InHold(ts: nat) | InWork(ts: nat, g: nat)
    | InApply(ts: nat, g: nat, todo: set<Fact>) | InRel
    // timestamp reservation, under any role
    | ResW(role: Gate.Role) | ResR(role: Gate.Role, cand: nat) | ResRefresh(role: Gate.Role, rd: nat)
    | ResCas(role: Gate.Role, cand: nat) | ResBroken(role: Gate.Role) | ResFull(role: Gate.Role)
    // phase changes: load, then CAS
    | Ph(site: Site, seen: Option<Word>) | PhThrow(site: Site)
    // snapshot copy-on-write update
    | UpDrain | UpHold(ts: nat) | TpWork(ts: nat, clone: Snap)
    | TpReady(ts: nat, snap: Snap, w: Write, g: nat) | TpPublish(ts: nat, snap: Snap, w: Write, g: nat)
    | UpGen(role: Gate.Role, ts: nat, g: nat)
    // exclusive write of the current graph, bulk commit, manual checkpoint
    | ApDrain(ts: nat) | ApHold(ts: nat) | ApWork(ts: nat, clone: Snap)
    | ApReplace(ts: nat, snap: Snap, w: Write)
    | RsWrite(ts: nat) | RsRead | RsRing(slot: nat) | RsView
    // in-place compaction
    | CmDrainR | CmDrainI | CmHold(ts: nat) | CmApply(ts: nat)
    // exclusive operation without a timestamp
    | ExDrainI | ExDrainR | ExHold
    // lifecycle seal
    | SlSeal | SlUnlock
    // complete_write_timestamp
    | CpMark(job: Job) | CpLock(job: Job) | CpCheck(job: Job)
    | CpTest(job: Job, cur: nat) | CpClear(job: Job, nxt: nat) | CpStore(job: Job, nxt: nat)
    | CpGen(job: Job, cur: nat) | CpPub(job: Job, cur: nat, gen: nat) | CpUnlock(job: Job)

  datatype State = State(gate: Word, line: Timeline.Line, db: Db, pc: map<Tid, Pc>)

  // ---- projections ------------------------------------------------------------

  const UPDATE: Gate.Role := Gate.Owner(Gate.InsertsBlocked, true, false)
  const PUBLISH: Gate.Role := Gate.Owner(Gate.AllBlocked, true, false)
  const EXCLUSIVE: Gate.Role := Gate.Owner(Gate.AllBlocked, true, true)

  function SiteRole(site: Site): Gate.Role {
    match site
    case BlockTp(_, _, _, _) => UPDATE
    case BlockAp(_) => UPDATE
    case Reopen(role) => role
    case Unseal => EXCLUSIVE
    case _ => Gate.Outside
  }

  /** What a thread at this point contributes to the gate word. */
  function GRole(p: Pc): Gate.Role {
    match p
    case RdSpec => Gate.Speculative
    case RdIn => Gate.Reader
    case RdPin(_) => Gate.Reader
    case RdCheck(_, _) => Gate.Reader
    case RdLease(_, _) => Gate.Reader
    case RdOut => Gate.Reader
    case InHold(_) => Gate.Inserter
    case InWork(_, _) => Gate.Inserter
    case InApply(_, _, _) => Gate.Inserter
    case InRel => Gate.Inserter
    case ResW(role) => role
    case ResR(role, _) => role
    case ResRefresh(role, _) => role
    case ResCas(role, _) => role
    case ResBroken(role) => role
    case ResFull(role) => role
    case Ph(site, _) => SiteRole(site)
    case PhThrow(site) => SiteRole(site)
    case UpDrain => Gate.Owner(Gate.InsertsBlocked, false, false)
    case UpHold(_) => UPDATE
    case TpWork(_, _) => UPDATE
    case TpReady(_, _, _, _) => UPDATE
    case TpPublish(_, _, _, _) => PUBLISH
    case UpGen(role, _, _) => role
    case ApDrain(_) => PUBLISH
    case ApHold(_) => EXCLUSIVE
    case ApWork(_, _) => EXCLUSIVE
    case ApReplace(_, _, _) => EXCLUSIVE
    case RsWrite(_) => EXCLUSIVE
    case RsRead => EXCLUSIVE
    case RsRing(_) => EXCLUSIVE
    case RsView => EXCLUSIVE
    case CmDrainR => Gate.Owner(Gate.AllBlocked, false, false)
    case CmDrainI => Gate.Owner(Gate.AllBlocked, false, true)
    case CmHold(_) => EXCLUSIVE
    case CmApply(_) => EXCLUSIVE
    case ExDrainI => Gate.Owner(Gate.AllBlocked, false, false)
    case ExDrainR => PUBLISH
    case ExHold => EXCLUSIVE
    case CpMark(job) => job.role
    case CpLock(job) => job.role
    case CpCheck(job) => job.role
    case CpTest(job, _) => job.role
    case CpClear(job, _) => job.role
    case CpStore(job, _) => job.role
    case CpGen(job, _) => job.role
    case CpPub(job, _, _) => job.role
    case CpUnlock(job) => job.role
    case _ => Gate.Outside
  }

  function SiteLine(site: Site): Timeline.Role {
    match site
    case BlockTp(ts, _, _, _) => Timeline.Pending(ts)
    case BlockAp(ts) => Timeline.Pending(ts)
    case Unseal => Timeline.LockOnly
    case _ => Timeline.NoTs
  }

  /** What a thread at this point is doing with the timeline. */
  function LRole(p: Pc): Timeline.Role {
    match p
    case InHold(ts) => Timeline.Pending(ts)
    case InWork(ts, _) => Timeline.Pending(ts)
    case InApply(ts, _, _) => Timeline.Pending(ts)
    case ResR(_, c) => Timeline.ResR(c)
    case ResRefresh(_, rd) => Timeline.ResRefresh(rd)
    case ResCas(_, c) => Timeline.ResCas(c)
    case ResBroken(_) => Timeline.ResBroken
    case ResFull(_) => Timeline.ResFull
    case Ph(site, _) => SiteLine(site)
    case PhThrow(site) => SiteLine(site)
    case UpHold(ts) => Timeline.Pending(ts)
    case TpWork(ts, _) => Timeline.Pending(ts)
    case TpReady(ts, _, _, _) => Timeline.Pending(ts)
    case TpPublish(ts, _, _, _) => Timeline.Pending(ts)
    case UpGen(_, ts, _) => Timeline.Pending(ts)
    case ApDrain(ts) => Timeline.Pending(ts)
    case ApHold(ts) => Timeline.Pending(ts)
    case ApWork(ts, _) => Timeline.Pending(ts)
    case ApReplace(ts, _, _) => Timeline.Pending(ts)
    case RsWrite(ts) => Timeline.Pending(ts)
    case RsRead => Timeline.ResetRead
    case RsRing(i) => Timeline.ResetRing(i)
    case RsView => Timeline.ResetView
    case CmHold(ts) => Timeline.Pending(ts)
    case CmApply(ts) => Timeline.Pending(ts)
    case SlSeal => Timeline.LockOnly
    case SlUnlock => Timeline.LockOnly
    case CpMark(job) => Timeline.Pending(job.ts)
    case CpLock(job) => Timeline.Marked(job.ts)
    case CpCheck(job) => Timeline.Checking(job.ts)
    case CpTest(_, cur) => Timeline.AdvTest(cur)
    case CpClear(_, n) => Timeline.AdvClear(n)
    case CpStore(_, n) => Timeline.AdvStore(n)
    case CpGen(_, cur) => Timeline.AdvGen(cur)
    case CpPub(_, cur, g) => Timeline.AdvPub(cur, g)
    case CpUnlock(_) => Timeline.Unlocking
    case _ => Timeline.NoTs
  }

  ghost function GRoles(pc: map<Tid, Pc>): Gate.Roles {
    map t | t in pc :: GRole(pc[t])
  }

  ghost function LRoles(pc: map<Tid, Pc>): Timeline.Roles {
    map t | t in pc :: LRole(pc[t])
  }

  // ---- steps ----------------------------------------------------------------------

  function To(s: State, t: Tid, p: Pc): State { s.(pc := s.pc[t := p]) }

  function SetGate(s: State, t: Tid, w: Word, p: Pc): State { s.(gate := w, pc := s.pc[t := p]) }

  function SetLine(s: State, t: Tid, l: Timeline.Line, p: Pc): State { s.(line := l, pc := s.pc[t := p]) }

  function SetDb(s: State, t: Tid, db: Db, p: Pc): State { s.(db := db, pc := s.pc[t := p]) }

  ghost predicate Begin(s: State, t: Tid, s': State) {
    || s' == To(s, t, RdLoad)
    || s' == To(s, t, InLoad)
    || s' == To(s, t, Ph(EnterUpdate, None))
    || s' == To(s, t, Ph(EnterCompact, None))
    || s' == To(s, t, Ph(EnterExclusive, None))
    || (s.line.lock == None
        && s' == SetLine(s, t, s.line.(lock := Some(t)), SlSeal))
  }

  /** acquire_shared(_until), acquire_read_operation, ReadSnapshotLease. */
  ghost predicate ReadStep(s: State, t: Tid, p: Pc, s': State) {
    match p
    case RdLoad =>
      || s' == To(s, t, if s.gate.phase == Gate.AllBlocked then RdLoad else RdAdd)
      || s' == To(s, t, Idle)                                   // deadline
    case RdAdd =>
      s' == SetGate(s, t, s.gate.(readers := s.gate.readers + 1),
                    if s.gate.phase == Gate.AllBlocked then RdSpec else RdIn)
    case RdSpec =>
      && s.gate.readers > 0
      && s' == SetGate(s, t, s.gate.(readers := s.gate.readers - 1), RdLoad)
    case RdIn =>
      || s' == To(s, t, RdPin(s.line.view))
      || s' == To(s, t, RdOut)                                  // deadline after admission
    case RdPin(v) => s' == To(s, t, RdCheck(v, s.db.cur))
    case RdCheck(v, g) => s' == To(s, t, if g == v.gen then RdLease(v.ts, g) else RdOut)
    case RdLease(_, _) => s' == To(s, t, RdOut)
    case RdOut =>
      && s.gate.readers > 0
      && s' == SetGate(s, t, s.gate.(readers := s.gate.readers - 1), Idle)
    case _ => false
  }

  /** acquire_inserter, BeginMvccInsertTransaction, MvccInsertTransaction::Commit and Abort. */
  ghost predicate InsertStep(s: State, t: Tid, p: Pc, s': State) {
    match p
    case InLoad => s' == To(s, t, if s.gate.phase == Gate.Open then InCas(s.gate) else InLoad)
    case InCas(obs) =>
      || (s.gate == obs && s' == SetGate(s, t, obs.(inserters := obs.inserters + 1), ResW(Gate.Inserter)))
      || s' == To(s, t, if s.gate.phase == Gate.Open then InCas(s.gate) else InLoad)
    case InHold(ts) =>
      || s' == To(s, t, InWork(ts, s.db.cur))
      || s' == To(s, t, CpMark(Job(Gate.Inserter, ts, false)))
    case InWork(ts, g) =>
      || (exists fs: set<Fact> ::
            && Persist(fs) == fs
            && s' == SetDb(s, t, s.db.(log := s.db.log[ts := Write({}, fs)],
                                       wal := s.db.wal[ts := Write({}, fs)]),
                           InApply(ts, g, fs)))
      || s' == To(s, t, CpMark(Job(Gate.Inserter, ts, false)))   // empty, aborted or failed append
    case InApply(ts, g, todo) =>
      if todo == {} then s' == To(s, t, CpMark(Job(Gate.Inserter, ts, false)))
      else (exists f :: f in todo && g in s.db.snaps &&
              s' == SetDb(s, t, s.db.(snaps := s.db.snaps[g := s.db.snaps[g] + {Item(ts, f)}]),
                          InApply(ts, g, todo - {f})))
    case InRel =>
      && s.gate.inserters > 0
      && s' == SetGate(s, t, s.gate.(inserters := s.gate.inserters - 1), Idle)
    case _ => false
  }

  /** Where a thread goes when it gives its role back without a timestamp. */
  function GiveBack(role: Gate.Role): Pc {
    if role.Inserter? then InRel else Ph(Reopen(role), None)
  }

  function AfterCandidate(role: Gate.Role, w: nat): Pc {
    if w == MAX_TS then GiveBack(role) else ResR(role, w)
  }

  function Reserved(role: Gate.Role, ts: nat): Pc {
    if role.Inserter? then InHold(ts)
    else if role == UPDATE then UpHold(ts)
    else CmHold(ts)
  }

  /** ReserveWriteTimestamp. */
  ghost predicate ReserveStep(s: State, t: Tid, p: Pc, s': State) {
    match p
    case ResW(role) => s' == To(s, t, AfterCandidate(role, s.line.write))
    case ResR(role, c) =>
      s' == To(s, t,
               if Timeline.Outstanding(c, s.line.read) > Timeline.WINDOW then
                 if c <= s.line.read then ResRefresh(role, s.line.read) else ResFull(role)
               else ResCas(role, c))
    case ResRefresh(role, rd) =>
      s' == To(s, t, if s.line.write <= rd then ResBroken(role) else AfterCandidate(role, s.line.write))
    case ResCas(role, c) =>
      || (s.line.write == c && s' == SetLine(s, t, s.line.(write := c + 1), Reserved(role, c)))
      || s' == To(s, t, AfterCandidate(role, s.line.write))
    case ResFull(role) => s' == To(s, t, GiveBack(role))
    case _ => false
  }

  predicate Enters(site: Site) {
    site.EnterUpdate? || site.EnterCompact? || site.EnterExclusive?
  }

  function Target(site: Site): Gate.Phase {
    match site
    case EnterUpdate => Gate.InsertsBlocked
    case Reopen(_) => Gate.Open
    case Unseal => Gate.Open
    case _ => Gate.AllBlocked
  }

  predicate Expected(site: Site, phase: Gate.Phase) {
    match site
    case BlockTp(_, _, _, _) => phase == Gate.InsertsBlocked
    case BlockAp(_) => phase == Gate.InsertsBlocked
    case Reopen(role) => role.Owner? && phase == role.phase
    case Unseal => phase == Gate.AllBlocked
    case _ => phase == Gate.Open
  }

  function AfterPhase(site: Site): Pc {
    match site
    case EnterUpdate => UpDrain
    case EnterCompact => CmDrainR
    case EnterExclusive => ExDrainI
    case BlockTp(ts, snap, w, g) => TpPublish(ts, snap, w, g)
    case BlockAp(ts) => ApDrain(ts)
    case Reopen(_) => Idle
    case Unseal => SlUnlock
  }

  /** enter_phase(_until), try_enter_phase, transition_phase, reopen, unseal_to_open. */
  ghost predicate PhaseStep(s: State, t: Tid, p: Pc, s': State) {
    match p
    case Ph(site, seen) =>
      if seen == None then s' == To(s, t, Ph(site, Some(s.gate)))
      else
        var obs := seen.value;
        if !Expected(site, obs.phase) then
          if Enters(site)
          then s' == To(s, t, Ph(site, Some(s.gate))) || s' == To(s, t, Idle)
          else s' == To(s, t, PhThrow(site))
        else
          || (s.gate == obs && s' == SetGate(s, t, obs.(phase := Target(site)), AfterPhase(site)))
          || s' == To(s, t, Ph(site, Some(s.gate)))
          || (Enters(site) && s' == To(s, t, Idle))
    case _ => false
  }

  function Abandon(role: Gate.Role, ts: nat): Pc { CpMark(Job(role, ts, false)) }

  /** acquire_update_timestamp(_until), try_acquire_update_timestamp, begin of an update. */
  ghost predicate UpdateStep(s: State, t: Tid, p: Pc, s': State) {
    match p
    case UpDrain =>
      || s' == To(s, t, if s.gate.inserters == 0 then ResW(UPDATE) else UpDrain)
      || s' == To(s, t, Ph(Reopen(GRole(UpDrain)), None))   // deadline or try_acquire
    case UpHold(ts) =>
      || (s.db.cur in s.db.snaps && s' == To(s, t, TpWork(ts, s.db.snaps[s.db.cur])))
      || s' == To(s, t, Ph(BlockAp(ts), None))
      || s' == To(s, t, Abandon(UPDATE, ts))
    case TpWork(ts, clone) =>
      || (exists w: Write ::
            s' == SetDb(s, t, s.db.(lastGen := s.db.lastGen + 1),
                        TpReady(ts, Rewritten(clone, w, ts), w, s.db.lastGen + 1)))
      || s' == To(s, t, Abandon(UPDATE, ts))
    case _ => false
  }

  /** SnapshotCowWriteTransaction::CommitPrepared and Abort, finish_update_timestamp. */
  ghost predicate TpStep(s: State, t: Tid, p: Pc, s': State) {
    match p
    case TpReady(ts, snap, w, g) =>
      || s' == SetDb(s, t, s.db.(log := s.db.log[ts := w], wal := s.db.wal[ts := PersistWrite(w)],
                              upd := s.db.upd + {ts}),
                     Ph(BlockTp(ts, snap, w, g), None))
      || s' == To(s, t, Abandon(UPDATE, ts))
    case TpPublish(ts, snap, w, g) =>
      s' == SetDb(s, t, s.db.(snaps := s.db.snaps[g := snap], cur := g,
                              installs := s.db.installs[ts := g], inst := ts),
                  UpGen(PUBLISH, ts, g))
    case UpGen(role, ts, g) =>
      s' == SetLine(s, t, s.line.(igen := g), CpMark(Job(role, ts, true)))
    case _ => false
  }

  /** The state after a manual checkpoint: temporary facts are gone, a new timeline starts. */
  function Checkpointed(db: Db, facts: set<Fact>): Db {
    db.(snaps := db.snaps[db.cur := Stamped(facts, 0)],
        wal := map[], upd := {}, ckpt := Ckpt(facts, 0),
        base := facts, t0 := 0, gen0 := db.cur, log := map[], installs := map[], inst := 0)
  }

  /** CurrentGraphWriteGuard::Acquire, CheckpointCoordinator::PublishManualCheckpoint. */
  ghost predicate GuardStep(s: State, t: Tid, p: Pc, s': State) {
    match p
    case ApDrain(ts) => s' == To(s, t, if s.gate.readers == 0 then ApHold(ts) else ApDrain(ts))
    case ApHold(ts) =>
      || (s.db.cur in s.db.snaps && s' == To(s, t, ApWork(ts, s.db.snaps[s.db.cur])))
      || (s.db.cur in s.db.snaps
          && s' == SetDb(s, t, Checkpointed(s.db, Persist(All(s.db.snaps[s.db.cur]))), RsWrite(ts)))
      || s' == To(s, t, Abandon(EXCLUSIVE, ts))
    case _ => false
  }

  /** CurrentCowWriteTransaction::Commit and CommitTransient, CheckpointCoordinator::CommitCowWrite. */
  ghost predicate ApStep(s: State, t: Tid, p: Pc, s': State) {
    match p
    case ApWork(ts, clone) =>
      || (exists w: Write ::                                           // logical WAL
            s' == SetDb(s, t, s.db.(log := s.db.log[ts := w], wal := s.db.wal[ts := PersistWrite(w)],
                              upd := s.db.upd + {ts}),
                        ApReplace(ts, Rewritten(clone, w, ts), w)))
      || (exists w: Write ::                                           // transient only
            && PersistWrite(w) == Write({}, {})
            && s' == SetDb(s, t, s.db.(log := s.db.log[ts := w]),
                           ApReplace(ts, Rewritten(clone, w, ts), w)))
      || (exists w: Write ::                                           // bulk checkpoint
            var snap := Rewritten(clone, w, ts);
            s' == SetDb(s, t, s.db.(log := s.db.log[ts := w], wal := map[], upd := {},
                                    ckpt := Ckpt(Persist(All(snap)), ts)),
                        ApReplace(ts, snap, w)))
      || s' == To(s, t, Abandon(EXCLUSIVE, ts))
    case ApReplace(ts, snap, w) =>
      s' == SetDb(s, t, s.db.(snaps := s.db.snaps[s.db.cur := snap],
                              installs := s.db.installs[ts := s.db.cur], inst := ts),
                  UpGen(EXCLUSIVE, ts, s.db.cur))
    case _ => false
  }

  /** finish_update_and_reset_timeline, one store at a time. */
  ghost predicate ResetStep(s: State, t: Tid, p: Pc, s': State) {
    match p
    case RsWrite(ts) => s' == SetLine(s, t, s.line.(write := 1), RsRead)
    case RsRead => s' == SetLine(s, t, s.line.(read := 0), RsRing(0))
    case RsRing(i) =>
      if i < |s.line.ring|
      then s' == SetLine(s, t, s.line.(ring := s.line.ring[i := 0]), RsRing(i + 1))
      else s' == To(s, t, RsView)
    case RsView =>
      s' == SetLine(s, t, s.line.(view := Timeline.View(0, s.line.igen)), Ph(Reopen(EXCLUSIVE), None))
    case _ => false
  }

  /** acquire_compact_timestamp, InPlaceCompactionTransaction. */
  ghost predicate CompactStep(s: State, t: Tid, p: Pc, s': State) {
    match p
    case CmDrainR => s' == To(s, t, if s.gate.readers == 0 then CmDrainI else CmDrainR)
    case CmDrainI => s' == To(s, t, if s.gate.inserters == 0 then ResW(EXCLUSIVE) else CmDrainI)
    case CmHold(ts) =>
      || s' == SetDb(s, t, s.db.(log := s.db.log[ts := Write({}, {})], wal := s.db.wal[ts := Write({}, {})],
                              upd := s.db.upd + {ts}),
                     CmApply(ts))
      || s' == To(s, t, Abandon(EXCLUSIVE, ts))
    case CmApply(ts) =>
      && s.db.cur in s.db.snaps
      && s' == SetDb(s, t, s.db.(snaps := s.db.snaps[s.db.cur := Compacted(s.db.snaps[s.db.cur])]),
                     CpMark(Job(EXCLUSIVE, ts, false)))
    case _ => false
  }

  /** ExclusiveOperationLease. */
  ghost predicate ExclusiveStep(s: State, t: Tid, p: Pc, s': State) {
    match p
    case ExDrainI =>
      || s' == To(s, t, if s.gate.inserters == 0 then ExDrainR else ExDrainI)
      || s' == To(s, t, Ph(Reopen(GRole(ExDrainI)), None))    // deadline
    case ExDrainR =>
      || s' == To(s, t, if s.gate.readers == 0 then ExHold else ExDrainR)
      || s' == To(s, t, Ph(Reopen(GRole(ExDrainR)), None))    // deadline
    case ExHold => s' == To(s, t, Ph(Reopen(EXCLUSIVE), None))
    case _ => false
  }

  /** try_set_runtime_wait_if_quiescent. */
  ghost predicate SealStep(s: State, t: Tid, p: Pc, s': State) {
    match p
    case SlSeal =>
      || (s.gate == Gate.Word(Gate.Open, 0, 0)
          && s' == SetGate(s, t, Gate.Word(Gate.AllBlocked, 0, 0), Ph(Unseal, None)))
      || s' == To(s, t, SlUnlock)
    case SlUnlock => s' == SetLine(s, t, s.line.(lock := None), Idle)
    case _ => false
  }

  /** complete_write_timestamp. */
  ghost predicate CompleteStep(s: State, t: Tid, p: Pc, s': State) {
    match p
    case CpMark(job) =>
      && |s.line.ring| == Timeline.WINDOW
      && s' == SetLine(s, t, s.line.(ring := s.line.ring[Timeline.TsIndex(job.ts) := job.ts]), CpLock(job))
    case CpLock(job) =>
      && s.line.lock == None
      && s' == SetLine(s, t, s.line.(lock := Some(t)), CpCheck(job))
    case CpCheck(job) =>
      s' == To(s, t, if job.ts == s.line.read + 1 then CpTest(job, s.line.read) else CpUnlock(job))
    case CpUnlock(job) => s' == SetLine(s, t, s.line.(lock := None), GiveBack(job.role))
    case _ => false
  }

  /** advance_read_ts_locked. */
  ghost predicate AdvanceStep(s: State, t: Tid, p: Pc, s': State) {
    match p
    case CpTest(job, cur) =>
      s' == To(s, t, if Timeline.InRing(s.line, cur + 1) then CpClear(job, cur + 1) else CpGen(job, cur))
    case CpClear(job, n) =>
      s' == SetLine(s, t,
                    if Timeline.InRing(s.line, n)
                    then s.line.(ring := s.line.ring[Timeline.TsIndex(n) := 0]) else s.line,
                    CpStore(job, n))
    case CpStore(job, n) => s' == SetLine(s, t, s.line.(read := n), CpTest(job, n))
    case CpGen(job, cur) => s' == To(s, t, CpPub(job, cur, s.line.igen))
    case CpPub(job, cur, g) => s' == SetLine(s, t, s.line.(view := Timeline.View(cur, g)), CpUnlock(job))
    case _ => false
  }

  datatype Family =
    | FBegin | FRead | FInsert | FReserve | FPhase | FUpdate | FTp | FGuard | FAp | FReset
    | FCompact | FExclusive | FSeal | FComplete | FAdvance

  /** Which operation a program point belongs to. */
  function FamilyOf(p: Pc): Family {
    if p.Idle? then FBegin
    else if p.RdLoad? || p.RdAdd? || p.RdSpec? || p.RdIn? || p.RdPin? || p.RdCheck? || p.RdLease? || p.RdOut?
    then FRead
    else if p.InLoad? || p.InCas? || p.InHold? || p.InWork? || p.InApply? || p.InRel? then FInsert
    else if p.ResW? || p.ResR? || p.ResRefresh? || p.ResCas? || p.ResBroken? || p.ResFull? then FReserve
    else if p.Ph? || p.PhThrow? then FPhase
    else if p.UpDrain? || p.UpHold? || p.TpWork? then FUpdate
    else if p.TpReady? || p.TpPublish? || p.UpGen? then FTp
    else if p.ApDrain? || p.ApHold? then FGuard
    else if p.ApWork? || p.ApReplace? then FAp
    else if p.RsWrite? || p.RsRead? || p.RsRing? || p.RsView? then FReset
    else if p.CmDrainR? || p.CmDrainI? || p.CmHold? || p.CmApply? then FCompact
    else if p.ExDrainI? || p.ExDrainR? || p.ExHold? then FExclusive
    else if p.SlSeal? || p.SlUnlock? then FSeal
    else if p.CpMark? || p.CpLock? || p.CpCheck? || p.CpUnlock? then FComplete
    else FAdvance
  }

  ghost predicate StepOf(f: Family, s: State, t: Tid, s': State)
    requires t in s.pc
  {
    match f
    case FBegin => Begin(s, t, s')
    case FRead => ReadStep(s, t, s.pc[t], s')
    case FInsert => InsertStep(s, t, s.pc[t], s')
    case FReserve => ReserveStep(s, t, s.pc[t], s')
    case FPhase => PhaseStep(s, t, s.pc[t], s')
    case FUpdate => UpdateStep(s, t, s.pc[t], s')
    case FTp => TpStep(s, t, s.pc[t], s')
    case FGuard => GuardStep(s, t, s.pc[t], s')
    case FAp => ApStep(s, t, s.pc[t], s')
    case FReset => ResetStep(s, t, s.pc[t], s')
    case FCompact => CompactStep(s, t, s.pc[t], s')
    case FExclusive => ExclusiveStep(s, t, s.pc[t], s')
    case FSeal => SealStep(s, t, s.pc[t], s')
    case FComplete => CompleteStep(s, t, s.pc[t], s')
    case FAdvance => AdvanceStep(s, t, s.pc[t], s')
  }

  /** One step of one thread. */
  ghost predicate Step(s: State, t: Tid, s': State) {
    t in s.pc && StepOf(FamilyOf(s.pc[t]), s, t, s')
  }

  // ---- start and restart -----------------------------------------------------------

  function EmptyRing(): seq<nat> { seq(Timeline.WINDOW, i => 0) }

  /** init_ts: a database opened with these facts at this visibility timestamp. */
  function Opened(pc: map<Tid, Pc>, facts: set<Fact>, ts: nat, wal: Log, upd: set<nat>, ckpt: Ckpt): State {
    State(Gate.Word(Gate.Open, 0, 0),
          Timeline.Line(ts + 1, ts, EmptyRing(), None, 0, Timeline.View(ts, 0)),
          Db(map[0 := Stamped(facts, 0)], 0, 0, wal, upd, ckpt, facts, ts, 0, map[], map[], 0),
          map t | t in pc :: Idle)
  }

  ghost predicate Init(s: State) {
    exists facts, pc :: Persist(facts) == facts && s == Opened(pc, facts, 0, map[], {}, Ckpt(facts, 0))
  }

  /** The last timestamp recovery finds: that of the checkpoint or of a WAL record. */
  ghost predicate LastDurable(db: Db, n: nat) {
    && db.ckpt.ts <= n
    && (forall x :: x in db.wal ==> x <= n)
    && (n == db.ckpt.ts || n in db.wal)
  }

  /** What recovery rebuilds from the checkpoint and the WAL records up to n. */
  function Recovered(db: Db, n: nat): set<Fact> {
    Serial(db.ckpt.facts, db.ckpt.ts, db.wal, n)
  }

  /** The insert list of the WAL parser has a slot for t: it starts with a few and grows with the insert records. */
  ghost predicate HasSlot(db: Db, t: nat) {
    t < FIRST_SLOTS || exists i :: i in db.wal && i !in db.upd && t <= i
  }

  /** Ingestion up to n looks up every timestamp without an update record, and finds a slot for each. */
  ghost predicate Readable(db: Db, n: nat) {
    forall t: nat :: db.ckpt.ts < t <= n && t !in db.upd ==> HasSlot(db, t)
  }

  /** All threads are gone, and the database is opened again from checkpoint and WAL, if that can be read. */
  ghost predicate Crash(s: State, s': State) {
    exists n: nat :: LastDurable(s.db, n) && n < MAX_TS && Readable(s.db, n)
      && s' == Opened(s.pc, Recovered(s.db, n), n, s.db.wal, s.db.upd, s.db.ckpt)
  }

  ghost predicate Next(s: State, s': State) {
    (exists t :: Step(s, t, s')) || Crash(s, s')
  }

  ghost predicate IsRun(run: seq<State>) {
    && |run| > 0 && Init(run[0])
    && forall i :: 0 <= i < |run| - 1 ==> Next(run[i], run[i + 1])
  }
}
