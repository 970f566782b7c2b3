/** The inductive invariant of the protocol, and the facts it gives about single threads. */
module ProtocolInv {
  import opened Common
  import Gate
  import Timeline
  import TimelineProof
  import opened Store
  import opened Protocol

  /**
    Generation g at visibility timestamp r shows exactly the serial state at r, and g is
    the generation installed by the last update at or below r.
   */
  ghost predicate Shows(db: Db, r: nat, g: nat) {
    && g in db.snaps
    && db.t0 <= r
    && Vis(db.snaps[g], r) == Serial(db.base, db.t0, db.log, r)
    && g == GenAt(db.gen0, db.t0, db.installs, r)
  }

  /** The timestamp up to which the current snapshot is final. */
  function Floor(line: Timeline.Line, db: Db): nat { Max(line.read, db.inst) }

  ghost predicate Basic(line: Timeline.Line, db: Db) {
    && db.cur in db.snaps
    && (forall g :: g in db.snaps ==> g <= db.lastGen)
    && db.t0 <= line.read
    && db.inst <= line.read + 1
    && (forall x :: x in db.log ==> db.t0 < x < line.write)
    && (forall x :: x in db.installs ==> x <= db.inst)
  }

  ghost predicate Current(line: Timeline.Line, db: Db) {
    && Shows(db, Floor(line, db), db.cur)
    && (forall i :: i in db.snaps[db.cur] && i.ts > Floor(line, db) ==>
          i.ts in db.log && i.fact in db.log[i.ts].add)
  }

  /** The insert with this timestamp, if it committed, is completely in the current snapshot. */
  ghost predicate InsertDone(db: Db, ts: nat) {
    db.cur in db.snaps && (ts in db.log ==> InsertPartly(db, ts, {}))
  }

  ghost predicate InsertPartly(db: Db, ts: nat, todo: set<Fact>) {
    && db.cur in db.snaps && ts in db.log && db.log[ts].del == {} && todo <= db.log[ts].add
    && forall f :: f in db.log[ts].add && f !in todo ==> Item(ts, f) in db.snaps[db.cur]
  }

  ghost predicate Completed(line: Timeline.Line, db: Db, pc: map<Tid, Pc>) {
    forall x :: Floor(line, db) < x < line.write && !Timeline.Held(LRoles(pc), x) ==> InsertDone(db, x)
  }

  /** Program points between installing a snapshot and moving the frontier over its timestamp. */
  predicate Installed(p: Pc) {
    match p
    case UpGen(_, _, _) => true
    case CpMark(job) => job.inst
    case CpLock(job) => job.inst
    case CpCheck(job) => job.inst
    case CpTest(job, _) => job.inst
    case CpClear(job, _) => job.inst
    case CpStore(job, _) => job.inst
    case _ => false
  }

  predicate IsExclusive(p: Pc) { GRole(p).Owner? && GRole(p).rdDrained }

  ghost predicate AnyInstalled(pc: map<Tid, Pc>) { exists t :: t in pc && Installed(pc[t]) }

  ghost predicate AnyExclusive(pc: map<Tid, Pc>) { exists t :: t in pc && IsExclusive(pc[t]) }

  ghost predicate Published(line: Timeline.Line, db: Db, pc: map<Tid, Pc>) {
    && (db.inst <= line.read || AnyInstalled(pc))
    && (db.inst <= line.read ==> line.igen == db.cur)
    && (line.view.ts >= db.inst ==> line.view.gen == db.cur)
    && (Shows(db, line.view.ts, line.view.gen) || AnyExclusive(pc))
  }

  /** From this timestamp on, WAL and log run in parallel. */
  function Mark(db: Db): nat { Max(db.t0, db.ckpt.ts) }

  ghost predicate WalOk(line: Timeline.Line, db: Db) {
    && db.ckpt.ts < line.write
    && (db.ckpt.ts > db.t0 ==> db.ckpt.ts in db.log)
    && Recovered(db, Mark(db)) == Persist(Serial(db.base, db.t0, db.log, Mark(db)))
    && SamePersistent(db.log, db.wal, Mark(db))
  }

  ghost predicate JobOk(line: Timeline.Line, db: Db, job: Job) {
    && (job.role.Inserter? || (job.role.Owner? && job.role.insDrained))
    && (job.inst ==> job.role.Owner? && db.inst == job.ts && line.igen == db.cur)
    && (job.role.Owner? ==> line.write == job.ts + 1)
  }

  /** An owner's timestamp before anything is committed for it. */
  ghost predicate Fresh(line: Timeline.Line, db: Db, ts: nat) {
    line.write == ts + 1 && ts !in db.log && ts > db.ckpt.ts
  }

  ghost predicate Committed(line: Timeline.Line, db: Db, ts: nat, snap: Snap, w: Write) {
    && line.write == ts + 1 && ts in db.log && db.log[ts] == w && OlderThan(db, ts)
    && snap == Rewritten(db.snaps[db.cur], w, ts)
  }

  ghost predicate OlderThan(db: Db, ts: nat) {
    db.cur in db.snaps && forall i :: i in db.snaps[db.cur] ==> i.ts < ts
  }

  /** The store right after a manual checkpoint, while the timeline is being reset. */
  ghost predicate NewEpoch(line: Timeline.Line, db: Db) {
    && db.t0 == 0 && db.inst == 0 && db.log == map[] && db.installs == map[]
    && db.ckpt == Ckpt(db.base, 0) && db.wal == map[] && Persist(db.base) == db.base
    && db.gen0 == db.cur == line.igen == line.view.gen
    && db.cur in db.snaps && db.snaps[db.cur] == Stamped(db.base, 0)
  }

  ghost predicate NewGen(db: Db, g: nat) { g <= db.lastGen && g !in db.snaps }

  ghost predicate SiteOk(line: Timeline.Line, db: Db, site: Site) {
    match site
    case BlockTp(ts, snap, w, g) => Committed(line, db, ts, snap, w) && NewGen(db, g)
    case BlockAp(ts) => Fresh(line, db, ts)
    case Reopen(role) => role.Owner? && (role.rdDrained ==> role.insDrained)
    case _ => true
  }

  predicate ReserveRole(role: Gate.Role) { role.Inserter? || role == UPDATE || role == EXCLUSIVE }

  /** The roles carried by a program point fit it. */
  predicate RoleOk(p: Pc) {
    match p
    case InCas(obs) => obs.phase == Gate.Open
    case ResCas(role, _) => ReserveRole(role)
    case Ph(site, _) => site.Reopen? ==> site.role.Owner?
    case _ => true
  }

  /** What one thread may rely on at its program point. */
  ghost predicate Local(line: Timeline.Line, db: Db, p: Pc) {
    match p
    case RdPin(v) => Shows(db, v.ts, v.gen) && v.ts <= line.read
    case RdCheck(v, _) => Shows(db, v.ts, v.gen) && v.ts <= line.read
    case RdLease(ts, g) => Shows(db, ts, g) && ts <= line.read
    case InCas(obs) => obs.phase == Gate.Open
    case InHold(ts) => ts !in db.log && ts > db.ckpt.ts
    case InWork(ts, g) => g == db.cur && ts !in db.log && ts > db.ckpt.ts
    case InApply(ts, g, todo) => g == db.cur && InsertPartly(db, ts, todo)
    case ResW(role) => ReserveRole(role)
    case ResR(role, c) => ReserveRole(role) && (role.Owner? ==> c == line.write)
    case ResRefresh(role, _) => ReserveRole(role) && !role.Owner?
    case ResCas(role, c) => ReserveRole(role) && (role.Owner? ==> c == line.write)
    case ResBroken(role) => false
    case ResFull(role) => role.Inserter?
    case Ph(site, seen) =>
      SiteOk(line, db, site) && (seen.Some? && !Enters(site) ==> Expected(site, seen.value.phase))
    case PhThrow(site) => false
    case UpHold(ts) => Fresh(line, db, ts)
    case TpWork(ts, clone) => Fresh(line, db, ts) && db.cur in db.snaps && clone == db.snaps[db.cur]
    case TpReady(ts, snap, w, g) =>
      Fresh(line, db, ts) && NewGen(db, g) && db.cur in db.snaps && snap == Rewritten(db.snaps[db.cur], w, ts)
    case TpPublish(ts, snap, w, g) => Committed(line, db, ts, snap, w) && NewGen(db, g)
    case UpGen(role, ts, g) =>
      (role == PUBLISH || role == EXCLUSIVE) && line.write == ts + 1 && db.cur == g && db.inst == ts
    case ApDrain(ts) => Fresh(line, db, ts)
    case ApHold(ts) => Fresh(line, db, ts)
    case ApWork(ts, clone) => Fresh(line, db, ts) && db.cur in db.snaps && clone == db.snaps[db.cur]
    case ApReplace(ts, snap, w) => Committed(line, db, ts, snap, w)
    case RsWrite(ts) => NewEpoch(line, db) && line.write == ts + 1
    case RsRead => NewEpoch(line, db)
    case RsRing(_) => NewEpoch(line, db)
    case RsView => NewEpoch(line, db)
    case CmHold(ts) => Fresh(line, db, ts)
    case CmApply(ts) => line.write == ts + 1 && ts in db.log && db.log[ts] == Write({}, {}) && OlderThan(db, ts)
    case CpMark(job) => JobOk(line, db, job) && (!job.inst ==> InsertDone(db, job.ts))
    case CpLock(job) => JobOk(line, db, job) && (job.role.Owner? ==> OwnNext(line, job.ts))
    case CpCheck(job) => JobOk(line, db, job) && (job.role.Owner? ==> OwnNext(line, job.ts))
    case CpTest(job, _) =>
      JobOk(line, db, job) && (job.role.Owner? ==> OwnNext(line, job.ts) || line.read == job.ts)
    case CpClear(job, n) => JobOk(line, db, job) && (job.role.Owner? ==> n == job.ts)
    case CpStore(job, n) => JobOk(line, db, job) && (job.role.Owner? ==> n == job.ts)
    case CpGen(job, _) => JobOk(line, db, job) && (job.role.Owner? ==> line.read == job.ts)
    case CpPub(job, _, _) => JobOk(line, db, job) && (job.role.Owner? ==> line.read == job.ts)
    case CpUnlock(job) => JobOk(line, db, job) && (job.role.Owner? ==> line.read == job.ts)
    case _ => true
  }

  ghost predicate OwnNext(line: Timeline.Line, ts: nat) {
    line.read + 1 == ts && Timeline.InRing(line, ts)
  }

  ghost predicate Locals(line: Timeline.Line, db: Db, pc: map<Tid, Pc>) {
    forall t :: t in pc ==> Local(line, db, pc[t])
  }

  ghost predicate DbInv(line: Timeline.Line, db: Db, pc: map<Tid, Pc>) {
    && Basic(line, db) && Current(line, db) && Completed(line, db, pc)
    && Published(line, db, pc) && WalOk(line, db) && Locals(line, db, pc)
  }

  ghost predicate Inv(s: State) {
    && Gate.Inv(s.gate, GRoles(s.pc))
    && Timeline.Inv(s.line, LRoles(s.pc))
    && DbInv(s.line, s.db, s.pc)
  }

  lemma LocalGivesRole(line: Timeline.Line, db: Db, p: Pc)
    requires Local(line, db, p)
    ensures RoleOk(p)
  {
  }

  // ---- roles ------------------------------------------------------------------------

  lemma GRolesAfter(pc: map<Tid, Pc>, t: Tid, p: Pc)
    requires t in pc
    ensures GRoles(pc[t := p]) == GRoles(pc)[t := GRole(p)]
  {
  }

  lemma LRolesAfter(pc: map<Tid, Pc>, t: Tid, p: Pc)
    requires t in pc
    ensures LRoles(pc[t := p]) == LRoles(pc)[t := LRole(p)]
  {
  }

  /** Doing anything with the timeline takes admission as an inserter or ownership. */
  lemma TimelineNeedsAdmission(line: Timeline.Line, db: Db, p: Pc)
    requires Local(line, db, p) && !Timeline.Passive(LRole(p))
    ensures GRole(p).Inserter? || (GRole(p).Owner? && GRole(p).insDrained)
  {
  }

  /** While an owner with drained inserters exists, nobody else touches the timeline. */
  lemma OwnerIsAlone(s: State, t: Tid)
    requires Inv(s) && t in s.pc && GRole(s.pc[t]).Owner? && GRole(s.pc[t]).insDrained
    ensures Timeline.NobodyElse(LRoles(s.pc), t)
    ensures forall u :: u in s.pc && u != t ==> !GRole(s.pc[u]).Inserter? && !GRole(s.pc[u]).Owner?
  {
    var rs := GRoles(s.pc);
    Gate.OwnerIsUnique(s.gate, rs, t);
    assert Gate.OwnerOk(s.gate, rs, rs[t]);
    forall u | u in s.pc && u != t
      ensures !GRole(s.pc[u]).Inserter? && !GRole(s.pc[u]).Owner? && Timeline.Passive(LRole(s.pc[u]))
    {
      assert u in rs && !rs[u].Owner? && !rs[u].Inserter?;
      if !Timeline.Passive(LRole(s.pc[u])) {
        TimelineNeedsAdmission(s.line, s.db, s.pc[u]);
      }
    }
  }

  /** While an exclusive owner exists, no reader is admitted. */
  lemma ExclusiveHasNoReaders(s: State, t: Tid)
    requires Inv(s) && t in s.pc && IsExclusive(s.pc[t])
    ensures forall u :: u in s.pc ==> !GRole(s.pc[u]).Reader?
  {
    var rs := GRoles(s.pc);
    assert Gate.OwnerOk(s.gate, rs, rs[t]);
    forall u | u in s.pc ensures !GRole(s.pc[u]).Reader? {
      assert u in rs;
    }
  }
}
