/** How the store half of the invariant survives each kind of change. */
module ProtocolData {
  import Gate
  import Timeline
  import TimelineProof
  import opened Store
  import opened Protocol
  import opened ProtocolInv

  // ---- bystanders ---------------------------------------------------------------------

  predicate DrainedOwner(p: Pc) { GRole(p).Owner? && GRole(p).insDrained }

  /** A thread that is not a drained owner relies on the frontier only monotonically. */
  lemma BystanderLine(line: Timeline.Line, line': Timeline.Line, db: Db, p: Pc)
    requires Local(line, db, p) && !DrainedOwner(p) && line.read <= line'.read
    ensures Local(line', db, p)
  {
  }

  predicate Outsider(p: Pc) { GRole(p).Outside? || GRole(p).Speculative? }

  /** A thread outside the gate relies on nothing that others can change. */
  lemma OutsiderLocal(line: Timeline.Line, line': Timeline.Line, db: Db, db': Db, p: Pc)
    requires Local(line, db, p) && Outsider(p)
    ensures Local(line', db', p)
  {
  }

  /** Whatever was shown at or below n is still shown. */
  ghost predicate Keeps(db: Db, db': Db, n: nat) {
    forall r: nat, g: nat :: r <= n && Shows(db, r, g) ==> Shows(db', r, g)
  }

  lemma ReaderLocal(line: Timeline.Line, line': Timeline.Line, db: Db, db': Db, p: Pc)
    requires Local(line, db, p) && GRole(p).Reader? && Keeps(db, db', line.read)
    requires line.read <= line'.read
    ensures Local(line', db', p)
  {
  }

  lemma LockLocal(line: Timeline.Line, line': Timeline.Line, db: Db, p: Pc)
    requires Local(line, db, p) && line' == line.(lock := line'.lock)
    ensures Local(line', db, p)
  {
  }

  // ---- witnesses ----------------------------------------------------------------------

  lemma InstalledStays(pc: map<Tid, Pc>, t: Tid, p': Pc)
    requires t in pc && AnyInstalled(pc) && (Installed(pc[t]) ==> Installed(p'))
    ensures AnyInstalled(pc[t := p'])
  {
    var u :| u in pc && Installed(pc[u]);
    var pc' := pc[t := p'];
    assert u in pc' && Installed(pc'[u]);
  }

  lemma ExclusiveStays(pc: map<Tid, Pc>, t: Tid, p': Pc)
    requires t in pc && AnyExclusive(pc) && (IsExclusive(pc[t]) ==> IsExclusive(p'))
    ensures AnyExclusive(pc[t := p'])
  {
    var u :| u in pc && IsExclusive(pc[u]);
    var pc' := pc[t := p'];
    assert u in pc' && IsExclusive(pc'[u]);
  }

  lemma HeldStays(pc: map<Tid, Pc>, t: Tid, p': Pc, x: nat)
    requires t in pc && Timeline.Held(LRoles(pc), x)
    requires LRole(pc[t]).Pending? ==> LRole(p') == LRole(pc[t])
    ensures Timeline.Held(LRoles(pc[t := p']), x)
  {
    LRolesAfter(pc, t, p');
    TimelineProof.HeldStays(LRoles(pc), t, LRole(p'), x);
  }

  lemma CompletedStays(line: Timeline.Line, db: Db, pc: map<Tid, Pc>, t: Tid, p': Pc)
    requires t in pc && Completed(line, db, pc)
    requires LRole(pc[t]).Pending? ==> LRole(p') == LRole(pc[t])
    ensures Completed(line, db, pc[t := p'])
  {
    forall x | Floor(line, db) < x < line.write && !Timeline.Held(LRoles(pc[t := p']), x)
      ensures InsertDone(db, x)
    {
      if Timeline.Held(LRoles(pc), x) { HeldStays(pc, t, p', x); }
    }
  }

  lemma PublishedStays(line: Timeline.Line, db: Db, pc: map<Tid, Pc>, t: Tid, p': Pc)
    requires t in pc && Published(line, db, pc)
    requires Installed(pc[t]) ==> Installed(p') || db.inst <= line.read
    requires IsExclusive(pc[t]) ==> IsExclusive(p') || Shows(db, line.view.ts, line.view.gen)
    ensures Published(line, db, pc[t := p'])
  {
    if !(db.inst <= line.read) { InstalledStays(pc, t, p'); }
    if !Shows(db, line.view.ts, line.view.gen) { ExclusiveStays(pc, t, p'); }
  }

  /** A step that changes neither the line nor the store. */
  lemma PcOnly(line: Timeline.Line, db: Db, pc: map<Tid, Pc>, t: Tid, p': Pc)
    requires DbInv(line, db, pc) && t in pc && Local(line, db, p')
    requires LRole(pc[t]).Pending? ==> LRole(p') == LRole(pc[t])
    requires Installed(pc[t]) ==> Installed(p') || db.inst <= line.read
    requires IsExclusive(pc[t]) ==> IsExclusive(p') || Shows(db, line.view.ts, line.view.gen)
    ensures DbInv(line, db, pc[t := p'])
  {
    CompletedStays(line, db, pc, t, p');
    PublishedStays(line, db, pc, t, p');
  }

  /** A step that changes only the lock of the line. */
  lemma LockOnly(line: Timeline.Line, line': Timeline.Line, db: Db, pc: map<Tid, Pc>, t: Tid, p': Pc)
    requires DbInv(line, db, pc) && t in pc && Local(line, db, p')
    requires line' == line.(lock := line'.lock)
    requires LRole(pc[t]).Pending? ==> LRole(p') == LRole(pc[t])
    requires Installed(pc[t]) ==> Installed(p') || db.inst <= line.read
    requires IsExclusive(pc[t]) ==> IsExclusive(p') || Shows(db, line.view.ts, line.view.gen)
    ensures DbInv(line', db, pc[t := p'])
  {
    var pc' := pc[t := p'];
    PcOnly(line, db, pc, t, p');
    forall u | u in pc' ensures Local(line', db, pc'[u]) {
      LockLocal(line, line', db, pc'[u]);
    }
    assert Completed(line', db, pc');
  }

  // ---- changes of the line ------------------------------------------------------------

  /** Nobody but t is an owner with drained inserters. */
  ghost predicate OthersYield(pc: map<Tid, Pc>, t: Tid) {
    forall u :: u in pc && u != t ==> !DrainedOwner(pc[u])
  }

  lemma LocalsAfterLine(line: Timeline.Line, line': Timeline.Line, db: Db, pc: map<Tid, Pc>, t: Tid, p': Pc)
    requires Locals(line, db, pc) && OthersYield(pc, t) && line.read <= line'.read
    requires Local(line', db, p')
    ensures Locals(line', db, pc[t := p'])
  {
    forall u | u in pc && u != t ensures Local(line', db, pc[u]) {
      BystanderLine(line, line', db, pc[u]);
    }
  }

  /** Nothing can be committed yet under the timestamp being reserved. */
  lemma ReservedLocal(line: Timeline.Line, line': Timeline.Line, db: Db, role: Gate.Role)
    requires Basic(line, db) && WalOk(line, db) && ReserveRole(role)
    requires line' == line.(write := line.write + 1)
    ensures Local(line', db, Reserved(role, line.write))
  {
  }

  lemma CompletedReserve(
    line: Timeline.Line, line': Timeline.Line, db: Db, pc: map<Tid, Pc>, t: Tid, p': Pc)
    requires Completed(line, db, pc) && t in pc && !LRole(pc[t]).Pending?
    requires LRole(p') == Timeline.Pending(line.write) && line' == line.(write := line.write + 1)
    ensures Completed(line', db, pc[t := p'])
  {
    var pc' := pc[t := p'];
    CompletedStays(line, db, pc, t, p');
    assert t in LRoles(pc') && LRoles(pc')[t] == Timeline.Pending(line.write);
  }

  /** A change of ring, lock or write timestamp changes nothing about publication. */
  lemma PublishedLine(
    line: Timeline.Line, line': Timeline.Line, db: Db, pc: map<Tid, Pc>, t: Tid, p': Pc)
    requires Published(line, db, pc) && t in pc
    requires line' == line.(write := line'.write, ring := line'.ring)
    requires Installed(pc[t]) ==> Installed(p')
    requires IsExclusive(pc[t]) ==> IsExclusive(p')
    ensures Published(line', db, pc[t := p'])
  {
    PublishedStays(line, db, pc, t, p');
  }

  lemma ReserveData(line: Timeline.Line, line': Timeline.Line, db: Db, pc: map<Tid, Pc>, t: Tid, role: Gate.Role)
    requires DbInv(line, db, pc) && t in pc && pc[t] == ResCas(role, line.write) && ReserveRole(role)
    requires OthersYield(pc, t) && line' == line.(write := line.write + 1)
    ensures DbInv(line', db, pc[t := Reserved(role, line.write)])
  {
    var p' := Reserved(role, line.write);
    ReservedLocal(line, line', db, role);
    LocalsAfterLine(line, line', db, pc, t, p');
    CompletedReserve(line, line', db, pc, t, p');
    PublishedLine(line, line', db, pc, t, p');
  }

  lemma CompletedMark(
    line: Timeline.Line, line': Timeline.Line, db: Db, pc: map<Tid, Pc>, t: Tid, job: Job)
    requires Completed(line, db, pc) && t in pc && pc[t] == CpMark(job)
    requires line' == line.(ring := line'.ring)
    requires job.ts <= Floor(line, db) || InsertDone(db, job.ts)
    ensures Completed(line', db, pc[t := CpLock(job)])
  {
    var p' := CpLock(job);
    var pc' := pc[t := p'];
    forall x | Floor(line', db) < x < line'.write && !Timeline.Held(LRoles(pc'), x)
      ensures InsertDone(db, x)
    {
      if x != job.ts && Timeline.Held(LRoles(pc), x) {
        LRolesAfter(pc, t, p');
        TimelineProof.HeldStays(LRoles(pc), t, LRole(p'), x);
      }
    }
  }

  lemma MarkLocal(line: Timeline.Line, line': Timeline.Line, db: Db, job: Job)
    requires Local(line, db, CpMark(job))
    requires line' == line.(ring := line'.ring) && Timeline.InRing(line', job.ts)
    requires job.role.Owner? ==> line.read + 1 == job.ts
    ensures Local(line', db, CpLock(job))
  {
  }

  /** Marking a timestamp: whatever it committed is already in the current snapshot. */
  lemma MarkData(line: Timeline.Line, line': Timeline.Line, db: Db, pc: map<Tid, Pc>, t: Tid, job: Job)
    requires DbInv(line, db, pc) && t in pc && pc[t] == CpMark(job)
    requires OthersYield(pc, t) && line' == line.(ring := line'.ring)
    requires Timeline.InRing(line', job.ts)
    requires job.role.Owner? ==> line.read + 1 == job.ts
    ensures DbInv(line', db, pc[t := CpLock(job)])
  {
    var p' := CpLock(job);
    assert Local(line, db, pc[t]);
    MarkLocal(line, line', db, job);
    LocalsAfterLine(line, line', db, pc, t, p');
    CompletedMark(line, line', db, pc, t, job);
    PublishedLine(line, line', db, pc, t, p');
  }

  lemma IgenLocal(line: Timeline.Line, line': Timeline.Line, db: Db, role: Gate.Role, ts: nat, g: nat)
    requires Local(line, db, UpGen(role, ts, g))
    requires line' == line.(igen := g)
    ensures Local(line', db, CpMark(Job(role, ts, true)))
  {
  }

  lemma IgenData(line: Timeline.Line, line': Timeline.Line, db: Db, pc: map<Tid, Pc>, t: Tid)
    requires DbInv(line, db, pc) && t in pc && pc[t].UpGen?
    requires OthersYield(pc, t) && line' == line.(igen := pc[t].g)
    ensures DbInv(line', db, pc[t := CpMark(Job(pc[t].role, pc[t].ts, true))])
  {
    var p' := CpMark(Job(pc[t].role, pc[t].ts, true));
    assert Local(line, db, pc[t]);
    IgenLocal(line, line', db, pc[t].role, pc[t].ts, pc[t].g);
    LocalsAfterLine(line, line', db, pc, t, p');
    CompletedStays(line, db, pc, t, p');
    assert Completed(line', db, pc[t := p']);
    PublishedStays(line, db, pc, t, p');
  }

  lemma ClearLocal(line: Timeline.Line, line': Timeline.Line, db: Db, job: Job, n: nat)
    requires Local(line, db, CpClear(job, n))
    requires line' == line.(ring := line'.ring)
    ensures Local(line', db, CpStore(job, n))
  {
  }

  lemma ClearData(line: Timeline.Line, line': Timeline.Line, db: Db, pc: map<Tid, Pc>, t: Tid, job: Job, n: nat)
    requires DbInv(line, db, pc) && t in pc && pc[t] == CpClear(job, n)
    requires OthersYield(pc, t) && line' == line.(ring := line'.ring)
    ensures DbInv(line', db, pc[t := CpStore(job, n)])
  {
    var p' := CpStore(job, n);
    assert Local(line, db, pc[t]);
    ClearLocal(line, line', db, job, n);
    LocalsAfterLine(line, line', db, pc, t, p');
    CompletedStays(line, db, pc, t, p');
    assert Completed(line', db, pc[t := p']);
    PublishedLine(line, line', db, pc, t, p');
  }

  /** The frontier moves by one over a finished insert, or over nothing. */
  lemma ShowsNext(db: Db, n: nat)
    requires n > 0 && Shows(db, n - 1, db.cur) && InsertDone(db, n)
    requires n !in db.installs
    requires forall i :: i in db.snaps[db.cur] && i.ts == n ==> n in db.log && i.fact in db.log[n].add
    ensures Shows(db, n, db.cur)
  {
    if n in db.log {
      VisStep(db.snaps[db.cur], n, db.log[n]);
    } else {
      VisStepNothing(db.snaps[db.cur], n);
    }
  }

  lemma StoreCurrent(line: Timeline.Line, line': Timeline.Line, db: Db)
    requires Basic(line, db) && Current(line, db) && line' == line.(read := line.read + 1)
    requires db.inst <= line.read ==> InsertDone(db, line.read + 1)
    ensures Current(line', db)
  {
    if db.inst <= line.read { ShowsNext(db, line.read + 1); }
  }

  lemma StoreLocal(line: Timeline.Line, line': Timeline.Line, db: Db, job: Job)
    requires Local(line, db, CpStore(job, line.read + 1)) && line' == line.(read := line.read + 1)
    ensures Local(line', db, CpTest(job, line.read + 1))
  {
    assert JobOk(line', db, job);
  }

  lemma PublishedStore(line: Timeline.Line, line': Timeline.Line, db: Db, pc: map<Tid, Pc>, t: Tid, p': Pc)
    requires Published(line, db, pc) && Basic(line, db) && line' == line.(read := line.read + 1)
    requires db.inst > line.read ==> line.igen == db.cur
    requires t in pc && (IsExclusive(pc[t]) ==> IsExclusive(p'))
    ensures Published(line', db, pc[t := p'])
  {
    if !Shows(db, line.view.ts, line.view.gen) { ExclusiveStays(pc, t, p'); }
  }

  /** Moving the frontier over the timestamp at its head. */
  lemma StoreData(line: Timeline.Line, line': Timeline.Line, db: Db, pc: map<Tid, Pc>, t: Tid, job: Job)
    requires DbInv(line, db, pc) && t in pc && pc[t] == CpStore(job, line.read + 1)
    requires OthersYield(pc, t) && line' == line.(read := line.read + 1) && line.read + 1 < line.write
    requires !Timeline.Held(LRoles(pc), line.read + 1)
    requires db.inst > line.read ==> line.igen == db.cur
    requires line.view.ts <= line.read
    ensures DbInv(line', db, pc[t := CpTest(job, line.read + 1)])
  {
    var p' := CpTest(job, line.read + 1);
    assert Local(line, db, pc[t]);
    StoreLocal(line, line', db, job);
    LocalsAfterLine(line, line', db, pc, t, p');
    StoreCurrent(line, line', db);
    CompletedStays(line, db, pc, t, p');
    assert Completed(line', db, pc[t := p']);
    PublishedStore(line, line', db, pc, t, p');
  }

  /** Publishing the frontier together with the installed generation. */
  lemma PubData(line: Timeline.Line, line': Timeline.Line, db: Db, pc: map<Tid, Pc>, t: Tid, job: Job)
    requires DbInv(line, db, pc) && t in pc && pc[t] == CpPub(job, line.read, line.igen)
    requires OthersYield(pc, t) && line' == line.(view := Timeline.View(line.read, line.igen))
    requires db.inst <= line.read
    ensures DbInv(line', db, pc[t := CpUnlock(job)])
    ensures Shows(db, line'.view.ts, line'.view.gen)
  {
    var p' := CpUnlock(job);
    var pc' := pc[t := p'];
    assert Local(line, db, pc[t]);
    LocalsAfterLine(line, line', db, pc, t, p');
    CompletedStays(line, db, pc, t, p');
    assert Completed(line', db, pc');
    assert Floor(line, db) == line.read;
    assert Published(line', db, pc');
  }
}
