/** How the store half of the invariant survives commits, publications and checkpoints. */
module ProtocolCommits {
  import Gate
  import Timeline
  import TimelineProof
  import opened Store
  import opened Protocol
  import opened ProtocolInv
  import opened ProtocolData

  // ---- what stays shown -----------------------------------------------------------------

  /** A write logged above n changes nothing that is shown at or below n. */
  lemma KeepsLog(db: Db, db': Db, ts: nat, w: Write, n: nat)
    requires n < ts && db' == db.(log := db.log[ts := w], wal := db'.wal, upd := db'.upd, ckpt := db'.ckpt)
    ensures Keeps(db, db', n)
  {
    forall r: nat, g: nat | r <= n && Shows(db, r, g) ensures Shows(db', r, g) {
      SerialFrame(db.base, db.t0, db.log, db'.log, r);
    }
  }

  lemma KeepsItem(db: Db, db': Db, i: Item, n: nat)
    requires n < i.ts && db.cur in db.snaps
    requires db' == db.(snaps := db.snaps[db.cur := db.snaps[db.cur] + {i}])
    ensures Keeps(db, db', n)
  {
    forall r: nat, g: nat | r <= n && Shows(db, r, g) ensures Shows(db', r, g) {
      VisAdd(db.snaps[db.cur], i, r);
    }
  }

  lemma KeepsPublish(db: Db, db': Db, ts: nat, snap: Snap, g: nat, n: nat)
    requires n < ts && g !in db.snaps
    requires db' == db.(snaps := db.snaps[g := snap], cur := g, installs := db.installs[ts := g], inst := ts)
    ensures Keeps(db, db', n)
  {
    forall r: nat, h: nat | r <= n && Shows(db, r, h) ensures Shows(db', r, h) {
      GenFrame(db.gen0, db.t0, db.installs, db'.installs, r);
    }
  }

  // ---- WAL ---------------------------------------------------------------------------------

  /** Logging and appending the persistent part of a write. */
  lemma WalAppend(line: Timeline.Line, db: Db, db': Db, ts: nat, w: Write)
    requires WalOk(line, db) && db.t0 < ts && db.ckpt.ts < ts && ts !in db.log
    requires db' == db.(log := db.log[ts := w], wal := db.wal[ts := PersistWrite(w)], upd := db'.upd)
    ensures WalOk(line, db')
  {
    var m := Mark(db);
    SerialFrame(db.base, db.t0, db.log, db'.log, m);
    SerialFrame(db.ckpt.facts, db.ckpt.ts, db.wal, db'.wal, m);
  }

  lemma WalTransient(line: Timeline.Line, db: Db, db': Db, ts: nat, w: Write)
    requires WalOk(line, db) && db.t0 < ts && db.ckpt.ts < ts && ts !in db.log
    requires PersistWrite(w) == Write({}, {}) && db' == db.(log := db.log[ts := w])
    ensures WalOk(line, db')
  {
    SerialFrame(db.base, db.t0, db.log, db'.log, Mark(db));
  }

  /** The serial state right after the update with timestamp ts. */
  lemma SerialAtCommit(db: Db, db': Db, ts: nat, w: Write)
    requires db.t0 < ts && db' == db.(log := db.log[ts := w], wal := db'.wal, upd := db'.upd, ckpt := db'.ckpt)
    requires Shows(db, ts - 1, db.cur) && OlderThan(db, ts)
    ensures Vis(Rewritten(db.snaps[db.cur], w, ts), ts) == Serial(db'.base, db'.t0, db'.log, ts)
  {
    VisRewritten(db.snaps[db.cur], w, ts);
    SerialFrame(db.base, db.t0, db.log, db'.log, ts - 1);
  }

  lemma VisAll(s: Snap, r: nat)
    requires forall i :: i in s ==> i.ts <= r
    ensures Vis(s, r) == All(s)
  {
  }

  lemma RewrittenBound(s: Snap, w: Write, ts: nat)
    requires forall i :: i in s ==> i.ts < ts
    ensures forall i :: i in Rewritten(s, w, ts) ==> i.ts <= ts
  {
  }

  lemma WalCheckpoint(line: Timeline.Line, db: Db, db': Db, ts: nat, w: Write, snap: Snap)
    requires Basic(line, db) && db.t0 < ts && ts + 1 == line.write && ts !in db.log
    requires Shows(db, ts - 1, db.cur) && OlderThan(db, ts) && snap == Rewritten(db.snaps[db.cur], w, ts)
    requires db' == db.(log := db.log[ts := w], wal := map[], upd := db'.upd, ckpt := Ckpt(Persist(All(snap)), ts))
    ensures WalOk(line, db')
  {
    SerialAtCommit(db, db', ts, w);
    RewrittenBound(db.snaps[db.cur], w, ts);
    VisAll(snap, ts);
  }

  // ---- other threads -------------------------------------------------------------------------

  /** An owner that has not drained inserters relies on nothing in the store. */
  lemma WaitingOwnerLocal(line: Timeline.Line, db: Db, db': Db, p: Pc)
    requires Local(line, db, p) && GRole(p).Owner? && !GRole(p).insDrained
    ensures Local(line, db', p)
  {
  }

  /** Another inserter does not notice an insert commit. */
  lemma InserterAfterAppend(line: Timeline.Line, db: Db, db': Db, ts: nat, w: Write, p: Pc)
    requires Local(line, db, p) && GRole(p).Inserter? && LRole(p) != Timeline.Pending(ts)
    requires db' == db.(log := db.log[ts := w], wal := db'.wal, upd := db'.upd)
    ensures Local(line, db', p)
  {
  }

  lemma InserterAfterItem(line: Timeline.Line, db: Db, db': Db, i: Item, p: Pc)
    requires Local(line, db, p) && GRole(p).Inserter? && db.cur in db.snaps
    requires db' == db.(snaps := db.snaps[db.cur := db.snaps[db.cur] + {i}])
    ensures Local(line, db', p)
  {
  }

  /** While inserters are admitted: everybody else after an insert commit. */
  lemma OthersAfterAppend(line: Timeline.Line, db: Db, db': Db, ts: nat, w: Write, p: Pc)
    requires Local(line, db, p) && !DrainedOwner(p) && LRole(p) != Timeline.Pending(ts) && line.read < ts
    requires db' == db.(log := db.log[ts := w], wal := db'.wal, upd := db'.upd)
    ensures Local(line, db', p)
  {
    match GRole(p)
    case Outside => OutsiderLocal(line, line, db, db', p);
    case Speculative => OutsiderLocal(line, line, db, db', p);
    case Reader =>
      KeepsLog(db, db', ts, w, line.read);
      ReaderLocal(line, line, db, db', p);
    case Inserter => InserterAfterAppend(line, db, db', ts, w, p);
    case Owner(_, _, _) => WaitingOwnerLocal(line, db, db', p);
  }

  lemma OthersAfterItem(line: Timeline.Line, db: Db, db': Db, i: Item, p: Pc)
    requires Local(line, db, p) && !DrainedOwner(p) && line.read < i.ts && db.cur in db.snaps
    requires db' == db.(snaps := db.snaps[db.cur := db.snaps[db.cur] + {i}])
    ensures Local(line, db', p)
  {
    match GRole(p)
    case Outside => OutsiderLocal(line, line, db, db', p);
    case Speculative => OutsiderLocal(line, line, db, db', p);
    case Reader =>
      KeepsItem(db, db', i, line.read);
      ReaderLocal(line, line, db, db', p);
    case Inserter => InserterAfterItem(line, db, db', i, p);
    case Owner(_, _, _) => WaitingOwnerLocal(line, db, db', p);
  }

  /** Under a drained owner the others are readers or outside. */
  ghost predicate OnlyReaders(pc: map<Tid, Pc>, t: Tid) {
    forall u :: u in pc && u != t ==> Outsider(pc[u]) || GRole(pc[u]).Reader?
  }

  ghost predicate OnlyOutsiders(pc: map<Tid, Pc>, t: Tid) {
    forall u :: u in pc && u != t ==> Outsider(pc[u])
  }

  lemma LocalsAfterOwner(line: Timeline.Line, db: Db, db': Db, pc: map<Tid, Pc>, t: Tid, p': Pc)
    requires Locals(line, db, pc) && OnlyReaders(pc, t) && Keeps(db, db', line.read)
    requires Local(line, db', p')
    ensures Locals(line, db', pc[t := p'])
  {
    forall u | u in pc && u != t ensures Local(line, db', pc[u]) {
      if Outsider(pc[u]) {
        OutsiderLocal(line, line, db, db', pc[u]);
      } else {
        ReaderLocal(line, line, db, db', pc[u]);
      }
    }
  }

  lemma LocalsAfterExclusive(
    line: Timeline.Line, line': Timeline.Line, db: Db, db': Db, pc: map<Tid, Pc>, t: Tid, p': Pc)
    requires Locals(line, db, pc) && OnlyOutsiders(pc, t) && Local(line', db', p')
    ensures Locals(line', db', pc[t := p'])
  {
    forall u | u in pc && u != t ensures Local(line', db', pc[u]) {
      OutsiderLocal(line, line', db, db', pc[u]);
    }
  }

  // ---- commits ----------------------------------------------------------------------------------

  lemma CompletedAfterLog(
    line: Timeline.Line, db: Db, db': Db, pc: map<Tid, Pc>, t: Tid, p': Pc, ts: nat, w: Write)
    requires Completed(line, db, pc) && t in pc && LRole(pc[t]) == Timeline.Pending(ts) == LRole(p')
    requires db' == db.(log := db.log[ts := w], wal := db'.wal, upd := db'.upd, ckpt := db'.ckpt)
    ensures Completed(line, db', pc[t := p'])
  {
    var pc' := pc[t := p'];
    CompletedStays(line, db, pc, t, p');
    forall x | Floor(line, db') < x < line.write && !Timeline.Held(LRoles(pc'), x)
      ensures InsertDone(db', x)
    {
      assert t in LRoles(pc') && LRoles(pc')[t] == Timeline.Pending(ts);
      assert InsertDone(db, x);
    }
  }

  /** Publication facts after a change of the store that installs nothing. */
  lemma PublishedAfter(line: Timeline.Line, db: Db, db': Db, pc: map<Tid, Pc>, t: Tid, p': Pc)
    requires Published(line, db, pc) && t in pc && db'.inst == db.inst && db'.cur == db.cur
    requires line.view.ts <= line.read && Keeps(db, db', line.read)
    requires Installed(pc[t]) ==> Installed(p')
    requires IsExclusive(pc[t]) ==> IsExclusive(p')
    ensures Published(line, db', pc[t := p'])
  {
    PublishedStays(line, db, pc, t, p');
  }

  lemma CurrentAfterLog(line: Timeline.Line, db: Db, db': Db, ts: nat, w: Write)
    requires Basic(line, db) && Current(line, db) && Floor(line, db) < ts < line.write && ts !in db.log
    requires db' == db.(log := db.log[ts := w], wal := db'.wal, upd := db'.upd, ckpt := db'.ckpt)
    ensures Basic(line, db') && Current(line, db')
  {
    KeepsLog(db, db', ts, w, Floor(line, db));
  }

  /** A commit point: the write is logged under its timestamp, before it is visible. */
  lemma AppendData(
    line: Timeline.Line, db: Db, db': Db, pc: map<Tid, Pc>, t: Tid, p': Pc, ts: nat, w: Write)
    requires DbInv(line, db, pc) && t in pc && LRole(pc[t]) == Timeline.Pending(ts) == LRole(p')
    requires db.inst <= line.read < ts < line.write && ts !in db.log && line.view.ts <= line.read
    requires !Installed(pc[t]) && (IsExclusive(pc[t]) ==> IsExclusive(p'))
    requires db' == db.(log := db.log[ts := w], wal := db'.wal, upd := db'.upd, ckpt := db'.ckpt)
    requires WalOk(line, db') && Locals(line, db', pc[t := p'])
    ensures DbInv(line, db', pc[t := p'])
  {
    CurrentAfterLog(line, db, db', ts, w);
    CompletedAfterLog(line, db, db', pc, t, p', ts, w);
    KeepsLog(db, db', ts, w, line.read);
    PublishedAfter(line, db, db', pc, t, p');
  }

  // ---- in-place inserts -------------------------------------------------------------------------

  lemma CurrentAfterItem(line: Timeline.Line, db: Db, db': Db, ts: nat, f: Fact)
    requires Basic(line, db) && Current(line, db) && Floor(line, db) < ts
    requires ts in db.log && f in db.log[ts].add
    requires db' == db.(snaps := db.snaps[db.cur := db.snaps[db.cur] + {Item(ts, f)}])
    ensures Basic(line, db') && Current(line, db')
  {
    KeepsItem(db, db', Item(ts, f), Floor(line, db));
  }

  /** One fact of a committed insert is written into the shared snapshot. */
  lemma ItemData(
    line: Timeline.Line, db: Db, db': Db, pc: map<Tid, Pc>, t: Tid, p': Pc, ts: nat, f: Fact)
    requires DbInv(line, db, pc) && t in pc && LRole(pc[t]) == Timeline.Pending(ts) == LRole(p')
    requires db.inst <= line.read < ts < line.write && line.view.ts <= line.read
    requires ts in db.log && f in db.log[ts].add
    requires !Installed(pc[t]) && !IsExclusive(pc[t])
    requires db' == db.(snaps := db.snaps[db.cur := db.snaps[db.cur] + {Item(ts, f)}])
    requires Locals(line, db', pc[t := p'])
    ensures DbInv(line, db', pc[t := p'])
  {
    CurrentAfterItem(line, db, db', ts, f);
    CompletedStays(line, db, pc, t, p');
    assert Completed(line, db', pc[t := p']);
    KeepsItem(db, db', Item(ts, f), line.read);
    PublishedAfter(line, db, db', pc, t, p');
    assert WalOk(line, db');
  }

  // ---- updates ------------------------------------------------------------------------------------

  /** Reserving a generation number. */
  lemma PrepareData(line: Timeline.Line, db: Db, db': Db, pc: map<Tid, Pc>, t: Tid, p': Pc)
    requires DbInv(line, db, pc) && t in pc && LRole(pc[t]) == LRole(p')
    requires db' == db.(lastGen := db.lastGen + 1) && line.view.ts <= line.read
    requires !Installed(pc[t]) && !IsExclusive(pc[t])
    requires Locals(line, db', pc[t := p'])
    ensures DbInv(line, db', pc[t := p'])
  {
    CompletedStays(line, db, pc, t, p');
    assert Completed(line, db', pc[t := p']);
    PublishedAfter(line, db, db', pc, t, p');
  }

  /** The installed snapshot shows the serial state right after its update. */
  lemma CurrentAfterInstall(
    line: Timeline.Line, db: Db, db': Db, ts: nat, snap: Snap, w: Write, g: nat)
    requires Basic(line, db) && Current(line, db) && Committed(line, db, ts, snap, w)
    requires db.inst <= line.read && line.read + 1 == ts && g <= db.lastGen
    requires db' == db.(snaps := db.snaps[g := snap], cur := g, installs := db.installs[ts := g], inst := ts)
    ensures Basic(line, db') && Current(line, db')
  {
    VisRewritten(db.snaps[db.cur], w, ts);
    RewrittenBound(db.snaps[db.cur], w, ts);
  }

  lemma CompletedVacuous(line: Timeline.Line, db: Db, pc: map<Tid, Pc>)
    requires line.write <= Floor(line, db) + 1
    ensures Completed(line, db, pc)
  {
  }

  lemma WalFrame(line: Timeline.Line, db: Db, db': Db)
    requires WalOk(line, db)
    requires db'.log == db.log && db'.wal == db.wal && db'.ckpt == db.ckpt && db'.base == db.base && db'.t0 == db.t0
    ensures WalOk(line, db')
  {
  }

  lemma PublishData(
    line: Timeline.Line, db: Db, db': Db, pc: map<Tid, Pc>, t: Tid, ts: nat, snap: Snap, w: Write, g: nat)
    requires DbInv(line, db, pc) && t in pc && pc[t] == TpPublish(ts, snap, w, g)
    requires db.inst <= line.read && line.read + 1 == ts && line.view.ts <= line.read
    requires OnlyReaders(pc, t)
    requires db' == db.(snaps := db.snaps[g := snap], cur := g, installs := db.installs[ts := g], inst := ts)
    ensures DbInv(line, db', pc[t := UpGen(PUBLISH, ts, g)])
  {
    hide Rewritten, WalOk, Current, Completed;
    var p' := UpGen(PUBLISH, ts, g);
    var pc' := pc[t := p'];
    assert Local(line, db, pc[t]);
    CurrentAfterInstall(line, db, db', ts, snap, w, g);
    CompletedVacuous(line, db', pc');
    WalFrame(line, db, db');
    KeepsPublish(db, db', ts, snap, g, line.read);
    LocalsAfterOwner(line, db, db', pc, t, p');
    assert t in pc' && Installed(pc'[t]);
    assert !AnyExclusive(pc);
  }

  lemma ReplaceData(
    line: Timeline.Line, db: Db, db': Db, pc: map<Tid, Pc>, t: Tid, ts: nat, snap: Snap, w: Write)
    requires DbInv(line, db, pc) && t in pc && pc[t] == ApReplace(ts, snap, w)
    requires db.inst <= line.read && line.read + 1 == ts && line.view.ts <= line.read
    requires OnlyOutsiders(pc, t)
    requires db' == db.(snaps := db.snaps[db.cur := snap], installs := db.installs[ts := db.cur], inst := ts)
    ensures DbInv(line, db', pc[t := UpGen(EXCLUSIVE, ts, db.cur)])
  {
    hide Rewritten, WalOk, Current, Completed;
    var p' := UpGen(EXCLUSIVE, ts, db.cur);
    var pc' := pc[t := p'];
    assert Local(line, db, pc[t]);
    CurrentAfterInstall(line, db, db', ts, snap, w, db.cur);
    CompletedVacuous(line, db', pc');
    WalFrame(line, db, db');
    LocalsAfterExclusive(line, line, db, db', pc, t, p');
    assert t in pc' && Installed(pc'[t]) && IsExclusive(pc'[t]);
  }

  // ---- compaction ---------------------------------------------------------------------------------

  lemma CurrentAfterCompact(line: Timeline.Line, db: Db, db': Db)
    requires Basic(line, db) && Current(line, db) && db.inst <= line.read && OlderThan(db, line.read + 1)
    requires db' == db.(snaps := db.snaps[db.cur := Compacted(db.snaps[db.cur])])
    ensures Basic(line, db') && Current(line, db')
  {
    VisCompacted(db.snaps[db.cur], line.read, line.read);
  }

  /** The owner of the only unfinished timestamp has nothing else to finish. */
  lemma CompletedOwn(line: Timeline.Line, db: Db, pc: map<Tid, Pc>, t: Tid)
    requires t in pc && line.write <= line.read + 2 && LRole(pc[t]) == Timeline.Pending(line.read + 1)
    ensures Completed(line, db, pc)
  {
    assert t in LRoles(pc) && LRoles(pc)[t] == Timeline.Pending(line.read + 1);
  }

  lemma CompactLocals(line: Timeline.Line, db: Db, db': Db, pc: map<Tid, Pc>, t: Tid, ts: nat)
    requires Locals(line, db, pc) && t in pc && pc[t] == CmApply(ts)
    requires OnlyOutsiders(pc, t) && db' == db.(snaps := db'.snaps) && db'.cur in db'.snaps
    ensures OlderThan(db, ts) && line.write <= ts + 1
    ensures Locals(line, db', pc[t := CpMark(Job(EXCLUSIVE, ts, false))])
  {
    assert Local(line, db, pc[t]);
    LocalsAfterExclusive(line, line, db, db', pc, t, CpMark(Job(EXCLUSIVE, ts, false)));
  }

  lemma CompactData(line: Timeline.Line, db: Db, db': Db, pc: map<Tid, Pc>, t: Tid, ts: nat)
    requires DbInv(line, db, pc) && t in pc && pc[t] == CmApply(ts)
    requires db.inst <= line.read && line.read + 1 == ts && line.view.ts <= line.read
    requires OnlyOutsiders(pc, t) && db.cur in db.snaps
    requires db' == db.(snaps := db.snaps[db.cur := Compacted(db.snaps[db.cur])])
    ensures DbInv(line, db', pc[t := CpMark(Job(EXCLUSIVE, ts, false))])
  {
    hide Compacted, Shows, WalOk, Current, Completed, Locals, OnlyOutsiders, OlderThan;
    var pc' := pc[t := CpMark(Job(EXCLUSIVE, ts, false))];
    CompactLocals(line, db, db', pc, t, ts);
    CurrentAfterCompact(line, db, db');
    CompletedOwn(line, db', pc', t);
    WalFrame(line, db, db');
    assert t in pc' && IsExclusive(pc'[t]);
  }

  // ---- manual checkpoint and timeline reset ----------------------------------------------------------

  /** A new timeline shows its base at every timestamp, whatever the line looks like meanwhile. */
  lemma EpochShows(line: Timeline.Line, db: Db, r: nat)
    requires NewEpoch(line, db)
    ensures Shows(db, r, db.cur)
  {
    VisStamped(db.base, 0, r);
    SerialNothing(db.base, 0, db.log, 0, r);
    GenNothing(db.gen0, 0, r);
  }

  /** Everything the store promises right after a manual checkpoint. */
  lemma EpochData(line: Timeline.Line, db: Db, pc: map<Tid, Pc>, t: Tid)
    requires NewEpoch(line, db) && t in pc && 0 < line.write
    requires forall g :: g in db.snaps ==> g <= db.lastGen
    requires Locals(line, db, pc)
    ensures DbInv(line, db, pc)
  {
    EpochShows(line, db, line.read);
    EpochShows(line, db, line.view.ts);
  }

  lemma CheckpointData(line: Timeline.Line, db: Db, db': Db, pc: map<Tid, Pc>, t: Tid, ts: nat)
    requires DbInv(line, db, pc) && t in pc && pc[t] == ApHold(ts)
    requires db.inst <= line.read && line.view.ts == line.read && OnlyOutsiders(pc, t)
    requires db.cur in db.snaps && db' == Checkpointed(db, Persist(All(db.snaps[db.cur])))
    ensures DbInv(line, db', pc[t := RsWrite(ts)])
  {
    assert Local(line, db, pc[t]);
    assert NewEpoch(line, db');
    LocalsAfterExclusive(line, line, db, db', pc, t, RsWrite(ts));
    EpochData(line, db', pc[t := RsWrite(ts)], t);
  }

  /** Any store of the timeline reset. */
  lemma ResetData(line: Timeline.Line, line': Timeline.Line, db: Db, pc: map<Tid, Pc>, t: Tid, p': Pc)
    requires DbInv(line, db, pc) && t in pc && OnlyOutsiders(pc, t) && NewEpoch(line, db)
    requires line'.igen == line.igen && line'.view.gen == line.igen && 0 < line'.write
    requires Local(line', db, p')
    ensures DbInv(line', db, pc[t := p'])
  {
    LocalsAfterExclusive(line, line', db, db, pc, t, p');
    EpochData(line', db, pc[t := p'], t);
  }
}
