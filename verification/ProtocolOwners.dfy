/** The store half of the invariant is kept by updates, compactions, checkpoints and completion. */
module ProtocolOwners {
  import opened Common
  import Gate
  import Timeline
  import TimelineProof
  import opened Store
  import opened Protocol
  import opened ProtocolInv
  import opened ProtocolData
  import opened ProtocolCommits
  import opened ProtocolFacts
  import opened ProtocolSteps

  /** What a drained owner with an unfinished timestamp and nothing installed relies on. */
  ghost predicate Owning(s: State, t: Tid) {
    && Alone(s, t) && Tight(s, t) && s.db.inst <= s.line.read
  }

  /** A timestamp given up before its commit has nothing to finish. */
  lemma AbandonLocal(line: Timeline.Line, db: Db, role: Gate.Role, ts: nat)
    requires Fresh(line, db, ts) && db.cur in db.snaps && role.Owner? && role.insDrained
    ensures Local(line, db, Abandon(role, ts))
  {
  }

  // ---- snapshot updates ---------------------------------------------------------------------------

  lemma DrainLocal(s: State, t: Tid, s': State)
    requires t in s.pc && s.pc[t].UpDrain? && UpdateStep(s, t, s.pc[t], s')
    ensures Quiet(s, s') && t in s'.pc && s'.pc == s.pc[t := s'.pc[t]]
    ensures Local(s.line, s.db, s'.pc[t])
  {
  }

  lemma UpdateLocal(s: State, t: Tid, s': State)
    requires t in s.pc && Local(s.line, s.db, s.pc[t]) && UpdateStep(s, t, s.pc[t], s') && s'.db == s.db
    requires s.db.cur in s.db.snaps && !s.pc[t].UpDrain?
    ensures Quiet(s, s') && t in s'.pc && s'.pc == s.pc[t := s'.pc[t]]
    ensures Local(s.line, s.db, s'.pc[t])
    ensures LRole(s'.pc[t]) == LRole(s.pc[t])
  {
    hide Shows, Rewritten, InsertPartly, OlderThan;
    AbandonLocal(s.line, s.db, UPDATE, s.pc[t].ts);
  }

  lemma UpdatePrepare(s: State, t: Tid, s': State, ts: nat, clone: Snap, w: Write)
    requires DbOk(s) && Owning(s, t) && s.pc[t] == TpWork(ts, clone)
    requires s' == SetDb(s, t, s.db.(lastGen := s.db.lastGen + 1),
                         TpReady(ts, Rewritten(clone, w, ts), w, s.db.lastGen + 1))
    ensures DbOk(s')
  {
    var p' := TpReady(ts, Rewritten(clone, w, ts), w, s.db.lastGen + 1);
    hide DbInv;
    LocalAt(s, t);
    LocalsAfterOwner(s.line, s.db, s'.db, s.pc, t, p');
    PrepareData(s.line, s.db, s'.db, s.pc, t, p');
  }

  lemma UpdateData(s: State, t: Tid, s': State)
    requires DbOk(s) && t in s.pc && UpdateStep(s, t, s.pc[t], s')
    requires s.pc[t].TpWork? ==> Owning(s, t)
    ensures DbOk(s')
  {
    hide DbInv;
    LocalAt(s, t);
    if s'.db == s.db {
      if s.pc[t].UpDrain? { DrainLocal(s, t, s'); } else { UpdateLocal(s, t, s'); }
      QuietData(s, t, s', s'.pc[t]);
    } else {
      UpdatePrepare(s, t, s', s.pc[t].ts, s.pc[t].clone, s'.pc[t].w);
    }
  }

  /** An owner's commit: log, and WAL or checkpoint, before the snapshot is switched. */
  lemma OwnerCommit(s: State, t: Tid, s': State, p': Pc, ts: nat, w: Write)
    requires DbOk(s) && Owning(s, t) && LRole(s.pc[t]) == Timeline.Pending(ts) == LRole(p')
    requires !Installed(s.pc[t]) && (IsExclusive(s.pc[t]) ==> IsExclusive(p'))
    requires Fresh(s.line, s.db, ts)
    requires s' == SetDb(s, t, s.db.(log := s.db.log[ts := w], wal := s'.db.wal, upd := s'.db.upd, ckpt := s'.db.ckpt), p')
    requires WalOk(s.line, s'.db) && Local(s.line, s'.db, p')
    ensures DbOk(s')
  {
    KeepsLog(s.db, s'.db, ts, w, s.line.read);
    LocalsAfterOwner(s.line, s.db, s'.db, s.pc, t, p');
    AppendData(s.line, s.db, s'.db, s.pc, t, p', ts, w);
  }

  lemma FreshCommits(s: State, db': Db, ts: nat, w: Write)
    requires DbOk(s) && Fresh(s.line, s.db, ts)
    requires s.db.inst <= s.line.read && s.line.read + 1 == ts
    requires db' == s.db.(log := s.db.log[ts := w], wal := s.db.wal[ts := PersistWrite(w)], upd := db'.upd)
    ensures WalOk(s.line, db') && OlderThan(db', ts)
  {
    FreshIsNewest(s.line, s.db, ts);
    WalAppend(s.line, s.db, db', ts, w);
  }

  lemma TpCommit(s: State, t: Tid, s': State, ts: nat, snap: Snap, w: Write, g: nat)
    requires DbOk(s) && Owning(s, t) && s.pc[t] == TpReady(ts, snap, w, g)
    requires s' == SetDb(s, t, s.db.(log := s.db.log[ts := w], wal := s.db.wal[ts := PersistWrite(w)],
                                 upd := s.db.upd + {ts}),
                         Ph(BlockTp(ts, snap, w, g), None))
    ensures DbOk(s')
  {
    hide DbInv;
    LocalAt(s, t);
    FreshCommits(s, s'.db, ts, w);
    OwnerCommit(s, t, s', Ph(BlockTp(ts, snap, w, g), None), ts, w);
  }

  lemma TpData(s: State, t: Tid, s': State)
    requires DbOk(s) && t in s.pc && TpStep(s, t, s.pc[t], s')
    requires OthersYield(s.pc, t)
    requires !s.pc[t].UpGen? ==> Owning(s, t)
    ensures DbOk(s')
  {
    hide DbInv;
    LocalAt(s, t);
    match s.pc[t]
    case TpReady(ts, snap, w, g) =>
      if s'.pc[t] == Abandon(UPDATE, ts) {
        AbandonLocal(s.line, s.db, UPDATE, ts);
        QuietData(s, t, s', Abandon(UPDATE, ts));
      } else {
        TpCommit(s, t, s', ts, snap, w, g);
      }
    case TpPublish(ts, snap, w, g) => PublishData(s.line, s.db, s'.db, s.pc, t, ts, snap, w, g);
    case UpGen(_, _, _) => IgenData(s.line, s'.line, s.db, s.pc, t);
  }

  // ---- exclusive updates -----------------------------------------------------------------------------

  lemma GuardLocal(s: State, t: Tid, s': State)
    requires t in s.pc && Local(s.line, s.db, s.pc[t]) && GuardStep(s, t, s.pc[t], s') && s'.db == s.db
    requires s.db.cur in s.db.snaps && !s'.pc[t].RsWrite?
    ensures Quiet(s, s') && t in s'.pc && s'.pc == s.pc[t := s'.pc[t]]
    ensures Local(s.line, s.db, s'.pc[t])
    ensures LRole(s'.pc[t]) == LRole(s.pc[t])
    ensures !Installed(s.pc[t]) && (IsExclusive(s.pc[t]) ==> IsExclusive(s'.pc[t]))
  {
    hide Shows, Persist, All, InsertPartly, OlderThan;
  }

  lemma GuardData(s: State, t: Tid, s': State)
    requires DbOk(s) && t in s.pc && GuardStep(s, t, s.pc[t], s')
    requires Owning(s, t)
    ensures DbOk(s')
  {
    hide DbInv;
    LocalAt(s, t);
    if s'.pc[t].RsWrite? {
      CheckpointData(s.line, s.db, s'.db, s.pc, t, s.pc[t].ts);
    } else {
      GuardLocal(s, t, s');
      QuietData(s, t, s', s'.pc[t]);
    }
  }

  /** The three ways a bulk or in-place update commits. */
  lemma ApWal(s: State, db': Db, ts: nat, clone: Snap, w: Write)
    requires DbOk(s) && Fresh(s.line, s.db, ts)
    requires s.db.inst <= s.line.read && s.line.read + 1 == ts
    requires s.db.cur in s.db.snaps && clone == s.db.snaps[s.db.cur]
    requires ApDurable(s.db, db', ts, clone, w)
    ensures WalOk(s.line, db') && OlderThan(db', ts)
  {
    FreshIsNewest(s.line, s.db, ts);
    if db'.ckpt == s.db.ckpt {
      if db'.wal == s.db.wal[ts := PersistWrite(w)] {
        WalAppend(s.line, s.db, db', ts, w);
      } else {
        WalTransient(s.line, s.db, db', ts, w);
      }
    } else {
      WalCheckpoint(s.line, s.db, db', ts, w, Rewritten(clone, w, ts));
    }
  }

  /** How a commit inside ApWork looks. */
  ghost predicate ApDurable(db: Db, db': Db, ts: nat, clone: Snap, w: Write) {
    && db' == db.(log := db.log[ts := w], wal := db'.wal, upd := db'.upd, ckpt := db'.ckpt)
    && (|| (db'.ckpt == db.ckpt && db'.wal == db.wal[ts := PersistWrite(w)])
        || (db'.ckpt == db.ckpt && db'.wal == db.wal && db'.upd == db.upd && PersistWrite(w) == Write({}, {}))
        || (db'.ckpt == Ckpt(Persist(All(Rewritten(clone, w, ts))), ts) && db'.wal == map[]))
  }

  lemma ApShape(s: State, t: Tid, s': State, ts: nat, clone: Snap)
    requires t in s.pc && s.pc[t] == ApWork(ts, clone)
    requires ApStep(s, t, s.pc[t], s') && t in s'.pc && s'.pc[t].ApReplace?
    ensures ApDurable(s.db, s'.db, ts, clone, s'.pc[t].w)
    ensures s' == SetDb(s, t, s'.db, ApReplace(ts, Rewritten(clone, s'.pc[t].w, ts), s'.pc[t].w))
  {
  }

  lemma ApCommit(s: State, t: Tid, s': State, ts: nat, clone: Snap, w: Write)
    requires DbOk(s) && Owning(s, t) && s.pc[t] == ApWork(ts, clone)
    requires ApDurable(s.db, s'.db, ts, clone, w)
    requires s' == SetDb(s, t, s'.db, ApReplace(ts, Rewritten(clone, w, ts), w))
    ensures DbOk(s')
  {
    hide DbInv;
    LocalAt(s, t);
    ApWal(s, s'.db, ts, clone, w);
    OwnerCommit(s, t, s', ApReplace(ts, Rewritten(clone, w, ts), w), ts, w);
  }

  lemma ApData(s: State, t: Tid, s': State)
    requires DbOk(s) && t in s.pc && ApStep(s, t, s.pc[t], s')
    requires Owning(s, t)
    ensures DbOk(s')
  {
    hide DbInv;
    LocalAt(s, t);
    match s.pc[t]
    case ApWork(ts, clone) =>
      if s'.pc[t] == Abandon(EXCLUSIVE, ts) {
        AbandonLocal(s.line, s.db, EXCLUSIVE, ts);
        QuietData(s, t, s', Abandon(EXCLUSIVE, ts));
      } else {
        ApShape(s, t, s', ts, clone);
        ApCommit(s, t, s', ts, clone, s'.pc[t].w);
      }
    case ApReplace(ts, snap, w) => ReplaceData(s.line, s.db, s'.db, s.pc, t, ts, snap, w);
  }

  lemma ResetStepData(s: State, t: Tid, s': State)
    requires DbOk(s) && Alone(s, t) && ResetStep(s, t, s.pc[t], s')
    ensures DbOk(s')
  {
    LocalAt(s, t);
    ResetData(s.line, s'.line, s.db, s.pc, t, s'.pc[t]);
  }

  // ---- compaction and exclusive operations --------------------------------------------------------------

  lemma CompactCommit(s: State, t: Tid, s': State, ts: nat)
    requires DbOk(s) && Owning(s, t) && s.pc[t] == CmHold(ts)
    requires s' == SetDb(s, t, s.db.(log := s.db.log[ts := Write({}, {})], wal := s.db.wal[ts := Write({}, {})],
                                 upd := s.db.upd + {ts}),
                         CmApply(ts))
    ensures DbOk(s')
  {
    hide DbInv, WalOk, OlderThan;
    LocalAt(s, t);
    assert PersistWrite(Write({}, {})) == Write({}, {});
    FreshCommits(s, s'.db, ts, Write({}, {}));
    OwnerCommit(s, t, s', CmApply(ts), ts, Write({}, {}));
  }

  lemma CompactLocal(s: State, t: Tid, s': State)
    requires t in s.pc && CompactStep(s, t, s.pc[t], s') && (s.pc[t].CmDrainR? || s.pc[t].CmDrainI?)
    ensures Quiet(s, s') && t in s'.pc && s'.pc == s.pc[t := s'.pc[t]]
    ensures Local(s.line, s.db, s'.pc[t])
    ensures IsExclusive(s.pc[t]) ==> IsExclusive(s'.pc[t])
  {
  }

  lemma CompactHoldData(s: State, t: Tid, s': State, ts: nat)
    requires DbOk(s) && Owning(s, t) && s.pc[t] == CmHold(ts) && CompactStep(s, t, s.pc[t], s')
    ensures DbOk(s')
  {
    hide DbInv;
    LocalAt(s, t);
    if s'.pc[t] == Abandon(EXCLUSIVE, ts) {
      AbandonLocal(s.line, s.db, EXCLUSIVE, ts);
      QuietData(s, t, s', Abandon(EXCLUSIVE, ts));
    } else {
      CompactCommit(s, t, s', ts);
    }
  }

  lemma CompactStepData(s: State, t: Tid, s': State)
    requires DbOk(s) && t in s.pc && CompactStep(s, t, s.pc[t], s')
    requires s.pc[t].CmHold? || s.pc[t].CmApply? ==> Owning(s, t)
    ensures DbOk(s')
  {
    if s.pc[t].CmHold? {
      CompactHoldData(s, t, s', s.pc[t].ts);
    } else if s.pc[t].CmApply? {
      CompactData(s.line, s.db, s'.db, s.pc, t, s.pc[t].ts);
    } else {
      CompactLocal(s, t, s');
      QuietData(s, t, s', s'.pc[t]);
    }
  }

  lemma ExclusiveLocal(s: State, t: Tid, s': State)
    requires t in s.pc && ExclusiveStep(s, t, s.pc[t], s')
    ensures Quiet(s, s') && t in s'.pc && s'.pc == s.pc[t := s'.pc[t]]
    ensures Local(s.line, s.db, s'.pc[t])
    ensures IsExclusive(s.pc[t]) ==> IsExclusive(s'.pc[t])
    ensures !Installed(s.pc[t]) && !LRole(s.pc[t]).Pending?
  {
    hide Shows, InsertPartly, OlderThan;
  }

  lemma ExclusiveData(s: State, t: Tid, s': State)
    requires DbOk(s) && t in s.pc && ExclusiveStep(s, t, s.pc[t], s')
    ensures DbOk(s')
  {
    ExclusiveLocal(s, t, s');
    QuietData(s, t, s', s'.pc[t]);
  }

  lemma SealData(s: State, t: Tid, s': State)
    requires DbOk(s) && t in s.pc && SealStep(s, t, s.pc[t], s')
    ensures DbOk(s')
  {
    if s.pc[t].SlSeal? {
      QuietData(s, t, s', s'.pc[t]);
    } else {
      ProtocolData.LockOnly(s.line, s'.line, s.db, s.pc, t, Idle);
    }
  }

  // ---- completion -------------------------------------------------------------------------------------

  /** An owner finds its own timestamp at the head of the frontier. */
  lemma CheckLocal(line: Timeline.Line, db: Db, job: Job)
    requires Local(line, db, CpCheck(job))
    ensures Local(line, db, if job.ts == line.read + 1 then CpTest(job, line.read) else CpUnlock(job))
    ensures job.inst ==> job.ts == line.read + 1
  {
  }

  lemma UnlockData(s: State, t: Tid, s': State, job: Job)
    requires DbOk(s) && t in s.pc && s.pc[t] == CpUnlock(job) && CompleteStep(s, t, s.pc[t], s')
    ensures DbOk(s')
  {
    hide DbInv;
    LocalAt(s, t);
    ProtocolData.LockOnly(s.line, s'.line, s.db, s.pc, t, GiveBack(job.role));
  }

  lemma LockData(s: State, t: Tid, s': State, job: Job)
    requires DbOk(s) && t in s.pc && s.pc[t] == CpLock(job) && CompleteStep(s, t, s.pc[t], s')
    ensures DbOk(s')
  {
    hide DbInv;
    LocalAt(s, t);
    ProtocolData.LockOnly(s.line, s'.line, s.db, s.pc, t, CpCheck(job));
  }

  lemma CheckData(s: State, t: Tid, s': State, job: Job)
    requires DbOk(s) && t in s.pc && s.pc[t] == CpCheck(job) && CompleteStep(s, t, s.pc[t], s')
    ensures DbOk(s')
  {
    hide DbInv;
    LocalAt(s, t);
    CheckLocal(s.line, s.db, job);
    QuietData(s, t, s', s'.pc[t]);
  }

  lemma CompleteData(s: State, t: Tid, s': State)
    requires DbOk(s) && t in s.pc && CompleteStep(s, t, s.pc[t], s')
    requires OthersYield(s.pc, t)
    requires s.pc[t].CpMark? && GRole(s.pc[t]).Owner? ==> Tight(s, t)
    ensures DbOk(s')
  {
    match s.pc[t]
    case CpMark(job) => MarkData(s.line, s'.line, s.db, s.pc, t, job);
    case CpLock(job) => LockData(s, t, s', job);
    case CpCheck(job) => CheckData(s, t, s', job);
    case CpUnlock(job) => UnlockData(s, t, s', job);
  }

  /** The scan of an owner stops exactly at its own timestamp. */
  lemma TestLocal(line: Timeline.Line, db: Db, job: Job)
    requires Local(line, db, CpTest(job, line.read)) && Timeline.RingOk(line)
    ensures Local(line, db,
              if Timeline.InRing(line, line.read + 1) then CpClear(job, line.read + 1) else CpGen(job, line.read))
    ensures job.inst && !Timeline.InRing(line, line.read + 1) ==> db.inst <= line.read
  {
    assert JobOk(line, db, job);
    if Timeline.InRing(line, line.read + 1) {
      assert line.ring[Timeline.TsIndex(line.read + 1)] < line.write;
    }
  }

  lemma TestData(s: State, t: Tid, s': State, job: Job)
    requires DbOk(s) && Advancer(s, t) && s.pc[t] == CpTest(job, s.line.read)
    requires AdvanceStep(s, t, s.pc[t], s')
    ensures DbOk(s')
  {
    hide DbInv;
    LocalAt(s, t);
    TestLocal(s.line, s.db, job);
    QuietData(s, t, s', s'.pc[t]);
  }

  lemma InstalledGen(line: Timeline.Line, db: Db, job: Job, n: nat)
    requires Local(line, db, CpStore(job, n)) && job.inst
    ensures line.igen == db.cur
  {
  }

  lemma MoveData(s: State, t: Tid, s': State, job: Job)
    requires DbOk(s) && Advancer(s, t) && s.pc[t] == CpStore(job, s.line.read + 1)
    requires AdvanceStep(s, t, s.pc[t], s')
    ensures DbOk(s')
  {
    hide DbInv;
    LocalAt(s, t);
    if job.inst { InstalledGen(s.line, s.db, job, s.line.read + 1); }
    StoreData(s.line, s'.line, s.db, s.pc, t, job);
  }

  lemma GenData(s: State, t: Tid, s': State, job: Job)
    requires DbOk(s) && t in s.pc && s.pc[t] == CpGen(job, s.line.read)
    requires AdvanceStep(s, t, s.pc[t], s')
    ensures DbOk(s')
  {
    hide DbInv;
    LocalAt(s, t);
    QuietData(s, t, s', CpPub(job, s.line.read, s.line.igen));
  }

  lemma AdvanceData(s: State, t: Tid, s': State)
    requires DbOk(s) && Advancer(s, t) && AdvanceStep(s, t, s.pc[t], s')
    ensures DbOk(s')
  {
    hide DbInv, Timeline.RingOk, Timeline.Held;
    match s.pc[t]
    case CpTest(job, cur) => TestData(s, t, s', job);
    case CpClear(job, n) => ClearData(s.line, s'.line, s.db, s.pc, t, job, n);
    case CpStore(job, n) => MoveData(s, t, s', job);
    case CpGen(job, cur) => GenData(s, t, s', job);
    case CpPub(job, cur, g) => PubData(s.line, s'.line, s.db, s.pc, t, job);
  }
}
