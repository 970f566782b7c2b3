/** How single steps change the committed history and the published view. */
module History {
  import Gate
  import Timeline
  import TimelineProof
  import opened Store
  import opened Protocol
  import opened ProtocolInv
  import opened ProtocolData
  import opened ProtocolFacts
  import opened ProtocolSafety

  /** A manual checkpoint starts a new timeline. */
  predicate StartsTimeline(p: Pc, p': Pc) { p.ApHold? && p'.RsWrite? }

  /** Committed writes stay, and a new one goes under the timestamp the thread owns. */
  ghost predicate LogGrows(db: Db, p: Pc, db': Db) {
    && db'.base == db.base && db'.t0 == db.t0
    && (forall x :: x in db.log ==> x in db'.log && db'.log[x] == db.log[x])
    && (forall x :: x in db'.log && x !in db.log ==> LRole(p) == Timeline.Pending(x))
  }

  lemma InsertGrows(s: State, t: Tid, s': State)
    requires t in s.pc && Local(s.line, s.db, s.pc[t]) && InsertStep(s, t, s.pc[t], s')
    ensures LogGrows(s.db, s.pc[t], s'.db)
  {
  }

  lemma TpGrows(s: State, t: Tid, s': State)
    requires t in s.pc && Local(s.line, s.db, s.pc[t]) && TpStep(s, t, s.pc[t], s')
    ensures LogGrows(s.db, s.pc[t], s'.db)
  {
  }

  lemma ApGrows(s: State, t: Tid, s': State)
    requires t in s.pc && Local(s.line, s.db, s.pc[t]) && ApStep(s, t, s.pc[t], s')
    ensures LogGrows(s.db, s.pc[t], s'.db)
  {
  }

  lemma CompactGrows(s: State, t: Tid, s': State)
    requires t in s.pc && Local(s.line, s.db, s.pc[t]) && CompactStep(s, t, s.pc[t], s')
    ensures LogGrows(s.db, s.pc[t], s'.db)
  {
  }

  lemma GuardGrows(s: State, t: Tid, s': State)
    requires t in s.pc && GuardStep(s, t, s.pc[t], s') && t in s'.pc && !StartsTimeline(s.pc[t], s'.pc[t])
    ensures LogGrows(s.db, s.pc[t], s'.db)
  {
  }

  lemma UpdateGrows(s: State, t: Tid, s': State)
    requires t in s.pc && UpdateStep(s, t, s.pc[t], s')
    ensures LogGrows(s.db, s.pc[t], s'.db)
  {
  }

  predicate Writes(f: Family) {
    f.FInsert? || f.FTp? || f.FAp? || f.FCompact? || f.FGuard? || f.FUpdate?
  }

  /** The other operations do not touch the store at all. */
  lemma OthersKeepDb(s: State, t: Tid, s': State)
    requires Step(s, t, s') && !Writes(FamilyOf(s.pc[t]))
    ensures s'.db == s.db
  {
  }

  lemma WritersGrow(s: State, t: Tid, s': State)
    requires Step(s, t, s') && Writes(FamilyOf(s.pc[t])) && Local(s.line, s.db, s.pc[t])
    requires t in s'.pc && !StartsTimeline(s.pc[t], s'.pc[t])
    ensures LogGrows(s.db, s.pc[t], s'.db)
  {
    hide LogGrows, Local;
    match FamilyOf(s.pc[t])
    case FInsert => InsertGrows(s, t, s');
    case FTp => TpGrows(s, t, s');
    case FAp => ApGrows(s, t, s');
    case FCompact => CompactGrows(s, t, s');
    case FGuard => GuardGrows(s, t, s');
    case FUpdate => UpdateGrows(s, t, s');
  }

  /** Committed writes are never changed or lost by a step of the running system. */
  lemma CommitsStay(s: State, t: Tid, s': State)
    requires Step(s, t, s') && Local(s.line, s.db, s.pc[t])
    requires t in s'.pc && !StartsTimeline(s.pc[t], s'.pc[t])
    ensures LogGrows(s.db, s.pc[t], s'.db)
  {
    hide StepOf, FamilyOf, Writes, Local;
    if Writes(FamilyOf(s.pc[t])) { WritersGrow(s, t, s'); } else { OthersKeepDb(s, t, s'); }
  }

  /** The serial state at a timestamp below the writer's own does not change. */
  lemma SerialStays(db: Db, p: Pc, db': Db, r: nat)
    requires LogGrows(db, p, db') && (LRole(p).Pending? ==> r < LRole(p).ts)
    ensures Serial(db'.base, db'.t0, db'.log, r) == Serial(db.base, db.t0, db.log, r)
  {
    SerialFrame(db.base, db.t0, db.log, db'.log, r);
  }

  // ---- the published view ----------------------------------------------------------------------

  /** Only publication and the end of a timeline reset store the view; only the scan and the reset move the frontier. */
  lemma ViewWriters(s: State, t: Tid, s': State)
    requires Step(s, t, s')
    ensures s'.line.view != s.line.view ==> s.pc[t].CpPub? || s.pc[t].RsView?
    ensures s'.line.read != s.line.read ==> s.pc[t].CpStore? || s.pc[t].RsRead?
    ensures s.pc[t].CpPub? ==> s'.line.view.ts == s.pc[t].cur
    ensures s.pc[t].CpStore? ==> s'.line.read == s.pc[t].nxt
  {
  }
}
