/**
  Explicit transactions held by the service: a bounded registry of contexts, used by
  concurrent requests, by the reaper of expired transactions and by shutdown.

  A step is one critical section of the registry mutex, one operation on an entry's
  own mutex, or one operation on a context. Expiry is nondeterministic and identifiers
  are arbitrary.
 */
module ServiceTransactions {
  import opened Common

  type Tid = nat
  type Id = nat     // transaction identifier handed to the client
  type Eid = nat    // identity of an Entry object

  datatype Ctx = Active | RollbackOnly | Done

  /** What finally became of the concrete transaction owned by a context. */
  datatype Fate = Undecided | Committed | Aborted

  datatype Entry = Entry(ctx: Ctx, fate: Fate, lock: Option<Tid>)

  datatype Op = Execute | Commit | Rollback

  type Pairs = set<(Id, Eid)>

  /** What follows the removal of an entry: return, or go on reaping. */
  datatype Rest = Return | Reap(cands: Pairs)

  datatype Pc =
    | Idle
    // Begin: admitted, failing, registering, registration refused
    | BgSlot | BgFail | BgReg(e: Eid) | BgUndo(e: Eid)
    // LockEntry
    | LkTry(op: Op, id: Id, e: Eid) | LkExp(op: Op, id: Id, e: Eid)
    // bodies, with the entry locked
    | ExBody(id: Id, e: Eid) | ExEnd(id: Id, e: Eid)
    | CmBody(id: Id, e: Eid) | CmPrepared(id: Id, e: Eid) | CmFinal(id: Id, e: Eid)
    | RbBody(id: Id, e: Eid)
    | Unlock(e: Eid) | RmUnlock(id: Id, e: Eid, rest: Rest) | Rm(id: Id, e: Eid, rest: Rest)
    // Close, with the number of Open calls seen when it emptied the registry
    | ClRoll(es: set<Eid>, k: nat) | ClRb(es: set<Eid>, e: Eid, k: nat)
    | ClUnl(es: set<Eid>, e: Eid, k: nat) | ClWait(k: nat)
    // ReapExpiredTransactions
    | RpLoop(cands: Pairs) | RpRb(cands: Pairs, id: Id, e: Eid)

  datatype State = State(
    max: nat,                    // max_transactions_
    entries: map<Id, Eid>,       // entries_
    pending: nat,                // pending_begins_
    accepting: bool,             // accepting_
    opens: nat,                  // history: number of Open calls
    heap: map<Eid, Entry>,
    pc: map<Tid, Pc>)

  // ---- context operations ------------------------------------------------------------

  function Aborts(e: Entry, ctx: Ctx): Entry {
    e.(ctx := ctx, fate := if e.ctx.Active? then Aborted else e.fate)
  }

  /** TransactionContext::Rollback. */
  function RolledBack(e: Entry): Entry { Aborts(e, Done) }

  /** TransactionContext::AbortAndMarkRollbackOnly. */
  function Broken(e: Entry): Entry { Aborts(e, RollbackOnly) }

  /** A successful Commit or CommitPreparedTpSnapshot. */
  function CommittedEntry(e: Entry): Entry { e.(ctx := Done, fate := Committed) }

  // ---- steps ----------------------------------------------------------------------------

  function To(s: State, t: Tid, p: Pc): State { s.(pc := s.pc[t := p]) }

  function Put(s: State, t: Tid, e: Eid, v: Entry, p: Pc): State {
    s.(heap := s.heap[e := v], pc := s.pc[t := p])
  }

  function Locked(v: Entry, t: Tid): Entry { v.(lock := Some(t)) }

  function Unlocked(v: Entry): Entry { v.(lock := None) }

  function Body(op: Op, id: Id, e: Eid): Pc {
    match op
    case Execute => ExBody(id, e)
    case Commit => CmBody(id, e)
    case Rollback => RbBody(id, e)
  }

  function After(rest: Rest): Pc { if rest.Return? then Idle else RpLoop(rest.cands) }

  ghost predicate IdleStep(s: State, t: Tid, s': State) {
    || (s.accepting && |s.entries| + s.pending < s.max
        && s' == To(s, t, BgSlot).(pending := s.pending + 1))
    || (exists op: Op, id :: id in s.entries && s' == To(s, t, LkTry(op, id, s.entries[id])))
    || s' == To(s, t, ClRoll(s.entries.Values, s.opens)).(accepting := false, entries := map[])
    || s' == s.(accepting := false)
    || s' == s.(accepting := true, opens := s.opens + 1)
    || (exists c: Pairs :: c <= s.entries.Items && s' == To(s, t, RpLoop(c)))
  }

  ghost predicate BeginStep(s: State, t: Tid, p: Pc, s': State) {
    match p
    case BgSlot =>
      || s' == To(s, t, BgFail)
      || (exists e: Eid :: e !in s.heap && s' == Put(s, t, e, Entry(Active, Undecided, None), BgReg(e)))
    case BgFail => s.pending > 0 && s' == To(s, t, Idle).(pending := s.pending - 1)
    case BgReg(e) =>
      // an exception: the entry goes away, and its transaction with it
      || (e in s.heap && s' == Put(s, t, e, RolledBack(s.heap[e]), BgFail))
      || (if !s.accepting then s.pending > 0 && s' == To(s, t, BgUndo(e)).(pending := s.pending - 1)
          else (exists id: Id ::
                  || (id in s.entries && s' == s)
                  || (id !in s.entries && s.pending > 0
                      && s' == To(s, t, Idle).(entries := s.entries[id := e], pending := s.pending - 1))))
    case BgUndo(e) => e in s.heap && s' == Put(s, t, e, RolledBack(s.heap[e]), Idle)
    case _ => false
  }

  ghost predicate LockStep(s: State, t: Tid, p: Pc, s': State) {
    match p
    case LkTry(op, id, e) =>
      e in s.heap &&
      if s.heap[e].lock == None then s' == Put(s, t, e, Locked(s.heap[e], t), LkExp(op, id, e))
      else s' == To(s, t, Idle)
    case LkExp(op, id, e) =>
      e in s.heap &&
      (|| s' == Put(s, t, e, RolledBack(s.heap[e]), RmUnlock(id, e, Return))
       || s' == To(s, t, Body(op, id, e)))
    case Unlock(e) => e in s.heap && s' == Put(s, t, e, Unlocked(s.heap[e]), Idle)
    case RmUnlock(id, e, rest) => e in s.heap && s' == Put(s, t, e, Unlocked(s.heap[e]), Rm(id, e, rest))
    case Rm(id, e, rest) =>
      s' == To(s, t, After(rest)).(
        entries := if id in s.entries && s.entries[id] == e then s.entries - {id} else s.entries)
    case _ => false
  }

  ghost predicate BodyStep(s: State, t: Tid, p: Pc, s': State) {
    match p
    case ExBody(id, e) =>
      e in s.heap &&
      if !s.heap[e].ctx.Active? then s' == To(s, t, Unlock(e))
      else (|| s' == To(s, t, Unlock(e))                              // no slot
            || s' == Put(s, t, e, Broken(s.heap[e]), Unlock(e))        // failed statement
            || s' == To(s, t, ExEnd(id, e)))
    case ExEnd(id, e) =>
      e in s.heap &&
      (|| s' == Put(s, t, e, RolledBack(s.heap[e]), RmUnlock(id, e, Return))
       || s' == To(s, t, Unlock(e)))
    case CmBody(id, e) =>
      e in s.heap &&
      if !s.heap[e].ctx.Active? then s' == To(s, t, Unlock(e))
      else (|| s' == Put(s, t, e, CommittedEntry(s.heap[e]), RmUnlock(id, e, Return))   // read only
            || s' == Put(s, t, e, Broken(s.heap[e]), RmUnlock(id, e, Return))
            || s' == Put(s, t, e, RolledBack(s.heap[e]), RmUnlock(id, e, Return))        // prepare failed
            || s' == To(s, t, CmPrepared(id, e)))
    case CmPrepared(id, e) =>
      e in s.heap &&
      (|| s' == Put(s, t, e, RolledBack(s.heap[e]), RmUnlock(id, e, Return))             // expired
       || s' == To(s, t, CmFinal(id, e)))
    case CmFinal(id, e) =>
      e in s.heap &&
      (|| s' == Put(s, t, e, CommittedEntry(s.heap[e]), RmUnlock(id, e, Return))
       || s' == Put(s, t, e, Broken(s.heap[e]), RmUnlock(id, e, Return)))
    case RbBody(id, e) => e in s.heap && s' == Put(s, t, e, RolledBack(s.heap[e]), RmUnlock(id, e, Return))
    case _ => false
  }

  ghost predicate SweepStep(s: State, t: Tid, p: Pc, s': State) {
    match p
    case ClRoll(es, k) =>
      if es == {} then s' == To(s, t, ClWait(k))
      else (exists e :: e in es && e in s.heap && s.heap[e].lock == None
              && s' == Put(s, t, e, Locked(s.heap[e], t), ClRb(es, e, k)))
    case ClRb(es, e, k) => e in s.heap && s' == Put(s, t, e, RolledBack(s.heap[e]), ClUnl(es - {e}, e, k))
    case ClUnl(es, e, k) => e in s.heap && s' == Put(s, t, e, Unlocked(s.heap[e]), ClRoll(es, k))
    case ClWait(k) => s.pending == 0 && s' == To(s, t, Idle)
    case RpLoop(c) =>
      if c == {} then s' == To(s, t, Idle)
      else (exists id: Id, e: Eid :: (id, e) in c && e in s.heap
              && if s.heap[e].lock == None
                 then s' == Put(s, t, e, Locked(s.heap[e], t), RpRb(c - {(id, e)}, id, e))
                 else s' == To(s, t, RpLoop(c - {(id, e)})))
    case RpRb(c, id, e) => e in s.heap && s' == Put(s, t, e, RolledBack(s.heap[e]), RmUnlock(id, e, Reap(c)))
    case _ => false
  }

  datatype Family = FIdle | FBegin | FLock | FBody | FSweep

  function FamilyOf(p: Pc): Family {
    match p
    case Idle => FIdle
    case BgSlot => FBegin
    case BgFail => FBegin
    case BgReg(_) => FBegin
    case BgUndo(_) => FBegin
    case LkTry(_, _, _) => FLock
    case LkExp(_, _, _) => FLock
    case Unlock(_) => FLock
    case RmUnlock(_, _, _) => FLock
    case Rm(_, _, _) => FLock
    case ClRoll(_, _) => FSweep
    case ClRb(_, _, _) => FSweep
    case ClUnl(_, _, _) => FSweep
    case ClWait(_) => FSweep
    case RpLoop(_) => FSweep
    case RpRb(_, _, _) => FSweep
    case _ => FBody
  }

  ghost predicate Step(s: State, t: Tid, s': State) {
    t in s.pc &&
    match FamilyOf(s.pc[t])
    case FIdle => IdleStep(s, t, s')
    case FBegin => BeginStep(s, t, s.pc[t], s')
    case FLock => LockStep(s, t, s.pc[t], s')
    case FBody => BodyStep(s, t, s.pc[t], s')
    case FSweep => SweepStep(s, t, s.pc[t], s')
  }

  ghost predicate Init(s: State) {
    && s.entries == map[] && s.pending == 0 && s.accepting && s.heap == map[]
    && forall t :: t in s.pc ==> s.pc[t].Idle?
  }

  ghost predicate Next(s: State, s': State) { exists t :: Step(s, t, s') }

  ghost predicate IsRun(run: seq<State>) {
    && |run| > 0 && Init(run[0])
    && forall i :: 0 <= i < |run| - 1 ==> Next(run[i], run[i + 1])
  }

  ghost predicate Reachable(s: State) {
    exists run :: IsRun(run) && s == run[|run| - 1]
  }
}
