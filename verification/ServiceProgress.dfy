/**
  What a request can do from every reachable state in which nobody is inside: a thread that
  runs alone begins, uses, commits, rolls back, reaps and closes.
 */
module ServiceProgress {
  import opened Common
  import opened ServiceTransactions
  import opened ServiceInvariant
  import opened ServiceSafety

  ghost predicate SoloRun(run: seq<State>, t: Tid) {
    |run| > 0 && forall i :: 0 <= i < |run| - 1 ==> Step(run[i], t, run[i + 1])
  }

  ghost predicate CanReach(s: State, t: Tid, s': State) {
    exists run :: SoloRun(run, t) && run[0] == s && run[|run| - 1] == s'
  }

  lemma Stay(s: State, t: Tid)
    ensures CanReach(s, t, s)
  {
    assert SoloRun([s], t) && [s][0] == s && [s][|[s]| - 1] == s;
  }

  lemma Go(s: State, t: Tid, m: State, s': State)
    requires CanReach(s, t, m) && Step(m, t, s')
    ensures CanReach(s, t, s')
  {
    hide Step;
    var run :| SoloRun(run, t) && run[0] == s && run[|run| - 1] == m;
    var run' := run + [s'];
    assert SoloRun(run', t) && run'[0] == s && run'[|run'| - 1] == s';
  }

  lemma GoIdle(s: State, t: Tid, s': State)
    requires t in s.pc && s.pc[t].Idle? && IdleStep(s, t, s')
    ensures CanReach(s, t, s')
  {
    Stay(s, t);
    hide CanReach;
    Go(s, t, s, s');
  }

  lemma GoBegin(s: State, t: Tid, m: State, s': State)
    requires CanReach(s, t, m) && t in m.pc && FamilyOf(m.pc[t]) == FBegin && BeginStep(m, t, m.pc[t], s')
    ensures CanReach(s, t, s')
  {
    hide CanReach;
    Go(s, t, m, s');
  }

  lemma GoLock(s: State, t: Tid, m: State, s': State)
    requires CanReach(s, t, m) && t in m.pc && FamilyOf(m.pc[t]) == FLock && LockStep(m, t, m.pc[t], s')
    ensures CanReach(s, t, s')
  {
    hide CanReach;
    Go(s, t, m, s');
  }

  lemma GoBody(s: State, t: Tid, m: State, s': State)
    requires CanReach(s, t, m) && t in m.pc && FamilyOf(m.pc[t]) == FBody && BodyStep(m, t, m.pc[t], s')
    ensures CanReach(s, t, s')
  {
    hide CanReach;
    Go(s, t, m, s');
  }

  lemma GoSweep(s: State, t: Tid, m: State, s': State)
    requires CanReach(s, t, m) && t in m.pc && FamilyOf(m.pc[t]) == FSweep && SweepStep(m, t, m.pc[t], s')
    ensures CanReach(s, t, s')
  {
    hide CanReach;
    Go(s, t, m, s');
  }

  ghost predicate AllIdle(s: State) { forall t :: t in s.pc ==> s.pc[t].Idle? }

  /** With nobody inside, no entry is locked and no begin is pending. */
  lemma QuiescentFacts(s: State)
    requires Reachable(s) && AllIdle(s)
    ensures s.pending == 0 && (forall e :: e in s.heap ==> s.heap[e].lock == None)
    ensures forall id :: id in s.entries ==> s.entries[id] in s.heap
    ensures forall i, j :: i in s.entries && j in s.entries && s.entries[i] == s.entries[j] ==> i == j
    ensures forall e :: e in s.heap ==> (s.heap[e].fate == Undecided <==> s.heap[e].ctx == Active)
  {
    ReachableInv(s);
    assert Beginners(s.pc) == {};
  }

  /** The entry is found, locked and not expired. */
  lemma SoloEnter(s: State, t: Tid, op: Op, id: Id) returns (s': State)
    requires Reachable(s) && AllIdle(s) && t in s.pc && id in s.entries
    ensures s.entries[id] in s.heap && s.heap[s.entries[id]].lock == None
    ensures s' == Put(s, t, s.entries[id], Locked(s.heap[s.entries[id]], t), Body(op, id, s.entries[id]))
    ensures CanReach(s, t, s')
  {
    QuiescentFacts(s);
    hide CanReach, Reachable;
    var e := s.entries[id];
    var s1 := To(s, t, LkTry(op, id, e));
    GoIdle(s, t, s1);
    var s2 := Put(s1, t, e, Locked(s.heap[e], t), LkExp(op, id, e));
    GoLock(s, t, s1, s2);
    s' := To(s2, t, Body(op, id, e));
    GoLock(s, t, s2, s');
    assert s'.pc == s.pc[t := Body(op, id, e)];
  }

  /** The entry is unlocked, and the thread returns. */
  lemma SoloLeave(s: State, m: State, t: Tid, e: Eid) returns (s': State)
    requires CanReach(s, t, m) && t in m.pc && m.pc[t] == Unlock(e) && e in m.heap
    ensures s' == Put(m, t, e, Unlocked(m.heap[e]), Idle) && CanReach(s, t, s')
  {
    hide CanReach;
    s' := Put(m, t, e, Unlocked(m.heap[e]), Idle);
    GoLock(s, t, m, s');
  }

  /** The entry is unlocked and removed from the registry. */
  lemma SoloRemove(s: State, m: State, t: Tid, id: Id, e: Eid, rest: Rest) returns (s': State)
    requires CanReach(s, t, m) && t in m.pc && m.pc[t] == RmUnlock(id, e, rest) && e in m.heap
    requires id in m.entries && m.entries[id] == e
    ensures s' == Put(m, t, e, Unlocked(m.heap[e]), After(rest)).(entries := m.entries - {id}) && CanReach(s, t, s')
  {
    hide CanReach;
    var s1 := Put(m, t, e, Unlocked(m.heap[e]), Rm(id, e, rest));
    GoLock(s, t, m, s1);
    s' := To(s1, t, After(rest)).(entries := m.entries - {id});
    GoLock(s, t, s1, s');
    assert s'.pc == m.pc[t := After(rest)];
  }

  /** An open transaction is prepared and committed. */
  lemma SoloDecide(s: State, m: State, t: Tid, id: Id, e: Eid) returns (s': State)
    requires CanReach(s, t, m) && t in m.pc && m.pc[t] == CmBody(id, e) && e in m.heap && m.heap[e].ctx == Active
    ensures s' == Put(m, t, e, CommittedEntry(m.heap[e]), RmUnlock(id, e, Return)) && CanReach(s, t, s')
  {
    hide CanReach;
    var s1 := To(m, t, CmPrepared(id, e));
    GoBody(s, t, m, s1);
    var s2 := To(s1, t, CmFinal(id, e));
    GoBody(s, t, s1, s2);
    s' := Put(s2, t, e, CommittedEntry(s2.heap[e]), RmUnlock(id, e, Return));
    GoBody(s, t, s2, s');
    assert s'.pc == m.pc[t := RmUnlock(id, e, Return)];
  }

  /** A lone commit of an open transaction can end with it committed and unregistered, and nothing else changed. */
  lemma CommitGetsThrough(s: State, t: Tid, id: Id) returns (s': State)
    requires Reachable(s) && AllIdle(s) && t in s.pc && id in s.entries
    ensures CanReach(s, t, s') && s.entries[id] in s.heap
    ensures s' == if s.heap[s.entries[id]].ctx == Active
                  then s.(entries := s.entries - {id}, heap := s.heap[s.entries[id] := Entry(Done, Committed, None)])
                  else s
  {
    var s1 := SoloEnter(s, t, Commit, id);
    hide CanReach, Reachable;
    var e := s.entries[id];
    if s.heap[e].ctx == Active {
      var s2 := SoloDecide(s, s1, t, id, e);
      s' := SoloRemove(s, s2, t, id, e, Return);
      assert s'.heap == s.heap[e := Entry(Done, Committed, None)];
    } else {
      var s2 := To(s1, t, Unlock(e));
      GoBody(s, t, s1, s2);
      s' := SoloLeave(s, s2, t, e);
      assert s'.heap == s.heap;
    }
    assert s'.pc == s.pc;
  }

  /** What a rollback makes of an entry. */
  function Ended(v: Entry): Entry { Entry(Done, if v.ctx == Active then Aborted else v.fate, None) }

  /** A lone rollback aborts an open transaction and unregisters it, whatever its state. */
  lemma RollbackGetsThrough(s: State, t: Tid, id: Id) returns (s': State)
    requires Reachable(s) && AllIdle(s) && t in s.pc && id in s.entries
    ensures CanReach(s, t, s') && s.entries[id] in s.heap
    ensures s' == s.(entries := s.entries - {id}, heap := s.heap[s.entries[id] := Ended(s.heap[s.entries[id]])])
  {
    var s1 := SoloEnter(s, t, Rollback, id);
    hide CanReach, Reachable;
    var e := s.entries[id];
    var s2 := Put(s1, t, e, RolledBack(s1.heap[e]), RmUnlock(id, e, Return));
    GoBody(s, t, s1, s2);
    s' := SoloRemove(s, s2, t, id, e, Return);
    assert s'.heap == s.heap[e := Ended(s.heap[e])] && s'.pc == s.pc;
  }

  /** A lone statement leaves the transaction open and registered. */
  lemma ExecuteGetsThrough(s: State, t: Tid, id: Id) returns (s': State)
    requires Reachable(s) && AllIdle(s) && t in s.pc && id in s.entries
    ensures CanReach(s, t, s') && s' == s
  {
    var s1 := SoloEnter(s, t, Execute, id);
    hide CanReach, Reachable;
    var e := s.entries[id];
    var s2 := To(s1, t, Unlock(e));
    if s.heap[e].ctx == Active {
      var m := To(s1, t, ExEnd(id, e));
      GoBody(s, t, s1, m);
      assert To(m, t, Unlock(e)) == s2;
      GoBody(s, t, m, s2);
    } else {
      GoBody(s, t, s1, s2);
    }
    s' := SoloLeave(s, s2, t, e);
    assert s'.heap == s.heap && s'.pc == s.pc;
  }

  // ---- what can go wrong --------------------------------------------------------------------------------

  /** The thread has the entry locked and rolls its transaction back. */
  lemma SoloEnd(s: State, m: State, t: Tid, id: Id, e: Eid) returns (s': State)
    requires CanReach(s, t, m) && t in s.pc && s.pc[t].Idle? && id in s.entries && s.entries[id] == e && e in s.heap
    requires s.heap[e].lock == None
    requires m == Put(s, t, e, RolledBack(Locked(s.heap[e], t)), RmUnlock(id, e, Return))
    ensures CanReach(s, t, s') && s' == s.(entries := s.entries - {id}, heap := s.heap[e := Ended(s.heap[e])])
  {
    hide CanReach;
    s' := SoloRemove(s, m, t, id, e, Return);
    assert s'.heap == s.heap[e := Ended(s.heap[e])] && s'.pc == s.pc;
  }

  /** A request that finds its transaction expired, or a statement or commit that runs into the limit, ends it. */
  lemma ExpiredGetsThrough(s: State, t: Tid, op: Op, id: Id, late: bool) returns (s': State)
    requires Reachable(s) && AllIdle(s) && t in s.pc && id in s.entries
    requires late ==> op != Rollback && s.entries[id] in s.heap && s.heap[s.entries[id]].ctx == Active
    ensures CanReach(s, t, s') && s.entries[id] in s.heap
    ensures s' == s.(entries := s.entries - {id}, heap := s.heap[s.entries[id] := Ended(s.heap[s.entries[id]])])
  {
    QuiescentFacts(s);
    var e := s.entries[id];
    var m := Put(s, t, e, RolledBack(Locked(s.heap[e], t)), RmUnlock(id, e, Return));
    if late { SoloLate(s, t, op, id, m); } else { SoloExpired(s, t, op, id, m); }
    hide CanReach, Reachable;
    s' := SoloEnd(s, m, t, id, e);
  }

  lemma SoloExpired(s: State, t: Tid, op: Op, id: Id, m: State)
    requires Reachable(s) && AllIdle(s) && t in s.pc && id in s.entries && s.entries[id] in s.heap
    requires m == Put(s, t, s.entries[id], RolledBack(Locked(s.heap[s.entries[id]], t)), RmUnlock(id, s.entries[id], Return))
    ensures CanReach(s, t, m)
  {
    QuiescentFacts(s);
    hide CanReach, Reachable;
    var e := s.entries[id];
    var s1 := To(s, t, LkTry(op, id, e));
    GoIdle(s, t, s1);
    var s2 := Put(s1, t, e, Locked(s.heap[e], t), LkExp(op, id, e));
    GoLock(s, t, s1, s2);
    assert m.heap == Put(s2, t, e, RolledBack(s2.heap[e]), RmUnlock(id, e, Return)).heap;
    assert m.pc == s2.pc[t := RmUnlock(id, e, Return)];
    GoLock(s, t, s2, m);
  }

  lemma SoloLate(s: State, t: Tid, op: Op, id: Id, m: State)
    requires Reachable(s) && AllIdle(s) && t in s.pc && id in s.entries && s.entries[id] in s.heap
    requires op != Rollback && s.heap[s.entries[id]].ctx == Active
    requires m == Put(s, t, s.entries[id], RolledBack(Locked(s.heap[s.entries[id]], t)), RmUnlock(id, s.entries[id], Return))
    ensures CanReach(s, t, m)
  {
    var s1 := SoloEnter(s, t, op, id);
    hide CanReach, Reachable;
    var e := s.entries[id];
    var s2 := To(s1, t, if op == Execute then ExEnd(id, e) else CmPrepared(id, e));
    GoBody(s, t, s1, s2);
    assert m.heap == s2.heap[e := RolledBack(s2.heap[e])] && m.pc == s2.pc[t := RmUnlock(id, e, Return)];
    GoBody(s, t, s2, m);
  }

  /** A statement that fails leaves the transaction registered, rolled back and good for a rollback only. */
  lemma FailedStatementGetsThrough(s: State, t: Tid, id: Id) returns (s': State)
    requires Reachable(s) && AllIdle(s) && t in s.pc && id in s.entries && s.entries[id] in s.heap
    requires s.heap[s.entries[id]].ctx == Active
    ensures CanReach(s, t, s') && s' == s.(heap := s.heap[s.entries[id] := Entry(RollbackOnly, Aborted, None)])
  {
    var s1 := SoloEnter(s, t, Execute, id);
    hide CanReach, Reachable;
    var e := s.entries[id];
    var s2 := Put(s1, t, e, Broken(s1.heap[e]), Unlock(e));
    GoBody(s, t, s1, s2);
    s' := SoloLeave(s, s2, t, e);
    assert s'.heap == s.heap[e := Entry(RollbackOnly, Aborted, None)] && s'.pc == s.pc;
  }

  /** A commit that fails leaves the transaction rolled back and unregistered. */
  lemma FailedCommitGetsThrough(s: State, t: Tid, id: Id) returns (s': State)
    requires Reachable(s) && AllIdle(s) && t in s.pc && id in s.entries && s.entries[id] in s.heap
    requires s.heap[s.entries[id]].ctx == Active
    ensures CanReach(s, t, s')
    ensures s' == s.(entries := s.entries - {id}, heap := s.heap[s.entries[id] := Entry(RollbackOnly, Aborted, None)])
  {
    var s1 := SoloEnter(s, t, Commit, id);
    hide CanReach, Reachable;
    var e := s.entries[id];
    var s2 := Put(s1, t, e, Broken(s1.heap[e]), RmUnlock(id, e, Return));
    GoBody(s, t, s1, s2);
    s' := SoloRemove(s, s2, t, id, e, Return);
    assert s'.heap == s.heap[e := Entry(RollbackOnly, Aborted, None)] && s'.pc == s.pc;
  }

  // ---- begin, reaper, close -------------------------------------------------------------------------------

  /** While the manager accepts and has room, a lone begin registers a new open transaction under any free identifier. */
  lemma BeginGetsThrough(s: State, t: Tid, id: Id, e: Eid) returns (s': State)
    requires Reachable(s) && AllIdle(s) && t in s.pc && s.accepting && |s.entries| < s.max
    requires id !in s.entries && e !in s.heap
    ensures CanReach(s, t, s')
    ensures s' == s.(entries := s.entries[id := e], heap := s.heap[e := Entry(Active, Undecided, None)])
  {
    QuiescentFacts(s);
    hide CanReach, Reachable;
    var s1 := To(s, t, BgSlot).(pending := 1);
    GoIdle(s, t, s1);
    var s2 := Put(s1, t, e, Entry(Active, Undecided, None), BgReg(e));
    GoBegin(s, t, s1, s2);
    s' := To(s2, t, Idle).(entries := s.entries[id := e], pending := 0);
    GoBegin(s, t, s2, s');
    assert s'.pc == s.pc;
  }

  /** The reaper locks an expired entry and rolls its transaction back. */
  lemma SoloExpire(s: State, m: State, t: Tid, id: Id, e: Eid, c: Pairs) returns (s': State)
    requires CanReach(s, t, m) && t in m.pc && m.pc[t] == RpLoop(c) && (id, e) in c && e in m.heap && m.heap[e].lock == None
    ensures CanReach(s, t, s')
    ensures s' == Put(m, t, e, RolledBack(Locked(m.heap[e], t)), RmUnlock(id, e, Reap(c - {(id, e)})))
  {
    hide CanReach;
    var rest: Pairs := c - {(id, e)};
    var s1 := Put(m, t, e, Locked(m.heap[e], t), RpRb(rest, id, e));
    GoSweep(s, t, m, s1);
    s' := Put(s1, t, e, RolledBack(s1.heap[e]), RmUnlock(id, e, Reap(rest)));
    GoSweep(s, t, s1, s');
    assert s'.heap == m.heap[e := RolledBack(Locked(m.heap[e], t))] && s'.pc == m.pc[t := RmUnlock(id, e, Reap(rest))];
  }

  /** The last candidate is removed, and the reaper returns. */
  lemma SoloReaped(s: State, m: State, t: Tid, id: Id, e: Eid) returns (s': State)
    requires CanReach(s, t, m) && t in m.pc && m.pc[t] == RmUnlock(id, e, Reap({})) && e in m.heap
    requires id in m.entries && m.entries[id] == e
    ensures s' == Put(m, t, e, Unlocked(m.heap[e]), Idle).(entries := m.entries - {id}) && CanReach(s, t, s')
  {
    hide CanReach;
    var s1 := SoloRemove(s, m, t, id, e, Reap({}));
    s' := To(s1, t, Idle);
    GoSweep(s, t, s1, s');
    assert s'.pc == m.pc[t := Idle];
  }

  /** The reaper alone ends a transaction that it finds expired. */
  lemma ReapGetsThrough(s: State, t: Tid, id: Id) returns (s': State)
    requires Reachable(s) && AllIdle(s) && t in s.pc && id in s.entries
    ensures CanReach(s, t, s') && s.entries[id] in s.heap
    ensures s' == s.(entries := s.entries - {id}, heap := s.heap[s.entries[id] := Ended(s.heap[s.entries[id]])])
  {
    QuiescentFacts(s);
    hide CanReach, Reachable;
    var e := s.entries[id];
    assert (id, e) in s.entries.Items;
    var s1 := To(s, t, RpLoop({(id, e)}));
    GoIdle(s, t, s1);
    var s2 := SoloExpire(s, s1, t, id, e, {(id, e)});
    assert {(id, e)} - {(id, e)} == {};
    s' := SoloReaped(s, s2, t, id, e);
    assert s'.heap == s.heap[e := Ended(s.heap[e])] && s'.pc == s.pc;
  }

  function EndedAll(heap: map<Eid, Entry>, es: set<Eid>): map<Eid, Entry> {
    map e | e in heap :: if e in es then Ended(heap[e]) else heap[e]
  }

  lemma SoloRollOne(s: State, m: State, t: Tid, es: set<Eid>, e: Eid, k: nat) returns (s': State)
    requires CanReach(s, t, m) && t in m.pc && m.pc[t] == ClRoll(es, k) && e in es && e in m.heap && m.heap[e].lock == None
    ensures s' == Put(m, t, e, Ended(m.heap[e]), ClRoll(es - {e}, k)) && CanReach(s, t, s')
  {
    hide CanReach;
    var s1 := Put(m, t, e, Locked(m.heap[e], t), ClRb(es, e, k));
    GoSweep(s, t, m, s1);
    var s2 := Put(s1, t, e, RolledBack(s1.heap[e]), ClUnl(es - {e}, e, k));
    GoSweep(s, t, s1, s2);
    s' := Put(s2, t, e, Unlocked(s2.heap[e]), ClRoll(es - {e}, k));
    GoSweep(s, t, s2, s');
    assert s'.heap == m.heap[e := Ended(m.heap[e])] && s'.pc == m.pc[t := ClRoll(es - {e}, k)];
  }

  /** The entries taken out of the registry are rolled back one by one. */
  lemma {:induction false} SoloRollAll(s: State, m: State, t: Tid, es: set<Eid>, k: nat) returns (s': State)
    requires CanReach(s, t, m) && t in m.pc && m.pc[t] == ClRoll(es, k) && es <= m.heap.Keys
    requires forall e :: e in es ==> m.heap[e].lock == None
    ensures s' == m.(heap := EndedAll(m.heap, es), pc := m.pc[t := ClRoll({}, k)]) && CanReach(s, t, s')
    decreases es
  {
    hide CanReach;
    if es == {} {
      s' := m;
      assert EndedAll(m.heap, es) == m.heap;
    } else {
      var e :| e in es;
      var s1 := SoloRollOne(s, m, t, es, e, k);
      s' := SoloRollAll(s, s1, t, es - {e}, k);
      assert EndedAll(s1.heap, es - {e}) == EndedAll(m.heap, es);
      assert s'.pc == m.pc[t := ClRoll({}, k)];
    }
  }

  /** A lone close ends every registered transaction, empties the registry and stops the manager. */
  lemma CloseGetsThrough(s: State, t: Tid) returns (s': State)
    requires Reachable(s) && AllIdle(s) && t in s.pc
    ensures CanReach(s, t, s')
    ensures s' == s.(accepting := false, entries := map[], heap := EndedAll(s.heap, s.entries.Values))
  {
    QuiescentFacts(s);
    hide CanReach, Reachable;
    var es := s.entries.Values;
    var s1 := To(s, t, ClRoll(es, s.opens)).(accepting := false, entries := map[]);
    GoIdle(s, t, s1);
    var s2 := SoloRollAll(s, s1, t, es, s.opens);
    var s3 := To(s2, t, ClWait(s.opens));
    GoSweep(s, t, s2, s3);
    s' := To(s3, t, Idle);
    GoSweep(s, t, s3, s');
    assert s'.pc == s.pc;
  }
}
