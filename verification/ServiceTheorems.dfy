/** What the explicit transaction manager guarantees in every run, and where Close falls short. */
module ServiceTheorems {
  import opened Common
  import opened ServiceTransactions
  import opened ServiceInvariant
  import opened ServiceMoves
  import opened ServiceSafety

  /** Registered transactions and unsettled begins never exceed the limit. */
  lemma CapacityHolds(s: State)
    requires Reachable(s)
    ensures |s.entries| + s.pending <= s.max
    ensures s.pending == |set t | t in s.pc && Begins(s.pc[t])|
  {
    ReachableInv(s);
    assert Beginners(s.pc) == set t | t in s.pc && Begins(s.pc[t]);
  }

  /** The fatal checks on the pending counter and on the context before a commit cannot fire. */
  lemma FatalChecksHold(s: State, t: Tid)
    requires Reachable(s) && t in s.pc
    ensures Begins(s.pc[t]) ==> s.pending > 0
    ensures s.pc[t].CmPrepared? || s.pc[t].CmFinal? ==>
      s.pc[t].e in s.heap && s.heap[s.pc[t].e] == Entry(Active, Undecided, Some(t))
  {
    ReachableInv(s);
    if Begins(s.pc[t]) { assert t in Beginners(s.pc); }
    if s.pc[t].CmPrepared? || s.pc[t].CmFinal? {
      assert Holds(s.pc[t]) == Some(s.pc[t].e) && InMiddle(s.pc[t]);
    }
  }

  /** A transaction's fate is decided once, whatever requests, reaper and shutdown do. */
  lemma {:induction false} FateIsFinal(run: seq<State>, i: nat, j: nat, e: Eid)
    requires IsRun(run) && i <= j < |run| && e in run[i].heap && run[i].heap[e].fate != Undecided
    ensures e in run[j].heap && run[j].heap[e].fate == run[i].heap[e].fate
    decreases j
  {
    hide IsRun;
    if i < j {
      FateIsFinal(run, i, j - 1, e);
      FateNext(run, j - 1, e);
    }
  }

  lemma FateNext(run: seq<State>, i: nat, e: Eid)
    requires IsRun(run) && i + 1 < |run| && e in run[i].heap
    ensures e in run[i + 1].heap && FateMove(run[i].heap[e], run[i + 1].heap[e])
  {
    hide Inv, Step;
    RunInv(run, i);
    assert Next(run[i], run[i + 1]);
    var t :| Step(run[i], t, run[i + 1]);
    FateStep(run[i], t, run[i + 1], e);
  }

  lemma FateStep(s: State, t: Tid, s': State, e: Eid)
    requires Inv(s) && Step(s, t, s') && e in s.heap
    ensures e in s'.heap && FateMove(s.heap[e], s'.heap[e])
  {
    StepKeepsInv(s, t, s');
    InvReady(s, t);
    StepMove(s, t, s');
  }

  /** When nobody is inside the manager, every undecided transaction is registered, and else only broken ones are. */
  lemma QuiescentRegistry(s: State, e: Eid)
    requires Reachable(s) && (forall t :: t in s.pc ==> s.pc[t].Idle?) && e in s.heap
    ensures s.pending == 0 && s.heap[e].lock == None
    ensures s.heap[e].fate == Undecided ==> e in s.entries.Values
    ensures e in s.entries.Values && s.heap[e].fate != Undecided ==> s.heap[e].ctx == RollbackOnly
  {
    ReachableInv(s);
    assert Beginners(s.pc) == {};
    assert !SomeoneOwns(s, e);
    if e in s.entries.Values {
      var id :| id in s.entries && s.entries[id] == e;
      assert !SomeoneRemoves(s, id, e);
    }
  }

  // ---- Close --------------------------------------------------------------------------------------

  /** Close returns with nothing registered and nothing pending, unless somebody called Open meanwhile. */
  lemma CloseEmptiesRegistry(s: State, t: Tid, s': State)
    requires Reachable(s) && Step(s, t, s') && s.pc[t].ClWait? && s.pc[t].k == s.opens
    ensures s'.entries == map[] && s'.pending == 0 && !s'.accepting
  {
    ReachableInv(s);
    assert Closing(s.pc[t]);
  }

  ghost predicate SomeoneRefused(s: State) { exists u :: u in s.pc && s.pc[u].BgUndo? }

  ghost predicate SomeoneActive(s: State) { exists e :: e in s.heap && s.heap[e].ctx == Active }

  /** An entry that a call of Close has taken over and not rolled back yet. */
  ghost predicate StillTaken(s: State, u: Tid, e: Eid) {
    u in s.pc && e in Taken(s.pc[u]) && e in s.heap && s.heap[e].ctx == Active
  }

  ghost predicate OtherCloseBusy(s: State, t: Tid) { exists u, e :: u != t && StillTaken(s, u, e) }

  /**
    Close settles pending begins before the refused ones are rolled back, and does not wait
    for other calls of Close. So when it returns, some transaction is still open exactly when
    a refused begin has not yet reached its rollback, or another call of Close still has one
    to roll back.
   */
  lemma CloseEndsTransactionsIff(s: State, t: Tid, s': State)
    requires Reachable(s) && Step(s, t, s') && s.pc[t].ClWait? && s.pc[t].k == s.opens
    ensures SomeoneActive(s') <==> SomeoneRefused(s) || OtherCloseBusy(s, t)
  {
    CloseEmptiesRegistry(s, t, s');
    ReachableInv(s);
    if e :| e in s.heap && s.heap[e].ctx == Active { ActiveIsOwned(s, t, e); }
    if u :| u in s.pc && s.pc[u].BgUndo? {
      assert Private(s.pc[u]) == Some(s.pc[u].e);
      assert s.pc[u].e in s'.heap && s'.heap[s.pc[u].e].ctx == Active;
    }
    if u, e :| u != t && StillTaken(s, u, e) { assert e in s'.heap && s'.heap[e].ctx == Active; }
  }

  lemma ActiveIsOwned(s: State, t: Tid, e: Eid)
    requires Inv(s) && t in s.pc && s.pc[t].ClWait? && s.pc[t].k == s.opens && s.pending == 0
    requires e in s.heap && s.heap[e].ctx == Active
    ensures SomeoneRefused(s) || OtherCloseBusy(s, t)
  {
    assert Closing(s.pc[t]);
    assert SomeoneOwns(s, e);
    var u :| u in s.pc && Owned(s.pc[u], e);
    assert Beginners(s.pc) == {};
    assert u !in Beginners(s.pc);
    if e in Taken(s.pc[u]) {
      assert u != t && StillTaken(s, u, e);
    } else {
      assert s.pc[u].BgUndo?;
    }
  }

  // ---- what a caller of Close can check ----------------------------------------------------------

  /** No begin and no other Close is under way. */
  ghost predicate Calm(s: State, t: Tid) {
    s.pending == 0 && !SomeoneRefused(s) && !OtherCloseBusy(s, t)
  }

  /** While t closes: no begin is under way, and every open transaction is one that t took over. */
  ghost predicate Settled(s: State, t: Tid) {
    && t in s.pc && s.pending == 0 && !SomeoneRefused(s)
    && forall e :: e in s.heap && s.heap[e].ctx == Active ==> e in Taken(s.pc[t])
  }

  /** t is inside Close, and nobody has called Open since it emptied the registry. */
  predicate StillClosed(s: State, t: Tid) { t in s.pc && Closing(s.pc[t]) && s.pc[t].k == s.opens }

  lemma CloseSettles(s: State, t: Tid, s': State)
    requires Inv(s) && Calm(s, t) && t in s.pc && s.pc[t].Idle?
    requires s' == To(s, t, ClRoll(s.entries.Values, s.opens)).(accepting := false, entries := map[])
    ensures Settled(s', t)
  {
    assert Beginners(s.pc) == {};
    forall e | e in s.heap && s.heap[e].ctx == Active ensures e in s.entries.Values {
      if e !in s.entries.Values {
        assert SomeoneOwns(s, e);
        var u :| u in s.pc && Owned(s.pc[u], e);
        assert u !in Beginners(s.pc);
        if e in Taken(s.pc[u]) { assert StillTaken(s, u, e); }
      }
    }
  }

  lemma NobodyBegins(s: State, u: Tid)
    requires Inv(s) && s.pending == 0 && u in s.pc
    ensures !Begins(s.pc[u])
  {
    assert Beginners(s.pc) == {};
    assert u !in Beginners(s.pc);
  }

  lemma IdleSettled(s: State, u: Tid, s': State, t: Tid)
    requires Settled(s, t) && StillClosed(s, t) && u in s.pc && u != t && IdleStep(s, u, s')
    requires !s.accepting && s.entries == map[] && StillClosed(s', t)
    ensures Settled(s', t)
  {
  }

  lemma LockSettled(s: State, u: Tid, s': State, t: Tid)
    requires Settled(s, t) && u in s.pc && u != t && LockStep(s, u, s.pc[u], s')
    ensures Settled(s', t)
  {
  }

  lemma BodySettled(s: State, u: Tid, s': State, t: Tid)
    requires Settled(s, t) && u in s.pc && u != t && BodyStep(s, u, s.pc[u], s')
    ensures Settled(s', t)
  {
  }

  lemma SweepSettled(s: State, u: Tid, s': State, t: Tid)
    requires Settled(s, t) && u in s.pc && SweepStep(s, u, s.pc[u], s') && StillClosed(s', t)
    ensures Settled(s', t)
  {
  }

  lemma StaysSettled(s: State, u: Tid, s': State, t: Tid)
    requires Inv(s) && Settled(s, t) && StillClosed(s, t) && Step(s, u, s') && StillClosed(s', t)
    ensures Settled(s', t)
  {
    hide Inv, Settled, IdleStep, BeginStep, LockStep, BodyStep, SweepStep;
    ClosedFacts(s, t);
    NotBeginning(s, t, u);
    match FamilyOf(s.pc[u])
    case FIdle => IdleSettled(s, u, s', t);
    case FLock => LockSettled(s, u, s', t);
    case FBody => BodySettled(s, u, s', t);
    case FSweep => SweepSettled(s, u, s', t);
  }

  lemma ClosedFacts(s: State, t: Tid)
    requires Inv(s) && StillClosed(s, t)
    ensures !s.accepting && s.entries == map[]
  {
  }

  lemma NotBeginning(s: State, t: Tid, u: Tid)
    requires Inv(s) && Settled(s, t) && u in s.pc
    ensures FamilyOf(s.pc[u]) != FBegin
  {
    NobodyBegins(s, u);
  }

  lemma {:induction false} SettledDuring(run: seq<State>, i: nat, m: nat, t: Tid)
    requires IsRun(run) && i < m < |run| && Settled(run[i + 1], t)
    requires forall k :: i < k <= m ==> StillClosed(run[k], t)
    ensures Settled(run[m], t)
    decreases m
  {
    hide Inv, Init, Next, Settled, StillClosed;
    if m > i + 1 {
      SettledDuring(run, i, m - 1, t);
      RunInv(run, m - 1);
      assert Next(run[m - 1], run[m - 1 + 1]);
      NextSettled(run[m - 1], run[m], t);
    }
  }

  lemma NextSettled(s: State, s': State, t: Tid)
    requires Inv(s) && Settled(s, t) && StillClosed(s, t) && Next(s, s') && StillClosed(s', t)
    ensures Settled(s', t)
  {
    hide Inv, Settled, StillClosed, Step;
    var u :| Step(s, u, s');
    StaysSettled(s, u, s', t);
  }

  /**
    If nothing is pending, no refused begin is left and no other Close is busy when Close
    empties the registry, and nobody calls Open before it returns, then no transaction is
    open when it returns.
   */
  lemma CalmCloseEndsTransactions(run: seq<State>, i: nat, j: nat, t: Tid)
    requires IsRun(run) && i < j < |run| - 1 && Calm(run[i], t) && t in run[i].pc && run[i].pc[t].Idle?
    requires run[i + 1] == To(run[i], t, ClRoll(run[i].entries.Values, run[i].opens)).(accepting := false, entries := map[])
    requires forall k :: i < k <= j ==> StillClosed(run[k], t)
    requires t in run[j].pc && run[j].pc[t].ClWait? && Step(run[j], t, run[j + 1])
    ensures !SomeoneActive(run[j + 1])
  {
    RunInv(run, i);
    CloseSettles(run[i], t, run[i + 1]);
    SettledDuring(run, i, j, t);
  }

  function Last(run: seq<State>): State
    requires |run| > 0
  {
    run[|run| - 1]
  }

  lemma Extend(run: seq<State>, t: Tid, s': State)
    requires IsRun(run) && Step(Last(run), t, s')
    ensures IsRun(run + [s']) && Last(run + [s']) == s'
  {
    var run' := run + [s'];
    forall i | 0 <= i < |run'| - 1 ensures Next(run'[i], run'[i + 1]) {
      if i < |run| - 1 { assert Next(run[i], run[i + 1]); }
    }
  }

  const NEW: Entry := Entry(Active, Undecided, None)

  /** A begin on thread 0 that has its transaction but is not registered yet. */
  lemma BeginRun() returns (run: seq<State>)
    ensures IsRun(run)
    ensures Last(run) == State(1, map[], 1, true, 0, map[0 := NEW], map[0 := BgReg(0), 1 := Idle])
  {
    var s0 := State(1, map[], 0, true, 0, map[], map[0 := Idle, 1 := Idle]);
    var s1 := To(s0, 0, BgSlot).(pending := 1);
    var s2 := Put(s1, 0, 0, NEW, BgReg(0));
    run := [s0];
    Extend(run, 0, s1);
    run := run + [s1];
    Extend(run, 0, s2);
    run := run + [s2];
  }

  /** Close reaches its last wait while a begin that it refused still has its transaction active. */
  lemma RefusedRun() returns (run: seq<State>)
    ensures IsRun(run)
    ensures Last(run) == State(1, map[], 0, false, 0, map[0 := NEW], map[0 := BgUndo(0), 1 := ClWait(0)])
  {
    run := BeginRun();
    var s2 := Last(run);
    var s3 := State(1, map[], 1, false, 0, map[0 := NEW], map[0 := BgReg(0), 1 := ClRoll({}, 0)]);
    assert s2.entries.Values == {};
    assert s3 == To(s2, 1, ClRoll(s2.entries.Values, 0)).(accepting := false, entries := map[]);
    Extend(run, 1, s3);
    var s4 := To(s3, 0, BgUndo(0)).(pending := 0);
    Extend(run + [s3], 0, s4);
    var s5 := To(s4, 1, ClWait(0));
    Extend(run + [s3] + [s4], 1, s5);
    run := run + [s3] + [s4] + [s5];
  }

  /** A run in which Close is about to return while a refused begin still holds its transaction open. */
  lemma CloseCanReturnBeforeRollback() returns (run: seq<State>, s': State)
    ensures IsRun(run) && 1 in Last(run).pc && Last(run).pc[1].ClWait? && Last(run).opens == 0
    ensures Step(Last(run), 1, s') && 1 in s'.pc && s'.pc[1].Idle? && SomeoneActive(s')
  {
    run := RefusedRun();
    s' := To(Last(run), 1, Idle);
    assert 0 in s'.heap && s'.heap[0].ctx == Active;
  }

  /** Close on thread 1 with nothing registered. */
  lemma ClosedRun() returns (run: seq<State>)
    ensures IsRun(run)
    ensures Last(run) == State(1, map[], 0, false, 0, map[], map[0 := Idle, 1 := ClRoll({}, 0)])
  {
    var s0 := State(1, map[], 0, true, 0, map[], map[0 := Idle, 1 := Idle]);
    var s1 := State(1, map[], 0, false, 0, map[], map[0 := Idle, 1 := ClRoll({}, 0)]);
    assert s0.entries.Values == {};
    assert s1 == To(s0, 1, ClRoll(s0.entries.Values, 0)).(accepting := false, entries := map[]);
    run := [s0];
    Extend(run, 1, s1);
    run := run + [s1];
  }

  /** It waits for pending begins, and thread 0 calls Open after it. */
  lemma ReopenRun() returns (run: seq<State>)
    ensures IsRun(run)
    ensures Last(run) == State(1, map[], 0, true, 1, map[], map[0 := Idle, 1 := ClWait(0)])
  {
    hide IsRun;
    run := ClosedRun();
    var s1 := To(Last(run), 1, ClWait(0));
    Extend(run, 1, s1);
    run := run + [s1];
    var s2 := s1.(accepting := true, opens := 1);
    Extend(run, 0, s2);
    run := run + [s2];
  }

  /** Then thread 0 begins a transaction. */
  lemma RacingRun() returns (run: seq<State>)
    ensures IsRun(run)
    ensures Last(run) == State(1, map[], 1, true, 1, map[0 := NEW], map[0 := BgReg(0), 1 := ClWait(0)])
  {
    run := ReopenRun();
    var s1 := To(Last(run), 0, BgSlot).(pending := 1);
    Extend(run, 0, s1);
    run := run + [s1];
    var s2 := Put(s1, 0, 0, NEW, BgReg(0));
    Extend(run, 0, s2);
    run := run + [s2];
  }

  lemma Registers(s: State, t: Tid, e: Eid, id: Id, s': State)
    requires t in s.pc && s.pc[t] == BgReg(e) && s.accepting && id !in s.entries && s.pending > 0
    requires s' == To(s, t, Idle).(entries := s.entries[id := e], pending := s.pending - 1)
    ensures Step(s, t, s')
  {
    assert BeginStep(s, t, s.pc[t], s');
  }

  /** A run in which Open overtakes Close, so that Close returns with a transaction registered. */
  lemma OpenDefeatsClose() returns (run: seq<State>, s': State)
    ensures IsRun(run) && 1 in Last(run).pc && Last(run).pc[1].ClWait?
    ensures Step(Last(run), 1, s') && 1 in s'.pc && s'.pc[1].Idle? && s'.entries != map[]
  {
    run := RacingRun();
    var m := To(Last(run), 0, Idle).(entries := map[7 := 0], pending := 0);
    assert m.entries == Last(run).entries[7 := 0];
    Registers(Last(run), 0, 0, 7, m);
    Extend(run, 0, m);
    run := run + [m];
    s' := To(m, 1, Idle);
    assert 7 in s'.entries;
  }
}
