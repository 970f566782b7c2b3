/**
  What a request on an explicit transaction does, from the step with which its thread enters
  the manager to its return.
 */
module ServiceRequests {
  import opened Common
  import opened ServiceTransactions
  import opened ServiceInvariant
  import opened ServiceMoves
  import opened ServiceSafety
  import opened ServiceTheorems

  /** Thread t is inside one request from state i + 1 to state j. */
  ghost predicate InRequest(run: seq<State>, i: nat, j: nat, t: Tid, op: Op, id: Id, e: Eid) {
    && IsRun(run) && i < j < |run|
    && t in run[i].pc && run[i].pc[t].Idle? && t in run[i + 1].pc && run[i + 1].pc[t] == LkTry(op, id, e)
    && forall k :: i < k <= j ==> t in run[k].pc && !run[k].pc[t].Idle?
  }

  /** The points that a request passes: the entry is tried, locked, worked on, unlocked and removed. */
  predicate Serves(op: Op, id: Id, e: Eid, p: Pc) {
    || p == LkTry(op, id, e) || p == LkExp(op, id, e) || p == RmUnlock(id, e, Return) || p == Rm(id, e, Return)
    || match op
       case Execute => p == ExBody(id, e) || p == ExEnd(id, e) || p == Unlock(e)
       case Commit => p == CmBody(id, e) || p == CmPrepared(id, e) || p == CmFinal(id, e) || p == Unlock(e)
       case Rollback => p == RbBody(id, e)
  }

  lemma LockServes(s: State, t: Tid, s': State, op: Op, id: Id, e: Eid)
    requires t in s.pc && LockStep(s, t, s.pc[t], s') && t in s'.pc && Serves(op, id, e, s.pc[t])
    ensures s'.pc[t].Idle? || Serves(op, id, e, s'.pc[t])
  {
  }

  lemma BodyServes(s: State, t: Tid, s': State, op: Op, id: Id, e: Eid)
    requires t in s.pc && BodyStep(s, t, s.pc[t], s') && t in s'.pc && Serves(op, id, e, s.pc[t])
    ensures s'.pc[t].Idle? || Serves(op, id, e, s'.pc[t])
  {
  }

  lemma StepServes(s: State, t: Tid, s': State, op: Op, id: Id, e: Eid)
    requires Step(s, t, s') && t in s'.pc && Serves(op, id, e, s.pc[t])
    ensures s'.pc[t].Idle? || Serves(op, id, e, s'.pc[t])
  {
    hide LockStep, BodyStep;
    match FamilyOf(s.pc[t])
    case FLock => LockServes(s, t, s', op, id, e);
    case FBody => BodyServes(s, t, s', op, id, e);
  }

  /** Another thread's step leaves this one where it is. */
  lemma OthersStay(s: State, u: Tid, s': State, t: Tid)
    requires Inv(s) && Step(s, u, s') && (t in s.pc || t in s'.pc)
    ensures t in s.pc && t in s'.pc && (u != t ==> s'.pc[t] == s.pc[t])
  {
    StepHasThread(s, u, s');
    hide Inv, Step;
    InvReady(s, u);
    StepMove(s, u, s');
  }

  lemma StepHasThread(s: State, u: Tid, s': State)
    requires Step(s, u, s')
    ensures u in s.pc
  {
  }

  lemma {:induction false} RequestServes(run: seq<State>, i: nat, j: nat, t: Tid, op: Op, id: Id, e: Eid)
    requires InRequest(run, i, j, t, op, id, e)
    ensures Serves(op, id, e, run[j].pc[t])
    decreases j
  {
    hide Serves, IsRun, Step, Inv;
    if j == i + 1 {
      StartServes(op, id, e);
    } else {
      RequestServes(run, i, j - 1, t, op, id, e);
      var u := RunStep(run, j - 1);
      OthersStay(run[j - 1], u, run[j], t);
      if u == t { StepServes(run[j - 1], t, run[j], op, id, e); }
    }
  }

  lemma StartServes(op: Op, id: Id, e: Eid)
    ensures Serves(op, id, e, LkTry(op, id, e))
  {
  }

  lemma RunStep(run: seq<State>, k: nat) returns (u: Tid)
    requires IsRun(run) && k + 1 < |run|
    ensures Inv(run[k]) && Step(run[k], u, run[k + 1])
  {
    hide Inv, Step;
    RunInv(run, k);
    assert Next(run[k], run[k + 1]);
    u :| Step(run[k], u, run[k + 1]);
  }

  // ---- where requests come from ---------------------------------------------------------------------

  predicate InsideRequest(p: Pc) {
    p.LkTry? || p.LkExp? || p.ExBody? || p.ExEnd? || p.CmBody? || p.CmPrepared? || p.CmFinal? || p.RbBody?
  }

  lemma IdleEnters(s: State, t: Tid, s': State)
    requires t in s.pc && s.pc[t].Idle? && IdleStep(s, t, s') && t in s'.pc && InsideRequest(s'.pc[t])
    ensures s'.pc[t].LkTry?
  {
  }

  lemma BeginStaysOutside(s: State, t: Tid, s': State)
    requires t in s.pc && BeginStep(s, t, s.pc[t], s') && t in s'.pc
    ensures !InsideRequest(s'.pc[t])
  {
  }

  lemma SweepStaysOutside(s: State, t: Tid, s': State)
    requires t in s.pc && SweepStep(s, t, s.pc[t], s') && t in s'.pc
    ensures !InsideRequest(s'.pc[t])
  {
  }

  lemma WorkersWereInside(s: State, t: Tid, s': State)
    requires t in s.pc && (LockStep(s, t, s.pc[t], s') || BodyStep(s, t, s.pc[t], s')) && t in s'.pc
    ensures InsideRequest(s'.pc[t]) ==> InsideRequest(s.pc[t])
  {
  }

  lemma EntersRequest(s: State, t: Tid, s': State)
    requires Step(s, t, s') && t in s'.pc && InsideRequest(s'.pc[t])
    ensures InsideRequest(s.pc[t]) || (s.pc[t].Idle? && s'.pc[t].LkTry?)
  {
    hide IdleStep, BeginStep, LockStep, BodyStep, SweepStep, InsideRequest;
    match FamilyOf(s.pc[t])
    case FIdle => IdleEnters(s, t, s');
    case FBegin => BeginStaysOutside(s, t, s');
    case FSweep => SweepStaysOutside(s, t, s');
    case FLock => WorkersWereInside(s, t, s');
    case FBody => WorkersWereInside(s, t, s');
  }

  /** A thread inside a request has entered it with one. */
  lemma {:induction false} RequestStart(run: seq<State>, j: nat, t: Tid) returns (i: nat, op: Op, id: Id, e: Eid)
    requires IsRun(run) && j < |run| && t in run[j].pc && InsideRequest(run[j].pc[t])
    ensures InRequest(run, i, j, t, op, id, e)
    decreases j
  {
    hide Step, Inv;
    var u := RunStep(run, j - 1);
    OthersStay(run[j - 1], u, run[j], t);
    if u == t { EntersRequest(run[j - 1], t, run[j]); }
    if run[j - 1].pc[t].Idle? {
      i := j - 1;
      op, id, e := run[j].pc[t].op, run[j].pc[t].id, run[j].pc[t].e;
    } else {
      i, op, id, e := RequestStart(run, j - 1, t);
    }
  }

  /** Which points decide for commit. */
  lemma CommitPoint(s: State, t: Tid, s': State, e: Eid)
    requires Step(s, t, s') && e in s.heap && e in s'.heap && s.heap[e].fate != Committed && s'.heap[e].fate == Committed
    ensures (s.pc[t].CmBody? || s.pc[t].CmFinal?) && s.pc[t].e == e
  {
  }

  /** Only a thread that came in with a commit request for an entry ever commits its transaction. */
  lemma OnlyCommitCommits(run: seq<State>, j: nat, t: Tid, e: Eid) returns (i: nat, id: Id)
    requires IsRun(run) && j + 1 < |run| && Step(run[j], t, run[j + 1]) && e in run[j].heap && e in run[j + 1].heap
    requires run[j].heap[e].fate != Committed && run[j + 1].heap[e].fate == Committed
    ensures InRequest(run, i, j, t, Commit, id, e)
  {
    CommitPoint(run[j], t, run[j + 1], e);
    hide Step, IsRun;
    var op, e0;
    i, op, id, e0 := RequestStart(run, j, t);
    RequestServes(run, i, j, t, op, id, e0);
  }

  /** A rollback or an execution never commits a transaction. */
  lemma OthersNeverCommit(run: seq<State>, i: nat, j: nat, t: Tid, op: Op, id: Id, e: Eid, x: Eid)
    requires InRequest(run, i, j, t, op, id, e) && op != Commit && j + 1 < |run| && Step(run[j], t, run[j + 1])
    requires x in run[j].heap && x in run[j + 1].heap && run[j].heap[x].fate != Committed
    ensures run[j + 1].heap[x].fate != Committed
  {
    hide Step, IsRun;
    RequestServes(run, i, j, t, op, id, e);
    if run[j + 1].heap[x].fate == Committed { CommitPoint(run[j], t, run[j + 1], x); }
  }

  // ---- outcomes -----------------------------------------------------------------------------------------

  /** What has become of an entry, compared with what it was when the request locked it. */
  predicate Stage(op: Op, p: Pc, v0: Entry, v: Entry) {
    if p.RmUnlock? || p.Rm? then
      v.fate != Undecided && (op != Commit && v.fate == Committed ==> v0.fate == Committed)
    else if p.Unlock? then
      (op == Commit ==> v0.ctx != Active) && (v.fate == Committed <==> v0.fate == Committed)
    else v.ctx == v0.ctx && v.fate == v0.fate
  }

  lemma LockStage(s: State, t: Tid, s': State, op: Op, id: Id, e: Eid, v0: Entry)
    requires FateOk(s) && t in s.pc && LockStep(s, t, s.pc[t], s') && t in s'.pc && !s'.pc[t].Idle?
    requires Serves(op, id, e, s.pc[t]) && !s.pc[t].LkTry? && e in s.heap && Stage(op, s.pc[t], v0, s.heap[e])
    ensures e in s'.heap && Stage(op, s'.pc[t], v0, s'.heap[e])
  {
  }

  lemma ExecuteStage(s: State, t: Tid, s': State, op: Op, id: Id, e: Eid, v0: Entry)
    requires FateOk(s) && t in s.pc && BodyStep(s, t, s.pc[t], s') && t in s'.pc && !s'.pc[t].Idle?
    requires InMiddle(s.pc[t]) ==> s.pc[t].e in s.heap && s.heap[s.pc[t].e].ctx == Active
    requires Serves(op, id, e, s.pc[t]) && e in s.heap && Stage(op, s.pc[t], v0, s.heap[e])
    requires op == Execute
    ensures e in s'.heap && Stage(op, s'.pc[t], v0, s'.heap[e])
  {
  }

  lemma CommitStage(s: State, t: Tid, s': State, op: Op, id: Id, e: Eid, v0: Entry)
    requires FateOk(s) && t in s.pc && BodyStep(s, t, s.pc[t], s') && t in s'.pc && !s'.pc[t].Idle?
    requires InMiddle(s.pc[t]) ==> s.pc[t].e in s.heap && s.heap[s.pc[t].e].ctx == Active
    requires Serves(op, id, e, s.pc[t]) && e in s.heap && Stage(op, s.pc[t], v0, s.heap[e])
    requires op == Commit
    ensures e in s'.heap && Stage(op, s'.pc[t], v0, s'.heap[e])
  {
  }

  lemma BodyStage(s: State, t: Tid, s': State, op: Op, id: Id, e: Eid, v0: Entry)
    requires FateOk(s) && t in s.pc && BodyStep(s, t, s.pc[t], s') && t in s'.pc && !s'.pc[t].Idle?
    requires InMiddle(s.pc[t]) ==> s.pc[t].e in s.heap && s.heap[s.pc[t].e].ctx == Active
    requires Serves(op, id, e, s.pc[t]) && e in s.heap && Stage(op, s.pc[t], v0, s.heap[e])
    ensures e in s'.heap && Stage(op, s'.pc[t], v0, s'.heap[e])
  {
    if op == Execute {
      ExecuteStage(s, t, s', op, id, e, v0);
    } else if op == Commit {
      CommitStage(s, t, s', op, id, e, v0);
    }
  }

  lemma OwnStage(s: State, t: Tid, s': State, op: Op, id: Id, e: Eid, v0: Entry)
    requires Inv(s) && Step(s, t, s') && t in s'.pc && !s'.pc[t].Idle?
    requires Serves(op, id, e, s.pc[t]) && !s.pc[t].LkTry? && e in s.heap && Stage(op, s.pc[t], v0, s.heap[e])
    ensures e in s'.heap && Stage(op, s'.pc[t], v0, s'.heap[e])
  {
    hide Stage, LockStep, BodyStep;
    match FamilyOf(s.pc[t])
    case FLock => LockStage(s, t, s', op, id, e, v0);
    case FBody => BodyStage(s, t, s', op, id, e, v0);
  }

  /** While a thread has an entry locked, nobody else changes its context or its fate. */
  lemma OthersKeepEntry(s: State, u: Tid, s': State, t: Tid, e: Eid)
    requires Inv(s) && Step(s, u, s') && t in s.pc && u != t && Holds(s.pc[t]) == Some(e)
    ensures e in s.heap && e in s'.heap && s'.heap[e].ctx == s.heap[e].ctx && s'.heap[e].fate == s.heap[e].fate
  {
    StepHasThread(s, u, s');
    hide Step;
    StepKeepsInv(s, u, s');
    InvReady(s, u);
    StepMove(s, u, s');
    LockedCtx(s, u, s', t, e);
    FateStep(s, u, s', e);
  }

  lemma OtherStage(s: State, u: Tid, s': State, t: Tid, op: Op, id: Id, e: Eid, v0: Entry)
    requires Inv(s) && Step(s, u, s') && t in s.pc && u != t && t in s'.pc && s'.pc[t] == s.pc[t]
    requires Serves(op, id, e, s.pc[t]) && !s.pc[t].LkTry? && e in s.heap && Stage(op, s.pc[t], v0, s.heap[e])
    ensures e in s'.heap && Stage(op, s'.pc[t], v0, s'.heap[e])
  {
    hide Step, Inv;
    if s.pc[t].Rm? { FateStep(s, u, s', e); } else { OthersKeepEntry(s, u, s', t, e); }
  }

  /** Request i to j, which has the entry locked in state k. */
  lemma {:induction false} RequestStage(run: seq<State>, i: nat, k: nat, j: nat, t: Tid, op: Op, id: Id, e: Eid)
    requires InRequest(run, i, j, t, op, id, e) && i < k <= j && run[k].pc[t] == LkExp(op, id, e)
    ensures e in run[k].heap && e in run[j].heap && !run[j].pc[t].LkTry?
    ensures Stage(op, run[j].pc[t], run[k].heap[e], run[j].heap[e])
    decreases j
  {
    hide Stage, IsRun, Step, Inv, Serves;
    if j == k {
      RunInv(run, k);
      LockedExists(run[k], t, e);
      assert Stage(op, run[k].pc[t], run[k].heap[e], run[k].heap[e]) by { StageStarts(op, id, e, run[k].heap[e]); }
    } else {
      RequestStage(run, i, k, j - 1, t, op, id, e);
      RequestServes(run, i, j - 1, t, op, id, e);
      var u := RunStep(run, j - 1);
      OthersStay(run[j - 1], u, run[j], t);
      if u == t {
        OwnStage(run[j - 1], t, run[j], op, id, e, run[k].heap[e]);
        NeverBack(run[j - 1], t, run[j], op, id, e);
      } else {
        OtherStage(run[j - 1], u, run[j], t, op, id, e, run[k].heap[e]);
      }
    }
  }

  lemma StageStarts(op: Op, id: Id, e: Eid, v: Entry)
    ensures Stage(op, LkExp(op, id, e), v, v)
  {
  }

  lemma LockedExists(s: State, t: Tid, e: Eid)
    requires Inv(s) && t in s.pc && Holds(s.pc[t]) == Some(e)
    ensures e in s.heap
  {
  }

  lemma NeverBack(s: State, t: Tid, s': State, op: Op, id: Id, e: Eid)
    requires Step(s, t, s') && t in s'.pc && Serves(op, id, e, s.pc[t]) && !s.pc[t].LkTry?
    ensures !s'.pc[t].LkTry?
  {
    match FamilyOf(s.pc[t])
    case FLock => hide BodyStep;
    case FBody => hide LockStep;
  }

  lemma BodyGoesOn(s: State, t: Tid, s': State)
    requires t in s.pc && BodyStep(s, t, s.pc[t], s') && t in s'.pc
    ensures !s'.pc[t].Idle?
  {
  }

  lemma LastLockStep(s: State, t: Tid, s': State, op: Op, id: Id, e: Eid)
    requires t in s.pc && LockStep(s, t, s.pc[t], s') && t in s'.pc && s'.pc[t].Idle?
    requires Serves(op, id, e, s.pc[t]) && !s.pc[t].LkTry? && e in s.heap
    ensures (s.pc[t].Unlock? && op != Rollback) || s.pc[t].Rm?
    ensures e in s'.heap && s'.heap[e].fate == s.heap[e].fate
    ensures s.pc[t].Rm? ==> id in s'.entries ==> s'.entries[id] != e
  {
  }

  lemma LastStep(s: State, t: Tid, s': State, op: Op, id: Id, e: Eid)
    requires Step(s, t, s') && t in s'.pc && s'.pc[t].Idle? && Serves(op, id, e, s.pc[t]) && !s.pc[t].LkTry? && e in s.heap
    ensures (s.pc[t].Unlock? && op != Rollback) || s.pc[t].Rm?
    ensures e in s'.heap && s'.heap[e].fate == s.heap[e].fate
    ensures s.pc[t].Rm? ==> id in s'.entries ==> s'.entries[id] != e
  {
    hide LockStep, BodyStep;
    match FamilyOf(s.pc[t])
    case FLock => LastLockStep(s, t, s', op, id, e);
    case FBody => BodyGoesOn(s, t, s');
  }

  /**
    How a request ends that had its entry locked. A rollback leaves the transaction decided and
    unregistered, and committed only if it was so already. A commit of an open transaction
    leaves it decided and unregistered. An execution does not commit it.
   */
  lemma RequestEnds(run: seq<State>, i: nat, k: nat, j: nat, t: Tid, op: Op, id: Id, e: Eid)
    requires InRequest(run, i, j, t, op, id, e) && i < k <= j && run[k].pc[t] == LkExp(op, id, e)
    requires j + 1 < |run| && Step(run[j], t, run[j + 1]) && t in run[j + 1].pc && run[j + 1].pc[t].Idle?
    ensures e in run[k].heap && e in run[j + 1].heap
    ensures var v0, v := run[k].heap[e], run[j + 1].heap[e];
      && (op == Rollback || (op == Commit && v0.ctx == Active) ==>
            v.fate != Undecided && (id in run[j + 1].entries ==> run[j + 1].entries[id] != e))
      && (op != Commit ==> (v.fate == Committed <==> v0.fate == Committed))
  {
    hide Step, Inv, IsRun, Serves;
    RequestStage(run, i, k, j, t, op, id, e);
    RequestServes(run, i, j, t, op, id, e);
    LastStep(run[j], t, run[j + 1], op, id, e);
    if run[k].heap[e].fate != Undecided { FateIsFinal(run, k, j, e); }
  }
}
