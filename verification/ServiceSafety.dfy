/** The invariant of the explicit transaction manager holds in every run. */
module ServiceSafety {
  import opened Common
  import opened ServiceTransactions
  import opened ServiceInvariant
  import opened ServiceMoves

  // ---- counting ---------------------------------------------------------------------------------

  lemma BeginnersAfter(pc: map<Tid, Pc>, t: Tid, p': Pc)
    requires t in pc
    ensures |Beginners(pc[t := p'])| ==
            |Beginners(pc)| - (if Begins(pc[t]) then 1 else 0) + (if Begins(p') then 1 else 0)
  {
    var rest := Beginners(pc) - {t};
    assert Beginners(pc[t := p']) == if Begins(p') then rest + {t} else rest;
    assert Beginners(pc) == if Begins(pc[t]) then rest + {t} else rest;
  }

  lemma MapGrows(m: map<Id, Eid>, id: Id, e: Eid)
    requires id !in m
    ensures |m[id := e]| == |m| + 1
  {
    assert m[id := e].Keys == m.Keys + {id};
    assert |m.Keys| == |m| && |m[id := e].Keys| == |m[id := e]|;
  }

  lemma MapShrinks(m: map<Id, Eid>, id: Id)
    ensures |m - {id}| <= |m|
  {
    assert (m - {id}).Keys == m.Keys - {id};
    assert |(m - {id}).Keys| == |m - {id}| && |m.Keys| == |m|;
    if id in m { assert m.Keys == (m.Keys - {id}) + {id}; } else { assert m.Keys - {id} == m.Keys; }
  }

  lemma BeginCounts(s: State, t: Tid, s': State)
    requires Counts(s) && t in s.pc && BeginStep(s, t, s.pc[t], s')
    ensures Counts(s')
  {
    if s' != s {
      BeginnersAfter(s.pc, t, s'.pc[t]);
      if s'.entries != s.entries {
        var id :| id !in s.entries && s'.entries == s.entries[id := s.pc[t].e];
        MapGrows(s.entries, id, s.pc[t].e);
      }
    }
  }

  lemma OtherCounts(s: State, t: Tid, s': State)
    requires Counts(s) && Shape(s, t, s') && !Begins(s.pc[t])
    requires s'.pending == s.pending + (if Begins(s'.pc[t]) then 1 else 0)
    requires |s'.entries| <= |s.entries| && |s'.entries| + s'.pending <= s.max
    ensures Counts(s')
  {
    BeginnersAfter(s.pc, t, s'.pc[t]);
  }

  lemma LockCounts(s: State, t: Tid, s': State)
    requires Counts(s) && t in s.pc && LockStep(s, t, s.pc[t], s') && !s.pc[t].Rm?
    ensures Counts(s')
  {
    OtherCounts(s, t, s');
  }

  lemma RemoveCounts(s: State, t: Tid, s': State)
    requires Counts(s) && t in s.pc && s.pc[t].Rm? && LockStep(s, t, s.pc[t], s')
    ensures Counts(s')
  {
    MapShrinks(s.entries, s.pc[t].id);
    OtherCounts(s, t, s');
  }

  lemma IdleCounts(s: State, t: Tid, s': State)
    requires Counts(s) && t in s.pc && s.pc[t].Idle? && IdleStep(s, t, s')
    ensures Counts(s')
  {
    assert s.pc == s.pc[t := s.pc[t]];
    OtherCounts(s, t, s');
  }

  lemma BodyCounts(s: State, t: Tid, s': State)
    requires Counts(s) && t in s.pc && BodyStep(s, t, s.pc[t], s')
    ensures Counts(s')
  {
    OtherCounts(s, t, s');
  }

  lemma SweepCounts(s: State, t: Tid, s': State)
    requires Counts(s) && t in s.pc && SweepStep(s, t, s.pc[t], s')
    ensures Counts(s')
  {
    OtherCounts(s, t, s');
  }

  lemma StepCounts(s: State, t: Tid, s': State)
    requires Counts(s) && Step(s, t, s')
    ensures Counts(s')
  {
    match FamilyOf(s.pc[t])
    case FIdle => IdleCounts(s, t, s');
    case FBegin => BeginCounts(s, t, s');
    case FLock => if s.pc[t].Rm? { RemoveCounts(s, t, s'); } else { LockCounts(s, t, s'); }
    case FBody => BodyCounts(s, t, s');
    case FSweep => SweepCounts(s, t, s');
  }

  // ---- fates -------------------------------------------------------------------------------------

  /** Contexts are decided once: an entry either stays as it is or goes from active to a fate. */
  ghost predicate FateMove(v: Entry, v': Entry) {
    && (v.fate != Undecided ==> v'.fate == v.fate)
    && ((v.fate == Undecided <==> v.ctx == Active) ==> (v'.fate == Undecided <==> v'.ctx == Active))
  }

  ghost predicate FatesMove(s: State, s': State) {
    forall e :: e in s.heap && e in s'.heap ==> FateMove(s.heap[e], s'.heap[e])
  }

  lemma BodyFates(s: State, t: Tid, s': State)
    requires FateOk(s) && t in s.pc && BodyStep(s, t, s.pc[t], s')
    requires InMiddle(s.pc[t]) ==> s.pc[t].e in s.heap && s.heap[s.pc[t].e].ctx == Active
    ensures FatesMove(s, s')
  {
  }

  lemma SweepFates(s: State, t: Tid, s': State)
    requires FateOk(s) && t in s.pc && SweepStep(s, t, s.pc[t], s')
    ensures FatesMove(s, s')
  {
  }

  lemma LockFates(s: State, t: Tid, s': State)
    requires FateOk(s) && t in s.pc && LockStep(s, t, s.pc[t], s')
    ensures FatesMove(s, s')
  {
  }

  /** Only a commit with an active context decides for commit, and nothing revises a fate. */
  lemma StepFates(s: State, t: Tid, s': State)
    requires FateOk(s) && Step(s, t, s')
    requires InMiddle(s.pc[t]) ==> s.pc[t].e in s.heap && s.heap[s.pc[t].e].ctx == Active
    ensures FatesMove(s, s')
  {
    match FamilyOf(s.pc[t])
    case FIdle =>
    case FBegin =>
    case FLock => LockFates(s, t, s');
    case FBody => BodyFates(s, t, s');
    case FSweep => SweepFates(s, t, s');
  }

  // ---- consequences of a move ---------------------------------------------------------------------

  lemma MoveFates(s: State, t: Tid, s': State)
    requires FateOk(s) && Move(s, t, s') && FatesMove(s, s')
    ensures FateOk(s')
  {
    forall e | e in s'.heap ensures s'.heap[e].fate == Undecided <==> s'.heap[e].ctx == Active {
      if e in s.heap { assert FateMove(s.heap[e], s'.heap[e]); }
    }
  }

  lemma MoveLocks(s: State, t: Tid, s': State)
    requires LocksOk(s) && Move(s, t, s')
    ensures LocksOk(s')
  {
  }

  /** A private entry is not in the registry, so registering it keeps identifiers unique. */
  lemma MoveRegistry(s: State, t: Tid, s': State)
    requires RegistryOk(s) && PrivateOk(s) && Move(s, t, s')
    ensures RegistryOk(s')
  {
  }

  lemma MovePair(s: State, t: Tid, s': State, id: Id, e: Eid)
    requires Move(s, t, s') && PairOk(s, id, e)
    requires s.pc[t].BgReg? ==> s.pc[t].e != e
    ensures PairOk(s', id, e)
  {
  }

  lemma PairsAvoidPrivate(s: State, t: Tid, u: Tid, id: Id, e: Eid)
    requires PrivateOk(s) && t in s.pc && u in s.pc && Private(s.pc[t]).Some? && (id, e) in Pairing(s.pc[u])
    ensures e != Private(s.pc[t]).value
  {
    assert (id, e) in Pairing(s.pc[u]) && (id, e).1 == e;
    assert Reaches(s.pc[u], e);
  }

  lemma EntryIsPair(s: State, id: Id, e: Eid)
    requires RegistryOk(s) && (id, e) in s.entries.Items
    ensures PairOk(s, id, e)
  {
  }

  lemma MovePairs(s: State, t: Tid, s': State, u: Tid)
    requires RegistryOk(s) && PrivateOk(s) && ThreadsOk(s) && Move(s, t, s') && u in s'.pc
    ensures PairsOk(s', s'.pc[u])
  {
    forall id, e | (id, e) in Pairing(s'.pc[u]) ensures PairOk(s', id, e) {
      if (id, e) in Pairing(s.pc[u]) {
        assert PairsOk(s, s.pc[u]);
        if s.pc[t].BgReg? { PairsAvoidPrivate(s, t, u, id, e); }
      } else {
        EntryIsPair(s, id, e);
        if s.pc[t].BgReg? { assert e in s.entries.Values; }
      }
      MovePair(s, t, s', id, e);
    }
  }

  lemma MoveTaken(s: State, t: Tid, s': State, u: Tid)
    requires RegistryOk(s) && PrivateOk(s) && ThreadsOk(s) && Move(s, t, s') && u in s'.pc
    ensures TakenOk(s', s'.pc[u])
  {
    forall e | e in Taken(s'.pc[u]) ensures e in s'.heap && e !in s'.entries.Values {
      if e in Taken(s.pc[u]) {
        assert TakenOk(s, s.pc[u]);
        assert Reaches(s.pc[u], e);
      }
    }
  }

  lemma MoveThreads(s: State, t: Tid, s': State)
    requires RegistryOk(s) && PrivateOk(s) && ThreadsOk(s) && Move(s, t, s')
    ensures ThreadsOk(s')
  {
    forall u | u in s'.pc ensures PairsOk(s', s'.pc[u]) && TakenOk(s', s'.pc[u]) {
      MovePairs(s, t, s', u);
      MoveTaken(s, t, s', u);
    }
  }

  // ---- private entries -----------------------------------------------------------------------------

  /** Whatever a thread reaches exists. */
  lemma ReachedExists(s: State, u: Tid, e: Eid)
    requires LocksOk(s) && ThreadsOk(s) && u in s.pc && Reaches(s.pc[u], e)
    ensures e in s.heap
  {
    assert PairsOk(s, s.pc[u]) && TakenOk(s, s.pc[u]);
    if x :| x in Pairing(s.pc[u]) && x.1 == e { assert PairOk(s, x.0, e); }
  }

  /** A thread reaches nothing it did not reach before, except what is registered. */
  lemma ReachMove(s: State, t: Tid, s': State, e: Eid)
    requires Move(s, t, s') && Reaches(s'.pc[t], e)
    ensures Reaches(s.pc[t], e) || e in s.entries.Values
  {
    var p, p' := s.pc[t], s'.pc[t];
    if e in Taken(p') {
    } else if Holds(p') == Some(e) {
      if Holds(p') != Holds(p) && e !in Taken(p) {
        var x :| x in Pairing(p) && x.1 == e;
      }
    } else {
      var x :| x in Pairing(p') && x.1 == e;
      if x !in Pairing(p) { assert x in s.entries.Items; }
    }
  }

  /** Nobody reaches an entry that was private or did not exist, as long as it is private. */
  lemma MoveUnreached(s: State, t: Tid, s': State, u: Tid, v: Tid)
    requires LocksOk(s) && ThreadsOk(s) && RegistryOk(s) && PrivateOk(s) && Move(s, t, s')
    requires u in s'.pc && v in s'.pc && Private(s'.pc[u]).Some?
    ensures !Reaches(s'.pc[v], Private(s'.pc[u]).value)
  {
    var e := Private(s'.pc[u]).value;
    if v == t && Reaches(s'.pc[v], e) { ReachMove(s, t, s', e); }
    if Private(s.pc[u]) != Some(e) && Reaches(s.pc[v], e) { ReachedExists(s, v, e); }
  }

  lemma PrivateCtx(s: State, t: Tid, s': State, u: Tid)
    requires PrivateOk(s) && Move(s, t, s') && u in s'.pc && Private(s'.pc[u]).Some?
    ensures Private(s'.pc[u]).value in s'.heap && s'.heap[Private(s'.pc[u]).value].ctx == Active
  {
    var e := Private(s'.pc[u]).value;
    if Private(s.pc[u]) == Some(e) {
      assert !Reaches(s.pc[t], e);
    }
  }

  lemma PrivateUnregistered(s: State, t: Tid, s': State, u: Tid)
    requires PrivateOk(s) && RegistryOk(s) && Move(s, t, s') && u in s'.pc && Private(s'.pc[u]).Some?
    ensures Private(s'.pc[u]).value !in s'.entries.Values
  {
    var e := Private(s'.pc[u]).value;
    if Private(s.pc[u]) != Some(e) { assert u == t && e !in s.heap; }
  }

  lemma PrivateUnique(s: State, t: Tid, s': State, u: Tid, v: Tid)
    requires PrivateOk(s) && Move(s, t, s') && u in s'.pc && v in s'.pc && u != v && Private(s'.pc[u]).Some?
    ensures Private(s'.pc[v]) != Private(s'.pc[u])
  {
  }

  lemma MovePrivate(s: State, t: Tid, s': State)
    requires LocksOk(s) && ThreadsOk(s) && RegistryOk(s) && PrivateOk(s) && Move(s, t, s')
    ensures PrivateOk(s')
  {
    forall u | u in s'.pc && Private(s'.pc[u]).Some?
      ensures var e := Private(s'.pc[u]).value;
        && e in s'.heap && s'.heap[e].ctx == Active && e !in s'.entries.Values
        && (forall v :: v in s'.pc ==> !Reaches(s'.pc[v], e) && (v != u ==> Private(s'.pc[v]) != Some(e)))
    {
      var e := Private(s'.pc[u]).value;
      PrivateCtx(s, t, s', u);
      PrivateUnregistered(s, t, s', u);
      forall v | v in s'.pc ensures !Reaches(s'.pc[v], e) && (v != u ==> Private(s'.pc[v]) != Some(e)) {
        MoveUnreached(s, t, s', u, v);
        if v != u { PrivateUnique(s, t, s', u, v); }
      }
    }
  }

  // ---- contexts ----------------------------------------------------------------------------------------

  /** Nobody else changes the context of an entry that a thread has locked. */
  lemma LockedCtx(s: State, t: Tid, s': State, u: Tid, e: Eid)
    requires LocksOk(s) && PrivateOk(s) && Move(s, t, s') && u in s.pc && u != t && Holds(s.pc[u]) == Some(e)
    ensures e in s'.heap && e in s.heap && s'.heap[e].ctx == s.heap[e].ctx
  {
    assert Reaches(s.pc[u], e);
  }

  lemma MoveMiddle(s: State, t: Tid, s': State)
    requires LocksOk(s) && PrivateOk(s) && MiddleOk(s) && Move(s, t, s')
    ensures MiddleOk(s')
  {
    forall u | u in s'.pc && InMiddle(s'.pc[u])
      ensures s'.pc[u].e in s'.heap && s'.heap[s'.pc[u].e].ctx == Active
    {
      if u != t { LockedCtx(s, t, s', u, s'.pc[u].e); }
    }
  }

  lemma MoveEnding(s: State, t: Tid, s': State)
    requires EndingOk(s) && Move(s, t, s')
    ensures EndingOk(s')
  {
  }

  lemma CoverOne(s: State, t: Tid, s': State, e: Eid)
    requires Cover(s) && EndingOk(s) && Move(s, t, s') && e in s'.heap && s'.heap[e].ctx == Active
    ensures e in s'.entries.Values || SomeoneOwns(s', e)
  {
    if e !in s.heap {
      assert t in s'.pc && Owned(s'.pc[t], e);
    } else if e in s.entries.Values {
      var id :| id in s.entries && s.entries[id] == e;
      if id in s'.entries && s'.entries[id] == e {
        assert e in s'.entries.Values;
      } else if s'.entries == map[] {
        assert t in s'.pc && Owned(s'.pc[t], e);
      }
    } else {
      var u :| u in s.pc && Owned(s.pc[u], e);
      if Owned(s'.pc[u], e) { assert u in s'.pc; }
    }
  }

  lemma MoveCover(s: State, t: Tid, s': State)
    requires Cover(s) && EndingOk(s) && Move(s, t, s')
    ensures Cover(s')
  {
    forall e | e in s'.heap && s'.heap[e].ctx == Active ensures e in s'.entries.Values || SomeoneOwns(s', e) {
      CoverOne(s, t, s', e);
    }
  }

  /** A finished entry was registered before: only active ones are added. */
  lemma StaysRegistered(s: State, t: Tid, s': State, id: Id, e: Eid)
    requires PrivateOk(s) && RegistryOk(s) && Move(s, t, s')
    requires id in s'.entries && s'.entries[id] == e && e in s'.heap && s'.heap[e].ctx == Done
    ensures id in s.entries && s.entries[id] == e && e in s.heap
  {
  }

  lemma ZombieOne(s: State, t: Tid, s': State, id: Id, e: Eid)
    requires NoZombies(s) && ThreadsOk(s) && ThreadsOk(s') && RegistryOk(s) && PrivateOk(s) && PrivateOk(s')
    requires Move(s, t, s')
    requires id in s'.entries && s'.entries[id] == e && e in s'.heap && s'.heap[e].ctx == Done
    ensures SomeoneRemoves(s', id, e)
  {
    var p, p' := s.pc[t], s'.pc[t];
    StaysRegistered(s, t, s', id, e);
    if s.heap[e].ctx == Done {
      var u :| u in s.pc && Removes(s.pc[u], id, e);
      assert u in s'.pc && Removes(s'.pc[u], id, e);
    } else {
      assert TakenOk(s, p);
      assert p'.RmUnlock? && p'.e == e;
      assert (p'.id, e) in Pairing(p') && PairsOk(s', p') && PairOk(s', p'.id, e);
      assert t in s'.pc && Removes(s'.pc[t], id, e);
    }
  }

  lemma MoveZombies(s: State, t: Tid, s': State)
    requires NoZombies(s) && ThreadsOk(s) && ThreadsOk(s') && RegistryOk(s) && PrivateOk(s) && PrivateOk(s')
    requires Move(s, t, s')
    ensures NoZombies(s')
  {
    forall id | id in s'.entries && s'.entries[id] in s'.heap && s'.heap[s'.entries[id]].ctx == Done
      ensures SomeoneRemoves(s', id, s'.entries[id])
    {
      ZombieOne(s, t, s', id, s'.entries[id]);
    }
  }

  lemma MoveClosed(s: State, t: Tid, s': State)
    requires ClosedOk(s) && Move(s, t, s')
    ensures ClosedOk(s')
  {
    forall u | u in s'.pc && Closing(s'.pc[u])
      ensures s'.pc[u].k <= s'.opens
      ensures s'.pc[u].k == s'.opens ==> !s'.accepting && s'.entries == map[]
    {
      if Closing(s.pc[u]) && s.pc[u].k == s'.pc[u].k == s'.opens {
        assert !s.accepting && s.entries == map[];
      }
    }
  }

  // ---- all together ---------------------------------------------------------------------------------------

  lemma InvReady(s: State, t: Tid)
    requires Inv(s) && t in s.pc
    ensures Ready(s, t)
  {
  }

  lemma StepKeepsInv(s: State, t: Tid, s': State)
    requires Inv(s) && Step(s, t, s')
    ensures Inv(s') && FatesMove(s, s')
  {
    InvReady(s, t);
    StepMove(s, t, s');
    StepCounts(s, t, s');
    StepFates(s, t, s');
    MoveFates(s, t, s');
    MoveLocks(s, t, s');
    MoveRegistry(s, t, s');
    MoveThreads(s, t, s');
    MovePrivate(s, t, s');
    MoveMiddle(s, t, s');
    MoveEnding(s, t, s');
    MoveCover(s, t, s');
    MoveZombies(s, t, s');
    MoveClosed(s, t, s');
  }

  lemma InitInv(s: State)
    requires Init(s)
    ensures Inv(s)
  {
    assert Beginners(s.pc) == {};
  }

  lemma {:induction false} RunInv(run: seq<State>, i: nat)
    requires IsRun(run) && i < |run|
    ensures Inv(run[i])
  {
    if i == 0 {
      InitInv(run[0]);
    } else {
      RunInv(run, i - 1);
      assert Next(run[i - 1], run[i]);
      var t :| Step(run[i - 1], t, run[i]);
      StepKeepsInv(run[i - 1], t, run[i]);
    }
  }

  lemma ReachableInv(s: State)
    requires Reachable(s)
    ensures Inv(s)
  {
    var run :| IsRun(run) && s == run[|run| - 1];
    RunInv(run, |run| - 1);
  }
}
