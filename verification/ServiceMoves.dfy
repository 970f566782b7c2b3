/** What a single step can do to the registry, the entries and the stepping thread. */
module ServiceMoves {
  import opened Common
  import opened ServiceTransactions
  import opened ServiceInvariant

  ghost predicate Shape(s: State, t: Tid, s': State) {
    t in s.pc && t in s'.pc && s'.pc == s.pc[t := s'.pc[t]] && s'.max == s.max
  }

  /** A begin drops its own entry: refused, or failed while it registered. */
  predicate GivenUp(p: Pc, p': Pc, e: Eid) { (p == BgUndo(e) && p'.Idle?) || (p == BgReg(e) && p'.BgFail?) }

  /** Entries are only created, or changed by the thread that has them locked or to itself. */
  ghost predicate HeapMove(s: State, p: Pc, s': State, p': Pc) {
    && (forall e :: e in s.heap ==> e in s'.heap)
    && (forall e :: e in s'.heap && e !in s.heap ==>
          s'.heap[e] == Entry(Active, Undecided, None) && Private(p') == Some(e))
    && (forall e :: e in s.heap && s'.heap[e].ctx != s.heap[e].ctx ==>
          (Holds(p) == Some(e) || GivenUp(p, p', e)) && s'.heap[e].ctx != Active)
    && (Private(p').Some? && Private(p') != Private(p) ==>
          Private(p').value !in s.heap && Private(p').value in s'.heap)
  }

  /** An entry's mutex is taken when free and released by its holder. */
  ghost predicate LockMove(s: State, t: Tid, p: Pc, s': State, p': Pc) {
    && (Holds(p').Some? ==> Holds(p').value in s.heap)
    && (forall e :: e in s.heap && e in s'.heap ==>
          if Holds(p') == Some(e) && Holds(p) != Some(e) then s.heap[e].lock == None && s'.heap[e].lock == Some(t)
          else if Holds(p) == Some(e) && Holds(p') != Some(e) then s'.heap[e].lock == None
          else s'.heap[e].lock == s.heap[e].lock)
  }

  /** The registry is emptied by a closing thread, extended by a begin, or loses one finished entry. */
  ghost predicate RegistryMove(s: State, p: Pc, s': State, p': Pc) {
    || s'.entries == s.entries
    || (s'.entries == map[] && Taken(p') == s.entries.Values)
    || (p.BgReg? && p'.Idle? && exists id: Id :: id !in s.entries && s'.entries == s.entries[id := p.e])
    || (p.Rm? && p.id in s.entries && s.entries[p.id] == p.e && s'.entries == s.entries - {p.id})
  }

  /** What the thread remembers comes from before or out of the registry. */
  ghost predicate MemoryMove(s: State, p: Pc, s': State, p': Pc) {
    && Pairing(p') <= Pairing(p) + s.entries.Items
    && (Taken(p') <= Taken(p) || (s'.entries == map[] && Taken(p') == s.entries.Values))
    && (Holds(p').Some? && Holds(p') != Holds(p) ==>
          Holds(p').value in Taken(p) || exists x :: x in Pairing(p) && x.1 == Holds(p').value)
  }

  /** Responsibility for an undecided transaction is handed over, never dropped. */
  ghost predicate OwnMove(s: State, p: Pc, s': State, p': Pc) {
    && (forall e :: Owned(p, e) && !Owned(p', e) && e in s'.heap ==>
          e in s'.entries.Values || s'.heap[e].ctx != Active)
    && (InMiddle(p') ==> p'.e in s'.heap && s'.heap[p'.e].ctx == Active)
    && (p'.RmUnlock? ==> p'.e in s'.heap && s'.heap[p'.e].ctx != Active)
    && (p'.Rm? ==> p.RmUnlock? && p'.e == p.e)
  }

  /** Who finishes a transaction removes it from the registry. */
  ghost predicate EndMove(s: State, p: Pc, s': State, p': Pc) {
    && (forall e :: e in s.heap && e in s'.heap && s.heap[e].ctx != Done && s'.heap[e].ctx == Done ==>
          e in Taken(p) || Private(p) == Some(e) || (p'.RmUnlock? && p'.e == e))
    && (p.RmUnlock? ==> p'.Rm? && p'.id == p.id && p'.e == p.e)
    && (p.Rm? ==> p.id in s'.entries ==> s'.entries[p.id] != p.e)
  }

  ghost predicate AdmissionMove(s: State, p: Pc, s': State, p': Pc) {
    && s.opens <= s'.opens
    && (s'.opens == s.opens && s'.accepting ==> s.accepting)
    && (s'.entries == s.entries || s'.entries == map[] || s.accepting || s'.entries.Keys <= s.entries.Keys)
    && (Closing(p') ==>
          (|| (Closing(p) && p'.k == p.k)
           || (p'.k == s.opens == s'.opens && !s'.accepting && s'.entries == map[])))
  }

  ghost predicate Move(s: State, t: Tid, s': State) {
    && Shape(s, t, s')
    && HeapMove(s, s.pc[t], s', s'.pc[t]) && LockMove(s, t, s.pc[t], s', s'.pc[t])
    && RegistryMove(s, s.pc[t], s', s'.pc[t]) && MemoryMove(s, s.pc[t], s', s'.pc[t])
    && OwnMove(s, s.pc[t], s', s'.pc[t]) && EndMove(s, s.pc[t], s', s'.pc[t])
    && AdmissionMove(s, s.pc[t], s', s'.pc[t])
  }

  /** What the thread itself relies on when it steps. */
  ghost predicate Ready(s: State, t: Tid) {
    && t in s.pc
    && (Holds(s.pc[t]).Some? ==> Holds(s.pc[t]).value in s.heap && s.heap[Holds(s.pc[t]).value].lock == Some(t))
    && (InMiddle(s.pc[t]) ==> s.pc[t].e in s.heap && s.heap[s.pc[t].e].ctx == Active)
    && (s.pc[t].RmUnlock? ==> s.pc[t].e in s.heap && s.heap[s.pc[t].e].ctx != Active)
    && (Private(s.pc[t]).Some? ==> Private(s.pc[t]).value in s.heap && s.heap[Private(s.pc[t]).value].ctx == Active)
  }

  lemma IdleShape(s: State, t: Tid, s': State)
    requires Ready(s, t) && s.pc[t].Idle? && IdleStep(s, t, s')
    ensures Shape(s, t, s')
  {
    assert s.pc == s.pc[t := s.pc[t]];
  }

  lemma IdleHeap(s: State, t: Tid, s': State)
    requires Ready(s, t) && s.pc[t].Idle? && IdleStep(s, t, s') && Shape(s, t, s')
    ensures HeapMove(s, s.pc[t], s', s'.pc[t])
  {
  }

  lemma IdleLock(s: State, t: Tid, s': State)
    requires Ready(s, t) && s.pc[t].Idle? && IdleStep(s, t, s') && Shape(s, t, s')
    ensures LockMove(s, t, s.pc[t], s', s'.pc[t])
  {
  }

  lemma IdleRegistry(s: State, t: Tid, s': State)
    requires Ready(s, t) && s.pc[t].Idle? && IdleStep(s, t, s') && Shape(s, t, s')
    ensures RegistryMove(s, s.pc[t], s', s'.pc[t])
    ensures Holds(s'.pc[t]) == None && Private(s'.pc[t]) == None
    ensures Taken(s'.pc[t]) == {} || (s'.entries == map[] && Taken(s'.pc[t]) == s.entries.Values)
  {
  }

  lemma IdlePairing(s: State, t: Tid, s': State)
    requires Ready(s, t) && s.pc[t].Idle? && IdleStep(s, t, s') && Shape(s, t, s')
    ensures Pairing(s'.pc[t]) <= s.entries.Items
  {
    var p' := s'.pc[t];
    if p'.LkTry? { assert (p'.id, p'.e) in s.entries.Items; }
  }

  lemma IdleMemory(s: State, t: Tid, s': State)
    requires Ready(s, t) && s.pc[t].Idle? && IdleStep(s, t, s') && Shape(s, t, s')
    ensures RegistryMove(s, s.pc[t], s', s'.pc[t]) && MemoryMove(s, s.pc[t], s', s'.pc[t])
  {
    IdleRegistry(s, t, s');
    IdlePairing(s, t, s');
  }

  lemma IdleOwn(s: State, t: Tid, s': State)
    requires Ready(s, t) && s.pc[t].Idle? && IdleStep(s, t, s') && Shape(s, t, s')
    ensures OwnMove(s, s.pc[t], s', s'.pc[t])
  {
  }

  lemma IdleEnd(s: State, t: Tid, s': State)
    requires Ready(s, t) && s.pc[t].Idle? && IdleStep(s, t, s') && Shape(s, t, s')
    ensures EndMove(s, s.pc[t], s', s'.pc[t])
  {
  }

  lemma IdleAdmission(s: State, t: Tid, s': State)
    requires Ready(s, t) && s.pc[t].Idle? && IdleStep(s, t, s') && Shape(s, t, s')
    ensures AdmissionMove(s, s.pc[t], s', s'.pc[t])
  {
  }

  lemma IdleMove(s: State, t: Tid, s': State)
    requires Ready(s, t) && s.pc[t].Idle? && IdleStep(s, t, s')
    ensures Move(s, t, s')
  {
    IdleShape(s, t, s');
    IdleHeap(s, t, s');
    IdleLock(s, t, s');
    IdleMemory(s, t, s');
    IdleOwn(s, t, s');
    IdleEnd(s, t, s');
    IdleAdmission(s, t, s');
  }

  lemma BeginShape(s: State, t: Tid, s': State)
    requires Ready(s, t) && BeginStep(s, t, s.pc[t], s')
    ensures Shape(s, t, s')
  {
    if s' == s { assert s.pc == s.pc[t := s.pc[t]]; }
  }

  lemma BeginHeap(s: State, t: Tid, s': State)
    requires Ready(s, t) && BeginStep(s, t, s.pc[t], s') && Shape(s, t, s')
    ensures HeapMove(s, s.pc[t], s', s'.pc[t])
  {
  }

  lemma BeginLock(s: State, t: Tid, s': State)
    requires Ready(s, t) && BeginStep(s, t, s.pc[t], s') && Shape(s, t, s')
    ensures LockMove(s, t, s.pc[t], s', s'.pc[t])
  {
  }

  lemma BeginMemory(s: State, t: Tid, s': State)
    requires Ready(s, t) && BeginStep(s, t, s.pc[t], s') && Shape(s, t, s')
    ensures RegistryMove(s, s.pc[t], s', s'.pc[t]) && MemoryMove(s, s.pc[t], s', s'.pc[t])
  {
  }

  lemma BeginOwn(s: State, t: Tid, s': State)
    requires Ready(s, t) && BeginStep(s, t, s.pc[t], s') && Shape(s, t, s')
    ensures OwnMove(s, s.pc[t], s', s'.pc[t])
  {
    if s'.entries != s.entries {
      var id :| id !in s.entries && s'.entries == s.entries[id := s.pc[t].e];
      assert s'.entries[id] == s.pc[t].e;
    }
  }

  lemma BeginEnd(s: State, t: Tid, s': State)
    requires Ready(s, t) && BeginStep(s, t, s.pc[t], s') && Shape(s, t, s')
    ensures EndMove(s, s.pc[t], s', s'.pc[t])
  {
  }

  lemma BeginAdmission(s: State, t: Tid, s': State)
    requires Ready(s, t) && BeginStep(s, t, s.pc[t], s') && Shape(s, t, s')
    ensures AdmissionMove(s, s.pc[t], s', s'.pc[t])
  {
  }

  lemma BeginMove(s: State, t: Tid, s': State)
    requires Ready(s, t) && BeginStep(s, t, s.pc[t], s')
    ensures Move(s, t, s')
  {
    BeginShape(s, t, s');
    BeginHeap(s, t, s');
    BeginLock(s, t, s');
    BeginMemory(s, t, s');
    BeginOwn(s, t, s');
    BeginEnd(s, t, s');
    BeginAdmission(s, t, s');
  }

  lemma LockingShape(s: State, t: Tid, s': State)
    requires Ready(s, t) && LockStep(s, t, s.pc[t], s')
    ensures Shape(s, t, s')
  {
  }

  lemma LockingHeap(s: State, t: Tid, s': State)
    requires Ready(s, t) && LockStep(s, t, s.pc[t], s') && Shape(s, t, s')
    ensures HeapMove(s, s.pc[t], s', s'.pc[t])
  {
  }

  lemma LockingLock(s: State, t: Tid, s': State)
    requires Ready(s, t) && LockStep(s, t, s.pc[t], s') && Shape(s, t, s')
    ensures LockMove(s, t, s.pc[t], s', s'.pc[t])
  {
  }

  lemma LockingMemory(s: State, t: Tid, s': State)
    requires Ready(s, t) && LockStep(s, t, s.pc[t], s') && Shape(s, t, s')
    ensures RegistryMove(s, s.pc[t], s', s'.pc[t]) && MemoryMove(s, s.pc[t], s', s'.pc[t])
  {
    if s.pc[t].LkTry? { assert (s.pc[t].id, s.pc[t].e) in Pairing(s.pc[t]); }
  }

  lemma LockingOwn(s: State, t: Tid, s': State)
    requires Ready(s, t) && LockStep(s, t, s.pc[t], s') && Shape(s, t, s')
    ensures OwnMove(s, s.pc[t], s', s'.pc[t])
  {
  }

  lemma LockingEnd(s: State, t: Tid, s': State)
    requires Ready(s, t) && LockStep(s, t, s.pc[t], s') && Shape(s, t, s')
    ensures EndMove(s, s.pc[t], s', s'.pc[t])
  {
  }

  lemma LockingAdmission(s: State, t: Tid, s': State)
    requires Ready(s, t) && LockStep(s, t, s.pc[t], s') && Shape(s, t, s')
    ensures AdmissionMove(s, s.pc[t], s', s'.pc[t])
  {
  }

  lemma LockingMove(s: State, t: Tid, s': State)
    requires Ready(s, t) && LockStep(s, t, s.pc[t], s')
    ensures Move(s, t, s')
  {
    LockingShape(s, t, s');
    LockingHeap(s, t, s');
    LockingLock(s, t, s');
    LockingMemory(s, t, s');
    LockingOwn(s, t, s');
    LockingEnd(s, t, s');
    LockingAdmission(s, t, s');
  }

  lemma BodyShape(s: State, t: Tid, s': State)
    requires Ready(s, t) && BodyStep(s, t, s.pc[t], s')
    ensures Shape(s, t, s')
  {
  }

  /** A body works on the entry it has locked, keeps the lock, and touches nothing else. */
  ghost predicate BodyFacts(s: State, p: Pc, s': State, p': Pc) {
    && Holds(p).Some? && Holds(p') == Holds(p) && Holds(p).value in s.heap && Holds(p).value in s'.heap
    && s'.entries == s.entries && s'.opens == s.opens && s'.accepting == s.accepting
    && (forall e :: e in s'.heap <==> e in s.heap)
    && (forall e :: e in s.heap && e != Holds(p).value ==> s'.heap[e] == s.heap[e])
    && s'.heap[Holds(p).value].lock == s.heap[Holds(p).value].lock
    && (s'.heap[Holds(p).value].ctx == s.heap[Holds(p).value].ctx || s'.heap[Holds(p).value].ctx != Active)
    && Private(p') == None && Taken(p') == {} && Pairing(p') <= Pairing(p)
  }

  lemma BodyIs(s: State, t: Tid, s': State)
    requires t in s.pc && BodyStep(s, t, s.pc[t], s') && Shape(s, t, s')
    ensures BodyFacts(s, s.pc[t], s', s'.pc[t])
  {
  }

  lemma BodyHeap(s: State, t: Tid, s': State)
    requires Ready(s, t) && BodyStep(s, t, s.pc[t], s') && Shape(s, t, s')
    ensures HeapMove(s, s.pc[t], s', s'.pc[t])
  {
    hide BodyStep, Holds, Pairing, Taken, Private;
    BodyIs(s, t, s');
  }

  lemma BodyLock(s: State, t: Tid, s': State)
    requires Ready(s, t) && BodyStep(s, t, s.pc[t], s') && Shape(s, t, s')
    ensures LockMove(s, t, s.pc[t], s', s'.pc[t])
  {
    hide BodyStep, Holds, Pairing, Taken, Private;
    BodyIs(s, t, s');
  }

  lemma BodyMemory(s: State, t: Tid, s': State)
    requires Ready(s, t) && BodyStep(s, t, s.pc[t], s') && Shape(s, t, s')
    ensures RegistryMove(s, s.pc[t], s', s'.pc[t]) && MemoryMove(s, s.pc[t], s', s'.pc[t])
  {
    hide BodyStep, Holds, Pairing, Taken, Private;
    BodyIs(s, t, s');
  }

  lemma BodyOwn(s: State, t: Tid, s': State)
    requires Ready(s, t) && BodyStep(s, t, s.pc[t], s') && Shape(s, t, s')
    ensures OwnMove(s, s.pc[t], s', s'.pc[t])
  {
  }

  lemma BodyEnd(s: State, t: Tid, s': State)
    requires Ready(s, t) && BodyStep(s, t, s.pc[t], s') && Shape(s, t, s')
    ensures EndMove(s, s.pc[t], s', s'.pc[t])
  {
  }

  lemma BodyAdmission(s: State, t: Tid, s': State)
    requires Ready(s, t) && BodyStep(s, t, s.pc[t], s') && Shape(s, t, s')
    ensures AdmissionMove(s, s.pc[t], s', s'.pc[t])
  {
  }

  lemma BodyMove(s: State, t: Tid, s': State)
    requires Ready(s, t) && BodyStep(s, t, s.pc[t], s')
    ensures Move(s, t, s')
  {
    BodyShape(s, t, s');
    BodyHeap(s, t, s');
    BodyLock(s, t, s');
    BodyMemory(s, t, s');
    BodyOwn(s, t, s');
    BodyEnd(s, t, s');
    BodyAdmission(s, t, s');
  }

  lemma SweepShape(s: State, t: Tid, s': State)
    requires Ready(s, t) && SweepStep(s, t, s.pc[t], s')
    ensures Shape(s, t, s')
  {
  }

  lemma SweepHeap(s: State, t: Tid, s': State)
    requires Ready(s, t) && SweepStep(s, t, s.pc[t], s') && Shape(s, t, s')
    ensures HeapMove(s, s.pc[t], s', s'.pc[t])
  {
  }

  lemma SweepLock(s: State, t: Tid, s': State)
    requires Ready(s, t) && SweepStep(s, t, s.pc[t], s') && Shape(s, t, s')
    ensures LockMove(s, t, s.pc[t], s', s'.pc[t])
  {
  }

  lemma SweepMemory(s: State, t: Tid, s': State)
    requires Ready(s, t) && SweepStep(s, t, s.pc[t], s') && Shape(s, t, s')
    ensures RegistryMove(s, s.pc[t], s', s'.pc[t]) && MemoryMove(s, s.pc[t], s', s'.pc[t])
  {
    if s.pc[t].RpLoop? && s'.pc[t].RpRb? { assert (s'.pc[t].id, s'.pc[t].e) in Pairing(s.pc[t]); }
  }

  lemma SweepOwn(s: State, t: Tid, s': State)
    requires Ready(s, t) && SweepStep(s, t, s.pc[t], s') && Shape(s, t, s')
    ensures OwnMove(s, s.pc[t], s', s'.pc[t])
  {
  }

  lemma SweepEnd(s: State, t: Tid, s': State)
    requires Ready(s, t) && SweepStep(s, t, s.pc[t], s') && Shape(s, t, s')
    ensures EndMove(s, s.pc[t], s', s'.pc[t])
  {
  }

  lemma SweepAdmission(s: State, t: Tid, s': State)
    requires Ready(s, t) && SweepStep(s, t, s.pc[t], s') && Shape(s, t, s')
    ensures AdmissionMove(s, s.pc[t], s', s'.pc[t])
  {
  }

  lemma SweepMove(s: State, t: Tid, s': State)
    requires Ready(s, t) && SweepStep(s, t, s.pc[t], s')
    ensures Move(s, t, s')
  {
    SweepShape(s, t, s');
    SweepHeap(s, t, s');
    SweepLock(s, t, s');
    SweepMemory(s, t, s');
    SweepOwn(s, t, s');
    SweepEnd(s, t, s');
    SweepAdmission(s, t, s');
  }

  lemma StepMove(s: State, t: Tid, s': State)
    requires Ready(s, t) && Step(s, t, s')
    ensures Move(s, t, s')
  {
    match FamilyOf(s.pc[t])
    case FIdle => IdleMove(s, t, s');
    case FBegin => BeginMove(s, t, s');
    case FLock => LockingMove(s, t, s');
    case FBody => BodyMove(s, t, s');
    case FSweep => SweepMove(s, t, s');
  }
}
