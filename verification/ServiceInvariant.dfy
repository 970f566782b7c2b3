/** The inductive invariant of the explicit transaction manager. */
module ServiceInvariant {
  import opened Common
  import opened ServiceTransactions

  /** Threads whose begin is counted in pending_begins_. */
  predicate Begins(p: Pc) { p.BgSlot? || p.BgFail? || p.BgReg? }

  /** The entry whose mutex a thread holds. */
  function Holds(p: Pc): Option<Eid> {
    match p
    case LkExp(_, _, e) => Some(e)
    case ExBody(_, e) => Some(e)
    case ExEnd(_, e) => Some(e)
    case CmBody(_, e) => Some(e)
    case CmPrepared(_, e) => Some(e)
    case CmFinal(_, e) => Some(e)
    case RbBody(_, e) => Some(e)
    case Unlock(e) => Some(e)
    case RmUnlock(_, e, _) => Some(e)
    case ClRb(_, e, _) => Some(e)
    case ClUnl(_, e, _) => Some(e)
    case RpRb(_, _, e) => Some(e)
    case _ => None
  }

  /** An entry that no other thread can reach yet. */
  function Private(p: Pc): Option<Eid> {
    match p
    case BgReg(e) => Some(e)
    case BgUndo(e) => Some(e)
    case _ => None
  }

  function RestPairs(rest: Rest): Pairs { if rest.Return? then {} else rest.cands }

  /** Entries a thread remembers together with the identifier it found them under. */
  function Pairing(p: Pc): Pairs {
    match p
    case LkTry(_, id, e) => {(id, e)}
    case LkExp(_, id, e) => {(id, e)}
    case ExBody(id, e) => {(id, e)}
    case ExEnd(id, e) => {(id, e)}
    case CmBody(id, e) => {(id, e)}
    case CmPrepared(id, e) => {(id, e)}
    case CmFinal(id, e) => {(id, e)}
    case RbBody(id, e) => {(id, e)}
    case RmUnlock(id, e, rest) => RestPairs(rest) + {(id, e)}
    case Rm(id, e, rest) => RestPairs(rest) + {(id, e)}
    case RpLoop(c) => c
    case RpRb(c, id, e) => c + {(id, e)}
    case _ => {}
  }

  /** Entries a closing thread has taken out of the registry and not rolled back yet. */
  function Taken(p: Pc): set<Eid> {
    match p
    case ClRoll(es, _) => es
    case ClRb(es, e, _) => es + {e}
    case ClUnl(es, _, _) => es
    case _ => {}
  }

  ghost function Beginners(pc: map<Tid, Pc>): set<Tid> { set t | t in pc && Begins(pc[t]) }

  // ---- the parts -----------------------------------------------------------------------------

  /** entries_ plus pending begins never exceed the limit. */
  ghost predicate Counts(s: State) {
    s.pending == |Beginners(s.pc)| && |s.entries| + s.pending <= s.max
  }

  ghost predicate FateOk(s: State) {
    forall e :: e in s.heap ==> (s.heap[e].fate == Undecided <==> s.heap[e].ctx == Active)
  }

  ghost predicate LocksOk(s: State) {
    && (forall t :: t in s.pc && Holds(s.pc[t]).Some? ==>
          Holds(s.pc[t]).value in s.heap && s.heap[Holds(s.pc[t]).value].lock == Some(t))
    && (forall e :: e in s.heap && s.heap[e].lock.Some? ==>
          s.heap[e].lock.value in s.pc && Holds(s.pc[s.heap[e].lock.value]) == Some(e))
  }

  /** A registered entry exists, and its identifier is unique. */
  ghost predicate RegistryOk(s: State) {
    && (forall id :: id in s.entries ==> s.entries[id] in s.heap)
    && (forall i, j :: i in s.entries && j in s.entries && s.entries[i] == s.entries[j] ==> i == j)
  }

  /** A remembered entry exists and, if still registered, is so under the remembered identifier. */
  ghost predicate PairOk(s: State, id: Id, e: Eid) {
    e in s.heap && forall j :: j in s.entries && s.entries[j] == e ==> j == id
  }

  ghost predicate PairsOk(s: State, p: Pc) {
    forall id, e :: (id, e) in Pairing(p) ==> PairOk(s, id, e)
  }

  ghost predicate TakenOk(s: State, p: Pc) {
    forall e :: e in Taken(p) ==> e in s.heap && e !in s.entries.Values
  }

  ghost predicate ThreadsOk(s: State) {
    forall t :: t in s.pc ==> PairsOk(s, s.pc[t]) && TakenOk(s, s.pc[t])
  }

  /** Can this thread reach the entry other than as its private one? */
  predicate Reaches(p: Pc, e: Eid) {
    e in Taken(p) || Holds(p) == Some(e) || exists x :: x in Pairing(p) && x.1 == e
  }

  ghost predicate PrivateOk(s: State) {
    forall t :: t in s.pc && Private(s.pc[t]).Some? ==>
      var e := Private(s.pc[t]).value;
      && e in s.heap && s.heap[e].ctx == Active && e !in s.entries.Values
      && (forall u :: u in s.pc ==> !Reaches(s.pc[u], e) && (u != t ==> Private(s.pc[u]) != Some(e)))
  }

  /** Between its checks and its effect a commit or execute still has an active context. */
  predicate InMiddle(p: Pc) { p.ExEnd? || p.CmPrepared? || p.CmFinal? }

  ghost predicate MiddleOk(s: State) {
    forall t :: t in s.pc && InMiddle(s.pc[t]) ==>
      s.pc[t].e in s.heap && s.heap[s.pc[t].e].ctx == Active
  }

  /** An entry about to be removed is finished. */
  ghost predicate EndingOk(s: State) {
    forall t :: t in s.pc && (s.pc[t].RmUnlock? || s.pc[t].Rm?) ==>
      s.pc[t].e in s.heap && s.heap[s.pc[t].e].ctx != Active
  }

  predicate Owned(p: Pc, e: Eid) { e in Taken(p) || Private(p) == Some(e) }

  ghost predicate SomeoneOwns(s: State, e: Eid) { exists t :: t in s.pc && Owned(s.pc[t], e) }

  /** Every undecided transaction is registered, or some thread will still settle it. */
  ghost predicate Cover(s: State) {
    forall e :: e in s.heap && s.heap[e].ctx == Active ==> e in s.entries.Values || SomeoneOwns(s, e)
  }

  predicate Removes(p: Pc, id: Id, e: Eid) {
    (p.RmUnlock? || p.Rm?) && p.id == id && p.e == e
  }

  ghost predicate SomeoneRemoves(s: State, id: Id, e: Eid) {
    exists t :: t in s.pc && Removes(s.pc[t], id, e)
  }

  /** A finished transaction is registered only while some thread is about to remove it. */
  ghost predicate NoZombies(s: State) {
    forall id :: id in s.entries && s.entries[id] in s.heap && s.heap[s.entries[id]].ctx == Done ==>
      SomeoneRemoves(s, id, s.entries[id])
  }

  predicate Closing(p: Pc) { p.ClRoll? || p.ClRb? || p.ClUnl? || p.ClWait? }

  /** Without an Open in between, a closing thread keeps the registry empty. */
  ghost predicate ClosedOk(s: State) {
    forall t :: t in s.pc && Closing(s.pc[t]) ==>
      s.pc[t].k <= s.opens && (s.pc[t].k == s.opens ==> !s.accepting && s.entries == map[])
  }

  ghost predicate Inv(s: State) {
    && Counts(s) && FateOk(s) && LocksOk(s) && RegistryOk(s) && ThreadsOk(s) && PrivateOk(s)
    && MiddleOk(s) && EndingOk(s) && Cover(s) && NoZombies(s) && ClosedOk(s)
  }
}
