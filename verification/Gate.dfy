/**
  The admission ledger of `OperationGate`.

  One atomic word carries the admission phase and two counters. A thread's part
  in it is its `Role`; `Event` lists every atomic access to the word that changes
  either the word or the role of the thread performing it. The ledger invariant
  `Inv` says that the word is exactly the sum of the roles, and it is kept by
  every event of every thread, so it holds in every interleaving.
 */
module Gate {

  type Tid = nat

  datatype Phase = Open | InsertsBlocked | AllBlocked

  datatype Word = Word(phase: Phase, inserters: nat, readers: nat)

  /**
    What one thread currently contributes to the word.
    `Speculative` is a reader whose fetch_add landed under AllBlocked and which
    has not yet rolled it back. An `Owner` remembers which drains it completed.
   */
  datatype Role =
    | Outside
    | Speculative
    | Reader
    | Inserter
    | Owner(phase: Phase, insDrained: bool, rdDrained: bool)

  type Roles = map<Tid, Role>

  /** Which part of the word a role is counted in. */
  datatype Field = NoField | ReaderField | InserterField | PhaseField

  function FieldOf(r: Role): Field {
    match r
    case Outside => NoField
    case Speculative => ReaderField
    case Reader => ReaderField
    case Inserter => InserterField
    case Owner(_, _, _) => PhaseField
  }

  ghost function Members(rs: Roles, f: Field): set<Tid> {
    set t | t in rs && FieldOf(rs[t]) == f
  }

  /** What an owner may rely on while it holds its phase. */
  ghost predicate OwnerOk(w: Word, rs: Roles, o: Role)
    requires o.Owner?
  {
    && o.phase == w.phase
    && o.phase != Open
    && (o.insDrained ==> forall u :: u in rs ==> !rs[u].Inserter?)
    && (o.rdDrained ==> o.phase == AllBlocked && forall u :: u in rs ==> !rs[u].Reader?)
  }

  /** The word is the sum of the roles, and a closed phase has exactly one owner. */
  ghost predicate Inv(w: Word, rs: Roles) {
    && w.readers == |Members(rs, ReaderField)|
    && w.inserters == |Members(rs, InserterField)|
    && |Members(rs, PhaseField)| == (if w.phase == Open then 0 else 1)
    && (forall t :: t in rs && rs[t].Owner? ==> OwnerOk(w, rs, rs[t]))
  }

  /** One atomic access to the gate word by a thread whose role goes from r to r'. */
  predicate Event(w: Word, r: Role, w': Word, r': Role) {
    // no change
    || (w' == w && r' == r)
    // fetch_add of a reader unit: admitted unless the returned word was AllBlocked
    || (r.Outside? && w' == w.(readers := w.readers + 1)
        && r' == if w.phase == AllBlocked then Speculative else Reader)
    // fetch_sub of a reader unit: roll back or release
    || ((r.Speculative? || r.Reader?) && r'.Outside? && w.readers > 0
        && w' == w.(readers := w.readers - 1))
    // inserter CAS, only from an open word
    || (r.Outside? && w.phase == Open && r'.Inserter?
        && w' == w.(inserters := w.inserters + 1))
    || (r.Inserter? && r'.Outside? && w.inserters > 0
        && w' == w.(inserters := w.inserters - 1))
    // phase CAS from Open: the thread becomes the owner
    || (r.Outside? && w.phase == Open && r'.Owner? && r'.phase != Open
        && !r'.insDrained && !r'.rdDrained && w' == w.(phase := r'.phase))
    // seal: CAS from the empty open word, everything is drained at once
    || (r.Outside? && w == Word(Open, 0, 0) && r' == Owner(AllBlocked, true, true)
        && w' == Word(AllBlocked, 0, 0))
    // owner closes readers out as well
    || (r.Owner? && r.phase == InsertsBlocked && !r.rdDrained
        && r' == r.(phase := AllBlocked) && w' == w.(phase := AllBlocked))
    // owner observed a zero counter
    || (r.Owner? && w.inserters == 0 && w' == w && r' == r.(insDrained := true))
    || (r.Owner? && r.phase == AllBlocked && w.readers == 0 && w' == w
        && r' == r.(rdDrained := true))
    // owner reopens
    || (r.Owner? && r'.Outside? && w' == w.(phase := Open))
  }

  lemma MembersAfter(rs: Roles, t: Tid, r': Role, f: Field)
    requires t in rs
    ensures |Members(rs[t := r'], f)| ==
            |Members(rs, f)| - (if FieldOf(rs[t]) == f then 1 else 0)
            + (if FieldOf(r') == f then 1 else 0)
  {
    var rest := Members(rs, f) - {t};
    assert Members(rs[t := r'], f) == if FieldOf(r') == f then rest + {t} else rest;
    assert Members(rs, f) == if FieldOf(rs[t]) == f then rest + {t} else rest;
  }

  /** A zero count really means that nobody is counted. */
  lemma ZeroMeansNone(rs: Roles, f: Field)
    requires |Members(rs, f)| == 0
    ensures forall u :: u in rs ==> FieldOf(rs[u]) != f
  {
    forall u | u in rs ensures FieldOf(rs[u]) != f {
      assert u !in Members(rs, f);
    }
  }

  /** A counted thread always finds a count to give back: no release can underflow. */
  lemma ReleaseNeverUnderflows(w: Word, rs: Roles, t: Tid)
    requires Inv(w, rs) && t in rs
    ensures rs[t].Reader? || rs[t].Speculative? ==> w.readers > 0
    ensures rs[t].Inserter? ==> w.inserters > 0
  {
    assert t in Members(rs, FieldOf(rs[t]));
  }

  lemma SingletonOf(rs: Roles, t: Tid, u: Tid, f: Field)
    requires |Members(rs, f)| == 1
    requires t in rs && FieldOf(rs[t]) == f && u in rs && FieldOf(rs[u]) == f
    ensures t == u
  {
    var rest := Members(rs, f) - {t};
    assert t in Members(rs, f) && |rest| == 0;
    assert u !in rest;
  }

  /** A closed phase has one owner, and that owner sees the phase it entered. */
  lemma OwnerIsUnique(w: Word, rs: Roles, t: Tid)
    requires Inv(w, rs) && t in rs && rs[t].Owner?
    ensures w.phase == rs[t].phase != Open
    ensures forall u :: u in rs && rs[u].Owner? ==> u == t
  {
    assert t in Members(rs, PhaseField);
    forall u | u in rs && rs[u].Owner? ensures u == t {
      SingletonOf(rs, t, u, PhaseField);
    }
  }

  /** The counters after an event still count the roles. */
  lemma EventKeepsCounts(w: Word, rs: Roles, t: Tid, w': Word, r': Role)
    requires Inv(w, rs) && t in rs && Event(w, rs[t], w', r')
    ensures w'.readers == |Members(rs[t := r'], ReaderField)|
    ensures w'.inserters == |Members(rs[t := r'], InserterField)|
    ensures |Members(rs[t := r'], PhaseField)| == (if w'.phase == Open then 0 else 1)
  {
    MembersAfter(rs, t, r', ReaderField);
    MembersAfter(rs, t, r', InserterField);
    MembersAfter(rs, t, r', PhaseField);
    if rs[t].Owner? { OwnerIsUnique(w, rs, t); }
  }

  /** What the owner relies on survives an event of another thread. */
  lemma EventKeepsOtherOwner(w: Word, rs: Roles, t: Tid, w': Word, r': Role, u: Tid)
    requires Inv(w, rs) && t in rs && Event(w, rs[t], w', r')
    requires u in rs && u != t && rs[u].Owner?
    ensures OwnerOk(w', rs[t := r'], rs[u])
  {
    OwnerIsUnique(w, rs, u);
    assert !rs[t].Owner? && w.phase != Open;
    assert OwnerOk(w, rs, rs[u]);
  }

  /** What an owner relies on after its own event. */
  lemma EventKeepsOwnOwner(w: Word, rs: Roles, t: Tid, w': Word, r': Role)
    requires Inv(w, rs) && t in rs && Event(w, rs[t], w', r') && r'.Owner?
    ensures OwnerOk(w', rs[t := r'], r')
  {
    if w.inserters == 0 { ZeroMeansNone(rs, InserterField); }
    if w.readers == 0 { ZeroMeansNone(rs, ReaderField); }
    if rs[t].Owner? { assert OwnerOk(w, rs, rs[t]); }
  }

  /** The ledger is kept by every event of every thread. */
  lemma EventKeepsInv(w: Word, rs: Roles, t: Tid, w': Word, r': Role)
    requires Inv(w, rs) && t in rs && Event(w, rs[t], w', r')
    ensures Inv(w', rs[t := r'])
  {
    EventKeepsCounts(w, rs, t, w', r');
    var rs' := rs[t := r'];
    forall u | u in rs' && rs'[u].Owner? ensures OwnerOk(w', rs', rs'[u]) {
      if u == t {
        EventKeepsOwnOwner(w, rs, t, w', r');
      } else {
        EventKeepsOtherOwner(w, rs, t, w', r', u);
      }
    }
  }
}
