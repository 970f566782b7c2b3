/**
  The packed gate word: [63:62] phase, [61:31] inserters, [30:0] readers in one unsigned
  64-bit integer, changed by fetch_add, fetch_sub and CAS. When does the packing do what
  the record `Gate.Word` does?
 */
module GateWord {
  import Gate
  import Store
  import opened Protocol
  import opened ProtocolInv
  import opened ProtocolRefines
  import opened Theorems

  const READER_UNIT: nat := 1
  const INSERTER_UNIT: nat := 0x8000_0000
  const PHASE_UNIT: nat := 0x4000_0000_0000_0000
  const TWO64: nat := 0x1_0000_0000_0000_0000
  const MAX_COUNT: nat := 0x7fff_ffff

  type Uint64 = n: nat | n < TWO64

  function Readers(w: Uint64): nat { w % INSERTER_UNIT }

  function Inserters(w: Uint64): nat { w / INSERTER_UNIT % INSERTER_UNIT }

  function PhaseBits(w: Uint64): nat { w / PHASE_UNIT }

  function PhaseCode(p: Gate.Phase): nat {
    match p
    case Open => 0
    case InsertsBlocked => 1
    case AllBlocked => 2
  }

  function Join(phase: nat, inserters: nat, readers: nat): Uint64
    requires phase < 4 && inserters <= MAX_COUNT && readers <= MAX_COUNT
  {
    phase * PHASE_UNIT + inserters * INSERTER_UNIT + readers
  }

  predicate Fits(g: Gate.Word) { g.inserters <= MAX_COUNT && g.readers <= MAX_COUNT }

  function Pack(g: Gate.Word): Uint64
    requires Fits(g)
  {
    Join(PhaseCode(g.phase), g.inserters, g.readers)
  }

  /** fetch_add and fetch_sub on an unsigned 64-bit integer wrap around. */
  function FetchAdd(w: Uint64, unit: nat): Uint64 { (w + unit) % TWO64 }

  function FetchSub(w: Uint64, unit: nat): Uint64
    requires unit <= TWO64
  {
    (w + (TWO64 - unit)) % TWO64
  }

  /** with_phase: the phase bits replaced, everything else kept. */
  function WithPhase(w: Uint64, p: Gate.Phase): Uint64 {
    w % PHASE_UNIT + PhaseCode(p) * PHASE_UNIT
  }

  // ---- the fields ----------------------------------------------------------------------------

  lemma JoinFields(p: nat, i: nat, r: nat)
    requires p < 4 && i <= MAX_COUNT && r <= MAX_COUNT
    ensures Readers(Join(p, i, r)) == r && Inserters(Join(p, i, r)) == i && PhaseBits(Join(p, i, r)) == p
  {
    var w := Join(p, i, r);
    assert PHASE_UNIT == INSERTER_UNIT * INSERTER_UNIT;
    assert w == INSERTER_UNIT * (INSERTER_UNIT * p + i) + r;
    assert w / INSERTER_UNIT == INSERTER_UNIT * p + i;
  }

  /** A word is the sum of its fields. */
  lemma FieldsJoin(w: Uint64)
    ensures PhaseBits(w) < 4 && Inserters(w) <= MAX_COUNT && Readers(w) <= MAX_COUNT
    ensures w == Join(PhaseBits(w), Inserters(w), Readers(w))
  {
    assert PHASE_UNIT == INSERTER_UNIT * INSERTER_UNIT;
    var h := w / INSERTER_UNIT;
    assert w == INSERTER_UNIT * h + Readers(w);
    assert h == INSERTER_UNIT * (h / INSERTER_UNIT) + Inserters(w);
    assert w / PHASE_UNIT == h / INSERTER_UNIT;
  }

  /** Packing loses nothing. */
  lemma PackIsInjective(g: Gate.Word, h: Gate.Word)
    requires Fits(g) && Fits(h) && Pack(g) == Pack(h)
    ensures g == h
  {
    JoinFields(PhaseCode(g.phase), g.inserters, g.readers);
    JoinFields(PhaseCode(h.phase), h.inserters, h.readers);
  }

  // ---- the atomic operations --------------------------------------------------------------------

  /** Adding a reader touches only the reader count exactly while that count is not exhausted. */
  lemma AddReaderIff(w: Uint64)
    ensures var w' := FetchAdd(w, READER_UNIT);
      (PhaseBits(w') == PhaseBits(w) && Inserters(w') == Inserters(w) && Readers(w') == Readers(w) + 1)
      <==> Readers(w) < MAX_COUNT
  {
    FieldsJoin(w);
    if Readers(w) < MAX_COUNT {
      JoinFields(PhaseBits(w), Inserters(w), Readers(w) + 1);
      assert w + 1 == Join(PhaseBits(w), Inserters(w), Readers(w) + 1);
    } else {
      FieldsJoin(FetchAdd(w, READER_UNIT));
    }
  }

  /** At the limit the increment carries into the inserter count, or beyond it into the phase. */
  lemma ExhaustedReaderCarries(w: Uint64)
    requires Readers(w) == MAX_COUNT && PhaseBits(w) < 3
    ensures var w' := FetchAdd(w, READER_UNIT);
      Readers(w') == 0
      && (Inserters(w) < MAX_COUNT ==> Inserters(w') == Inserters(w) + 1 && PhaseBits(w') == PhaseBits(w))
      && (Inserters(w) == MAX_COUNT ==> Inserters(w') == 0 && PhaseBits(w') == PhaseBits(w) + 1)
  {
    FieldsJoin(w);
    if Inserters(w) < MAX_COUNT {
      JoinFields(PhaseBits(w), Inserters(w) + 1, 0);
      assert w + 1 == Join(PhaseBits(w), Inserters(w) + 1, 0);
    } else {
      JoinFields(PhaseBits(w) + 1, 0, 0);
      assert w + 1 == Join(PhaseBits(w) + 1, 0, 0);
    }
  }

  /** Whatever an increment did, taking it back restores the word, so the roll-back is exact. */
  lemma RollBackRestores(w: Uint64, unit: nat)
    requires unit <= TWO64
    ensures FetchSub(FetchAdd(w, unit), unit) == w
  {
    if w + unit < TWO64 {
      assert FetchAdd(w, unit) == w + unit;
      assert FetchSub(w + unit, unit) == w;
    } else {
      assert FetchAdd(w, unit) == w + unit - TWO64;
    }
  }

  /** A release touches only its own count exactly when there is a count to release. */
  lemma ReleaseReaderIff(w: Uint64)
    ensures var w' := FetchSub(w, READER_UNIT);
      (PhaseBits(w') == PhaseBits(w) && Inserters(w') == Inserters(w) && Readers(w') == Readers(w) - 1)
      <==> Readers(w) > 0
  {
    FieldsJoin(w);
    var w' := FetchSub(w, READER_UNIT);
    FieldsJoin(w');
    if Readers(w) > 0 {
      JoinFields(PhaseBits(w), Inserters(w), Readers(w) - 1);
      assert w' == w - 1 == Join(PhaseBits(w), Inserters(w), Readers(w) - 1);
    }
  }

  lemma AddInserter(w: Uint64)
    requires Inserters(w) < MAX_COUNT
    ensures var w' := FetchAdd(w, INSERTER_UNIT);
      PhaseBits(w') == PhaseBits(w) && Inserters(w') == Inserters(w) + 1 && Readers(w') == Readers(w)
  {
    FieldsJoin(w);
    JoinFields(PhaseBits(w), Inserters(w) + 1, Readers(w));
    assert w + INSERTER_UNIT == Join(PhaseBits(w), Inserters(w) + 1, Readers(w));
  }

  lemma ReleaseInserterIff(w: Uint64)
    ensures var w' := FetchSub(w, INSERTER_UNIT);
      (PhaseBits(w') == PhaseBits(w) && Inserters(w') == Inserters(w) - 1 && Readers(w') == Readers(w))
      <==> Inserters(w) > 0
  {
    FieldsJoin(w);
    var w' := FetchSub(w, INSERTER_UNIT);
    FieldsJoin(w');
    if Inserters(w) > 0 {
      JoinFields(PhaseBits(w), Inserters(w) - 1, Readers(w));
      assert w' == w - INSERTER_UNIT == Join(PhaseBits(w), Inserters(w) - 1, Readers(w));
    }
  }

  lemma ChangePhase(w: Uint64, p: Gate.Phase)
    ensures var w' := WithPhase(w, p);
      PhaseBits(w') == PhaseCode(p) && Inserters(w') == Inserters(w) && Readers(w') == Readers(w)
  {
    FieldsJoin(w);
    assert w % PHASE_UNIT == Inserters(w) * INSERTER_UNIT + Readers(w);
    JoinFields(PhaseCode(p), Inserters(w), Readers(w));
  }

  // ---- the packed word in the protocol -------------------------------------------------------------

  /** What the code does to the gate word at a program point. */
  datatype Access =
    | Load
    | Add(unit: nat) | Sub(unit: nat)                              // fetch_add, fetch_sub
    | CasAdd(seen: Gate.Word, unit: nat)                           // CAS from the word seen before
    | CasPhase(seen: Gate.Word, phase: Gate.Phase)

  function AccessAt(p: Pc): Access {
    match p
    case RdAdd => Add(READER_UNIT)
    case RdSpec => Sub(READER_UNIT)
    case RdOut => Sub(READER_UNIT)
    case InCas(seen) => CasAdd(seen, INSERTER_UNIT)
    case InRel => Sub(INSERTER_UNIT)
    case Ph(site, seen) =>
      if seen.Some? && Expected(site, seen.value.phase) then CasPhase(seen.value, Target(site)) else Load
    case SlSeal => CasPhase(Gate.Word(Gate.Open, 0, 0), Gate.AllBlocked)
    case _ => Load
  }

  /** The access on the packed word; a CAS may fail. */
  predicate Performs(a: Access, w: Uint64, w': Uint64) {
    match a
    case Load => w' == w
    case Add(unit) => w' == FetchAdd(w, unit)
    case Sub(unit) => unit <= TWO64 && w' == FetchSub(w, unit)
    case CasAdd(seen, unit) => w' == w || (Fits(seen) && w == Pack(seen) && w' == FetchAdd(w, unit))
    case CasPhase(seen, phase) => w' == w || (Fits(seen) && w == Pack(seen) && w' == WithPhase(w, phase))
  }

  function Plus(g: Gate.Word, unit: nat): Gate.Word {
    if unit == READER_UNIT then g.(readers := g.readers + 1) else g.(inserters := g.inserters + 1)
  }

  /** The access on the three counts. */
  predicate Counts(a: Access, g: Gate.Word, g': Gate.Word) {
    match a
    case Load => g' == g
    case Add(unit) => (unit == READER_UNIT || unit == INSERTER_UNIT) && g' == Plus(g, unit)
    case Sub(unit) => (unit == READER_UNIT || unit == INSERTER_UNIT) && g == Plus(g', unit)
    case CasAdd(seen, unit) => g' == g || (unit == INSERTER_UNIT && g == seen && g' == Plus(g, unit))
    case CasPhase(seen, phase) => g' == g || (g == seen && g' == g.(phase := phase))
  }

  lemma PackFields(g: Gate.Word)
    requires Fits(g)
    ensures Readers(Pack(g)) == g.readers && Inserters(Pack(g)) == g.inserters
    ensures PhaseBits(Pack(g)) == PhaseCode(g.phase)
  {
    JoinFields(PhaseCode(g.phase), g.inserters, g.readers);
  }

  lemma SameFields(v: Uint64, w: Uint64)
    requires Readers(v) == Readers(w) && Inserters(v) == Inserters(w) && PhaseBits(v) == PhaseBits(w)
    ensures v == w
  {
    FieldsJoin(v);
    FieldsJoin(w);
  }

  lemma PlusIsAdd(g: Gate.Word, unit: nat)
    requires unit == READER_UNIT || unit == INSERTER_UNIT
    requires Fits(g) && Fits(Plus(g, unit))
    ensures Pack(Plus(g, unit)) == FetchAdd(Pack(g), unit) && Pack(g) == FetchSub(Pack(Plus(g, unit)), unit)
  {
    hide Readers, Inserters, PhaseBits, Join, FetchAdd, FetchSub;
    var w, w' := Pack(g), Pack(Plus(g, unit));
    PackFields(g);
    PackFields(Plus(g, unit));
    if unit == READER_UNIT {
      AddReaderIff(w);
      ReleaseReaderIff(w');
    } else {
      AddInserter(w);
      ReleaseInserterIff(w');
    }
    SameFields(FetchAdd(w, unit), w');
    SameFields(FetchSub(w', unit), w);
  }

  /** On counts that fit before and after, the packed word does what the counts do. */
  lemma CountsArePacked(a: Access, g: Gate.Word, g': Gate.Word)
    requires Counts(a, g, g') && Fits(g) && Fits(g')
    ensures Performs(a, Pack(g), Pack(g'))
  {
    hide Readers, Inserters, PhaseBits, Join, FetchAdd, FetchSub, WithPhase, Pack, Plus;
    if g' != g {
      match a
      case Load =>
      case Add(unit) => PlusIsAdd(g, unit);
      case Sub(unit) => PlusIsAdd(g', unit);
      case CasAdd(_, unit) => PlusIsAdd(g, unit);
      case CasPhase(_, phase) => PhaseIsWith(g, phase);
    } else if a.Add? || a.Sub? {
      PlusMoves(g, a.unit);
    }
  }

  lemma PlusMoves(g: Gate.Word, unit: nat)
    ensures Plus(g, unit) != g
  {
  }

  lemma PhaseIsWith(g: Gate.Word, phase: Gate.Phase)
    requires Fits(g)
    ensures Pack(g.(phase := phase)) == WithPhase(Pack(g), phase)
  {
    hide Readers, Inserters, PhaseBits, Join, WithPhase;
    PackFields(g);
    PackFields(g.(phase := phase));
    ChangePhase(Pack(g), phase);
    SameFields(WithPhase(Pack(g), phase), Pack(g.(phase := phase)));
  }

  // ---- the steps --------------------------------------------------------------------------------------

  lemma ReadCounts(s: State, t: Tid, s': State)
    requires t in s.pc && ReadStep(s, t, s.pc[t], s')
    ensures Counts(AccessAt(s.pc[t]), s.gate, s'.gate)
  {
  }

  lemma InsertCounts(s: State, t: Tid, s': State)
    requires t in s.pc && InsertStep(s, t, s.pc[t], s')
    ensures Counts(AccessAt(s.pc[t]), s.gate, s'.gate)
  {
  }

  lemma PhaseCounts(s: State, t: Tid, s': State)
    requires t in s.pc && PhaseStep(s, t, s.pc[t], s')
    ensures Counts(AccessAt(s.pc[t]), s.gate, s'.gate)
  {
  }

  lemma SealCounts(s: State, t: Tid, s': State)
    requires t in s.pc && SealStep(s, t, s.pc[t], s')
    ensures Counts(AccessAt(s.pc[t]), s.gate, s'.gate)
  {
  }

  predicate TouchesGate(f: Family) { f.FRead? || f.FInsert? || f.FPhase? || f.FSeal? }

  /** All other operations only load the word. */
  lemma OthersLoad(s: State, t: Tid, s': State)
    requires Step(s, t, s') && !TouchesGate(FamilyOf(s.pc[t]))
    ensures s'.gate == s.gate && AccessAt(s.pc[t]) == Load
  {
    hide Store.Rewritten, Store.Persist, Store.PersistWrite, Store.Compacted, Store.All;
  }

  lemma StepCounts(s: State, t: Tid, s': State)
    requires Step(s, t, s')
    ensures Counts(AccessAt(s.pc[t]), s.gate, s'.gate)
  {
    hide AccessAt, ReadStep, InsertStep, PhaseStep, SealStep;
    if !TouchesGate(FamilyOf(s.pc[t])) {
      OthersLoad(s, t, s');
    } else {
      match FamilyOf(s.pc[t])
      case FRead => ReadCounts(s, t, s');
      case FInsert => InsertCounts(s, t, s');
      case FPhase => PhaseCounts(s, t, s');
      case FSeal => SealCounts(s, t, s');
    }
  }

  /** With fewer than 2^31 threads the counts always fit. */
  lemma CountsFit(s: State)
    requires Reachable(s) && |s.pc| <= MAX_COUNT
    ensures Fits(s.gate)
  {
    AdmissionsAreConserved(s);
    SubsetBound(Threads(s, Gate.ReaderField), s.pc.Keys);
    SubsetBound(Threads(s, Gate.InserterField), s.pc.Keys);
    assert |s.pc.Keys| == |s.pc|;
  }

  lemma SubsetBound(a: set<Tid>, b: set<Tid>)
    requires a <= b
    ensures |a| <= |b|
  {
    assert b == a + (b - a);
  }

  lemma StepGateEvent(s: State, t: Tid, s': State)
    requires Reachable(s) && Step(s, t, s')
    ensures GateEvent(s, t, s')
  {
    hide StepOf, FamilyOf, Reachable, Local, GateEvent, RoleOk;
    ReachableLocal(s, t);
    LocalGivesRole(s.line, s.db, s.pc[t]);
    StepGate(s, t, s');
  }

  /**
    With fewer than 2^31 threads, every step of the protocol is the one access to the packed
    word that its program point prescribes.
   */
  lemma PackedWordRefines(s: State, t: Tid, s': State)
    requires Reachable(s) && Step(s, t, s') && |s.pc| <= MAX_COUNT
    ensures Fits(s.gate) && Fits(s'.gate) && Performs(AccessAt(s.pc[t]), Pack(s.gate), Pack(s'.gate))
  {
    hide StepOf, FamilyOf, Reachable, Gate.Event, AccessAt, Counts, Performs, Pack;
    CountsFit(s);
    StepGateEvent(s, t, s');
    assert s'.pc.Keys == s.pc.Keys;
    assert |s'.pc| == |s'.pc.Keys| && |s.pc| == |s.pc.Keys|;
    assert Next(s, s');
    ReachableNext(s, s');
    CountsFit(s');
    StepCounts(s, t, s');
    CountsArePacked(AccessAt(s.pc[t]), s.gate, s'.gate);
  }
}
