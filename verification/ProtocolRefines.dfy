/** Every step of the protocol is one event of the gate ledger and one event of the timeline. */
module ProtocolRefines {
  import Gate
  import Timeline
  import TimelineProof
  import opened Store
  import opened Protocol
  import opened ProtocolInv

  /** The gate side of a step. */
  ghost predicate GateEvent(s: State, t: Tid, s': State) {
    && t in s.pc && t in s'.pc && s'.pc == s.pc[t := s'.pc[t]]
    && Gate.Event(s.gate, GRole(s.pc[t]), s'.gate, GRole(s'.pc[t]))
  }

  /** The timeline side of a step. */
  ghost predicate LineEvent(s: State, t: Tid, s': State) {
    && t in s.pc && t in s'.pc
    && Timeline.Event(s.line, LRoles(s.pc), t, s'.line, LRole(s'.pc[t]))
  }

  lemma RoleAt(pc: map<Tid, Pc>, t: Tid)
    requires t in pc
    ensures t in LRoles(pc) && LRoles(pc)[t] == LRole(pc[t])
  {
  }

  lemma BeginGate(s: State, t: Tid, s': State)
    requires t in s.pc && RoleOk(s.pc[t]) && s.pc[t].Idle? && Begin(s, t, s')
    ensures GateEvent(s, t, s')
  {
  }

  lemma BeginLine(s: State, t: Tid, s': State)
    requires t in s.pc && RoleOk(s.pc[t]) && s.pc[t].Idle? && Begin(s, t, s')
    ensures LineEvent(s, t, s')
  {
    hide LRoles, Timeline.InReset, Timeline.NobodyElse;
    RoleAt(s.pc, t);
  }

  lemma ReadGate(s: State, t: Tid, s': State)
    requires t in s.pc && RoleOk(s.pc[t]) && ReadStep(s, t, s.pc[t], s')
    ensures GateEvent(s, t, s')
  {
  }

  lemma ReadLine(s: State, t: Tid, s': State)
    requires t in s.pc && RoleOk(s.pc[t]) && ReadStep(s, t, s.pc[t], s')
    ensures LineEvent(s, t, s')
  {
  }

  lemma InsertGate(s: State, t: Tid, s': State)
    requires t in s.pc && RoleOk(s.pc[t]) && InsertStep(s, t, s.pc[t], s')
    ensures GateEvent(s, t, s')
  {
  }

  lemma InsertLine(s: State, t: Tid, s': State)
    requires t in s.pc && RoleOk(s.pc[t]) && InsertStep(s, t, s.pc[t], s')
    ensures LineEvent(s, t, s')
  {
  }

  lemma ReserveGate(s: State, t: Tid, s': State)
    requires t in s.pc && RoleOk(s.pc[t]) && ReserveStep(s, t, s.pc[t], s')
    ensures GateEvent(s, t, s')
  {
  }

  lemma ReserveLine(s: State, t: Tid, s': State)
    requires t in s.pc && RoleOk(s.pc[t]) && ReserveStep(s, t, s.pc[t], s')
    requires s.pc[t].ResW? ==> !Timeline.InReset(LRoles(s.pc))
    ensures LineEvent(s, t, s')
  {
    hide LRoles, Timeline.InReset, Timeline.NobodyElse;
    RoleAt(s.pc, t);
  }

  lemma PhaseGate(s: State, t: Tid, s': State)
    requires t in s.pc && RoleOk(s.pc[t]) && PhaseStep(s, t, s.pc[t], s')
    ensures GateEvent(s, t, s')
  {
  }

  lemma PhaseLine(s: State, t: Tid, s': State)
    requires t in s.pc && RoleOk(s.pc[t]) && PhaseStep(s, t, s.pc[t], s')
    ensures LineEvent(s, t, s')
  {
    hide LRoles, Timeline.InReset, Timeline.NobodyElse;
    RoleAt(s.pc, t);
  }

  lemma UpdateGate(s: State, t: Tid, s': State)
    requires t in s.pc && RoleOk(s.pc[t]) && UpdateStep(s, t, s.pc[t], s')
    ensures GateEvent(s, t, s')
  {
    hide Rewritten;
  }

  lemma UpdateLine(s: State, t: Tid, s': State)
    requires t in s.pc && RoleOk(s.pc[t]) && UpdateStep(s, t, s.pc[t], s')
    ensures LineEvent(s, t, s')
  {
    hide Rewritten;
  }

  lemma TpGate(s: State, t: Tid, s': State)
    requires t in s.pc && RoleOk(s.pc[t]) && TpStep(s, t, s.pc[t], s')
    ensures GateEvent(s, t, s')
  {
  }

  lemma TpLine(s: State, t: Tid, s': State)
    requires t in s.pc && RoleOk(s.pc[t]) && TpStep(s, t, s.pc[t], s')
    requires s.pc[t].UpGen? ==> Timeline.NobodyElse(LRoles(s.pc), t)
    ensures LineEvent(s, t, s')
  {
  }

  lemma GuardGate(s: State, t: Tid, s': State)
    requires t in s.pc && RoleOk(s.pc[t]) && GuardStep(s, t, s.pc[t], s')
    ensures GateEvent(s, t, s')
  {
  }

  lemma GuardLine(s: State, t: Tid, s': State)
    requires t in s.pc && RoleOk(s.pc[t]) && GuardStep(s, t, s.pc[t], s')
    ensures LineEvent(s, t, s')
  {
  }

  lemma ApGate(s: State, t: Tid, s': State)
    requires t in s.pc && RoleOk(s.pc[t]) && ApStep(s, t, s.pc[t], s')
    ensures GateEvent(s, t, s')
  {
    hide Rewritten, PersistWrite, Persist, All;
  }

  lemma ApLine(s: State, t: Tid, s': State)
    requires t in s.pc && RoleOk(s.pc[t]) && ApStep(s, t, s.pc[t], s')
    ensures LineEvent(s, t, s')
  {
    hide Rewritten, PersistWrite, Persist, All;
  }

  lemma ResetGate(s: State, t: Tid, s': State)
    requires t in s.pc && RoleOk(s.pc[t]) && ResetStep(s, t, s.pc[t], s')
    ensures GateEvent(s, t, s')
  {
  }

  lemma ResetLine(s: State, t: Tid, s': State)
    requires t in s.pc && RoleOk(s.pc[t]) && ResetStep(s, t, s.pc[t], s')
    requires s.pc[t].RsWrite? ==> Timeline.NobodyElse(LRoles(s.pc), t)
    ensures LineEvent(s, t, s')
  {
    hide LRoles, Timeline.InReset, Timeline.NobodyElse;
    RoleAt(s.pc, t);
  }

  lemma CompactGate(s: State, t: Tid, s': State)
    requires t in s.pc && RoleOk(s.pc[t]) && CompactStep(s, t, s.pc[t], s')
    ensures GateEvent(s, t, s')
  {
  }

  lemma CompactLine(s: State, t: Tid, s': State)
    requires t in s.pc && RoleOk(s.pc[t]) && CompactStep(s, t, s.pc[t], s')
    ensures LineEvent(s, t, s')
  {
  }

  lemma ExclusiveGate(s: State, t: Tid, s': State)
    requires t in s.pc && RoleOk(s.pc[t]) && ExclusiveStep(s, t, s.pc[t], s')
    ensures GateEvent(s, t, s')
  {
  }

  lemma ExclusiveLine(s: State, t: Tid, s': State)
    requires t in s.pc && RoleOk(s.pc[t]) && ExclusiveStep(s, t, s.pc[t], s')
    ensures LineEvent(s, t, s')
  {
    hide LRoles, Timeline.InReset, Timeline.NobodyElse;
    RoleAt(s.pc, t);
  }

  lemma SealGate(s: State, t: Tid, s': State)
    requires t in s.pc && RoleOk(s.pc[t]) && SealStep(s, t, s.pc[t], s')
    ensures GateEvent(s, t, s')
  {
  }

  lemma SealLine(s: State, t: Tid, s': State)
    requires t in s.pc && RoleOk(s.pc[t]) && SealStep(s, t, s.pc[t], s')
    ensures LineEvent(s, t, s')
  {
  }

  lemma CompleteGate(s: State, t: Tid, s': State)
    requires t in s.pc && RoleOk(s.pc[t]) && CompleteStep(s, t, s.pc[t], s')
    ensures GateEvent(s, t, s')
  {
  }

  lemma CompleteLine(s: State, t: Tid, s': State)
    requires t in s.pc && RoleOk(s.pc[t]) && CompleteStep(s, t, s.pc[t], s')
    ensures LineEvent(s, t, s')
  {
    hide LRoles, Timeline.InReset, Timeline.NobodyElse;
    RoleAt(s.pc, t);
  }

  lemma AdvanceGate(s: State, t: Tid, s': State)
    requires t in s.pc && RoleOk(s.pc[t]) && AdvanceStep(s, t, s.pc[t], s')
    ensures GateEvent(s, t, s')
  {
  }

  lemma AdvanceLine(s: State, t: Tid, s': State)
    requires t in s.pc && RoleOk(s.pc[t]) && AdvanceStep(s, t, s.pc[t], s')
    ensures LineEvent(s, t, s')
  {
    hide LRoles, Timeline.InReset, Timeline.NobodyElse;
    RoleAt(s.pc, t);
  }

  lemma ResettingIsExclusive(line: Timeline.Line, db: Db, p: Pc)
    requires Timeline.Resetting(LRole(p))
    ensures GRole(p) == EXCLUSIVE
  {
  }

  lemma NoResetWhileAdmitted(s: State, t: Tid)
    requires Inv(s) && t in s.pc && LRole(s.pc[t]).NoTs?
    requires GRole(s.pc[t]).Inserter? || GRole(s.pc[t]).Owner?
    ensures !Timeline.InReset(LRoles(s.pc))
  {
    forall u | u in s.pc ensures !Timeline.Resetting(LRole(s.pc[u])) {
      if Timeline.Resetting(LRole(s.pc[u])) {
        ResettingIsExclusive(s.line, s.db, s.pc[u]);
        OwnerIsAlone(s, u);
      }
    }
  }

  /** Every protocol step refines the gate ledger. */
  lemma StepGate(s: State, t: Tid, s': State)
    requires Step(s, t, s') && RoleOk(s.pc[t])
    ensures GateEvent(s, t, s')
  {
    hide GateEvent, RoleOk;
    var p := s.pc[t];
    match FamilyOf(p)
    case FBegin => BeginGate(s, t, s');
    case FRead => ReadGate(s, t, s');
    case FInsert => InsertGate(s, t, s');
    case FReserve => ReserveGate(s, t, s');
    case FPhase => PhaseGate(s, t, s');
    case FUpdate => UpdateGate(s, t, s');
    case FTp => TpGate(s, t, s');
    case FGuard => GuardGate(s, t, s');
    case FAp => ApGate(s, t, s');
    case FReset => ResetGate(s, t, s');
    case FCompact => CompactGate(s, t, s');
    case FExclusive => ExclusiveGate(s, t, s');
    case FSeal => SealGate(s, t, s');
    case FComplete => CompleteGate(s, t, s');
    case FAdvance => AdvanceGate(s, t, s');
  }

  /** Every protocol step refines the timeline. */
  lemma StepLine(s: State, t: Tid, s': State)
    requires Step(s, t, s') && RoleOk(s.pc[t])
    requires s.pc[t].ResW? ==> !Timeline.InReset(LRoles(s.pc))
    requires s.pc[t].UpGen? || s.pc[t].RsWrite? ==> Timeline.NobodyElse(LRoles(s.pc), t)
    ensures LineEvent(s, t, s')
  {
    hide LineEvent, RoleOk;
    var p := s.pc[t];
    match FamilyOf(p)
    case FBegin => BeginLine(s, t, s');
    case FRead => ReadLine(s, t, s');
    case FInsert => InsertLine(s, t, s');
    case FReserve => ReserveLine(s, t, s');
    case FPhase => PhaseLine(s, t, s');
    case FUpdate => UpdateLine(s, t, s');
    case FTp => TpLine(s, t, s');
    case FGuard => GuardLine(s, t, s');
    case FAp => ApLine(s, t, s');
    case FReset => ResetLine(s, t, s');
    case FCompact => CompactLine(s, t, s');
    case FExclusive => ExclusiveLine(s, t, s');
    case FSeal => SealLine(s, t, s');
    case FComplete => CompleteLine(s, t, s');
    case FAdvance => AdvanceLine(s, t, s');
  }

  /** The ledger invariant holds after every step. */
  lemma StepKeepsGate(s: State, t: Tid, s': State)
    requires Gate.Inv(s.gate, GRoles(s.pc)) && GateEvent(s, t, s')
    ensures Gate.Inv(s'.gate, GRoles(s'.pc))
  {
    var p' := s'.pc[t];
    GRolesAfter(s.pc, t, p');
    Gate.EventKeepsInv(s.gate, GRoles(s.pc), t, s'.gate, GRole(p'));
  }

  /** The timeline invariant holds after every step. */
  lemma StepKeepsLine(s: State, t: Tid, s': State)
    requires Timeline.Inv(s.line, LRoles(s.pc)) && LineEvent(s, t, s') && s'.pc == s.pc[t := s'.pc[t]]
    ensures Timeline.Inv(s'.line, LRoles(s'.pc))
  {
    var p' := s'.pc[t];
    LRolesAfter(s.pc, t, p');
    TimelineProof.EventKeepsInv(s.line, LRoles(s.pc), t, s'.line, LRole(p'));
  }

  /** What a thread knows about the others when it takes a step. */
  lemma StepPremises(s: State, t: Tid)
    requires Inv(s) && t in s.pc
    ensures RoleOk(s.pc[t])
    ensures s.pc[t].ResW? ==> !Timeline.InReset(LRoles(s.pc))
    ensures s.pc[t].UpGen? || s.pc[t].RsWrite? ==> Timeline.NobodyElse(LRoles(s.pc), t)
  {
    hide Gate.Inv, Timeline.Inv, Timeline.InReset, Timeline.NobodyElse;
    var p := s.pc[t];
    assert Local(s.line, s.db, p);
    LocalGivesRole(s.line, s.db, p);
    if p.ResW? { NoResetWhileAdmitted(s, t); }
    if p.UpGen? || p.RsWrite? { OwnerIsAlone(s, t); }
  }
}
