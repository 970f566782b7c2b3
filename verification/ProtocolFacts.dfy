/** What an admitted thread knows about all the others when it takes its next step. */
module ProtocolFacts {
  import Gate
  import Timeline
  import TimelineProof
  import opened Store
  import opened Protocol
  import opened ProtocolInv
  import opened ProtocolData
  import opened ProtocolCommits
  import opened ProtocolRefines

  lemma NoResetFor(s: State, t: Tid)
    requires Inv(s) && t in s.pc && !Timeline.Resetting(LRole(s.pc[t]))
    requires !Outsider(s.pc[t])
    ensures !Timeline.InReset(LRoles(s.pc))
  {
    forall u | u in s.pc ensures !Timeline.Resetting(LRole(s.pc[u])) {
      if Timeline.Resetting(LRole(s.pc[u])) {
        ResettingIsExclusive(s.line, s.db, s.pc[u]);
        OwnerIsAlone(s, u);
        ExclusiveHasNoReaders(s, u);
      }
    }
  }

  lemma NormalFor(s: State, t: Tid)
    requires Inv(s) && t in s.pc && !Timeline.Resetting(LRole(s.pc[t]))
    requires !Outsider(s.pc[t])
    ensures Timeline.Normal(s.line, LRoles(s.pc))
  {
    NoResetFor(s, t);
  }

  lemma OwnerFromRoles(s: State, t: Tid)
    requires Gate.Inv(s.gate, GRoles(s.pc)) && t in s.pc && GRole(s.pc[t]).Owner?
    ensures s.gate.phase == GRole(s.pc[t]).phase
    ensures forall u :: u in s.pc && u != t ==> !GRole(s.pc[u]).Owner?
    ensures GRole(s.pc[t]).insDrained ==> forall u :: u in s.pc ==> !GRole(s.pc[u]).Inserter?
    ensures GRole(s.pc[t]).rdDrained ==> forall u :: u in s.pc ==> !GRole(s.pc[u]).Reader?
  {
    var rs := GRoles(s.pc);
    Gate.OwnerIsUnique(s.gate, rs, t);
    assert Gate.OwnerOk(s.gate, rs, rs[t]);
    forall u | u in s.pc
      ensures u != t ==> !GRole(s.pc[u]).Owner?
      ensures GRole(s.pc[t]).insDrained ==> !GRole(s.pc[u]).Inserter?
      ensures GRole(s.pc[t]).rdDrained ==> !GRole(s.pc[u]).Reader?
    {
      assert u in rs && rs[u] == GRole(s.pc[u]);
    }
  }

  lemma YieldsTo(s: State, t: Tid)
    requires Inv(s) && t in s.pc && (GRole(s.pc[t]).Inserter? || GRole(s.pc[t]).Owner?)
    ensures OthersYield(s.pc, t)
  {
    forall u | u in s.pc && u != t ensures !DrainedOwner(s.pc[u]) {
      if DrainedOwner(s.pc[u]) { OwnerFromRoles(s, u); }
    }
  }

  lemma InstalledOwns(line: Timeline.Line, db: Db, p: Pc)
    requires Local(line, db, p) && Installed(p)
    ensures DrainedOwner(p)
  {
  }

  /** An installed snapshot whose timestamp is not passed yet belongs to the drained owner. */
  lemma InstalledIsMine(s: State, t: Tid)
    requires Inv(s) && t in s.pc && (GRole(s.pc[t]).Inserter? || GRole(s.pc[t]).Owner?)
    requires s.db.inst > s.line.read
    ensures Installed(s.pc[t])
  {
    var u :| u in s.pc && Installed(s.pc[u]);
    InstalledOwns(s.line, s.db, s.pc[u]);
    YieldsTo(s, t);
  }

  // ---- bundles ------------------------------------------------------------------------------

  /** For a thread holding an inserter or owner admission. */
  ghost predicate Admitted(s: State, t: Tid) {
    && t in s.pc && OthersYield(s.pc, t)
    && Timeline.Normal(s.line, LRoles(s.pc))
    && (s.db.inst > s.line.read ==> Installed(s.pc[t]))
  }

  /** For an owner that has drained the inserters. */
  ghost predicate Alone(s: State, t: Tid) {
    && t in s.pc && OnlyReaders(s.pc, t)
    && (IsExclusive(s.pc[t]) ==> OnlyOutsiders(s.pc, t))
  }

  /** For a drained owner that is not inside a completion call. */
  ghost predicate Tight(s: State, t: Tid) {
    && t in s.pc && s.line.view.ts == s.line.read
    && (LRole(s.pc[t]).Pending? ==> s.line.read + 1 == LRole(s.pc[t]).ts)
    && (!LRole(s.pc[t]).Pending? ==> s.line.write == s.line.read + 1)
  }

  /** For an inserter with a reserved timestamp. */
  ghost predicate Inserting(s: State, t: Tid) {
    && t in s.pc && OthersYield(s.pc, t) && Timeline.Distinct(LRoles(s.pc))
    && Timeline.Local(s.line, LRole(s.pc[t]))
    && s.db.inst <= s.line.read && s.line.view.ts <= s.line.read
  }

  lemma InsertingKnows(s: State, t: Tid)
    requires Admitted(s, t) && !Installed(s.pc[t])
    ensures Inserting(s, t)
  {
    assert Timeline.Local(s.line, LRoles(s.pc)[t]);
  }

  /** For the thread that is moving the frontier. */
  ghost predicate Advancer(s: State, t: Tid) {
    && t in s.pc && OthersYield(s.pc, t) && Timeline.RingOk(s.line)
    && Timeline.Local(s.line, LRole(s.pc[t])) && s.line.view.ts <= s.line.read
    && (s.db.inst > s.line.read ==> Installed(s.pc[t]))
    && (LRole(s.pc[t]).AdvStore? ==> !Timeline.Held(LRoles(s.pc), LRole(s.pc[t]).nxt))
  }

  lemma AdvancerKnows(s: State, t: Tid)
    requires Admitted(s, t)
    ensures Advancer(s, t)
  {
    assert Timeline.Local(s.line, LRoles(s.pc)[t]);
  }

  lemma AdmittedKnows(s: State, t: Tid)
    requires Inv(s) && t in s.pc && (GRole(s.pc[t]).Inserter? || GRole(s.pc[t]).Owner?)
    requires !Timeline.Resetting(LRole(s.pc[t]))
    ensures Admitted(s, t)
  {
    NormalFor(s, t);
    YieldsTo(s, t);
    if s.db.inst > s.line.read { InstalledIsMine(s, t); }
  }

  lemma OwnerKnows(s: State, t: Tid)
    requires Inv(s) && t in s.pc && DrainedOwner(s.pc[t])
    ensures Alone(s, t)
  {
    OwnerFromRoles(s, t);
  }

  lemma TightKnows(s: State, t: Tid)
    requires Inv(s) && t in s.pc && DrainedOwner(s.pc[t])
    requires !Timeline.Resetting(LRole(s.pc[t])) && !TimelineProof.Completing(LRole(s.pc[t]))
    ensures Tight(s, t)
  {
    NormalFor(s, t);
    OwnerIsAlone(s, t);
    TimelineProof.AloneIsTight(s.line, LRoles(s.pc), t);
  }

  lemma NoExclusiveWithReader(s: State, t: Tid)
    requires Gate.Inv(s.gate, GRoles(s.pc)) && t in s.pc && GRole(s.pc[t]).Reader?
    ensures !AnyExclusive(s.pc)
  {
    if u :| u in s.pc && IsExclusive(s.pc[u]) { OwnerFromRoles(s, u); }
  }

  lemma ViewShows(line: Timeline.Line, db: Db, pc: map<Tid, Pc>)
    requires DbInv(line, db, pc) && !AnyExclusive(pc)
    ensures Shows(db, line.view.ts, line.view.gen)
  {
  }

  lemma ViewBehindFrontier(line: Timeline.Line, rs: Timeline.Roles)
    requires Timeline.Inv(line, rs) && !Timeline.InReset(rs)
    ensures line.view.ts <= line.read
  {
  }

  /** A reader, once admitted, loads a view that shows a serial state. */
  lemma ReaderKnows(s: State, t: Tid)
    requires Inv(s) && t in s.pc && s.pc[t].RdIn?
    ensures Shows(s.db, s.line.view.ts, s.line.view.gen) && s.line.view.ts <= s.line.read
  {
    hide Shows, DbInv, Gate.Inv, Timeline.Inv, Timeline.InReset, AnyExclusive;
    NoResetFor(s, t);
    ViewBehindFrontier(s.line, LRoles(s.pc));
    NoExclusiveWithReader(s, t);
    ViewShows(s.line, s.db, s.pc);
  }

  /** The published view shows the current serial state whenever an owner is about to reopen. */
  lemma TightShows(line: Timeline.Line, db: Db, pc: map<Tid, Pc>)
    requires DbInv(line, db, pc) && db.inst <= line.read && line.view.ts == line.read
    ensures Shows(db, line.view.ts, line.view.gen)
  {
  }

  /** Before its commit, an owner's timestamp is above everything in the snapshot. */
  lemma FreshIsNewest(line: Timeline.Line, db: Db, ts: nat)
    requires Basic(line, db) && Current(line, db) && Fresh(line, db, ts)
    requires db.inst <= line.read && line.read + 1 == ts
    ensures OlderThan(db, ts)
  {
  }
}
