/** The store half of the invariant is kept by every step, one operation at a time. */
module ProtocolSteps {
  import Gate
  import Timeline
  import TimelineProof
  import opened Store
  import opened Protocol
  import opened ProtocolInv
  import opened ProtocolData
  import opened ProtocolCommits
  import opened ProtocolFacts

  /** The store half of the invariant in a state. */
  ghost predicate DbOk(s: State) { DbInv(s.line, s.db, s.pc) }

  ghost predicate Quiet(s: State, s': State) { s'.line == s.line && s'.db == s.db }

  /** A step of t that leaves line and store alone. */
  lemma QuietData(s: State, t: Tid, s': State, p': Pc)
    requires DbOk(s) && t in s.pc && Quiet(s, s') && s'.pc == s.pc[t := p'] && Local(s.line, s.db, p')
    requires LRole(s.pc[t]).Pending? ==> LRole(p') == LRole(s.pc[t])
    requires Installed(s.pc[t]) ==> Installed(p') || s.db.inst <= s.line.read
    requires IsExclusive(s.pc[t]) ==> IsExclusive(p') || Shows(s.db, s.line.view.ts, s.line.view.gen)
    ensures DbOk(s')
  {
    PcOnly(s.line, s.db, s.pc, t, p');
  }

  lemma LocalAt(s: State, t: Tid)
    requires DbOk(s) && t in s.pc
    ensures Local(s.line, s.db, s.pc[t]) && s.db.cur in s.db.snaps
  {
  }

  lemma BeginData(s: State, t: Tid, s': State)
    requires DbOk(s) && t in s.pc && s.pc[t].Idle? && Begin(s, t, s')
    ensures DbOk(s')
  {
    var p' := s'.pc[t];
    if p'.SlSeal? {
      ProtocolData.LockOnly(s.line, s'.line, s.db, s.pc, t, p');
    } else {
      QuietData(s, t, s', p');
    }
  }

  // ---- reads ----------------------------------------------------------------------------------

  lemma ReadLocal(s: State, t: Tid, s': State)
    requires t in s.pc && Local(s.line, s.db, s.pc[t]) && ReadStep(s, t, s.pc[t], s')
    requires s.pc[t].RdIn? ==>
      Shows(s.db, s.line.view.ts, s.line.view.gen) && s.line.view.ts <= s.line.read
    ensures Quiet(s, s') && t in s'.pc && s'.pc == s.pc[t := s'.pc[t]]
    ensures Local(s.line, s.db, s'.pc[t])
    ensures !LRole(s.pc[t]).Pending? && !Installed(s.pc[t]) && !IsExclusive(s.pc[t])
  {
  }

  lemma ReadData(s: State, t: Tid, s': State)
    requires Inv(s) && t in s.pc && ReadStep(s, t, s.pc[t], s')
    ensures DbOk(s')
  {
    if s.pc[t].RdIn? { ReaderKnows(s, t); }
    assert Local(s.line, s.db, s.pc[t]);
    ReadLocal(s, t, s');
    QuietData(s, t, s', s'.pc[t]);
  }

  // ---- inserts ----------------------------------------------------------------------------------

  lemma InsertLocal(s: State, t: Tid, s': State)
    requires t in s.pc && Local(s.line, s.db, s.pc[t]) && InsertStep(s, t, s.pc[t], s')
    requires s.pc[t].InLoad? || s.pc[t].InCas? || s.pc[t].InRel?
    ensures Quiet(s, s') && t in s'.pc && s'.pc == s.pc[t := s'.pc[t]]
    ensures Local(s.line, s.db, s'.pc[t])
  {
  }

  /** An insert without effect, or one whose facts are all written, goes on to complete. */
  lemma InsertEndLocal(s: State, t: Tid, s': State)
    requires t in s.pc && Local(s.line, s.db, s.pc[t]) && InsertStep(s, t, s.pc[t], s')
    requires s.db.cur in s.db.snaps && t in s'.pc && !s'.pc[t].InApply?
    requires s.pc[t].InHold? || s.pc[t].InWork? || s.pc[t].InApply?
    ensures Quiet(s, s') && s'.pc == s.pc[t := s'.pc[t]]
    ensures Local(s.line, s.db, s'.pc[t])
    ensures LRole(s'.pc[t]) == LRole(s.pc[t])
  {
  }

  /** All threads after an insert commit. */
  lemma InsertCommitLocals(s: State, t: Tid, db': Db, ts: nat, g: nat, fs: set<Fact>)
    requires Locals(s.line, s.db, s.pc) && t in s.pc && s.pc[t] == InWork(ts, g) && OthersYield(s.pc, t)
    requires Timeline.Distinct(LRoles(s.pc)) && s.line.read < ts && s.db.cur in s.db.snaps
    requires db' == s.db.(log := s.db.log[ts := Write({}, fs)], wal := s.db.wal[ts := Write({}, fs)])
    ensures Locals(s.line, db', s.pc[t := InApply(ts, g, fs)])
  {
    var rs := LRoles(s.pc);
    assert Local(s.line, s.db, s.pc[t]);
    forall u | u in s.pc && u != t ensures Local(s.line, db', s.pc[u]) {
      assert rs[t] == Timeline.Pending(ts) != rs[u];
      OthersAfterAppend(s.line, s.db, db', ts, Write({}, fs), s.pc[u]);
    }
  }

  lemma InsertCommit(s: State, t: Tid, s': State, ts: nat, g: nat, fs: set<Fact>)
    requires DbOk(s) && Inserting(s, t) && s.pc[t] == InWork(ts, g) && Persist(fs) == fs
    requires s' == SetDb(s, t, s.db.(log := s.db.log[ts := Write({}, fs)], wal := s.db.wal[ts := Write({}, fs)]),
                         InApply(ts, g, fs))
    ensures DbOk(s')
  {
    var w, p' := Write({}, fs), InApply(ts, g, fs);
    LocalAt(s, t);
    assert PersistWrite(w) == w;
    WalAppend(s.line, s.db, s'.db, ts, w);
    InsertCommitLocals(s, t, s'.db, ts, g, fs);
    AppendData(s.line, s.db, s'.db, s.pc, t, p', ts, w);
  }

  /** All threads after one inserted fact. */
  lemma InsertItemLocals(s: State, t: Tid, db': Db, ts: nat, g: nat, todo: set<Fact>, f: Fact)
    requires Locals(s.line, s.db, s.pc) && t in s.pc && s.pc[t] == InApply(ts, g, todo) && OthersYield(s.pc, t)
    requires s.line.read < ts && f in todo && g in s.db.snaps
    requires db' == s.db.(snaps := s.db.snaps[g := s.db.snaps[g] + {Item(ts, f)}])
    ensures Locals(s.line, db', s.pc[t := InApply(ts, g, todo - {f})])
  {
    assert Local(s.line, s.db, s.pc[t]);
    forall u | u in s.pc && u != t ensures Local(s.line, db', s.pc[u]) {
      OthersAfterItem(s.line, s.db, db', Item(ts, f), s.pc[u]);
    }
  }

  lemma InsertItem(s: State, t: Tid, s': State, ts: nat, g: nat, todo: set<Fact>, f: Fact)
    requires DbOk(s) && Inserting(s, t) && s.pc[t] == InApply(ts, g, todo) && f in todo && g in s.db.snaps
    requires s' == SetDb(s, t, s.db.(snaps := s.db.snaps[g := s.db.snaps[g] + {Item(ts, f)}]),
                         InApply(ts, g, todo - {f}))
    ensures DbOk(s')
  {
    var p' := InApply(ts, g, todo - {f});
    LocalAt(s, t);
    InsertItemLocals(s, t, s'.db, ts, g, todo, f);
    ItemData(s.line, s.db, s'.db, s.pc, t, p', ts, f);
  }

  lemma InsertData(s: State, t: Tid, s': State)
    requires DbOk(s) && t in s.pc && InsertStep(s, t, s.pc[t], s')
    requires s.pc[t].InWork? || s.pc[t].InApply? ==> Inserting(s, t)
    ensures DbOk(s')
  {
    hide DbInv;
    LocalAt(s, t);
    var p' := s'.pc[t];
    if s.pc[t].InWork? && p'.InApply? {
      InsertCommit(s, t, s', s.pc[t].ts, s.pc[t].g, p'.todo);
    } else if s.pc[t].InApply? && s.pc[t].todo != {} {
      var f :| f in s.pc[t].todo && p' == InApply(s.pc[t].ts, s.pc[t].g, s.pc[t].todo - {f})
        && s.pc[t].g in s.db.snaps
        && s'.db.snaps == s.db.snaps[s.pc[t].g := s.db.snaps[s.pc[t].g] + {Item(s.pc[t].ts, f)}];
      InsertItem(s, t, s', s.pc[t].ts, s.pc[t].g, s.pc[t].todo, f);
    } else {
      if s.pc[t].InHold? || s.pc[t].InWork? || s.pc[t].InApply? {
        InsertEndLocal(s, t, s');
      } else {
        InsertLocal(s, t, s');
      }
      QuietData(s, t, s', p');
    }
  }

  // ---- reservation --------------------------------------------------------------------------------

  /** An owner is alone, so its candidate is current and the window is empty. */
  lemma ReserveLocal(s: State, t: Tid, s': State)
    requires t in s.pc && Local(s.line, s.db, s.pc[t]) && ReserveStep(s, t, s.pc[t], s')
    requires Timeline.Local(s.line, LRole(s.pc[t])) && s.line.read < s.line.write
    requires GRole(s.pc[t]).Owner? ==> s.line.write == s.line.read + 1
    requires s'.line == s.line
    ensures Quiet(s, s') && t in s'.pc && s'.pc == s.pc[t := s'.pc[t]]
    ensures Local(s.line, s.db, s'.pc[t])
    ensures !LRole(s.pc[t]).Pending? && !Installed(s.pc[t])
    ensures IsExclusive(s.pc[t]) ==> IsExclusive(s'.pc[t])
  {
  }

  lemma ReserveStepData(s: State, t: Tid, s': State)
    requires DbOk(s) && t in s.pc && ReserveStep(s, t, s.pc[t], s')
    requires Admitted(s, t)
    requires GRole(s.pc[t]).Owner? ==> Tight(s, t)
    ensures DbOk(s')
  {
    hide DbInv;
    LocalAt(s, t);
    assert Timeline.Local(s.line, LRoles(s.pc)[t]);
    if s'.line == s.line {
      ReserveLocal(s, t, s');
      QuietData(s, t, s', s'.pc[t]);
    } else {
      ReserveData(s.line, s'.line, s.db, s.pc, t, s.pc[t].role);
    }
  }

  // ---- phase changes --------------------------------------------------------------------------------

  /** An owner always finds the phase it expects: transition_phase and reopen never throw. */
  lemma PhaseLocal(s: State, t: Tid, s': State)
    requires t in s.pc && Local(s.line, s.db, s.pc[t]) && PhaseStep(s, t, s.pc[t], s')
    requires GRole(s.pc[t]).Owner? ==> s.gate.phase == GRole(s.pc[t]).phase
    ensures Quiet(s, s') && t in s'.pc && s'.pc == s.pc[t := s'.pc[t]] && !s'.pc[t].PhThrow?
    ensures Local(s.line, s.db, s'.pc[t])
    ensures LRole(s.pc[t]).Pending? ==> LRole(s'.pc[t]) == LRole(s.pc[t])
    ensures !Installed(s.pc[t])
  {
    hide Shows, Rewritten, InsertPartly, OlderThan;
  }

  lemma PhaseData(s: State, t: Tid, s': State)
    requires DbOk(s) && t in s.pc && PhaseStep(s, t, s.pc[t], s')
    requires GRole(s.pc[t]).Owner? ==> s.gate.phase == GRole(s.pc[t]).phase
    requires IsExclusive(s.pc[t]) ==> Shows(s.db, s.line.view.ts, s.line.view.gen)
    ensures DbOk(s')
  {
    hide DbInv;
    LocalAt(s, t);
    PhaseLocal(s, t, s');
    QuietData(s, t, s', s'.pc[t]);
  }
}
