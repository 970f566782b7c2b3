/** Every event of every thread keeps the timeline invariant. */
module TimelineProof {
  import opened Common
  import opened Timeline

  lemma IndexInjective(x: nat, y: nat)
    requires TsIndex(x) == TsIndex(y) && x <= y < x + WINDOW
    ensures x == y
  {
  }

  lemma HeldStays(rs: Roles, t: Tid, r': Role, x: nat)
    requires t in rs && Held(rs, x) && (rs[t] != Pending(x) || r' == Pending(x))
    ensures Held(rs[t := r'], x)
  {
    var u :| u in rs && rs[u] == Pending(x);
    var rs' := rs[t := r'];
    assert u in rs' && rs'[u] == Pending(x);
  }

  lemma MovingStays(rs: Roles, t: Tid, r': Role, x: nat)
    requires t in rs && Moving(rs, x) && (rs[t] != AdvStore(x) || r' == AdvStore(x))
    ensures Moving(rs[t := r'], x)
  {
    var u :| u in rs && rs[u] == AdvStore(x);
    var rs' := rs[t := r'];
    assert u in rs' && rs'[u] == AdvStore(x);
  }

  lemma ResponsibleStays(l: Line, rs: Roles, t: Tid, r': Role)
    requires t in rs && SomeoneResponsible(l, rs)
    requires Responsible(rs[t], l.read) ==> Responsible(r', l.read)
    ensures SomeoneResponsible(l, rs[t := r'])
  {
    var u :| u in rs && Responsible(rs[u], l.read);
    var rs' := rs[t := r'];
    assert u in rs' && Responsible(rs'[u], l.read);
  }

  /** Cover for an unchanged line when t owns and passes nothing before or after. */
  lemma CoverStays(l: Line, rs: Roles, t: Tid, r': Role)
    requires t in rs && Cover(l, rs) && !rs[t].AdvStore?
    requires rs[t].Pending? ==> r' == rs[t]
    ensures Cover(l, rs[t := r'])
  {
    forall x | l.read < x < l.write
      ensures InRing(l, x) || Held(rs[t := r'], x) || Moving(rs[t := r'], x)
    {
      if Held(rs, x) {
        HeldStays(rs, t, r', x);
      } else if Moving(rs, x) {
        MovingStays(rs, t, r', x);
      }
    }
  }

  /** A move of t that leaves the line alone and does not concern the lock. */
  lemma QuietMove(l: Line, rs: Roles, t: Tid, r': Role)
    requires Normal(l, rs) && t in rs && Local(l, r')
    requires !HoldsLock(rs[t]) && !HoldsLock(r')
    requires !rs[t].Pending? && !rs[t].Marked? && !r'.Pending?
    ensures Normal(l, rs[t := r'])
  {
    CoverStays(l, rs, t, r');
    if InRing(l, l.read + 1) { ResponsibleStays(l, rs, t, r'); }
  }

  /** A move of the lock holder that leaves the line alone. */
  lemma LockedMove(l: Line, rs: Roles, t: Tid, r': Role)
    requires Normal(l, rs) && t in rs && Local(l, r')
    requires HoldsLock(rs[t]) && HoldsLock(r')
    requires !rs[t].AdvStore? && !r'.AdvStore?
    requires InRing(l, l.read + 1) && Responsible(rs[t], l.read) ==> Responsible(r', l.read)
    requires Advancing(rs[t]) ==> Advancing(r')
    ensures Normal(l, rs[t := r'])
  {
    CoverStays(l, rs, t, r');
    if InRing(l, l.read + 1) { ResponsibleStays(l, rs, t, r'); }
  }

  lemma TakeLock(l: Line, rs: Roles, t: Tid, l': Line, r': Role)
    requires Normal(l, rs) && t in rs && l.lock == None && l' == l.(lock := Some(t))
    requires (rs[t].NoTs? && r' == LockOnly) || (rs[t].Marked? && r' == Checking(rs[t].ts))
    ensures Normal(l', rs[t := r'])
  {
    hide Cover, NoLostAdvance;
    CoverStays(l, rs, t, r');
    AdvanceStays(l, rs, t, r');
    LockIrrelevant(l, rs[t := r'], l');
  }

  /** Who accounts for the timestamps, and who passes the next one, does not depend on lock and view. */
  lemma LockIrrelevant(l: Line, rs: Roles, l': Line)
    requires l' == l.(lock := l'.lock, view := l'.view)
    ensures Cover(l, rs) == Cover(l', rs) && NoLostAdvance(l, rs) == NoLostAdvance(l', rs)
  {
    assert forall x {:trigger InRing(l, x)} {:trigger InRing(l', x)} :: InRing(l, x) == InRing(l', x);
  }

  lemma AdvanceStays(l: Line, rs: Roles, t: Tid, r': Role)
    requires t in rs && NoLostAdvance(l, rs)
    requires InRing(l, l.read + 1) && Responsible(rs[t], l.read) ==> Responsible(r', l.read)
    ensures NoLostAdvance(l, rs[t := r'])
  {
    if InRing(l, l.read + 1) { ResponsibleStays(l, rs, t, r'); }
  }

  lemma DropLock(l: Line, rs: Roles, t: Tid, l': Line)
    requires Normal(l, rs) && t in rs && (rs[t].Unlocking? || rs[t].LockOnly?)
    requires l' == l.(lock := None)
    ensures Normal(l', rs[t := NoTs])
  {
    hide Cover, NoLostAdvance;
    CoverStays(l, rs, t, NoTs);
    AdvanceStays(l, rs, t, NoTs);
    LockIrrelevant(l, rs[t := NoTs], l');
  }

  /** A freshly reserved timestamp is the old write_ts_ and nobody has ever seen it. */
  lemma ReserveIsFresh(l: Line, rs: Roles)
    requires Normal(l, rs)
    ensures !InRing(l, l.write)
    ensures forall u :: u in rs ==> rs[u] != Pending(l.write) && rs[u] != AdvStore(l.write)
  {
    assert l.ring[TsIndex(l.write)] != l.write;
  }

  lemma CoverReserve(l: Line, rs: Roles, t: Tid, l': Line)
    requires Cover(l, rs) && t in rs && rs[t] == ResCas(l.write) && l' == l.(write := l.write + 1)
    ensures Cover(l', rs[t := Pending(l.write)])
  {
    var r' := Pending(l.write);
    var rs' := rs[t := r'];
    CoverStays(l, rs, t, r');
    assert t in rs' && rs'[t] == Pending(l.write);
    assert forall x :: InRing(l, x) ==> InRing(l', x);
  }

  lemma ReserveLocals(l: Line, rs: Roles, t: Tid, l': Line)
    requires Bounds(l) && LocalOk(l, rs) && Distinct(rs) && t in rs && rs[t] == ResCas(l.write)
    requires l' == l.(write := l.write + 1) && !InRing(l, l.write)
    requires forall u :: u in rs ==> rs[u] != Pending(l.write) && rs[u] != AdvStore(l.write)
    ensures Bounds(l') && LocalOk(l', rs[t := Pending(l.write)]) && Distinct(rs[t := Pending(l.write)])
  {
    var rs' := rs[t := Pending(l.write)];
    assert Local(l, rs[t]);
    forall u | u in rs' ensures Local(l', rs'[u]) {
      if u != t { assert Local(l, rs[u]); }
    }
  }

  lemma ReserveAdvance(l: Line, rs: Roles, t: Tid, l': Line)
    requires NoLostAdvance(l, rs) && t in rs && rs[t] == ResCas(l.write) && l' == l.(write := l.write + 1)
    ensures NoLostAdvance(l', rs[t := Pending(l.write)])
  {
    if InRing(l', l.read + 1) {
      ResponsibleStays(l, rs, t, Pending(l.write));
      assert SomeoneResponsible(l', rs[t := Pending(l.write)]);
    }
  }

  lemma Reserve(l: Line, rs: Roles, t: Tid, l': Line)
    requires Normal(l, rs) && t in rs && rs[t] == ResCas(l.write)
    requires l' == l.(write := l.write + 1)
    ensures Normal(l', rs[t := Pending(l.write)])
  {
    ReserveIsFresh(l, rs);
    RingStays(l, l');
    hide Cover, LocalOk, NoLostAdvance, InRing, RingOk, Distinct;
    ReserveLocals(l, rs, t, l');
    CoverReserve(l, rs, t, l');
    ReserveAdvance(l, rs, t, l');
  }

  lemma RingStays(l: Line, l': Line)
    requires RingOk(l) && l' == l.(write := l.write + 1)
    ensures RingOk(l')
  {
  }

  /** Marking never overwrites another completion: the slot was empty. */
  lemma MarkHitsEmptySlot(l: Line, rs: Roles, t: Tid)
    requires Normal(l, rs) && t in rs && rs[t].Pending?
    ensures l.ring[TsIndex(rs[t].ts)] == 0
  {
    var ts := rs[t].ts;
    var v := l.ring[TsIndex(ts)];
    if v != 0 {
      assert l.read < v < l.write && TsIndex(v) == TsIndex(ts);
      assert Local(l, rs[t]);
      if v <= ts { IndexInjective(v, ts); } else { IndexInjective(ts, v); }
    }
  }

  lemma RingAfterMark(l: Line, rs: Roles, t: Tid, ts: nat, l': Line)
    requires Normal(l, rs) && t in rs && rs[t] == Pending(ts)
    requires l' == l.(ring := l.ring[TsIndex(ts) := ts])
    ensures InRing(l', ts) && RingOk(l')
    ensures forall x :: x != ts ==> (InRing(l', x) ==> InRing(l, x))
    ensures forall x :: InRing(l, x) && x != 0 ==> InRing(l', x)
  {
    MarkHitsEmptySlot(l, rs, t);
    assert Local(l, rs[t]);
    forall x | InRing(l, x) && x != 0 ensures InRing(l', x) {
      assert TsIndex(x) != TsIndex(ts);
    }
  }

  lemma CoverMark(l: Line, rs: Roles, t: Tid, ts: nat, l': Line)
    requires Cover(l, rs) && t in rs && rs[t] == Pending(ts) && InRing(l', ts)
    requires l' == l.(ring := l'.ring) && forall x :: InRing(l, x) && x != 0 ==> InRing(l', x)
    ensures Cover(l', rs[t := Marked(ts)])
  {
    var r' := Marked(ts);
    var rs' := rs[t := r'];
    forall x | l'.read < x < l'.write
      ensures InRing(l', x) || Held(rs', x) || Moving(rs', x)
    {
      if x != ts {
        if Held(rs, x) {
          HeldStays(rs, t, r', x);
        } else if Moving(rs, x) {
          MovingStays(rs, t, r', x);
        } else {
          assert InRing(l, x);
        }
      }
    }
  }

  lemma MarkLocals(l: Line, rs: Roles, t: Tid, ts: nat, l': Line)
    requires LocalOk(l, rs) && Distinct(rs) && t in rs && rs[t] == Pending(ts) && l' == l.(ring := l'.ring)
    requires forall x :: x != ts ==> (InRing(l', x) ==> InRing(l, x))
    requires forall x :: InRing(l, x) && x != 0 ==> InRing(l', x)
    ensures LocalOk(l', rs[t := Marked(ts)])
  {
    var rs' := rs[t := Marked(ts)];
    assert Local(l, rs[t]);
    forall u | u in rs' ensures Local(l', rs'[u]) {
      if u != t { assert Local(l, rs[u]); }
    }
  }

  lemma MarkAdvance(l: Line, rs: Roles, t: Tid, ts: nat, l': Line)
    requires NoLostAdvance(l, rs) && t in rs && rs[t] == Pending(ts) && l' == l.(ring := l'.ring)
    requires forall x :: x != ts ==> (InRing(l', x) ==> InRing(l, x))
    ensures NoLostAdvance(l', rs[t := Marked(ts)])
  {
    var rs' := rs[t := Marked(ts)];
    if InRing(l', l.read + 1) {
      if ts == l.read + 1 {
        assert t in rs' && Responsible(rs'[t], l'.read);
      } else {
        ResponsibleStays(l, rs, t, Marked(ts));
        assert SomeoneResponsible(l', rs');
      }
    }
  }

  lemma Mark(l: Line, rs: Roles, t: Tid, ts: nat, l': Line)
    requires Normal(l, rs) && t in rs && rs[t] == Pending(ts)
    requires l' == l.(ring := l.ring[TsIndex(ts) := ts])
    ensures Normal(l', rs[t := Marked(ts)])
  {
    hide RingOk, Cover, LocalOk, NoLostAdvance, InRing;
    RingAfterMark(l, rs, t, ts, l');
    MarkLocals(l, rs, t, ts, l');
    CoverMark(l, rs, t, ts, l');
    MarkAdvance(l, rs, t, ts, l');
  }

  lemma RingAfterClear(l: Line, n: nat, l': Line)
    requires Bounds(l) && RingOk(l) && InRing(l, n) && n != 0
    requires l' == l.(ring := l.ring[TsIndex(n) := 0])
    ensures RingOk(l') && !InRing(l', n)
    ensures forall x :: InRing(l', x) && x != 0 ==> InRing(l, x)
    ensures forall x :: InRing(l, x) && x != n ==> InRing(l', x)
  {
    forall x | InRing(l, x) && x != n ensures InRing(l', x) {
      assert TsIndex(x) != TsIndex(n);
    }
  }

  lemma CoverClear(l: Line, rs: Roles, t: Tid, n: nat, l': Line)
    requires Cover(l, rs) && t in rs && rs[t] == AdvClear(n) && l' == l.(ring := l'.ring)
    requires forall x :: InRing(l, x) && x != n ==> InRing(l', x)
    ensures Cover(l', rs[t := AdvStore(n)])
  {
    var r' := AdvStore(n);
    var rs' := rs[t := r'];
    forall x | l'.read < x < l'.write
      ensures InRing(l', x) || Held(rs', x) || Moving(rs', x)
    {
      if x == n {
        assert t in rs' && rs'[t] == AdvStore(x);
      } else if Held(rs, x) {
        HeldStays(rs, t, r', x);
      } else if Moving(rs, x) {
        MovingStays(rs, t, r', x);
      } else {
        assert InRing(l, x);
      }
    }
  }

  lemma ClearLocals(l: Line, rs: Roles, t: Tid, n: nat, l': Line)
    requires Normal(l, rs) && t in rs && rs[t] == AdvClear(n) && l' == l.(ring := l'.ring) && !InRing(l', n)
    requires forall x :: InRing(l', x) && x != 0 ==> InRing(l, x)
    requires forall x :: InRing(l, x) && x != n ==> InRing(l', x)
    ensures LocalOk(l', rs[t := AdvStore(n)])
  {
    hide Cover;
    var rs' := rs[t := AdvStore(n)];
    assert Local(l, rs[t]);
    assert forall u :: u in rs && u != t && HoldsLock(rs[u]) ==> false;
    forall u | u in rs' ensures Local(l', rs'[u]) {
      if u != t { assert Local(l, rs[u]); }
    }
  }

  lemma Clear(l: Line, rs: Roles, t: Tid, n: nat, l': Line)
    requires Normal(l, rs) && t in rs && rs[t] == AdvClear(n)
    requires l' == l.(ring := l.ring[TsIndex(n) := 0])
    ensures Normal(l', rs[t := AdvStore(n)])
  {
    assert Local(l, rs[t]);
    assert l.ring[TsIndex(n)] == n;
    RingAfterClear(l, n, l');
    ClearLocals(l, rs, t, n, l');
    hide Cover, LocalOk, RingOk;
    CoverClear(l, rs, t, n, l');
  }

  lemma StoreLocals(l: Line, rs: Roles, t: Tid, n: nat, l': Line, u: Tid)
    requires Normal(l, rs) && t in rs && rs[t] == AdvStore(n)
    requires l' == l.(read := n) && u in rs && u != t
    ensures Local(l', rs[u])
  {
    assert Local(l, rs[t]) && Local(l, rs[u]);
    assert !HoldsLock(rs[u]);
    if rs[u].Pending? { assert rs[u].ts != n; }
  }

  lemma RingAfterStore(l: Line, n: nat, l': Line)
    requires Bounds(l) && RingOk(l) && n == l.read + 1 < l.write && !InRing(l, n)
    requires l' == l.(read := n)
    ensures RingOk(l')
  {
    forall i | 0 <= i < |l'.ring| && l'.ring[i] != 0 ensures l'.read < l'.ring[i] {
      assert l.ring[i] != n;
    }
  }

  /** Moving the frontier over a cleared slot. */
  lemma Store(l: Line, rs: Roles, t: Tid, n: nat, l': Line)
    requires Normal(l, rs) && t in rs && rs[t] == AdvStore(n)
    requires l' == l.(read := n)
    ensures Normal(l', rs[t := AdvTest(n)])
  {
    var r' := AdvTest(n);
    var rs' := rs[t := r'];
    assert Local(l, rs[t]);
    RingAfterStore(l, n, l');
    forall u | u in rs' ensures Local(l', rs'[u]) {
      if u != t { StoreLocals(l, rs, t, n, l', u); }
    }
    forall x | l'.read < x < l'.write
      ensures InRing(l', x) || Held(rs', x) || Moving(rs', x)
    {
      if Held(rs, x) {
        HeldStays(rs, t, r', x);
      } else if Moving(rs, x) {
        MovingStays(rs, t, r', x);
      } else {
        assert InRing(l, x);
      }
    }
    assert t in rs' && Responsible(rs'[t], l'.read);
  }

  lemma Publish(l: Line, rs: Roles, t: Tid, l': Line)
    requires Normal(l, rs) && t in rs && rs[t].AdvPub?
    requires l' == l.(view := View(rs[t].cur, rs[t].gen))
    ensures Normal(l', rs[t := Unlocking])
  {
    hide Cover, NoLostAdvance;
    assert Local(l, rs[t]);
    CoverStays(l, rs, t, Unlocking);
    AdvanceStays(l, rs, t, Unlocking);
    LockIrrelevant(l, rs[t := Unlocking], l');
  }

  lemma InstallGen(l: Line, rs: Roles, t: Tid, l': Line)
    requires Normal(l, rs) && t in rs && rs[t].Pending? && NobodyElse(rs, t)
    requires l' == l.(igen := l'.igen)
    ensures Normal(l', rs)
  {
    assert forall u :: u in rs ==> Local(l', rs[u]);
    assert Cover(l', rs);
    assert SomeoneResponsible(l, rs) <==> SomeoneResponsible(l', rs);
  }

  /** The reservation decision keeps its bound despite a stale candidate or the wrap-around. */
  lemma DecisionOk(l: Line, c: nat)
    requires Bounds(l) && c <= l.write && c < MAX_TS
    ensures Local(l, AfterReadLoad(c, l.read))
    ensures AfterReadLoad(c, l.read) == ResFull ==> c == l.read + WINDOW + 1 == l.write
  {
    if c >= l.read {
      assert Outstanding(c, l.read) == c - l.read;
    } else {
      assert Outstanding(c, l.read) == TWO64 + c - l.read;
    }
  }

  /** Reservation events that leave the line alone; the broken branch is unreachable. */
  lemma ReserveMoves(l: Line, rs: Roles, t: Tid, l': Line, r': Role)
    requires Normal(l, rs) && t in rs && Event(l, rs, t, l', r') && l' == l
    requires rs[t].NoTs? || rs[t].ResR? || rs[t].ResRefresh? || rs[t].ResCas? || rs[t].ResFull?
    ensures Normal(l', rs[t := r'])
    ensures r' != ResBroken
  {
    assert Local(l, rs[t]);
    if rs[t].ResR? { DecisionOk(l, rs[t].cand); }
    QuietMove(l, rs, t, r');
  }

  /** Events of a thread that does not own the lock, in normal operation. */
  lemma UnlockedEvent(l: Line, rs: Roles, t: Tid, l': Line, r': Role)
    requires Normal(l, rs) && t in rs && Event(l, rs, t, l', r') && !HoldsLock(rs[t])
    requires !Resetting(rs[t]) && !Resetting(r')
    ensures Normal(l', rs[t := r'])
  {
    assert Local(l, rs[t]);
    if l' == l && r' == rs[t] {
      assert rs[t := r'] == rs;
    } else {
      match rs[t]
      case ResCas(c) =>
        if l' == l { ReserveMoves(l, rs, t, l', r'); } else { Reserve(l, rs, t, l'); }
      case Pending(ts) =>
        if r' == Marked(ts) {
          Mark(l, rs, t, ts, l');
        } else {
          InstallGen(l, rs, t, l');
          assert rs[t := r'] == rs;
        }
      case Marked(ts) => TakeLock(l, rs, t, l', r');
      case NoTs =>
        if r' == LockOnly { TakeLock(l, rs, t, l', r'); } else { ReserveMoves(l, rs, t, l', r'); }
      case _ => ReserveMoves(l, rs, t, l', r');
    }
  }

  /** Events of the lock holder. */
  lemma LockedEvent(l: Line, rs: Roles, t: Tid, l': Line, r': Role)
    requires Normal(l, rs) && t in rs && Event(l, rs, t, l', r') && HoldsLock(rs[t])
    ensures Normal(l', rs[t := r'])
  {
    assert Local(l, rs[t]);
    if l' == l && r' == rs[t] {
      assert rs[t := r'] == rs;
    } else {
      match rs[t]
      case AdvClear(n) => Clear(l, rs, t, n, l');
      case AdvStore(n) => Store(l, rs, t, n, l');
      case AdvPub(_, _) => Publish(l, rs, t, l');
      case Unlocking => DropLock(l, rs, t, l');
      case LockOnly => DropLock(l, rs, t, l');
      case _ => LockedMove(l, rs, t, r');
    }
  }

  lemma NoResetAfter(rs: Roles, t: Tid, r': Role)
    requires t in rs && !InReset(rs) && !Resetting(r')
    ensures !InReset(rs[t := r'])
  {
  }

  /** The last store of the reset re-establishes the initial timeline. */
  lemma ResetDone(l: Line, rs: Roles, t: Tid, l': Line)
    requires ResetMode(l, rs, t) && rs[t].ResetView? && l' == l.(view := View(0, l.igen))
    ensures Normal(l', rs[t := NoTs])
    ensures l'.write == 1 && l'.read == 0 && ZeroUpTo(l'.ring, WINDOW) && l'.view == View(0, l.igen)
  {
    var rs' := rs[t := NoTs];
    assert forall u :: u in rs' ==> Passive(rs'[u]);
    assert !InRing(l', 1);
  }

  lemma ResetStep(l: Line, rs: Roles, t: Tid, l': Line, r': Role)
    requires ResetMode(l, rs, t) && Event(l, rs, t, l', r')
    ensures Inv(l', rs[t := r'])
  {
    var rs' := rs[t := r'];
    if rs[t].ResetView? && r' == NoTs {
      ResetDone(l, rs, t, l');
      assert !InReset(rs');
    } else {
      assert ResetMode(l', rs', t);
      assert t in rs' && Resetting(rs'[t]);
    }
  }

  lemma ResetStart(l: Line, rs: Roles, t: Tid, l': Line)
    requires Normal(l, rs) && t in rs && rs[t].Pending? && NobodyElse(rs, t)
    requires l' == l.(write := 1)
    ensures Inv(l', rs[t := ResetRead])
  {
    var rs' := rs[t := ResetRead];
    assert t in rs' && Resetting(rs'[t]);
    assert ResetMode(l', rs', t);
  }

  lemma EntersReset(l: Line, rs: Roles, t: Tid, l': Line, r': Role)
    requires Normal(l, rs) && t in rs && !InReset(rs) && Event(l, rs, t, l', r') && Resetting(r')
    ensures Inv(l', rs[t := r'])
  {
    hide Normal, ResetMode;
    assert !Resetting(rs[t]);
    ResetStart(l, rs, t, l');
  }

  /** While somebody resets, nobody else moves the timeline. */
  lemma ResetBystander(l: Line, rs: Roles, t: Tid, l': Line, r': Role, u: Tid)
    requires ResetMode(l, rs, u) && t in rs && t != u && Event(l, rs, t, l', r')
    ensures ResetMode(l', rs[t := r'], u) && InReset(rs[t := r'])
  {
    assert Passive(rs[t]) && Passive(r');
    var rs' := rs[t := r'];
    assert u in rs' && Resetting(rs'[u]);
  }

  /** The timeline invariant is kept by every event of every thread. */
  lemma EventKeepsInv(l: Line, rs: Roles, t: Tid, l': Line, r': Role)
    requires Inv(l, rs) && t in rs && Event(l, rs, t, l', r')
    ensures Inv(l', rs[t := r'])
  {
    hide Normal, ResetMode, Event;
    if InReset(rs) {
      var u :| ResetMode(l, rs, u);
      if t == u {
        ResetStep(l, rs, t, l', r');
      } else {
        ResetBystander(l, rs, t, l', r', u);
      }
    } else if Resetting(r') {
      EntersReset(l, rs, t, l', r');
    } else {
      if HoldsLock(rs[t]) { LockedEvent(l, rs, t, l', r'); } else { UnlockedEvent(l, rs, t, l', r'); }
      NoResetAfter(rs, t, r');
    }
  }

  // ---- what the invariant gives ------------------------------------------------

  predicate Completing(r: Role) {
    (HoldsLock(r) && !r.LockOnly?) || r.Marked?
  }

  ghost predicate NobodyCompleting(rs: Roles) {
    forall t :: t in rs ==> !Completing(rs[t])
  }

  /**
    No advance is lost: whenever no completion call is in flight, the successor of
    the frontier is the smallest unfinished timestamp, or write_ts_ if there is none,
    and the published view is at the frontier.
   */
  lemma FrontierIsTight(l: Line, rs: Roles)
    requires Normal(l, rs) && NobodyCompleting(rs)
    ensures l.view.ts == l.read
    ensures l.read + 1 == l.write || Held(rs, l.read + 1)
    ensures forall t :: t in rs && rs[t].Pending? ==> l.read + 1 <= rs[t].ts
  {
    assert !SomeoneResponsible(l, rs);
    assert !Moving(rs, l.read + 1);
    assert forall t :: t in rs && rs[t].Pending? ==> Local(l, rs[t]);
  }

  /** With nobody else in the timeline, the only unfinished timestamp is one's own. */
  lemma AloneIsTight(l: Line, rs: Roles, t: Tid)
    requires Normal(l, rs) && t in rs && NobodyElse(rs, t) && !Completing(rs[t])
    ensures l.view.ts == l.read
    ensures rs[t].Pending? ==> l.read + 1 == rs[t].ts
    ensures !rs[t].Pending? ==> l.write == l.read + 1
  {
    FrontierIsTight(l, rs);
    assert forall u :: u in rs && rs[u].Pending? ==> u == t;
    assert Local(l, rs[t]);
  }

  // ---- one scan at a time -------------------------------------------------------------------------

  lemma CheckingSeesView(l: Line, rs: Roles, t: Tid)
    requires Inv(l, rs) && t in rs && rs[t].Checking?
    ensures l.view.ts == l.read
  {
    assert !InReset(rs);
  }

  lemma ActiveNoReset(l: Line, rs: Roles, t: Tid)
    requires Inv(l, rs) && t in rs && !Passive(rs[t]) && !Resetting(rs[t])
    ensures Normal(l, rs) && !InReset(rs)
  {
  }

  lemma OneHolds(l: Line, rs: Roles, t: Tid, u: Tid)
    requires Inv(l, rs) && t in rs && u in rs && t != u && HoldsLock(rs[u]) && !Passive(rs[u])
    ensures !HoldsLock(rs[t]) && !Resetting(rs[t])
  {
    ActiveNoReset(l, rs, u);
  }

  predicate AtFrontier(r: Role, rd: nat) {
    r == Pending(rd + 1) || r == Marked(rd + 1) || r == Checking(rd + 1)
  }

  /** Without a scan, and with nobody at the frontier, everything handed out is passed and visible. */
  lemma NobodyAtFrontier(l: Line, rs: Roles)
    requires Normal(l, rs) && (forall t :: t in rs ==> !Advancing(rs[t]))
    requires forall t :: t in rs ==> !AtFrontier(rs[t], l.read)
    ensures l.read + 1 == l.write
  {
    assert !SomeoneResponsible(l, rs) && !Held(rs, l.read + 1) && !Moving(rs, l.read + 1);
  }

  lemma QuietView(l: Line, rs: Roles)
    requires Normal(l, rs) && forall t :: t in rs ==> !Advancing(rs[t])
    ensures l.view.ts == l.read
  {
  }
}
