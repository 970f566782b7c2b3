/**
  The timestamp half of `VersionManager`: reservation by CAS, out-of-order
  completion into the ring of `TimestampWindow`, and the contiguous read
  frontier that is moved and published under one lock.

  Every `Role` is a program point between two atomic accesses of
  `ReserveWriteTimestamp`, `complete_write_timestamp` or
  `advance_read_ts_locked`; every `Event` is one such access.
 */
module Timeline {
  import opened Common
  import Gate

  type Tid = Gate.Tid

  const WINDOW: nat := 65536
  const TWO64: nat := 0x1_0000_0000_0000_0000

  datatype View = View(ts: nat, gen: nat)

  datatype Line = Line(
    write: nat,          // write_ts_
    read: nat,           // read_ts_
    ring: seq<nat>,      // completed_ts_
    lock: Option<Tid>,   // lock_
    igen: nat,           // installed_snapshot_generation_
    view: View)          // published_read_view_

  function TsIndex(ts: nat): (i: nat)
    ensures i < WINDOW
  {
    ts % WINDOW
  }

  /** 64-bit unsigned subtraction of two 32-bit timestamps. */
  function Outstanding(candidate: nat, rd: nat): (d: nat) {
    (candidate - rd) % TWO64
  }

  datatype Role =
    | NoTs
    | ResR(cand: nat)           // candidate loaded, about to load read_ts_
    | ResRefresh(rd: nat)       // stale candidate, about to reload write_ts_
    | ResCas(cand: nat)         // about to CAS write_ts_
    | ResBroken                 // "invariant broken after refresh"
    | ResFull                   // window full
    | Pending(ts: nat)          // owns ts, not yet marked completed
    | Marked(ts: nat)           // marked, about to take the lock
    | Checking(ts: nat)         // holds the lock, about to load read_ts_
    | AdvTest(cur: nat)         // about to test cur + 1
    | AdvClear(nxt: nat)        // about to clear the slot of nxt
    | AdvStore(nxt: nat)        // about to store read_ts_ := nxt
    | AdvGen(cur: nat)          // about to load the installed generation
    | AdvPub(cur: nat, gen: nat) // about to store the published view
    | Unlocking
    | LockOnly                  // lifecycle seal: holds the lock, no timestamp
    | ResetRead                 // write_ts_ stored, about to store read_ts_ := 0
    | ResetRing(slot: nat)      // about to clear this slot of the ring
    | ResetView                 // about to store the view (0, igen)

  type Roles = map<Tid, Role>

  predicate HoldsLock(r: Role) {
    r.Checking? || r.AdvTest? || r.AdvClear? || r.AdvStore? || r.AdvGen? || r.AdvPub?
    || r.Unlocking? || r.LockOnly?
  }

  predicate Advancing(r: Role) {
    r.AdvTest? || r.AdvClear? || r.AdvStore? || r.AdvGen? || r.AdvPub?
  }

  predicate Resetting(r: Role) { r.ResetRead? || r.ResetRing? || r.ResetView? }

  predicate InRing(l: Line, x: nat) {
    TsIndex(x) < |l.ring| && l.ring[TsIndex(x)] == x
  }

  ghost predicate Held(rs: Roles, x: nat) {
    exists t :: t in rs && rs[t] == Pending(x)
  }

  ghost predicate Moving(rs: Roles, x: nat) {
    exists t :: t in rs && rs[t] == AdvStore(x)
  }

  // ---- the invariant ------------------------------------------------------

  predicate Bounds(l: Line) {
    && |l.ring| == WINDOW
    && l.read < l.write <= MAX_TS
    && l.write <= l.read + WINDOW + 1
  }

  ghost predicate LockOk(l: Line, rs: Roles) {
    && (forall t :: t in rs && HoldsLock(rs[t]) ==> l.lock == Some(t))
    && (l.lock.Some? ==> l.lock.value in rs && HoldsLock(rs[l.lock.value]))
  }

  /** A slot is zero or holds one completed timestamp that the frontier has not passed. */
  ghost predicate RingOk(l: Line) {
    forall i :: 0 <= i < |l.ring| && l.ring[i] != 0 ==>
      l.read < l.ring[i] < l.write && TsIndex(l.ring[i]) == i
  }

  predicate Local(l: Line, r: Role) {
    match r
    case ResR(c) => c <= l.write && c < MAX_TS
    case ResRefresh(rd) => rd <= l.read
    case ResCas(c) => c <= l.write && c <= l.read + WINDOW && c < MAX_TS
    case ResBroken => false
    case Pending(ts) => l.read < ts < l.write && !InRing(l, ts)
    case Marked(ts) => 0 < ts < l.write
    case Checking(ts) => 0 < ts < l.write
    case AdvTest(cur) => cur == l.read
    case AdvClear(n) => n == l.read + 1 && InRing(l, n)
    case AdvStore(n) => n == l.read + 1 < l.write && !InRing(l, n)
    case AdvGen(cur) => cur == l.read
    case AdvPub(cur, gen) => cur == l.read && gen == l.igen
    case _ => true
  }

  ghost predicate LocalOk(l: Line, rs: Roles) {
    forall t :: t in rs ==> Local(l, rs[t])
  }

  /** No timestamp is owned twice, and the one being passed is owned by nobody. */
  ghost predicate Distinct(rs: Roles) {
    forall t, u :: t in rs && u in rs && t != u && rs[t].Pending? ==>
      rs[u] != Pending(rs[t].ts) && rs[u] != AdvStore(rs[t].ts)
  }

  /** Every reserved timestamp above the frontier is accounted for. */
  ghost predicate Cover(l: Line, rs: Roles) {
    forall x :: l.read < x < l.write ==> InRing(l, x) || Held(rs, x) || Moving(rs, x)
  }

  predicate Responsible(r: Role, rd: nat) {
    r == Marked(rd + 1) || r == Checking(rd + 1) || r.AdvTest? || r.AdvClear?
  }

  ghost predicate SomeoneResponsible(l: Line, rs: Roles) {
    exists t :: t in rs && Responsible(rs[t], l.read)
  }

  /** A completed frontier successor always has a thread that will still pass it. */
  ghost predicate NoLostAdvance(l: Line, rs: Roles) {
    InRing(l, l.read + 1) ==> SomeoneResponsible(l, rs)
  }

  ghost predicate ViewOk(l: Line, rs: Roles) {
    && l.view.ts <= l.read
    && (l.view.ts == l.read
        || (l.lock.Some? && l.lock.value in rs && Advancing(rs[l.lock.value])))
  }

  ghost predicate Normal(l: Line, rs: Roles) {
    && Bounds(l) && LockOk(l, rs) && RingOk(l) && LocalOk(l, rs)
    && Distinct(rs) && Cover(l, rs) && NoLostAdvance(l, rs) && ViewOk(l, rs)
  }

  /** Neither reserving, nor owning, nor completing a timestamp. */
  predicate Passive(r: Role) { r.NoTs? || r.LockOnly? }

  ghost predicate NobodyElse(rs: Roles, t: Tid) {
    forall u :: u in rs && u != t ==> Passive(rs[u])
  }

  predicate ZeroUpTo(ring: seq<nat>, n: nat) {
    n <= |ring| && forall i :: 0 <= i < n ==> ring[i] == 0
  }

  /** The stores of finish_update_and_reset_timeline, half done. */
  ghost predicate ResetMode(l: Line, rs: Roles, t: Tid) {
    && t in rs && Resetting(rs[t]) && NobodyElse(rs, t)
    && LockOk(l, rs) && |l.ring| == WINDOW && l.write == 1
    && (!rs[t].ResetRead? ==> l.read == 0)
    && (rs[t].ResetRing? ==> rs[t].slot <= WINDOW && ZeroUpTo(l.ring, rs[t].slot))
    && (rs[t].ResetView? ==> ZeroUpTo(l.ring, WINDOW))
  }

  ghost predicate InReset(rs: Roles) {
    exists t :: t in rs && Resetting(rs[t])
  }

  ghost predicate Inv(l: Line, rs: Roles) {
    if InReset(rs) then exists t :: ResetMode(l, rs, t) else Normal(l, rs)
  }

  // ---- the events -----------------------------------------------------------

  /** Loop head of ReserveWriteTimestamp with a freshly loaded candidate. */
  function Candidate(w: nat): Role {
    if w == MAX_TS then NoTs else ResR(w)
  }

  /** The decision taken after loading read_ts_. */
  function AfterReadLoad(c: nat, rd: nat): Role {
    if Outstanding(c, rd) > WINDOW then
      if c <= rd then ResRefresh(rd) else ResFull
    else ResCas(c)
  }

  /** One atomic access by thread t; its role goes from rs[t] to r'. */
  ghost predicate Event(l: Line, rs: Roles, t: Tid, l': Line, r': Role)
    requires t in rs
  {
    (l' == l && r' == rs[t]) ||
    match rs[t]
    case NoTs =>
      || (!InReset(rs) && l' == l && r' == Candidate(l.write))
      || (l.lock == None && l' == l.(lock := Some(t)) && r' == LockOnly)
    case ResR(c) => l' == l && r' == AfterReadLoad(c, l.read)
    case ResRefresh(rd) =>
      l' == l && r' == if l.write <= rd then ResBroken else Candidate(l.write)
    case ResCas(c) =>
      || (l.write == c && l' == l.(write := c + 1) && r' == Pending(c))
      || (l' == l && r' == Candidate(l.write))
    case ResBroken => false
    case ResFull => l' == l && r' == NoTs
    case Pending(ts) =>
      || (|l.ring| == WINDOW && l' == l.(ring := l.ring[TsIndex(ts) := ts]) && r' == Marked(ts))
      || (NobodyElse(rs, t) && l' == l.(igen := l'.igen) && r' == Pending(ts))
      || (NobodyElse(rs, t) && l' == l.(write := 1) && r' == ResetRead)
    case Marked(ts) => l.lock == None && l' == l.(lock := Some(t)) && r' == Checking(ts)
    case Checking(ts) => l' == l && r' == if ts == l.read + 1 then AdvTest(l.read) else Unlocking
    case AdvTest(cur) => l' == l && r' == if InRing(l, cur + 1) then AdvClear(cur + 1) else AdvGen(cur)
    case AdvClear(n) =>
      && l' == (if InRing(l, n) then l.(ring := l.ring[TsIndex(n) := 0]) else l)
      && r' == AdvStore(n)
    case AdvStore(n) => l' == l.(read := n) && r' == AdvTest(n)
    case AdvGen(cur) => l' == l && r' == AdvPub(cur, l.igen)
    case AdvPub(cur, gen) => l' == l.(view := View(cur, gen)) && r' == Unlocking
    case Unlocking => l' == l.(lock := None) && r' == NoTs
    case LockOnly => l' == l.(lock := None) && r' == NoTs
    case ResetRead => l' == l.(read := 0) && r' == ResetRing(0)
    case ResetRing(i) =>
      if i < |l.ring|
      then l' == l.(ring := l.ring[i := 0]) && r' == ResetRing(i + 1)
      else l' == l && r' == ResetView
    case ResetView => l' == l.(view := View(0, l.igen)) && r' == NoTs
  }
}
