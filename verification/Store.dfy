/**
  The graph as the transactions see it: timestamped facts in snapshots, the log of
  committed writes that the snapshots must agree with, and the WAL and checkpoint
  from which a restart rebuilds them.
 */
module Store {

  /** A vertex, edge or property value; temporary facts never reach the disk. */
  datatype Fact = Fact(id: nat, temp: bool)

  datatype Item = Item(ts: nat, fact: Fact)

  type Snap = set<Item>

  /** The effect of one committed transaction. An insert deletes nothing. */
  datatype Write = Write(del: set<Fact>, add: set<Fact>)

  type Log = map<nat, Write>

  /** What the insert list of the WAL parser starts with. */
  const FIRST_SLOTS: nat := 4096

  function Apply(s: set<Fact>, w: Write): set<Fact> {
    s - w.del + w.add
  }

  /** Serial execution: the writes with timestamps in (t0, n], in timestamp order. */
  function Serial(base: set<Fact>, t0: nat, log: Log, n: nat): set<Fact>
    decreases n
  {
    if n <= t0 then base
    else
      var before := Serial(base, t0, log, n - 1);
      if n in log then Apply(before, log[n]) else before
  }

  /** The generation installed by the last update with a timestamp in (t0, n]. */
  function GenAt(gen0: nat, t0: nat, installs: map<nat, nat>, n: nat): nat
    decreases n
  {
    if n <= t0 then gen0
    else if n in installs then installs[n]
    else GenAt(gen0, t0, installs, n - 1)
  }

  /** What a reader at visibility timestamp r sees in a snapshot. */
  function Vis(s: Snap, r: nat): set<Fact> {
    set i | i in s && i.ts <= r :: i.fact
  }

  function All(s: Snap): set<Fact> {
    set i | i in s :: i.fact
  }

  function Stamped(fs: set<Fact>, ts: nat): Snap {
    set f | f in fs :: Item(ts, f)
  }

  /** A private clone after the update with timestamp ts has rewritten it. */
  function Rewritten(s: Snap, w: Write, ts: nat): Snap {
    (set i | i in s && i.fact !in w.del) + Stamped(w.add, ts)
  }

  /** In-place compaction resets every timestamp to zero. */
  function Compacted(s: Snap): Snap {
    Stamped(All(s), 0)
  }

  function Persist(fs: set<Fact>): set<Fact> {
    set f | f in fs && !f.temp
  }

  function PersistWrite(w: Write): Write {
    Write(Persist(w.del), Persist(w.add))
  }

  // ---- serial execution ------------------------------------------------------

  /** A write above n does not change the serial state at n. */
  lemma {:induction false} SerialFrame(base: set<Fact>, t0: nat, log: Log, log': Log, n: nat)
    requires forall x :: t0 < x <= n ==> (x in log <==> x in log') && (x in log ==> log[x] == log'[x])
    ensures Serial(base, t0, log, n) == Serial(base, t0, log', n)
    decreases n
  {
    if n > t0 { SerialFrame(base, t0, log, log', n - 1); }
  }

  lemma {:induction false} GenFrame(g0: nat, t0: nat, ins: map<nat, nat>, ins': map<nat, nat>, n: nat)
    requires forall x :: t0 < x <= n ==> (x in ins <==> x in ins') && (x in ins ==> ins[x] == ins'[x])
    ensures GenAt(g0, t0, ins, n) == GenAt(g0, t0, ins', n)
    decreases n
  {
    if n > t0 && n !in ins { GenFrame(g0, t0, ins, ins', n - 1); }
  }

  lemma {:induction false} SerialNothing(base: set<Fact>, t0: nat, log: Log, m: nat, n: nat)
    requires m <= n && forall x :: m < x <= n ==> x !in log
    ensures Serial(base, t0, log, n) == Serial(base, t0, log, m)
    decreases n
  {
    if n > m { SerialNothing(base, t0, log, m, n - 1); }
  }

  lemma {:induction false} SerialRebase(base: set<Fact>, t0: nat, log: Log, m: nat, n: nat)
    requires t0 <= m <= n
    ensures Serial(Serial(base, t0, log, m), m, log, n) == Serial(base, t0, log, n)
    decreases n
  {
    if n > m { SerialRebase(base, t0, log, m, n - 1); }
  }

  lemma {:induction false} GenNothing(g0: nat, t0: nat, n: nat)
    ensures GenAt(g0, t0, map[], n) == g0
    decreases n
  {
    if n > t0 { GenNothing(g0, t0, n - 1); }
  }

  lemma PersistApply(s: set<Fact>, w: Write)
    ensures Persist(Apply(s, w)) == Apply(Persist(s), PersistWrite(w))
  {
  }

  /** Logs agree on the persistent part of every write in (m, n]. */
  ghost predicate SamePersistent(log: Log, wal: Log, m: nat) {
    && (forall x :: m < x && x in wal ==> x in log && wal[x] == PersistWrite(log[x]))
    && (forall x :: m < x && x in log && x !in wal ==> PersistWrite(log[x]) == Write({}, {}))
  }

  /** Replaying the WAL rebuilds the persistent part of the serial state. */
  lemma {:induction false} ReplayIsPersistent(
    base: set<Fact>, t0: nat, log: Log, facts: set<Fact>, ct: nat, wal: Log, m: nat, n: nat)
    requires t0 <= m <= n && ct <= m
    requires Serial(facts, ct, wal, m) == Persist(Serial(base, t0, log, m))
    requires SamePersistent(log, wal, m)
    ensures Serial(facts, ct, wal, n) == Persist(Serial(base, t0, log, n))
    decreases n
  {
    if n > m {
      ReplayIsPersistent(base, t0, log, facts, ct, wal, m, n - 1);
      if n in log { PersistApply(Serial(base, t0, log, n - 1), log[n]); }
    }
  }

  // ---- snapshots --------------------------------------------------------------

  /** Adding an item above r is invisible at r. */
  lemma VisAdd(s: Snap, i: Item, r: nat)
    requires i.ts > r
    ensures Vis(s + {i}, r) == Vis(s, r)
  {
  }

  /** One more timestamp becomes visible, and it was an insert. */
  lemma VisStep(s: Snap, n: nat, w: Write)
    requires n > 0 && w.del == {}
    requires forall i :: i in s && i.ts == n ==> i.fact in w.add
    requires forall f :: f in w.add ==> Item(n, f) in s
    ensures Vis(s, n) == Apply(Vis(s, n - 1), w)
  {
    forall f | f in w.add ensures f in Vis(s, n) {
      assert Item(n, f).fact in Vis(s, n);
    }
  }

  lemma VisStepNothing(s: Snap, n: nat)
    requires n > 0 && forall i :: i in s ==> i.ts != n
    ensures Vis(s, n) == Vis(s, n - 1)
  {
  }

  /** A rewritten clone shows exactly the rewritten facts. */
  lemma VisRewritten(s: Snap, w: Write, ts: nat)
    requires ts > 0 && forall i :: i in s ==> i.ts < ts
    ensures Vis(Rewritten(s, w, ts), ts) == Apply(Vis(s, ts - 1), w)
  {
    var s' := Rewritten(s, w, ts);
    forall f | f in w.add ensures f in Vis(s', ts) {
      assert Item(ts, f) in Stamped(w.add, ts);
      assert Item(ts, f).fact in Vis(s', ts);
    }
    forall f | f in Vis(s, ts - 1) - w.del ensures f in Vis(s', ts) {
      var i :| i in s && i.ts <= ts - 1 && i.fact == f;
      assert i in s';
    }
  }

  lemma VisStamped(fs: set<Fact>, ts: nat, r: nat)
    requires ts <= r
    ensures Vis(Stamped(fs, ts), r) == fs
  {
    forall f | f in fs ensures f in Vis(Stamped(fs, ts), r) {
      assert Item(ts, f) in Stamped(fs, ts);
      assert Item(ts, f).fact in Vis(Stamped(fs, ts), r);
    }
  }

  /** Compaction keeps what is visible at and above the newest timestamp. */
  lemma VisCompacted(s: Snap, r: nat, r': nat)
    requires forall i :: i in s ==> i.ts <= r
    ensures Vis(Compacted(s), r') == Vis(s, r)
  {
    assert Vis(s, r) == All(s);
    VisStamped(All(s), 0, r');
  }
}
