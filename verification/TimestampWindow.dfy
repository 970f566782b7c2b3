/** The ring of completed timestamps as an array, and the locked scan that moves the frontier over it. */
module TimestampWindow {
  import Timeline

  const WINDOW: nat := Timeline.WINDOW

  /** Timestamp x is recorded as completed. */
  predicate In(ring: seq<nat>, x: nat)
    requires |ring| == WINDOW
  {
    ring[Timeline.TsIndex(x)] == x
  }

  /** Every recorded timestamp is in its slot and less than a window above the frontier. */
  ghost predicate Above(ring: seq<nat>, read: nat) {
    && |ring| == WINDOW
    && forall i :: 0 <= i < WINDOW && ring[i] != 0 ==>
         read < ring[i] <= read + WINDOW && Timeline.TsIndex(ring[i]) == i
  }

  class TimestampWindow {
    const slots: array<nat>

    ghost predicate Valid()
      reads this
    {
      slots.Length == WINDOW
    }

    constructor ()
      ensures Valid() && fresh(slots)
      ensures forall x: nat :: x != 0 ==> !In(slots[..], x)
    {
      slots := new nat[WINDOW];
      new;
      Init();
    }

    method Init()
      requires Valid()
      modifies slots
      ensures forall x: nat :: x != 0 ==> !In(slots[..], x)
    {
      for i := 0 to WINDOW
        invariant forall k :: 0 <= k < i ==> slots[k] == 0
      {
        slots[i] := 0;
      }
    }

    /**
      Adds one completion. Whatever shared its slot is lost; but if every completion lies
      within a window above some frontier, and so does the new one, nothing shares its slot.
     */
    method MarkCompleted(ts: nat)
      requires Valid() && ts != 0
      modifies slots
      ensures forall x: nat :: x != 0 ==>
        (In(slots[..], x) <==> x == ts || (old(In(slots[..], x)) && Timeline.TsIndex(x) != Timeline.TsIndex(ts)))
      ensures forall read: nat :: old(Above(slots[..], read)) && read < ts <= read + WINDOW ==>
        Above(slots[..], read) && Adds(old(slots[..]), slots[..], ts)
    {
      slots[Timeline.TsIndex(ts)] := ts;
      assert slots[..] == old(slots[..])[Timeline.TsIndex(ts) := ts];
      forall read: nat | old(Above(slots[..], read)) && read < ts <= read + WINDOW
        ensures Above(slots[..], read) && Adds(old(slots[..]), slots[..], ts)
      {
        MarkAdds(old(slots[..]), read, ts);
      }
    }

    method IsCompleted(ts: nat) returns (b: bool)
      requires Valid()
      ensures b == In(slots[..], ts)
    {
      b := slots[Timeline.TsIndex(ts)] == ts;
    }

    /** CAS from ts to zero: a slot holding another timestamp is left alone. */
    method Clear(ts: nat)
      requires Valid() && ts != 0
      modifies slots
      ensures !In(slots[..], ts)
      ensures forall x: nat :: x != 0 && x != ts ==> (In(slots[..], x) <==> old(In(slots[..], x)))
      ensures forall i :: 0 <= i < WINDOW ==> slots[i] == old(slots[i]) || slots[i] == 0
    {
      if slots[Timeline.TsIndex(ts)] == ts { slots[Timeline.TsIndex(ts)] := 0; }
    }
  }

  /** The completions afterwards are those before and ts. */
  ghost predicate Adds(ring: seq<nat>, ring': seq<nat>, ts: nat)
    requires |ring| == WINDOW && |ring'| == WINDOW
  {
    forall x: nat :: x != 0 ==> (In(ring', x) <==> In(ring, x) || x == ts)
  }

  lemma MarkAdds(ring: seq<nat>, read: nat, ts: nat)
    requires Above(ring, read) && read < ts <= read + WINDOW
    ensures Above(ring[Timeline.TsIndex(ts) := ts], read) && Adds(ring, ring[Timeline.TsIndex(ts) := ts], ts)
  {
    forall x: nat | x != 0 && In(ring, x) ensures In(ring[Timeline.TsIndex(ts) := ts], x) {
      MarkLosesNothing(ring, read, ts, x);
    }
  }

  /** Marking a timestamp within the window loses no other completion. */
  lemma MarkLosesNothing(ring: seq<nat>, read: nat, ts: nat, x: nat)
    requires Above(ring, read) && read < ts <= read + WINDOW && x != 0 && In(ring, x)
    ensures In(ring[Timeline.TsIndex(ts) := ts], x)
  {
    if Timeline.TsIndex(x) == Timeline.TsIndex(ts) {
      assert ring[Timeline.TsIndex(x)] == x;
      SameSlot(read, ts, x);
    }
  }

  lemma SameSlot(read: nat, x: nat, y: nat)
    requires read < x <= read + WINDOW && read < y <= read + WINDOW
    requires Timeline.TsIndex(x) == Timeline.TsIndex(y)
    ensures x == y
  {
  }

  /** The frontier half of VersionManager, while its lock is held. */
  class Frontier {
    const window: TimestampWindow
    var read: nat
    var generation: nat
    var view: Timeline.View

    constructor (w: TimestampWindow)
      requires w.Valid()
      ensures window == w && read == 0 && view == Timeline.View(0, 0)
    {
      window, read, generation, view := w, 0, 0, Timeline.View(0, 0);
    }

    ghost predicate Valid()
      reads this, window, window.slots
    {
      window.Valid() && Above(window.slots[..], read)
    }

    /**
      advance_read_ts_locked: the frontier passes exactly the completed run that starts
      at its successor, takes those completions out of the ring, leaves every other one,
      and is then published with the installed generation.
     */
    method Advance()
      requires Valid()
      modifies this`read, this`view, window.slots
      ensures Valid() && old(read) <= read
      ensures forall x: nat :: old(read) < x <= read ==> old(In(window.slots[..], x))
      ensures var next := read + 1; !old(In(window.slots[..], next))
      ensures forall x: nat :: x != 0 ==>
        (In(window.slots[..], x) <==> old(In(window.slots[..], x)) && !(old(read) < x <= read))
      ensures view == Timeline.View(read, generation)
    {
      var current := read;
      while true
        invariant old(read) <= current == read && Valid()
        invariant current <= old(read) + WINDOW
        invariant forall x: nat :: old(read) < x <= current ==> old(In(window.slots[..], x))
        invariant forall x: nat :: x != 0 ==>
          (In(window.slots[..], x) <==> old(In(window.slots[..], x)) && !(old(read) < x <= current))
        decreases old(read) + WINDOW - current
      {
        var next := current + 1;
        var completed := window.IsCompleted(next);
        if !completed { break; }
        assert old(In(window.slots[..], next));
        assert old(window.slots[Timeline.TsIndex(next)]) == next;
        window.Clear(next);
        current := next;
        read := current;
        assert Above(window.slots[..], read) by { StillAbove(window.slots[..], next); }
      }
      view := Timeline.View(current, generation);
    }
  }

  lemma StillAbove(ring: seq<nat>, next: nat)
    requires next > 0 && |ring| == WINDOW && Above(ring, next - 1) && !In(ring, next)
    ensures Above(ring, next)
  {
    forall i | 0 <= i < WINDOW && ring[i] != 0 ensures next < ring[i] {
      assert ring[i] != next;
    }
  }
}
