/** Deleting a vertex only marks entries of edges at it. */
module CowDelete {
  import opened CowState
  import opened CowEdges
  import opened CowSchema
  import opened CowTables

  /** An entry of the list of w that belongs to an edge at vertex v of label l. */
  predicate AtVertex(s: Slot, w: Vid, nbr: Vid, l: Label, v: Vid) {
    match s
    case OutCsr(t) => (t.src == l && w == v) || (t.dst == l && nbr == v)
    case InCsr(t) => (t.dst == l && w == v) || (t.src == l && nbr == v)
    case _ => false
  }

  /** The same entries, some of those at the vertex marked dead. */
  predicate Marked(a: seq<Nbr>, b: seq<Nbr>, s: Slot, w: Vid, l: Label, v: Vid) {
    |a| == |b| &&
    forall i :: 0 <= i < |a| ==> b[i] == a[i] || (b[i] == a[i].(dead := true) && AtVertex(s, w, a[i].vid, l, v))
  }

  ghost predicate Fewer(st: St, st': St, l: Label, v: Vid) {
    forall s: Slot, w: Vid :: Marked(ListOf(st, s, w), ListOf(st', s, w), s, w, l, v)
  }

  lemma FewerAt(st: St, st': St, l: Label, v: Vid, s: Slot, w: Vid)
    requires Fewer(st, st', l, v)
    ensures Marked(ListOf(st, s, w), ListOf(st', s, w), s, w, l, v)
  {
  }

  lemma FewerStays(st: St, l: Label, v: Vid)
    ensures Fewer(st, st, l, v)
  {
  }

  lemma MarkedTwice(a: seq<Nbr>, b: seq<Nbr>, c: seq<Nbr>, s: Slot, w: Vid, l: Label, v: Vid)
    requires Marked(a, b, s, w, l, v) && Marked(b, c, s, w, l, v)
    ensures Marked(a, c, s, w, l, v)
  {
  }

  lemma FewerTwice(a: St, b: St, c: St, l: Label, v: Vid)
    requires Fewer(a, b, l, v) && Fewer(b, c, l, v)
    ensures Fewer(a, c, l, v)
  {
    hide Marked, ListOf;
    forall s: Slot, w: Vid ensures Marked(ListOf(a, s, w), ListOf(c, s, w), s, w, l, v) {
      MarkedTwice(ListOf(a, s, w), ListOf(b, s, w), ListOf(c, s, w), s, w, l, v);
    }
  }

  lemma KillMarks(edges: seq<Nbr>, i: int, s: Slot, w: Vid, l: Label, v: Vid, ts: nat)
    requires 0 <= i < |edges| ==> AtVertex(s, w, edges[i].vid, l, v)
    ensures Marked(edges, Kill(edges, i, ts), s, w, l, v)
  {
  }

  lemma KillIsFewer(st: St, st': St, t: Trip, src: Vid, dst: Vid, i: int, j: int, l: Label, v: Vid, ts: nat)
    requires ViewExcept(st, st', {}, Both(t, src, dst))
    requires ListOf(st', OutCsr(t), src) == Kill(ListOf(st, OutCsr(t), src), i, ts)
    requires ListOf(st', InCsr(t), dst) == Kill(ListOf(st, InCsr(t), dst), j, ts)
    requires 0 <= i < |ListOf(st, OutCsr(t), src)| ==> AtVertex(OutCsr(t), src, ListOf(st, OutCsr(t), src)[i].vid, l, v)
    requires 0 <= j < |ListOf(st, InCsr(t), dst)| ==> AtVertex(InCsr(t), dst, ListOf(st, InCsr(t), dst)[j].vid, l, v)
    ensures Fewer(st, st', l, v)
  {
    hide ListOf, AtVertex, Kill;
    KillMarks(ListOf(st, OutCsr(t), src), i, OutCsr(t), src, l, v, ts);
    KillMarks(ListOf(st, InCsr(t), dst), j, InCsr(t), dst, l, v, ts);
    forall s: Slot, w: Vid ensures Marked(ListOf(st, s, w), ListOf(st', s, w), s, w, l, v) {
      if (s, w) !in Both(t, src, dst) { assert ListOf(st', s, w) == ListOf(st, s, w); }
    }
  }

  lemma SeesFewer(a: seq<Nbr>, b: seq<Nbr>, w: Vid, ts: nat)
    requires |a| == |b| && forall i :: 0 <= i < |a| ==> b[i] == a[i] || b[i] == a[i].(dead := true)
    requires Sees(b, w, ts)
    ensures Sees(a, w, ts)
  {
    var i :| 0 <= i < |b| && Visible(b[i], ts) && b[i].vid == w;
    assert Visible(a[i], ts) && a[i].vid == w;
  }

  lemma FewerIncident(st: St, st': St, sc: Schema, l: Label, v: Vid, ts: nat)
    requires Fewer(st, st', l, v)
    ensures forall x :: IncidentTo(st', sc, l, v, ts, x) ==> IncidentTo(st, sc, l, v, ts, x)
  {
    hide ListOf, Sees;
    forall x | IncidentTo(st', sc, l, v, ts, x) ensures IncidentTo(st, sc, l, v, ts, x) {
      if x.t.src == l && InRole(st', x.t, v, true, ts, x) {
        SeesFewer(ListOf(st, OutCsr(x.t), v), ListOf(st', OutCsr(x.t), v), x.dst, ts);
      } else {
        SeesFewer(ListOf(st, InCsr(x.t), v), ListOf(st', InCsr(x.t), v), x.src, ts);
      }
    }
  }

  lemma EntryIsIncident(st: St, sc: Schema, l: Label, t: Trip, v: Vid, isSrc: bool, ts: nat, k: nat)
    requires t in sc.trips && (if isSrc then t.src == l else t.dst == l)
    requires k < |ListOf(st, RoleSlot(t, isSrc), v)| && Visible(ListOf(st, RoleSlot(t, isSrc), v)[k], ts)
    ensures IncidentTo(st, sc, l, v, ts, MakeIncident(t, v, ListOf(st, RoleSlot(t, isSrc), v)[k].vid, isSrc))
  {
    hide ListOf;
    assert Sees(ListOf(st, RoleSlot(t, isSrc), v), ListOf(st, RoleSlot(t, isSrc), v)[k].vid, ts);
  }

  lemma KillPrefix(a: seq<Nbr>, b: seq<Nbr>, k: nat, ts: nat)
    requires k < |a| == |b| && NoneVisible(a[..k], ts)
    requires b == (if Visible(a[k], ts) then Kill(a, k, ts) else a)
    ensures NoneVisible(b[..k + 1], ts)
  {
    var pre := b[..k + 1];
    forall i | 0 <= i < |pre| ensures !Visible(pre[i], ts) {
      if i < k { assert a[..k][i] == a[i]; }
    }
  }

  /** No visible entry at v in the roles the label plays in the triple. */
  predicate Bare(st: St, l: Label, t: Trip, v: Vid, ts: nat) {
    && (t.src == l ==> NoneVisible(ListOf(st, OutCsr(t), v), ts))
    && (t.dst == l ==> NoneVisible(ListOf(st, InCsr(t), v), ts))
  }

  /** No list of a vertex on the other side still names v. */
  ghost predicate Gone(st: St, l: Label, t: Trip, v: Vid, ts: nat) {
    && (t.src == l ==> forall w: Vid :: !Sees(ListOf(st, InCsr(t), w), v, ts))
    && (t.dst == l ==> forall w: Vid :: !Sees(ListOf(st, OutCsr(t), w), v, ts))
  }

  lemma BareIsGone(st: St, l: Label, t: Trip, v: Vid, ts: nat)
    requires AllMirrored(st, ts) && Bare(st, l, t, v, ts)
    ensures Gone(st, l, t, v, ts)
  {
    hide ListOf, AllMirrored, Half, Sees, NoneVisible;
    forall w: Vid ensures t.src == l ==> !Sees(ListOf(st, InCsr(t), w), v, ts) {
      if t.src == l {
        NoneVisibleHalf(ListOf(st, OutCsr(t), v), w, ts);
        MirroredAt(st, t, v, w, ts);
        HalfMember(ListOf(st, InCsr(t), w), v, ts);
      }
    }
    forall w: Vid ensures t.dst == l ==> !Sees(ListOf(st, OutCsr(t), w), v, ts) {
      if t.dst == l {
        NoneVisibleHalf(ListOf(st, InCsr(t), v), w, ts);
        MirroredAt(st, t, w, v, ts);
        HalfMember(ListOf(st, OutCsr(t), w), v, ts);
      }
    }
  }

  lemma NoneVisibleStays(a: seq<Nbr>, b: seq<Nbr>, ts: nat)
    requires |a| == |b| && forall i :: 0 <= i < |a| ==> b[i] == a[i] || b[i] == a[i].(dead := true)
    requires NoneVisible(a, ts)
    ensures NoneVisible(b, ts)
  {
  }

  lemma BareStays(st: St, st': St, l: Label, t: Trip, v: Vid, ts: nat)
    requires Fewer(st, st', l, v) && Bare(st, l, t, v, ts)
    ensures Bare(st', l, t, v, ts)
  {
    hide ListOf, NoneVisible;
    FewerAt(st, st', l, v, OutCsr(t), v);
    FewerAt(st, st', l, v, InCsr(t), v);
    if t.src == l { NoneVisibleStays(ListOf(st, OutCsr(t), v), ListOf(st', OutCsr(t), v), ts); }
    if t.dst == l { NoneVisibleStays(ListOf(st, InCsr(t), v), ListOf(st', InCsr(t), v), ts); }
  }

  lemma QuietIsFewer(st: St, st': St, l: Label, v: Vid)
    requires Quietly(st, st')
    ensures Fewer(st, st', l, v)
  {
  }

  lemma WriteIsFewer(st: St, st': St, cells: set<Slot>, l: Label, v: Vid)
    requires ViewExcept(st, st', cells, {})
    ensures Fewer(st, st', l, v)
  {
    hide ListOf;
    forall s: Slot, w: Vid ensures Marked(ListOf(st, s, w), ListOf(st', s, w), s, w, l, v) {
      assert ListOf(st', s, w) == ListOf(st, s, w);
    }
  }

  lemma SeesLater(edges: seq<Nbr>, w: Vid, ts: nat, ts': nat)
    requires Sees(edges, w, ts) && ts <= ts'
    ensures Sees(edges, w, ts')
  {
    var i :| 0 <= i < |edges| && Visible(edges[i], ts) && edges[i].vid == w;
    assert Visible(edges[i], ts');
  }

  /** What is visible at the write timestamp is visible at the read timestamp. */
  lemma CoveredLater(st: St, sc: Schema, l: Label, v: Vid, ts: nat, ts': nat)
    requires ts <= ts'
    ensures forall x :: IncidentTo(st, sc, l, v, ts, x) ==> IncidentTo(st, sc, l, v, ts', x)
  {
    hide ListOf, Sees;
    forall x | IncidentTo(st, sc, l, v, ts, x) ensures IncidentTo(st, sc, l, v, ts', x) {
      if x.t.src == l && InRole(st, x.t, v, true, ts, x) {
        SeesLater(ListOf(st, OutCsr(x.t), v), x.dst, ts, ts');
      } else {
        SeesLater(ListOf(st, InCsr(x.t), v), x.src, ts, ts');
      }
    }
  }
}
