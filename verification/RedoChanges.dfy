/** What a change of the properties of a type does to their values, and to the lists of an edge type. */
module RedoChanges {
  import opened Common
  import opened Redo
  import opened RedoEffects
  import opened RedoProof

  /** The value of a property, by name. */
  function Value(cols: seq<Col>, props: seq<int>, name: Name): Option<int> {
    match ColumnOf(cols, name)
    case None => None
    case Some(c) => if c < |props| then Some(props[c]) else None
  }

  lemma ColumnIs(cols: seq<Col>, c: nat)
    requires !Repeats(cols) && c < |cols|
    ensures ColumnOf(cols, cols[c].name) == Some(c)
  {
  }

  // ---- deletion ----------------------------------------------------------------------------------------

  lemma {:induction false} WithoutAligned(cols: seq<Col>, props: seq<int>, names: seq<Name>)
    requires |props| == |cols|
    ensures |WithoutProps(cols, props, names)| == |WithoutCols(cols, names)|
    decreases |names|
  {
    hide ColumnOf;
    if names != [] {
      match ColumnOf(cols, names[0])
      case None => WithoutAligned(cols, props, names[1..]);
      case Some(c) => WithoutAligned(RemoveAt(cols, c), RemoveAt(props, c), names[1..]);
    }
  }

  lemma RemovedColumn(cols: seq<Col>, props: seq<int>, c: nat, name: Name)
    requires |props| == |cols| && !Repeats(cols) && c < |cols|
    ensures !Repeats(RemoveAt(cols, c))
    ensures Value(RemoveAt(cols, c), RemoveAt(props, c), name) ==
            if name == cols[c].name then None else Value(cols, props, name)
  {
    hide ColumnOf;
    var cs := RemoveAt(cols, c);
    assert forall i :: 0 <= i < |cs| ==> cs[i] == cols[if i < c then i else i + 1];
    ColumnIs(cols, c);
    match ColumnOf(cols, name)
    case None =>
    case Some(k) =>
      if k != c {
        var m := if k < c then k else k - 1;
        assert cs[m] == cols[k];
        ColumnIs(cs, m);
      }
  }

  /** Deleting properties removes the values of those names, and of no others. */
  lemma {:induction false} DeletedValues(cols: seq<Col>, props: seq<int>, names: seq<Name>, name: Name)
    requires |props| == |cols| && !Repeats(cols)
    ensures Value(WithoutCols(cols, names), WithoutProps(cols, props, names), name) ==
            if name in names then None else Value(cols, props, name)
    decreases |names|
  {
    hide ColumnOf, Repeats;
    if names != [] {
      match ColumnOf(cols, names[0])
      case None => DeletedValues(cols, props, names[1..], name);
      case Some(c) =>
        RemovedColumn(cols, props, c, name);
        DeletedValues(RemoveAt(cols, c), RemoveAt(props, c), names[1..], name);
    }
  }

  /** Remaining columns keep their order. */
  lemma {:induction false} DeletedOrder(cols: seq<Col>, names: seq<Name>, i: nat, j: nat) returns (a: nat, b: nat)
    requires i < j < |WithoutCols(cols, names)|
    ensures a < b < |cols| && cols[a] == WithoutCols(cols, names)[i] && cols[b] == WithoutCols(cols, names)[j]
    decreases |names|
  {
    hide ColumnOf;
    if names == [] {
      a, b := i, j;
    } else {
      match ColumnOf(cols, names[0])
      case None => a, b := DeletedOrder(cols, names[1..], i, j);
      case Some(c) =>
        a, b := DeletedOrder(RemoveAt(cols, c), names[1..], i, j);
        a, b := if a < c then a else a + 1, if b < c then b else b + 1;
    }
  }

  // ---- renaming ------------------------------------------------------------------------------------------

  /** One pair: the first column called a is called b, and every other column is as before. */
  lemma RenamedOne(cols: seq<Col>, a: Name, b: Name)
    ensures var r, at := RenamedCols(cols, [(a, b)]), ColumnOf(cols, a);
      && |r| == |cols|
      && (at.Some? ==> r[at.value].name == b && r[at.value].wide == cols[at.value].wide)
      && (forall i :: 0 <= i < |cols| && Some(i) != at ==> r[i] == cols[i])
  {
    hide ColumnOf;
    var ps := [(a, b)];
    assert ps[1..] == [];
    if ColumnOf(cols, a).Some? {
      var c := ColumnOf(cols, a).value;
      assert RenamedCols(cols, ps) == RenamedCols(cols[c := cols[c].(name := b)], []);
    }
  }

  /** A list of pairs is applied one after the other. */
  lemma {:induction false} RenamedThen(cols: seq<Col>, ps: seq<(Name, Name)>, qs: seq<(Name, Name)>)
    ensures RenamedCols(cols, ps + qs) == RenamedCols(RenamedCols(cols, ps), qs)
    decreases |ps|
  {
    hide ColumnOf;
    if ps == [] {
      assert ps + qs == qs;
    } else {
      assert (ps + qs)[1..] == ps[1..] + qs && (ps + qs)[0] == ps[0];
      match ColumnOf(cols, ps[0].0)
      case None => RenamedThen(cols, ps[1..], qs);
      case Some(c) => RenamedThen(cols[c := cols[c].(name := ps[0].1)], ps[1..], qs);
    }
  }

  lemma {:induction false} RenamedLength(cols: seq<Col>, ps: seq<(Name, Name)>)
    ensures |RenamedCols(cols, ps)| == |cols|
    decreases |ps|
  {
    hide ColumnOf;
    if ps != [] {
      match ColumnOf(cols, ps[0].0)
      case None => RenamedLength(cols, ps[1..]);
      case Some(c) => RenamedLength(cols[c := cols[c].(name := ps[0].1)], ps[1..]);
    }
  }

  // ---- a change of one vertex or edge ------------------------------------------------------------------------

  /**
    Values before and after a change: new properties have their defaults behind the old ones,
    deleted ones are gone by name, renamed ones keep their values by number.
   */
  ghost predicate Follows(cols: seq<Col>, props: seq<int>, ch: Change, cols': seq<Col>, props': seq<int>) {
    && |props'| == |cols'|
    && match ch
       case NewCols(cs, xs) => cols' == cols + cs && props' == props + xs
       case NoCols(names) =>
         !Repeats(cols) ==> forall name :: Value(cols', props', name) == if name in names then None else Value(cols, props, name)
       case Renames(_) => props' == props
  }

  lemma ChangeFollows(cols: seq<Col>, props: seq<int>, ch: Change)
    requires |props| == |cols| && ChangedCols(cols, ch).Some?
    ensures Follows(cols, props, ch, ChangedCols(cols, ch).value, ChangedProps(cols, props, ch))
  {
    hide WithoutCols, WithoutProps, RenamedCols, ColumnOf, Repeats, Value;
    match ch
    case NewCols(_, _) =>
    case NoCols(names) =>
      WithoutAligned(cols, props, names);
      if !Repeats(cols) {
        forall name
          ensures Value(WithoutCols(cols, names), WithoutProps(cols, props, names), name) ==
                  if name in names then None else Value(cols, props, name)
        {
          DeletedValues(cols, props, names, name);
        }
      }
    case Renames(pairs) => RenamedLength(cols, pairs);
  }

  ghost predicate AlignedRows(t: VType) { forall i :: 0 <= i < |t.rows| ==> |t.rows[i].props| == |t.cols| }

  /** A change of a vertex type keeps every vertex and changes its values as asked. */
  lemma ChangeVertexTypeEffect(g: Graph, l: nat, ch: Change, g': Graph)
    requires l < |g.vs| && AlignedRows(g.vs[l]) && Exec(g, ChangeV(l, ch)) == Some(g')
    ensures g'.es == g.es && |g'.vs| == |g.vs| && (forall i :: 0 <= i < |g.vs| && i != l ==> g'.vs[i] == g.vs[i])
    ensures g'.vs[l].name == g.vs[l].name && g'.vs[l].temp == g.vs[l].temp && |g'.vs[l].rows| == |g.vs[l].rows|
    ensures forall i :: 0 <= i < |g.vs[l].rows| ==>
      && g'.vs[l].rows[i].oid == g.vs[l].rows[i].oid && g'.vs[l].rows[i].alive == g.vs[l].rows[i].alive
      && Follows(g.vs[l].cols, g.vs[l].rows[i].props, ch, g'.vs[l].cols, g'.vs[l].rows[i].props)
  {
    hide ChangedCols, ChangedProps, Follows;
    forall i | 0 <= i < |g.vs[l].rows|
      ensures Follows(g.vs[l].cols, g.vs[l].rows[i].props, ch, g'.vs[l].cols, g'.vs[l].rows[i].props)
    {
      ChangeFollows(g.vs[l].cols, g.vs[l].rows[i].props, ch);
    }
  }

  // ---- edge types ------------------------------------------------------------------------------------------------

  ghost predicate AlignedList(cols: seq<Col>, l: seq<Ent>) { forall i :: 0 <= i < |l| ==> |l[i].props| == |cols| }

  /** The same edges to the same vertices, with changed values. */
  ghost predicate ListFollows(cols: seq<Col>, l: seq<Ent>, ch: Change, cols': seq<Col>, l': seq<Ent>) {
    && |l'| == |l|
    && forall i :: 0 <= i < |l| ==>
         l'[i].vid == l[i].vid && l'[i].dead == l[i].dead && Follows(cols, l[i].props, ch, cols', l'[i].props)
  }

  lemma ChangedListFollows(cols: seq<Col>, l: seq<Ent>, ch: Change)
    requires AlignedList(cols, l) && ChangedCols(cols, ch).Some?
    ensures ListFollows(cols, l, ch, ChangedCols(cols, ch).value, ChangedList(cols, l, ch))
  {
    hide ChangedCols, ChangedProps, Follows;
    forall i | 0 <= i < |l|
      ensures Follows(cols, l[i].props, ch, ChangedCols(cols, ch).value, ChangedList(cols, l, ch)[i].props)
    {
      ChangeFollows(cols, l[i].props, ch);
    }
  }

  lemma {:induction false} UndeletedChanged(cols: seq<Col>, l: seq<Ent>, ch: Change)
    ensures Undeleted(ChangedList(cols, l, ch)) == ChangedList(cols, Undeleted(l), ch)
    decreases |l|
  {
    hide ChangedProps;
    if l != [] {
      var n := |l| - 1;
      UndeletedChanged(cols, l[..n], ch);
      assert ChangedList(cols, l, ch)[..n] == ChangedList(cols, l[..n], ch);
    }
  }

  lemma {:induction false} UndeletedLive(l: seq<Ent>)
    ensures forall i :: 0 <= i < |Undeleted(l)| ==> !Undeleted(l)[i].dead && Undeleted(l)[i] in l
    decreases |l|
  {
    if l != [] { UndeletedLive(l[..|l| - 1]); }
  }

  lemma ChangedAt(cols: seq<Col>, m: Adj, ch: Change, v: nat)
    ensures ListAt(ChangedAdj(cols, m, ch), v) == ChangedList(cols, ListAt(m, v), ch)
  {
  }

  /** The undeleted entries for d in the list of u, as d's incoming list has them. */
  function Backwards(l: seq<Ent>, u: nat, d: nat): seq<Ent> {
    if l == [] then []
    else Backwards(l[..|l| - 1], u, d)
         + if l[|l| - 1].dead || l[|l| - 1].vid != d then [] else [l[|l| - 1].(vid := u)]
  }

  /** The edges to d, read from the outgoing lists of the first n vertices. */
  function Incoming(out: Adj, n: nat, d: nat): seq<Ent> {
    if n == 0 then [] else Incoming(out, n - 1, d) + Backwards(ListAt(out, n - 1), n - 1, d)
  }

  lemma InPutOne(es: seq<Half>, h: Half, d: nat)
    ensures ListAt(InOf(es + [h]), d) == ListAt(InOf(es), d) + if h.ent.vid == d then [h.ent.(vid := h.src)] else []
  {
    assert (es + [h])[..|es|] == es;
  }

  lemma {:induction false} InPutList(es: seq<Half>, l: seq<Ent>, u: nat, d: nat)
    ensures ListAt(InOf(es + LiveOf(l, u)), d) == ListAt(InOf(es), d) + Backwards(l, u, d)
    decreases |l|
  {
    hide InOf, ListAt;
    if l == [] {
      assert es + LiveOf(l, u) == es;
    } else {
      var pre, e := l[..|l| - 1], l[|l| - 1];
      InPutList(es, pre, u, d);
      if e.dead {
        assert LiveOf(l, u) == LiveOf(pre, u);
      } else {
        assert es + LiveOf(l, u) == es + LiveOf(pre, u) + [Half(u, e)];
        InPutOne(es + LiveOf(pre, u), Half(u, e), d);
      }
    }
  }

  /** A rebuilt incoming list is what the outgoing lists say, in the order of the sources. */
  lemma {:induction false} RebuiltIncoming(out: Adj, n: nat, d: nat)
    ensures ListAt(InOf(Exported(out, n)), d) == Incoming(out, n, d)
  {
    hide ListAt, LiveOf, Backwards;
    if n == 0 {
      assert ListAt(InOf([]), d) == [] by { NoneComing(d); }
    } else {
      hide InOf;
      RebuiltIncoming(out, n - 1, d);
      InPutList(Exported(out, n - 1), ListAt(out, n - 1), n - 1, d);
    }
  }

  lemma NoneComing(d: nat)
    ensures ListAt(InOf([]), d) == []
  {
  }

  lemma {:induction false} BackwardsUndeleted(l: seq<Ent>, u: nat, d: nat)
    ensures Backwards(Undeleted(l), u, d) == Backwards(l, u, d)
    decreases |l|
  {
    if l != [] {
      var pre, e := l[..|l| - 1], l[|l| - 1];
      BackwardsUndeleted(pre, u, d);
      if e.dead {
        assert Undeleted(l) == Undeleted(pre) + [];
        assert Undeleted(pre) + [] == Undeleted(pre);
      } else {
        assert Undeleted(l)[..|Undeleted(pre)|] == Undeleted(pre);
      }
    }
  }

  lemma {:induction false} IncomingUndeleted(out: Adj, out': Adj, n: nat, d: nat)
    requires forall v :: 0 <= v < n ==> ListAt(out', v) == Undeleted(ListAt(out, v))
    ensures Incoming(out', n, d) == Incoming(out, n, d)
  {
    hide ListAt, Backwards;
    if n > 0 {
      IncomingUndeleted(out, out', n - 1, d);
      BackwardsUndeleted(ListAt(out, n - 1), n - 1, d);
    }
  }

  ghost predicate AlignedEdges(t: EType) {
    forall v :: AlignedList(t.cols, ListAt(t.out, v)) && AlignedList(t.cols, ListAt(t.inn, v))
  }

  /** Without a rebuild every entry stays at its place, with changed values. */
  lemma ChangeInPlace(t: EType, ch: Change, n: nat, t': EType, v: nat)
    requires AlignedEdges(t) && ChangedE(t, ch, n) == Some(t') && !Rebuilds(t.cols, t'.cols, ch)
    ensures KeyOf(t') == KeyOf(t) && t'.temp == t.temp
    ensures ListFollows(t.cols, ListAt(t.out, v), ch, t'.cols, ListAt(t'.out, v))
    ensures ListFollows(t.cols, ListAt(t.inn, v), ch, t'.cols, ListAt(t'.inn, v))
  {
    hide ChangedCols, ChangedAdj, ListFollows, AlignedList, Rebuilds;
    ChangedAt(t.cols, t.out, ch, v);
    ChangedAt(t.cols, t.inn, ch, v);
    ChangedListFollows(t.cols, ListAt(t.out, v), ch);
    ChangedListFollows(t.cols, ListAt(t.inn, v), ch);
  }

  lemma UndeletedAligned(cols: seq<Col>, l: seq<Ent>)
    requires AlignedList(cols, l)
    ensures AlignedList(cols, Undeleted(l))
  {
    UndeletedLive(l);
  }

  /**
    With a rebuild the outgoing lists hold the undeleted edges in their order, with changed
    values, and the incoming lists hold the same edges, read backwards.
   */
  lemma ChangeRebuilds(t: EType, ch: Change, n: nat, t': EType, v: nat)
    requires AlignedEdges(t) && ChangedE(t, ch, n) == Some(t') && Rebuilds(t.cols, t'.cols, ch)
    ensures KeyOf(t') == KeyOf(t) && t'.temp == t.temp
    ensures ListFollows(t.cols, if v < n then Undeleted(ListAt(t.out, v)) else [], ch, t'.cols, ListAt(t'.out, v))
    ensures ListAt(t'.inn, v) == Incoming(t'.out, n, v)
  {
    hide ChangedCols, ChangedAdj, ListFollows, AlignedList, Rebuilds, ListAt, OutOf, InOf, Exported, Incoming, Undeleted;
    var out := ChangedAdj(t.cols, t.out, ch);
    assert t'.out == OutOf(Exported(out, n)) && t'.inn == InOf(Exported(out, n));
    assert AlignedList(t.cols, ListAt(t.out, v));
    UndeletedAligned(t.cols, ListAt(t.out, v));
    RebuiltList(out, n, v);
    ChangedAt(t.cols, t.out, ch, v);
    UndeletedChanged(t.cols, ListAt(t.out, v), ch);
    NothingFollows(t.cols, ch, t'.cols);
    ChangedListFollows(t.cols, Undeleted(ListAt(t.out, v)), ch);
    forall u | 0 <= u < n ensures ListAt(t'.out, u) == Undeleted(ListAt(out, u)) { RebuiltList(out, n, u); }
    RebuiltIncoming(out, n, v);
    IncomingUndeleted(out, t'.out, n, v);
  }

  lemma NothingFollows(cols: seq<Col>, ch: Change, cols': seq<Col>)
    ensures ListFollows(cols, [], ch, cols', [])
  {
  }
}
