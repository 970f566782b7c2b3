/**
  The properties of a vertex or edge type are recorded in several places: the names in the
  schema, the names, columns and name index of the table, and the vector of detached flags.
  A schema change is given a list of properties and updates each place for itself. When do
  the places still agree afterwards?
 */
module PropertyLists {

  type Name = nat

  datatype Props<C> = Props(
    schema: seq<Name>,       // property_names
    names: seq<Name>,        // col_names_
    ids: map<Name, nat>,     // col_id_map_
    cols: seq<C>,            // columns_
    flags: seq<bool>)        // columns_detached

  predicate Distinct(ns: seq<Name>) { forall i, j :: 0 <= i < j < |ns| ==> ns[i] != ns[j] }

  ghost predicate Indexed(names: seq<Name>, ids: map<Name, nat>) {
    && (forall n :: n in ids <==> n in names)
    && (forall n :: n in ids ==> ids[n] < |names| && names[ids[n]] == n)
  }

  ghost predicate Good<C>(p: Props<C>) {
    p.schema == p.names && |p.cols| == |p.names| == |p.flags| && Distinct(p.names) && Indexed(p.names, p.ids)
  }

  // ---- what stays of a vector ---------------------------------------------------------------------

  function Erase<T>(xs: seq<T>, i: nat): (r: seq<T>)
    ensures |r| == if i < |xs| then |xs| - 1 else |xs|
  {
    if i < |xs| then xs[..i] + xs[i + 1..] else xs
  }

  /** The entries whose names stay. */
  function Stays<T>(xs: seq<T>, names: seq<Name>, gone: set<Name>): (r: seq<T>)
    requires |xs| == |names|
    ensures |r| <= |xs|
  {
    if xs == [] then []
    else
      var k := |xs| - 1;
      Stays(xs[..k], names[..k], gone) + if names[k] in gone then [] else [xs[k]]
  }

  lemma {:induction false} StaysHas(names: seq<Name>, gone: set<Name>, n: Name)
    ensures n in Stays(names, names, gone) <==> n in names && n !in gone
    decreases |names|
  {
    if names != [] {
      var k := |names| - 1;
      StaysHas(names[..k], gone, n);
      assert names == names[..k] + [names[k]];
    }
  }

  lemma {:induction false} StaysWithout<T>(xs: seq<T>, names: seq<Name>, gone: set<Name>, n: Name)
    requires |xs| == |names| && n !in names
    ensures Stays(xs, names, gone + {n}) == Stays(xs, names, gone)
    decreases |xs|
  {
    if xs != [] { StaysWithout(xs[..|xs| - 1], names[..|xs| - 1], gone, n); }
  }

  lemma {:induction false} StaysAll<T>(xs: seq<T>, names: seq<Name>)
    requires |xs| == |names|
    ensures Stays(xs, names, {}) == xs
    decreases |xs|
  {
    if xs != [] { StaysAll(xs[..|xs| - 1], names[..|xs| - 1]); }
  }

  lemma {:induction false} StaysLength<T>(xs: seq<T>, names: seq<Name>, gone: set<Name>)
    requires |xs| == |names|
    ensures |Stays(xs, names, gone)| == |Stays(names, names, gone)|
    decreases |xs|
  {
    if xs != [] { StaysLength(xs[..|xs| - 1], names[..|xs| - 1], gone); }
  }

  lemma {:induction false} StaysDistinct(names: seq<Name>, gone: set<Name>)
    requires Distinct(names)
    ensures Distinct(Stays(names, names, gone))
    decreases |names|
  {
    if names != [] {
      var k := |names| - 1;
      StaysDistinct(names[..k], gone);
      StaysHas(names[..k], gone, names[k]);
    }
  }

  lemma EraseLast<T>(xs: seq<T>, x: T)
    ensures Erase(xs + [x], |xs|) == xs
  {
  }

  lemma EraseBefore<T>(xs: seq<T>, x: T, i: nat)
    requires i < |xs|
    ensures Erase(xs + [x], i) == Erase(xs, i) + [x]
  {
  }

  lemma StaysSnoc<T>(xs: seq<T>, names: seq<Name>, gone: set<Name>)
    requires |xs| == |names| > 0
    ensures var k := |xs| - 1;
      Stays(xs, names, gone) == if names[k] in gone then Stays(xs[..k], names[..k], gone)
                                else Stays(xs[..k], names[..k], gone) + [xs[k]]
  {
  }

  /** Erasing the entry of one more name where it stands now. */
  lemma {:induction false} EraseStays<T>(xs: seq<T>, names: seq<Name>, gone: set<Name>, n: Name, i: nat)
    requires |xs| == |names| && Distinct(names)
    requires i < |Stays(names, names, gone)| && Stays(names, names, gone)[i] == n
    ensures Erase(Stays(xs, names, gone), i) == Stays(xs, names, gone + {n})
    decreases |xs|
  {
    hide Stays, Erase;
    var k := |xs| - 1;
    StaysSnoc(xs, names, gone);
    StaysSnoc(names, names, gone);
    StaysSnoc(xs, names, gone + {n});
    StaysLength(xs[..k], names[..k], gone);
    var pre := Stays(xs[..k], names[..k], gone);
    StaysHas(names[..k], gone, names[k]);
    if names[k] !in gone && names[k] == n {
      assert i == |pre| by { StaysDistinct(names, gone); }
      StaysWithout(xs[..k], names[..k], gone, n);
      EraseLast(pre, xs[k]);
    } else {
      EraseStays(xs[..k], names[..k], gone, n, i);
      if names[k] !in gone { EraseBefore(pre, xs[k], i); }
    }
  }

  // ---- deleting properties -------------------------------------------------------------------------

  function Place(ns: seq<Name>, n: Name): (r: nat)
    ensures r <= |ns| && n !in ns[..r] && (r < |ns| ==> ns[r] == n) && (r == |ns| ==> n !in ns)
  {
    if ns == [] || ns[0] == n then 0 else 1 + Place(ns[1..], n)
  }

  /** Schema::delete_properties. */
  function DropNames(schema: seq<Name>, list: seq<Name>): seq<Name> {
    if list == [] then schema
    else
      var s := DropNames(schema, list[..|list| - 1]);
      Erase(s, Place(s, list[|list| - 1]))
  }

  /** Table::delete_column; a name that is not there is skipped. */
  function DropColumn<C>(p: Props<C>, n: Name): Props<C> {
    if n !in p.ids then p
    else
      var i := p.ids[n];
      p.(names := Erase(p.names, i), cols := Erase(p.cols, i),
         ids := map m | m in p.ids && m != n :: if p.ids[m] > i then p.ids[m] - 1 else p.ids[m])
  }

  function DropColumns<C>(p: Props<C>, list: seq<Name>): Props<C> {
    if list == [] then p else DropColumn(DropColumns(p, list[..|list| - 1]), list[|list| - 1])
  }

  /** The column numbers, collected before anything is deleted. */
  function Ids(ids: map<Name, nat>, list: seq<Name>): seq<nat> {
    if list == [] then []
    else
      var n := list[|list| - 1];
      Ids(ids, list[..|list| - 1]) + if n in ids then [ids[n]] else []
  }

  function EraseAll(flags: seq<bool>, ids: seq<nat>): seq<bool> {
    if ids == [] then flags else Erase(EraseAll(flags, ids[..|ids| - 1]), ids[|ids| - 1])
  }

  /** Descending. */
  predicate Down(ids: seq<nat>) { forall i, j :: 0 <= i < j < |ids| ==> ids[i] >= ids[j] }

  function Insert(ids: seq<nat>, x: nat): (r: seq<nat>)
    ensures multiset(r) == multiset(ids) + multiset{x}
  {
    if ids == [] then [x]
    else if x >= ids[0] then [x] + ids
    else assert ids == [ids[0]] + ids[1..]; [ids[0]] + Insert(ids[1..], x)
  }

  lemma {:induction false} InsertDown(ids: seq<nat>, x: nat)
    requires Down(ids)
    ensures Down(Insert(ids, x))
    decreases |ids|
  {
    if ids != [] && x < ids[0] {
      var r := Insert(ids[1..], x);
      InsertDown(ids[1..], x);
      forall k | 0 <= k < |r| ensures r[k] <= ids[0] {
        assert r[k] in multiset(r);
        if r[k] != x { assert r[k] in ids[1..]; }
      }
      DownCons(ids[0], r);
    }
  }

  lemma DownCons(x: nat, r: seq<nat>)
    requires Down(r) && forall k :: 0 <= k < |r| ==> r[k] <= x
    ensures Down([x] + r)
  {
  }

  /** std::sort(rbegin, rend). */
  function SortDown(ids: seq<nat>): (r: seq<nat>)
    ensures multiset(r) == multiset(ids)
  {
    if ids == [] then []
    else assert ids == [ids[0]] + ids[1..]; Insert(SortDown(ids[1..]), ids[0])
  }

  lemma {:induction false} SortedDown(ids: seq<nat>)
    ensures Down(SortDown(ids))
    decreases |ids|
  {
    if ids != [] {
      SortedDown(ids[1..]);
      InsertDown(SortDown(ids[1..]), ids[0]);
    }
  }

  /** The loops of the implementation. */
  method CollectIds(ids: map<Name, nat>, list: seq<Name>) returns (r: seq<nat>)
    ensures r == Ids(ids, list)
  {
    r := [];
    for i := 0 to |list|
      invariant r == Ids(ids, list[..i])
    {
      assert list[..i + 1][..i] == list[..i];
      if list[i] in ids { r := r + [ids[list[i]]]; }
    }
    assert list[..|list|] == list;
  }

  method EraseFlags(flags: seq<bool>, ids: seq<nat>) returns (r: seq<bool>)
    ensures r == EraseAll(flags, ids)
  {
    r := flags;
    for i := 0 to |ids|
      invariant r == EraseAll(flags, ids[..i])
    {
      assert ids[..i + 1][..i] == ids[..i];
      if ids[i] < |r| { r := r[..ids[i]] + r[ids[i] + 1..]; }
    }
    assert ids[..|ids|] == ids;
  }

  function Deleted<C>(p: Props<C>, list: seq<Name>): Props<C> {
    DropColumns(p, list).(schema := DropNames(p.schema, list), flags := EraseAll(p.flags, SortDown(Ids(p.ids, list))))
  }

  // ---- erasing flags by number -------------------------------------------------------------------------

  /** The entries at the other positions. */
  function Keep<T>(xs: seq<T>, gone: set<nat>): (r: seq<T>)
    ensures |r| <= |xs|
  {
    if xs == [] then []
    else
      var k := |xs| - 1;
      Keep(xs[..k], gone) + if k in gone then [] else [xs[k]]
  }

  lemma KeepSnoc<T>(xs: seq<T>, gone: set<nat>)
    requires xs != []
    ensures var k := |xs| - 1; Keep(xs, gone) == if k in gone then Keep(xs[..k], gone) else Keep(xs[..k], gone) + [xs[k]]
  {
  }

  lemma {:induction false} KeepAll<T>(xs: seq<T>, gone: set<nat>)
    requires forall g :: g in gone ==> g >= |xs|
    ensures Keep(xs, gone) == xs
    decreases |xs|
  {
    if xs != [] { KeepAll(xs[..|xs| - 1], gone); }
  }

  lemma {:induction false} KeepErase<T>(xs: seq<T>, gone: set<nat>, j: nat)
    requires j < |xs| && forall g :: g in gone ==> g > j
    ensures j < |Keep(xs, gone)| && Keep(xs, gone + {j}) == Erase(Keep(xs, gone), j)
    decreases |xs|
  {
    hide Erase, Keep;
    var k := |xs| - 1;
    KeepSnoc(xs, gone);
    KeepSnoc(xs, gone + {j});
    if j < k {
      KeepErase(xs[..k], gone, j);
      if k !in gone { EraseBefore(Keep(xs[..k], gone), xs[k], j); }
    } else {
      KeepAll(xs[..k], gone);
      KeepAll(xs[..k], gone + {j});
      EraseLast(xs[..k], xs[k]);
    }
  }

  lemma {:induction false} KeepNothingAbove<T>(xs: seq<T>, gone: set<nat>, j: nat)
    requires j < |xs| && j in gone && forall g :: g in gone ==> g >= j
    ensures |Keep(xs, gone)| >= j
    ensures |Keep(xs, gone)| == j <==> forall q: nat :: j < q < |xs| ==> q in gone
    decreases |xs|
  {
    var k := |xs| - 1;
    if j < k { KeepNothingAbove(xs[..k], gone, j); } else { KeepAll(xs[..k], gone); }
  }

  function Count(ids: seq<nat>, i: nat): nat { multiset(ids)[i] }

  /** A number that occurs twice has no number above it that stays. */
  predicate Harmless(ids: seq<nat>, n: nat) {
    forall j, q: nat :: j in ids && Count(ids, j) >= 2 && j < q < n ==> q in ids
  }

  lemma HarmlessSnoc(pre: seq<nat>, j: nat, n: nat)
    requires forall i :: i in pre ==> i >= j
    ensures Harmless(pre + [j], n) <==> Harmless(pre, n) && (j in pre ==> forall q: nat :: j < q < n ==> q in pre)
  {
    var ids := pre + [j];
    assert forall i: nat :: Count(ids, i) == Count(pre, i) + if i == j then 1 else 0;
    assert forall i: nat :: i in pre <==> Count(pre, i) >= 1;
    assert forall q: nat :: q > j ==> (q in ids <==> q in pre);
    if Harmless(pre, n) && (j in pre ==> forall q: nat :: j < q < n ==> q in pre) {
      forall i: nat, q: nat | Count(ids, i) >= 2 && i < q < n ensures q in ids {
        if i != j { assert Count(pre, i) >= 2; }
      }
    }
    if Harmless(ids, n) {
      forall i: nat, q: nat | Count(pre, i) >= 2 && i < q < n ensures q in pre {
        assert Count(ids, i) >= 2 && q in ids && i >= j;
      }
      forall q: nat | j in pre && j < q < n ensures q in pre { assert Count(ids, j) >= 2; }
    }
  }

  function SetOf(ids: seq<nat>): set<nat> { set i | i in ids }

  /** The flags left over are those of the columns that stay, or there are too few. */
  ghost predicate Outcome(flags: seq<bool>, ids: seq<nat>) {
    var r, k := EraseAll(flags, ids), Keep(flags, SetOf(ids));
    |r| <= |k| && (r == k <==> Harmless(ids, |flags|)) && (|r| == |k| <==> Harmless(ids, |flags|))
  }

  lemma EraseSnoc(flags: seq<bool>, pre: seq<nat>, j: nat)
    ensures EraseAll(flags, pre + [j]) == Erase(EraseAll(flags, pre), j) && SetOf(pre + [j]) == SetOf(pre) + {j}
  {
    assert (pre + [j])[..|pre|] == pre;
  }

  lemma Once(flags: seq<bool>, pre: seq<nat>, j: nat)
    requires Outcome(flags, pre) && j < |flags| && j !in pre && (forall i :: i in pre ==> i >= j)
    requires |EraseAll(flags, pre)| > j
    ensures Outcome(flags, pre + [j])
  {
    hide Keep, EraseAll, Harmless;
    EraseSnoc(flags, pre, j);
    HarmlessSnoc(pre, j, |flags|);
    KeepErase(flags, SetOf(pre), j);
  }

  lemma Again(flags: seq<bool>, pre: seq<nat>, j: nat)
    requires Outcome(flags, pre) && j < |flags| && j in pre && (forall i :: i in pre ==> i >= j)
    requires |EraseAll(flags, pre)| >= j
    ensures Outcome(flags, pre + [j])
  {
    hide Keep, EraseAll, Harmless;
    EraseSnoc(flags, pre, j);
    HarmlessSnoc(pre, j, |flags|);
    KeepNothingAbove(flags, SetOf(pre), j);
    assert SetOf(pre) + {j} == SetOf(pre);
    assert forall q: nat :: q in SetOf(pre) <==> q in pre;
  }

  /**
    Flags erased one after the other, from the largest number down: they are the flags of the
    other columns exactly if no number that occurs twice has a column above it that stays.
    Otherwise there are too few.
   */
  lemma {:induction false} ErasedDown(flags: seq<bool>, ids: seq<nat>)
    requires Down(ids) && forall i :: i in ids ==> i < |flags|
    ensures Outcome(flags, ids)
    ensures |EraseAll(flags, ids)| >= if ids == [] then |flags| else ids[|ids| - 1]
    decreases |ids|
  {
    hide Keep, EraseAll, Harmless, Outcome, Down;
    if ids == [] {
      ErasedNothing(flags);
    } else {
      var pre, j := ids[..|ids| - 1], ids[|ids| - 1];
      LastIsLeast(ids);
      ErasedDown(flags, pre);
      EraseSnoc(flags, pre, j);
      if j in pre { Again(flags, pre, j); } else { Once(flags, pre, j); }
    }
  }

  lemma ErasedNothing(flags: seq<bool>)
    ensures Outcome(flags, []) && EraseAll(flags, []) == flags
  {
    KeepAll(flags, {});
    assert SetOf([]) == {};
  }

  lemma LastIsLeast(ids: seq<nat>)
    requires Down(ids) && ids != []
    ensures var pre, j := ids[..|ids| - 1], ids[|ids| - 1];
      ids == pre + [j] && Down(pre) && (forall i :: i in pre ==> i in ids && i >= j) && (pre != [] ==> pre[|pre| - 1] in pre)
  {
  }

  // ---- a whole list -------------------------------------------------------------------------------------

  lemma EraseAt<T>(xs: seq<T>, i: nat, k: nat)
    requires i < |xs| && k < |xs| - 1
    ensures Erase(xs, i)[k] == if k < i then xs[k] else xs[k + 1]
  {
  }

  lemma EraseHas(names: seq<Name>, i: nat, m: Name)
    requires Distinct(names) && i < |names|
    ensures m in Erase(names, i) <==> m in names && m != names[i]
  {
    assert m in Erase(names, i) <==> m in names[..i] || m in names[i + 1..];
  }

  function IndexWithout(ids: map<Name, nat>, n: Name): map<Name, nat>
    requires n in ids
  {
    map m | m in ids && m != n :: if ids[m] > ids[n] then ids[m] - 1 else ids[m]
  }

  lemma IndexErased(names: seq<Name>, ids: map<Name, nat>, n: Name)
    requires Distinct(names) && Indexed(names, ids) && n in ids
    ensures Indexed(Erase(names, ids[n]), IndexWithout(ids, n))
  {
    hide Erase;
    var ids' := IndexWithout(ids, n);
    forall m ensures m in ids' <==> m in Erase(names, ids[n]) { EraseHas(names, ids[n], m); }
    forall m | m in ids' ensures ids'[m] < |names| - 1 && Erase(names, ids[n])[ids'[m]] == m {
      assert ids[m] != ids[n];
      EraseAt(names, ids[n], ids'[m]);
    }
  }

  /** One column leaves names, columns and index in step. */
  lemma DropsOne<C>(p: Props<C>, n: Name)
    requires Distinct(p.names) && Indexed(p.names, p.ids) && |p.cols| == |p.names| && n in p.ids
    ensures var q := DropColumn(p, n);
      && q.names == Erase(p.names, p.ids[n]) && q.cols == Erase(p.cols, p.ids[n])
      && Indexed(q.names, q.ids) && q.schema == p.schema && q.flags == p.flags
  {
    hide Erase, Indexed, Distinct;
    IndexErased(p.names, p.ids, n);
    assert DropColumn(p, n).ids == IndexWithout(p.ids, n);
  }

  /** What the table is after a list of names: the columns with other names, in their order. */
  ghost predicate Dropped<C>(p: Props<C>, q: Props<C>, gone: set<Name>) {
    && |p.cols| == |p.names| && q.names == Stays(p.names, p.names, gone) && q.cols == Stays(p.cols, p.names, gone)
    && Distinct(q.names) && Indexed(q.names, q.ids) && q.schema == p.schema && q.flags == p.flags
  }

  lemma DropsNext<C>(p: Props<C>, q: Props<C>, gone: set<Name>, n: Name)
    requires Good(p) && Dropped(p, q, gone)
    ensures Dropped(p, DropColumn(q, n), gone + {n})
  {
    hide Stays, Indexed, Distinct, Erase;
    StaysLength(p.cols, p.names, gone);
    StaysDistinct(p.names, gone + {n});
    if n in q.ids {
      assert q.ids[n] < |q.names| && q.names[q.ids[n]] == n by { IndexedAt(q.names, q.ids, n); }
      DropsOne(q, n);
      EraseStays(p.names, p.names, gone, n, q.ids[n]);
      EraseStays(p.cols, p.names, gone, n, q.ids[n]);
    } else {
      assert n !in q.names by { IndexedAt(q.names, q.ids, n); }
      GoneAlready(p.names, p.names, gone, n);
      GoneAlready(p.cols, p.names, gone, n);
    }
  }

  lemma IndexedAt(names: seq<Name>, ids: map<Name, nat>, n: Name)
    requires Indexed(names, ids)
    ensures n in ids <==> n in names
    ensures n in ids ==> ids[n] < |names| && names[ids[n]] == n
  {
  }

  lemma {:induction false} GoneAlready<T>(xs: seq<T>, names: seq<Name>, gone: set<Name>, n: Name)
    requires |xs| == |names| && n !in Stays(names, names, gone)
    ensures Stays(xs, names, gone + {n}) == Stays(xs, names, gone)
  {
    StaysHas(names, gone, n);
    if n in gone { assert gone + {n} == gone; } else { StaysWithout(xs, names, gone, n); }
  }

  lemma {:induction false} ColumnsDropped<C>(p: Props<C>, list: seq<Name>)
    requires Good(p)
    ensures Dropped(p, DropColumns(p, list), SetOf(list))
    decreases |list|
  {
    hide Dropped, DropColumn;
    if list == [] {
      assert SetOf(list) == {};
      DropsNothing(p);
    } else {
      var pre, n := list[..|list| - 1], list[|list| - 1];
      ColumnsDropped(p, pre);
      DropsNext(p, DropColumns(p, pre), SetOf(pre), n);
      assert list == pre + [n] && SetOf(list) == SetOf(pre) + {n};
    }
  }

  lemma DropsNothing<C>(p: Props<C>)
    requires Good(p)
    ensures Dropped(p, p, {})
  {
    StaysAll(p.names, p.names);
    StaysAll(p.cols, p.names);
  }

  lemma {:induction false} NamesDropped(schema: seq<Name>, list: seq<Name>)
    requires Distinct(schema)
    ensures DropNames(schema, list) == Stays(schema, schema, SetOf(list))
    decreases |list|
  {
    hide Stays, Distinct, Erase;
    if list == [] {
      assert SetOf(list) == {};
      StaysAll(schema, schema);
    } else {
      var pre, n := list[..|list| - 1], list[|list| - 1];
      NamesDropped(schema, pre);
      assert list == pre + [n] && SetOf(list) == SetOf(pre) + {n};
      var s := Stays(schema, schema, SetOf(pre));
      if Place(s, n) < |s| {
        EraseStays(schema, schema, SetOf(pre), n, Place(s, n));
      } else {
        GoneAlready(schema, schema, SetOf(pre), n);
        assert Erase(s, |s|) == s by { ErasePast(s); }
      }
    }
  }

  lemma ErasePast<T>(xs: seq<T>)
    ensures Erase(xs, |xs|) == xs
  {
  }

  lemma {:induction false} IdsHave(names: seq<Name>, ids: map<Name, nat>, list: seq<Name>, k: nat)
    requires Indexed(names, ids) && Distinct(names) && k < |names|
    ensures k in Ids(ids, list) <==> names[k] in list
    decreases |list|
  {
    if list != [] {
      var pre, n := list[..|list| - 1], list[|list| - 1];
      IdsHave(names, ids, pre, k);
      assert list == pre + [n];
      assert names[k] in ids && ids[names[k]] == k;
    }
  }

  lemma {:induction false} IdsBound(names: seq<Name>, ids: map<Name, nat>, list: seq<Name>, i: nat)
    requires Indexed(names, ids) && i in Ids(ids, list)
    ensures i < |names|
    decreases |list|
  {
    if list != [] && i in Ids(ids, list[..|list| - 1]) { IdsBound(names, ids, list[..|list| - 1], i); }
  }

  lemma {:induction false} KeepIsStays<T>(xs: seq<T>, names: seq<Name>, gone: set<Name>, at: set<nat>)
    requires |xs| == |names| && forall k: nat :: k < |xs| ==> (names[k] in gone <==> k in at)
    ensures Stays(xs, names, gone) == Keep(xs, at)
    decreases |xs|
  {
    if xs != [] { KeepIsStays(xs[..|xs| - 1], names[..|xs| - 1], gone, at); }
  }

  lemma SortedSame(ids: seq<nat>, n: nat)
    ensures SetOf(SortDown(ids)) == SetOf(ids) && (Harmless(SortDown(ids), n) <==> Harmless(ids, n))
  {
    var r := SortDown(ids);
    forall i: nat ensures Count(r, i) == Count(ids, i) && (i in r <==> i in ids) {
      assert i in r <==> i in multiset(r);
      assert i in ids <==> i in multiset(ids);
    }
  }

  /** The flags after a deletion of a list of properties. */
  lemma FlagsErased<C>(p: Props<C>, list: seq<Name>)
    requires Good(p)
    ensures var r, k := EraseAll(p.flags, SortDown(Ids(p.ids, list))), Stays(p.flags, p.names, SetOf(list));
      var h := Harmless(Ids(p.ids, list), |p.names|);
      |r| <= |k| && (r == k <==> h) && (|r| == |k| <==> h)
  {
    hide Harmless, Stays, EraseAll, Keep, Indexed, Distinct;
    var ids := Ids(p.ids, list);
    SortedDown(ids);
    SortedSame(ids, |p.names|);
    forall i | i in SortDown(ids) ensures i < |p.flags| {
      assert i in SetOf(SortDown(ids));
      IdsBound(p.names, p.ids, list, i);
    }
    ErasedDown(p.flags, SortDown(ids));
    forall k: nat | k < |p.flags| ensures p.names[k] in SetOf(list) <==> k in SetOf(ids) {
      IdsHave(p.names, p.ids, list, k);
    }
    KeepIsStays(p.flags, p.names, SetOf(list), SetOf(ids));
  }

  /**
    Deleting a list of properties: schema names, table names, index and columns agree whatever
    the list is, and are those of the other properties. The flags agree with them exactly if
    no name that the list repeats has a property behind it that stays; otherwise the last
    columns are left without a flag.
   */
  lemma DeletedIs<C>(p: Props<C>, list: seq<Name>)
    requires Good(p)
    ensures var q, gone := Deleted(p, list), SetOf(list);
      && q.schema == q.names == Stays(p.names, p.names, gone) && q.cols == Stays(p.cols, p.names, gone)
      && Distinct(q.names) && Indexed(q.names, q.ids) && |q.cols| == |q.names|
    ensures var q := Deleted(p, list); var h := Harmless(Ids(p.ids, list), |p.names|);
      && (q.flags == Stays(p.flags, p.names, SetOf(list)) <==> h) && |q.flags| <= |q.cols| && (Good(q) <==> h)
  {
    hide Harmless, Stays, EraseAll, Indexed, Distinct, DropColumns, DropNames, SortDown;
    ColumnsDropped(p, list);
    NamesDropped(p.schema, list);
    FlagsErased(p, list);
    StaysLength(p.cols, p.names, SetOf(list));
    StaysLength(p.flags, p.names, SetOf(list));
  }

  /** A list without repetitions is harmless. */
  lemma {:induction false} IdsOnce(names: seq<Name>, ids: map<Name, nat>, list: seq<Name>, i: nat)
    requires Indexed(names, ids) && Distinct(list)
    ensures Count(Ids(ids, list), i) <= 1
    decreases |list|
  {
    if list != [] {
      var pre, n := list[..|list| - 1], list[|list| - 1];
      IdsOnce(names, ids, pre, i);
      if n in ids && ids[n] == i {
        NotIn(names, ids, pre, n);
        assert i !in multiset(Ids(ids, pre));
      }
    }
  }

  lemma {:induction false} NotIn(names: seq<Name>, ids: map<Name, nat>, list: seq<Name>, n: Name)
    requires Indexed(names, ids) && n in ids && n !in list
    ensures ids[n] !in Ids(ids, list)
    decreases |list|
  {
    if list != [] {
      var m := list[|list| - 1];
      NotIn(names, ids, list[..|list| - 1], n);
      assert m in list;
    }
  }

  lemma DistinctIsHarmless<C>(p: Props<C>, list: seq<Name>)
    requires Good(p) && Distinct(list)
    ensures Harmless(Ids(p.ids, list), |p.names|)
  {
    forall j: nat ensures Count(Ids(p.ids, list), j) <= 1 { IdsOnce(p.names, p.ids, list, j); }
  }

  lemma {:induction false} IdsTwice(ids: map<Name, nat>, list: seq<Name>, n: Name)
    requires n in ids
    ensures Count(Ids(ids, list), ids[n]) >= multiset(list)[n]
    decreases |list|
  {
    if list != [] {
      var pre, m := list[..|list| - 1], list[|list| - 1];
      IdsTwice(ids, pre, n);
      assert list == pre + [m];
    }
  }

  /** A repeated name with a property behind it that stays is harmful. */
  lemma RepeatedIsHarmful<C>(p: Props<C>, list: seq<Name>, n: Name, q: nat)
    requires Good(p) && n in p.ids && multiset(list)[n] >= 2 && p.ids[n] < q < |p.names| && p.names[q] !in list
    ensures !Harmless(Ids(p.ids, list), |p.names|)
  {
    IdsTwice(p.ids, list, n);
    IdsHave(p.names, p.ids, list, q);
  }

  // ---- the edge version -------------------------------------------------------------------------------------

  /** The test of DeleteEdgePropertiesImpl for a table that was rebuilt. */
  predicate Resets(was: bool, now: bool, count: nat, flags: nat, ids: nat) { was != now || count != flags - ids }

  lemma {:induction false} StaysCount(names: seq<Name>, gone: set<Name>)
    requires Distinct(names) && forall n :: n in gone ==> n in names
    ensures |Stays(names, names, gone)| == |names| - |gone|
    decreases |names|
  {
    if names != [] {
      var k := |names| - 1;
      assert names == names[..k] + [names[k]];
      if names[k] in gone {
        StaysCount(names[..k], gone - {names[k]});
        assert gone == gone - {names[k]} + {names[k]};
        StaysWithout(names[..k], names[..k], gone - {names[k]}, names[k]);
      } else {
        StaysCount(names[..k], gone);
      }
    } else {
      assert gone == {};
    }
  }

  lemma {:induction false} SetCount(list: seq<Name>)
    ensures |SetOf(list)| <= |list| && (|SetOf(list)| == |list| <==> Distinct(list))
    decreases |list|
  {
    if list != [] {
      var pre, n := list[..|list| - 1], list[|list| - 1];
      SetCount(pre);
      assert list == pre + [n] && SetOf(list) == SetOf(pre) + {n};
      if n in pre {
        assert SetOf(list) == SetOf(pre);
        var i :| 0 <= i < |pre| && pre[i] == n;
        assert list[i] == list[|list| - 1];
      } else {
        assert Distinct(list) <==> Distinct(pre);
      }
    } else {
      assert SetOf(list) == {};
    }
  }

  lemma {:induction false} IdsCount(ids: map<Name, nat>, list: seq<Name>)
    requires forall n :: n in list ==> n in ids
    ensures |Ids(ids, list)| == |list|
    decreases |list|
  {
    if list != [] {
      assert forall n :: n in list[..|list| - 1] ==> n in list;
      IdsCount(ids, list[..|list| - 1]);
    }
  }

  /** An edge type that has a property table before and after is taken for a rebuilt one exactly if the list repeats a name. */
  lemma ResetsIff<C>(p: Props<C>, list: seq<Name>)
    requires Good(p) && forall n :: n in list ==> n in p.names
    ensures Resets(false, false, |Stays(p.names, p.names, SetOf(list))|, |p.flags|, |Ids(p.ids, list)|) <==> !Distinct(list)
  {
    StaysCount(p.names, SetOf(list));
    SetCount(list);
    IdsCount(p.ids, list);
  }

  // ---- adding and renaming ----------------------------------------------------------------------------------

  /** col_id_map_.insert keeps the first of equal names. */
  function AddIds(ids: map<Name, nat>, from: nat, list: seq<Name>): map<Name, nat> {
    if list == [] then ids
    else
      var k := |list| - 1;
      var m := AddIds(ids, from, list[..k]);
      if list[k] in m then m else m[list[k] := from + k]
  }

  /** AddProperties: new columns behind the others, and flags up to the number of names in the schema. */
  function Added<C>(p: Props<C>, list: seq<Name>, cols: seq<C>): Props<C> {
    Props(p.schema + list, p.names + list, AddIds(p.ids, |p.names|, list), p.cols + cols,
          p.flags + seq(|list|, _ => true))
  }

  lemma {:induction false} AddedIndex(names: seq<Name>, ids: map<Name, nat>, list: seq<Name>)
    requires Indexed(names, ids) && Distinct(list) && forall n :: n in list ==> n !in names
    ensures Indexed(names + list, AddIds(ids, |names|, list))
    decreases |list|
  {
    if list == [] {
      assert names + list == names;
    } else {
      var k := |list| - 1;
      var all := names + list[..k];
      assert names + list == all + [list[k]];
      AddedIndex(names, ids, list[..k]);
      assert list[k] !in all;
      IndexSnoc(all, AddIds(ids, |names|, list[..k]), list[k]);
    }
  }

  lemma IndexSnoc(names: seq<Name>, ids: map<Name, nat>, n: Name)
    requires Indexed(names, ids) && n !in names
    ensures n !in ids && Indexed(names + [n], ids[n := |names|])
  {
  }

  lemma DistinctAppend(a: seq<Name>, b: seq<Name>)
    requires Distinct(a) && forall n :: n in b ==> n !in a
    ensures Distinct(a + b) <==> Distinct(b)
  {
    var all := a + b;
    if Distinct(b) {
      forall i, j | 0 <= i < j < |all| ensures all[i] != all[j] {
        if j >= |a| { assert all[j] in b; }
      }
    } else {
      var i, j :| 0 <= i < j < |b| && b[i] == b[j];
      assert all[|a| + i] == all[|a| + j];
    }
  }

  /** Adding a list of new properties keeps everything in step exactly if the list repeats no name. */
  lemma AddedIsGoodIff<C>(p: Props<C>, list: seq<Name>, cols: seq<C>)
    requires Good(p) && |cols| == |list| && forall n :: n in list ==> n !in p.schema
    ensures Good(Added(p, list, cols)) <==> Distinct(list)
  {
    hide Distinct, Indexed;
    DistinctAppend(p.names, list);
    if Distinct(list) { AddedIndex(p.names, p.ids, list); }
  }

  /** rename_column, and the schema with it. */
  function Renamed<C>(p: Props<C>, a: Name, b: Name): Props<C> {
    if a !in p.ids then p
    else
      var i := p.ids[a];
      var rest := p.ids - {a};
      p.(schema := if Place(p.schema, a) < |p.schema| then p.schema[Place(p.schema, a) := b] else p.schema,
         names := if i < |p.names| then p.names[i := b] else p.names,
         ids := if b in rest then rest else rest[b := i])
  }

  /** Renaming keeps everything in step exactly if the new name is not the name of another property. */
  lemma RenamedIsGoodIff<C>(p: Props<C>, a: Name, b: Name)
    requires Good(p) && a in p.names
    ensures Good(Renamed(p, a, b)) <==> b == a || b !in p.names
  {
    hide Distinct, Indexed;
    PlaceIsId(p.names, p.ids, a);
    if b == a {
      RenamedToItself(p, a);
    } else if b in p.names {
      RenamedOver(p.names, p.ids, a, b);
    } else {
      IndexedAt(p.names, p.ids, b);
      RenamedIndex(p.names, p.ids, a, b);
    }
  }

  lemma PlaceIsId(names: seq<Name>, ids: map<Name, nat>, a: Name)
    requires Distinct(names) && Indexed(names, ids) && a in names
    ensures a in ids && ids[a] < |names| && names[ids[a]] == a && Place(names, a) == ids[a]
  {
  }

  lemma RenamedToItself<C>(p: Props<C>, a: Name)
    requires Good(p) && a in p.names
    ensures Renamed(p, a, a) == p
  {
    PlaceIsId(p.names, p.ids, a);
    assert p.names[p.ids[a] := a] == p.names && (p.ids - {a})[a := p.ids[a]] == p.ids;
  }

  lemma RenamedOver(names: seq<Name>, ids: map<Name, nat>, a: Name, b: Name)
    requires Distinct(names) && Indexed(names, ids) && a in ids && b in names && b != a
    ensures !Distinct(names[ids[a] := b])
  {
    var names' := names[ids[a] := b];
    assert names'[ids[b]] == b && names'[ids[a]] == b && ids[a] != ids[b];
  }

  lemma RenamedIndex(names: seq<Name>, ids: map<Name, nat>, a: Name, b: Name)
    requires Distinct(names) && Indexed(names, ids) && a in ids && b !in names
    ensures Distinct(names[ids[a] := b]) && Indexed(names[ids[a] := b], (ids - {a})[b := ids[a]])
  {
    var names', ids' := names[ids[a] := b], (ids - {a})[b := ids[a]];
    forall m ensures m in ids' <==> m in names' {
      if m in ids && m != a { assert names'[ids[m]] == m; }
      if m == b { assert names'[ids[a]] == b; }
      if k :| 0 <= k < |names'| && names'[k] == m && k != ids[a] { assert names[k] == m; }
    }
  }

  // ---- what a repeated name does --------------------------------------------------------------------------------

  lemma DropOne<C>(p: Props<C>, n: Name)
    ensures DropColumns(p, [n]) == DropColumn(p, n)
  {
    assert [n][..0] == [];
  }

  lemma DropTwo<C>(p: Props<C>, n: Name)
    ensures DropColumns(p, [n, n]) == DropColumn(DropColumn(p, n), n)
  {
    assert [n, n][..1] == [n];
    DropOne(p, n);
  }

  /** Two columns and no flag set; deleting the first one by a list that names it twice leaves a column without a flag. */
  lemma RepeatedNameLosesFlag()
    ensures var p := Props([1, 2], [1, 2], map[1 := 0, 2 := 1], [10, 20], [false, false]);
      Good(p) && Deleted(p, [1, 1]).cols == [20] && Deleted(p, [1, 1]).flags == []
  {
    var p := Props([1, 2], [1, 2], map[1 := 0, 2 := 1], [10, 20], [false, false]);
    hide DropColumns, EraseAll, SortDown, Ids, DropNames;
    DropTwo(p, 1);
    TwiceTheFirst(p.ids, p.flags);
    assert DropColumn(p, 1).cols == [20];
  }

  lemma TwiceTheFirst(ids: map<Name, nat>, flags: seq<bool>)
    requires 1 in ids && ids[1] == 0 && flags == [false, false]
    ensures EraseAll(flags, SortDown(Ids(ids, [1, 1]))) == []
  {
    assert [1, 1][..1] == [1] && [1][..0] == [];
    assert Ids(ids, [1]) == [0] && Ids(ids, [1, 1]) == [0, 0];
    assert [0, 0][1..] == [0] && [0][1..] == [] && SortDown([0]) == [0] && SortDown([0, 0]) == [0, 0];
    assert [0, 0][..1] == [0] && [0][..0] == [];
    assert EraseAll(flags, [0]) == [false];
  }

  /** Adding one name twice and deleting it twice leaves a column that no name leads to. */
  lemma RepeatedAddLosesColumn()
    ensures var p: Props<nat> := Props([], [], map[], [], []);
      var q := Deleted(Deleted(Added(p, [7, 7], [10, 20]), [7]), [7]);
      Good(p) && q.schema == [] && q.cols == [20]
  {
    var p: Props<nat> := Props([], [], map[], [], []);
    var q := Added(p, [7, 7], [10, 20]);
    TwiceNew();
    DropOne(q, 7);
    DropOne(Deleted(q, [7]), 7);
    hide DropColumns, EraseAll, SortDown, Ids, DropNames, AddIds;
    assert DropColumn(q, 7).cols == [20];
  }

  lemma TwiceNew()
    ensures AddIds(map[], 0, [7, 7]) == map[7 := 0] && DropNames([7, 7], [7]) == [7] && DropNames([7], [7]) == []
  {
    assert [7, 7][..1] == [7] && [7][..0] == [];
    assert AddIds(map[], 0, [7]) == map[7 := 0];
  }
}
