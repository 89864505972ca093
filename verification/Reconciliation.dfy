/** The three-way merge that brings a stored list of keyed child rows in line with an incoming list: match by
    key, update in place, append what is new, prune what was not matched. `ScoringRepository.upsert_candidate`
    (server/src/data/repositories/scoring_repository.py) runs it on experiences and on educations. */
module Reconciliation {
  import opened Common

  type RowId = nat

  /** A child row. `id` is None between being appended and being flushed. */
  datatype Row<K, D> = Row(id: Option<RowId>, key: K, data: D)

  datatype Item<K, P> = Item(key: K, payload: P)

  function KeyOf<K, P>(i: Item<K, P>): K {
    i.key
  }

  /** How rows and incoming items look to a reader who ignores identities: `seen` a row's data, `offered` an
      item's payload. Updating a row, or making one, must show what the item offers. */
  ghost predicate ShowsPayload<D(!new), P(!new), A>(
    merge: (D, P) -> D, create: P -> D, seen: D -> A, offered: P -> A)
  {
    && (forall d, p :: seen(merge(d, p)) == offered(p))
    && (forall p :: seen(create(p)) == offered(p))
  }

  /** Rows as the database holds them: every one with an identity of its own. */
  ghost predicate Stored<K, D>(rows: seq<Row<K, D>>) {
    && (forall i :: 0 <= i < |rows| ==> rows[i].id.Some?)
    && (forall i, j :: 0 <= i < j < |rows| ==> rows[i].id != rows[j].id)
  }

  /** The first position of its key. */
  predicate IsFirst<K(==), D>(rows: seq<Row<K, D>>, i: int) {
    0 <= i < |rows| && forall j :: 0 <= j < i ==> rows[j].key != rows[i].key
  }

  ghost predicate DistinctKeys<K, D>(rows: seq<Row<K, D>>) {
    forall i, j :: 0 <= i < j < |rows| ==> rows[i].key != rows[j].key
  }

  /** What the incoming list asks for: under every key, what its last item offers. */
  ghost function Latest<K, P, A>(items: seq<Item<K, P>>, offered: P -> A): map<K, A> {
    if items == [] then map[]
    else
      var n := |items| - 1;
      Latest(items[..n], offered)[items[n].key := offered(items[n].payload)]
  }

  ghost function Pairs<K, A>(m: map<K, A>): set<(K, A)> {
    set k | k in m :: (k, m[k])
  }

  /** What a list of rows shows: keys with what is seen of their data, identities and order forgotten. */
  ghost function Shown<K, D, A>(rows: seq<Row<K, D>>, seen: D -> A): multiset<(K, A)> {
    if rows == [] then multiset{}
    else Shown(rows[..|rows| - 1], seen) + multiset{(rows[|rows| - 1].key, seen(rows[|rows| - 1].data))}
  }

  function ShowRow<K, D, A>(seen: D -> A): Row<K, D> -> (K, A) {
    (r: Row<K, D>) => (r.key, seen(r.data))
  }

  /** The same of the incoming items, one by one. */
  ghost function Offered<K, P, A>(items: seq<Item<K, P>>, offered: P -> A): multiset<(K, A)> {
    if items == [] then multiset{}
    else Offered(items[..|items| - 1], offered)
         + multiset{(items[|items| - 1].key, offered(items[|items| - 1].payload))}
  }

  lemma {:induction false} ShownAsMap<K, D, A>(rows: seq<Row<K, D>>, seen: D -> A)
    ensures Shown(rows, seen) == multiset(Map(rows, ShowRow(seen)))
  {
    if rows != [] {
      ShownAsMap(rows[..|rows| - 1], seen);
    }
  }

  // ================================================================ matching

  ghost predicate HasKey<K, D>(rows: seq<Row<K, D>>, key: K) {
    exists i :: 0 <= i < |rows| && rows[i].key == key
  }

  /** Where the rows stand when the items matched so far ask for `latest`. */
  ghost predicate Matched<K, D, A>(
    stored: seq<Row<K, D>>, latest: map<K, A>, rows: seq<Row<K, D>>, matched: set<Option<RowId>>, seen: D -> A)
  {
    Aligned(stored, latest, rows) && Answers(latest, rows, seen) && Marked(stored, latest, rows, matched)
  }

  /** The stored rows keep their places, identities and keys; behind them is one pending row per new key. */
  ghost predicate Aligned<K, D, A>(stored: seq<Row<K, D>>, latest: map<K, A>, rows: seq<Row<K, D>>) {
    && |stored| <= |rows|
    && (forall i :: 0 <= i < |stored| ==> rows[i].id == stored[i].id && rows[i].key == stored[i].key)
    && (forall i :: |stored| <= i < |rows| ==> rows[i].id == None && IsFirst(rows, i) && rows[i].key in latest)
  }

  /** Every wanted key is there, and its first row shows what is wanted. */
  ghost predicate Answers<K, D, A>(latest: map<K, A>, rows: seq<Row<K, D>>, seen: D -> A) {
    && (forall k :: k in latest ==> HasKey(rows, k))
    && (forall i :: IsFirst(rows, i) && rows[i].key in latest ==> seen(rows[i].data) == latest[rows[i].key])
  }

  /** The stored rows marked as matched are the first ones of the wanted keys. */
  ghost predicate Marked<K, D, A>(
    stored: seq<Row<K, D>>, latest: map<K, A>, rows: seq<Row<K, D>>, matched: set<Option<RowId>>)
    requires |stored| <= |rows|
  {
    forall i :: 0 <= i < |stored| ==> (stored[i].id in matched <==> IsFirst(rows, i) && rows[i].key in latest)
  }

  method FindByKey<K(==), D>(rows: seq<Row<K, D>>, key: K) returns (found: Option<nat>)
    ensures found.None? <==> !HasKey(rows, key)
    ensures found.Some? ==> IsFirst(rows, found.value) && rows[found.value].key == key
  {
    for i := 0 to |rows|
      invariant forall j :: 0 <= j < i ==> rows[j].key != key
    {
      if rows[i].key == key {
        return Some(i);
      }
    }
    return None;
  }

  method MatchAll<K(==, !new), D(!new), P(!new), A(!new)>(
    stored: seq<Row<K, D>>, items: seq<Item<K, P>>, merge: (D, P) -> D, create: P -> D,
    ghost seen: D -> A, ghost offered: P -> A)
    returns (rows: seq<Row<K, D>>, matched: set<Option<RowId>>)
    requires Stored(stored) && ShowsPayload(merge, create, seen, offered)
    ensures Matched(stored, Latest(items, offered), rows, matched, seen)
  {
    rows, matched := stored, {};
    for n := 0 to |items|
      invariant Matched(stored, Latest(items[..n], offered), rows, matched, seen)
    {
      var item := items[n];
      assert items[..n + 1][..n] == items[..n];
      ghost var latest := Latest(items[..n], offered);
      var found := FindByKey(rows, item.key);
      match found {
        case Some(i) =>
          var row := rows[i].(data := merge(rows[i].data, item.payload));
          UpdateKeepsMatched(stored, latest, rows, matched, i, row, seen);
          rows := rows[i := row];
          matched := matched + {row.id};
        case None =>
          var row := Row(None, item.key, create(item.payload));
          AppendKeepsMatched(stored, latest, rows, matched, row, seen);
          rows := rows + [row];
      }
    }
    assert items[..|items|] == items;
  }

  lemma UpdateKeepsMatched<K, D, A>(
    stored: seq<Row<K, D>>, latest: map<K, A>, rows: seq<Row<K, D>>, matched: set<Option<RowId>>,
    i: nat, row: Row<K, D>, seen: D -> A)
    requires Stored(stored) && Matched(stored, latest, rows, matched, seen)
    requires IsFirst(rows, i) && row.id == rows[i].id && row.key == rows[i].key
    ensures Matched(stored, latest[row.key := seen(row.data)], rows[i := row], matched + {row.id}, seen)
  {
    SameKeysSameFirsts(rows, rows[i := row]);
    forall j | IsFirst(rows, j) && rows[j].key == row.key ensures j == i {
      FirstIsUnique(rows, i, j);
    }
    UpdateKeepsMarks(stored, latest, rows, matched, i, row, seen(row.data));
  }

  lemma UpdateKeepsMarks<K, D, A>(
    stored: seq<Row<K, D>>, latest: map<K, A>, rows: seq<Row<K, D>>, matched: set<Option<RowId>>,
    i: nat, row: Row<K, D>, shown: A)
    requires Stored(stored) && Aligned(stored, latest, rows) && Marked(stored, latest, rows, matched)
    requires i < |rows| && IsFirst(rows, i) && row.id == rows[i].id && row.key == rows[i].key
    requires forall j :: IsFirst(rows[i := row], j) <==> IsFirst(rows, j)
    requires forall j :: IsFirst(rows, j) && rows[j].key == row.key ==> j == i
    ensures Marked(stored, latest[row.key := shown], rows[i := row], matched + {row.id})
  {
    forall j | 0 <= j < |stored|
      ensures stored[j].id in matched + {row.id} <==>
              IsFirst(rows[i := row], j) && rows[i := row][j].key in latest[row.key := shown]
    {
      assert stored[j].id == row.id <==> j == i;
    }
  }

  lemma FirstIsUnique<K, D>(rows: seq<Row<K, D>>, i: int, j: int)
    requires IsFirst(rows, i) && IsFirst(rows, j) && rows[i].key == rows[j].key
    ensures i == j
  {
  }

  lemma SameKeysSameFirsts<K, D>(rows: seq<Row<K, D>>, after: seq<Row<K, D>>)
    requires |rows| == |after| && forall j :: 0 <= j < |rows| ==> after[j].key == rows[j].key
    ensures forall j :: IsFirst(after, j) <==> IsFirst(rows, j)
    ensures forall k :: HasKey(after, k) <==> HasKey(rows, k)
  {
    forall k ensures HasKey(after, k) <==> HasKey(rows, k) {
      if j :| 0 <= j < |rows| && rows[j].key == k {
        assert after[j].key == k;
      }
      if j :| 0 <= j < |after| && after[j].key == k {
        assert rows[j].key == k;
      }
    }
  }

  lemma AppendKeepsMatched<K, D, A>(
    stored: seq<Row<K, D>>, latest: map<K, A>, rows: seq<Row<K, D>>, matched: set<Option<RowId>>,
    row: Row<K, D>, seen: D -> A)
    requires Matched(stored, latest, rows, matched, seen)
    requires !HasKey(rows, row.key) && row.id == None
    ensures Matched(stored, latest[row.key := seen(row.data)], rows + [row], matched, seen)
  {
    var after := rows + [row];
    assert forall j :: 0 <= j < |rows| ==> after[j] == rows[j];
    assert forall j :: 0 <= j < |rows| ==> (IsFirst(after, j) <==> IsFirst(rows, j));
    assert after[|rows|].key == row.key;
    forall k | k in latest[row.key := seen(row.data)] ensures HasKey(after, k) {
      if k != row.key {
        var j :| 0 <= j < |rows| && rows[j].key == k;
        assert after[j].key == k;
      }
    }
  }

  // ================================================================ pruning

  /** What the merge promises: one row per incoming key, showing the last item of that key; the first stored
      row of a surviving key is that row, and every other row is new. */
  ghost predicate Reconciled<K(!new), D(!new), A(!new)>(
    stored: seq<Row<K, D>>, latest: map<K, A>, rows: seq<Row<K, D>>, seen: D -> A)
  {
    && DistinctKeys(rows)
    && Shown(rows, seen) == multiset(Pairs(latest))
    && (forall i, r :: IsFirst(stored, i) && r in rows && r.key == stored[i].key ==> r.id == stored[i].id)
    && (forall r :: r in rows && r.id.Some? ==> HasKey(stored, r.key))
    && (forall i, j :: 0 <= i < j < |rows| && rows[i].id.Some? ==> rows[i].id != rows[j].id)
  }

  /** The rows that outlive pruning: those matched, and those appended by this very merge. */
  function Survives<K, D>(matched: set<Option<RowId>>): Row<K, D> -> bool {
    (r: Row<K, D>) => r.id in matched || r.id == None
  }

  method Reconcile<K(==, !new), D(!new), P(!new), A(!new)>(
    stored: seq<Row<K, D>>, items: seq<Item<K, P>>, merge: (D, P) -> D, create: P -> D,
    ghost seen: D -> A, ghost offered: P -> A)
    returns (rows: seq<Row<K, D>>)
    requires Stored(stored) && ShowsPayload(merge, create, seen, offered)
    ensures Reconciled(stored, Latest(items, offered), rows, seen)
  {
    var all, matched := MatchAll(stored, items, merge, create, seen, offered);
    rows := [];
    for i := 0 to |all|
      invariant rows == Filter(all[..i], Survives(matched))
    {
      assert all[..i + 1][..i] == all[..i];
      if all[i].id in matched || all[i].id == None {
        rows := rows + [all[i]];
      }
    }
    assert all[..|all|] == all;
    PrunedIsReconciled(stored, Latest(items, offered), all, matched, seen);
  }

  lemma PrunedIsReconciled<K(!new), D(!new), A(!new)>(
    stored: seq<Row<K, D>>, latest: map<K, A>, all: seq<Row<K, D>>, matched: set<Option<RowId>>, seen: D -> A)
    requires Stored(stored) && Matched(stored, latest, all, matched, seen)
    ensures Reconciled(stored, latest, Filter(all, Survives(matched)), seen)
  {
    var rows := Filter(all, Survives(matched));
    FilterMembers(all, Survives(matched));
    forall j | 0 <= j < |all| ensures Survives(matched)(all[j]) <==> IsFirst(all, j) && all[j].key in latest {
      if j < |stored| {
        assert all[j].id == stored[j].id;
      }
    }
    FilteredDistinct(all, Survives(matched));
    forall k | k in latest ensures HasKey(rows, k) {
      var j := FirstOf(all, k);
      assert all[j] in rows;
    }
    forall r | r in rows ensures ComesFromFirst(all, latest, seen, r) {
      var j :| 0 <= j < |all| && all[j] == r;
      assert IsFirst(all, j);
    }
    SurvivorsShow(all, latest, rows, seen);
    SurvivorsKeepIds(stored, all, latest, rows, seen);
    DistinctIds(stored, all, rows);
  }

  /** The row is the first of its key, the key is wanted, and it shows what is wanted under it. */
  ghost predicate ComesFromFirst<K, D, A>(all: seq<Row<K, D>>, latest: map<K, A>, seen: D -> A, r: Row<K, D>) {
    && r.key in latest && seen(r.data) == latest[r.key]
    && exists j :: IsFirst(all, j) && all[j] == r
  }

  lemma SurvivorsShow<K(!new), D(!new), A(!new)>(
    all: seq<Row<K, D>>, latest: map<K, A>, rows: seq<Row<K, D>>, seen: D -> A)
    requires DistinctKeys(rows) && forall k :: k in latest ==> HasKey(rows, k)
    requires forall r :: r in rows ==> ComesFromFirst(all, latest, seen, r)
    ensures Shown(rows, seen) == multiset(Pairs(latest))
  {
    forall r | r in rows ensures r.key in latest && seen(r.data) == latest[r.key] {
      assert ComesFromFirst(all, latest, seen, r);
    }
    ShownByMap(rows, latest, seen);
  }

  lemma SurvivorsKeepIds<K(!new), D(!new), A(!new)>(
    stored: seq<Row<K, D>>, all: seq<Row<K, D>>, latest: map<K, A>, rows: seq<Row<K, D>>, seen: D -> A)
    requires |stored| <= |all|
    requires forall i :: 0 <= i < |stored| ==> all[i].id == stored[i].id && all[i].key == stored[i].key
    requires forall i :: |stored| <= i < |all| ==> all[i].id == None
    requires forall r :: r in rows ==> ComesFromFirst(all, latest, seen, r)
    ensures forall i, r :: IsFirst(stored, i) && r in rows && r.key == stored[i].key ==> r.id == stored[i].id
    ensures forall r :: r in rows && r.id.Some? ==> HasKey(stored, r.key)
  {
    forall r | r in rows && r.id.Some? ensures HasKey(stored, r.key) {
      assert ComesFromFirst(all, latest, seen, r);
      var j :| IsFirst(all, j) && all[j] == r;
      assert stored[j].key == r.key;
    }
    forall i, r | IsFirst(stored, i) && r in rows && r.key == stored[i].key ensures r.id == stored[i].id {
      assert ComesFromFirst(all, latest, seen, r);
      var j :| IsFirst(all, j) && all[j] == r;
      assert IsFirst(all, i);
    }
  }

  lemma FirstOf<K, D>(rows: seq<Row<K, D>>, key: K) returns (i: int)
    requires HasKey(rows, key)
    ensures IsFirst(rows, i) && rows[i].key == key
  {
    i := 0;
    while rows[i].key != key
      invariant 0 <= i < |rows| && forall j :: 0 <= j < i ==> rows[j].key != key
      decreases |rows| - i
    {
      i := i + 1;
    }
  }

  lemma {:induction false} FilteredDistinct<K(!new), D(!new)>(all: seq<Row<K, D>>, p: Row<K, D> -> bool)
    requires forall j :: 0 <= j < |all| && p(all[j]) ==> IsFirst(all, j)
    ensures DistinctKeys(Filter(all, p))
  {
    if all != [] {
      var n := |all| - 1;
      forall j | 0 <= j < n && p(all[..n][j]) ensures IsFirst(all[..n], j) {
        assert IsFirst(all, j);
      }
      FilteredDistinct(all[..n], p);
      var front := Filter(all[..n], p);
      FilterMembers(all[..n], p);
      if p(all[n]) {
        forall i | 0 <= i < |front| ensures front[i].key != all[n].key {
          assert front[i] in front;
          assert IsFirst(all, n);
        }
      }
    }
  }

  /** Rows with distinct keys that agree with a map, key by key, show exactly that map. */
  lemma ShownByMap<K(!new), D(!new), A(!new)>(rows: seq<Row<K, D>>, latest: map<K, A>, seen: D -> A)
    requires DistinctKeys(rows)
    requires forall r :: r in rows ==> r.key in latest && seen(r.data) == latest[r.key]
    requires forall k :: k in latest ==> HasKey(rows, k)
    ensures Shown(rows, seen) == multiset(Pairs(latest))
  {
    var pairs: seq<(K, A)> := Map(rows, ShowRow(seen));
    forall i, j | 0 <= i < j < |pairs| ensures pairs[i] != pairs[j] {
      assert pairs[i].0 == rows[i].key && pairs[j].0 == rows[j].key;
    }
    forall x | x in Pairs(latest) ensures x in pairs {
      assert HasKey(rows, x.0);
      var i :| 0 <= i < |rows| && rows[i].key == x.0;
      assert rows[i] in rows;
      assert pairs[i] == x;
    }
    forall x | x in pairs ensures x in Pairs(latest) {
      var i :| 0 <= i < |pairs| && pairs[i] == x;
      assert rows[i] in rows;
    }
    ShownAsMap(rows, seen);
    forall x ensures multiset(pairs)[x] == multiset(Pairs(latest))[x] {
      NoDupMultiplicity(pairs, x);
    }
  }

  lemma DistinctIds<K(!new), D(!new)>(stored: seq<Row<K, D>>, all: seq<Row<K, D>>, rows: seq<Row<K, D>>)
    requires Stored(stored) && DistinctKeys(rows) && |stored| <= |all|
    requires forall i :: 0 <= i < |stored| ==> all[i].id == stored[i].id && all[i].key == stored[i].key
    requires forall i :: |stored| <= i < |all| ==> all[i].id == None
    requires forall r :: r in rows ==> r in all
    ensures forall i, j :: 0 <= i < j < |rows| && rows[i].id.Some? ==> rows[i].id != rows[j].id
  {
    forall i, j | 0 <= i < j < |rows| && rows[i].id.Some? ensures rows[i].id != rows[j].id {
      assert rows[i] in rows && rows[j] in rows;
      var a :| 0 <= a < |all| && all[a] == rows[i];
      var b :| 0 <= b < |all| && all[b] == rows[j];
      assert a != b;
    }
  }

  // ================================================================ creation

  lemma {:induction false} LatestKeys<K(!new), P(!new), A(!new)>(items: seq<Item<K, P>>, offered: P -> A)
    ensures forall k :: k in Latest(items, offered) <==> k in Map(items, KeyOf)
  {
    if items != [] {
      LatestKeys(items[..|items| - 1], offered);
    }
  }

  /** The item is the last one of its key. */
  predicate IsLast<K(==), P>(items: seq<Item<K, P>>, i: int) {
    0 <= i < |items| && forall j :: i < j < |items| ==> items[j].key != items[i].key
  }

  lemma PairsIff<K, A>(m: map<K, A>, k: K, a: A)
    ensures (k, a) in Pairs(m) <==> k in m && m[k] == a
  {
  }

  /** Under every key, what the last item of that key offers. */
  lemma {:induction false} LatestIff<K(!new), P(!new), A(!new)>(items: seq<Item<K, P>>, offered: P -> A, k: K, a: A)
    ensures (k, a) in Pairs(Latest(items, offered)) <==>
            exists i :: IsLast(items, i) && items[i].key == k && offered(items[i].payload) == a
  {
    if items != [] {
      var n := |items| - 1;
      LatestIff(items[..n], offered, k, a);
      PairsIff(Latest(items, offered), k, a);
      PairsIff(Latest(items[..n], offered), k, a);
      if items[n].key == k {
        assert IsLast(items, n);
        forall i | IsLast(items, i) && items[i].key == k ensures i == n {
        }
      } else {
        LastBelow(items, k);
        if i :| IsLast(items[..n], i) && items[..n][i].key == k && offered(items[..n][i].payload) == a {
          assert IsLast(items, i) && items[i].key == k;
        }
        if i :| IsLast(items, i) && items[i].key == k && offered(items[i].payload) == a {
          assert IsLast(items[..n], i) && items[..n][i] == items[i];
        }
      }
    }
  }

  lemma {:induction false} LastBelow<K(!new), P(!new)>(items: seq<Item<K, P>>, k: K)
    requires items != [] && items[|items| - 1].key != k
    ensures forall i :: 0 <= i < |items| - 1 && items[i].key == k ==>
              (IsLast(items, i) <==> IsLast(items[..|items| - 1], i))
    ensures forall i :: IsLast(items, i) && items[i].key == k ==> i < |items| - 1
  {
  }

  lemma {:induction false} OfferedIff<K(!new), P(!new), A(!new)>(items: seq<Item<K, P>>, offered: P -> A, k: K, a: A)
    ensures (k, a) in Offered(items, offered) <==>
            exists i :: 0 <= i < |items| && items[i].key == k && offered(items[i].payload) == a
  {
    if items != [] {
      var n := |items| - 1;
      OfferedIff(items[..n], offered, k, a);
      assert forall i :: 0 <= i < n ==> items[..n][i] == items[i];
      assert (k, a) in Offered(items, offered) <==>
             (k, a) in Offered(items[..n], offered) || (items[n].key == k && offered(items[n].payload) == a);
    }
  }

  /** Creating one row per incoming item shows what reconciling would show exactly when no key repeats. */
  lemma {:induction false} OfferedIsLatestIff<K(!new), P(!new), A(!new)>(items: seq<Item<K, P>>, offered: P -> A)
    ensures Offered(items, offered) == multiset(Pairs(Latest(items, offered))) <==> NoDup(Map(items, KeyOf))
  {
    LatestKeys(items, offered);
    if NoDup(Map(items, KeyOf)) {
      OfferedIsLatest(items, offered);
    } else {
      var keys, latest := Map(items, KeyOf), Latest(items, offered);
      assert latest.Keys == ToSet(keys);
      FewerKeys(keys);
      PairsCount(latest);
      OfferedSize(items, offered);
      assert |multiset(Pairs(latest))| == |Pairs(latest)|;
    }
  }

  lemma {:induction false} OfferedSize<K, P, A>(items: seq<Item<K, P>>, offered: P -> A)
    ensures |Offered(items, offered)| == |items|
  {
    if items != [] {
      OfferedSize(items[..|items| - 1], offered);
    }
  }

  lemma {:induction false} OfferedIsLatest<K(!new), P(!new), A(!new)>(items: seq<Item<K, P>>, offered: P -> A)
    requires NoDup(Map(items, KeyOf))
    ensures Offered(items, offered) == multiset(Pairs(Latest(items, offered)))
  {
    if items != [] {
      var n := |items| - 1;
      MapPrefix(items, n, KeyOf);
      assert NoDup(Map(items[..n], KeyOf));
      OfferedIsLatest(items[..n], offered);
      LatestKeys(items[..n], offered);
      var before, k, a := Latest(items[..n], offered), items[n].key, offered(items[n].payload);
      assert k !in before by {
        assert Map(items, KeyOf)[n] == k;
      }
      PairsGrow(before, k, a);
    }
  }

  lemma {:induction false} FewerKeys<T(!new)>(s: seq<T>)
    ensures |ToSet(s)| <= |s|
    ensures !NoDup(s) ==> |ToSet(s)| < |s|
  {
    if s != [] {
      var n := |s| - 1;
      FewerKeys(s[..n]);
      assert ToSet(s) == ToSet(s[..n]) + {s[n]};
      if s[n] !in s[..n] && NoDup(s[..n]) {
        assert forall i, j :: 0 <= i < j < |s| ==> s[i] != s[j] by {
          assert forall i :: 0 <= i < n ==> s[..n][i] == s[i];
        }
      }
    }
  }

  lemma PairsGrow<K(!new), A(!new)>(m: map<K, A>, k: K, a: A)
    requires k !in m
    ensures Pairs(m[k := a]) == Pairs(m) + {(k, a)} && (k, a) !in Pairs(m)
  {
    var after := m[k := a];
    forall x | x in Pairs(m) + {(k, a)} ensures x in Pairs(after) {
      assert x.0 in after && after[x.0] == x.1;
    }
  }

  lemma {:induction false} PairsCount<K(!new), A(!new)>(m: map<K, A>)
    ensures |Pairs(m)| == |m.Keys|
    decreases |m|
  {
    if m != map[] {
      var k :| k in m;
      var rest := map x | x in m && x != k :: m[x];
      assert rest.Keys == m.Keys - {k};
      PairsCount(rest);
      assert m == rest[k := m[k]];
      PairsGrow(rest, k, m[k]);
    }
  }
}
