/** Bringing the local profiles of the selected candidates up to date before deep scoring
    (server/src/core/services/candidate_synchronization_service.py). */
module Synchronization {
  import opened Common
  import opened Profile
  import opened Pipeline

  /** A stored candidate: what it shows and when it was last refreshed. */
  datatype LocalRow = LocalRow(profile: CandidateProfile, updatedAt: int)

  type Table = map<CandidateId, LocalRow>

  datatype Answer = FetchFailed | Fetched(details: seq<Details>)

  datatype Freshness = Missing | Stale | Fresh

  function FreshnessOf(local: Table, c: CandidateId, now: int, refreshAfter: int): Freshness {
    if c !in local then Missing
    else if now - local[c].updatedAt > refreshAfter then Stale
    else Fresh
  }

  ghost function UpsertRow(local: Table, d: Details, now: int): Table {
    local[d.id := if d.id in local then LocalRow(Replaced(local[d.id].profile, d), now)
                  else LocalRow(Created(d), d.updatedAt)]
  }

  function DetailsId(d: Details): CandidateId {
    d.id
  }

  /** The table after the first n fetched profiles were upserted, those the database refused left out. */
  ghost function Applied(local: Table, details: seq<Details>, accepts: nat -> bool, n: nat, now: int): Table
    requires n <= |details|
  {
    if n == 0 then local
    else
      var before := Applied(local, details, accepts, n - 1, now);
      if accepts(n - 1) then UpsertRow(before, details[n - 1], now) else before
  }

  /** Whether the last fetched profile of c, among the first n, was stored. */
  ghost function LastVerdict(details: seq<Details>, accepts: nat -> bool, n: nat, c: CandidateId): Option<bool>
    requires n <= |details|
  {
    if n == 0 then None
    else if details[n - 1].id == c then Some(accepts(n - 1))
    else LastVerdict(details, accepts, n - 1, c)
  }

  lemma {:induction false} AppliedRows(
    local: Table, details: seq<Details>, accepts: nat -> bool, n: nat, now: int, c: CandidateId)
    requires n <= |details|
    ensures c in local ==> c in Applied(local, details, accepts, n, now)
    ensures LastVerdict(details, accepts, n, c) == Some(true) ==> c in Applied(local, details, accepts, n, now)
    ensures LastVerdict(details, accepts, n, c) == None ==>
              (c in Applied(local, details, accepts, n, now) <==> c in local)
              && (c in local ==> Applied(local, details, accepts, n, now)[c] == local[c])
  {
    if n > 0 {
      AppliedRows(local, details, accepts, n - 1, now, c);
    }
  }

  /** As long as no profile of a candidate is accepted, its row stays as it was. */
  lemma {:induction false} RefusedLeavesRow(
    local: Table, details: seq<Details>, accepts: nat -> bool, i: nat, n: nat, now: int, c: CandidateId)
    requires i <= n <= |details| && forall k :: i <= k < n && details[k].id == c ==> !accepts(k)
    ensures c in Applied(local, details, accepts, n, now) <==> c in Applied(local, details, accepts, i, now)
    ensures c in Applied(local, details, accepts, i, now) ==>
              Applied(local, details, accepts, n, now)[c] == Applied(local, details, accepts, i, now)[c]
  {
    if i < n {
      RefusedLeavesRow(local, details, accepts, i, n - 1, now, c);
    }
  }

  /** The last accepted profile of a candidate is upserted onto the row found, and the result stays. */
  lemma {:induction false} AcceptedReplacesRow(
    local: Table, details: seq<Details>, accepts: nat -> bool, i: nat, n: nat, now: int)
    requires i < n <= |details| && accepts(i)
    requires forall k :: i < k < n && details[k].id == details[i].id ==> !accepts(k)
    ensures var c, before := details[i].id, Applied(local, details, accepts, i, now);
      c in Applied(local, details, accepts, n, now)
      && Applied(local, details, accepts, n, now)[c] == UpsertRow(before, details[i], now)[c]
  {
    RefusedLeavesRow(local, details, accepts, i + 1, n, now, details[i].id);
  }

  /** The reply the service acts on: it asks nobody when every selected row is fresh. */
  ghost function Reply(local: Table, selected: seq<CandidateId>, answer: Answer, now: int, refreshAfter: int): Answer {
    if AllFresh(local, selected, now, refreshAfter) then Fetched([]) else answer
  }

  ghost predicate AllFresh(local: Table, selected: seq<CandidateId>, now: int, refreshAfter: int) {
    forall c :: c in selected ==> FreshnessOf(local, c, now, refreshAfter) == Fresh
  }

  function Delivered(reply: Answer): seq<Details> {
    if reply.Fetched? then reply.details else []
  }

  /** The result reported for c: fresh rows succeed without a refresh, everybody else needs a stored profile. */
  ghost function ItemFor(
    local: Table, reply: Answer, accepts: nat -> bool, c: CandidateId, now: int, refreshAfter: int): SyncItem
  {
    match LastVerdict(Delivered(reply), accepts, |Delivered(reply)|, c)
    case Some(stored) => StoreItem(stored)
    case None => if FreshnessOf(local, c, now, refreshAfter) == Fresh then SyncItem(true, None) else Undelivered(reply)
  }

  function Undelivered(reply: Answer): SyncItem {
    SyncItem(false, Some(if reply == FetchFailed then "SOURCING_CLIENT_ERROR" else "CANDIDATE_OMITTED_IN_RESPONSE"))
  }

  ghost predicate RowShows(row: Candidate, c: CandidateId, shown: LocalRow)
    reads row
  {
    row.id == c && row.Valid() && row.View() == shown.profile && row.updatedAt == shown.updatedAt
  }

  class CandidateSynchronizationService {
    var rows: map<CandidateId, Candidate>

    /** The candidate table shows exactly what `table` says. */
    ghost predicate Shows(table: Table)
      reads this, rows.Values
    {
      && rows.Keys == table.Keys
      && forall c :: c in rows ==> RowShows(rows[c], c, table[c])
    }

    constructor (rows: map<CandidateId, Candidate>)
      ensures this.rows == rows
    {
      this.rows := rows;
    }

    method Partition(selected: seq<CandidateId>, now: int, refreshAfter: int, ghost table: Table)
      returns (missing: seq<CandidateId>, stale: seq<CandidateId>, results: map<CandidateId, SyncItem>)
      requires Shows(table)
      ensures forall c :: c in missing <==> c in selected && FreshnessOf(table, c, now, refreshAfter) == Missing
      ensures forall c :: c in stale <==> c in selected && FreshnessOf(table, c, now, refreshAfter) == Stale
      ensures forall c :: c in results <==> c in selected && FreshnessOf(table, c, now, refreshAfter) == Fresh
      ensures forall c :: c in missing <==> c in selected && c !in table
      ensures forall c :: c in stale <==> c in selected && c in table && now - table[c].updatedAt > refreshAfter
      ensures forall c :: c in results <==> c in selected && c in table && now - table[c].updatedAt <= refreshAfter
      ensures results.Keys + ToSet(missing + stale) == ToSet(selected)
      ensures missing + stale == [] <==> AllFresh(table, selected, now, refreshAfter)
      ensures forall c :: c in results ==> results[c] == SyncItem(true, None)
    {
      missing, stale, results := [], [], map[];
      for i := 0 to |selected|
        invariant forall c :: c in missing <==> c in selected[..i] && FreshnessOf(table, c, now, refreshAfter) == Missing
        invariant forall c :: c in stale <==> c in selected[..i] && FreshnessOf(table, c, now, refreshAfter) == Stale
        invariant forall c :: c in results <==> c in selected[..i] && FreshnessOf(table, c, now, refreshAfter) == Fresh
        invariant forall c :: c in results ==> results[c] == SyncItem(true, None)
      {
        var c := selected[i];
        assert selected[..i + 1] == selected[..i] + [c];
        if c !in rows {
          missing := missing + [c];
        } else if now - rows[c].updatedAt > refreshAfter {
          stale := stale + [c];
        } else {
          results := results[c := SyncItem(true, None)];
        }
      }
      assert selected[..|selected|] == selected;
      PartitionCovers(table, selected, missing, stale, results.Keys, now, refreshAfter);
    }

    /** `answer` is what the sourcing service replies if asked; `accepts(i)` whether the database takes the
        i-th profile of the reply. */
    method Synchronize(selected: seq<CandidateId>, now: int, refreshAfter: int, answer: Answer, accepts: nat -> bool,
                       ghost table: Table)
      returns (results: map<CandidateId, SyncItem>, ghost reply: Answer)
      requires Shows(table)
      modifies this, rows.Values
      ensures reply == Reply(table, selected, answer, now, refreshAfter)
      ensures Shows(Applied(table, Delivered(reply), accepts, |Delivered(reply)|, now))
      ensures results.Keys == ToSet(selected) + ToSet(Map(Delivered(reply), DetailsId))
      ensures forall c :: c in results ==> results[c] == ItemFor(table, reply, accepts, c, now, refreshAfter)
      ensures forall c :: c in results && results[c].success ==> c in rows
      ensures fresh(rows.Values - old(rows.Values))
    {
      reply := Fetched([]);
      results := map[];
      if selected == [] {
        assert ToSet(selected) == {} && ToSet(Map(Delivered(reply), DetailsId)) == {};
        return;
      }
      var missing, stale, freshResults := Partition(selected, now, refreshAfter, table);
      results := freshResults;
      var union := missing + stale;
      if union == [] {
        assert ToSet(union) == {} && ToSet(Map(Delivered(reply), DetailsId)) == {};
        return;
      }
      reply := answer;
      results := FetchAndStore(union, results, answer, accepts, now, table);
      GivenItems(table, union, freshResults, reply, accepts, now, refreshAfter);
      SuccessesAreStored(table, reply, accepts, now, refreshAfter);
    }

    method FetchAndStore(union: seq<CandidateId>, before: map<CandidateId, SyncItem>, answer: Answer,
                         accepts: nat -> bool, now: int, ghost table: Table)
      returns (results: map<CandidateId, SyncItem>)
      requires Shows(table)
      modifies this, rows.Values
      ensures Shows(Applied(table, Delivered(answer), accepts, |Delivered(answer)|, now))
      ensures results.Keys == before.Keys + ToSet(union) + ToSet(Map(Delivered(answer), DetailsId))
      ensures forall c :: c in results ==> ItemGiven(union, before, answer, accepts, c) == Some(results[c])
      ensures fresh(rows.Values - old(rows.Values))
    {
      match answer {
        case FetchFailed =>
          results := FailAll(union, "SOURCING_CLIENT_ERROR", before);
        case Fetched(fetched) =>
          var omitted := Filter(union, Without(Map(fetched, DetailsId)));
          FilterMembers(union, Without(Map(fetched, DetailsId)));
          results := FailAll(omitted, "CANDIDATE_OMITTED_IN_RESPONSE", before);
          results := StoreAll(fetched, accepts, now, results, table);
          VerdictsOfFetched(fetched, accepts);
      }
    }

    method FailAll(ids: seq<CandidateId>, code: string, before: map<CandidateId, SyncItem>)
      returns (results: map<CandidateId, SyncItem>)
      ensures results.Keys == before.Keys + ToSet(ids)
      ensures forall c :: c in results ==>
                results[c] == if c in ids then SyncItem(false, Some(code)) else before[c]
    {
      results := before;
      for i := 0 to |ids|
        invariant results.Keys == before.Keys + ToSet(ids[..i])
        invariant forall c :: c in results ==>
                    results[c] == if c in ids[..i] then SyncItem(false, Some(code)) else before[c]
      {
        assert ids[..i + 1] == ids[..i] + [ids[i]];
        results := results[ids[i] := SyncItem(false, Some(code))];
      }
      assert ids[..|ids|] == ids;
    }

    /** Persisting the fetched profiles one by one; a refused one is reported and the rest go on. */
    method StoreAll(fetched: seq<Details>, accepts: nat -> bool, now: int, before: map<CandidateId, SyncItem>,
                    ghost table: Table)
      returns (results: map<CandidateId, SyncItem>)
      requires Shows(table)
      modifies this, rows.Values
      ensures Shows(Applied(table, fetched, accepts, |fetched|, now))
      ensures results.Keys == before.Keys + ToSet(Map(fetched, DetailsId))
      ensures forall c :: c in results ==> ResultAfter(fetched, accepts, |fetched|, before, results, c)
      ensures fresh(rows.Values - old(rows.Values))
    {
      results := before;
      for i := 0 to |fetched|
        invariant Shows(Applied(table, fetched, accepts, i, now))
        invariant ResultsAfter(fetched, accepts, i, before, results)
        invariant fresh(rows.Values - old(rows.Values))
      {
        if accepts(i) {
          StoreOne(fetched[i], now, Applied(table, fetched, accepts, i, now));
        }
        ResultsGrow(fetched, accepts, i, before, results);
        results := results[fetched[i].id := StoreItem(accepts(i))];
      }
      assert fetched[..|fetched|] == fetched;
    }

    method StoreOne(d: Details, now: int, ghost table: Table)
      requires Shows(table)
      modifies this, rows.Values
      ensures Shows(UpsertRow(table, d, now))
      ensures fresh(rows.Values - old(rows.Values))
    {
      var c, after := UpsertRowOf(d, now, table);
      Put(d.id, c, after, table);
      ValuesAfterUpdate(old(rows), d.id, c);
    }

    method Put(id: CandidateId, c: Candidate, ghost after: Table, ghost table: Table)
      requires rows.Keys == table.Keys && id in after && after == table[id := after[id]] && RowShows(c, id, after[id])
      requires forall x :: x in rows && x != id ==> RowShows(rows[x], x, table[x])
      modifies this
      ensures rows == old(rows)[id := c] && Shows(after)
    {
      rows := rows[id := c];
    }

    /** The candidate's row, found and updated or made anew; the other rows are not touched. */
    method UpsertRowOf(d: Details, now: int, ghost table: Table) returns (c: Candidate, ghost after: Table)
      requires Shows(table)
      modifies rows.Values
      ensures after == UpsertRow(table, d, now) && d.id in after && after == table[d.id := after[d.id]]
      ensures RowShows(c, d.id, after[d.id])
      ensures forall x :: x in rows && x != d.id ==> RowShows(rows[x], x, table[x])
      ensures if d.id in rows then c == rows[d.id] else fresh(c)
    {
      var existing := if d.id in rows then rows[d.id] else null;
      assert existing != null ==> RowShows(existing, d.id, table[d.id]);
      forall x | x in rows && x != d.id ensures rows[x] != existing {
        assert RowShows(rows[x], x, table[x]);
      }
      c := Upsert(existing, d, now);
      after := UpsertRow(table, d, now);
      UpsertPutsOneRow(table, d, now);
    }
  }

  lemma ValuesAfterUpdate<K, V>(m: map<K, V>, k: K, v: V)
    ensures m[k := v].Values <= m.Values + {v}
  {
  }

  lemma {:induction false} UpsertPutsOneRow(local: Table, d: Details, now: int)
    ensures UpsertRow(local, d, now) == local[d.id := UpsertRow(local, d, now)[d.id]]
  {
  }

  /** The item of c when `union` was asked for and `before` was known already. */
  ghost function ItemGiven(
    union: seq<CandidateId>, before: map<CandidateId, SyncItem>, reply: Answer, accepts: nat -> bool, c: CandidateId):
    Option<SyncItem>
  {
    match LastVerdict(Delivered(reply), accepts, |Delivered(reply)|, c)
    case Some(stored) => Some(StoreItem(stored))
    case None =>
      if c in union then Some(Undelivered(reply)) else if c in before then Some(before[c]) else None
  }

  /** What the reply and the fresh rows give everybody is what is due to them. */
  lemma {:induction false} GivenItems(
    local: Table, union: seq<CandidateId>, before: map<CandidateId, SyncItem>, reply: Answer, accepts: nat -> bool,
    now: int, refreshAfter: int)
    requires forall c :: c in union ==> FreshnessOf(local, c, now, refreshAfter) != Fresh
    requires forall c :: c in before ==> FreshnessOf(local, c, now, refreshAfter) == Fresh && before[c] == SyncItem(true, None)
    ensures forall c :: ItemGiven(union, before, reply, accepts, c).Some? ==>
              ItemGiven(union, before, reply, accepts, c) == Some(ItemFor(local, reply, accepts, c, now, refreshAfter))
  {
  }

  function StoreItem(stored: bool): SyncItem {
    if stored then SyncItem(true, None) else SyncItem(false, Some("DB_PERSISTENCE_ERROR"))
  }

  function Without(ids: seq<CandidateId>): CandidateId -> bool {
    (c: CandidateId) => c !in ids
  }

  ghost predicate ResultAfter(
    fetched: seq<Details>, accepts: nat -> bool, n: nat, before: map<CandidateId, SyncItem>,
    results: map<CandidateId, SyncItem>, c: CandidateId)
    requires n <= |fetched| && c in results
  {
    match LastVerdict(fetched, accepts, n, c)
    case None => c in before && results[c] == before[c]
    case Some(stored) => results[c] == StoreItem(stored)
  }

  ghost predicate ResultsAfter(
    fetched: seq<Details>, accepts: nat -> bool, n: nat, before: map<CandidateId, SyncItem>,
    results: map<CandidateId, SyncItem>)
    requires n <= |fetched|
  {
    && results.Keys == before.Keys + ToSet(Map(fetched[..n], DetailsId))
    && forall c :: c in results ==> ResultAfter(fetched, accepts, n, before, results, c)
  }

  lemma ResultsGrow(
    fetched: seq<Details>, accepts: nat -> bool, n: nat, before: map<CandidateId, SyncItem>,
    results: map<CandidateId, SyncItem>)
    requires n < |fetched| && ResultsAfter(fetched, accepts, n, before, results)
    ensures ResultsAfter(fetched, accepts, n + 1, before, results[fetched[n].id := StoreItem(accepts(n))])
  {
    assert fetched[..n + 1] == fetched[..n] + [fetched[n]];
    MapSnoc(fetched[..n], fetched[n], DetailsId);
    var after := results[fetched[n].id := StoreItem(accepts(n))];
    forall c | c in after ensures ResultAfter(fetched, accepts, n + 1, before, after, c) {
      assert c != fetched[n].id ==> c in results && ResultAfter(fetched, accepts, n, before, results, c);
    }
  }

  lemma PartitionCovers(
    table: Table, selected: seq<CandidateId>, missing: seq<CandidateId>, stale: seq<CandidateId>,
    freshOnes: set<CandidateId>, now: int, refreshAfter: int)
    requires forall c :: c in missing <==> c in selected && FreshnessOf(table, c, now, refreshAfter) == Missing
    requires forall c :: c in stale <==> c in selected && FreshnessOf(table, c, now, refreshAfter) == Stale
    requires forall c :: c in freshOnes <==> c in selected && FreshnessOf(table, c, now, refreshAfter) == Fresh
    ensures freshOnes + ToSet(missing + stale) == ToSet(selected)
    ensures missing + stale == [] <==> AllFresh(table, selected, now, refreshAfter)
  {
    assert |missing + stale| == |missing| + |stale|;
    if missing != [] {
      assert missing[0] in missing && FreshnessOf(table, missing[0], now, refreshAfter) == Missing;
    } else if stale != [] {
      assert stale[0] in stale && FreshnessOf(table, stale[0], now, refreshAfter) == Stale;
    } else {
      forall c | c in selected ensures FreshnessOf(table, c, now, refreshAfter) == Fresh {
        var f := FreshnessOf(table, c, now, refreshAfter);
        assert f.Missing? || f.Stale? || f.Fresh?;
        assert c !in missing && c !in stale;
      }
    }
    forall c ensures c in selected <==> c in freshOnes || c in missing + stale {
      var f := FreshnessOf(table, c, now, refreshAfter);
      assert f.Missing? || f.Stale? || f.Fresh?;
      assert c in missing + stale <==> c in missing || c in stale;
    }
  }

  /** Exactly the ids of the answer have a verdict. */
  lemma VerdictsOfFetched(fetched: seq<Details>, accepts: nat -> bool)
    ensures forall c :: LastVerdict(fetched, accepts, |fetched|, c).Some? <==> c in Map(fetched, DetailsId)
  {
    forall c ensures LastVerdict(fetched, accepts, |fetched|, c).Some? <==> c in Map(fetched, DetailsId) {
      VerdictIff(fetched, accepts, |fetched|, c);
      assert fetched[..|fetched|] == fetched;
    }
  }

  lemma {:induction false} VerdictIff(fetched: seq<Details>, accepts: nat -> bool, n: nat, c: CandidateId)
    requires n <= |fetched|
    ensures LastVerdict(fetched, accepts, n, c).Some? <==> c in Map(fetched[..n], DetailsId)
  {
    if n > 0 {
      VerdictIff(fetched, accepts, n - 1, c);
      assert fetched[..n] == fetched[..n - 1] + [fetched[n - 1]];
      MapSnoc(fetched[..n - 1], fetched[n - 1], DetailsId);
    }
  }

  /** A reported success always has a local row: the premise under which a run's accounting balances. */
  lemma SuccessesAreStored(local: Table, reply: Answer, accepts: nat -> bool, now: int, refreshAfter: int)
    ensures forall c :: ItemFor(local, reply, accepts, c, now, refreshAfter).success ==>
              c in Applied(local, Delivered(reply), accepts, |Delivered(reply)|, now)
  {
    forall c | ItemFor(local, reply, accepts, c, now, refreshAfter).success
      ensures c in Applied(local, Delivered(reply), accepts, |Delivered(reply)|, now)
    {
      AppliedRows(local, Delivered(reply), accepts, |Delivered(reply)|, now, c);
    }
  }

  /** The sourcing service is asked exactly if some selected candidate has no row or one older than allowed. */
  lemma {:induction false} AskedIff(local: Table, selected: seq<CandidateId>, answer: Answer, now: int, refreshAfter: int)
    ensures AllFresh(local, selected, now, refreshAfter) <==>
            forall c :: c in selected ==> c in local && now - local[c].updatedAt <= refreshAfter
    ensures Reply(local, selected, answer, now, refreshAfter) ==
            if forall c :: c in selected ==> c in local && now - local[c].updatedAt <= refreshAfter then Fetched([])
            else answer
  {
    if forall c :: c in selected ==> c in local && now - local[c].updatedAt <= refreshAfter {
      assert AllFresh(local, selected, now, refreshAfter);
    } else {
      var c :| c in selected && !(c in local && now - local[c].updatedAt <= refreshAfter);
      assert FreshnessOf(local, c, now, refreshAfter) != Fresh;
    }
  }

  lemma {:induction false} LastVerdictIs(details: seq<Details>, accepts: nat -> bool, n: nat, i: nat)
    requires i < n <= |details| && forall k :: i < k < n ==> details[k].id != details[i].id
    ensures LastVerdict(details, accepts, n, details[i].id) == Some(accepts(i))
  {
    if i < n - 1 {
      LastVerdictIs(details, accepts, n - 1, i);
    }
  }

  /** The result of a candidate, in full: whether its last delivered profile was stored, or, if none was, whether its row
      is recent enough, and what went wrong otherwise. */
  lemma {:induction false} ResultInFull(
    local: Table, reply: Answer, accepts: nat -> bool, c: CandidateId, now: int, refreshAfter: int)
    ensures forall i :: 0 <= i < |Delivered(reply)| && Delivered(reply)[i].id == c
                        && (forall k :: i < k < |Delivered(reply)| ==> Delivered(reply)[k].id != c) ==>
              ItemFor(local, reply, accepts, c, now, refreshAfter) ==
              if accepts(i) then SyncItem(true, None) else SyncItem(false, Some("DB_PERSISTENCE_ERROR"))
    ensures (forall i :: 0 <= i < |Delivered(reply)| ==> Delivered(reply)[i].id != c) ==>
              ItemFor(local, reply, accepts, c, now, refreshAfter) ==
              if c in local && now - local[c].updatedAt <= refreshAfter then SyncItem(true, None)
              else if reply.FetchFailed? then SyncItem(false, Some("SOURCING_CLIENT_ERROR"))
              else SyncItem(false, Some("CANDIDATE_OMITTED_IN_RESPONSE"))
  {
    var details := Delivered(reply);
    forall i | 0 <= i < |details| && details[i].id == c && (forall k :: i < k < |details| ==> details[k].id != c)
      ensures LastVerdict(details, accepts, |details|, c) == Some(accepts(i))
    {
      LastVerdictIs(details, accepts, |details|, i);
    }
    if forall i :: 0 <= i < |details| ==> details[i].id != c {
      NotDelivered(details, accepts, |details|, c);
    }
  }

  lemma {:induction false} NotDelivered(details: seq<Details>, accepts: nat -> bool, n: nat, c: CandidateId)
    requires n <= |details| && forall i :: 0 <= i < n ==> details[i].id != c
    ensures LastVerdict(details, accepts, n, c) == None
  {
    if n > 0 {
      NotDelivered(details, accepts, n - 1, c);
    }
  }

  /** A stored profile makes a row anew, dated as delivered, or replaces the one there, dated now; other rows stay. */
  lemma {:induction false} UpsertedRow(local: Table, d: Details, now: int)
    ensures var after := UpsertRow(local, d, now);
      && after.Keys == local.Keys + {d.id}
      && (d.id in local ==> after[d.id].updatedAt == now && after[d.id].profile == Replaced(local[d.id].profile, d))
      && (d.id !in local ==> after[d.id].updatedAt == d.updatedAt && after[d.id].profile == Created(d))
      && (forall c :: c in local && c != d.id ==> after[c] == local[c])
  {
  }

  /** c has a row after the call, and not for having been brought up to date: it is stale and no profile came, or the
      last one that came was refused. */
  ghost predicate Unrefreshed(
    local: Table, reply: Answer, accepts: nat -> bool, c: CandidateId, now: int, refreshAfter: int)
  {
    c in Applied(local, Delivered(reply), accepts, |Delivered(reply)|, now) &&
    match LastVerdict(Delivered(reply), accepts, |Delivered(reply)|, c)
    case None => FreshnessOf(local, c, now, refreshAfter) == Stale
    case Some(stored) => !stored
  }

  /** Which failures still have a row, the ones an execution report trips over: exactly the unrefreshed candidates.
      Their row is the old one, unless an earlier profile of the same candidate was accepted. */
  lemma {:induction false} FailedButStoredIff(
    local: Table, reply: Answer, accepts: nat -> bool, now: int, refreshAfter: int, c: CandidateId)
    ensures var details := Delivered(reply);
      var after := Applied(local, details, accepts, |details|, now);
      var failed := !ItemFor(local, reply, accepts, c, now, refreshAfter).success;
      && (failed && c in after <==> Unrefreshed(local, reply, accepts, c, now, refreshAfter))
      && (c in local && (forall k :: 0 <= k < |details| && details[k].id == c ==> !accepts(k)) ==>
            c in after && after[c] == local[c])
  {
    var details := Delivered(reply);
    AppliedRows(local, details, accepts, |details|, now, c);
    if forall k :: 0 <= k < |details| && details[k].id == c ==> !accepts(k) {
      RefusedLeavesRow(local, details, accepts, 0, |details|, now, c);
    }
  }
}
