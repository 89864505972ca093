/** Building the candidate pool of a run (server/src/core/services/candidate_acquisition_service.py): the local
    matches first, topped up from external sourcing when there are too few. */
module Acquisition {
  import opened Common

  datatype Summary = Summary(candidateId: CandidateId, profileText: string)

  function IdOf(s: Summary): CandidateId {
    s.candidateId
  }

  function Ids(s: seq<Summary>): seq<CandidateId> {
    Map(s, IdOf)
  }

  function Unseen(ids: seq<CandidateId>): Summary -> bool {
    (s: Summary) => s.candidateId !in ids
  }

  /** The summaries whose candidate is not among those before them. */
  function Deduplicated(s: seq<Summary>): seq<Summary> {
    if s == [] then []
    else
      var front := Deduplicated(s[..|s| - 1]);
      if s[|s| - 1].candidateId in Ids(front) then front else front + [s[|s| - 1]]
  }

  lemma DeduplicatedSnoc(s: seq<Summary>, x: Summary)
    ensures Deduplicated(s + [x]) ==
            Deduplicated(s) + if x.candidateId in Ids(Deduplicated(s)) then [] else [x]
  {
    assert (s + [x])[..|s|] == s;
  }

  lemma {:induction false} DeduplicatedIds(s: seq<Summary>)
    ensures NoDup(Ids(Deduplicated(s)))
    ensures forall c :: c in Ids(Deduplicated(s)) <==> c in Ids(s)
    ensures forall x :: x in Deduplicated(s) ==> x in s
  {
    if s != [] {
      var n := |s| - 1;
      DeduplicatedIds(s[..n]);
      assert s == s[..n] + [s[n]];
      MapSnoc(s[..n], s[n], IdOf);
      MapSnoc(Deduplicated(s[..n]), s[n], IdOf);
    }
  }

  /** Merging keeps every local match, as it is and in its place, and appends the sourced candidates that are not
      local, each once. */
  lemma LocalMatchesComeFirst(local: seq<Summary>, sourced: seq<Summary>)
    requires NoDup(Ids(local))
    ensures Deduplicated(local + sourced) == local + Filter(Deduplicated(sourced), Unseen(Ids(local)))
  {
    MergePrefix(local, sourced, |sourced|);
    assert sourced[..|sourced|] == sourced;
  }

  lemma {:induction false} MergePrefix(local: seq<Summary>, sourced: seq<Summary>, n: nat)
    requires NoDup(Ids(local)) && n <= |sourced|
    ensures Deduplicated(local + sourced[..n]) == local + Filter(Deduplicated(sourced[..n]), Unseen(Ids(local)))
  {
    if n == 0 {
      AlreadyDistinct(local);
      assert local + sourced[..n] == local;
    } else {
      MergePrefix(local, sourced, n - 1);
      MergeOneMore(local, sourced[..n - 1], sourced[n - 1], Unseen(Ids(local)));
      PrefixGrows(local, sourced, n - 1);
    }
  }

  lemma PrefixGrows<T>(s: seq<T>, t: seq<T>, n: nat)
    requires n < |t|
    ensures (s + t[..n]) + [t[n]] == s + t[..n + 1]
    ensures t[..n] + [t[n]] == t[..n + 1]
  {
  }

  lemma MergeOneMore(local: seq<Summary>, front: seq<Summary>, x: Summary, unseen: Summary -> bool)
    requires unseen == Unseen(Ids(local))
    requires Deduplicated(local + front) == local + Filter(Deduplicated(front), unseen)
    ensures Deduplicated((local + front) + [x]) == local + Filter(Deduplicated(front + [x]), unseen)
  {
    DeduplicatedSnoc(local + front, x);
    DeduplicatedSnoc(front, x);
    FilterSnoc(Deduplicated(front), x, unseen);
    SeenIffMerged(local, Deduplicated(front), x);
    Reassociate(local, Filter(Deduplicated(front), unseen), x);
  }

  lemma Reassociate<T>(s: seq<T>, t: seq<T>, x: T)
    ensures (s + t) + [x] == s + (t + [x])
  {
  }

  lemma {:induction false} AlreadyDistinct(s: seq<Summary>)
    requires NoDup(Ids(s))
    ensures Deduplicated(s) == s
  {
    if s != [] {
      var n := |s| - 1;
      assert s == s[..n] + [s[n]];
      MapSnoc(s[..n], s[n], IdOf);
      assert Ids(s)[n] == s[n].candidateId;
      AlreadyDistinct(s[..n]);
    }
  }

  lemma SeenIffMerged(local: seq<Summary>, before: seq<Summary>, x: Summary)
    ensures x.candidateId in Ids(local + Filter(before, Unseen(Ids(local)))) <==>
            x.candidateId in Ids(local) || x.candidateId in Ids(before)
  {
    var p := Unseen(Ids(local));
    MapConcat(local, Filter(before, p), IdOf);
    FilterMembers(before, p);
    if x.candidateId in Ids(before) && x.candidateId !in Ids(local) {
      var i :| 0 <= i < |before| && Ids(before)[i] == x.candidateId;
      assert before[i] in before && before[i] in Filter(before, p);
      var j :| 0 <= j < |Filter(before, p)| && Filter(before, p)[j] == before[i];
      assert Ids(Filter(before, p))[j] == x.candidateId;
    }
    if x.candidateId in Ids(Filter(before, p)) {
      var j :| 0 <= j < |Filter(before, p)| && Ids(Filter(before, p))[j] == x.candidateId;
      assert Filter(before, p)[j] in before;
      var i :| 0 <= i < |before| && before[i] == Filter(before, p)[j];
      assert Ids(before)[i] == x.candidateId;
    }
  }

  method Deduplicate(merged: seq<Summary>) returns (pool: seq<Summary>)
    ensures pool == Deduplicated(merged)
  {
    var seen: set<CandidateId> := {};
    pool := [];
    for i := 0 to |merged|
      invariant pool == Deduplicated(merged[..i])
      invariant forall c :: c in seen <==> c in Ids(pool)
    {
      assert merged[..i + 1][..i] == merged[..i];
      MapSnoc(pool, merged[i], IdOf);
      if merged[i].candidateId !in seen {
        seen := seen + {merged[i].candidateId};
        pool := pool + [merged[i]];
      }
    }
    assert merged[..|merged|] == merged;
  }

  /** `sourced` is what external sourcing returns if asked; a failure counts as an empty answer. A run's pool
      holds no candidate twice, every local match is in it, and sourcing only adds when it was needed. */
  method AcquireCandidates(local: seq<Summary>, required: nat, sourced: Option<seq<Summary>>)
    returns (pool: seq<Summary>, sourcingSkipped: bool)
    requires NoDup(Ids(local))
    ensures NoDup(Ids(pool))
    ensures sourcingSkipped <==> |local| >= required
    ensures sourcingSkipped || sourced.None? ==> pool == local
    ensures !sourcingSkipped && sourced.Some? ==>
              pool == local + Filter(Deduplicated(sourced.value), Unseen(Ids(local)))
  {
    sourcingSkipped := |local| >= required;
    if sourcingSkipped {
      return local, true;
    }
    var found := match sourced case None => [] case Some(s) => s;
    pool := Deduplicate(local + found);
    DeduplicatedIds(local + found);
    LocalMatchesComeFirst(local, found);
  }
}
