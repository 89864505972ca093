/** The accounting of a scoring run: which of the equations the service logs about itself hold, and
    exactly when. All results range over every pool, every answer and every failure pattern. */
module RunAccounting {
  import opened Common
  import opened CandidateState
  import opened Pipeline

  // ================================================================ selection

  lemma RankedFacts(sc: Scenario)
    ensures Descending(sc.Ranked(), HigherPrescore)
    ensures multiset(sc.Ranked()) == multiset(sc.answers)
    ensures forall p :: p in sc.Ranked() <==> p in sc.answers
  {
    SortIsDescending(sc.answers, HigherPrescore);
    SortMembers(sc.answers, HigherPrescore);
  }

  lemma {:induction false} DescendingFilterIsPrefix(s: seq<Prescore>, t: int)
    requires Descending(s, HigherPrescore)
    ensures Filter(s, AtLeast(t)) == s[..|Filter(s, AtLeast(t))|]
  {
    if s != [] {
      var n := |s| - 1;
      DescendingFilterIsPrefix(s[..n], t);
      if s[n].score >= t {
        forall i | 0 <= i < n ensures s[..n][i].score >= t {
          assert !HigherPrescore(s[n], s[i]);
        }
        AllPass(s[..n], t);
        assert s == s[..n] + [s[n]];
      }
    }
  }

  lemma {:induction false} AllPass(s: seq<Prescore>, t: int)
    requires forall i :: 0 <= i < |s| ==> s[i].score >= t
    ensures Filter(s, AtLeast(t)) == s
  {
    if s != [] {
      AllPass(s[..|s| - 1], t);
      assert s == s[..|s| - 1] + [s[|s| - 1]];
    }
  }

  /** The selected candidates are the best min(k, eligible) of the ranked answers: a prefix, so nobody who
      answered the threshold and was left out has a better prescore. */
  lemma SelectionIsPrefix(sc: Scenario)
    ensures |sc.Top()| == if |sc.Eligible()| <= sc.k then |sc.Eligible()| else sc.k
    ensures sc.Eligible() == sc.Ranked()[..|sc.Eligible()|]
    ensures sc.Top() == sc.Ranked()[..|sc.Top()|]
    ensures forall i :: 0 <= i < |sc.Ranked()| ==> (i < |sc.Eligible()| <==> sc.Ranked()[i].score >= sc.threshold)
    ensures forall i, j :: 0 <= i < |sc.Top()| <= j < |sc.Ranked()| ==> sc.Ranked()[j].score <= sc.Ranked()[i].score
  {
    RankedFacts(sc);
    EligiblePrefix(sc.Ranked(), sc.threshold);
    DescendingScores(sc.Ranked());
  }

  lemma DescendingScores(s: seq<Prescore>)
    requires Descending(s, HigherPrescore)
    ensures forall i, j :: 0 <= i < j < |s| ==> s[j].score <= s[i].score
  {
    forall i, j | 0 <= i < j < |s| ensures s[j].score <= s[i].score {
      assert !HigherPrescore(s[j], s[i]);
    }
  }

  lemma EligiblePrefix(s: seq<Prescore>, t: int)
    requires Descending(s, HigherPrescore)
    ensures var e := Filter(s, AtLeast(t));
      e == s[..|e|] && forall i :: 0 <= i < |s| ==> (i < |e| <==> s[i].score >= t)
  {
    var e := Filter(s, AtLeast(t));
    DescendingFilterIsPrefix(s, t);
    FilterMembers(s, AtLeast(t));
    forall i | 0 <= i < |s| ensures i < |e| <==> s[i].score >= t {
      if i < |e| {
        assert e[i] in e;
      } else if s[i].score >= t {
        AllButFirst(s, t, i);
      }
    }
  }

  /** If position i passes the filter, so does everything before it. */
  lemma AllButFirst(s: seq<Prescore>, t: int, i: nat)
    requires Descending(s, HigherPrescore) && i < |s| && s[i].score >= t
    ensures |Filter(s, AtLeast(t))| > i
  {
    var front := s[..i + 1];
    forall j | 0 <= j < |front| ensures front[j].score >= t {
      if j < i {
        assert !HigherPrescore(s[i], s[j]);
      }
    }
    AllPass(front, t);
    FilterGrows(s, t, i + 1);
  }

  lemma {:induction false} FilterGrows(s: seq<Prescore>, t: int, n: nat)
    requires n <= |s|
    ensures |Filter(s[..n], AtLeast(t))| <= |Filter(s, AtLeast(t))|
  {
    if n < |s| {
      FilterGrows(s[..|s| - 1], t, n);
      assert s[..|s| - 1][..n] == s[..n];
    } else {
      assert s[..n] == s;
    }
  }

  lemma IdsArePrefixes(sc: Scenario)
    ensures |sc.TopIds()| <= |sc.EligibleIds()| <= |sc.PrescoredIds()| && |sc.TopIds()| <= sc.k
    ensures sc.EligibleIds() == sc.PrescoredIds()[..|sc.EligibleIds()|]
    ensures sc.TopIds() == sc.PrescoredIds()[..|sc.TopIds()|]
  {
    SelectionIsPrefix(sc);
    MapPrefix(sc.Ranked(), |sc.Eligible()|, IdOf);
    MapPrefix(sc.Ranked(), |sc.Top()|, IdOf);
  }

  lemma IdsFacts(sc: Scenario)
    requires sc.Contracts()
    ensures NoDup(sc.PrescoredIds()) && NoDup(sc.TopIds())
    ensures forall c :: c in sc.PrescoredIds() <==> c in Map(sc.answers, IdOf)
    ensures forall c :: c in sc.PrescoredIds() ==> c in sc.acquired
    ensures forall c :: c in sc.EligibleIds() ==> c in sc.PrescoredIds()
    ensures forall c :: c in sc.TopIds() ==> c in sc.EligibleIds()
  {
    IdsArePrefixes(sc);
    RankedFacts(sc);
    SortMapped(sc.answers, HigherPrescore, IdOf);
    NoDupByMultiset(Map(sc.answers, IdOf), sc.PrescoredIds());
    SameMultisetSameMembers(Map(sc.answers, IdOf), sc.PrescoredIds());
    PrefixMembers(sc.PrescoredIds(), |sc.TopIds()|, |sc.EligibleIds()|);
  }

  lemma PrefixMembers<T(!new)>(s: seq<T>, m: nat, n: nat)
    requires m <= n <= |s|
    requires NoDup(s)
    ensures NoDup(s[..m])
    ensures forall x :: x in s[..m] ==> x in s[..n]
    ensures forall x :: x in s[..n] ==> x in s
  {
    forall x | x in s[..m] ensures x in s[..n] {
      var i :| 0 <= i < m && s[..m][i] == x;
      assert s[..n][i] == x;
    }
  }

  /** A selected candidate's recorded rank is its place among the ranked answers, hence at most k. */
  lemma {:induction false} SelectedRank(sc: Scenario, c: CandidateId)
    requires sc.Contracts() && c in sc.TopIds()
    ensures 1 <= sc.Rank(c, 1) <= |sc.TopIds()| <= sc.k
    ensures sc.TopIds()[sc.Rank(c, 1) - 1] == c
  {
    IdsFacts(sc);
    SelectionIsPrefix(sc);
    PrefixRank(sc.Ranked(), |sc.Top()|, c);
  }

  lemma {:induction false} PrefixRank(ranked: seq<Prescore>, n: nat, c: CandidateId)
    requires NoDup(Map(ranked, IdOf)) && n <= |ranked| && c in Map(ranked[..n], IdOf)
    ensures Position(ranked, c).Some? && Position(ranked, c).value < n
    ensures Map(ranked[..n], IdOf)[Position(ranked, c).value] == c
  {
    var ids := Map(ranked[..n], IdOf);
    var i :| 0 <= i < n && ids[i] == c;
    PositionIsIndex(ranked, c, i);
  }

  lemma {:induction false} PositionIsIndex(s: seq<Prescore>, c: CandidateId, i: nat)
    requires NoDup(Map(s, IdOf)) && i < |s| && s[i].candidateId == c
    ensures Position(s, c) == Some(i)
  {
    assert Map(s, IdOf)[i] == c;
    var p := Position(s, c);
    assert Map(s, IdOf)[p.value] == c;
  }

  // ================================================================ fates

  datatype Group = Omitted | Below | Beyond | Chosen

  function GroupOf(sc: Scenario, c: CandidateId): Group {
    if c !in sc.PrescoredIds() then Omitted
    else if c !in sc.EligibleIds() then Below
    else if c !in sc.TopIds() then Beyond
    else Chosen
  }

  /** A synchronized candidate without a local row, while others have one: no stage ever reports on it. */
  predicate Stranded(sc: Scenario, c: CandidateId) {
    c in sc.TopIds() && sc.Synced(c) && c !in sc.local && sc.Rows() != []
  }

  lemma RowsAndTasks(sc: Scenario)
    ensures forall c :: c in sc.Rows() <==> c in sc.local && c in sc.TopIds()
    ensures forall c :: c in sc.Tasks() <==> c in sc.Rows() && sc.Synced(c)
  {
    FilterMembers(sc.local, sc.InTop());
    FilterMembers(sc.Rows(), sc.HasSynced());
  }

  /** Where one candidate stands in the lists of the run. */
  lemma Standing(sc: Scenario, c: CandidateId)
    requires sc.Contracts()
    ensures c in sc.TopIds() ==> c in sc.EligibleIds() && c in sc.acquired
    ensures c in sc.EligibleIds() ==> c in sc.PrescoredIds()
    ensures c in sc.PrescoredIds() <==> Position(sc.Ranked(), c).Some?
    ensures c in sc.Rows() <==> c in sc.local && c in sc.TopIds()
    ensures c in sc.Tasks() <==> c in sc.Rows() && sc.Synced(c)
    ensures c in sc.TopIds() ==> sc.Top() != []
  {
    IdsFacts(sc);
    RowsAndTasks(sc);
  }

  /** The coherent state of a candidate after selection. */
  lemma SelectionCoheres(sc: Scenario, c: CandidateId)
    requires sc.Contracts()
    ensures sc.AfterPrescoring(c).Coherent() && sc.AfterSelection(c).Coherent()
    ensures sc.AfterSelection(c).outcome ==
      match GroupOf(sc, c)
      case Omitted => FailedScoring
      case Below => SkippedThreshold
      case Beyond => SkippedTopK
      case Chosen => Unresolved
    ensures GroupOf(sc, c) == Omitted <==> sc.AfterSelection(c).prescoring == Failed
    ensures GroupOf(sc, c) == Chosen ==>
      var s := sc.AfterSelection(c);
      s.prescoring == Success && s.synchronization == Pending && s.scoring == Pending
      && s.metrics.prescoreRank == Some(sc.Rank(c, 1))
    ensures GroupOf(sc, c) == Omitted ==>
      var s := sc.AfterSelection(c);
      s.synchronization == Pending && s.scoring == Pending && s.persistence == Pending
      && s.metrics.prescoreRank == None
  {
    Standing(sc, c);
  }

  lemma SynchronizationCoheres(sc: Scenario, c: CandidateId)
    requires sc.Contracts()
    ensures sc.AfterSynchronization(c).Coherent()
    ensures GroupOf(sc, c) != Chosen ==> sc.AfterSynchronization(c) == sc.AfterSelection(c)
    ensures GroupOf(sc, c) == Chosen ==>
      var s := sc.AfterSynchronization(c);
      && s.metrics.prescoreRank == Some(sc.Rank(c, 1)) && s.prescoring == Success
      && (sc.Synced(c) ==> AwaitsScoring(s))
      && (!sc.Synced(c) ==> s.outcome == FailedSynchronization)
  {
    SelectionCoheres(sc, c);
    if c in sc.TopIds() {
      Standing(sc, c);
      SyncStepCoheres(sc.AfterSelection(c), if c in sc.sync then Some(sc.sync[c]) else None);
    }
  }

  predicate AwaitsScoring(s: Snapshot) {
    s.outcome == Unresolved && s.synchronization == Success && s.scoring == Pending
  }

  lemma SyncStepCoheres(s: Snapshot, item: Option<SyncItem>)
    requires s.Coherent() && s.outcome == Unresolved && s.prescoring == Success && s.synchronization == Pending
    requires s.scoring == Pending
    ensures var t := SyncStep(s, item);
      && t.Coherent() && t.metrics == s.metrics && t.prescoring == Success
      && (if item.Some? && item.value.success then AwaitsScoring(t) else t.outcome == FailedSynchronization)
  {
  }

  lemma ScoreStepCoheres(s: Snapshot, answer: LlmResult)
    requires s.Coherent() && (AwaitsScoring(s) || s.outcome == FailedSynchronization)
    ensures MissingStep(s).Coherent() && MissingStep(s).metrics == s.metrics
    ensures MissingStep(s).outcome == if AwaitsScoring(s) then FailedScoring else FailedSynchronization
    ensures MissingStep(s).scoring != Success && MissingStep(s).synchronization == s.synchronization
    ensures var t := ScoreStep(s, answer);
      && t.Coherent() && t.metrics.prescoreRank == s.metrics.prescoreRank && t.synchronization == s.synchronization
      && (t.scoring == Success <==> AwaitsScoring(s) && answer.Payload?)
      && t.outcome == (if AwaitsScoring(s) && answer.Payload? then Unresolved else FailedScoring)
  {
  }

  lemma DeepScoringCoheres(sc: Scenario, c: CandidateId)
    requires sc.Contracts()
    ensures sc.AfterDeepScoring(c).Coherent()
    ensures GroupOf(sc, c) != Chosen ==> sc.AfterDeepScoring(c) == sc.AfterSelection(c)
    ensures GroupOf(sc, c) == Chosen ==>
      var s := sc.AfterDeepScoring(c);
      && s.metrics.prescoreRank == Some(sc.Rank(c, 1))
      && s.synchronization == (if sc.Synced(c) then Success else Failed)
      && (c in sc.Tasks() && sc.llm(c).Payload? <==> s.scoring == Success)
      && s.outcome ==
         (if !sc.Synced(c) then (if c in sc.local then FailedScoring else FailedSynchronization)
          else if c !in sc.local then (if sc.Rows() == [] then FailedScoring else Unresolved)
          else if !sc.llm(c).Payload? then FailedScoring
          else Unresolved)
  {
    SynchronizationCoheres(sc, c);
    Standing(sc, c);
    if c in sc.TopIds() {
      ScoreStepCoheres(sc.AfterSynchronization(c), sc.llm(c));
    }
  }

  /** The outcome every candidate ends with, by cause; the run's states stay coherent to the end. */
  lemma FinalOutcome(sc: Scenario, c: CandidateId)
    requires sc.Contracts()
    ensures sc.Final(c).Coherent()
    ensures GroupOf(sc, c) != Chosen ==> sc.Final(c) == sc.AfterSelection(c)
    ensures GroupOf(sc, c) == Chosen ==>
      var s := sc.Final(c);
      && s.metrics.prescoreRank == Some(sc.Rank(c, 1))
      && s.synchronization == (if sc.Synced(c) then Success else Failed)
    ensures sc.Final(c).outcome ==
      match GroupOf(sc, c)
      case Omitted => FailedScoring
      case Below => SkippedThreshold
      case Beyond => SkippedTopK
      case Chosen =>
        if !sc.Synced(c) then (if c in sc.local then FailedScoring else FailedSynchronization)
        else if c !in sc.local then (if sc.Rows() == [] then FailedScoring else Unresolved)
        else if !sc.llm(c).Payload? then FailedScoring
        else if sc.persisted then Completed
        else FailedPersistence
  {
    Standing(sc, c);
    SelectionCoheres(sc, c);
    DeepScoringCoheres(sc, c);
  }

  /** What the record of a candidate says at the end of a run: its own answer, its place among the ranked answers
      exactly if it met the threshold, and its own scores exactly if its request was answered. */
  lemma {:induction false} RecordedFigures(sc: Scenario, c: CandidateId)
    requires sc.Contracts()
    ensures var m := sc.Final(c).metrics;
      && (forall x :: m.prescore == Some(x) <==> Prescore(c, x) in sc.answers)
      && (m.prescoreRank.Some? <==> c in sc.EligibleIds())
      && (m.prescoreRank.Some? ==>
            1 <= m.prescoreRank.value <= |sc.Ranked()| && sc.Ranked()[m.prescoreRank.value - 1].candidateId == c)
      && m.finalScore == (if c in sc.Tasks() && sc.llm(c).Payload? then Some(sc.llm(c).score.finalScore) else None)
      && m.confidence == (if c in sc.Tasks() && sc.llm(c).Payload? then Some(sc.llm(c).score.confidence) else None)
  {
    Standing(sc, c);
    AnswerIsOwn(sc, c);
    FiguresAfterSelection(sc, c);
    assert sc.AfterSynchronization(c).metrics == sc.AfterSelection(c).metrics;
    FiguresFromScoring(sc, c);
  }

  lemma {:induction false} FiguresAfterSelection(sc: Scenario, c: CandidateId)
    requires sc.Contracts()
    ensures var m, place := sc.AfterSelection(c).metrics, Position(sc.Ranked(), c);
      && m.prescore == (if place.Some? then Some(sc.Ranked()[place.value].score) else None)
      && (m.prescoreRank.Some? <==> c in sc.EligibleIds())
      && (m.prescoreRank.Some? ==> place.Some? && m.prescoreRank.value == place.value + 1)
      && m.finalScore == None && m.confidence == None
  {
    Standing(sc, c);
  }

  lemma {:induction false} FiguresFromScoring(sc: Scenario, c: CandidateId)
    requires sc.Contracts()
    ensures var before, m := sc.AfterSynchronization(c).metrics, sc.Final(c).metrics;
      if c in sc.Tasks() && sc.llm(c).Payload? then
        m == before.(finalScore := Some(sc.llm(c).score.finalScore), confidence := Some(sc.llm(c).score.confidence))
      else m == before
  {
    Standing(sc, c);
    SynchronizationCoheres(sc, c);
  }

  /** A candidate's answer is the one found at its place in the ranked answers. */
  lemma {:induction false} AnswerIsOwn(sc: Scenario, c: CandidateId)
    requires sc.Contracts()
    ensures forall x :: Prescore(c, x) in sc.answers <==>
              Position(sc.Ranked(), c).Some? && sc.Ranked()[Position(sc.Ranked(), c).value].score == x
  {
    IdsFacts(sc);
    RankedFacts(sc);
    forall x ensures Prescore(c, x) in sc.answers <==>
                     Position(sc.Ranked(), c).Some? && sc.Ranked()[Position(sc.Ranked(), c).value].score == x
    {
      if Prescore(c, x) in sc.answers {
        var i :| 0 <= i < |sc.Ranked()| && sc.Ranked()[i] == Prescore(c, x);
        PositionIsIndex(sc.Ranked(), c, i);
      } else if Position(sc.Ranked(), c).Some? {
        assert sc.Ranked()[Position(sc.Ranked(), c).value] in sc.Ranked();
      }
    }
  }

  /** The error codes a candidate's record ends with, by what went wrong. */
  lemma {:induction false} RecordedCodes(sc: Scenario, c: CandidateId)
    requires sc.Contracts()
    ensures var d := sc.Final(c).diagnostics;
      && d.prescoring.errorCode == (if c in sc.PrescoredIds() then None else Some("OMITTED_FROM_PRESCORING"))
      && d.synchronization.errorCode ==
           (if c !in sc.TopIds() || sc.Synced(c) then None
            else if c !in sc.sync then Some("SYNC_OMITTED")
            else if sc.sync[c].errorCode in {None, Some("")} then Some("SYNC_FAILED")
            else sc.sync[c].errorCode)
      && d.scoring.errorCode ==
           (if c !in sc.TopIds() then None
            else if sc.Rows() == [] then (if sc.Synced(c) then Some("NO_CANDIDATE_RECORD_IN_DB") else None)
            else if c !in sc.local then None
            else if !sc.Synced(c) then Some("SYNC_FAILED")
            else if sc.llm(c).Raised? then Some("LLM_SCORING_ERROR")
            else if sc.llm(c).Empty? then Some("LLM_SCORING_EMPTY")
            else None)
      && d.persistence.errorCode ==
           (if c in sc.Tasks() && sc.llm(c).Payload? && !sc.persisted then Some("DB_PERSISTENCE_FAILED") else None)
  {
    Standing(sc, c);
    SelectionCoheres(sc, c);
    SynchronizationCoheres(sc, c);
  }

  /** The state a candidate of the pool is in after each stage is coherent: its outcome, its stage statuses
      and its diagnostics tell the same story. */
  lemma {:induction false} EveryStageCoheres(sc: Scenario, c: CandidateId)
    requires sc.Contracts()
    ensures NEW_CANDIDATE.Acquired().Coherent()
    ensures sc.AfterPrescoring(c).Coherent()
    ensures sc.AfterSelection(c).Coherent()
    ensures sc.AfterSynchronization(c).Coherent()
    ensures sc.AfterDeepScoring(c).Coherent()
    ensures sc.Final(c).Coherent()
  {
    SelectionCoheres(sc, c);
    SynchronizationCoheres(sc, c);
    DeepScoringCoheres(sc, c);
    FinalOutcome(sc, c);
  }

  /** Where persistence is refused, every answered candidate has failed. */
  lemma {:induction false} UnstoredHaveFailed(sc: Scenario, c: CandidateId)
    requires sc.Contracts() && !sc.persisted && c in sc.Tasks() && sc.llm(c).Payload?
    ensures sc.Final(c).outcome == FailedPersistence && IsFailure(sc.Final(c)) && !IsCompleted(sc.Final(c))
  {
    Standing(sc, c);
    FinalOutcome(sc, c);
  }

  /** After a full run nobody is left without an outcome, except the stranded candidates. */
  lemma UnresolvedIffStranded(sc: Scenario, c: CandidateId)
    requires sc.Contracts()
    ensures sc.Final(c).outcome == Unresolved <==> Stranded(sc, c)
  {
    FinalOutcome(sc, c);
    IdsFacts(sc);
  }

  // ================================================================ the run's own invariants

  lemma {:induction false} CountMap<S(!new), T(!new)>(s: seq<S>, f: S -> T, p: T -> bool, q: S -> bool)
    requires forall x :: x in s ==> q(x) == p(f(x))
    ensures Count(Map(s, f), p) == Count(s, q)
  {
    if s != [] {
      CountMap(s[..|s| - 1], f, p, q);
      assert s[|s| - 1] in s;
    }
  }

  function InGroup(sc: Scenario, g: Group): (r: CandidateId -> bool)
    ensures forall c :: r(c) == (GroupOf(sc, c) == g)
  {
    (c: CandidateId) => GroupOf(sc, c) == g
  }

  function FinalIs(sc: Scenario, p: Snapshot -> bool): (r: CandidateId -> bool)
    ensures forall c :: r(c) == p(sc.Final(c))
  {
    (c: CandidateId) => p(sc.Final(c))
  }

  function StrandedIn(sc: Scenario): (r: CandidateId -> bool)
    ensures forall c :: r(c) == Stranded(sc, c)
  {
    (c: CandidateId) => Stranded(sc, c)
  }

  function SelectionViews(sc: Scenario): seq<Snapshot> {
    Map(sc.acquired, c => sc.AfterSelection(c))
  }

  /** The counters the run reports after selection: everybody acquired is matched; the selected are exactly
      the top ids, min(k, eligible) of them. */
  lemma {:induction false} SelectionCounters(sc: Scenario)
    requires sc.Contracts()
    ensures Count(SelectionViews(sc), WasAcquired) == |sc.acquired|
    ensures Count(SelectionViews(sc), IsEligible) == |sc.Eligible()|
    ensures Count(SelectionViews(sc), IsUnresolved) == |sc.Top()| == Count(sc.acquired, InGroup(sc, Chosen))
  {
    forall c | c in sc.acquired ensures SelectionPointwise(sc, c) {
      Standing(sc, c);
      SelectionCoheres(sc, c);
    }
    CountSelection(sc, WasAcquired, Anybody);
    FilterAll(sc.acquired, Anybody);
    CountSelection(sc, IsEligible, InEligible(sc));
    CountSelection(sc, IsUnresolved, InGroup(sc, Chosen));
    SelectionSizes(sc);
  }

  predicate Anybody(c: CandidateId) { true }

  function InEligible(sc: Scenario): CandidateId -> bool {
    (c: CandidateId) => c in sc.EligibleIds()
  }

  predicate SelectionPointwise(sc: Scenario, c: CandidateId) {
    var s := sc.AfterSelection(c);
    WasAcquired(s) && IsEligible(s) == InEligible(sc)(c) && IsUnresolved(s) == InGroup(sc, Chosen)(c)
  }

  lemma {:induction false} SelectionSizes(sc: Scenario)
    requires sc.Contracts()
    ensures Count(sc.acquired, InEligible(sc)) == |sc.Eligible()|
    ensures Count(sc.acquired, InGroup(sc, Chosen)) == |sc.Top()|
  {
    IdsFacts(sc);
    IdsArePrefixes(sc);
    CountIsLength(sc.acquired, InEligible(sc), sc.EligibleIds());
    forall c ensures c in sc.TopIds() <==> c in sc.acquired && InGroup(sc, Chosen)(c) {
      Standing(sc, c);
    }
    CountIsLength(sc.acquired, InGroup(sc, Chosen), sc.TopIds());
  }

  lemma {:induction false} FilterAll<T(!new)>(s: seq<T>, p: T -> bool)
    requires forall x :: x in s ==> p(x)
    ensures Filter(s, p) == s
  {
    if s != [] {
      FilterAll(s[..|s| - 1], p);
      assert s[|s| - 1] in s && s == s[..|s| - 1] + [s[|s| - 1]];
    }
  }

  lemma CountIsLength<T(!new)>(s: seq<T>, p: T -> bool, t: seq<T>)
    requires NoDup(s) && NoDup(t)
    requires forall x :: x in t <==> x in s && p(x)
    ensures Count(s, p) == |t|
  {
    FilterNoDup(s, p);
    FilterMembers(s, p);
    SameMembersSameLength(Filter(s, p), t);
  }

  /** The acquired pool splits exactly into omitted, below threshold, beyond top k and selected, and the
      sizes are those of the lists the run cuts off one another. */
  lemma PoolPartition(sc: Scenario)
    requires sc.Contracts()
    ensures Count(sc.acquired, InGroup(sc, Omitted)) == |sc.acquired| - |sc.Ranked()|
    ensures Count(sc.acquired, InGroup(sc, Below)) == |sc.Ranked()| - |sc.Eligible()|
    ensures Count(sc.acquired, InGroup(sc, Beyond)) == |sc.Eligible()| - |sc.Top()|
    ensures Count(sc.acquired, InGroup(sc, Chosen)) == |sc.Top()|
  {
    IdsFacts(sc);
    IdsArePrefixes(sc);
    NestedSplit(sc.acquired, sc.acquired, sc.PrescoredIds(), InGroup(sc, Omitted));
    NestedSplit(sc.acquired, sc.PrescoredIds(), sc.EligibleIds(), InGroup(sc, Below));
    NestedSplit(sc.acquired, sc.EligibleIds(), sc.TopIds(), InGroup(sc, Beyond));
    SelectionCounters(sc);
  }

  lemma NestedSplit<T(!new)>(s: seq<T>, outer: seq<T>, inner: seq<T>, p: T -> bool)
    requires NoDup(s) && NoDup(outer) && NoDup(inner)
    requires forall x :: x in outer ==> x in s
    requires forall x :: x in inner ==> x in outer
    requires forall x :: x in s ==> (p(x) <==> x in outer && x !in inner)
    ensures Count(s, p) == |outer| - |inner|
  {
    var inOuter := x => x in outer;
    var inInner := x => x in inner;
    CountIsLength(s, inOuter, outer);
    CountIsLength(s, inInner, inner);
    CountSplits(s, inOuter, inInner, p);
  }

  // ---------------------------------------------------------------- response

  lemma ScoredIds(sc: Scenario)
    requires sc.Contracts()
    ensures forall c :: c in Map(sc.Scores(), ScoredId) <==> c in sc.Tasks() && sc.llm(c).Payload?
    ensures Map(sc.Scores(), ScoredId) == Filter(sc.Tasks(), sc.Answered())
    ensures NoDup(Map(sc.Scores(), ScoredId))
  {
    var asked := Filter(sc.Tasks(), sc.Answered());
    var ids := Map(sc.Scores(), ScoredId);
    forall i | 0 <= i < |ids| ensures ids[i] == asked[i] {
      assert asked[i] in asked;
    }
    assert ids == asked;
    FilterNoDup(sc.local, sc.InTop());
    FilterNoDup(sc.Rows(), sc.HasSynced());
    FilterNoDup(sc.Tasks(), sc.Answered());
    FilterMembers(sc.Tasks(), sc.Answered());
  }

  /** Who is in the response: exactly the candidates whose persistence succeeded. */
  lemma {:induction false} ReturnedIffCompleted(sc: Scenario, c: CandidateId)
    requires sc.Contracts() && sc.persisted
    ensures c in sc.TopIds() && sc.Returned()(c) <==> sc.Final(c).outcome == Completed
    ensures sc.Final(c).outcome == Completed ==> c in sc.acquired
  {
    Standing(sc, c);
    ScoredIds(sc);
    FinalOutcome(sc, c);
    assert sc.Returned()(c) <==> c in sc.local && c in sc.Tasks() && sc.llm(c).Payload?;
  }

  lemma FilterIff<T(!new)>(s: seq<T>, p: T -> bool, t: seq<T>, q: T -> bool, x: T)
    requires x in s && p(x) <==> x in t && q(x)
    ensures x in Filter(s, p) <==> x in Filter(t, q)
  {
    FilterMembers(s, p);
    FilterMembers(t, q);
  }

  lemma ReturnedIds(sc: Scenario)
    requires sc.Contracts() && sc.persisted
    ensures var kept := Filter(sc.TopIds(), sc.Returned());
      && multiset(kept) == multiset(Filter(sc.acquired, FinalIs(sc, IsCompleted)))
      && |kept| == Count(sc.acquired, FinalIs(sc, IsCompleted))
  {
    var kept, completed := Filter(sc.TopIds(), sc.Returned()), Filter(sc.acquired, FinalIs(sc, IsCompleted));
    IdsFacts(sc);
    FilterNoDup(sc.TopIds(), sc.Returned());
    FilterNoDup(sc.acquired, FinalIs(sc, IsCompleted));
    forall c ensures c in kept <==> c in completed {
      ReturnedIffCompleted(sc, c);
      assert FinalIs(sc, IsCompleted)(c) <==> sc.Final(c).outcome == Completed;
      FilterIff(sc.TopIds(), sc.Returned(), sc.acquired, FinalIs(sc, IsCompleted), c);
    }
    SameMembersSameMultiset(kept, completed);
    SameMembersSameLength(kept, completed);
  }

  lemma UnrankedIds(sc: Scenario)
    ensures Map(sc.UnrankedResponse(), RowId) == Filter(sc.TopIds(), sc.Returned())
    ensures forall r :: r in sc.UnrankedResponse() ==>
              r == sc.RowFor(r.candidateId) && r.candidateId in sc.TopIds() && sc.Returned()(r.candidateId)
  {
    var kept, rows := Filter(sc.TopIds(), sc.Returned()), sc.UnrankedResponse();
    FilterMembers(sc.TopIds(), sc.Returned());
    forall i | 0 <= i < |rows| ensures rows[i] == sc.RowFor(kept[i]) && kept[i] in kept {
    }
    assert Map(rows, RowId) == kept;
  }

  /** The response is a permutation of the completed candidates, sorted by final score and then prescore
      rank; each row carries its own candidate's rank, prescore and final score. */
  lemma {:induction false} ResponseIsRankedCompletions(sc: Scenario)
    requires sc.Contracts() && sc.persisted
    ensures multiset(Map(sc.Response(), RowId)) == multiset(Filter(sc.acquired, FinalIs(sc, IsCompleted)))
    ensures |sc.Response()| == Count(sc.acquired, FinalIs(sc, IsCompleted))
    ensures forall i, j :: 0 <= i < j < |sc.Response()| ==>
              var a, b := sc.Response()[i], sc.Response()[j];
              a.finalScore > b.finalScore || (a.finalScore == b.finalScore && a.prescoreRank < b.prescoreRank)
    ensures forall r :: r in sc.Response() ==> RowIsFaithful(sc, r)
  {
    ResponsePermutes(sc);
    RowsHaveOwnRanks(sc);
    StrictlyRanked(sc.Response());
  }

  lemma {:induction false} ResponsePermutes(sc: Scenario)
    requires sc.Contracts() && sc.persisted
    ensures multiset(Map(sc.Response(), RowId)) == multiset(Filter(sc.acquired, FinalIs(sc, IsCompleted)))
    ensures |sc.Response()| == Count(sc.acquired, FinalIs(sc, IsCompleted))
    ensures Descending(sc.Response(), BetterRow)
    ensures forall r :: r in sc.Response() ==> RowIsFaithful(sc, r)
  {
    var rows := sc.UnrankedResponse();
    ReturnedIds(sc);
    UnrankedIds(sc);
    SortMapped(rows, BetterRow, RowId);
    SortIsDescending(rows, BetterRow);
    SortMembers(rows, BetterRow);
    forall r | r in sc.Response() ensures RowIsFaithful(sc, r) {
      ReturnedMetrics(sc, r.candidateId);
    }
  }

  /** No two rows share a prescore rank. */
  lemma {:induction false} RowsHaveOwnRanks(sc: Scenario)
    requires sc.Contracts() && sc.persisted
    ensures forall i, j :: 0 <= i < j < |sc.Response()| ==>
              sc.Response()[i].prescoreRank != sc.Response()[j].prescoreRank
  {
    var rows := sc.Response();
    ResponsePermutes(sc);
    FilterNoDup(sc.acquired, FinalIs(sc, IsCompleted));
    NoDupByMultiset(Filter(sc.acquired, FinalIs(sc, IsCompleted)), Map(rows, RowId));
    forall r | r in rows ensures AtItsPlace(sc.TopIds(), r) {
      RowPlace(sc, r);
    }
    PlacesDiffer(sc.TopIds(), rows);
  }

  predicate AtItsPlace(ids: seq<CandidateId>, r: ResponseRow) {
    1 <= r.prescoreRank <= |ids| && ids[r.prescoreRank - 1] == r.candidateId
  }

  lemma {:induction false} PlacesDiffer(ids: seq<CandidateId>, rows: seq<ResponseRow>)
    requires NoDup(Map(rows, RowId)) && forall r :: r in rows ==> AtItsPlace(ids, r)
    ensures forall i, j :: 0 <= i < j < |rows| ==> rows[i].prescoreRank != rows[j].prescoreRank
  {
    forall i, j | 0 <= i < j < |rows| ensures rows[i].prescoreRank != rows[j].prescoreRank {
      assert rows[i] in rows && rows[j] in rows;
      assert Map(rows, RowId)[i] != Map(rows, RowId)[j];
    }
  }

  lemma {:induction false} RowPlace(sc: Scenario, r: ResponseRow)
    requires sc.Contracts() && sc.persisted && r in sc.Response()
    ensures AtItsPlace(sc.TopIds(), r)
  {
    SortMembers(sc.UnrankedResponse(), BetterRow);
    UnrankedIds(sc);
    RowForPlace(sc, r.candidateId);
  }

  lemma {:induction false} RowForPlace(sc: Scenario, c: CandidateId)
    requires sc.Contracts() && c in sc.TopIds()
    ensures AtItsPlace(sc.TopIds(), sc.RowFor(c))
  {
    SelectedRank(sc, c);
    Standing(sc, c);
    assert sc.RowFor(c).prescoreRank == sc.Rank(c, 1);
  }

  lemma {:induction false} StrictlyRanked(rows: seq<ResponseRow>)
    requires Descending(rows, BetterRow)
    requires forall i, j :: 0 <= i < j < |rows| ==> rows[i].prescoreRank != rows[j].prescoreRank
    ensures forall i, j :: 0 <= i < j < |rows| ==>
              rows[i].finalScore > rows[j].finalScore
              || (rows[i].finalScore == rows[j].finalScore && rows[i].prescoreRank < rows[j].prescoreRank)
  {
    forall i, j | 0 <= i < j < |rows|
      ensures rows[i].finalScore > rows[j].finalScore
              || (rows[i].finalScore == rows[j].finalScore && rows[i].prescoreRank < rows[j].prescoreRank)
    {
      assert !BetterRow(rows[j], rows[i]);
    }
  }

  /** A response row shows what the run recorded for its candidate. */
  ghost predicate RowIsFaithful(sc: Scenario, r: ResponseRow) {
    && 1 <= r.prescoreRank <= sc.k
    && Prescore(r.candidateId, r.prescore) in sc.answers
    && sc.llm(r.candidateId).Payload? && r.finalScore == sc.llm(r.candidateId).score.finalScore
    && sc.Final(r.candidateId).metrics ==
         Metrics(Some(r.prescore), Some(r.prescoreRank), Some(r.finalScore),
                 Some(sc.llm(r.candidateId).score.confidence))
  }

  lemma ReturnedMetrics(sc: Scenario, c: CandidateId)
    requires sc.Contracts() && sc.persisted && c in sc.TopIds() && sc.Returned()(c)
    ensures RowIsFaithful(sc, sc.RowFor(c))
  {
    Standing(sc, c);
    ScoredIds(sc);
    SelectedRank(sc, c);
    RankedFacts(sc);
    assert sc.Ranked()[sc.Rank(c, 1) - 1] in sc.Ranked();
  }

  // ---------------------------------------------------------------- the two checks after a run

  /** The service's own check after a run, "selected == completed + failed" and "completed == returned",
      with its exact condition: the second always holds, the first unless a candidate is stranded. */
  lemma SelfCheck(sc: Scenario)
    requires sc.Contracts() && sc.persisted
    ensures var views := sc.FinalViews();
      var selected, completed, failed :=
        Count(SelectionViews(sc), IsUnresolved), Count(views, IsCompleted), Count(views, FailedWithin(sc.k));
      && completed == |sc.Response()|
      && selected == completed + failed + Count(sc.acquired, StrandedIn(sc))
      && (selected == completed + failed <==> forall c :: c in sc.acquired ==> !Stranded(sc, c))
  {
    CountFinal(sc, IsCompleted);
    CountFinal(sc, FailedWithin(sc.k));
    ResponseIsRankedCompletions(sc);
    SelectionCounters(sc);
    forall c | c in sc.acquired ensures ResolvedPointwise(sc, c) {
      ResolvedPointwiseHolds(sc, c);
    }
    ThreeWaySplit(sc.acquired, InGroup(sc, Chosen), FinalIs(sc, IsCompleted), FinalIs(sc, FailedWithin(sc.k)),
                  StrandedIn(sc));
    CountZero(sc.acquired, StrandedIn(sc));
  }

  lemma ThreeWaySplit<T(!new)>(s: seq<T>, p: T -> bool, q: T -> bool, r: T -> bool, t: T -> bool)
    requires forall x :: x in s ==> (p(x) <==> q(x) || r(x) || t(x))
    requires forall x :: x in s ==> !(q(x) && r(x)) && !(q(x) && t(x)) && !(r(x) && t(x))
    ensures Count(s, p) == Count(s, q) + Count(s, r) + Count(s, t)
  {
    var qr := x => q(x) || r(x);
    CountSplits(s, p, qr, t);
    CountSplits(s, qr, q, r);
  }

  predicate ResolvedPointwise(sc: Scenario, c: CandidateId) {
    Resolves(sc, c, sc.Final(c))
  }

  predicate Resolves(sc: Scenario, c: CandidateId, s: Snapshot) {
    var completed, failed := IsCompleted(s), FailedWithin(sc.k)(s);
    && (GroupOf(sc, c) == Chosen <==> completed || failed || Stranded(sc, c))
    && !(completed && failed) && !(completed && Stranded(sc, c)) && !(failed && Stranded(sc, c))
  }

  lemma ResolvedPointwiseHolds(sc: Scenario, c: CandidateId)
    requires sc.Contracts() && sc.persisted
    ensures ResolvedPointwise(sc, c)
  {
    FinalOutcome(sc, c);
    SelectionCoheres(sc, c);
    if c in sc.TopIds() {
      SelectedRank(sc, c);
      Standing(sc, c);
      ChosenResolves(sc, c, sc.Final(c));
    }
  }

  lemma ChosenResolves(sc: Scenario, c: CandidateId, s: Snapshot)
    requires GroupOf(sc, c) == Chosen && c in sc.TopIds() && 1 <= sc.Rank(c, 1) <= sc.k
    requires s.metrics.prescoreRank == Some(sc.Rank(c, 1))
    requires s.outcome ==
      if !sc.Synced(c) then (if c in sc.local then FailedScoring else FailedSynchronization)
      else if c !in sc.local then (if sc.Rows() == [] then FailedScoring else Unresolved)
      else if !sc.llm(c).Payload? then FailedScoring
      else Completed
    ensures Resolves(sc, c, s)
  {
  }

  /** When a synchronization success guarantees a local row, both equations hold in every run. */
  lemma {:induction false} SoundSyncBalancesTheRun(sc: Scenario)
    requires sc.Contracts() && sc.persisted && sc.SyncIsSound()
    ensures Count(SelectionViews(sc), IsUnresolved)
         == Count(sc.FinalViews(), IsCompleted) + Count(sc.FinalViews(), FailedWithin(sc.k))
    ensures Count(sc.FinalViews(), IsCompleted) == |sc.Response()|
    ensures forall c :: c in sc.acquired ==> sc.Final(c).outcome != Unresolved
  {
    SelfCheck(sc);
    forall c | c in sc.acquired ensures sc.Final(c).outcome != Unresolved {
      UnresolvedIffStranded(sc, c);
    }
  }

  /** A stranded candidate does break the first equation: two selected candidates, both reported
      synchronized, only one of them stored. */
  lemma {:induction false} StrandedCandidateBreaksTheSelfCheck() returns (sc: Scenario)
    ensures sc.Contracts() && sc.persisted
    ensures Count(SelectionViews(sc), IsUnresolved)
         != Count(sc.FinalViews(), IsCompleted) + Count(sc.FinalViews(), FailedWithin(sc.k))
  {
    sc := Scenario([1, 2], 0, 2, [Prescore(1, 90), Prescore(2, 80)],
                   map[1 := SyncItem(true, None), 2 := SyncItem(true, None)], [1],
                   c => Payload(ScoreOutput(c, 50.0, 50.0)), true);
    OneOfTwoStored(sc);
    StrandedUnbalances(sc, 2);
  }

  lemma OneOfTwoStored(sc: Scenario)
    requires sc.acquired == [1, 2] && sc.local == [1] && sc.ScorerContract() && sc.Synced(1) && sc.Synced(2)
    requires sc.answers == [Prescore(1, 90), Prescore(2, 80)] && sc.threshold == 0 && sc.k == 2
    ensures sc.Contracts() && Stranded(sc, 2)
  {
    MapTwo(Prescore(1, 90), Prescore(2, 80));
    TwoSelected(sc, Prescore(1, 90), Prescore(2, 80));
    assert 1 in sc.Rows();
  }

  lemma StrandedUnbalances(sc: Scenario, c: CandidateId)
    requires sc.Contracts() && sc.persisted && c in sc.acquired && Stranded(sc, c)
    ensures Count(SelectionViews(sc), IsUnresolved)
         != Count(sc.FinalViews(), IsCompleted) + Count(sc.FinalViews(), FailedWithin(sc.k))
  {
    SelfCheck(sc);
  }

  /** Answers that come ranked already, all at or above the threshold and no more than wanted, are all selected. */
  lemma {:induction false} AllSelected(sc: Scenario)
    requires Descending(sc.answers, HigherPrescore) && |sc.answers| <= sc.k
    requires forall p :: p in sc.answers ==> p.score >= sc.threshold
    ensures sc.Ranked() == sc.answers && sc.Eligible() == sc.answers && sc.Top() == sc.answers
  {
    SortedAlready(sc.answers);
    FilterAll(sc.answers, AtLeast(sc.threshold));
  }

  lemma {:induction false} TwoSelected(sc: Scenario, a: Prescore, b: Prescore)
    requires sc.answers == [a, b] && a.score >= b.score >= sc.threshold && sc.k == 2
    ensures sc.TopIds() == [a.candidateId, b.candidateId]
  {
    AllSelected(sc);
    MapTwo(a, b);
  }

  lemma {:induction false} SortedAlready(s: seq<Prescore>)
    requires Descending(s, HigherPrescore)
    ensures SortDescending(s, HigherPrescore) == s
  {
    if s != [] {
      var n := |s| - 1;
      SortedAlready(s[..n]);
      InsertBehind(s[..n], s[n]);
      LastApart(s);
    }
  }

  lemma InsertBehind(s: seq<Prescore>, x: Prescore)
    requires s == [] || !HigherPrescore(x, s[|s| - 1])
    ensures Insert(s, x, HigherPrescore) == s + [x]
  {
  }

  lemma {:induction false} MapOne(a: Prescore)
    ensures Map([a], IdOf) == [a.candidateId]
  {
    assert [a][..0] == [];
  }

  lemma MapTwo(a: Prescore, b: Prescore)
    ensures Map([a, b], IdOf) == [a.candidateId, b.candidateId]
  {
    assert Map([a, b], IdOf)[0] == a.candidateId && Map([a, b], IdOf)[1] == b.candidateId;
  }

  lemma {:induction false} OneSelected(sc: Scenario, a: Prescore)
    requires sc.answers == [a] && a.score >= sc.threshold && sc.k == 1
    ensures sc.TopIds() == [a.candidateId] && sc.PrescoredIds() == [a.candidateId]
  {
    AllSelected(sc);
    MapOne(a);
  }

  // ---------------------------------------------------------------- the execution report

  function StillFailedSync(sc: Scenario): CandidateId -> bool {
    (c: CandidateId) => c in sc.TopIds() && !sc.Synced(c) && c in sc.local
  }

  /** The execution report says PASSED exactly when every acquired candidate was prescored and no selected
      candidate that failed synchronization still has a local row. */
  lemma {:induction false} ReportPassesIff(sc: Scenario)
    requires sc.Contracts() && sc.persisted
    ensures GenerateReport(sc.FinalViews(), |sc.Response()|).Passed() <==>
      && (forall c :: c in sc.acquired ==> c in sc.PrescoredIds())
      && (forall c :: c in sc.TopIds() && !sc.Synced(c) ==> c !in sc.local)
    ensures var r := GenerateReport(sc.FinalViews(), |sc.Response()|);
      r.Passed() <==>
      && r.selected == r.syncSuccess + r.syncFailed && r.syncSuccess == r.deepSuccess + r.deepFailed
      && r.deepSuccess == r.persistSuccess && r.persistSuccess == r.apiReturned
  {
    var omitted, stillFailed := Count(sc.acquired, InGroup(sc, Omitted)), Count(sc.acquired, StillFailedSync(sc));
    var completed := Count(sc.acquired, FinalIs(sc, IsCompleted));
    assert |sc.Response()| == completed by {
      ResponseIsRankedCompletions(sc);
    }
    ReportFigures(sc);
    assert GenerateReport(sc.FinalViews(), |sc.Response()|).Passed() <==> omitted == 0 && stillFailed == 0;
    NoneOmittedIff(sc);
    NoneStillFailedIff(sc);
  }

  /** A healthy run of two candidates, of which the prescorer leaves out the second. */
  function OneOmitted(): Scenario {
    Scenario([1, 2], 0, 1, [Prescore(1, 50)], map[1 := SyncItem(true, None)], [1],
             c => Payload(ScoreOutput(c, 80.0, 90.0)), true)
  }

  lemma {:induction false} OmissionFailsReport()
    ensures var sc := OneOmitted();
      sc.Contracts() && sc.SyncIsSound() && !GenerateReport(sc.FinalViews(), |sc.Response()|).Passed()
  {
    FirstOfTwoPrescored(OneOmitted(), Prescore(1, 50), 2);
    OneSelected(OneOmitted(), Prescore(1, 50));
    OnlyLocalSelected(OneOmitted(), 1);
    SecondOmittedFails(OneOmitted(), Prescore(1, 50), 2);
  }

  lemma {:induction false} SecondOmittedFails(sc: Scenario, a: Prescore, other: CandidateId)
    requires sc.Contracts() && sc.persisted && other in sc.acquired && other != a.candidateId
    requires sc.answers == [a] && a.score >= sc.threshold && sc.k == 1
    ensures !GenerateReport(sc.FinalViews(), |sc.Response()|).Passed()
  {
    OneSelected(sc, a);
    OmittedFails(sc, other);
  }

  lemma {:induction false} FirstOfTwoPrescored(sc: Scenario, a: Prescore, other: CandidateId)
    requires sc.acquired == [a.candidateId, other] && other != a.candidateId
    requires sc.local == [a.candidateId] && sc.ScorerContract()
    requires sc.answers == [a]
    ensures sc.Contracts()
  {
    OneAnswerKept(sc, a);
  }

  lemma {:induction false} OnlyLocalSelected(sc: Scenario, c: CandidateId)
    requires sc.TopIds() == [c] && c in sc.local
    ensures sc.SyncIsSound()
  {
  }

  lemma {:induction false} OneAnswerKept(sc: Scenario, a: Prescore)
    requires sc.answers == [a] && a.candidateId in sc.acquired
    ensures sc.PrescorerContract()
  {
    MapOne(a);
  }

  lemma {:induction false} OmittedFails(sc: Scenario, c: CandidateId)
    requires sc.Contracts() && sc.persisted && c in sc.acquired && c !in sc.PrescoredIds()
    ensures !GenerateReport(sc.FinalViews(), |sc.Response()|).Passed()
  {
    ReportPassesIff(sc);
  }

  lemma {:induction false} StillStoredFails(sc: Scenario, c: CandidateId)
    requires sc.Contracts() && sc.persisted && c in sc.TopIds() && !sc.Synced(c) && c in sc.local
    ensures !GenerateReport(sc.FinalViews(), |sc.Response()|).Passed()
  {
    ReportPassesIff(sc);
  }

  lemma NoneOmittedIff(sc: Scenario)
    ensures Count(sc.acquired, InGroup(sc, Omitted)) == 0 <==> forall c :: c in sc.acquired ==> c in sc.PrescoredIds()
  {
    CountZero(sc.acquired, InGroup(sc, Omitted));
  }

  lemma NoneStillFailedIff(sc: Scenario)
    requires sc.Contracts()
    ensures Count(sc.acquired, StillFailedSync(sc)) == 0 <==>
            forall c :: c in sc.TopIds() && !sc.Synced(c) ==> c !in sc.local
  {
    CountZero(sc.acquired, StillFailedSync(sc));
    forall c | c in sc.TopIds() ensures c in sc.acquired {
      Standing(sc, c);
    }
  }

  /** The pool and the eligible are reported as such. */
  lemma {:induction false} ReportedPool(sc: Scenario)
    requires sc.Contracts()
    ensures var r := GenerateReport(sc.FinalViews(), |sc.Response()|);
      r.matched == |sc.acquired| && r.eligible == |Filter(sc.Ranked(), AtLeast(sc.threshold))|
  {
    forall c | c in sc.acquired ensures IsEligible(sc.Final(c)) == InEligible(sc)(c) && WasAcquired(sc.Final(c)) {
      Standing(sc, c);
      FinalOutcome(sc, c);
      SelectionCoheres(sc, c);
      DeepScoringCoheres(sc, c);
    }
    CountMap(sc.acquired, c => sc.Final(c), IsEligible, InEligible(sc));
    CountMap(sc.acquired, c => sc.Final(c), WasAcquired, Anybody);
    FilterAll(sc.acquired, Anybody);
    SelectionSizes(sc);
  }

  lemma ReportFigures(sc: Scenario)
    requires sc.Contracts() && sc.persisted
    ensures var r := GenerateReport(sc.FinalViews(), |sc.Response()|);
      var completed := Count(sc.acquired, FinalIs(sc, IsCompleted));
      && r.selected == r.syncSuccess + r.syncFailed + Count(sc.acquired, InGroup(sc, Omitted))
      && r.deepSuccess + r.deepFailed == r.syncSuccess + Count(sc.acquired, StillFailedSync(sc))
      && r.deepSuccess == completed && r.persistSuccess == completed && r.apiReturned == |sc.Response()|
  {
    CountFinal(sc, Reported);
    CountFinal(sc, ReportedSynced);
    CountFinal(sc, ReportedUnsynced);
    CountFinal(sc, ReportedScored);
    CountFinal(sc, ReportedUnscored);
    CountFinal(sc, ReportedPersisted);
    PointwiseEverywhere(sc);
    ReportCounts(sc);
  }

  lemma PointwiseEverywhere(sc: Scenario)
    requires sc.Contracts() && sc.persisted
    ensures forall c :: c in sc.acquired ==> ReportPointwise(sc, c)
  {
    forall c | c in sc.acquired ensures ReportPointwise(sc, c) {
      ReportPointwiseHolds(sc, c);
    }
  }

  /** The report's equations, as counts over the pool. */
  lemma ReportCounts(sc: Scenario)
    requires forall c :: c in sc.acquired ==> ReportPointwise(sc, c)
    ensures Count(sc.acquired, FinalIs(sc, Reported)) ==
              Count(sc.acquired, FinalIs(sc, ReportedSynced)) + Count(sc.acquired, FinalIs(sc, ReportedUnsynced))
              + Count(sc.acquired, InGroup(sc, Omitted))
    ensures Count(sc.acquired, FinalIs(sc, ReportedScored)) + Count(sc.acquired, FinalIs(sc, ReportedUnscored)) ==
              Count(sc.acquired, FinalIs(sc, ReportedSynced)) + Count(sc.acquired, StillFailedSync(sc))
    ensures Count(sc.acquired, FinalIs(sc, ReportedPersisted)) == Count(sc.acquired, FinalIs(sc, IsCompleted))
    ensures Count(sc.acquired, FinalIs(sc, ReportedScored)) == Count(sc.acquired, FinalIs(sc, IsCompleted))
  {
    ThreeWaySplit(sc.acquired, FinalIs(sc, Reported), FinalIs(sc, ReportedSynced), FinalIs(sc, ReportedUnsynced),
                  InGroup(sc, Omitted));
    UnionSplit(sc.acquired, FinalIs(sc, ReportedScored), FinalIs(sc, ReportedUnscored),
               FinalIs(sc, ReportedSynced), StillFailedSync(sc));
    FilterAgrees(sc.acquired, FinalIs(sc, ReportedPersisted), FinalIs(sc, IsCompleted));
    FilterAgrees(sc.acquired, FinalIs(sc, ReportedScored), FinalIs(sc, IsCompleted));
  }

  lemma UnionSplit<T(!new)>(s: seq<T>, p: T -> bool, q: T -> bool, r: T -> bool, t: T -> bool)
    requires forall x :: x in s ==> (p(x) || q(x) <==> r(x) || t(x)) && !(p(x) && q(x)) && !(r(x) && t(x))
    ensures Count(s, p) + Count(s, q) == Count(s, r) + Count(s, t)
  {
    var either := x => p(x) || q(x);
    CountSplits(s, either, p, q);
    CountSplits(s, either, r, t);
  }

  lemma CountFinal(sc: Scenario, p: Snapshot -> bool)
    ensures Count(sc.FinalViews(), p) == Count(sc.acquired, FinalIs(sc, p))
  {
    CountMap(sc.acquired, c => sc.Final(c), p, FinalIs(sc, p));
  }

  /** How one candidate weighs in the report's four equations. */
  predicate ReportPointwise(sc: Scenario, c: CandidateId) {
    var s := sc.Final(c);
    && (ReportedPersisted(s) <==> IsCompleted(s))
    && (ReportedScored(s) <==> IsCompleted(s))
    && (Reported(s) <==> ReportedSynced(s) || ReportedUnsynced(s) || GroupOf(sc, c) == Omitted)
    && !(ReportedSynced(s) && ReportedUnsynced(s))
    && (GroupOf(sc, c) == Omitted ==> !ReportedSynced(s) && !ReportedUnsynced(s))
    && (ReportedScored(s) || ReportedUnscored(s) <==> ReportedSynced(s) || StillFailedSync(sc)(c))
    && !(ReportedScored(s) && ReportedUnscored(s)) && !(ReportedSynced(s) && StillFailedSync(sc)(c))
  }

  lemma ReportPointwiseHolds(sc: Scenario, c: CandidateId)
    requires sc.Contracts() && sc.persisted
    ensures ReportPointwise(sc, c)
  {
    Standing(sc, c);
    SelectionCoheres(sc, c);
    FinalOutcome(sc, c);
  }

  /** A run that selects nobody reports on the pool as selection left it: PASSED exactly when nobody was
      omitted by the prescorer. */
  lemma {:induction false} EmptySelectionReportPassesIff(sc: Scenario)
    requires sc.Contracts() && sc.Top() == []
    ensures GenerateReport(SelectionViews(sc), 0).Passed() <==>
            forall c :: c in sc.acquired ==> c in sc.PrescoredIds()
  {
    EmptySelectionFigures(sc);
    NoneOmittedIff(sc);
  }

  predicate Nobody(c: CandidateId) { false }

  lemma {:induction false} EmptySelectionFigures(sc: Scenario)
    requires sc.Contracts() && sc.Top() == []
    ensures var r := GenerateReport(SelectionViews(sc), 0);
      && r.selected == Count(sc.acquired, InGroup(sc, Omitted))
      && r.syncSuccess == r.syncFailed == r.deepSuccess == r.deepFailed == r.persistSuccess == r.apiReturned == 0
  {
    forall c | c in sc.acquired ensures UnselectedPointwise(sc, c) {
      SelectionCoheres(sc, c);
      Standing(sc, c);
    }
    CountZero(sc.acquired, Nobody);
    CountSelection(sc, Reported, InGroup(sc, Omitted));
    CountSelection(sc, ReportedSynced, Nobody);
    CountSelection(sc, ReportedUnsynced, Nobody);
    CountSelection(sc, ReportedScored, Nobody);
    CountSelection(sc, ReportedUnscored, Nobody);
    CountSelection(sc, ReportedPersisted, Nobody);
  }

  predicate UnselectedPointwise(sc: Scenario, c: CandidateId) {
    var s := sc.AfterSelection(c);
    && (Reported(s) <==> GroupOf(sc, c) == Omitted)
    && !ReportedSynced(s) && !ReportedUnsynced(s) && !ReportedScored(s) && !ReportedUnscored(s)
    && !ReportedPersisted(s)
  }

  lemma {:induction false} CountSelection(sc: Scenario, p: Snapshot -> bool, q: CandidateId -> bool)
    requires forall c :: c in sc.acquired ==> p(sc.AfterSelection(c)) == q(c)
    ensures Count(SelectionViews(sc), p) == Count(sc.acquired, q)
  {
    CountMap(sc.acquired, c => sc.AfterSelection(c), p, q);
  }

  /** The warning of a run: it is absent exactly when k rows are returned, and it blames evaluation only when
      enough candidates were eligible and one of the selected really did not complete. */
  lemma {:induction false} WarningIsHonest(sc: Scenario)
    requires sc.Contracts() && sc.persisted
    ensures |sc.Response()| <= sc.k
    ensures WarningFor(|sc.Response()|, |sc.Eligible()|, sc.k) == NoWarning <==> |sc.Response()| == sc.k
    ensures WarningFor(|sc.Response()|, |sc.Eligible()|, sc.k) == EvaluationFailure <==>
              |sc.Response()| < sc.k <= |sc.Eligible()|
    ensures WarningFor(|sc.Response()|, |sc.Eligible()|, sc.k) == EvaluationFailure ==>
              exists c :: c in sc.TopIds() && (IsFailure(sc.Final(c)) || Stranded(sc, c))
    ensures WarningFor(|sc.Response()|, |sc.Eligible()|, sc.k) == EvaluationFailure && sc.SyncIsSound() ==>
              exists c :: c in sc.TopIds() && IsFailure(sc.Final(c))
  {
    ResponseWithinSelection(sc);
    IdsArePrefixes(sc);
    if |sc.Response()| < |sc.TopIds()| {
      var c := SelectedButNotReturned(sc);
      if sc.SyncIsSound() {
        assert !Stranded(sc, c);
      }
    }
  }

  lemma ResponseWithinSelection(sc: Scenario)
    requires sc.Contracts() && sc.persisted
    ensures |sc.Response()| == |Filter(sc.TopIds(), sc.Returned())| <= |sc.TopIds()|
  {
    UnrankedIds(sc);
  }

  lemma SelectedButNotReturned(sc: Scenario) returns (c: CandidateId)
    requires sc.Contracts() && sc.persisted && |sc.Response()| < |sc.TopIds()|
    ensures c in sc.TopIds() && (IsFailure(sc.Final(c)) || Stranded(sc, c))
  {
    ResponseWithinSelection(sc);
    FilterMisses(sc.TopIds(), sc.Returned());
    c :| c in sc.TopIds() && !sc.Returned()(c);
    ReturnedIffCompleted(sc, c);
    ResolvedPointwiseHolds(sc, c);
    Standing(sc, c);
  }

  lemma FilterMisses<T(!new)>(s: seq<T>, p: T -> bool)
    requires |Filter(s, p)| < |s|
    ensures exists x :: x in s && !p(x)
  {
    if forall x :: x in s ==> p(x) {
      FilterAll(s, p);
    }
  }
}
