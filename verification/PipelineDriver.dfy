/** A whole scoring run over the tables (server/src/core/services/scoring_service.py): acquisition result in,
    ranked response, report and shortlist out. */
module PipelineDriver {
  import opened Common
  import opened CandidateState
  import opened Pipeline
  import opened RunAccounting
  import opened PipelineStages
  import opened ScoringStore
  import opened Synchronization
  import Throttle
  import opened Profile

  datatype RunResult =
    | Preview(matched: nat)
    | Done(summary: Summary)
    | PersistenceRefused

  /** The answer to a confirmed run; `discrepancy` is whether the service logged that its own counters disagree. */
  datatype Summary = Summary(
    matched: nat, eligible: nat, selected: nat, candidates: seq<ResponseRow>, warning: Warning,
    report: Option<Report>, discrepancy: bool)

  function WarningForNobody(k: nat): Warning {
    if k > 0 then InsufficientQualified else NoWarning
  }

  /** What a run that selected nobody answers. */
  ghost function NobodySelected(sc: Scenario): Summary {
    Summary(|sc.acquired|, |sc.Eligible()|, 0, [], WarningForNobody(sc.k),
            Some(GenerateReport(SelectionViews(sc), 0)), false)
  }

  /** What a run that selected somebody answers when its scores are stored. */
  ghost function Completion(sc: Scenario): Summary {
    var rows, views := sc.Response(), sc.FinalViews();
    Summary(|sc.acquired|, |sc.Eligible()|, |rows|, rows, WarningFor(|rows|, |sc.Eligible()|, sc.k),
            Some(GenerateReport(views, |rows|)),
            !(|sc.Top()| == Count(views, IsCompleted) + Count(views, FailedWithin(sc.k))
              && Count(views, IsCompleted) == |rows|))
  }

  /** The synchronization results and the loaded rows of a run are those of synchronizing its selection. */
  ghost predicate Refreshed(
    sc: Scenario, table: Table, answer: Answer, accepts: nat -> bool, now: int, refreshAfter: int)
  {
    var reply := Reply(table, sc.TopIds(), answer, now, refreshAfter);
    && (forall c :: c in sc.TopIds() ==>
          c in sc.sync && sc.sync[c] == ItemFor(table, reply, accepts, c, now, refreshAfter))
    && (forall c :: c in sc.local <==>
          c in sc.TopIds() && c in Applied(table, Delivered(reply), accepts, |Delivered(reply)|, now))
  }

  lemma RefreshedIsSound(sc: Scenario, table: Table, answer: Answer, accepts: nat -> bool, now: int, refreshAfter: int)
    requires Refreshed(sc, table, answer, accepts, now, refreshAfter)
    ensures sc.SyncIsSound()
  {
    SuccessesAreStored(table, Reply(table, sc.TopIds(), answer, now, refreshAfter), accepts, now, refreshAfter);
  }

  /** The states a confirmed run leaves behind. */
  function EndView(sc: Scenario): CandidateId -> Snapshot {
    if sc.Top() == [] then sc.AfterSelection else sc.Final
  }

  /** How a confirmed run over a non-empty pool ends, in its answer and in the tables. */
  ghost predicate Settled(
    sc: Scenario, result: RunResult, before: Tables, after: Tables, job: JobId, now: int, raises: nat)
  {
    if sc.Top() == [] then
      && result == Done(NobodySelected(sc))
      && after == Activated(WithoutStale(before, job, []), job)
    else
      && (sc.persisted <==> sc.Tasks() == [] || raises >= 4)
      && result == (if sc.persisted then Done(Completion(sc)) else PersistenceRefused)
      && after == (if sc.persisted then TablesAfter(sc, before, job, now)
                   else Persisted(before, job, sc.Scores(), true, now, raises))
  }

  // ================================================================ deep scoring

  lemma MissingStage(sc: Scenario)
    requires sc.Contracts() && sc.local == []
    ensures sc.Tasks() == [] && sc.Scores() == []
    ensures forall c :: Advanced(sc.TopIds(), Refused, sc.AfterSynchronization)(c) == sc.Final(c)
  {
  }

  /** Where a candidate is when its request goes out, and when it is answered. */
  function BegunIn(sc: Scenario): CandidateId -> Snapshot {
    Advanced(sc.local, Begun, sc.AfterSynchronization)
  }

  function AnsweredIn(sc: Scenario): CandidateId -> Snapshot {
    Advanced(sc.Tasks(), Resulted(sc.llm), BegunIn(sc))
  }

  lemma {:induction false} AnsweringStage(sc: Scenario, c: CandidateId)
    requires sc.Contracts() && sc.local != [] && forall x :: x in sc.local ==> x in sc.TopIds()
    ensures AnsweredIn(sc)(c) == sc.AfterDeepScoring(c)
  {
    RowsAreTasks(sc);
    Standing(sc, c);
    if c in sc.local {
      SynchronizationCoheres(sc, c);
    }
  }

  lemma {:induction false} ScoringStage(sc: Scenario, c: CandidateId, ok: bool)
    requires sc.Contracts() && sc.local != [] && forall x :: x in sc.local ==> x in sc.TopIds()
    ensures Advanced(sc.Tasks(), Stored(ok), AnsweredIn(sc))(c) == sc.(persisted := ok).Final(c)
  {
    AnsweringStage(sc, c);
    OnlyPersistenceDiffers(sc, ok, c);
  }

  lemma OnlyPersistenceDiffers(sc: Scenario, ok: bool, c: CandidateId)
    ensures sc.(persisted := ok).Final(c) ==
            if c in sc.Tasks() then PersistStep(sc.AfterDeepScoring(c), ok) else sc.AfterDeepScoring(c)
  {
    var other := sc.(persisted := ok);
    SameSelection(sc, other);
    SameTasks(sc, other);
    assert other.AfterSynchronization(c) == sc.AfterSynchronization(c) by {
      SameSynchronization(sc, other);
    }
    assert other.AfterDeepScoring(c) == sc.AfterDeepScoring(c);
  }

  lemma SameTasks(a: Scenario, b: Scenario)
    requires a.TopIds() == b.TopIds() && a.sync == b.sync && a.local == b.local
    ensures a.Rows() == b.Rows() && a.Tasks() == b.Tasks()
  {
    FilterAgrees(a.local, a.InTop(), b.InTop());
    FilterAgrees(a.Rows(), a.HasSynced(), b.HasSynced());
  }

  lemma NoRowsStage(context: PipelineExecutionContext, sc: Scenario)
    requires sc.Contracts() && sc.local == []
    requires context.Shows(Advanced(sc.TopIds(), Refused, sc.AfterSynchronization))
    ensures sc.Tasks() == [] && sc.Scores() == []
    ensures context.Shows(sc.(persisted := true).Final)
  {
    MissingStage(sc);
    forall c | c in context.order
      ensures Advanced(sc.TopIds(), Refused, sc.AfterSynchronization)(c) == sc.(persisted := true).Final(c)
    {
      OnlyPersistenceDiffers(sc, true, c);
    }
    context.ShowsToo(Advanced(sc.TopIds(), Refused, sc.AfterSynchronization), sc.(persisted := true).Final);
  }

  lemma NoTasksStage(context: PipelineExecutionContext, sc: Scenario)
    requires sc.Contracts() && sc.local != [] && forall x :: x in sc.local ==> x in sc.TopIds()
    requires sc.Tasks() == [] && context.Shows(BegunIn(sc))
    ensures sc.Scores() == []
    ensures context.Shows(sc.(persisted := true).Final)
  {
    forall c | c in context.order ensures BegunIn(sc)(c) == sc.(persisted := true).Final(c) {
      AnsweringStage(sc, c);
      ScoringStage(sc, c, true);
    }
    context.ShowsToo(BegunIn(sc), sc.(persisted := true).Final);
  }

  lemma {:induction false} PersistedStage(context: PipelineExecutionContext, sc: Scenario, ok: bool)
    requires sc.Contracts() && sc.local != [] && forall x :: x in sc.local ==> x in sc.TopIds()
    requires context.Shows(Advanced(sc.Tasks(), Stored(ok), AnsweredIn(sc)))
    ensures context.Shows(sc.(persisted := ok).Final)
  {
    forall c | c in context.order
      ensures Advanced(sc.Tasks(), Stored(ok), AnsweredIn(sc))(c) == sc.(persisted := ok).Final(c)
    {
      ScoringStage(sc, c, ok);
    }
    context.ShowsToo(Advanced(sc.Tasks(), Stored(ok), AnsweredIn(sc)), sc.(persisted := ok).Final);
  }

  /** How many requests a key is granted at a time. */
  type Positive = n: nat | n > 0 witness 1

  class ScoringService {
    const repository: ScoringRepository
    const synchronization: CandidateSynchronizationService
    const keys: nat
    const perKey: Positive

    constructor (repository: ScoringRepository, synchronization: CandidateSynchronizationService, keys: nat,
                 perKey: Positive)
      ensures this.repository == repository && this.synchronization == synchronization
      ensures this.keys == keys && this.perKey == perKey
    {
      this.repository, this.synchronization, this.keys, this.perKey := repository, synchronization, keys, perKey;
    }

    /** Ranking the answers and marking everybody's fate. */
    method Select(context: PipelineExecutionContext, answers: seq<Prescore>, threshold: int, k: nat, ghost sc: Scenario)
      returns (ranked: seq<Prescore>, top: seq<CandidateId>)
      requires sc.Contracts() && answers == sc.answers && threshold == sc.threshold && k == sc.k
      requires context.Shows(JustAcquired)
      modifies context.candidates.Values
      ensures ranked == sc.Ranked() && top == sc.TopIds()
      ensures context.Shows(sc.AfterSelection)
    {
      ranked := SortDescending(answers, HigherPrescore);
      IdsFacts(sc);
      PrescoringStage(sc);
      RecordPrescores(context, ranked, JustAcquired, sc.AfterPrescoring);
      context.ShowsToo(Midway(sc.PrescoredIds(), sc.AfterPrescoring, JustAcquired), sc.AfterPrescoring);
      var eligible := Filter(ranked, AtLeast(threshold));
      var best := if |eligible| <= k then eligible else eligible[..k];
      top := Map(best, IdOf);
      RecordSelection(context, ranked, Map(eligible, IdOf), top, sc.AfterPrescoring);
      SelectionStage(sc, context.order);
      context.ShowsToo(Advanced(context.order, FatedBy(ranked, sc.EligibleIds(), top), sc.AfterPrescoring),
                       sc.AfterSelection);
    }

    /** Selecting leaves the table to the synchronization. */
    method SelectFor(
      context: PipelineExecutionContext, answers: seq<Prescore>, threshold: int, k: nat, ghost table: Table,
      ghost sc: Scenario)
      returns (ranked: seq<Prescore>, top: seq<CandidateId>)
      requires sc.Contracts() && answers == sc.answers && threshold == sc.threshold && k == sc.k
      requires context.Shows(JustAcquired) && synchronization.Shows(table)
      modifies context.candidates.Values
      ensures ranked == sc.Ranked() && top == sc.TopIds()
      ensures context.Shows(sc.AfterSelection) && synchronization.Shows(table)
    {
      ranked, top := Select(context, answers, threshold, k, sc);
      assert synchronization.Shows(table) by {
        assert unchanged(synchronization) && forall row <- synchronization.rows.Values :: unchanged(row);
      }
    }

    /** The requests of a run: one per loaded row whose candidate synchronized. */
    method Load(context: PipelineExecutionContext, rows: seq<CandidateId>, ghost sc: Scenario)
      returns (tasks: seq<CandidateId>)
      requires sc.Contracts() && rows == sc.local && forall c :: c in rows ==> c in sc.TopIds()
      requires context.order == sc.acquired && context.Shows(sc.AfterSynchronization)
      modifies context.candidates.Values
      ensures tasks == sc.Tasks() && NoDup(tasks) && forall c :: c in tasks ==> c in context.candidates
      ensures context.Shows(BegunIn(sc))
    {
      TasksAreKnown(sc);
      tasks := CollectTasks(context, rows, sc.AfterSynchronization);
      RowsAreTasks(sc);
    }

    /** Sending the requests, crediting the answers and persisting them. */
    method ScoreTasks(
      context: PipelineExecutionContext, job: JobId, tasks: seq<CandidateId>, llm: CandidateId -> LlmResult, now: int,
      raises: nat, ghost sc: Scenario)
      returns (scores: seq<ScoreOutput>, ok: bool)
      requires tasks == sc.Tasks() && llm == sc.llm && NoDup(tasks)
      requires forall c :: c in tasks ==> c in context.candidates
      requires context.Shows(BegunIn(sc))
      modifies context.candidates.Values, repository
      ensures scores == sc.Scores() && (ok <==> raises >= 4)
      ensures context.Shows(Advanced(sc.Tasks(), Stored(ok), AnsweredIn(sc)))
      ensures repository.View() ==
              Persisted(old(repository.View()), job, sc.Scores(), true, now, if ok then 4 else raises)
    {
      scores := Ask(context, tasks, llm, sc);
      ok := PersistFor(context, job, scores, now, raises, AnsweredIn(sc));
      RecordPersistence(context, tasks, ok, AnsweredIn(sc));
    }

    /** Persisting leaves the candidates' states to the service. */
    method PersistFor(
      ghost context: PipelineExecutionContext, job: JobId, scores: seq<ScoreOutput>, now: int, raises: nat,
      ghost view: CandidateId -> Snapshot)
      returns (ok: bool)
      requires context.Shows(view)
      modifies repository
      ensures (ok <==> raises >= 4) && context.Shows(view)
      ensures repository.View() ==
              Persisted(old(repository.View()), job, scores, true, now, if ok then 4 else raises)
    {
      ok := repository.Persist(job, scores, true, now, raises);
      assert context.Shows(view) by {
        assert unchanged(context) && forall state <- context.candidates.Values :: unchanged(state);
      }
    }

    method Ask(
      context: PipelineExecutionContext, tasks: seq<CandidateId>, llm: CandidateId -> LlmResult, ghost sc: Scenario)
      returns (scores: seq<ScoreOutput>)
      requires tasks == sc.Tasks() && llm == sc.llm && NoDup(tasks)
      requires forall c :: c in tasks ==> c in context.candidates
      requires context.Shows(BegunIn(sc))
      modifies context.candidates.Values
      ensures scores == sc.Scores() && context.Shows(AnsweredIn(sc))
    {
      ScoresAreTheRuns(sc);
      var results := Throttle.Gather(tasks, keys, perKey, llm);
      scores := CollectResults(context, tasks, results, llm, BegunIn(sc));
    }

    /** Deep scoring of the selected candidates and its persistence; `raises` says which of the four persistence
        calls the database refuses, if any. */
    method DeepScore(
      context: PipelineExecutionContext, job: JobId, top: seq<CandidateId>, rows: seq<CandidateId>,
      llm: CandidateId -> LlmResult, now: int, raises: nat, ghost sc: Scenario)
      returns (scores: seq<ScoreOutput>, ok: bool)
      requires sc.Contracts() && top == sc.TopIds() && rows == sc.local && llm == sc.llm
      requires forall c :: c in rows ==> c in top
      requires context.order == sc.acquired && context.Shows(sc.AfterSynchronization)
      modifies context.candidates.Values, repository
      ensures scores == sc.Scores()
      ensures ok <==> sc.Tasks() == [] || raises >= 4
      ensures context.Shows(sc.(persisted := ok).Final)
      ensures repository.View() ==
              if sc.Tasks() == [] then old(repository.View())
              else Persisted(old(repository.View()), job, sc.Scores(), true, now, if ok then 4 else raises)
    {
      if rows == [] {
        TopIsDistinct(sc);
        RefuseMissing(context, top, sc.AfterSynchronization);
        NoRowsStage(context, sc);
        return [], true;
      }
      var tasks := Load(context, rows, sc);
      if tasks == [] {
        NoTasksStage(context, sc);
        return [], true;
      }
      scores, ok := ScoreTasks(context, job, tasks, llm, now, raises, sc);
      PersistedStage(context, sc, ok);
    }

    /** The candidates with a row among `ids`, in the order the table yields them. */
    method GetCandidatesByIds(ids: seq<CandidateId>) returns (found: seq<CandidateId>)
      ensures NoDup(found) && forall c :: c in found <==> c in synchronization.rows && c in ids
    {
      var rest := set c | c in synchronization.rows && c in ids;
      found := [];
      while rest != {}
        invariant NoDup(found)
        invariant forall c :: c in found || c in rest <==> c in synchronization.rows && c in ids
        invariant forall c :: c in rest ==> c !in found
        decreases |rest|
      {
        ghost var some := SomeMember(rest);
        var c :| c in rest;
        found, rest := found + [c], rest - {c};
      }
    }

    /** The ranked response: the selected candidates with a row and a score. */
    method Respond(
      ranked: seq<Prescore>, top: seq<CandidateId>, rows: seq<CandidateId>, scores: seq<ScoreOutput>, ghost sc: Scenario)
      returns (response: seq<ResponseRow>)
      requires sc.Contracts() && ranked == sc.Ranked() && top == sc.TopIds() && scores == sc.Scores()
      requires rows == sc.local
      ensures response == sc.Response()
    {
      var unranked: seq<ResponseRow> := [];
      for i := 0 to |top|
        invariant unranked == ResponseOf(sc, top[..i])
      {
        ResponseGrows(sc, top[..i], top[i]);
        TakeOneMore(top, i);
        var row := RowIfReturned(ranked, top[i], rows, scores, sc);
        if row.Some? {
          unranked := unranked + [row.value];
        }
      }
      assert top[..|top|] == top;
      RankingGivesResponse(sc);
      response := SortDescending(unranked, BetterRow);
    }

    method RowIfReturned(
      ranked: seq<Prescore>, c: CandidateId, rows: seq<CandidateId>, scores: seq<ScoreOutput>, ghost sc: Scenario)
      returns (row: Option<ResponseRow>)
      requires sc.Contracts() && ranked == sc.Ranked() && c in sc.TopIds() && scores == sc.Scores() && rows == sc.local
      ensures row == if sc.Returned()(c) then Some(sc.RowFor(c)) else None
    {
      var score := LastScore(scores, c);
      row := None;
      if c in rows && score.Some? {
        var found := RowOf(ranked, c, score.value, sc);
        row := Some(found);
      }
    }

    /** A returned candidate's row, looked up by id in the ranked prescores. */
    method RowOf(ranked: seq<Prescore>, c: CandidateId, score: ScoreOutput, ghost sc: Scenario) returns (row: ResponseRow)
      requires sc.Contracts() && ranked == sc.Ranked() && c in sc.TopIds() && LastScore(sc.Scores(), c) == Some(score)
      ensures row == sc.RowFor(c)
    {
      RowIsLookup(sc, c);
      var position := Position(ranked, c).value;
      row := ResponseRow(c, position + 1, ranked[position].score, score.finalScore);
    }

    /** Bringing the selected candidates up to date and loading their rows. */
    method Refresh(
      context: PipelineExecutionContext, top: seq<CandidateId>, answer: Answer, accepts: nat -> bool, now: int,
      refreshAfter: int, ghost table: Table, ghost selection: Scenario)
      returns (results: map<CandidateId, SyncItem>, rows: seq<CandidateId>)
      requires selection.Contracts() && top == selection.TopIds()
      requires context.Shows(selection.AfterSelection) && synchronization.Shows(table)
      modifies context.candidates.Values, synchronization, synchronization.rows.Values
      ensures NoDup(rows) && forall c :: c in rows ==> c in top
      ensures var reply := Reply(table, top, answer, now, refreshAfter);
        && (forall c :: c in top ==> c in results && results[c] == ItemFor(table, reply, accepts, c, now, refreshAfter))
        && (forall c :: c in rows <==>
              c in top && c in Applied(table, Delivered(reply), accepts, |Delivered(reply)|, now))
      ensures context.Shows(selection.(sync := results, local := rows).AfterSynchronization)
    {
      results := SynchronizeFor(context, top, answer, accepts, now, refreshAfter, table, selection.AfterSelection);
      rows := ApplyResults(context, top, results, selection);
    }

    /** Synchronizing leaves the candidates' states to the service. */
    method SynchronizeFor(
      ghost context: PipelineExecutionContext, top: seq<CandidateId>, answer: Answer, accepts: nat -> bool, now: int,
      refreshAfter: int, ghost table: Table, ghost view: CandidateId -> Snapshot)
      returns (results: map<CandidateId, SyncItem>)
      requires context.Shows(view) && synchronization.Shows(table)
      modifies synchronization, synchronization.rows.Values
      ensures var reply := Reply(table, top, answer, now, refreshAfter);
        && (forall c :: c in top ==> c in results && results[c] == ItemFor(table, reply, accepts, c, now, refreshAfter))
        && synchronization.rows.Keys == Applied(table, Delivered(reply), accepts, |Delivered(reply)|, now).Keys
      ensures context.Shows(view)
    {
      ghost var reply;
      results, reply := synchronization.Synchronize(top, now, refreshAfter, answer, accepts, table);
      assert context.Shows(view) by {
        assert unchanged(context) && forall state <- context.candidates.Values :: unchanged(state);
      }
    }

    method ApplyResults(
      context: PipelineExecutionContext, top: seq<CandidateId>, results: map<CandidateId, SyncItem>,
      ghost selection: Scenario)
      returns (rows: seq<CandidateId>)
      requires selection.Contracts() && top == selection.TopIds()
      requires context.Shows(selection.AfterSelection)
      modifies context.candidates.Values
      ensures NoDup(rows) && forall c :: c in rows <==> c in synchronization.rows && c in top
      ensures context.Shows(selection.(sync := results, local := rows).AfterSynchronization)
    {
      TopIsDistinct(selection);
      RecordSynchronization(context, top, results, selection.AfterSelection);
      SynchronizedNow(context, selection, results);
      rows := GetCandidatesByIds(top);
      LoadedNow(context, selection.(sync := results), selection.(sync := results, local := rows));
    }

    /** Everything from synchronization on, for a run that selected somebody. */
    method Finish(
      context: PipelineExecutionContext, job: JobId, ranked: seq<Prescore>, top: seq<CandidateId>,
      llm: CandidateId -> LlmResult, answer: Answer, accepts: nat -> bool, now: int, refreshAfter: int, raises: nat,
      ghost table: Table, ghost selection: Scenario)
      returns (response: Option<seq<ResponseRow>>, ghost sc: Scenario)
      requires selection.Contracts() && selection.llm == llm
      requires ranked == selection.Ranked() && top == selection.TopIds()
      requires context.order == selection.acquired && context.Shows(selection.AfterSelection)
      requires synchronization.Shows(table)
      modifies context.candidates.Values, repository, synchronization, synchronization.rows.Values
      ensures sc.acquired == selection.acquired && sc.threshold == selection.threshold && sc.k == selection.k
      ensures sc.answers == selection.answers && sc.llm == llm
      ensures sc.Contracts() && Refreshed(sc, table, answer, accepts, now, refreshAfter)
      ensures context.Shows(sc.Final)
      ensures response == if sc.persisted then Some(sc.Response()) else None
      ensures sc.persisted <==> sc.Tasks() == [] || raises >= 4
      ensures repository.View() ==
              if sc.Tasks() == [] then old(repository.View())
              else Persisted(old(repository.View()), job, sc.Scores(), true, now, if sc.persisted then 4 else raises)
    {
      var results, rows := Refresh(context, top, answer, accepts, now, refreshAfter, table, selection);
      ghost var loaded := selection.(sync := results, local := rows);
      SameSelection(selection, loaded);
      var scores, ok := DeepScore(context, job, top, rows, llm, now, raises, loaded);
      sc := loaded.(persisted := ok);
      SameRun(loaded, ok);
      if ok {
        var ranking := Respond(ranked, top, rows, scores, sc);
        response := Some(ranking);
      } else {
        response := None;
      }
    }

    /** A run over an acquired pool. The arguments after `confirm` are what the collaborators answer if asked. */
    method Run(
      job: JobId, pool: seq<CandidateId>, threshold: int, k: nat, confirm: bool, answers: seq<Prescore>,
      llm: CandidateId -> LlmResult, answer: Answer, accepts: nat -> bool, now: int, refreshAfter: int, raises: nat,
      ghost table: Table)
      returns (result: RunResult, context: PipelineExecutionContext, ghost sc: Scenario)
      requires Scenario(pool, threshold, k, answers, map[], [], llm, true).Contracts()
      requires synchronization.Shows(table)
      modifies repository, synchronization, synchronization.rows.Values
      ensures !confirm ==> result == Preview(|pool|) && repository.View() == old(repository.View())
      ensures confirm && pool == [] ==>
                result == Done(Summary(0, 0, 0, [], WarningForNobody(k), None, false))
                && repository.View() == Activated(old(repository.View()), job)
      ensures confirm && pool != [] ==>
                && sc.acquired == pool && sc.threshold == threshold && sc.k == k && sc.answers == answers
                && sc.llm == llm && sc.Contracts() && Refreshed(sc, table, answer, accepts, now, refreshAfter)
                && context.Shows(EndView(sc))
                && Settled(sc, result, old(repository.View()), repository.View(), job, now, raises)
      ensures result.Done? ==> !result.summary.discrepancy
      ensures result.Done? ==>
                && result.summary.matched == |pool|
                && result.summary.eligible == (if pool == [] then 0 else |Filter(answers, AtLeast(threshold))|)
                && (result.summary.warning == NoWarning <==> |result.summary.candidates| >= k)
                && (result.summary.warning == EvaluationFailure <==>
                      |result.summary.candidates| < k <= result.summary.eligible)
      ensures result.Done? ==>
                forall i, j :: 0 <= i < j < |result.summary.candidates| ==>
                  var a, b := result.summary.candidates[i], result.summary.candidates[j];
                  a.finalScore > b.finalScore || (a.finalScore == b.finalScore && a.prescoreRank < b.prescoreRank)
      ensures result.Done? && pool != [] ==>
                var before, after, rows := old(repository.View()), repository.View(), result.summary.candidates;
                || (rows == [] && after == before)
                || (&& IdsOf(after.pipeline, job) == IdsOf(after.scores, job) == ToSet(Map(rows, RowId))
                    && (Active in before.codes && job in before.jobs ==> after.jobs[job].status == Active))
    {
      sc := Scenario(pool, threshold, k, answers, map[], [], llm, true);
      context := new PipelineExecutionContext(pool);
      if !confirm {
        return Preview(|pool|), context, sc;
      }
      if pool == [] {
        repository.TransitionToActiveIfNeeded(job);
        return Done(Summary(0, 0, 0, [], WarningForNobody(k), None, false)), context, sc;
      }
      result, sc := Evaluate(context, job, answers, threshold, k, llm, answer, accepts, now, refreshAfter, raises, table, sc);
      SettledWithoutDiscrepancy(sc, result, old(repository.View()), repository.View(), job, table, answer, accepts, now,
                                refreshAfter, raises);
      AnswersInOrder(sc, result, old(repository.View()), repository.View(), job, now, raises);
      AnswerIsStored(sc, result, old(repository.View()), repository.View(), job, now, raises);
    }

    /** A confirmed run over the candidates of `context`, from prescoring on. */
    method Evaluate(
      context: PipelineExecutionContext, job: JobId, answers: seq<Prescore>, threshold: int, k: nat,
      llm: CandidateId -> LlmResult, answer: Answer, accepts: nat -> bool, now: int, refreshAfter: int, raises: nat,
      ghost table: Table, ghost start: Scenario)
      returns (result: RunResult, ghost sc: Scenario)
      requires start == Scenario(context.order, threshold, k, answers, map[], [], llm, true) && start.Contracts()
      requires context.Shows(JustAcquired) && synchronization.Shows(table)
      modifies context.candidates.Values, repository, synchronization, synchronization.rows.Values
      ensures sc.acquired == start.acquired && sc.threshold == threshold && sc.k == k && sc.answers == answers
      ensures sc.llm == llm && sc.Contracts() && Refreshed(sc, table, answer, accepts, now, refreshAfter)
      ensures context.Shows(EndView(sc))
      ensures Settled(sc, result, old(repository.View()), repository.View(), job, now, raises)
    {
      sc := start;
      var ranked, top := SelectFor(context, answers, threshold, k, table, sc);
      var views := context.ViewsOf(context.order);
      SelectionCounted(context, sc);
      if Count(views, IsUnresolved) == 0 {
        result := AnswerNobody(context, job, k, sc, now, raises);
      } else {
        result, sc := AnswerSomebody(context, job, ranked, top, k, llm, answer, accepts, now, refreshAfter, raises, table, sc);
      }
    }

    /** Nobody was selected: the shortlist is cleared and the pool reported on as it is. */
    method AnswerNobody(context: PipelineExecutionContext, job: JobId, k: nat, ghost sc: Scenario, ghost now: int,
                        ghost raises: nat)
      returns (result: RunResult)
      requires sc.Contracts() && sc.k == k && sc.Top() == []
      requires context.order == sc.acquired && context.Shows(sc.AfterSelection)
      modifies repository
      ensures context.Shows(EndView(sc))
      ensures Settled(sc, result, old(repository.View()), repository.View(), job, now, raises)
    {
      repository.DeleteStale(job, []);
      repository.TransitionToActiveIfNeeded(job);
      var views := context.ViewsOf(context.order);
      SelectionCounted(context, sc);
      result := Done(Summary(Count(views, WasAcquired), Count(views, IsEligible), 0, [], WarningForNobody(k),
                             Some(GenerateReport(views, 0)), false));
    }

    /** Somebody was selected: the rest of the run, its summary and its self-check. */
    method AnswerSomebody(
      context: PipelineExecutionContext, job: JobId, ranked: seq<Prescore>, top: seq<CandidateId>, k: nat,
      llm: CandidateId -> LlmResult, answer: Answer, accepts: nat -> bool, now: int, refreshAfter: int, raises: nat,
      ghost table: Table, ghost selection: Scenario)
      returns (result: RunResult, ghost sc: Scenario)
      requires selection.Contracts() && selection.llm == llm && selection.k == k && selection.Top() != []
      requires ranked == selection.Ranked() && top == selection.TopIds()
      requires context.order == selection.acquired && context.Shows(selection.AfterSelection)
      requires synchronization.Shows(table)
      modifies context.candidates.Values, repository, synchronization, synchronization.rows.Values
      ensures sc.acquired == selection.acquired && sc.threshold == selection.threshold && sc.k == k
      ensures sc.answers == selection.answers && sc.llm == llm
      ensures sc.Contracts() && Refreshed(sc, table, answer, accepts, now, refreshAfter)
      ensures context.Shows(EndView(sc))
      ensures Settled(sc, result, old(repository.View()), repository.View(), job, now, raises)
    {
      var views := context.ViewsOf(context.order);
      SelectionCounted(context, selection);
      var matched, eligible := Count(views, WasAcquired), Count(views, IsEligible);
      var selected := Count(views, IsUnresolved);
      var response;
      response, sc := Finish(context, job, ranked, top, llm, answer, accepts, now, refreshAfter, raises, table, selection);
      SameSelection(selection, sc);
      if response.None? {
        return PersistenceRefused, sc;
      }
      result := Done(Summarize(context, matched, eligible, selected, k, response.value, sc));
    }

    function Summarize(context: PipelineExecutionContext, matched: nat, eligible: nat, selected: nat, k: nat,
                       rows: seq<ResponseRow>, ghost sc: Scenario): (r: Summary)
      requires context.order == sc.acquired && context.Shows(sc.Final) && rows == sc.Response() && k == sc.k
      requires matched == |sc.acquired| && eligible == |sc.Eligible()| && selected == |sc.Top()|
      reads context, context.candidates.Values
      ensures r == Completion(sc)
    {
      FinalCounted(context, sc);
      var views := context.ViewsOf(context.order);
      var completed, failed := Count(views, IsCompleted), Count(views, FailedWithin(k));
      Summary(matched, eligible, |rows|, rows, WarningFor(|rows|, eligible, k), Some(GenerateReport(views, |rows|)),
              !(selected == completed + failed && completed == |rows|))
    }
  }

  ghost function ResponseOf(sc: Scenario, ids: seq<CandidateId>): seq<ResponseRow> {
    if ids == [] then []
    else
      var n := |ids| - 1;
      ResponseOf(sc, ids[..n]) + if sc.Returned()(ids[n]) then [sc.RowFor(ids[n])] else []
  }

  lemma ResponseGrows(sc: Scenario, ids: seq<CandidateId>, c: CandidateId)
    ensures ResponseOf(sc, ids + [c]) == ResponseOf(sc, ids) + if sc.Returned()(c) then [sc.RowFor(c)] else []
    ensures sc.Returned()(c) <==> c in sc.local && LastScore(sc.Scores(), c).Some?
  {
    assert (ids + [c])[..|ids|] == ids;
  }

  lemma {:induction false} ResponseIsRuns(sc: Scenario, ids: seq<CandidateId>)
    ensures ResponseOf(sc, ids) == Map(Filter(ids, sc.Returned()), c => sc.RowFor(c))
  {
    if ids != [] {
      var n, f := |ids| - 1, (c: CandidateId) => sc.RowFor(c);
      ResponseIsRuns(sc, ids[..n]);
      MapSnoc(Filter(ids[..n], sc.Returned()), ids[n], f);
    }
  }

  lemma RankingGivesResponse(sc: Scenario)
    ensures SortDescending(ResponseOf(sc, sc.TopIds()), BetterRow) == sc.Response()
  {
    ResponseIsRuns(sc, sc.TopIds());
  }

  lemma SynchronizedNow(context: PipelineExecutionContext, selection: Scenario, results: map<CandidateId, SyncItem>)
    requires context.Shows(Advanced(selection.TopIds(), SyncedBy(results), selection.AfterSelection))
    ensures context.Shows(selection.(sync := results).AfterSynchronization)
  {
    var synced := selection.(sync := results);
    SameSelection(selection, synced);
    SynchronizationStage(synced);
    context.ShowsToo(Advanced(selection.TopIds(), SyncedBy(results), selection.AfterSelection),
                     synced.AfterSynchronization);
  }

  lemma LoadedNow(context: PipelineExecutionContext, synced: Scenario, loaded: Scenario)
    requires context.Shows(synced.AfterSynchronization) && loaded == synced.(local := loaded.local)
    ensures context.Shows(loaded.AfterSynchronization)
  {
    SameSynchronization(synced, loaded);
    context.ShowsToo(synced.AfterSynchronization, loaded.AfterSynchronization);
  }

  lemma SameRun(loaded: Scenario, ok: bool)
    ensures var sc := loaded.(persisted := ok);
      sc.Ranked() == loaded.Ranked() && sc.TopIds() == loaded.TopIds() && sc.Tasks() == loaded.Tasks()
      && sc.Scores() == loaded.Scores()
  {
    var sc := loaded.(persisted := ok);
    SameSelection(loaded, sc);
    SameTasks(loaded, sc);
    ScoresAreTheRuns(loaded);
    ScoresAreTheRuns(sc);
  }

  /** Looking a returned candidate up by id, in the ranked prescores and in the scores, finds its own figures. */
  lemma RowIsLookup(sc: Scenario, c: CandidateId)
    requires sc.Contracts() && c in sc.TopIds() && LastScore(sc.Scores(), c).Some?
    ensures Position(sc.Ranked(), c).Some?
    ensures var position := Position(sc.Ranked(), c).value;
      sc.RowFor(c) == ResponseRow(c, position + 1, sc.Ranked()[position].score,
                                  LastScore(sc.Scores(), c).value.finalScore)
  {
    Standing(sc, c);
    ScoreIsOwn(sc, LastScore(sc.Scores(), c).value);
  }

  lemma ScoreIsOwn(sc: Scenario, score: ScoreOutput)
    requires sc.Contracts() && score in sc.Scores()
    ensures score == sc.ScoreOf(score.candidateId)
  {
    var asked := Filter(sc.Tasks(), sc.Answered());
    FilterMembers(sc.Tasks(), sc.Answered());
    var i :| 0 <= i < |sc.Scores()| && sc.Scores()[i] == score;
    assert score == sc.ScoreOf(asked[i]) && asked[i] in asked;
  }

  lemma SelectionCounted(context: PipelineExecutionContext, sc: Scenario)
    requires sc.Contracts() && context.order == sc.acquired && context.Shows(sc.AfterSelection)
    ensures context.ViewsOf(context.order) == SelectionViews(sc)
    ensures Count(SelectionViews(sc), WasAcquired) == |sc.acquired|
    ensures Count(SelectionViews(sc), IsEligible) == |sc.Eligible()|
    ensures Count(SelectionViews(sc), IsUnresolved) == |sc.Top()|
  {
    context.ViewsShown(context.order, sc.AfterSelection);
    SelectionCounters(sc);
  }

  lemma FinalCounted(context: PipelineExecutionContext, sc: Scenario)
    requires context.order == sc.acquired && context.Shows(sc.Final)
    ensures context.ViewsOf(context.order) == sc.FinalViews()
  {
    context.ViewsShown(context.order, sc.Final);
  }

  lemma TopIsDistinct(sc: Scenario)
    requires sc.Contracts()
    ensures NoDup(sc.TopIds())
  {
    IdsFacts(sc);
  }

  lemma TasksAreKnown(sc: Scenario)
    requires sc.Contracts() && forall c :: c in sc.local ==> c in sc.TopIds()
    ensures NoDup(sc.Tasks()) && forall c :: c in sc.local + sc.Tasks() ==> c in sc.acquired
  {
    FilterNoDup(sc.local, sc.InTop());
    FilterNoDup(sc.Rows(), sc.HasSynced());
    RowsAndTasks(sc);
    IdsFacts(sc);
  }

  // ================================================================ what a run guarantees

  /** A completed run never logs a discrepancy: selected == completed + failed and completed == returned, whatever
      the synchronization, the scorer and the prescorer left out or failed to do. Nobody is left without an
      outcome, every state is coherent, and the response is the completed candidates in ranked order. */
  lemma {:induction false} CompletedRunBalances(sc: Scenario)
    requires sc.Contracts() && sc.persisted && sc.SyncIsSound()
    ensures !Completion(sc).discrepancy
    ensures Completion(sc).warning == EvaluationFailure ==> exists c :: c in sc.TopIds() && IsFailure(sc.Final(c))
    ensures forall c :: c in sc.acquired ==> sc.Final(c).Coherent() && sc.Final(c).outcome != Unresolved
    ensures multiset(Map(Completion(sc).candidates, RowId)) == multiset(Filter(sc.acquired, FinalIs(sc, IsCompleted)))
    ensures forall i, j :: 0 <= i < j < |Completion(sc).candidates| ==>
              var a, b := Completion(sc).candidates[i], Completion(sc).candidates[j];
              a.finalScore > b.finalScore || (a.finalScore == b.finalScore && a.prescoreRank < b.prescoreRank)
  {
    SoundSyncBalancesTheRun(sc);
    SelectionCounters(sc);
    ResponseIsRankedCompletions(sc);
    WarningIsHonest(sc);
    forall c | c in sc.acquired ensures sc.Final(c).Coherent() {
      FinalOutcome(sc, c);
    }
  }

  lemma {:induction false} SettledWithoutDiscrepancy(
    sc: Scenario, result: RunResult, before: Tables, after: Tables, job: JobId, table: Table, answer: Answer,
    accepts: nat -> bool, now: int, refreshAfter: int, raises: nat)
    requires sc.Contracts() && Refreshed(sc, table, answer, accepts, now, refreshAfter)
    requires Settled(sc, result, before, after, job, now, raises)
    ensures result.Done? ==> !result.summary.discrepancy
  {
    if sc.Top() != [] && sc.persisted {
      RefreshedIsSound(sc, table, answer, accepts, now, refreshAfter);
      CompletedRunBalances(sc);
    }
  }

  /** What a run answers, spelled out: the pool, those of it at or above the threshold, the best final score first and
      among equals the better prescore, and why the list is short, if it is. */
  lemma {:induction false} AnswersInOrder(
    sc: Scenario, result: RunResult, before: Tables, after: Tables, job: JobId, now: int, raises: nat)
    requires sc.Contracts() && Settled(sc, result, before, after, job, now, raises)
    ensures result.Done? ==>
              && result.summary.matched == |sc.acquired|
              && result.summary.eligible == |Filter(sc.answers, AtLeast(sc.threshold))|
              && (result.summary.warning == NoWarning <==> |result.summary.candidates| >= sc.k)
              && (result.summary.warning == EvaluationFailure <==>
                    |result.summary.candidates| < sc.k <= result.summary.eligible)
    ensures result.Done? ==>
              forall i, j :: 0 <= i < j < |result.summary.candidates| ==>
                var a, b := result.summary.candidates[i], result.summary.candidates[j];
                a.finalScore > b.finalScore || (a.finalScore == b.finalScore && a.prescoreRank < b.prescoreRank)
  {
    RankingKeepsEligible(sc);
    if sc.Top() == [] {
      IdsArePrefixes(sc);
      SelectionIsPrefix(sc);
    } else if sc.persisted {
      WarningIsHonest(sc);
      ResponseIsRankedCompletions(sc);
    }
  }

  lemma {:induction false} RankingKeepsEligible(sc: Scenario)
    ensures |sc.Eligible()| == |Filter(sc.answers, AtLeast(sc.threshold))|
  {
    FilterMultiset(sc.Ranked(), sc.answers, AtLeast(sc.threshold));
  }

  /** The execution report of a completed run says PASSED exactly when the prescorer answered everybody and no
      selected candidate's stale profile stayed unrefreshed (sourcing unreachable, profile not delivered, or not
      stored). */
  lemma {:induction false} ReportFailsOnStaleProfiles(
    sc: Scenario, table: Table, answer: Answer, accepts: nat -> bool, now: int, refreshAfter: int)
    requires sc.Contracts() && sc.persisted && Refreshed(sc, table, answer, accepts, now, refreshAfter)
    ensures GenerateReport(sc.FinalViews(), |sc.Response()|).Passed() <==>
      && (forall c :: c in sc.acquired ==> c in sc.PrescoredIds())
      && (forall c :: c in sc.TopIds() ==>
            !Unrefreshed(table, Reply(table, sc.TopIds(), answer, now, refreshAfter), accepts, c, now, refreshAfter))
  {
    var reply := Reply(table, sc.TopIds(), answer, now, refreshAfter);
    ReportPassesIff(sc);
    forall c | c in sc.TopIds()
      ensures !sc.Synced(c) && c in sc.local <==> Unrefreshed(table, reply, accepts, c, now, refreshAfter)
    {
      FailedButStoredIff(table, reply, accepts, now, refreshAfter, c);
    }
  }

  /** One candidate, selected; its profile is out of date or not there at all, and the sourcing service cannot be
      reached. */
  function Unreachable(local: seq<CandidateId>): Scenario {
    Scenario([1], 0, 1, [Prescore(1, 50)], map[1 := SyncItem(false, Some("SOURCING_CLIENT_ERROR"))], local,
             c => Payload(ScoreOutput(c, 80.0, 90.0)), true)
  }

  lemma {:induction false} UnreachableSelects(local: seq<CandidateId>)
    requires NoDup(local)
    ensures var sc := Unreachable(local); sc.Contracts() && sc.TopIds() == [1] && sc.PrescoredIds() == [1]
  {
    OneSelected(Unreachable(local), Prescore(1, 50));
    OneAnswerKept(Unreachable(local), Prescore(1, 50));
  }

  lemma {:induction false} MissingProfileIsRefreshed(accepts: nat -> bool)
    ensures Unreachable([]).Contracts() && Refreshed(Unreachable([]), map[], FetchFailed, accepts, 10, 5)
  {
    UnreachableSelects([]);
    NotFetched(Unreachable([]), map[], accepts, 1, 10, 5);
  }

  /** Nothing is delivered, and the one selected candidate keeps its row, or has none. */
  lemma {:induction false} NotFetched(
    sc: Scenario, table: Table, accepts: nat -> bool, c: CandidateId, now: int, refreshAfter: int)
    requires sc.TopIds() == [c] && FreshnessOf(table, c, now, refreshAfter) != Fresh
    requires c in sc.sync && sc.sync[c] == SyncItem(false, Some("SOURCING_CLIENT_ERROR"))
    requires sc.local == if c in table then [c] else []
    ensures Refreshed(sc, table, FetchFailed, accepts, now, refreshAfter)
  {
    assert c in sc.TopIds();
    assert Reply(table, sc.TopIds(), FetchFailed, now, refreshAfter) == FetchFailed;
    assert Applied(table, [], accepts, 0, now) == table && LastVerdict([], accepts, 0, c) == None;
  }

  lemma {:induction false} StaleProfileIsRefreshed(profile: CandidateProfile, accepts: nat -> bool)
    ensures var sc := Unreachable([1]);
      && sc.Contracts() && sc.TopIds() == [1]
      && Refreshed(sc, map[1 := LocalRow(profile, 0)], FetchFailed, accepts, 10, 5)
  {
    UnreachableSelects([1]);
    NotFetched(Unreachable([1]), map[1 := LocalRow(profile, 0)], accepts, 1, 10, 5);
  }

  /** A run that fails its report for a profile last refreshed ten days ago, five being allowed. */
  lemma {:induction false} StaleProfileFailsReport(profile: CandidateProfile, accepts: nat -> bool)
    ensures var sc, table := Unreachable([1]), map[1 := LocalRow(profile, 0)];
      && sc.Contracts() && Refreshed(sc, table, FetchFailed, accepts, 10, 5)
      && !GenerateReport(sc.FinalViews(), |sc.Response()|).Passed()
  {
    StaleProfileIsRefreshed(profile, accepts);
    StillStoredFails(Unreachable([1]), 1);
  }

  /** The tables a completed run over a non-empty selection leaves. */
  ghost function TablesAfter(sc: Scenario, before: Tables, job: JobId, now: int): Tables {
    if sc.Tasks() == [] then before else Persisted(before, job, sc.Scores(), true, now, 4)
  }

  /** The shortlist a completed run leaves is the list it returned, unless no request was ever made: then nothing
      is written, and an older shortlist outlives an empty answer. */
  lemma {:induction false} ShortlistIsTheResponseIff(sc: Scenario, before: Tables, job: JobId, now: int)
    requires sc.Contracts() && sc.persisted
    ensures var after := TablesAfter(sc, before, job, now);
      && (IdsOf(after.pipeline, job) == ToSet(Map(sc.Response(), RowId)) <==>
            sc.Tasks() != [] || IdsOf(before.pipeline, job) == {})
      && (sc.Tasks() != [] ==>
            IdsOf(after.scores, job) == IdsOf(after.pipeline, job)
            && EntriesRetained(before.pipeline, after.pipeline, job, now) && OthersUntouched(before, after, job))
  {
    ResponseIds(sc);
    if sc.Tasks() != [] {
      PersistenceReplacesTheShortlist(before, job, sc.Scores(), now);
    } else {
      assert ToSet(Map(sc.Scores(), ScoredId)) == {};
    }
  }

  /** A run that answers with nobody and leaves another candidate of an earlier run on the shortlist. */
  lemma {:induction false} OldShortlistSurvives(before: Tables, accepts: nat -> bool, now: int)
    requires before.pipeline == map[(7, 2) := NewEntry("SHORTLISTED", 0)]
    ensures var sc := Unreachable([]);
      && sc.Contracts() && Refreshed(sc, map[], FetchFailed, accepts, 10, 5)
      && sc.Response() == [] && IdsOf(TablesAfter(sc, before, 7, now).pipeline, 7) == {2}
  {
    MissingProfileIsRefreshed(accepts);
    NoRowNoAnswer(Unreachable([]));
    assert (7, 2) in before.pipeline;
  }

  lemma {:induction false} NoRowNoAnswer(sc: Scenario)
    requires sc.local == []
    ensures sc.Tasks() == [] && sc.Response() == []
  {
    CountZero(sc.TopIds(), sc.Returned());
  }

  /** Unless it wrote nothing and answers nobody, a run leaves the job active with exactly its answer on the
      shortlist. */
  lemma {:induction false} AnswerIsStored(
    sc: Scenario, result: RunResult, before: Tables, after: Tables, job: JobId, now: int, raises: nat)
    requires sc.Contracts() && Settled(sc, result, before, after, job, now, raises)
    ensures result.Done? ==>
              var rows := result.summary.candidates;
              || (rows == [] && after == before)
              || (&& IdsOf(after.pipeline, job) == IdsOf(after.scores, job) == ToSet(Map(rows, RowId))
                  && (Active in before.codes && job in before.jobs ==> after.jobs[job].status == Active))
  {
    if sc.Top() != [] && sc.persisted {
      ResponseIds(sc);
      if sc.Tasks() != [] {
        PersistenceReplacesTheShortlist(before, job, sc.Scores(), now);
      } else {
        NoTaskNoRow(sc);
      }
    }
  }

  lemma {:induction false} NoTaskNoRow(sc: Scenario)
    requires sc.Contracts() && sc.persisted && sc.Tasks() == []
    ensures sc.Response() == []
  {
    ResponseIds(sc);
    assert sc.Scores() == [];
    SomeMembersIff(Map(sc.Response(), RowId));
  }

  lemma ResponseIds(sc: Scenario)
    requires sc.Contracts() && sc.persisted
    ensures ToSet(Map(sc.Response(), RowId)) == ToSet(Map(sc.Scores(), ScoredId))
  {
    ResponseIsRankedCompletions(sc);
    SameMultisetSameMembers(Map(sc.Response(), RowId), Filter(sc.acquired, FinalIs(sc, IsCompleted)));
    FilterMembers(sc.acquired, FinalIs(sc, IsCompleted));
    forall c ensures c in Map(sc.Response(), RowId) <==> c in Map(sc.Scores(), ScoredId) {
      ReturnedIffCompleted(sc, c);
      ScoredIds(sc);
      Standing(sc, c);
    }
  }
}
