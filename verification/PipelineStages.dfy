/** The stages of a run on mutable candidate states (server/src/core/services/scoring_service.py): every loop
    leaves each candidate in the state `Pipeline` computes for it. */
module PipelineStages {
  import opened Common
  import opened CandidateState
  import opened Pipeline
  import opened RunAccounting

  /** Before anything but acquisition happened to a candidate. */
  function JustAcquired(c: CandidateId): Snapshot {
    NEW_CANDIDATE.Acquired()
  }

  /** The states when the candidates in `done` have been taken from `before` to `after`. */
  function Midway(done: seq<CandidateId>, after: CandidateId -> Snapshot, before: CandidateId -> Snapshot):
    (r: CandidateId -> Snapshot)
    ensures forall c :: r(c) == if c in done then after(c) else before(c)
  {
    (c: CandidateId) => if c in done then after(c) else before(c)
  }

  class PipelineExecutionContext {
    const order: seq<CandidateId>
    var candidates: map<CandidateId, PipelineCandidateState>

    ghost predicate Valid()
      reads this
    {
      && NoDup(order)
      && (forall c :: c in candidates <==> c in order)
      && forall c :: c in candidates ==> candidates[c].candidateId == c
    }

    ghost predicate Shows(view: CandidateId -> Snapshot)
      reads this, candidates.Values
    {
      Valid() && forall c :: c in candidates ==> candidates[c].View() == view(c)
    }

    constructor (pool: seq<CandidateId>)
      requires NoDup(pool)
      ensures order == pool && fresh(candidates.Values)
      ensures Shows(JustAcquired)
    {
      order, candidates := pool, map[];
      new;
      for i := 0 to |pool|
        invariant forall c :: c in candidates ==> fresh(candidates[c])
        invariant forall c :: c in candidates <==> c in pool[..i]
        invariant forall c :: c in candidates ==>
                    candidates[c].candidateId == c && candidates[c].View() == JustAcquired(c)
      {
        assert pool[..i + 1] == pool[..i] + [pool[i]];
        ghost var existing := candidates.Values;
        var state := new PipelineCandidateState(pool[i]);
        assert state !in existing && forall c :: c in candidates ==> candidates[c] in existing;
        state.MarkAcquired();
        candidates := candidates[pool[i] := state];
      }
      assert pool[..|pool|] == pool;
      forall v | v in candidates.Values ensures fresh(v) {
        var c := SomeKey(candidates, v);
      }
    }

    lemma ShowsToo(v: CandidateId -> Snapshot, w: CandidateId -> Snapshot)
      requires Shows(v) && forall c :: c in order ==> v(c) == w(c)
      ensures Shows(w)
    {
    }

    function ViewsOf(ids: seq<CandidateId>): seq<Snapshot>
      requires forall c :: c in ids ==> c in candidates
      reads this, candidates.Values
    {
      if ids == [] then []
      else
        var last := ids[|ids| - 1];
        assert last in ids;
        ViewsOf(ids[..|ids| - 1]) + [candidates[last].View()]
    }

    lemma {:induction false} ViewsShown(ids: seq<CandidateId>, view: CandidateId -> Snapshot)
      requires Shows(view) && forall c :: c in ids ==> c in candidates
      ensures ViewsOf(ids) == Map(ids, view)
    {
      if ids != [] {
        ViewsShown(ids[..|ids| - 1], view);
        assert ids[|ids| - 1] in ids;
      }
    }
  }

  /** One turn of a stage's loop: c has reached its new state and nobody else moved. */
  lemma OneMoreDone(
    context: PipelineExecutionContext, done: seq<CandidateId>, c: CandidateId,
    after: CandidateId -> Snapshot, before: CandidateId -> Snapshot)
    requires context.Valid() && c !in done
    requires c in context.candidates ==> context.candidates[c].View() == after(c)
    requires forall x :: x in context.candidates && x != c ==>
               context.candidates[x].View() == Midway(done, after, before)(x)
    ensures context.Shows(Midway(done + [c], after, before))
  {
  }

  lemma NextUndone(ids: seq<CandidateId>, i: nat)
    requires NoDup(ids) && i < |ids|
    ensures ids[i] in ids && ids[i] !in ids[..i] && ids[..i + 1] == ids[..i] + [ids[i]]
  {
  }

  /** Where each candidate is after one step. */
  function Stepped(step: (CandidateId, Snapshot) -> Snapshot, before: CandidateId -> Snapshot):
    (r: CandidateId -> Snapshot)
    ensures forall c :: r(c) == step(c, before(c))
  {
    (c: CandidateId) => step(c, before(c))
  }

  /** The states when each candidate in `ids` has made one step. */
  function Advanced(
    ids: seq<CandidateId>, step: (CandidateId, Snapshot) -> Snapshot, before: CandidateId -> Snapshot):
    (r: CandidateId -> Snapshot)
    ensures forall c :: r(c) == if c in ids then step(c, before(c)) else before(c)
  {
    Midway(ids, Stepped(step, before), before)
  }

  // ================================================================ prescoring and selection

  /** What selection does to one candidate, given which of the run's lists it is in. */
  function SelectionStep(s: Snapshot, prescored: bool, eligible: bool, selected: bool, position: Option<nat>): Snapshot {
    if !prescored then s.OmittedFromPrescoring()
    else if !eligible then s.BelowThreshold()
    else if !selected then s.BeyondTopK(match position case None => 999 case Some(p) => p + 1)
    else s.Selected(match position case None => 1 case Some(p) => p + 1)
  }

  function FatedBy(ranked: seq<Prescore>, eligible: seq<CandidateId>, top: seq<CandidateId>):
    (r: (CandidateId, Snapshot) -> Snapshot)
    ensures forall c, s ::
              r(c, s) == SelectionStep(s, c in Map(ranked, IdOf), c in eligible, c in top, Position(ranked, c))
  {
    (c: CandidateId, s: Snapshot) =>
      SelectionStep(s, c in Map(ranked, IdOf), c in eligible, c in top, Position(ranked, c))
  }

  /** Recording the ranked prescores; `after` is where they take the candidates they name. */
  method RecordPrescores(
    context: PipelineExecutionContext, ranked: seq<Prescore>,
    ghost before: CandidateId -> Snapshot, ghost after: CandidateId -> Snapshot)
    requires NoDup(Map(ranked, IdOf)) && context.Shows(before)
    requires forall i :: 0 <= i < |ranked| ==> Prescores(ranked[i], before, after)
    modifies context.candidates.Values
    ensures context.Shows(Midway(Map(ranked, IdOf), after, before))
  {
    ghost var ids := Map(ranked, IdOf);
    for i := 0 to |ranked|
      invariant context.Shows(Midway(ids[..i], after, before))
    {
      var c := ranked[i].candidateId;
      NextUndone(ids, i);
      assert Prescores(ranked[i], before, after);
      if c in context.candidates {
        context.candidates[c].MarkPrescored(ranked[i].score);
      }
      OneMoreDone(context, ids[..i], c, after, before);
    }
    assert ids[..|ranked|] == ids;
  }

  ghost predicate Prescores(p: Prescore, before: CandidateId -> Snapshot, after: CandidateId -> Snapshot) {
    after(p.candidateId) == before(p.candidateId).Prescored(p.score)
  }

  /** Marking one candidate of the pool with its fate. */
  method RecordFate(
    state: PipelineCandidateState, prescored: bool, eligible: bool, selected: bool, position: Option<nat>)
    modifies state
    ensures state.View() == SelectionStep(old(state.View()), prescored, eligible, selected, position)
  {
    if !prescored {
      state.prescoring := Failed;
      state.terminalOutcome := FailedScoring;
      state.diagnostics := state.diagnostics.(prescoring := FailedWith("OMITTED_FROM_PRESCORING"));
    } else if !eligible {
      state.MarkSkippedThreshold();
    } else if !selected {
      state.MarkSkippedTopK(match position case None => 999 case Some(p) => p + 1);
    } else {
      state.MarkSelected(match position case None => 1 case Some(p) => p + 1);
    }
  }

  method RecordSelection(
    context: PipelineExecutionContext, ranked: seq<Prescore>, eligible: seq<CandidateId>, top: seq<CandidateId>,
    ghost before: CandidateId -> Snapshot)
    requires context.Shows(before)
    modifies context.candidates.Values
    ensures context.Shows(Advanced(context.order, FatedBy(ranked, eligible, top), before))
  {
    var prescored := ToSet(Map(ranked, IdOf));
    for i := 0 to |context.order|
      invariant context.Shows(Advanced(context.order[..i], FatedBy(ranked, eligible, top), before))
    {
      var c := context.order[i];
      NextUndone(context.order, i);
      RecordFate(context.candidates[c], c in prescored, c in eligible, c in top, Position(ranked, c));
      OneMoreDone(context, context.order[..i], c, Stepped(FatedBy(ranked, eligible, top), before), before);
    }
    assert context.order[..|context.order|] == context.order;
  }

  // ================================================================ synchronization results

  function SyncedBy(results: map<CandidateId, SyncItem>): (r: (CandidateId, Snapshot) -> Snapshot)
    ensures forall c, s :: r(c, s) == SyncStep(s, if c in results then Some(results[c]) else None)
  {
    (c: CandidateId, s: Snapshot) => SyncStep(s, if c in results then Some(results[c]) else None)
  }

  method RecordSynchronization(
    context: PipelineExecutionContext, top: seq<CandidateId>, results: map<CandidateId, SyncItem>,
    ghost before: CandidateId -> Snapshot)
    requires NoDup(top) && context.Shows(before)
    modifies context.candidates.Values
    ensures context.Shows(Advanced(top, SyncedBy(results), before))
  {
    for i := 0 to |top|
      invariant context.Shows(Advanced(top[..i], SyncedBy(results), before))
    {
      NextUndone(top, i);
      if top[i] in context.candidates {
        RecordResult(context.candidates[top[i]], if top[i] in results then Some(results[top[i]]) else None);
      }
      OneMoreDone(context, top[..i], top[i], Stepped(SyncedBy(results), before), before);
    }
    assert top[..|top|] == top;
  }

  method RecordResult(state: PipelineCandidateState, item: Option<SyncItem>)
    modifies state
    ensures state.View() == SyncStep(old(state.View()), item)
  {
    match item {
      case None => state.MarkSynchronizationFailed("SYNC_OMITTED");
      case Some(SyncItem(true, _)) => state.MarkSynchronizationSuccess();
      case Some(SyncItem(false, code)) =>
        state.MarkSynchronizationFailed(if code in {None, Some("")} then "SYNC_FAILED" else code.value);
    }
  }

  // ================================================================ deep scoring and persistence

  function Refused(c: CandidateId, s: Snapshot): Snapshot {
    MissingStep(s)
  }

  /** Before the requests go out: unsynchronized candidates fail, the others are set to pending. */
  function Begun(c: CandidateId, s: Snapshot): Snapshot {
    if s.synchronization != Success then s.ScoringFailed("SYNC_FAILED") else s.ScoringStarted()
  }

  /** While its request is out a candidate's scoring is pending, whatever it was; one that failed to synchronize has
      failed. */
  lemma {:induction false} RequestsAwaitAnswers(c: CandidateId, s: Snapshot)
    ensures s.synchronization == Success ==>
              Begun(c, s).scoring == Pending && Begun(c, s).outcome == s.outcome && Begun(c, s).metrics == s.metrics
    ensures s.synchronization != Success ==>
              Begun(c, s).scoring == Failed && Begun(c, s).outcome == FailedScoring && Begun(c, s).persistence == Skipped
  {
  }

  /** When the answers are in. */
  function Resulted(llm: CandidateId -> LlmResult): (r: (CandidateId, Snapshot) -> Snapshot)
    ensures forall c, s :: r(c, s) == ResultStep(s, llm(c))
  {
    (c: CandidateId, s: Snapshot) => ResultStep(s, llm(c))
  }

  function Stored(ok: bool): (r: (CandidateId, Snapshot) -> Snapshot)
    ensures forall c, s :: r(c, s) == PersistStep(s, ok)
  {
    (c: CandidateId, s: Snapshot) => PersistStep(s, ok)
  }

  function IsSynced(view: CandidateId -> Snapshot): CandidateId -> bool {
    (c: CandidateId) => view(c).synchronization == Success
  }

  /** The rows a request is made for. */
  ghost function TasksOf(rows: seq<CandidateId>, view: CandidateId -> Snapshot): seq<CandidateId> {
    if rows == [] then []
    else
      var n := |rows| - 1;
      TasksOf(rows[..n], view) + if view(rows[n]).synchronization == Success then [rows[n]] else []
  }

  lemma TasksGrow(rows: seq<CandidateId>, c: CandidateId, view: CandidateId -> Snapshot)
    ensures TasksOf(rows + [c], view) == TasksOf(rows, view) + if view(c).synchronization == Success then [c] else []
  {
    assert (rows + [c])[..|rows|] == rows;
  }

  lemma {:induction false} TasksAreSynced(rows: seq<CandidateId>, view: CandidateId -> Snapshot)
    ensures TasksOf(rows, view) == Filter(rows, IsSynced(view))
  {
    if rows != [] {
      TasksAreSynced(rows[..|rows| - 1], view);
    }
  }

  function HasAnswer(llm: CandidateId -> LlmResult): CandidateId -> bool {
    (c: CandidateId) => llm(c).Payload?
  }

  /** The payloads of the answered requests, in request order. */
  function ScoresOf(tasks: seq<CandidateId>, llm: CandidateId -> LlmResult): seq<ScoreOutput> {
    if tasks == [] then []
    else
      var n := |tasks| - 1;
      ScoresOf(tasks[..n], llm) + if llm(tasks[n]).Payload? then [llm(tasks[n]).score] else []
  }

  lemma ScoresGrow(tasks: seq<CandidateId>, c: CandidateId, llm: CandidateId -> LlmResult)
    ensures ScoresOf(tasks + [c], llm) == ScoresOf(tasks, llm) + if llm(c).Payload? then [llm(c).score] else []
  {
    assert (tasks + [c])[..|tasks|] == tasks;
  }

  lemma {:induction false} ScoresArePayloads(tasks: seq<CandidateId>, llm: CandidateId -> LlmResult)
    ensures ScoresOf(tasks, llm) == Map(Filter(tasks, HasAnswer(llm)), AnswerOf(llm))
  {
    if tasks != [] {
      ScoresArePayloads(tasks[..|tasks| - 1], llm);
      MapSnoc(Filter(tasks[..|tasks| - 1], HasAnswer(llm)), tasks[|tasks| - 1], AnswerOf(llm));
    }
  }

  function AnswerOf(llm: CandidateId -> LlmResult): CandidateId -> ScoreOutput {
    (c: CandidateId) => match llm(c) case Payload(score) => score case _ => ScoreOutput(c, 0.0, 0.0)
  }

  /** No selected candidate has a row: all of them fail, unless synchronization already decided. */
  method RefuseMissing(
    context: PipelineExecutionContext, top: seq<CandidateId>, ghost before: CandidateId -> Snapshot)
    requires context.Shows(before) && NoDup(top)
    modifies context.candidates.Values
    ensures context.Shows(Advanced(top, Refused, before))
  {
    for i := 0 to |top|
      invariant context.Shows(Advanced(top[..i], Refused, before))
    {
      NextUndone(top, i);
      if top[i] in context.candidates {
        var state := context.candidates[top[i]];
        if state.scoring == Pending {
          state.MarkScoringFailed("NO_CANDIDATE_RECORD_IN_DB");
        }
      }
      OneMoreDone(context, top[..i], top[i], Stepped(Refused, before), before);
    }
    assert top[..|top|] == top;
  }

  method CollectTasks(
    context: PipelineExecutionContext, rows: seq<CandidateId>, ghost before: CandidateId -> Snapshot)
    returns (tasks: seq<CandidateId>)
    requires context.Shows(before) && NoDup(rows) && forall c :: c in rows ==> c in context.candidates
    modifies context.candidates.Values
    ensures tasks == TasksOf(rows, before)
    ensures context.Shows(Advanced(rows, Begun, before))
  {
    tasks := [];
    for i := 0 to |rows|
      invariant tasks == TasksOf(rows[..i], before)
      invariant context.Shows(Advanced(rows[..i], Begun, before))
    {
      NextUndone(rows, i);
      TasksGrow(rows[..i], rows[i], before);
      var begun := Begin(context.candidates[rows[i]]);
      if begun {
        tasks := tasks + [rows[i]];
      }
      OneMoreDone(context, rows[..i], rows[i], Stepped(Begun, before), before);
    }
    assert rows[..|rows|] == rows;
  }

  method Begin(state: PipelineCandidateState) returns (begun: bool)
    modifies state
    ensures state.View() == Begun(state.candidateId, old(state.View()))
    ensures begun <==> old(state.View()).synchronization == Success
  {
    begun := state.synchronization == Success;
    if !begun {
      state.MarkScoringFailed("SYNC_FAILED");
    } else {
      state.scoring := Pending;
    }
  }

  /** Crediting the gathered answers, in order, to the candidates their requests were made for. */
  method CollectResults(
    context: PipelineExecutionContext, tasks: seq<CandidateId>, results: seq<LlmResult>,
    ghost llm: CandidateId -> LlmResult, ghost before: CandidateId -> Snapshot)
    returns (scores: seq<ScoreOutput>)
    requires context.Shows(before) && NoDup(tasks) && forall c :: c in tasks ==> c in context.candidates
    requires results == Map(tasks, llm)
    modifies context.candidates.Values
    ensures scores == ScoresOf(tasks, llm)
    ensures context.Shows(Advanced(tasks, Resulted(llm), before))
  {
    scores := [];
    for i := 0 to |tasks|
      invariant scores == ScoresOf(tasks[..i], llm)
      invariant context.Shows(Advanced(tasks[..i], Resulted(llm), before))
    {
      NextUndone(tasks, i);
      ScoresGrow(tasks[..i], tasks[i], llm);
      CreditAnswer(context, tasks[..i], tasks[i], results[i], llm, before);
      if results[i].Payload? {
        scores := scores + [results[i].score];
      }
    }
    assert tasks[..|tasks|] == tasks;
  }

  method CreditAnswer(
    context: PipelineExecutionContext, ghost done: seq<CandidateId>, c: CandidateId, answer: LlmResult,
    ghost llm: CandidateId -> LlmResult, ghost before: CandidateId -> Snapshot)
    requires context.Shows(Advanced(done, Resulted(llm), before))
    requires c in context.candidates && c !in done && answer == llm(c)
    modifies context.candidates.Values
    ensures context.Shows(Advanced(done + [c], Resulted(llm), before))
  {
    RecordAnswer(context.candidates[c], answer);
    OneMoreDone(context, done, c, Stepped(Resulted(llm), before), before);
  }

  method RecordAnswer(state: PipelineCandidateState, answer: LlmResult)
    modifies state
    ensures state.View() == ResultStep(old(state.View()), answer)
  {
    match answer {
      case Raised => state.MarkScoringFailed("LLM_SCORING_ERROR");
      case Empty => state.MarkScoringFailed("LLM_SCORING_EMPTY");
      case Payload(score) => state.MarkScoringSuccess(score.finalScore, score.confidence);
    }
  }

  method RecordPersistence(
    context: PipelineExecutionContext, tasks: seq<CandidateId>, ok: bool, ghost before: CandidateId -> Snapshot)
    requires context.Shows(before) && NoDup(tasks)
    modifies context.candidates.Values
    ensures context.Shows(Advanced(tasks, Stored(ok), before))
  {
    for i := 0 to |tasks|
      invariant context.Shows(Advanced(tasks[..i], Stored(ok), before))
    {
      NextUndone(tasks, i);
      if tasks[i] in context.candidates {
        RecordStored(context.candidates[tasks[i]], ok);
      }
      OneMoreDone(context, tasks[..i], tasks[i], Stepped(Stored(ok), before), before);
    }
    assert tasks[..|tasks|] == tasks;
  }

  method RecordStored(state: PipelineCandidateState, ok: bool)
    modifies state
    ensures state.View() == PersistStep(old(state.View()), ok)
  {
    if state.scoring == Success {
      if ok {
        state.MarkPersistenceSuccess();
      } else {
        state.MarkPersistenceFailed("DB_PERSISTENCE_FAILED");
      }
    }
  }

  // ================================================================ the stages are the scenario's

  lemma PrescoringStage(sc: Scenario)
    ensures forall i :: 0 <= i < |sc.Ranked()| && NoDup(sc.PrescoredIds()) ==>
              Prescores(sc.Ranked()[i], JustAcquired, sc.AfterPrescoring)
    ensures forall c :: Midway(sc.PrescoredIds(), sc.AfterPrescoring, JustAcquired)(c) == sc.AfterPrescoring(c)
  {
    forall i | 0 <= i < |sc.Ranked()| && NoDup(sc.PrescoredIds())
      ensures Prescores(sc.Ranked()[i], JustAcquired, sc.AfterPrescoring)
    {
      PositionIsIndex(sc.Ranked(), sc.Ranked()[i].candidateId, i);
    }
  }

  lemma SelectionStage(sc: Scenario, order: seq<CandidateId>)
    ensures var fated := FatedBy(sc.Ranked(), sc.EligibleIds(), sc.TopIds());
      forall c :: c in order ==> Advanced(order, fated, sc.AfterPrescoring)(c) == sc.AfterSelection(c)
  {
    var fated := FatedBy(sc.Ranked(), sc.EligibleIds(), sc.TopIds());
    forall c | c in order ensures Advanced(order, fated, sc.AfterPrescoring)(c) == sc.AfterSelection(c) {
      SelectionAdvances(sc, c);
    }
  }

  lemma SelectionAdvances(sc: Scenario, c: CandidateId)
    ensures sc.AfterSelection(c) ==
            SelectionStep(sc.AfterPrescoring(c), c in sc.PrescoredIds(), c in sc.EligibleIds(), c in sc.TopIds(),
                          Position(sc.Ranked(), c))
  {
  }

  lemma SynchronizationStage(sc: Scenario)
    ensures forall c :: Advanced(sc.TopIds(), SyncedBy(sc.sync), sc.AfterSelection)(c) == sc.AfterSynchronization(c)
  {
  }

  /** What happens up to selection does not depend on what comes later. */
  lemma SameSelection(a: Scenario, b: Scenario)
    requires a.acquired == b.acquired && a.threshold == b.threshold && a.k == b.k && a.answers == b.answers
    ensures a.Ranked() == b.Ranked() && a.Eligible() == b.Eligible() && a.Top() == b.Top()
    ensures a.EligibleIds() == b.EligibleIds() && a.TopIds() == b.TopIds()
    ensures forall c :: a.AfterSelection(c) == b.AfterSelection(c)
  {
  }

  lemma SameSynchronization(a: Scenario, b: Scenario)
    requires a.acquired == b.acquired && a.threshold == b.threshold && a.k == b.k && a.answers == b.answers
    requires a.sync == b.sync
    ensures forall c :: a.AfterSynchronization(c) == b.AfterSynchronization(c)
  {
    SameSelection(a, b);
  }

  /** The rows loaded are the selected candidates' rows; the tasks those of them that synchronized. */
  lemma RowsAreTasks(sc: Scenario)
    requires sc.Contracts() && forall c :: c in sc.local ==> c in sc.TopIds()
    ensures sc.Rows() == sc.local
    ensures TasksOf(sc.local, sc.AfterSynchronization) == sc.Tasks()
  {
    forall c | c in sc.local ensures sc.InTop()(c) {
    }
    FilterAll(sc.local, sc.InTop());
    TasksAreSynced(sc.local, sc.AfterSynchronization);
    forall c | c in sc.local ensures IsSynced(sc.AfterSynchronization)(c) == sc.HasSynced()(c) {
      SynchronizationCoheres(sc, c);
    }
    FilterAgrees(sc.local, IsSynced(sc.AfterSynchronization), sc.HasSynced());
  }

  lemma ScoresAreTheRuns(sc: Scenario)
    ensures ScoresOf(sc.Tasks(), sc.llm) == sc.Scores()
  {
    ScoresArePayloads(sc.Tasks(), sc.llm);
    FilterAgrees(sc.Tasks(), HasAnswer(sc.llm), sc.Answered());
  }
}
