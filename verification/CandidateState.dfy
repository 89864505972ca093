/** One candidate's way through a scoring run (server/src/schemas/pipeline_candidate_state.py).
    `CandidateState` is the mutable record; `Snapshot` is its value at one moment. */
module CandidateState {
  import opened Common

  datatype StageStatus = Pending | Success | Failed | Skipped

  datatype TerminalOutcome =
    | Unresolved
    | Completed
    | FailedSynchronization
    | FailedScoring
    | FailedPersistence
    | SkippedThreshold
    | SkippedTopK

  datatype StageOutcome = StageOutcome(status: StageStatus, errorCode: Option<string>)

  const NOT_REACHED := StageOutcome(Pending, None)
  const PASSED := StageOutcome(Success, None)

  function FailedWith(code: string): StageOutcome {
    StageOutcome(Failed, Some(code))
  }

  datatype Metrics = Metrics(
    prescore: Option<int>, prescoreRank: Option<nat>, finalScore: Option<real>, confidence: Option<real>)

  datatype Diagnostics = Diagnostics(
    acquisition: StageOutcome, prescoring: StageOutcome, synchronization: StageOutcome,
    scoring: StageOutcome, persistence: StageOutcome)

  datatype Snapshot = Snapshot(
    outcome: TerminalOutcome,
    acquisition: StageStatus, prescoring: StageStatus, synchronization: StageStatus,
    scoring: StageStatus, persistence: StageStatus,
    metrics: Metrics, diagnostics: Diagnostics)
  {
    function Acquired(): Snapshot {
      this.(acquisition := Success, diagnostics := diagnostics.(acquisition := PASSED))
    }

    function Prescored(score: int): Snapshot {
      this.(prescoring := Success, metrics := metrics.(prescore := Some(score)),
            diagnostics := diagnostics.(prescoring := PASSED))
    }

    function OmittedFromPrescoring(): Snapshot {
      this.(prescoring := Failed, outcome := FailedScoring,
            diagnostics := diagnostics.(prescoring := FailedWith("OMITTED_FROM_PRESCORING")))
    }

    function BelowThreshold(): Snapshot {
      this.(outcome := SkippedThreshold, synchronization := Skipped, scoring := Skipped, persistence := Skipped)
    }

    function BeyondTopK(rank: nat): Snapshot {
      this.(outcome := SkippedTopK, metrics := metrics.(prescoreRank := Some(rank)),
            synchronization := Skipped, scoring := Skipped, persistence := Skipped)
    }

    function Selected(rank: nat): Snapshot {
      this.(outcome := Unresolved, metrics := metrics.(prescoreRank := Some(rank)))
    }

    function Synchronized(): Snapshot {
      this.(synchronization := Success, diagnostics := diagnostics.(synchronization := PASSED))
    }

    function SynchronizationFailed(code: string): Snapshot {
      this.(synchronization := Failed, outcome := FailedSynchronization, scoring := Skipped,
            persistence := Skipped, diagnostics := diagnostics.(synchronization := FailedWith(code)))
    }

    function ScoringStarted(): Snapshot {
      this.(scoring := Pending)
    }

    function Scored(finalScore: real, confidence: real): Snapshot {
      this.(scoring := Success,
            metrics := metrics.(finalScore := Some(finalScore), confidence := Some(confidence)),
            diagnostics := diagnostics.(scoring := PASSED))
    }

    function ScoringFailed(code: string): Snapshot {
      this.(scoring := Failed, outcome := FailedScoring, persistence := Skipped,
            diagnostics := diagnostics.(scoring := FailedWith(code)))
    }

    function Persisted(): Snapshot {
      this.(persistence := Success, outcome := Completed, diagnostics := diagnostics.(persistence := PASSED))
    }

    function PersistenceFailed(code: string): Snapshot {
      this.(persistence := Failed, outcome := FailedPersistence,
            diagnostics := diagnostics.(persistence := FailedWith(code)))
    }

    // ------------------------------------------------------------------ what a run keeps true

    /** A diagnostic record repeats its stage's status; a skipped stage was never entered. */
    static predicate Recorded(status: StageStatus, diagnostic: StageOutcome) {
      && diagnostic.status == (if status == Skipped then Pending else status)
      && (diagnostic.errorCode.Some? <==> status == Failed)
    }

    predicate DiagnosticsAgree() {
      && Recorded(acquisition, diagnostics.acquisition)
      && Recorded(prescoring, diagnostics.prescoring)
      && Recorded(synchronization, diagnostics.synchronization)
      && Recorded(scoring, diagnostics.scoring)
      && Recorded(persistence, diagnostics.persistence)
    }

    predicate OutcomeAgrees() {
      match outcome
      case Unresolved =>
        && prescoring in {Pending, Success} && synchronization in {Pending, Success}
        && scoring in {Pending, Success} && persistence == Pending
        && (scoring == Success ==> synchronization == Success)
        && (synchronization == Success ==> prescoring == Success)
      case Completed =>
        prescoring == Success && synchronization == Success && scoring == Success && persistence == Success
      case FailedSynchronization =>
        prescoring == Success && synchronization == Failed && scoring == Skipped && persistence == Skipped
      case FailedScoring =>
        || (prescoring == Failed && synchronization == Pending && scoring == Pending && persistence == Pending)
        || (prescoring == Success && synchronization in {Success, Failed} && scoring == Failed
            && persistence == Skipped)
      case FailedPersistence =>
        prescoring == Success && synchronization == Success && scoring == Success && persistence == Failed
      case SkippedThreshold =>
        prescoring == Success && synchronization == Skipped && scoring == Skipped && persistence == Skipped
      case SkippedTopK =>
        prescoring == Success && synchronization == Skipped && scoring == Skipped && persistence == Skipped
    }

    predicate Coherent() {
      acquisition == Success && DiagnosticsAgree() && OutcomeAgrees()
    }
  }

  const NEW_CANDIDATE := Snapshot(
    Unresolved, Pending, Pending, Pending, Pending, Pending,
    Metrics(None, None, None, None),
    Diagnostics(NOT_REACHED, NOT_REACHED, NOT_REACHED, NOT_REACHED, NOT_REACHED))

  /** What coherence says about the outcome alone. */
  lemma {:induction false} CoherentOutcomes(s: Snapshot)
    requires s.Coherent()
    ensures s.outcome == Completed <==> s.persistence == Success
    ensures s.outcome == Completed ==>
              s.prescoring == Success && s.synchronization == Success && s.scoring == Success
    ensures s.outcome in {SkippedThreshold, SkippedTopK} <==>
              s.synchronization == Skipped && s.scoring == Skipped && s.persistence == Skipped
    ensures s.outcome == FailedScoring <==> s.prescoring == Failed || s.scoring == Failed
    ensures s.outcome == FailedScoring && s.prescoring != Failed ==> s.persistence == Skipped
    ensures s.outcome == FailedPersistence <==> s.persistence == Failed
  {
  }

  /** The coherence of a run is owed to the order in which it makes the transitions: called in another
      order, they leave a completed candidate whose scoring failed. */
  lemma TransitionsAloneDoNotCohere()
    ensures exists s: Snapshot :: s.Coherent() && s.outcome == Completed && !s.ScoringFailed("LATE").Coherent()
  {
    var s := NEW_CANDIDATE.Acquired().Prescored(80).Selected(1).Synchronized().Scored(70.0, 90.0).Persisted();
    assert s.Coherent() && s.outcome == Completed;
    assert s.ScoringFailed("LATE").diagnostics.persistence.status == Success;
    assert s.ScoringFailed("LATE").persistence == Skipped;
  }

  class PipelineCandidateState {
    const candidateId: CandidateId
    var terminalOutcome: TerminalOutcome
    var acquisition: StageStatus
    var prescoring: StageStatus
    var synchronization: StageStatus
    var scoring: StageStatus
    var persistence: StageStatus
    var metrics: Metrics
    var diagnostics: Diagnostics

    function View(): Snapshot
      reads this
    {
      Snapshot(terminalOutcome, acquisition, prescoring, synchronization, scoring, persistence, metrics, diagnostics)
    }

    constructor (candidateId: CandidateId)
      ensures this.candidateId == candidateId && View() == NEW_CANDIDATE
    {
      this.candidateId := candidateId;
      terminalOutcome := Unresolved;
      acquisition, prescoring, synchronization, scoring, persistence := Pending, Pending, Pending, Pending, Pending;
      metrics := Metrics(None, None, None, None);
      diagnostics := Diagnostics(NOT_REACHED, NOT_REACHED, NOT_REACHED, NOT_REACHED, NOT_REACHED);
    }

    method MarkAcquired()
      modifies this
      ensures View() == old(View()).Acquired()
    {
      acquisition := Success;
      diagnostics := diagnostics.(acquisition := PASSED);
    }

    method MarkPrescored(prescore: int)
      modifies this
      ensures View() == old(View()).Prescored(prescore)
    {
      prescoring := Success;
      metrics := metrics.(prescore := Some(prescore));
      diagnostics := diagnostics.(prescoring := PASSED);
    }

    method MarkSkippedThreshold()
      modifies this
      ensures View() == old(View()).BelowThreshold()
    {
      terminalOutcome := SkippedThreshold;
      synchronization, scoring, persistence := Skipped, Skipped, Skipped;
    }

    method MarkSkippedTopK(rank: nat)
      modifies this
      ensures View() == old(View()).BeyondTopK(rank)
    {
      terminalOutcome := SkippedTopK;
      metrics := metrics.(prescoreRank := Some(rank));
      synchronization, scoring, persistence := Skipped, Skipped, Skipped;
    }

    method MarkSelected(rank: nat)
      modifies this
      ensures View() == old(View()).Selected(rank)
    {
      terminalOutcome := Unresolved;
      metrics := metrics.(prescoreRank := Some(rank));
    }

    method MarkSynchronizationSuccess()
      modifies this
      ensures View() == old(View()).Synchronized()
    {
      synchronization := Success;
      diagnostics := diagnostics.(synchronization := PASSED);
    }

    method MarkSynchronizationFailed(errorCode: string)
      modifies this
      ensures View() == old(View()).SynchronizationFailed(errorCode)
    {
      synchronization := Failed;
      terminalOutcome := FailedSynchronization;
      scoring, persistence := Skipped, Skipped;
      diagnostics := diagnostics.(synchronization := FailedWith(errorCode));
    }

    method MarkScoringSuccess(finalScore: real, confidence: real)
      modifies this
      ensures View() == old(View()).Scored(finalScore, confidence)
    {
      scoring := Success;
      metrics := metrics.(finalScore := Some(finalScore), confidence := Some(confidence));
      diagnostics := diagnostics.(scoring := PASSED);
    }

    method MarkScoringFailed(errorCode: string)
      modifies this
      ensures View() == old(View()).ScoringFailed(errorCode)
    {
      scoring := Failed;
      terminalOutcome := FailedScoring;
      persistence := Skipped;
      diagnostics := diagnostics.(scoring := FailedWith(errorCode));
    }

    method MarkPersistenceSuccess()
      modifies this
      ensures View() == old(View()).Persisted()
    {
      persistence := Success;
      terminalOutcome := Completed;
      diagnostics := diagnostics.(persistence := PASSED);
    }

    method MarkPersistenceFailed(errorCode: string)
      modifies this
      ensures View() == old(View()).PersistenceFailed(errorCode)
    {
      persistence := Failed;
      terminalOutcome := FailedPersistence;
      diagnostics := diagnostics.(persistence := FailedWith(errorCode));
    }
  }
}
