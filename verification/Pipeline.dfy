/** What one confirmed scoring run does to every acquired candidate, as a function of what its
    collaborators answered, and what follows for the run's own accounting
    (server/src/core/services/scoring_service.py). `PipelineDriver` runs it on mutable state. */
module Pipeline {
  import opened Common
  import opened CandidateState

  datatype Prescore = Prescore(candidateId: CandidateId, score: int)

  datatype SyncItem = SyncItem(success: bool, errorCode: Option<string>)

  datatype ScoreOutput = ScoreOutput(candidateId: CandidateId, finalScore: real, confidence: real)

  /** The answer to one deep-scoring request: it may raise, come back empty, or carry a score. */
  datatype LlmResult = Raised | Empty | Payload(score: ScoreOutput)

  datatype ResponseRow = ResponseRow(candidateId: CandidateId, prescoreRank: nat, prescore: int, finalScore: real)

  datatype Warning = NoWarning | InsufficientQualified | EvaluationFailure

  predicate HigherPrescore(a: Prescore, b: Prescore) {
    a.score > b.score
  }

  function AtLeast(threshold: int): Prescore -> bool {
    (p: Prescore) => p.score >= threshold
  }

  function IdOf(p: Prescore): CandidateId {
    p.candidateId
  }

  function ScoredId(s: ScoreOutput): CandidateId {
    s.candidateId
  }

  function RowId(r: ResponseRow): CandidateId {
    r.candidateId
  }

  /** The response order: final score first, then the better (smaller) prescore rank. */
  predicate BetterRow(a: ResponseRow, b: ResponseRow) {
    a.finalScore > b.finalScore || (a.finalScore == b.finalScore && a.prescoreRank < b.prescoreRank)
  }

  /** Where cid first occurs in a list of prescores. */
  function Position(s: seq<Prescore>, cid: CandidateId): (r: Option<nat>)
    ensures r.None? <==> cid !in Map(s, IdOf)
    ensures r.Some? ==> r.value < |s| && s[r.value].candidateId == cid
    ensures r.Some? ==> forall i :: 0 <= i < r.value ==> s[i].candidateId != cid
  {
    if s == [] then None
    else
      var ids := Map(s, IdOf);
      assert forall x :: x in ids <==> x == s[0].candidateId || x in Map(s[1..], IdOf) by {
        assert ids == [s[0].candidateId] + Map(s[1..], IdOf);
      }
      if s[0].candidateId == cid then Some(0)
      else match Position(s[1..], cid)
        case None => None
        case Some(i) => Some(i + 1)
  }

  // ---------------------------------------------------------------- what a stage does to one candidate

  /** Applying a selected candidate's synchronization result, or the lack of one. */
  function SyncStep(s: Snapshot, item: Option<SyncItem>): Snapshot {
    match item
    case None => s.SynchronizationFailed("SYNC_OMITTED")
    case Some(SyncItem(true, _)) => s.Synchronized()
    case Some(SyncItem(false, code)) =>
      s.SynchronizationFailed(if code in {None, Some("")} then "SYNC_FAILED" else code.value)
  }

  /** Deep scoring when none of the selected candidates has a local row. */
  function MissingStep(s: Snapshot): Snapshot {
    if s.scoring == Pending then s.ScoringFailed("NO_CANDIDATE_RECORD_IN_DB") else s
  }

  /** Deep scoring of a candidate with a local row. */
  function ScoreStep(s: Snapshot, answer: LlmResult): Snapshot {
    if s.synchronization != Success then s.ScoringFailed("SYNC_FAILED") else ResultStep(s.ScoringStarted(), answer)
  }

  function ResultStep(s: Snapshot, answer: LlmResult): Snapshot {
    match answer
    case Raised => s.ScoringFailed("LLM_SCORING_ERROR")
    case Empty => s.ScoringFailed("LLM_SCORING_EMPTY")
    case Payload(score) => s.Scored(score.finalScore, score.confidence)
  }

  function PersistStep(s: Snapshot, persisted: bool): Snapshot {
    if s.scoring != Success then s
    else if persisted then s.Persisted()
    else s.PersistenceFailed("DB_PERSISTENCE_FAILED")
  }

  /** Everything a confirmed run is told: the acquired pool, the request, the prescorer's answers, the
      synchronization results, the candidates with a local row after synchronization (in table order),
      the deep scorer's answers, and whether the persistence stage went through. */
  datatype Scenario = Scenario(
    acquired: seq<CandidateId>,
    threshold: int,
    k: nat,
    answers: seq<Prescore>,
    sync: map<CandidateId, SyncItem>,
    local: seq<CandidateId>,
    llm: CandidateId -> LlmResult,
    persisted: bool)
  {
    // -------------------------------------------------------------- the contracts assumed

    /** Acquisition returns no candidate twice; the table has one row per candidate. */
    ghost predicate PoolContract() {
      NoDup(acquired) && NoDup(local)
    }

    /** The prescorer answers each acquired id at most once and no other id. */
    ghost predicate PrescorerContract() {
      NoDup(Map(answers, IdOf)) && forall c :: c in Map(answers, IdOf) ==> c in acquired
    }

    /** The deep scorer echoes the id it was asked about. */
    ghost predicate ScorerContract() {
      forall c :: llm(c).Payload? ==> llm(c).score.candidateId == c
    }

    ghost predicate Contracts() {
      PoolContract() && PrescorerContract() && ScorerContract()
    }

    /** A selected candidate reported as synchronized has a local row. */
    ghost predicate SyncIsSound() {
      forall c :: c in TopIds() && Synced(c) ==> c in local
    }

    // -------------------------------------------------------------- prescoring and selection

    function Ranked(): seq<Prescore> {
      SortDescending(answers, HigherPrescore)
    }

    function Eligible(): seq<Prescore> {
      Filter(Ranked(), AtLeast(threshold))
    }

    function Top(): seq<Prescore> {
      if |Eligible()| <= k then Eligible() else Eligible()[..k]
    }

    function PrescoredIds(): seq<CandidateId> {
      Map(Ranked(), IdOf)
    }

    function EligibleIds(): seq<CandidateId> {
      Map(Eligible(), IdOf)
    }

    function TopIds(): seq<CandidateId> {
      Map(Top(), IdOf)
    }

    function Rank(cid: CandidateId, default: nat): nat {
      match Position(Ranked(), cid)
      case None => default
      case Some(i) => i + 1
    }

    function AfterPrescoring(cid: CandidateId): Snapshot {
      match Position(Ranked(), cid)
      case None => NEW_CANDIDATE.Acquired()
      case Some(i) => NEW_CANDIDATE.Acquired().Prescored(Ranked()[i].score)
    }

    function AfterSelection(cid: CandidateId): Snapshot {
      if cid !in PrescoredIds() then AfterPrescoring(cid).OmittedFromPrescoring()
      else if cid !in EligibleIds() then AfterPrescoring(cid).BelowThreshold()
      else if cid !in TopIds() then AfterPrescoring(cid).BeyondTopK(Rank(cid, 999))
      else AfterPrescoring(cid).Selected(Rank(cid, 1))
    }

    // -------------------------------------------------------------- synchronization

    predicate Synced(cid: CandidateId) {
      cid in sync && sync[cid].success
    }

    function AfterSynchronization(cid: CandidateId): Snapshot {
      if cid in TopIds()
      then SyncStep(AfterSelection(cid), if cid in sync then Some(sync[cid]) else None)
      else AfterSelection(cid)
    }

    // -------------------------------------------------------------- deep scoring and persistence

    function InTop(): CandidateId -> bool {
      c => c in TopIds()
    }

    /** The local rows of the selected candidates. */
    function Rows(): seq<CandidateId> {
      Filter(local, InTop())
    }

    function HasSynced(): CandidateId -> bool {
      c => Synced(c)
    }

    /** The candidates a deep-scoring request is made for. */
    function Tasks(): seq<CandidateId> {
      Filter(Rows(), HasSynced())
    }

    function Answered(): CandidateId -> bool {
      c => llm(c).Payload?
    }

    function ScoreOf(c: CandidateId): ScoreOutput {
      match llm(c)
      case Payload(score) => score
      case _ => ScoreOutput(c, 0.0, 0.0)
    }

    /** The scores of the run, in task order: what persistence is handed. */
    function Scores(): seq<ScoreOutput> {
      Map(Filter(Tasks(), Answered()), c => ScoreOf(c))
    }

    function AfterDeepScoring(cid: CandidateId): Snapshot {
      if cid !in TopIds() then AfterSynchronization(cid)
      else if Rows() == [] then MissingStep(AfterSynchronization(cid))
      else if cid in Rows() then ScoreStep(AfterSynchronization(cid), llm(cid))
      else AfterSynchronization(cid)
    }

    function Final(cid: CandidateId): Snapshot {
      if cid in Tasks() then PersistStep(AfterDeepScoring(cid), persisted) else AfterDeepScoring(cid)
    }

    function FinalViews(): seq<Snapshot> {
      Map(acquired, c => Final(c))
    }

    // -------------------------------------------------------------- response

    function Returned(): CandidateId -> bool {
      c => c in local && c in Map(Scores(), ScoredId)
    }

    function RowFor(c: CandidateId): ResponseRow {
      var rank := Rank(c, 0);
      ResponseRow(c, rank, if 1 <= rank <= |Ranked()| then Ranked()[rank - 1].score else 0, ScoreOf(c).finalScore)
    }

    /** The rows of the response before ranking, in prescore order. */
    function UnrankedResponse(): seq<ResponseRow> {
      Map(Filter(TopIds(), Returned()), c => RowFor(c))
    }

    function Response(): seq<ResponseRow> {
      SortDescending(UnrankedResponse(), BetterRow)
    }
  }

  // ================================================================ counters of the run

  predicate WasAcquired(s: Snapshot) { s.acquisition == Success }

  predicate IsEligible(s: Snapshot) { s.prescoring == Success && s.outcome != SkippedThreshold }

  predicate IsUnresolved(s: Snapshot) { s.outcome == Unresolved }

  predicate IsCompleted(s: Snapshot) { s.outcome == Completed }

  predicate IsFailure(s: Snapshot) {
    s.outcome in {FailedSynchronization, FailedScoring, FailedPersistence}
  }

  function FailedWithin(k: nat): Snapshot -> bool {
    (s: Snapshot) => IsFailure(s) && s.metrics.prescoreRank.Some? && s.metrics.prescoreRank.value <= k
  }

  /** The pool the execution report speaks of: every candidate that completed or failed. */
  predicate Reported(s: Snapshot) { IsCompleted(s) || IsFailure(s) }

  predicate ReportedSynced(s: Snapshot) { Reported(s) && s.synchronization == Success }

  predicate ReportedUnsynced(s: Snapshot) { Reported(s) && s.synchronization == Failed }

  predicate ReportedScored(s: Snapshot) { Reported(s) && s.scoring == Success }

  predicate ReportedUnscored(s: Snapshot) { Reported(s) && s.scoring == Failed }

  predicate ReportedPersisted(s: Snapshot) { Reported(s) && s.persistence == Success }

  datatype Report = Report(
    matched: nat, eligible: nat, selected: nat, syncSuccess: nat, syncFailed: nat,
    deepSuccess: nat, deepFailed: nat, persistSuccess: nat, apiReturned: nat)
  {
    predicate Passed() {
      && selected == syncSuccess + syncFailed
      && syncSuccess == deepSuccess + deepFailed
      && deepSuccess == persistSuccess
      && persistSuccess == apiReturned
    }
  }

  function GenerateReport(views: seq<Snapshot>, apiReturned: nat): Report {
    Report(Count(views, WasAcquired), Count(views, IsEligible), Count(views, Reported),
           Count(views, ReportedSynced), Count(views, ReportedUnsynced),
           Count(views, ReportedScored), Count(views, ReportedUnscored),
           Count(views, ReportedPersisted), apiReturned)
  }

  /** The warning attached to the response of a run that selected somebody. */
  function WarningFor(returned: nat, eligible: nat, k: nat): Warning {
    if returned >= k then NoWarning
    else if eligible < k then InsufficientQualified
    else EvaluationFailure
  }
}
