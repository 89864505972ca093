# Recruitment pipeline: a verified model

A Dafny 4.11 model of the stateful core of a recruiting platform: a server that scores candidates for a job
description and runs the campaign around it, and a sourcing service that finds more candidates on the web. Language
models, HTTP, mail and SQL are arbitrary inputs: they may fail, answer nothing, or answer late, and the results hold
for every such answer. `dafny verify dfyconfig.toml` checks everything.

## What is modelled

**One scoring run.** `CandidateState` is the record of one candidate and its transitions. `Pipeline` says, as
functions of what the collaborators answered, where every candidate of the pool stands after each stage; `RunAccounting`
proves what follows for the run's own bookkeeping. `PipelineStages` and `PipelineDriver` are the run itself on mutable
states and tables, proved to leave every candidate where `Pipeline` says. `Acquisition`, `Synchronization` and
`ScoringStore` are the services around it: building the pool, bringing local profiles up to date, writing scores and
shortlist. `Throttle` is the semaphore the deep-scoring requests go through and the gathering of their results.

The assumptions on a run are `Scenario.Contracts`: acquisition returns no candidate twice (proved of
`Acquisition.AcquireCandidates`), the prescorer answers each acquired candidate at most once and no other, the deep
scorer echoes the id it was asked about. Any answer may be missing and any call may fail.

**Profiles.** `Reconciliation` is the in-place merge of incoming child rows into stored ones by key, and `Profile` the
upsert of a whole candidate built on it.

**Campaigns.** `Campaign` is the state machine of a job's status and shortlist under edits, sharing, reviews,
interviews, ending, reopening and scoring runs, each service call one step and each run several; `CampaignSafety`
proves its invariants over every sequence of steps. `Dashboard` is the shared shortlist as the hiring manager sees it,
and what each call does to it; `CampaignService` holds the calls themselves, proved against all three. `ReviewState` has
the two judgements edits depend on.

**Key rotation.** `KeyRotation` is the failover of one call over a ring of API keys with cooldowns, `AsyncRotation` the
interleaving of many calls on the shared ring.

**Sourcing.** `SearchStrategies` is the ladder of queries and `Sourcing` the loop that walks down it.

**Scores.** `ScoreArithmetic` is the point system over exact reals. `Common` and `Text` hold shared vocabulary.

## Findings

Where the code and what it says of itself part ways, the model follows the code and the proofs say exactly when they
agree:

- The run's self-check ("selected == completed + failed") fails exactly when a candidate is reported synchronized but
  has no local row while others have (`RunAccounting.SelfCheck`); the synchronization service never does that
  (`Synchronization.SuccessesAreStored`), so no completed run logs a discrepancy
  (`PipelineDriver.CompletedRunBalances`).
- The execution report says FAILED on healthy runs: exactly when the prescorer omitted somebody or a selected
  candidate's stale profile could not be refreshed (`PipelineDriver.ReportFailsOnStaleProfiles`). A run of each kind:
  `RunAccounting.OmissionFailsReport`, `PipelineDriver.StaleProfileFailsReport`.
- When no request is sent at all, nothing is written, and an older shortlist outlives the empty answer
  (`PipelineDriver.ShortlistIsTheResponseIff`; such a run: `PipelineDriver.OldShortlistSurvives`).
- `upsert_candidate` is documented as idempotent; on a new candidate it is so exactly when the incoming experience keys
  and education keys are pairwise distinct (`Profile.UpsertIsIdempotentIff`; a profile for which it is not:
  `Profile.RepeatedKeyIsMerged`).
- A scoring run turns a campaign that was ended meanwhile back to ACTIVE, in two ways: past its second status check, when
  it persists (`CampaignSafety.LateRunReopensCampaign`), and without ever reaching that check, when it acquires or
  selects nobody (`CampaignSafety.EmptyRunReopensCampaign`). A closed campaign stays closed until it is reopened exactly
  if every run on it still in flight knows whom to score and has yet to pass the second check
  (`CampaignSafety.StaysClosedIff`); so a campaign ended while a run synchronizes its selection stays closed
  (`CampaignSafety.SelectedRunLeavesClosed`). A preview is not counted as a run: it never writes.
- Sharing a shortlist again resets decisions and notes but not interviews, so an old interview keeps counting as a
  started review (`CampaignSafety.ReshareReviewStartedIff`).
- "All keys are rate limited" need not mean every key was tried. Of a call that runs alone it says so exactly of the key
  the call began with and of the keys out of cooldown at that time (`KeyRotation.SurelyTriedIff`; a call that leaves a
  key untried: `KeyRotation.KeyLeftUntried`). Of an asynchronous call among others it says less: a key out of cooldown at
  the start is surely tried exactly if no other call's rate limit hits it meanwhile (`AsyncRotation.SurelyTriedAmidIff`;
  a call that gives up with a key untried that was free when it began: `AsyncRotation.FreeKeyLeftUntried`).
- The stop label says MAX_ATTEMPTS_REACHED although attempts are left exactly when a search is cut short, by the time or
  by a failing optimizer, with the target open and the patience lasting (`Sourcing.LabelMisleadsIff`; such a search:
  `Sourcing.LabelMisleads`).
- The second sourcing attempt of a search can be wasted on the query of the first. With a location in the request it is so
  exactly if naming the skills (the plan's, if there is one) makes no difference to the words sent, as when there are
  none; otherwise exactly if the location is missing or empty, or is blank and the request remote
  (`Sourcing.SecondAttemptSkippedIff`; a request with a location that wastes it, and one that does not:
  `SearchStrategies.NoSkillsInBerlin`, `SearchStrategies.OneSkillInBerlin`). However many attempts are allowed, at most
  five queries are sent (`Sourcing.AtMostOneQueryPerStrategy`).
- An evaluator whose matches weigh more than the job's skills pushes the skill part above its points
  (`ScoreArithmetic.SkillPartBounds`), and can push the total above 100 (`ScoreArithmetic.TooManyMatchesPassHundred`).

## Model

| member | source | states |
|---|---|---|
| CandidateState.CoherentOutcomes | server/src/schemas/pipeline_candidate_state.py:19-66 | in a coherent state the outcome is SUCCESS iff persistence succeeded, and then every earlier stage did; skipped outcomes are exactly the states with synchronization, scoring and persistence skipped; FAILED_SCORING means prescoring or scoring failed, in the latter case with persistence skipped |
| CandidateState.TransitionsAloneDoNotCohere | server/src/schemas/pipeline_candidate_state.py:128-158 | the transitions called in another order than the run's break coherence |
| CandidateState.PipelineCandidateState.constructor | server/src/schemas/pipeline_candidate_state.py:52-66 | a new candidate has everything pending |
| CandidateState.PipelineCandidateState.MarkAcquired | server/src/schemas/pipeline_candidate_state.py:68-72 | only the acquisition stage and its diagnostic become successful |
| CandidateState.PipelineCandidateState.MarkPrescored | server/src/schemas/pipeline_candidate_state.py:74-79 | the prescore is recorded and the stage succeeds |
| CandidateState.PipelineCandidateState.MarkSkippedThreshold | server/src/schemas/pipeline_candidate_state.py:81-85 | the outcome is decided and the three later stages are skipped |
| CandidateState.PipelineCandidateState.MarkSkippedTopK | server/src/schemas/pipeline_candidate_state.py:87-92 | as below the threshold, with the rank recorded |
| CandidateState.PipelineCandidateState.MarkSelected | server/src/schemas/pipeline_candidate_state.py:94-96 | the outcome is open again and the rank recorded |
| CandidateState.PipelineCandidateState.MarkSynchronizationSuccess | server/src/schemas/pipeline_candidate_state.py:98-102 | only synchronization changes |
| CandidateState.PipelineCandidateState.MarkSynchronizationFailed | server/src/schemas/pipeline_candidate_state.py:104-116 | the outcome is decided, scoring and persistence are skipped, the code is recorded |
| CandidateState.PipelineCandidateState.MarkScoringSuccess | server/src/schemas/pipeline_candidate_state.py:118-126 | score and confidence are recorded, the outcome stays open |
| CandidateState.PipelineCandidateState.MarkScoringFailed | server/src/schemas/pipeline_candidate_state.py:128-139 | the outcome becomes FAILED_SCORING, whatever it was, and persistence is skipped |
| CandidateState.PipelineCandidateState.MarkPersistenceSuccess | server/src/schemas/pipeline_candidate_state.py:141-146 | the outcome becomes SUCCESS |
| CandidateState.PipelineCandidateState.MarkPersistenceFailed | server/src/schemas/pipeline_candidate_state.py:148-158 | the outcome becomes FAILED_PERSISTENCE |
| RunAccounting.SelectionIsPrefix | server/src/core/services/scoring_service.py:605-615 | the selected candidates are the first min(k, eligible) of the ranked prescores; nobody left out has a better prescore; the eligible ones are exactly those at or above the threshold |
| Common.SortIsDescending | server/src/core/services/scoring_service.py:1339-1342 | ranking sorts by score, highest first |
| Common.SortIsStable | server/src/core/services/scoring_service.py:1339-1342 | candidates with equal prescores keep the order the prescorer gave them |
| RunAccounting.IdsFacts | server/src/core/services/scoring_service.py:605-618 | under the contracts the prescored, eligible and selected ids are nested, without duplicates, and all acquired |
| RunAccounting.SelectedRank | server/src/core/services/scoring_service.py:640-649 | a selected candidate's recorded rank is its place among the selected, hence at most k |
| RunAccounting.PoolPartition | server/src/core/services/scoring_service.py:617-667 | the pool splits into omitted, below threshold, beyond top k and selected, with the sizes of the lists' differences |
| RunAccounting.SelectionCounters | server/src/core/services/scoring_service.py:651-667 | the three counters taken after selection: everybody matched, the eligible, min(k, eligible) selected |
| RunAccounting.EveryStageCoheres | server/src/core/services/scoring_service.py:594-649 | every state a candidate passes through in a run is coherent |
| RunAccounting.FinalOutcome | server/src/core/services/scoring_service.py:175-290 | the outcome every candidate ends with, by cause |
| RunAccounting.RecordedFigures | server/src/core/services/scoring_service.py:594-649 | a candidate's record ends with its own prescore, its place among the ranked answers iff it met the threshold, and its own final score and confidence iff its request was answered |
| RunAccounting.RecordedCodes | server/src/core/services/scoring_service.py:175-290 | the error codes of prescoring, synchronization, scoring and persistence, by what went wrong |
| RunAccounting.UnstoredHaveFailed | server/src/core/services/scoring_service.py:449-465 | where persistence is refused every answered candidate has failed |
| RunAccounting.UnresolvedIffStranded | server/src/core/services/scoring_service.py:219-290 | exactly the stranded candidates end a run without an outcome |
| RunAccounting.ReturnedIffCompleted | server/src/core/services/scoring_service.py:787-800 | a candidate is in the response iff its persistence succeeded |
| RunAccounting.ScoredIds | server/src/core/services/scoring_service.py:256-275 | one score per task whose request was answered, none twice |
| RunAccounting.ResponseIsRankedCompletions | server/src/core/services/scoring_service.py:776-808 | the response is a permutation of the completed candidates, the higher final score first and among equals the smaller prescore rank, each row with its own candidate's figures |
| RunAccounting.SelfCheck | server/src/core/services/scoring_service.py:814-834 | completed == returned always; selected == completed + failed iff nobody is stranded |
| RunAccounting.SoundSyncBalancesTheRun | server/src/core/services/scoring_service.py:814-849 | when a synchronization success implies a local row both equations hold and nobody is left pending |
| RunAccounting.StrandedCandidateBreaksTheSelfCheck | server/src/core/services/scoring_service.py:833 | a run in which the first equation fails |
| RunAccounting.ReportPassesIff | server/src/core/services/scoring_service.py:904-972 | the report of a completed run passes iff everybody was prescored and no candidate that failed synchronization has a local row |
| RunAccounting.ReportedPool | server/src/core/services/scoring_service.py:904-960 | the report gives the pool as matched and those at or above the threshold as eligible |
| RunAccounting.OmissionFailsReport | server/src/core/services/scoring_service.py:617-629 | a run whose report fails although everything but the prescorer worked |
| RunAccounting.EmptySelectionReportPassesIff | server/src/core/services/scoring_service.py:669-676 | the report of a run that selected nobody passes iff everybody was prescored |
| RunAccounting.WarningIsHonest | server/src/core/services/scoring_service.py:851-869 | no warning iff k rows are returned; EVALUATION_FAILURE iff fewer are although k were eligible, and then a selected candidate did not complete |
| PipelineStages.PipelineExecutionContext.constructor | server/src/core/services/scoring_service.py:533-548 | one fresh state per acquired candidate, marked acquired |
| PipelineStages.RecordPrescores | server/src/core/services/scoring_service.py:594-598 | exactly the candidates named get their prescore |
| PipelineStages.RecordFate | server/src/core/services/scoring_service.py:619-649 | what selection does to one candidate, by the lists it is in |
| PipelineStages.RecordSelection | server/src/core/services/scoring_service.py:617-649 | every candidate of the pool is marked by its own standing |
| PipelineStages.RecordSynchronization | server/src/core/services/scoring_service.py:708-729 | each selected candidate gets its own result, or the lack of one, and nobody else changes |
| PipelineStages.RecordResult | server/src/core/services/scoring_service.py:713-729 | success, failure with its code or a default one, or omission |
| PipelineStages.RefuseMissing | server/src/core/services/scoring_service.py:175-192 | without any local row every selected candidate still awaiting scoring fails |
| PipelineStages.CollectTasks | server/src/core/services/scoring_service.py:219-232 | one task per row whose candidate synchronized; the others are marked failed |
| PipelineStages.RequestsAwaitAnswers | server/src/core/services/scoring_service.py:219-232 | while its request is out a candidate's scoring is pending; one that failed to synchronize has failed |
| PipelineStages.CollectResults | server/src/core/services/scoring_service.py:255-290 | the gathered results, paired with the task ids in order, are each credited to their own candidate, and the payloads are kept in task order |
| PipelineStages.RecordAnswer | server/src/core/services/scoring_service.py:263-290 | raised, empty and answered requests |
| PipelineStages.RecordPersistence | server/src/core/services/scoring_service.py:449-465 | the scored candidates complete or fail together with the persistence |
| PipelineDriver.ScoringService.Select | server/src/core/services/scoring_service.py:587-649 | ranking and selection leave every candidate in the state the scenario computes |
| PipelineDriver.ScoringService.GetCandidatesByIds | server/src/data/repositories/scoring_repository.py:143-165 | the candidates with a row among the ids, each once |
| PipelineDriver.ScoringService.Refresh | server/src/core/services/scoring_service.py:702-735 | synchronization results and loaded rows are those of the selection, and recorded |
| PipelineDriver.ScoringService.DeepScore | server/src/core/services/scoring_service.py:155-475 | scores, final states and tables of the deep-scoring stage, whatever the scorer and the database do |
| PipelineDriver.ScoringService.Respond | server/src/core/services/scoring_service.py:776-808 | looking rows up by id and sorting them gives the scenario's response |
| PipelineDriver.ScoringService.Evaluate | server/src/core/services/scoring_service.py:585-894 | a confirmed run over a non-empty pool ends settled, with every candidate in its final state |
| PipelineDriver.ScoringService.Run | server/src/core/services/scoring_service.py:477-894 | preview, empty pool, empty selection and full run: answer, states and tables; the answer is in order of final score and then rank, gives the pool and the eligible, and warns as it should; what is stored is what is answered unless nothing was written; a discrepancy is never logged |
| PipelineDriver.RefreshedIsSound | server/src/core/services/candidate_synchronization_service.py:35-190 | in a run a reported synchronization success always has a local row |
| PipelineDriver.CompletedRunBalances | server/src/core/services/scoring_service.py:810-869 | a completed run logs no discrepancy, leaves nobody pending, keeps every state coherent, blames evaluation only for a real failure, and returns its completions, the best final score first and among equals the smaller prescore rank |
| PipelineDriver.AnswersInOrder | server/src/core/services/scoring_service.py:776-869 | the counts, the order and the warning of every answer, in terms of the answers and the threshold |
| PipelineDriver.AnswerIsStored | server/src/core/services/scoring_service.py:418-447 | a run that writes leaves the job active with exactly its answer on the shortlist and among the scores |
| PipelineDriver.ReportFailsOnStaleProfiles | server/src/core/services/scoring_service.py:896-972 | the report of a completed run passes iff everybody was prescored and no selected candidate's profile stayed unrefreshed |
| PipelineDriver.StaleProfileFailsReport | server/src/core/services/scoring_service.py:219-232 | a run whose report fails for a stale profile that could not be refreshed |
| PipelineDriver.ShortlistIsTheResponseIff | server/src/core/services/scoring_service.py:234-237 | the stored shortlist equals the returned list iff some request was made or there was no older shortlist; kept entries keep their sharing, decision and notes |
| PipelineDriver.OldShortlistSurvives | server/src/core/services/scoring_service.py:234-237 | a run that returns nobody and leaves an earlier candidate on the shortlist |
| Acquisition.LocalMatchesComeFirst | server/src/core/services/candidate_acquisition_service.py:160-168 | merging keeps the local matches as a prefix and appends the new sourced candidates once each |
| Acquisition.Deduplicate | server/src/core/services/candidate_acquisition_service.py:163-168 | the loop keeps the first summary of every candidate, in order |
| Acquisition.AcquireCandidates | server/src/core/services/candidate_acquisition_service.py:57-190 | the pool holds nobody twice and all local matches; sourcing is skipped iff there are enough of them |
| Synchronization.AppliedRows | server/src/core/services/candidate_synchronization_service.py:165-176 | storing fetched profiles loses no row, adds every stored one and leaves the others alone |
| Synchronization.RefusedLeavesRow | server/src/core/services/candidate_synchronization_service.py:177-188 | as long as no profile of a candidate is accepted its row stays as it was |
| Synchronization.AcceptedReplacesRow | server/src/core/services/candidate_synchronization_service.py:165-176 | the last accepted profile of a candidate is upserted onto the row found, and the result stays |
| Synchronization.AskedIff | server/src/core/services/candidate_synchronization_service.py:60-116 | the sourcing service is asked iff a selected candidate has no row or one older than allowed |
| Synchronization.ResultInFull | server/src/core/services/candidate_synchronization_service.py:104-188 | every result: by the last delivered profile if there is one, else by the age of the row, with the error code |
| Synchronization.UpsertedRow | server/src/data/repositories/scoring_repository.py:445-635 | a stored profile replaces the row, dated now, or makes one, dated as delivered; other rows stay |
| Synchronization.CandidateSynchronizationService.Partition | server/src/core/services/candidate_synchronization_service.py:60-116 | missing, stale and fresh candidates partition the selection; fresh ones succeed at once |
| Synchronization.CandidateSynchronizationService.Synchronize | server/src/core/services/candidate_synchronization_service.py:35-190 | every selected candidate gets exactly the result its freshness, the reply and the database call for, and the table becomes the one the accepted profiles make |
| Synchronization.CandidateSynchronizationService.StoreAll | server/src/core/services/candidate_synchronization_service.py:165-188 | profiles are stored one by one, a refused one not stopping the rest |
| Synchronization.SuccessesAreStored | server/src/core/services/candidate_synchronization_service.py:104-176 | a reported success always has a local row |
| Synchronization.FailedButStoredIff | server/src/core/services/candidate_synchronization_service.py:125-188 | a failed candidate has a row afterwards iff it is stale and was not delivered, or the last profile that came was refused; the row is the old one unless a profile was accepted before |
| ScoringStore.ScoringRepository.UpsertPipelineEntries | server/src/data/repositories/scoring_repository.py:250-279 | every id ends with an entry at the stage, existing entries keeping everything else |
| ScoringStore.StagedEntry | server/src/data/repositories/scoring_repository.py:250-279 | a staged entry keeps everything but its stage; a new one is blank, undecided and dated now |
| ScoringStore.ScoringRepository.UpsertCandidateScores | server/src/data/repositories/scoring_repository.py:343-431 | every scored candidate ends with its last score, creation times kept |
| ScoringStore.LastScoreIsLast | server/src/data/repositories/scoring_repository.py:343-431 | of several scores of a candidate the last in the batch is kept |
| ScoringStore.ScoringRepository.DeleteStale | server/src/data/repositories/scoring_repository.py:788-823 | the job's rows of candidates not kept are gone, an empty list keeping none |
| ScoringStore.ScoringRepository.TransitionToActiveIfNeeded | server/src/core/services/scoring_service.py:1742-1748 | the job becomes ACTIVE, whatever its status, if the master data has that status |
| ScoringStore.ScoringRepository.Persist | server/src/core/services/scoring_service.py:418-447 | the four writes in order, stopping where the database refuses |
| ScoringStore.ScoresComeFirst | server/src/core/services/scoring_service.py:418-447 | a persistence refused after its first call has written the scores and nothing else |
| ScoringStore.SecondCallAdds | server/src/core/services/scoring_service.py:418-447 | the second call puts the scored candidates on the shortlist and takes nobody off |
| ScoringStore.ThirdCallPurges | server/src/core/services/scoring_service.py:418-447 | the third call of a pipeline run takes everybody else off |
| ScoringStore.JobWaitsForTheLastCall | server/src/core/services/scoring_service.py:418-447 | only the last call activates the job |
| ScoringStore.PersistenceReplacesTheShortlist | server/src/core/services/scoring_service.py:422-440 | a completed run's shortlist and scores have the same candidates, those scored in the run; kept entries keep sharing, decision, notes and interview; other jobs are untouched |
| ScoringStore.RescoreOnlyAdds | server/src/core/services/scoring_service.py:1721-1740 | a rescore outside a pipeline run removes nobody, changes no more of an entry than its stage, and activates the job |
| ScoringStore.FailedPersistenceMaySplitTables | server/src/core/services/scoring_service.py:422-447 | a persistence refused after its first write leaves scores without shortlist entries |
| Throttle.WithinCapacity | server/src/core/services/scoring_service.py:101-215 | in every interleaving the requests in flight, and the logged peak, stay within the number of keys (one if there is none) times the requests granted per key |
| Throttle.PeakIsReached | server/src/core/services/scoring_service.py:200-253 | the logged peak is the largest number of requests in flight at once |
| Throttle.NeverStuckIff | server/src/core/services/scoring_service.py:200-216 | whatever happened so far, an unfinished batch has a task that can move iff each key is granted at least one request |
| Throttle.EveryStepProgresses | server/src/core/services/scoring_service.py:200-216 | every step uses up one unit of a finite amount of work |
| Throttle.BatchFinishes | server/src/core/services/scoring_service.py:200-243 | no interleaving has more than two steps a task, and one that cannot go on has settled every task and gathers each candidate's own answer |
| Throttle.Gather | server/src/core/services/scoring_service.py:200-243 | sending and gathering a batch ends, whatever order the tasks move in, with the results in task order |
| Throttle.ResultsBelongToTheirTasks | server/src/core/services/scoring_service.py:240-256 | however requests interleaved, the gathered results pair up with the candidates they were asked for |
| Reconciliation.MatchAll | server/src/data/repositories/scoring_repository.py:480-534 | after the matching loop every wanted key is there, its first row shows the last item of that key, and stored rows keep identity and place |
| Reconciliation.Reconcile | server/src/data/repositories/scoring_repository.py:480-541 | after pruning there is exactly one row per incoming key, showing its last item; surviving stored keys keep their first row |
| Reconciliation.LatestIff | server/src/data/repositories/scoring_repository.py:480-534 | what is wanted under a key is what its last incoming item offers |
| Reconciliation.OfferedIsLatestIff | server/src/data/repositories/scoring_repository.py:611-633 | taking every incoming item shows the same as taking the last one per key iff the keys are distinct |
| Profile.SyncedSkillsReplaceNames | server/src/data/repositories/scoring_repository.py:461-479 | synchronizing replaces the set of skill names; a row stays iff its name is still offered, new rows are only made for new names |
| Profile.SynchronizeSkills | server/src/data/repositories/scoring_repository.py:461-479 | the two loops over the rows do that |
| Profile.ExperiencesShowPayload | server/src/data/repositories/scoring_repository.py:493-531 | updating and creating an experience both take over description, end date and whether it is current, and its nested skills as a set of names |
| Profile.ReconcileExperiences | server/src/data/repositories/scoring_repository.py:480-541 | stored experiences become one row per incoming key with its last data, the first row of a surviving key keeping its identity |
| Profile.ReconcileEducations | server/src/data/repositories/scoring_repository.py:542-584 | the same for educations |
| Profile.Candidate.Create | server/src/data/repositories/scoring_repository.py:586-635 | a new candidate shows the delivered profile, repeated keys included |
| Profile.Candidate.Update | server/src/data/repositories/scoring_repository.py:447-584 | an existing candidate shows the delivered profile in place of its own, with resume text, creation time and the identity of matching rows kept |
| Profile.Upsert | server/src/data/repositories/scoring_repository.py:445-635 | a row found is updated in place, otherwise one is created |
| Profile.ReplacedShows | server/src/data/repositories/scoring_repository.py:447-584 | after an update a candidate shows the delivered master data and skills and, under each delivered key, once, the experience and the education delivered last; resume text and creation time stay |
| Profile.CreatedShows | server/src/data/repositories/scoring_repository.py:586-635 | a new candidate shows everything delivered, item by item, and the delivered creation time |
| Profile.UpdateIsIdempotent | server/src/data/repositories/scoring_repository.py:437-444 | two updates show what one shows |
| Profile.UpsertIsIdempotentIff | server/src/data/repositories/scoring_repository.py:437-444 | upserting twice shows what upserting once shows iff the candidate existed or its incoming keys are distinct |
| Profile.RepeatedKeyIsMerged | server/src/data/repositories/scoring_repository.py:586-635 | a new candidate with a repeated experience for which two upserts differ |
| CampaignSafety.ReachableIsSound | server/src/core/services/scoring_service.py:2349-2371 | in every reachable state every shared entry has a decision and a sharing date, and on a closed campaign the decision is taken |
| CampaignSafety.CountsAddUp | server/src/core/services/scoring_service.py:1983-2005 | shared == accepted + rejected + pending, and pending is exactly undecided |
| CampaignSafety.OwnerMayEndIff | server/src/core/services/scoring_service.py:2320-2379 | the owning manager may end an open campaign iff the pending count is zero |
| CampaignSafety.ClosedIsLeftIff | server/src/core/services/scoring_service.py:1742-1748 | a step takes a campaign out of CLOSED iff it is its manager's reopening or the end of a scoring run that reaches its last write |
| CampaignSafety.DraftIsNeverReentered | server/src/core/services/scoring_service.py:1742-1748 | once left, DRAFT is never re-entered |
| CampaignSafety.OnlyItsManagerCloses | server/src/core/services/scoring_service.py:2320-2402 | a campaign becomes CLOSED only by an ending of its own manager |
| CampaignSafety.WhoChangesStatus | server/src/core/services/scoring_service.py:1742-1748 | the status changes only by its manager's ending of an open or reopening of a closed campaign, or to ACTIVE by a run on the job |
| CampaignSafety.WhoAddsJobs | server/src/core/services/job_description_service.py:48-140 | a job appears as a draft of the recruiter who creates it |
| CampaignSafety.WhoEditsJobs | server/src/core/services/job_description_service.py:142-240 | fields and manager change only by an edit of the job's recruiter, on an open campaign and during no scoring task, to the values given |
| CampaignSafety.StaysClosedIff | server/src/core/services/scoring_service.py:1742-1780 | over every sequence of calls a closed campaign stays closed until reopened iff every run in flight on it has somebody to score and has not passed the second check |
| CampaignSafety.LateRunReopensCampaign | server/src/core/services/scoring_service.py:418-447 | a run that has selected somebody and passed its second check turns a campaign ended meanwhile back to ACTIVE |
| CampaignSafety.EmptyRunReopensCampaign | server/src/core/services/scoring_service.py:550-674 | a run that acquires nobody, or selects nobody, turns a campaign ended meanwhile back to ACTIVE |
| CampaignSafety.SelectedRunLeavesClosed | server/src/core/services/scoring_service.py:702-744 | a campaign ended after its only run has selected somebody and before the second check stays closed |
| CampaignSafety.EditKeepsOrEmptiesShortlist | server/src/core/services/job_description_service.py:142-288 | an edit leaves the shared shortlist alone or empties it; it empties a non-empty one iff a scoring field changed and no review had started; never on a closed job or during a scoring task; decisions and other jobs stay |
| CampaignSafety.EditIsIdempotent | server/src/utils/jd_comparison_helper.py:27-57 | the same edit again changes nothing |
| CampaignSafety.SharingReplacesShortlist | server/src/data/repositories/scoring_repository.py:654-696 | the shared candidates become exactly the given ones, all pending; interviews and other jobs stay |
| CampaignSafety.ReshareReviewStartedIff | server/src/utils/review_state_helper.py:13-31 | a re-shared entry counts as reviewed iff an interview was arranged before |
| ReviewState.EachTraceStartsReview | server/src/utils/review_state_helper.py:13-31 | a decision, a note, a sent interview and a link each start a review; being shared and pending does not |
| ReviewState.EachFieldCounts | server/src/utils/jd_comparison_helper.py:27-57 | each of the ten fields scoring reads counts, the department does not, and a missing text equals an empty one |
| ReviewState.SkillsWithinIff | server/src/utils/jd_comparison_helper.py:27-57 | skills are compared by name, up to case and outer blanks, and by whether they are mandatory |
| CampaignSafety.OnlyManagerDecides | server/src/data/repositories/scoring_repository.py:741-765 | an entry's decision changes only by its own review or interview, or by being shared anew |
| CampaignSafety.WhoRemarks | server/src/data/repositories/scoring_repository.py:741-765 | remarks change only by the manager's own review of a shared entry on an open campaign, to those given; sharing anew clears them |
| CampaignSafety.WhoInterviews | server/src/core/services/scoring_service.py:2124-2260 | an interview changes only by the managing manager, on a shared entry, and records link, sending time, date, time zone and message as given |
| CampaignSafety.WhoChangesNotes | server/src/core/services/scoring_service.py:1254-1283 | recruiter notes change only by the job's recruiter on an open campaign, or with a note given when sharing |
| CampaignSafety.WhoChangesStage | server/src/core/services/scoring_service.py:1285-1307 | the stage changes only by the job's recruiter on an open campaign, or to SHORTLISTED by a run that scored the candidate |
| CampaignSafety.WhoShares | server/src/data/repositories/scoring_repository.py:654-696 | whether and when an entry was shared changes only by a recruiter sharing on an open campaign or by an edit that empties the list |
| CampaignSafety.WhoAddsEntries | server/src/data/repositories/scoring_repository.py:250-279 | an entry appears only by a note or a stage of the job's recruiter or by a run that scored the candidate |
| CampaignSafety.NewEntriesAreBlank | server/src/data/repositories/scoring_repository.py:250-279 | a new entry is not shared, undecided, without remarks and without interview |
| CampaignSafety.EntriesKeepTheirDate | server/src/data/repositories/scoring_repository.py:250-279 | when an entry was made never changes |
| CampaignSafety.WhoRuns | server/src/core/services/scoring_service.py:494-744 | a run is started by the job's recruiter on an open campaign and goes phase by phase, scoring only if the campaign is open then |
| CampaignSafety.HowRunsEnd | server/src/core/services/scoring_service.py:166-744 | a run ends by being given up, with its last write, or at the second check of a closed campaign |
| CampaignSafety.OnlyRunsDropEntries | server/src/data/repositories/scoring_repository.py:788-823 | an entry disappears only when a pipeline run on its job ends without it |
| Dashboard.SharedBoard | server/src/data/repositories/scoring_repository.py:654-696 | sharing makes the dashboard exactly the given candidates, all pending |
| Dashboard.EditedBoard | server/src/core/services/job_description_service.py:240-288 | an edit leaves the dashboard as it is or empties it |
| Dashboard.DecidedBoard | server/src/data/repositories/scoring_repository.py:741-765 | a decision moves its candidate to its column and nobody else |
| Dashboard.EndedBoard | server/src/core/services/scoring_service.py:2349-2387 | when a campaign may be ended everybody shared is accepted or rejected |
| Dashboard.EmptiedBoard | server/src/core/services/scoring_service.py:550-674 | a run that selected nobody empties the dashboard, one that acquired nobody leaves it |
| Dashboard.RunBoard | server/src/core/services/scoring_service.py:418-447 | a run that persists takes off the dashboard exactly the candidates it did not score, a rescore nobody, and no decision changes |
| CampaignService.CampaignOperations.UpdateJobDescription | server/src/core/services/job_description_service.py:142-288 | the guards in order and the new fields; the dashboard stays or becomes empty |
| CampaignService.CampaignOperations.ShareShortlist | server/src/core/services/scoring_service.py:1813-1867 | any recruiter may share on an open job if every candidate has an entry; the dashboard becomes exactly the given candidates, all pending; the count is the number of ids |
| CampaignService.CampaignOperations.SubmitReview | server/src/core/services/scoring_service.py:2070-2122 | only the owning manager reviews, only shared entries, only on open jobs; the candidate moves to the column of the decision and nobody else moves |
| CampaignService.CampaignOperations.ScheduleInterview | server/src/core/services/scoring_service.py:2124-2260 | only the owning manager schedules, for shared entries, whatever the status; the candidate moves to the accepted; nothing is written if the mail fails |
| CampaignService.CampaignOperations.EndCampaign | server/src/core/services/scoring_service.py:2320-2402 | goes through iff the caller is the hiring manager of the job, it is open and every shared entry is decided; then it is closed with nobody pending |
| CampaignService.CampaignOperations.ReopenCampaign | server/src/core/services/scoring_service.py:2404-2460 | makes a closed campaign of the caller's active and leaves every entry alone |
| CampaignService.CampaignOperations.UpdatePipelineNotes | server/src/core/services/scoring_service.py:1254-1283 | the owner's notes on an open job, creating the entry if need be; no dashboard changes |
| CampaignService.CampaignOperations.BulkUpdateStage | server/src/core/services/scoring_service.py:1285-1307 | the owner's stage change on an open job; no dashboard changes |
| CampaignService.CampaignOperations.BeginRun | server/src/core/services/scoring_service.py:494-497 | a run starts on an open job of its recruiter |
| CampaignService.CampaignOperations.MoveOn | server/src/core/services/scoring_service.py:550-702 | a run that acquired somebody goes on to prescoring, one that selected somebody on to its second check |
| CampaignService.CampaignOperations.CompleteEmptyRun | server/src/core/services/scoring_service.py:550-674 | a run that acquired nobody activates the job, one that selected nobody empties the shortlist first |
| CampaignService.CampaignOperations.ProceedToScoring | server/src/core/services/scoring_service.py:166-169 | the status is checked once more before deep scoring |
| CampaignService.CampaignOperations.CompleteRun | server/src/core/services/scoring_service.py:418-447 | the run's writes, without another check; the dashboard keeps exactly the candidates scored, or all of them after a rescore |
| KeyRotation.Soonest | server/src/control/agents/groq_client.py:62-67 | the fallback is the first key with the smallest cooldown |
| KeyRotation.KeyRing.Select | server/src/control/agents/groq_client.py:163-176 | the scan settles on the first key out of cooldown in ring order, or on the fallback after reading the clock for each |
| KeyRotation.SelectedIsFreeOrSoonest | server/src/control/agents/groq_client.py:163-176 | the key a scan settles on is the first one out of cooldown when looked at, or, if none was, the first with the smallest cooldown |
| KeyRotation.RotationScans | server/src/control/agents/groq_client.py:150-176 | a rate limit cools its key and no other, and the scan goes on from the next place |
| KeyRotation.RotationalChatGroq.constructor | server/src/control/agents/groq_client.py:46-72 | a new client is set up with the key the scan selects |
| KeyRotation.RotationalChatGroq.FailOver | server/src/control/agents/groq_client.py:150-188 | a rate limit is counted once, cools the active key and no other, moves on and reconnects |
| KeyRotation.RotationalChatGroq.Generate | server/src/control/agents/groq_client.py:126-198 | success iff the last request was answered, the error passed on iff it failed otherwise, and with a rate limit a single key passes it on and several give up; at most as many requests as keys, each with the key of its turn; only rate limits are retried, each cools exactly the key it hit for as long as its answer asked, moves on to the key the scan settles on and is counted once; giving up means that as many as there are keys were limited, the one the call began with and every one then available among them |
| KeyRotation.UnlimitedKeepsCooldown | server/src/control/agents/groq_client.py:150-176 | a key no rate limit hit during the call keeps its cooldown |
| KeyRotation.LastLimitCounts | server/src/control/agents/groq_client.py:150-176 | a limited key ends with the cooldown set by the last limit it hit |
| KeyRotation.StillAdvancing | server/src/control/agents/groq_client.py:163-178 | until every initially available key is tried each failover moves strictly further round the ring and skips none of them |
| KeyRotation.GivingUpTriesAvailable | server/src/control/agents/groq_client.py:142-198 | a call that gives up has tried the key it began with and every key out of cooldown then |
| KeyRotation.SurelyTriedIff | server/src/control/agents/groq_client.py:142-198 | every call that gives up has tried a key iff it began with that key or the key was out of cooldown then |
| KeyRotation.KeyLeftUntried | server/src/control/agents/groq_client.py:163-198 | a whole call that gives up after two limits on the first of two keys |
| AsyncRotation.SyncedClientHoldsActiveKey | server/src/control/agents/groq_client.py:109-124 | the conditional synchronization leaves its client, and no other, holding the active key |
| AsyncRotation.SentWithActiveKey | server/src/control/agents/groq_client.py:207-223 | a request sent with whatever its client holds after synchronizing carries the key of the index the call remembers |
| AsyncRotation.ClientMovesOn | server/src/control/agents/groq_client.py:207-262 | calls may share a client, which can hold another key by the time a request is answered |
| AsyncRotation.StepKeepsValid | server/src/control/agents/groq_client.py:200-262 | over every atomic step the index stays in range, there is one cooldown per key, and every waiting request carries the key its call remembers |
| AsyncRotation.RateLimitCoolsUsedKey | server/src/control/agents/groq_client.py:224-262 | in every interleaving a handled rate limit cools exactly the key its request was sent with, wherever its client is by then, and counts once |
| AsyncRotation.LimitedCall | server/src/control/agents/groq_client.py:224-268 | a limited call asks again with the key its scan settled on, or gives up when it has asked as often as there are keys; no other call is touched |
| AsyncRotation.LimitedRing | server/src/control/agents/groq_client.py:236-249 | the scan after a limit starts behind the limited key |
| AsyncRotation.BegunCall | server/src/control/agents/groq_client.py:207-223 | a call begins with the active key |
| AsyncRotation.EndedCall | server/src/control/agents/groq_client.py:214-228 | an answered or failed call ends, and so does a limited one where there is a single key; nothing else changes |
| AsyncRotation.ConstructedClient | server/src/control/agents/groq_client.py:46-72 | a new client holds the key a scan from the active one settles on |
| AsyncRotation.OnlyRateLimitsCool | server/src/control/agents/groq_client.py:200-262 | no other step touches cooldowns or counter |
| AsyncRotation.CounterCountsRateLimits | server/src/control/agents/groq_client.py:229 | the counter is the number of rate limits handled |
| AsyncRotation.AtMostOneRequestPerKey | server/src/control/agents/groq_client.py:214-268 | interleaved or not, a call sends at most as many requests as there are keys |
| AsyncRotation.GivingUpTriesUndisturbed | server/src/control/agents/groq_client.py:214-273 | in every interleaving a call that gives up has tried the key it began with and every key then out of cooldown that no other call's rate limit hit meanwhile |
| AsyncRotation.SurelyTriedAmidIff | server/src/control/agents/groq_client.py:214-273 | ... and no other key: for any set of keys the other calls may hit, a key is tried by every call that gives up iff it is one of those |
| AsyncRotation.FreeKeyLeftUntried | server/src/control/agents/groq_client.py:214-273 | a run of two calls on a new ring in which one gives up without trying a key that was free when it began |
| SearchStrategies.SecondRepeatsFirstIff | sourcing/src/core/services/postjobfree_sourcing_service.py:56-95 | the first two queries count as the same iff, with a location, the skills make no difference to the words sent, or, without one, the request is remote or its location is missing or empty |
| SearchStrategies.NoSkillsInBerlin | sourcing/src/core/services/postjobfree_sourcing_service.py:56-95 | a request with a location whose first two queries are the same |
| SearchStrategies.OneSkillInBerlin | sourcing/src/core/services/postjobfree_sourcing_service.py:56-95 | a request with a location whose first two queries differ |
| SearchStrategies.LadderEnds | sourcing/src/core/services/search_query_optimizer.py:44-49 | from the fifth attempt on the query stays the same |
| SearchStrategies.RungQueries | sourcing/src/core/services/search_strategies.py:24-128 | the five queries of a request on site, rung by rung |
| SearchStrategies.RungsElsewhere | sourcing/src/core/services/postjobfree_sourcing_service.py:56-95 | a remote request sends no place, no query does from the third on, and without a place the first one names the skills |
| SearchStrategies.WordsRequired | sourcing/src/core/services/postjobfree_sourcing_service.py:61-88 | the required words are the skills that are not blank, with "remote" if it is to be added, or the title if there is nothing else |
| SearchStrategies.SameSignatureIff | sourcing/src/core/services/postjobfree_sourcing_service.py:190-195 | queries count as the same iff title and place agree up to case and outer blanks and the words up to case and order |
| Text.WordsOfJoin | sourcing/src/core/services/postjobfree_sourcing_service.py:190-195 | splitting joined words gives them back in lower case, whatever their order |
| Text.StripTrims | sourcing/src/core/services/postjobfree_sourcing_service.py:190-195 | stripping takes off the blanks at both ends and nothing else |
| Sourcing.ScrapeOne | sourcing/src/core/services/postjobfree_sourcing_service.py:317-490 | a page counts as persisted iff its resume got past the reject test and storing did not raise; it adds its candidate iff the extraction succeeded with a payload and the candidate is neither excluded nor known |
| Sourcing.Scrape | sourcing/src/core/services/postjobfree_sourcing_service.py:283-490 | the results are asked for in order, each page once in the whole run, exactly up to the first point where time is up or the target is met; the candidates held and the counts are those of the pages fetched |
| Sourcing.TryQuery | sourcing/src/core/services/postjobfree_sourcing_service.py:160-227 | one turn of the loop extends the history by the one entry the record allows, skipped iff its query was sent before, and keeps the books |
| Sourcing.Turn | sourcing/src/core/services/postjobfree_sourcing_service.py:147-565 | an attempt that is made adds one entry to balanced books; only an executed attempt can lose the patience |
| Sourcing.StrategyByNumber | sourcing/src/core/services/search_query_optimizer.py:38-54 | in every recorded history attempt n stands at place n and has strategy min(n, 5) |
| Sourcing.LadderFollowed | sourcing/src/core/services/postjobfree_sourcing_service.py:157-202 | the queries sent are, in order, those of the strategies logged for the executed attempts |
| Sourcing.Search | sourcing/src/core/services/postjobfree_sourcing_service.py:146-565 | the search goes on exactly while the target is open, attempts are left, there is time, the optimizer delivers and the patience lasts: no attempt is made late or without a query, and a search that falls short with attempts left was late, without a query, or out of patience after an executed attempt |
| Sourcing.AttemptsInTime | sourcing/src/core/services/postjobfree_sourcing_service.py:146-171 | the same of every complete search, with the target open before each attempt |
| Sourcing.SourceCandidates | sourcing/src/core/services/postjobfree_sourcing_service.py:96-582 | nothing happens if enough candidates are known; otherwise a complete search, and the label says whether the target was met, and if not, whether the patience was lost |
| Sourcing.SearchBalances | sourcing/src/core/services/postjobfree_sourcing_service.py:453-494 | no query or page twice, exclusions out, count == start + added <= required, and the candidates held are exactly those known at the start and those the fetched resumes brought, bar the excluded |
| Sourcing.SearchIsDetermined | sourcing/src/core/services/postjobfree_sourcing_service.py:96-582 | two complete searches that met the same answers have the same history, candidates and counters |
| Sourcing.RecordsAgree | sourcing/src/core/services/postjobfree_sourcing_service.py:147-229 | attempt by attempt the history is determined: strategy, skipped or not, resumes found, persisted, added and remaining |
| Sourcing.NobodyIsMissed | sourcing/src/core/services/postjobfree_sourcing_service.py:283-490 | a search that falls short of its target has fetched every result of every executed attempt it had the time for and holds every usable candidate among them |
| Sourcing.SweepsAll | sourcing/src/core/services/postjobfree_sourcing_service.py:283-315 | an attempt that stays within the time and short of the target asks for all its results |
| Sourcing.FetchedInTime | sourcing/src/core/services/postjobfree_sourcing_service.py:283-306 | a page is asked for only at a result reached before time was up and with the target open |
| Sourcing.StoredCountCounts | sourcing/src/core/services/postjobfree_sourcing_service.py:375-398 | what counts as persisted are the pages that got past the reject test and were stored |
| Sourcing.HeldIff | sourcing/src/core/services/postjobfree_sourcing_service.py:317-490 | a candidate is held iff known at the start, or not excluded and extracted and stored from a fetched resume |
| Sourcing.FetchedOnce | sourcing/src/core/services/postjobfree_sourcing_service.py:308-315 | no page is fetched twice |
| Sourcing.LabelsExplained | sourcing/src/core/services/postjobfree_sourcing_service.py:559-576 | TARGET_SATISFIED iff exactly the required number is held; NO_IMPROVEMENT only after an idle run as long as the patience; MAX_ATTEMPTS_REACHED only with the attempts used up, the time up or a failing optimizer |
| Sourcing.LabelMisleadsIff | sourcing/src/core/services/postjobfree_sourcing_service.py:559-576 | MAX_ATTEMPTS_REACHED is logged with attempts left iff the search was cut short with the target open and the patience lasting |
| Sourcing.LabelMisleads | sourcing/src/core/services/postjobfree_sourcing_service.py:151-171 | a search labelled MAX_ATTEMPTS_REACHED that made no attempt |
| Sourcing.CountersAreJustified | sourcing/src/core/services/postjobfree_sourcing_service.py:496-511 | the best count is the maximum over the executed attempts and the no-improvement counter the length of the longest idle suffix of them |
| Sourcing.IdleMeans | sourcing/src/core/services/postjobfree_sourcing_service.py:496-511 | the last so many executed attempts, and no more, stored nobody new and found nothing or no more than an earlier one |
| Sourcing.HistoryFigures | sourcing/src/core/services/postjobfree_sourcing_service.py:204-226 | what the history says of an attempt: results found, nothing for a skipped one, and how many candidates are still wanted |
| Sourcing.SkippedIff | sourcing/src/core/services/postjobfree_sourcing_service.py:204-226 | an attempt is skipped iff an earlier executed one sent a query that counts as the same |
| Sourcing.SentOnce | sourcing/src/core/services/postjobfree_sourcing_service.py:190-229 | no query signature is sent twice |
| Sourcing.IdleRunIsLongestSuffix | sourcing/src/core/services/postjobfree_sourcing_service.py:496-511 | the no-improvement counter is the length of the longest suffix of attempts that neither beat all earlier ones nor added anybody |
| Sourcing.MostFoundIsMaximum | sourcing/src/core/services/postjobfree_sourcing_service.py:497-499 | the best count is the maximum over the attempts |
| Sourcing.AtMostOneQueryPerStrategy | sourcing/src/core/services/search_query_optimizer.py:18-24 | at most one query per strategy is ever sent |
| Sourcing.SecondAttemptSkippedIff | sourcing/src/core/services/postjobfree_sourcing_service.py:56-209 | the second attempt of every search is skipped iff its query says what the first did |
| ScoreArithmetic.ParseSkillWeight | server/src/control/agents/scoring_agent.py:174-190 | the weight is always within [0, 1] |
| ScoreArithmetic.ParseUndoesWriting | server/src/control/agents/scoring_agent.py:174-190 | parsing a name with a weight behind it gives both back, whatever bars the name contains |
| ScoreArithmetic.SkillPartBounds | server/src/control/agents/scoring_agent.py:263-294 | a skill part reaches or exceeds its points iff the matches weigh as much as, or more than, the wanted skills; with no more matches than wanted skills it never exceeds them |
| ScoreArithmetic.SkillPoints | server/src/control/agents/scoring_agent.py:263-294 | 28 points for the mandatory and 12 for the optional skills, by the share of the matched weight |
| ScoreArithmetic.ExperienceWithin | server/src/control/agents/scoring_agent.py:296-334 | within [0, 25], and at least 15 from the minimum on |
| ScoreArithmetic.ExperiencePlateauIff | server/src/control/agents/scoring_agent.py:296-334 | 25 points exactly on the wanted range |
| ScoreArithmetic.ExperienceRisesThenFalls | server/src/control/agents/scoring_agent.py:296-334 | never falling up to the maximum, never rising past it |
| ScoreArithmetic.ExperienceSlopes | server/src/control/agents/scoring_agent.py:296-334 | proportional below the minimum; past the maximum half a point a year for twenty years, then 15 |
| ScoreArithmetic.LatestEnd | server/src/control/agents/scoring_agent.py:350-357 | the latest recorded end, if any is recorded |
| ScoreArithmetic.RecencyWithin | server/src/control/agents/scoring_agent.py:336-377 | within [0, 15], 15 iff a position is current, 0 iff there is none at all |
| ScoreArithmetic.RecencySteps | server/src/control/agents/scoring_agent.py:336-377 | 15 points in a current position, then 13.5, 11.25, 8.25, 5.25 and 3.5 by years since the latest end, and 5 without a date |
| ScoreArithmetic.RecencyFades | server/src/control/agents/scoring_agent.py:362-377 | later days and earlier ends never raise the score |
| ScoreArithmetic.FinalScoreWithin | server/src/control/agents/scoring_agent.py:192-235 | with the evaluator's figures in range the rounded total is within [0, 100] |
| ScoreArithmetic.FinalScoreIsTheSum | server/src/control/agents/scoring_agent.py:212-237 | the final score is the sum of all five parts to the nearest cent |
| ScoreArithmetic.RoundIsNearest | server/src/control/agents/scoring_agent.py:234-255 | rounding gives a nearest number, of two the even one |
| ScoreArithmetic.TooManyMatchesPassHundred | server/src/control/agents/scoring_agent.py:277-294 | an evaluation with three matches for one wanted skill scores 109 |
| ScoreArithmetic.TotalNearRoundedParts | server/src/control/agents/scoring_agent.py:212-255 | each displayed part is its own part to the cent, and the total differs from the sum of the five by at most 0.03 |

## Left out

- PipelineDriver.ScoringService.Run: the ownership check and the first status check of a run are part of `Campaign`, not
  of the run itself; a prescorer or an activation that raises ends the run without an answer and is not modelled.
- PipelineDriver.ScoringService.DeepScore: the second status check is part of `Campaign`; the relevance audit only
  annotates scores, its failures are swallowed, and it is not modelled.
- CampaignSafety.StaysClosedIff: every service call, and the writes at the end of a run together, are one step; a run that
  has nothing left to write is no longer in flight.
- Throttle.Gather: each key is granted at least one request; with none the service would wait forever
  (`Throttle.NeverStuckIff`).
- ScoringStore.ScoringRepository.Persist: each of the four repository calls is all or nothing; partial effects of a
  call that raises half way, and the session's commit mode, are not modelled.
- ScoringStore.ScoringRepository.UpsertCandidateScores: a score row holds the final score and the confidence; the other
  columns are written alongside and follow the same path.
- Profile.SynchronizeSkills: the order in which new skills are appended follows the incoming list here, a set's order in
  the source; `is_primary` is not modelled.
- Profile.Candidate.Update: every upsert is atomic and child rows are values with identities, so aliasing between
  database objects is not captured; skill rows are not given identities on flush.
- KeyRotation.RotationalChatGroq.Generate: the ring has at least one key; loading keys from the settings and the client
  without any key are left out, and the cooldown read from the error's headers is an arbitrary number.
- AsyncRotation.SentWithActiveKey: a request is taken to use the credentials its client has when it is sent.
- Sourcing.LadderFollowed: trimming, lower case and word splitting are modelled for ASCII; fetching, parsing and
  extracting a page is one arbitrary outcome per page.
- ScoreArithmetic.FinalScoreWithin: exact reals instead of binary floating point; reading a weight is an arbitrary
  partial function, so infinities and NaN do not arise.
- Throttle.ResultsBelongToTheirTasks: cancellation of a batch is not modelled.
- Durations, log messages, progress reports, notifications and mail bodies.
- Authentication, one-time passwords, the API gateway and the client.
- Scoring task records and their sweeper: an edit is only told how many tasks are active.
- Resume parsing, profile compression, location normalization and other text helpers.
- Resume-hash lookup in the sourcing store and the search-source-search sequence around the loop, a few calls in a row.
- The sourcing service's own copy of the key rotation, which is the same algorithm.
