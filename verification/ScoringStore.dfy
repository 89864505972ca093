/** The tables a scoring run writes (server/src/data/repositories/scoring_repository.py): job descriptions,
    shortlist entries and candidate scores, the last two with one row per job and candidate. */
module ScoringStore {
  import opened Common
  import opened Pipeline

  type UserId = int
  type Key = (JobId, CandidateId)

  datatype Status = Draft | Active | Closed

  datatype JobSkill = JobSkill(name: string, mandatory: bool)

  datatype JobFields = JobFields(
    title: string, department: Option<string>, purpose: Option<string>, responsibilities: Option<string>,
    minExperience: int, maxExperience: Option<int>, location: string, employmentType: int,
    education: Option<string>, preferred: Option<string>, skills: seq<JobSkill>)

  datatype Job = Job(recruiter: UserId, manager: Option<UserId>, status: Status, fields: JobFields)

  datatype Decision = Undecided | InterviewSent | Rejected

  datatype Interview = Interview(
    link: Option<string>, sentAt: Option<int>, at: Option<int>, timezone: Option<string>, message: Option<string>)

  const NO_INTERVIEW := Interview(None, None, None, None, None)

  /** A shortlist entry of one candidate for one job. */
  datatype Entry = Entry(
    stage: string, recruiterNotes: Option<string>, managerNotes: Option<string>,
    shared: bool, sharedAt: Option<int>, decision: Option<Decision>, interview: Interview, createdAt: int)

  function NewEntry(stage: string, now: int): Entry {
    Entry(stage, None, None, false, None, Some(Undecided), NO_INTERVIEW, now)
  }

  datatype ScoreRow = ScoreRow(score: ScoreOutput, createdAt: int, updatedAt: int)

  /** `codes` are the statuses the master data knows. */
  datatype Tables = Tables(
    codes: set<Status>, jobs: map<JobId, Job>, pipeline: map<Key, Entry>, scores: map<Key, ScoreRow>)

  /** The candidates a table has a row for, for one job. */
  function IdsOf<V>(rows: map<Key, V>, job: JobId): (r: set<CandidateId>)
    ensures forall c :: c in r <==> (job, c) in rows
  {
    set k | k in rows && k.0 == job :: k.1
  }

  function KeysFor(job: JobId, ids: seq<CandidateId>): (r: set<Key>)
    ensures forall c :: (job, c) in r <==> c in ids
    ensures forall k :: k in r ==> k.0 == job && k.1 in ids
  {
    set c | c in ids :: (job, c)
  }

  // ================================================================ what the writes mean

  /** Every id ends with an entry at the stage; entries that were there keep everything else. */
  function Staged(p: map<Key, Entry>, job: JobId, ids: seq<CandidateId>, stage: string, now: int): map<Key, Entry> {
    map k | k in p.Keys + KeysFor(job, ids) ::
      if k in KeysFor(job, ids) then (if k in p then p[k].(stage := stage) else NewEntry(stage, now)) else p[k]
  }

  /** The last score of c in a batch. */
  function LastScore(batch: seq<ScoreOutput>, c: CandidateId): (r: Option<ScoreOutput>)
    ensures r.Some? <==> c in Map(batch, ScoredId)
    ensures r.Some? ==> r.value in batch && r.value.candidateId == c
  {
    if batch == [] then None
    else
      var n := |batch| - 1;
      assert batch == batch[..n] + [batch[n]];
      MapSnoc(batch[..n], batch[n], ScoredId);
      if batch[n].candidateId == c then Some(batch[n]) else LastScore(batch[..n], c)
  }

  /** Every scored candidate ends with its last score; a row's creation time survives. */
  function Scored(s: map<Key, ScoreRow>, job: JobId, batch: seq<ScoreOutput>, now: int): map<Key, ScoreRow> {
    map k | k in s.Keys + KeysFor(job, Map(batch, ScoredId)) :: ScoredRow(s, job, batch, now, k)
  }

  function ScoredRow(s: map<Key, ScoreRow>, job: JobId, batch: seq<ScoreOutput>, now: int, k: Key): ScoreRow
    requires k in s.Keys + KeysFor(job, Map(batch, ScoredId))
  {
    if k in KeysFor(job, Map(batch, ScoredId))
    then ScoreRow(LastScore(batch, k.1).value, if k in s then s[k].createdAt else now, now)
    else s[k]
  }

  /** The rows of the job whose candidate is not kept are gone. */
  function Purged<V>(rows: map<Key, V>, job: JobId, keep: seq<CandidateId>): map<Key, V> {
    map k | k in rows && (k.0 == job ==> k.1 in keep) :: rows[k]
  }

  function Activated(t: Tables, job: JobId): Tables {
    if Active in t.codes && job in t.jobs then t.(jobs := t.jobs[job := t.jobs[job].(status := Active)]) else t
  }

  function WithoutStale(t: Tables, job: JobId, keep: seq<CandidateId>): Tables {
    t.(pipeline := Purged(t.pipeline, job, keep), scores := Purged(t.scores, job, keep))
  }

  /** The tables once the first `calls` of the four persistence calls went through. Only a pipeline run, not a
      single rescore, drops stale rows. */
  function Persisted(
    t: Tables, job: JobId, batch: seq<ScoreOutput>, pipelineRun: bool, now: int, calls: nat): Tables
  {
    var ids := Map(batch, ScoredId);
    var t1 := if calls < 1 then t else t.(scores := Scored(t.scores, job, batch, now));
    var t2 := if calls < 2 then t1 else t1.(pipeline := Staged(t1.pipeline, job, ids, "SHORTLISTED", now));
    var t3 := if calls < 3 || !pipelineRun then t2 else WithoutStale(t2, job, ids);
    if calls < 4 then t3 else Activated(t3, job)
  }

  // ================================================================ the repository

  class ScoringRepository {
    var codes: set<Status>
    var jobs: map<JobId, Job>
    var pipeline: map<Key, Entry>
    var scores: map<Key, ScoreRow>

    function View(): Tables
      reads this
    {
      Tables(codes, jobs, pipeline, scores)
    }

    constructor (t: Tables)
      ensures View() == t
    {
      codes, jobs, pipeline, scores := t.codes, t.jobs, t.pipeline, t.scores;
    }

    method UpsertPipelineEntries(job: JobId, ids: seq<CandidateId>, stage: string, now: int)
      modifies this`pipeline
      ensures pipeline == Staged(old(pipeline), job, ids, stage, now)
    {
      for i := 0 to |ids|
        invariant pipeline == Staged(old(pipeline), job, ids[..i], stage, now)
      {
        var k := (job, ids[i]);
        assert ids[..i + 1] == ids[..i] + [ids[i]];
        if k in pipeline {
          pipeline := pipeline[k := pipeline[k].(stage := stage)];
        } else {
          pipeline := pipeline[k := NewEntry(stage, now)];
        }
        StagedGrows(old(pipeline), job, ids, i, stage, now);
      }
      assert ids[..|ids|] == ids;
    }

    method UpsertCandidateScores(job: JobId, batch: seq<ScoreOutput>, now: int)
      modifies this`scores
      ensures scores == Scored(old(scores), job, batch, now)
    {
      for i := 0 to |batch|
        invariant scores == Scored(old(scores), job, batch[..i], now)
      {
        var k := (job, batch[i].candidateId);
        ScoredGrows(old(scores), job, batch, i, now);
        if k in scores {
          scores := scores[k := scores[k].(score := batch[i], updatedAt := now)];
        } else {
          scores := scores[k := ScoreRow(batch[i], now, now)];
        }
      }
      assert batch[..|batch|] == batch;
    }

    method DeleteStale(job: JobId, keep: seq<CandidateId>)
      modifies this`pipeline, this`scores
      ensures View() == WithoutStale(old(View()), job, keep)
    {
      if keep != [] {
        pipeline := map k | k in pipeline && !(k.0 == job && k.1 !in keep) :: pipeline[k];
        scores := map k | k in scores && !(k.0 == job && k.1 !in keep) :: scores[k];
      } else {
        pipeline := map k | k in pipeline && !(k.0 == job) :: pipeline[k];
        scores := map k | k in scores && !(k.0 == job) :: scores[k];
      }
    }

    method TransitionToActiveIfNeeded(job: JobId)
      modifies this`jobs
      ensures View() == Activated(old(View()), job)
    {
      if Active in codes && job in jobs {
        jobs := jobs[job := jobs[job].(status := Active)];
      }
    }

    /** The persistence stage of deep scoring; `raises` says which of its four calls the database refuses. */
    method Persist(job: JobId, batch: seq<ScoreOutput>, pipelineRun: bool, now: int, raises: nat) returns (ok: bool)
      modifies this
      ensures ok <==> raises >= 4 || (raises == 2 && !pipelineRun)
      ensures View() == Persisted(old(View()), job, batch, pipelineRun, now, if ok then 4 else raises)
    {
      ok := raises >= 4 || (raises == 2 && !pipelineRun);
      if raises == 0 {
        return;
      }
      UpsertCandidateScores(job, batch, now);
      if raises == 1 {
        return;
      }
      UpsertPipelineEntries(job, Map(batch, ScoredId), "SHORTLISTED", now);
      if pipelineRun {
        if raises == 2 {
          return;
        }
        DeleteStale(job, Map(batch, ScoredId));
      }
      if raises == 3 {
        return;
      }
      TransitionToActiveIfNeeded(job);
    }
  }

  lemma StagedGrows(p: map<Key, Entry>, job: JobId, ids: seq<CandidateId>, i: nat, stage: string, now: int)
    requires i < |ids|
    ensures var q := Staged(p, job, ids[..i], stage, now);
      var k := (job, ids[i]);
      Staged(p, job, ids[..i + 1], stage, now) ==
        q[k := if k in q then q[k].(stage := stage) else NewEntry(stage, now)]
  {
    assert ids[..i + 1] == ids[..i] + [ids[i]];
  }

  lemma ScoredGrows(s: map<Key, ScoreRow>, job: JobId, batch: seq<ScoreOutput>, i: nat, now: int)
    requires i < |batch|
    ensures var q := Scored(s, job, batch[..i], now);
      var k := (job, batch[i].candidateId);
      Scored(s, job, batch[..i + 1], now) ==
        q[k := if k in q then q[k].(score := batch[i], updatedAt := now) else ScoreRow(batch[i], now, now)]
  {
    assert batch[..i + 1] == batch[..i] + [batch[i]];
    MapSnoc(batch[..i], batch[i], ScoredId);
    KeysGrow(job, Map(batch[..i], ScoredId), batch[i].candidateId);
    assert batch[..i + 1][..i] == batch[..i];
  }

  lemma KeysGrow(job: JobId, ids: seq<CandidateId>, c: CandidateId)
    ensures KeysFor(job, ids + [c]) == KeysFor(job, ids) + {(job, c)}
  {
  }

  // ================================================================ what persistence achieves

  /** Staging moves an entry that is there and nothing else about it; a new one is blank: not shared, undecided, without
      notes or interview, dated now. */
  lemma {:induction false} StagedEntry(
    p: map<Key, Entry>, job: JobId, ids: seq<CandidateId>, stage: string, now: int, c: CandidateId)
    requires c in ids
    ensures (job, c) in Staged(p, job, ids, stage, now)
    ensures var e := Staged(p, job, ids, stage, now)[(job, c)];
      && e.stage == stage
      && if (job, c) in p then
           var was := p[(job, c)];
           && e.shared == was.shared && e.sharedAt == was.sharedAt && e.decision == was.decision
           && e.recruiterNotes == was.recruiterNotes && e.managerNotes == was.managerNotes
           && e.interview == was.interview && e.createdAt == was.createdAt
         else
           && !e.shared && e.sharedAt.None? && e.decision == Some(Undecided)
           && e.recruiterNotes.None? && e.managerNotes.None? && e.createdAt == now
           && e.interview.link.None? && e.interview.sentAt.None? && e.interview.at.None?
           && e.interview.timezone.None? && e.interview.message.None?
  {
  }

  /** The score kept of a candidate is the last one in the batch. */
  lemma {:induction false} LastScoreIsLast(batch: seq<ScoreOutput>, i: nat)
    requires i < |batch| && forall k :: i < k < |batch| ==> batch[k].candidateId != batch[i].candidateId
    ensures LastScore(batch, batch[i].candidateId) == Some(batch[i])
  {
    if i < |batch| - 1 {
      LastScoreIsLast(batch[..|batch| - 1], i);
    }
  }

  /** When the persistence of a pipeline run completes, the job's shortlist and its scores are exactly the
      candidates scored in this run, one row each; a candidate that stays keeps its sharing, decision, notes and
      interview; other jobs keep all their rows. */
  lemma {:induction false} PersistenceReplacesTheShortlist(t: Tables, job: JobId, batch: seq<ScoreOutput>, now: int)
    ensures var after := Persisted(t, job, batch, true, now, 4);
      && IdsOf(after.pipeline, job) == IdsOf(after.scores, job) == ToSet(Map(batch, ScoredId))
      && EntriesRetained(t.pipeline, after.pipeline, job, now)
      && ScoresRecorded(t.scores, after.scores, job, batch, now)
      && OthersUntouched(t, after, job)
      && (job in t.jobs && Active in t.codes ==> after.jobs == t.jobs[job := t.jobs[job].(status := Active)])
  {
    ShortlistReplaced(t.pipeline, job, Map(batch, ScoredId), now);
    ScoresReplaced(t.scores, job, batch, now);
  }

  lemma ShortlistReplaced(p: map<Key, Entry>, job: JobId, ids: seq<CandidateId>, now: int)
    ensures var q := Purged(Staged(p, job, ids, "SHORTLISTED", now), job, ids);
      IdsOf(q, job) == ToSet(ids) && EntriesRetained(p, q, job, now) && SameRowsOfOthers(p, q, job)
  {
    StagedRows(p, job, ids, "SHORTLISTED", now);
    PurgedRows(Staged(p, job, ids, "SHORTLISTED", now), job, ids);
  }

  lemma ScoresReplaced(s: map<Key, ScoreRow>, job: JobId, batch: seq<ScoreOutput>, now: int)
    ensures var q := Purged(Scored(s, job, batch, now), job, Map(batch, ScoredId));
      IdsOf(q, job) == ToSet(Map(batch, ScoredId)) && ScoresRecorded(s, q, job, batch, now) && SameRowsOfOthers(s, q, job)
  {
    ScoredRows(s, job, batch, now);
    PurgedRows(Scored(s, job, batch, now), job, Map(batch, ScoredId));
  }

  /** A rescore only adds: nobody leaves the shortlist. */
  lemma {:induction false} RescoreOnlyAdds(t: Tables, job: JobId, batch: seq<ScoreOutput>, now: int)
    ensures var after := Persisted(t, job, batch, false, now, 4);
      && IdsOf(after.pipeline, job) == IdsOf(t.pipeline, job) + ToSet(Map(batch, ScoredId))
      && IdsOf(after.scores, job) == IdsOf(t.scores, job) + ToSet(Map(batch, ScoredId))
      && OthersUntouched(t, after, job)
      && (forall k :: k in t.pipeline ==>
            k in after.pipeline && after.pipeline[k] in {t.pipeline[k], t.pipeline[k].(stage := "SHORTLISTED")})
      && (job in t.jobs && Active in t.codes ==> after.jobs[job] == t.jobs[job].(status := Active))
  {
    StagedRows(t.pipeline, job, Map(batch, ScoredId), "SHORTLISTED", now);
    ScoredRows(t.scores, job, batch, now);
  }

  ghost predicate EntriesRetained(before: map<Key, Entry>, after: map<Key, Entry>, job: JobId, now: int) {
    forall k :: k in after && k.0 == job ==>
      after[k] == if k in before then before[k].(stage := "SHORTLISTED") else NewEntry("SHORTLISTED", now)
  }

  ghost predicate ScoresRecorded(
    before: map<Key, ScoreRow>, after: map<Key, ScoreRow>, job: JobId, batch: seq<ScoreOutput>, now: int)
  {
    forall k :: k in after && k.0 == job ==>
      LastScore(batch, k.1) == Some(after[k].score)
      && after[k].createdAt == (if k in before then before[k].createdAt else now) && after[k].updatedAt == now
  }

  ghost predicate SameRowsOfOthers<V>(before: map<Key, V>, after: map<Key, V>, job: JobId) {
    forall k: Key :: k.0 != job ==> (k in after <==> k in before) && (k in before ==> after[k] == before[k])
  }

  lemma StagedRows(p: map<Key, Entry>, job: JobId, ids: seq<CandidateId>, stage: string, now: int)
    ensures var q := Staged(p, job, ids, stage, now);
      IdsOf(q, job) == IdsOf(p, job) + ToSet(ids) && SameRowsOfOthers(p, q, job)
  {
  }

  lemma ScoredRows(s: map<Key, ScoreRow>, job: JobId, batch: seq<ScoreOutput>, now: int)
    ensures var q := Scored(s, job, batch, now);
      IdsOf(q, job) == IdsOf(s, job) + ToSet(Map(batch, ScoredId)) && SameRowsOfOthers(s, q, job)
  {
  }

  lemma PurgedRows<V>(rows: map<Key, V>, job: JobId, keep: seq<CandidateId>)
    requires forall c :: c in keep ==> c in IdsOf(rows, job)
    ensures IdsOf(Purged(rows, job, keep), job) == ToSet(keep) && SameRowsOfOthers(rows, Purged(rows, job, keep), job)
  {
    forall c ensures c in IdsOf(Purged(rows, job, keep), job) <==> c in keep {
      assert c in keep ==> c in IdsOf(rows, job);
      assert (job, c) in Purged(rows, job, keep) <==> (job, c) in rows && c in keep;
    }
  }

  ghost predicate OthersUntouched(t: Tables, after: Tables, job: JobId) {
    && SameRowsOfOthers(t.pipeline, after.pipeline, job) && SameRowsOfOthers(t.scores, after.scores, job)
    && after.jobs.Keys == t.jobs.Keys && forall j :: j in t.jobs && j != job ==> after.jobs[j] == t.jobs[j]
  }

  /** A persistence that stops after one call has written the scores and nothing else. */
  lemma {:induction false} ScoresComeFirst(t: Tables, job: JobId, batch: seq<ScoreOutput>, pipelineRun: bool, now: int)
    ensures Persisted(t, job, batch, pipelineRun, now, 0) == t
    ensures var after := Persisted(t, job, batch, pipelineRun, now, 1);
      && after == t.(scores := after.scores)
      && IdsOf(after.scores, job) == IdsOf(t.scores, job) + ToSet(Map(batch, ScoredId))
  {
    ScoredRows(t.scores, job, batch, now);
  }

  /** Only the fourth call activates the job. */
  lemma {:induction false} JobWaitsForTheLastCall(
    t: Tables, job: JobId, batch: seq<ScoreOutput>, pipelineRun: bool, now: int, calls: nat)
    requires calls < 4
    ensures Persisted(t, job, batch, pipelineRun, now, calls).jobs == t.jobs
  {
  }

  /** After two calls the scored candidates are on the shortlist, with nobody off it. */
  lemma {:induction false} SecondCallAdds(t: Tables, job: JobId, batch: seq<ScoreOutput>, pipelineRun: bool, now: int)
    ensures var after, ids := Persisted(t, job, batch, pipelineRun, now, 2), ToSet(Map(batch, ScoredId));
      && IdsOf(after.pipeline, job) == IdsOf(t.pipeline, job) + ids
      && IdsOf(after.scores, job) == IdsOf(t.scores, job) + ids
  {
    StagedRows(t.pipeline, job, Map(batch, ScoredId), "SHORTLISTED", now);
    ScoredRows(t.scores, job, batch, now);
  }

  /** The third call of a pipeline run takes everybody else off. */
  lemma {:induction false} ThirdCallPurges(t: Tables, job: JobId, batch: seq<ScoreOutput>, now: int, calls: nat)
    requires calls >= 3
    ensures var after := Persisted(t, job, batch, true, now, calls);
      IdsOf(after.pipeline, job) == IdsOf(after.scores, job) == ToSet(Map(batch, ScoredId))
  {
    ShortlistReplaced(t.pipeline, job, Map(batch, ScoredId), now);
    ScoresReplaced(t.scores, job, batch, now);
  }

  /** A failed persistence loses nobody's decision either, but shortlist and scores may disagree: the scores are
      in, the shortlist is not. */
  lemma {:induction false} FailedPersistenceMaySplitTables(t: Tables, job: JobId, batch: seq<ScoreOutput>, now: int, c: CandidateId)
    requires c in Map(batch, ScoredId) && (job, c) !in t.pipeline
    ensures var after := Persisted(t, job, batch, true, now, 1);
      (job, c) in after.scores && (job, c) !in after.pipeline
  {
  }
}
