/** The campaign's service calls on the stored tables (server/src/core/services/scoring_service.py,
    job_description_service.py). Each performs the step of `Campaign` that bears its name, or raises and leaves
    everything as it was. */
module CampaignService {
  import opened Common
  import opened Pipeline
  import opened ScoringStore
  import opened ReviewState
  import opened Campaign
  import opened CampaignSafety
  import opened Dashboard

  class CampaignOperations {
    const repository: ScoringRepository
    var runs: map<RunId, ScoringRun>

    function View(): System
      reads this, repository
    {
      System(repository.View(), runs)
    }

    /** What every call keeps: shared entries have a decision and a date, and on a closed campaign it is taken. */
    ghost predicate Valid()
      reads this, repository
    {
      Sound(View().tables)
    }

    /** The shared shortlist of a job as its hiring manager sees it. */
    function Shortlist(job: JobId): Board
      reads this, repository
    {
      BoardOf(repository.pipeline, job)
    }

    constructor (repository: ScoringRepository)
      requires Sound(repository.View())
      ensures this.repository == repository && runs == map[] && Valid()
    {
      this.repository := repository;
      runs := map[];
    }

    // ---------------------------------------------------------------- recruiter

    method UpdateJobDescription(job: JobId, user: User, manager: Option<UserId>, fields: JobFields, activeTasks: nat,
                                employmentTypeKnown: bool)
      returns (ok: bool)
      requires Valid()
      modifies repository
      ensures ok <==> Allowed(old(View()), Edit(job, user, manager, fields, activeTasks, employmentTypeKnown))
      ensures ok <==> user.role == Recruiter && job in old(repository.jobs) && old(repository.jobs)[job].status != Closed && old(repository.jobs)[job].recruiter == user.id
                      && activeTasks == 0 && employmentTypeKnown
      ensures ok ==> repository.jobs == old(repository.jobs)[job := old(repository.jobs)[job].(manager := manager, fields := fields)]
      ensures View() == Next(old(View()), Edit(job, user, manager, fields, activeTasks, employmentTypeKnown))
      ensures Valid()
      ensures Shortlist(job) == EMPTY_BOARD || Shortlist(job) == old(Shortlist(job))
      ensures OtherBoardsKept(old(repository.pipeline), repository.pipeline, job)
    {
      ghost var before := View();
      if user.role != Recruiter || job !in repository.jobs || repository.jobs[job].recruiter != user.id {
        return false;
      }
      var stored := repository.jobs[job];
      if stored.status == Closed || activeTasks > 0 || !employmentTypeKnown {
        return false;
      }
      var scoringChanged := ScoringFieldsChanged(stored.fields, fields);
      repository.jobs := repository.jobs[job := stored.(manager := manager, fields := fields)];
      if scoringChanged {
        UnshareUnlessReviewed(job);
      }
      StepKeepsSound(before, Edit(job, user, manager, fields, activeTasks, employmentTypeKnown));
      EditedBoard(before.tables, Edit(job, user, manager, fields, activeTasks, employmentTypeKnown));
      return true;
    }

    method UnshareUnlessReviewed(job: JobId)
      modifies repository
      ensures repository.View() == old(repository.View()).(pipeline :=
                if old(Which(repository.pipeline, job, IsShared) != {} && Which(repository.pipeline, job, IsReviewed) == {})
                then Unshared(old(repository.pipeline), job) else old(repository.pipeline))
    {
      var shared := map k | k in repository.pipeline && k.0 == job && repository.pipeline[k].shared :: repository.pipeline[k];
      SharedOfJob(repository.pipeline, job, shared);
      if shared != map[] && !(exists k :: k in shared && ReviewStarted(shared[k])) {
        repository.pipeline := map k | k in repository.pipeline ::
          if k.0 == job then repository.pipeline[k].(shared := false, sharedAt := None) else repository.pipeline[k];
      }
    }

    method ShareShortlist(job: JobId, user: User, ids: seq<CandidateId>, notes: map<CandidateId, string>, now: int)
      returns (sharedCount: Option<nat>)
      requires Valid()
      modifies repository
      ensures sharedCount.Some? <==> Allowed(old(View()), Share(job, user, ids, notes, now))
      ensures sharedCount.Some? <==>
              && user.role == Recruiter && job in old(repository.jobs) && old(repository.jobs)[job].status != Closed
              && forall c :: c in ids ==> (job, c) in old(repository.pipeline)
      ensures sharedCount.Some? ==> sharedCount == Some(|ids|)
      ensures View() == Next(old(View()), Share(job, user, ids, notes, now))
      ensures Valid()
      ensures sharedCount.Some? ==> Shortlist(job) == Board(ToSet(ids), {}, {}, ToSet(ids))
      ensures OtherBoardsKept(old(repository.pipeline), repository.pipeline, job)
    {
      ghost var before := View();
      if user.role != Recruiter || job !in repository.jobs || repository.jobs[job].status == Closed {
        return None;
      }
      if exists c :: c in ids && (job, c) !in repository.pipeline {
        return None;
      }
      var count := ReplaceShared(job, ids, notes, now);
      StepKeepsSound(before, Share(job, user, ids, notes, now));
      SharedBoard(before.tables, Share(job, user, ids, notes, now));
      return Some(count);
    }

    /** Unsharing everybody, then sharing the given candidates one by one. */
    method ReplaceShared(job: JobId, ids: seq<CandidateId>, notes: map<CandidateId, string>, now: int)
      returns (count: nat)
      requires forall i :: 0 <= i < |ids| ==> (job, ids[i]) in repository.pipeline
      modifies repository
      ensures count == |ids|
      ensures repository.View() ==
              old(repository.View()).(pipeline := SharedTo(old(repository.pipeline), job, ids, notes, now))
    {
      ghost var before := repository.pipeline;
      repository.pipeline := map k | k in repository.pipeline ::
        if k.0 == job then repository.pipeline[k].(shared := false) else repository.pipeline[k];
      count := 0;
      for i := 0 to |ids|
        invariant count == i
        invariant repository.View() == old(repository.View()).(pipeline := repository.pipeline)
        invariant repository.pipeline == SharedTo(before, job, ids[..i], notes, now)
      {
        var k := (job, ids[i]);
        SharedToGrows(before, job, ids, i, notes, now);
        if k in repository.pipeline {
          var e := repository.pipeline[k].(shared := true, sharedAt := Some(now), decision := Some(Undecided),
                                           managerNotes := None);
          repository.pipeline :=
            repository.pipeline[k := if ids[i] in notes then e.(recruiterNotes := Some(notes[ids[i]])) else e];
          count := count + 1;
        }
      }
      assert ids[..|ids|] == ids;
    }

    method UpdatePipelineNotes(job: JobId, user: User, c: CandidateId, candidateKnown: bool, text: Option<string>, now: int)
      returns (ok: bool)
      requires Valid()
      modifies repository
      ensures ok <==> Allowed(old(View()), SetNotes(job, user, c, candidateKnown, text, now))
      ensures ok <==> job in old(repository.jobs) && old(repository.jobs)[job].status != Closed && old(repository.jobs)[job].recruiter == user.id && candidateKnown
      ensures ok ==> (job, c) in repository.pipeline && repository.pipeline[(job, c)].recruiterNotes == text
      ensures View() == Next(old(View()), SetNotes(job, user, c, candidateKnown, text, now))
      ensures Valid()
      ensures Shortlist(job) == old(Shortlist(job)) && OtherBoardsKept(old(repository.pipeline), repository.pipeline, job)
    {
      ghost var before := View();
      ok := Authorized(job, user) && candidateKnown;
      if ok {
        var k := (job, c);
        var e := if k in repository.pipeline then repository.pipeline[k] else NewEntry("PRE_SCORED", now);
        repository.pipeline := repository.pipeline[k := e.(recruiterNotes := text)];
      }
      StepKeepsSound(before, SetNotes(job, user, c, candidateKnown, text, now));
      UntouchedBoards(before.tables.pipeline, repository.pipeline, job);
    }

    method BulkUpdateStage(job: JobId, user: User, ids: seq<CandidateId>, stage: string, now: int) returns (ok: bool)
      requires Valid()
      modifies repository
      ensures ok <==> Allowed(old(View()), SetStages(job, user, ids, stage, now))
      ensures ok <==> job in old(repository.jobs) && old(repository.jobs)[job].status != Closed && old(repository.jobs)[job].recruiter == user.id
      ensures ok ==> forall c :: c in ids ==> (job, c) in repository.pipeline && repository.pipeline[(job, c)].stage == stage
      ensures View() == Next(old(View()), SetStages(job, user, ids, stage, now))
      ensures Valid()
      ensures Shortlist(job) == old(Shortlist(job)) && OtherBoardsKept(old(repository.pipeline), repository.pipeline, job)
    {
      ghost var before := View();
      ok := Authorized(job, user);
      if ok {
        repository.UpsertPipelineEntries(job, ids, stage, now);
      }
      StepKeepsSound(before, SetStages(job, user, ids, stage, now));
      UntouchedBoards(before.tables.pipeline, repository.pipeline, job);
    }

    /** The check most recruiter calls begin with. */
    predicate Authorized(job: JobId, user: User)
      reads this, repository
    {
      job in repository.jobs && repository.jobs[job].recruiter == user.id && repository.jobs[job].status != Closed
    }

    // ---------------------------------------------------------------- hiring manager

    method SubmitReview(job: JobId, user: User, c: CandidateId, decision: Decision, remarks: Option<string>)
      returns (ok: bool)
      requires Valid()
      modifies repository
      ensures ok <==> Allowed(old(View()), Review(job, user, c, decision, remarks))
      ensures ok <==> user.role == HiringManager && job in old(repository.jobs) && old(repository.jobs)[job].manager == Some(user.id)
                      && old(repository.jobs)[job].status != Closed
                      && (job, c) in old(repository.pipeline) && old(repository.pipeline)[(job, c)].shared
      ensures ok ==> var k := (job, c); repository.pipeline == old(repository.pipeline)[k :=
                       old(repository.pipeline)[k].(decision := Some(decision), managerNotes := remarks)]
      ensures View() == Next(old(View()), Review(job, user, c, decision, remarks))
      ensures Valid()
      ensures ok ==> Shortlist(job) == old(Shortlist(job)).Moved(c, decision)
      ensures OtherBoardsKept(old(repository.pipeline), repository.pipeline, job)
    {
      ghost var before := View();
      if user.role != HiringManager || job !in repository.jobs || repository.jobs[job].status == Closed {
        return false;
      }
      var k := (job, c);
      if repository.jobs[job].manager != Some(user.id) || k !in repository.pipeline || !repository.pipeline[k].shared {
        return false;
      }
      repository.pipeline := repository.pipeline[k :=
        repository.pipeline[k].(decision := Some(decision), managerNotes := remarks)];
      StepKeepsSound(before, Review(job, user, c, decision, remarks));
      DecidedBoard(before.tables, job, c, repository.pipeline[k], decision);
      return true;
    }

    /** `emailWorks` is false when the candidate's address is valid but the mail cannot be sent; a missing address
        only skips the mail. */
    method ScheduleInterview(
      job: JobId, user: User, c: CandidateId, candidateKnown: bool, emailWorks: bool, link: string, at: int,
      timezone: string, message: Option<string>, now: int)
      returns (ok: bool)
      requires Valid()
      modifies repository
      ensures ok <==> Allowed(old(View()), Schedule(job, user, c, candidateKnown, emailWorks, link, at, timezone, message, now))
      ensures ok <==> user.role == HiringManager && job in old(repository.jobs) && old(repository.jobs)[job].manager == Some(user.id)
                      && (job, c) in old(repository.pipeline) && old(repository.pipeline)[(job, c)].shared
                      && candidateKnown && emailWorks
      ensures ok ==> (job, c) in repository.pipeline && repository.pipeline[(job, c)].interview ==
                     Interview(Some(link), Some(now), Some(at), Some(timezone), message)
      ensures View() == Next(old(View()), Schedule(job, user, c, candidateKnown, emailWorks, link, at, timezone, message, now))
      ensures Valid()
      ensures ok ==> Shortlist(job) == old(Shortlist(job)).Moved(c, InterviewSent)
      ensures OtherBoardsKept(old(repository.pipeline), repository.pipeline, job)
    {
      ghost var before := View();
      if user.role != HiringManager || job !in repository.jobs || repository.jobs[job].manager != Some(user.id) {
        return false;
      }
      var k := (job, c);
      if k !in repository.pipeline || !repository.pipeline[k].shared || !candidateKnown || !emailWorks {
        return false;
      }
      repository.pipeline := repository.pipeline[k :=
        repository.pipeline[k].(
          decision := Some(InterviewSent),
          interview := Interview(Some(link), Some(now), Some(at), Some(timezone), message))];
      StepKeepsSound(before, Schedule(job, user, c, candidateKnown, emailWorks, link, at, timezone, message, now));
      DecidedBoard(before.tables, job, c, repository.pipeline[k], InterviewSent);
      return true;
    }

    method EndCampaign(job: JobId, user: User) returns (ok: bool)
      requires Valid()
      modifies repository
      ensures ok <==> Allowed(old(View()), End(job, user))
      ensures ok <==> user.role == HiringManager && job in old(repository.jobs) && old(repository.jobs)[job].manager == Some(user.id)
                      && old(repository.jobs)[job].status != Closed && Closed in old(repository.codes)
                      && forall c :: (job, c) in old(repository.pipeline) && old(repository.pipeline)[(job, c)].shared ==>
                           old(repository.pipeline)[(job, c)].decision in {Some(InterviewSent), Some(Rejected)}
      ensures View() == Next(old(View()), End(job, user))
      ensures Valid()
      ensures ok ==> IsClosed(View().tables, job) && Shortlist(job).pending == {}
      ensures ok ==> Shortlist(job).shared == Shortlist(job).accepted + Shortlist(job).rejected
      ensures repository.pipeline == old(repository.pipeline)
    {
      ghost var before := View();
      if user.role != HiringManager || job !in repository.jobs || repository.jobs[job].manager != Some(user.id) {
        return false;
      }
      if repository.jobs[job].status == Closed {
        return false;
      }
      var undecided := Which(repository.pipeline, job, IsUndecided);
      UndecidedIff(repository.pipeline, job);
      if undecided != {} || Closed !in repository.codes {
        return false;
      }
      repository.jobs := repository.jobs[job := repository.jobs[job].(status := Closed)];
      StepKeepsSound(before, End(job, user));
      EndedBoard(before.tables, job);
      return true;
    }

    method ReopenCampaign(job: JobId, user: User) returns (ok: bool)
      requires Valid()
      modifies repository
      ensures ok <==> Allowed(old(View()), Reopen(job, user))
      ensures ok <==> user.role == HiringManager && job in old(repository.jobs) && old(repository.jobs)[job].manager == Some(user.id)
                      && old(repository.jobs)[job].status == Closed && Active in old(repository.codes)
      ensures ok ==> repository.jobs == old(repository.jobs)[job := old(repository.jobs)[job].(status := Active)]
      ensures View() == Next(old(View()), Reopen(job, user))
      ensures Valid()
      ensures ok ==> IsOpen(View().tables, job)
      ensures repository.pipeline == old(repository.pipeline)
    {
      ghost var before := View();
      if user.role != HiringManager || job !in repository.jobs || repository.jobs[job].manager != Some(user.id) {
        return false;
      }
      if repository.jobs[job].status != Closed || Active !in repository.codes {
        return false;
      }
      repository.jobs := repository.jobs[job := repository.jobs[job].(status := Active)];
      StepKeepsSound(before, Reopen(job, user));
      return true;
    }

    // ---------------------------------------------------------------- scoring runs

    method BeginRun(run: RunId, job: JobId, user: User, pipelineRun: bool) returns (ok: bool)
      requires Valid()
      modifies this
      ensures ok <==> Allowed(old(View()), StartRun(run, job, user, pipelineRun))
      ensures ok <==> run !in old(runs) && job in old(repository.jobs) && old(repository.jobs)[job].status != Closed && old(repository.jobs)[job].recruiter == user.id
      ensures View() == Next(old(View()), StartRun(run, job, user, pipelineRun))
      ensures Valid()
      ensures ok ==> IsOpen(View().tables, job)
    {
      ghost var before := View();
      ok := run !in runs && Authorized(job, user);
      if ok {
        runs := runs[run := NewRun(job, user, pipelineRun)];
      }
      StepKeepsSound(before, StartRun(run, job, user, pipelineRun));
    }

    /** The run has acquired somebody, or selected somebody. */
    method MoveOn(run: RunId)
      requires run in runs && runs[run].phase in {Acquiring, Prescoring}
      requires Valid()
      modifies this
      ensures View() == Next(old(View()), AdvanceRun(run))
      ensures Valid()
    {
      runs := runs[run := runs[run].(phase := if runs[run].phase == Acquiring then Prescoring else Checking)];
    }

    /** The run has acquired or selected nobody. `calls` is how many of its writes the database goes along with. */
    method CompleteEmptyRun(run: RunId, calls: nat)
      requires run in runs && runs[run].phase in {Acquiring, Prescoring}
      requires Valid()
      modifies this, repository
      ensures View() == Next(old(View()), FinishEmpty(run, old(runs)[run].phase == Acquiring, calls))
      ensures Valid()
      ensures var r := old(runs)[run];
        && Shortlist(r.job) == (if r.phase == Acquiring || calls == 0 then old(Shortlist(r.job)) else EMPTY_BOARD)
        && OtherBoardsKept(old(repository.pipeline), repository.pipeline, r.job)
    {
      ghost var before := View();
      var r := runs[run];
      runs := runs - {run};
      if r.phase == Prescoring && calls >= 1 {
        repository.DeleteStale(r.job, []);
      }
      if calls >= (if r.phase == Acquiring then 1 else 2) {
        repository.TransitionToActiveIfNeeded(r.job);
      }
      StepKeepsSound(before, FinishEmpty(run, r.phase == Acquiring, calls));
      EmptiedBoard(before.tables, r.job, r.phase == Acquiring, calls);
    }

    /** Deep scoring is about to start: the status is checked once more, and not again. */
    method ProceedToScoring(run: RunId) returns (ok: bool)
      requires run in runs && runs[run].phase == Checking && runs[run].job in repository.jobs
      requires Valid()
      modifies this
      ensures ok <==> repository.jobs[old(runs)[run].job].status != Closed
      ensures ok <==> run in runs
      ensures View() == Next(old(View()), ClearRun(run))
      ensures Valid()
    {
      ghost var before := View();
      ok := repository.jobs[runs[run].job].status != Closed;
      if ok {
        runs := runs[run := runs[run].(phase := Scoring)];
      } else {
        runs := runs - {run};
      }
      StepKeepsSound(before, ClearRun(run));
    }

    method CompleteRun(run: RunId, batch: seq<ScoreOutput>, now: int, raises: nat) returns (ok: bool)
      requires run in runs && runs[run].phase == Scoring
      requires Valid()
      modifies this, repository
      ensures ok <==> raises >= 4 || (raises == 2 && !old(runs)[run].pipelineRun)
      ensures View() == Next(old(View()), PersistRun(run, batch, now, if ok then 4 else raises))
      ensures Valid()
      ensures ok ==> var job := old(runs)[run].job;
        && Shortlist(job) == (if old(runs)[run].pipelineRun then old(Shortlist(job)).Within(ToSet(Map(batch, ScoredId)))
                              else old(Shortlist(job)))
        && OtherBoardsKept(old(repository.pipeline), repository.pipeline, job)
    {
      ghost var before := View();
      var r := runs[run];
      runs := runs - {run};
      ok := repository.Persist(r.job, batch, r.pipelineRun, now, raises);
      StepKeepsSound(before, PersistRun(run, batch, now, if ok then 4 else raises));
      RunBoard(before.tables, r.job, batch, r.pipelineRun, now);
    }
  }

  lemma {:induction false} UndecidedIff(p: map<Key, Entry>, job: JobId)
    ensures Which(p, job, IsUndecided) == {} <==>
            forall c :: (job, c) in p && p[(job, c)].shared ==>
              p[(job, c)].decision in {Some(InterviewSent), Some(Rejected)}
  {
    if Which(p, job, IsUndecided) == {} {
      forall c | (job, c) in p && p[(job, c)].shared
        ensures p[(job, c)].decision in {Some(InterviewSent), Some(Rejected)}
      {
        assert c !in Which(p, job, IsUndecided);
      }
    } else {
      var c := SomeMember(Which(p, job, IsUndecided));
      assert (job, c) in p && p[(job, c)].shared;
    }
  }

  lemma SharedOfJob(p: map<Key, Entry>, job: JobId, shared: map<Key, Entry>)
    requires shared == map k | k in p && k.0 == job && p[k].shared :: p[k]
    ensures shared == map[] <==> Which(p, job, IsShared) == {}
    ensures (exists k :: k in shared && ReviewStarted(shared[k])) <==> Which(p, job, IsReviewed) != {}
  {
    if shared != map[] {
      var k :| k in shared;
      assert k.1 in Which(p, job, IsShared);
    }
    if Which(p, job, IsShared) != {} {
      var c := SomeMember(Which(p, job, IsShared));
      assert (job, c) in shared;
    }
    if k :| k in shared && ReviewStarted(shared[k]) {
      assert k.1 in Which(p, job, IsReviewed);
    }
    if Which(p, job, IsReviewed) != {} {
      var c := SomeMember(Which(p, job, IsReviewed));
      assert (job, c) in shared && ReviewStarted(shared[(job, c)]);
    }
  }

  lemma SharedToGrows(
    p: map<Key, Entry>, job: JobId, ids: seq<CandidateId>, i: nat, notes: map<CandidateId, string>, now: int)
    requires i < |ids| && (job, ids[i]) in p
    ensures var q := SharedTo(p, job, ids[..i], notes, now);
      var k := (job, ids[i]);
      k in q &&
      SharedTo(p, job, ids[..i + 1], notes, now) == q[k := ShareEntry(q[k], true, NoteFor(notes, ids[i]), now)]
  {
    assert ids[..i + 1] == ids[..i] + [ids[i]];
  }
}
