/** What holds of every campaign in every reachable state, for any order of calls and any interleaving of scoring
    runs with them. */
module CampaignSafety {
  import opened Common
  import opened Pipeline
  import opened ScoringStore
  import opened ReviewState
  import opened Campaign

  // ================================================================ the shortlist invariant

  predicate EntrySound(e: Entry) {
    e.shared ==> e.decision.Some? && e.sharedAt.Some?
  }

  /** A shared entry has a decision and a sharing date, and on a closed campaign the decision has been taken. */
  ghost predicate Sound(t: Tables) {
    forall k :: k in t.pipeline ==> RowSound(t, k)
  }

  predicate RowSound(t: Tables, k: Key)
    requires k in t.pipeline
  {
    EntrySound(t.pipeline[k]) && (t.pipeline[k].shared && IsClosed(t, k.0) ==> Decided(t.pipeline[k]))
  }

  lemma PersistenceKeepsSound(t: Tables, job: JobId, batch: seq<ScoreOutput>, pipelineRun: bool, now: int, calls: nat)
    requires Sound(t)
    ensures Sound(Persisted(t, job, batch, pipelineRun, now, calls))
  {
    var after := Persisted(t, job, batch, pipelineRun, now, calls);
    forall k | k in after.pipeline ensures RowSound(after, k) {
      assert k in t.pipeline ==> RowSound(t, k);
      assert IsClosed(after, k.0) ==> IsClosed(t, k.0);
      assert after.pipeline[k] == NewEntry("SHORTLISTED", now)
             || (k in t.pipeline && after.pipeline[k] in {t.pipeline[k], t.pipeline[k].(stage := "SHORTLISTED")});
    }
  }

  lemma EmptyingKeepsSound(t: Tables, job: JobId, nothingAcquired: bool, calls: nat)
    requires Sound(t)
    ensures Sound(Emptied(t, job, nothingAcquired, calls))
  {
    var after := Emptied(t, job, nothingAcquired, calls);
    forall k | k in after.pipeline ensures RowSound(after, k) {
      assert RowSound(t, k);
    }
  }

  lemma WritingKeepsSound(t: Tables, step: Step)
    requires Sound(t) && Allowed(System(t, map[]), step)
    ensures Sound(Written(t, step))
  {
    var after := Written(t, step);
    forall k | k in after.pipeline ensures RowSound(after, k) {
      assert k in t.pipeline ==> RowSound(t, k);
      if step.End? && k.0 == step.job && after.pipeline[k].shared {
        assert k.1 !in Which(t.pipeline, step.job, IsUndecided);
      }
    }
  }

  lemma StepKeepsSound(s: System, step: Step)
    requires Sound(s.tables)
    ensures Sound(Next(s, step).tables)
  {
    if Allowed(s, step) {
      match step
      case PersistRun(run, batch, now, calls) =>
        PersistenceKeepsSound(s.tables, s.runs[run].job, batch, s.runs[run].pipelineRun, now, calls);
      case FinishEmpty(run, nothingAcquired, calls) =>
        EmptyingKeepsSound(s.tables, s.runs[run].job, nothingAcquired, calls);
      case StartRun(_, _, _, _) =>
      case AdvanceRun(_) =>
      case ClearRun(_) =>
      case AbandonRun(_) =>
      case _ => WritingKeepsSound(s.tables, step);
    }
  }

  /** Every reachable state is sound. */
  lemma {:induction false} ReachableIsSound(s: System, steps: seq<Step>)
    requires Sound(s.tables)
    ensures Sound(After(s, steps).tables)
  {
    if steps != [] {
      ReachableIsSound(s, steps[..|steps| - 1]);
      StepKeepsSound(After(s, steps[..|steps| - 1]), steps[|steps| - 1]);
    }
  }

  /** Hence the counts on a hiring manager's dashboard add up. */
  lemma CountsAddUp(t: Tables, job: JobId)
    requires Sound(t)
    ensures |Which(t.pipeline, job, IsShared)| ==
            |Which(t.pipeline, job, IsAccepted)| + |Which(t.pipeline, job, IsRejected)|
            + |Which(t.pipeline, job, IsPending)|
    ensures Which(t.pipeline, job, IsPending) == Which(t.pipeline, job, IsUndecided)
  {
    SharedSplits(t, job);
    DisjointSizes(Which(t.pipeline, job, IsShared), Which(t.pipeline, job, IsAccepted),
                  Which(t.pipeline, job, IsRejected), Which(t.pipeline, job, IsPending));
  }

  lemma DisjointSizes<T>(whole: set<T>, a: set<T>, b: set<T>, c: set<T>)
    requires whole == a + b + c && a !! b && a !! c && b !! c
    ensures |whole| == |a| + |b| + |c|
  {
    assert |a + b| == |a| + |b|;
  }

  lemma SharedSplits(t: Tables, job: JobId)
    requires Sound(t)
    ensures var accepted, rejected := Which(t.pipeline, job, IsAccepted), Which(t.pipeline, job, IsRejected);
      var pending := Which(t.pipeline, job, IsPending);
      && Which(t.pipeline, job, IsShared) == accepted + rejected + pending
      && accepted !! rejected && accepted !! pending && rejected !! pending
      && pending == Which(t.pipeline, job, IsUndecided)
  {
    var accepted, rejected := Which(t.pipeline, job, IsAccepted), Which(t.pipeline, job, IsRejected);
    var pending := Which(t.pipeline, job, IsPending);
    forall c ensures c in Which(t.pipeline, job, IsShared) <==> c in accepted + rejected + pending {
      CountedOnceHolds(t, job, c);
    }
    forall c ensures c in pending <==> c in Which(t.pipeline, job, IsUndecided) {
      CountedOnceHolds(t, job, c);
    }
    assert Which(t.pipeline, job, IsShared) == accepted + rejected + pending;
  }

  predicate CountedOnce(t: Tables, job: JobId, c: CandidateId) {
    var k := (job, c);
    k in t.pipeline ==>
      var e := t.pipeline[k];
      && (IsShared(e) <==> IsAccepted(e) || IsRejected(e) || IsPending(e))
      && (IsPending(e) <==> IsUndecided(e))
  }

  lemma CountedOnceHolds(t: Tables, job: JobId, c: CandidateId)
    requires Sound(t)
    ensures CountedOnce(t, job, c)
  {
    if (job, c) in t.pipeline {
      assert RowSound(t, (job, c));
      var d := t.pipeline[(job, c)].decision;
      assert d.Some? ==> d.value.Undecided? || d.value.InterviewSent? || d.value.Rejected?;
    }
  }

  /** ... and the owning manager can end an open campaign exactly when its pending count is zero. */
  lemma OwnerMayEndIff(s: System, job: JobId, user: User)
    requires Sound(s.tables) && IsOpen(s.tables, job) && Closed in s.tables.codes
    requires user.role == HiringManager && s.tables.jobs[job].manager == Some(user.id)
    ensures Allowed(s, End(job, user)) <==> |Which(s.tables.pipeline, job, IsPending)| == 0
  {
    CountsAddUp(s.tables, job);
  }

  // ================================================================ the status

  /** Who takes a campaign out of CLOSED: its manager reopening it, or the late end of a scoring run, whatever the
      campaign's status is by then. */
  ghost predicate Unlocks(s: System, step: Step, job: JobId) {
    && Allowed(s, step) && Active in s.tables.codes
    && match step
       case Reopen(j, _) => j == job
       case PersistRun(run, _, _, calls) => s.runs[run].job == job && calls >= 4
       case FinishEmpty(run, nothingAcquired, calls) =>
         s.runs[run].job == job && calls >= (if nothingAcquired then 1 else 2)
       case _ => false
  }

  lemma {:induction false} ClosedIsLeftIff(s: System, step: Step, job: JobId)
    requires IsClosed(s.tables, job)
    ensures !IsClosed(Next(s, step).tables, job) <==> Unlocks(s, step, job)
    ensures Unlocks(s, step, job) ==> Next(s, step).tables.jobs[job].status == Active
  {
  }

  /** DRAFT is a starting point only. */
  lemma DraftIsNotReentered(s: System, step: Step, job: JobId)
    requires job in s.tables.jobs && s.tables.jobs[job].status != Draft
    ensures job in Next(s, step).tables.jobs && Next(s, step).tables.jobs[job].status != Draft
  {
  }

  lemma {:induction false} DraftIsNeverReentered(s: System, steps: seq<Step>, job: JobId)
    requires job in s.tables.jobs && s.tables.jobs[job].status != Draft
    ensures job in After(s, steps).tables.jobs && After(s, steps).tables.jobs[job].status != Draft
  {
    if steps != [] {
      DraftIsNeverReentered(s, steps[..|steps| - 1], job);
      DraftIsNotReentered(After(s, steps[..|steps| - 1]), steps[|steps| - 1], job);
    }
  }

  /** A run that cannot open a closed campaign any more: the second check is still ahead, and nothing is written
      before it. */
  predicate Harmless(run: ScoringRun) {
    run.phase == Checking
  }

  ghost predicate OnlyHarmlessRuns(s: System, job: JobId) {
    forall run :: run in s.runs && s.runs[run].job == job ==> Harmless(s.runs[run])
  }

  predicate Reopens(step: Step, job: JobId) {
    step.Reopen? && step.job == job
  }

  lemma {:induction false} QuietStepStaysClosed(s: System, step: Step, job: JobId)
    requires IsClosed(s.tables, job) && !Reopens(step, job)
    requires Active !in s.tables.codes || OnlyHarmlessRuns(s, job)
    ensures var after := Next(s, step);
      && IsClosed(after.tables, job) && after.tables.codes == s.tables.codes
      && (Active !in after.tables.codes || OnlyHarmlessRuns(after, job))
  {
    ClosedIsLeftIff(s, step, job);
  }

  lemma {:induction false} QuietStepsStayClosed(s: System, steps: seq<Step>, job: JobId)
    requires IsClosed(s.tables, job) && forall i :: 0 <= i < |steps| ==> !Reopens(steps[i], job)
    requires Active !in s.tables.codes || OnlyHarmlessRuns(s, job)
    ensures var after := After(s, steps);
      && IsClosed(after.tables, job) && after.tables.codes == s.tables.codes
      && (Active !in after.tables.codes || OnlyHarmlessRuns(after, job))
  {
    if steps != [] {
      QuietStepsStayClosed(s, steps[..|steps| - 1], job);
      QuietStepStaysClosed(After(s, steps[..|steps| - 1]), steps[|steps| - 1], job);
    }
  }

  /** Whatever happens, the campaign stays closed until its manager reopens it. */
  ghost predicate StaysClosed(s: System, job: JobId) {
    forall steps :: (forall i :: 0 <= i < |steps| ==> !Reopens(steps[i], job)) ==> IsClosed(After(s, steps).tables, job)
  }

  /** A closed campaign stays closed exactly if every run on it that is still in flight has somebody to score and has
      yet to pass the second check. (Or if the master data know no ACTIVE status to go to.) */
  lemma {:induction false} StaysClosedIff(s: System, job: JobId)
    requires IsClosed(s.tables, job)
    ensures StaysClosed(s, job) <==> Active !in s.tables.codes || OnlyHarmlessRuns(s, job)
  {
    if Active !in s.tables.codes || OnlyHarmlessRuns(s, job) {
      forall steps | forall i :: 0 <= i < |steps| ==> !Reopens(steps[i], job)
        ensures IsClosed(After(s, steps).tables, job)
      {
        QuietStepsStayClosed(s, steps, job);
      }
    } else {
      var run :| run in s.runs && s.runs[run].job == job && !Harmless(s.runs[run]);
      var last := LastWrite(s, run);
      RunEndReopens(s, run, job);
      assert After(s, [last]) == Next(s, last) by {
        assert [last][..0] == [];
      }
      assert forall i :: 0 <= i < |[last]| ==> !Reopens([last][i], job);
    }
  }

  /** How such a run may end: with nobody acquired, with nobody selected, or with its scores. */
  function LastWrite(s: System, run: RunId): Step
    requires run in s.runs
  {
    match s.runs[run].phase
    case Acquiring => FinishEmpty(run, true, 1)
    case Prescoring => FinishEmpty(run, false, 2)
    case _ => PersistRun(run, [], 0, 4)
  }

  lemma {:induction false} RunEndReopens(s: System, run: RunId, job: JobId)
    requires IsClosed(s.tables, job) && Active in s.tables.codes
    requires run in s.runs && s.runs[run].job == job && !Harmless(s.runs[run])
    ensures IsOpen(Next(s, LastWrite(s, run)).tables, job)
  {
    ClosedIsLeftIff(s, LastWrite(s, run), job);
  }

  /** Closed, and about to be opened again by a run that is past its last check. */
  ghost predicate ClosedUntilRunEnds(s: System, run: RunId, job: JobId) {
    && IsClosed(s.tables, job)
    && forall batch, now :: IsOpen(Next(s, PersistRun(run, batch, now, 4)).tables, job)
  }

  lemma {:induction false} AfterOneMore(s: System, steps: seq<Step>, step: Step)
    ensures After(s, steps + [step]) == Next(After(s, steps), step)
  {
    assert (steps + [step])[..|steps|] == steps;
  }

  /** The steps that bring a pipeline run to its second check. */
  function Selecting(run: RunId, job: JobId, owner: User): seq<Step> {
    [StartRun(run, job, owner, true)] + [AdvanceRun(run)] + [AdvanceRun(run)]
  }

  lemma {:induction false} SelectingRuns(s: System, run: RunId, job: JobId, owner: User)
    requires IsOpen(s.tables, job) && run !in s.runs && s.tables.jobs[job].recruiter == owner.id
    ensures var start, advance := StartRun(run, job, owner, true), AdvanceRun(run);
      && After(s, [start]) == s.(runs := s.runs[run := RunState(job, owner, true, Acquiring)])
      && After(s, [start] + [advance]) == s.(runs := s.runs[run := RunState(job, owner, true, Prescoring)])
      && After(s, Selecting(run, job, owner)) == s.(runs := s.runs[run := RunState(job, owner, true, Checking)])
  {
    var start, advance := StartRun(run, job, owner, true), AdvanceRun(run);
    assert [start][..0] == [];
    AfterOneMore(s, [start], advance);
    AfterOneMore(s, [start] + [advance], advance);
  }

  /** Started and cleared while the campaign was open, a run turns the campaign its manager has ended meanwhile back to
      ACTIVE. */
  lemma {:induction false} LateRunReopensCampaign(s: System, job: JobId, owner: User, manager: User, run: RunId)
    requires {Active, Closed} <= s.tables.codes && IsOpen(s.tables, job) && run !in s.runs
    requires s.tables.jobs[job].recruiter == owner.id && s.tables.jobs[job].manager == Some(manager.id)
    requires manager.role == HiringManager && Which(s.tables.pipeline, job, IsUndecided) == {}
    ensures ClosedUntilRunEnds(After(s, Selecting(run, job, owner) + [ClearRun(run)] + [End(job, manager)]), run, job)
  {
    var selecting, clear := Selecting(run, job, owner), ClearRun(run);
    SelectingRuns(s, run, job, owner);
    AfterOneMore(s, selecting, clear);
    AfterOneMore(s, selecting + [clear], End(job, manager));
    EndedWhileScoring(After(s, selecting + [clear]), job, manager, run);
  }

  /** A run that finds nobody, or of those it found selects nobody, reopens the campaign as well, and need not have
      passed any second check. */
  lemma {:induction false} EmptyRunReopensCampaign(
    s: System, job: JobId, owner: User, manager: User, run: RunId, acquired: bool)
    requires {Active, Closed} <= s.tables.codes && IsOpen(s.tables, job) && run !in s.runs
    requires s.tables.jobs[job].recruiter == owner.id && s.tables.jobs[job].manager == Some(manager.id)
    requires manager.role == HiringManager && Which(s.tables.pipeline, job, IsUndecided) == {}
    ensures var started := [StartRun(run, job, owner, true)] + if acquired then [AdvanceRun(run)] else [];
      var ended := After(s, started + [End(job, manager)]);
      IsClosed(ended.tables, job) && IsOpen(Next(ended, FinishEmpty(run, !acquired, 2)).tables, job)
  {
    var started := [StartRun(run, job, owner, true)] + if acquired then [AdvanceRun(run)] else [];
    SelectingRuns(s, run, job, owner);
    assert acquired || started == [StartRun(run, job, owner, true)];
    AfterOneMore(s, started, End(job, manager));
    var ended := After(s, started + [End(job, manager)]);
    ClosedIsLeftIff(ended, FinishEmpty(run, !acquired, 2), job);
  }

  /** Ended once it has selected somebody, the campaign stays closed whatever the run does. */
  lemma {:induction false} SelectedRunLeavesClosed(s: System, job: JobId, owner: User, manager: User, run: RunId)
    requires Closed in s.tables.codes && IsOpen(s.tables, job) && s.runs == map[]
    requires s.tables.jobs[job].recruiter == owner.id && s.tables.jobs[job].manager == Some(manager.id)
    requires manager.role == HiringManager && Which(s.tables.pipeline, job, IsUndecided) == {}
    ensures StaysClosed(After(s, Selecting(run, job, owner) + [End(job, manager)]), job)
  {
    SelectingRuns(s, run, job, owner);
    AfterOneMore(s, Selecting(run, job, owner), End(job, manager));
    StaysClosedIff(After(s, Selecting(run, job, owner) + [End(job, manager)]), job);
  }

  lemma {:induction false} EndedWhileScoring(s: System, job: JobId, manager: User, run: RunId)
    requires Allowed(s, End(job, manager)) && Active in s.tables.codes
    requires run in s.runs && s.runs[run].phase == Scoring && s.runs[run].job == job
    ensures ClosedUntilRunEnds(Next(s, End(job, manager)), run, job)
  {
    var ended := Next(s, End(job, manager));
    forall batch, now ensures IsOpen(Next(ended, PersistRun(run, batch, now, 4)).tables, job) {
      ClosedIsLeftIff(ended, PersistRun(run, batch, now, 4), job);
    }
  }

  // ================================================================ who does what

  /** The user is the hiring manager, or the recruiter, of the job. */
  predicate Manages(t: Tables, user: User, job: JobId) {
    user.role == HiringManager && job in t.jobs && t.jobs[job].manager == Some(user.id)
  }

  predicate Owns(t: Tables, user: User, job: JobId) {
    job in t.jobs && t.jobs[job].recruiter == user.id
  }

  /** The status of a campaign changes by the ending or the reopening of its own manager, or to ACTIVE by the last write
      of a scoring run. */
  lemma {:induction false} WhoChangesStatus(s: System, step: Step, job: JobId)
    requires job in s.tables.jobs && job in Next(s, step).tables.jobs
    requires Next(s, step).tables.jobs[job].status != s.tables.jobs[job].status
    ensures var before, after := s.tables.jobs[job].status, Next(s, step).tables.jobs[job].status;
      match step
      case End(j, user) =>
        && j == job && user.role == HiringManager && s.tables.jobs[job].manager == Some(user.id)
        && before != Closed && after == Closed
      case Reopen(j, user) =>
        && j == job && user.role == HiringManager && s.tables.jobs[job].manager == Some(user.id)
        && before == Closed && after == Active
      case PersistRun(run, _, _, _) => run in s.runs && s.runs[run].job == job && after == Active
      case FinishEmpty(run, _, _) => run in s.runs && s.runs[run].job == job && after == Active
      case _ => false
  {
  }

  /** A campaign becomes CLOSED only by an ending of its own manager. */
  lemma {:induction false} OnlyItsManagerCloses(s: System, step: Step, job: JobId)
    requires !IsClosed(s.tables, job) && IsClosed(Next(s, step).tables, job)
    ensures step.End? && step.job == job && step.user.role == HiringManager
    ensures job in s.tables.jobs && s.tables.jobs[job].manager == Some(step.user.id)
  {
  }

  /** A job appears as a draft of the recruiter who creates it, and stays. */
  lemma {:induction false} WhoAddsJobs(s: System, step: Step, job: JobId)
    ensures job in s.tables.jobs ==> job in Next(s, step).tables.jobs
    ensures job !in s.tables.jobs && job in Next(s, step).tables.jobs ==>
              step.Create? && step.job == job && step.user.role == Recruiter && step.employmentTypeKnown
              && Draft in s.tables.codes && Next(s, step).tables.jobs[job] == Job(step.user.id, step.manager, Draft, step.fields)
  {
  }

  /** What a job asks for and who manages it changes only by an edit of its recruiter, on an open campaign and during no
      scoring task; the recruiter never changes. */
  lemma {:induction false} WhoEditsJobs(s: System, step: Step, job: JobId)
    requires job in s.tables.jobs && job in Next(s, step).tables.jobs
    ensures var before, after := s.tables.jobs[job], Next(s, step).tables.jobs[job];
      && after.recruiter == before.recruiter
      && (after.fields != before.fields || after.manager != before.manager ==>
            && step.Edit? && step.job == job && step.user.role == Recruiter && before.recruiter == step.user.id
            && before.status != Closed && step.activeTasks == 0 && step.employmentTypeKnown
            && after.fields == step.fields && after.manager == step.manager && after.status == before.status)
  {
  }

  /** A recruiter's notes change only when the job's recruiter sets them, to that text, or shares the entry with a
      note. */
  lemma {:induction false} WhoChangesNotes(s: System, step: Step, k: Key)
    requires k in s.tables.pipeline && k in Next(s, step).tables.pipeline
    requires Next(s, step).tables.pipeline[k].recruiterNotes != s.tables.pipeline[k].recruiterNotes
    ensures var after := Next(s, step).tables.pipeline[k].recruiterNotes;
      match step
      case SetNotes(job, user, c, _, text, _) =>
        k == (job, c) && IsOpen(s.tables, job) && Owns(s.tables, user, job) && after == text
      case Share(job, user, ids, notes, _) =>
        k.0 == job && k.1 in ids && k.1 in notes && user.role == Recruiter && IsOpen(s.tables, job)
        && after == Some(notes[k.1])
      case _ => false
  {
  }

  /** The stage changes only when the job's recruiter sets it, to that, or a run on the job has scored the candidate. */
  lemma {:induction false} WhoChangesStage(s: System, step: Step, k: Key)
    requires k in s.tables.pipeline && k in Next(s, step).tables.pipeline
    requires Next(s, step).tables.pipeline[k].stage != s.tables.pipeline[k].stage
    ensures var after := Next(s, step).tables.pipeline[k].stage;
      match step
      case SetStages(job, user, ids, stage, _) =>
        k.0 == job && k.1 in ids && IsOpen(s.tables, job) && Owns(s.tables, user, job) && after == stage
      case PersistRun(run, batch, _, _) =>
        run in s.runs && s.runs[run].job == k.0 && k.1 in Map(batch, ScoredId) && after == "SHORTLISTED"
      case _ => false
  {
    if step.PersistRun? && Allowed(s, step) {
      RunsStage(s.tables, s.runs[step.run].job, step.batch, s.runs[step.run].pipelineRun, step.now, step.calls, k);
    }
  }

  lemma {:induction false} RunsStage(
    t: Tables, job: JobId, batch: seq<ScoreOutput>, pipelineRun: bool, now: int, calls: nat, k: Key)
    requires k in t.pipeline && k in Persisted(t, job, batch, pipelineRun, now, calls).pipeline
    ensures var after := Persisted(t, job, batch, pipelineRun, now, calls).pipeline[k].stage;
      after != t.pipeline[k].stage ==> k.0 == job && k.1 in Map(batch, ScoredId) && after == "SHORTLISTED"
  {
  }

  /** When an entry was made never changes. */
  lemma {:induction false} EntriesKeepTheirDate(s: System, step: Step, k: Key)
    requires k in s.tables.pipeline && k in Next(s, step).tables.pipeline
    ensures Next(s, step).tables.pipeline[k].createdAt == s.tables.pipeline[k].createdAt
  {
  }

  /** A manager's remarks come from the manager's own review; sharing anew clears them. */
  lemma {:induction false} WhoRemarks(s: System, step: Step, k: Key)
    requires k in s.tables.pipeline && k in Next(s, step).tables.pipeline
    requires Next(s, step).tables.pipeline[k].managerNotes != s.tables.pipeline[k].managerNotes
    ensures var after := Next(s, step).tables.pipeline[k];
      match step
      case Review(job, user, c, decision, remarks) =>
        && k == (job, c) && Manages(s.tables, user, job) && IsOpen(s.tables, job) && s.tables.pipeline[k].shared
        && after.managerNotes == remarks && after.decision == Some(decision)
      case Share(job, user, ids, _, _) => k.0 == job && k.1 in ids && after.managerNotes.None?
      case _ => false
  {
  }

  /** An interview is arranged by the manager of a shared entry, and shows the link, when it was sent, when it takes
      place, the time zone and the message as given. */
  lemma {:induction false} WhoInterviews(s: System, step: Step, k: Key)
    requires k in s.tables.pipeline && k in Next(s, step).tables.pipeline
    requires Next(s, step).tables.pipeline[k].interview != s.tables.pipeline[k].interview
    ensures step.Schedule? && k == (step.job, step.candidate) && Manages(s.tables, step.user, step.job)
    ensures s.tables.pipeline[k].shared && step.candidateKnown && step.emailWorks
    ensures var after := Next(s, step).tables.pipeline[k];
      && after.interview.link == Some(step.link) && after.interview.sentAt == Some(step.now)
      && after.interview.at == Some(step.at) && after.interview.timezone == Some(step.timezone)
      && after.interview.message == step.message && after.decision == Some(InterviewSent)
  {
  }

  /** Whether and when an entry was shared changes only by sharing the job's list, by a recruiter on an open campaign, or
      by an edit that empties it. */
  lemma {:induction false} WhoShares(s: System, step: Step, k: Key)
    requires k in s.tables.pipeline && k in Next(s, step).tables.pipeline
    ensures var before, after := s.tables.pipeline[k], Next(s, step).tables.pipeline[k];
      (after.shared, after.sharedAt) != (before.shared, before.sharedAt) ==>
        match step
        case Share(job, user, ids, _, now) =>
          && k.0 == job && user.role == Recruiter && IsOpen(s.tables, job) && (after.shared <==> k.1 in ids)
          && (after.shared ==> after.sharedAt == Some(now))
        case Edit(job, user, _, _, _, _) => k.0 == job && Owns(s.tables, user, job) && !after.shared && after.sharedAt.None?
        case _ => false
  {
    if step.PersistRun? && Allowed(s, step) {
      RunsKeepEntries(s.tables, s.runs[step.run].job, step.batch, s.runs[step.run].pipelineRun, step.now, step.calls, k);
    }
  }

  lemma {:induction false} RunsKeepEntries(
    t: Tables, job: JobId, batch: seq<ScoreOutput>, pipelineRun: bool, now: int, calls: nat, k: Key)
    requires k in t.pipeline && k in Persisted(t, job, batch, pipelineRun, now, calls).pipeline
    ensures Persisted(t, job, batch, pipelineRun, now, calls).pipeline[k] in
            {t.pipeline[k], t.pipeline[k].(stage := "SHORTLISTED")}
  {
  }

  /** An entry appears when the job's recruiter notes or stages the candidate, or a run on the job has scored it. */
  lemma {:induction false} WhoAddsEntries(s: System, step: Step, k: Key)
    requires k !in s.tables.pipeline && k in Next(s, step).tables.pipeline
    ensures var e := Next(s, step).tables.pipeline[k];
      match step
      case SetNotes(job, user, c, known, text, now) =>
        && k == (job, c) && IsOpen(s.tables, job) && Owns(s.tables, user, job) && known
        && e.stage == "PRE_SCORED" && e.recruiterNotes == text && e.createdAt == now
      case SetStages(job, user, ids, stage, now) =>
        && k.0 == job && k.1 in ids && IsOpen(s.tables, job) && Owns(s.tables, user, job)
        && e.stage == stage && e.recruiterNotes.None? && e.createdAt == now
      case PersistRun(run, batch, now, _) =>
        && run in s.runs && s.runs[run].job == k.0 && k.1 in Map(batch, ScoredId)
        && e.stage == "SHORTLISTED" && e.recruiterNotes.None? && e.createdAt == now
      case _ => false
  {
    if step.PersistRun? && Allowed(s, step) {
      RunsAddBlank(s.tables, s.runs[step.run].job, step.batch, s.runs[step.run].pipelineRun, step.now, step.calls, k);
    }
  }

  /** It is then not shared, undecided, and without remarks or interview. */
  lemma {:induction false} NewEntriesAreBlank(s: System, step: Step, k: Key)
    requires k !in s.tables.pipeline && k in Next(s, step).tables.pipeline
    ensures var e := Next(s, step).tables.pipeline[k];
      && !e.shared && e.sharedAt.None? && e.decision == Some(Undecided) && e.managerNotes.None?
      && e.interview == Interview(None, None, None, None, None)
  {
    if step.PersistRun? && Allowed(s, step) {
      RunsAddBlank(s.tables, s.runs[step.run].job, step.batch, s.runs[step.run].pipelineRun, step.now, step.calls, k);
    }
  }

  lemma {:induction false} RunsAddBlank(
    t: Tables, job: JobId, batch: seq<ScoreOutput>, pipelineRun: bool, now: int, calls: nat, k: Key)
    requires k !in t.pipeline && k in Persisted(t, job, batch, pipelineRun, now, calls).pipeline
    ensures k.0 == job && k.1 in Map(batch, ScoredId)
    ensures Persisted(t, job, batch, pipelineRun, now, calls).pipeline[k] ==
            Entry("SHORTLISTED", None, None, false, None, Some(Undecided), Interview(None, None, None, None, None), now)
  {
  }

  /** A run is started by the job's recruiter on an open campaign, and goes its way phase by phase; only with the campaign
      still open does it go on to score. */
  lemma {:induction false} WhoRuns(s: System, step: Step, run: RunId)
    ensures run !in s.runs && run in Next(s, step).runs ==>
              && step.StartRun? && step.run == run && Owns(s.tables, step.user, step.job) && IsOpen(s.tables, step.job)
              && Next(s, step).runs[run].job == step.job && Next(s, step).runs[run].pipelineRun == step.pipelineRun
              && Next(s, step).runs[run].phase == (if step.pipelineRun then Acquiring else Checking)
    ensures run in s.runs && run in Next(s, step).runs && Next(s, step).runs[run] != s.runs[run] ==>
              var before, after := s.runs[run], Next(s, step).runs[run];
              && after == before.(phase := after.phase)
              && ((before.phase == Acquiring && after.phase == Prescoring) || (before.phase == Prescoring && after.phase == Checking)
                  || (before.phase == Checking && after.phase == Scoring && IsOpen(s.tables, before.job)))
  {
  }

  /** A run ends by being given up, with its last write, or at the second check of a closed campaign. */
  lemma {:induction false} HowRunsEnd(s: System, step: Step, run: RunId)
    requires run in s.runs
    ensures Next(s, AbandonRun(run)) == s.(runs := s.runs - {run})
    ensures run !in Next(s, step).runs ==>
              match step
              case AbandonRun(r) => r == run
              case PersistRun(r, _, _, _) => r == run && s.runs[run].phase == Scoring
              case FinishEmpty(r, nothingAcquired, _) =>
                r == run && s.runs[run].phase == (if nothingAcquired then Acquiring else Prescoring)
              case ClearRun(r) => r == run && s.runs[run].phase == Checking && !IsOpen(s.tables, s.runs[run].job)
              case _ => false
  {
  }

  // ================================================================ the shared shortlist

  /** An edit leaves the shared shortlist as it is or empties it; it empties a non-empty one exactly when a field
      that scoring depends on changed and no review has started. It never does so on a closed campaign or during a
      scoring task, and never touches another job's entries or anybody's decision. */
  lemma {:induction false} EditKeepsOrEmptiesShortlist(s: System, step: Step)
    requires step.Edit?
    ensures var before, after := s.tables, Next(s, step).tables;
      var shared := Which(before.pipeline, step.job, IsShared);
      && (after.pipeline == before.pipeline || Which(after.pipeline, step.job, IsShared) == {})
      && (shared != {} ==>
            (Which(after.pipeline, step.job, IsShared) == {} <==>
               Allowed(s, step) && ScoringFieldsChanged(before.jobs[step.job].fields, step.fields)
               && Which(before.pipeline, step.job, IsReviewed) == {}))
      && (IsClosed(before, step.job) || step.activeTasks > 0 ==> after == before)
      && (shared == {} ==> after.pipeline == before.pipeline)
      && after.pipeline.Keys == before.pipeline.Keys
      && (forall k :: k in before.pipeline ==>
            after.pipeline[k] == before.pipeline[k].(shared := after.pipeline[k].shared, sharedAt := after.pipeline[k].sharedAt)
            && (k.0 != step.job ==> after.pipeline[k] == before.pipeline[k]))
  {
    var before, after := s.tables, Next(s, step).tables;
    if Allowed(s, step) && !Invalidates(before, step.job, step.fields) {
      assert after.pipeline == before.pipeline;
    }
  }

  /** Making the same edit again changes nothing: it is never scoring-relevant the second time. */
  lemma {:induction false} EditIsIdempotent(s: System, step: Step)
    requires step.Edit?
    ensures Next(Next(s, step), step) == Next(s, step)
  {
    if Allowed(s, step) {
      var once := Next(s, step);
      assert !ScoringFieldsChanged(once.tables.jobs[step.job].fields, step.fields);
      assert Next(once, step).tables.pipeline == once.tables.pipeline;
      assert Next(once, step).tables.jobs == once.tables.jobs;
    }
  }

  /** Sharing makes the shared candidates of the job exactly the given ones, all pending; entries of other jobs, and
      the interview fields of every entry, stay. */
  lemma SharingReplacesShortlist(s: System, step: Step)
    requires step.Share? && Allowed(s, step)
    ensures var before, after := s.tables.pipeline, Next(s, step).tables.pipeline;
      && Which(after, step.job, IsShared) == Which(after, step.job, IsPending) == ToSet(step.ids)
      && after.Keys == before.Keys
      && (forall k :: k in before ==>
            after[k].interview == before[k].interview && (k.0 != step.job ==> after[k] == before[k]))
      && (forall c :: c in step.ids ==>
            var k := (step.job, c);
            && k in before && after[k].sharedAt == Some(step.now) && after[k].managerNotes.None?
            && after[k].recruiterNotes == (if c in step.notes then Some(step.notes[c]) else before[k].recruiterNotes))
  {
    var after := Next(s, step).tables.pipeline;
    forall c ensures c in Which(after, step.job, IsShared) <==> c in step.ids {
      assert c in step.ids ==> (step.job, c) in s.tables.pipeline;
    }
    forall c ensures c in Which(after, step.job, IsPending) <==> c in step.ids {
      assert c in step.ids ==> (step.job, c) in s.tables.pipeline;
    }
  }

  /** A re-shared entry counts as reviewed exactly when an interview was arranged before: sharing again resets the
      decision and the notes but not the interview, so such an entry also shields the shortlist from edits. */
  lemma {:induction false} ReshareReviewStartedIff(s: System, step: Step, c: CandidateId)
    requires step.Share? && Allowed(s, step) && c in step.ids
    ensures var k := (step.job, c);
      var before, after := s.tables.pipeline[k], Next(s, step).tables.pipeline[k];
      ReviewStarted(after) <==> before.interview.sentAt.Some? || before.interview.link.Some?
  {
    assert (step.job, c) in s.tables.pipeline;
  }

  // ================================================================ decisions

  /** Who decides: an entry's decision changes only by its own review or interview, or by being shared anew; no
      edit, note, stage change, ending, reopening or scoring run touches the decision of an entry that stays. */
  lemma {:induction false} OnlyManagerDecides(s: System, step: Step, k: Key)
    requires k in s.tables.pipeline && k in Next(s, step).tables.pipeline
    requires Next(s, step).tables.pipeline[k].decision != s.tables.pipeline[k].decision
    ensures Allowed(s, step)
    ensures match step
      case Review(job, user, c, _, _) => k == (job, c) && s.tables.jobs[job].manager == Some(user.id)
      case Schedule(job, user, c, _, _, _, _, _, _, _) => k == (job, c) && s.tables.jobs[job].manager == Some(user.id)
      case Share(job, _, ids, _, _) => k.0 == job && k.1 in ids
      case _ => false
  {
  }

  /** Who disappears: an entry leaves the shortlist only when a pipeline run on its job ends without it. */
  lemma {:induction false} OnlyRunsDropEntries(s: System, step: Step, k: Key)
    requires k in s.tables.pipeline && k !in Next(s, step).tables.pipeline
    ensures Allowed(s, step)
    ensures match step
      case PersistRun(run, batch, _, calls) =>
        s.runs[run].job == k.0 && s.runs[run].pipelineRun && calls >= 3 && k.1 !in Map(batch, ScoredId)
      case FinishEmpty(run, nothingAcquired, calls) =>
        s.runs[run].job == k.0 && s.runs[run].pipelineRun && !nothingAcquired && calls >= 1
      case _ => false
  {
  }
}
