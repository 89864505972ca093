/** The campaign of a job description: its status and its shortlist under every interleaving of recruiter edits,
    sharing, hiring-manager reviews, interviews, ending, reopening and scoring runs
    (server/src/core/services/scoring_service.py, job_description_service.py). One service call is one step,
    except that a scoring run is several: its status checks and its writes are apart in time. */
module Campaign {
  import opened Common
  import opened Pipeline
  import opened ScoringStore
  import opened ReviewState

  datatype Role = Recruiter | HiringManager | OtherRole

  datatype User = User(id: UserId, role: Role)

  type RunId = int

  /** How far a scoring run in flight is. It is Checking from the moment it has somebody to score until its second
      status check, and Scoring from there until it writes. A rescore knows whom to score from the start. */
  datatype Phase = Acquiring | Prescoring | Checking | Scoring

  datatype RunState = RunState(job: JobId, user: User, pipelineRun: bool, phase: Phase)

  /** A scoring run in flight. A preview is none: it never writes. */
  type ScoringRun = r: RunState | r.pipelineRun || r.phase in {Checking, Scoring}
    witness RunState(0, User(0, Recruiter), false, Checking)

  function NewRun(job: JobId, user: User, pipelineRun: bool): ScoringRun {
    RunState(job, user, pipelineRun, if pipelineRun then Acquiring else Checking)
  }

  datatype System = System(tables: Tables, runs: map<RunId, ScoringRun>)

  datatype Step =
    | Create(job: JobId, user: User, manager: Option<UserId>, fields: JobFields, employmentTypeKnown: bool)
    | Edit(job: JobId, user: User, manager: Option<UserId>, fields: JobFields, activeTasks: nat,
           employmentTypeKnown: bool)
    | Share(job: JobId, user: User, ids: seq<CandidateId>, notes: map<CandidateId, string>, now: int)
    | Review(job: JobId, user: User, candidate: CandidateId, decision: Decision, remarks: Option<string>)
    | Schedule(job: JobId, user: User, candidate: CandidateId, candidateKnown: bool, emailWorks: bool, link: string,
               at: int, timezone: string, message: Option<string>, now: int)
    | End(job: JobId, user: User)
    | Reopen(job: JobId, user: User)
    | SetNotes(job: JobId, user: User, candidate: CandidateId, candidateKnown: bool, text: Option<string>, now: int)
    | SetStages(job: JobId, user: User, ids: seq<CandidateId>, stage: string, now: int)
    | StartRun(run: RunId, job: JobId, user: User, pipelineRun: bool)
    | AdvanceRun(run: RunId)
    | ClearRun(run: RunId)
    | PersistRun(run: RunId, batch: seq<ScoreOutput>, now: int, calls: nat)
    | FinishEmpty(run: RunId, nothingAcquired: bool, calls: nat)
    | AbandonRun(run: RunId)

  // ================================================================ the shortlist

  predicate IsClosed(t: Tables, job: JobId) {
    job in t.jobs && t.jobs[job].status == Closed
  }

  predicate IsOpen(t: Tables, job: JobId) {
    job in t.jobs && t.jobs[job].status != Closed
  }

  predicate SharedEntry(p: map<Key, Entry>, k: Key) {
    k in p && p[k].shared
  }

  predicate Decided(e: Entry) {
    e.decision in {Some(InterviewSent), Some(Rejected)}
  }

  /** The candidates of a job whose entry satisfies p. */
  function Which(p: map<Key, Entry>, job: JobId, test: Entry -> bool): (r: set<CandidateId>)
    ensures forall c :: c in r <==> (job, c) in p && test(p[(job, c)])
  {
    set k | k in p && k.0 == job && test(p[k]) :: k.1
  }

  predicate IsShared(e: Entry) { e.shared }

  predicate IsAccepted(e: Entry) { e.shared && e.decision == Some(InterviewSent) }

  predicate IsRejected(e: Entry) { e.shared && e.decision == Some(Rejected) }

  predicate IsPending(e: Entry) { e.shared && e.decision == Some(Undecided) }

  predicate IsUndecided(e: Entry) { e.shared && !Decided(e) }

  predicate IsReviewed(e: Entry) { e.shared && ReviewStarted(e) }

  function ShareEntry(e: Entry, chosen: bool, note: Option<string>, now: int): Entry {
    if !chosen then e.(shared := false)
    else e.(shared := true, sharedAt := Some(now), decision := Some(Undecided), managerNotes := None,
            recruiterNotes := if note.Some? then note else e.recruiterNotes)
  }

  function NoteFor(notes: map<CandidateId, string>, c: CandidateId): Option<string> {
    if c in notes then Some(notes[c]) else None
  }

  /** Sharing a list replaces the shared shortlist of the job. */
  function SharedTo(
    p: map<Key, Entry>, job: JobId, ids: seq<CandidateId>, notes: map<CandidateId, string>, now: int): map<Key, Entry>
  {
    map k | k in p :: if k.0 == job then ShareEntry(p[k], k.1 in ids, NoteFor(notes, k.1), now) else p[k]
  }

  function Unshared(p: map<Key, Entry>, job: JobId): map<Key, Entry> {
    map k | k in p :: if k.0 == job then p[k].(shared := false, sharedAt := None) else p[k]
  }

  /** An edit empties the shared shortlist when it changes what scoring depends on and no review has started. */
  predicate Invalidates(t: Tables, job: JobId, fields: JobFields)
    requires job in t.jobs
  {
    && ScoringFieldsChanged(t.jobs[job].fields, fields)
    && Which(t.pipeline, job, IsShared) != {}
    && Which(t.pipeline, job, IsReviewed) == {}
  }

  // ================================================================ steps

  /** Whether the service call goes through; otherwise it raises before writing anything. */
  predicate Allowed(s: System, step: Step) {
    var t := s.tables;
    match step
    case Create(job, user, _, _, known) =>
      user.role == Recruiter && known && Draft in t.codes && job !in t.jobs
    case Edit(job, user, _, _, activeTasks, known) =>
      user.role == Recruiter && IsOpen(t, job) && t.jobs[job].recruiter == user.id && activeTasks == 0 && known
    case Share(job, user, ids, _, _) =>
      user.role == Recruiter && IsOpen(t, job) && forall c :: c in ids ==> (job, c) in t.pipeline
    case Review(job, user, c, _, _) =>
      && user.role == HiringManager && IsOpen(t, job) && t.jobs[job].manager == Some(user.id)
      && SharedEntry(t.pipeline, (job, c))
    case Schedule(job, user, c, known, emailWorks, _, _, _, _, _) =>
      && user.role == HiringManager && job in t.jobs && t.jobs[job].manager == Some(user.id)
      && SharedEntry(t.pipeline, (job, c)) && known && emailWorks
    case End(job, user) =>
      && user.role == HiringManager && IsOpen(t, job) && t.jobs[job].manager == Some(user.id)
      && Which(t.pipeline, job, IsUndecided) == {} && Closed in t.codes
    case Reopen(job, user) =>
      && user.role == HiringManager && IsClosed(t, job) && t.jobs[job].manager == Some(user.id)
      && Active in t.codes
    case SetNotes(job, user, _, known, _, _) =>
      IsOpen(t, job) && t.jobs[job].recruiter == user.id && known
    case SetStages(job, user, _, _, _) =>
      IsOpen(t, job) && t.jobs[job].recruiter == user.id
    case StartRun(run, job, user, _) =>
      run !in s.runs && IsOpen(t, job) && t.jobs[job].recruiter == user.id
    case AdvanceRun(run) => run in s.runs && s.runs[run].phase in {Acquiring, Prescoring}
    case ClearRun(run) => run in s.runs && s.runs[run].phase == Checking
    case PersistRun(run, _, _, _) => run in s.runs && s.runs[run].phase == Scoring
    case FinishEmpty(run, nothingAcquired, _) =>
      run in s.runs && s.runs[run].phase == if nothingAcquired then Acquiring else Prescoring
    case AbandonRun(run) => run in s.runs
  }

  function WithStatus(t: Tables, job: JobId, status: Status): Tables
    requires job in t.jobs
  {
    t.(jobs := t.jobs[job := t.jobs[job].(status := status)])
  }

  function WithEntry(t: Tables, k: Key, e: Entry): Tables {
    t.(pipeline := t.pipeline[k := e])
  }

  function Interviewed(e: Entry, link: string, at: int, timezone: string, message: Option<string>, now: int): Entry {
    e.(decision := Some(InterviewSent),
       interview := Interview(Some(link), Some(now), Some(at), Some(timezone), message))
  }

  /** The tables after an allowed call of the campaign's own operations. */
  function Written(t: Tables, step: Step): Tables
    requires Allowed(System(t, map[]), step)
  {
    match step
    case Create(job, user, manager, fields, _) =>
      t.(jobs := t.jobs[job := Job(user.id, manager, Draft, fields)])
    case Edit(job, _, manager, fields, _, _) =>
      t.(jobs := t.jobs[job := t.jobs[job].(manager := manager, fields := fields)],
         pipeline := if Invalidates(t, job, fields) then Unshared(t.pipeline, job) else t.pipeline)
    case Share(job, _, ids, notes, now) => t.(pipeline := SharedTo(t.pipeline, job, ids, notes, now))
    case Review(job, _, c, decision, remarks) =>
      WithEntry(t, (job, c), t.pipeline[(job, c)].(decision := Some(decision), managerNotes := remarks))
    case Schedule(job, _, c, _, _, link, at, timezone, message, now) =>
      WithEntry(t, (job, c), Interviewed(t.pipeline[(job, c)], link, at, timezone, message, now))
    case End(job, _) => WithStatus(t, job, Closed)
    case Reopen(job, _) => WithStatus(t, job, Active)
    case SetNotes(job, _, c, _, text, now) =>
      var k := (job, c);
      WithEntry(t, k, (if k in t.pipeline then t.pipeline[k] else NewEntry("PRE_SCORED", now)).(recruiterNotes := text))
    case SetStages(job, _, ids, stage, now) => t.(pipeline := Staged(t.pipeline, job, ids, stage, now))
    case _ => t
  }

  function Next(s: System, step: Step): System {
    if !Allowed(s, step) then s
    else
      match step
      case StartRun(run, job, user, pipelineRun) =>
        s.(runs := s.runs[run := NewRun(job, user, pipelineRun)])
      case AdvanceRun(run) =>
        s.(runs := s.runs[run := s.runs[run].(phase := if s.runs[run].phase == Acquiring then Prescoring else Checking)])
      case ClearRun(run) =>
        if IsOpen(s.tables, s.runs[run].job) then s.(runs := s.runs[run := s.runs[run].(phase := Scoring)])
        else s.(runs := s.runs - {run})
      case PersistRun(run, batch, now, calls) =>
        System(Persisted(s.tables, s.runs[run].job, batch, s.runs[run].pipelineRun, now, calls), s.runs - {run})
      case FinishEmpty(run, nothingAcquired, calls) =>
        System(Emptied(s.tables, s.runs[run].job, nothingAcquired, calls), s.runs - {run})
      case AbandonRun(run) => s.(runs := s.runs - {run})
      case _ => s.(tables := Written(s.tables, step))
  }

  /** A run that selected nobody, or acquired nobody: it clears the shortlist, or leaves it, and activates the job. */
  function Emptied(t: Tables, job: JobId, nothingAcquired: bool, calls: nat): Tables {
    if nothingAcquired then (if calls >= 1 then Activated(t, job) else t)
    else
      var cleared := if calls >= 1 then WithoutStale(t, job, []) else t;
      if calls >= 2 then Activated(cleared, job) else cleared
  }

  function After(s: System, steps: seq<Step>): System {
    if steps == [] then s else Next(After(s, steps[..|steps| - 1]), steps[|steps| - 1])
  }
}
