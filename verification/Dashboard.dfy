/** The shared shortlist of a job as its hiring manager sees it (server/src/core/services/scoring_service.py): who is
    shared, accepted, rejected and pending, and what each service call does to that. */
module Dashboard {
  import opened Common
  import opened Pipeline
  import opened ScoringStore
  import opened ReviewState
  import opened Campaign
  import opened CampaignSafety

  datatype Board = Board(
    shared: set<CandidateId>, accepted: set<CandidateId>, rejected: set<CandidateId>, pending: set<CandidateId>)
  {
    /** The candidate's decision is now this one. */
    function Moved(c: CandidateId, to: Decision): Board {
      Board(shared, accepted - {c} + (if to == InterviewSent then {c} else {}),
            rejected - {c} + (if to == Rejected then {c} else {}),
            pending - {c} + (if to == Undecided then {c} else {}))
    }

    function Within(keep: set<CandidateId>): Board {
      Board(shared * keep, accepted * keep, rejected * keep, pending * keep)
    }
  }

  const EMPTY_BOARD := Board({}, {}, {}, {})

  function BoardOf(p: map<Key, Entry>, job: JobId): Board {
    Board(Which(p, job, IsShared), Which(p, job, IsAccepted), Which(p, job, IsRejected), Which(p, job, IsPending))
  }

  /** A board shows of an entry no more than this. */
  function Facts(p: map<Key, Entry>, k: Key): Option<Option<Decision>> {
    if k in p && p[k].shared then Some(p[k].decision) else None
  }

  /** Where c stands on a board. */
  ghost predicate Placed(b: Board, c: CandidateId, facts: Option<Option<Decision>>) {
    && (c in b.shared <==> facts.Some?)
    && (c in b.accepted <==> facts == Some(Some(InterviewSent)))
    && (c in b.rejected <==> facts == Some(Some(Rejected)))
    && (c in b.pending <==> facts == Some(Some(Undecided)))
  }

  lemma BoardShowsFacts(p: map<Key, Entry>, job: JobId, c: CandidateId)
    ensures Placed(BoardOf(p, job), c, Facts(p, (job, c)))
  {
  }

  lemma SamePlaces(a: Board, b: Board, facts: CandidateId -> Option<Option<Decision>>)
    requires forall c :: Placed(a, c, facts(c)) && Placed(b, c, facts(c))
    ensures a == b
  {
    forall c ensures (c in a.shared <==> c in b.shared) && (c in a.accepted <==> c in b.accepted)
                     && (c in a.rejected <==> c in b.rejected) && (c in a.pending <==> c in b.pending)
    {
      assert Placed(a, c, facts(c)) && Placed(b, c, facts(c));
    }
  }

  /** A board is known when every candidate's place on it is. */
  lemma {:induction false} BoardIs(p: map<Key, Entry>, job: JobId, b: Board)
    requires forall c :: Placed(b, c, Facts(p, (job, c)))
    ensures BoardOf(p, job) == b
  {
    forall c ensures Placed(BoardOf(p, job), c, Facts(p, (job, c))) {
      BoardShowsFacts(p, job, c);
    }
    SamePlaces(BoardOf(p, job), b, c => Facts(p, (job, c)));
  }

  /** The boards of all jobs but one are as they were. */
  ghost predicate OtherBoardsKept(before: map<Key, Entry>, after: map<Key, Entry>, job: JobId) {
    forall j :: j != job ==> BoardOf(after, j) == BoardOf(before, j)
  }

  lemma {:induction false} SameFactsSameBoard(before: map<Key, Entry>, after: map<Key, Entry>, job: JobId)
    requires forall c :: Facts(after, (job, c)) == Facts(before, (job, c))
    ensures BoardOf(after, job) == BoardOf(before, job)
  {
    forall c ensures Placed(BoardOf(before, job), c, Facts(after, (job, c))) {
      BoardShowsFacts(before, job, c);
    }
    BoardIs(after, job, BoardOf(before, job));
  }

  lemma {:induction false} OthersKept(before: map<Key, Entry>, after: map<Key, Entry>, job: JobId)
    requires forall k: Key :: k.0 != job ==> Facts(after, k) == Facts(before, k)
    ensures OtherBoardsKept(before, after, job)
  {
    forall j | j != job ensures BoardOf(after, j) == BoardOf(before, j) {
      SameFactsSameBoard(before, after, j);
    }
  }

  // ================================================================ what the calls do to it

  lemma {:induction false} SharedBoard(t: Tables, step: Step)
    requires step.Share? && Allowed(System(t, map[]), step)
    ensures BoardOf(Written(t, step).pipeline, step.job) == Board(ToSet(step.ids), {}, {}, ToSet(step.ids))
    ensures OtherBoardsKept(t.pipeline, Written(t, step).pipeline, step.job)
  {
    var after := Written(t, step).pipeline;
    forall c ensures Placed(Board(ToSet(step.ids), {}, {}, ToSet(step.ids)), c, Facts(after, (step.job, c))) {
      assert c in step.ids ==> (step.job, c) in t.pipeline;
    }
    BoardIs(after, step.job, Board(ToSet(step.ids), {}, {}, ToSet(step.ids)));
    OthersKept(t.pipeline, after, step.job);
  }

  lemma {:induction false} EditedBoard(t: Tables, step: Step)
    requires step.Edit? && Allowed(System(t, map[]), step)
    ensures BoardOf(Written(t, step).pipeline, step.job) ==
            if Invalidates(t, step.job, step.fields) then EMPTY_BOARD else BoardOf(t.pipeline, step.job)
    ensures OtherBoardsKept(t.pipeline, Written(t, step).pipeline, step.job)
  {
    var after := Written(t, step).pipeline;
    if Invalidates(t, step.job, step.fields) {
      BoardIs(after, step.job, EMPTY_BOARD);
    }
    OthersKept(t.pipeline, after, step.job);
  }

  /** Deciding on one shared entry moves its candidate and nobody else. */
  lemma {:induction false} DecidedBoard(t: Tables, job: JobId, c: CandidateId, e: Entry, decision: Decision)
    requires SharedEntry(t.pipeline, (job, c)) && e.shared && e.decision == Some(decision)
    ensures BoardOf(WithEntry(t, (job, c), e).pipeline, job) == BoardOf(t.pipeline, job).Moved(c, decision)
    ensures OtherBoardsKept(t.pipeline, WithEntry(t, (job, c), e).pipeline, job)
  {
    var after := WithEntry(t, (job, c), e).pipeline;
    forall x ensures Placed(BoardOf(t.pipeline, job).Moved(c, decision), x, Facts(after, (job, x))) {
      BoardShowsFacts(t.pipeline, job, x);
    }
    BoardIs(after, job, BoardOf(t.pipeline, job).Moved(c, decision));
    OthersKept(t.pipeline, after, job);
  }

  /** A step that changes no entry's sharing or decision changes no board. */
  lemma {:induction false} UntouchedBoards(before: map<Key, Entry>, after: map<Key, Entry>, job: JobId)
    requires forall k: Key :: Facts(after, k) == Facts(before, k)
    ensures BoardOf(after, job) == BoardOf(before, job) && OtherBoardsKept(before, after, job)
  {
    SameFactsSameBoard(before, after, job);
    OthersKept(before, after, job);
  }

  /** Ending requires an empty pending column: everybody shared is accepted or rejected. */
  lemma {:induction false} EndedBoard(t: Tables, job: JobId)
    requires Sound(t) && Which(t.pipeline, job, IsUndecided) == {}
    ensures var b := BoardOf(t.pipeline, job); b.pending == {} && b.shared == b.accepted + b.rejected
  {
    SharedSplits(t, job);
  }

  /** A run that selected nobody empties the board, one that acquired nobody leaves it. */
  lemma {:induction false} EmptiedBoard(t: Tables, job: JobId, nothingAcquired: bool, calls: nat)
    ensures var after := Emptied(t, job, nothingAcquired, calls).pipeline;
      && BoardOf(after, job) == (if nothingAcquired || calls == 0 then BoardOf(t.pipeline, job) else EMPTY_BOARD)
      && OtherBoardsKept(t.pipeline, after, job)
  {
    var after := Emptied(t, job, nothingAcquired, calls).pipeline;
    if nothingAcquired || calls == 0 {
      assert after == t.pipeline;
    } else {
      BoardIs(after, job, EMPTY_BOARD);
    }
    OthersKept(t.pipeline, after, job);
  }

  /** The scores of a run that went through, onto a job's shortlist: a rescore changes no board; a pipeline run takes
      off everybody it did not score, and nobody's decision changes. */
  lemma {:induction false} RunBoard(t: Tables, job: JobId, batch: seq<ScoreOutput>, pipelineRun: bool, now: int)
    ensures var ids, after := ToSet(Map(batch, ScoredId)), Persisted(t, job, batch, pipelineRun, now, 4).pipeline;
      && BoardOf(after, job) == (if pipelineRun then BoardOf(t.pipeline, job).Within(ids) else BoardOf(t.pipeline, job))
      && OtherBoardsKept(t.pipeline, after, job)
  {
    var ids, after := ToSet(Map(batch, ScoredId)), Persisted(t, job, batch, pipelineRun, now, 4).pipeline;
    var b := if pipelineRun then BoardOf(t.pipeline, job).Within(ids) else BoardOf(t.pipeline, job);
    forall c ensures Placed(b, c, Facts(after, (job, c))) {
      BoardShowsFacts(t.pipeline, job, c);
      PersistedFacts(t, job, batch, pipelineRun, now, (job, c));
    }
    BoardIs(after, job, b);
    forall k: Key | k.0 != job ensures Facts(after, k) == Facts(t.pipeline, k) {
      PersistedFacts(t, job, batch, pipelineRun, now, k);
    }
    OthersKept(t.pipeline, after, job);
  }

  lemma {:induction false} PersistedFacts(
    t: Tables, job: JobId, batch: seq<ScoreOutput>, pipelineRun: bool, now: int, k: Key)
    ensures Facts(Persisted(t, job, batch, pipelineRun, now, 4).pipeline, k) ==
            if pipelineRun && k.0 == job && k.1 !in Map(batch, ScoredId) then None else Facts(t.pipeline, k)
  {
  }
}
