/** Two small judgements other operations depend on: whether a hiring manager has started to review an entry
    (server/src/utils/review_state_helper.py) and whether an edit changes anything scoring depends on
    (server/src/utils/jd_comparison_helper.py). */
module ReviewState {
  import opened Common
  import opened ScoringStore
  import opened Text

  predicate ReviewStarted(e: Entry) {
    || (e.decision.Some? && e.decision.value != Undecided)
    || (e.managerNotes.Some? && Strip(e.managerNotes.value) != "")
    || e.interview.sentAt.Some? || e.interview.link.Some?
  }

  /** Each of the traces a hiring manager leaves starts the review: a decision, a note that is not blank, an interview
      sent, a link. Being shared and pending alone does not. */
  lemma {:induction false} EachTraceStartsReview(e: Entry)
    ensures e.decision in {Some(InterviewSent), Some(Rejected)} ==> ReviewStarted(e)
    ensures e.managerNotes.Some? && Strip(e.managerNotes.value) != "" ==> ReviewStarted(e)
    ensures e.interview.sentAt.Some? ==> ReviewStarted(e)
    ensures e.interview.link.Some? ==> ReviewStarted(e)
    ensures (&& e.decision in {None, Some(Undecided)} && e.interview.sentAt.None? && e.interview.link.None?
             && (e.managerNotes.None? || Strip(e.managerNotes.value) == "")) ==> !ReviewStarted(e)
  {
  }

  function SkillKeys(skills: seq<JobSkill>): set<(string, bool)> {
    set s | s in skills :: (Lower(Strip(s.name)), s.mandatory)
  }

  /** A skill counts by its name, up to case and outer blanks, and by whether it is mandatory. */
  lemma {:induction false} SkillsWithinIff(a: seq<JobSkill>, b: seq<JobSkill>)
    ensures SkillKeys(a) <= SkillKeys(b) <==>
            forall s :: s in a ==>
              exists t :: t in b && Lower(Strip(s.name)) == Lower(Strip(t.name)) && s.mandatory == t.mandatory
  {
    if SkillKeys(a) <= SkillKeys(b) {
      forall s | s in a
        ensures exists t :: t in b && Lower(Strip(s.name)) == Lower(Strip(t.name)) && s.mandatory == t.mandatory
      {
        assert (Lower(Strip(s.name)), s.mandatory) in SkillKeys(a);
      }
    }
  }

  predicate ScoringFieldsChanged(stored: JobFields, update: JobFields) {
    || stored.title != update.title
    || OrEmpty(stored.purpose) != OrEmpty(update.purpose)
    || OrEmpty(stored.responsibilities) != OrEmpty(update.responsibilities)
    || stored.minExperience != update.minExperience
    || stored.maxExperience != update.maxExperience
    || stored.location != update.location
    || stored.employmentType != update.employmentType
    || OrEmpty(stored.education) != OrEmpty(update.education)
    || OrEmpty(stored.preferred) != OrEmpty(update.preferred)
    || SkillKeys(stored.skills) != SkillKeys(update.skills)
  }

  /** Changing any one of the fields scoring reads counts; changing the department, or writing an empty text for a missing
      one, does not. */
  lemma {:induction false} EachFieldCounts(a: JobFields, b: JobFields)
    ensures a.title != b.title ==> ScoringFieldsChanged(a, b)
    ensures OrEmpty(a.purpose) != OrEmpty(b.purpose) ==> ScoringFieldsChanged(a, b)
    ensures OrEmpty(a.responsibilities) != OrEmpty(b.responsibilities) ==> ScoringFieldsChanged(a, b)
    ensures a.minExperience != b.minExperience ==> ScoringFieldsChanged(a, b)
    ensures a.maxExperience != b.maxExperience ==> ScoringFieldsChanged(a, b)
    ensures a.location != b.location ==> ScoringFieldsChanged(a, b)
    ensures a.employmentType != b.employmentType ==> ScoringFieldsChanged(a, b)
    ensures OrEmpty(a.education) != OrEmpty(b.education) ==> ScoringFieldsChanged(a, b)
    ensures OrEmpty(a.preferred) != OrEmpty(b.preferred) ==> ScoringFieldsChanged(a, b)
    ensures SkillKeys(a.skills) != SkillKeys(b.skills) ==> ScoringFieldsChanged(a, b)
    ensures ScoringFieldsChanged(a, b) <==> ScoringFieldsChanged(b, a)
    ensures b == a.(department := b.department) ==> !ScoringFieldsChanged(a, b)
    ensures a.purpose == None && b == a.(purpose := Some("")) ==> !ScoringFieldsChanged(a, b)
  {
  }
}
