/** The ladder of search strategies and the provider query of an attempt
    (sourcing/src/core/services/search_query_optimizer.py, search_strategies.py, and the request builder of
    postjobfree_sourcing_service.py). */
module SearchStrategies {
  import opened Common
  import opened Text

  datatype Request = Request(title: string, skills: seq<string>, location: Option<string>, isRemote: bool)

  datatype Plan = Plan(representativeTitle: string, representativeSkills: seq<string>)

  datatype Strategy = SkillsNearby | SkillsAnywhere | GeneralizedTitle | SingleCoreSkill | TitleOnly

  const LADDER: seq<Strategy> := [SkillsNearby, SkillsAnywhere, GeneralizedTitle, SingleCoreSkill, TitleOnly]

  /** The strategy for an attempt when `done` attempts are on record; the last one repeats. */
  function StrategyAfter(done: nat): Strategy {
    if done < |LADDER| then LADDER[done] else LADDER[|LADDER| - 1]
  }

  function SkillsOf(original: Request, plan: Option<Plan>): seq<string> {
    if plan.Some? then plan.value.representativeSkills else original.skills
  }

  function TitleOf(original: Request, plan: Option<Plan>): string {
    if plan.Some? then plan.value.representativeTitle else original.title
  }

  predicate HasLocation(r: Request) {
    r.location.Some? && Strip(r.location.value) != ""
  }

  function Optimize(strategy: Strategy, original: Request, plan: Option<Plan>): Request {
    match strategy
    case SkillsNearby =>
      if HasLocation(original) then original.(skills := [])
      else original.(skills := SkillsOf(original, plan), location := None)
    case SkillsAnywhere => original.(skills := SkillsOf(original, plan), location := None)
    case GeneralizedTitle =>
      original.(title := TitleOf(original, plan), skills := SkillsOf(original, plan), location := None)
    case SingleCoreSkill =>
      var skills :=
        if plan.Some? && plan.value.representativeSkills != [] then [plan.value.representativeSkills[0]]
        else if original.skills != [] then [original.skills[0]]
        else [];
      original.(title := TitleOf(original, plan), skills := skills, location := None)
    case TitleOnly => original.(title := TitleOf(original, plan), skills := [], location := None)
  }

  datatype Query = Query(titleWords: string, requiredWords: string, location: string)

  function IsRemoteWord(w: string): bool {
    Lower(w) == "remote"
  }

  function NotBlank(w: string): bool {
    Strip(w) != ""
  }

  /** The required words of a query: the skills, with "remote" behind them if need be, or else the title. */
  function RequiredWords(title: string, skills: seq<string>, isRemote: bool, appendRemote: bool): string {
    var words := if isRemote && appendRemote && !(exists w :: w in skills && IsRemoteWord(w)) then skills + ["remote"]
                 else skills;
    if words == [] then title else Join(Filter(words, NotBlank))
  }

  /** The provider query: on the second attempt the original location comes back. */
  function QueryFor(request: Request, original: Request, attempt: nat, appendRemote: bool): Query {
    var location := if request.isRemote then "" else if attempt == 2 then OrEmpty(original.location)
                    else OrEmpty(request.location);
    Query(request.title, RequiredWords(request.title, request.skills, request.isRemote, appendRemote), location)
  }

  /** What two queries are compared by. */
  datatype Signature = Signature(title: string, words: multiset<string>, location: Option<string>)

  function SignatureOf(q: Query): Signature {
    Signature(Lower(Strip(q.titleWords)), Words(q.requiredWords, ""),
              if q.location == "" then None else Some(Lower(Strip(q.location))))
  }

  /** The query of attempt n, when every earlier attempt is on record. */
  function AttemptQuery(original: Request, plan: Option<Plan>, attempt: nat, appendRemote: bool): Query
    requires attempt > 0
  {
    QueryFor(Optimize(StrategyAfter(attempt - 1), original, plan), original, attempt, appendRemote)
  }

  /** The required words: the title if there is nothing else to ask for, else the skills that are not blank; "remote" is
      added for remote requests, if it is to be, unless a skill says so already. */
  lemma {:induction false} WordsRequired(title: string, skills: seq<string>, isRemote: bool, appendRemote: bool)
    ensures !isRemote || !appendRemote || (exists w :: w in skills && Lower(w) == "remote") ==>
              RequiredWords(title, skills, isRemote, appendRemote) ==
              if skills == [] then title else Join(Filter(skills, NotBlank))
    ensures isRemote && appendRemote && !(exists w :: w in skills && Lower(w) == "remote") ==>
              RequiredWords(title, skills, isRemote, appendRemote) == Join(Filter(skills + ["remote"], NotBlank))
  {
    assert forall w :: IsRemoteWord(w) <==> Lower(w) == "remote";
  }

  /** The queries of the five rungs for a request on site: title and place; skills and place; from the third on anywhere,
      with the planned title: the planned skills, the first skill only, the title only. */
  lemma {:induction false} RungQueries(original: Request, plan: Option<Plan>, appendRemote: bool)
    requires !original.isRemote && original.location.Some? && Strip(original.location.value) != ""
    ensures var skills := if plan.Some? then plan.value.representativeSkills else original.skills;
      var title := if plan.Some? then plan.value.representativeTitle else original.title;
      var core := if plan.Some? && plan.value.representativeSkills != [] then [plan.value.representativeSkills[0]]
                  else if original.skills != [] then [original.skills[0]] else [];
      var place := original.location.value;
      && AttemptQuery(original, plan, 1, appendRemote) == Query(original.title, original.title, place)
      && AttemptQuery(original, plan, 2, appendRemote) ==
           Query(original.title, RequiredWords(original.title, skills, false, appendRemote), place)
      && AttemptQuery(original, plan, 3, appendRemote) ==
           Query(title, RequiredWords(title, skills, false, appendRemote), "")
      && AttemptQuery(original, plan, 4, appendRemote) ==
           Query(title, RequiredWords(title, core, false, appendRemote), "")
      && AttemptQuery(original, plan, 5, appendRemote) == Query(title, title, "")
  {
  }

  /** A request for remote work sends no place; without a place the first query names the skills. */
  lemma {:induction false} RungsElsewhere(original: Request, plan: Option<Plan>, appendRemote: bool, attempt: nat)
    requires attempt > 0
    ensures original.isRemote ==> AttemptQuery(original, plan, attempt, appendRemote).location == ""
    ensures attempt > 2 ==> AttemptQuery(original, plan, attempt, appendRemote).location == ""
    ensures original.location.None? || Strip(original.location.value) == "" ==>
              AttemptQuery(original, plan, 1, appendRemote) ==
              Query(original.title,
                    RequiredWords(original.title,
                                  if plan.Some? then plan.value.representativeSkills else original.skills,
                                  original.isRemote, appendRemote), "")
  {
  }

  /** Two queries count as the same if title and place agree up to case and outer blanks, and the words up to case and
      order. */
  lemma {:induction false} SameSignatureIff(q: Query, r: Query)
    ensures SignatureOf(q) == SignatureOf(r) <==>
      && Lower(Strip(q.titleWords)) == Lower(Strip(r.titleWords))
      && Words(q.requiredWords, "") == Words(r.requiredWords, "")
      && (q.location == "" <==> r.location == "")
      && (q.location != "" && r.location != "" ==> Lower(Strip(q.location)) == Lower(Strip(r.location)))
  {
  }

  /** The first two attempts ask the same. With a location only the first leaves out the skills, so it depends on
      whether they make a difference; without one both name the skills, and the second sends no location unless it is
      one of blanks only. */
  predicate SecondRepeatsFirst(original: Request, plan: Option<Plan>, appendRemote: bool) {
    if HasLocation(original) then
      Words(RequiredWords(original.title, [], original.isRemote, appendRemote), "")
      == Words(RequiredWords(original.title, SkillsOf(original, plan), original.isRemote, appendRemote), "")
    else original.isRemote || original.location in {None, Some("")}
  }

  lemma {:induction false} SecondRepeatsFirstIff(original: Request, plan: Option<Plan>, appendRemote: bool)
    ensures SignatureOf(AttemptQuery(original, plan, 2, appendRemote)) ==
            SignatureOf(AttemptQuery(original, plan, 1, appendRemote)) <==>
            SecondRepeatsFirst(original, plan, appendRemote)
  {
  }

  /** Nothing to ask for beyond the title: the second attempt repeats the first wherever the candidates are to be. */
  lemma {:induction false} NoSkillsRepeat(original: Request, plan: Option<Plan>, appendRemote: bool)
    requires SkillsOf(original, plan) == [] && (HasLocation(original) || original.location in {None, Some("")})
    ensures SecondRepeatsFirst(original, plan, appendRemote)
  {
  }

  lemma {:induction false} NothingToStrip(s: string)
    requires s != "" && !IsSpace(s[0]) && !IsSpace(s[|s| - 1])
    ensures Strip(s) == s
  {
  }

  /** A request with a location whose second attempt is wasted: it names no skills. */
  lemma {:induction false} NoSkillsInBerlin(appendRemote: bool)
    ensures HasLocation(Request("Engineer", [], Some("Berlin"), false))
    ensures SecondRepeatsFirst(Request("Engineer", [], Some("Berlin"), false), None, appendRemote)
  {
    NothingToStrip("Berlin");
    NoSkillsRepeat(Request("Engineer", [], Some("Berlin"), false), None, appendRemote);
  }

  /** One whose second attempt asks something new: it names a skill that is not the title. */
  lemma {:induction false} OneSkillInBerlin()
    ensures !SecondRepeatsFirst(Request("c", ["r"], Some("Berlin"), false), None, false)
  {
    NothingToStrip("Berlin");
    OneLetter('c');
    OneLetter('r');
    OneSkillRequired("c", "r");
    assert multiset{"c"}["c"] == 1 && multiset{"r"}["c"] == 0;
  }

  lemma {:induction false} OneSkillRequired(title: string, skill: string)
    requires Strip(skill) != ""
    ensures RequiredWords(title, [], false, false) == title && RequiredWords(title, [skill], false, false) == skill
  {
    FilterSnoc([], skill, NotBlank);
    assert [] + [skill] == [skill];
  }

  lemma {:induction false} OneLetter(c: char)
    requires 'a' <= c <= 'z'
    ensures Words([c], "") == multiset{[c]} && Strip([c]) == [c]
  {
    NothingToStrip([c]);
    assert [c][..0] == "" && [c][1..] == "" && "" + [c] == [c];
    assert Lower("") == "";
    assert Words("", [c]) == multiset{Lower([c])};
  }

  /** From the fifth attempt on the query does not change any more. */
  lemma {:induction false} LadderEnds(original: Request, plan: Option<Plan>, appendRemote: bool, attempt: nat)
    requires attempt >= |LADDER|
    ensures AttemptQuery(original, plan, attempt, appendRemote) == AttemptQuery(original, plan, |LADDER|, appendRemote)
  {
  }
}
