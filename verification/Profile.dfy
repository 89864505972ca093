/** Candidate profiles and their upsert (server/src/data/repositories/scoring_repository.py): an update in place
    that refines "replace by the incoming profile" while keeping the identity of matching child rows. */
module Profile {
  import opened Common
  import opened Reconciliation

  datatype Master = Master(
    fullName: string, email: Option<string>, phone: Option<string>, currentTitle: Option<string>,
    location: Option<string>, summary: Option<string>, totalExperienceMonths: int, sourceType: string)

  datatype SkillRow = SkillRow(id: Option<RowId>, name: string)

  datatype ExperienceKey = ExperienceKey(company: Option<string>, title: string, startDate: Option<int>)
  datatype ExperienceData = ExperienceData(
    description: Option<string>, endDate: Option<int>, isCurrent: bool, skills: seq<SkillRow>)
  datatype ExperiencePayload = ExperiencePayload(
    description: Option<string>, endDate: Option<int>, isCurrent: bool, skillNames: seq<string>)
  datatype ShownExperience = ShownExperience(
    description: Option<string>, endDate: Option<int>, isCurrent: bool, skills: set<string>)

  datatype EducationKey = EducationKey(institution: Option<string>, degree: string, field: Option<string>)
  datatype Dates = Dates(start: Option<int>, end: Option<int>)

  type ExperienceRow = Row<ExperienceKey, ExperienceData>
  type EducationRow = Row<EducationKey, Dates>
  type ExperienceItem = Item<ExperienceKey, ExperiencePayload>
  type EducationItem = Item<EducationKey, Dates>

  /** A profile as the sourcing service delivers it. */
  datatype Details = Details(
    id: CandidateId, master: Master, createdAt: int, updatedAt: int,
    skillNames: seq<string>, experiences: seq<ExperienceItem>, educations: seq<EducationItem>)

  /** A stored profile without row identities, row order and `updated_at`. */
  datatype CandidateProfile = CandidateProfile(
    master: Master, resumeText: Option<string>, createdAt: int, skills: set<string>,
    experiences: multiset<(ExperienceKey, ShownExperience)>, educations: multiset<(EducationKey, Dates)>)

  // ================================================================ skills

  function Names(rows: seq<SkillRow>): set<string> {
    set r | r in rows :: r.name
  }

  function NewSkill(name: string): SkillRow {
    SkillRow(None, name)
  }

  /** The distinct names of a list, in the order of their first mention. */
  function FirstMentions(names: seq<string>): (r: seq<string>)
    ensures forall x :: x in r <==> x in names
  {
    if names == [] then []
    else
      var rest := FirstMentions(names[..|names| - 1]);
      if names[|names| - 1] in rest then rest else rest + [names[|names| - 1]]
  }

  function NamedIn(names: seq<string>): SkillRow -> bool {
    (r: SkillRow) => r.name in names
  }

  function MissingFrom(rows: seq<SkillRow>): string -> bool {
    (n: string) => n !in Names(rows)
  }

  function SyncedSkills(rows: seq<SkillRow>, incoming: seq<string>): seq<SkillRow> {
    var kept := Filter(rows, NamedIn(incoming));
    kept + Map(Filter(FirstMentions(incoming), MissingFrom(kept)), NewSkill)
  }

  /** Synchronizing replaces the set of names, and a row goes or stays with its name. */
  lemma SyncedSkillsReplaceNames(rows: seq<SkillRow>, incoming: seq<string>)
    ensures Names(SyncedSkills(rows, incoming)) == ToSet(incoming)
    ensures SkillsKept(rows, incoming, SyncedSkills(rows, incoming))
    ensures forall r :: r in SyncedSkills(rows, incoming) && r !in rows ==> r.id == None && r.name !in Names(rows)
  {
    var kept := Filter(rows, NamedIn(incoming));
    var added := Filter(FirstMentions(incoming), MissingFrom(kept));
    var additions := Map(added, NewSkill);
    FilterMembers(rows, NamedIn(incoming));
    FilterMembers(FirstMentions(incoming), MissingFrom(kept));
    forall r | r in additions ensures r.id == None && r.name in added {
      var i :| 0 <= i < |additions| && additions[i] == r;
    }
    forall n | n in incoming ensures n in Names(SyncedSkills(rows, incoming)) {
      if n in Names(kept) {
        var r :| r in kept && r.name == n;
        assert r in SyncedSkills(rows, incoming);
      } else {
        assert n in added;
        var i :| 0 <= i < |added| && added[i] == n;
        assert additions[i] in SyncedSkills(rows, incoming);
      }
    }
    forall n | n in Names(rows) && n in incoming ensures n in Names(kept) {
      var r :| r in rows && r.name == n;
      assert r in kept;
    }
  }

  /** A stored skill row stays, as itself, exactly when its name is still offered. */
  ghost predicate SkillsKept(before: seq<SkillRow>, names: seq<string>, after: seq<SkillRow>) {
    forall r :: r in before ==> (r in after <==> r.name in names)
  }

  method SynchronizeSkills(rows: seq<SkillRow>, incoming: seq<string>) returns (synced: seq<SkillRow>)
    ensures Names(synced) == ToSet(incoming)
    ensures SkillsKept(rows, incoming, synced)
    ensures forall r :: r in synced && r !in rows ==> r.id == None && r.name !in Names(rows)
  {
    var kept := RemoveUnnamed(rows, incoming);
    synced := AppendMissing(kept, FirstMentions(incoming));
    SyncedSkillsReplaceNames(rows, incoming);
  }

  method RemoveUnnamed(rows: seq<SkillRow>, incoming: seq<string>) returns (kept: seq<SkillRow>)
    ensures kept == Filter(rows, NamedIn(incoming))
  {
    kept := [];
    for i := 0 to |rows|
      invariant kept == Filter(rows[..i], NamedIn(incoming))
    {
      assert rows[..i + 1][..i] == rows[..i];
      if rows[i].name in incoming {
        kept := kept + [rows[i]];
      }
    }
    assert rows[..|rows|] == rows;
  }

  lemma {:induction false} AdditionsGrow(kept: seq<SkillRow>, names: seq<string>, i: nat)
    requires i < |names|
    ensures Map(Filter(names[..i + 1], MissingFrom(kept)), NewSkill) ==
            Map(Filter(names[..i], MissingFrom(kept)), NewSkill)
            + if names[i] in Names(kept) then [] else [NewSkill(names[i])]
  {
    TakeOneMore(names, i);
    FilterSnoc(names[..i], names[i], MissingFrom(kept));
    MapSnoc(Filter(names[..i], MissingFrom(kept)), names[i], NewSkill);
  }

  method AppendMissing(kept: seq<SkillRow>, names: seq<string>) returns (synced: seq<SkillRow>)
    ensures synced == kept + Map(Filter(names, MissingFrom(kept)), NewSkill)
  {
    var existing := Names(kept);
    var added: seq<SkillRow> := [];
    for i := 0 to |names|
      invariant added == Map(Filter(names[..i], MissingFrom(kept)), NewSkill)
    {
      AdditionsGrow(kept, names, i);
      if names[i] !in existing {
        added := added + [NewSkill(names[i])];
      }
    }
    assert names[..|names|] == names;
    synced := kept + added;
  }

  // ================================================================ child rows

  function MergeExperience(d: ExperienceData, p: ExperiencePayload): ExperienceData {
    ExperienceData(p.description, p.endDate, p.isCurrent, SyncedSkills(d.skills, p.skillNames))
  }

  function CreateExperience(p: ExperiencePayload): ExperienceData {
    ExperienceData(p.description, p.endDate, p.isCurrent, Map(p.skillNames, NewSkill))
  }

  function SeenExperience(d: ExperienceData): ShownExperience {
    ShownExperience(d.description, d.endDate, d.isCurrent, Names(d.skills))
  }

  function OfferedExperience(p: ExperiencePayload): ShownExperience {
    ShownExperience(p.description, p.endDate, p.isCurrent, ToSet(p.skillNames))
  }

  function MergeDates(d: Dates, p: Dates): Dates { p }

  function SameDates(p: Dates): Dates { p }

  lemma NewSkillNames(names: seq<string>)
    ensures Names(Map(names, NewSkill)) == ToSet(names)
  {
    var rows := Map(names, NewSkill);
    forall n | n in names ensures n in Names(rows) {
      var i :| 0 <= i < |names| && names[i] == n;
      assert rows[i] in rows && rows[i].name == n;
    }
    forall n | n in Names(rows) ensures n in names {
      var r :| r in rows && r.name == n;
      var i :| 0 <= i < |rows| && rows[i] == r;
      assert names[i] == n;
    }
  }

  /** Both ways of taking an incoming experience show it faithfully, nested skills as a set of names. */
  lemma ExperiencesShowPayload()
    ensures ShowsPayload(MergeExperience, CreateExperience, SeenExperience, OfferedExperience)
    ensures forall d, p :: var e := MergeExperience(d, p);
              e.description == p.description && e.endDate == p.endDate && e.isCurrent == p.isCurrent
              && Names(e.skills) == ToSet(p.skillNames)
    ensures forall p :: var e := CreateExperience(p);
              e.description == p.description && e.endDate == p.endDate && e.isCurrent == p.isCurrent
              && Names(e.skills) == ToSet(p.skillNames)
  {
    forall d, p ensures SeenExperience(MergeExperience(d, p)) == OfferedExperience(p) {
      SyncedSkillsReplaceNames(d.skills, p.skillNames);
    }
    forall p ensures SeenExperience(CreateExperience(p)) == OfferedExperience(p) {
      NewSkillNames(p.skillNames);
    }
  }

  // ---------------------------------------------------------------- flush

  /** Flushing gives every pending row an identity the table has not used. */
  function Flushed<K, D>(rows: seq<Row<K, D>>, next: RowId): (r: seq<Row<K, D>>)
    ensures |r| == |rows|
    ensures forall i :: 0 <= i < |rows| ==>
              r[i] == if rows[i].id.None? then rows[i].(id := Some(next + i)) else rows[i]
  {
    if rows == [] then []
    else
      var n := |rows| - 1;
      Flushed(rows[..n], next) + [if rows[n].id.None? then rows[n].(id := Some(next + n)) else rows[n]]
  }

  ghost predicate IdsBelow<K, D>(rows: seq<Row<K, D>>, next: RowId) {
    forall i :: 0 <= i < |rows| && rows[i].id.Some? ==> rows[i].id.value < next
  }

  lemma {:induction false} FlushShowsSame<K(!new), D(!new), A(!new)>(rows: seq<Row<K, D>>, next: RowId, seen: D -> A)
    ensures Shown(Flushed(rows, next), seen) == Shown(rows, seen)
  {
    if rows != [] {
      var n := |rows| - 1;
      FlushShowsSame(rows[..n], next, seen);
      assert Flushed(rows, next)[..n] == Flushed(rows[..n], next);
    }
  }

  lemma FlushedRows<K(!new), D(!new), A(!new)>(rows: seq<Row<K, D>>, next: RowId, seen: D -> A)
    requires IdsBelow(rows, next)
    requires forall i, j :: 0 <= i < j < |rows| && rows[i].id.Some? ==> rows[i].id != rows[j].id
    ensures Stored(Flushed(rows, next)) && IdsBelow(Flushed(rows, next), next + |rows|)
    ensures Shown(Flushed(rows, next), seen) == Shown(rows, seen)
  {
    FlushShowsSame(rows, next, seen);
  }

  /** Identity after an update: the first stored row of a surviving key keeps its id; all other rows are new. */
  ghost predicate KeepsIdentity<K(!new), D(!new)>(before: seq<Row<K, D>>, next: RowId, after: seq<Row<K, D>>) {
    && (forall i, r :: IsFirst(before, i) && r in after && r.key == before[i].key ==> r.id == before[i].id)
    && (forall r :: r in after && !HasKey(before, r.key) ==> r.id.Some? && r.id.value >= next)
  }

  lemma FlushKeepsIdentity<K(!new), D(!new), A(!new)>(
    before: seq<Row<K, D>>, next: RowId, latest: map<K, A>, rows: seq<Row<K, D>>, seen: D -> A)
    requires Stored(before) && Reconciled(before, latest, rows, seen)
    ensures KeepsIdentity(before, next, Flushed(rows, next))
  {
    var after := Flushed(rows, next);
    forall i, r | IsFirst(before, i) && r in after && r.key == before[i].key ensures r.id == before[i].id {
      var j :| 0 <= j < |after| && after[j] == r;
      assert rows[j] in rows;
    }
    forall r | r in after && !HasKey(before, r.key) ensures r.id.Some? && r.id.value >= next {
      var j :| 0 <= j < |after| && after[j] == r;
      assert rows[j] in rows;
    }
  }

  lemma ReconciledIdsBelow<K(!new), D(!new), A(!new)>(
    before: seq<Row<K, D>>, next: RowId, latest: map<K, A>, rows: seq<Row<K, D>>, seen: D -> A)
    requires Stored(before) && IdsBelow(before, next) && Reconciled(before, latest, rows, seen)
    ensures IdsBelow(rows, next)
  {
    forall j | 0 <= j < |rows| && rows[j].id.Some? ensures rows[j].id.value < next {
      assert rows[j] in rows;
      var i := FirstOf(before, rows[j].key);
    }
  }

  // ================================================================ candidates

  ghost function Replaced(before: CandidateProfile, d: Details): CandidateProfile {
    CandidateProfile(d.master, before.resumeText, before.createdAt, ToSet(d.skillNames),
            multiset(Pairs(Latest(d.experiences, OfferedExperience))),
            multiset(Pairs(Latest(d.educations, SameDates))))
  }

  ghost function Created(d: Details): CandidateProfile {
    CandidateProfile(d.master, None, d.createdAt, ToSet(d.skillNames),
            Offered(d.experiences, OfferedExperience), Offered(d.educations, SameDates))
  }

  ghost function ProfileOf(
    master: Master, resumeText: Option<string>, createdAt: int, skills: seq<SkillRow>,
    experiences: seq<ExperienceRow>, educations: seq<EducationRow>): CandidateProfile
  {
    CandidateProfile(master, resumeText, createdAt, Names(skills),
            Shown(experiences, SeenExperience), Shown(educations, SameDates))
  }

  class Candidate {
    const id: CandidateId
    var master: Master
    var resumeText: Option<string>
    var createdAt: int
    var updatedAt: int
    var skills: seq<SkillRow>
    var experiences: seq<ExperienceRow>
    var educations: seq<EducationRow>
    /** The next identity a flushed child row gets; identities are only ever compared within one candidate. */
    var nextRowId: RowId

    ghost predicate Valid()
      reads this
    {
      && Stored(experiences) && IdsBelow(experiences, nextRowId)
      && Stored(educations) && IdsBelow(educations, nextRowId)
    }

    ghost function View(): CandidateProfile
      reads this
    {
      ProfileOf(master, resumeText, createdAt, skills, experiences, educations)
    }

    constructor Create(d: Details)
      ensures id == d.id && updatedAt == d.updatedAt
      ensures Valid() && View() == Created(d)
      ensures master == d.master && resumeText.None? && createdAt == d.createdAt
      ensures |experiences| == |d.experiences| && |educations| == |d.educations|
    {
      var newSkills, newExperiences, newEducations := CreateChildren(d);
      id := d.id;
      master, resumeText, createdAt, updatedAt := d.master, None, d.createdAt, d.updatedAt;
      skills, experiences, educations := newSkills, newExperiences, newEducations;
      nextRowId := |d.experiences| + |d.educations|;
    }

    /** The update branch: master fields overwritten, children reconciled, pending rows flushed. */
    method Update(d: Details, now: int)
      requires Valid()
      modifies this
      ensures Valid() && View() == Replaced(old(View()), d) && updatedAt == now
      ensures master == d.master && resumeText == old(resumeText) && createdAt == old(createdAt)
      ensures Names(skills) == ToSet(d.skillNames)
      ensures SkillsKept(old(skills), d.skillNames, skills)
      ensures KeepsIdentity(old(experiences), old(nextRowId), experiences)
      ensures KeepsIdentity(old(educations), old(nextRowId), educations)
    {
      var synced := SynchronizeSkills(skills, d.skillNames);
      var newExperiences := ReconcileExperiences(experiences, nextRowId, d.experiences);
      var newEducations := ReconcileEducations(educations, nextRowId, d.educations);
      ghost var before := View();
      master, updatedAt := d.master, now;
      skills, experiences, educations := synced, newExperiences, newEducations;
      nextRowId := nextRowId + |experiences| + |educations|;
      ShowsReplacement(before, d);
    }

    lemma ShowsReplacement(before: CandidateProfile, d: Details)
      requires master == d.master && resumeText == before.resumeText && createdAt == before.createdAt
      requires Names(skills) == ToSet(d.skillNames)
      requires Shown(experiences, SeenExperience) == multiset(Pairs(Latest(d.experiences, OfferedExperience)))
      requires Shown(educations, SameDates) == multiset(Pairs(Latest(d.educations, SameDates)))
      ensures View() == Replaced(before, d)
    {
    }
  }

  method CreateChildren(d: Details)
    returns (skills: seq<SkillRow>, experiences: seq<ExperienceRow>, educations: seq<EducationRow>)
    ensures |experiences| == |d.experiences| && |educations| == |d.educations|
    ensures Stored(experiences) && IdsBelow(experiences, |d.experiences| + |d.educations|)
    ensures Stored(educations) && IdsBelow(educations, |d.experiences| + |d.educations|)
    ensures Names(skills) == ToSet(d.skillNames)
    ensures Shown(experiences, SeenExperience) == Offered(d.experiences, OfferedExperience)
    ensures Shown(educations, SameDates) == Offered(d.educations, SameDates)
  {
    skills := Map(d.skillNames, NewSkill);
    NewSkillNames(d.skillNames);
    experiences := CreateExperiences(d.experiences);
    educations := CreateEducations(d.educations);
  }

  method CreateExperiences(items: seq<ExperienceItem>) returns (after: seq<ExperienceRow>)
    ensures |after| == |items| && Stored(after) && IdsBelow(after, |items|)
    ensures Shown(after, SeenExperience) == Offered(items, OfferedExperience)
  {
    var rows: seq<ExperienceRow> := Map(items, NewRow(CreateExperience));
    ExperiencesShowPayload();
    NewRowsShowItems(items, CreateExperience, SeenExperience, OfferedExperience);
    FlushedRows(rows, 0, SeenExperience);
    after := Flushed(rows, 0);
  }

  method CreateEducations(items: seq<EducationItem>) returns (after: seq<EducationRow>)
    ensures |after| == |items| && Stored(after) && IdsBelow(after, |items|)
    ensures Shown(after, SameDates) == Offered(items, SameDates)
  {
    var rows: seq<EducationRow> := Map(items, NewRow(SameDates));
    NewRowsShowItems(items, SameDates, SameDates, SameDates);
    FlushedRows(rows, 0, SameDates);
    after := Flushed(rows, 0);
  }

  method ReconcileExperiences(before: seq<ExperienceRow>, next: RowId, items: seq<ExperienceItem>)
    returns (after: seq<ExperienceRow>)
    requires Stored(before) && IdsBelow(before, next)
    ensures Stored(after) && IdsBelow(after, next + |after|)
    ensures Shown(after, SeenExperience) == multiset(Pairs(Latest(items, OfferedExperience)))
    ensures KeepsIdentity(before, next, after)
  {
    ExperiencesShowPayload();
    var rows := Reconcile(before, items, MergeExperience, CreateExperience, SeenExperience, OfferedExperience);
    UpdateRows(before, next, items, rows, SeenExperience, OfferedExperience);
    after := Flushed(rows, next);
  }

  method ReconcileEducations(before: seq<EducationRow>, next: RowId, items: seq<EducationItem>)
    returns (after: seq<EducationRow>)
    requires Stored(before) && IdsBelow(before, next)
    ensures Stored(after) && IdsBelow(after, next + |after|)
    ensures Shown(after, SameDates) == multiset(Pairs(Latest(items, SameDates)))
    ensures KeepsIdentity(before, next, after)
  {
    var rows := Reconcile(before, items, MergeDates, SameDates, SameDates, SameDates);
    UpdateRows(before, next, items, rows, SameDates, SameDates);
    after := Flushed(rows, next);
  }

  lemma UpdateRows<K(!new), D(!new), P(!new), A(!new)>(
    before: seq<Row<K, D>>, next: RowId, items: seq<Item<K, P>>, rows: seq<Row<K, D>>, seen: D -> A, offered: P -> A)
    requires Stored(before) && IdsBelow(before, next)
    requires Reconciled(before, Latest(items, offered), rows, seen)
    ensures Stored(Flushed(rows, next)) && IdsBelow(Flushed(rows, next), next + |rows|)
    ensures Shown(Flushed(rows, next), seen) == multiset(Pairs(Latest(items, offered)))
    ensures KeepsIdentity(before, next, Flushed(rows, next))
  {
    ReconciledIdsBelow(before, next, Latest(items, offered), rows, seen);
    FlushedRows(rows, next, seen);
    FlushKeepsIdentity(before, next, Latest(items, offered), rows, seen);
  }

  /** A row made from an incoming item, not yet flushed. */
  function NewRow<K, D, P>(create: P -> D): Item<K, P> -> Row<K, D> {
    (i: Item<K, P>) => Row(None, i.key, create(i.payload))
  }

  lemma {:induction false} NewRowsShowItems<K(!new), D(!new), P(!new), A(!new)>(
    items: seq<Item<K, P>>, create: P -> D, seen: D -> A, offered: P -> A)
    requires forall p :: seen(create(p)) == offered(p)
    ensures Shown(Map(items, NewRow(create)), seen) == Offered(items, offered)
  {
    if items != [] {
      var n := |items| - 1;
      NewRowsShowItems(items[..n], create, seen, offered);
      var rows: seq<Row<K, D>> := Map(items, NewRow(create));
      assert rows[..n] == Map(items[..n], NewRow(create));
    }
  }

  // ================================================================ upsert

  ghost function Upserted(s: map<CandidateId, CandidateProfile>, d: Details): map<CandidateId, CandidateProfile> {
    s[d.id := if d.id in s then Replaced(s[d.id], d) else Created(d)]
  }

  /** Upserting against the row the lookup by id found, if it found one: that row is updated in place, or a new
      one is made. Either way the table, seen as profiles by id, becomes `Upserted`. */
  method Upsert(existing: Candidate?, d: Details, now: int) returns (c: Candidate)
    requires existing != null ==> existing.id == d.id && existing.Valid()
    modifies existing
    ensures c.id == d.id && c.Valid()
    ensures existing != null ==> c == existing && c.View() == Replaced(old(existing.View()), d) && c.updatedAt == now
    ensures existing == null ==> fresh(c) && c.View() == Created(d) && c.updatedAt == d.updatedAt
  {
    if existing != null {
      existing.Update(d, now);
      c := existing;
    } else {
      c := new Candidate.Create(d);
    }
  }

  // ================================================================ what a profile then shows

  function ShownAs(p: ExperiencePayload): ShownExperience {
    ShownExperience(p.description, p.endDate, p.isCurrent, ToSet(p.skillNames))
  }

  /** After an update a candidate shows the delivered master data and skills, and under each delivered key the experience
      and the education delivered last, once; its resume text and when it was made stay. */
  lemma {:induction false} ReplacedShows(before: CandidateProfile, d: Details)
    ensures var after := Replaced(before, d);
      && after.master == d.master && after.skills == ToSet(d.skillNames)
      && after.resumeText == before.resumeText && after.createdAt == before.createdAt
      && (forall k, shown :: after.experiences[(k, shown)] <= 1)
      && (forall k, shown :: (k, shown) in after.experiences <==>
            exists i :: IsLast(d.experiences, i) && d.experiences[i].key == k && ShownAs(d.experiences[i].payload) == shown)
      && (forall k, dates :: after.educations[(k, dates)] <= 1)
      && (forall k, dates :: (k, dates) in after.educations <==>
            exists i :: IsLast(d.educations, i) && d.educations[i].key == k && d.educations[i].payload == dates)
  {
    forall k, shown ensures (k, shown) in Pairs(Latest(d.experiences, OfferedExperience)) <==>
      exists i :: IsLast(d.experiences, i) && d.experiences[i].key == k && ShownAs(d.experiences[i].payload) == shown
    {
      LatestIff(d.experiences, OfferedExperience, k, shown);
    }
    forall k, dates ensures (k, dates) in Pairs(Latest(d.educations, SameDates)) <==>
      exists i :: IsLast(d.educations, i) && d.educations[i].key == k && d.educations[i].payload == dates
    {
      LatestIff(d.educations, SameDates, k, dates);
    }
  }

  /** A new candidate shows everything delivered, item by item, and was made when the delivery says. */
  lemma {:induction false} CreatedShows(d: Details)
    ensures var after := Created(d);
      && after.master == d.master && after.skills == ToSet(d.skillNames)
      && after.resumeText.None? && after.createdAt == d.createdAt
      && |after.experiences| == |d.experiences| && |after.educations| == |d.educations|
      && (forall k, shown :: (k, shown) in after.experiences <==>
            exists i :: 0 <= i < |d.experiences| && d.experiences[i].key == k && ShownAs(d.experiences[i].payload) == shown)
      && (forall k, dates :: (k, dates) in after.educations <==>
            exists i :: 0 <= i < |d.educations| && d.educations[i].key == k && d.educations[i].payload == dates)
  {
    OfferedSize(d.experiences, OfferedExperience);
    OfferedSize(d.educations, SameDates);
    forall k, shown ensures (k, shown) in Offered(d.experiences, OfferedExperience) <==>
      exists i :: 0 <= i < |d.experiences| && d.experiences[i].key == k && ShownAs(d.experiences[i].payload) == shown
    {
      OfferedIff(d.experiences, OfferedExperience, k, shown);
    }
    forall k, dates ensures (k, dates) in Offered(d.educations, SameDates) <==>
      exists i :: 0 <= i < |d.educations| && d.educations[i].key == k && d.educations[i].payload == dates
    {
      OfferedIff(d.educations, SameDates, k, dates);
    }
  }

  // ================================================================ idempotence

  /** Whatever was stored, two updates in a row show exactly what one shows. */
  lemma {:induction false} UpdateIsIdempotent(before: CandidateProfile, d: Details)
    ensures Replaced(Replaced(before, d), d) == Replaced(before, d)
  {
  }

  lemma CreateThenUpdateIff(d: Details)
    ensures Replaced(Created(d), d) == Created(d) <==>
            NoDup(Map(d.experiences, KeyOf)) && NoDup(Map(d.educations, KeyOf))
  {
    OfferedIsLatestIff(d.experiences, OfferedExperience);
    OfferedIsLatestIff(d.educations, SameDates);
  }

  /** Upserting is documented as idempotent. It is, on every store, exactly when the candidate was already
      there or its incoming experience keys and its education keys are pairwise distinct: the create branch
      keeps repeated keys that the next upsert merges. */
  lemma UpsertIsIdempotentIff(s: map<CandidateId, CandidateProfile>, d: Details)
    ensures Upserted(Upserted(s, d), d) == Upserted(s, d) <==>
            d.id in s || (NoDup(Map(d.experiences, KeyOf)) && NoDup(Map(d.educations, KeyOf)))
  {
    var once := Upserted(s, d);
    UpdateTwice(once, d);
    if d.id in s {
      UpdateIsIdempotent(s[d.id], d);
    } else {
      CreateThenUpdateIff(d);
    }
  }

  /** A profile whose one experience is delivered twice. */
  function DeliveredTwice(): Details {
    var experience := Item(ExperienceKey(Some("Acme"), "Engineer", None), ExperiencePayload(None, None, true, []));
    Details(1, Master("Ada", None, None, None, None, None, 12, "postjobfree"), 0, 0, [], [experience, experience], [])
  }

  /** On a store without the candidate the first upsert keeps both, the second merges them. */
  lemma {:induction false} RepeatedKeyIsMerged()
    ensures var d := DeliveredTwice(); Upserted(Upserted(map[], d), d) != Upserted(map[], d)
  {
    var d := DeliveredTwice();
    UpsertIsIdempotentIff(map[], d);
    assert Map(d.experiences, KeyOf)[0] == Map(d.experiences, KeyOf)[1];
  }

  lemma UpdateTwice(once: map<CandidateId, CandidateProfile>, d: Details)
    requires d.id in once
    ensures Upserted(once, d) == once <==> Replaced(once[d.id], d) == once[d.id]
  {
    if Replaced(once[d.id], d) == once[d.id] {
      assert once[d.id := once[d.id]] == once;
    } else {
      assert Upserted(once, d)[d.id] != once[d.id];
    }
  }
}
