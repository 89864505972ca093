/** The points a candidate gets (server/src/control/agents/scoring_agent.py), over exact reals: skills, experience,
    recency, and two figures the evaluator delivers, added up and rounded to cents. */
module ScoreArithmetic {
  import opened Common

  // ================================================================ skill weights

  /** Where the last bar of an entry is. */
  function LastBar(s: string): (r: Option<nat>)
    ensures r.Some? ==> r.value < |s| && s[r.value] == '|' && forall i :: r.value < i < |s| ==> s[i] != '|'
    ensures r.None? ==> forall i :: 0 <= i < |s| ==> s[i] != '|'
  {
    if s == "" then None
    else if s[|s| - 1] == '|' then Some(|s| - 1)
    else LastBar(s[..|s| - 1])
  }

  function Clamp(w: real): (r: real)
    ensures 0.0 <= r <= 1.0
    ensures 0.0 <= w <= 1.0 ==> r == w
    ensures w > 1.0 ==> r == 1.0
    ensures w < 0.0 ==> r == 0.0
  {
    if w > 1.0 then 1.0 else if w < 0.0 then 0.0 else w
  }

  datatype Skill = Skill(name: string, weight: real)

  /** An entry is a name with an optional weight behind its last bar; `number` reads a weight, where it can. */
  function ParseSkillWeight(entry: string, number: string -> Option<real>): (r: Skill)
    ensures 0.0 <= r.weight <= 1.0
  {
    match LastBar(entry)
    case None => Skill(entry, 1.0)
    case Some(bar) =>
      match number(entry[bar + 1..])
      case None => Skill(entry, 1.0)
      case Some(w) => Skill(entry[..bar], Clamp(w))
  }

  /** Writing a weight behind a name and parsing the entry gives both back, whatever bars the name contains. */
  lemma ParseUndoesWriting(name: string, written: string, number: string -> Option<real>)
    requires '|' !in written && number(written).Some?
    ensures ParseSkillWeight(name + "|" + written, number) == Skill(name, Clamp(number(written).value))
  {
    var entry := name + "|" + written;
    var bar := LastBar(entry);
    assert entry[|name|] == '|';
    assert forall i :: |name| < i < |entry| ==> entry[i] == written[i - |name| - 1];
    assert entry[bar.value + 1..] == written && entry[..bar.value] == name;
  }

  // ================================================================ skills

  function TotalWeight(entries: seq<string>, number: string -> Option<real>): (r: real)
    ensures 0.0 <= r <= |entries| as real
  {
    if entries == [] then 0.0
    else TotalWeight(entries[..|entries| - 1], number) + ParseSkillWeight(entries[|entries| - 1], number).weight
  }

  function Worth(total: real, wanted: real, points: real): real
    requires wanted > 0.0
  {
    total / wanted * points
  }

  /** The matched skills' weight as a share of the wanted ones, in points. */
  function SkillPart(matched: seq<string>, wanted: nat, points: real, number: string -> Option<real>): real {
    if wanted == 0 then 0.0 else Worth(TotalWeight(matched, number), wanted as real, points)
  }

  function SkillsScore(
    mandatoryMatched: seq<string>, optionalMatched: seq<string>, mandatory: nat, optional: nat,
    number: string -> Option<real>): real
  {
    SkillPart(mandatoryMatched, mandatory, 28.0, number) + SkillPart(optionalMatched, optional, 12.0, number)
  }

  lemma QuotientCompares(x: real, d: real)
    requires d > 0.0
    ensures x / d <= 1.0 <==> x <= d
    ensures x / d >= 1.0 <==> x >= d
    ensures x / d >= 0.0 <==> x >= 0.0
  {
    var q := x / d;
    assert q * d == x;
    ProductCompares(q, d);
    assert q >= 0.0 <==> q * d >= 0.0;
  }

  lemma ProductCompares(q: real, d: real)
    requires d > 0.0
    ensures q * d <= d <==> q <= 1.0
    ensures q * d >= d <==> q >= 1.0
    ensures q * d >= 0.0 <==> q >= 0.0
  {
    assert q * d - d == (q - 1.0) * d;
  }

  /** A part is worth its full points exactly when the matches weigh as much as the wanted skills, and exceeds them
      exactly when they weigh more; with no more matches than wanted skills it never does. */
  lemma {:induction false} SkillPartBounds(matched: seq<string>, wanted: nat, points: real, number: string -> Option<real>)
    requires wanted > 0 && points > 0.0
    ensures SkillPart(matched, wanted, points, number) >= 0.0
    ensures SkillPart(matched, wanted, points, number) >= points <==> TotalWeight(matched, number) >= wanted as real
    ensures SkillPart(matched, wanted, points, number) <= points <==> TotalWeight(matched, number) <= wanted as real
    ensures |matched| <= wanted ==> SkillPart(matched, wanted, points, number) <= points
  {
    WorthCompares(TotalWeight(matched, number), wanted as real, points);
  }

  /** All wanted skills matched at full weight are worth 28 points for the mandatory and 12 for the optional ones, and
      in general each matched weight counts by its share of the wanted number. */
  lemma {:induction false} SkillPoints(
    mandatoryMatched: seq<string>, optionalMatched: seq<string>, mandatory: nat, optional: nat,
    number: string -> Option<real>)
    requires mandatory > 0 && optional > 0
    ensures SkillsScore(mandatoryMatched, optionalMatched, mandatory, optional, number) ==
            28.0 * TotalWeight(mandatoryMatched, number) / mandatory as real
            + 12.0 * TotalWeight(optionalMatched, number) / optional as real
    ensures SkillsScore(mandatoryMatched, [], mandatory, 0, number) ==
            28.0 * TotalWeight(mandatoryMatched, number) / mandatory as real
    ensures SkillsScore([], optionalMatched, 0, optional, number) ==
            12.0 * TotalWeight(optionalMatched, number) / optional as real
  {
    WorthIsShare(TotalWeight(mandatoryMatched, number), mandatory as real, 28.0);
    WorthIsShare(TotalWeight(optionalMatched, number), optional as real, 12.0);
  }

  lemma WorthIsShare(total: real, wanted: real, points: real)
    requires wanted > 0.0
    ensures Worth(total, wanted, points) == points * total / wanted
  {
    var q := total / wanted;
    assert q * wanted == total;
    assert q * points * wanted == points * total;
    assert (q * points * wanted) / wanted == q * points;
  }

  lemma WorthCompares(total: real, wanted: real, points: real)
    requires wanted > 0.0 && points > 0.0
    ensures Worth(total, wanted, points) >= points <==> total >= wanted
    ensures Worth(total, wanted, points) <= points <==> total <= wanted
    ensures Worth(total, wanted, points) >= 0.0 <==> total >= 0.0
  {
    QuotientCompares(total, wanted);
    ProductCompares(total / wanted, points);
  }

  // ================================================================ experience

  function AtLeastOne(years: nat): real {
    if years > 1 then years as real else 1.0
  }

  /** Points for years of experience against the wanted range. */
  function ExperienceScore(months: int, minYears: nat, maxYears: Option<nat>): real {
    var years := months as real / 12.0;
    if years < minYears as real then
      var ratio := years / AtLeastOne(minYears);
      if ratio * 25.0 > 0.0 then ratio * 25.0 else 0.0
    else if maxYears.None? then 25.0
    else if years <= maxYears.value as real then 25.0
    else
      var excess := years - maxYears.value as real;
      var decay := if excess * 0.5 < 10.0 then excess * 0.5 else 10.0;
      if 25.0 - decay > 15.0 then 25.0 - decay else 15.0
  }

  lemma {:induction false} ExperienceWithin(months: int, minYears: nat, maxYears: Option<nat>)
    ensures 0.0 <= ExperienceScore(months, minYears, maxYears) <= 25.0
    ensures months as real / 12.0 >= minYears as real ==> ExperienceScore(months, minYears, maxYears) >= 15.0
  {
    QuotientCompares(months as real / 12.0, AtLeastOne(minYears));
  }

  /** The full 25 points go exactly to the wanted range; outside it the score is strictly lower. */
  lemma {:induction false} ExperiencePlateauIff(months: int, minYears: nat, maxYears: Option<nat>)
    ensures ExperienceScore(months, minYears, maxYears) == 25.0 <==>
            minYears as real <= months as real / 12.0
            && (maxYears.Some? ==> months as real / 12.0 <= maxYears.value as real)
  {
    QuotientCompares(months as real / 12.0, AtLeastOne(minYears));
  }

  /** Up to the wanted maximum more experience never costs points; past it, it never earns any. */
  lemma {:induction false} ExperienceRisesThenFalls(fewer: int, more: int, minYears: nat, maxYears: Option<nat>)
    requires fewer <= more
    ensures maxYears.None? || more as real / 12.0 <= maxYears.value as real ==>
              ExperienceScore(fewer, minYears, maxYears) <= ExperienceScore(more, minYears, maxYears)
    ensures maxYears.Some? && minYears <= maxYears.value && maxYears.value as real <= fewer as real / 12.0 ==>
              ExperienceScore(more, minYears, maxYears) <= ExperienceScore(fewer, minYears, maxYears)
  {
    var a, b := fewer as real / 12.0, more as real / 12.0;
    assert a <= b;
    ExperienceWithin(fewer, minYears, maxYears);
    QuotientOrder(a, b, AtLeastOne(minYears));
  }

  /** Below the wanted minimum the score is the share of it that was reached. Past the maximum every year costs half a
      point, up to twenty years; from then on it stays at 15. */
  lemma {:induction false} ExperienceSlopes(months: int, minYears: nat, maxYears: Option<nat>)
    ensures 0 <= months < 12 * minYears ==>
              ExperienceScore(months, minYears, maxYears) * (12 * minYears) as real == 25.0 * months as real
    ensures months < 0 ==> ExperienceScore(months, minYears, maxYears) == 0.0
    ensures maxYears.Some? && minYears <= maxYears.value && 12 * maxYears.value <= months <= 12 * (maxYears.value + 20) ==>
              ExperienceScore(months, minYears, maxYears) == 25.0 - (months - 12 * maxYears.value) as real / 24.0
    ensures maxYears.Some? && minYears <= maxYears.value && 12 * (maxYears.value + 20) <= months ==>
              ExperienceScore(months, minYears, maxYears) == 15.0
  {
    var years, least := months as real / 12.0, AtLeastOne(minYears);
    QuotientCompares(years, least);
    assert years / least * least == years;
  }

  lemma QuotientOrder(a: real, b: real, d: real)
    requires a <= b && d > 0.0
    ensures a / d <= b / d
  {
    QuotientCompares(b - a, d);
    assert (b - a) / d == b / d - a / d;
  }

  // ================================================================ recency

  /** A position held: whether it is current, and the day it ended, if recorded. */
  datatype Position = Position(isCurrent: bool, endDay: Option<int>)

  function LatestEnd(positions: seq<Position>): (r: Option<int>)
    ensures r.None? <==> forall i :: 0 <= i < |positions| ==> positions[i].endDay.None?
    ensures r.Some? ==> exists i :: 0 <= i < |positions| && positions[i].endDay == r
    ensures r.Some? ==> forall i :: 0 <= i < |positions| && positions[i].endDay.Some? ==> positions[i].endDay.value <= r.value
  {
    if positions == [] then None
    else
      var n := |positions| - 1;
      var front := LatestEnd(positions[..n]);
      assert forall i :: 0 <= i < n ==> positions[..n][i] == positions[i];
      if positions[n].endDay.None? || (front.Some? && front.value > positions[n].endDay.value) then front
      else positions[n].endDay
  }

  function RecencyScore(positions: seq<Position>, today: int): real {
    if positions == [] then 0.0
    else if exists i :: 0 <= i < |positions| && positions[i].isCurrent then 15.0
    else
      match LatestEnd(positions)
      case None => 5.0
      case Some(end) => RecencyTier((today - end) as real / 365.0)
  }

  function RecencyTier(yearsSince: real): real {
    if yearsSince <= 1.0 then 13.5
    else if yearsSince <= 2.0 then 11.25
    else if yearsSince <= 3.0 then 8.25
    else if yearsSince <= 4.0 then 5.25
    else 3.5
  }

  lemma {:induction false} RecencyWithin(positions: seq<Position>, today: int)
    ensures 0.0 <= RecencyScore(positions, today) <= 15.0
    ensures RecencyScore(positions, today) == 15.0 <==> exists i :: 0 <= i < |positions| && positions[i].isCurrent
    ensures RecencyScore(positions, today) == 0.0 <==> positions == []
  {
  }

  /** The steps in full: a current position, then by the years since the latest end, 5 points without any date. */
  lemma {:induction false} RecencySteps(positions: seq<Position>, today: int)
    requires positions != []
    ensures var score, current := RecencyScore(positions, today), exists i :: 0 <= i < |positions| && positions[i].isCurrent;
      && (current ==> score == 15.0)
      && (!current && LatestEnd(positions).None? ==> score == 5.0)
      && (!current && LatestEnd(positions).Some? ==>
            var days := today - LatestEnd(positions).value;
            && (score == 13.5 <==> days <= 365)
            && (score == 11.25 <==> 365 < days <= 730)
            && (score == 8.25 <==> 730 < days <= 1095)
            && (score == 5.25 <==> 1095 < days <= 1460)
            && (score == 3.5 <==> 1460 < days))
  {
    if LatestEnd(positions).Some? {
      YearsOfDays(today - LatestEnd(positions).value);
    }
  }

  lemma YearsOfDays(days: int)
    ensures (days as real / 365.0 <= 1.0 <==> days <= 365) && (days as real / 365.0 <= 2.0 <==> days <= 730)
    ensures (days as real / 365.0 <= 3.0 <==> days <= 1095) && (days as real / 365.0 <= 4.0 <==> days <= 1460)
  {
  }

  /** Time passing, or an earlier last day, never raises the score of a history without a current position. */
  lemma {:induction false} RecencyFades(later: seq<Position>, earlier: seq<Position>, today: int, tomorrow: int)
    requires today <= tomorrow
    requires LatestEnd(later).Some? && LatestEnd(earlier).Some? && LatestEnd(earlier).value <= LatestEnd(later).value
    requires forall i :: 0 <= i < |earlier| ==> !earlier[i].isCurrent
    ensures RecencyScore(earlier, tomorrow) <= RecencyScore(later, today)
  {
    var a, b := (tomorrow - LatestEnd(earlier).value) as real / 365.0, (today - LatestEnd(later).value) as real / 365.0;
    assert a >= b;
  }

  // ================================================================ the sum

  /** Rounding to the nearest integer, ties to the even one. */
  function RoundHalfEven(x: real): int {
    var f := x.Floor;
    var d := x - f as real;
    if d < 0.5 then f else if d > 0.5 then f + 1 else if f % 2 == 0 then f else f + 1
  }

  function Cents(x: real): real {
    RoundHalfEven(x * 100.0) as real / 100.0
  }

  /** Rounding gives a nearest integer, and of two equally near ones the even one. */
  lemma {:induction false} RoundIsNearest(x: real)
    ensures -0.5 <= RoundHalfEven(x) as real - x <= 0.5
    ensures RoundHalfEven(x) as real - x in {-0.5, 0.5} ==> RoundHalfEven(x) % 2 == 0
  {
  }

  lemma RoundStaysWithin(x: real, low: int, high: int)
    requires low as real <= x <= high as real
    ensures low <= RoundHalfEven(x) <= high
  {
  }

  lemma CentsIsNear(x: real)
    ensures -0.005 <= Cents(x) - x <= 0.005
  {
    RoundIsNearest(x * 100.0);
  }

  datatype Parts = Parts(skills: real, experience: real, recency: real, roleFit: real, education: real)
  {
    function Sum(): real {
      skills + experience + recency + roleFit + education
    }

    function Rounded(): Parts {
      Parts(Cents(skills), Cents(experience), Cents(recency), Cents(roleFit), Cents(education))
    }
  }

  /** The parts of a candidate's score. */
  function PartsOf(
    mandatoryMatched: seq<string>, optionalMatched: seq<string>, mandatory: nat, optional: nat,
    number: string -> Option<real>, months: int, minYears: nat, maxYears: Option<nat>, positions: seq<Position>,
    today: int, roleFit: real, education: real): Parts
  {
    Parts(SkillsScore(mandatoryMatched, optionalMatched, mandatory, optional, number),
          ExperienceScore(months, minYears, maxYears), RecencyScore(positions, today), roleFit, education)
  }

  function FinalScore(p: Parts): real {
    Cents(p.Sum())
  }

  /** With the evaluator's figures in their ranges and no more matches than the job has skills, the final score lies
      between 0 and 100, rounding included. */
  lemma {:induction false} FinalScoreWithin(
    mandatoryMatched: seq<string>, optionalMatched: seq<string>, mandatory: nat, optional: nat,
    number: string -> Option<real>, months: int, minYears: nat, maxYears: Option<nat>, positions: seq<Position>,
    today: int, roleFit: real, education: real)
    requires |mandatoryMatched| <= mandatory && |optionalMatched| <= optional
    requires 0.0 <= roleFit <= 12.0 && 0.0 <= education <= 8.0
    ensures 0.0 <= FinalScore(PartsOf(mandatoryMatched, optionalMatched, mandatory, optional, number, months, minYears,
                                      maxYears, positions, today, roleFit, education)) <= 100.0
  {
    var p := PartsOf(mandatoryMatched, optionalMatched, mandatory, optional, number, months, minYears, maxYears,
                     positions, today, roleFit, education);
    if mandatory > 0 {
      SkillPartBounds(mandatoryMatched, mandatory, 28.0, number);
    }
    if optional > 0 {
      SkillPartBounds(optionalMatched, optional, 12.0, number);
    }
    ExperienceWithin(months, minYears, maxYears);
    RecencyWithin(positions, today);
    RoundStaysWithin(p.Sum() * 100.0, 0, 10000);
  }

  /** Out of range: three matches of full weight for one wanted skill make 84 points where 28 is the most, and a total
      above 100 with nothing else but the experience. */
  lemma {:induction false} TooManyMatchesPassHundred(number: string -> Option<real>)
    ensures FinalScore(PartsOf(["a", "b", "c"], [], 1, 0, number, 0, 0, None, [], 0, 0.0, 0.0)) == 109.0
  {
    var matched := ["a", "b", "c"];
    assert matched[..2] == ["a", "b"] && matched[..2][..1] == ["a"] && matched[..2][..1][..0] == [];
    FullWeight("a", number);
    FullWeight("b", number);
    FullWeight("c", number);
    assert TotalWeight(["a"], number) == 1.0 && TotalWeight(["a", "b"], number) == 2.0;
    assert TotalWeight(matched, number) == 3.0;
  }

  /** An entry without a bar weighs one. */
  lemma {:induction false} FullWeight(entry: string, number: string -> Option<real>)
    requires '|' !in entry
    ensures ParseSkillWeight(entry, number) == Skill(entry, 1.0)
  {
    assert LastBar(entry).None?;
  }

  /** The final score is the sum of the five parts to the nearest cent, and exactly that if it is a whole number of
      cents. */
  lemma {:induction false} FinalScoreIsTheSum(p: Parts)
    ensures var sum := p.skills + p.experience + p.recency + p.roleFit + p.education;
      && -0.005 <= FinalScore(p) - sum <= 0.005
      && (sum * 100.0 == (sum * 100.0).Floor as real ==> FinalScore(p) == sum)
  {
    CentsIsNear(p.skills + p.experience + p.recency + p.roleFit + p.education);
  }

  /** The displayed parts, each its own part to the nearest cent, add up to the displayed total within three cents. */
  lemma {:induction false} TotalNearRoundedParts(p: Parts)
    ensures var shown := p.Rounded();
      && -0.03 <= FinalScore(p) - (shown.skills + shown.experience + shown.recency + shown.roleFit + shown.education) <= 0.03
      && -0.005 <= shown.skills - p.skills <= 0.005 && -0.005 <= shown.experience - p.experience <= 0.005
      && -0.005 <= shown.recency - p.recency <= 0.005 && -0.005 <= shown.roleFit - p.roleFit <= 0.005
      && -0.005 <= shown.education - p.education <= 0.005
  {
    CentsIsNear(p.skills);
    CentsIsNear(p.experience);
    CentsIsNear(p.recency);
    CentsIsNear(p.roleFit);
    CentsIsNear(p.education);
    CentsIsNear(p.Sum());
  }
}
