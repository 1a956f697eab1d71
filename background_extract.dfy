/**
 * The extractors of extension/background.js, the variant that moves to
 * the profile's skills page: experience and education read from the main
 * page's entity items only, and the skills read from the details page,
 * one per name, at most `MAX_SKILLS`.
 */
module BackgroundExtract {
  import opened Wrappers
  import opened Text
  import opened Seqs

  const MAX_EXPERIENCES: nat := 50
  const MAX_SKILLS: nat := 50
  const MAX_EDUCATION: nat := 10

  // ---------- experience and education ----------

  /** The raw text of the elements one experience entity's selectors find. */
  datatype ExperienceNode = ExperienceNode(
    titleEl: Option<string>,
    companyEl: Option<string>,
    durationEl: Option<string>,
    locationEl: Option<string>,
    locationRowEl: Option<string>)

  datatype Experience = Experience(
    title: Option<string>,
    company: Option<string>,
    duration: Option<string>,
    location: Option<string>)

  /** The company: the trimmed text before the first `·` when the line holds one, otherwise the whole line. */
  function CompanyOf(line: Option<string>): (r: Option<string>)
    ensures r.Some? <==> line.Some?
    ensures line.Some? && '·' !in line.value ==> r == line
    ensures line.Some? && '·' in line.value ==> IsTrimmed(r.value) && '·' !in r.value
  {
    if line.Some? && '·' in line.value then
      var head := Split(line.value, '·')[0];
      SplitThenJoin(line.value, '·');
      TrimAllParts([head], '·');
      assert TrimAll([head])[0] == Trim(head);
      Some(Trim(head))
    else line
  }

  /** The company of `a · b` is `a`, trimmed. */
  lemma CompanyBeforeDot(a: string, b: string)
    requires '·' !in a
    ensures CompanyOf(Some(a + "·" + b)) == Some(Trim(a))
  {
    SplitAfter(a, b, '·');
    assert a + "·" + b == a + ['·'] + b;
    assert (a + "·" + b)[|a|] == '·';
  }

  /** One experience entity's record. */
  function ExperienceOf(n: ExperienceNode): (e: Experience)
    ensures e.title == TextContent(n.titleEl)
    ensures e.company == CompanyOf(TextContent(n.companyEl))
    ensures e.duration == TextContent(n.durationEl)
    ensures Truthy(TextContent(n.locationEl)) ==> e.location == TextContent(n.locationEl)
    ensures !Truthy(TextContent(n.locationEl)) ==> e.location == TextContent(n.locationRowEl)
  {
    Experience(
      TextContent(n.titleEl),
      CompanyOf(TextContent(n.companyEl)),
      TextContent(n.durationEl),
      Or(TextContent(n.locationEl), TextContent(n.locationRowEl)))
  }

  /** `extractExperiences`: every entity read, then the first 50 kept; no section, no experiences. */
  function ExtractExperiences(section: Option<seq<ExperienceNode>>): (r: seq<Experience>)
    ensures section.None? ==> r == []
    ensures |r| <= MAX_EXPERIENCES
    ensures section.Some? ==>
      |r| == (if |section.value| <= MAX_EXPERIENCES then |section.value| else MAX_EXPERIENCES) &&
      forall i :: 0 <= i < |r| ==> r[i] == ExperienceOf(section.value[i])
  {
    if section.None? then []
    else
      var items := section.value;
      var all := seq(|items|, i requires 0 <= i < |items| => ExperienceOf(items[i]));
      Take(all, MAX_EXPERIENCES)
  }

  datatype EducationNode = EducationNode(schoolEl: Option<string>, degreeEl: Option<string>)

  datatype Education = Education(school: Option<string>, degree: Option<string>)

  /** `extractEducation`: school and degree of every entity, then the first 10 kept; no section, no education. */
  function ExtractEducation(section: Option<seq<EducationNode>>): (r: seq<Education>)
    ensures section.None? ==> r == []
    ensures |r| <= MAX_EDUCATION
    ensures section.Some? ==>
      |r| == (if |section.value| <= MAX_EDUCATION then |section.value| else MAX_EDUCATION) &&
      forall i :: 0 <= i < |r| ==>
        r[i] == Education(TextContent(section.value[i].schoolEl), TextContent(section.value[i].degreeEl))
  {
    if section.None? then []
    else
      var items := section.value;
      var all := seq(|items|, i requires 0 <= i < |items| =>
        Education(TextContent(items[i].schoolEl), TextContent(items[i].degreeEl)));
      Take(all, MAX_EDUCATION)
  }

  // ---------- details-page skills ----------

  /** `/onay|endorse/i`, `/assessment|değerlendirme/i` and `/passed|geçti/i` as predicates on a caption. */
  datatype Patterns = Patterns(endorse: string -> bool, assessment: string -> bool, passed: string -> bool)

  /** A skill entity: the raw text of its name element (`None` when it has none) and of its sub-component items. */
  datatype SkillItem = SkillItem(nameEl: Option<string>, subEls: seq<string>)

  datatype Skill = Skill(name: string, endorsements: nat, passedAssessment: bool)

  /** The first run of digits of a caption as a decimal number, or 0 when it has none. */
  function EndorsementCount(caption: string): (r: nat)
    ensures NoDigits(caption) ==> r == 0
  {
    match FirstDigitRun(caption)
    case None => 0
    case Some(d) => DecimalValue(d)
  }

  /** A caption `pre d rest` with a digit-free `pre` counts the number `d` denotes, whatever digits `rest` holds after a non-digit. */
  lemma EndorsementCountOfRun(pre: string, d: string, rest: string)
    requires NoDigits(pre) && d != [] && AllDigits(d) && (rest == [] || !IsDigit(rest[0]))
    ensures EndorsementCount(pre + d + rest) == DecimalValue(d)
  {
    FirstDigitRunAfter(pre, d, rest);
  }

  /** The endorsements of a skill: counted from the first caption that mentions endorsements, else 0. */
  function EndorsementsOf(texts: seq<string>, endorse: string -> bool): (r: nat)
    ensures (forall i :: 0 <= i < |texts| ==> !endorse(texts[i])) ==> r == 0
    ensures (exists i :: 0 <= i < |texts| && endorse(texts[i])) ==>
      exists i :: 0 <= i < |texts| && endorse(texts[i]) && r == EndorsementCount(texts[i]) &&
                  (forall j :: 0 <= j < i ==> !endorse(texts[j]))
  {
    var hits := Filter(texts, endorse);
    FilterHead(texts, endorse);
    if hits != [] && hits[0] != "" then EndorsementCount(hits[0]) else 0
  }

  /** Some caption mentions an assessment and says it was passed. */
  predicate PassedAssessment(texts: seq<string>, pats: Patterns) {
    exists i :: 0 <= i < |texts| && pats.assessment(texts[i]) && pats.passed(texts[i])
  }

  predicate HasNameElement(item: SkillItem) {
    item.nameEl.Some?
  }

  /** One named skill entity's record. */
  function SkillOf(item: SkillItem, pats: Patterns): (s: Skill)
    requires HasNameElement(item)
    ensures IsNormal(s.name)
  {
    var texts := PresentTexts(item.subEls);
    Skill(Normalize(item.nameEl.value), EndorsementsOf(texts, pats.endorse), PassedAssessment(texts, pats))
  }

  /** `items.map(...).filter(Boolean)`: the skills of the entities that have a name element, in order. */
  function NamedSkills(items: seq<SkillItem>, pats: Patterns): (r: seq<Skill>)
    ensures |r| <= |items|
    ensures var named := Filter(items, HasNameElement);
      |r| == |named| && forall i :: 0 <= i < |r| ==> r[i] == SkillOf(named[i], pats)
  {
    var named := Filter(items, HasNameElement);
    seq(|named|, i requires 0 <= i < |named| => SkillOf(named[i], pats))
  }

  function NameOf(s: Skill): string {
    s.name
  }

  /** What `extractSkillsFromDetailsPage` returns: the first skill per name, then the first 50 of those. */
  function DetailsPageSkills(items: seq<SkillItem>, pats: Patterns): seq<Skill> {
    Take(Firsts(NamedSkills(items, pats), NameOf), MAX_SKILLS)
  }

  /** The details-page skills are pairwise distinct by name, at most 50, in input order, and each is the first with its name. */
  lemma DetailsPageSkillsShape(items: seq<SkillItem>, pats: Patterns)
    ensures |DetailsPageSkills(items, pats)| <= MAX_SKILLS
    ensures forall i, j :: 0 <= i < j < |DetailsPageSkills(items, pats)| ==>
      DetailsPageSkills(items, pats)[i].name != DetailsPageSkills(items, pats)[j].name
    ensures IsSubseq(DetailsPageSkills(items, pats), NamedSkills(items, pats))
  {
    var xs := NamedSkills(items, pats);
    var f := Firsts(xs, NameOf);
    var d := DetailsPageSkills(items, pats);
    FirstsDistinct(xs, NameOf);
    assert forall i :: 0 <= i < |d| ==> d[i] == f[i];
    forall i, j | 0 <= i < j < |d|
      ensures d[i].name != d[j].name
    {
      assert NameOf(f[i]) != NameOf(f[j]);
    }
    FirstsIsSubseq(xs, NameOf);
    PrefixIsSubseq(d, f);
    SubseqTrans(d, f, xs);
  }

  /** Each details-page skill is the first named skill with its name. */
  lemma DetailsPageSkillIsFirst(items: seq<SkillItem>, pats: Patterns, k: nat)
    requires k < |DetailsPageSkills(items, pats)|
    ensures exists i :: IsFirstAt(NamedSkills(items, pats), NameOf, i) &&
                        NamedSkills(items, pats)[i] == DetailsPageSkills(items, pats)[k]
  {
    FirstsAreFirst(NamedSkills(items, pats), NameOf, k);
  }

  /** Below the cap, every name survives. */
  lemma DetailsPageSkillsKeepEveryName(items: seq<SkillItem>, pats: Patterns)
    requires |Firsts(NamedSkills(items, pats), NameOf)| <= MAX_SKILLS
    ensures KeySet(DetailsPageSkills(items, pats), NameOf) == KeySet(NamedSkills(items, pats), NameOf)
  {
    FirstsKeySet(NamedSkills(items, pats), NameOf);
  }

  /** The `seen`-set `forEach`: a skill is kept when its name has not been seen. */
  method KeepFirstPerName(skills: seq<Skill>) returns (unique: seq<Skill>)
    ensures unique == Firsts(skills, NameOf)
  {
    unique := [];
    var seen: set<string> := {};
    for i := 0 to |skills|
      invariant unique == Firsts(skills[..i], NameOf)
      invariant seen == KeySet(skills[..i], NameOf)
    {
      var s := skills[i];
      assert skills[..i + 1] == skills[..i] + [s];
      FirstsSnoc(skills[..i], s, NameOf);
      KeySetSnoc(skills[..i], s, NameOf);
      if s.name !in seen {
        seen := seen + {s.name};
        unique := unique + [s];
      }
    }
    assert skills[..|skills|] == skills;
  }

  /**
   * `extractSkillsFromDetailsPage`: the named entities' skills, the first
   * skill per name, then the first 50 of those.
   */
  method ExtractSkillsFromDetailsPage(items: seq<SkillItem>, pats: Patterns) returns (out: seq<Skill>)
    ensures out == DetailsPageSkills(items, pats)
  {
    var skills := NamedSkills(items, pats);
    var unique := KeepFirstPerName(skills);
    out := Take(unique, MAX_SKILLS);
  }
}
