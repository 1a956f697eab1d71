/**
 * The experience and education extractors of extension/content.js. A
 * profile section is found through its anchor (`#experience`,
 * `#education`); inside it the extractor prefers the current entity
 * markup and falls back to the older list items, caps the list, and
 * reads each item's fields. Every field is given here as the raw text of
 * the element its selector finds (`None` when nothing matches), so an
 * extractor is a function of that text.
 */
module ContentSections {
  import opened Wrappers
  import opened Text
  import opened Seqs

  const MAX_EXPERIENCES: nat := 5
  const MAX_EDUCATION: nat := 4

  /** The entity items and the older list items found inside a section. */
  datatype Section<T> = Section(primary: seq<T>, fallback: seq<T>)

  /** A present string field is in the form `textContent` returns. */
  predicate NormalField(o: Option<string>) {
    o.Some? ==> IsNormal(o.value)
  }

  // ---------- "Company · Full-time" ----------

  datatype CompanyLine = CompanyLine(company: string, employmentType: Option<string>)

  /**
   * Splits a company line holding `·` into the company (the first trimmed
   * segment, or the whole line when that segment is empty) and the
   * employment type (the other segments joined by ` · `, or `null`).
   */
  function SplitCompanyLine(line: string): (r: CompanyLine)
    ensures '·' !in line ==> r == CompanyLine(line, None)
    ensures line != "" ==> r.company != ""
    ensures IsNormal(line) ==> IsNormal(r.company)
    ensures r.employmentType.Some? ==> '·' in line && r.employmentType.value != ""
  {
    if '·' in line then
      var segs := Segments(line, '·');
      var rest := Join(segs[1..], " · ");
      FirstSegmentIsNormal(line, '·');
      CompanyLine(if segs[0] != "" then segs[0] else line, OrNull(Some(rest)))
    else CompanyLine(line, None)
  }

  /**
   * Any line holding `·`, written as its `·`-free pieces: the company is
   * the first piece trimmed (the whole line when that is empty) and the
   * employment type is the other pieces, trimmed and rejoined by ` · `.
   */
  lemma CompanyLineOfParts(raws: seq<string>)
    requires |raws| >= 2
    requires forall i :: 0 <= i < |raws| ==> '·' !in raws[i]
    ensures var line := Join(raws, "·");
      SplitCompanyLine(line) ==
        CompanyLine(if Trim(raws[0]) != "" then Trim(raws[0]) else line, OrNull(Some(Join(TrimAll(raws[1..]), " · "))))
  {
    var line := Join(raws, "·");
    JoinHoldsSep(raws, "·");
    assert line[|raws[0]|] == '·';
    JoinThenSplit(raws, '·');
    TrimAllTail(raws);
  }

  // ---------- "Degree, Field" ----------

  datatype DegreeLine = DegreeLine(degree: Option<string>, field: Option<string>)

  /**
   * Splits a degree line holding `,` into the degree (the first trimmed
   * segment, possibly empty) and the field (the other segments joined by
   * `, `, or `null`); any other degree line is kept whole and the field
   * comes from the separate field-of-study element.
   */
  function SplitDegreeLine(degreeLine: Option<string>, fieldOfStudy: Option<string>): (r: DegreeLine)
    ensures !(degreeLine.Some? && ',' in degreeLine.value) ==> r == DegreeLine(degreeLine, fieldOfStudy)
    ensures degreeLine.Some? && ',' in degreeLine.value ==>
      r.degree.Some? && IsTrimmed(r.degree.value) && ',' !in r.degree.value
    ensures degreeLine.Some? && ',' in degreeLine.value && r.field.Some? ==> r.field.value != ""
    ensures NormalField(degreeLine) ==> NormalField(r.degree)
  {
    if degreeLine.Some? && ',' in degreeLine.value then
      var segs := Segments(degreeLine.value, ',');
      SplitThenJoin(degreeLine.value, ',');
      assert ',' !in Split(degreeLine.value, ',')[0];
      TrimAllParts(Split(degreeLine.value, ','), ',');
      FirstSegmentIsNormal(degreeLine.value, ',');
      DegreeLine(Some(segs[0]), OrNull(Some(Join(segs[1..], ", "))))
    else DegreeLine(degreeLine, fieldOfStudy)
  }

  /**
   * Any degree line holding `,`, written as its comma-free pieces: the
   * degree is the first piece trimmed and the field is the other pieces,
   * trimmed and rejoined by `, `.
   */
  lemma DegreeLineOfParts(raws: seq<string>, fieldOfStudy: Option<string>)
    requires |raws| >= 2
    requires forall i :: 0 <= i < |raws| ==> ',' !in raws[i]
    ensures SplitDegreeLine(Some(Join(raws, ",")), fieldOfStudy) ==
      DegreeLine(Some(Trim(raws[0])), OrNull(Some(Join(TrimAll(raws[1..]), ", "))))
  {
    var line := Join(raws, ",");
    JoinHoldsSep(raws, ",");
    assert line[|raws[0]|] == ',';
    JoinThenSplit(raws, ',');
    TrimAllTail(raws);
  }

  // ---------- location ----------

  /**
   * A muted meta row that can be the location: it is not the duration
   * and holds none of the fragments `ay`, `yıl`, `mo`, `yr` that mark a
   * duration.
   */
  predicate LocationCandidate(row: string, duration: Option<string>) {
    Some(row) != duration && !Contains(row, "ay") && !Contains(row, "yıl") && !Contains(row, "mo") && !Contains(row, "yr")
  }

  /** The location: the first non-empty meta row that is a candidate, else `null`. */
  function PickLocation(rows: seq<string>, duration: Option<string>): (r: Option<string>)
    requires forall i :: 0 <= i < |rows| ==> rows[i] != ""
    ensures r.Some? <==> exists i :: 0 <= i < |rows| && LocationCandidate(rows[i], duration)
    ensures r.Some? ==> exists i :: 0 <= i < |rows| && LocationCandidate(rows[i], duration) && r.value == rows[i] &&
                                (forall j :: 0 <= j < i ==> !LocationCandidate(rows[j], duration))
    ensures r.Some? ==> r.value in rows && LocationCandidate(r.value, duration)
  {
    var p := (row: string) => LocationCandidate(row, duration);
    var candidates := Filter(rows, p);
    FilterHead(rows, p);
    if candidates != [] then Some(candidates[0]) else None
  }

  // ---------- experience ----------

  /** The raw text of the elements one experience item's selectors find. */
  datatype ExperienceNode = ExperienceNode(
    titleEl: Option<string>,
    titleFieldEl: Option<string>,
    companyEl: Option<string>,
    durationEl: Option<string>,
    metaRowEls: seq<string>,
    descriptionEl: Option<string>,
    logoSrc: Option<string>,
    roleSkillEls: seq<string>,
    hasDisplayFlex: bool)

  datatype Experience = Experience(
    title: Option<string>,
    company: Option<string>,
    employmentType: Option<string>,
    duration: Option<string>,
    location: Option<string>,
    description: Option<string>,
    companyLogo: Option<string>,
    roleSkills: seq<string>)

  /**
   * One experience item's record. The title is the first title element's
   * text when that is non-empty and otherwise the field element's text,
   * which may be empty; the other text fields are `null` rather than empty.
   */
  function ExperienceOf(n: ExperienceNode): (e: Experience)
    ensures NormalField(e.title) && NormalField(e.duration) && NormalField(e.description)
    ensures Truthy(TextContent(n.titleEl)) ==> e.title == TextContent(n.titleEl)
    ensures !Truthy(TextContent(n.titleEl)) ==> e.title == TextContent(n.titleFieldEl)
    ensures e.company.Some? <==> Truthy(TextContent(n.companyEl))
    ensures e.company.Some? ==>
      var split := SplitCompanyLine(TextContent(n.companyEl).value);
      e.company.value == split.company && e.employmentType == split.employmentType
    ensures e.company.Some? ==> e.company.value != "" && IsNormal(e.company.value)
    ensures e.employmentType.Some? ==> e.company.Some? && e.employmentType.value != ""
    ensures e.duration == OrNull(TextContent(n.durationEl))
    ensures e.location == PickLocation(PresentTexts(n.metaRowEls), e.duration)
    ensures e.location.Some? ==> IsNormal(e.location.value) && e.location != e.duration
    ensures e.description == OrNull(TextContent(n.descriptionEl))
    ensures e.companyLogo == OrNull(n.logoSrc)
    ensures e.roleSkills == PresentTexts(n.roleSkillEls)
  {
    var title := Or(TextContent(n.titleEl), TextContent(n.titleFieldEl));
    var companyLine := OrNull(TextContent(n.companyEl));
    var split := if companyLine.Some? then SplitCompanyLine(companyLine.value) else CompanyLine("", None);
    var duration := OrNull(TextContent(n.durationEl));
    var rows := PresentTexts(n.metaRowEls);
    var location := PickLocation(rows, duration);
    var roleSkills := PresentTexts(n.roleSkillEls);
    Experience(
      title,
      if companyLine.Some? then Some(split.company) else None,
      if companyLine.Some? then split.employmentType else None,
      duration,
      location,
      OrNull(TextContent(n.descriptionEl)),
      OrNull(n.logoSrc),
      roleSkills)
  }

  /** The items an experience section is read from: the entities, or else the list items holding a flex row. */
  function ExperienceNodes(s: Section<ExperienceNode>): (r: seq<ExperienceNode>)
    ensures s.primary != [] ==> r == s.primary
    ensures s.primary == [] ==> (forall i :: 0 <= i < |r| ==> r[i].hasDisplayFlex) && IsSubseq(r, s.fallback)
    ensures s.primary == [] ==> forall n :: multiset(r)[n] == if n.hasDisplayFlex then multiset(s.fallback)[n] else 0
  {
    var flex := (n: ExperienceNode) => n.hasDisplayFlex;
    FilterIsSubseq(s.fallback, flex);
    FilterMultiset(s.fallback, flex);
    if s.primary != [] then s.primary else Filter(s.fallback, flex)
  }

  /** `extractExperiences`: the first five items of the chosen list, each read into a record; no section, no experiences. */
  function ExtractExperiences(section: Option<Section<ExperienceNode>>): (r: seq<Experience>)
    ensures section.None? ==> r == []
    ensures |r| <= MAX_EXPERIENCES
    ensures section.Some? ==>
      var nodes := ExperienceNodes(section.value);
      |r| == (if |nodes| <= MAX_EXPERIENCES then |nodes| else MAX_EXPERIENCES) &&
      forall i :: 0 <= i < |r| ==> r[i] == ExperienceOf(nodes[i])
  {
    if section.None? then []
    else
      var nodes := Take(ExperienceNodes(section.value), MAX_EXPERIENCES);
      seq(|nodes|, i requires 0 <= i < |nodes| => ExperienceOf(nodes[i]))
  }

  // ---------- education ----------

  /** The raw text of the elements one education item's selectors find. */
  datatype EducationNode = EducationNode(
    schoolEl: Option<string>,
    degreeEl: Option<string>,
    fieldOfStudyEl: Option<string>,
    datesEl: Option<string>,
    activitiesEl: Option<string>,
    descriptionEl: Option<string>,
    logoSrc: Option<string>)

  datatype Education = Education(
    school: Option<string>,
    degree: Option<string>,
    field: Option<string>,
    dates: Option<string>,
    activities: Option<string>,
    description: Option<string>,
    logo: Option<string>)

  /**
   * One education item's record. School and dates are `null` rather than
   * empty; degree and field come from splitting the degree line; the
   * activities and the description keep an empty text as `""`.
   */
  function EducationOf(n: EducationNode): (e: Education)
    ensures NormalField(e.school) && NormalField(e.degree) && NormalField(e.dates)
    ensures NormalField(e.activities) && NormalField(e.description)
    ensures e.school == OrNull(TextContent(n.schoolEl))
    ensures var split := SplitDegreeLine(OrNull(TextContent(n.degreeEl)), OrNull(TextContent(n.fieldOfStudyEl)));
      e.degree == split.degree && e.field == split.field
    ensures e.dates == OrNull(TextContent(n.datesEl))
    ensures e.activities == TextContent(n.activitiesEl)
    ensures e.description == TextContent(n.descriptionEl)
    ensures e.logo == OrNull(n.logoSrc)
  {
    var line := OrNull(TextContent(n.degreeEl));
    var split := SplitDegreeLine(line, OrNull(TextContent(n.fieldOfStudyEl)));
    Education(
      OrNull(TextContent(n.schoolEl)),
      split.degree,
      split.field,
      OrNull(TextContent(n.datesEl)),
      TextContent(n.activitiesEl),
      TextContent(n.descriptionEl),
      OrNull(n.logoSrc))
  }

  /** The items an education section is read from: the entities, or else all list items. */
  function EducationNodes(s: Section<EducationNode>): (r: seq<EducationNode>)
    ensures s.primary != [] ==> r == s.primary
    ensures s.primary == [] ==> r == s.fallback
  {
    if s.primary != [] then s.primary else s.fallback
  }

  /** `extractEducation`: the first four items of the chosen list, each read into a record; no section, no education. */
  function ExtractEducation(section: Option<Section<EducationNode>>): (r: seq<Education>)
    ensures section.None? ==> r == []
    ensures |r| <= MAX_EDUCATION
    ensures section.Some? ==>
      var nodes := EducationNodes(section.value);
      |r| == (if |nodes| <= MAX_EDUCATION then |nodes| else MAX_EDUCATION) &&
      forall i :: 0 <= i < |r| ==> r[i] == EducationOf(nodes[i])
  {
    if section.None? then []
    else
      var nodes := Take(EducationNodes(section.value), MAX_EDUCATION);
      seq(|nodes|, i requires 0 <= i < |nodes| => EducationOf(nodes[i]))
  }
}
