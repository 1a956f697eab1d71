/**
 * Skills in extension/content.js: reading a skill entity (name,
 * endorsements, assessment badge, insights, links), the loop that keeps
 * the first skill per name up to `MAX_SKILLS`, the inline fallback, the
 * profile path the skills page is fetched from, and the three-step
 * fallback chain that picks the first source yielding skills.
 */
module ContentSkills {
  import opened Wrappers
  import opened Text
  import opened Seqs
  import opened Urls
  import opened Buttons

  const MAX_SKILLS: nat := 15

  /** A parsed `endorsements` field: `null`, a number, or the caption kept as text. */
  datatype Endorsements = NoEndorsements | Count(n: nat) | Caption(text: string)

  datatype Link = Link(href: string, caption: string)

  datatype Skill = Skill(
    name: Option<string>,
    endorsements: Endorsements,
    assessmentPassed: bool,
    insights: seq<string>,
    relatedLinks: seq<Link>)

  /** `/endorse|onay/i` and `/linkedin skill|linkedin yetenek/i` as predicates on a caption. */
  datatype Patterns = Patterns(endorse: string -> bool, assessment: string -> bool)

  /** A related link: its `href` and the raw text of the anchor. */
  datatype LinkNode = LinkNode(href: string, textEl: string)

  /** The raw text of the elements one skill entity's selectors find. */
  datatype SkillNode = SkillNode(nameEl: Option<string>, detailEls: seq<string>, linkEls: seq<LinkNode>)

  // ---------- one skill ----------

  /** The number formed by a caption's digits, or the caption itself when it has none. */
  function ParseEndorsementCaption(caption: string): (r: Endorsements)
    ensures r.Caption? <==> NoDigits(caption)
    ensures r.Caption? ==> r.text == caption
    ensures r.Count? ==> r.n == DecimalValue(DigitsOf(caption))
    ensures !r.NoEndorsements?
  {
    DigitsOfEmpty(caption);
    var digits := DigitsOf(caption);
    if digits != "" then Count(DecimalValue(digits)) else Caption(caption)
  }

  /**
   * A caption whose digits, read in order with everything else removed,
   * spell the numeral of `n` reads as `n`, however the digits are grouped.
   */
  lemma EndorsementCountOfDigits(caption: string, n: nat)
    requires DigitsOf(caption) == Decimal(n)
    ensures ParseEndorsementCaption(caption) == Count(n)
  {
    DecimalRoundTrip(n);
  }

  /** A caption whose only digits are the numeral of `n` reads as `n`. */
  lemma EndorsementCountOfNumeral(pre: string, n: nat, post: string)
    requires NoDigits(pre) && NoDigits(post)
    ensures ParseEndorsementCaption(pre + Decimal(n) + post) == Count(n)
  {
    var d := Decimal(n);
    DigitsOfConcat(pre + d, post);
    DigitsOfConcat(pre, d);
    DigitsOfNoDigits(pre);
    DigitsOfNoDigits(post);
    DigitsOfDigits(d);
    assert DigitsOf(pre + d) == d;
    assert DigitsOf(pre + d + post) == d;
    EndorsementCountOfDigits(pre + d + post, n);
  }

  /** The digits of two digit groups between digit-free texts are the two groups run together. */
  lemma GroupedDigits(pre: string, hi: string, sep: string, lo: string, post: string)
    requires NoDigits(pre) && AllDigits(hi) && NoDigits(sep) && AllDigits(lo) && NoDigits(post)
    ensures DigitsOf(pre + hi + sep + lo + post) == hi + lo
  {
    DigitsOfConcat(pre + hi + sep + lo, post);
    DigitsOfConcat(pre + hi + sep, lo);
    DigitsOfConcat(pre + hi, sep);
    DigitsOfConcat(pre, hi);
    DigitsOfNoDigits(pre);
    DigitsOfNoDigits(sep);
    DigitsOfNoDigits(post);
    DigitsOfDigits(hi);
    DigitsOfDigits(lo);
    assert DigitsOf(pre + hi) == hi;
    assert DigitsOf(pre + hi + sep) == hi;
    assert DigitsOf(pre + hi + sep + lo) == hi + lo;
  }

  /**
   * A thousands separator is skipped: a caption such as "1,234 endorsements",
   * whose two digit groups together spell the numeral of `n`, reads as `n`.
   */
  lemma EndorsementCountOfGroups(pre: string, hi: string, sep: string, lo: string, post: string, n: nat)
    requires NoDigits(pre) && AllDigits(hi) && NoDigits(sep) && AllDigits(lo) && NoDigits(post)
    requires hi + lo == Decimal(n)
    ensures ParseEndorsementCaption(pre + hi + sep + lo + post) == Count(n)
  {
    GroupedDigits(pre, hi, sep, lo, post);
    EndorsementCountOfDigits(pre + hi + sep + lo + post, n);
  }

  /** The endorsements of a skill: parsed from the first caption that mentions endorsements, else `null`. */
  function EndorsementsOf(texts: seq<string>, endorse: string -> bool): (r: Endorsements)
    requires forall i :: 0 <= i < |texts| ==> texts[i] != ""
    ensures r.NoEndorsements? <==> forall i :: 0 <= i < |texts| ==> !endorse(texts[i])
    ensures !r.NoEndorsements? ==>
      exists i :: 0 <= i < |texts| && endorse(texts[i]) && r == ParseEndorsementCaption(texts[i]) &&
                  (forall j :: 0 <= j < i ==> !endorse(texts[j]))
  {
    var hits := Filter(texts, endorse);
    FilterHead(texts, endorse);
    if hits != [] then ParseEndorsementCaption(hits[0]) else NoEndorsements
  }

  /** Whether some caption reports a passed LinkedIn skill assessment. */
  predicate AssessmentPassed(texts: seq<string>, assessment: string -> bool) {
    exists i :: 0 <= i < |texts| && assessment(texts[i])
  }

  /** A caption that is neither an endorsement count nor an assessment badge. */
  predicate IsInsight(t: string, pats: Patterns) {
    t != "" && !pats.endorse(t) && !pats.assessment(t)
  }

  /** The insights: exactly the captions that match neither pattern, in order, each as often as it occurs. */
  function Insights(texts: seq<string>, pats: Patterns): (r: seq<string>)
    ensures forall i :: 0 <= i < |r| ==> IsInsight(r[i], pats)
    ensures forall i :: 0 <= i < |texts| && IsInsight(texts[i], pats) ==> texts[i] in r
    ensures forall t :: multiset(r)[t] == if IsInsight(t, pats) then multiset(texts)[t] else 0
    ensures IsSubseq(r, texts)
  {
    var p := (t: string) => IsInsight(t, pats);
    FilterIsSubseq(texts, p);
    FilterMultiset(texts, p);
    FilterKeepsAll(texts, p);
    Filter(texts, p)
  }

  /**
   * The non-empty normalised captions of a skill's sub-components, in
   * document order, each as often as it occurs.
   */
  function DetailTexts(n: SkillNode): (r: seq<string>)
    ensures forall i :: 0 <= i < |r| ==> r[i] != "" && IsNormal(r[i])
    ensures IsSubseq(r, Texts(n.detailEls))
    ensures forall t :: multiset(r)[t] == if t != "" then multiset(Texts(n.detailEls))[t] else 0
  {
    PresentTextsComplete(n.detailEls);
    PresentTexts(n.detailEls)
  }

  /** One skill entity's record. */
  function SkillOf(n: SkillNode, pats: Patterns): (s: Skill)
    ensures s.name == OrNull(TextContent(n.nameEl))
    ensures s.name.Some? <==> Truthy(TextContent(n.nameEl))
    ensures s.name.Some? ==> IsNormal(s.name.value)
    ensures s.endorsements == EndorsementsOf(DetailTexts(n), pats.endorse)
    ensures s.assessmentPassed <==> AssessmentPassed(DetailTexts(n), pats.assessment)
    ensures s.insights == Insights(DetailTexts(n), pats)
    ensures |s.relatedLinks| == |n.linkEls|
    ensures forall i :: 0 <= i < |n.linkEls| ==> s.relatedLinks[i] == Link(n.linkEls[i].href, Normalize(n.linkEls[i].textEl))
  {
    var texts := DetailTexts(n);
    Skill(
      OrNull(TextContent(n.nameEl)),
      EndorsementsOf(texts, pats.endorse),
      AssessmentPassed(texts, pats.assessment),
      Insights(texts, pats),
      seq(|n.linkEls|, i requires 0 <= i < |n.linkEls| => Link(n.linkEls[i].href, Normalize(n.linkEls[i].textEl))))
  }

  /** `entities.map(...)` in `parseSkillsFromDocument`. */
  function SkillsOf(entities: seq<SkillNode>, pats: Patterns): (r: seq<Skill>)
    ensures |r| == |entities|
    ensures forall i :: 0 <= i < |r| ==> r[i] == SkillOf(entities[i], pats)
  {
    seq(|entities|, i requires 0 <= i < |entities| => SkillOf(entities[i], pats))
  }

  // ---------- keeping the first skill per name ----------

  /** A skill whose name is truthy. */
  predicate Named(s: Skill) {
    s.name.Some? && s.name.value != ""
  }

  function NameOf(s: Skill): string {
    if s.name.Some? then s.name.value else ""
  }

  /** What the `seen`-set loops return: the first named skill per name, at most `MAX_SKILLS` of them. */
  function KeptSkills(skills: seq<Skill>): seq<Skill> {
    Take(Firsts(Filter(skills, Named), NameOf), MAX_SKILLS)
  }

  /** The kept skills are named, pairwise distinct by name, at most `MAX_SKILLS`, and in input order. */
  lemma KeptSkillsShape(skills: seq<Skill>)
    ensures |KeptSkills(skills)| <= MAX_SKILLS
    ensures forall i :: 0 <= i < |KeptSkills(skills)| ==> Named(KeptSkills(skills)[i])
    ensures forall i, j :: 0 <= i < j < |KeptSkills(skills)| ==> NameOf(KeptSkills(skills)[i]) != NameOf(KeptSkills(skills)[j])
    ensures IsSubseq(KeptSkills(skills), skills)
  {
    var f := Filter(skills, Named);
    var r := KeptSkills(skills);
    FirstsDistinct(f, NameOf);
    FirstsIsSubseq(f, NameOf);
    FilterIsSubseq(skills, Named);
    PrefixIsSubseq(r, Firsts(f, NameOf));
    SubseqTrans(r, Firsts(f, NameOf), f);
    SubseqTrans(r, f, skills);
    FilterIsSubseqMembers(skills, Named);
    assert forall i :: 0 <= i < |r| ==> r[i] in f by {
      forall i | 0 <= i < |r| ensures r[i] in f {
        SubseqMembers(r, f, i);
      }
    }
  }

  /** Each kept skill is the first named entry of the input with its name. */
  lemma KeptSkillIsFirst(skills: seq<Skill>, k: nat)
    requires k < |KeptSkills(skills)|
    ensures exists i :: 0 <= i < |skills| && Named(skills[i]) && skills[i] == KeptSkills(skills)[k] &&
                        (forall j :: 0 <= j < i && Named(skills[j]) ==> NameOf(skills[j]) != NameOf(skills[i]))
  {
    FirstsOfFilterAreFirst(skills, Named, NameOf, k);
  }

  /** Below the cap, no name of the input is lost. */
  lemma KeptSkillsKeepEveryName(skills: seq<Skill>)
    requires |Firsts(Filter(skills, Named), NameOf)| <= MAX_SKILLS
    ensures KeySet(KeptSkills(skills), NameOf) == KeySet(Filter(skills, Named), NameOf)
  {
    FirstsKeySet(Filter(skills, Named), NameOf);
  }

  /** The skills the first-per-name loop keeps from `skills`, before the cap: the first named skill per name, in order. */
  function KeptSoFar(skills: seq<Skill>): seq<Skill> {
    Firsts(Filter(skills, Named), NameOf)
  }

  /** One more skill: it is kept exactly when it is named and its name has not been seen. */
  lemma KeepStep(prefix: seq<Skill>, s: Skill)
    ensures KeySet(Filter(prefix + [s], Named), NameOf) ==
      KeySet(Filter(prefix, Named), NameOf) + (if Named(s) then {NameOf(s)} else {})
    ensures KeptSoFar(prefix + [s]) ==
      KeptSoFar(prefix) + (if Named(s) && NameOf(s) !in KeySet(Filter(prefix, Named), NameOf) then [s] else [])
  {
    var f := Filter(prefix, Named);
    FilterSnoc(prefix, s, Named);
    if Named(s) {
      assert Filter(prefix + [s], Named) == f + [s];
      FirstsSnoc(f, s, NameOf);
      KeySetSnoc(f, s, NameOf);
    } else {
      assert Filter(prefix + [s], Named) == f;
    }
  }

  /** Once the skills kept from a prefix reach the cap, they are the kept skills of the whole list. */
  lemma KeptAtCap(prefix: seq<Skill>, skills: seq<Skill>)
    requires prefix <= skills && |KeptSoFar(prefix)| == MAX_SKILLS
    ensures KeptSkills(skills) == KeptSoFar(prefix)
  {
    FilterOfPrefix(prefix, skills, Named);
    FirstsOfPrefix(Filter(prefix, Named), Filter(skills, Named), NameOf);
  }

  /**
   * The `seen`-set loop: a named skill whose name is new is kept, and the
   * loop stops as soon as `MAX_SKILLS` skills are kept.
   */
  method KeepFirstSkills(skills: seq<Skill>) returns (out: seq<Skill>)
    ensures out == KeptSkills(skills)
  {
    var seen: set<string> := {};
    out := [];
    var i := 0;
    while i < |skills|
      invariant 0 <= i <= |skills|
      invariant out == KeptSoFar(skills[..i])
      invariant seen == KeySet(Filter(skills[..i], Named), NameOf)
      invariant |out| < MAX_SKILLS
    {
      var s := skills[i];
      assert skills[..i + 1] == skills[..i] + [s];
      KeepStep(skills[..i], s);
      if Named(s) && NameOf(s) !in seen {
        seen := seen + {NameOf(s)};
        out := out + [s];
      }
      i := i + 1;
      if |out| >= MAX_SKILLS {
        break;
      }
    }
    if |out| >= MAX_SKILLS {
      KeptAtCap(skills[..i], skills);
    } else {
      assert skills[..i] == skills;
    }
  }

  /** `parseSkillsFromDocument`: every entity read into a skill, then the first skill per name kept. */
  method ParseSkillsFromDocument(entities: seq<SkillNode>, pats: Patterns) returns (out: seq<Skill>)
    ensures out == KeptSkills(SkillsOf(entities, pats))
  {
    if |entities| == 0 {
      return [];
    }
    var skills := SkillsOf(entities, pats);
    out := KeepFirstSkills(skills);
  }

  /** An inline skill carries only its name. */
  function InlineSkillOf(nameEl: Option<string>): Skill {
    Skill(TextContent(nameEl), NoEndorsements, false, [], [])
  }

  function InlineSkills(nameEls: seq<Option<string>>): (r: seq<Skill>)
    ensures |r| == |nameEls|
    ensures forall i :: 0 <= i < |r| ==> r[i] == InlineSkillOf(nameEls[i])
  {
    seq(|nameEls|, i requires 0 <= i < |nameEls| => InlineSkillOf(nameEls[i]))
  }

  /**
   * The inline skills before keeping the first per name: one skill for
   * each entity whose normalised name is truthy, in document order, as
   * often as it occurs.
   */
  function InlineCollected(section: Option<seq<Option<string>>>): (r: seq<Skill>)
    ensures forall i :: 0 <= i < |r| ==> Named(r[i]) && r[i].endorsements.NoEndorsements? && !r[i].assessmentPassed
    ensures section.None? ==> r == []
    ensures section.Some? ==> IsSubseq(r, InlineSkills(section.value))
    ensures section.Some? ==> forall s :: multiset(r)[s] == if Named(s) then multiset(InlineSkills(section.value))[s] else 0
  {
    if section.None? then []
    else
      InlineFilterFacts(section.value);
      Filter(InlineSkills(section.value), Named)
  }

  /** The named inline skills carry no endorsements, and the filter keeps their order and multiplicity. */
  lemma InlineFilterFacts(nodes: seq<Option<string>>)
    ensures var all := InlineSkills(nodes);
      var r := Filter(all, Named);
      && (forall i :: 0 <= i < |r| ==> Named(r[i]) && r[i].endorsements.NoEndorsements? && !r[i].assessmentPassed)
      && IsSubseq(r, all)
      && forall s :: multiset(r)[s] == if Named(s) then multiset(all)[s] else 0
  {
    var all := InlineSkills(nodes);
    FilterIsSubseqMembers(all, Named);
    FilterIsSubseq(all, Named);
    FilterMultiset(all, Named);
  }

  /** One more inline entity. */
  lemma InlineStep(nodes: seq<Option<string>>, i: nat)
    requires i < |nodes|
    ensures Filter(InlineSkills(nodes[..i + 1]), Named) ==
      Filter(InlineSkills(nodes[..i]), Named) + (if Truthy(TextContent(nodes[i])) then [InlineSkillOf(nodes[i])] else [])
  {
    assert InlineSkills(nodes[..i + 1]) == InlineSkills(nodes[..i]) + [InlineSkillOf(nodes[i])];
    FilterSnoc(InlineSkills(nodes[..i]), InlineSkillOf(nodes[i]), Named);
  }

  /**
   * `parseInlineSkills`: the name of every entity of the page's own skills
   * section, unnamed ones skipped, then the first skill per name kept; no
   * section, no skills.
   */
  method ParseInlineSkills(section: Option<seq<Option<string>>>) returns (out: seq<Skill>)
    ensures out == KeptSkills(InlineCollected(section))
  {
    if section.None? {
      return [];
    }
    var nodes := section.value;
    var collected: seq<Skill> := [];
    for i := 0 to |nodes|
      invariant collected == Filter(InlineSkills(nodes[..i]), Named)
    {
      InlineStep(nodes, i);
      var name := TextContent(nodes[i]);
      if Truthy(name) {
        collected := collected + [InlineSkillOf(nodes[i])];
      }
    }
    assert nodes[..|nodes|] == nodes;
    out := KeepFirstSkills(collected);
  }

  // ---------- the skills page URL ----------

  /**
   * `normalizeProfilePath`: the pathname up to its first `/details/`,
   * less one trailing `/`; `null` when the URL does not parse.
   */
  function NormalizeProfilePath(u: Option<Url>): (r: Option<string>)
    ensures r.Some? <==> u.Some?
    ensures r.Some? ==> r.value <= u.value.pathname
    ensures r.Some? ==> !Contains(r.value, "/details/")
    ensures r.Some? ==> r.value == DropTrailingSlash(BeforeFirst(u.value.pathname, "/details/"))
  {
    if u.None? then None
    else
      var base := BeforeFirst(u.value.pathname, "/details/");
      BeforeFirstHasNoOccurrence(u.value.pathname, "/details/");
      var p := DropTrailingSlash(base);
      assert !Contains(p, "/details/") by {
        if Contains(p, "/details/") {
          ContainsSlice(base, "/details/", 0, |p|);
        }
      }
      Some(p)
  }

  /** The part before the first occurrence holds no occurrence. */
  lemma BeforeFirstHasNoOccurrence(s: string, t: string)
    requires t != ""
    ensures !Contains(BeforeFirst(s, t), t)
  {
    var r := BeforeFirst(s, t);
    forall j | 0 <= j <= |r| - |t|
      ensures !OccursAt(r, t, j)
    {
      assert r[j..j + |t|] == s[j..j + |t|];
      assert !OccursAt(s, t, j);
    }
  }

  /** The URL the skills page is fetched from: the current URL with the profile path's skills page and no hash. */
  function SkillsFetchUrl(current: Url, profilePath: string): (r: Url)
    ensures r.origin == current.origin && r.search == current.search && r.hash == ""
    ensures r.pathname == profilePath + SKILLS_SUFFIX
  {
    current.(pathname := profilePath + SKILLS_SUFFIX, hash := "")
  }

  /** A path without `/details` is its own part before `/details/`. */
  lemma BeforeDetailsOfPlainPath(path: string)
    requires !Contains(path, "/details")
    ensures BeforeFirst(path, "/details/") == path
  {
    var b := BeforeFirst(path, "/details/");
    if b != path {
      assert OccursAt(path, "/details/", |b|);
      assert path[|b|..|b| + 8] == "/details/"[..8];
      assert OccursAt(path, "/details", |b|);
    }
  }

  /** Appending the skills suffix to a path without `/details` puts the first `/details/` right after the path. */
  lemma BeforeDetailsOfSkillsPath(p: string)
    requires !Contains(p, "/details")
    ensures BeforeFirst(p + SKILLS_SUFFIX, "/details/") == p
  {
    var t := "/details/";
    var q := p + SKILLS_SUFFIX;
    assert q[|p|..|p| + 9] == t;
    assert OccursAt(q, t, |p|);
    forall j | 0 <= j < |p|
      ensures !OccursAt(q, t, j)
    {
      NoDetailsBeforeSuffix(p, j);
    }
    assert q[..|p|] == p;
  }

  /** No `/details/` of `p + SKILLS_SUFFIX` starts inside `p` when `p` holds no `/details`. */
  lemma NoDetailsBeforeSuffix(p: string, j: nat)
    requires !Contains(p, "/details")
    requires j < |p|
    ensures !OccursAt(p + SKILLS_SUFFIX, "/details/", j)
  {
    if j + 8 <= |p| {
      NoDetailsInside(p, j);
    } else {
      NoDetailsAcross(p, j);
    }
  }

  /** An occurrence starting at least eight characters before the end of `p` would put `/details` inside `p`. */
  lemma NoDetailsInside(p: string, j: nat)
    requires !Contains(p, "/details")
    requires j + 8 <= |p|
    ensures !OccursAt(p + SKILLS_SUFFIX, "/details/", j)
  {
    var q := p + SKILLS_SUFFIX;
    assert !OccursAt(p, "/details", j);
    assert q[j..j + 8] == p[j..j + 8];
    assert q[j..j + 9][..8] == q[j..j + 8];
    assert "/details/"[..8] == "/details";
  }

  /** An occurrence starting in the last seven characters of `p` would need a letter where the suffix has its `/`. */
  lemma NoDetailsAcross(p: string, j: nat)
    requires j < |p| < j + 8
    ensures !OccursAt(p + SKILLS_SUFFIX, "/details/", j)
  {
    var q := p + SKILLS_SUFFIX;
    var k := |p| - j;
    var t := "/details/";
    assert 1 <= k <= 7;
    assert q[|p|] == SKILLS_SUFFIX[0] == '/';
    assert t[k] != '/';
    if j + 9 <= |q| {
      assert q[j..j + 9][k] == q[|p|];
      assert q[j..j + 9] != t;
    }
    assert |t| == 9;
    assert !OccursAt(q, t, j);
  }

  /**
   * The skills page belongs to the same profile: normalising its URL
   * gives back the path it was built from, for a profile URL whose path
   * holds no `/details` and does not end in `//`.
   */
  lemma SkillsFetchUrlNormalizesBack(current: Url)
    requires !Contains(current.pathname, "/details")
    requires !(|current.pathname| >= 2 && current.pathname[|current.pathname| - 2..] == "//")
    ensures NormalizeProfilePath(Some(current)).Some?
    ensures var p := NormalizeProfilePath(Some(current)).value;
      NormalizeProfilePath(Some(SkillsFetchUrl(current, p))) == Some(p)
  {
    var path := current.pathname;
    BeforeDetailsOfPlainPath(path);
    var p := DropTrailingSlash(path);
    assert NormalizeProfilePath(Some(current)) == Some(p);
    assert p == [] || p[|p| - 1] != '/';
    assert !Contains(p, "/details") by {
      if Contains(p, "/details") {
        assert path[0..|p|] == p;
        ContainsSlice(path, "/details", 0, |p|);
      }
    }
    BeforeDetailsOfSkillsPath(p);
  }

  // ---------- the fallback chain ----------

  /** Where the returned skills came from. */
  datatype SkillSource = ShowAllPage | DetailsPage | InlineSection

  /** `tryClickShowAllSkills` finds a "show all N skills" trigger. */
  predicate HasShowAllTrigger(triggers: seq<Button>, showAll: string -> bool)
    ensures HasShowAllTrigger(triggers, showAll) <==> SelectedIndices(triggers, [showAll], false) != []
  {
    NoneSelected(triggers, [showAll], false);
    assert forall t :: AnyMatch([showAll], t) <==> showAll(t) by {
      forall t ensures AnyMatch([showAll], t) <==> showAll(t) {
        if showAll(t) { assert [showAll][0](t); }
      }
    }
    exists i :: 0 <= i < |triggers| && showAll(Label(triggers[i]))
  }

  /**
   * The skills of the fetched details page, or `None` when the profile path
   * is missing or empty (the fetch is then not attempted) or the page could
   * not be fetched.
   */
  function FetchedSkills(current: Url, fetchPage: string -> Option<seq<SkillNode>>, pats: Patterns): (r: Option<seq<Skill>>)
    ensures !Truthy(NormalizeProfilePath(Some(current))) ==> r.None?
    ensures Truthy(NormalizeProfilePath(Some(current))) ==>
      var page := fetchPage(Href(SkillsFetchUrl(current, NormalizeProfilePath(Some(current)).value)));
      (r.None? <==> page.None?) && (r.Some? ==> r.value == KeptSkills(SkillsOf(page.value, pats)))
    ensures r.Some? ==> |r.value| <= MAX_SKILLS
  {
    var path := NormalizeProfilePath(Some(current));
    if !Truthy(path) then None
    else
      var page := fetchPage(Href(SkillsFetchUrl(current, path.value)));
      if page.None? then None
      else
        KeptSkillsShape(SkillsOf(page.value, pats));
        Some(KeptSkills(SkillsOf(page.value, pats)))
  }

  /** The skills `extractSkills` settles on: the first of the three sources that yields any. */
  function ChosenSkills(
    triggers: seq<Button>, showAll: string -> bool, afterShowAll: seq<SkillNode>,
    current: Url, fetchPage: string -> Option<seq<SkillNode>>,
    inline: Option<seq<Option<string>>>, pats: Patterns): seq<Skill>
  {
    var first := KeptSkills(SkillsOf(afterShowAll, pats));
    var fetched := FetchedSkills(current, fetchPage, pats);
    if HasShowAllTrigger(triggers, showAll) && first != [] then first
    else if fetched.Some? && fetched.value != [] then fetched.value
    else KeptSkills(InlineCollected(inline))
  }

  /**
   * `extractSkills`: the skills of the page opened by a "show all" trigger
   * if there is one and it yields any, else those of the fetched details
   * page if it yields any, else the inline skills.
   *
   * `afterShowAll` is the document's entities once the trigger has been
   * clicked; `fetchPage` maps a URL to the entities of the page fetched from
   * it, `None` when the request fails or its status is not ok.
   */
  method ExtractSkills(
    triggers: seq<Button>, showAll: string -> bool, afterShowAll: seq<SkillNode>,
    current: Url, fetchPage: string -> Option<seq<SkillNode>>,
    inline: Option<seq<Option<string>>>, pats: Patterns)
    returns (skills: seq<Skill>, source: SkillSource)
    ensures var first := HasShowAllTrigger(triggers, showAll) && KeptSkills(SkillsOf(afterShowAll, pats)) != [];
      var fetched := FetchedSkills(current, fetchPage, pats);
      var second := fetched.Some? && fetched.value != [];
      && (source == ShowAllPage <==> first)
      && (source == DetailsPage <==> !first && second)
      && (source == ShowAllPage ==> skills == KeptSkills(SkillsOf(afterShowAll, pats)))
      && (source == DetailsPage ==> skills == fetched.value)
      && (source == InlineSection ==> skills == KeptSkills(InlineCollected(inline)))
    ensures source != InlineSection ==> skills != []
    ensures skills == ChosenSkills(triggers, showAll, afterShowAll, current, fetchPage, inline, pats)
  {
    if HasShowAllTrigger(triggers, showAll) {
      var parsed := ParseSkillsFromDocument(afterShowAll, pats);
      if |parsed| > 0 {
        return parsed, ShowAllPage;
      }
    }
    var path := NormalizeProfilePath(Some(current));
    if Truthy(path) {
      var page := fetchPage(Href(SkillsFetchUrl(current, path.value)));
      if page.Some? {
        var parsed := ParseSkillsFromDocument(page.value, pats);
        if |parsed| > 0 {
          return parsed, DetailsPage;
        }
      }
    }
    skills := ParseInlineSkills(inline);
    source := InlineSection;
  }
}
