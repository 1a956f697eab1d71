/**
 * The page-level steps of extension/content.js: clicking every control
 * whose label matches a "see more" pattern, the bounded rounds of such
 * clicks, and `collectProfile`, which turns the page into either a
 * `profileScraped` or a `profileError` message.
 */
module ContentPage {
  import opened Wrappers
  import opened Text
  import opened Urls
  import opened Buttons
  import opened ContentSections
  import opened ContentSkills

  /** The most click rounds `expandAllSeeMore` runs. */
  const MAX_EXPAND_ROUNDS: nat := 3

  /**
   * `clickAllButtonsLike`: clicks every element whose label matches some
   * pattern and returns how many it clicked; `clicked` lists their
   * indices in document order.
   */
  method ClickAllButtonsLike(bs: seq<Button>, patterns: seq<string -> bool>) returns (count: nat, clicked: seq<nat>)
    ensures clicked == SelectedIndices(bs, patterns, false)
    ensures count == |clicked|
  {
    count := 0;
    clicked := [];
    for i := 0 to |bs|
      invariant clicked == SelectedIndices(bs[..i], patterns, false)
      invariant count == |clicked|
    {
      SelectedIndicesStep(bs, i, patterns, false);
      if AnyMatch(patterns, Label(bs[i])) {
        clicked := clicked + [i];
        count := count + 1;
      }
    }
    assert bs[..|bs|] == bs;
  }

  /**
   * `expandAllSeeMore`: click rounds until one clicks nothing, at most
   * three of them. `domAt(k)` is the page's controls in round `k`, once the
   * earlier rounds' clicks have taken effect; the result is each round's
   * click count, the figures the `expand-round` log entries record.
   */
  method ExpandAllSeeMore(domAt: nat -> seq<Button>, patterns: seq<string -> bool>) returns (counts: seq<nat>)
    ensures 1 <= |counts| <= MAX_EXPAND_ROUNDS
    ensures forall k :: 0 <= k < |counts| ==> counts[k] == |SelectedIndices(domAt(k), patterns, false)|
    ensures forall k :: 0 <= k < |counts| - 1 ==> counts[k] > 0
    ensures |counts| < MAX_EXPAND_ROUNDS ==> counts[|counts| - 1] == 0
  {
    counts := [];
    var rounds := 0;
    while rounds < MAX_EXPAND_ROUNDS
      invariant rounds == |counts| <= MAX_EXPAND_ROUNDS
      invariant counts == PassCounts(domAt, patterns, false, rounds)
      invariant forall k :: 0 <= k < |counts| ==> counts[k] > 0
    {
      var clicked, _ := ClickAllButtonsLike(domAt(rounds), patterns);
      counts := counts + [clicked];
      if clicked == 0 {
        break;
      }
      rounds := rounds + 1;
    }
    PassCountsAll(domAt, patterns, false, |counts|);
  }

  /** The profile record `collectProfile` sends. */
  datatype Profile = Profile(
    name: string,
    headline: Option<string>,
    location: Option<string>,
    about: Option<string>,
    experiences: seq<Experience>,
    education: seq<Education>,
    skills: seq<Skill>)

  datatype Message = ProfileScraped(profile: Profile) | ProfileError(reason: string)

  /**
   * What `collectProfile` reads from the page once scrolling and
   * expansion are done: whether `main` appeared before the observer's
   * timeout, the raw text of the header elements, the `#about` section
   * (and its text element), the experience and education sections, and
   * the inputs of the skills fallback chain.
   */
  datatype ProfilePage = ProfilePage(
    mainAppears: bool,
    nameEl: Option<string>,
    headlineEl: Option<string>,
    locationEl: Option<string>,
    aboutSection: Option<Option<string>>,
    experience: Option<Section<ExperienceNode>>,
    education: Option<Section<EducationNode>>,
    triggers: seq<Button>,
    afterShowAll: seq<SkillNode>,
    current: Url,
    inlineSkills: Option<seq<Option<string>>>)

  const TIMEOUT_MAIN: string := "Timeout waiting for selector: main"
  const DOM_NOT_READY: string := "LinkedIn DOM not ready yet"

  /**
   * `collectProfile`: a timeout on `main` or a missing name is reported as
   * an error; otherwise the message carries the page's fields, its
   * experiences and education, and the skills of the fallback chain.
   */
  method CollectProfile(page: ProfilePage, showAll: string -> bool, fetchPage: string -> Option<seq<SkillNode>>, pats: Patterns)
    returns (msg: Message)
    ensures !page.mainAppears ==> msg == ProfileError(TIMEOUT_MAIN)
    ensures page.mainAppears && !Truthy(TextContent(page.nameEl)) ==> msg == ProfileError(DOM_NOT_READY)
    ensures msg.ProfileScraped? <==> page.mainAppears && Truthy(TextContent(page.nameEl))
    ensures msg.ProfileScraped? ==>
      var p := msg.profile;
      && Some(p.name) == TextContent(page.nameEl) && p.name != ""
      && p.headline == OrNull(TextContent(page.headlineEl))
      && p.location == OrNull(TextContent(page.locationEl))
      && p.about == (if page.aboutSection.Some? then TextContent(page.aboutSection.value) else None)
      && p.experiences == ExtractExperiences(page.experience)
      && p.education == ExtractEducation(page.education)
      && p.skills == ChosenSkills(page.triggers, showAll, page.afterShowAll, page.current, fetchPage, page.inlineSkills, pats)
  {
    if !page.mainAppears {
      return ProfileError(TIMEOUT_MAIN);
    }
    var name := TextContent(page.nameEl);
    var headline := OrNull(TextContent(page.headlineEl));
    var location := OrNull(TextContent(page.locationEl));
    var about := if page.aboutSection.Some? then TextContent(page.aboutSection.value) else None;
    var experiences := ExtractExperiences(page.experience);
    var education := ExtractEducation(page.education);
    var skills, _ := ExtractSkills(page.triggers, showAll, page.afterShowAll, page.current, fetchPage, page.inlineSkills, pats);
    if !Truthy(name) {
      return ProfileError(DOM_NOT_READY);
    }
    msg := ProfileScraped(Profile(name.value, headline, location, about, experiences, education, skills));
  }
}
