/**
 * The page-level flow of extension/background.js. On a main profile page
 * the script reads the profile without skills and, when the page has a
 * skills section, parks it in session storage under one key and moves to
 * the skills details page; on that page a later run of the script picks
 * the parked profile up, fills in the skills, removes the key and sends
 * one `profileScraped` message. Boot decides which phase runs from the
 * URL alone.
 */
module BackgroundPage {
  import opened Wrappers
  import opened Text
  import opened Urls
  import opened Buttons
  import opened BackgroundExtract

  // ---------- clicking and scrolling ----------

  /** The most click rounds `expandAllSeeMore` runs. */
  const MAX_EXPAND_ROUNDS: nat := 3

  /** How far one scrolling step goes, in pixels. */
  const SCROLL_STEP_PX: nat := 800

  /**
   * `clickAllButtonsLike`: like the content script's, but an element that
   * is not rendered (`offsetParent === null`) is skipped before its label
   * is tested. `clicked` lists the indices clicked, in document order.
   */
  method ClickAllButtonsLike(bs: seq<Button>, patterns: seq<string -> bool>) returns (count: nat, clicked: seq<nat>)
    ensures clicked == SelectedIndices(bs, patterns, true)
    ensures count == |clicked|
    ensures forall k :: 0 <= k < |clicked| ==> bs[clicked[k]].visible
  {
    count := 0;
    clicked := [];
    for i := 0 to |bs|
      invariant clicked == SelectedIndices(bs[..i], patterns, true)
      invariant count == |clicked|
    {
      SelectedIndicesStep(bs, i, patterns, true);
      if bs[i].visible {
        if AnyMatch(patterns, Label(bs[i])) {
          clicked := clicked + [i];
          count := count + 1;
        }
      }
    }
    assert bs[..|bs|] == bs;
  }

  /**
   * `expandAllSeeMore`: at most three rounds, stopping after the first one
   * that clicks nothing. `domAt(k)` is the page's controls in round `k`.
   */
  method ExpandAllSeeMore(domAt: nat -> seq<Button>, patterns: seq<string -> bool>) returns (counts: seq<nat>)
    ensures 1 <= |counts| <= MAX_EXPAND_ROUNDS
    ensures forall k :: 0 <= k < |counts| ==> counts[k] == |SelectedIndices(domAt(k), patterns, true)|
    ensures forall k :: 0 <= k < |counts| - 1 ==> counts[k] > 0
    ensures |counts| < MAX_EXPAND_ROUNDS ==> counts[|counts| - 1] == 0
  {
    counts := [];
    for i := 0 to MAX_EXPAND_ROUNDS
      invariant |counts| == i
      invariant counts == PassCounts(domAt, patterns, true, i)
      invariant forall k :: 0 <= k < |counts| ==> counts[k] > 0
    {
      var clicked, _ := ClickAllButtonsLike(domAt(i), patterns);
      counts := counts + [clicked];
      if clicked == 0 {
        break;
      }
    }
    PassCountsAll(domAt, patterns, true, |counts|);
  }

  /**
   * `autoScrollPage`: 800-pixel steps until the height scrolled reaches
   * the page height read at the start, then one pass over the visible
   * "show more" controls at the bottom of the page.
   */
  method AutoScrollPage(totalHeight: int, bottomControls: seq<Button>, showMore: seq<string -> bool>)
    returns (steps: nat, clicked: nat)
    ensures steps * SCROLL_STEP_PX >= totalHeight
    ensures steps == 0 || (steps - 1) * SCROLL_STEP_PX < totalHeight
    ensures clicked == |SelectedIndices(bottomControls, showMore, true)|
  {
    var currentHeight := 0;
    steps := 0;
    while currentHeight < totalHeight
      invariant currentHeight == steps * SCROLL_STEP_PX
      invariant steps == 0 || (steps - 1) * SCROLL_STEP_PX < totalHeight
      decreases totalHeight - currentHeight
    {
      currentHeight := currentHeight + SCROLL_STEP_PX;
      steps := steps + 1;
    }
    var indices;
    clicked, indices := ClickAllButtonsLike(bottomControls, showMore);
  }

  // ---------- the two phases ----------

  const STORAGE_KEY: string := "li_scraper_pending_data"

  /** The profile record both phases build; `skills` stays empty until the skills page fills it in. */
  datatype Profile = Profile(
    name: Option<string>,
    headline: Option<string>,
    location: Option<string>,
    about: Option<string>,
    experiences: seq<Experience>,
    education: seq<Education>,
    skills: seq<Skill>)

  datatype Message = ProfileScraped(profile: Profile)

  /**
   * What the main phase reads from the page after waiting, scrolling and
   * expanding: the raw text of the header elements, the `#about` section
   * and its text element, the experience and education entities, and the
   * `#skills` section with the parsed target of its "show all" link.
   */
  datatype MainPage = MainPage(
    nameEl: Option<string>,
    headlineEl: Option<string>,
    locationEl: Option<string>,
    aboutSection: Option<Option<string>>,
    experience: Option<seq<ExperienceNode>>,
    education: Option<seq<EducationNode>>,
    skillsSection: Option<Option<Url>>)

  /** The profile the main phase builds, with no skills yet. */
  function PartialProfile(page: MainPage): (r: Profile)
    ensures r.name == TextContent(page.nameEl) && r.headline == TextContent(page.headlineEl)
    ensures r.location == TextContent(page.locationEl)
    ensures r.about.Some? <==> page.aboutSection.Some? && page.aboutSection.value.Some?
    ensures r.about.Some? ==> r.about == TextContent(page.aboutSection.value)
    ensures r.experiences == ExtractExperiences(page.experience) && r.education == ExtractEducation(page.education)
    ensures r.skills == []
  {
    Profile(
      TextContent(page.nameEl),
      TextContent(page.headlineEl),
      TextContent(page.locationEl),
      if page.aboutSection.Some? then TextContent(page.aboutSection.value) else None,
      ExtractExperiences(page.experience),
      ExtractEducation(page.education),
      [])
  }

  /** The skills page built from the current URL: its origin, its path less one trailing `/`, and `/details/skills/`. */
  function FallbackSkillsUrl(current: Url): (r: Url)
    ensures r.origin == current.origin && r.search == "" && r.hash == ""
    ensures r.pathname == DropTrailingSlash(current.pathname) + SKILLS_SUFFIX
  {
    Url(current.origin, DropTrailingSlash(current.pathname) + SKILLS_SUFFIX, "", "")
  }

  /** Where the main phase navigates: the "show all" link's target, or else the built skills page. */
  function SkillsTarget(current: Url, seeAllLink: Option<Url>): (r: Url)
    ensures seeAllLink.Some? ==> r == seeAllLink.value
    ensures seeAllLink.None? ==> r.origin == current.origin && r.search == "" && r.hash == ""
    ensures seeAllLink.None? ==> r.pathname == DropTrailingSlash(current.pathname) + SKILLS_SUFFIX
  {
    if seeAllLink.Some? then seeAllLink.value else FallbackSkillsUrl(current)
  }

  /** Which phase boot runs. */
  datatype Phase = SkillsPhase | MainPhase | UnknownPage

  /** Boot's dispatch on the URL: the skills page first, then a profile page that is not a details page. */
  function Dispatch(href: string): (r: Phase)
    ensures r == SkillsPhase <==> Contains(href, "/details/skills")
    ensures r == MainPhase <==> !Contains(href, "/details/skills") && Contains(href, "/in/") && !Contains(href, "/details/")
  {
    if Contains(href, "/details/skills") then SkillsPhase
    else if Contains(href, "/in/") && !Contains(href, "/details/") then MainPhase
    else UnknownPage
  }

  /** The built skills page is dispatched to the skills phase. */
  lemma FallbackSkillsUrlIsSkillsPage(current: Url)
    ensures Dispatch(Href(FallbackSkillsUrl(current))) == SkillsPhase
  {
    var u := FallbackSkillsUrl(current);
    var p := DropTrailingSlash(current.pathname);
    var h := Href(u);
    var pre := current.origin + p;
    assert h == pre + SKILLS_SUFFIX;
    assert h[|pre|..] == SKILLS_SUFFIX;
    assert h[|pre|..|pre| + 15] == SKILLS_SUFFIX[..15] == "/details/skills";
    assert OccursAt(h, "/details/skills", |pre|);
  }

  /** Session storage, the browser location and the messages sent, as one script run sees them. */
  class Session {
    var location: Url
    var storage: map<string, Profile>
    var outbox: seq<Message>

    constructor(at: Url, stored: map<string, Profile>)
      ensures location == at && storage == stored && outbox == []
    {
      location := at;
      storage := stored;
      outbox := [];
    }

    /**
     * `processMainProfilePage`: with a skills section, park the partial
     * profile under `STORAGE_KEY` and navigate to the skills page, sending
     * nothing; without one, send the partial profile and touch nothing else.
     */
    method ProcessMainProfilePage(page: MainPage)
      modifies this
      ensures page.skillsSection.Some? ==>
        && storage == old(storage)[STORAGE_KEY := PartialProfile(page)]
        && location == SkillsTarget(old(location), page.skillsSection.value)
        && outbox == old(outbox)
      ensures page.skillsSection.None? ==>
        && storage == old(storage)
        && location == old(location)
        && outbox == old(outbox) + [ProfileScraped(PartialProfile(page))]
    {
      var partial := PartialProfile(page);
      if page.skillsSection.Some? {
        var target := SkillsTarget(location, page.skillsSection.value);
        storage := storage[STORAGE_KEY := partial];
        location := target;
      } else {
        outbox := outbox + [ProfileScraped(partial)];
      }
    }

    /**
     * `processSkillsPage`: without a parked profile, return and change
     * nothing; otherwise replace its skills with the details page's, remove
     * the key, and send the completed profile once.
     */
    method ProcessSkillsPage(items: seq<SkillItem>, pats: Patterns)
      modifies this
      ensures location == old(location)
      ensures STORAGE_KEY !in old(storage) ==> storage == old(storage) && outbox == old(outbox)
      ensures STORAGE_KEY in old(storage) ==>
        && storage == old(storage) - {STORAGE_KEY}
        && outbox == old(outbox) + [ProfileScraped(old(storage)[STORAGE_KEY].(skills := DetailsPageSkills(items, pats)))]
    {
      if STORAGE_KEY !in storage {
        return;
      }
      var profile := storage[STORAGE_KEY];
      var skills := ExtractSkillsFromDetailsPage(items, pats);
      profile := profile.(skills := skills);
      storage := storage - {STORAGE_KEY};
      outbox := outbox + [ProfileScraped(profile)];
    }

    /** `boot`: run the phase the current URL calls for; an unknown page changes nothing. */
    method Boot(page: MainPage, items: seq<SkillItem>, pats: Patterns) returns (phase: Phase)
      modifies this
      ensures phase == Dispatch(Href(old(location)))
      ensures phase == UnknownPage ==>
        location == old(location) && storage == old(storage) && outbox == old(outbox)
      ensures phase == MainPhase && page.skillsSection.Some? ==>
        && storage == old(storage)[STORAGE_KEY := PartialProfile(page)]
        && location == SkillsTarget(old(location), page.skillsSection.value)
        && outbox == old(outbox)
      ensures phase == MainPhase && page.skillsSection.None? ==>
        && storage == old(storage) && location == old(location)
        && outbox == old(outbox) + [ProfileScraped(PartialProfile(page))]
      ensures phase == SkillsPhase ==> location == old(location)
      ensures phase == SkillsPhase && STORAGE_KEY !in old(storage) ==>
        storage == old(storage) && outbox == old(outbox)
      ensures phase == SkillsPhase && STORAGE_KEY in old(storage) ==>
        && storage == old(storage) - {STORAGE_KEY}
        && outbox == old(outbox) + [ProfileScraped(old(storage)[STORAGE_KEY].(skills := DetailsPageSkills(items, pats)))]
    {
      phase := Dispatch(Href(location));
      if phase == SkillsPhase {
        ProcessSkillsPage(items, pats);
      } else if phase == MainPhase {
        ProcessMainProfilePage(page);
      }
    }
  }

  /**
   * The whole hand-off: a run on a profile page with a skills section,
   * then a run on the page it moved to, then another run there, send
   * exactly one message, the profile with the details page's skills, and
   * leave no parked profile behind.
   */
  method TwoPhaseScrape(s: Session, page: MainPage, items: seq<SkillItem>, pats: Patterns)
    requires Dispatch(Href(s.location)) == MainPhase
    requires page.skillsSection.Some?
    requires page.skillsSection.value.Some? ==> Dispatch(Href(page.skillsSection.value.value)) == SkillsPhase
    modifies s
    ensures s.outbox == old(s.outbox) + [ProfileScraped(PartialProfile(page).(skills := DetailsPageSkills(items, pats)))]
    ensures s.storage == old(s.storage) - {STORAGE_KEY}
    ensures STORAGE_KEY !in s.storage
  {
    var first := s.Boot(page, items, pats);
    if page.skillsSection.value.None? {
      FallbackSkillsUrlIsSkillsPage(old(s.location));
    }
    var second := s.Boot(page, items, pats);
    assert s.storage == old(s.storage) - {STORAGE_KEY};
    var third := s.Boot(page, items, pats);
  }

  /**
   * On a profile page boot runs the main phase for, the built skills page
   * has the path the content script would fetch: the origin is the same
   * and the path is the normalised profile path followed by
   * `/details/skills/`.
   */
  lemma FallbackMatchesNormalizedPath(current: Url)
    requires Dispatch(Href(current)) == MainPhase
    ensures FallbackSkillsUrl(current).origin == current.origin
    ensures FallbackSkillsUrl(current).pathname ==
      DropTrailingSlash(BeforeFirst(current.pathname, "/details/")) + SKILLS_SUFFIX
  {
    if Contains(current.pathname, "/details/") {
      PathInHref(current, "/details/");
    }
    BeforeFirstWithout(current.pathname, "/details/");
  }
}
