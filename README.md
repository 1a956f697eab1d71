# LinkedIn profile scraper: a Dafny model of the extraction core

The browser extension reads a LinkedIn profile page and sends back the profile
as structured data: name, headline, location, about, experiences, education
and skills. It has two content scripts, and this project models both.

- `extension/content.js` works on a single page. It clicks the "see more"
  controls in bounded rounds. It then reads the header fields and parses the
  experience and education sections, each through its primary markup or a
  fallback. Skills come from a three-step fallback chain: the page opened by
  a "show all skills" trigger, then a fetched `/details/skills/` page, then
  the inline skills section. The result is sent as a `profileScraped` or a
  `profileError` message. Every step appends to a debug log whose metadata is
  serialised into plain data.
- `extension/background.js` works in two phases. On the main profile page it
  builds a partial profile. If the page has a skills section, it parks the
  profile in session storage under `li_scraper_pending_data` and navigates to
  the skills page. On the skills page it takes the parked profile, fills in
  the skills parsed from the details page, removes the key, and sends the
  completed profile once.

How the model represents the page:

- The DOM is abstract. Each queried element is its raw `textContent`, as an
  `Option<string>` that is `None` when the selector finds nothing.
- A section is an `Option` of its entities. Each entity groups the elements
  the selectors would find inside it.
- Regular expressions, with the `toLowerCase` in front of them, are abstract
  predicates on strings.
- URLs are parsed values `Url(origin, pathname, search, hash)`, and `Href`
  puts them back together.

Whitespace normalisation, the `·` and `,` splitting, digit extraction, the
"first entry per name, at most N" deduplication and the path handling are
modelled exactly up to integer precision: counts are unbounded integers,
not JavaScript numbers (see "## Left out").

Modules, in dependency order:

| module | file | models |
|---|---|---|
| `Wrappers` | wrappers.dfy | `Option` |
| `Text` | text.dfy | `textContent` normalisation, JS truthiness and `\|\|`, `split`/`join`/`trim`, substring search, digit strings |
| `Seqs` | seqs.dfy | filtering, truncation, first-occurrence-per-key, subsequences |
| `Urls` | urls.dfy | the parsed URL and the trailing-slash step |
| `ContentLog` | content_log.dfy | `serializeMeta` and the content script's debug log |
| `Buttons` | buttons.dfy | the clickable controls and the selection of a click pass |
| `ContentSections` | content_sections.dfy | the content script's experience and education extractors |
| `ContentSkills` | content_skills.dfy | the content script's skills parsers, the skills URL and the fallback chain |
| `ContentPage` | content_page.dfy | clicking, expansion rounds and `collectProfile` |
| `BackgroundExtract` | background_extract.dfy | the background script's extractors |
| `BackgroundPage` | background_page.dfy | clicking, scrolling, the two phases, `boot` and the storage hand-off |

Four behaviours of the background script are worth stating plainly, and
the model keeps each:

- The main phase does not clear parked state left over from an earlier run
  (extension/background.js:175-245).
- When the skills phase finds nothing parked, it returns without sending
  anything (extension/background.js:252-257).
- The background script sends no error message at all.
- The logs are part of the messages but are never parked across the
  navigation.

## Model

| member | source | states |
|---|---|---|
| `Text.Normalize` | extension/content.js:45-46 | the result has no leading or trailing whitespace and no two whitespace characters in a row, every whitespace character is a space, the non-whitespace characters are kept in order, and an already normal string is unchanged |
| `Text.NormalizeDropsLeadingSpace` | extension/content.js:45-46 | white space in front of any text does not change its normal form: the text is trimmed after the runs are collapsed |
| `Text.NormalizeDropsTrailingSpace` | extension/content.js:45-46 | white space after any text does not change its normal form: the text is trimmed after the runs are collapsed |
| `Text.NormalizeSeparatesWords` | extension/content.js:45-46 | a run of whitespace between two visible characters becomes exactly one space: the text on each side is normalised on its own and the two are joined by a single space |
| `Text.PresentTexts` | extension/content.js:195-199 | every kept text is non-empty and normalised |
| `Text.PresentTextsComplete` | extension/content.js:195-199 | the kept texts are the elements' normalised texts in order, and every non-empty text is kept exactly as often as it occurs |
| `Text.TextContent` | extension/content.js:45-46 | a missing element gives `null` and a present one gives a string; a present element's text is normal and keeps every visible character in order |
| `Text.TextContentFixesNormal` | extension/content.js:45-46 | a present element whose text is already normal gives exactly that text |
| `Text.BeforeFirst` | extension/content.js:306 | the result is a prefix of the input; either it is the whole input or the separator starts right after it; no occurrence of the separator starts earlier |
| `Text.JoinThenSplit` | extension/content.js:181-183 | splitting a join of `·`-free parts on `·` gives the parts back |
| `Text.DecimalRoundTrip` | extension/content.js:382-383 | keeping the digits of a number's decimal numeral and reading them as a number gives the number back |
| `Text.FirstDigitRunAfter` | extension/background.js:151-152 | the first run of digits in a digit-free prefix, a digit run and a rest that does not start with a digit is exactly that digit run |
| `Seqs.FirstsDistinct` | extension/content.js:401-410 | keeping the first element per key leaves no two elements with the same key |
| `Seqs.FirstsAreFirst` | extension/content.js:401-410 | every kept element is the first element of the input with its key |
| `Seqs.FirstsKeySet` | extension/content.js:401-410 | keeping the first element per key loses no key |
| `Urls.DropTrailingSlash` | extension/background.js:222-225 | the path is unchanged or loses exactly one final `/`; a path ending in `/` always loses it |
| `ContentLog.SerializeMeta` | extension/content.js:23-34 | the result is plain data; plain data is unchanged; an array keeps its length and an object its keys in order, each value serialised; an `Error` becomes its message; a function becomes its name, or `"function"` when it has none |
| `ContentLog.DebugLog.Log` | extension/content.js:36-43 | the log gains exactly one entry at its end, with the step and the serialised metadata, and metadata only when some was passed |
| `Buttons.Label` | extension/content.js:116 | the label is empty exactly when the inner text is empty and the `aria-label` is missing or empty; a non-empty label is the inner text or the `aria-label`; a non-empty inner text is always the label |
| `Buttons.SelectedIndices` | extension/content.js:112-123 | the indices of exactly the controls whose label matches some pattern (and that are visible, in the checking variant), strictly increasing and in range |
| `Buttons.NoneSelected` | extension/content.js:134-136 | a pass clicks nothing exactly when no control's label matches, which is when the expansion rounds stop |
| `Buttons.PassCountsAll` | extension/content.js:125-141 | each recorded pass count is the number of controls that pass selects on the page as it then is |
| `Buttons.VisibleSelectionIsNarrower` | extension/background.js:60-73 | the visibility-checking pass clicks only visible controls, and only ones the unchecked pass would also click |
| `ContentSections.SplitCompanyLine` | extension/content.js:178-184 | a line without `·` is the company with no employment type; a non-empty line gives a non-empty company; a normalised line gives a normalised company; an employment type appears only when the line has a `·`, and it is never empty |
| `ContentSections.CompanyLineOfParts` | extension/content.js:178-184 | a line joined by `·` from any two or more `·`-free raw parts gives the first part trimmed as the company (the whole line when that part trims to nothing) and the other parts, each trimmed, rejoined by ` · ` as the employment type (`null` when that is empty) |
| `ContentSections.SplitDegreeLine` | extension/content.js:265-278 | a degree line without a comma is kept with the field-of-study element's text; with a comma, it splits into the degree and the rest as the field, which is never empty when present; a normalised line gives a normalised degree |
| `ContentSections.DegreeLineOfParts` | extension/content.js:265-278 | a degree line joined by `,` from any two or more comma-free raw parts gives the first part trimmed as the degree and the other parts, each trimmed, rejoined by `, ` as the field (`null` when that is empty) |
| `ContentSections.PickLocation` | extension/content.js:194-203 | a location is found exactly when some caption row is neither the duration nor a duration-like text, and it is the first such row |
| `ContentSections.ExperienceOf` | extension/content.js:162-231 | title, duration and description are normalised text or `null`; the title is the title element's text when that is non-empty, else the fallback title element's; the company is present exactly when the company line is non-empty, and then the company and employment type are what `SplitCompanyLine` gives for that line, the company non-empty and normalised; an employment type implies a company; duration and description are their elements' non-empty texts or `null`; the location is what `PickLocation` picks among the present caption rows, normalised and different from the duration; the logo is the image source or `null`; the role skills are the present skill texts |
| `ContentSections.ExperienceNodes` | extension/content.js:151-159 | a non-empty primary entity list is used as it is; otherwise the fallback list items that hold a `div.display-flex`, in order, each exactly as often as it occurs |
| `ContentSections.ExtractExperiences` | extension/content.js:144-162 | no section gives no experiences; with a section, the first at most 5 entities of the primary list, or of the fallback list when the primary one is empty, each parsed in order |
| `ContentSections.EducationOf` | extension/content.js:250-298 | every field is normalised text or `null`; school and dates are their elements' non-empty texts or `null`; degree and field are what `SplitDegreeLine` gives for the degree element's and the field-of-study element's non-empty texts; activities and description are their elements' texts, present exactly when the elements are; the logo is the image source or `null` |
| `ContentSections.EducationNodes` | extension/content.js:244-248 | a non-empty primary entity list is used as it is; otherwise the whole fallback list, unfiltered |
| `ContentSections.ExtractEducation` | extension/content.js:237-250 | no section gives no education; with a section, the first at most 4 entities of the primary or fallback list, each parsed in order |
| `ContentSkills.ParseEndorsementCaption` | extension/content.js:381-384 | a caption without digits is kept as text; a caption with digits becomes the count whose value is the number its digits spell, read in order with every other character removed |
| `ContentSkills.EndorsementCountOfDigits` | extension/content.js:382-383 | any caption whose digits, with every other character removed, are the decimal numeral of n gives the count n |
| `ContentSkills.EndorsementCountOfGroups` | extension/content.js:382-383 | a caption whose digits come in two groups split by digit-free text, such as `1,234 endorsements`, gives the count the two groups spell together |
| `ContentSkills.EndorsementCountOfNumeral` | extension/content.js:382-383 | a caption made of digit-free text, the decimal numeral of n and more digit-free text gives the count n |
| `ContentSkills.EndorsementsOf` | extension/content.js:379-384 | there are no endorsements exactly when no detail text matches the endorsement pattern; otherwise the first matching text's caption decides them |
| `ContentSkills.Insights` | extension/content.js:390-392 | the insights are exactly the detail texts that match neither the endorsement nor the assessment pattern, in their original order, each as often as it occurs |
| `ContentSkills.DetailTexts` | extension/content.js:376-377 | the detail texts are non-empty and normalised, keep the sub-elements' order, and hold every non-empty sub-element text exactly as often as it occurs |
| `ContentSkills.SkillOf` | extension/content.js:368-398 | the name is the name element's normalised text, or `null` when that is missing or empty; endorsements, the assessment flag and insights come from the detail texts as those functions state; the related links are the link elements one for one, each with its `href` and normalised text |
| `ContentSkills.KeptSkillsShape` | extension/content.js:401-410 | the kept skills are at most 15, all named, with pairwise different names, in the order of the parsed skills |
| `ContentSkills.KeptSkillIsFirst` | extension/content.js:401-410 | every kept skill is the first named skill with its name |
| `ContentSkills.KeptSkillsKeepEveryName` | extension/content.js:401-410 | when there are at most 15 distinct names, every name among the named skills is kept |
| `ContentSkills.KeepFirstSkills` | extension/content.js:401-410 | the loop with `seen` and the early `break` returns the first skill per name, unnamed skills skipped, truncated to 15 |
| `ContentSkills.ParseSkillsFromDocument` | extension/content.js:362-411 | the document's skill entities are parsed and then deduplicated and capped as `KeptSkills` states |
| `ContentSkills.InlineCollected` | extension/content.js:413-436 | the inline skills are named, carry no endorsements and no passed assessment; a missing section gives none; with a section, they are the named entries of the parsed entities in order, each as often as it occurs |
| `ContentSkills.ParseInlineSkills` | extension/content.js:413-448 | the inline entities with a non-empty name are deduplicated by name and capped at 15 |
| `ContentSkills.NormalizeProfilePath` | extension/content.js:303-312 | an unparsable URL gives `null`; otherwise the result is a prefix of the pathname holding no `/details/`, namely the part before the first `/details/` without its trailing `/`, if it has one |
| `ContentSkills.SkillsFetchUrl` | extension/content.js:339-341 | the fetched URL keeps the current origin and query, has the profile path followed by `/details/skills/` as its path, and has no hash |
| `ContentSkills.SkillsFetchUrlNormalizesBack` | extension/content.js:335-341 | for a profile path without `/details` and not ending in `//`, normalising the skills page URL gives back the profile path it was built from |
| `ContentSkills.HasShowAllTrigger` | extension/content.js:314-320 | a "show all skills" trigger exists exactly when some control's label, its inner text or else its `aria-label`, matches the pattern, which is when a selection pass with that one pattern would pick a control |
| `ContentSkills.FetchedSkills` | extension/content.js:335-360 | a URL without a profile path gives nothing, as the thrown error does; otherwise the skills page URL built from that path is fetched, a failed fetch gives nothing, and a fetched page gives its skills deduplicated by name and capped as `KeptSkills` states, at most 15 |
| `ContentSkills.ExtractSkills` | extension/content.js:450-479 | the skills come from the "show all" page exactly when a trigger exists and that page yields any; otherwise from the fetched details page exactly when it yields any; otherwise from the inline section; the first two sources never give an empty list |
| `ContentPage.ClickAllButtonsLike` | extension/content.js:112-123 | the controls clicked are exactly the selected ones, in order, and the count is their number |
| `ContentPage.ExpandAllSeeMore` | extension/content.js:125-141 | between one and three rounds run; each round's count is the number of matching controls at that point; every round but the last clicked something; fewer than three rounds means the last one clicked nothing |
| `ContentPage.CollectProfile` | extension/content.js:482-557 | a timeout on `main` or an empty name is reported as the corresponding error; otherwise the profile message carries the non-empty name, the header fields (empty ones as `null`), the about text, the extracted experiences and education, and the skills of the fallback chain; it is a profile exactly when neither error applies |
| `BackgroundExtract.CompanyOf` | extension/background.js:105-109 | a missing line gives no company; a line without `·` is the company; otherwise the company is trimmed and holds no `·` |
| `BackgroundExtract.CompanyBeforeDot` | extension/background.js:106-109 | for a line `a·b` with `a` free of `·`, the company is `a` trimmed |
| `BackgroundExtract.ExperienceOf` | extension/background.js:103-114 | title and duration are the elements' texts; the company comes from the company line; the location is the first location element's text when that is non-empty, else the second's |
| `BackgroundExtract.ExtractExperiences` | extension/background.js:94-116 | no section gives none; otherwise the first at most 50 entities, parsed in order |
| `BackgroundExtract.ExtractEducation` | extension/background.js:118-129 | no section gives none; otherwise the first at most 10 entities as school and degree texts, in order |
| `BackgroundExtract.EndorsementCount` | extension/background.js:148-153 | a caption without digits counts 0 |
| `BackgroundExtract.EndorsementCountOfRun` | extension/background.js:150-152 | the count is the value of the first digit run of the caption |
| `BackgroundExtract.EndorsementsOf` | extension/background.js:148-153 | no matching sub-text counts 0; otherwise the first matching sub-text's count |
| `BackgroundExtract.SkillOf` | extension/background.js:139-157 | the skill's name is normalised text |
| `BackgroundExtract.NamedSkills` | extension/background.js:137-158 | the entities without a name element are dropped, and the others are parsed in order |
| `BackgroundExtract.DetailsPageSkillsShape` | extension/background.js:160-170 | the details page's skills are at most 50, with pairwise different names, in the order of the parsed skills |
| `BackgroundExtract.DetailsPageSkillIsFirst` | extension/background.js:160-170 | every kept skill is the first parsed skill with its name |
| `BackgroundExtract.DetailsPageSkillsKeepEveryName` | extension/background.js:160-170 | with at most 50 distinct names, every name is kept |
| `BackgroundExtract.KeepFirstPerName` | extension/background.js:160-168 | the `forEach` with `seen` keeps exactly the first skill per name |
| `BackgroundExtract.ExtractSkillsFromDetailsPage` | extension/background.js:133-171 | the result is the parsed named skills, first per name, at most 50 |
| `BackgroundPage.ClickAllButtonsLike` | extension/background.js:60-73 | exactly the visible matching controls are clicked, in order, and the count is their number |
| `BackgroundPage.ExpandAllSeeMore` | extension/background.js:75-81 | between one and three passes run; each pass's count is the number of visible matching controls at that point; every pass but the last clicked something; fewer than three passes means the last one clicked nothing |
| `BackgroundPage.AutoScrollPage` | extension/background.js:39-58 | the page scrolls in 800-pixel steps until the starting height is covered and no further, then the "show more" controls are clicked once |
| `BackgroundPage.PartialProfile` | extension/background.js:184-203 | the parked record holds the name, headline and location texts, the about text exactly when the about section and its text element are present, the extracted experiences and education, and no skills |
| `BackgroundPage.SkillsTarget` | extension/background.js:215-226 | the "see all" link's target when the link is present; otherwise a URL with the current origin, no query and no hash, whose path is the current path less one final `/` followed by `/details/skills/` |
| `BackgroundPage.FallbackSkillsUrl` | extension/background.js:221-227 | the built skills page keeps the origin, drops the query and hash, and has the path less one final `/` followed by `/details/skills/` |
| `BackgroundPage.Dispatch` | extension/background.js:288-308 | a URL holding `/details/skills` runs the skills phase; otherwise a URL holding `/in/` and no `/details/` runs the main phase; anything else runs neither |
| `BackgroundPage.FallbackSkillsUrlIsSkillsPage` | extension/background.js:221-227 | the built skills page is dispatched to the skills phase |
| `BackgroundPage.FallbackMatchesNormalizedPath` | extension/background.js:222-226 | on a main-phase page, the built skills page's path equals the content script's normalised profile path followed by `/details/skills/` |
| `BackgroundPage.Session.ProcessMainProfilePage` | extension/background.js:175-245 | with a skills section: the partial profile is parked under the storage key, the location moves to the link's target or the built skills page, and nothing is sent; without one: the partial profile is sent and nothing else changes |
| `BackgroundPage.Session.ProcessSkillsPage` | extension/background.js:247-285 | with nothing parked, nothing changes; otherwise the parked profile with the details page's skills is sent once, the key is removed, and the location stays |
| `BackgroundPage.Session.Boot` | extension/background.js:288-308 | the phase follows `Dispatch` on the current URL, its effect is that phase's, and an unknown page changes nothing |
| `BackgroundPage.TwoPhaseScrape` | extension/background.js:205-281 | a run on a profile page with a skills section that leads to a skills page, then a run there, then another run there, sends exactly one message, the partial profile with the details page's skills, and leaves nothing parked |

## Left out

- Waiting is not modelled: `observeUntil`, `waitForSelectors`, `waitForAnySelector`, `waitForSelector` and every `delay`. They only pass time or time out. The one timeout that changes the outcome, `main` never appearing in the content script, is the flag `ProfilePage.mainAppears`.
- The content script's `autoScrollPage` is left out. It makes ten fixed scroll steps and computes nothing.
- The page's reaction to clicks and scrolling comes from the caller. `ExpandAllSeeMore` takes the controls of each round as `domAt`. `ExtractSkills` takes the entities shown after the "show all" click as `afterShowAll`. `AutoScrollPage` takes the page height once and does not model content that loads during the scroll.
- `fetch` and `DOMParser` become the parameter `fetchPage`. A failed request, a bad status and a thrown error all map to `None`. The request headers and credentials are not modelled.
- `safeSendMessage` and `postMessage` become the returned message in the content script and are appended to `Session.outbox` in the background script. The `debugLogs` attached to each message are not part of the modelled message.
- `console` output is not modelled, and neither are the timestamps of log entries.
- Only the content script's log itself is modelled, by `ContentLog.DebugLog`. The entries each step appends are not modelled. The background script's `debugLog` stores its metadata without transformation and is not modelled.
- `hookSpaNavigation`, the injection guard `__linkedinScraperInjected`, and waiting for `readyState` or `load` are event plumbing and are left out. `boot` is modelled as deciding which phase runs.
- Regular expressions and CSS selectors are not interpreted. Each pattern is a predicate, and each selector's result is an input. `closest('section')` is folded into the section being present.
- The background script parks the profile with `JSON.stringify` and reads it back with `JSON.parse`. The model stores the profile value and assumes this round trip is the identity. A corrupt stored string, which would make `JSON.parse` throw, is not modelled.
- A `click()` that throws, which the background script catches, is not modelled; clicks always succeed.
- `ContentSkills.ParseEndorsementCaption`: the count is the exact value of the digits. It does not model the loss of precision `Number` has beyond 2^53.
- `BackgroundExtract.EndorsementCount`: the count is the exact value of the first digit run. It does not model the precision of `parseInt` beyond 2^53.
- `ContentLog.SerializeMeta`: `meta` is a finite plain tree. Cyclic objects, symbol keys, getters and prototype-specific objects such as `Date` are not modelled. Neither are numbers other than integers.
- `ContentPage.CollectProfile` returns one message. The side effects of the skills extraction, which happen even when the name is missing, are only visible through `ExtractSkills`.
- A click pass reads every control's label and visibility before it clicks the first one: a click that changes another control within the same pass is not modelled (extension/content.js:115-121, extension/background.js:63-71). Changes between passes are modelled through `domAt`.
- The main phase's navigation target is taken as a parsed `Url`. A "show all" link with an empty `href`, which makes the browser reload the current page, is not modelled (extension/background.js:218-235).
- `BackgroundExtract.SkillOf` states only that the name is normalised. The endorsement count and the assessment flag are stated by `EndorsementsOf` and `PassedAssessment`, which it calls.
- `ContentSkills.ExtractSkills` takes one `current` URL. The source reads the profile path from the URL captured before the "show all" click (extension/content.js:525, 336) and the origin and query from the page's URL at fetch time (extension/content.js:339). A navigation caused by the click, between those two reads, is not modelled.
- `extension/popup.js` and `web/app.js` are the user interface and are not part of this model.
