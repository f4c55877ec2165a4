# Blog front-end logic, modelled in Dafny

This project models the self-contained logic inside `assets/js/main.js`, the
script of a static blog theme. It covers six pieces:

- **Visual-width truncation** (`getVisualLength`, `truncateByVisualLength` and
  the `initTextTruncation` pass). It shortens post titles to 26 "wide
  character" units and summaries to 32, then appends `...`.
- **The copy-link throttle** (`copyLink` and its two counters). The first two
  clicks copy the link. The third click starts a ten-second cooldown.
- **Navbar hide/show on scroll** (`handleScroll` and `lastScrollTop`).
- **The table of contents** (`initTOC`). It assigns ids, builds one entry per
  heading and picks the heading to highlight while scrolling.
- **Search-result shaping** in the search dialog. The search library is an
  opaque ranking function.
- **The theme toggle** and `switchCodeTheme`.

Strings are sequences of UTF-16 code units (`JsString.Text`), because the
script walks them with `charAt` and `length`. A surrogate pair is two units
and can be split by truncation. Visual lengths are counted in half-units: a
wide unit is 2 and any other unit is 1. The script's budget `maxLength` is
therefore compared as `2 * maxLength`. This is exact for the integer budgets
used. State the script updates in place is modelled as classes with
`modifies` clauses:

- the throttle counters;
- the navbar and its remembered position;
- heading ids;
- element text;
- the search input and results;
- the theme attribute and stylesheets.

Each class method is tied to a pure function, and the lemmas are stated about
that function.

Three behaviours of the code are worth stating, because a reader might
expect otherwise. The model follows the code in each:

- The doc comment of `initTextTruncation` (main.js:571) gives 26 as the
  summary budget, but the code uses 32. `TextTruncation.SummaryBudget` is 32.
- Truncation is not idempotent. `"a中"` truncated to
  one unit gives `"a..."`, and truncating that again gives `"a...."`. This is
  exhibited by `TruncationNotIdempotentExample`.
  `TruncationTwice` gives the exact condition under which it is idempotent:
  the string fits, or the kept prefix uses the whole budget.
- A click during the cooldown does not restart the ten-second window. It only
  reports the time left, and both counters stay as they were
  (`CooldownBlocks`).

## Model

| member | source | states |
|---|---|---|
| `JsString.Decimal` | assets/js/main.js:227 | `${index}` is one or more decimal digits, with no leading zero; it is a single digit exactly for numbers below ten |
| `JsString.DecimalInjective` | assets/js/main.js:227 | distinct indices render to distinct digit strings |
| `JsString.TrimStart` | assets/js/main.js:161 | the result is a suffix of the input, everything removed is white space, and the result does not start with white space |
| `JsString.TrimEnd` | assets/js/main.js:161 | the result is a prefix of the input, everything removed is white space, and the result does not end with white space |
| `JsString.Trim` | assets/js/main.js:161 | `value.trim()` neither starts nor ends with white space, and it is empty exactly when the input is all white space |
| `JsString.TrimIsInfix` | assets/js/main.js:161 | `value.trim()` is an infix of the input with only white space before and after it: trimming removes the two ends and nothing else |
| `JsString.TrimPadded` | assets/js/main.js:161 | white space added before and after a string does not change its trimmed form |
| `JsString.TrimIdempotent` | assets/js/main.js:161 | trimming twice equals trimming once |
| `TextTruncation.HalfWidth` | assets/js/main.js:575-587 | the visual length of a string lies between its length and twice its length, in half-units; it is 0 for the empty string |
| `TextTruncation.HalfWidthAppend` | assets/js/main.js:575-587 | visual length is additive over concatenation |
| `TextTruncation.HalfWidthPrefixGrows` | assets/js/main.js:593-600 | each extra code unit of a prefix adds at least one half-unit |
| `TextTruncation.GetVisualLength` | assets/js/main.js:575-587 | the loop's total equals the sum of the unit weights: 2 for U+4E00..U+9FA5, U+3000..U+303F and U+FF00..U+FFEF, 1 otherwise |
| `TextTruncation.Cut` | assets/js/main.js:593-605 | the number of units kept never exceeds the string's length |
| `TextTruncation.CutWhole` | assets/js/main.js:593-606 | every unit is kept if and only if the string is empty or within budget |
| `TextTruncation.CutFits` | assets/js/main.js:597-604 | for a non-negative budget, the kept prefix is within budget |
| `TextTruncation.CutMaximal` | assets/js/main.js:597-603 | the unit right after the kept prefix pushes the running total strictly over the budget |
| `TextTruncation.CutIsLongestFit` | assets/js/main.js:593-606 | a prefix is within a non-negative budget if and only if it is no longer than the kept prefix |
| `TextTruncation.TruncateByVisualLength` | assets/js/main.js:590-607 | the loop with its early return computes `Truncation`: the string itself, or the units before the first overflowing unit followed by `...` |
| `TextTruncation.TruncationWithinBudget` | assets/js/main.js:590-607 | a string whose visual length is at most `maxLength` comes back unchanged, with no ellipsis |
| `TextTruncation.TruncationOverBudget` | assets/js/main.js:597-603 | an over-budget string becomes `p + "..."`; `p` is a proper prefix within budget, and `p` plus the next unit is over budget |
| `TextTruncation.OverBudgetPrefixIsTight` | assets/js/main.js:596-603 | the kept prefix of an over-budget string falls at most half a unit short of the budget |
| `TextTruncation.TruncationTwice` | assets/js/main.js:590-607 | truncating twice equals truncating once if and only if the string fits or its kept prefix fills the budget exactly |
| `TextTruncation.CutOfTruncated` | assets/js/main.js:590-607 | re-truncating `p + "..."` keeps all of `p` when `p` fills the budget, and one dot more when it falls half a unit short |
| `TextTruncation.TruncationNotIdempotentExample` | assets/js/main.js:590-607 | `"a中"` at budget 1 gives `"a..."`, and truncating that gives `"a...."` |
| `TextTruncation.GuardedTruncation` | assets/js/main.js:613-614 | the callers' `getVisualLength(full) > max` check before truncating does not change the string computed |
| `TextTruncation.FullText` | assets/js/main.js:612 | a non-empty `data-full-*` attribute is used; otherwise the element's text is used |
| `TextTruncation.DisplayedWithinBudget` | assets/js/main.js:610-625 | an element whose full text is over budget ends up showing at most the budget plus the three dots |
| `TextTruncation.TruncateElements` | assets/js/main.js:610-625 | each element shows its truncated full text when that text is over budget; otherwise its text is left as it was |
| `TextTruncation.TruncateElement` | assets/js/main.js:612-615 | one element shows its truncated full text when that text is over budget, and keeps its text otherwise |
| `TextTruncation.InitTextTruncation` | assets/js/main.js:609-625 | titles are truncated at 26 units and summaries at 32 |
| `CopyLink.CeilSeconds` | assets/js/main.js:406 | `Math.ceil(ms / 1000)`: the least whole number of seconds covering the remaining milliseconds |
| `CopyLink.Step` | assets/js/main.js:399-428 | one click keeps the invariant: the count is in 0..3, the end time is non-negative, and a cooldown is pending exactly when the count is 3 |
| `CopyLink.CopyThrottle.constructor` | assets/js/main.js:394-395 | both counters start at 0, which satisfies the invariant |
| `CopyLink.CopyThrottle.Click` | assets/js/main.js:399-428 | `copyLink` updates the two counters and produces its event exactly as `Step` does, and keeps the invariant |
| `CopyLink.CooldownBlocks` | assets/js/main.js:404-408 | while the cooldown end is later than `now`, a click does not copy and changes neither counter |
| `CopyLink.WaitIsAtMostTen` | assets/js/main.js:404-408 | if the clock has not gone back since the cooldown started, the reported wait is 1 to 10 seconds |
| `CopyLink.ThirdClickStartsCooldown` | assets/js/main.js:417-427 | the third counted click sets the end time to `now + 10000`, shows the 10 s toast and does not copy |
| `CopyLink.ClickAfterExpiry` | assets/js/main.js:409-422 | the first click after the cooldown has passed resets both counters, counts 1 and copies |
| `CopyLink.CopiesBetweenResets` | assets/js/main.js:409-427 | in any series of clicks with no reset, the number of copies equals the growth of `min(count, 2)`, so it is at most two |
| `CopyLink.ThreeClicksThenWait` | assets/js/main.js:399-428 | the sequence copy, copy, cooldown; then a click at least 10 s after the third copies again with the count back at 1 |
| `NavbarScroll.Navbar.constructor` | assets/js/main.js:301 | the remembered position starts at 0 |
| `NavbarScroll.Navbar.HandleScroll` | assets/js/main.js:305-325 | the bar is hidden exactly on an article page, past 100 px, when moving down; the position is then remembered |
| `NavbarScroll.ReplayDependsOnLastMove` | assets/js/main.js:311-323 | after any series of scroll events, the bar's state depends only on the last two positions, and the remembered position is the last one |
| `NavbarScroll.ShownUnlessDescendingArticle` | assets/js/main.js:311-321 | scrolling up, not moving, staying within 100 px, or being on a non-article page always shows the bar |
| `TableOfContents.GeneratedId` | assets/js/main.js:227 | a generated id is `heading-` followed by at least one more unit |
| `TableOfContents.GeneratedIdsDistinct` | assets/js/main.js:226-228 | headings at different indices get different generated ids |
| `TableOfContents.AssignedId` | assets/js/main.js:226-228 | an empty id becomes `heading-<index>`; a non-empty id is kept; the result is never empty |
| `TableOfContents.AssignedIdsDistinct` | assets/js/main.js:224-228 | if the existing ids are distinct and none looks generated, every heading ends up with its own id |
| `TableOfContents.EntryFor` | assets/js/main.js:230-238 | an entry has the class `toc-h3` exactly when its heading is an h3; it links to `#` plus the id and shows the heading text |
| `TableOfContents.BuildToc` | assets/js/main.js:212-241 | with no headings the card is hidden; otherwise every id is assigned, and there is exactly one entry per heading, in order |
| `TableOfContents.LastReached` | assets/js/main.js:251-256 | the index of the last heading with `offsetTop - 100 <= scrollY`, or -1 if there is none |
| `TableOfContents.ActiveId` | assets/js/main.js:247-256 | `current` is the id of the last heading reached, or `''` if no heading is reached |
| `TableOfContents.HighlightIsLastReached` | assets/js/main.js:247-262 | with non-empty distinct ids, exactly the entry of the last heading reached is active, or none is |
| `Search.ToHits` | assets/js/main.js:171-176 | there is one rendered hit per result, in the oracle's order, with a missing excerpt shown as `''` |
| `Search.Results` | assets/js/main.js:160-184 | an empty trimmed query or an unloaded index clears the results; otherwise the first `min(6, n)` results are shown in order, or the single placeholder when `n` is 0 |
| `Search.PaddedQuery` | assets/js/main.js:161 | white space typed around a query does not change what is shown |
| `Search.ShownCount` | assets/js/main.js:168-184 | with the index loaded, `n` matches show `min(6, n)` hits, or the placeholder when `n` is 0 |
| `Search.SearchPanel.constructor` | assets/js/main.js:141-142 | the index starts absent and the results start empty |
| `Search.SearchPanel.IndexLoaded` | assets/js/main.js:149-155 | a successful load installs the index and changes nothing else |
| `Search.SearchPanel.OnInput` | assets/js/main.js:160-185 | the box takes the typed value, and the results element is set to `Results` of that value and the index |
| `Search.SearchPanel.OnHidden` | assets/js/main.js:194-197 | closing the dialog empties both the input and the results, which matches what the empty input would show |
| `Theme.NextTheme` | assets/js/main.js:51-52 | a click gives `light` exactly when the theme was `dark`, and `dark` otherwise |
| `Theme.NextThemeTwice` | assets/js/main.js:51-52 | two clicks from `dark` or `light` come back to it |
| `Theme.SwitchCodeTheme` | assets/js/main.js:118-129 | the dark sheet is enabled exactly for `dark` and the light sheet otherwise; when both sheets are present, exactly one is enabled |
| `Theme.ThemeToggle.UpdateIcon` | assets/js/main.js:38-45 | the icon is a sun exactly in the dark theme, and the highlighting sheets follow the theme |
| `Theme.ThemeToggle.Click` | assets/js/main.js:50-57 | the theme flips and is stored, and the icon and sheets follow the new theme |

## Left out

- Fetching `search.json`, JSON parsing and the fuzzy matching with threshold 0.4. These are network I/O and a third-party library; the index is an opaque function from query to ranked records, absent until loaded.
- HTML markup and `innerHTML`. Results and TOC entries are records, not markup, and HTML escaping of titles and excerpts is not modelled.
- The clipboard API, the `execCommand` fallback and the success and failure toasts with their timers. These are browser I/O; a click yields `Copied` or `RetryLater(seconds)` as an event.
- Focusing the input when the search dialog opens. It changes no modelled state.
- The `requestAnimationFrame` "ticking" guards. These are browser scheduling, not logic.
- The TOC container's auto-scrolling and the reading-progress bar. Both are geometry and floating-point percentages.
- Snowfall, the WeChat share modal, page transitions, back-to-top, KaTeX and Prism set-up. These are DOM and animation wrappers around external libraries.
- The early returns of each initialiser when its elements are missing, and the first `updateIcon` call at start-up. Both are DOM lookups; `UpdateIcon` is modelled as a method.
- Scroll positions, `offsetTop` and truncation budgets are whole numbers. Fractional pixel offsets and non-integer budgets are not modelled.
- `Date.now()` is a natural number, since the clock counts milliseconds since 1970.
- `TextTruncation.InitTextTruncation` requires the title and summary elements to be distinct. An element carrying both classes would be truncated twice, and that case is not modelled.
- `CopyLink.WaitIsAtMostTen` assumes the clock has not gone back since the click that started the cooldown. With a clock set backwards, the script can report more than ten seconds.
- Restoring the saved theme on load is done outside this script and is not part of this model.
