# Election Echo page logic in Dafny

Election Echo is a single-page tracker of politicians' public promises.
`script.js` holds four sample promise records and shows them as cards. A row
of category tabs and a search box narrow the list. A mobile menu button opens
and closes the navigation panel.

This project models the logic behind that page:

- **The filter** (`PromiseFilter`). A record is shown when both conditions hold:
  - the active tab is `"all"` or equals the record's status;
  - the lower-cased query occurs in the lower-cased promise text, politician or state.

  The result keeps the input order.
- **The string primitives the filter and the labels use** (`Text`):
  - `toLowerCase` and `toUpperCase` on ASCII letters;
  - `includes`;
  - `replace` with a one-character pattern, which replaces only the first match.
- **The fixed data** (`PromiseData`): the four records and the four tab values. The three filter scenarios over that data are in `SampleScenarios`.
- **The three status lookups** (`StatusStyle`): badge colour, progress-bar colour and status icon. Each falls back on a gray or empty default for an unknown status.
- **`formatTabLabel`** (`TabLabel`), used for tab buttons and status badges.
- **The two state variables and their handlers** (`ViewState`):
  - `activeTab` and `searchQuery` are fields of the class `Page`;
  - a tab click assigns the button's `data-tab` value;
  - a search-box `input` event assigns the box's value;
  - `Shown` is the list that `renderPromises` then displays.
- **The mobile menu's click handler** (`MobileMenu`): a class over the `hidden` flags of the panel, the menu icon and the close icon.

Modules follow the functions of `script.js`. All files are verified together.

## Model

| member | source | states |
|---|---|---|
| Text.LowerCharForgetsCase | script.js:109 | after lower-casing, a character is never an upper-case letter, and the result ignores the character's original case |
| Text.LowerForgetsCase | script.js:109 | under ASCII case mapping, `toLowerCase` of the upper- or lower-cased query is `toLowerCase` of the query itself |
| Text.IncludesIffOccurs | script.js:110-112 | `includes` is true exactly when the pattern occurs at some index of the string |
| Text.IncludesEmpty | script.js:110-112 | every string includes the empty query |
| Text.NotIncludedWithoutFirstChar | script.js:110-112 | a non-empty pattern whose first character is absent from the string is not included |
| Text.LowerAppend | script.js:109-112 | lower-casing distributes over concatenation |
| Text.LowerKeepsNonUpper | script.js:109-112 | a string with no upper-case letter is its own lower-cased form |
| Text.LowerExcludes | script.js:109-112 | a lower-case letter absent from a string in both cases is absent from its lower-cased form |
| Text.NotIncludedAround | script.js:110-112 | a pattern is not included when its first character occurs at most at one place, namely the middle character `c`, and the character after `c` differs from the pattern's second |
| Text.ReplaceFirstChangesOnlyFirst | script.js:98 | `replace` with a one-character pattern keeps the length and replaces exactly the first occurrence; every other character is kept |
| Text.ReplaceFirstAbsent | script.js:98 | `replace` leaves a string without the pattern unchanged |
| PromiseData.Ids | script.js:4-53 | the identifiers of a list of records, position by position |
| PromiseFilter.FilterBy | script.js:107 | `Array.prototype.filter` returns at most as many elements, each from the input and accepted by the predicate |
| PromiseFilter.SelectedAtPrepend | script.js:107 | putting an element from before every selected position at the front keeps the selection in increasing order |
| PromiseFilter.FilterBySuffixSelects | script.js:107 | filtering a suffix picks exactly the accepted positions of that suffix, in increasing order |
| PromiseFilter.FilterBySelectsInOrder | script.js:107 | the filter result is the sub-list at strictly increasing positions, and those positions are exactly the ones whose element is accepted |
| PromiseFilter.FilterByMembership | script.js:107 | an element is in the result if and only if it is in the input and accepted |
| PromiseFilter.FilterByKeepsAll | script.js:107 | when every element is accepted, the result is the input |
| PromiseFilter.FilterByAgreeing | script.js:107 | predicates that agree on every element give the same result |
| PromiseFilter.FilterByIdempotent | script.js:107 | filtering a filtered list again with the same predicate changes nothing |
| PromiseFilter.FilterByConcat | script.js:107 | filtering distributes over concatenation |
| PromiseFilter.FilterByFour | script.js:107 | on a four-element list each element is kept or dropped on its own, in order |
| PromiseFilter.FilterByOne | script.js:107 | a one-element list is kept exactly when its element is accepted |
| PromiseFilter.Filter | script.js:107-114 | the shown list is no longer than the input, and every shown record is in the input and passes both the tab and the search condition |
| PromiseFilter.FilterSelectsInOrder | script.js:107-114 | the shown list is an order-preserving sub-list, taken from exactly the positions of the records that pass both conditions |
| PromiseFilter.FilterMembership | script.js:107-114 | a record is shown if and only if it is in the input and passes both conditions |
| PromiseFilter.FilterTabCondition | script.js:108 | with a tab other than `"all"`, every shown record has that status |
| PromiseFilter.FilterSearchCondition | script.js:109-112 | every shown record has the lower-cased query at some index of its lower-cased promise, politician or state |
| PromiseFilter.FilterShowsEverything | script.js:107-114 | tab `"all"` with an empty query shows every record in the original order |
| PromiseFilter.FilterDependsOnLowerQuery | script.js:109 | queries with the same lower-cased form show the same records |
| PromiseFilter.FilterIgnoresQueryCase | script.js:109-112 | upper- or lower-casing the query (ASCII case mapping) never changes the result |
| PromiseFilter.FilterIdempotent | script.js:107-114 | filtering the shown list again with unchanged state changes nothing |
| SampleScenarios.SearchMissesWithoutLetter | script.js:109-112 | a query whose first letter is absent from all three lower-cased fields misses the record |
| SampleScenarios.LowerLacksLetter | script.js:109 | a character absent from the lower-cased forms of two strings is absent from that of their concatenation |
| SampleScenarios.JobsLackK | script.js:5-16 | record 1's promise, politician and state contain no `k` once lower-cased |
| SampleScenarios.BusLacksK | script.js:41-52 | record 4's three searched fields contain no `k` once lower-cased |
| SampleScenarios.MilkLacksB | script.js:29-40 | record 3's three searched fields contain no `b` once lower-cased |
| SampleScenarios.TabletsPromiseMissesKarnataka | script.js:20 | record 2's lower-cased promise does not include `"karnataka"`; its one `k` is followed by `h` |
| SampleScenarios.TabletsLackKarnataka | script.js:17-28 | record 2 does not match the query `"karnataka"` |
| SampleScenarios.MilkMatchesKarnataka | script.js:39 | record 3 matches the query `"karnataka"` through its state |
| SampleScenarios.FulfilledScenario | script.js:107-114 | tab `"fulfilled"` with an empty query shows records 2 and 4, in that order |
| SampleScenarios.KarnatakaScenario | script.js:107-114 | tab `"all"` with query `"karnataka"` shows record 3 only |
| SampleScenarios.DelayedBusScenario | script.js:107-114 | tab `"delayed"` with query `"bus"` shows nothing |
| StatusStyle.StatusHue | script.js:70-95 | the hue the three lookups share is gray exactly for strings other than `"fulfilled"`, `"in-progress"` and `"delayed"` |
| StatusStyle.StatusColorDefault | script.js:70-77 | the badge has the gray classes if and only if the status is unknown |
| StatusStyle.ProgressBarShade | script.js:79-86 | the bar class is `bg-<hue>-500` for the status's hue |
| StatusStyle.StatusIconDefault | script.js:88-95 | the icon is empty if and only if the status is unknown |
| StatusStyle.StatusColorSeparates | script.js:70-77 | two statuses get the same badge if and only if they have the same hue |
| StatusStyle.ProgressBarColorSeparates | script.js:79-86 | two statuses get the same bar colour if and only if they have the same hue |
| StatusStyle.StatusIconSeparates | script.js:88-95 | two statuses get the same icon if and only if they have the same hue |
| StatusStyle.LookupsAgree | script.js:70-95 | badge, bar and icon never disagree: equal badges if and only if equal bars, if and only if equal icons |
| TabLabel.FormatTabLabelShape | script.js:97-99 | the label is as long as the tab; its first character is upper-cased; after that, only the first `-` past position 0 becomes a space |
| TabLabel.FormatTabLabelWithoutDash | script.js:97-99 | a tab without `-` is only capitalised |
| TabLabel.TabButtonLabels | script.js:97-99 | the four tabs are labelled "All", "Fulfilled", "In progress" and "Delayed" |
| TabLabel.InProgressLabel | script.js:97-99 | `"in-progress"` is labelled "In progress" |
| TabLabel.ReplaceFirstAfter | script.js:98 | the first pattern after a prefix without one is the one replaced |
| ViewState.TabButtonClass | script.js:198 | a button is highlighted if and only if its tab is the active one |
| ViewState.OneTabHighlighted | script.js:194-198 | when the active tab is one of the tabs, exactly one button is highlighted |
| ViewState.Page.constructor | script.js:65-66 | the state starts at tab `"all"` with an empty query, which is valid |
| ViewState.Page.ClickTab | script.js:207 | from a valid state, a click sets the active tab to the button's value, keeps the query, and keeps the active tab among the tabs |
| ViewState.Page.HighlightedButton | script.js:194-198 | in a valid state, the one highlighted button is the one whose tab is the active tab |
| ViewState.Page.InputSearch | script.js:241 | typing sets the query to the box's value, keeps the active tab, and keeps the state valid |
| ViewState.Page.Shown | script.js:107-114 | the rendered list is the filter of the records under the current state; a record is in it if and only if it passes both conditions; tab `"all"` with an empty query shows everything |
| MobileMenu.Toggle | script.js:224-233 | a click on a hidden menu expands it and hides the menu icon; a click on a visible menu collapses it and shows the menu icon |
| MobileMenu.ToggleShowsOneIcon | script.js:224-233 | after every click exactly one icon is hidden, the close icon shows exactly when the menu does, and the menu's visibility flips |
| MobileMenu.ToggleTwiceRestores | script.js:224-233 | from a consistent state one click switches between collapsed and expanded, and two clicks restore it |
| MobileMenu.ClicksAlternate | script.js:223-235 | from the collapsed state the menu is open after an odd number of clicks and closed after an even number |
| MobileMenu.ClicksStayConsistent | script.js:223-235 | after one or more clicks the flags are always collapsed or expanded, and each click flips the menu |
| MobileMenu.Menu.constructor | script.js:218-221 | the flags start as the page's markup sets them |
| MobileMenu.Menu.Click | script.js:223-233 | the click handler's new flags are `Toggle` of the old ones, and exactly one icon is hidden afterwards |

## Left out

- Markup: the HTML templates of `renderStats`, `renderPromises` and `renderTabs` are not modelled. Neither are `innerHTML`, `join`, the progress bar's width or the evidence block. What is modelled is:
  - the class strings and the label that a card shows;
  - the active-tab class choice at script.js:198, by `ViewState.TabButtonClass`.
- DOM access: element lookups, the `if (!container) return` guards, listener registration and the `DOMContentLoaded` initialisation are not modelled. Neither are the re-render calls after each handler. `ViewState.Page.Shown` is the list those re-renders display.
- `lucide.createIcons` is a call into a third-party library and is left out.
- `STATS`, `renderStats` and the stat card colours are left out: they are fixed display data with no logic.
- Text.Lower and Text.Upper map only the ASCII letters. JavaScript's full Unicode case mapping and UTF-16 code units are not modelled. The sample records are ASCII only, so the scenarios are unaffected.
- PromiseFilter.FilterIgnoresQueryCase: proved for ASCII case mapping only. In the page it fails for some non-ASCII queries. With tab `"all"`, the query "ı" shows no record. Its upper-cased form "I" lower-cases to "i" and shows all four records. A query "ß" would change the result only on records with "ss" or "ß" in a searched field, and none of the four sample records has either.
- Text.LowerForgetsCase: proved for ASCII case mapping only. Under JavaScript's Unicode mapping `toLowerCase(toUpperCase(s))` can differ from `toLowerCase(s)`, for example for "ı" and "ß".
- ViewState.Page.ClickTab: requires the `data-tab` value to be one of `TABS`. The value the handler reads comes from buttons that `renderTabs` generates from `TABS`. An arbitrary attribute value is outside the model. The filter itself accepts any tab string.
- MobileMenu.Menu.constructor: takes the initial flags as a parameter. The initial `hidden` classes come from the page's markup, and index.html is not part of this model. The lemmas that need the collapsed start state (`ClicksAlternate`) require it.
- In `PromiseData`, the four promise texts are written as concatenations of shorter literals. Their values are exactly the source's texts.
