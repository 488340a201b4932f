# ai-time-tracker: the day-accounting core in Dafny

The tracker is a single-page app. A signed-in user picks a date, logs
activities against it and opens a dashboard for the day. Each activity has a
title, a category and a duration in minutes. This project models the logic
inside `js/app.js` that does not depend on the browser, Firebase or Chart.js:

- **HTML escaping** (`escapeHtml`). The list view passes titles and
  categories through it before inserting them as HTML.
- **The add handler's checks.** The title is trimmed. Then, in this order,
  the handler rejects an empty title, rejects missing (NaN), zero or
  negative minutes, and rejects a day total over the 1440-minute budget.
  The total is taken over the records currently held in memory.
- **The day's statistics** (`updateStats`): the total, the unclamped
  remaining budget, the count, and the analyse button's gate.
- **The dashboard** (`buildDashboard`):
  - the number of distinct categories;
  - the `catMap` loop that sums minutes per category for the pie chart;
  - a stable copy sorted longest first for the bar chart;
  - the timeline HTML built from that sorted copy.
- **The page state** (`currentUser`, `selectedDate`, `activities`) and the
  handlers that change it: sign-in state change, date change, add, delete
  and analyse. The external store is modelled abstractly as a map from date
  to that date's records in creation order. Every mutation replaces the
  in-memory list wholesale with the store's list.

Modules: `Activities` (the record and the day total), `Text` (JavaScript
`trim` and integer-to-decimal rendering), `HtmlEscape`, `DayAccounting`,
`Dashboard` and `Tracker` (the `DayView` class).

Behaviour of `js/app.js` worth noting:

- The timeline is not a list of plain lines. Each record becomes
  `<div>title — N min</div>` and the pieces are joined with no separator.
  The title goes in unescaped (`TimelineEntryParts` states this).
- The analyse gate is `!(total === 0 || total > 1440)`. A day whose stored
  records sum to a negative total therefore opens it. "Enabled exactly for
  0 < total ≤ 1440" holds only when every duration is positive
  (`AnalyseGate`, `AnalyseGateOpenOnNegativeTotal`).
- Deleting an id that the store does not hold is not an error in the code.
  The list is simply reloaded.
- The analyse button's `disabled` class is written only by `updateStats`,
  at the end of each load. Before the first load it is whatever the page
  markup says, so the model keeps it as a field of the page whose initial
  value is a constructor parameter. Once a load has set it, an open
  dashboard is never the empty-day view.

## Model

| member | source | states |
|---|---|---|
| `Activities.Total` | js/app.js:163 | `activities.reduce((s, a) => s + a.minutes, 0)` as a left fold from 0 (also lines 217 and 252); its properties are the three lemmas below |
| `Activities.TotalAppend` | js/app.js:217 | the `reduce` total of a concatenation is the sum of the two totals |
| `Activities.TotalFront` | js/app.js:217 | the left-fold total equals the first record's minutes plus the total of the rest, so summation order is irrelevant |
| `Activities.TotalAtLeastCount` | js/app.js:217 | with positive durations the total is at least the record count, and it is 0 exactly for the empty day |
| `Text.Trim` | js/app.js:155 | `trim` = trailing trim after leading trim: never longer than the input, and a non-empty result neither starts nor ends with whitespace |
| `Text.TrimStart` | js/app.js:155 | what remains is a suffix of the input that does not start with JavaScript whitespace |
| `Text.TrimStartDropsWhitespace` | js/app.js:155 | the prefix the leading trim drops is all whitespace |
| `Text.TrimEnd` | js/app.js:155 | what remains is a prefix of the input that does not end with whitespace |
| `Text.TrimEndDropsWhitespace` | js/app.js:155 | the suffix the trailing trim drops is all whitespace |
| `Text.TrimSpec` | js/app.js:155 | `trim` returns a contiguous piece of the title with only whitespace before and after it |
| `Text.TrimEnds` | js/app.js:155 | a non-empty trimmed title neither starts nor ends with whitespace |
| `Text.TrimEmptyIff` | js/app.js:155-159 | the trimmed title is empty (the `!title` check fails) iff the raw title is all whitespace |
| `Text.IntToString` | js/app.js:284 | `${n}` for an integer: a minus sign before the digits of a negative value; `IntToStringRoundTrip` states that it reads back as n |
| `Text.NatToString` | js/app.js:284 | the decimal rendering is non-empty, all digits, and has no leading zero |
| `Text.NatToStringRoundTrip` | js/app.js:284 | reading the digits back gives the number |
| `Text.IntToStringRoundTrip` | js/app.js:284 | `${minutes}` (with a minus sign for negatives) reads back as the same integer, so the rendering is injective |
| `HtmlEscape.Entity` | js/app.js:17 | each of the five special characters maps to an entity starting with `&`; every other character maps to itself |
| `HtmlEscape.EscapeHtml` | js/app.js:15-19 | the escaped text contains no raw `<`, `>`, `"` or `'`, and is never shorter than the input |
| `HtmlEscape.EscapeHtmlAppend` | js/app.js:16-18 | escaping works character by character: it distributes over concatenation |
| `HtmlEscape.EscapeHtmlUnchangedIff` | js/app.js:15-19 | the output equals the input iff the input contains none of `& < > " '` |
| `HtmlEscape.EscapeHtmlPlain` | js/app.js:15-19 | a string with none of the five characters is returned unchanged |
| `HtmlEscape.EscapeHtmlGrows` | js/app.js:15-19 | one special character makes the output strictly longer than the input |
| `HtmlEscape.UnescapeEntity` | js/app.js:17 | decoding a character's replacement gives back that character, whatever text follows |
| `HtmlEscape.EscapeHtmlRoundTrip` | js/app.js:15-19 | decoding the five entities in the escaped text restores the original string (escaping loses nothing) |
| `DayAccounting.AnalyseEnabled` | js/app.js:225 | the gate (disabled when the total is 0 or over 1440): open for every total in 1..1440, and never for 0 or above 1440 |
| `DayAccounting.DayStats` | js/app.js:216-225 | what `updateStats` shows: the total and count of the day, a remaining budget that adds back up to 1440 with the total, and a gate open iff the total is non-zero and the remaining budget is not negative |
| `DayAccounting.Message` | js/app.js:159-166 | the validation text for each error; none is empty |
| `DayAccounting.MessagesDistinct` | js/app.js:159-166 | the three errors have three different messages |
| `DayAccounting.Validate` | js/app.js:155-166 | the add handler's checks in order (blank title, then NaN/non-positive minutes, then budget); `ValidateSpec` characterises each outcome |
| `DayAccounting.EmptyDayStats` | js/app.js:216-225 | an empty day has total 0, remaining 1440, count 0, and the analyse gate disabled |
| `DayAccounting.RemainingUnclamped` | js/app.js:217-218 | remaining plus total is always 1440; remaining is negative iff the total exceeds 1440 (no clamping) |
| `DayAccounting.AnalyseGate` | js/app.js:225 | with positive durations the button is enabled iff 0 < total ≤ 1440, i.e. iff the day is non-empty and within budget |
| `DayAccounting.AnalyseGateOpenOnNegativeTotal` | js/app.js:225 | a negative total (records the store holds with negative minutes) leaves the button enabled |
| `DayAccounting.ValidateSpec` | js/app.js:155-166 | exactly one outcome, decided by the first failing check. A blank title is rejected whatever the minutes; then NaN, zero or negative minutes; then a total over 1440. Otherwise the trimmed title and the minutes are accepted, the minutes are positive, and the snapshot plus the new record totals at most 1440 |
| `DayAccounting.ValidateKeepsBudget` | js/app.js:160-166 | an accepted record has positive minutes that fit beside the snapshot within 1440; appended to a day of positive durations it gives a day of positive durations within 1440 minutes |
| `DayAccounting.ValidateAcceptsExactFill` | js/app.js:164 | the bound is inclusive: a proposal that brings the day to exactly 1440 is accepted |
| `DayAccounting.ValidateRejectsRunAt1420` | js/app.js:163-166 | a day at 1420 minutes rejects a 30-minute "Run" with the budget error |
| `Dashboard.Categories` | js/app.js:255 | `new Set(activities.map(a => a.category))`, built one record at a time; `CategoriesAppend` and `CategoriesMembership` state its contents |
| `Dashboard.CategoryCount` | js/app.js:255 | the size of that set; `FirstAppearancesCount` ties it to the pie labels |
| `Dashboard.FirstAppearances` | js/app.js:258-266 | `Object.keys(catMap)`: each category once, in order of first appearance; `FirstAppearancesSpec` states this |
| `Dashboard.CategoriesAppend` | js/app.js:255 | one more record adds exactly its category to the category set |
| `Dashboard.CategoriesMembership` | js/app.js:255 | a category is in the set iff some record of the day has it |
| `Dashboard.ElementsOfMembership` | js/app.js:255 | the set of a list's entries holds exactly the values in the list |
| `Dashboard.DistinctCardinality` | js/app.js:255 | the set of a duplicate-free list's entries has as many elements as the list |
| `Dashboard.FirstAppearancesSpec` | js/app.js:258-261 | `catMap`'s keys in insertion order are duplicate-free and are exactly the day's categories |
| `Dashboard.FirstAppearancesCount` | js/app.js:255-266 | the number of pie labels equals the distinct-category count |
| `Dashboard.OfCategoryAbsent` | js/app.js:258-261 | a category that appears in no record has no records |
| `Dashboard.OfCategoryAppend` | js/app.js:260 | one more record adds its minutes to its own category's total and leaves every other category's total unchanged |
| `Dashboard.CategoryMinutes` | js/app.js:266-267 | one total per listed category, as many as there are keys |
| `Dashboard.PieValues` | js/app.js:267 | `Object.values(catMap)`: one value per pie label; `PieValuesSumToTotal` states that they add up to the day's total |
| `Dashboard.CategoryMinutesAppend` | js/app.js:259-261 | over distinct keys, one more record raises the sum of the listed category totals by its minutes iff its category is listed |
| `Dashboard.NewCategoryMinutes` | js/app.js:259-261 | a record of a category not yet listed adds a key whose total is that record's minutes |
| `Dashboard.PieValuesSumToTotal` | js/app.js:252-267 | conservation: the pie chart's values add up to the day's total |
| `Dashboard.CatMapOf` | js/app.js:258-261 | the object built by folding the records has exactly the day's categories as keys |
| `Dashboard.CatMapOfSpec` | js/app.js:258-261 | each entry of the object holds the total minutes of the records of its category |
| `Dashboard.CatMapOfAppend` | js/app.js:259-261 | one more record adds its minutes to its category's entry (created at 0), and its category joins the end of the key order iff it was not yet a key |
| `Dashboard.KeyListed` | js/app.js:258-261 | a category has an entry iff it is among the keys in insertion order |
| `Dashboard.CategoryTotals` | js/app.js:258-261 | the loop yields the keys in first-appearance order and the object of the fold; its keys are exactly the day's categories and each maps to the sum of minutes of the records with that category |
| `Dashboard.ValuesAt` | js/app.js:267 | `Object.values` gives one value per key, the i-th being the entry of the i-th key |
| `Dashboard.ValuesAtCatMap` | js/app.js:266-267 | read in any order of the day's categories, the object's values are those categories' totals |
| `Dashboard.Insert` | js/app.js:272 | one step of the stable longest-first sort: the record goes before the first record that is not longer; its properties are the three lemmas below |
| `Dashboard.SortByMinutesDesc` | js/app.js:272 | `[...activities].sort((a,b)=>b.minutes - a.minutes)` as insertion sort; `SortSpec` states permutation, order and stability |
| `Dashboard.InsertPermutes` | js/app.js:272 | inserting a record adds exactly that record to the multiset and its minutes to the total |
| `Dashboard.InsertSorted` | js/app.js:272 | inserting into a longest-first list keeps it longest first |
| `Dashboard.InsertStable` | js/app.js:272 | the inserted record goes before all records of equal duration |
| `Dashboard.SortPermutes` | js/app.js:272 | the sorted copy holds the same records with the same multiplicities |
| `Dashboard.SortSorted` | js/app.js:272 | the sorted copy is longest first |
| `Dashboard.SortStable` | js/app.js:272 | for every duration, the records of that duration appear in the sorted copy in their original order |
| `Dashboard.SortSpec` | js/app.js:272 | the sorted copy is a permutation of the day, longest first, and the records of each duration keep their original relative order (stability) |
| `Dashboard.SortKeepsTotal` | js/app.js:272 | the sorted copy has the same length and the same total as the day |
| `Dashboard.SortStableExample` | js/app.js:272 | [(A,30),(B,30),(C,10)] sorts to itself: A stays before B |
| `Dashboard.TimelineEntry` | js/app.js:284 | one timeline entry: 18 characters of markup and separator around the title and the rendered minutes |
| `Dashboard.Timeline` | js/app.js:283-285 | the entries of the sorted records joined with no separator; `TimelineAppend` states it is one entry per record in order |
| `Dashboard.TimelineAppend` | js/app.js:283-285 | the timeline is one entry per record in order: the timeline of a concatenation is the concatenation of the timelines |
| `Dashboard.TimelineEntryParts` | js/app.js:284 | an entry is `<div>`, the title verbatim (unescaped), space-em-dash-space, digits that read back as the minutes, then ` min</div>` |
| `Dashboard.Titles` | js/app.js:276 | the bar labels are the sorted records' titles, one per record |
| `Dashboard.MinutesOf` | js/app.js:277 | the bar values are the sorted records' minutes, one per record |
| `Dashboard.SumOfMinutes` | js/app.js:277 | the bar values add up to the records' minutes |
| `Dashboard.ViewOf` | js/app.js:241-286 | the empty-day view exactly for a day without records; otherwise the summary carries the day's total and record count |
| `Dashboard.ViewConsistent` | js/app.js:252-285 | for a non-empty day: as many pie labels and values as distinct categories, with the values summing to the total; one bar per record, non-increasing, with the bar values also summing to the total |
| `Dashboard.BuildDashboard` | js/app.js:241-286 | an empty day gives the empty view. Otherwise the view carries the total, count, category count, pie data from the `catMap` loop, and bar data and timeline from the sorted copy, all equal to the specification `ViewOf` |
| `Tracker.WithoutId` | js/app.js:194-203 | deletion keeps exactly the records whose id differs from the deleted one |
| `Tracker.WithoutIdAppend` | js/app.js:194-203 | deleting from a concatenation deletes from each part, so the kept records stay in their order |
| `Tracker.WithoutIdSingle` | js/app.js:194-203 | a single record is removed exactly when it has the deleted id |
| `Tracker.WithoutIdKeepsBudget` | js/app.js:194-205 | deleting from a day of positive durations keeps them positive, never raises the total, and keeps a within-budget day within budget |
| `Tracker.DayView.constructor` | js/app.js:21-24 | the page starts signed out, on the initial date, with an empty list, and with the analyse button as the markup has it |
| `Tracker.DayView.LoadDate` | js/app.js:99-113 | without a user nothing changes; otherwise the in-memory list is replaced wholesale by the store's list for the date, and `updateStats` sets the button's class from it |
| `Tracker.DayView.SetUser` | js/app.js:75-78 | records the new user and, when there is one, reloads so the list matches the store and the button's class matches the list; signing out keeps both |
| `Tracker.DayView.ChangeDate` | js/app.js:94-97 | selects the date and, for a signed-in user, loads that date's list and sets the button's class from it |
| `Tracker.DayView.AddActivity` | js/app.js:152-189 | signed out: login required, nothing changes. A failed check: its message is written and nothing else changes. Success: the record is appended to the store's list for the selected date and the list is reloaded, with the message untouched. An added record has positive minutes and fits the snapshot's budget; from a synchronised day of positive durations the day stays within budget. The button's class is set from the reloaded list on success and left alone on a failed check |
| `Tracker.DayView.DeleteActivity` | js/app.js:194-209 | signed out: nothing changes. Otherwise the record leaves the store's list for the selected date, the list is reloaded with the button's class set from it, and a within-budget day stays within budget |
| `Tracker.DayView.Stats` | js/app.js:216-225 | `updateStats` for the records on show: their total and their count |
| `Tracker.DayView.Analyse` | js/app.js:225-235 | a click does nothing while the button has the `disabled` class; otherwise it opens the dashboard for the current list. When the class was set from that list the dashboard is never the empty view; an enabled button on an empty list shows the empty view |

## Left out

- Firebase initialisation and the sign-in, sign-up, login and logout handlers (js/app.js:1-5, 37-73, 79-85). They are calls into an external identity provider. Only the resulting signed-in / signed-out state enters the model (`SetUser`).
- Firestore queries and writes are external network I/O. The store is a `map` from date to a `seq` of records for one user. Its failure paths (rejected promises shown with `alert`) are not modelled, and neither are `createdAt` timestamps. The caller supplies the new id, and the new record goes at the end of its date's list, which is the `orderBy("createdAt")` order.
- `Tracker.DayView.AddActivity`: record ids are chosen by the caller, and the store's guarantee that ids are unique within a date is not modelled. After two records with the same id have been added, `DeleteActivity` removes both, where `.doc(id).delete()` would remove the one document.
- Asynchrony is not modelled. Add, delete and reload run as one atomic step each. The race in which a slower, earlier `loadDate` overwrites a later one is therefore not modelled. Neither is a store that changes between the budget check and the write (the check runs against the in-memory snapshot; `AddActivity` says so).
- `todayISO` (js/app.js:10-13) reads the clock. The initial date is a constructor parameter.
- DOM rendering (`renderActivities`, the `textContent`/`innerHTML` writes, modal open/close, clearing the input fields) is UI side effects. The values those writes display are modelled (`DayStats`, `ViewOf`).
- Chart.js construction (js/app.js:263-280) is a foreign library. Only the label and value arrays passed to it are modelled.
- `parseInt` (js/app.js:156) is a library call. Its result is an `Option<int>`, with `None` for NaN.
- `Dashboard.CategoryTotals`: a JavaScript object lists integer-like keys (such as "12") before the others in ascending numeric order, and a key named `__proto__` is not stored as data. Also, `catMap` starts as `{}` and so inherits `Object.prototype`: for a category named after an inherited property (`constructor`, `toString`, `valueOf`, `hasOwnProperty`, `isPrototypeOf`, `propertyIsEnumerable`, `toLocaleString` and the like) `catMap[c] || 0` yields the inherited function, and the entry becomes a string such as `"function Object() { [native code] }30"` rather than a number. None of this is modelled, so the per-category totals hold only for categories outside these names: the keys are kept in plain insertion order. The UI's category choices are ordinary words.
- Records are assumed to hold integer `minutes`. A non-number stored value (for example a string, which `+` would concatenate) and Number precision above 2^53 are not modelled.
