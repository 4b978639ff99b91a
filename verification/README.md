# Portfolio analytics and A/B test, modelled in Dafny

This project models the client-side analytics and A/B-testing subsystem of a
personal portfolio site, and proves properties of the model.

- **Analytics.** A small tracker keeps one analytics record in the browser's
  `localStorage`. The record holds a list of sessions, a visit counter and
  the last visit time.
  - Every tracker call loads its own copy of the record, changes the current
    session in that copy, and saves the whole copy back.
  - Each save keeps only the newest 100 sessions.
  - A read-only summary derives counts, trailing-window counts, the mean
    session duration, section popularity and per-variant statistics.
- **A/B test.** A React provider assigns each visitor a colour variant
  ("blue" or "indigo") on mount. It persists the variant, tracks the
  assignment and starts the tagged session. `switchVariant` accepts a name
  when its upper case is a key of `VARIANTS`.
- **Dashboard.** The analytics dashboard formats durations, toggles the
  variant, and ranks sections by popularity.

## Layout

- `Wrappers.dfy`: the `Option` type.
- `Sessions.dfy`: the persisted data.
  - The `Session` and `Store` datatypes.
  - The retention rule (`Truncated`) and the session lookup (`Find`).
  - The effect each tracker call has on the persisted record, as pure
    transition functions, and lemmas about them.
- `Aggregates.dfy`: the figures of `getAnalyticsSummary`.
  - Each figure is defined as a function.
  - The source's `forEach` accumulation loops are methods, proved to compute
    those functions.
- `Analytics.dfy`: the class `Browser`.
  - Its fields are the storage records: the analytics record, the visitor
    id, the tab's session id and the assigned variant.
  - Its methods are the tracker functions, written step by step as the
    source does: load a copy, find, update the copy, call the nested
    `updateSessionEnd`, save.
  - Each method is proved to leave exactly the persisted record its
    transition function in `Sessions` describes.
- `ABTest.dfy`: the class `Provider`, with its mount effect and
  `switchVariant`, over a `Browser`.
- `Dashboard.dfy`: `formatDuration` with a parser proving it loses nothing,
  the toggle, the ranking sort and the bar widths.

The clock (`Date.now()`), the ids that would be generated, and the user
agent, referrer and screen size come in as an `Env` value. `Math.random()`
comes in as a `roll` in [0, 1).

## Model

| member | source | states |
|---|---|---|
| Sessions.Truncated | portfolio/src/utils/analytics.js:43-49 | A save keeps min(n, 100) sessions: exactly the newest ones, in order. `totalVisits` and `lastVisit` are untouched. |
| Sessions.Find | portfolio/src/utils/analytics.js:58 | `sessions.find` by id: a found index carries the id and no earlier session does; none is found iff no session carries the id. |
| Sessions.NewSession | portfolio/src/utils/analytics.js:60-72 | Defines the session `initSession` creates. Its fields are stated by `InitSessionCreates`. |
| Sessions.Initialized | portfolio/src/utils/analytics.js:52-81 | Defines the record `initSession` leaves. Its behaviour is stated by `InitSessionExisting`, `InitSessionCreates`, `InitSessionFindsNew`, `InitSessionIdempotent` and `InitKeepsWellFormed`. |
| Sessions.EndUpdated | portfolio/src/utils/analytics.js:84-93 | Defines the record `updateSessionEnd` leaves. Its behaviour is stated by `EndUpdatedEffect` and `MissingSessionNoOp`. |
| Sessions.PageViewed | portfolio/src/utils/analytics.js:96-106 | Defines the record `trackPageView` leaves. Its behaviour is stated by `TrackPageViewEffect` and `MissingSessionNoOp`. |
| Sessions.SectionVisited | portfolio/src/utils/analytics.js:109-119 | Defines the record `trackSectionVisit` leaves. Its behaviour is stated by `SectionVisitEffect`, `SectionVisitIdempotent` and `MissingSessionNoOp`. |
| Sessions.EventTracked | portfolio/src/utils/analytics.js:122-136 | Defines the record `trackEvent` leaves. Its behaviour is stated by `TrackEventEffect` and `MissingSessionNoOp`. |
| Sessions.InitSessionExisting | portfolio/src/utils/analytics.js:57-59 | `initSession` for an id that already has a session persists nothing. |
| Sessions.InitSessionCreates | portfolio/src/utils/analytics.js:59-78 | For a new id, exactly one fresh session is appended after the retained older ones. It keeps every older session while there are fewer than 100, and otherwise drops only the oldest so that 100 remain. It has one page view, no end time, no sections, no events and the given variant. `totalVisits` grows by exactly 1 and `lastVisit` is the clock. |
| Sessions.InitSessionFindsNew | portfolio/src/utils/analytics.js:58-77 | After creation the new session is the last one and the first match for its id. |
| Sessions.InitSessionIdempotent | portfolio/src/utils/analytics.js:52-81 | A second `initSession` with the same session id persists nothing new, whatever variant, visitor or clock it sees. |
| Sessions.SectionVisitEffect | portfolio/src/utils/analytics.js:109-119 | On a present session `trackSectionVisit` appends the section only if absent and changes nothing else. The end time is unchanged because the nested end-time save is overwritten. The section then occurs exactly once. |
| Sessions.SectionVisitIdempotent | portfolio/src/utils/analytics.js:114-118 | Repeating `trackSectionVisit` with the same section persists nothing new. |
| Sessions.TrackEventEffect | portfolio/src/utils/analytics.js:122-136 | `trackEvent` appends exactly one event, stamped with the clock, after the unchanged earlier events. Other sessions and the counters are unchanged. The end time stays as it was, though the nested call alone would have set it to the clock. |
| Sessions.TrackPageViewEffect | portfolio/src/utils/analytics.js:96-106 | `trackPageView` adds exactly one page view and changes nothing else. The end time the nested call wrote is lost. |
| Sessions.EndUpdatedEffect | portfolio/src/utils/analytics.js:84-93 | `updateSessionEnd` on a present session sets that session's end time to the clock. Every other session and both counters are unchanged, and so is every other field of that session. |
| Sessions.MissingSessionNoOp | portfolio/src/utils/analytics.js:87-92 | With no session for the current id, for instance after eviction, the four calls that update a session (`updateSessionEnd`, `trackPageView`, `trackSectionVisit`, `trackEvent`) leave the persisted record as it was. |
| Sessions.UpdatesKeepWellFormed | portfolio/src/utils/analytics.js:84-136 | The four calls that rewrite a session keep the record well formed: at most 100 sessions, one per id, no section twice in a session. |
| Sessions.InitKeepsWellFormed | portfolio/src/utils/analytics.js:52-81 | `initSession` keeps the record well formed. |
| Sessions.TrackersKeepWellFormed | portfolio/src/utils/analytics.js:52-136 | Every tracker transition keeps the record well formed. |
| Sessions.DistinctOccursOnce | portfolio/src/utils/analytics.js:114-115 | In a list without repeats, a member occurs exactly once. |
| Analytics.FindSession | portfolio/src/utils/analytics.js:58 | The linear search returns exactly `Find`. |
| Analytics.Browser.GetVisitorId | portfolio/src/utils/analytics.js:10-17 | Returns the stored visitor id when it is truthy, otherwise the generated one, which is then stored. Other records are unchanged. |
| Analytics.Browser.GetSessionId | portfolio/src/utils/analytics.js:20-27 | The same rule for the tab's session id. |
| Analytics.Browser.GetAnalyticsData | portfolio/src/utils/analytics.js:30-40 | Yields the persisted record, or `{sessions: [], totalVisits: 0, lastVisit: null}` when nothing is stored. |
| Analytics.Browser.SaveAnalyticsData | portfolio/src/utils/analytics.js:43-49 | Persists `Truncated(data)` and changes no other record. |
| Analytics.Browser.InitSession | portfolio/src/utils/analytics.js:52-81 | Returns the current session id either way. The record becomes `Initialized(old record, ...)`, and well-formedness is preserved. |
| Analytics.Browser.UpdateSessionEnd | portfolio/src/utils/analytics.js:84-93 | The record becomes `EndUpdated(...)`, which stamps the current session's end time. Well-formedness is preserved. |
| Analytics.Browser.TrackPageView | portfolio/src/utils/analytics.js:96-106 | The nested save is run and then overwritten by the caller's stale copy. The record ends as `PageViewed(...)`. Well-formedness is preserved. |
| Analytics.Browser.TrackSectionVisit | portfolio/src/utils/analytics.js:109-119 | The record ends as `SectionVisited(...)`. Well-formedness is preserved. |
| Analytics.Browser.TrackEvent | portfolio/src/utils/analytics.js:122-136 | The record ends as `EventTracked(...)`. Well-formedness is preserved. |
| Analytics.Browser.GetAnalyticsSummary | portfolio/src/utils/analytics.js:139-200 | Returns `Summarize(loaded record, now)` and saves nothing. `totalSessions` is the session count and `last7DaysSessions <= last30DaysSessions <= totalSessions`. |
| Analytics.Browser.ClearAnalyticsData | portfolio/src/utils/analytics.js:208-210 | Removes the analytics record only; a later load yields the empty default. |
| Aggregates.CountSince | portfolio/src/utils/analytics.js:145-146 | A window count never exceeds the number of sessions. |
| Aggregates.CountSinceAntitone | portfolio/src/utils/analytics.js:142-146 | A later window start admits no more sessions. |
| Aggregates.SummaryCounts | portfolio/src/utils/analytics.js:190-199 | The summary copies `totalVisits` and `lastVisit`, and counts all retained sessions. Its 7-day count is at most its 30-day count, which is at most the total. |
| Aggregates.Round | portfolio/src/utils/analytics.js:195 | `Math.round`: the result is within one half of its argument, with halves rounded up. |
| Aggregates.AverageDuration | portfolio/src/utils/analytics.js:149-154 | Defines `averageSessionDuration`. `AverageUsesClosedOnly` and `NoClosedSessionsNoAverage` state its properties. |
| Aggregates.ClosedOnly | portfolio/src/utils/analytics.js:150 | Every session `filter(s => s.endTime)` keeps has a truthy end time; `ClosedOnlyTotals` shows it drops no closed session. |
| Aggregates.ClosedOnlyTotals | portfolio/src/utils/analytics.js:149-152 | The filtered list has exactly as many sessions as are closed, and the same closed duration total, so nothing closed is dropped. |
| Aggregates.AverageUsesClosedOnly | portfolio/src/utils/analytics.js:149-154 | The mean duration is that of the closed sessions alone: open sessions enter neither the total nor the count. |
| Aggregates.NoClosedSessionsNoAverage | portfolio/src/utils/analytics.js:154 | With no closed session the mean is 0 (NaN `\|\| 0`). |
| Aggregates.StaleOpenSession | portfolio/src/utils/analytics.js:145-181 | An open session that started before the 7-day window adds one to its variant's session count and section total. It changes neither the 7-day count, nor the mean duration, nor its variant's duration total. |
| Aggregates.SectionPopularity | portfolio/src/utils/analytics.js:157-162 | The nested loop builds exactly `Popularity`: one entry per visited section, holding its number of occurrences. |
| Aggregates.CountVisits | portfolio/src/utils/analytics.js:159-161 | The inner loop adds each occurrence in one session's list to its section's count, starting new sections at 1. |
| Aggregates.Popularity | portfolio/src/utils/analytics.js:157-162 | Defines `sectionPopularity`. `PopularityPositive` and `PopularityCountsSessions` state its properties, and `SectionPopularity` shows the loop computes it. |
| Aggregates.PopularityPositive | portfolio/src/utils/analytics.js:157-162 | A section has an entry iff it occurs somewhere, and every count is positive. |
| Aggregates.PopularityCountsSessions | portfolio/src/utils/analytics.js:157-162 | When no session records a section twice, its count is the number of sessions that visited it, at most the session count. |
| Aggregates.VisitedSections | portfolio/src/utils/analytics.js:158-161 | The keys of `sectionCounts` are exactly the sections with a positive count. |
| Aggregates.Variants | portfolio/src/utils/analytics.js:166-174 | The keys of `variantStats` are exactly the variants with at least one session. |
| Aggregates.VariantStatistics | portfolio/src/utils/analytics.js:164-188 | The two passes build exactly `VariantTable`. |
| Aggregates.VariantTable | portfolio/src/utils/analytics.js:164-188 | Defines `variantStats`. `VariantEntries` and `VariantSessionsBounded` state its properties, and `VariantStatistics` shows the loops compute it. |
| Aggregates.Summarize | portfolio/src/utils/analytics.js:139-199 | Defines the summary object. `SummaryCounts`, `SummaryVariantSessionsBounded` and `EmptySummary` state its properties. |
| Aggregates.TallyVariants | portfolio/src/utils/analytics.js:165-181 | The first pass builds exactly `TallyTable`: one entry per truthy variant, with its session count, closed duration total and section total. |
| Aggregates.AddAverages | portfolio/src/utils/analytics.js:183-188 | The second pass gives every entry its averages and changes no key. |
| Aggregates.NoSessionsNoTotals | portfolio/src/utils/analytics.js:168-179 | A variant with no sessions has no duration or section total, so its entry can start from zeros. |
| Aggregates.VariantEntries | portfolio/src/utils/analytics.js:165-188 | Each entry has at least one session and holds that variant's figures. `avgDuration` divides the closed duration total by ALL the variant's sessions. `avgSections` divides the section total by the same count. |
| Aggregates.VariantSessionsBounded | portfolio/src/utils/analytics.js:166-175 | Each session counts for at most one variant, so the counts of distinct variants sum to at most the number of sessions. |
| Aggregates.SummaryVariantSessionsBounded | portfolio/src/utils/analytics.js:165-199 | In a summary, the `sessions` fields of distinct variants sum to at most `totalSessions`. |
| Aggregates.EmptySummary | portfolio/src/utils/analytics.js:30-38 | The summary of the empty default: all counts 0, empty maps, no last visit. |
| Aggregates.TwoBlueSessions | portfolio/src/utils/analytics.js:165-188 | Worked example: closed blue sessions of 100 s and 200 s with 2 and 4 sections give 2 sessions, 150 s average and 3.0 sections. |
| ABTest.VariantNamed | portfolio/src/contexts/ABTestContext.jsx:7-10 | `VARIANTS[key]` is defined exactly for "BLUE" and "INDIGO", and is a variant value. |
| ABTest.SchemeOf | portfolio/src/contexts/ABTestContext.jsx:13-52 | `COLOR_SCHEMES[v]` is defined exactly for "blue" and "indigo". |
| ABTest.UpperCase | portfolio/src/contexts/ABTestContext.jsx:80 | `toUpperCase` keeps the length and maps character by character. |
| ABTest.Accepts | portfolio/src/contexts/ABTestContext.jsx:80 | Defines the guard of `switchVariant`. `AcceptedNames` characterises it, and `VariantValuesAccepted`, `OtherSpellingsAccepted` and `OtherNamesRefused` give instances. |
| ABTest.PickVariant | portfolio/src/contexts/ABTestContext.jsx:64-65 | The random pick is always a variant value, and it is "blue" iff the roll is below 0.5. |
| ABTest.Provider.Mount | portfolio/src/contexts/ABTestContext.jsx:58-77 | A truthy stored variant is kept. Otherwise the picked variant is persisted and `ab_test_assigned` is tracked. State and colour scheme follow the variant. `initSession` runs last with that variant. |
| ABTest.Provider.SwitchVariant | portfolio/src/contexts/ABTestContext.jsx:79-89 | A refused name changes nothing. An accepted name is persisted and put in state exactly as given, and `ab_test_manual_switch` is tracked. |
| ABTest.SwitchAndReload | portfolio/src/contexts/ABTestContext.jsx:79-89 | After an accepted switch and the reload, the new provider shows exactly the passed name, with its scheme or none. The tab's session id survives the reload: the reload reads the id the switch's `trackEvent` used (or generated), and the visitor id is the stored one or the reload's generated one. The persisted record is the switch's `trackEvent` followed by the reload's `initSession` with that name. When the tab's session is stored (and the record is within the cap), the record is exactly the switch's `trackEvent` result, the session id is unchanged, and that session keeps its variant tag: the switch only tags later sessions. |
| ABTest.ReloadFindsSession | portfolio/src/contexts/ABTestContext.jsx:76-87 | After the switch's `trackEvent`, the reload's `initSession` finds the tab's stored session, so it persists nothing, and that session's variant is the one it had before the switch. |
| ABTest.AcceptedNames | portfolio/src/contexts/ABTestContext.jsx:80 | The guard accepts exactly the names whose characters upper-case, letter by letter, to "BLUE" or "INDIGO". Such a name is never empty. |
| ABTest.VariantValuesAccepted | portfolio/src/contexts/ABTestContext.jsx:7-10 | Both variant values pass the guard. |
| ABTest.OtherSpellingsAccepted | portfolio/src/contexts/ABTestContext.jsx:80-83 | "BLUE" and "ındigo" pass the guard, yet "BLUE" is not a variant value and neither has a colour scheme. Together with `Provider.SwitchVariant`, which persists an accepted name as given, such a name is stored without a scheme. |
| ABTest.OtherNamesRefused | portfolio/src/contexts/ABTestContext.jsx:80 | "green", "", "blue " and "bleu" are refused. |
| ABTest.FirstVisitEventDropped | portfolio/src/contexts/ABTestContext.jsx:69-76 | On a first mount in a new tab, `ab_test_assigned` is tracked before the session exists and is lost: the created session has no events. |
| Dashboard.NatToString | portfolio/src/components/AnalyticsDashboard.jsx:24-27 | Decimal text is all digits, with a leading zero only for zero. |
| Dashboard.DigitsRoundTrip | portfolio/src/components/AnalyticsDashboard.jsx:24-27 | Reading a number's decimal digits back gives the number. |
| Dashboard.FormatDuration | portfolio/src/components/AnalyticsDashboard.jsx:23-28 | Writes "<s>s" below a minute and "<m>m <r>s" otherwise. Its contract: the text ends in 's', and contains 'm' iff the duration is at least a minute. |
| Dashboard.FormatDurationRoundTrip | portfolio/src/components/AnalyticsDashboard.jsx:23-28 | Parsing the text gives back the seconds on every input, so the minutes-and-seconds form loses nothing. |
| Dashboard.VariantDurationText | portfolio/src/components/AnalyticsDashboard.jsx:166-169 | The per-variant duration text reads back as `Math.round(avgDuration)`. |
| Dashboard.ToggleVariant | portfolio/src/components/AnalyticsDashboard.jsx:40-42 | The result is "indigo" iff the current variant is "blue", otherwise "blue". It is always a variant value the guard accepts. |
| Dashboard.ToggleTwice | portfolio/src/components/AnalyticsDashboard.jsx:41 | Toggling twice from "blue" or "indigo" returns to the start. |
| Dashboard.HandleVariantSwitch | portfolio/src/components/AnalyticsDashboard.jsx:40-43 | The switch always succeeds: the provider shows the toggled variant with its colour scheme, and `ab_test_manual_switch` is tracked. The visitor id is unchanged. |
| Dashboard.Insert | portfolio/src/components/AnalyticsDashboard.jsx:190 | Inserting a row into a ranked list keeps it ranked and adds exactly that row. |
| Dashboard.RankByCount | portfolio/src/components/AnalyticsDashboard.jsx:190 | The sort by `b - a` yields rows in non-increasing count order that are a permutation of its input. |
| Dashboard.RankByCountStable | portfolio/src/components/AnalyticsDashboard.jsx:190 | The sort is stable: rows with equal counts keep their order. |
| Dashboard.InsertKeepsTies | portfolio/src/components/AnalyticsDashboard.jsx:190 | Insertion keeps the order among rows of each count. |
| Dashboard.PopularityRowsListed | portfolio/src/components/AnalyticsDashboard.jsx:189-191 | The list shows every section of the map exactly once with its count, by descending count, and nothing else. |
| Dashboard.PopularityRows | portfolio/src/components/AnalyticsDashboard.jsx:189-190 | Defines the ranked popularity list. `PopularityRowsListed` states what it contains and in which order. |
| Dashboard.Entries | portfolio/src/components/AnalyticsDashboard.jsx:189 | `Object.entries` lists each key with its value, in key order. |
| Dashboard.DistinctLength | portfolio/src/components/AnalyticsDashboard.jsx:189 | A key list without repeats has as many entries as the map has keys. |
| Dashboard.MaxCount | portfolio/src/components/AnalyticsDashboard.jsx:192 | `Math.max` over the counts bounds every count and is attained. |
| Dashboard.BarPercent | portfolio/src/components/AnalyticsDashboard.jsx:193 | Defines a bar's width in percent. `BarsWithinScale` and `FractionOfMax` bound it. |
| Dashboard.BarsWithinScale | portfolio/src/components/AnalyticsDashboard.jsx:192-193 | With positive counts every bar is above 0% and at most 100%, and the first bar of the ranked list is 100%. |
| Dashboard.FirstRowIsMax | portfolio/src/components/AnalyticsDashboard.jsx:190-192 | The first row of a ranked list has the maximum count. |

## Left out

- JSON serialisation is not modelled: the store is a datatype. `JSON.parse` has no guard, so a corrupt record would throw. There is no "discard corrupt data" path to model.
- `exportAnalyticsData` returns the load unchanged, so it is covered by `GetAnalyticsData`. The Blob download is I/O.
- Id generation (`Date.now()` and `Math.random().toString(36)`) is not modelled. The ids that would be generated are inputs, and so are the user agent, referrer and screen size.
- Each call reads the clock once. The source reads it separately for `startTime` and `lastVisit`, and for the event stamp and the nested end time. Those readings can differ by milliseconds.
- Multi-tab races on storage, and other concurrency, are not modelled.
- React rendering, hooks, `framer-motion` and the JSX markup are presentation and are not modelled. So is the timing of state updates.
- `useABTest`'s error outside a provider is not modelled.
- The colour palettes of `COLOR_SCHEMES` are not modelled: a scheme is its name only.
- `window.location.reload()` is not modelled directly. A reload is a new `Provider` mounted over the same `Browser`.
- Floating point is replaced by exact reals. `avgDuration`, `avgSections`, the `/ 1000` and the bar percentage are exact. `Math.round` is exact on reals.
- `toFixed(1)` and the rendered percentage strings are not modelled.
- `Object.entries` / `Object.keys` order is an input: `Entries` takes the key order as a parameter.
- ABTest.UpperCase: does not model full Unicode case mapping. It maps a–z, dotless ı (to I) and long ſ (to S), and leaves every other character as it is. Only these characters are changed, and no other character upper-cases to a letter of either key without changing the length. Multi-letter mappings such as ß → SS yield no key. So the guard's decision is exact.
- Truthiness is modelled where the source tests values: a variant or id is truthy when present and non-empty, an end time when present and non-zero. No other JavaScript value kinds are modelled.
- Plain-object key semantics are not modelled. `sectionCounts`, `variantStats`, `VARIANTS` and `COLOR_SCHEMES` are `{}` objects, so keys inherited from `Object.prototype` behave differently from the model's maps.
  - A section named "constructor" would be counted onto the inherited function, giving a string. A section named "__proto__" would get no entry.
  - A session variant such as "toString" would get no `variantStats` entry. A stored variant "constructor" would find a truthy `COLOR_SCHEMES` entry.
  - For all such keys, `Popularity`, `VariantTable` and `SchemeOf` give counts or `None` as for any other key. The switch guard is unaffected, because an upper-cased name never equals an inherited key.
- Storage writes are assumed to succeed. `localStorage.setItem` / `sessionStorage.setItem` can throw (full quota, storage disabled), and nothing in the source catches it. The model has no failing save, so it does not capture a tracker call or the provider stopping half way.
- Integers are unbounded. JavaScript numbers lose precision above 2^53, which timestamps and counters do not reach in practice.

### Behaviour of the code worth knowing

The model follows the code in each case. For each item, what makes it look unintended is named.

- The end time written by the nested `updateSessionEnd` inside `trackPageView`, `trackSectionVisit` and `trackEvent` is overwritten by the caller's stale copy (`TrackPageViewEffect`, `TrackEventEffect`, `SectionVisitEffect`). The nested call is made only to record the end time (analytics.js:103, 116, 133), and the record never keeps that time.
- On a first visit in a new tab, the `ab_test_assigned` event is dropped (`FirstVisitEventDropped`). The comment "Track the assignment" (ABTestContext.jsx:68) says the event is meant to be recorded.
- `switchVariant` persists the name as given. For example "BLUE" is stored verbatim, has no colour scheme, and is not a variant value (`Provider.SwitchVariant`, `OtherSpellingsAccepted`). The guard upper-cases the name (ABTestContext.jsx:80), so other spellings are evidently expected, yet the stored name is not normalised.
- A variant's `avgDuration` divides the closed duration total by all its sessions, open ones included. `averageSessionDuration` divides by closed sessions only (`StaleOpenSession`, `VariantEntries`). The two averages of the same summary are computed inconsistently (analytics.js:149-154 against 184-188).
- Section popularity counts occurrences in `sectionsVisited`, which the dashboard labels "visits" (AnalyticsDashboard.jsx:198). This is also the number of sessions that visited the section, because no tracker call records a section twice in one session (`PopularityCountsSessions`, `TrackersKeepWellFormed`).
