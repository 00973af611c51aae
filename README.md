# Evidi front end: the logical core

Evidi is a job-search dashboard. The application collects job offers from
configured sources (RSS feeds, mailboxes, APIs) and scores them against the
user's filter criteria. The user browses and searches the offers, edits the
criteria, manages the sources and changes their password. This project is a
Dafny model of the parts of the React front end that carry logic rather than
layout:

- **The job list** (`JobList`). It computes which offers are displayed for a
  search text, a tab (`all`, `matched`, `new`) and a sort key. It also computes
  the two tab counts and the relative "posted" label.
- **Editing the filter criteria** (`FilterConfiguration`). The handlers add a
  trimmed value without duplicates, remove the value at a position and toggle a
  job type or experience level.
- **The application shell** (`App`). This is a class holding the component
  state. Its methods are the handlers for sources, filters, tabs and the
  session; the new lists are computed by pure functions.
- **The source form and the last-sync label** (`JobSources`).
- **The password-change form** (`Settings`).

Four support modules sit under them:

- `Options` defines the optional value.
- `Text` models ASCII `toLowerCase`, `String.prototype.includes`,
  `String.prototype.trim` and decimal rendering of integers.
- `Seqs` defines an order-preserving filter, subsequences and duplicate-free
  lists.
- `Types` defines the records: offers, sources and the six-list filter
  criteria.

Instants are integer milliseconds. The current instant (`Date.now()`) is a
parameter. The id `Date.now().toString()` given to a new source is a supplied
value. Locale date formatting is a function passed in by the caller.

The list is sorted by a call to `Array.prototype.sort` with a comparator that
returns `key(b) - key(a)`. Section 22.1.3.27 of ECMA-262 (10th edition)
requires that sort to be stable. The model defines the sort as a stable
insertion sort. It proves that the result:

- is a permutation of its input;
- is non-increasing in the key;
- keeps, for every key value, the input order of the offers with that key.

It also proves that exactly one arrangement has all three properties. So the
definition is no stronger than what the standard fixes.

## Model

| member | source | states |
|---|---|---|
| JobList.FilterJobs | src/components/JobList.tsx:21-33 | the filtered list is an order-preserving subsequence of `jobs`; every element passes the search and tab tests, and every element of `jobs` that passes both appears |
| JobList.FilterJobsMultiplicity | src/components/JobList.tsx:21-33 | an offer appears in the filtered list exactly as often as in `jobs` when it passes both tests, and never otherwise |
| JobList.EmptyQueryMatchesAll | src/components/JobList.tsx:22-25 | the empty query matches every offer |
| JobList.SearchIffOccurs | src/components/JobList.tsx:22-25 | the search test holds iff the lower-cased query occurs at some position of the lower-cased title, company or some stack entry |
| JobList.TabSemantics | src/components/JobList.tsx:27-30 | `all` admits every offer, `matched` exactly those with `isMatch`, `new` exactly those posted after now − 604800000 ms, any other tab none |
| JobList.Compare | src/components/JobList.tsx:35-39 | the comparator's value is the second offer's key minus the first's, with key `matchScore`, the posting instant, or 0 for any other sort key |
| JobList.SortJobs | src/components/JobList.tsx:35-39 | the sorted list is a permutation of its input, non-increasing in the key, and stable: for each key value, the offers with that key appear in input order |
| JobList.InsertPermutes | src/components/JobList.tsx:35-39 | inserting one offer adds exactly that offer to the multiset |
| JobList.InsertSorted | src/components/JobList.tsx:35-39 | inserting into a non-increasing list keeps it non-increasing |
| JobList.InsertStable | src/components/JobList.tsx:35-39 | inserting an offer into a sorted list keeps, for every key, the order the offers with that key have with the new offer placed first |
| JobList.SortStep | src/components/JobList.tsx:35-39 | inserting the first offer into the sorted rest gives a sorted list that is stable with respect to the whole input |
| JobList.StableSortUnique | src/components/JobList.tsx:35-39 | two lists that are both non-increasing and have the same offers per key in the same order are equal |
| JobList.SortJobsIsTheStableSort | src/components/JobList.tsx:35-39 | any non-increasing arrangement of the input that keeps the input order among equal keys is the sort's result |
| JobList.UnknownSortKeepsOrder | src/components/JobList.tsx:35-39 | with a sort key other than `matchScore` and `date` the comparator always returns 0 and the list keeps its order |
| JobList.ViewSpec | src/components/JobList.tsx:21-39 | the displayed list is a permutation of the filtered list, contained in `jobs` as a multiset, holds exactly the offers of `jobs` that pass both tests, and is sorted and stable |
| JobList.MatchedCount | src/components/JobList.tsx:41 | the matched count is at most the number of offers |
| JobList.NewCount | src/components/JobList.tsx:42 | the new count is at most the number of offers |
| JobList.CountsAgreeWithTabs | src/components/JobList.tsx:41-42 | the counts depend on the offers only; they equal the length of the Matched and New tabs with an empty query and bound it for any query |
| JobList.SortLength | src/components/JobList.tsx:35 | sorting does not change the length |
| JobList.FormatDate | src/components/JobList.tsx:44-54 | with d the whole days between posting and now in either direction, the label is Today for d = 0, Yesterday for d = 1, "d days ago" for 2 ≤ d < 7 and the locale date of the posting otherwise |
| JobList.ExampleAll | src/components/JobList.tsx:21-39 | two engineering offers searched for "engineer" on the All tab are both shown, higher score first |
| JobList.ExampleNew | src/components/JobList.tsx:27-30 | of an offer two days old and one ten days old, the New tab shows only the first |
| JobList.ExampleMatched | src/components/JobList.tsx:27-29 | the Matched tab shows only the matching offer |
| JobList.ExampleReact | src/components/JobList.tsx:22-25 | the query "react" finds the offer whose stack holds "React", case-insensitively, and not the other |
| FilterConfiguration.AddItem | src/components/FilterConfiguration.tsx:25-34 | no update iff the trimmed value is empty or already in the list (exact comparison); otherwise the list gains the trimmed value at its end and the other five lists are unchanged |
| FilterConfiguration.AddItemKeepsNoDuplicates | src/components/FilterConfiguration.tsx:29-33 | a duplicate-free list stays duplicate-free, and the added value is non-empty with no whitespace at either end |
| FilterConfiguration.AddItemIdempotent | src/components/FilterConfiguration.tsx:29-33 | adding the same value again issues no update, so adding twice equals adding once |
| FilterConfiguration.DropPositionSpec | src/components/FilterConfiguration.tsx:39 | filtering out position `index` removes exactly that element when it is in range and nothing otherwise |
| FilterConfiguration.RemoveItem | src/components/FilterConfiguration.tsx:36-41 | an in-range index removes exactly that element and shortens the list by one, an out-of-range index leaves it whole; the other lists are unchanged |
| FilterConfiguration.WithoutSpec | src/components/FilterConfiguration.tsx:45 | filtering out a value keeps the order and the count of every other value and removes every occurrence of it |
| FilterConfiguration.Toggle | src/components/FilterConfiguration.tsx:43-55 | membership of the value flips; an absent value is appended at the end; a present one is removed everywhere, keeping the order of the rest; other values keep their counts |
| FilterConfiguration.ToggleTwiceRestores | src/components/FilterConfiguration.tsx:43-55 | toggling an absent value twice gives back the original list |
| FilterConfiguration.ToggleKeepsNoDuplicates | src/components/FilterConfiguration.tsx:43-55 | toggling keeps a duplicate-free list duplicate-free |
| FilterConfiguration.ToggleJobType | src/components/FilterConfiguration.tsx:43-48 | `jobType` becomes its toggle: an absent type is appended at the end, a present one is removed everywhere with the order of the rest kept; membership flips, other values keep their counts, the other five lists are unchanged |
| FilterConfiguration.ToggleExperience | src/components/FilterConfiguration.tsx:50-55 | `experience` becomes its toggle: an absent level is appended at the end, a present one is removed everywhere with the order of the rest kept; membership flips, other values keep their counts, the other five lists are unchanged |
| FilterConfiguration.ToggleCriteriaTwice | src/components/FilterConfiguration.tsx:43-55 | toggling an absent job type or level twice restores the whole criteria |
| App.AppendSource | src/App.tsx:149-151 | exactly one source is appended after the untouched existing ones, carrying the draft's name, type, url and enabled flag, the given id and no last sync |
| App.ToggleEnabled | src/App.tsx:153-154 | same length and order; `enabled` flips on exactly the sources with the id, and nothing else changes on any source |
| App.ToggleEnabledTwice | src/App.tsx:153-154 | toggling the same id twice is the identity |
| App.RemoveSources | src/App.tsx:156-157 | the result is an order-preserving subsequence holding no source with the id and every source without it |
| App.RemoveSourcesMultiplicity | src/App.tsx:156-157 | every source with the id is gone, every other source stays as often as it was |
| App.RemoveAbsentSource | src/App.tsx:156-157 | deleting an id that no source carries changes nothing |
| App.RemoveUndoesAppend | src/App.tsx:149-157 | deleting the id of a just-added source gives what deleting it before the addition gives |
| App.StampSync | src/App.tsx:159-160 | same length; `lastSync` becomes now on exactly the sources with the id and nothing else changes |
| App.Merge | src/App.tsx:171 | each list the extracted criteria hold replaces the current one; each list they lack is kept |
| App.MergeIdempotent | src/App.tsx:171 | merging the same extracted criteria twice is merging once, and merging nothing changes nothing |
| App.NextTab | src/App.tsx:206-209 | without a required résumé any tab is accepted; with one, only `cv` and `settings` are accepted, otherwise the tab stays |
| App.NextTabKeepsOnboarding | src/App.tsx:206-209 | while a résumé is required and an onboarding tab is active, no request leaves the onboarding tabs |
| App.MatchedJobs | src/App.tsx:241 | the matched offers are an order-preserving subsequence of the offers holding exactly those with `isMatch` |
| App.DashboardMatchesJobList | src/App.tsx:241 | the dashboard's matched figure equals the job list's matched count and the length of its Matched tab with no search |
| App.AppState.constructor | src/App.tsx:38-56 | the initial state is signed out, with no data, empty criteria, the dashboard tab and nothing dirty |
| App.AppState.Login | src/App.tsx:104-114 | signing in or registering sets the session and the address, closes the register screen, and changes nothing else |
| App.AppState.Logout | src/App.tsx:116-127 | signed out with no address, no offers, no sources, all six lists empty, the dashboard tab, no résumé requirement and no registration message; the dirty flag and everything else are unchanged |
| App.AppState.AddSource | src/App.tsx:149-151 | only the sources change, by `AppendSource` |
| App.AppState.ToggleSource | src/App.tsx:153-154 | only the sources change, by `ToggleEnabled` |
| App.AppState.DeleteSource | src/App.tsx:156-157 | only the sources change, by `RemoveSources` |
| App.AppState.SyncSource | src/App.tsx:159-160 | only the sources change, by `StampSync` |
| App.AppState.UpdateFilters | src/App.tsx:165-168 | the criteria are replaced and marked unsaved; nothing else changes |
| App.AppState.ExtractFilters | src/App.tsx:170-173 | the criteria are merged with the extracted ones and the filters tab opens; the dirty flag and everything else are unchanged |
| App.AppState.BeginSave | src/App.tsx:175-186 | a request is sent iff an address is known, carrying the criteria held at that moment; nothing changes |
| App.AppState.FinishSave | src/App.tsx:188-195 | a success response clears the dirty flag whatever the criteria are by then; a failure changes nothing |
| App.AppState.SaveFilters | src/App.tsx:175-196 | with no other handler running during the request, the criteria stop being dirty iff an address is known and the server answered with success; otherwise nothing changes |
| App.EditDuringSave | src/App.tsx:165-196 | an edit made while the save request is in flight ends up not dirty after a success response, although the criteria held differ from those sent |
| App.AppState.TabChange | src/App.tsx:206-209 | only the active tab changes, by `NextTab`, and the onboarding guard is preserved |
| JobSources.SourceForm.constructor | src/components/JobSources.tsx:22-28 | the form starts closed on the empty RSS draft, enabled |
| JobSources.SourceForm.Submit | src/components/JobSources.tsx:30-36 | the draft is forwarded iff its name and url are non-empty; then the form resets to the empty RSS draft and closes; otherwise nothing changes |
| JobSources.FormatLastSync | src/components/JobSources.tsx:49-60 | Never iff no last sync; "N mins ago" iff less than an hour ago (negative differences included), N being the whole minutes, rounded down; "H hours ago" with the whole hours between one hour and one day; the locale date beyond |
| JobSources.MinsTextDistinct | src/components/JobSources.tsx:57 | different minute counts give different labels |
| Settings.CheckPassword | src/components/Settings.tsx:42-53 | a mismatch is reported iff the new and confirmation passwords differ; too short iff they agree and are shorter than 6; accepted iff they agree and are at least 6 long; the current password plays no part |
| Settings.PasswordForm.constructor | src/components/Settings.tsx:16-29 | the three fields start empty and the form is not saving |
| Settings.PasswordForm.ChangePassword | src/components/Settings.tsx:42-55 | the reported error is `CheckPassword`'s; a rejected change leaves the form as it was, an accepted one sets saving; no field changes |
| Settings.PasswordForm.CompleteChange | src/components/Settings.tsx:58-63 | on completion the three fields are empty and the form is no longer saving |
| Text.IncludesIffOccurs | src/components/JobList.tsx:23-25 | `includes` holds iff the needle occurs at some position of the string |
| Text.LowerChar | src/components/JobList.tsx:23 | an upper-case ASCII letter becomes its lower-case counterpart (code point plus 32), other characters are kept, and the result is never an upper-case letter |
| Text.LowerIdempotent | src/components/JobList.tsx:23 | lower-casing twice is lower-casing once |
| Text.TrimSpec | src/components/FilterConfiguration.tsx:26 | the trimmed string is a contiguous part of the input with only whitespace around it, and has no whitespace at either end; it is empty iff the input is all whitespace |
| Text.TrimIdempotent | src/components/FilterConfiguration.tsx:26 | trimming twice is trimming once |
| Text.DecimalRoundTrip | src/components/JobSources.tsx:57-58 | the decimal rendering of an integer reads back as that integer |
| Seqs.Filter | src/components/JobList.tsx:21 | a filtered list is no longer than its input, holds only elements of the input that pass, and holds every one that does |
| Seqs.FilterIsSubsequence | src/components/JobList.tsx:21 | a filtered list is an order-preserving subsequence of its input |
| Seqs.FilterMultiplicity | src/components/FilterConfiguration.tsx:45 | a filtered list holds each passing element as often as the input and no other |
| Seqs.FilterAppend | src/components/FilterConfiguration.tsx:45-46 | filtering a concatenation concatenates the filtered parts |
| Seqs.FilterNoDuplicates | src/components/FilterConfiguration.tsx:45 | filtering keeps a duplicate-free list duplicate-free |
| Types.With | src/components/FilterConfiguration.tsx:30-33 | replacing one list of the criteria sets it and keeps the other five |

## Left out

- Network and persistence are not modelled. This covers the initial loading of offers, sources, criteria and profile, saving the résumé, the request sent by saving the criteria (it is the value `BeginSave` returns, and only the success of its response is a parameter of `FinishSave`), and the login form's request.
- The simulated asynchronous work is not modelled: the résumé extraction, the cover-letter template, and saving the profile, notification and preference settings. These are fixed outputs behind timers. The one-second delay before a password change completes is the separate `CompleteChange` step.
- Browser I/O is not modelled: file reading, the clipboard, confirmation dialogs, scrolling and toasts. The toast texts of the password form are `PasswordError.Message`.
- The theme hook and switcher, the dashboard's sample data, the styling configuration and all rendering are not part of this model.
- The score breakdown of the job detail view is not modelled. It is floating-point display arithmetic.
- Parsing date strings is not modelled. Posting instants and sync instants are integers, so invalid dates (NaN in the source, which makes an offer "not new") do not arise.
- `toLocaleDateString` is a function supplied to `DayLabel.Display` and `SyncLabel.Display`.
- JobSources.FormatLastSync: the empty string, which the source treats like an absent value, is folded into `None`.
- Text.Lower: only the ASCII letters A–Z are lower-cased. `toLowerCase` also maps other alphabets.
- Settings.CheckPassword: the length is counted in characters. JavaScript counts UTF-16 code units, so a character outside the Basic Multilingual Plane counts twice there.
- JobList.View: the current instant is read once per computation. The source calls `Date.now()` once per offer and once per count.
- App.Merge: extracted criteria are modelled as present or absent per list. An explicitly `undefined` list, which the spread would copy over the current one, is not modelled.
- App.AppState.Login: `handleRegister`, whose effect is the same, is modelled by the same method; the name argument it ignores is left out. The register/login screen switching outside the handlers is not modelled.
- App.AppState.ExtractFilters: the filters tab is opened even while a résumé is required, bypassing the guard `handleTabChange` applies. The model states this behaviour as the source has it, so it is not among the states `OnboardingGuard` is proved for.
- Types.JobOffer: `matchScore` is a JavaScript number in the source and an integer here. Only comparisons of scores are modelled; fractional scores and NaN are not.
- App.AppState.FinishSave: the state does not record which request is in flight, so the model also admits a response with no request before it, which the source cannot produce.
- Selecting an offer and opening its detail view (`handleSelectJob`) is not modelled. It only stores the selection.
