# duck-vault-app: bookkeeping list and expense form, modelled in Dafny

The app logs expenses and shows them as a list of date sections (one section per
month or per day) fetched page by page from a server. This project models the
parts of the app that hold state and rules rather than rendering:

- **Section merge** (`Sections.dfy`): `combineSections`, which appends a fetched page
  of sections to the held list and fuses the two boundary sections when the page
  boundary split one date bucket.
- **Pagination controller** (`AccountList.dfy`): the list screen's fetch lifecycle as
  a class `AccountListScreen` whose fields are the screen's state (`accounts`,
  `anchor`, `keyword`, `sectionType`, `endReached`, `refreshing`, `spinner`) and the
  instance flag `loadMoreAfterFetch`. Issued fetches and deletes go to ghost logs
  (`requests`, `deletions`). Fetch completion is an input event: `FetchSucceeded`
  and `FetchFailed`. The query-parameter rule is the pure function `QueryParams`.
- **List display** (`ListDisplay.dfy`): the empty-state rule (null list: busy
  indicator or nothing; empty list: one placeholder section "无记录" with total 0),
  the chart's bars (the first nine sections, reversed) and bar labels (the last two
  `-`-separated fields of the title), with `split`/`join` modelled and their round
  trips proved.
- **Expense form** (`KeepAccount.dfy`): the default record, the field update whose
  type change resets the sub-type to "无" and swaps the sub-type list, the submit
  check refusing a non-positive or missing amount, and save success and failure.
- **Type tables** (`TypeTables.dfy`): the `Types` and `SubTypes` constants, their
  well-formedness (distinct values, label equals value, every list starts with
  "无", the list keys are exactly the type values) and the colour lookup by type.

`Wrappers.dfy` holds the `Option` datatype used for JavaScript `null`.

Where the intended design of the list and its code differ, the model follows the code:

- The fused boundary section keeps the held section's `total`; it is not
  recomputed from the fused records (`CombineKeepsHeldTotal` shows that the total
  then no longer matches the records whenever the fetched part has a non-zero sum).
- The merge is associative for all inputs, not only for aligned pages
  (`CombineAssociative`).
- A load-more is deferred while `refreshing` is set, which the code uses as its
  in-flight flag. The deferred load-more is issued after the next successful fetch
  without looking at `endReached`, from whatever cursor that fetch returned; a
  failed fetch keeps the pending flag, so it fires after a later success.
- The `anchor` parameter is omitted when the cursor is falsy, so an empty-string
  cursor is dropped as well as `null`.
- A new refresh while a fetch is in flight starts another fetch; the model treats
  completions as sequential events.

## Model

| member | source | states |
|---|---|---|
| `TypeTables.TypesAreWellFormed` | constants/Types.js:1-5 | the type table has three entries with pairwise distinct values, each label equal to its value, and its values are exactly the three type names |
| `TypeTables.SubTypesAreWellFormed` | constants/Types.js:1-30 | the sub-type keys are exactly the type values; every sub-type list starts with "无", has distinct values and labels equal to values, so the reset value belongs to every list |
| `TypeTables.FindIndex` | components/AccountItem.js:27 | the lookup by value returns the first entry carrying the value, and returns nothing exactly when no entry carries it |
| `TypeTables.TypeColor` | components/AccountItem.js:27 | a record's colour is defined exactly when its type is a type value, and is the colour of an entry carrying that value |
| `TypeTables.TypeColorIsUnique` | constants/Types.js:1-5 | since values are distinct, the colour found is that of the one entry carrying the type value |
| `Sections.CombineSections` | screens/AccountListScreen.js:31-43 | the merged list has as many sections as both lists together, one fewer when the boundary titles match |
| `Sections.CombineIntoNothing` | screens/AccountListScreen.js:31-34 | merging into a null or an empty held list yields the fetched page |
| `Sections.CombineEmptyPage` | screens/AccountListScreen.js:36-42 | merging an empty page leaves the held list unchanged |
| `Sections.CombineIsConcatIff` | screens/AccountListScreen.js:36-42 | the result is the held list followed by the page if and only if the boundary titles differ |
| `Sections.CombineFusesBoundary` | screens/AccountListScreen.js:36-39 | with matching boundary titles: all held sections but the last are kept, the fused section has the held title and total and the held records before the fetched ones, and the rest of the page follows unchanged |
| `Sections.CombinePreservesRecords` | screens/AccountListScreen.js:31-43 | the records of the result, in order, are the held records followed by the fetched records: none dropped, duplicated or reordered |
| `Sections.CombineAssociative` | screens/AccountListScreen.js:31-43 | merging three pages gives the same list however the merges are grouped |
| `Sections.CombineKeepsHeldTotal` | screens/AccountListScreen.js:37-38 | the fused section keeps the held total, which differs from the sum of its records when the held total was exact and the fetched part sums to non-zero |
| `Sections.CombineKeepsTitlesDistinct` | screens/AccountListScreen.js:31-43 | when the two lists share at most their boundary title, the merged list has distinct titles |
| `AccountList.QueryParams` | screens/AccountListScreen.js:74-82 | the query is `type` first, then `keyword` exactly when the keyword is truthy, then `anchor` last exactly when the cursor is truthy, each once with its value, and nothing else |
| `AccountList.AccountListScreen.constructor` | screens/AccountListScreen.js:46-59 | the screen starts with no list, no cursor, no keyword, monthly buckets, nothing in flight and nothing issued |
| `AccountList.AccountListScreen.FetchStart` | screens/AccountListScreen.js:71-83 | issuing a fetch sets `refreshing` and logs one request built from the current cursor, keyword and bucket type; nothing else changes, and every logged request keeps a `type` of "month" or "day" |
| `AccountList.AccountListScreen.Refresh` | screens/AccountListScreen.js:121-124 | refresh clears the cursor and the end flag, takes each given filter and keeps each omitted one, and issues one replacing fetch without an anchor |
| `AccountList.AccountListScreen.LoadMore` | screens/AccountListScreen.js:126-136 | at the end of data nothing changes; while a fetch is in flight only the pending flag is set and nothing is issued; otherwise exactly one merging fetch from the current cursor is issued |
| `AccountList.AccountListScreen.FetchSucceeded` | screens/AccountListScreen.js:85-93 | the page is merged into the held list iff the fetch was a load-more and replaces it otherwise; the returned cursor and end flag are stored; a pending load-more is cleared and issued exactly once from the new cursor, whatever the end flag |
| `AccountList.AccountListScreen.FetchFailed` | screens/AccountListScreen.js:95-98 | a failed fetch only clears `refreshing`; list, cursor, end flag and pending flag are kept and nothing is issued |
| `AccountList.AccountListScreen.DeleteStart` | screens/AccountListScreen.js:102-108 | a delete shows the spinner and logs the record id; the list is not touched |
| `AccountList.AccountListScreen.DeleteSucceeded` | screens/AccountListScreen.js:109-113 | a successful delete hides the spinner and refreshes under the current filters instead of removing the record locally |
| `AccountList.AccountListScreen.DeleteFailed` | screens/AccountListScreen.js:114-117 | a failed delete only hides the spinner |
| `AccountList.CoalescedLoadMore` | screens/AccountListScreen.js:126-136 | two load-mores during an in-flight fetch lead to exactly one merging fetch after it succeeds, from the cursor it returned |
| `ListDisplay.ContentFor` | screens/AccountListScreen.js:236-247 | a null list shows the empty view with the indicator iff a fetch is in flight; a held list shows at least one section, the held sections when there are any and the single placeholder "无记录" with total 0 when there are none, and exactly the held records |
| `ListDisplay.ChartData` | screens/AccountListScreen.js:185 | the chart has min(9, n) bars, the first sections of the list in reverse order |
| `ListDisplay.Split` | screens/AccountListScreen.js:205 | splitting yields one more piece than there are separators, none containing a separator |
| `ListDisplay.JoinSplit` | screens/AccountListScreen.js:205 | joining the pieces of a split restores the string |
| `ListDisplay.SplitJoin` | screens/AccountListScreen.js:205 | splitting a join of separator-free pieces restores the pieces |
| `ListDisplay.ChartLabel` | screens/AccountListScreen.js:205 | a bar label is the suffix of its title after the second-to-last `-`: a title with at most one `-` is its own label; a longer one yields a suffix preceded by `-` that holds exactly one `-` |
| `ListDisplay.ChartLabelOfDates` | screens/AccountListScreen.js:205 | a day title "y-m-d" is labelled "m-d" and a month title "y-m" is labelled by itself |
| `KeepAccount.InitAccount` | screens/KeepAccountScreen.js:16-23 | the default record has the "吃吃吃" type, sub-type "无" (which that type's list offers) and no amount, merchant or comments, so it cannot be submitted |
| `KeepAccount.AmountAccepted` | screens/KeepAccountScreen.js:46 | the submit test `change <= 0` lets through exactly a present, positive amount; `null` compares as 0 and is refused |
| `KeepAccount.Overwrite` | screens/KeepAccountScreen.js:80-82 | the spread `{ ...account, ...update }` sets every field the update supplies and keeps every absent one |
| `KeepAccount.Updated` | screens/KeepAccountScreen.js:80-85 | the updated record differs from the spread only in its sub-type, which is "无" after a truthy type change even when the update supplies one, and otherwise the supplied or kept sub-type |
| `KeepAccount.UpdateIsIdempotent` | screens/KeepAccountScreen.js:79-86 | applying the same update twice equals applying it once |
| `KeepAccount.KeepAccountScreen.constructor` | screens/KeepAccountScreen.js:28-32 | the form starts with the default record, no spinner and the "吃吃吃" sub-type list |
| `KeepAccount.KeepAccountScreen.Focus` | screens/KeepAccountScreen.js:35-39 | regaining focus resets the record but keeps the sub-type list, and the record's sub-type is still offered by that list |
| `KeepAccount.KeepAccountScreen.UpdateAccount` | screens/KeepAccountScreen.js:79-88 | the record becomes the updated record; a type change swaps the list to that type's list and the reset sub-type belongs to it; without one the list is unchanged |
| `KeepAccount.KeepAccountScreen.Submit` | screens/KeepAccountScreen.js:45-66 | a missing or non-positive amount is refused with no change at all; otherwise the spinner shows and the record is sent unchanged |
| `KeepAccount.KeepAccountScreen.SaveSucceeded` | screens/KeepAccountScreen.js:68-71 | a successful save resets the record and hides the spinner, keeping the sub-type list |
| `KeepAccount.KeepAccountScreen.SaveFailed` | screens/KeepAccountScreen.js:72-75 | a failed save hides the spinner and keeps the entered record |
| `KeepAccount.StaleSubTypesAfterFocus` | screens/KeepAccountScreen.js:36-38 | after choosing "出行" and re-focusing, the record is back to "吃吃吃" while the picker still offers the "出行" list |

## Left out

- Network I/O: `fetch`, JSON decoding, the server host and the bearer token. Every
  operation is modelled as if the login gate (`requireLogin`) had produced a token.
  A missing token is not modelled; it stops the fetch or delete itself, but not what
  precedes the gate: a refresh has already reset the cursor, the end flag and the
  filters, and a follow-up load-more has already cleared `loadMoreAfterFetch`.
- AccountList.AccountListScreen.FetchStart: sets `refreshing` when the fetch is
  issued, whereas the source sets it only once the asynchronous token read
  resolves; a debounced load-more firing in that gap sees `refreshing` false and
  issues a second fetch, which the model cannot show.
- QueryParams: parameter values are kept as given; the `encodeURIComponent` encoding
  applied to `type` and `keyword` is not modelled.
- The 500 ms debounce of `loadMore`: `LoadMore` is the call that fires after it.
- Overlapping fetches: completions are applied one at a time; `FetchSucceeded` is
  told the `loadMore` flag its fetch was issued with, as the source's closure is.
- The server's page is taken to be a list (never `null`).
- Rendering and animation: the section list, the chart widgets, chart opening and
  height animation, swipe state, scrolling to the top on refresh, toasts and alerts.
- Amounts are whole numbers; the text field's string-to-number coercion of
  `change` is not modelled (`None` stands for an empty field, which is refused).
- Dates: `new Date()` is the `now` parameter; `moment` formatting of the saved date
  is not modelled.
- Currency formatting of totals (helpers/Number is not part of this model).
- Login, logout and settings (helpers/User.js, screens/SettingsScreen.js), the chart
  component, the switch button, navigation and colours: UI outside this core.
