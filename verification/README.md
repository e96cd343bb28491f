# CivicEye issue store, in Dafny

A model of the logic at the heart of CivicEye, a civic issue reporting app.
Citizens report problems such as potholes, broken street lights or leaks, upvote
and comment on them. City staff move issues through pending, in progress and
resolved. Every operation is modelled as a pure function over immutable
datatypes, and the app's promises are stated as contracts and lemmas.

- **Issue store** (`issue_store.dfy`, `store_properties.dfy`): the five
  operations of the issue context over a `seq<Issue>`.
  - `addIssue` prepends.
  - `updateIssueStatus`, `upvoteIssue` and `addComment` rewrite every issue
    carrying the id and leave the rest alone. An unknown id is a silent no-op.
  - `getIssueById` returns the first match or nothing.
  - Ids and timestamps, which the source takes from `Date.now()`, are
    parameters. A timestamp is a `nat` of milliseconds.
- **View pipeline** (`view_pipeline.dfy`): the issue list's `filteredIssues`.
  It applies the status filter, then the type filter, then a stable sort by
  the chosen comparator. An absent or unknown `sortBy` keeps the filtered
  order. The sort is an insertion sort. The model proves that a stable sorted
  arrangement is unique, so any stable sort the runtime uses gives the same
  list.
- **Filter bar** (`issue_filter.dfy`): the dropdown state and its four
  handlers. Each handler is a transition that returns the new state and the
  spec it emits.
- **Upvote guard** (`upvote_guard.dfy`, `issue_detail.dfy`): the per-browser
  ledger of upvoted ids, modelled as a `set<string>`, shared by the issue card
  and the detail page. Also modelled: the detail page's not-found branch, its
  "Updated" line and its timeline stages.
- **Input gates** (`text.dfy`, `comment_list.dfy`, `issue_reporting.dfy`):
  - the comment box, which accepts only when `trim()` leaves something;
  - the report form's submit gate and the draft it hands to `addIssue`;
  - the form's media list edits.
- **Derived figures** (`admin_dashboard.dfy`, `profile.dfy`):
  - the admin dashboard's counts and totals, and its status-change handler;
  - the profile's even-index "my issues", its status tabs and its "Comments
    Made" figure.
- **Seed and labels** (`mock_data.dfy`, `scenarios.dfy`): the label tables, the
  four seed issues, and concrete scenarios over the seed. The scenarios are
  stated for any store with the seed's shape (`Scenarios.SeedShape`: ids,
  statuses, votes, creation order and comment counts). `Scenarios.SeedKeys`
  proves that the seed has that shape.

Three facts about the store that the model keeps as the code has them:

- `upvoteIssue` (src/contexts/IssueContext.tsx:45-57) leaves `updatedAt`
  untouched. Only a status change and a comment refresh it.
- Mutations with an unknown id return the store unchanged
  (src/contexts/IssueContext.tsx:30-80). No error is raised.
- The store validates nothing. The blank-comment and (0, 0)-location checks
  live only in the forms (src/components/issues/CommentList.tsx:22,
  src/pages/IssueReporting.tsx:80).

## Model

| member | source | states |
|---|---|---|
| Types.AllStatuses | src/types/index.ts:3 | A status is one of exactly three distinct values, and every status is among them. |
| Types.AllIssueTypes | src/types/index.ts:6-14 | An issue type is one of exactly eight distinct values, and every type is among them. |
| IssueStore.AddIssue | src/contexts/IssueContext.tsx:15-27 | The new issue is prepended and the old issues follow in order. It has the given id, zero upvotes and no comments, with `createdAt == updatedAt == now`, one `now` standing for the source's two clock reads. Its draft fields are copied unchanged. |
| IssueStore.UpdateIssueStatus | src/contexts/IssueContext.tsx:30-42 | Each issue with the id gets exactly the new status and `updatedAt = now`. Every other issue is identical. Length and ids are unchanged. |
| IssueStore.UpvoteIssue | src/contexts/IssueContext.tsx:45-57 | Each issue with the id gains exactly one upvote, with no other field changed. Every other issue is identical. |
| IssueStore.AddComment | src/contexts/IssueContext.tsx:60-82 | Each issue with the id gets one comment at the end of its list. The comment carries the supplied id, the issue id, the draft's author, flag and content, and `now`. The old comments stay as a prefix and `updatedAt = now`, one `now` standing for the source's two clock reads. Every other issue is identical. |
| IssueStore.MutationsDropFirst | src/contexts/IssueContext.tsx:30-80 | The three `map`-based mutations act issue by issue, so applying them commutes with dropping the first issue. |
| IssueStore.GetIssueById | src/contexts/IssueContext.tsx:84-87 | The result is nothing exactly when no issue has the id. Otherwise it is an issue with that id, and no earlier issue has the id. |
| StoreProperties.AddIssueUniqueIds | src/contexts/IssueContext.tsx:15-25 | After `addIssue`, ids are pairwise distinct if and only if they were before and the new id was fresh. |
| StoreProperties.UnknownIdIsNoOp | src/contexts/IssueContext.tsx:30-80 | With an id no issue carries, all three mutations return the store unchanged. |
| StoreProperties.MutationsKeepIdsUnique | src/contexts/IssueContext.tsx:30-80 | Status changes, upvotes and comments keep ids pairwise distinct. |
| StoreProperties.NoOperationShrinks | src/contexts/IssueContext.tsx:14-82 | No operation lowers an upvote count, drops a comment or changes an id of an existing issue. |
| StoreProperties.UpvoteTimesRaises | src/contexts/IssueContext.tsx:45-57 | n upvotes raise each matching issue's count by exactly n, with nothing else about it changed. |
| StoreProperties.UpvoteTimesKeepsOthers | src/contexts/IssueContext.tsx:45-57 | n upvotes leave every non-matching issue identical. |
| StoreProperties.GetIssueByIdFindsUnique | src/contexts/IssueContext.tsx:84-87 | With unique ids, looking up an issue's id finds that issue. |
| StoreProperties.AddThenGet | src/contexts/IssueContext.tsx:14-87 | Round trip: looking up a just-created id yields the draft plus id, zero upvotes, no comments and both timestamps `now`. Lookups of other ids are unaffected. |
| StoreProperties.UpvoteThenGet | src/contexts/IssueContext.tsx:45-87 | With unique ids, the lookup after an upvote sees exactly one more vote on the same issue. |
| StoreProperties.TimesStayOrdered | src/contexts/IssueContext.tsx:14-82 | If the clock is not behind any creation time, `createdAt <= updatedAt` survives every operation. |
| ViewPipeline.OrderOf | src/components/issues/IssueList.tsx:32-47 | Exactly the strings "newest", "oldest", "upvotes" and "comments" select a comparator, each its own. Anything else, or no value, selects none. |
| ViewPipeline.Keep | src/components/issues/IssueList.tsx:22-29 | A filter keeps exactly the matching issues, as often as they occur and in their input order, and nothing else. |
| ViewPipeline.KeepIf | src/components/issues/IssueList.tsx:21-29 | An unset filter keeps everything. A set filter keeps exactly the matching issues, in order. |
| ViewPipeline.Selected | src/components/issues/IssueList.tsx:19-29 | Status then type filtering keeps exactly the issues both filters admit, with multiplicity, as a subsequence of the store. |
| ViewPipeline.InsertByRank | src/components/issues/IssueList.tsx:31-47 | Inserting into a sorted list gives a sorted list with one more element. Among equal keys, the new issue comes last. |
| ViewPipeline.SortBy | src/components/issues/IssueList.tsx:31-47 | The sort returns a permutation that is ordered by the key. Issues with equal keys keep their input order. |
| ViewPipeline.Project | src/components/issues/IssueList.tsx:18-50 | The list shows exactly the admitted issues. Under an unknown `sortBy` it is the filtered list unchanged. Under a known one it is the filtered list, ordered by key and stable among equal keys. |
| ViewPipeline.ProjectKeyOrder | src/components/issues/IssueList.tsx:32-44 | Under "newest" createdAt never increases along the list, under "oldest" it never decreases, under "upvotes" upvotes never increase, and under "comments" comment counts never increase. |
| ViewPipeline.StatusFiltersPartition | src/components/issues/IssueList.tsx:22-24 | The three status filters split any list: their lengths add up to its length. |
| ViewPipeline.SortedDistinctUnique | src/components/issues/IssueList.tsx:32-44 | With no ties, only one sorted arrangement of the same issues exists. |
| ViewPipeline.SortedStableUnique | src/components/issues/IssueList.tsx:32-44 | Two sorted lists with the same issues of every key, in the same relative order, are equal. So every stable sort gives the list the model gives. |
| ViewPipeline.NoFilterSelectsAll | src/components/issues/IssueList.tsx:19-29 | With neither filter set, the selection is the whole store in order. |
| ViewPipeline.ProjectDistinct | src/components/issues/IssueList.tsx:18-50 | Under a known `sortBy` with distinct keys, the list is the strictly ordered arrangement of the selection. |
| ViewPipeline.ProjectStable | src/components/issues/IssueList.tsx:18-50 | Under a known `sortBy`, the list is the ordered arrangement that keeps the selection's order among equal keys. |
| IssueFilter.Narrowing | src/components/issues/IssueFilter.tsx:27-28 | "all" emits no filter. A value emits itself. |
| IssueFilter.InitialState | src/components/issues/IssueFilter.tsx:19-21 | The dropdowns start out showing exactly the spec the list starts from. |
| IssueFilter.HandleStatusChange | src/components/issues/IssueFilter.tsx:23-31 | The status becomes v, with no filter exactly when v is "all". The current type and sortBy are carried through. The emitted spec matches the dropdowns. |
| IssueFilter.HandleTypeChange | src/components/issues/IssueFilter.tsx:33-41 | The mirror image of the status handler, for the type. |
| IssueFilter.HandleSortChange | src/components/issues/IssueFilter.tsx:43-50 | Emits the new sortBy with the current filters. The emitted spec matches the dropdowns. |
| IssueFilter.ResetFilters | src/components/issues/IssueFilter.tsx:52-57 | As written, the dropdowns return to all, all and "newest", but the emitted spec is empty. |
| IssueFilter.ResetFiltersConsistent | src/components/issues/IssueFilter.tsx:52-57 | As intended, the reset emits what the reset dropdowns show, which is the list's initial spec. |
| IssueFilter.InitialStatesAgree | src/components/issues/IssueFilter.tsx:19-21 | The initial dropdowns (all, all, "newest") show the list's initial spec: newest first, no filter. |
| IssueFilter.ResetDisagreesWithDropdowns | src/components/issues/IssueFilter.tsx:52-57 | After the as-written reset, the dropdown reads "newest" but the spec selects no comparator. Every store is then shown in store order. |
| UpvoteGuard.MarkUpvoted | src/components/issues/IssueCard.tsx:34-36 | Marking puts the id in the ledger and leaves every other entry as it was. |
| UpvoteGuard.MarkIdempotent | src/components/issues/IssueCard.tsx:34-36 | Marking twice is marking once. Marking a recorded id changes nothing. |
| UpvoteGuard.CardMount | src/components/issues/IssueCard.tsx:23-26 | The card's initial flag is set exactly when the ledger holds the issue id. |
| UpvoteGuard.CardUpvote | src/components/issues/IssueCard.tsx:28-38 | Not yet upvoted: one store upvote, the id marked, the flag set. Already upvoted: store, ledger and flag unchanged. |
| UpvoteGuard.ClicksCollapse | src/components/issues/IssueCard.tsx:28-38 | Any positive number of clicks has the effect of one. |
| UpvoteGuard.ClicksRaiseAtMostOne | src/components/issues/IssueCard.tsx:28-38 | Any number of clicks raises the issue's upvotes by at most one, and by exactly one when it was not yet upvoted and clicked at least once. |
| UpvoteGuard.RunUpvotesAtMostOnce | src/components/issues/IssueCard.tsx:20-38 | Across any mix of clicks and remounts from a consistent card, the store is either untouched or has received exactly one upvote for the id. The upvote happens only when the ledger lacked the id. |
| UpvoteGuard.RunFromUpvoted | src/components/issues/IssueCard.tsx:28-38 | Once upvoted and recorded, no sequence of clicks and remounts changes store or ledger. |
| IssueDetail.LookupKey | src/pages/IssueDetail.tsx:26 | The lookup uses the route id, or "" when there is none. |
| IssueDetail.View | src/pages/IssueDetail.tsx:26-48 | The not-found branch is taken exactly when no issue carries the lookup key. Otherwise the page shows the first stored issue with that id, the one `getIssueById` finds. |
| IssueDetail.DetailMount | src/pages/IssueDetail.tsx:29-34 | The page's flag is set exactly when the route id is truthy and in the ledger. |
| IssueDetail.DetailUpvote | src/pages/IssueDetail.tsx:50-60 | Upvotes and records the route id only when not yet upvoted and the route id is truthy. Otherwise nothing changes. |
| IssueDetail.DetailUpvoteGuardsCards | src/pages/IssueDetail.tsx:24-60 | After an upvote from the detail page, the issue's own id is in the ledger. No number of clicks on a card mounted later changes the store again. |
| IssueDetail.StagesNest | src/pages/IssueDetail.tsx:184-208 | Stage 3 (resolved) implies stage 2. Stage 2 is lit exactly when the status is not pending. |
| IssueDetail.ShowsUpdated | src/pages/IssueDetail.tsx:110 | On an issue whose stamps are ordered, the "Updated" line shows exactly when it was updated after creation. |
| IssueDetail.Stage2Active | src/pages/IssueDetail.tsx:184 | Stage 2 is lit exactly for a status past pending. |
| IssueDetail.Stage3Active | src/pages/IssueDetail.tsx:208 | Stage 3 is lit only for a resolved issue, and never without stage 2. |
| IssueDetail.UpdatedLineFollowsStore | src/pages/IssueDetail.tsx:110 | A new issue shows no "Updated" line, given that its two stamps come from one clock reading. A status change at another time shows one. An upvote leaves the line as it was. |
| Text.TrimStartIndex | src/components/issues/CommentList.tsx:22 | The leading scan stops at the first non-white-space character, or at the end. |
| Text.TrimEndIndex | src/components/issues/CommentList.tsx:22 | The trailing scan stops after the last non-white-space character, or at the start. |
| Text.Trim | src/components/issues/CommentList.tsx:22 | The result is a slice of the input that neither starts nor ends with white space. Only white space lies outside it. |
| Text.TrimEmptyIffBlank | src/components/issues/CommentList.tsx:22 | `trim()` is empty exactly when every character is white space. |
| CommentList.AuthorFor | src/components/issues/CommentList.tsx:24 | Staff post as "CityAdmin", everyone else as "You". |
| CommentList.Accepts | src/components/issues/CommentList.tsx:22 | The gate passes exactly when some character of the draft is not white space. An empty draft never passes. |
| CommentList.SubmitDisabled | src/components/issues/CommentList.tsx:46 | The button is disabled exactly when the gate fails, that is, on an all-white-space draft. |
| CommentList.SubmitComment | src/components/issues/CommentList.tsx:20-30 | A blank draft changes neither store nor text box. A non-blank draft calls `addComment` once, with the mapped author, the flag and the untrimmed text, then clears the box. |
| CommentList.AcceptedCommentShape | src/components/issues/CommentList.tsx:22-28 | An accepted submit appends to the commented issue exactly one comment holding its id, the author, the flag and the text as typed. |
| CommentList.DisabledIffNoEffect | src/components/issues/CommentList.tsx:20-46 | The button is disabled exactly when submitting would change nothing, which is exactly when the draft is all white space. |
| IssueReporting.HandleSubmit | src/pages/IssueReporting.tsx:77-99 | Rejects exactly when the title or description is empty or the latitude is 0. Otherwise the draft is pending, reported by "Current User", and carries the form's fields and location. |
| IssueReporting.InitialForm | src/pages/IssueReporting.tsx:20-33 | The form starts at location (0, 0) with no media and not submitting, in a state that can be neither sent by the button nor accepted by the handler. |
| IssueReporting.SubmitDisabled | src/pages/IssueReporting.tsx:246 | The button is disabled exactly when the location is undetected or a submit is in flight. While it is enabled, the handler accepts exactly when title and description are filled in. |
| IssueReporting.SubmitReport | src/pages/IssueReporting.tsx:77-107 | A rejected submit leaves the store alone. An accepted one prepends exactly one issue and keeps the old store behind it. The new issue is the handler's draft: the form's title, description, type, media and location, pending, by "Current User". It has the given id, no votes, no comments, and both stamps `now`. |
| IssueReporting.UndetectedLocationBlocks | src/pages/IssueReporting.tsx:246 | At latitude 0 the submit button is disabled and the handler rejects, whatever else is filled in. |
| IssueReporting.InitialFormBlocked | src/pages/IssueReporting.tsx:30-33 | The initial form, at (0, 0), can be neither submitted nor accepted. |
| IssueReporting.MediaUpload | src/pages/IssueReporting.tsx:61-71 | With at least one file, exactly one placeholder is appended. With none, nothing changes. |
| IssueReporting.KeepOtherIndices | src/pages/IssueReporting.tsx:74 | The index filter over a suffix drops exactly the given index if it lies in the suffix. |
| IssueReporting.RemoveMedia | src/pages/IssueReporting.tsx:73-75 | Exactly the entry at the index is removed and the rest keep their order. An out-of-range index changes nothing. |
| IssueReporting.UploadThenRemove | src/pages/IssueReporting.tsx:61-75 | Uploading, then removing the new last entry, restores the list. |
| AdminDashboard.StatusCountIsFilterLength | src/pages/AdminDashboard.tsx:58-60 | Each status card shows the number of issues with that status, that is, the length of the status filter. |
| AdminDashboard.StatusCount | src/pages/AdminDashboard.tsx:58-60 | A status count never exceeds the number of issues, and is zero exactly when no issue has that status. |
| AdminDashboard.TotalUpvotes | src/pages/AdminDashboard.tsx:62 | "Total Upvotes" is at least any one issue's count, and zero exactly when no issue has a vote. |
| AdminDashboard.TotalComments | src/pages/AdminDashboard.tsx:63 | "Total Comments" is at least any one issue's thread length, and zero exactly when no issue has a comment. |
| AdminDashboard.CountsAddUp | src/pages/AdminDashboard.tsx:58-60 | The three status counts add up to the number of issues. |
| AdminDashboard.UpvoteAddsToTotal | src/pages/AdminDashboard.tsx:62 | An upvote raises "Total Upvotes" by the number of issues carrying the id. |
| AdminDashboard.UpvoteRaisesTotalByOne | src/pages/AdminDashboard.tsx:62 | With unique ids, upvoting a present issue raises the total by exactly one. An unknown id leaves it unchanged. |
| AdminDashboard.CommentAddsToTotal | src/pages/AdminDashboard.tsx:63 | A comment raises "Total Comments" by the number of issues carrying the id. |
| AdminDashboard.StatusChangeMovesCount | src/pages/AdminDashboard.tsx:58-67 | A status change on a unique id moves one issue from its old status count to the new one. The other count is unchanged. |
| AdminDashboard.HandleStatusChange | src/pages/AdminDashboard.tsx:65-73 | With no selection, nothing happens. With a selection, the store update is called on the selected id, and only the status of the dialog's copy is set. |
| AdminDashboard.DialogCopyIsStale | src/pages/AdminDashboard.tsx:65-73 | After the change, the dialog's copy and the store agree on the status but differ on `updatedAt`. |
| Profile.EvenIndices | src/pages/Profile.tsx:14 | "My issues" are exactly the issues at even positions, in order, `(n + 1) / 2` of them. |
| Profile.TabsPartition | src/pages/Profile.tsx:14-17 | The three tabs are order-preserving subsequences of "my issues". Their sizes add up to its size, and no issue is in two tabs. |
| Profile.PendingTab | src/pages/Profile.tsx:15 | The tab holds exactly the user's pending issues, as an order-preserving subsequence. |
| Profile.InProgressTab | src/pages/Profile.tsx:16 | The tab holds exactly the user's issues in progress, as an order-preserving subsequence. |
| Profile.ResolvedTab | src/pages/Profile.tsx:17 | The tab holds exactly the user's resolved issues, as an order-preserving subsequence. |
| Profile.CommentsMade | src/pages/Profile.tsx:71 | "Comments Made" never exceeds the total number of comments on the user's issues. |
| Profile.CommentsMadeSplit | src/pages/Profile.tsx:71 | "Comments Made" (the non-staff comments) plus the staff comments is the total comment count, so it never exceeds it. |
| MockData.LabelsDistinguish | src/utils/mockData.ts:5-21 | Every type and status has a non-empty label. No two share a label or a badge colour. |
| MockData.IssueTypeLabel | src/utils/mockData.ts:5-14 | Every issue type has a non-empty, capitalised label. |
| MockData.StatusLabel | src/utils/mockData.ts:17-21 | Every status has a non-empty, capitalised label. |
| MockData.StatusColor | src/utils/mockData.ts:17-21 | Every status has a badge class of the form `bg-status-… text-white`. |
| MockData.MockIssues | src/utils/mockData.ts:24-132 | The seed holds four issues with distinct ids and ordered stamps, and every comment points back to its issue. |
| Scenarios.SeedWellFormed | src/utils/mockData.ts:24-132 | The seed's ids are distinct and its timestamps ordered. Every comment points back to its issue and is not older than it. |
| Scenarios.SeedCommentIds | src/utils/mockData.ts:40-112 | The seed's four comment ids are pairwise distinct. |
| Scenarios.SeedKeys | src/utils/mockData.ts:24-132 | The seed has the ids, statuses, votes, creation order and comment counts the scenarios below start from. |
| Scenarios.SeedByUpvotes | src/components/issues/IssueList.tsx:39-41 | Over the seed, "upvotes" shows ids 4, 1, 3, 2. |
| Scenarios.SeedByNewest | src/components/issues/IssueList.tsx:33-35 | Over the seed, "newest" shows ids 4, 1, 2, 3. |
| Scenarios.SeedByComments | src/components/issues/IssueList.tsx:42-44 | Over the seed, "comments" shows ids 3, 1, 2, 4. Issues 1 and 2 tie and keep their order. |
| Scenarios.SeedAfterReset | src/components/issues/IssueFilter.tsx:52-57 | After the as-written reset, the seed shows 1, 2, 3, 4 under a dropdown reading "newest". The consistent reset shows 4, 1, 2, 3. |
| Scenarios.ReportUpvoteResolve | src/contexts/IssueContext.tsx:14-57 | A report, two upvotes, then a later resolution leave the issue first, with two votes, resolved, and `updatedAt` after `createdAt`. The rest of the store sees the same operations. |
| Scenarios.SeedDashboard | src/pages/AdminDashboard.tsx:58-63 | Over the seed, the dashboard shows 2 pending, 1 in progress, 1 resolved, 55 upvotes and 4 comments. |
| Scenarios.SeedProfile | src/pages/Profile.tsx:14-71 | Over the seed, "my issues" are 1 and 3: one pending, none in progress, one resolved, and 2 comments made. |

## Left out

- React wiring (`useState`, `useMemo`, `useEffect`, JSX) is left out. Each handler is a pure transition over an explicit state.
- `toast` notifications are left out. They are display-only side effects.
- `Date.now()`, `new Date().toISOString()` and ISO date parsing are parameters. Ids are caller-supplied strings, and timestamps are `nat` milliseconds. The seed's ISO instants are converted to milliseconds.
- Id freshness is not guaranteed by the source. `addIssue` accepts any id. Freshness is the condition under which `StoreProperties.AddIssueUniqueIds` says uniqueness survives.
- `localStorage` and its JSON encoding are modelled as a `set<string>` ledger. Malformed stored JSON is storage I/O and is not modelled.
- Location detection (`detectLocation` and the geolocation helpers) is browser I/O. The form only holds the coordinates it produced. Its loading and error fields are left out, and an error leaves the coordinates as they were.
- The `isSubmitting` flag is set and cleared around `addIssue`. Only its effect on the button is modelled. `navigate('/issues')` after submit is routing.
- The HTML `required` attributes on the report form are left out. They only duplicate the handler's own empty-title and empty-description test.
- The dropdown handlers cast an arbitrary string to a status or type. The model takes a `Selection` (all, or a real value), so strings outside the enums are not represented.
- The dashboard's percentage bars (float division) and coordinate formatting with `toFixed` are floating-point display and are left out.
- Routing, layout and badge files (`App.tsx`, `Index.tsx`, `NotFound.tsx`, `Layout.tsx`, `NavBar.tsx`, `IssueStatusBadge.tsx`) hold no logic of the core and are not part of this model.
- IssueStore.AddIssue: `createdAt` and `updatedAt` come from two separate `new Date().toISOString()` calls (src/contexts/IssueContext.tsx:20-21). The model takes one `now` for both, assuming the two reads fall in the same millisecond. If the clock ticks between them, a new issue would show the "Updated" line (src/pages/IssueDetail.tsx:110); `IssueDetail.UpdatedLineFollowsStore` holds only under that assumption.
- IssueStore.AddComment: the comment's `createdAt` and the issue's new `updatedAt` are also two separate clock reads (src/contexts/IssueContext.tsx:73, :76). The model stamps both with one `now`, under the same same-millisecond assumption.
- UpvoteGuard.CardMount and IssueDetail.DetailMount: the source tests `!!upvotedIssues[id]` on an object from `JSON.parse`. For a name the object inherits, such as "constructor" or "toString", that test is true even with an empty ledger, so such an issue could never be upvoted. The model's `id in ledger` is false there. The app's ids are `Date.now()` digit strings (src/contexts/IssueContext.tsx:18) or "1" to "4", so no reachable state hits this, but the `set<string>` ledger is exact only for such ids.
- Upvote counts are unbounded naturals. JavaScript numbers lose precision beyond 2^53, which the model does not track.

## Findings

| source | as written | input that shows it | evidently intended | confidence | as-written member | corrected member |
|---|---|---|---|---|---|---|
| src/components/issues/IssueFilter.tsx:52-57 | `resetFilters` sets the sort dropdown back to "newest" but emits `{}`, with no `sortBy`. The list's `switch` then falls to `default` and shows store order. | The seed after any reset: the dropdown reads "newest", but the list shows ids 1, 2, 3, 4 instead of 4, 1, 2, 3. | Emit the spec the reset dropdowns show, `{ sortBy: 'newest' }`, which is also the list's initial spec. | not executed | IssueFilter.ResetFilters (exhibited by IssueFilter.ResetDisagreesWithDropdowns and Scenarios.SeedAfterReset) | IssueFilter.ResetFiltersConsistent |
