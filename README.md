# PR Radiator, modelled in Dafny

PR Radiator is a wall dashboard of a GitHub organisation's open pull requests
and of the pull requests recently merged into `master`. It exists in two builds
that share their logic:

- a vanilla build (`src/index.js`) whose page state is one object, replaced
  through `setState` and driven by a keyboard listener;
- a React build (`src/App.tsx`, `src/github.ts`, `src/PR.tsx`, `src/utils.ts`)
  whose state is a reducer.

Both builds do the same things:

- split the configured repositories into batches of four;
- send one aliased GraphQL query per batch;
- walk the responses to collect open pull requests and merge commits;
- deduplicate the recent merges by URL;
- sort both lists;
- group a pull request's reviews and comments into a timeline;
- classify its age and the check state of its head commit.

The model is split into modules that follow the source files:

- `Seqs`, `Sorting`, `Utils`: sequence helpers, the stable sort that
  `Array.prototype.sort` performs, and the comparators of `utils.ts` and
  `index.js`.
- `Records`: the decoded API records.
- `Responses`: an endpoint is a map from repository name to its entry. A batch
  response lists one entry per distinct alias, in order of first occurrence.
  Identical fields under one alias are merged into one key, as section 5.3.2
  of the GraphQL specification (October 2021) prescribes. A batch that puts
  two different repositories under one alias, or uses an alias that is not a
  GraphQL name, is rejected, and then the fetch that sent it fails.
- `Batching`: `chunks`, the aliasing of both builds, and the request lists of
  `fetchBatchQueries` and `maxConcurrentBatchQueryPRs`.
- `OpenPulls`, `RecentMerges`: the specification functions of the two lists.
  `RecentMerges` also holds the loops that build the recent list.
- `IndexFetch`: index.js `fetchOpenPRs` and `fetchRecentPRs`.
- `GithubQuery`: github.ts `queryPRs`.
- `TeamRepos`: `queryTeamRepos` and `filterTeamRepos`. Both builds implement
  them identically.
- `Timeline`: index.js `combineReviewsAndComments` with its run compression,
  and `TimelineEvent`.
- `PullRequestView`: the React build's `PR.tsx` helpers.
- `Classify`: `getAgeString`, `getCommitState` and the display filters.
- `Radiator`: the vanilla page.
  - `Radiator.Page` is a class whose `state` field the methods replace, as
    `setState` does.
  - The key handler is also stated as a function `KeyStep` on the state. The
    methods are proved against it.
- `App`: the React reducer, its keyboard shortcuts and its effect gates.

Loops that push onto arrays are methods with `while` loops. Each such method is
proved equal to a recursive specification function. The lemmas state what the
source promises about those functions:

- membership of the collected lists;
- sortedness and permutation;
- uniqueness of URLs after deduplication;
- that compression loses no event;
- that the selection stays in bounds.

Time is an integer number of milliseconds. `Date.now()` is the parameter `now`,
and the two-weeks-ago bound is the parameter `since`.

## Model

| member | source | states |
|---|---|---|
| Utils.SortByCreatedAt | src/utils.ts:1-9 | the comparator is negative, zero or positive exactly when the first creation time is earlier, equal or later |
| Utils.ByCommittedDateDesc | src/utils.ts:11-19 | the descending comparator is the ascending one negated |
| Utils.MillisAscending | src/index.js:1 | index.js's subtracting comparator has the same sign as utils.ts's ascending comparator on every pair |
| Utils.MillisDescending | src/index.js:2 | index.js's descending comparator has the same sign as utils.ts's on every pair |
| Utils.ComparatorIsConsistent | src/utils.ts:1-19 | both comparators are antisymmetric and transitive, as `Array.prototype.sort` requires |
| Utils.SortedAscending | src/index.js:181 | sorting by `sortByCreatedAt` yields a permutation in which the comparator never reports a later pair out of order |
| Utils.SortedDescending | src/index.js:146 | sorting by `byCommittedDateDesc` yields a permutation ordered newest commit first |
| Sorting.SortBy | src/index.js:181 | the sort returns a permutation of its input that is ordered by the key |
| Sorting.SortFilterCommute | src/index.js:181 | sorting then dropping drafts gives the same list as dropping drafts then sorting |
| Sorting.SortStable | src/index.js:224 | the sort keeps the relative order of elements with equal keys |
| Sorting.SortPreservesDistinct | src/index.js:143-146 | sorting keeps URLs pairwise distinct |
| Batching.Chunks | src/index.js:20-23 | `chunks` returns `ceil(n / k)` slices |
| Batching.ChunkSizes | src/github.ts:67-71 | every chunk is non-empty and holds at most `k` repositories; every chunk but the last holds exactly `k` |
| Batching.ChunksConcat | src/index.js:20-23 | concatenating the chunks gives back the repository list in order |
| Batching.ChunkingTenRepos | src/index.js:28-29 | ten repositories go out as batches of four, four and two |
| Batching.DecimalRoundTrip | src/github.ts:29 | the decimal digits of an index read back as that index |
| Batching.IndexAliasInjective | src/github.ts:29 | two indices with the same `'alias' + index` are equal |
| Batching.BatchQueryPRs | src/github.ts:27-65 | the request names the given repositories in order, with aliases that are distinct GraphQL names, for the owner and `since` bound given |
| Batching.MaxConcurrentBatchQueryPRs | src/github.ts:73-84 | one request per chunk of four; request `i` names exactly chunk `i`; each has distinct aliases and between one and four fields |
| Batching.BuildBatchQuery | src/index.js:13-18 | the request names the given repositories in order; each alias is the name with non-alphanumerics removed; only the recent query carries `since` |
| Batching.FetchBatchQueries | src/index.js:28-42 | one request per chunk of four; request `i` names exactly chunk `i` |
| Batching.StripAliasesCollide | src/index.js:15 | the repositories `a-b` and `ab` in one batch get the same alias |
| Batching.StripAliasNotAName | src/index.js:15 | the repository `1password` gets an alias that is not a GraphQL name |
| Responses.MergeFields | src/index.js:164 | the response keys of a batch are pairwise distinct aliases, at most one per field, each carrying a field of the batch, and every alias of the batch is among them |
| Responses.MergeDistinct | src/index.js:164 | a batch whose aliases are already distinct keeps all its fields, in order, as keys |
| Responses.MergedNames | src/index.js:164 | when fields sharing an alias name the same repository, merging drops no repository and adds none |
| Responses.Respond | src/index.js:28-42 | a batch is answered with `data` exactly when fields sharing an alias name the same repository and every alias is a GraphQL name; the answer has at most one entry per field, each the endpoint's entry for a requested repository, and is exactly the entries of the fields in order when no alias repeats |
| Responses.RepeatedFieldAnsweredOnce | src/index.js:28-42 | a batch naming repository `a` twice under alias `a` gets the same single-entry answer as the batch naming it once |
| Responses.RespondAll | src/index.js:28-42 | the batches fail together exactly when one of them is rejected; otherwise response `i` answers batch `i` |
| Responses.EntriesFollowNames | src/index.js:28-42 | the responses fail exactly when some batch puts different repositories under one alias or has a non-name alias; otherwise their entries are the endpoint's answers for the merged keys in order, the keys hold exactly the requested names, and when no alias repeats the entries are the answers for the requested names in request order |
| Responses.EntriesFollowRepos | src/index.js:28-42 | when the requests are the chunks of a list, the responses fail exactly when some batch is rejected; otherwise the entries are the answers for the merged keys, which hold exactly the repositories of the list, and when no alias repeats they are the answers for that list in order |
| OpenPulls.OpenCandidatesFail | src/index.js:167 | index.js's walk fails exactly when some alias entry is `null` |
| OpenPulls.OpenCandidatesMembership | src/index.js:163-178 | a collected pull request is one of some entry's pull requests, with `repository` set to that entry's name, and every such one is collected |
| OpenPulls.GithubCandidatesMembership | src/github.ts:161-167 | github.ts collects exactly the pull requests of the non-null, non-archived entries |
| OpenPulls.OpenListProperties | src/index.js:181 | the open list is ordered by creation time, holds no draft, and holds every non-draft candidate with its multiplicity |
| IndexFetch.ReposToQuery | src/index.js:160 | a repository is queried exactly when it is configured and not ignored |
| IndexFetch.CollectOpenPRs | src/index.js:163-178 | the nested `forEach` walk computes the candidate list, or fails on a `null` entry |
| IndexFetch.CollectEntryPRs | src/index.js:166-177 | the walk over one response's entries extends the candidates that response contributes |
| IndexFetch.FailedPrefixAbandonsFetch | src/index.js:167 | once an entry has thrown, the whole fetch fails whatever follows |
| IndexFetch.CollectRefCommits | src/index.js:126-135 | the walk keeps, in order, the histories of all entries whose history is non-empty |
| IndexFetch.CollectEntryHistories | src/index.js:129-134 | the walk over one response's entries appends that response's non-empty histories |
| IndexFetch.FetchOpenPRs | src/index.js:156-190 | `fetchOpenPRs` yields the sorted non-draft candidates of the non-ignored repositories, or nothing when a batch is rejected or the walk throws |
| IndexFetch.FetchRecentPRs | src/index.js:120-154 | `fetchRecentPRs` yields the deduplicated, newest-first recent list of the non-ignored repositories' histories, or nothing when a batch is rejected |
| IndexFetch.OpenPRsComeFromQueriedRepos | src/index.js:156-183 | the fetch fails exactly when some batch puts different repositories under one alias or has a non-name alias, or a queried repository is unknown to the endpoint; otherwise every pull request shown is a non-draft of a configured, non-ignored repository, and every non-draft pull request of a configured, non-ignored repository the endpoint knows is shown, stamped with that entry's name |
| IndexFetch.CollidingAliasesAbandonFetches | src/index.js:120-190 | with the repositories `a-b` and `ab` configured, the open and the recent fetch both fail, whatever the endpoint holds |
| IndexFetch.RepeatedRepositoryFetchedOnce | src/index.js:120-190 | configuring repository `a` twice gives the same open and recent lists as configuring it once, and the recent fetch succeeds |
| IndexFetch.TwoRepositoryScenario | src/index.js:156-183 | two repositories with a draft and two open pull requests give the two non-drafts, oldest first, stamped with their repository |
| RecentMerges.MergeCommitHeuristic | src/index.js:139-142 | a commit with at most one parent contributes nothing; a merge commit contributes each associated pull request, stamped with its commit date |
| RecentMerges.CollectRecentPRs | src/index.js:138-142 | the nested walk over all histories collects what every commit contributes, in order |
| RecentMerges.CollectFromHistory | src/index.js:139-142 | the walk over one history appends what its commits contribute |
| RecentMerges.PushMerged | src/index.js:139-141 | one commit appends exactly what it contributes |
| RecentMerges.DedupByUrl | src/index.js:143 | deduplication keeps the first pull request per URL, in first-seen order, with pairwise distinct URLs and no URL lost |
| RecentMerges.FindByUrlIsFirst | src/index.js:143 | `find` by URL succeeds exactly for URLs in the list and returns the earliest such element |
| RecentMerges.DedupedProperties | src/index.js:143 | the deduplicated list has distinct URLs, the same URL set, and each element is the first with its URL |
| RecentMerges.SetOrderMembership | src/index.js:143 | `[...new Set(urls)]` holds exactly the URLs of the list |
| RecentMerges.DedupMatchesSetThenFind | src/index.js:143 | the one-pass deduplication equals the source's `new Set` followed by `find` |
| RecentMerges.FromHistoryMembership | src/index.js:139-142 | a pull request is collected from a history exactly when some commit of it contributes it |
| RecentMerges.FromRefsMembership | src/index.js:138-142 | a pull request is collected exactly when some commit of some history contributes it |
| RecentMerges.RefHistoriesCommits | src/index.js:126-135 | a commit is among the kept histories exactly when it is in some entry's history |
| RecentMerges.RecentListProperties | src/index.js:143-146 | the recent list has distinct URLs, covers every collected URL, keeps the first pull request per URL, and is ordered newest commit first |
| GithubQuery.CollectResults | src/github.ts:159-173 | one walk over all entries collects the github.ts open candidates and the non-empty histories |
| GithubQuery.QueryBatchesAccepted | src/github.ts:27-84 | the endpoint never rejects a github.ts batch |
| GithubQuery.QueryPRs | src/github.ts:157-184 | `queryPRs` returns the recent list and the sorted non-draft open list of the batched responses |
| GithubQuery.QueryOpenPRsMembership | src/github.ts:157-184 | a pull request is returned exactly when it is a non-draft of a requested, resolved, non-archived repository |
| TeamRepos.LastPage | src/github.ts:130-152 | the loop's last request is the first page that reports no next page |
| TeamRepos.QueryTeamRepos | src/github.ts:125-155 | the loop sends one request per page up to the first without a next page, the first with `after: null` and each later one with the previous `endCursor`, and returns those pages' admin, non-archived names in order |
| TeamRepos.AdminNamesMembership | src/github.ts:140-144 | a page contributes exactly the names of its non-archived edges with `ADMIN` permission |
| TeamRepos.PagesNamesMembership | src/github.ts:140-144 | the names returned are exactly the admin, non-archived names of the pages fetched |
| TeamRepos.FilterTeamRepos | src/github.ts:88-123 | whatever order the requests complete in, a repository is kept exactly when its team list grants the team `admin`; a failed request keeps nothing |
| TeamRepos.GrantedMembership | src/github.ts:88-123 | membership of the filtered list does not depend on the completion order |
| Timeline.ReviewState | src/index.js:205 | the state conversion returns the review's state unchanged |
| Timeline.Compress | src/index.js:221-236 | the compression loop computes the run-length grouping of the sorted events |
| Timeline.CombineReviewsAndComments | src/index.js:201-239 | `combineReviewsAndComments` sorts reviews and comments by time and groups consecutive events of one author and state |
| Timeline.CompressedExpands | src/index.js:224-236 | expanding each group by its count gives back the authors and states of the events in order |
| Timeline.CompressedRunsMaximal | src/index.js:224-236 | every group counts at least one event, neighbouring groups differ in author or state, and only no events give no groups |
| Timeline.CompressedTotal | src/index.js:224-236 | the counts add up to the number of events |
| Timeline.CompressedKeepsFirstTime | src/index.js:231 | each group carries the time of the first event of its run |
| Timeline.CompressionExample | src/index.js:224-236 | two events of one author and state followed by two events whose authors each differ from the event before give three groups, the first counting two |
| Timeline.CommentedReviewJoinsComment | src/index.js:205-218 | a `COMMENTED` review and a later comment by the same author form one group of two |
| Timeline.TimelineEventClass | src/index.js:268-287 | a badge is rendered exactly for `APPROVED`, `CHANGES_REQUESTED`, `COMMENTED` and `DISMISSED` |
| Timeline.TimelineEventClassInjective | src/index.js:274-285 | different states never share a badge class |
| Timeline.CountBadge | src/index.js:269 | a count above one renders as its decimal digits in parentheses; otherwise nothing is rendered |
| PullRequestView.CombineReviewsAndComments | src/PR.tsx:11-33 | the React build's events are its reviews and `ISSUECOMMENTED` comments sorted by time |
| PullRequestView.PrTimelineProperties | src/PR.tsx:11-33 | the React timeline is ordered by time and is a permutation of the reviews and comments |
| PullRequestView.SortMap | src/PR.tsx:11-33 | relabelling events without changing their times commutes with the sort |
| PullRequestView.BuildsAgreeOnTimeline | src/PR.tsx:11-33 | the React build's uncompressed timeline, with comments relabelled, expands index.js's compressed one |
| PullRequestView.PrAgeString | src/PR.tsx:35-47 | with a day and a week taken as fixed spans of milliseconds, the React build's age bucket equals index.js's |
| PullRequestView.GetCommitState | src/PR.tsx:49-65 | the render fails exactly when the timeline is absent or no node has the head commit's `oid`; otherwise the class follows the conclusion of the first such node |
| PullRequestView.TimelineEventClass | src/PR.tsx:67-82 | a badge is rendered exactly for the four review states and `ISSUECOMMENTED` |
| PullRequestView.TimelineEventClassInjective | src/PR.tsx:67-82 | different states never share a badge class |
| PullRequestView.TimelineClassesAgree | src/PR.tsx:67-82 | every comment appears in the sorted timeline as an `ISSUECOMMENTED` event with the `issue-commented` badge; every other state gets the same badge as in index.js |
| Classify.GetAgeString | src/index.js:241-248 | each bucket is chosen exactly when the age lies in its half-open range of one hour, two hours, one day or one week |
| Classify.AgeMonotone | src/index.js:241-248 | an older pull request never lands in a fresher bucket |
| Classify.AgeBoundaryExamples | src/index.js:241-248 | 59 minutes is `last-hour`, exactly one hour and 61 minutes are `last-two-hours`, eight days is `over-week-old`, a future time is `last-hour` |
| Seqs.Find | src/index.js:251 | `find` returns the element at the first index that satisfies the predicate, and nothing exactly when no element does |
| Classify.Conclusion | src/index.js:251-261 | the conclusion is the rollup state of the first commit with the head `oid` when that state is present and non-empty, and `ERROR` otherwise, including when no commit has that `oid` |
| Classify.IconFor | src/index.js:253-262 | the minus icon is chosen exactly for conclusions outside the icon table |
| Classify.ToLower | src/index.js:263 | lower-casing keeps the length and maps each character |
| Classify.GetCommitState | src/index.js:250-266 | the head commit's non-empty rollup state gives the lower-cased class and that state's icon; a missing commit, rollup or state gives class `error` with the warning icon |
| Classify.CommitStateCases | src/index.js:250-266 | a `SUCCESS` head commit renders class `success` with the check icon; an unknown state renders the minus icon |
| Classify.DisplayPRsMembership | src/index.js:423-427 | a pull request is displayed exactly when it is open and passes the dependabot, master and needs-review filters |
| Classify.DisplayAll | src/index.js:520 | with every filter off, the display list is the open list in order |
| App.InitialState | src/App.tsx:46-63 | the initial state holds the stored configuration, no pull requests, a 60-second interval input, and the default flags |
| App.ApplyPatch | src/App.tsx:68 | a key missing from the payload keeps its configured value |
| App.AppReducer | src/App.tsx:65-90 | each setter writes its payload into its own key and changes nothing else; only the toggles change a flag; an unknown action changes nothing |
| App.ToggleFlipsOneFlag | src/App.tsx:75-84 | a toggle action flips exactly its own flag, and applying it twice gives back the state |
| App.SetConfigWritesPayload | src/App.tsx:67-68 | `SET_CONFIG` writes exactly the payload's keys over the configuration, is idempotent, and changes nothing else |
| App.ResetReposForgetsRepos | src/App.tsx:85-86 | `RESET_REPOS` empties the repositories and both lists and keeps the rest |
| App.EffectsExclusive | src/App.tsx:186-209 | the team effect and the fetch effect never both fire; without a token or owner neither fires |
| App.TeamReposHandOver | src/App.tsx:172-192 | a resolved non-empty team list closes the team gate and opens the fetch gate; an empty one leaves the team gate open |
| App.RefreshPRs | src/App.tsx:194-215 | a refresh stores the open and recent lists of the non-ignored repositories; a failed request changes nothing |
| App.RefreshSkipsIgnored | src/App.tsx:208-209 | no pull request of an ignored repository, and no draft, is shown after a refresh |
| App.KeyEffects | src/App.tsx:128-166 | at most one effect per key; unbound keys do nothing; `?` acts only with Shift |
| App.OnKeydown | src/App.tsx:128-166 | an unbound key leaves the state unchanged, a toggle key applies its action, and `r` replaces both lists with the query's answer, or changes nothing when the request fails |
| App.ShortcutsToggle | src/App.tsx:128-166 | each shortcut key maps to its action, `\` under both key names |
| App.AppDisplayPRs | src/App.tsx:240-242 | the React display list is index.js's with the needs-review filter off |
| App.AppDisplayMembership | src/App.tsx:240-242 | a pull request is shown exactly when it is open and passes both filters |
| Radiator.InitialDash | src/index.js:328-346 | the initial page state has no selection, no pull requests, the default flags, and a valid selection |
| Radiator.IndexOf | src/index.js:374 | `indexOf` is -1 exactly when the repository is absent, and otherwise is its first position |
| Radiator.ToggledSplit | src/index.js:372-381 | removing an ignored repository splices out its first occurrence |
| Radiator.ToggledKeepsOthers | src/index.js:372-381 | toggling one repository leaves every other repository's membership and order unchanged |
| Radiator.ToggledFlips | src/index.js:372-381 | on a list without duplicates, toggling flips the repository's membership and keeps the list free of duplicates |
| Radiator.ToggleTwice | src/index.js:372-381 | toggling a repository that is not ignored twice gives back the list |
| Radiator.IgnoreModeStep | src/index.js:582-611 | ignore-mode keys change only the selection and the ignore list, and only the toggle key changes the list |
| Radiator.SaveAndRefresh | src/index.js:640-643 | leaving a view saves the ignore list and refetches open pull requests exactly when fetching is possible |
| Radiator.HandlerStep | src/index.js:616-701 | the handlers never change the credentials or the ignore list; they fetch only when fetching is possible; `r` refetches exactly when fetching is possible; `a` fetches the recent list exactly when it opens the recent view and fetching is possible; only `\` resolves the team and changes the repositories |
| Radiator.HandlerFlipsOneFlag | src/index.js:617-619 | `d`, `m` and `n` each flip exactly their own filter flag and ask for nothing; pressing one twice restores the state |
| Radiator.KeyStep | src/index.js:575-704 | a focused input or the settings form swallows every key; only ignore-mode Enter or Space changes the ignore list; only `\` resolves the team |
| Radiator.KeyStepKeepsSelection | src/index.js:575-704 | every key keeps ignore mode inside the repository view with a selection, the selection -1 outside the view, and an ignore-mode selection inside a non-empty repository list |
| Radiator.IgnoreModeKeys | src/index.js:585-606 | `j`/`k` keep the selection on a repository; Enter toggles the selected repository, and pressing it again restores the list |
| Radiator.RepoViewOpensAndCloses | src/index.js:627-650 | `l` opens the repository view on the first repository, and closing it saves the ignore list and refetches when possible |
| Radiator.Page.constructor | src/index.js:328-346 | a new page holds the initial state |
| Radiator.Page.ToggleIgnoreForRepo | src/index.js:372-381 | the page's ignore list becomes the toggled list and nothing else changes |
| Radiator.Page.OnKey | src/index.js:575-704 | one keydown replaces the state and returns the effects that `KeyStep` prescribes |
| Radiator.Page.OnIgnoreModeKey | src/index.js:582-611 | an ignore-mode key replaces the state as `IgnoreModeStep` prescribes |
| Radiator.Page.RunHandler | src/index.js:616-701 | one handler replaces the state and returns the effects that `HandlerStep` prescribes |
| Radiator.Page.RunFetchOpen | src/index.js:156-190 | a completed open fetch stores the fetched list, or keeps the old one when it failed, and always clears `isFetchingOpenPRs` |
| Radiator.Page.RunFetchRecent | src/index.js:120-154 | a completed recent fetch stores the recent list; a failed request or a rejected batch changes nothing |
| Radiator.Page.TeamResolved | src/index.js:678-690 | a resolved team replaces the repositories, saves them, and fetches open pull requests when the list is non-empty |

## Left out

- HTTP, `fetch`, `Promise.all`, the concurrency semaphore and `sleep`. An endpoint is a map from repository name to entry. A request that throws is `None` where the source catches the exception.
- Of the endpoint's validation, only the alias checks are modelled: a batch with two different fields under one alias (identical ones are merged into one key), or an alias that is not a GraphQL name, gets no `data`. Rate limits and other `errors` responses are not modelled.
- A `null` author (a deleted account) is not modelled: `author` is a string. The source reads `author.login` at src/index.js:208, 216 and 424, src/PR.tsx:17 and 26, and src/App.tsx:240, and throws on such a pull request.
- Clocks and timers: `Date.now()` is the parameter `now` and the two-weeks-ago bound is the parameter `since`. The `pollingInterval` timers and the visibility handler are not modelled; their effect is the same fetch the models of `fetchOpenPRs`/`queryPRs` describe.
- Date parsing (`parseDatesInPR`, `new Date(...)`): timestamps are integer milliseconds. `formatDistanceToNow`, `toLocaleString` and tooltips are not modelled.
- HTML and JSX markup, progress bars (`startProgress`/`stopProgress`), the DOM, `localStorage` reads, and the settings forms' `onSubmit` handlers. Writes to local storage appear as effects only. The settings form's display condition is the predicate `SettingsFormShown`.
- `parseInt` and its `NaN` result for the interval input: the input is an integer.
- `toLowerCase` is modelled on ASCII letters only.
- `event.key` values that name `Object.prototype` members are not modelled. The lookup tables are modelled as plain string comparisons.
- The stale closure over the initial state in index.js's interval and visibility handlers.
- The React `\` shortcut's removal of `PR_RADIATOR_REPOS` from local storage: only the dispatched `RESET_REPOS` is modelled.
- Radiator.IgnoreModeStep: when `selectedRepoIndex` is past the end of `repos`, the source toggles `undefined` into the ignore list. The model toggles nothing. `KeyStepKeepsSelection` shows that no key leads there. Only a team list resolved while ignore mode is on can shorten `repos` under the selection.
- TeamRepos.QueryTeamRepos: requires that some page reports no next page. On an endpoint that always reports one, the source loops forever.
- TeamRepos.FilterTeamRepos: the order in which the `Promise.all` requests complete is the parameter `order`.
- IndexFetch.OpenPRsComeFromQueriedRepos: assumes the endpoint answers each repository with an entry that carries that repository's own name (`NamesAreCanonical`).
- App.OnKeydown: the `r` shortcut does not check that a token is set, as in the source. A failing request is `None` and changes nothing.
- PullRequestView.PrAgeString: takes a day and a week as fixed spans of milliseconds. PR.tsx's `addDays` and `addWeeks` step in local calendar time, so across a daylight-saving change the React build's `last-day` and `last-week` bounds move by the clock shift, and its bucket can then differ from index.js's.
- PR.tsx imports `sortByCreatedAt` as a default import, but `utils.ts` has only named exports. The model uses the named ascending comparator that the code evidently intends.
- PR.tsx `getCommitState` reads `timelineItems`, which the github.ts query never requests. The model takes `timelineItems` as an optional input; when it is absent, the render fails (`None`).

## Findings

| source | as written | input that shows it | evidently intended | confidence | as-written member | corrected member |
|---|---|---|---|---|---|---|
| src/index.js:15 | the alias of a repository is its name with non-alphanumerics removed | repositories `a-b` and `ab` in one batch both get alias `ab`, the endpoint rejects the batch, and the open and recent fetches fail (`IndexFetch.CollidingAliasesAbandonFetches`) | pairwise distinct aliases, as github.ts's `'alias' + index` gives | not executed | Batching.StripAliasesCollide | Batching.BatchQueryPRs |
| src/index.js:15 | the stripped name is used as a GraphQL field alias | repository `1password` gets alias `1password`, which starts with a digit | every alias is a GraphQL name | not executed | Batching.StripAliasNotAName | Batching.BatchQueryPRs |
