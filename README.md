# git-repo-visualizer, modelled in Dafny

This project models the logic inside the git-repo-visualizer dashboard, a
Next.js front end. The dashboard lists Git repositories, adds a new one from
its URL, and shows activity heatmaps and a code-churn scatter plot for each
repository. Most of its source is JSX and D3 drawing code. The model covers
the rules underneath, one Dafny module per source file:

- `Proxy`: the route-gating middleware. It decides between a redirect to
  login, a redirect home, or passing the request through.
- `ApiClient`: the HTTP client. It builds the URL and the fetch
  configuration, merges headers, turns a response into a value or an
  error, and provides the five verb helpers.
- `AuthCallback`: the OAuth callback page. It takes the error branch, the
  token branch (decoding the JWT payload with its claim defaults) or the
  no-token branch.
- `MockApi`: the in-memory repository store. It holds the seeded records,
  creates a record with a derived name, finds a record by id, and buckets
  activity counts into levels.
- `RepositoryQueries`: the query keys, when the queries are enabled, and the
  list-cache update after a repository is created.
- `Dashboard`: the case-insensitive search filter and the add-repository
  handler.
- `UIStore` and `LocaleStore`: the two zustand stores and the persisted
  projection.
- `Translation`: the dotted-path dictionary lookup, which falls back to the
  path itself.
- `Utils`: `capitalize` and `truncate`.
- `ContributionHeatmap` and `D3Heatmap`: the two activity heatmaps. They
  chunk days into weeks, fill a 364-day grid, fit the cell size, place the
  cells and pick colours.
- `ChurnChart`: the churn plot. It picks point colours, selects and orders
  label candidates, truncates names, drops overlapping labels greedily, and
  toggles pinned tooltips.
- `AddRepositoryModal`: the submit state machine of the add-repository form.

Shared modules:

- `Optional` holds Option and Result.
- `Text` holds the JavaScript string operations used: `split`, `join`,
  `includes`, ASCII case mapping, `\s` and `slice`.
- `Js` holds JavaScript values, truthiness, `||`, property reads that
  throw on null or undefined, and `String()`.
- `Types` holds the record shapes.
- `Sequences` holds the subsequence relation.

Platform calls are parameters of the functions that use them. These are
`fetch`, `encodeURIComponent`, `atob` with `JSON.parse`, the clock, the
page origin and the D3 scales. JavaScript numbers are modelled as integers.

## Model

| member | source | states |
|---|---|---|
| Proxy.ProtectedRouteIff | src/proxy.ts:5-17 | a path is protected iff it is "/" or "/repository", or starts with "//" or "/repository/" |
| Proxy.AuthRouteIff | src/proxy.ts:8-20 | a path is an auth route iff "/login" or "/signup" is a plain prefix of it |
| Proxy.RouteExamples | src/proxy.ts:15-20 | "/repository/7" is protected; "/repositoryX" and "/login" are not; "/login/help" and "/signupx" are auth routes |
| Proxy.RoutesDisjoint | src/proxy.ts:5-20 | no path is both protected and an auth route |
| Proxy.DecideCases | src/proxy.ts:11-35 | login redirect (carrying the encoded path) iff protected and no token; home redirect iff auth route with a token; pass-through otherwise; a missing or empty cookie is no token |
| Proxy.HasToken | src/proxy.ts:11 | a token is present iff the auth-token cookie is set and non-empty; its meaning in the decision is stated by Proxy.DecideCases |
| Proxy.Decide | src/proxy.ts:10-36 | the middleware decision; stated by Proxy.DecideCases and Proxy.NoRedirectLoop |
| Proxy.NoRedirectLoop | src/proxy.ts:23-35 | the target of either redirect, requested again with the same cookie, passes through |
| ApiClient.BaseUrl | src/lib/api-client.ts:94 | the environment URL when set and non-empty, otherwise "/api" |
| ApiClient.MergeHeaders | src/lib/api-client.ts:35-38 | the merged headers hold every default and caller header name, and a caller header wins over a default |
| ApiClient.ContentTypeDefault | src/lib/api-client.ts:13-40 | Content-Type is always sent: "application/json" unless the caller gives it; the method is the verb's unless the options override it |
| ApiClient.Config | src/lib/api-client.ts:33-40 | the fetch configuration; stated by ApiClient.ContentTypeDefault and ApiClient.MergeHeaders |
| ApiClient.AppendParams | src/lib/api-client.ts:27-31 | every parameter is appended in order after those already present, and the address is unchanged |
| ApiClient.FailureOf | src/lib/api-client.ts:45-48 | a non-ok response always yields an API error, or the TypeError of reading `message` from a null body |
| ApiClient.NonOkRejects | src/lib/api-client.ts:45-48 | a non-ok response always rejects: with `String(message)` when the parsed body has a truthy `message`; with "API Error: status statusText" when the body does not parse or has no truthy `message` (`{}`, `{"message": ""}`, a JSON string); with the TypeError of a property read when the body is null |
| ApiClient.OkResolves | src/lib/api-client.ts:50-56 | an ok JSON response resolves to the parsed body; any other ok response resolves to `{}`; it rejects only on unparsable JSON |
| ApiClient.Settle | src/lib/api-client.ts:42-61 | how a settled fetch resolves or rejects; stated by ApiClient.NonOkRejects and ApiClient.OkResolves, and a network failure is passed on as it is |
| ApiClient.Request | src/lib/api-client.ts:18-61 | the URL is base then endpoint with the parameters appended; fetch gets the merged config once; its outcome is passed on without retry |
| ApiClient.AddressAsWritten | src/lib/api-client.ts:25 | `new URL` without a base first strips leading and trailing C0 controls and spaces and removes every tab and newline; it rejects the string with a TypeError iff what remains has no scheme, and otherwise keeps what remains |
| ApiClient.TrimLeading | src/lib/api-client.ts:25 | the URL parser's leading strip: a suffix of the input, everything cut is a C0 control or space, and what remains does not start with one |
| ApiClient.TrimTrailing | src/lib/api-client.ts:25 | the URL parser's trailing strip: a prefix of the input, everything cut is a C0 control or space, and what remains does not end with one |
| ApiClient.RemoveTabsAndNewlinesKeepsRest | src/lib/api-client.ts:25 | the URL parser drops every tab and newline and keeps every other character, in order and as often as it occurs |
| ApiClient.LeadingSpaceAccepted | src/lib/api-client.ts:25 | " https:" followed by plain text parses, as "https:" and that text |
| ApiClient.TabInSchemeAccepted | src/lib/api-client.ts:25 | "ht\ttps:" followed by plain text parses, as "https:" and that text |
| ApiClient.DefaultBaseRejects | src/lib/api-client.ts:94-95 | with the environment URL unset the base is "/api", and the address built from it at line 25 has no scheme, so every request fails before fetch |
| ApiClient.SchemeExtends | src/lib/api-client.ts:25 | a string that starts with a scheme keeps it whatever follows |
| ApiClient.ResolvedAddress | src/lib/api-client.ts:25 | wherever the parse without a base succeeds, the address is what that parse gives; the resolved address always has a scheme when the origin has one |
| ApiClient.VerbOptions | src/lib/api-client.ts:64-91 | post, put and patch replace the body with the serialised data and keep the other options; get and delete pass the options unchanged |
| ApiClient.Get | src/lib/api-client.ts:64-66 | a GET with the options as given; stated by ApiClient.VerbOptions |
| ApiClient.Post | src/lib/api-client.ts:68-73 | a POST whose body is the serialised data; stated by ApiClient.VerbOptions |
| ApiClient.Put | src/lib/api-client.ts:75-80 | a PUT whose body is the serialised data; stated by ApiClient.VerbOptions |
| ApiClient.Delete | src/lib/api-client.ts:82-84 | a DELETE with the options as given; stated by ApiClient.VerbOptions |
| ApiClient.Patch | src/lib/api-client.ts:86-91 | a PATCH whose body is the serialised data; stated by ApiClient.VerbOptions |
| AuthCallback.Base64UrlToBase64 | src/app/auth/callback/page.tsx:28 | same length; '-' becomes '+', '_' becomes '/', every other character is kept |
| AuthCallback.PayloadSegment | src/app/auth/callback/page.tsx:27 | a payload segment exists iff the token contains '.'; it is then the second '.'-segment: it starts right after the first '.', holds no '.', and runs to the end of the token or to the next '.' |
| AuthCallback.PayloadOfThreeParts | src/app/auth/callback/page.tsx:27 | for a header.payload.signature token the payload is the middle part |
| AuthCallback.UserFromClaims | src/app/auth/callback/page.tsx:31-36 | the user built from the claims; stated by AuthCallback.ClaimDefaults, AuthCallback.MissingIdIsUndefinedText and AuthCallback.NullPayloadFails |
| AuthCallback.DecodeUser | src/app/auth/callback/page.tsx:26-36 | the decoded user, or nothing where the try block throws; stated by AuthCallback.NoDotFails and AuthCallback.TokenBranch |
| AuthCallback.Decide | src/app/auth/callback/page.tsx:14-50 | the effect of the callback page; stated by AuthCallback.ErrorWins, AuthCallback.TokenBranch and AuthCallback.NoTokenGoesToLogin |
| AuthCallback.ErrorWins | src/app/auth/callback/page.tsx:18-22 | a non-empty error redirects to "/login?error=" plus the encoded error, whatever the token, and never calls setAuth |
| AuthCallback.NoTokenGoesToLogin | src/app/auth/callback/page.tsx:47-49 | with no token and no error the page goes to "/login" and leaves the auth store alone |
| AuthCallback.TokenBranch | src/app/auth/callback/page.tsx:24-46 | with a token, setAuth receives exactly that token and the page goes home; the user is null iff decoding failed, and only success waits 1500 ms |
| AuthCallback.NoDotFails | src/app/auth/callback/page.tsx:27-45 | a token without '.' always takes the failure branch |
| AuthCallback.ClaimDefaults | src/app/auth/callback/page.tsx:31-36 | id is String of the first truthy of sub, user_id and id; email defaults to "", name to "Analyst"; avatarURL is avatar_url |
| AuthCallback.MissingIdIsUndefinedText | src/app/auth/callback/page.tsx:32 | claims without any id give the id "undefined" |
| AuthCallback.NullPayloadFails | src/app/auth/callback/page.tsx:29-45 | a payload that parses to null fails at the first claim read |
| AuthCallback.CallbackEnvironment.Run | src/app/auth/callback/page.tsx:14-50 | the effect records exactly the setAuth call and navigation of the decision |
| MockApi.RepoNameIsSuffix | src/lib/api.ts:75 | the derived name is always a suffix of the URL |
| MockApi.RepoNameWithoutSlash | src/lib/api.ts:75 | a URL without '/' is its own name |
| MockApi.RepoNameOfTwoSegments | src/lib/api.ts:75 | the name of a URL ending in owner/repo is "owner/repo" |
| MockApi.RepoName | src/lib/api.ts:75 | the derived name; stated by MockApi.RepoNameIsSuffix, MockApi.RepoNameWithoutSlash and MockApi.RepoNameOfTwoSegments |
| MockApi.Find | src/lib/api.ts:100 | nothing is found iff no record has the id; otherwise the first record with that id |
| MockApi.FindAfterAppend | src/lib/api.ts:88-100 | appending a record never changes what an earlier match finds |
| MockApi.Level | src/lib/api.ts:58 | level 0 iff count 0; 1 for 1-4, 2 for 5-9, 3 for 10-14, 4 from 15 |
| MockApi.LevelMonotonic | src/lib/api.ts:58 | more commits never give a lower level |
| MockApi.Store.constructor | src/lib/api.ts:11-39 | the store starts with the three seeded repositories |
| MockApi.Store.GetRepositories | src/lib/api.ts:65-69 | returns the current list, including created records |
| MockApi.Store.CreateRepository | src/lib/api.ts:71-91 | appends exactly one record with the given URL, the derived name, zero stars and forks and the fixed description; earlier records are unchanged |
| MockApi.Store.GetRepository | src/lib/api.ts:98-101 | returns the first record with that id, if any |
| RepositoryQueries.KeysDistinct | src/hooks/useRepositories.ts:7-36 | the list, repository and stats keys never clash, and the per-id keys are equal iff the ids are |
| RepositoryQueries.RepositoryKey | src/hooks/useRepositories.ts:28 | the key of one repository; its distinctness is stated by RepositoryQueries.KeysDistinct |
| RepositoryQueries.StatsKey | src/hooks/useRepositories.ts:36 | the key of one repository's statistics; its distinctness is stated by RepositoryQueries.KeysDistinct |
| RepositoryQueries.Enabled | src/hooks/useRepositories.ts:30 | `!!id`: a query runs iff the id is non-empty |
| RepositoryQueries.AppendCreated | src/hooks/useRepositories.ts:19-21 | an absent list becomes [newRepo]; a present one keeps its entries in order and gains newRepo at the end |
| RepositoryQueries.CreateUpdatesListOnly | src/hooks/useRepositories.ts:17-21 | after a create only the ['repositories'] entry changes: it is the old list, or empty, plus the new record |
| RepositoryQueries.OnCreateSuccess | src/hooks/useRepositories.ts:17-21 | the cache update after a create; stated by RepositoryQueries.CreateUpdatesListOnly |
| Dashboard.Filter | src/app/page.tsx:17-19 | a repository is kept iff its lower-cased name contains the lower-cased query; the result is a subsequence of the input, holding every matching record as often as the input does |
| Dashboard.EmptyQueryKeepsAll | src/app/page.tsx:17-19 | the empty query keeps the whole list |
| Dashboard.CaseInsensitive | src/app/page.tsx:18 | queries that differ only in ASCII case filter alike |
| Dashboard.Narrowing | src/app/page.tsx:18 | a longer query containing a shorter one keeps no more repositories |
| Dashboard.HandleAddRepository | src/app/page.tsx:13-15 | with the list cache kept apart from the store: the URL reaches the store unchanged, one record is appended, the list cache is updated with it, and a cache that agreed with the store still agrees with it |
| Dashboard.HandleAddRepositoryShared | src/hooks/useRepositories.ts:17-21 | as written, with the cache holding the store's own array: the store gains the record once and the cached list gains it twice |
| Dashboard.SharedListShowsNewRepositoryTwice | src/lib/api.ts:88 | with the shared array, the dashboard lists a new repository twice |
| Dashboard.CopiedListShowsNewRepositoryOnce | src/hooks/useRepositories.ts:19-21 | with a cache apart from the store, the dashboard lists a new repository once more than before |
| UIStore.UIState.constructor | src/lib/store.ts:15-17 | empty search query and closed modal |
| UIStore.UIState.SetSearchQuery | src/lib/store.ts:16 | sets the query and leaves the modal flag alone |
| UIStore.UIState.SetIsAddModalOpen | src/lib/store.ts:18 | sets the modal flag and leaves the query alone |
| UIStore.UIState.Partialize | src/lib/store.ts:22 | the persisted snapshot is the search query |
| UIStore.PartializeIgnoresModal | src/lib/store.ts:22 | states that differ only in the modal flag persist alike |
| LocaleStore.Code | src/lib/i18n/store.ts:4 | a locale is "en" or "mr" |
| LocaleStore.CodeInjective | src/lib/i18n/store.ts:4 | the two locales have different codes |
| LocaleStore.LocaleState.constructor | src/lib/i18n/store.ts:15 | the initial locale is English |
| LocaleStore.LocaleState.SetLocale | src/lib/i18n/store.ts:16 | the locale becomes the argument |
| Translation.T | src/hooks/useTranslation.ts:16-29 | the loop returns what walking the dotted path from the locale's dictionary gives, or the path on the first falsy step |
| Translation.WalkAppend | src/hooks/useTranslation.ts:20-26 | walking a + b is walking a, then b from where a ended |
| Translation.WalkEndsTruthy | src/hooks/useTranslation.ts:21-22 | a completed walk over at least one key ends on a truthy value |
| Translation.TranslateTruthyOrPath | src/hooks/useTranslation.ts:20-28 | a translation is a truthy value or the path itself |
| Translation.MissingSegmentFallsBack | src/hooks/useTranslation.ts:21-25 | a missing or falsy segment anywhere gives back the path |
| Translation.UnknownLocale | src/hooks/useTranslation.ts:18-21 | an unknown locale gives back the path for every path |
| Translation.Translate | src/hooks/useTranslation.ts:16-29 | the value of `t(path)`; stated by Translation.TranslateTruthyOrPath, Translation.MissingSegmentFallsBack and Translation.UnknownLocale, and computed by the loop of Translation.T |
| Utils.Capitalize | src/lib/utils.ts:31-33 | same length; the first character upper-cased, the rest unchanged |
| Utils.CapitalizeIdempotent | src/lib/utils.ts:32 | capitalising twice is capitalising once |
| Utils.TruncateSpec | src/lib/utils.ts:41-44 | identity up to maxLength; otherwise the first maxLength characters plus "...", so maxLength + 3 long; always starts with the first min(length, maxLength) characters |
| Utils.TruncateNegative | src/lib/utils.ts:43 | a negative maxLength cuts from the end, as `slice` does |
| Utils.Truncate | src/lib/utils.ts:41-44 | `truncate`; stated by Utils.TruncateSpec and Utils.TruncateNegative |
| ContributionHeatmap.Recent | src/components/repository/ContributionHeatmap.tsx:19 | the last min(364, n) entries |
| ContributionHeatmap.Weeks | src/components/repository/ContributionHeatmap.tsx:19-27 | the weeks concatenate to the recent activity; all but the last have 7 days; none is empty; there are between m/7 and m/7 + 1 of them, at most 52 |
| ContributionHeatmap.WeekCount | src/components/repository/ContributionHeatmap.tsx:19-27 | a week count that covers m days with a partial last week is exactly ceil(m/7) |
| ContributionHeatmap.LevelColorsDistinct | src/components/repository/ContributionHeatmap.tsx:29-38 | levels 0-4 get distinct classes; any other level gets the level-0 class |
| ContributionHeatmap.LevelColor | src/components/repository/ContributionHeatmap.tsx:29-38 | the class of a level; stated by ContributionHeatmap.LevelColorsDistinct |
| D3Heatmap.ActivityMap | src/components/repository/D3ContributionHeatmap.tsx:22 | a date is a key iff some entry has it |
| D3Heatmap.LastEntryWins | src/components/repository/D3ContributionHeatmap.tsx:22 | with duplicate dates, the last entry's count is kept |
| D3Heatmap.QuietDay | src/components/repository/D3ContributionHeatmap.tsx:30 | a day with no entry counts 0 |
| D3Heatmap.Grid | src/components/repository/D3ContributionHeatmap.tsx:24-33 | 364 entries, oldest first; each holds the map's count for its date, or 0 |
| D3Heatmap.CellSize | src/components/repository/D3ContributionHeatmap.tsx:43-51 | between 2 and 12; the largest size whose 52 columns fit the available width, unless clamped |
| D3Heatmap.CellSizeMonotonic | src/components/repository/D3ContributionHeatmap.tsx:50-51 | a wider container never gives smaller cells |
| D3Heatmap.CellInsideGrid | src/components/repository/D3ContributionHeatmap.tsx:100-103 | every one of the 364 cells lies inside the 52·(size+3) by 7·(size+3) area set at lines 53-54 |
| D3Heatmap.CellsDoNotOverlap | src/components/repository/D3ContributionHeatmap.tsx:102-103 | two different indices give cells with no pixel in common |
| D3Heatmap.Bucket | src/components/repository/D3ContributionHeatmap.tsx:76-78 | the scale index never exceeds the number of thresholds |
| D3Heatmap.BucketBands | src/components/repository/D3ContributionHeatmap.tsx:68-78 | below 1 the base colour; 1-3, 4-7, 8-11 and from 12 the four violet steps |
| D3Heatmap.BucketMonotonic | src/components/repository/D3ContributionHeatmap.tsx:76-78 | more activity never gets a lighter colour |
| D3Heatmap.Colours | src/components/repository/D3ContributionHeatmap.tsx:65-74 | five colours, one per band, the first depending on dark mode |
| D3Heatmap.Fill | src/components/repository/D3ContributionHeatmap.tsx:76-78 | the colour of the band of a count; the bands are stated by D3Heatmap.BucketBands |
| D3Heatmap.Render | src/components/repository/D3ContributionHeatmap.tsx:17-110 | nothing for empty activity; otherwise 364 cells placed, coloured and titled from the grid, in an svg sized to the grid plus margins |
| ChurnChart.PointColour | src/components/repository/D3ChurnChart.tsx:117-122 | rose iff hotspot, yellow iff massive, violet iff frequent, zinc for any other category |
| ChurnChart.PointColourOfTag | src/components/repository/D3ChurnChart.tsx:117-122 | by the category string: rose iff "hotspot", yellow iff "massive", violet iff "frequent", zinc for any other string |
| Types.CategoryOf | src/types/repository.ts:35 | each of the four names gives its category and any other string gives `Other` with that string |
| ChurnChart.KeepCandidates | src/components/repository/D3ChurnChart.tsx:179-180 | a file is kept iff it is a hotspot, massive, or scores above 50, in input order, each candidate as often as in the input |
| ChurnChart.InsertByScorePermutes | src/components/repository/D3ChurnChart.tsx:181 | inserting a file adds exactly that file to the multiset |
| ChurnChart.InsertByScoreSorted | src/components/repository/D3ChurnChart.tsx:181 | inserting into a list ordered by descending score keeps it ordered and one longer |
| ChurnChart.SortByScore | src/components/repository/D3ChurnChart.tsx:181 | the result is ordered by descending score and is a permutation of the input |
| ChurnChart.LabelsAreSortedCandidates | src/components/repository/D3ChurnChart.tsx:179-181 | exactly the candidates get in line, each as often as in the churn report, highest score first |
| ChurnChart.Name | src/components/repository/D3ChurnChart.tsx:186 | the text after the last '/' when it is non-empty; the whole path when the path has no '/' or ends in '/' |
| ChurnChart.LabelText | src/components/repository/D3ChurnChart.tsx:187-225 | at most 21 characters; a name up to 20 is kept; a longer one becomes its first 18 characters and "..." |
| ChurnChart.BoxesAt | src/components/repository/D3ChurnChart.tsx:183-209 | the j-th pushed box is the box of the j-th kept label |
| ChurnChart.HitsAnyExists | src/components/repository/D3ChurnChart.tsx:199-206 | `some` reports a hit exactly when a placed box collides |
| ChurnChart.LabelBoxSize | src/components/repository/D3ChurnChart.tsx:191-192 | a label box is at most 126 wide and 14 high |
| ChurnChart.TouchingDoNotCollide | src/components/repository/D3ChurnChart.tsx:200-207 | boxes that only share an edge do not collide |
| ChurnChart.Step | src/components/repository/D3ChurnChart.tsx:196-214 | one filter call keeps the label iff its box hits no kept box |
| ChurnChart.Placed | src/components/repository/D3ChurnChart.tsx:196-214 | the labels the filter keeps; stated by ChurnChart.PlacedApart, ChurnChart.PlacedSubsequence, ChurnChart.FirstLabelShown and ChurnChart.DroppedLabelsOverlap |
| ChurnChart.VisibleLabels | src/components/repository/D3ChurnChart.tsx:183-214 | the loop with `placedLabels` computes the greedy placement |
| ChurnChart.PlacedApart | src/components/repository/D3ChurnChart.tsx:196-214 | no two shown labels overlap |
| ChurnChart.PlacedSubsequence | src/components/repository/D3ChurnChart.tsx:196-214 | shown labels keep their order in line |
| ChurnChart.FirstLabelShown | src/components/repository/D3ChurnChart.tsx:196-214 | the first candidate is always shown |
| ChurnChart.DroppedLabelsOverlap | src/components/repository/D3ChurnChart.tsx:200-213 | every candidate left out overlaps a shown label |
| ChurnChart.Render | src/components/repository/D3ChurnChart.tsx:109-225 | nothing for an empty report (the early return at line 17); otherwise one point per file in its category colour, and the placed labels with their text and position |
| ChurnChart.Sanitise | src/components/repository/D3ChurnChart.tsx:146 | same length; every '/', '.' and whitespace character becomes '-', and every other character is kept |
| ChurnChart.TooltipId | src/components/repository/D3ChurnChart.tsx:146 | "pinned-tooltip-" followed by the sanitised path |
| ChurnChart.ToggledById | src/components/repository/D3ChurnChart.tsx:146-151 | the click as written: nothing (a throw) iff the selector is rejected; otherwise the tooltip with that id is removed if present and appended if not |
| ChurnChart.SharedTooltipId | src/components/repository/D3ChurnChart.tsx:146-151 | "a/b" and "a-b" share an id, so clicking "a-b" pins it and then clicking "a/b" leaves nothing pinned |
| ChurnChart.PlainPathSelectorParses | src/components/repository/D3ChurnChart.tsx:146-147 | paths of letters, digits, '/', '.', '-', '_' and whitespace give ids that form a valid selector |
| ChurnChart.BracketPathThrows | src/components/repository/D3ChurnChart.tsx:146-147 | the click on "src/app/repository/[id]/page.tsx" throws: its selector has an identifier right after ']' |
| ChurnChart.RouteGroupPathThrows | src/components/repository/D3ChurnChart.tsx:146-147 | the click on "src/app/(auth)/login/page.tsx" throws: its selector has a '(' outside any pseudo-class |
| ChurnChart.BracketSegmentRejected | src/components/repository/D3ChurnChart.tsx:146-147 | a path with a ']' directory end followed by a segment starting with a letter, and no ':', quote or backslash, gives a selector that is rejected |
| ChurnChart.ParenthesisRejected | src/components/repository/D3ChurnChart.tsx:146-147 | a path with '(' and no ':', quote or backslash gives a selector that is rejected |
| ChurnChart.NotRejectedWhenParses | src/components/repository/D3ChurnChart.tsx:147 | a plain `#ident` selector is never counted as rejected, so the two selector predicates agree |
| ChurnChart.SanitiseKeeps | src/components/repository/D3ChurnChart.tsx:146 | any character other than '-', '/', '.' and whitespace is in the sanitised path iff it is in the path |
| ChurnChart.TogglePath | src/components/repository/D3ChurnChart.tsx:149-175 | a click pins the file's tooltip iff it was not pinned and leaves every other file's alone |
| ChurnChart.PinnedTooltips.ClickPoint | src/components/repository/D3ChurnChart.tsx:144-175 | a click on a point toggles that file's pinned tooltip |
| ChurnChart.PinnedTooltips.ClickTooltip | src/components/repository/D3ChurnChart.tsx:172-174 | a click on a pinned tooltip removes it |
| ChurnChart.PinnedTooltips.Heading | src/components/repository/D3ChurnChart.tsx:162 | a pinned tooltip is headed by the same name as the label (ChurnChart.Name) |
| AddRepositoryModal.BlankUrlEnablesSubmit | src/components/dashboard/AddRepositoryModal.tsx:102 | a url of spaces enables the button, yet the submit guard at line 23 treats it as blank |
| AddRepositoryModal.ButtonsWhileLoading | src/components/dashboard/AddRepositoryModal.tsx:98-102 | both buttons are disabled while loading; Add is enabled for any non-empty url otherwise |
| AddRepositoryModal.Form.constructor | src/components/dashboard/AddRepositoryModal.tsx:17-19 | empty url, not loading, no error |
| AddRepositoryModal.Form.SetUrl | src/components/dashboard/AddRepositoryModal.tsx:84 | the url becomes the typed value and nothing else changes |
| AddRepositoryModal.Form.BeginSubmit | src/components/dashboard/AddRepositoryModal.tsx:23-28 | a blank url changes nothing and submits nothing; otherwise loading starts, the error clears and the url is submitted untrimmed |
| AddRepositoryModal.Form.FinishSubmit | src/components/dashboard/AddRepositoryModal.tsx:29-35 | success clears the url and closes; failure sets the fixed message and keeps the url; loading ends either way |
| AddRepositoryModal.Form.HandleSubmit | src/components/dashboard/AddRepositoryModal.tsx:21-36 | the whole submission composed from the two halves |

## Left out

- Network, timers and the clock are not modelled. This covers `fetch`, the simulated delays in src/lib/api.ts, the 1500 ms delay (kept only as a number), `Date` and `toISOString`. The date strings are the `dayString` parameter, and the ids come from `Math.random`, so they are parameters too.
- `encodeURIComponent`, `atob` and `JSON.parse` are parameters that are not interpreted. A failed decode is `None`.
- ApiClient.Request: parses URLs only as far as a scheme check. A URL's query string is kept as the appended list, and its serialisation is not modelled.
- ApiClient.Request: its address follows the corrected resolution of a relative base (see Findings), not the TypeError the source throws.
- ApiClient.Request: caller headers given as a `Headers` instance or an array are not modelled. The other `RequestInit` fields are also left out.
- The logging calls (`console.error`) are not modelled.
- Floating point is not modelled. JavaScript numbers are integers here, so NaN, fractions and the `Math.floor` of fractional widths are left out.
- The D3 log and linear scales, `.nice()` and the point radius are not modelled. Label and point positions come from the `at` parameter.
- Day labels, axes, titles of the churn plot and all CSS classes outside the colour tables are left out.
- Dashboard.Filter: lower-cases ASCII letters only. `toLowerCase` also maps other letters, such as "Ä", so the source matches some names the model does not.
- Dashboard.CaseInsensitive: queries that differ in the case of non-ASCII letters filter alike in the source, but the model states it for ASCII case only.
- Translation.Translate: reads a key missing from a dictionary object as `undefined`. The dictionaries are plain objects, so `result[key]` in the source also finds the members inherited from `Object.prototype`: `t("constructor")` or `t("nav.toString")` returns a function there and the path in the model. Functions are no value of the model.
- Translation.T: the same inherited members are missing from its walk, as on the line above.
- Js.Member: finds own fields of an object only, not the members it inherits from `Object.prototype` such as `constructor` or `toString`.
- Property reads on strings and arrays give `undefined` in the model. The character indexing and `length` of JavaScript are not modelled, for example in the translation walk.
- ApiClient.AddressAsWritten: treats every cleaned-up string with a scheme as accepted and kept as it is. `new URL` also rejects some of these, such as "http://" or "https://a b", and normalises the rest, so "https://x.com" becomes "https://x.com/". Only the rejection of strings without a scheme is relied on.
- ChurnChart.ToggledById: looks the tooltip up by exact id whenever the selector is not rejected. A selector that parses as a compound, such as "#pinned-tooltip-[id]" for the path "[id]", looks for the id before the '[' instead, so in the source such clicks append another tooltip each time. That case is not modelled, and neither are selectors that neither predicate decides.
- ChurnChart.Name: counts characters as Unicode scalar values, while JavaScript strings count UTF-16 code units. The same holds for the members in the next lines. The split on '/' gives the same name either way.
- ChurnChart.LabelText: the 20-character test and the 18-character cut count scalar values, while `length` and `substring` count UTF-16 code units. On names with characters outside the Basic Multilingual Plane the source may cut elsewhere, even inside a surrogate pair.
- ChurnChart.LabelBoxSize: the width is 6 per scalar value, while the source's `labelText.length * 6` counts UTF-16 code units.
- Utils.TruncateSpec: `length` and `slice` count UTF-16 code units in the source. For example, `truncate("😀😀", 2)` is "😀..." there, while the model keeps "😀😀".
- Utils.TruncateNegative: a negative `maxLength` cuts UTF-16 code units in the source and scalar values in the model.
- Utils.Capitalize: upper-cases ASCII letters only, while `toUpperCase` also maps other letters, such as "é". It takes the first scalar value where `charAt(0)` takes the first UTF-16 code unit; ASCII case mapping leaves characters outside the Basic Multilingual Plane unchanged, so on that point the results agree.
- ChurnChart.SortByScore: does not state that equal scores keep their input order, although `Array.prototype.sort` is stable.
- ChurnChart.PinnedTooltips.ClickPoint: follows the corrected per-file toggle (see Findings). Where the tooltips appear on the page and their HTML are left out.
- The React, zustand and react-query machinery is left out. This covers rendering, persistence and devtools middleware, query fetching and the cache internals.
- The auth store is an abstract sink that receives a user or null and a token. Its definition is not part of this model.
- MockApi.Store.GetRepositories: returns the list's value. The source returns the shared array itself, so later pushes show through it. That aliasing is not modelled in general; Dashboard.HandleAddRepositoryShared states its one visible effect (see Findings).
- The MOCK_STATS data, `getRepositoryStats` (which ignores its id) and the seeded 365-day activity are not modelled.
- Repository fields that the records never set are left out, for example a status.
- `cn`, `formatDate`, the login and signup pages, and the other display components hold no logic beyond styling and are left out.
- There is no Bearer-token injection, status polling or staleness window in this code, so none is modelled.
- The `matcher` regex of the middleware is a Next.js configuration and is left out.

## Findings

| source | as written | input that shows it | evidently intended | confidence | as-written member | corrected member |
|---|---|---|---|---|---|---|
| src/lib/api-client.ts:25, 94 | `new URL(baseURL + endpoint)` has no base URL, and the fallback base is the relative "/api" | NEXT_PUBLIC_API_URL unset and endpoint "/repositories": "/api/repositories" has no scheme, so `new URL` throws a TypeError before fetch | relative bases resolve against the page origin | high, not executed | ApiClient.DefaultBaseRejects | ApiClient.ResolvedAddress |
| src/lib/api.ts:68, 88 | `getRepositories` returns `MOCK_REPOS` itself, so the list cache holds that array; `createRepository` pushes onto it and `onSuccess` then appends the same record to the cached list | after the list has loaded, adding "https://github.com/a/b" shows "a/b" twice on the dashboard until the next refetch | the new repository is listed once | medium, not executed | Dashboard.HandleAddRepositoryShared | Dashboard.HandleAddRepository |
| src/components/repository/D3ChurnChart.tsx:146-151 | the pinned tooltip is looked up by an id that maps '/', '.' and whitespace to '-' | "src/foo-bar.ts" and "src/foo/bar.ts" (or "a-b" and "a/b") share one id: clicking the second unpins the first and pins nothing | one pinned tooltip per file | medium, not executed | ChurnChart.SharedTooltipId | ChurnChart.TogglePath |
| src/components/repository/D3ChurnChart.tsx:146-147 | the id is put into a `#` selector, and characters such as '[' survive the sanitiser | "src/app/repository/[id]/page.tsx" gives "#pinned-tooltip-src-app-repository-[id]-page-tsx", which has an identifier right after ']' and is no valid selector, so `d3.select` throws on click; "src/app/(auth)/login/page.tsx" fails the same way on its '(' | clicking any point toggles its tooltip | medium, not executed | ChurnChart.BracketPathThrows | ChurnChart.TogglePath |
