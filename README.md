# uniq-tab background agent, modelled in Dafny

This project models the background agent of the uniq-tab browser extension
(`background.js`). The agent does three things:

- **Duplicate prevention.** When a tab created less than 10 s ago navigates to
  a page another tab already shows, the agent switches to that other tab,
  focuses its window and closes the newcomer (`handleDuplicateTab`).
- **Pull-request split.** When a tab opens the conversation page of a GitHub
  pull request on a configured host, the agent opens the "Files changed" view
  of that pull request in an inactive tab to its right (`handleGitHubPRSplit`).
  It keeps two sets so that it does not trigger itself: the tabs it opened
  (`autoOpenedTabs`) and the pull requests split in the last 5 s (`splitPRs`).
- **One-shot sweep.** On request, the agent closes every duplicate among all
  open tabs, keeping one tab per page (`deduplicateAllTabs`).

Pages are compared by their normalised URL (`normalizeUrl`: fragment cleared,
one trailing "/" dropped). Browser-internal pages (`isInternalUrl`) take no
part in deduplication.

Layout, one module per concern:

| file | module | contents |
|---|---|---|
| `urls.dfy` | `Options`, `Urls` | the URL parser standing in for `new URL`, `normalizeUrl`, `isInternalUrl` |
| `pull_requests.dfy` | `PullRequests` | `parseGitHubPRUrl` |
| `browser.dfy` | `Config`, `Browsers` | settings record; the browser's tab table as a class with the calls the agent makes |
| `dedup.dfy` | `Dedup` | `handleDuplicateTab`, `deduplicateAllTabs` (its loop with invariants) |
| `split.dfy` | `Split` | the guard chain of `handleGitHubPRSplit` as a decision |
| `agent.dfy` | `Agents` | the agent's state as a class, the handlers and listeners, and lemmas over event sequences |

Each listener and handler is treated as one atomic step.

- The current time is a parameter `now`.
- The 5 s `setTimeout` that releases a pull request's key is the explicit step
  `Agents.Agent.ExpirePR`.
- `getSettings()` becomes a `Settings` value passed in.
- `Agents.World` is the agent's three collections plus the tab table. The
  functions `AfterSplit` and `AfterUpdated` say what one event does to it.
- Each method on the `Agent` class is proved to change the state exactly as
  its function says.
- The lemmas over `World` state what sequences of events do.

## Model

| member | source | states |
|---|---|---|
| Urls.ParseUrl | background.js:18 | a URL that parses has well-formed components: a valid scheme, a non-empty host without delimiters, a numeric port, a path starting with "/" |
| Urls.ParseHref | background.js:18-20 | parsing the serialised form of any well-formed URL gives back that URL |
| Urls.NormalizeUrlForm | background.js:16-24 | a URL that does not parse normalises to itself; otherwise the result holds no "#" and is the serialised URL without fragment, with at most one trailing "/" removed |
| Urls.NormalizeHref | background.js:16-20 | the normal form of a well-formed URL is its fragment-free serialisation with one trailing "/" dropped |
| Urls.NormalizeIgnoresFragment | background.js:19-20 | two URLs differing only in their fragment normalise to the same string |
| Urls.NormalizeIgnoresTrailingSlash | background.js:20 | a path with one trailing "/" (and no query) normalises like the path without it |
| Urls.TrailingSlashBeforeQueryKept | background.js:20 | with a query, the path's trailing "/" survives: `https://x.com/a/?q` and `https://x.com/a?q` normalise differently, so a trailing slash is ignored only when nothing follows the path |
| Urls.NormalizeDropsOneSlashOnly | background.js:20 | only one "/" is removed: a path ending in "//" keeps a trailing "/" |
| Urls.IsInternalUrl | background.js:26-34 | internal exactly when empty or starting with "chrome://", "chrome-extension://" or "about:"; the "chrome://newtab/" test is subsumed |
| Urls.InternalIffBrowserScheme | background.js:26-34 | a parsable URL is internal exactly when its scheme is chrome, chrome-extension or about, so no http(s) page is internal |
| Urls.SplitAt | background.js:18 | the two parts concatenate to the input, the first holds no stop character, the second is empty or starts with one |
| Urls.SplitAtUnique | background.js:18 | those three properties determine the split |
| PullRequests.MatchPullPath | background.js:71-74 | a matched path is `/owner/repo/pull/number` with an optional single trailing "/", with non-empty slash-free owner and repo and an all-digit number |
| PullRequests.MatchPullPathOf | background.js:71-74 | on `/owner/repo/pull/number` followed by a new segment, the match succeeds exactly when the number is all digits and the rest is empty or one "/" |
| PullRequests.PullRequestAt | background.js:68-82 | a host not in the allow-list gives no record; a record has the URL's origin as host, a matching path, and `filesUrl == origin + "/" + owner + "/" + repo + "/pull/" + number + "/files"` |
| PullRequests.PullRequestRecognized | background.js:65-82 | every `/owner/repo/pull/<digits>[/]` page on an allowed host, with any query or fragment, is recognised with exactly that record |
| PullRequests.SubPathNotPullRequest | background.js:70-74 | a path with a segment beyond the number (`/pull/1/files`, `/pull/1/commits`) gives null |
| PullRequests.NullOriginDoesNotParse | background.js:81 | a files URL built on the opaque origin "null" does not parse |
| PullRequests.FilesUrlNotPullRequest | background.js:65-86 | the files URL derived from a recognised page is never itself recognised, on any host list |
| Browsers.WithoutIds | background.js:52 | after a remove, exactly the tabs whose identifiers were not named are left |
| Browsers.WithoutIdsUnique | background.js:52 | removing tabs keeps identifiers unique |
| Browsers.Activated | background.js:50 | activating a tab changes only `active` flags, and the tab named becomes active |
| Browsers.Browser.Activate | background.js:50 | the table becomes `Activated(old table, id)`, nothing else changes |
| Browsers.Browser.FocusWindow | background.js:51 | the focused window becomes the one given, the table is unchanged |
| Browsers.Browser.Remove | background.js:52 | the table becomes `WithoutIds(old table, ids)` |
| Browsers.Browser.CreateInactive | background.js:112-116 | adds one inactive tab with a fresh identifier, the URL and the index asked for, at the end of the table |
| Dedup.FindDuplicate | background.js:45-47 | none exactly when no other tab has the same normalised URL; otherwise the first such tab in table order |
| Dedup.DuplicateFor | background.js:38-47 | a duplicate is found only when dedup is on and the URL not internal; it is another open tab with the same normalised URL, and when none is found no other tab has it |
| Dedup.HandleDuplicateTab | background.js:38-56 | returns true exactly when a duplicate exists; then that tab is activated, its window focused and only the newcomer closed; otherwise the table and focus are unchanged |
| Dedup.ResolvedDuplicateClosesOnlyNewcomer | background.js:49-53 | resolving a duplicate closes the newcomer and no other tab, and leaves the duplicate active |
| Dedup.LabelsAt | background.js:133-134 | the sweep's view of tab `j` is none for an internal page, else its normalised URL |
| Dedup.PlanStep | background.js:133-147 | one turn of the loop keeps the sweep's invariant: `seen` holds the preferred tab of each URL met, `toClose` lists each other eligible tab met, once |
| Dedup.PlanDeduplication | background.js:128-148 | `toClose` is duplicate-free, holds exactly the eligible tabs that are not kept, only identifiers of open tabs, and its length is eligible tabs minus distinct normalised URLs |
| Dedup.DeduplicateAllTabs | background.js:127-154 | the table loses exactly the tabs not kept, and `closed` is eligible tabs minus distinct normalised URLs |
| Dedup.KeptUnique | background.js:136-146 | each normalised URL has at most one kept tab |
| Dedup.KeptExists | background.js:136-146 | each normalised URL met has a kept tab |
| Dedup.BestOfPrefix | background.js:136-146 | among any prefix of the tabs, each URL has a tab preferred to all others with it |
| Dedup.SweepKeepsInternal | background.js:133 | the sweep never closes an internal page |
| Dedup.SweepKeepsEveryUrl | background.js:136-147 | every page an eligible tab showed is still shown after the sweep |
| Dedup.SweepKeepsOneCopy | background.js:136-147 | after the sweep no two eligible tabs share a normalised URL |
| Dedup.SweepLeavesOnePerUrl | background.js:127-154 | after the sweep internal pages stay and exactly one tab per normalised URL remains |
| Dedup.SweepExample | background.js:136-146 | with an active and an inactive tab on one page and a third on another, only the inactive copy is closed |
| Split.ShowsPageIff | background.js:105-108 | `some` is true exactly when a tab's normalised URL equals the files view's |
| Split.DecideSplitOpens | background.js:88-109 | the tab is treated as auto-opened exactly when the feature is on and it is in `autoOpenedTabs`; the files view opens exactly when the feature is on, the tab was not auto-opened, the URL is a pull request on an allowed host, its key is not held and no tab shows its files view |
| Split.FilesViewNeverSplits | background.js:65-123 | navigating to a files view the agent derived never opens another tab |
| Split.OpenFilesViewBlocksSplit | background.js:103-109 | while some tab's normalised URL equals that of the files view (for instance with a fragment or a trailing slash), no split of that pull request happens, whatever `splitPRs` holds |
| Split.HeldKeyBlocksSplit | background.js:99-101 | while the key is held, the decision stops at the `splitPRs` guard (or earlier) |
| Split.SameRecordAcrossReloads | background.js:99-101 | a reload with or without the trailing "/" or with another query or fragment yields the same record and key |
| Agents.AfterUpdated | background.js:179-196 | no URL change does nothing; `recentTabs` is untouched; at most one tab is created; unless the tab is new and has a duplicate, the split runs (in particular for every tab that is not new); when it is new and has a duplicate, the table becomes the duplicate activated without the tab, and the duplicate's window is focused |
| Agents.NewTabOpensFilesView | background.js:179-196 | a new tab with no duplicate that navigates to a pull request whose key is not held and whose files view no tab shows gets exactly one inactive files-view tab at the next index, marked as auto-opened, with the key held |
| Agents.DefaultSettingsSplitScenario | background.js:3-7 | under the default settings, a new tab opening a pull request on `https://github.com` (such as `/acme/widgets/pull/42`) closes nothing and opens `https://github.com/owner/repo/pull/N/files` inactive at the next index |
| Agents.SplitEffect | background.js:88-123 | an opening split appends exactly the inactive files view at `index + 1`, adds exactly the new id to `autoOpenedTabs` and exactly its key to `splitPRs`; an auto-opened tab loses its mark and nothing else; any other decision changes neither set nor any tab; `recentTabs` and focus never change |
| Agents.DedupPreemptsSplit | background.js:189-192 | when dedup closes a new tab, the split is not attempted and the tab is gone |
| Agents.SplitTwiceOpensOnce | background.js:99-101 | two splits of the same pull request before expiry create one tab at most |
| Agents.FilesViewLoadsQuietly | background.js:88-196 | the opened files view's own creation and first navigation close nothing, open nothing and consume its mark |
| Agents.AutoOpenedLoadsQuietly | background.js:91-94 | the first navigation of an auto-opened tab with no duplicate only removes its mark |
| Agents.NoDuplicateOfNewcomer | background.js:45-47 | a tab whose page no other tab shows has no duplicate |
| Agents.OpenFilesViewStaysSingle | background.js:103-109 | while some tab's normalised URL equals that of a pull request's files view, no navigation to the pull request creates a tab |
| Agents.SplitAgainAfterExpiry | background.js:121-122 | after the key expires and no tab shows the files view, the next navigation opens it again and re-holds the key |
| Agents.Agent.constructor | background.js:61-63 | `autoOpenedTabs` and `splitPRs` start empty, and so does `recentTabs` (line 168) |
| Agents.Agent.HandleGitHubPRSplit | background.js:88-123 | the agent and the table change exactly as `AfterSplit` says |
| Agents.Agent.CarryOutSplit | background.js:91-119 | carries out a decision: drops the auto-opened mark, or opens the files view and records it in both sets |
| Agents.Agent.ExpirePR | background.js:122 | only the key leaves `splitPRs` |
| Agents.Agent.OnCreated | background.js:170-172 | the creation time is recorded, the sets are unchanged |
| Agents.Agent.OnRemoved | background.js:174-177 | the tab leaves `recentTabs` and `autoOpenedTabs`, `splitPRs` is unchanged |
| Agents.Agent.OnUpdated | background.js:179-196 | the agent and the table change exactly as `AfterUpdated` says |

## Left out

- URL parsing: the WHATWG URL Standard parser is not part of this model. `Urls.ParseUrl` accepts only `scheme://host[:port][path][?query][#fragment]`. It does no case folding, default-port removal, percent-encoding, dot-segment resolution, userinfo or IPv6 handling. Every other string is a parse failure, including opaque URLs such as `about:blank` and `mailto:`.
- URL parser leniency: within its shape `Urls.ParseUrl` accepts strings the browser rejects, such as a host with a space or a port above 65535. On such a string the source's `normalizeUrl` returns its input unchanged, while `Urls.NormalizeUrl` drops the fragment and one trailing "/".
- Empty paths: `Urls.ParseUrl` turns an empty path into "/" for every scheme. The browser does so only for the special schemes, so `foo://h?q` normalises to `foo://h/?q` here but stays `foo://h?q` in the browser.
- Concurrency: the interleaving of other events between the listeners' awaits is not modelled. Each handler is one atomic step.
- Storage and messaging: the `chrome.storage` read behind `getSettings` and the `chrome.runtime.onMessage` plumbing (background.js:158-163) are left out. Settings are a value and `deduplicateAllTabs` is called directly.
- Unread settings: only `dedup`, `githubSplit` and `githubHosts` are modelled. No other setting is read by the agent.
- Time: `Date.now()` is an integer parameter `now`, in milliseconds. The browser's floating-point timestamps (`lastAccessed`) are integers.
- Timer: `setTimeout` scheduling is the explicit step `Agents.Agent.ExpirePR`. Nothing forces that step to run after exactly 5 s.
- Browser effects not modelled: tab indices are not renumbered when tabs are created or removed, and `lastAccessed` is not updated on activation.
- Browsers.Browser.CreateInactive: adds the new tab at the end of the table, where the browser lists it at `index + 1`. The table order decides which duplicate `find` returns first (background.js:45) and which of two equally recent tabs the sweep keeps (background.js:139). So after a split the model can pick a different one of several duplicates than the browser would.
- Active tab after removal: the browser's choice of a new active tab when the active tab is closed is not modelled.
- Missing URL: a tab without a URL is modelled with the URL "". `isInternalUrl` and `normalizeUrl` treat both alike.
- Return value: `handleDuplicateTab` returns `undefined` on its two early exits. `Dedup.HandleDuplicateTab` returns false there, which the one caller treats the same way.
- Options page and popup (options.js, popup.js): user-interface code, not part of this model.
