/**
 * The decision `handleGitHubPRSplit` takes when a tab navigates: whether to
 * open the "Files changed" view of a pull request next to its conversation.
 */
module Split {
  import opened Options
  import opened Urls
  import opened PullRequests
  import opened Browsers
  import opened Config

  /** The key a split pull request is remembered under in `splitPRs`. */
  function PrKey(pr: PullRequest): string
  {
    pr.host + "/" + pr.owner + "/" + pr.repo + "/pull/" + pr.number
  }

  /** `allTabs.some(t => normalizeUrl(t.url) === normalized)` */
  function ShowsPage(tabs: seq<Tab>, normalized: string): bool
  {
    tabs != [] && (NormalizeUrl(tabs[0].url) == normalized || ShowsPage(tabs[1..], normalized))
  }

  /** Some tab's normalised URL is `normalized` exactly when `ShowsPage` says so. */
  lemma {:induction false} ShowsPageIff(tabs: seq<Tab>, normalized: string)
    ensures ShowsPage(tabs, normalized) <==> exists i :: 0 <= i < |tabs| && NormalizeUrl(tabs[i].url) == normalized
  {
    if tabs != [] {
      ShowsPageIff(tabs[1..], normalized);
      assert forall i :: 1 <= i < |tabs| ==> tabs[i] == tabs[1..][i - 1];
      if exists i :: 0 <= i < |tabs| && NormalizeUrl(tabs[i].url) == normalized {
        var i :| 0 <= i < |tabs| && NormalizeUrl(tabs[i].url) == normalized;
        if i > 0 {
          assert tabs[1..][i - 1] == tabs[i];
        }
      }
    }
  }

  /** Where `handleGitHubPRSplit` stops, in the order of its guards. */
  datatype SplitDecision =
    | Disabled                               // the feature is off
    | AutoOpened                             // the tab is one the agent opened itself
    | NotPullRequest                         // the URL is no pull-request conversation
    | AlreadySplit(key: string)              // the pull request was split moments ago
    | FilesTabOpen(key: string)              // some tab already shows its files view
    | Open(pr: PullRequest, key: string)     // open the files view

  /**
   * The decision for tab `tabId` navigating to `url`, given the agent's
   * `autoOpenedTabs` and `splitPRs` and the open tabs.
   */
  function DecideSplit(settings: Settings, autoOpened: set<int>, splitPRs: set<string>,
                       tabs: seq<Tab>, tabId: int, url: string): SplitDecision
  {
    if !settings.githubSplit then Disabled
    else if tabId in autoOpened then AutoOpened
    else
      match ParseGitHubPRUrl(url, settings.githubHosts)
      case None => NotPullRequest
      case Some(pr) =>
        var key := PrKey(pr);
        if key in splitPRs then AlreadySplit(key)
        else if ShowsPage(tabs, NormalizeUrl(pr.filesUrl)) then FilesTabOpen(key)
        else Open(pr, key)
  }

  /**
   * The split skips a tab the agent opened itself, and opens the files view
   * exactly when the feature is on, the tab is not one the agent opened, the
   * URL is a pull request on a configured host whose key is not held, and no
   * tab shows its files view.
   */
  lemma DecideSplitOpens(settings: Settings, autoOpened: set<int>, splitPRs: set<string>,
                         tabs: seq<Tab>, tabId: int, url: string)
    ensures var d := DecideSplit(settings, autoOpened, splitPRs, tabs, tabId, url);
      && (d.AutoOpened? <==> settings.githubSplit && tabId in autoOpened)
      && (d.Open? <==>
            && settings.githubSplit
            && tabId !in autoOpened
            && ParseGitHubPRUrl(url, settings.githubHosts).Some?
            && PrKey(ParseGitHubPRUrl(url, settings.githubHosts).value) !in splitPRs
            && forall i :: 0 <= i < |tabs| ==>
                 NormalizeUrl(tabs[i].url) != NormalizeUrl(ParseGitHubPRUrl(url, settings.githubHosts).value.filesUrl))
      && (d.Open? ==> d.pr == ParseGitHubPRUrl(url, settings.githubHosts).value && d.key == PrKey(d.pr))
  {
    if ParseGitHubPRUrl(url, settings.githubHosts).Some? {
      ShowsPageIff(tabs, NormalizeUrl(ParseGitHubPRUrl(url, settings.githubHosts).value.filesUrl));
    }
  }

  /**
   * The files view an agent opens is itself never split, whatever the state
   * and the hosts configured: its URL is no pull-request conversation.
   */
  lemma FilesViewNeverSplits(settings: Settings, hosts: seq<string>, autoOpened: set<int>,
                             splitPRs: set<string>, tabs: seq<Tab>, tabId: int, url: string)
    requires ParseGitHubPRUrl(url, hosts).Some?
    ensures !DecideSplit(settings, autoOpened, splitPRs, tabs, tabId,
                         ParseGitHubPRUrl(url, hosts).value.filesUrl).Open?
  {
    FilesUrlNotPullRequest(url, hosts, settings.githubHosts);
  }

  /**
   * Once a pull request's files view is open in some tab (up to fragment and
   * trailing slash), the pull request is not split again, even after its key
   * left `splitPRs`.
   */
  lemma OpenFilesViewBlocksSplit(settings: Settings, autoOpened: set<int>, splitPRs: set<string>,
                                 tabs: seq<Tab>, tabId: int, url: string, j: int)
    requires ParseGitHubPRUrl(url, settings.githubHosts).Some?
    requires 0 <= j < |tabs|
    requires NormalizeUrl(tabs[j].url) == NormalizeUrl(ParseGitHubPRUrl(url, settings.githubHosts).value.filesUrl)
    ensures !DecideSplit(settings, autoOpened, splitPRs, tabs, tabId, url).Open?
  {
    DecideSplitOpens(settings, autoOpened, splitPRs, tabs, tabId, url);
  }

  /** While a pull request's key is in `splitPRs`, no URL of it is split. */
  lemma HeldKeyBlocksSplit(settings: Settings, autoOpened: set<int>, splitPRs: set<string>,
                           tabs: seq<Tab>, tabId: int, url: string)
    requires ParseGitHubPRUrl(url, settings.githubHosts).Some?
    requires PrKey(ParseGitHubPRUrl(url, settings.githubHosts).value) in splitPRs
    ensures DecideSplit(settings, autoOpened, splitPRs, tabs, tabId, url)
         == if !settings.githubSplit then Disabled
            else if tabId in autoOpened then AutoOpened
            else AlreadySplit(PrKey(ParseGitHubPRUrl(url, settings.githubHosts).value))
  {
  }

  /**
   * Reloading a pull request with or without a trailing "/", or with another
   * query or fragment, yields the same record, hence the same key and files
   * view: within the grace period such a navigation opens no second files view.
   */
  lemma SameRecordAcrossReloads(u: Url, v: Url, hosts: seq<string>)
    requires WellFormed(u) && WellFormed(v)
    requires u.scheme == v.scheme && u.hostname == v.hostname && u.port == v.port
    requires DropTrailingSlash(v.pathname) == DropTrailingSlash(u.pathname)
    requires ParseGitHubPRUrl(Href(u), hosts).Some?
    ensures ParseGitHubPRUrl(Href(v), hosts) == ParseGitHubPRUrl(Href(u), hosts)
  {
    ParseHref(u);
    ParseHref(v);
    SameRecordAt(u, v, hosts);
  }

  lemma SameRecordAt(u: Url, v: Url, hosts: seq<string>)
    requires u.scheme == v.scheme && u.hostname == v.hostname && u.port == v.port
    requires DropTrailingSlash(v.pathname) == DropTrailingSlash(u.pathname)
    requires PullRequestAt(u, hosts).Some?
    ensures PullRequestAt(v, hosts) == PullRequestAt(u, hosts)
  {
    var pr := PullRequestAt(u, hosts).value;
    var path := PullPath(pr.owner, pr.repo, pr.number);
    PullPathHasNoTrailingSlash(pr.owner, pr.repo, pr.number);
    SlashOrNot(v.pathname);
    PullRequestAtRecognized(v, hosts, pr.owner, pr.repo, pr.number, v.pathname != path);
    PullRequestAtRecognized(u, hosts, pr.owner, pr.repo, pr.number, u.pathname != path);
  }

  /** A pull-request path ends in a digit, so only an added "/" is dropped. */
  lemma PullPathHasNoTrailingSlash(owner: string, repo: string, number: string)
    requires IsNumber(number)
    ensures DropTrailingSlash(PullPath(owner, repo, number)) == PullPath(owner, repo, number)
    ensures DropTrailingSlash(PullPath(owner, repo, number) + "/") == PullPath(owner, repo, number)
  {
    var path := PullPath(owner, repo, number);
    assert path[|path| - 1] == number[|number| - 1];
    assert (path + "/")[..|path|] == path;
  }

  /** A string is its slash-trimmed form, with or without the "/" put back. */
  lemma SlashOrNot(s: string)
    ensures s == DropTrailingSlash(s) || s == DropTrailingSlash(s) + "/"
  {
    if |s| > 0 && s[|s| - 1] == '/' {
      assert s == s[..|s| - 1] + "/";
    }
  }
}
