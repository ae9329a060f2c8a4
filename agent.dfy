/**
 * The background agent: the state it keeps between browser events, the
 * `handleGitHubPRSplit` handler and the `onCreated`, `onRemoved` and
 * `onUpdated` listeners, each handled as one atomic step.
 */
module Agents {
  import opened Options
  import opened Urls
  import opened PullRequests
  import opened Browsers
  import opened Config
  import opened Dedup
  import opened Split

  /** A navigation counts as the first load of a new tab this long after creation (ms). */
  const NewTabWindow := 10000

  /**
   * The agent's sets and map together with the tab table: everything a
   * listener reads or changes.
   */
  datatype World = World(
    autoOpened: set<int>,
    splitPRs: set<string>,
    recent: map<int, int>,
    tabs: seq<Tab>,
    nextId: int,
    focused: int)

  /** `createdAt && Date.now() - createdAt < 10000` */
  predicate IsNewTab(recent: map<int, int>, tabId: int, now: int)
  {
    tabId in recent && recent[tabId] != 0 && now - recent[tabId] < NewTabWindow
  }

  /** The tab `handleGitHubPRSplit` opens: the files view, inactive, right of the tab. */
  function FilesTab(w: World, pr: PullRequest, index: int, now: int): Tab
  {
    Tab(w.nextId, pr.filesUrl, index + 1, false, now, w.focused)
  }

  /** What carrying out decision `d` about tab `tabId` does to the world. */
  function ApplySplit(w: World, tabId: int, d: SplitDecision, index: int, now: int): World
  {
    match d
    case AutoOpened => w.(autoOpened := w.autoOpened - {tabId})
    case Open(pr, key) =>
      w.(tabs := w.tabs + [FilesTab(w, pr, index, now)],
         nextId := w.nextId + 1,
         autoOpened := w.autoOpened + {w.nextId},
         splitPRs := w.splitPRs + {key})
    case _ => w
  }

  /** The world after `handleGitHubPRSplit(tabId, url, tab)` with `tab.index == index`. */
  function AfterSplit(w: World, settings: Settings, tabId: int, url: string, index: int, now: int): World
  {
    ApplySplit(w, tabId, DecideSplit(settings, w.autoOpened, w.splitPRs, w.tabs, tabId, url), index, now)
  }

  /**
   * The world after the `onUpdated` listener for tab `tabId`; `changedUrl` is
   * `changeInfo.url`, `None` when the URL did not change.
   */
  function AfterUpdated(w: World, settings: Settings, tabId: int, changedUrl: Option<string>,
                        index: int, now: int): (r: World)
    ensures changedUrl.None? || changedUrl == Some("") ==> r == w
    ensures r.recent == w.recent
    ensures r.nextId == w.nextId || r.nextId == w.nextId + 1
    ensures !IsNewTab(w.recent, tabId, now) && changedUrl.Some? && changedUrl.value != "" ==>
      r == AfterSplit(w, settings, tabId, changedUrl.value, index, now)
    ensures changedUrl.Some? && changedUrl.value != ""
            && !(IsNewTab(w.recent, tabId, now) && DuplicateFor(settings, w.tabs, tabId, changedUrl.value).Some?) ==>
      r == AfterSplit(w, settings, tabId, changedUrl.value, index, now)
    ensures changedUrl.Some? && changedUrl.value != ""
            && IsNewTab(w.recent, tabId, now) && DuplicateFor(settings, w.tabs, tabId, changedUrl.value).Some? ==>
      var dup := DuplicateFor(settings, w.tabs, tabId, changedUrl.value).value;
      r == w.(tabs := WithoutIds(Activated(w.tabs, dup.id), {tabId}), focused := dup.windowId)
  {
    if changedUrl.None? || changedUrl.value == "" then w
    else
      var url := changedUrl.value;
      var dup := if IsNewTab(w.recent, tabId, now) then DuplicateFor(settings, w.tabs, tabId, url) else None;
      if dup.Some? then
        w.(tabs := WithoutIds(Activated(w.tabs, dup.value.id), {tabId}), focused := dup.value.windowId)
      else AfterSplit(w, settings, tabId, url, index, now)
  }

  /** A split opens exactly the files view and records it, or changes no tab. */
  lemma SplitEffect(w: World, settings: Settings, tabId: int, url: string, index: int, now: int)
    ensures var d := DecideSplit(settings, w.autoOpened, w.splitPRs, w.tabs, tabId, url);
      var r := AfterSplit(w, settings, tabId, url, index, now);
      && r.recent == w.recent && r.focused == w.focused
      && (d.Open? ==>
            && r.tabs == w.tabs + [Tab(w.nextId, d.pr.filesUrl, index + 1, false, now, w.focused)]
            && r.nextId == w.nextId + 1
            && r.splitPRs == w.splitPRs + {d.key})
      && (!d.Open? ==> r.tabs == w.tabs && r.nextId == w.nextId && r.splitPRs == w.splitPRs)
      && r.autoOpened ==
           (if d.AutoOpened? then w.autoOpened - {tabId} else w.autoOpened)
           + (if d.Open? then {w.nextId} else {})
      && (settings.githubSplit && tabId in w.autoOpened ==> r.autoOpened == w.autoOpened - {tabId})
  {
  }

  /**
   * Dedup goes first: when it closes a new tab, the split is never attempted,
   * and the tab is gone.
   */
  lemma DedupPreemptsSplit(w: World, settings: Settings, tabId: int, url: string, index: int, now: int)
    requires url != "" && IsNewTab(w.recent, tabId, now)
    requires DuplicateFor(settings, w.tabs, tabId, url).Some?
    ensures var r := AfterUpdated(w, settings, tabId, Some(url), index, now);
      && r.autoOpened == w.autoOpened && r.splitPRs == w.splitPRs && r.nextId == w.nextId
      && forall t :: t in r.tabs ==> t.id != tabId
  {
  }

  /**
   * Two splits of the same pull request, before its key expires, open one
   * files view at most.
   */
  lemma SplitTwiceOpensOnce(w: World, settings: Settings, id1: int, url1: string, index1: int, t1: int,
                            id2: int, url2: string, index2: int, t2: int)
    requires ParseGitHubPRUrl(url1, settings.githubHosts).Some?
    requires ParseGitHubPRUrl(url2, settings.githubHosts) == ParseGitHubPRUrl(url1, settings.githubHosts)
    ensures var w1 := AfterSplit(w, settings, id1, url1, index1, t1);
      var w2 := AfterSplit(w1, settings, id2, url2, index2, t2);
      w2.nextId <= w.nextId + 1 && |w2.tabs| <= |w.tabs| + 1
  {
    var w1 := AfterSplit(w, settings, id1, url1, index1, t1);
    SplitEffect(w, settings, id1, url1, index1, t1);
    SplitEffect(w1, settings, id2, url2, index2, t2);
    if DecideSplit(settings, w.autoOpened, w.splitPRs, w.tabs, id1, url1).Open? {
      DecideSplitOpens(settings, w.autoOpened, w.splitPRs, w.tabs, id1, url1);
      DecideSplitOpens(settings, w1.autoOpened, w1.splitPRs, w1.tabs, id2, url2);
    }
  }

  /**
   * The files view the agent opens loads quietly: its creation and first
   * navigation neither close a tab nor open one, and consume its mark in
   * `autoOpenedTabs`.
   */
  lemma FilesViewLoadsQuietly(w: World, settings: Settings, tabId: int, url: string, index: int,
                              t0: int, t1: int, t2: int)
    requires DecideSplit(settings, w.autoOpened, w.splitPRs, w.tabs, tabId, url).Open?
    ensures var f := FilesTab(w, DecideSplit(settings, w.autoOpened, w.splitPRs, w.tabs, tabId, url).pr, index, t0);
      var w1 := AfterSplit(w, settings, tabId, url, index, t0);
      var w2 := w1.(recent := w1.recent[f.id := t1]);
      var w3 := AfterUpdated(w2, settings, f.id, Some(f.url), f.index, t2);
      && w1.tabs == w.tabs + [f]
      && w3.tabs == w1.tabs && w3.nextId == w1.nextId && w3.splitPRs == w1.splitPRs
      && w3.autoOpened == w.autoOpened - {w.nextId}
  {
    DecideSplitOpens(settings, w.autoOpened, w.splitPRs, w.tabs, tabId, url);
    var d := DecideSplit(settings, w.autoOpened, w.splitPRs, w.tabs, tabId, url);
    var f := FilesTab(w, d.pr, index, t0);
    var w1 := AfterSplit(w, settings, tabId, url, index, t0);
    SplitEffect(w, settings, tabId, url, index, t0);
    NoDuplicateOfNewcomer(settings, w.tabs, f);
    var w2 := w1.(recent := w1.recent[f.id := t1]);
    assert w2.autoOpened == w.autoOpened + {w.nextId};
    AutoOpenedLoadsQuietly(w2, settings, f.id, f.url, f.index, t2);
  }

  /**
   * The first navigation of a tab the agent opened, when no other tab shows
   * its page, only consumes its mark in `autoOpenedTabs`.
   */
  lemma AutoOpenedLoadsQuietly(w: World, settings: Settings, tabId: int, url: string, index: int, now: int)
    requires settings.githubSplit && tabId in w.autoOpened && url != ""
    requires DuplicateFor(settings, w.tabs, tabId, url).None?
    ensures AfterUpdated(w, settings, tabId, Some(url), index, now) == w.(autoOpened := w.autoOpened - {tabId})
  {
    DecideSplitOpens(settings, w.autoOpened, w.splitPRs, w.tabs, tabId, url);
  }

  /** A tab whose page no other tab shows has no duplicate. */
  lemma NoDuplicateOfNewcomer(settings: Settings, tabs: seq<Tab>, f: Tab)
    requires forall i :: 0 <= i < |tabs| ==> NormalizeUrl(tabs[i].url) != NormalizeUrl(f.url)
    ensures DuplicateFor(settings, tabs + [f], f.id, f.url).None?
  {
    forall t | t in tabs + [f] && t.id != f.id
      ensures Key(t) != NormalizeUrl(f.url)
    {
      if t != f {
        var i :| 0 <= i < |tabs| && tabs[i] == t;
      }
    }
  }

  /**
   * While the files view of a pull request stays open, no navigation to that
   * pull request opens another one, even after its key expired.
   */
  lemma OpenFilesViewStaysSingle(w: World, settings: Settings, tabId: int, url: string, index: int,
                                 now: int, j: int)
    requires ParseGitHubPRUrl(url, settings.githubHosts).Some?
    requires 0 <= j < |w.tabs|
    requires NormalizeUrl(w.tabs[j].url) == NormalizeUrl(ParseGitHubPRUrl(url, settings.githubHosts).value.filesUrl)
    ensures AfterUpdated(w, settings, tabId, Some(url), index, now).nextId == w.nextId
  {
    OpenFilesViewBlocksSplit(settings, w.autoOpened, w.splitPRs, w.tabs, tabId, url, j);
  }

  /**
   * Once the key has expired and no tab shows the files view any more, the
   * next navigation of a tab the agent did not open splits the pull request
   * again.
   */
  lemma SplitAgainAfterExpiry(w: World, settings: Settings, tabId: int, url: string, index: int, now: int)
    requires settings.githubSplit && tabId !in w.autoOpened
    requires ParseGitHubPRUrl(url, settings.githubHosts).Some?
    requires forall i :: 0 <= i < |w.tabs| ==>
      NormalizeUrl(w.tabs[i].url) != NormalizeUrl(ParseGitHubPRUrl(url, settings.githubHosts).value.filesUrl)
    ensures var key := PrKey(ParseGitHubPRUrl(url, settings.githubHosts).value);
      var r := AfterSplit(w.(splitPRs := w.splitPRs - {key}), settings, tabId, url, index, now);
      && r.nextId == w.nextId + 1
      && r.tabs[|r.tabs| - 1].url == ParseGitHubPRUrl(url, settings.githubHosts).value.filesUrl
      && key in r.splitPRs
  {
    var key := PrKey(ParseGitHubPRUrl(url, settings.githubHosts).value);
    var w' := w.(splitPRs := w.splitPRs - {key});
    DecideSplitOpens(settings, w'.autoOpened, w'.splitPRs, w'.tabs, tabId, url);
    SplitEffect(w', settings, tabId, url, index, now);
  }

  /**
   * A new tab that navigates to a pull request no tab shows, and has no
   * duplicate, opens one inactive tab on its files view at the next index,
   * marked as auto-opened, with the key held; no tab is closed.
   */
  lemma NewTabOpensFilesView(w: World, settings: Settings, tabId: int, url: string, pr: PullRequest,
                             index: int, now: int)
    requires settings.githubSplit && url != "" && tabId !in w.autoOpened
    requires DuplicateFor(settings, w.tabs, tabId, url).None?
    requires ParseGitHubPRUrl(url, settings.githubHosts) == Some(pr) && PrKey(pr) !in w.splitPRs
    requires forall i :: 0 <= i < |w.tabs| ==> NormalizeUrl(w.tabs[i].url) != NormalizeUrl(pr.filesUrl)
    ensures var r := AfterUpdated(w, settings, tabId, Some(url), index, now);
      && r.tabs == w.tabs + [Tab(w.nextId, pr.filesUrl, index + 1, false, now, w.focused)]
      && r.autoOpened == w.autoOpened + {w.nextId}
      && r.splitPRs == w.splitPRs + {PrKey(pr)}
  {
    DecideSplitOpens(settings, w.autoOpened, w.splitPRs, w.tabs, tabId, url);
    SplitEffect(w, settings, tabId, url, index, now);
  }

  /**
   * Under the default settings, a new tab that navigates to a pull request
   * on `https://github.com` (such as `https://github.com/acme/widgets/pull/42`)
   * whose page no other tab shows closes nothing and opens one inactive tab
   * on the pull request's files view at the next index, marked as
   * auto-opened, with the key held.
   */
  lemma DefaultSettingsSplitScenario(w: World, u: Url, owner: string, repo: string, number: string,
                                     tabId: int, index: int, now: int)
    requires WellFormed(u) && u.scheme == "https" && u.hostname == "github.com" && u.port == []
    requires IsSegment(owner) && IsSegment(repo) && IsNumber(number)
    requires u.pathname == PullPath(owner, repo, number)
    requires IsNewTab(w.recent, tabId, now) && tabId !in w.autoOpened
    requires DuplicateFor(DefaultSettings, w.tabs, tabId, Href(u)).None?
    requires "https://github.com" + PullPath(owner, repo, number) !in w.splitPRs
    requires forall i :: 0 <= i < |w.tabs| ==>
      NormalizeUrl(w.tabs[i].url) != NormalizeUrl("https://github.com" + PullPath(owner, repo, number) + "/files")
    ensures var r := AfterUpdated(w, DefaultSettings, tabId, Some(Href(u)), index, now);
      && r.tabs == w.tabs + [Tab(w.nextId, "https://github.com" + PullPath(owner, repo, number) + "/files",
                                 index + 1, false, now, w.focused)]
      && r.autoOpened == w.autoOpened + {w.nextId}
      && r.splitPRs == w.splitPRs + {"https://github.com" + PullPath(owner, repo, number)}
  {
    GitHubOrigin(u);
    PullRequestRecognized(u, DefaultSettings.githubHosts, owner, repo, number, false);
    var pr := ParseGitHubPRUrl(Href(u), DefaultSettings.githubHosts).value;
    GitHubKey(owner, repo, number);
    NewTabOpensFilesView(w, DefaultSettings, tabId, Href(u), pr, index, now);
  }

  lemma GitHubOrigin(u: Url)
    requires u.scheme == "https" && u.hostname == "github.com" && u.port == []
    ensures Origin(u) == "https://github.com"
  {
    assert Host(u) == "github.com";
  }

  /** The key of a pull request on `https://github.com` is its origin and path. */
  lemma GitHubKey(owner: string, repo: string, number: string)
    ensures PrKey(PullRequest("https://github.com", owner, repo, number, ""))
         == "https://github.com" + PullPath(owner, repo, number)
  {
    var origin := "https://github.com";
    assert origin + "/" + owner + "/" + repo + "/pull/" + number
        == origin + ("/" + owner + "/" + repo + "/pull/" + number);
  }

  /** The agent's module-level state: `autoOpenedTabs`, `splitPRs` and `recentTabs`. */
  class Agent {
    var autoOpenedTabs: set<int>
    var splitPRs: set<string>
    var recentTabs: map<int, int>

    constructor ()
      ensures autoOpenedTabs == {} && splitPRs == {} && recentTabs == map[]
    {
      autoOpenedTabs := {};
      splitPRs := {};
      recentTabs := map[];
    }

    /** The agent and the browser seen together. */
    function Snapshot(b: Browser): World
      reads this, b
    {
      World(autoOpenedTabs, splitPRs, recentTabs, b.tabs, b.nextId, b.focusedWindow)
    }

    /**
     * `handleGitHubPRSplit(tabId, url, tab)`: the guards, in the source's
     * order, are `DecideSplit`; this method carries out what they decide. The
     * clean-up the source schedules 5 s later is the separate step `ExpirePR`.
     */
    method HandleGitHubPRSplit(b: Browser, settings: Settings, tabId: int, url: string, tab: Tab, now: int)
      requires b.Valid()
      modifies this, b
      ensures b.Valid()
      ensures Snapshot(b) == AfterSplit(old(Snapshot(b)), settings, tabId, url, tab.index, now)
    {
      var decision := DecideSplit(settings, autoOpenedTabs, splitPRs, b.tabs, tabId, url);
      CarryOutSplit(b, tabId, decision, tab.index, now);
    }

    /**
     * The effects of a split decision: consume the mark of an auto-opened tab,
     * or open the files view inactive right of the tab, mark it and hold the
     * pull request's key.
     */
    method CarryOutSplit(b: Browser, tabId: int, decision: SplitDecision, index: int, now: int)
      requires b.Valid()
      modifies this, b
      ensures b.Valid()
      ensures Snapshot(b) == ApplySplit(old(Snapshot(b)), tabId, decision, index, now)
    {
      match decision
      case AutoOpened =>
        autoOpenedTabs := autoOpenedTabs - {tabId};
      case Open(pr, prKey) =>
        var newTab := b.CreateInactive(pr.filesUrl, index + 1, now);
        autoOpenedTabs := autoOpenedTabs + {newTab.id};
        splitPRs := splitPRs + {prKey};
      case _ =>
    }

    /** The timer callback `splitPRs.delete(prKey)`. */
    method ExpirePR(prKey: string)
      modifies this
      ensures splitPRs == old(splitPRs) - {prKey}
      ensures autoOpenedTabs == old(autoOpenedTabs) && recentTabs == old(recentTabs)
    {
      splitPRs := splitPRs - {prKey};
    }

    /** The `onCreated` listener: remember when the tab appeared. */
    method OnCreated(tab: Tab, now: int)
      modifies this
      ensures recentTabs == old(recentTabs)[tab.id := now]
      ensures autoOpenedTabs == old(autoOpenedTabs) && splitPRs == old(splitPRs)
    {
      recentTabs := recentTabs[tab.id := now];
    }

    /** The `onRemoved` listener: forget the tab. */
    method OnRemoved(tabId: int)
      modifies this
      ensures recentTabs == old(recentTabs) - {tabId}
      ensures autoOpenedTabs == old(autoOpenedTabs) - {tabId}
      ensures splitPRs == old(splitPRs)
    {
      recentTabs := recentTabs - {tabId};
      autoOpenedTabs := autoOpenedTabs - {tabId};
    }

    /**
     * The `onUpdated` listener: a tab created less than 10 s ago goes through
     * duplicate handling first; unless that closed it, the split check runs.
     */
    method OnUpdated(b: Browser, settings: Settings, tabId: int, changedUrl: Option<string>, tab: Tab, now: int)
      requires b.Valid()
      modifies this, b
      ensures b.Valid()
      ensures Snapshot(b) == AfterUpdated(old(Snapshot(b)), settings, tabId, changedUrl, tab.index, now)
    {
      if changedUrl.None? || changedUrl.value == "" {
        return;
      }
      var url := changedUrl.value;
      var isNewTab := tabId in recentTabs && recentTabs[tabId] != 0 && now - recentTabs[tabId] < NewTabWindow;
      if isNewTab {
        var wasClosed := HandleDuplicateTab(b, settings, tabId, url);
        if wasClosed {
          return;
        }
      }
      HandleGitHubPRSplit(b, settings, tabId, url, tab, now);
    }
  }
}
