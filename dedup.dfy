/**
 * Duplicate-tab prevention (`handleDuplicateTab`) and the one-shot sweep over
 * all open tabs (`deduplicateAllTabs`).
 */
module Dedup {
  import opened Options
  import opened Urls
  import opened Browsers
  import opened Config

  /** The equality key of a tab: its normalised URL. */
  function Key(t: Tab): string
  {
    NormalizeUrl(t.url)
  }

  /** Internal pages take no part in deduplication. */
  predicate Eligible(t: Tab)
  {
    !IsInternalUrl(t.url)
  }

  // ----- handleDuplicateTab -----

  /** The predicate `handleDuplicateTab` passes to `allTabs.find`. */
  predicate IsDuplicate(t: Tab, tabId: int, normalized: string)
  {
    t.id != tabId && NormalizeUrl(t.url) == normalized
  }

  /** `allTabs.find(...)`: the first tab, in table order, that is a duplicate. */
  function FindDuplicate(tabs: seq<Tab>, tabId: int, normalized: string): (r: Option<Tab>)
    ensures r.None? <==> forall i :: 0 <= i < |tabs| ==> !IsDuplicate(tabs[i], tabId, normalized)
    ensures r.Some? ==>
      exists i :: 0 <= i < |tabs| && tabs[i] == r.value && IsDuplicate(tabs[i], tabId, normalized)
               && forall j :: 0 <= j < i ==> !IsDuplicate(tabs[j], tabId, normalized)
  {
    if tabs == [] then None
    else if IsDuplicate(tabs[0], tabId, normalized) then Some(tabs[0])
    else
      var r := FindDuplicate(tabs[1..], tabId, normalized);
      assert forall i :: 1 <= i < |tabs| ==> tabs[i] == tabs[1..][i - 1];
      r
  }

  /**
   * The tab `handleDuplicateTab` switches to, if any: none when deduplication
   * is off or the URL is internal, otherwise the first other tab with the same
   * normalised URL.
   */
  function DuplicateFor(settings: Settings, tabs: seq<Tab>, tabId: int, url: string): (r: Option<Tab>)
    ensures r.Some? ==>
      && settings.dedup && !IsInternalUrl(url)
      && r.value in tabs && r.value.id != tabId && Key(r.value) == NormalizeUrl(url)
    ensures r.None? && settings.dedup && !IsInternalUrl(url) ==>
      forall t :: t in tabs && t.id != tabId ==> Key(t) != NormalizeUrl(url)
  {
    if !settings.dedup || IsInternalUrl(url) then None
    else FindDuplicate(tabs, tabId, NormalizeUrl(url))
  }

  /**
   * `handleDuplicateTab(tabId, url)`: when another tab already shows the same
   * page, switch to it, focus its window and close tab `tabId`. The result is
   * true exactly when the tab was closed (the source's `undefined` on the two
   * early returns is false here).
   */
  method HandleDuplicateTab(b: Browser, settings: Settings, tabId: int, url: string) returns (closed: bool)
    requires b.Valid()
    modifies b
    ensures b.Valid()
    ensures closed == DuplicateFor(settings, old(b.tabs), tabId, url).Some?
    ensures !closed ==> b.tabs == old(b.tabs) && b.focusedWindow == old(b.focusedWindow)
    ensures closed ==>
      var existing := DuplicateFor(settings, old(b.tabs), tabId, url).value;
      && b.tabs == WithoutIds(Activated(old(b.tabs), existing.id), {tabId})
      && b.focusedWindow == existing.windowId
    ensures b.nextId == old(b.nextId)
  {
    if !settings.dedup {
      return false;
    }
    if IsInternalUrl(url) {
      return false;
    }
    var normalized := NormalizeUrl(url);
    var allTabs := b.tabs;
    var existing := FindDuplicate(allTabs, tabId, normalized);
    if existing.Some? {
      b.Activate(existing.value.id);
      b.FocusWindow(existing.value.windowId);
      b.Remove({tabId});
      return true;
    }
    return false;
  }

  /**
   * Resolving a duplicate closes the newcomer and nothing else: every other
   * tab stays open with its URL, and the tab switched to is now active.
   */
  lemma ResolvedDuplicateClosesOnlyNewcomer(tabs: seq<Tab>, tabId: int, existing: Tab)
    requires existing in tabs && existing.id != tabId
    ensures var r := WithoutIds(Activated(tabs, existing.id), {tabId});
      && (forall t :: t in r ==> t.id != tabId)
      && (forall i :: 0 <= i < |tabs| && tabs[i].id != tabId ==>
            exists t :: t in r && t.id == tabs[i].id && t.url == tabs[i].url)
      && existing.(active := true) in r
  {
    var a := Activated(tabs, existing.id);
    var r := WithoutIds(a, {tabId});
    forall i | 0 <= i < |tabs| && tabs[i].id != tabId
      ensures exists t :: t in r && t.id == tabs[i].id && t.url == tabs[i].url
    {
      assert a[i] in a && a[i].id == tabs[i].id;
      assert a[i] in r;
    }
    var k :| 0 <= k < |tabs| && tabs[k] == existing;
    assert a[k] == existing.(active := true);
    assert a[k] in a;
  }

  // ----- deduplicateAllTabs -----

  /** What the sweep sees of a tab: nothing for an internal page, else its key. */
  function Label(t: Tab): Option<string>
  {
    if IsInternalUrl(t.url) then None else Some(NormalizeUrl(t.url))
  }

  /** The label of every tab, in table order. */
  function Labels(tabs: seq<Tab>): (r: seq<Option<string>>)
    ensures |r| == |tabs|
  {
    seq(|tabs|, i requires 0 <= i < |tabs| => Label(tabs[i]))
  }

  lemma LabelsAt(tabs: seq<Tab>, j: int)
    requires 0 <= j < |tabs|
    ensures Labels(tabs)[j] == Label(tabs[j])
  {
  }

  /**
   * Whether the sweep prefers `kept`, met at position `m`, to `t`, met at
   * position `j` with the same key: an active tab beats an inactive one, and
   * of several active tabs the last one met wins; among inactive tabs the
   * larger `lastAccessed` wins, and the first one met wins a tie.
   */
  predicate Prefers(m: int, kept: Tab, j: int, t: Tab)
  {
    || j == m
    || (&& (t.active ==> kept.active && j < m)
        && (!kept.active ==>
              || t.lastAccessed < kept.lastAccessed
              || (t.lastAccessed == kept.lastAccessed && m < j)))
  }

  /**
   * The tab at index `m`, labelled by `labels`, is the one of its group the
   * sweep leaves open: it is eligible and preferred to every tab of its group.
   */
  predicate Kept(tabs: seq<Tab>, labels: seq<Option<string>>, m: int)
    requires |labels| == |tabs| && 0 <= m < |tabs|
  {
    && labels[m].Some?
    && forall j :: 0 <= j < |tabs| && labels[j] == labels[m] ==> Prefers(m, tabs[m], j, tabs[j])
  }

  /** The identifiers of the tabs the sweep closes. */
  function Losers(tabs: seq<Tab>): set<int>
  {
    LosersOf(tabs, Labels(tabs))
  }

  /** The eligible tabs, labelled by `labels`, that are not kept. */
  function LosersOf(tabs: seq<Tab>, labels: seq<Option<string>>): set<int>
    requires |labels| == |tabs|
  {
    set j | 0 <= j < |tabs| && labels[j].Some? && !Kept(tabs, labels, j) :: tabs[j].id
  }

  /** The number of eligible tabs. */
  function EligibleCount(labels: seq<Option<string>>): nat
  {
    if labels == [] then 0
    else EligibleCount(labels[..|labels| - 1]) + (if labels[|labels| - 1].Some? then 1 else 0)
  }

  /** The distinct keys of the eligible tabs. */
  function UrlKeys(labels: seq<Option<string>>): set<string>
  {
    if labels == [] then {}
    else
      var last := labels[|labels| - 1];
      UrlKeys(labels[..|labels| - 1]) + (if last.Some? then {last.value} else {})
  }

  lemma {:induction false} UrlKeysMembers(labels: seq<Option<string>>, k: string)
    ensures k in UrlKeys(labels) <==> exists j :: 0 <= j < |labels| && labels[j] == Some(k)
  {
    if labels != [] {
      var front := labels[..|labels| - 1];
      UrlKeysMembers(front, k);
      assert forall j :: 0 <= j < |front| ==> front[j] == labels[j];
    }
  }

  lemma CountStep(labels: seq<Option<string>>, i: int)
    requires 0 <= i < |labels|
    ensures EligibleCount(labels[..i + 1]) == EligibleCount(labels[..i]) + (if labels[i].Some? then 1 else 0)
    ensures UrlKeys(labels[..i + 1]) == UrlKeys(labels[..i]) + (if labels[i].Some? then {labels[i].value} else {})
  {
    assert labels[..i + 1][..i] == labels[..i];
  }

  /** Preference is antisymmetric: two different tabs cannot each beat the other. */
  lemma PrefersAntisymmetric(m: int, kept: Tab, j: int, t: Tab)
    requires Prefers(m, kept, j, t) && Prefers(j, t, m, kept)
    ensures m == j
  {
  }

  /** A group has at most one kept tab. */
  lemma KeptUnique(tabs: seq<Tab>, labels: seq<Option<string>>, m: int, n: int)
    requires |labels| == |tabs| && 0 <= m < |tabs| && 0 <= n < |tabs|
    requires Kept(tabs, labels, m) && Kept(tabs, labels, n) && labels[m] == labels[n]
    ensures m == n
  {
    PrefersAntisymmetric(m, tabs[m], n, tabs[n]);
  }

  /** No identifier occurs twice. */
  predicate Distinct(ids: seq<int>)
  {
    forall a, c :: 0 <= a < c < |ids| ==> ids[a] != ids[c]
  }

  lemma DistinctAppend(ids: seq<int>, x: int)
    requires Distinct(ids) && x !in ids
    ensures Distinct(ids + [x])
  {
  }

  /** `seen` and `at` hold, for each key met so far, a tab met so far and its index. */
  ghost predicate SeenAt(tabs: seq<Tab>, labels: seq<Option<string>>, i: int,
                         seen: map<string, Tab>, at: map<string, int>)
  {
    && |labels| == |tabs|
    && 0 <= i <= |tabs|
    && seen.Keys == at.Keys
    && forall k :: k in at ==> 0 <= at[k] < i && tabs[at[k]] == seen[k] && labels[at[k]] == Some(k)
  }

  /** Every eligible tab met so far has its key in `seen`, whose tab it does not beat. */
  ghost predicate BestSoFar(tabs: seq<Tab>, labels: seq<Option<string>>, i: int,
                            seen: map<string, Tab>, at: map<string, int>)
    requires SeenAt(tabs, labels, i, seen, at)
  {
    forall j :: 0 <= j < i && labels[j].Some? ==>
      labels[j].value in at && Prefers(at[labels[j].value], seen[labels[j].value], j, tabs[j])
  }

  /** Exactly the eligible tabs met so far that are not held in `seen` are queued. */
  ghost predicate QueuedExactly(tabs: seq<Tab>, labels: seq<Option<string>>, i: int,
                                at: map<string, int>, toClose: seq<int>)
    requires |labels| == |tabs| && 0 <= i <= |tabs|
  {
    forall j :: 0 <= j < i ==>
      (tabs[j].id in toClose <==> labels[j].Some? && labels[j].value in at && at[labels[j].value] != j)
  }

  /** Only tabs met so far are queued. */
  ghost predicate QueuedFrom(tabs: seq<Tab>, i: int, toClose: seq<int>)
    requires 0 <= i <= |tabs|
  {
    forall x :: x in toClose ==> exists j :: 0 <= j < i && tabs[j].id == x
  }

  /**
   * What the sweep's `seen` map and `toClose` list hold after the first `i`
   * tabs, with `at` recording the index of each tab held in `seen`: each key
   * met so far maps to the preferred tab of its group so far, and `toClose`
   * lists, once each, the other eligible tabs met so far.
   */
  ghost predicate PlanInv(tabs: seq<Tab>, labels: seq<Option<string>>, i: int,
                          seen: map<string, Tab>, at: map<string, int>, toClose: seq<int>)
  {
    && SeenAt(tabs, labels, i, seen, at)
    && BestSoFar(tabs, labels, i, seen, at)
    && QueuedExactly(tabs, labels, i, at, toClose)
    && QueuedFrom(tabs, i, toClose)
    && Distinct(toClose)
    && |toClose| + |seen| == EligibleCount(labels[..i])
    && seen.Keys == UrlKeys(labels[..i])
  }

  /** The tab met at step `i` is not queued yet. */
  lemma NotYetQueued(tabs: seq<Tab>, i: int, toClose: seq<int>)
    requires UniqueIds(tabs) && 0 <= i < |tabs| && QueuedFrom(tabs, i, toClose)
    ensures tabs[i].id !in toClose
  {
  }

  /** Taking over a key keeps `BestSoFar`: the newcomer beats all the old one beat. */
  lemma BestAfterReplace(tabs: seq<Tab>, labels: seq<Option<string>>, i: int,
                         seen: map<string, Tab>, at: map<string, int>)
    requires SeenAt(tabs, labels, i, seen, at) && BestSoFar(tabs, labels, i, seen, at) && i < |tabs|
    requires labels[i].Some? && labels[i].value in seen && Replaces(tabs[i], seen[labels[i].value])
    ensures SeenAt(tabs, labels, i + 1, seen[labels[i].value := tabs[i]], at[labels[i].value := i])
    ensures BestSoFar(tabs, labels, i + 1, seen[labels[i].value := tabs[i]], at[labels[i].value := i])
  {
    var k := labels[i].value;
    var seen', at' := seen[k := tabs[i]], at[k := i];
    forall j | 0 <= j < i + 1 && labels[j].Some?
      ensures labels[j].value in at' && Prefers(at'[labels[j].value], seen'[labels[j].value], j, tabs[j])
    {
      if j < i && labels[j].value == k {
        assert Prefers(at[k], seen[k], j, tabs[j]);
      }
    }
  }

  lemma QueuedAfterReplace(tabs: seq<Tab>, labels: seq<Option<string>>, i: int,
                           seen: map<string, Tab>, at: map<string, int>, toClose: seq<int>)
    requires UniqueIds(tabs) && SeenAt(tabs, labels, i, seen, at) && i < |tabs|
    requires QueuedExactly(tabs, labels, i, at, toClose) && tabs[i].id !in toClose
    requires labels[i].Some? && labels[i].value in seen
    ensures seen[labels[i].value].id !in toClose
    ensures QueuedExactly(tabs, labels, i + 1, at[labels[i].value := i], toClose + [seen[labels[i].value].id])
  {
    var k := labels[i].value;
    var m := at[k];
    var tc := toClose + [tabs[m].id];
    forall j | 0 <= j < i + 1
      ensures tabs[j].id in tc <==> labels[j].Some? && labels[j].value in at[k := i] && at[k := i][labels[j].value] != j
    {
      if j < i && j != m {
        assert tabs[j].id != tabs[m].id;
      }
    }
  }

  /** A key met for the first time: its tab is held, and nothing else moves. */
  lemma AfterFirst(tabs: seq<Tab>, labels: seq<Option<string>>, i: int,
                   seen: map<string, Tab>, at: map<string, int>, toClose: seq<int>)
    requires SeenAt(tabs, labels, i, seen, at) && BestSoFar(tabs, labels, i, seen, at) && i < |tabs|
    requires QueuedExactly(tabs, labels, i, at, toClose) && tabs[i].id !in toClose
    requires labels[i].Some? && labels[i].value !in seen
    ensures SeenAt(tabs, labels, i + 1, seen[labels[i].value := tabs[i]], at[labels[i].value := i])
    ensures BestSoFar(tabs, labels, i + 1, seen[labels[i].value := tabs[i]], at[labels[i].value := i])
    ensures QueuedExactly(tabs, labels, i + 1, at[labels[i].value := i], toClose)
  {
    var k := labels[i].value;
    var seen', at' := seen[k := tabs[i]], at[k := i];
    assert SeenAt(tabs, labels, i + 1, seen', at');
    forall j | 0 <= j < i && labels[j].Some?
      ensures labels[j].value != k
    {
      assert labels[j].value in at;
    }
  }

  /** A tab that does not displace the held one keeps `BestSoFar`. */
  lemma BestAfterKeep(tabs: seq<Tab>, labels: seq<Option<string>>, i: int,
                      seen: map<string, Tab>, at: map<string, int>)
    requires SeenAt(tabs, labels, i, seen, at) && BestSoFar(tabs, labels, i, seen, at) && i < |tabs|
    requires labels[i].Some? && labels[i].value in seen && !Replaces(tabs[i], seen[labels[i].value])
    ensures SeenAt(tabs, labels, i + 1, seen, at)
    ensures BestSoFar(tabs, labels, i + 1, seen, at)
  {
    var k := labels[i].value;
    assert Prefers(at[k], seen[k], i, tabs[i]);
  }

  lemma QueuedAfterKeep(tabs: seq<Tab>, labels: seq<Option<string>>, i: int,
                        seen: map<string, Tab>, at: map<string, int>, toClose: seq<int>)
    requires UniqueIds(tabs) && SeenAt(tabs, labels, i, seen, at) && i < |tabs|
    requires QueuedExactly(tabs, labels, i, at, toClose) && tabs[i].id !in toClose
    requires labels[i].Some? && labels[i].value in seen
    ensures QueuedExactly(tabs, labels, i + 1, at, toClose + [tabs[i].id])
  {
    var tc := toClose + [tabs[i].id];
    forall j | 0 <= j < i
      ensures tabs[j].id in tc <==> tabs[j].id in toClose
    {
      assert tabs[j].id != tabs[i].id;
    }
  }

  /** Queuing the tab at `m`, met so far, keeps `QueuedFrom`. */
  lemma QueuedFromAppend(tabs: seq<Tab>, i: int, toClose: seq<int>, m: int)
    requires 0 <= m <= i < |tabs| && QueuedFrom(tabs, i, toClose)
    ensures QueuedFrom(tabs, i + 1, toClose + [tabs[m].id])
  {
    forall x | x in toClose + [tabs[m].id]
      ensures exists j :: 0 <= j < i + 1 && tabs[j].id == x
    {
      if x !in toClose {
        assert tabs[m].id == x;
      }
    }
  }

  /** The counts after a tab whose key was met before. */
  lemma TallyRepeat(labels: seq<Option<string>>, i: int, seen: map<string, Tab>, toClose: seq<int>)
    requires 0 <= i < |labels| && labels[i].Some? && labels[i].value in seen
    requires |toClose| + |seen| == EligibleCount(labels[..i]) && seen.Keys == UrlKeys(labels[..i])
    ensures |toClose + [0]| + |seen| == EligibleCount(labels[..i + 1])
    ensures seen.Keys == UrlKeys(labels[..i + 1])
  {
    CountStep(labels, i);
  }

  /** The counts after a tab whose key is new. */
  lemma TallyFirst(labels: seq<Option<string>>, i: int, seen: map<string, Tab>, toClose: seq<int>, t: Tab)
    requires 0 <= i < |labels| && labels[i].Some? && labels[i].value !in seen
    requires |toClose| + |seen| == EligibleCount(labels[..i]) && seen.Keys == UrlKeys(labels[..i])
    ensures |toClose| + |seen[labels[i].value := t]| == EligibleCount(labels[..i + 1])
    ensures seen[labels[i].value := t].Keys == UrlKeys(labels[..i + 1])
  {
    CountStep(labels, i);
  }

  lemma PlanStepInternal(tabs: seq<Tab>, labels: seq<Option<string>>, i: int,
                         seen: map<string, Tab>, at: map<string, int>, toClose: seq<int>)
    requires UniqueIds(tabs) && PlanInv(tabs, labels, i, seen, at, toClose) && i < |tabs|
    requires labels[i].None?
    ensures PlanInv(tabs, labels, i + 1, seen, at, toClose)
  {
    NotYetQueued(tabs, i, toClose);
    CountStep(labels, i);
  }

  lemma PlanStepFirst(tabs: seq<Tab>, labels: seq<Option<string>>, i: int,
                      seen: map<string, Tab>, at: map<string, int>, toClose: seq<int>)
    requires UniqueIds(tabs) && PlanInv(tabs, labels, i, seen, at, toClose) && i < |tabs|
    requires labels[i].Some? && labels[i].value !in seen
    ensures PlanInv(tabs, labels, i + 1, seen[labels[i].value := tabs[i]], at[labels[i].value := i], toClose)
  {
    NotYetQueued(tabs, i, toClose);
    TallyFirst(labels, i, seen, toClose, tabs[i]);
    AfterFirst(tabs, labels, i, seen, at, toClose);
  }

  lemma PlanStepReplace(tabs: seq<Tab>, labels: seq<Option<string>>, i: int,
                        seen: map<string, Tab>, at: map<string, int>, toClose: seq<int>)
    requires UniqueIds(tabs) && PlanInv(tabs, labels, i, seen, at, toClose) && i < |tabs|
    requires labels[i].Some? && labels[i].value in seen && Replaces(tabs[i], seen[labels[i].value])
    ensures PlanInv(tabs, labels, i + 1, seen[labels[i].value := tabs[i]], at[labels[i].value := i],
                    toClose + [seen[labels[i].value].id])
  {
    var k := labels[i].value;
    NotYetQueued(tabs, i, toClose);
    TallyRepeat(labels, i, seen, toClose);
    BestAfterReplace(tabs, labels, i, seen, at);
    QueuedAfterReplace(tabs, labels, i, seen, at, toClose);
    DistinctAppend(toClose, seen[k].id);
    QueuedFromAppend(tabs, i, toClose, at[k]);
    assert |seen[k := tabs[i]]| == |seen|;
  }

  lemma PlanStepKeep(tabs: seq<Tab>, labels: seq<Option<string>>, i: int,
                     seen: map<string, Tab>, at: map<string, int>, toClose: seq<int>)
    requires UniqueIds(tabs) && PlanInv(tabs, labels, i, seen, at, toClose) && i < |tabs|
    requires labels[i].Some? && labels[i].value in seen && !Replaces(tabs[i], seen[labels[i].value])
    ensures PlanInv(tabs, labels, i + 1, seen, at, toClose + [tabs[i].id])
  {
    NotYetQueued(tabs, i, toClose);
    TallyRepeat(labels, i, seen, toClose);
    BestAfterKeep(tabs, labels, i, seen, at);
    QueuedAfterKeep(tabs, labels, i, seen, at, toClose);
    DistinctAppend(toClose, tabs[i].id);
    QueuedFromAppend(tabs, i, toClose, i);
  }

  /** Whether `t`, met later in the sweep, displaces the tab kept so far. */
  predicate Replaces(t: Tab, kept: Tab)
  {
    t.active || (!kept.active && t.lastAccessed > kept.lastAccessed)
  }

  /** Once every tab is met, the invariant describes the sweep's outcome. */
  lemma PlanDone(tabs: seq<Tab>, labels: seq<Option<string>>,
                 seen: map<string, Tab>, at: map<string, int>, toClose: seq<int>)
    requires PlanInv(tabs, labels, |tabs|, seen, at, toClose)
    ensures forall j :: 0 <= j < |tabs| ==> (tabs[j].id in toClose <==> labels[j].Some? && !Kept(tabs, labels, j))
  {
    forall j | 0 <= j < |tabs|
      ensures tabs[j].id in toClose <==> labels[j].Some? && !Kept(tabs, labels, j)
    {
      if labels[j].Some? {
        var m := at[labels[j].value];
        if m == j {
          assert Kept(tabs, labels, j);
        } else if Kept(tabs, labels, j) {
          assert Prefers(j, tabs[j], m, tabs[m]);
          PrefersAntisymmetric(m, tabs[m], j, tabs[j]);
        }
      }
    }
  }

  /**
   * The `for` loop of `deduplicateAllTabs`, which fills `seen` and `toClose`.
   * Every identifier is queued at most once; exactly the eligible tabs that
   * are not kept are queued; and the count is the number of eligible tabs
   * minus the number of distinct normalised URLs.
   */
  method PlanDeduplication(tabs: seq<Tab>) returns (toClose: seq<int>)
    requires UniqueIds(tabs)
    ensures Distinct(toClose)
    ensures forall j :: 0 <= j < |tabs| ==>
      (tabs[j].id in toClose <==> Labels(tabs)[j].Some? && !Kept(tabs, Labels(tabs), j))
    ensures forall x :: x in toClose ==> exists j :: 0 <= j < |tabs| && tabs[j].id == x
    ensures |toClose| == EligibleCount(Labels(tabs)) - |UrlKeys(Labels(tabs))|
  {
    ghost var labels := Labels(tabs);
    ghost var at: map<string, int> := map[];
    var seen: map<string, Tab> := map[];
    toClose := [];
    for i := 0 to |tabs|
      invariant PlanInv(tabs, labels, i, seen, at, toClose)
    {
      seen, at, toClose := PlanStep(tabs, labels, i, seen, at, toClose);
    }
    assert labels[..|tabs|] == labels;
    PlanDone(tabs, labels, seen, at, toClose);
  }

  /**
   * One turn of the sweep's loop: tab `i` is skipped when internal, becomes
   * the kept tab of its URL when it is the first or preferred, and is queued
   * otherwise (or the tab it displaces is).
   */
  method PlanStep(tabs: seq<Tab>, ghost labels: seq<Option<string>>, i: int,
                  seen: map<string, Tab>, ghost at: map<string, int>, toClose: seq<int>)
    returns (seen': map<string, Tab>, ghost at': map<string, int>, toClose': seq<int>)
    requires UniqueIds(tabs) && labels == Labels(tabs) && 0 <= i < |tabs|
    requires PlanInv(tabs, labels, i, seen, at, toClose)
    ensures PlanInv(tabs, labels, i + 1, seen', at', toClose')
  {
    var tab := tabs[i];
    LabelsAt(tabs, i);
    seen', at', toClose' := seen, at, toClose;
    if IsInternalUrl(tab.url) {
      PlanStepInternal(tabs, labels, i, seen, at, toClose);
    } else {
      var normalized := NormalizeUrl(tab.url);
      if normalized in seen {
        var existing := seen[normalized];
        if tab.active || (!existing.active && tab.lastAccessed > existing.lastAccessed) {
          PlanStepReplace(tabs, labels, i, seen, at, toClose);
          toClose' := toClose + [existing.id];
          seen' := seen[normalized := tab];
          at' := at[normalized := i];
        } else {
          PlanStepKeep(tabs, labels, i, seen, at, toClose);
          toClose' := toClose + [tab.id];
        }
      } else {
        PlanStepFirst(tabs, labels, i, seen, at, toClose);
        seen' := seen[normalized := tab];
        at' := at[normalized := i];
      }
    }
  }

  /**
   * `deduplicateAllTabs()`: closes, in one call, every eligible tab that is
   * not kept, and reports how many it closed.
   */
  method DeduplicateAllTabs(b: Browser) returns (closed: int)
    requires b.Valid()
    modifies b
    ensures b.Valid()
    ensures b.tabs == WithoutIds(old(b.tabs), Losers(old(b.tabs)))
    ensures closed == EligibleCount(Labels(old(b.tabs))) - |UrlKeys(Labels(old(b.tabs)))|
    ensures b.nextId == old(b.nextId) && b.focusedWindow == old(b.focusedWindow)
  {
    var allTabs := b.tabs;
    var toClose := PlanDeduplication(allTabs);
    var queued := set x | x in toClose;
    QueuedAreLosers(allTabs, Labels(allTabs), toClose);
    if |toClose| > 0 {
      b.Remove(queued);
    } else {
      assert queued == {};
      WithoutNothing(allTabs);
    }
    closed := |toClose|;
  }

  lemma QueuedAreLosers(tabs: seq<Tab>, labels: seq<Option<string>>, toClose: seq<int>)
    requires labels == Labels(tabs)
    requires forall j :: 0 <= j < |tabs| ==> (tabs[j].id in toClose <==> labels[j].Some? && !Kept(tabs, labels, j))
    requires forall x :: x in toClose ==> exists j :: 0 <= j < |tabs| && tabs[j].id == x
    ensures (set x | x in toClose) == Losers(tabs)
  {
    forall x | x in toClose
      ensures x in Losers(tabs)
    {
      var j :| 0 <= j < |tabs| && tabs[j].id == x;
      assert labels[j].Some? && !Kept(tabs, labels, j);
    }
  }

  lemma {:induction false} WithoutNothing(tabs: seq<Tab>)
    ensures WithoutIds(tabs, {}) == tabs
  {
    if tabs != [] {
      WithoutNothing(tabs[1..]);
      assert [tabs[0]] + tabs[1..] == tabs;
    }
  }

  /** Tab `m` is preferred to every tab with key `k` among the first `n`. */
  predicate BestIn(tabs: seq<Tab>, labels: seq<Option<string>>, n: int, k: string, m: int)
    requires |labels| == |tabs| && 0 <= m < |tabs| && n <= |tabs|
  {
    forall j :: 0 <= j < n && labels[j] == Some(k) ==> Prefers(m, tabs[m], j, tabs[j])
  }

  /**
   * Among the first `n` tabs, every key met has a tab preferred to all the
   * others with that key.
   */
  lemma {:induction false} BestOfPrefix(tabs: seq<Tab>, labels: seq<Option<string>>, n: int, k: string, j0: int)
    requires |labels| == |tabs| && 0 <= j0 < n <= |tabs| && labels[j0] == Some(k)
    ensures exists m :: 0 <= m < n && labels[m] == Some(k) && BestIn(tabs, labels, n, k, m)
  {
    var last := n - 1;
    var j1 := j0;
    if j0 == last {
      if m' :| 0 <= m' < last && labels[m'] == Some(k) {
        j1 := m';
      } else {
        assert BestIn(tabs, labels, n, k, last);
        return;
      }
    }
    BestOfPrefix(tabs, labels, last, k, j1);
    var m :| 0 <= m < last && labels[m] == Some(k) && BestIn(tabs, labels, last, k, m);
    if labels[last] == Some(k) && Replaces(tabs[last], tabs[m]) {
      BestExtendReplace(tabs, labels, n, k, m);
    } else {
      BestExtendKeep(tabs, labels, n, k, m);
    }
  }

  /** A tab that replaces the best of its group so far is the best with it. */
  lemma BestExtendReplace(tabs: seq<Tab>, labels: seq<Option<string>>, n: int, k: string, m: int)
    requires |labels| == |tabs| && 0 <= m < n - 1 && n <= |tabs|
    requires BestIn(tabs, labels, n - 1, k, m) && labels[n - 1] == Some(k) && Replaces(tabs[n - 1], tabs[m])
    ensures BestIn(tabs, labels, n, k, n - 1)
  {
    forall j | 0 <= j < n && labels[j] == Some(k)
      ensures Prefers(n - 1, tabs[n - 1], j, tabs[j])
    {
      if j < n - 1 {
        assert Prefers(m, tabs[m], j, tabs[j]);
      }
    }
  }

  /** A tab that does not replace the best of its group so far leaves it best. */
  lemma BestExtendKeep(tabs: seq<Tab>, labels: seq<Option<string>>, n: int, k: string, m: int)
    requires |labels| == |tabs| && 0 <= m < n - 1 && n <= |tabs|
    requires BestIn(tabs, labels, n - 1, k, m) && !(labels[n - 1] == Some(k) && Replaces(tabs[n - 1], tabs[m]))
    ensures BestIn(tabs, labels, n, k, m)
  {
  }

  /** Every group has a kept tab. */
  lemma KeptExists(tabs: seq<Tab>, labels: seq<Option<string>>, j: int)
    requires |labels| == |tabs| && 0 <= j < |tabs| && labels[j].Some?
    ensures exists m :: 0 <= m < |tabs| && labels[m] == labels[j] && Kept(tabs, labels, m)
  {
    BestOfPrefix(tabs, labels, |tabs|, labels[j].value, j);
  }

  /** A tab whose identifier the sweep queues is one of its losers. */
  lemma LoserAt(tabs: seq<Tab>, j: int)
    requires UniqueIds(tabs) && 0 <= j < |tabs|
    ensures tabs[j].id in Losers(tabs) <==> Labels(tabs)[j].Some? && !Kept(tabs, Labels(tabs), j)
  {
    var labels := Labels(tabs);
    if tabs[j].id in Losers(tabs) {
      var j' :| 0 <= j' < |tabs| && labels[j'].Some? && !Kept(tabs, labels, j') && tabs[j'].id == tabs[j].id;
      assert j' == j;
    }
  }

  /**
   * After the sweep, internal pages are all still open, and of the eligible
   * tabs exactly one per normalised URL is: some tab with that URL survives,
   * and two surviving tabs with the same URL are the same tab.
   */
  lemma SweepLeavesOnePerUrl(tabs: seq<Tab>)
    requires UniqueIds(tabs)
    ensures var r := WithoutIds(tabs, Losers(tabs));
      && (forall j :: 0 <= j < |tabs| && Label(tabs[j]).None? ==> tabs[j] in r)
      && (forall j :: 0 <= j < |tabs| && Label(tabs[j]).Some? ==>
            exists u :: u in r && Label(u) == Label(tabs[j]))
      && (forall u, v :: u in r && v in r && Label(u).Some? && Label(u) == Label(v) ==> u == v)
  {
    SweepKeepsInternal(tabs);
    SweepKeepsEveryUrl(tabs);
    SweepKeepsOneCopy(tabs);
  }

  /** The sweep closes no internal page. */
  lemma SweepKeepsInternal(tabs: seq<Tab>)
    requires UniqueIds(tabs)
    ensures forall j :: 0 <= j < |tabs| && Label(tabs[j]).None? ==> tabs[j] in WithoutIds(tabs, Losers(tabs))
  {
    forall j | 0 <= j < |tabs| && Label(tabs[j]).None?
      ensures tabs[j] in WithoutIds(tabs, Losers(tabs))
    {
      LabelsAt(tabs, j);
      LoserAt(tabs, j);
    }
  }

  /** Every page an eligible tab shows is still shown after the sweep. */
  lemma SweepKeepsEveryUrl(tabs: seq<Tab>)
    requires UniqueIds(tabs)
    ensures forall j :: 0 <= j < |tabs| && Label(tabs[j]).Some? ==>
      exists u :: u in WithoutIds(tabs, Losers(tabs)) && Label(u) == Label(tabs[j])
  {
    var labels := Labels(tabs);
    var r := WithoutIds(tabs, Losers(tabs));
    forall j | 0 <= j < |tabs| && Label(tabs[j]).Some?
      ensures exists u :: u in r && Label(u) == Label(tabs[j])
    {
      LabelsAt(tabs, j);
      KeptExists(tabs, labels, j);
      var m :| 0 <= m < |tabs| && labels[m] == labels[j] && Kept(tabs, labels, m);
      LabelsAt(tabs, m);
      LoserAt(tabs, m);
      assert tabs[m] in r;
    }
  }

  /** After the sweep no two eligible tabs show the same page. */
  lemma SweepKeepsOneCopy(tabs: seq<Tab>)
    requires UniqueIds(tabs)
    ensures var r := WithoutIds(tabs, Losers(tabs));
      forall u, v :: u in r && v in r && Label(u).Some? && Label(u) == Label(v) ==> u == v
  {
    var labels := Labels(tabs);
    var r := WithoutIds(tabs, Losers(tabs));
    forall u, v | u in r && v in r && Label(u).Some? && Label(u) == Label(v)
      ensures u == v
    {
      var a :| 0 <= a < |tabs| && tabs[a] == u;
      var c :| 0 <= c < |tabs| && tabs[c] == v;
      LabelsAt(tabs, a);
      LabelsAt(tabs, c);
      LoserAt(tabs, a);
      LoserAt(tabs, c);
      KeptUnique(tabs, labels, a, c);
    }
  }

  /**
   * Two tabs on one page, the first of them active, and a third on another
   * page: the sweep closes only the inactive copy, whatever the times.
   */
  lemma SweepExample(a: Tab, b: Tab, c: Tab)
    requires a.id != b.id && b.id != c.id && a.id != c.id
    requires a.url == b.url && !IsInternalUrl(a.url) && !IsInternalUrl(c.url)
    requires NormalizeUrl(a.url) != NormalizeUrl(c.url)
    requires a.active && !b.active
    ensures Losers([a, b, c]) == {b.id}
  {
    var tabs := [a, b, c];
    var labels := Labels(tabs);
    LabelsAt(tabs, 0);
    LabelsAt(tabs, 1);
    LabelsAt(tabs, 2);
    assert labels[0].Some? && labels[1] == labels[0] && labels[2].Some? && labels[2] != labels[0];
    ExampleKept(tabs, labels);
    ExampleLosers(tabs, labels);
  }

  lemma ExampleLosers(tabs: seq<Tab>, labels: seq<Option<string>>)
    requires |tabs| == 3 && |labels| == 3
    requires labels[1].Some? && Kept(tabs, labels, 0) && !Kept(tabs, labels, 1) && Kept(tabs, labels, 2)
    ensures LosersOf(tabs, labels) == {tabs[1].id}
  {
    forall x | x in LosersOf(tabs, labels)
      ensures x == tabs[1].id
    {
      var j :| 0 <= j < 3 && labels[j].Some? && !Kept(tabs, labels, j) && tabs[j].id == x;
    }
  }

  lemma ExampleKept(tabs: seq<Tab>, labels: seq<Option<string>>)
    requires |tabs| == 3 && |labels| == 3
    requires labels[0].Some? && labels[1] == labels[0] && labels[2].Some? && labels[2] != labels[0]
    requires tabs[0].active && !tabs[1].active
    ensures Kept(tabs, labels, 0) && !Kept(tabs, labels, 1) && Kept(tabs, labels, 2)
  {
    assert !Prefers(1, tabs[1], 0, tabs[0]);
  }
}
