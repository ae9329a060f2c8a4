/**
 * The extension's settings as `getSettings` returns them: the stored values,
 * with the defaults filled in for keys that were never stored.
 */
module Config {
  datatype Settings = Settings(dedup: bool, githubSplit: bool, githubHosts: seq<string>)

  /** `DEFAULT_SETTINGS`. */
  const DefaultSettings := Settings(true, true, ["github.com"])
}

/**
 * The browser's tab table as the agent sees it through `chrome.tabs` and
 * `chrome.windows`. The browser is an external collaborator: this module only
 * states the effect of each call the agent makes.
 */
module Browsers {

  /** The attributes of a browser tab the agent reads. A missing URL is "". */
  datatype Tab = Tab(
    id: int,
    url: string,
    index: int,
    active: bool,
    lastAccessed: int,
    windowId: int)

  predicate UniqueIds(tabs: seq<Tab>)
  {
    forall i, j :: 0 <= i < j < |tabs| ==> tabs[i].id != tabs[j].id
  }

  predicate HasId(tabs: seq<Tab>, id: int)
  {
    exists i :: 0 <= i < |tabs| && tabs[i].id == id
  }

  /** The table after `chrome.tabs.remove(ids)`: the other tabs, in their order. */
  function WithoutIds(tabs: seq<Tab>, ids: set<int>): (r: seq<Tab>)
    ensures forall t :: t in r <==> t in tabs && t.id !in ids
    ensures |r| <= |tabs|
  {
    if tabs == [] then []
    else
      var rest := WithoutIds(tabs[1..], ids);
      if tabs[0].id in ids then rest else [tabs[0]] + rest
  }

  lemma {:induction false} WithoutIdsUnique(tabs: seq<Tab>, ids: set<int>)
    requires UniqueIds(tabs)
    ensures UniqueIds(WithoutIds(tabs, ids))
  {
    if tabs != [] {
      WithoutIdsUnique(tabs[1..], ids);
      var rest := WithoutIds(tabs[1..], ids);
      assert forall t :: t in rest ==> t in tabs[1..];
      assert forall t :: t in tabs[1..] ==> t.id != tabs[0].id;
    }
  }

  /** The window of the tab with identifier `id`, if it is open. */
  function WindowOf(tabs: seq<Tab>, id: int): (r: int)
    requires HasId(tabs, id)
    ensures exists i :: 0 <= i < |tabs| && tabs[i].id == id && tabs[i].windowId == r
  {
    if tabs[0].id == id then tabs[0].windowId else WindowOf(tabs[1..], id)
  }

  /**
   * The table after `chrome.tabs.update(id, {active: true})`: that tab becomes
   * the active tab of its window; no other attribute changes.
   */
  function Activated(tabs: seq<Tab>, id: int): (r: seq<Tab>)
    ensures |r| == |tabs|
    ensures forall i :: 0 <= i < |tabs| ==> r[i] == tabs[i].(active := r[i].active)
    ensures forall i :: 0 <= i < |tabs| && tabs[i].id == id ==> r[i].active
  {
    if !HasId(tabs, id) then tabs
    else
      var w := WindowOf(tabs, id);
      seq(|tabs|, i requires 0 <= i < |tabs| =>
        if tabs[i].id == id then tabs[i].(active := true)
        else if tabs[i].windowId == w then tabs[i].(active := false)
        else tabs[i])
  }

  lemma ActivatedKeepsIds(tabs: seq<Tab>, id: int)
    requires UniqueIds(tabs)
    ensures UniqueIds(Activated(tabs, id))
  {
    var r := Activated(tabs, id);
    assert forall i :: 0 <= i < |tabs| ==> r[i].id == tabs[i].id;
  }

  class Browser {
    var tabs: seq<Tab>
    /** The identifier the next created tab receives. */
    var nextId: int
    /** The window `chrome.tabs.create` opens tabs in (the last focused one). */
    var focusedWindow: int

    ghost predicate Valid()
      reads this
    {
      && UniqueIds(tabs)
      && forall i :: 0 <= i < |tabs| ==> tabs[i].id < nextId
    }

    constructor (initial: seq<Tab>, firstFreeId: int, window: int)
      requires UniqueIds(initial)
      requires forall i :: 0 <= i < |initial| ==> initial[i].id < firstFreeId
      ensures Valid()
      ensures tabs == initial && nextId == firstFreeId && focusedWindow == window
    {
      tabs := initial;
      nextId := firstFreeId;
      focusedWindow := window;
    }

    /** `chrome.tabs.update(id, {active: true})` */
    method Activate(id: int)
      requires Valid()
      modifies this
      ensures Valid()
      ensures tabs == Activated(old(tabs), id)
      ensures nextId == old(nextId) && focusedWindow == old(focusedWindow)
    {
      ActivatedKeepsIds(tabs, id);
      tabs := Activated(tabs, id);
    }

    /** `chrome.windows.update(windowId, {focused: true})` */
    method FocusWindow(windowId: int)
      requires Valid()
      modifies this
      ensures Valid()
      ensures focusedWindow == windowId
      ensures tabs == old(tabs) && nextId == old(nextId)
    {
      focusedWindow := windowId;
    }

    /** `chrome.tabs.remove(ids)`; identifiers of tabs already gone are ignored. */
    method Remove(ids: set<int>)
      requires Valid()
      modifies this
      ensures Valid()
      ensures tabs == WithoutIds(old(tabs), ids)
      ensures nextId == old(nextId) && focusedWindow == old(focusedWindow)
    {
      WithoutIdsUnique(tabs, ids);
      tabs := WithoutIds(tabs, ids);
    }

    /**
     * `chrome.tabs.create({url, index, active: false})`: a fresh tab in the
     * focused window, added at the end of the table.
     */
    method CreateInactive(url: string, index: int, now: int) returns (t: Tab)
      requires Valid()
      modifies this
      ensures Valid()
      ensures t == Tab(old(nextId), url, index, false, now, old(focusedWindow))
      ensures !HasId(old(tabs), t.id)
      ensures tabs == old(tabs) + [t]
      ensures nextId == old(nextId) + 1 && focusedWindow == old(focusedWindow)
    {
      t := Tab(nextId, url, index, false, now, focusedWindow);
      tabs := tabs + [t];
      nextId := nextId + 1;
    }
  }
}
