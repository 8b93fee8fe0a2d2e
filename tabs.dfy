/** The browser's tab and window records as the extension sees them, the
    JavaScript truthiness tests it applies to their fields, the readiness
    test of the load listener and the final validation of a tab and its
    window (scripts/util.ts). */
module Tabs {
  import opened Promises

  datatype TabStatus = Unloaded | Loading | Complete

  /** A snapshot of a tab: `id`, `url` and `status` are optional fields. */
  datatype Tab = Tab(id: Option<int>, windowId: int, url: Option<string>, status: Option<TabStatus>, active: bool)

  /** A snapshot of a window. */
  datatype Window = Window(id: Option<int>, focused: bool)

  /** The `changeInfo` of an `onUpdated` event. */
  datatype ChangeInfo = ChangeInfo(newStatus: Option<TabStatus>)

  /** One `onUpdated` event: the id it is about, what changed, the tab. */
  datatype TabUpdate = TabUpdate(tabId: int, change: ChangeInfo, tab: Tab)

  /** JavaScript truthiness of an optional numeric id: `0` counts as missing. */
  predicate IsSet(id: Option<int>)
  {
    id.Some? && id.value != 0
  }

  /** JavaScript truthiness of an optional string: `""` counts as missing. */
  predicate IsNonEmpty(s: Option<string>)
  {
    s.Some? && s.value != ""
  }

  const BlankPage := "about:blank"

  /** The load listener's test: the event is about the awaited tab, either
      the change or the tab reports "complete", and the tab has a real url. */
  predicate IsTabReady(tabId: int, u: TabUpdate)
    // a ready event is about the awaited tab and shows a real page
    ensures IsTabReady(tabId, u) ==> u.tabId == tabId && u.tab.url.Some? && u.tab.url.value !in {"", BlankPage}
    ensures IsTabReady(tabId, u) ==> u.change.newStatus == Some(Complete) || u.tab.status == Some(Complete)
  {
    var isComplete := u.change.newStatus == Some(Complete) || u.tab.status == Some(Complete);
    var hasUrl := IsNonEmpty(u.tab.url) && u.tab.url.value != BlankPage;
    u.tabId == tabId && isComplete && hasUrl
  }

  /** The final validation of a (tab, window) pair, as the chain of early
      `return false` checks it is written as. */
  function ValidateTabAndWindow(url: string, tab: Tab, window: Window): (ok: bool)
    // true exactly when all six conditions hold; any one failing makes it false
    ensures ok <==>
      && IsSet(tab.id) && IsSet(window.id)
      && tab.windowId == window.id.value
      && tab.status == Some(Complete)
      && tab.url == Some(url)
      && tab.active
      && window.focused
  {
    if !IsSet(tab.id) || !IsSet(window.id) then false
    else if tab.windowId != window.id.value then false
    else if tab.status != Some(Complete) then false
    else if tab.url != Some(url) then false
    else if !tab.active then false
    else if !window.focused then false
    else true
  }

  /** A listener event with a "complete" change and a tab still reporting
      "loading" passes the readiness test but never the final validation. */
  lemma ReadyIsNotValid(url: string, tabId: int, u: TabUpdate, window: Window)
    requires IsTabReady(tabId, u) && u.tab.status == Some(Loading)
    ensures u.change.newStatus == Some(Complete)
    ensures !ValidateTabAndWindow(url, u.tab, window)
  {
  }
}
