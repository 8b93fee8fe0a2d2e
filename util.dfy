/** The tab and window orchestration of scripts/util.ts: each helper wraps
    one browser call in `safe` and turns its outcome into a value or null;
    `findOrCreateMainTab` chains them and validates what it ends up with.
    Every method reports, as the ghost `issued`, the browser calls it made
    (with their outcomes), in order. */
module Util {
  import opened Promises
  import opened Tabs
  import opened Chrome

  /** `findTabs` on a settled query: the tabs when the query fulfilled with
      at least one tab, otherwise null. */
  function FoundTabs(reply: Settled<seq<Tab>>): (r: Option<seq<Tab>>)
    // never an empty list: an empty result is reported as null
    ensures r.Some? ==> |r.value| > 0
    ensures r.Some? <==> reply.Fulfilled? && |reply.value| > 0
    ensures r.Some? ==> r.value == reply.value
  {
    var (queryErr, tabs) := Safe(reply);
    if queryErr.Some? || tabs.None? then None
    else if |tabs.value| == 0 then None
    else Some(tabs.value)
  }

  /** The first tab `findTabs` reports, if it reports any. */
  function FirstFound(reply: Settled<seq<Tab>>): Option<Tab>
  {
    var found := FoundTabs(reply);
    if found.Some? then Some(found.value[0]) else None
  }

  /** `findTabs(queryInfo)`. */
  method FindTabs(b: Browser, pattern: string) returns (r: Option<seq<Tab>>, ghost issued: seq<HostCall>)
    modifies b`calls
    ensures b.calls == old(b.calls) + issued
    ensures |issued| == 1 && issued[0].Query? && issued[0].pattern == pattern
    ensures r == FoundTabs(issued[0].tabsReply)
    ensures r.Some? ==> forall i :: 0 <= i < |r.value| ==> b.Lists(r.value[i])
    ensures b.tabs == TabsAfter(old(b.tabs), issued)
  {
    var reply := b.QueryTabs(pattern);
    issued := [Query(pattern, reply)];
    r := FoundTabs(reply);
  }

  /** `refreshTab(tabId)`: a reload that bypasses the cache. */
  method RefreshTab(b: Browser, tabId: int) returns (ok: bool, ghost issued: seq<HostCall>)
    requires b.Valid()
    modifies b`tabs, b`calls
    ensures b.Valid()
    ensures b.calls == old(b.calls) + issued
    ensures |issued| == 1 && issued[0].Reload? && issued[0].reloadId == tabId && issued[0].bypassCache
    ensures ok <==> issued[0].reloaded.Fulfilled?
    ensures ok ==> tabId in old(b.tabs) && b.tabs == old(b.tabs)[tabId := old(b.tabs)[tabId].(status := Some(Loading))]
    ensures !ok ==> b.tabs == old(b.tabs)
    ensures b.tabs == TabsAfter(old(b.tabs), issued)
  {
    var reloaded := b.ReloadTab(tabId, true);
    issued := [Reload(tabId, true, reloaded)];
    var (reloadErr, _) := Safe(reloaded);
    ok := reloadErr.None?;
  }

  /** `createTab(url)`: the new tab, unless creation failed or the tab
      reports no (or a zero) id. */
  method CreateTab(b: Browser, url: string) returns (r: Option<Tab>, ghost issued: seq<HostCall>)
    requires b.Valid()
    modifies b`tabs, b`nextTabId, b`calls
    ensures b.Valid()
    ensures b.calls == old(b.calls) + issued
    ensures |issued| == 1 && issued[0].Create? && issued[0].createUrl == url
    ensures r.Some? <==> issued[0].createdReply.Fulfilled? && IsSet(issued[0].createdReply.value.id)
    ensures r.Some? ==> r.value == issued[0].createdReply.value && b.Holds(r.value)
    ensures issued[0].createdReply.Fulfilled? ==> b.tabs == old(b.tabs)[old(b.nextTabId) := issued[0].createdReply.value]
    ensures issued[0].createdReply.Rejected? ==> b.tabs == old(b.tabs)
    ensures b.tabs == TabsAfter(old(b.tabs), issued)
  {
    var reply := b.CreateTab(url);
    issued := [Create(url, reply)];
    var (newTabError, newTab) := Safe(reply);
    if newTabError.Some? || newTab.None? || !IsSet(newTab.value.id) {
      r := None;
    } else {
      r := newTab;
    }
  }

  /** `confirmTabLoadingComplete(initTab)`: the tab itself when it already
      reports "complete", otherwise the tab of the first qualifying load
      event, or null on a timeout or a tab without an id. */
  method ConfirmTabLoadingComplete(b: Browser, initTab: Tab) returns (r: Option<Tab>, ghost issued: seq<HostCall>)
    requires b.Valid()
    modifies b`tabs, b`calls
    ensures b.Valid()
    ensures b.calls == old(b.calls) + issued
    ensures !IsSet(initTab.id) ==> r.None? && issued == []
    // no wait for a tab that is already complete
    ensures IsSet(initTab.id) && initTab.status == Some(Complete) ==> r == Some(initTab) && issued == []
    ensures IsSet(initTab.id) && initTab.status != Some(Complete) ==>
      && |issued| == 1 && issued[0].AwaitLoad? && issued[0].awaitId == initTab.id.value
      && (r.Some? <==> issued[0].updateReply.Fulfilled?)
      && (r.Some? ==> r.value == issued[0].updateReply.value.tab && IsTabReady(initTab.id.value, issued[0].updateReply.value))
    ensures r.Some? ==> r.value.id == initTab.id
    ensures r.Some? && old(b.Holds(initTab)) ==> b.Holds(r.value)
    ensures issued == [] || issued[0].updateReply.Rejected? ==> b.tabs == old(b.tabs)
    ensures issued != [] && issued[0].updateReply.Fulfilled? ==>
      b.tabs == old(b.tabs)[initTab.id.value := issued[0].updateReply.value.tab]
    ensures b.tabs == TabsAfter(old(b.tabs), issued)
  {
    if !IsSet(initTab.id) {
      return None, [];
    }
    if initTab.status != Some(Complete) {
      var reply := b.AwaitTabUpdate(initTab.id.value);
      issued := [AwaitLoad(initTab.id.value, reply)];
      var (err, update) := Safe(reply);
      if err.Some? || update.None? {
        r := None;
      } else {
        r := Some(update.value.tab);
      }
      return;
    }
    r, issued := Some(initTab), [];
  }

  /** `makeActiveTab(initTab)`: the tab itself when it is already active,
      otherwise the updated tab, provided the update reports it active. */
  method MakeActiveTab(b: Browser, initTab: Tab) returns (r: Option<Tab>, ghost issued: seq<HostCall>)
    requires b.Valid()
    modifies b`tabs, b`calls
    ensures b.Valid()
    ensures b.calls == old(b.calls) + issued
    ensures !IsSet(initTab.id) ==> r.None? && issued == []
    // no update for a tab that is already active; it comes back unchanged
    ensures IsSet(initTab.id) && initTab.active ==> r == Some(initTab) && issued == []
    ensures IsSet(initTab.id) && !initTab.active ==>
      && |issued| == 1 && issued[0].Activate? && issued[0].activateId == initTab.id.value
      && (r.Some? <==> issued[0].activatedReply.Fulfilled? && issued[0].activatedReply.value.active)
      && (r.Some? ==> r.value == issued[0].activatedReply.value)
    ensures r.Some? ==> r.value.active
    ensures r.Some? && old(b.Holds(initTab)) ==> b.Holds(r.value) && r.value == initTab.(active := true)
    ensures issued == [] || issued[0].activatedReply.Rejected? ==> b.tabs == old(b.tabs)
    // a fulfilled update is stored even when it does not report the tab active
    ensures issued != [] && issued[0].activatedReply.Fulfilled? ==>
      b.tabs == old(b.tabs)[initTab.id.value := issued[0].activatedReply.value]
    ensures b.tabs == TabsAfter(old(b.tabs), issued)
  {
    if !IsSet(initTab.id) {
      return None, [];
    }
    if !initTab.active {
      var reply := b.ActivateTab(initTab.id.value);
      issued := [Activate(initTab.id.value, reply)];
      var (tabUpdError, tabUpdated) := Safe(reply);
      if tabUpdError.Some? || tabUpdated.None? || !tabUpdated.value.active {
        r := None;
      } else {
        r := tabUpdated;
      }
      return;
    }
    r, issued := Some(initTab), [];
  }

  /** `focusWindow(initTab)`: the tab's window after asking for focus,
      provided the browser reports it focused. */
  method FocusWindow(b: Browser, initTab: Tab) returns (r: Option<Window>, ghost issued: seq<HostCall>)
    modifies b`windows, b`calls
    ensures b.calls == old(b.calls) + issued
    // the update is always issued
    ensures |issued| == 1 && issued[0].Focus? && issued[0].windowId == initTab.windowId
    ensures r.Some? <==> issued[0].windowReply.Fulfilled? && issued[0].windowReply.value.focused
    ensures r.Some? ==> r.value == issued[0].windowReply.value && r.value.focused
    ensures r.Some? ==> initTab.windowId in b.windows && b.windows[initTab.windowId] == r.value
    // a fulfilled update is stored even when it does not report the window focused
    ensures issued[0].windowReply.Fulfilled? ==> b.windows == old(b.windows)[initTab.windowId := issued[0].windowReply.value]
    ensures issued[0].windowReply.Rejected? ==> b.windows == old(b.windows)
    ensures b.windows == WindowsAfter(old(b.windows), issued)
  {
    var reply := b.FocusWindow(initTab.windowId);
    issued := [Focus(initTab.windowId, reply)];
    var (windUpdError, windowUpdated) := Safe(reply);
    if windUpdError.Some? || windowUpdated.None? || !windowUpdated.value.focused {
      r := None;
    } else {
      r := windowUpdated;
    }
  }

  /** A call about tabs and windows (none of capture, download or storage). */
  predicate IsTabCall(c: HostCall)
  {
    c.Query? || c.Reload? || c.Create? || c.AwaitLoad? || c.Activate? || c.Focus?
  }

  /** The calls of the first half of `findOrCreateMainTab(url)` and the tab
      it settles on: the query; then, for a first tab with an id, a reload
      and, after a successful one, the query again, whose first tab is the
      target; for a first tab without an id, a new tab as the target. A
      failed step ends the trace without a target. */
  ghost predicate TargetTrace(url: string, calls: seq<HostCall>, target: Option<Tab>)
  {
    && |calls| >= 1 && calls[0].Query? && calls[0].pattern == url
    && (var first := FirstFound(calls[0].tabsReply);
        && (first.None? ==> |calls| == 1 && target.None?)
        && (first.Some? && IsSet(first.value.id) ==>
             && |calls| >= 2 && calls[1].Reload? && calls[1].reloadId == first.value.id.value && calls[1].bypassCache
             && (calls[1].reloaded.Rejected? ==> |calls| == 2 && target.None?)
             && (calls[1].reloaded.Fulfilled? ==>
                  && |calls| == 3 && calls[2].Query? && calls[2].pattern == url
                  && (var again := FirstFound(calls[2].tabsReply);
                      && (target.Some? <==> again.Some? && IsSet(again.value.id))
                      && (target.Some? ==> target == again))))
        && (first.Some? && !IsSet(first.value.id) ==>
             && |calls| == 2 && calls[1].Create? && calls[1].createUrl == url
             && (var created := calls[1].createdReply;
                 && (target.Some? <==> created.Fulfilled? && IsSet(created.value.id))
                 && (target.Some? ==> target.value == created.value))))
  }

  /** The calls of the second half of `findOrCreateMainTab(url)` for the
      target `t`, and its result: `confirmTabLoadingComplete` (a wait unless
      `t` is already complete), then `ActivateTrace` on the loaded tab;
      a missing id or a timeout ends it with null. */
  ghost predicate PrepareTrace(url: string, t: Tab, calls: seq<HostCall>, r: Option<(Tab, Window)>)
  {
    if !IsSet(t.id) then calls == [] && r.None?
    else if t.status == Some(Complete) then ActivateTrace(url, t, calls, r)
    else
      && |calls| >= 1 && calls[0].AwaitLoad? && calls[0].awaitId == t.id.value
      && (calls[0].updateReply.Rejected? ==> |calls| == 1 && r.None?)
      && (calls[0].updateReply.Fulfilled? ==> ActivateTrace(url, calls[0].updateReply.value.tab, calls[1..], r))
  }

  /** `makeActiveTab` on the loaded tab `t` (an update unless `t` is
      already active), then `FocusTrace` on the active tab; a missing id,
      a failed update or one that does not report the tab active ends it
      with null. */
  ghost predicate ActivateTrace(url: string, t: Tab, calls: seq<HostCall>, r: Option<(Tab, Window)>)
  {
    if !IsSet(t.id) then calls == [] && r.None?
    else if t.active then FocusTrace(url, t, calls, r)
    else
      && |calls| >= 1 && calls[0].Activate? && calls[0].activateId == t.id.value
      && (var reply := calls[0].activatedReply;
          && (reply.Fulfilled? && reply.value.active ==> FocusTrace(url, reply.value, calls[1..], r))
          && (!(reply.Fulfilled? && reply.value.active) ==> |calls| == 1 && r.None?))
  }

  /** `focusWindow` on the active tab `t` and the final validation: the
      result is the tab and its focused window exactly when the update
      reports the window focused and the pair validates. */
  ghost predicate FocusTrace(url: string, t: Tab, calls: seq<HostCall>, r: Option<(Tab, Window)>)
  {
    && |calls| == 1 && calls[0].Focus? && calls[0].windowId == t.windowId
    && (var reply := calls[0].windowReply;
        && (r.Some? <==> reply.Fulfilled? && reply.value.focused && ValidateTabAndWindow(url, t, reply.value))
        && (r.Some? ==> r.value == (t, reply.value)))
  }

  /** The calls of `findOrCreateMainTab(url)` and its result: `TargetTrace`
      followed, when it settles on a target, by `PrepareTrace` for it. */
  ghost predicate MainTabTrace(url: string, calls: seq<HostCall>, r: Option<(Tab, Window)>)
  {
    && |calls| >= 1 && calls[0].Query? && calls[0].pattern == url
    && (var first := FirstFound(calls[0].tabsReply);
        && (first.None? ==> |calls| == 1 && r.None?)
        && (first.Some? && IsSet(first.value.id) ==>
             && |calls| >= 2 && calls[1].Reload? && calls[1].reloadId == first.value.id.value && calls[1].bypassCache
             && (calls[1].reloaded.Rejected? ==> |calls| == 2 && r.None?)
             && (calls[1].reloaded.Fulfilled? ==>
                  && |calls| >= 3 && calls[2].Query? && calls[2].pattern == url
                  && (var again := FirstFound(calls[2].tabsReply);
                      && (again.Some? && IsSet(again.value.id) ==> PrepareTrace(url, again.value, calls[3..], r))
                      && (!(again.Some? && IsSet(again.value.id)) ==> |calls| == 3 && r.None?))))
        && (first.Some? && !IsSet(first.value.id) ==>
             && |calls| >= 2 && calls[1].Create? && calls[1].createUrl == url
             && (var created := calls[1].createdReply;
                 && (created.Fulfilled? && IsSet(created.value.id) ==> PrepareTrace(url, created.value, calls[2..], r))
                 && (!(created.Fulfilled? && IsSet(created.value.id)) ==> |calls| == 2 && r.None?))))
  }

  /** The two halves make up the whole: a target trace followed by the
      preparation of its target (or by nothing, without a target) is a
      trace of `findOrCreateMainTab`. */
  lemma {:induction false} MainTabTraceOfHalves(url: string, found: seq<HostCall>, target: Option<Tab>, prepared: seq<HostCall>, r: Option<(Tab, Window)>)
    requires TargetTrace(url, found, target)
    requires target.None? ==> prepared == [] && r.None?
    requires target.Some? ==> PrepareTrace(url, target.value, prepared, r)
    ensures MainTabTrace(url, found + prepared, r)
  {
    var calls := found + prepared;
    assert calls[..|found|] == found;
    assert calls[|found|..] == prepared;
    if target.Some? {
      assert IsSet(target.value.id) by {
        var first := FirstFound(found[0].tabsReply);
        assert first.Some?;
      }
    }
  }

  /** A trace of `findOrCreateMainTab` determines its result. */
  lemma MainTabTraceDetermines(url: string, calls: seq<HostCall>, r1: Option<(Tab, Window)>, r2: Option<(Tab, Window)>)
    requires MainTabTrace(url, calls, r1) && MainTabTrace(url, calls, r2)
    ensures r1 == r2
  {
  }

  /** Every result a trace of `findOrCreateMainTab` admits is validated. */
  lemma MainTabTraceValid(url: string, calls: seq<HostCall>, r: Option<(Tab, Window)>)
    requires MainTabTrace(url, calls, r) && r.Some?
    ensures ValidateTabAndWindow(url, r.value.0, r.value.1)
  {
  }

  /** The first half of `findOrCreateMainTab`: the first tab found for
      `url`, reloaded and found again, or a new tab when the first tab
      found has no id. */
  method FindTargetTab(b: Browser, url: string) returns (target: Option<Tab>, ghost issued: seq<HostCall>)
    requires b.Valid()
    modifies b`tabs, b`nextTabId, b`calls
    ensures b.Valid()
    ensures b.calls == old(b.calls) + issued
    ensures target.Some? ==> IsSet(target.value.id) && b.Holds(target.value)
    ensures TargetTrace(url, issued, target)
    ensures forall i :: 0 <= i < |issued| ==> IsTabCall(issued[i]) && !issued[i].AwaitLoad? && !issued[i].Activate? && !issued[i].Focus?
    ensures b.tabs == TabsAfter(old(b.tabs), issued)
  {
    var tabs, q0 := FindTabs(b, url);
    issued := q0;
    if tabs.None? {
      return None, issued;
    }
    var targetTab := tabs.value[0];
    if IsSet(targetTab.id) {
      var refreshed, q1 := RefreshTab(b, targetTab.id.value);
      TabsAfterAppend(old(b.tabs), issued, q1);
      issued := issued + q1;
      if !refreshed {
        return None, issued;
      }
      var tabsAgain, q2 := FindTabs(b, url);
      TabsAfterAppend(old(b.tabs), issued, q2);
      issued := issued + q2;
      if tabsAgain.None? || !IsSet(tabsAgain.value[0].id) {
        return None, issued;
      }
      target := Some(tabsAgain.value[0]);
    } else {
      var newTab, q1 := CreateTab(b, url);
      TabsAfterAppend(old(b.tabs), issued, q1);
      issued := issued + q1;
      if newTab.None? || !IsSet(newTab.value.id) {
        return None, issued;
      }
      target := newTab;
    }
  }

  /** The second half of `findOrCreateMainTab`: wait for the tab to load,
      then activate it and focus its window. */
  method PrepareTab(b: Browser, url: string, targetTab: Tab) returns (r: Option<(Tab, Window)>, ghost issued: seq<HostCall>)
    requires b.Valid() && b.Holds(targetTab)
    modifies b`tabs, b`windows, b`calls
    ensures b.Valid()
    ensures b.calls == old(b.calls) + issued
    ensures PrepareTrace(url, targetTab, issued, r)
    ensures r.Some? ==> ValidateTabAndWindow(url, r.value.0, r.value.1)
    ensures r.Some? ==> b.Holds(r.value.0) && r.value.0.windowId in b.windows && b.windows[r.value.0.windowId] == r.value.1
    ensures forall i :: 0 <= i < |issued| ==> issued[i].AwaitLoad? || issued[i].Activate? || issued[i].Focus?
    // the tabs and windows after each call, and for a success the one window it focused
    ensures b.tabs == TabsAfter(old(b.tabs), issued) && b.windows == WindowsAfter(old(b.windows), issued)
    ensures r.Some? ==> b.windows == old(b.windows)[r.value.0.windowId := r.value.1]
  {
    var loaded, q3 := ConfirmTabLoadingComplete(b, targetTab);
    WindowsAfterNoFocus(old(b.windows), q3);
    if loaded.None? {
      return None, q3;
    }
    ghost var q';
    r, q' := ActivateAndFocus(b, url, loaded.value);
    TabsAfterAppend(old(b.tabs), q3, q');
    WindowsAfterAppend(old(b.windows), q3, q');
    issued := q3 + q';
    assert issued[|q3|..] == q';
  }

  /** The end of `findOrCreateMainTab` for the loaded tab: make it active,
      focus its window and validate the pair. */
  method ActivateAndFocus(b: Browser, url: string, loaded: Tab) returns (r: Option<(Tab, Window)>, ghost issued: seq<HostCall>)
    requires b.Valid() && b.Holds(loaded)
    modifies b`tabs, b`windows, b`calls
    ensures b.Valid()
    ensures b.calls == old(b.calls) + issued
    ensures ActivateTrace(url, loaded, issued, r)
    ensures r.Some? ==> ValidateTabAndWindow(url, r.value.0, r.value.1)
    ensures r.Some? ==> b.Holds(r.value.0) && r.value.0.windowId in b.windows && b.windows[r.value.0.windowId] == r.value.1
    ensures forall i :: 0 <= i < |issued| ==> issued[i].Activate? || issued[i].Focus?
    ensures b.tabs == TabsAfter(old(b.tabs), issued) && b.windows == WindowsAfter(old(b.windows), issued)
    ensures r.Some? ==> b.windows == old(b.windows)[r.value.0.windowId := r.value.1]
  {
    var activated, q4 := MakeActiveTab(b, loaded);
    WindowsAfterNoFocus(old(b.windows), q4);
    if activated.None? {
      return None, q4;
    }
    var tab := activated.value;
    var window, q5 := FocusWindow(b, tab);
    TabsAfterAppend(old(b.tabs), q4, q5);
    WindowsAfterAppend(old(b.windows), q4, q5);
    r := if window.None? || !ValidateTabAndWindow(url, tab, window.value) then None else Some((tab, window.value));
    issued := q4 + q5;
    assert q4 == [] || issued[1..] == q5;
  }

  /** The kinds of call `findOrCreateMainTab` makes, from those of its two
      halves: only a first tab without an id leads to a new tab, only the
      first tab found is reloaded, and only the url is queried, at most
      twice. */
  lemma MainTabCallKinds(url: string, q: seq<HostCall>, target: Option<Tab>, q': seq<HostCall>)
    requires TargetTrace(url, q, target)
    requires forall i :: 0 <= i < |q| ==> IsTabCall(q[i]) && !q[i].AwaitLoad? && !q[i].Activate? && !q[i].Focus?
    requires forall i :: 0 <= i < |q'| ==> q'[i].AwaitLoad? || q'[i].Activate? || q'[i].Focus?
    ensures var issued := q + q';
      && (forall i :: 0 <= i < |issued| && issued[i].Create? ==>
           i == 1 && issued[i].createUrl == url && FirstFound(issued[0].tabsReply).Some? && !IsSet(FirstFound(issued[0].tabsReply).value.id))
      && (forall i :: 0 <= i < |issued| && issued[i].Reload? ==> i == 1)
      && (forall i :: 0 <= i < |issued| && issued[i].Query? ==> issued[i].pattern == url && i <= 2)
      && (forall i :: 0 <= i < |issued| ==> IsTabCall(issued[i]))
  {
    var issued := q + q';
    forall i | 0 <= i < |issued|
      ensures issued[i].Create? ==>
        i == 1 && issued[i].createUrl == url && FirstFound(issued[0].tabsReply).Some? && !IsSet(FirstFound(issued[0].tabsReply).value.id)
      ensures issued[i].Reload? ==> i == 1
      ensures issued[i].Query? ==> issued[i].pattern == url && i <= 2
      ensures IsTabCall(issued[i])
    {
      if i < |q| {
        assert issued[i] == q[i];
      } else {
        assert issued[i] == q'[i - |q|];
      }
    }
  }

  /** `findOrCreateMainTab(url)`: the tab showing `url` (reloaded and
      found again, or newly created), loaded, active, in a focused window,
      or null as soon as a step fails. */
  method FindOrCreateMainTab(b: Browser, url: string) returns (r: Option<(Tab, Window)>, ghost issued: seq<HostCall>)
    requires b.Valid()
    modifies b`tabs, b`windows, b`nextTabId, b`calls
    ensures b.Valid()
    ensures b.calls == old(b.calls) + issued
    ensures b.session == old(b.session)
    // the calls, in order, each failed step ending them with null
    ensures MainTabTrace(url, issued, r)
    // every success is validated, and is the browser's state of the pair
    ensures r.Some? ==> ValidateTabAndWindow(url, r.value.0, r.value.1)
    ensures r.Some? ==> b.Holds(r.value.0) && r.value.0.windowId in b.windows && b.windows[r.value.0.windowId] == r.value.1
    // only a first tab without an id leads to a new tab, and nothing else is created or reloaded
    ensures forall i :: 0 <= i < |issued| && issued[i].Create? ==>
      i == 1 && issued[i].createUrl == url && FirstFound(issued[0].tabsReply).Some? && !IsSet(FirstFound(issued[0].tabsReply).value.id)
    ensures forall i :: 0 <= i < |issued| && issued[i].Reload? ==> i == 1
    ensures forall i :: 0 <= i < |issued| && issued[i].Query? ==> issued[i].pattern == url && i <= 2
    ensures forall i :: 0 <= i < |issued| ==> IsTabCall(issued[i])
    // the tabs and windows after each call, and for a success the one window it focused
    ensures b.tabs == TabsAfter(old(b.tabs), issued) && b.windows == WindowsAfter(old(b.windows), issued)
    ensures r.Some? ==> b.windows == old(b.windows)[r.value.0.windowId := r.value.1]
  {
    var target, q := FindTargetTab(b, url);
    WindowsAfterNoFocus(old(b.windows), q);
    ghost var q' := [];
    r := None;
    if target.Some? {
      r, q' := PrepareTab(b, url, target.value);
    }
    TabsAfterAppend(old(b.tabs), q, q');
    WindowsAfterAppend(old(b.windows), q, q');
    issued := q + q';
    MainTabTraceOfHalves(url, q, target, q', r);
    MainTabCallKinds(url, q, target, q');
  }

  /** The calls of `captureTab(url)` and its result, given the main tab
      it found: without one, `findOrCreateMainTab`'s calls alone (no
      capture among them) and null; with one, those calls and then the
      capture, whose image is the result when it is fulfilled and
      non-empty. */
  ghost predicate CaptureTrace(url: string, calls: seq<HostCall>, main: Option<(Tab, Window)>, r: Option<string>)
  {
    if main.None? then
      MainTabTrace(url, calls, None) && r.None? && forall i :: 0 <= i < |calls| ==> IsTabCall(calls[i])
    else
      && |calls| >= 1 && MainTabTrace(url, calls[..|calls| - 1], main)
      && calls[|calls| - 1].Capture?
      && (var reply := calls[|calls| - 1].imageReply;
          && (r.Some? <==> reply.Fulfilled? && reply.value != "")
          && (r.Some? ==> r.value == reply.value))
  }

  /** `captureTab(url)`: a screenshot of the main tab for `url`, or null
      when there is no valid main tab or the capture fails or is empty.
      `main` is the main tab and window it found. */
  method CaptureTab(b: Browser, url: string) returns (r: Option<string>, ghost main: Option<(Tab, Window)>, ghost issued: seq<HostCall>)
    requires b.Valid()
    modifies b`tabs, b`windows, b`nextTabId, b`calls
    ensures b.Valid()
    ensures b.calls == old(b.calls) + issued
    ensures b.session == old(b.session)
    ensures CaptureTrace(url, issued, main, r)
    // the main tab is validated and is still the browser's state of the pair
    ensures main.Some? ==> ValidateTabAndWindow(url, main.value.0, main.value.1)
    ensures main.Some? ==> b.Holds(main.value.0) && main.value.0.windowId in b.windows && b.windows[main.value.0.windowId] == main.value.1
    ensures forall i :: 0 <= i < |issued| ==> !issued[i].Download? && !issued[i].SessionSet? && !issued[i].SessionGet?
    // the tabs and windows after each call; the capture changes neither
    ensures b.tabs == TabsAfter(old(b.tabs), issued) && b.windows == WindowsAfter(old(b.windows), issued)
    ensures main.Some? ==> b.windows == old(b.windows)[main.value.0.windowId := main.value.1]
  {
    var found, q0 := FindOrCreateMainTab(b, url);
    issued := q0;
    main := found;
    if found.None? {
      return None, main, issued;
    }
    var reply := b.CaptureVisibleTab();
    TabsAfterAppend(old(b.tabs), issued, [Capture(reply)]);
    WindowsAfterAppend(old(b.windows), issued, [Capture(reply)]);
    issued := issued + [Capture(reply)];
    assert issued[..|issued| - 1] == q0;
    var (snapErr, image) := Safe(reply);
    if snapErr.Some? || image.None? || image.value == "" {
      return None, main, issued;
    }
    r := image;
  }

  /** `.replace(/[:.]/g, '-')`: every `:` and `.` becomes `-`. */
  function SanitizeTimestamp(iso: string): (s: string)
    ensures |s| == |iso|
    ensures forall i :: 0 <= i < |iso| ==> s[i] == (if iso[i] == ':' || iso[i] == '.' then '-' else iso[i])
  {
    if iso == [] then []
    else [if iso[0] == ':' || iso[0] == '.' then '-' else iso[0]] + SanitizeTimestamp(iso[1..])
  }

  /** The sanitized stamp has no `:` or `.` left, so sanitizing twice
      changes nothing. */
  lemma SanitizeIdempotent(iso: string)
    ensures ':' !in SanitizeTimestamp(iso) && '.' !in SanitizeTimestamp(iso)
    ensures SanitizeTimestamp(SanitizeTimestamp(iso)) == SanitizeTimestamp(iso)
  {
    var s := SanitizeTimestamp(iso);
    assert forall i :: 0 <= i < |s| ==> s[i] != ':' && s[i] != '.';
  }

  /** The file name `downloadFile` saves under; `iso` is the current time
      as `toISOString` gives it. */
  function DownloadFileName(fileName: string, timeStamp: bool, iso: string): (name: string)
    ensures |name| == |fileName| + (if timeStamp then 1 + |iso| else 0) + 4
    ensures name[..|fileName|] == fileName && name[|name| - 4..] == ".png"
    ensures timeStamp ==> name[|fileName|] == '-' && name[|fileName| + 1..|name| - 4] == SanitizeTimestamp(iso)
  {
    var timestamp := if timeStamp then "-" + SanitizeTimestamp(iso) else "";
    fileName + timestamp + ".png"
  }

  /** The name is the given name, then (only with a stamp) `-` and the
      sanitized stamp, then `.png`; the stamp part holds no `:` or `.`. */
  lemma DownloadFileNameParts(fileName: string, timeStamp: bool, iso: string)
    ensures var name := DownloadFileName(fileName, timeStamp, iso);
      && name[..|fileName|] == fileName
      && name[|name| - 4..] == ".png"
      && (!timeStamp ==> |name| == |fileName| + 4)
      && (timeStamp ==> |name| == |fileName| + 1 + |iso| + 4 && name[|fileName|] == '-')
      && (timeStamp ==> name[|fileName| + 1..|name| - 4] == SanitizeTimestamp(iso))
      && (forall i :: |fileName| <= i < |name| - 4 ==> name[i] != ':' && name[i] != '.')
  {
    var name := DownloadFileName(fileName, timeStamp, iso);
    var stamp := if timeStamp then "-" + SanitizeTimestamp(iso) else "";
    assert name == fileName + stamp + ".png";
    SanitizeIdempotent(iso);
    forall i | |fileName| <= i < |name| - 4
      ensures name[i] != ':' && name[i] != '.'
    {
      assert name[i] == stamp[i - |fileName|];
      if timeStamp && i > |fileName| {
        assert stamp[i - |fileName|] == SanitizeTimestamp(iso)[i - |fileName| - 1];
      }
    }
  }

  const ConflictAction := "uniquify"

  /** The download id a settled download reports, with `0` and a failure
      both meaning none. */
  function DownloadedId(reply: Settled<int>): (r: Option<int>)
    ensures r.Some? <==> reply.Fulfilled? && reply.value != 0
    ensures r.Some? ==> r.value == reply.value
  {
    var (err, downloadId) := Safe(reply);
    if err.Some? || downloadId.None? || downloadId.value == 0 then None else downloadId
  }

  /** `downloadFile(dataUrl, fileName, timeStamp, saveAs)`. */
  method DownloadFile(b: Browser, dataUrl: string, fileName: string, timeStamp: bool, iso: string, saveAs: bool)
    returns (r: Option<int>, ghost issued: seq<HostCall>)
    modifies b`calls
    ensures b.calls == old(b.calls) + issued
    ensures |issued| == 1 && issued[0].Download?
    ensures issued[0].request == DownloadRequest(dataUrl, DownloadFileName(fileName, timeStamp, iso), ConflictAction, saveAs)
    ensures r == DownloadedId(issued[0].downloadReply)
  {
    var finalName := DownloadFileName(fileName, timeStamp, iso);
    var request := DownloadRequest(dataUrl, finalName, ConflictAction, saveAs);
    var reply := b.StartDownload(request);
    issued := [Download(request, reply)];
    r := DownloadedId(reply);
  }

  /** `saveDataToSession(key, data)`: whether the write went through. */
  method SaveDataToSession(b: Browser, key: string, data: Value) returns (ok: bool, ghost issued: seq<HostCall>)
    modifies b`session, b`calls
    ensures b.calls == old(b.calls) + issued
    ensures |issued| == 1 && issued[0].SessionSet? && issued[0].key == key && issued[0].value == data
    ensures ok <==> issued[0].stored.Fulfilled?
    ensures ok ==> b.session == old(b.session)[key := data]
    ensures !ok ==> b.session == old(b.session)
  {
    var stored := b.SetSession(key, data);
    issued := [SessionSet(key, data, stored)];
    var (saveErr, _) := Safe(stored);
    ok := saveErr.None?;
  }

  /** `getDataFromSession(key)`: the stored value, or null when the read
      fails or the key is absent. */
  method GetDataFromSession(b: Browser, key: string) returns (r: Value, ghost issued: seq<HostCall>)
    modifies b`calls
    ensures b.calls == old(b.calls) + issued
    ensures |issued| == 1 && issued[0].SessionGet? && issued[0].getKey == key
    ensures issued[0].itemsReply.Fulfilled? && key in b.session ==> r == b.session[key]
    ensures issued[0].itemsReply.Rejected? || key !in b.session ==> r == Null
  {
    var reply := b.GetSession(key);
    issued := [SessionGet(key, reply)];
    var (loadErr, result) := Safe(reply);
    if loadErr.Some? || result.None? || key !in result.value {
      r := Null;
    } else {
      r := result.value[key];
    }
  }
}
