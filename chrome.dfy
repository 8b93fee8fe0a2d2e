/** The browser as the extension's host: its open tabs and windows, the
    session storage area, and the API calls the extension makes on them
    (`chrome.tabs`, `chrome.windows`, `chrome.storage.session`,
    `chrome.downloads`). Each call may fail: which way it goes is the
    browser's choice, so the bodies choose nondeterministically. The
    browser changes only what a call asks it to change. */
module Chrome {
  import opened Promises
  import opened Tabs

  /** A value kept in session storage (JSON-like). */
  datatype Value = Null | Bool(b: bool) | Str(s: string) | Arr(items: seq<Value>)

  /** A nullable string as a stored value. */
  function NullableStr(s: Option<string>): (v: Value)
    ensures v == Null <==> s.None?
    ensures s.Some? ==> v == Str(s.value)
  {
    if s.Some? then Str(s.value) else Null
  }

  /** The options of a `chrome.downloads.download` call. */
  datatype DownloadRequest = DownloadRequest(url: string, filename: string, conflictAction: string, saveAs: bool)

  /** One host call, with how it settled. */
  datatype HostCall =
    | Query(pattern: string, tabsReply: Settled<seq<Tab>>)
    | Reload(reloadId: int, bypassCache: bool, reloaded: Settled<()>)
    | Create(createUrl: string, createdReply: Settled<Tab>)
    | AwaitLoad(awaitId: int, updateReply: Settled<TabUpdate>)
    | Activate(activateId: int, activatedReply: Settled<Tab>)
    | Focus(windowId: int, windowReply: Settled<Window>)
    | Capture(imageReply: Settled<string>)
    | Download(request: DownloadRequest, downloadReply: Settled<int>)
    | SessionSet(key: string, value: Value, stored: Settled<()>)
    | SessionGet(getKey: string, itemsReply: Settled<map<string, Value>>)

  /** What a call does to the open tabs: a successful reload marks its tab
      loading, a created tab is added under its id, a load event's tab and
      an activated tab replace their entries. A failed call, and every
      other kind of call, changes no tab. */
  function TabEffect(tabs: map<int, Tab>, c: HostCall): map<int, Tab>
  {
    match c
    case Reload(id, _, Fulfilled(_)) => if id in tabs then tabs[id := tabs[id].(status := Some(Loading))] else tabs
    case Create(_, Fulfilled(t)) => if t.id.Some? then tabs[t.id.value := t] else tabs
    case AwaitLoad(id, Fulfilled(u)) => tabs[id := u.tab]
    case Activate(id, Fulfilled(t)) => tabs[id := t]
    case _ => tabs
  }

  /** What a call does to the windows: a successful focus replaces its
      window's entry; nothing else changes a window. */
  function WindowEffect(windows: map<int, Window>, c: HostCall): map<int, Window>
  {
    match c
    case Focus(id, Fulfilled(w)) => windows[id := w]
    case _ => windows
  }

  /** The open tabs after the calls, in order. */
  function TabsAfter(tabs: map<int, Tab>, calls: seq<HostCall>): map<int, Tab>
    decreases |calls|
  {
    if calls == [] then tabs else TabsAfter(TabEffect(tabs, calls[0]), calls[1..])
  }

  /** The windows after the calls, in order. */
  function WindowsAfter(windows: map<int, Window>, calls: seq<HostCall>): map<int, Window>
    decreases |calls|
  {
    if calls == [] then windows else WindowsAfter(WindowEffect(windows, calls[0]), calls[1..])
  }

  /** The call is about tab `k`: it reloads, awaits or activates it, or
      creates a tab with that id. */
  predicate NamesTab(c: HostCall, k: int)
  {
    || (c.Reload? && c.reloadId == k)
    || (c.Create? && c.createdReply.Fulfilled? && c.createdReply.value.id == Some(k))
    || (c.AwaitLoad? && c.awaitId == k)
    || (c.Activate? && c.activateId == k)
  }

  /** Running calls one after another is running their concatenation. */
  lemma {:induction false} TabsAfterAppend(tabs: map<int, Tab>, a: seq<HostCall>, b: seq<HostCall>)
    ensures TabsAfter(tabs, a + b) == TabsAfter(TabsAfter(tabs, a), b)
    decreases |a|
  {
    if a != [] {
      assert (a + b)[0] == a[0] && (a + b)[1..] == a[1..] + b;
      TabsAfterAppend(TabEffect(tabs, a[0]), a[1..], b);
    } else {
      assert a + b == b;
    }
  }

  lemma {:induction false} WindowsAfterAppend(windows: map<int, Window>, a: seq<HostCall>, b: seq<HostCall>)
    ensures WindowsAfter(windows, a + b) == WindowsAfter(WindowsAfter(windows, a), b)
    decreases |a|
  {
    if a != [] {
      assert (a + b)[0] == a[0] && (a + b)[1..] == a[1..] + b;
      WindowsAfterAppend(WindowEffect(windows, a[0]), a[1..], b);
    } else {
      assert a + b == b;
    }
  }

  /** A tab that no call is about keeps its entry (and stays absent when
      it was absent). */
  lemma {:induction false} TabsAfterUntouched(tabs: map<int, Tab>, calls: seq<HostCall>, k: int)
    requires forall i :: 0 <= i < |calls| ==> !NamesTab(calls[i], k)
    ensures k in TabsAfter(tabs, calls) <==> k in tabs
    ensures k in tabs ==> TabsAfter(tabs, calls)[k] == tabs[k]
    decreases |calls|
  {
    if calls != [] {
      assert !NamesTab(calls[0], k);
      TabsAfterUntouched(TabEffect(tabs, calls[0]), calls[1..], k);
    }
  }

  /** A window that no call focuses keeps its entry (and stays absent
      when it was absent). */
  lemma {:induction false} WindowsAfterUntouched(windows: map<int, Window>, calls: seq<HostCall>, k: int)
    requires forall i :: 0 <= i < |calls| ==> !(calls[i].Focus? && calls[i].windowId == k)
    ensures k in WindowsAfter(windows, calls) <==> k in windows
    ensures k in windows ==> WindowsAfter(windows, calls)[k] == windows[k]
    decreases |calls|
  {
    if calls != [] {
      assert !(calls[0].Focus? && calls[0].windowId == k);
      WindowsAfterUntouched(WindowEffect(windows, calls[0]), calls[1..], k);
    }
  }

  /** Calls that focus no window leave every window as it was. */
  lemma {:induction false} WindowsAfterNoFocus(windows: map<int, Window>, calls: seq<HostCall>)
    requires forall i :: 0 <= i < |calls| ==> !calls[i].Focus?
    ensures WindowsAfter(windows, calls) == windows
    decreases |calls|
  {
    if calls != [] {
      assert !calls[0].Focus?;
      WindowsAfterNoFocus(windows, calls[1..]);
    }
  }

  /** The caller-supplied messages of the two timeouts. */
  const LoadTimeoutMessage := "Wait for load timeout"
  const ScreenshotTimeoutMessage := "Screenshot timed out"

  /** Every tab that reports an id is kept under that id. */
  ghost predicate IdsMatchKeys(tabs: map<int, Tab>)
  {
    forall k :: k in tabs && tabs[k].id.Some? ==> tabs[k].id.value == k
  }

  class Browser {
    /** Open tabs by id; a tab that reports an id reports its key. */
    var tabs: map<int, Tab>
    var windows: map<int, Window>
    /** The `chrome.storage.session` area. */
    var session: map<string, Value>
    /** The browser hands out tab ids in increasing order. */
    var nextTabId: int
    /** Every call made so far, in order, with its outcome. */
    ghost var calls: seq<HostCall>

    ghost predicate Valid()
      reads this
    {
      && (forall k :: k in tabs ==> k < nextTabId)
      && IdsMatchKeys(tabs)
    }

    /** `t` is the browser's current state of the tab it names. */
    predicate Holds(t: Tab)
      reads this
    {
      t.id.Some? && t.id.value in tabs && tabs[t.id.value] == t
    }

    /** `t` is an open tab as a query lists it: one that reports an id is
        the browser's current state of that tab. */
    predicate Lists(t: Tab)
      reads this
    {
      t in tabs.Values && (t.id.Some? ==> Holds(t))
    }

    constructor (tabs0: map<int, Tab>, windows0: map<int, Window>, nextTabId0: int)
      requires forall k :: k in tabs0 ==> k < nextTabId0
      requires IdsMatchKeys(tabs0)
      ensures Valid()
      ensures tabs == tabs0 && windows == windows0 && nextTabId == nextTabId0
      ensures session == map[] && calls == []
    {
      tabs, windows, nextTabId := tabs0, windows0, nextTabId0;
      session := map[];
      calls := [];
    }

    /** `chrome.tabs.query`: some of the open tabs, in the browser's order. */
    method QueryTabs(pattern: string) returns (reply: Settled<seq<Tab>>)
      modifies this`calls
      ensures calls == old(calls) + [Query(pattern, reply)]
      ensures reply.Fulfilled? ==> forall i :: 0 <= i < |reply.value| ==> Lists(reply.value[i])
    {
      if * {
        var message: string := *;
        reply := Rejected(ThrownError(Error(message)));
      } else {
        var found: seq<Tab> := *;
        if !(forall i :: 0 <= i < |found| ==> Lists(found[i])) {
          found := [];
        }
        reply := Fulfilled(found);
      }
      calls := calls + [Query(pattern, reply)];
    }

    /** `chrome.tabs.reload`: the tab starts loading again. */
    method ReloadTab(tabId: int, bypassCache: bool) returns (reloaded: Settled<()>)
      requires Valid()
      modifies this`tabs, this`calls
      ensures Valid()
      ensures calls == old(calls) + [Reload(tabId, bypassCache, reloaded)]
      ensures reloaded.Fulfilled? ==> tabId in old(tabs) && tabs == old(tabs)[tabId := old(tabs)[tabId].(status := Some(Loading))]
      ensures reloaded.Rejected? ==> tabs == old(tabs)
    {
      var fails: bool := *;
      if fails || tabId !in tabs {
        var message: string := *;
        reloaded := Rejected(ThrownError(Error(message)));
      } else {
        tabs := tabs[tabId := tabs[tabId].(status := Some(Loading))];
        reloaded := Fulfilled(());
      }
      calls := calls + [Reload(tabId, bypassCache, reloaded)];
    }

    /** `chrome.tabs.create`: a new tab under the next free id. */
    method CreateTab(url: string) returns (reply: Settled<Tab>)
      requires Valid()
      modifies this`tabs, this`nextTabId, this`calls
      ensures Valid()
      ensures calls == old(calls) + [Create(url, reply)]
      ensures reply.Fulfilled? ==> old(nextTabId) !in old(tabs) && reply.value.id == Some(old(nextTabId))
      ensures reply.Fulfilled? ==> tabs == old(tabs)[old(nextTabId) := reply.value]
      ensures reply.Rejected? ==> tabs == old(tabs)
    {
      if * {
        var message: string := *;
        reply := Rejected(ThrownError(Error(message)));
      } else {
        var t: Tab := *;
        t := t.(id := Some(nextTabId));
        tabs := tabs[nextTabId := t];
        nextTabId := nextTabId + 1;
        reply := Fulfilled(t);
      }
      calls := calls + [Create(url, reply)];
    }

    /** The load listener bounded by its timeout: either an `onUpdated`
        event for the tab that passes the readiness test, whose tab then is
        the browser's state of it, or the timeout's rejection. */
    method AwaitTabUpdate(tabId: int) returns (reply: Settled<TabUpdate>)
      requires Valid()
      modifies this`tabs, this`calls
      ensures Valid()
      ensures calls == old(calls) + [AwaitLoad(tabId, reply)]
      ensures reply.Fulfilled? ==> IsTabReady(tabId, reply.value) && reply.value.tab.id == Some(tabId)
      ensures reply.Fulfilled? ==> tabId in old(tabs) && tabs == old(tabs)[tabId := reply.value.tab]
      ensures reply.Rejected? ==> reply.reason == ThrownError(Error(LoadTimeoutMessage)) && tabs == old(tabs)
    {
      // the first event that passes the test before the timeout, if any
      var u: TabUpdate := *;
      var fails: bool := *;
      if fails || tabId !in tabs || !(IsTabReady(tabId, u) && u.tab.id == Some(tabId)) {
        reply := Rejected(ThrownError(Error(LoadTimeoutMessage)));
      } else {
        tabs := tabs[tabId := u.tab];
        reply := Fulfilled(u);
      }
      calls := calls + [AwaitLoad(tabId, reply)];
    }

    /** `chrome.tabs.update(tabId, {active: true})`: the updated tab,
        whose `active` flag is what the browser reports. */
    method ActivateTab(tabId: int) returns (reply: Settled<Tab>)
      requires Valid()
      modifies this`tabs, this`calls
      ensures Valid()
      ensures calls == old(calls) + [Activate(tabId, reply)]
      ensures reply.Fulfilled? ==> tabId in old(tabs) && reply.value == old(tabs)[tabId].(active := reply.value.active)
      ensures reply.Fulfilled? ==> tabs == old(tabs)[tabId := reply.value]
      ensures reply.Rejected? ==> tabs == old(tabs)
    {
      var fails: bool := *;
      if fails || tabId !in tabs {
        var message: string := *;
        reply := Rejected(ThrownError(Error(message)));
      } else {
        var active: bool := *;
        var t := tabs[tabId].(active := active);
        tabs := tabs[tabId := t];
        reply := Fulfilled(t);
      }
      calls := calls + [Activate(tabId, reply)];
    }

    /** `chrome.windows.update(windowId, {focused: true})`: the updated
        window, whose `focused` flag is what the browser reports. */
    method FocusWindow(windowId: int) returns (reply: Settled<Window>)
      modifies this`windows, this`calls
      ensures calls == old(calls) + [Focus(windowId, reply)]
      ensures reply.Fulfilled? ==> windowId in old(windows) && reply.value == old(windows)[windowId].(focused := reply.value.focused)
      ensures reply.Fulfilled? ==> windows == old(windows)[windowId := reply.value]
      ensures reply.Rejected? ==> windows == old(windows)
    {
      var fails: bool := *;
      if fails || windowId !in windows {
        var message: string := *;
        reply := Rejected(ThrownError(Error(message)));
      } else {
        var focused: bool := *;
        var w := windows[windowId].(focused := focused);
        windows := windows[windowId := w];
        reply := Fulfilled(w);
      }
      calls := calls + [Focus(windowId, reply)];
    }

    /** `chrome.tabs.captureVisibleTab` bounded by its timeout: a data url,
        or a rejection, either the timeout's or the capture's own. */
    method CaptureVisibleTab() returns (reply: Settled<string>)
      modifies this`calls
      ensures calls == old(calls) + [Capture(reply)]
    {
      if * {
        reply := Rejected(ThrownError(Error(ScreenshotTimeoutMessage)));
      } else if * {
        var message: string := *;
        reply := Rejected(ThrownError(Error(message)));
      } else {
        var image: string := *;
        reply := Fulfilled(image);
      }
      calls := calls + [Capture(reply)];
    }

    /** `chrome.downloads.download`: the id of the download. */
    method StartDownload(request: DownloadRequest) returns (reply: Settled<int>)
      modifies this`calls
      ensures calls == old(calls) + [Download(request, reply)]
    {
      if * {
        var message: string := *;
        reply := Rejected(ThrownError(Error(message)));
      } else {
        var downloadId: int := *;
        reply := Fulfilled(downloadId);
      }
      calls := calls + [Download(request, reply)];
    }

    /** `chrome.storage.session.set({[key]: value})`. */
    method SetSession(key: string, value: Value) returns (stored: Settled<()>)
      modifies this`session, this`calls
      ensures calls == old(calls) + [SessionSet(key, value, stored)]
      ensures stored.Fulfilled? ==> session == old(session)[key := value]
      ensures stored.Rejected? ==> session == old(session)
    {
      if * {
        var message: string := *;
        stored := Rejected(ThrownError(Error(message)));
      } else {
        session := session[key := value];
        stored := Fulfilled(());
      }
      calls := calls + [SessionSet(key, value, stored)];
    }

    /** `chrome.storage.session.get([key])`: the stored items for that key. */
    method GetSession(key: string) returns (reply: Settled<map<string, Value>>)
      modifies this`calls
      ensures calls == old(calls) + [SessionGet(key, reply)]
      ensures reply.Fulfilled? ==> reply.value == if key in session then map[key := session[key]] else map[]
    {
      if * {
        var message: string := *;
        reply := Rejected(ThrownError(Error(message)));
      } else {
        reply := Fulfilled(if key in session then map[key := session[key]] else map[]);
      }
      calls := calls + [SessionGet(key, reply)];
    }
  }
}
