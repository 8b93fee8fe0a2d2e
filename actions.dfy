/** The two action routines of scripts/actions.ts: saving the task id of
    the open task tab, and capturing the QA-feedback page. Both write into
    session storage in a fixed order and stop at the first failed write. */
module Actions {
  import opened Promises
  import opened Tabs
  import opened TaskId
  import opened Chrome
  import opened Util
  import opened Ranking

  /** Session storage keys (scripts/config.ts). */
  const TaskIdKey := "TASK_ID"
  const FoundTaskIdKey := "FOUND_TASK_ID"
  const LastQaFeedbackKey := "LAST_QA_FEEDBACK"
  const CapturedFeedbackKey := "CAPTURED_FEEDBACK"

  /** What reading `ids[0][0]` throws when `ids` is empty. */
  const UndefinedIndexMessage := "Cannot read properties of undefined (reading '0')"

  /** The configuration `captureAndSaveQAFeedback` reads. */
  datatype FeedbackConfig = FeedbackConfig(
    feedbackUrl: string,
    downloadCaptures: bool,
    openSaveAs: bool,
    defaultFileName: string,
    useTimeStamp: bool)

  /** What `saveTaskId` does with the tabs it found: store a task id
      (possibly null), give up because the first tab has no url, or fail
      because ranking left nothing to pick. */
  datatype Pick = Store(taskId: Option<string>) | NoUrl | NoCandidate

  /** The choice of `saveTaskId` for a non-empty list of found tabs. */
  function PickTaskId(tabs: seq<Tab>, alwaysPickFirst: bool): (p: Pick)
    requires |tabs| > 0
    // ranking mode: fails exactly when no tab yields an id, else stores the reference choice
    ensures !alwaysPickFirst ==> !p.NoUrl?
    ensures !alwaysPickFirst ==> (p.NoCandidate? <==> forall j :: 0 <= j < |tabs| ==> !Yields(tabs[j]))
    ensures !alwaysPickFirst && p.Store? ==> p.taskId == ChosenTaskId(tabs) && p.taskId.Some?
    // pick-first mode: gives up exactly when the first tab has no url, else stores what it extracts
    ensures alwaysPickFirst ==> !p.NoCandidate?
    ensures alwaysPickFirst ==> (p.NoUrl? <==> !IsNonEmpty(tabs[0].url))
    ensures alwaysPickFirst && p.Store? ==> p.taskId == ExtractTaskId(tabs[0].url.value)
  {
    if !alwaysPickFirst then
      var ids := RankedTaskIds(tabs);
      RankedChoice(tabs);
      if ids == [] then NoCandidate else Store(ids[0].taskId)
    else if !IsNonEmpty(tabs[0].url) then NoUrl
    else Store(ExtractTaskId(tabs[0].url.value))
  }

  /** Example: an inactive task tab listed before an active one. Ranking
      mode takes the active tab's task, pick-first mode the first tab's. */
  lemma ActiveTaskTabWins()
    ensures var first := Tab(Some(1), 7, Some(Site + Marker + "111" + "-" + "a"), Some(Complete), false);
      var second := Tab(Some(2), 7, Some(Site + Marker + "222" + "-" + "b"), Some(Complete), true);
      && PickTaskId([first, second], false) == Store(Some("222"))
      && PickTaskId([first, second], true) == Store(Some("111"))
  {
    var url1, url2 := Site + Marker + "111" + "-" + "a", Site + Marker + "222" + "-" + "b";
    TaskIdAfterPrefix(url1, Site, "111", "a");
    TaskIdAfterPrefix(url2, Site, "222", "b");
    var tabs := [Tab(Some(1), 7, Some(url1), Some(Complete), false), Tab(Some(2), 7, Some(url2), Some(Complete), true)];
    assert Yields(tabs[1]) && Eligible(tabs[1], true) && !Eligible(tabs[0], true);
    assert FirstEligible(tabs, true) == Some(1);
    assert ChosenTaskId(tabs) == Some("222");
    assert PickTaskId(tabs, false) == Store(Some("222"));
  }

  /** Example: in pick-first mode a first tab whose url has no task id
      still leads to a write, of null. */
  lemma PickFirstStoresNull()
    ensures var first := Tab(Some(1), 7, Some(Site + Marker + "abc"), Some(Complete), true);
      PickTaskId([first], true) == Store(None)
  {
    var url := Site + Marker + "abc";
    MarkerWithoutDigits(url, Site, "abc");
  }

  /** `saveTaskId()`: finds the task tabs, picks a task id and stores it,
      then records that one was found. Its promise fulfils with null on
      every path, and rejects when ranking finds nothing. */
  method SaveTaskId(b: Browser, tasksUrl: string, alwaysPickFirst: bool)
    returns (r: Settled<Option<string>>, ghost issued: seq<HostCall>)
    modifies b`session, b`calls
    ensures b.calls == old(b.calls) + issued
    ensures r.Fulfilled? ==> r.value.None?
    ensures |issued| >= 1 && issued[0].Query? && issued[0].pattern == tasksUrl
    // nothing found: null, and nothing written
    ensures FoundTabs(issued[0].tabsReply).None? ==> r == Fulfilled(None) && |issued| == 1 && b.session == old(b.session)
    ensures FoundTabs(issued[0].tabsReply).Some? ==>
      SavedPick(PickTaskId(FoundTabs(issued[0].tabsReply).value, alwaysPickFirst), r, issued[1..], old(b.session), b.session)
  {
    var tabs, q0 := FindTabs(b, tasksUrl);
    issued := q0;
    if tabs.None? {
      return Fulfilled(None), issued;
    }
    ghost var writes;
    r, writes := SaveFoundTaskId(b, tabs.value, alwaysPickFirst);
    // the ranking definitions in scope make plain sequence reasoning costly
    AppendAssoc(old(b.calls), q0, writes);
    AppendDrop(q0, writes);
    issued := q0 + writes;
  }

  lemma AppendAssoc<T>(a: seq<T>, b: seq<T>, c: seq<T>)
    ensures a + b + c == a + (b + c)
  {
  }

  lemma AppendDrop<T>(a: seq<T>, c: seq<T>)
    ensures (a + c)[|a|..] == c
  {
  }

  /** The outcome of `saveTaskId` after a pick: a failed pick writes
      nothing, a stored id is written as `TaskIdWrites` says. */
  ghost predicate SavedPick(pick: Pick, r: Settled<Option<string>>, writes: seq<HostCall>, before: map<string, Value>, after: map<string, Value>)
  {
    && (pick.NoCandidate? ==> r == Rejected(ThrownError(Error(UndefinedIndexMessage))) && writes == [] && after == before)
    && (pick.NoUrl? ==> r == Fulfilled(None) && writes == [] && after == before)
    && (pick.Store? ==> r == Fulfilled(None) && TaskIdWrites(writes, NullableStr(pick.taskId), before, after))
  }

  /** `saveTaskId` once `findTabs` has found `tabs` (lines 7-34). */
  method SaveFoundTaskId(b: Browser, tabs: seq<Tab>, alwaysPickFirst: bool)
    returns (r: Settled<Option<string>>, ghost writes: seq<HostCall>)
    requires |tabs| > 0
    modifies b`session, b`calls
    ensures b.calls == old(b.calls) + writes
    ensures SavedPick(PickTaskId(tabs, alwaysPickFirst), r, writes, old(b.session), b.session)
  {
    var pick := PickTaskId(tabs, alwaysPickFirst);
    if pick.NoCandidate? {
      return Rejected(ThrownError(Error(UndefinedIndexMessage))), [];
    }
    if pick.NoUrl? {
      return Fulfilled(None), [];
    }
    writes := StoreTaskId(b, NullableStr(pick.taskId));
    r := Fulfilled(None);
  }

  /** The two writes at the end of `saveTaskId`; the second only after the
      first went through. */
  method StoreTaskId(b: Browser, taskId: Value) returns (ghost writes: seq<HostCall>)
    modifies b`session, b`calls
    ensures b.calls == old(b.calls) + writes
    ensures TaskIdWrites(writes, taskId, old(b.session), b.session)
  {
    var saved, q1 := SaveDataToSession(b, TaskIdKey, taskId);
    writes := q1;
    if saved {
      var flagged, q2 := SaveDataToSession(b, FoundTaskIdKey, Bool(true));
      writes := writes + q2;
    }
  }

  /** The writes of `saveTaskId` once it has a task id: the id goes first,
      the found flag only after it was stored, and the session changes by
      exactly the writes that went through. */
  ghost predicate TaskIdWrites(writes: seq<HostCall>, stored: Value, before: map<string, Value>, after: map<string, Value>)
  {
    && |writes| >= 1
    && writes[0].SessionSet? && writes[0].key == TaskIdKey && writes[0].value == stored
    && (writes[0].stored.Rejected? ==> |writes| == 1 && after == before)
    && (writes[0].stored.Fulfilled? ==>
         && |writes| == 2
         && writes[1].SessionSet? && writes[1].key == FoundTaskIdKey && writes[1].value == Bool(true)
         && (writes[1].stored.Rejected? ==> after == before[TaskIdKey := stored])
         && (writes[1].stored.Fulfilled? ==> after == before[TaskIdKey := stored][FoundTaskIdKey := Bool(true)]))
  }

  /** The value saved under `LAST_QA_FEEDBACK`: the image (or null) and the
      time of saving. */
  function FeedbackRecord(dataUrl: Option<string>, savedAt: string): (v: Value)
    ensures v.Arr? && |v.items| == 2 && v.items[1] == Str(savedAt)
    ensures v.items[0] == Null <==> dataUrl.None?
    ensures dataUrl.Some? ==> v.items[0] == Str(dataUrl.value)
  {
    Arr([NullableStr(dataUrl), Str(savedAt)])
  }

  /** `captureAndSaveQAFeedback()`: captures the feedback page, records the
      capture (even a failed one) and the captured flag, and downloads the
      image when there is one and downloads are enabled. `savedAt` is
      `Date.now().toString()` and `iso` the current time in ISO form. */
  method CaptureAndSaveQAFeedback(b: Browser, cfg: FeedbackConfig, savedAt: string, iso: string)
    returns (r: (Option<string>, Option<int>), ghost dataUrl: Option<string>, ghost main: Option<(Tab, Window)>,
             ghost captureCalls: seq<HostCall>, ghost issued: seq<HostCall>)
    requires b.Valid()
    modifies b
    ensures b.Valid()
    ensures b.calls == old(b.calls) + issued
    // the capture of the feedback page comes first; `dataUrl` is what it gives
    ensures |captureCalls| <= |issued| && issued[..|captureCalls|] == captureCalls
    ensures CaptureTrace(cfg.feedbackUrl, captureCalls, main, dataUrl)
    ensures forall i :: 0 <= i < |captureCalls| ==> !captureCalls[i].SessionSet? && !captureCalls[i].Download?
    // then the writes and the download, as `recordFeedback` makes them
    ensures FeedbackWrites(issued[|captureCalls|..], dataUrl, savedAt, old(b.session), b.session)
    ensures FeedbackResult(cfg, iso, dataUrl, issued[|captureCalls|..], r)
    // only the capture changes tabs and windows
    ensures b.tabs == TabsAfter(old(b.tabs), captureCalls) && b.windows == WindowsAfter(old(b.windows), captureCalls)
    ensures main.Some? ==> b.windows == old(b.windows)[main.value.0.windowId := main.value.1]
  {
    var image, found, q0 := CaptureTab(b, cfg.feedbackUrl);
    dataUrl, main, captureCalls := image, found, q0;
    ghost var w;
    r, w := RecordFeedback(b, cfg, image, savedAt, iso);
    issued := q0 + w;
    assert issued[..|q0|] == q0;
    assert issued[|q0|..] == w;
  }

  /** Lines 39-47 of `captureAndSaveQAFeedback`, once the capture gave
      `dataUrl`: the record, the flag, and the download. */
  method RecordFeedback(b: Browser, cfg: FeedbackConfig, dataUrl: Option<string>, savedAt: string, iso: string)
    returns (r: (Option<string>, Option<int>), ghost writes: seq<HostCall>)
    modifies b`session, b`calls
    ensures b.calls == old(b.calls) + writes
    ensures FeedbackWrites(writes, dataUrl, savedAt, old(b.session), b.session)
    ensures FeedbackResult(cfg, iso, dataUrl, writes, r)
  {
    var saved, q1 := SaveDataToSession(b, LastQaFeedbackKey, FeedbackRecord(dataUrl, savedAt));
    writes := q1;
    if !saved {
      return (None, None), writes;
    }
    var flagged, q2 := SaveDataToSession(b, CapturedFeedbackKey, Bool(true));
    writes := writes + q2;
    if !flagged {
      return (None, None), writes;
    }
    if IsNonEmpty(dataUrl) && cfg.downloadCaptures {
      var downloadId, q3 := DownloadFile(b, dataUrl.value, cfg.defaultFileName, cfg.useTimeStamp, iso, cfg.openSaveAs);
      writes := writes + q3;
      return (dataUrl, downloadId), writes;
    }
    r := (dataUrl, None);
  }

  /** The result of `captureAndSaveQAFeedback` after its writes: a failed
      write gives `[null, null]` and no download; otherwise a download is
      issued exactly when there is an image and downloads are enabled, and
      the result is the image with the download id, or with null. */
  ghost predicate FeedbackResult(cfg: FeedbackConfig, iso: string, dataUrl: Option<string>, writes: seq<HostCall>, r: (Option<string>, Option<int>))
  {
    var stored := |writes| >= 2 && writes[1].SessionSet? && writes[1].stored.Fulfilled?;
    && (!stored ==> r == (None, None) && |writes| <= 2)
    && (stored ==>
         if IsNonEmpty(dataUrl) && cfg.downloadCaptures then
           && |writes| == 3
           && writes[2].Download?
           && writes[2].request == DownloadRequest(dataUrl.value, DownloadFileName(cfg.defaultFileName, cfg.useTimeStamp, iso), ConflictAction, cfg.openSaveAs)
           && r == (dataUrl, DownloadedId(writes[2].downloadReply))
         else
           |writes| == 2 && r == (dataUrl, None))
  }

  /** The session writes of `captureAndSaveQAFeedback`: the capture record
      first, the captured flag only after it was stored, and the session
      changes by exactly the writes that went through. */
  ghost predicate FeedbackWrites(writes: seq<HostCall>, dataUrl: Option<string>, savedAt: string, before: map<string, Value>, after: map<string, Value>)
  {
    && |writes| >= 1
    && writes[0].SessionSet? && writes[0].key == LastQaFeedbackKey && writes[0].value == FeedbackRecord(dataUrl, savedAt)
    && (writes[0].stored.Rejected? ==> |writes| == 1 && after == before)
    && (writes[0].stored.Fulfilled? ==>
         && |writes| >= 2
         && writes[1].SessionSet? && writes[1].key == CapturedFeedbackKey && writes[1].value == Bool(true)
         && (writes[1].stored.Rejected? ==> |writes| == 2 && after == before[LastQaFeedbackKey := FeedbackRecord(dataUrl, savedAt)])
         && (writes[1].stored.Fulfilled? ==> after == before[LastQaFeedbackKey := FeedbackRecord(dataUrl, savedAt)][CapturedFeedbackKey := Bool(true)]))
  }
}
