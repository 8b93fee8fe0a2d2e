# HandshakeAI browser extension: the tab orchestration and action core, in Dafny

The extension automates a task website from inside the browser. This model covers its sequential core:

- `extractTaskId` finds the leftmost `/tasks/<digits>-` in a url.
- `findOrCreateMainTab` finds the tab for a url and reloads it, or creates one. It then waits for the tab to load, makes it active and focuses its window. Finally it validates the tab/window pair with six checks.
- The `safe` convention turns a promise into an `[error, value]` pair.
- `downloadFile` builds the name a capture is saved under.
- `saveTaskId` ranks the open task tabs and writes the chosen task id, then a "found" flag, into session storage.
- `captureAndSaveQAFeedback` records a screenshot of the feedback page and a "captured" flag in session storage. It can also download the screenshot.

Files and modules:

- `promises.dfy` (`Promises`): nullable values, thrown errors, how a promise settles, and `Safe`.
- `tabs.dfy` (`Tabs`): tab, window and `onUpdated` event records, and the JavaScript truthiness tests on their fields. It holds the readiness test of the load listener and `ValidateTabAndWindow`.
- `task_id.dfy` (`TaskId`): the regular expression `/\/tasks\/(\d+)-/` written as a left-to-right scan.
  - The scan is proved equal to a reference definition of a match: it returns the leftmost match and the whole digit run.
  - The four test cases are proved.
- `chrome.dfy` (`Chrome`): the browser, as a class `Browser`.
  - It owns the open tabs (by id), the windows (by id) and the session storage area (`map<string, Value>`).
  - Every extension API call is a method. The browser decides nondeterministically whether the call fails and what it reports.
  - A call changes only the tab, window or storage entry it is about. Side effects on other tabs and windows are not modelled; see "## Left out".
  - The ghost field `calls` logs every call with its outcome.
- `util.dfy` (`Util`): the helpers of `scripts/util.ts`, as methods on a `Browser`.
  - Each helper returns its result and, as a ghost value, the calls it made.
  - Their contracts state which calls are issued and when. A successful result is the browser's current state of the tab and window.
  - The tabs and windows after a helper are `TabsAfter` and `WindowsAfter` of the calls it made: each call's effect (`TabEffect`, `WindowEffect` in `Chrome`), applied in order.
- `ranking.dfy` (`Ranking`): the `map` / `filter` / stable `toSorted` pipeline of `saveTaskId`.
  - It is proved sorted, a permutation and stable.
  - Its head is proved to be the reference choice: the first active tab that yields a task id, otherwise the first tab that yields one.
- `actions.dfy` (`Actions`): `saveTaskId` and `captureAndSaveQAFeedback`.
  - The order of their session writes is stated exactly, including where they stop after a failed write.

Inputs that are not modelled:

- The clock (`Date.now()` and `toISOString()`) and the configuration constants (`scripts/config.ts`) are parameters.
- Timeouts are the browser's choice to reject with the caller's timeout message.
- Logging is left out.

Behaviour of the code worth knowing, modelled as written:

- A query that finds zero tabs makes `findOrCreateMainTab` fail. It does not create a tab (`Util.FindOrCreateMainTab`).
- A first tab without an id leads to a new tab, even though a tab was found.
- `LAST_QA_FEEDBACK` holds `Date.now().toString()` (milliseconds as text), not an ISO timestamp.
- In ranking mode with no usable tab, `saveTaskId` throws. The thrown `TypeError` is the promise's rejection, so this error is not caught and turned into null like the others.
- In pick-first mode a url without a task id stores `null` and still sets the found flag (`Actions.PickFirstStoresNull`).

## Model

| member | source | states |
|---|---|---|
| Promises.Safe | scripts/util.ts:249-256 | exactly one side of the pair is present; a fulfilled value is kept; a thrown value becomes an Error with the same message, and a thrown Error is kept as it is |
| Promises.SafeRoundTrip | scripts/util.ts:249-256 | rebuilding a settlement from the pair gives back the original, except that a thrown non-Error becomes an Error with its text |
| Tabs.ValidateTabAndWindow | scripts/util.ts:68-104 | true exactly when both ids are set and non-zero, the tab's window id is the window's id, the status is "complete", the url equals the requested url, the tab is active and the window focused; any one failing makes it false |
| Tabs.IsTabReady | scripts/util.ts:195-198 | a ready event is about the awaited tab, shows a url that is neither empty nor `about:blank`, and reports "complete" in its change or on its tab |
| Tabs.ReadyIsNotValid | scripts/util.ts:195-198 | an event passes the readiness test with the tab still "loading" only when the change reports "complete", and such a tab never passes validation |
| TaskId.DigitRun | scripts/util.ts:263 | the greedy `\d+` run: all digits, and followed by the end or a non-digit |
| TaskId.CaptureAt | scripts/util.ts:263-264 | the capture at a match position is a reference match there: non-empty digits with `/tasks/` before and `-` after |
| TaskId.FirstMatchFrom | scripts/util.ts:263 | the first position at or after `from` where the pattern matches; none exactly when no position matches |
| TaskId.ExtractTaskId | scripts/util.ts:258-265 | a non-null result is a non-empty string of ASCII digits |
| TaskId.MatchesAtIff | scripts/util.ts:263 | the scan matches at `p` with capture `d` exactly when `/tasks/` + d + `-` occurs at `p` with `d` non-empty digits |
| TaskId.DigitRunOf | scripts/util.ts:263 | a digit string found at a position and followed by a non-digit is exactly the greedy run there |
| TaskId.ExtractedIsLeftmostMatch | scripts/util.ts:263-264 | a non-null result is the digits of a match with no match at any earlier position |
| TaskId.LeftmostMatchIsExtracted | scripts/util.ts:263-264 | the digits of the leftmost match are the result |
| TaskId.NullIffNoMatch | scripts/util.ts:263-264 | the result is null exactly when the pattern occurs nowhere |
| TaskId.MatchHasK | scripts/util.ts:263 | every match has the `k` of `/tasks/` four characters after its start |
| TaskId.NoKNoTaskId | scripts/util.ts:263-264 | a url without the letter `k` yields null |
| TaskId.OnlyMarkerCanMatch | scripts/util.ts:263 | in a url made of a prefix without `k`, then `/tasks/`, then the rest, no match can start inside the prefix |
| TaskId.TaskIdAfterPrefix | scripts/util.ts:263-264 | `/tasks/<digits>-` after a prefix without `k` yields those digits |
| TaskId.MarkerWithoutDigits | scripts/util.ts:263-264 | `/tasks/` followed by a non-digit, with no other `k` in the url, yields null |
| TaskId.StandardTaskUrl | tests/util.test.ts:5-8 | `https://www.multimango.com/tasks/260126-text-to-image-compare` yields `"260126"` |
| TaskId.UrlWithoutTasks | tests/util.test.ts:10-13 | `https://www.google.com/search?q=260126` yields null |
| TaskId.TasksWithoutDigits | tests/util.test.ts:15-18 | `https://www.multimango.com/tasks/abc-text-to-image` yields null |
| TaskId.MockedTabUrl | tests/util.test.ts:20-28 | `https://www.multimango.com/tasks/999888-test-task` yields `"999888"` |
| Chrome.NullableStr | scripts/actions.ts:32 | a nullable string is stored as null exactly when it is null, and a present string as that same string |
| Chrome.Browser.QueryTabs | scripts/util.ts:107 | a fulfilled query lists open tabs, each of which (when it has an id) is the browser's current state of that tab; nothing changes but the call log |
| Chrome.Browser.ReloadTab | scripts/util.ts:120 | a successful reload sets that open tab's status to loading and changes nothing else; a failed one changes nothing |
| Chrome.Browser.CreateTab | scripts/util.ts:130 | a created tab gets the next unused id and is added under it; the browser invariant (every tab with an id is stored under it) is kept |
| Chrome.Browser.AwaitTabUpdate | scripts/util.ts:176-179 | either an event for the tab that passes the readiness test, whose tab becomes the browser's state of it, or a rejection with "Wait for load timeout" and no change |
| Chrome.Browser.ActivateTab | scripts/util.ts:145 | the updated tab is the stored tab with only its active flag as the browser reports it, and becomes the stored tab |
| Chrome.Browser.FocusWindow | scripts/util.ts:159 | the updated window is the stored window with only its focused flag as the browser reports it, and becomes the stored window |
| Chrome.Browser.CaptureVisibleTab | scripts/util.ts:9-11 | any image or any rejection (the timeout's or the capture's own); nothing changes but the call log |
| Chrome.Browser.StartDownload | scripts/util.ts:25-30 | a download id or a failure; nothing changes but the call log |
| Chrome.Browser.SetSession | scripts/util.ts:230 | a successful write stores the value under the key and changes nothing else; a failed write changes nothing |
| Chrome.Browser.GetSession | scripts/util.ts:240 | a successful read holds exactly the stored entry for the key, if there is one |
| Chrome.TabsAfterAppend | scripts/util.ts:40-66 | the tabs after a sequence of calls are obtained by applying each call's effect in order, so the tabs after two consecutive runs of calls are the tabs after their concatenation |
| Chrome.WindowsAfterAppend | scripts/util.ts:40-66 | the same for windows: the windows after two consecutive runs of calls are the windows after their concatenation |
| Chrome.TabsAfterUntouched | scripts/util.ts:120-159 | a tab that no call reloads, awaits, activates or creates keeps its entry, and an absent one stays absent |
| Chrome.WindowsAfterUntouched | scripts/util.ts:159 | a window that no call focuses keeps its entry, and an absent one stays absent |
| Chrome.WindowsAfterNoFocus | scripts/util.ts:159 | calls that include no focus leave every window as it was |
| Util.FoundTabs | scripts/util.ts:106-117 | never an empty list: the tabs exactly when the query fulfilled with at least one tab, otherwise null |
| Util.FindTabs | scripts/util.ts:106-117 | one query for the pattern; the result is `FoundTabs` of its reply, and every tab in it is open; the tabs are unchanged (`TabsAfter` of a query) |
| Util.RefreshTab | scripts/util.ts:119-127 | one reload of that tab with the cache bypassed; true exactly when it succeeded, and then only that tab changed, to "loading"; a failure changes no tab |
| Util.CreateTab | scripts/util.ts:129-137 | one create call for the url; non-null exactly when it fulfilled with a tab whose id is set, and then that tab is stored; a fulfilled create adds exactly the new tab and a failed one changes no tab |
| Util.ConfirmTabLoadingComplete | scripts/util.ts:170-190 | null and no call for a missing or zero id; no wait and the same tab when it is already "complete"; otherwise one wait, and the result is the tab of the ready event; the result keeps the tab's id and is the stored tab. Without a wait, or after a timeout, no tab changes; after a ready event only the awaited tab's entry changes, to the event's tab |
| Util.MakeActiveTab | scripts/util.ts:139-156 | null and no call for a missing or zero id; no update and the same tab when it is already active; otherwise one update, successful exactly when the updated tab reports active; a result is active and is the stored tab. Without an update, or after a failed one, no tab changes; a fulfilled update, active or not, replaces only that tab's entry with the reply |
| Util.FocusWindow | scripts/util.ts:158-168 | always one focus update of the tab's window; non-null exactly when the updated window reports focused, and then it is the stored window. A fulfilled update, focused or not, replaces only that window's entry with the reply; a failed one changes no window |
| Util.FindTargetTab | scripts/util.ts:41-56 | its calls and target follow `TargetTrace`: the query first, and no tab found fails with no further call. A first tab with an id is reloaded with the cache bypassed, and a failed reload fails. After a successful reload the query is repeated, and the target is its first tab exactly when that tab has an id. A first tab without an id leads to one create call, and the target is the created tab exactly when creation fulfilled with an id. A target has an id and is the stored tab. The tabs are `TabsAfter` its calls, so a failed first query changes nothing, and no window changes |
| Util.PrepareTab | scripts/util.ts:57-64 | its calls and result follow `PrepareTrace`: a tab without an id fails with no call; no wait for a tab already "complete", otherwise one wait, where a timeout fails; then `ActivateTrace` on the loaded tab. A result passes `ValidateTabAndWindow` and is the browser's state of the tab and its window. The tabs and windows are `TabsAfter` and `WindowsAfter` its calls; after a success only the result's window changed, to the result's window |
| Util.ActivateAndFocus | scripts/util.ts:59-64 | its calls and result follow `ActivateTrace`: no update for an active tab, otherwise one update, failing unless it reports the tab active; then exactly one focus of that tab's window. The result is the tab and window exactly when the window reports focused and the pair validates. The tabs and windows are `TabsAfter` and `WindowsAfter` its calls; after a success only the result's window changed |
| Util.MainTabTraceOfHalves | scripts/util.ts:40-66 | a `TargetTrace` followed by the `PrepareTrace` of its target, or by nothing when there is no target, is a `MainTabTrace`: every failed step stops the sequence with null |
| Util.MainTabTraceDetermines | scripts/util.ts:40-66 | the calls of `findOrCreateMainTab` and their outcomes determine its result |
| Util.MainTabTraceValid | scripts/util.ts:64-65 | any result a `MainTabTrace` admits passes `ValidateTabAndWindow` |
| Util.MainTabCallKinds | scripts/util.ts:40-66 | from the two halves' call kinds: only a first tab without an id leads to a create call, at the second call; the only reload is the second call; only the url is queried, at most at the third call; every call is about tabs or windows |
| Util.FindOrCreateMainTab | scripts/util.ts:40-66 | its calls and result follow `MainTabTrace`: query, then reload and re-query or create, then wait, activate and focus, in that order, and each failure of the query, reload, re-query, create, wait, activate, focus or validation returns null with no further call. Every non-null result passes `ValidateTabAndWindow` for the url and is the current tab and window. Only a first tab without an id leads to a create call. The reload happens only at the second call, at most two queries are made, and session storage is untouched. The tabs and windows are `TabsAfter` and `WindowsAfter` its calls (a failed first query changes neither), and after a success every window but the result's keeps its entry |
| Util.CaptureTab | scripts/util.ts:3-19 | its calls follow `CaptureTrace`: without a main tab, exactly `findOrCreateMainTab`'s calls and null. With one, those calls and then one capture, and the result is its image exactly when the capture fulfilled non-empty. The main tab is the one `MainTabTrace` determines, and it validates. It is still the browser's state of the tab and its window. No download or storage call. The tabs and windows are `TabsAfter` and `WindowsAfter` its calls, and with a main tab only its window changed |
| Util.SanitizeTimestamp | scripts/util.ts:22 | same length; every `:` and `.` becomes `-`, every other character stays |
| Util.SanitizeIdempotent | scripts/util.ts:22 | the result has no `:` or `.` left, so sanitizing again changes nothing |
| Util.DownloadFileName | scripts/util.ts:22-23 | the name starts with the given name and ends with `.png`; with a stamp, `-` and `SanitizeTimestamp(iso)` sit between, and without one nothing does |
| Util.DownloadFileNameParts | scripts/util.ts:22-23 | the file name is the given name, then `-` and exactly the sanitized stamp only when stamping, then `.png`; the part between holds no `:` or `.` |
| Util.DownloadedId | scripts/util.ts:32-37 | an id exactly when the download fulfilled with a non-zero id |
| Util.DownloadFile | scripts/util.ts:21-38 | one download of the data url under the built file name with conflict action "uniquify" and the given save-as flag; the result is `DownloadedId` of its reply |
| Util.SaveDataToSession | scripts/util.ts:229-237 | one write of the value under the key; true exactly when it succeeded, and then only that key changed |
| Util.GetDataFromSession | scripts/util.ts:239-247 | the stored value when the read succeeds and the key is present, otherwise null |
| Ranking.RankTab | scripts/actions.ts:9-15 | `[null, -1]` exactly for a tab without a (non-zero) id or a (non-empty) url; otherwise the extracted id with score 1 if active else 0; the pair has an id exactly when the tab yields one, and that id is digits |
| Ranking.RankAll | scripts/actions.ts:9-15 | the pair of each tab, in order: a tab with an id and a url gives its extracted id and score 1 if active else 0, any other tab `[null, -1]` |
| Ranking.KeepWithId | scripts/actions.ts:19 | exactly the pairs with a non-null id survive |
| Ranking.KeepWithIdCounts | scripts/actions.ts:19 | each pair with an id survives as often as it occurs in the input |
| Ranking.KeepWithIdAppend | scripts/actions.ts:19 | the filter works element by element in order: filtering a concatenation concatenates the filtered parts |
| Ranking.Insert | scripts/actions.ts:19 | inserting keeps the elements (as a multiset) and keeps a descending sequence descending |
| Ranking.RankedTaskIds | scripts/actions.ts:19 | `ids` is sorted by score, highest first, is a permutation of the surviving pairs, and every entry has an id |
| Ranking.Sort | scripts/actions.ts:19 | the result is sorted by score, highest first, and is a permutation of the input |
| Ranking.InsertKeepsOrder | scripts/actions.ts:19 | an inserted element comes before every other element of its score |
| Ranking.SortIsStable | scripts/actions.ts:19 | for every score, the elements with that score keep their input order |
| Ranking.SortHead | scripts/actions.ts:19-21 | the head of the sorted sequence is the earliest element of the highest score |
| Ranking.FirstEligible | scripts/actions.ts:11 | the first tab in query order that yields an id (and, if asked, is active); none exactly when there is no such tab |
| Ranking.CandidatesEmpty | scripts/actions.ts:9-19 | the filter leaves nothing exactly when no tab yields a task id |
| Ranking.CandidateScores | scripts/actions.ts:11-15 | every surviving pair scores 0 or 1 |
| Ranking.FirstActiveCandidate | scripts/actions.ts:9-19 | the first pair scoring 1 comes from the first active tab that yields an id, and there is none without such a tab |
| Ranking.FirstInactiveCandidate | scripts/actions.ts:9-19 | without an active yielding tab, the first pair scoring 0 comes from the first tab that yields an id |
| Ranking.RankedChoice | scripts/actions.ts:19-21 | the ranked ids are empty exactly when no tab yields an id; otherwise the head's id is the first active yielding tab's id, else the first yielding tab's id |
| Actions.PickTaskId | scripts/actions.ts:17-29 | ranking mode fails exactly when no tab yields an id, and otherwise picks the reference choice; pick-first mode gives up exactly when the first tab has no url, and otherwise picks what extraction gives for it, null included |
| Actions.ActiveTaskTabWins | scripts/actions.ts:9-29 | with an inactive task tab before an active one, ranking mode picks the active tab's task and pick-first mode the first tab's |
| Actions.PickFirstStoresNull | scripts/actions.ts:23-28 | in pick-first mode, a first tab whose url has no task id still leads to a write, of null |
| Actions.SaveTaskId | scripts/actions.ts:4-35 | fulfils only with null; no tab found means no write; a failed pick writes nothing and, in ranking mode, rejects; otherwise TASK_ID is written first and FOUND_TASK_ID = true only after it succeeded, and the session changes by exactly the writes that succeeded |
| Actions.SaveFoundTaskId | scripts/actions.ts:7-34 | the outcome and writes for the found tabs, as `SavedPick` of the pick states |
| Actions.StoreTaskId | scripts/actions.ts:32-33 | the id is written, and the found flag only after that write succeeded; the session changes by exactly the writes that succeeded |
| Actions.FeedbackRecord | scripts/actions.ts:39 | a two-element array holding the image (null exactly when there is none, otherwise that image as a string) and the save time |
| Actions.CaptureAndSaveQAFeedback | scripts/actions.ts:37-48 | the capture of the feedback url comes first and follows `CaptureTrace`, so the recorded `dataUrl` is the non-empty image of the last capture exactly when there is one. LAST_QA_FEEDBACK is written even for a null capture, and CAPTURED_FEEDBACK = true only after that write succeeded (`FeedbackWrites`). A failed write gives `[null, null]` with no download. Otherwise a download is issued exactly when there is an image and downloads are enabled, and the result is `[image, download id]` or `[image, null]` (`FeedbackResult`). The tabs and windows are `TabsAfter` and `WindowsAfter` the capture's calls: the writes and the download change neither |
| Actions.RecordFeedback | scripts/actions.ts:39-47 | for a given capture, the two writes in order, each after the previous one succeeded, the session changed by exactly the writes that succeeded, and the download and result as `FeedbackResult` states: the download is issued only for a non-empty image, so an empty one, like null, gives `["", null]` without a download |

## Left out

- `withTimeout` (scripts/util.ts:208-227) and the listener registration in `waitForTabComplete` (scripts/util.ts:192-206) are timers and event-loop concurrency. A wait is one browser call that yields an event or rejects with the timeout's message, since the listener itself never rejects. A capture is one browser call that yields an image or rejects, either with the timeout's message or with an error of `captureVisibleTab` itself; `safe` turns both into null. The listener that stays registered after a timeout is not modelled.
- `sendRuntimeMessage` (scripts/util.ts:267-277) is message passing between extension contexts, outside this core.
- Console logging is left out throughout.
- `Date.now()` and `new Date().toISOString()` are the parameters `savedAt` and `iso`. The configuration (scripts/config.ts) is passed as parameters: the urls, `ALWAYS_PICK_FIRST_TASK`, and the `FeedbackConfig` fields.
- The browser itself is a model. Other activity between calls is not represented: the user closing tabs, or other extensions writing to storage.
- Chrome.Browser.QueryTabs: does not interpret url match patterns such as `https://www.multimango.com/tasks/*`. A query may list any open tabs, in any order, because the matching rules are the browser's.
- Chrome.Browser.CreateTab: the new tab's url, status and window are the browser's choice and are not tied to the requested url. Its id is the next unused one.
- Chrome.Browser.ActivateTab: the reply differs from the stored tab only in its active flag. A real browser may report other fields changed as well.
- Chrome.Browser.FocusWindow: the reply differs from the stored window only in its focused flag.
- Promises.Safe: a thrown value other than an `Error` is given by its `String(...)` text. The `TypeError` of an empty ranking is an `Error` with its message only, so its class is not kept.
- Actions.SaveTaskId: the message of the rejection for an empty ranking is the one V8 produces for `undefined[0]`. Other engines word it differently.
- Session values are a small JSON-like `Value` type (null, booleans, strings, arrays), which is all the core stores.
- Chrome.Browser.ActivateTab: activating a tab does not deactivate the tab that was active in its window, so the stored state of other tabs is not updated as a browser would update it.
- Chrome.Browser.FocusWindow: focusing a window does not unfocus the window that had focus.
- Chrome.Browser.ActivateTab: the update may not fulfil with `undefined`, which the `!tabUpdated` test (scripts/util.ts:146) also rejects; a reply is always a tab or a failure here.
- Chrome.Browser.ReloadTab: a successful reload always leaves the reloaded tab "loading", and the tab never finishes loading on its own between calls. So after a reload the wait is skipped only when the repeated query lists another tab first, one that is already "complete".
- Util.DownloadedId: a download id of `NaN` (also falsy in JavaScript) is not considered, because ids are integers here.
- The page-load and screenshot durations (`TIMEOUT_MS`) do not appear: a timeout is a choice of the browser in the model.
