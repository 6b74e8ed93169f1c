# Verification of Luminor's desktop bookkeeping and release scripts

A Dafny 4.11 model of the parts of Luminor that keep several tables or streams
consistent at once, with proofs of what those parts are for:

- **The desktop browser manager** (`PopupForest`, `BrowserTables`, `PopupCascade`,
  `BackgroundBudget`, `BrowserManager`, `AutomationLeases`): tabs, pop-up windows that
  became tabs, live runtimes, the renderer-only and automation claims, the attached
  runtime, the budget of background runtimes, and the leases that tell agent from human.
  `DesktopBrowserManager` and `Leases` are classes; `Valid` is the invariant every
  modelled method keeps, so it holds in every state any sequence of these calls, events and
  timers can reach. The two classes own disjoint fields of the one TypeScript class.
- **The browser-host pipe** (`FrameCodec`, `PipeProtocol`, `PipeConnection`): the
  length-prefixed frame codec and one connection's requests, answers and bindings.
- **Backend shutdown and supervision** (`BackendShutdown`, `ShutdownRegistry`,
  `SupervisionPolicy`, `OutputDetectors`): the shutdown runs on both platforms, which
  operation a caller shares, restart back-off, and the detectors over sliding windows.
- **Release manifests and bulk deletion** (`JsText`, `UpdateManifest`,
  `ManifestRoundTrip`, `ManifestGrammar`, `ManifestMerge`, `ManifestZipPatch`,
  `ThreadBulkDelete`): parser,
  printer, merge and textual patch of the macOS update manifest, and the planner that
  decides which worktrees no surviving thread uses.

Electron objects are ids, UUIDs are fresh naturals (so a tab opened later has the greater
id), `Date.now()` is a clock that only moves forward, and timers, `setImmediate`
callbacks and promises are steps that may come in any order the runtime allows. A method
that the source writes with loops and mutable fields is written so here, and its
`ensures` ties it to a pure function or predicate about which the lemmas speak.

`dafny verify dfyconfig.toml` checks the whole project.

## Four properties that fail, and one bound

- **Patching a manifest text twice is not always patching it once.** The patcher splits at
  `\r?\n` and joins with `\n`, so each pass turns one CR CR LF into CR LF and the next one
  into LF. `PatchIdempotentIff` gives the exact condition on the text and the new size before
  the call, `PatchNotIdempotent` a failing text for every manifest, and `PatchIdempotent` the
  simple case of a text that has no CR CR LF.
- **A migration-recovery marker split across chunks can be missed** once a chunk is longer
  than 16384 − 30 characters. `OutputDetectors.MarkerNeverMissedIff` gives the exact bound on
  the length of the chunks of whole streams, and `PushAll` says that its streams are the
  detector's own runs; `MarkerMissed` is a stream in two chunks for every length beyond it.
- **A shutdown can time out with no force attempt made**, although the force delay has to be
  less than the timeout: Node.js fires a timer whose delay is above 2147483647 ms after one
  millisecond. `BackendShutdown.TimersInOrderIff` gives the exact condition on the two delays
  and `FailUnforced` and `FailUnforcedOnWindows` the failing runs; everything else holds
  whatever the delays.
- **A thread that another one replaces in the panel is not scheduled for suspension.** It is asked
  for while the thread is still in front, when `scheduleThreadSuspend` refuses, so its pages stay
  live. `ActivateThread` says exactly that no other thread's timer changes,
  `ReplacedIsNotScheduled` is such a run, and `Hide` and `SetPanelBounds` say that a thread that
  is hidden first is scheduled.
- **Numbers from 10^21 on are printed in exponent form**, which the parser's `\d+` refuses as a
  size and reads as text in an extra; so are fractions below 10^-6. The well-formed manifests
  have no such numbers, and `RoundTripIff`, `PatchParses` and `PatchTwiceIff` say that this
  bound is exact.

## Model

| member | source | states |
|---|---|---|
| PopupForest.PathsAscend | apps/desktop/src/browserManager.ts:1164-1224 | following openers never comes back: along any path of openers each tab is newer than all before it, so a table whose pop-ups are newer than their openers has no cycle |
| PopupForest.UnderIffPath | apps/desktop/src/browserManager.ts:1164-1224 | a tab lies under another exactly when a path of openers leads from the one to the other |
| PopupForest.AncestorsAreAChain | apps/desktop/src/browserManager.ts:1164-1224 | the opener relation is a forest: of two ancestors of a tab one lies under the other |
| PopupForest.SubtreeOfRest | apps/desktop/src/browserManager.ts:1375-1381 | while whole subtrees are removed from the popup table, what still lies under a tab is what lay there at first less what is gone |
| PopupForest.ClosedAll | apps/desktop/src/browserManager.ts:1425-1431 | closing every popup of a tab, each with what is under it, closes exactly the tab's whole subtree |
| PopupForest.OwnerKeysLeast | apps/desktop/src/browserManager.ts:1395-1419 | the protected keys are the least set with every popup's key that is closed under adopted-popup-to-opener, for any table, cyclic ones included |
| BrowserManager.DesktopBrowserManager.constructor | apps/desktop/src/browserManager.ts:413-440 | a new manager is empty, and satisfies the invariant of all the tables |
| BrowserManager.DesktopBrowserManager.PopupOwnerKeys | apps/desktop/src/browserManager.ts:1395-1419 | the chain walk with its visited set terminates on any table and returns that least set |
| BrowserManager.DesktopBrowserManager.DestroyRuntime | apps/desktop/src/browserManager.ts:3228-3308 | exactly this runtime and what is kept by its key go; if it was attached, nothing is |
| BrowserManager.DesktopBrowserManager.EnsureWorkspace | apps/desktop/src/browserManager.ts:3529-3543 | afterwards the thread has a tab and shows one of its own; a thread with tabs is left as it is |
| BrowserManager.DesktopBrowserManager.EnsureLiveRuntime | apps/desktop/src/browserManager.ts:2755-2785 | refuses exactly a renderer-only tab whose guest is missing, otherwise the tab is live and owned or already was |
| BrowserManager.DesktopBrowserManager.AttachRuntime | apps/desktop/src/browserManager.ts:2658-2705 | with a window, this runtime ends up attached and live, and a budget pass follows unless it was on show already; no runtime appears and no pop-up chain loses one |
| BrowserManager.DesktopBrowserManager.AttachActiveTab | apps/desktop/src/browserManager.ts:2622-2656 | the shown tab is live and attached, with the page it had, or the thread waits for its renderer guest; of its other tabs one at most stays live, timed, but for pop-up chains; nothing else goes but claimed pages in the background |
| BrowserManager.DesktopBrowserManager.ResumeThread | apps/desktop/src/browserManager.ts:2347-2389 | only the shown tab is woken, and a renderer-only one is neither woken nor put to sleep; of the other tabs one at most stays live, timed; the background is within the cap or timed |
| BrowserManager.DesktopBrowserManager.ActivateThread | apps/desktop/src/browserManager.ts:2294-2309 | the thread comes to the front with its shown tab attached or its guest awaited; no other thread becomes due for suspension |
| BrowserManager.ReplacedIsNotScheduled | apps/desktop/src/browserManager.ts:2294-2309 | a thread replaced in the panel is open, no longer in front, and not scheduled for suspension |
| BrowserManager.DesktopBrowserManager.ActivateThreadForPendingRenderer | apps/desktop/src/browserManager.ts:2313-2324 | the thread is in front and not about to be suspended |
| BrowserManager.DesktopBrowserManager.SuspendInactiveTabs | apps/desktop/src/browserManager.ts:2475-2525 | of the thread's idle runtimes exactly one stays, the one active last, with its timer armed; shown tabs and pop-up chains keep theirs and have no timer; other threads keep both |
| BrowserManager.DesktopBrowserManager.WarmRuntime | apps/desktop/src/browserManager.ts:2483-2500 | an idle runtime that was active last, if there is an idle one |
| BrowserManager.DesktopBrowserManager.ScheduleThreadSuspend | apps/desktop/src/browserManager.ts:2527-2540 | exactly an open thread that is not in front is scheduled |
| BrowserManager.DesktopBrowserManager.SuspendThread | apps/desktop/src/browserManager.ts:2542-2569 | a hidden thread loses all but pop-up chains and the claimed tab it shows, a budget pass over the rest follows, and none of its tabs is left with a timer |
| BrowserManager.DesktopBrowserManager.FireThreadSuspend | apps/desktop/src/browserManager.ts:2527-2540 | when the timer has fired, what is live of a hidden thread is in a pop-up chain or is the claimed tab it shows |
| BrowserManager.DesktopBrowserManager.FireTabSuspend | apps/desktop/src/browserManager.ts:2580-2608 | the tab's runtime goes unless a pop-up hangs on it |
| BrowserManager.DesktopBrowserManager.EnforceBudget | apps/desktop/src/browserManager.ts:2408-2473 | one pass is a `BudgetOutcome`; no attached, unclaimed or pop-up-chain runtime is touched, and no tab |
| BrowserManager.DesktopBrowserManager.EvictInOrder | apps/desktop/src/browserManager.ts:2438-2450 | exactly the first candidates go, as many as the excess or as there are |
| BrowserManager.DesktopBrowserManager.ArmEviction | apps/desktop/src/browserManager.ts:2457-2472 | the timer is due just after the first protection window closes |
| BrowserManager.DesktopBrowserManager.FireEviction | apps/desktop/src/browserManager.ts:2463-2472 | the armed timer runs another pass |
| BackgroundBudget.SortByActivity | apps/desktop/src/browserManager.ts:2429-2435 | the candidates, each once, least recently active first |
| BackgroundBudget.PassOutcome | apps/desktop/src/browserManager.ts:2424-2457 | evicting the first candidates, as many as the excess or as there are, leaves the count when it was within four and otherwise the greater of four and the protected; only unprotected runtimes go, in order of last activity |
| BackgroundBudget.Evicted | apps/desktop/src/browserManager.ts:2408-2473 | such an eviction with the timer set for just after the first protection window closes is the outcome a pass promises |
| BackgroundBudget.UnderCap | apps/desktop/src/browserManager.ts:2425-2426 | within the cap a pass changes nothing and arms nothing |
| BackgroundBudget.ProtectedSurvives | apps/desktop/src/browserManager.ts:2391-2399 | a runtime inside its protection window survives any pass |
| BackgroundBudget.DormantGone | apps/desktop/src/browserManager.ts:2542-2569 | what a suspended thread still has live |
| BrowserManager.DesktopBrowserManager.NoteUse | apps/desktop/src/browserManager.ts:2391-2399 | the runtime just used survives the pass its use starts |
| BrowserManager.DesktopBrowserManager.ClosePopupRuntime | apps/desktop/src/browserManager.ts:1301-1312 | the popup goes with all opened from it, tabs, claims and records alike, the rest stays in order, its opener is shown; the recursion ends because the popup count falls; in the panel its opener is attached again |
| BrowserManager.DesktopBrowserManager.RemoveAdoptedPopupTab | apps/desktop/src/browserManager.ts:1314-1340 | the tab and all under it are gone, the opener is shown, and only the opener's runtime may be new; in the panel it is attached |
| BrowserManager.DesktopBrowserManager.ClosePopupWindowsForTab | apps/desktop/src/browserManager.ts:1375-1431 | the walk over a snapshot, in any order, removes the subtree of the tab's popups and no other |
| BrowserManager.DesktopBrowserManager.ClosePopupWindowsForThread | apps/desktop/src/browserManager.ts:1421-1423 | no popup of the thread is left, and nothing of another thread changes but runtimes that may have gone |
| BrowserManager.DesktopBrowserManager.FindAdopted | apps/desktop/src/browserManager.ts:1383-1393 | finds an adopted popup of the tab exactly when there is one |
| BrowserManager.DesktopBrowserManager.RemoveTab | apps/desktop/src/browserManager.ts:1323-1331 | runtime, claims and tab go together, which keeps all tables consistent |
| BrowserManager.DesktopBrowserManager.DropThreadRuntimes | apps/desktop/src/browserManager.ts:3211-3220 | no runtime and no claim of the thread is left |
| PopupCascade.ChildClosed | apps/desktop/src/browserManager.ts:1375-1381 | one step of that walk: what closing one more child removes is what the whole then lacks, whichever were closed before |
| PopupCascade.CascadeEnd | apps/desktop/src/browserManager.ts:1425-1431 | at the end of the walk no popup comes from the tab, and of the tabs under it only it is left |
| PopupCascade.TabCutOff | apps/desktop/src/browserManager.ts:1323-1331 | cutting the tab after its popups and attaching the next one makes the close complete |
| PopupCascade.CloseRemovesWhatLiesUnder | apps/desktop/src/browserManager.ts:1291-1340 | a close removes exactly the tabs and popups that lie under the tab, and nothing of other threads; no runtime appears but the shown tab's |
| PopupCascade.NextShownAfterCascade | apps/desktop/src/browserManager.ts:2177-2179 | which tab is shown next: the last one, unless another was shown and no popup came from the closed tab |
| BrowserManager.DesktopBrowserManager.CloseOwnTab | apps/desktop/src/browserManager.ts:2155-2190 | closing a tab that is no pop-up's removes it with all opened from it and shows the right tab; in the panel that tab is attached or its guest awaited |
| BrowserManager.DesktopBrowserManager.CloseTab | apps/desktop/src/browserManager.ts:2142-2190 | an unknown tab changes nothing but the workspace; otherwise the tab and all under it go, the opener is shown if it was a pop-up, and a thread left empty gets one blank tab; in the panel the tab shown next is attached or its guest awaited; the human has taken control |
| BrowserManager.DesktopBrowserManager.CloseAutomationTab | apps/desktop/src/browserManager.ts:1689-1742 | fails exactly without an open thread and such a tab; otherwise the same close, and an emptied thread stays empty; in the panel the tab shown next is attached or its guest awaited |
| BrowserManager.DesktopBrowserManager.Close | apps/desktop/src/browserManager.ts:1791-1820 | nothing of the thread stays in any table: no tab, popup, runtime or claim; other threads are untouched |
| BrowserManager.DesktopBrowserManager.NewTab | apps/desktop/src/browserManager.ts:2117-2140 | the workspace with one fresh tab at the end, shown if asked for; in the panel a tab shown at once is attached, and for a thread not in front nothing becomes live |
| BrowserManager.DesktopBrowserManager.SelectTab | apps/desktop/src/browserManager.ts:2192-2207 | the tab asked for is shown, or the first when there is none such; in the panel it is attached or its guest awaited, and for a thread not in front nothing becomes live |
| BrowserManager.DesktopBrowserManager.Navigate | apps/desktop/src/browserManager.ts:2047-2083 | only the tab navigated may become live, exactly if its thread is in front and it is not a guest’s; on show it is attached |
| BrowserManager.DesktopBrowserManager.Open | apps/desktop/src/browserManager.ts:1744-1789 | the workspace, open; it comes to the front, its shown tab attached or awaited, exactly if the panel is set for it, no other thread is in front, and the tab is not blank |
| BrowserManager.DesktopBrowserManager.Hide | apps/desktop/src/browserManager.ts:1822-1842 | the thread is off the panel; an open one is due for suspension and the background is within the cap or timed; the human has taken control unless the thread shows a claimed tab |
| BrowserManager.DesktopBrowserManager.SetPanelBounds | apps/desktop/src/browserManager.ts:1848-1920 | a visible panel has its open thread in front with the shown tab attached or awaited; otherwise the thread leaves it, due for suspension if it was in front, and nothing else changes |
| BrowserManager.DesktopBrowserManager.ClaimTab | apps/desktop/src/browserManager.ts:2787-2806 | the claim passes from renderer to automation, a guest is let go, an owned runtime kept, and the tab turns native |
| BrowserManager.DesktopBrowserManager.PrepareAutomationTab | apps/desktop/src/browserManager.ts:1513-1537 | the thread shows a claimed native tab, its own or a fresh one, that holds no guest |
| BrowserManager.DesktopBrowserManager.SelectAutomationTab | apps/desktop/src/browserManager.ts:1540-1559 | exactly an open thread's tab is claimed and shown |
| BrowserManager.DesktopBrowserManager.PrepareAutomationNavigation | apps/desktop/src/browserManager.ts:1562-1580 | exactly an open thread's tab is claimed and shown, with no guest left in it, and no other thread's tabs change |
| BrowserManager.DesktopBrowserManager.GetAutomationRuntime | apps/desktop/src/browserManager.ts:1643-1686 | succeeds exactly on the shown tab of an open thread, which is then claimed, live and owned |
| BrowserManager.DesktopBrowserManager.AttachWebview | apps/desktop/src/browserManager.ts:1924-2023 | each outcome exactly when; a bound guest serves this tab and no other, and a refused duplicate leaves the tab's guest alone |
| BrowserManager.DesktopBrowserManager.BindGuest | apps/desktop/src/browserManager.ts:1964-1992 | binds exactly unless another live guest holds the tab, and then changes nothing |
| BrowserManager.DesktopBrowserManager.ReleaseGuest | apps/desktop/src/browserManager.ts:1955-1962 | the guest is bound to no other tab any more, and no other guest loses its tab |
| BrowserManager.DesktopBrowserManager.DetachWebview | apps/desktop/src/browserManager.ts:2027-2045 | only the guest actually bound to the tab is let go |
| BrowserTables.GuestBound | apps/desktop/src/browserManager.ts:1961-1992 | binding a guest keeps ownership equal to the renderer-only set, the two claims disjoint, and each guest on one tab |
| BrowserTables.TabClaimed | apps/desktop/src/browserManager.ts:2787-2806 | so does passing a claim to automation |
| BrowserManager.DesktopBrowserManager.RegisterPopup | apps/desktop/src/browserManager.ts:1139-1224 | an offscreen page's window is adopted as a fresh, shown, native tab with its own runtime; another is only recorded; a registered one is left as it is |
| BrowserManager.DesktopBrowserManager.AnnounceWindowOpen | apps/desktop/src/browserManager.ts:936-1008 | a tab is announced exactly when the source is current, open and has no announcement yet, under an id no tab has |
| BrowserManager.DesktopBrowserManager.CommitWindowOpen | apps/desktop/src/browserManager.ts:1029-1064 | the announced tab is added, shown and claimed exactly when its source is still current, and else forgotten |
| BrowserManager.DesktopBrowserManager.FirePublication | apps/desktop/src/browserManager.ts:1066-1091 | the timer that follows attaches the tab the thread shows by then, or its guest is awaited, exactly if the thread is in the panel, and changes nothing otherwise |
| BrowserManager.DesktopBrowserManager.ActivateRemote | apps/desktop/src/browserManager.ts:536-568 | the shown tab is offscreen and owned, unless a guest's tab is in the way |
| BrowserManager.DesktopBrowserManager.DeactivateRemote | apps/desktop/src/browserManager.ts:570-586 | exactly the adopted pop-ups with an offscreen page and all opened from them go, with their tabs and claims; no page of the thread is offscreen any more; nothing of other threads changes but runtimes that may have gone |
| BrowserManager.DesktopBrowserManager.RuntimeLost | apps/desktop/src/browserManager.ts:3071-3095 | a crashed page takes only its runtime with it, or its adopted pop-up's whole subtree; if the thread is in the panel its shown tab is attached again or its guest awaited, and nothing else becomes live |
| AutomationLeases.TaintedMore | apps/desktop/src/browserManager.ts:711-741 | what one more event does to whether a key is marked: tracked, and not cleared since by human control or a full teardown |
| AutomationLeases.ProvenanceCleared | apps/desktop/src/browserManager.ts:3356-3372 | human control leaves exactly the marks of other threads, each of its thread's current epoch |
| AutomationLeases.ProvenanceTornDown | apps/desktop/src/browserManager.ts:3228-3253 | a teardown clears its key's mark exactly when it is not a preserving one |
| AutomationLeases.Leases.HandleDownload | apps/desktop/src/browserManager.ts:911-934 | a download is prevented exactly when the history has a tracking of its key with no human control and no full teardown since |
| AutomationLeases.Leases.TrackDownload | apps/desktop/src/browserManager.ts:711-741 | the tracking enters the history, with a gesture lease of its own |
| AutomationLeases.Leases.MarkHumanControl | apps/desktop/src/browserManager.ts:3356-3372 | human control enters the history and raises the epoch by one |
| AutomationLeases.Leases.TearDown | apps/desktop/src/browserManager.ts:3228-3253 | announcements go, and count no more; gesture depth and mark go unless preserved |
| AutomationLeases.LeaseReleased | apps/desktop/src/browserManager.ts:750-757 | lowering the depth, never below zero, keeps it within the open leases, and equal to them for a key not torn down |
| AutomationLeases.AllReleasedMeansZero | apps/desktop/src/browserManager.ts:743-757 | with every lease of a key disposed of, in any order and however often, the depth is zero |
| AutomationLeases.Leases.BeginGesture | apps/desktop/src/browserManager.ts:743-748 | one deeper, under a lease of its own |
| AutomationLeases.Leases.EndGesture | apps/desktop/src/browserManager.ts:691-701 | disposing twice is disposing once |
| AutomationLeases.Leases.GestureActive | apps/desktop/src/browserManager.ts:3421-3423 | an active gesture has an open lease, and for a key not torn down the two are the same |
| AutomationLeases.Leases.ExpectInput | apps/desktop/src/browserManager.ts:3380-3396 | the announcement counts, for 1000 ms; only one with 64 later ones for its key is ever pushed out |
| AutomationLeases.Leases.ReleaseInput | apps/desktop/src/browserManager.ts:3397-3418 | its window is cut to 100 ms from the first release and its gesture ends; no other announcement counts more or less |
| AutomationLeases.Leases.ConsumeInput | apps/desktop/src/browserManager.ts:3450-3472 | an input is the agent's exactly when an announcement of its key matches that is not used up, forgotten or pushed out and whose window is open; the oldest such is used up |
| AutomationLeases.MatchesIff | apps/desktop/src/browserManager.ts:383-411 | an input fits an announcement with the same modifiers and the same key, in either case and under either name of the space bar; a click with the announced button, or any if none was, at most a pixel and a half off |
| AutomationLeases.Leases.ObserveInput | apps/desktop/src/browserManager.ts:2903-2925 | the same for an input on a page; any other is human control of the thread, after which the page's downloads are its own again |
| AutomationLeases.ConsumedOne | apps/desktop/src/browserManager.ts:3456-3472 | inputs taken for the agent's stay one to one with announcements of their key that match them, each inside its window |
| AutomationLeases.PushedHasLater | apps/desktop/src/browserManager.ts:3390-3394 | what makes way for a new announcement has 63 live ones after it |
| FrameCodec.HeaderRoundTrip | apps/desktop/src/browserUsePipeServer.ts:173-182 | in either byte order a header reads back as the length written |
| FrameCodec.DecodeFrames | apps/desktop/src/browserUsePipeServer.ts:184-201 | the loop decodes the whole buffer from the front |
| FrameCodec.DecodedIff | apps/desktop/src/browserUsePipeServer.ts:184-201 | a buffer decodes to messages and a remainder exactly when it is those messages' frames, each within the limit, followed by that remainder, an incomplete frame |
| FrameCodec.RejectedIff | apps/desktop/src/browserUsePipeServer.ts:192 | and is rejected exactly when after some whole frames a header announces too much |
| FrameCodec.ChunkingIrrelevant | apps/desktop/src/browserUsePipeServer.ts:348-355 | however a stream is cut into chunks, the connection is destroyed or delivers and keeps what the whole stream decodes to |
| FrameCodec.SameBytesSameOutcome | apps/desktop/src/browserUsePipeServer.ts:348-355 | two cuts of the same bytes end alike |
| FrameCodec.RemainingIsShort | apps/desktop/src/browserUsePipeServer.ts:192-194 | what waits is always shorter than a header and the largest message |
| FrameCodec.WrittenIsAccepted | apps/desktop/src/browserUsePipeServer.ts:556-563 | the size rule of `write` lets through exactly the frames that are, header included, no longer than a message may be; the decoder takes them all, with any cut at the end |
| PipeProtocol.HandleKeepsBinding | apps/desktop/src/browserUsePipeServer.ts:436-499 | every handler keeps: forwarded calls carry the bound session and thread, bindings come from a `getInfo` with the capability, and a bound connection is never rebound |
| PipeProtocol.CallsAreScoped | apps/desktop/src/browserUsePipeServer.ts:471-499 | all calls forwarded on a connection name one session and one thread, the session of an earlier `getInfo` that knew the capability |
| PipeProtocol.GrantedIff | apps/desktop/src/browserUsePipeServer.ts:416-518 | read off what was granted before: a `getInfo` is granted exactly when it knows the capability and names the connection's session if it has one, a tool call exactly when it is complete, names that session, and no call went to another thread; it is forwarded with just those fields; each refusal has its code |
| PipeProtocol.FrameTaken | apps/desktop/src/browserUsePipeServer.ts:355-391 | taking a frame keeps: each frame owed an answer has exactly one or a handler at work on it |
| PipeProtocol.TaskSettled | apps/desktop/src/browserUsePipeServer.ts:393-413 | so does settling a handler with its one answer |
| PipeProtocol.AllAnswered | apps/desktop/src/browserUsePipeServer.ts:355-413 | once no handler is at work on a frame it has one answer, with its id, exactly when it is owed one |
| PipeProtocol.ControllerRemoved | apps/desktop/src/browserUsePipeServer.ts:411-413 | a settled handler takes away its own controller and no other |
| PipeProtocol.StartKeepsAll | apps/desktop/src/browserUsePipeServer.ts:391-399 | starting a handler keeps all of it: answers, controllers, bindings and the bound on handlers |
| PipeConnection.Connection.HandleData | apps/desktop/src/browserUsePipeServer.ts:348-375 | all whole frames of a chunk are taken in order, or the chunk is rejected, exactly as the whole stream decodes; earlier controllers, answers and bindings stay |
| PipeConnection.Connection.TakeFrame | apps/desktop/src/browserUsePipeServer.ts:355-391 | a frame is admitted exactly below the limit; a handler that throws at once has answered and freed its id before the next frame of the chunk, and every other one is registered; the trace grows by just what is due |
| PipeConnection.Connection.Refuse | apps/desktop/src/browserUsePipeServer.ts:356-369 | a frame over the limit is answered if it has an id, and starts nothing |
| PipeConnection.Connection.Duplicate | apps/desktop/src/browserUsePipeServer.ts:380-390 | a duplicate id is answered at once and leaves the original's controller alone |
| PipeConnection.Connection.Start | apps/desktop/src/browserUsePipeServer.ts:391-434 | a request with a free id gets a controller of its own and the verdict of its handler on the connection as bound so far |
| PipeConnection.Connection.Begin | apps/desktop/src/browserUsePipeServer.ts:391-434 | up to its first suspension: a handler that throws has bound nothing, its one answer is out and its id is free; any other is at work under its id |
| PipeConnection.Connection.Ignore | apps/desktop/src/browserUsePipeServer.ts:378-379 | a malformed frame holds a place, and nothing answers it |
| PipeConnection.Connection.Conclude | apps/desktop/src/browserUsePipeServer.ts:393-413 | whether a handler returned or threw, exactly one answer goes out and its controller is gone |
| PipeConnection.Connection.Settle | apps/desktop/src/browserUsePipeServer.ts:393-413 | so for a handler that waited, with its own verdict or the reply it waited for |
| PipeConnection.Connection.Retire | apps/desktop/src/browserUsePipeServer.ts:371-373 | the in-flight count falls by one and stays the number of handlers not done with |
| PipeConnection.Connection.Close | apps/desktop/src/browserUsePipeServer.ts:333-345 | every handler at work is aborted and no controller is left |
| PipeConnection.Connection.Write | apps/desktop/src/browserUsePipeServer.ts:556-578 | when a message is written, dropped or fatal; what was sent always decodes |
| PipeConnection.Connection.Notify | apps/desktop/src/browserUsePipeServer.ts:564-567 | a notification that does not fit the queue is dropped, and only too large a message is fatal |
| BackendShutdown.LogMeans | apps/desktop/src/backendShutdown.ts:192-271 | of any run: one settlement at most, each signal once at most and none after it, success only with the child gone, failure only with it running, and with the timers in order only after force was used |
| BackendShutdown.SettlingLogged | apps/desktop/src/backendShutdown.ts:212-221 | settling keeps that |
| BackendShutdown.SignalLogged | apps/desktop/src/backendShutdown.ts:225-239 | so does a signal not sent before, while not settled |
| BackendShutdown.PosixShutdown.Run | apps/desktop/src/backendShutdown.ts:241-270 | whatever happens inside `kill`, the run has settled, or waits with listener and deadline armed and the force attempt made or armed |
| BackendShutdown.TimersInOrderIff | apps/desktop/src/backendShutdown.ts:283-291 | for every force delay below the timeout: the force timer is due no later than the deadline exactly when the timeout fits a Node.js timer, or the force delay is under 2 ms or fits none either |
| BackendShutdown.FailUnforced | apps/desktop/src/backendShutdown.ts:241-268 | whenever it is due later, a run on POSIX fails with no force attempt |
| BackendShutdown.FailUnforcedOnWindows | apps/desktop/src/backendShutdown.ts:385-405 | and a run on Windows, its request started or not |
| BackendShutdown.PosixShutdown.FireTimer | apps/desktop/src/backendShutdown.ts:225-268 | the timer due first fires first: force is attempted before the deadline if the timers are in order, and the deadline settles; what each does, and nothing before it is due |
| BackendShutdown.PosixShutdown.FireDueTimers | apps/desktop/src/backendShutdown.ts:262-268 | by the deadline the operation has settled |
| BackendShutdown.PosixShutdown.Play | apps/desktop/src/backendShutdown.ts:200-269 | over any events: success only if the child had exited or some event made it exit, waiting settles nothing, and an exit event or a turn of the timers at the deadline settles; it never fails before the deadline is due, nor uses force before its delay is over |
| BackendShutdown.PosixShutdown.Settle | apps/desktop/src/backendShutdown.ts:207-221 | a second settling changes nothing, and the first leaves no listener and no timer |
| BackendShutdown.PosixShutdown.Signal | apps/desktop/src/backendShutdown.ts:231-246 | a signal enters the log once, and an exit event inside the call settles at once |
| BackendShutdown.PosixShutdown.ForceIfRunning | apps/desktop/src/backendShutdown.ts:225-239 | one SIGKILL to a child that runs, none to one that has exited; it settles exactly if the child has exited |
| BackendShutdown.PosixShutdown.ExitEvent | apps/desktop/src/backendShutdown.ts:222-224 | an exit settles |
| BackendShutdown.WindowsShutdown.StartRequest | apps/desktop/src/backendShutdown.ts:346-362 | an exit inside `startRequest` is not missed and the request it returns is cancelled, once |
| BackendShutdown.WindowsShutdown.Run | apps/desktop/src/backendShutdown.ts:319-406 | as on POSIX; an exit during the request settles without force |
| BackendShutdown.WindowsShutdown.Settle | apps/desktop/src/backendShutdown.ts:326-338 | settling cancels a started request, once |
| BackendShutdown.WindowsShutdown.ForceIfRunning | apps/desktop/src/backendShutdown.ts:369-383 | as on POSIX, with the request cancelled when it settles |
| BackendShutdown.WindowsShutdown.FireTimer | apps/desktop/src/backendShutdown.ts:369-405 | as on POSIX |
| BackendShutdown.WindowsShutdown.Play | apps/desktop/src/backendShutdown.ts:319-406 | over any events, answers to the request among them: success only if the child had exited or some event made it exit, no number of answers and no waiting settles anything, and an exit event or a turn of the timers at the deadline settles; it never fails before the deadline is due, nor uses force before its delay is over |
| BackendShutdown.WindowsShutdown.FireDueTimers | apps/desktop/src/backendShutdown.ts:396-405 | by the deadline the operation has settled |
| ShutdownRegistry.OneLivePerChild | apps/desktop/src/backendShutdown.ts:293-303 | a child never has two operations that have not ended |
| ShutdownRegistry.PosixRangeIff | apps/desktop/src/backendShutdown.ts:283-291 | the arguments pass exactly if both are numbers and the force delay, not negative, comes before the timeout, and which error is reported otherwise |
| ShutdownRegistry.PosixRegistry.Stop | apps/desktop/src/backendShutdown.ts:278-304 | bad arguments are refused even during an operation; otherwise the operation under way is returned, or a new one started |
| ShutdownRegistry.PosixRegistry.CleanUp | apps/desktop/src/backendShutdown.ts:297-301 | the callback's guard never fails: it removes its own operation and never a newer one |
| ShutdownRegistry.WindowsRegistry.Stop | apps/desktop/src/backendShutdown.ts:414-448 | an operation under way, or one that ended in exit, is returned for good and before the arguments are judged |
| ShutdownRegistry.WindowsRegistry.CleanUp | apps/desktop/src/backendShutdown.ts:442-446 | only a timed-out operation makes way for another |
| SupervisionPolicy.RestartDelayDoubles | apps/desktop/src/backendSupervisionPolicy.ts:28-31 | delays start at 500 ms and double up to 10 s |
| SupervisionPolicy.BackendSupervisionPolicy.RespondToStartFailure | apps/desktop/src/backendSupervisionPolicy.ts:90-117 | one answer and one step of the run the lemmas below are about |
| SupervisionPolicy.BackendSupervisionPolicy.RecordReadiness | apps/desktop/src/backendSupervisionPolicy.ts:79-88 | readiness clears counter and breaker, but not the one offer of recovery |
| SupervisionPolicy.RetriesFollowSchedule | apps/desktop/src/backendSupervisionPolicy.ts:60-118 | over any run: between two resets the retries are the first of (500, 1000, 2000, 4000), one per counted failure, and the policy has given up exactly at five failures |
| SupervisionPolicy.NoRetryAfterGivingUp | apps/desktop/src/backendSupervisionPolicy.ts:102-110 | after giving up no retry comes before a reset or readiness |
| SupervisionPolicy.WaitingIsBounded | apps/desktop/src/backendSupervisionPolicy.ts:11-22 | the delays between two resets add up to 7500 ms when it gives up, and never to more |
| SupervisionPolicy.RecoveryIsNotAFailure | apps/desktop/src/backendSupervisionPolicy.ts:90-100 | it is offered at the first failure that finds the marker, and that failure is not counted |
| SupervisionPolicy.RecoveryIsOfferedOnce | apps/desktop/src/backendSupervisionPolicy.ts:97-100 | recovery is offered at most once in the policy's life, across resets |
| OutputDetectors.BackendOutputTailDetector.Push | apps/desktop/src/backendSupervisionPolicy.ts:121-135 | the tail is the last 8192 characters of everything seen, carriage returns apart |
| OutputDetectors.BackendStartupBlockDetector.Push | apps/desktop/src/backendStartupBlock.ts:19-47 | a found block never changes, and until then it is what the last 16384 characters of the stream say |
| OutputDetectors.NotMissed | apps/desktop/src/backendStartupBlock.ts:23-31 | a text new in the stream ends in the new chunk, so a window with room for it shows it |
| OutputDetectors.MarkerMissed | apps/desktop/src/backendStartupBlock.ts:24-26 | for every greater length, two chunks up to it whose stream holds a marker that no window shows |
| OutputDetectors.NoneMissed | apps/desktop/src/backendStartupBlock.ts:23-31 | a stream in chunks of at most 16384 − 30 characters that holds a marker has led to a block |
| OutputDetectors.MarkerNeverMissedIff | apps/desktop/src/backendStartupBlock.ts:23-31 | streams in chunks of at most n characters never hide a marker exactly when n is at most 16384 − 30 |
| OutputDetectors.PushAll | apps/desktop/src/backendStartupBlock.ts:19-47 | the detector, fed any stream, has found what the lemmas say of that stream, so it misses a marker exactly where they say so |
| OutputDetectors.LastOfLast | apps/desktop/src/backendStartupBlock.ts:23-26 | cutting to the window chunk by chunk keeps what cutting the whole would |
| OutputDetectors.OwnerIsLeftmost | apps/desktop/src/backendStartupBlock.ts:38 | the owner's digits are those of the leftmost match of the expression |
| OutputDetectors.VerdictIff | apps/desktop/src/backendStartupBlock.ts:28-47 | a window means recovery exactly when it holds that marker, and a locked database exactly when, without it, the first lock error is followed by its owner, whose safe positive number is reported, or by the end of a line |
| OutputDetectors.OwnerDigitsIff | apps/desktop/src/backendStartupBlock.ts:38 | a match at a position captures one run of digits and no other |
| UpdateManifest.ParseManifest | scripts/merge-mac-update-manifests.ts:70-183 | one pass with mutable cursors computes the fold `Parsed`, of which `ParsedIff` says what it means |
| ManifestGrammar.ParsedIff | scripts/merge-mac-update-manifests.ts:70-183 | for every text: it parses exactly when each line is of a known kind, every digest and size stands in a record, every record has both, and version and date are given as text; then files come in order with their last digest and size, and every key has its last value |
| ManifestGrammar.PlacedIff | scripts/merge-mac-update-manifests.ts:92-117 | a digest or size stands in a record when an url comes before it with no top-level entry in between |
| ManifestGrammar.IdleLineIgnored | scripts/merge-mac-update-manifests.ts:80-82 | a blank line, or a top-level `path` or `sha512` before another entry, leaves what any text parses to as it is |
| ManifestGrammar.LegacyParses | scripts/merge-mac-update-manifests.ts:157-159 | a printed manifest with the old format’s `path` and `sha512` before its date parses to the manifest |
| UpdateManifest.SerializeManifest | scripts/merge-mac-update-manifests.ts:245-265 | the printed lines, extras in sorted order |
| JsText.SplitJoin | scripts/merge-mac-update-manifests.ts:71 | splitting at line ends undoes joining |
| JsText.MatchValueIsGreedy | scripts/merge-mac-update-manifests.ts:84 | the captured value is that of the greedy match of `\s*(.+)$` |
| JsText.QuotesRoundTrip | scripts/merge-mac-update-manifests.ts:26-31 | undoubling undoes the quote doubling of section 7.3.2 of YAML 1.2.2 |
| JsText.NumberRoundTrip | scripts/merge-mac-update-manifests.ts:111 | a whole number is printed as digits that read back as itself exactly below 10^21 |
| ManifestRoundTrip.PrintedOutcome | scripts/merge-mac-update-manifests.ts:70-183 | for every manifest of single-line fields: exactly when its text parses, and to what, numbers in exponent form included |
| ManifestRoundTrip.ParsedClean | scripts/merge-mac-update-manifests.ts:70-183 | what the parser can produce at all, from any text |
| ManifestRoundTrip.WellFormedIff | scripts/merge-mac-update-manifests.ts:57-68 | the well-formed manifests are the readable ones that read back unchanged |
| ManifestRoundTrip.RoundTripIff | scripts/merge-mac-update-manifests.ts:234-265 | a manifest, whatever its extras, survives printing and parsing exactly when it is well formed: plain fields, and no number that is printed in exponent form |
| ManifestRoundTrip.SameNumberIff | scripts/merge-mac-update-manifests.ts:57-68 | two number literals are read as the same value, and so merge, exactly when they denote the same number |
| ManifestMerge.MergeManifests | scripts/merge-mac-update-manifests.ts:204-232 | succeeds exactly when versions agree and no url or extra conflicts, with the join; what each error means |
| ManifestMerge.MergeExtras | scripts/merge-mac-update-manifests.ts:185-202 | succeeds exactly when no shared key differs, with the union |
| ManifestMerge.MergeCommutes | scripts/merge-mac-update-manifests.ts:204-232 | commutative up to the order of files, failure included |
| ManifestMerge.MergeAssociates | scripts/merge-mac-update-manifests.ts:204-232 | associative to the very order of files, failure included |
| ManifestMerge.MergeIdempotent | scripts/merge-mac-update-manifests.ts:204-232 | a manifest merges with itself exactly when its files are consistent, losing only repeated urls |
| ManifestMerge.JoinIncludesBoth | scripts/merge-mac-update-manifests.ts:225-231 | the result holds both inputs, once per url, with the later date |
| JsText.TextLeqIff | scripts/merge-mac-update-manifests.ts:227-228 | the order of dates: a text comes first that is the start of the other or has the smaller code unit where they first differ |
| ManifestMerge.JoinIsLeast | scripts/merge-mac-update-manifests.ts:214-231 | manifests can be merged as soon as some consistent one holds both, and the merge is the least such |
| ManifestMerge.FirstSeenOrder | scripts/merge-mac-update-manifests.ts:214-229 | files come in the order their urls were first seen |
| ManifestMerge.MergeKeepsWellFormed | scripts/merge-mac-update-manifests.ts:204-265 | a merge of well-formed manifests survives printing and parsing |
| ManifestZipPatch.UpdateZipEntry | scripts/lib/mac-update-zip.ts:94-163 | the walk with its flags computes the fold `Patched` |
| ManifestZipPatch.PatchAgrees | scripts/lib/mac-update-zip.ts:94-163 | patching the printed text is printing the patched manifest; it fails exactly when no file has the url |
| ManifestZipPatch.LegacyPatched | scripts/lib/mac-update-zip.ts:134-147 | in a text of the old format the top-level digest is replaced exactly if the path before it is the zip’s |
| ManifestZipPatch.LegacyDigestMissing | scripts/lib/mac-update-zip.ts:156-160 | and it is an error if that path has no digest after it |
| ManifestZipPatch.PatchParses | scripts/lib/mac-update-zip.ts:94-163 | the patched text parses to the manifest with that file's digest and size replaced and all else unchanged, exactly when the new digest is a plain field and the new size below 10^21 |
| ManifestZipPatch.PatchTwiceIff | scripts/lib/mac-update-zip.ts:99-162 | patching the result again changes nothing exactly when the result has no CR LF and the size is below 10^21 |
| ManifestZipPatch.PatchIdempotentIff | scripts/lib/mac-update-zip.ts:99-162 | which is exactly when the size is below 10^21 and, in the text given, no line left with a carriage return at its end is followed by a line that stays |
| ManifestZipPatch.PatchIdempotent | scripts/lib/mac-update-zip.ts:99-162 | so in every text without CR CR LF it depends on the size alone |
| ManifestZipPatch.PatchNotIdempotent | scripts/lib/mac-update-zip.ts:99-162 | a blank line with a stray carriage return before any manifest breaks it |
| ThreadBulkDelete.BuildPlan | scripts/lib/thread-bulk-delete.ts:145-207 | the plan, its loop asking anew for each orphan, is the one the lemmas speak of |
| ThreadBulkDelete.OrphanedIff | scripts/lib/thread-bulk-delete.ts:117-143 | a path is orphaned by a deleted thread exactly when it may cause a removal and no survivor uses the path |
| ThreadBulkDelete.IdsDecide | scripts/lib/thread-bulk-delete.ts:88-115 | with ids a thread matches exactly by its id |
| ThreadBulkDelete.MatchesIff | scripts/lib/thread-bulk-delete.ts:88-115 | without ids an empty selector takes nothing, one folder, title or pattern takes what has it, and two selectors together take what either takes |
| ThreadBulkDelete.PlanRemovesOrphans | scripts/lib/thread-bulk-delete.ts:173-197 | a worktree is planned exactly when a matched thread of the removal folder has it and no unmatched thread uses it; no path is listed twice, and its entry lists exactly the threads that cause it, each once |
| ThreadBulkDelete.CandidatesAgreeWithPlan | scripts/lib/thread-bulk-delete.ts:150-206 | each candidate's own verdict agrees with the plan, and candidates and survivors add up |
| ThreadBulkDelete.CandidatesAre | scripts/lib/thread-bulk-delete.ts:150-171 | the candidates are the matched threads, whatever the order of titles |
| ThreadBulkDelete.GroupedEntries | scripts/lib/thread-bulk-delete.ts:174-197 | the map has one entry per path, with all candidates that orphan it in order and the first one's project |
| ThreadBulkDelete.MoreMatchedMoreRemoved | scripts/lib/thread-bulk-delete.ts:145-207 | a selector that matches at least the threads another one does plans every worktree the other plans, with at least its threads |

## Left out

- Tab status, addresses, titles, errors, favicons, state versions and emitted snapshots: not every mutation bumps the version, and none of them decides what is modelled.
- Replacing the window, disposing of the manager, reload, history, screenshots, developer tools, annotations, panel geometry and view visibility: foreign calls or whole-table clears.
- `resizeRemoteRuntime`, which marks a thread remote as `ActivateRemote` does for a thread without an open tab, and `getState`, which makes an empty thread known.
- BrowserManager.DesktopBrowserManager.FirePublication: may come at any time; which publications are still pending and which a teardown has cancelled is not kept.
- Reading `webContents.isDestroyed()`: a destroyed page is the step `RuntimeLost`.
- A runtime key is a pair of thread and tab rather than their text joined by a colon.
- BrowserManager.DesktopBrowserManager.Open: takes the branch that goes on to `navigate` as a separate call of `Navigate`, because addresses are not modelled; `blank` stands for whether the shown address is blank.
- BrowserManager.DesktopBrowserManager.Navigate: the loading itself is a foreign call.
- BrowserManager.DesktopBrowserManager.SetPanelBounds: replacing a guest by a native view is not written out, because a guest's tab is always renderer-only and the branch cannot be reached.
- BrowserManager.DesktopBrowserManager.AttachActiveTab: destroying an owned runtime of a renderer-only tab is not written out for the same reason, here and in `ResumeThread`.
- BrowserManager.DesktopBrowserManager.RemoveAdoptedPopupTab: the branch for a popup whose tab is missing is not written out, because an adopted popup's tab is always in its thread.
- BrowserManager.DesktopBrowserManager.ClosePopupWindowsForTab: walks the snapshot in any order rather than in insertion order.
- BackgroundBudget.SortByActivity: leaves the order of equally recent runtimes open, where the source keeps insertion order.
- BrowserManager.DesktopBrowserManager.DeactivateRemote: takes the offscreen pages in any order, and leaves open which idle pages of the thread the final attachment suspends.
- AutomationLeases.Leases.TearDown: takes whether a download listener is registered as a parameter; exact listener sets after a teardown are not claimed, since a stale disposer may delete a newer set.
- Key names are lower-cased as ASCII letters only, where the source uses the en-US locale.
- UTF-8 and JSON decoding, comparison timing, socket backpressure, pipe paths and permissions, the schema of browser control requests, and remote-frame subscriptions: a reply that arrives after close is added after the clear, so their release cannot be claimed.
- Request ids are strings, numbers or null; an id that is an object, an array or a boolean is not modelled.
- Timers fire in the order they fall due, and of two due together the one armed first; that a callback may run later than due is a step of waiting.
- The HTTP request of a Windows shutdown, its address check and its token: `startRequest` is an effect.
- Text is a sequence of characters rather than of UTF-16 units, which differ in how supplementary characters are counted and ordered.
- Numbers in a manifest are exact decimals: the source reads digits as the nearest double, prints the shortest digits that read back as the same double, and prints numbers beyond the largest double as `Infinity`.
- ManifestMerge.MergeExtras: tells apart two literals that differ but round to the same double, which the source takes for one number.
- ManifestMerge.MergeManifests: tells apart two sizes that differ but round to the same double, likewise.
- Extras are a plain map, so keys named like members of `Object.prototype` behave like any other.
- ManifestZipPatch.PatchTwiceIff: takes a digest without line terminators, as base64 digests are.
- ManifestZipPatch.PatchIdempotentIff: takes a digest without line terminators, as base64 digests are.
- The other helpers of `mac-update-zip.ts` (archive listings, validation) add only easy members.
- ThreadBulkDelete.PlanRemovesOrphans: takes thread ids as unique, as the primary key of the table they are read from makes them.
- How a title matches a pattern and how the locale orders text are parameters of the planner; a pattern that is no valid regular expression is not modelled.
- The bulk deletion itself: reading the database, purging, and the command line.
- `summarizeBackendFailureOutput`, `runAfterDesktopShutdown` and the other one-line helpers beside the modelled code.
- Build, signing, provenance and transcription scripts, and the rest of the application.
