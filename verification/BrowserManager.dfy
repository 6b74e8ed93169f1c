/**
 `DesktopBrowserManager` of `apps/desktop/src/browserManager.ts`: the methods that update
 tabs, pop-up windows, live runtimes and claims together. `Valid` is what every one of them keeps.
*/
module BrowserManager {
  import opened Wrappers
  import opened PopupForest
  import opened BrowserTables
  import opened BackgroundBudget
  import opened PopupCascade

  class DesktopBrowserManager {
    var states: States
    var popups: Popups
    var runtimes: Runtimes
    var rendererOnly: set<Key>
    var automation: set<Key>
    var protectedUntil: map<Key, nat>
    var lastActive: map<Key, nat>
    var attached: Option<Key>
    var activeThread: Option<ThreadId>
    var boundsThread: Option<ThreadId>
    var remote: set<ThreadId>
    var pendingOpens: map<Key, PendingOpen>
    var threadTimers: set<ThreadId>
    var tabTimers: set<Key>
    var evictionTimer: Option<nat>
    var now: nat
    var nextTab: TabId
    var nextContents: nat
    const hasWindow: bool
    /** The threads in which a human has taken control, in order. */
    ghost var control: seq<ThreadId>

    predicate Valid()
      reads `states, `popups, `runtimes, `rendererOnly, `automation, `attached, `pendingOpens, `nextTab
    {
      && TabTablesOk(states, popups, pendingOpens, nextTab)
      && RuntimeTablesOk(states, runtimes, rendererOnly, automation, attached)
    }

    constructor (hasWindow: bool)
      ensures Valid()
      ensures states == map[] && popups == map[] && runtimes == map[] && attached == None
      ensures rendererOnly == {} && automation == {} && protectedUntil == map[] && lastActive == map[]
      ensures activeThread == None && boundsThread == None && remote == {} && pendingOpens == map[]
      ensures threadTimers == {} && tabTimers == {} && evictionTimer == None && this.hasWindow == hasWindow
      ensures now == 0 && nextTab == 0 && nextContents == 0 && control == []
    {
      states, popups, runtimes, rendererOnly, automation := map[], map[], map[], {}, {};
      protectedUntil, lastActive, attached, activeThread, boundsThread := map[], map[], None, None, None;
      remote, pendingOpens, threadTimers, tabTimers, evictionTimer := {}, map[], {}, {}, None;
      now, nextTab, nextContents := 0, 0, 0;
      this.hasWindow := hasWindow;
      control := [];
    }

    // ------------------------------------------------------------- runtimes

    /** `destroyRuntime`. */
    method DestroyRuntime(key: Key)
      requires Valid()
      modifies `runtimes, `attached, `lastActive, `protectedUntil, `tabTimers, `pendingOpens
      ensures Valid()
      ensures runtimes == old(runtimes) - {key}
      ensures attached == if old(attached) == Some(key) then None else old(attached)
      ensures lastActive == old(lastActive) - {key} && protectedUntil == old(protectedUntil) - {key}
      ensures pendingOpens == old(pendingOpens) - {key} && tabTimers == old(tabTimers) - {key}
    {
      hide TabsOk, ForestOk, PopupTabsOk, RuntimeTablesOk;
      assert attached.Some? ==> attached.value in runtimes by {
        AttachedLive(states, runtimes, rendererOnly, automation, attached);
      }
      RuntimesDropped(states, runtimes, rendererOnly, automation, attached, {key},
                      if attached == Some(key) then None else attached);
      pendingOpens := pendingOpens - {key};
      tabTimers := tabTimers - {key};
      lastActive := lastActive - {key};
      protectedUntil := protectedUntil - {key};
      if key !in runtimes { return; }
      if attached == Some(key) { attached := None; }
      runtimes := runtimes - {key};
    }

    /** `getPopupOwnerRuntimeKeys`: walks opener chains with a visited set, for any popup table at all. */
    method PopupOwnerKeys() returns (keys: set<Key>)
      ensures keys == OwnerKeys(popups)
    {
      var adoptedByKey: map<Key, Popup> := map[];
      var pending := popups.Keys;
      while pending != {}
        invariant pending <= popups.Keys
        invariant forall k | k in adoptedByKey :: exists v :: v in popups && popups[v] == adoptedByKey[k]
        decreases pending
      {
        var w :| w in pending;
        pending := pending - {w};
        if popups[w].Adopted() { adoptedByKey := adoptedByKey[popups[w].OwnKey() := popups[w]]; }
      }
      keys := {};
      ghost var ownKeys := set w | w in popups :: popups[w].OwnKey();
      pending := popups.Keys;
      while pending != {}
        invariant pending <= popups.Keys
        invariant keys <= OwnerKeys(popups)
        invariant forall w | w in popups && w !in pending ::
                    popups[w].OwnKey() in keys
                    && (popups[w].Adopted() ==> Key(popups[w].thread, popups[w].opener.value) in keys)
        decreases pending
      {
        var w :| w in pending;
        pending := pending - {w};
        var current := Some(popups[w]);
        var visited: set<Key> := {};
        ghost var before := keys;
        while current.Some?
          invariant before <= keys <= OwnerKeys(popups)
          invariant visited <= ownKeys
          invariant current.Some? ==> exists v :: v in popups && popups[v] == current.value
          invariant (visited == {} && current == Some(popups[w]))
                 || (popups[w].OwnKey() in keys
                     && (popups[w].Adopted() ==> Key(popups[w].thread, popups[w].opener.value) in keys))
          decreases ownKeys - visited, current.Some?
        {
          var key := current.value.OwnKey();
          if key in visited { break; }
          visited := visited + {key};
          keys := keys + {key};
          if !current.value.Adopted() { break; }
          var openerKey := Key(current.value.thread, current.value.opener.value);
          keys := keys + {openerKey};
          current := if openerKey in adoptedByKey then Some(adoptedByKey[openerKey]) else None;
        }
      }
    }

    /** The eviction loop: destroys candidates in turn while the set is over the cap. */
    method EvictInOrder(candidates: seq<Key>, excess: nat) returns (n: nat)
      requires Valid()
      requires forall i | 0 <= i < |candidates| :: attached != Some(candidates[i])
      modifies `runtimes, `attached, `lastActive, `protectedUntil, `tabTimers, `pendingOpens
      ensures Valid() && attached == old(attached)
      ensures n == if |candidates| < excess then |candidates| else excess
      ensures runtimes == old(runtimes) - Elements(candidates[..n])
      ensures tabTimers == old(tabTimers) - Elements(candidates[..n])
      ensures protectedUntil == old(protectedUntil) - Elements(candidates[..n])
              && lastActive == old(lastActive) - Elements(candidates[..n])
    {
      hide TabTablesOk, RuntimeTablesOk;
      n := 0;
      ghost var gone: set<Key> := {};
      assert Elements(candidates[..0]) == {};
      hide Elements;
      while n < |candidates| && n < excess
        invariant Valid() && attached == old(attached)
        invariant 0 <= n <= |candidates| && n <= excess
        invariant gone == Elements(candidates[..n])
        invariant runtimes == old(runtimes) - gone && protectedUntil == old(protectedUntil) - gone
        invariant tabTimers == old(tabTimers) - gone
                  && lastActive == old(lastActive) - gone
      {
        PrefixGrows(candidates, n);
        gone := gone + {candidates[n]};
        DestroyRuntime(candidates[n]);
        n := n + 1;
      }
    }

    /** Arms the eviction timer for just after the first protection window closes. */
    method ArmEviction(waiting: set<Key>, ghost windows: map<Key, nat>)
      requires |waiting| > MAX_BACKGROUND
      requires forall k | k in waiting :: Stamp(windows, k) == Stamp(protectedUntil, k) > now
      modifies `evictionTimer
      ensures TimerAfterPass(waiting, windows, now, evictionTimer)
    {
      LeastExists(waiting, protectedUntil);
      var first :| first in waiting
                   && forall k | k in waiting :: Stamp(protectedUntil, first) <= Stamp(protectedUntil, k);
      var nextExpiry := Stamp(protectedUntil, first);
      evictionTimer := Some(now + Max(1, nextExpiry - now + 1));
    }

    /** `enforceBackgroundAutomationRuntimeBudget`. */
    method EnforceBudget()
      requires Valid()
      modifies `runtimes, `attached, `lastActive, `protectedUntil, `tabTimers, `pendingOpens, `evictionTimer
      ensures Valid() && attached == old(attached)
      ensures BudgetOutcome(old(runtimes), runtimes, attached, popups, automation, old(lastActive), old(protectedUntil),
                            now, evictionTimer)
      ensures Turnover(old(runtimes), runtimes, {}, OwnerKeys(popups))
      ensures forall k | k in old(runtimes) && k !in automation :: k in runtimes
      ensures tabTimers <= old(tabTimers) && forall k | k in runtimes && k in old(tabTimers) :: k in tabTimers
      ensures SameTimes(runtimes.Keys, lastActive, old(lastActive))
              && SameTimes(runtimes.Keys, protectedUntil, old(protectedUntil))
    {
      hide BudgetOutcome, OwnerKeys, ByActivity, Elements, TimerAfterPass, TabTablesOk, RuntimeTablesOk, Turnover,
           SameTimes;
      TimesKept(runtimes, {}, lastActive);
      TimesKept(runtimes, {}, protectedUntil);
      evictionTimer := None;
      var popupOwnerKeys := PopupOwnerKeys();
      var background :=
        set k | k in runtimes && runtimes[k].owns && attached != Some(k) && k !in popupOwnerKeys && k in automation;
      assert background == Background(runtimes, attached, popups, automation);
      if |background| <= MAX_BACKGROUND {
        UnderCap(runtimes, attached, popups, automation, lastActive, protectedUntil, now);
        TurnoverNone(runtimes, {}, OwnerKeys(popups));
        return;
      }
      var excess := |background| - MAX_BACKGROUND;
      var unprotected := set k | k in background && Stamp(protectedUntil, k) <= now;
      assert unprotected == background - Protected(background, protectedUntil, now);
      var candidates := SortByActivity(unprotected, lastActive);
      ByActivityIn(candidates, unprotected, lastActive);
      hide Background, Protected, Valid;
      var n := EvictInOrder(candidates, excess);
      ghost var gone := Elements(candidates[..n]);
      TimesKept(old(runtimes), gone, old(lastActive));
      TimesKept(old(runtimes), gone, old(protectedUntil));
      PassOutcome(background, old(lastActive), old(protectedUntil), now, candidates, n);
      if n < excess {
        StillProtected(background, gone, old(protectedUntil), now);
        var waiting := Protected(background, protectedUntil, now);
        ArmEviction(waiting, old(protectedUntil));
      }
      assert n == excess ==> TimerAfterPass(background - gone, old(protectedUntil), now, None) by {
        NoTimer(background - gone, old(protectedUntil), now);
      }
      Evicted(old(runtimes), attached, popups, automation, old(lastActive), old(protectedUntil), now, candidates, n,
              evictionTimer);
      BudgetTurnover(old(runtimes), runtimes, attached, popups, automation, old(lastActive), old(protectedUntil), now,
                     evictionTimer);
    }

    /** The first of the thread's idle runtimes, in tab order, among those active last. */
    method WarmRuntime(th: ThreadId, shown: Option<TabId>, owners: set<Key>) returns (warm: Option<Key>)
      requires Valid() && th in states
      ensures var idle := Idle(runtimes, th, shown, owners);
              if idle == {} then warm == None
              else warm.Some? && warm.value in idle
                   && forall k | k in idle :: Stamp(lastActive, k) <= Stamp(lastActive, warm.value)
      ensures warm.Some? ==> warm.value in runtimes && Some(warm.value.tab) != shown && warm.value !in owners
    {
      var tabs := states[th].tabs;
      warm := None;
      var i := 0;
      while i < |tabs|
        invariant 0 <= i <= |tabs|
        invariant warm.Some? ==> warm.value in Idle(runtimes, th, shown, owners)
        invariant forall j | 0 <= j < i && Key(th, tabs[j].id) in Idle(runtimes, th, shown, owners) ::
                    warm.Some? && Stamp(lastActive, Key(th, tabs[j].id)) <= Stamp(lastActive, warm.value)
      {
        var key := Key(th, tabs[i].id);
        if Some(tabs[i].id) != shown && key !in owners && key in runtimes {
          if warm.None? || Stamp(lastActive, key) > Stamp(lastActive, warm.value) { warm := Some(key); }
        }
        i := i + 1;
      }
      forall k | k in Idle(runtimes, th, shown, owners)
        ensures warm.Some? && Stamp(lastActive, k) <= Stamp(lastActive, warm.value)
      {
        assert HasTab(states, k);
        var j :| 0 <= j < |tabs| && tabs[j].id == k.tab;
      }
    }

    /** `suspendInactiveTabs`. */
    method SuspendInactiveTabs(th: ThreadId, shown: Option<TabId>)
      requires Valid() && th in states
      modifies `runtimes, `attached, `lastActive, `protectedUntil, `tabTimers, `pendingOpens
      ensures Valid()
      ensures IdlePass(old(runtimes), runtimes, th, shown, OwnerKeys(popups), old(lastActive))
      ensures Idle(runtimes, th, shown, OwnerKeys(popups)) <= tabTimers
      ensures forall k: Key | k.thread != th :: k in tabTimers <==> k in old(tabTimers)
      ensures CalmedOff(old(runtimes), runtimes, th, shown, OwnerKeys(popups), automation, tabTimers)
      ensures forall k | HasTab(states, k) && k.thread == th && (Some(k.tab) == shown || k in OwnerKeys(popups)) ::
                k !in tabTimers
      ensures attached == if old(attached).Some? && old(attached).value !in runtimes then None else old(attached)
    {
      hide TabTablesOk, RuntimeTablesOk, OwnerKeys, Idle, IdlePass, Cooled, ByTab, CalmedOff;
      assert attached.Some? ==> attached.value in runtimes by {
        AttachedLive(states, runtimes, rendererOnly, automation, attached);
      }
      var owners := PopupOwnerKeys();
      var warm := WarmRuntime(th, shown, owners);
      var tabs := states[th].tabs;
      var i := 0;
      ghost var gone := Cooled(old(runtimes), tabs[..0], th, shown, owners, warm);
      assert gone == {} && ByTab(tabs[..0], th) == {} by { NoneCooled(old(runtimes), th, shown, owners, warm); }
      while i < |tabs|
        invariant 0 <= i <= |tabs| && Valid()
        invariant gone == Cooled(old(runtimes), tabs[..i], th, shown, owners, warm) && runtimes == old(runtimes) - gone
        invariant attached == if old(attached).Some? && old(attached).value in gone then None else old(attached)
        invariant warm.Some? && warm.value in ByTab(tabs[..i], th) ==> warm.value in tabTimers
        invariant forall k: Key | k.thread != th :: k in tabTimers <==> k in old(tabTimers)
        invariant forall j | 0 <= j < i && (Some(tabs[j].id) == shown || Key(th, tabs[j].id) in owners) ::
                    Key(th, tabs[j].id) !in tabTimers
      {
        var key := Key(th, tabs[i].id);
        CooledMore(old(runtimes), tabs, i, th, shown, owners, warm);
        if Some(tabs[i].id) == shown || key in owners {
          tabTimers := tabTimers - {key};
        } else if key in runtimes {
          if warm == Some(key) {
            tabTimers := tabTimers + {key};
          } else {
            DestroyRuntime(key);
          }
        }
        gone := Cooled(old(runtimes), tabs[..i + 1], th, shown, owners, warm);
        i := i + 1;
      }
      assert tabs[..i] == tabs;
      forall k | HasTab(states, k) && k.thread == th && (Some(k.tab) == shown || k in owners) ensures k !in tabTimers {
        var j :| 0 <= j < |tabs| && tabs[j].id == k.tab;
      }
      AllCooled(states, old(runtimes), rendererOnly, automation, old(attached), th, shown, owners, warm,
                old(lastActive));
      PassCalms(old(runtimes), runtimes, th, shown, owners, old(lastActive), automation, tabTimers);
    }

    // ------------------------------------------------------------ attaching

    /** `ensureWorkspace`. */
    method EnsureWorkspace(th: ThreadId)
      requires Valid()
      modifies `states, `nextTab
      ensures Valid()
      ensures states == Workspace(old(states), th, old(nextTab))
              && nextTab == TabAfterWorkspace(old(states), th, old(nextTab))
      ensures th in states && states[th].active.Some? && HasTab(states, Key(th, states[th].active.value))
    {
      hide TabTablesOk, RuntimeTablesOk, HasTab;
      WorkspaceTabs(states, th, popups, pendingOpens, nextTab);
      WorkspaceRuntimes(states, th, nextTab, popups, pendingOpens, runtimes, rendererOnly, automation, attached);
      hide Workspace;
      var state := StateOf(states, th);
      if state.tabs == [] {
        state := state.(tabs := [Tab(nextTab, None, false)], active := Some(nextTab));
        nextTab := nextTab + 1;
      }
      if state.active.None? || state.active.value !in TabIds(state.tabs) {
        state := state.(active := FirstTab(state.tabs));
      }
      states := states[th := state];
    }

    /** `ensureLiveRuntime`: refuses only a renderer-only tab whose guest is missing. */
    method EnsureLiveRuntime(key: Key) returns (ok: bool)
      requires Valid() && HasTab(states, key)
      modifies `runtimes, `tabTimers, `nextContents
      ensures Valid() && tabTimers == old(tabTimers) - {key}
      ensures ok <==> key in old(runtimes) || key !in rendererOnly
      ensures nextContents == old(nextContents) + if ok && key !in old(runtimes) then 1 else 0
      ensures if ok && key !in old(runtimes)
              then runtimes
                   == old(runtimes)[key := Runtime(Native(old(nextContents)),
                                                   if key.thread in remote then Offscreen else AttachedView, true)]
              else runtimes == old(runtimes)
    {
      hide TabTablesOk, RuntimeTablesOk;
      tabTimers := tabTimers - {key};
      if key in runtimes { return true; }
      if key in rendererOnly { return false; }
      var runtime := Runtime(Native(nextContents), if key.thread in remote then Offscreen else AttachedView, true);
      OwnRuntimeAdded(states, runtimes, rendererOnly, automation, attached, key, runtime);
      nextContents := nextContents + 1;
      runtimes := runtimes[key := runtime];
      return true;
    }

    /** `attachRuntime`. */
    method AttachRuntime(key: Key)
      requires Valid() && key in runtimes
      modifies `runtimes, `attached, `lastActive, `protectedUntil, `tabTimers, `pendingOpens, `evictionTimer
      ensures Valid()
      ensures attached == (if hasWindow then Some(key) else old(attached)) && key in runtimes
      ensures hasWindow ==> Stamp(lastActive, key) == now
      ensures !hasWindow || (old(attached) == Some(key) && old(runtimes)[key].placement == AttachedView) ==>
                runtimes == old(runtimes) && evictionTimer == old(evictionTimer)
      ensures hasWindow && !(old(attached) == Some(key) && old(runtimes)[key].placement == AttachedView) ==>
                BudgetOutcome(old(runtimes), runtimes, attached, popups, automation, old(lastActive)[key := now],
                              old(protectedUntil), now, evictionTimer)
      ensures Turnover(old(runtimes), runtimes, {}, OwnerKeys(popups))
      ensures forall k | k in old(runtimes) && k !in automation :: k in runtimes
      ensures forall k | k in runtimes && k in old(tabTimers) :: k in tabTimers
    {
      hide OwnerKeys, Turnover, TabTablesOk, RuntimeTablesOk, SameTimes, BudgetOutcome;
      TurnoverNone(runtimes, {}, OwnerKeys(popups));
      if !hasWindow { return; }
      lastActive := lastActive[key := now];
      if attached == Some(key) && runtimes[key].placement == AttachedView { return; }
      RuntimesDropped(states, runtimes, rendererOnly, automation, attached, {}, Some(key));
      assert runtimes - {} == runtimes;
      attached := Some(key);
      ghost var times := lastActive;
      EnforceBudget();
      AttachedLive(states, runtimes, rendererOnly, automation, attached);
      SameTime(runtimes.Keys, lastActive, times, key);
    }

    /** `scheduleThreadSuspend`. */
    method ScheduleThreadSuspend(th: ThreadId)
      modifies `threadTimers
      ensures threadTimers == if th in states && states[th].open && activeThread != Some(th)
                              then old(threadTimers) + {th} else old(threadTimers)
    {
      if th !in states || !states[th].open || activeThread == Some(th) { return; }
      threadTimers := threadTimers + {th};
    }

    /** `activateThreadForPendingRenderer`: the thread shows a tab whose guest is still to come. */
    method ActivateThreadForPendingRenderer(th: ThreadId)
      modifies `activeThread, `boundsThread, `threadTimers
      ensures activeThread == Some(th) && boundsThread == Some(th) && th !in threadTimers
      ensures threadTimers == old(threadTimers) - {th}
    {
      if activeThread.Some? && activeThread != Some(th) { ScheduleThreadSuspend(activeThread.value); }
      activeThread, boundsThread := Some(th), Some(th);
      threadTimers := threadTimers - {th};
    }

    /** The key of the tab the thread shows. */
    function ActiveKey(th: ThreadId): Key
      requires th in states && states[th].active.Some?
      reads `states
    {
      Key(th, states[th].active.value)
    }

    /** The tab's runtime, made live if need be, is attached. */
    method AttachLive(key: Key)
      requires Valid() && HasTab(states, key) && (key in runtimes || key !in rendererOnly)
      modifies `runtimes, `attached, `lastActive, `protectedUntil, `tabTimers, `pendingOpens, `evictionTimer,
               `nextContents
      ensures Valid() && key in runtimes && (hasWindow ==> attached == Some(key))
      ensures Turnover(old(runtimes), runtimes, {key}, OwnerKeys(popups)) && PagesKept(old(Now()), Now(), remote)
      ensures key in old(runtimes) ==> runtimes[key] == old(runtimes)[key]
      ensures forall k | k in old(runtimes) && k !in automation :: k in runtimes
      ensures forall k | k in runtimes && k in old(tabTimers) && k != key :: k in tabTimers
    {
      hide TabTablesOk, RuntimeTablesOk, HasTab, OwnerKeys, Turnover, PagesKept, BudgetOutcome;
      var ok := EnsureLiveRuntime(key);
      ghost var live := runtimes;
      AttachRuntime(key);
      TurnoverNone(old(runtimes), {}, OwnerKeys(popups));
      AttachPass(old(Now()), Now(), old(runtimes), live, key, remote);
      TurnoverSame(live, runtimes, OwnerKeys(popups), key);
    }

    /** The thread is the one in the panel. */
    predicate InPanel(th: ThreadId)
      reads `activeThread, `boundsThread
    {
      activeThread == Some(th) && boundsThread == Some(th)
    }

    /**
     The tab the thread shows is live and attached, or its guest is awaited, and of its other tabs no more than one
     is live, a while longer, apart from those that pop-ups hang on.
     */
    predicate Presented(th: ThreadId)
      reads `states, `runtimes, `rendererOnly, `attached, `popups, `tabTimers
    {
      && th in states && states[th].active.Some?
      && (if ActiveKey(th) in runtimes then hasWindow ==> attached == Some(ActiveKey(th))
          else ActiveKey(th) in rendererOnly)
      && Calm(runtimes, th, states[th].active, OwnerKeys(popups), tabTimers)
    }

    /**
     `attachActiveTab`: the shown tab's runtime is made live and attached, unless its guest
     is still to come; no other runtime appears, and no open pop-up's chain loses one.
     */
    method AttachActiveTab(th: ThreadId)
      requires Valid()
      modifies `states, `nextTab, `runtimes, `attached, `lastActive, `protectedUntil, `tabTimers, `pendingOpens,
               `evictionTimer, `activeThread, `boundsThread, `threadTimers, `nextContents
      ensures Valid()
      ensures states == Workspace(old(states), th, old(nextTab))
              && nextTab == TabAfterWorkspace(old(states), th, old(nextTab))
      ensures th in states && states[th].active.Some?
      ensures var k := ActiveKey(th);
              && Turnover(old(runtimes), runtimes, {k}, OwnerKeys(popups))
              && if k in rendererOnly && k !in old(runtimes)
                 then k !in runtimes && activeThread == Some(th) && boundsThread == Some(th)
                 else k in runtimes
                      && (hasWindow ==> attached == Some(k))
                      && activeThread == old(activeThread) && boundsThread == old(boundsThread)
      ensures PagesKept(old(Now()), Now(), remote)
      ensures Presented(th)
      ensures forall t | t != th :: t in threadTimers <==> t in old(threadTimers)
      ensures threadTimers <= old(threadTimers)
      ensures ActiveKey(th) in old(runtimes) ==>
                ActiveKey(th) in runtimes && runtimes[ActiveKey(th)] == old(runtimes)[ActiveKey(th)]
      ensures Spared(old(runtimes), runtimes, Idle(old(runtimes), th, states[th].active, OwnerKeys(popups)), automation)
    {
      hide TabTablesOk, RuntimeTablesOk, HasTab, Workspace, OwnerKeys, Turnover, IdlePass, Idle, Stamp, PagesKept, Calm,
           Spared, CalmedOff;
      EnsureWorkspace(th);
      var key := ActiveKey(th);
      SuspendInactiveTabs(th, states[th].active);
      ghost var calmed := runtimes;
      ghost var timers := tabTimers;
      ShownKept(old(runtimes), calmed, key, OwnerKeys(popups), automation, tabTimers);
      // A renderer-only tab never has an owned runtime, so nothing is left to destroy here.
      if key in rendererOnly && key !in runtimes {
        AttachPass(old(Now()), Now(), calmed, calmed, key, remote);
        ActivateThreadForPendingRenderer(th);
        return;
      }
      ghost var before := Now();
      AttachPass(old(Now()), before, calmed, calmed, key, remote);
      AttachLive(key);
      PagesKeptTwice(old(Now()), before, Now(), remote);
      CalmThenShown(old(runtimes), calmed, runtimes, key, OwnerKeys(popups), automation, timers, tabTimers);
    }

    /** The shown tab is woken unless it is a guest's that is gone, and a budget pass follows. */
    method WakeShown(key: Key)
      requires Valid() && HasTab(states, key)
      modifies `runtimes, `attached, `lastActive, `protectedUntil, `tabTimers, `pendingOpens, `evictionTimer,
               `nextContents
      ensures Valid() && attached == old(attached)
      ensures Turnover(old(runtimes), runtimes, {key}, OwnerKeys(popups))
      ensures key in rendererOnly ==> (key in runtimes <==> key in old(runtimes))
      ensures key !in rendererOnly && key !in automation ==> key in runtimes
      ensures forall k | k in old(runtimes) && k !in automation :: k in runtimes
      ensures forall k | k in runtimes && k in old(tabTimers) && k != key :: k in tabTimers
      ensures |Background(runtimes, attached, popups, automation)| <= MAX_BACKGROUND || evictionTimer.Some?
    {
      hide TabTablesOk, RuntimeTablesOk, HasTab, OwnerKeys, Turnover, BudgetOutcome, SameTimes, Background;
      if key !in rendererOnly || key in runtimes {
        var ok := EnsureLiveRuntime(key);
      }
      ghost var live, times, windows := runtimes, lastActive, protectedUntil;
      EnforceBudget();
      CapOrTimer(live, runtimes, attached, popups, automation, times, windows, now, evictionTimer);
      ClaimsDisjoint(states, runtimes, rendererOnly, automation, attached);
      TurnoverGone(live, runtimes, OwnerKeys(popups), key);
      TurnoverNone(old(runtimes), {}, OwnerKeys(popups));
      TurnoverOfAttach(old(runtimes), old(runtimes), live, runtimes, key, OwnerKeys(popups));
    }

    /** `resumeThread`. */
    method ResumeThread(th: ThreadId)
      requires Valid()
      modifies `states, `nextTab, `runtimes, `attached, `lastActive, `protectedUntil, `tabTimers, `pendingOpens,
               `evictionTimer, `threadTimers, `nextContents
      ensures Valid()
      ensures states == Workspace(old(states), th, old(nextTab))
              && nextTab == TabAfterWorkspace(old(states), th, old(nextTab))
      ensures th in states && states[th].active.Some?
      ensures var k := ActiveKey(th);
              && Turnover(old(runtimes), runtimes, {k}, OwnerKeys(popups))
              && (k in rendererOnly ==> (k in runtimes <==> k in old(runtimes)))
      ensures threadTimers == if states[th].open then old(threadTimers) - {th} else old(threadTimers)
      ensures attached == old(attached) || attached == None
      ensures !states[th].open ==> runtimes == old(runtimes) && attached == old(attached) && tabTimers == old(tabTimers)
      ensures states[th].open ==>
                && Calm(runtimes, th, states[th].active, OwnerKeys(popups), tabTimers)
                && (ActiveKey(th) !in rendererOnly && ActiveKey(th) !in automation ==> ActiveKey(th) in runtimes)
                && Spared(old(runtimes), runtimes, Idle(old(runtimes), th, states[th].active, OwnerKeys(popups)),
                          automation)
                && (|Background(runtimes, attached, popups, automation)| <= MAX_BACKGROUND || evictionTimer.Some?)
    {
      hide TabTablesOk, RuntimeTablesOk, HasTab, Workspace, OwnerKeys, Turnover, IdlePass, Idle, Calm, Spared,
           Background, CalmedOff;
      EnsureWorkspace(th);
      var key := ActiveKey(th);
      TurnoverNone(runtimes, {key}, OwnerKeys(popups));
      if !states[th].open { return; }
      threadTimers := threadTimers - {th};
      SuspendInactiveTabs(th, states[th].active);
      ghost var calmed, timers := runtimes, tabTimers;
      ShownKept(old(runtimes), calmed, key, OwnerKeys(popups), automation, tabTimers);
      WakeShown(key);
      CalmThenShown(old(runtimes), calmed, runtimes, key, OwnerKeys(popups), automation, timers, tabTimers);
    }

    /** `activateThread`: the thread comes to the front, with its shown tab attached or its guest awaited. */
    method ActivateThread(th: ThreadId)
      requires Valid()
      modifies `states, `nextTab, `runtimes, `attached, `lastActive, `protectedUntil, `tabTimers, `pendingOpens,
               `evictionTimer, `activeThread, `boundsThread, `threadTimers, `nextContents
      ensures Valid()
      ensures states == Workspace(old(states), th, old(nextTab))
              && nextTab == TabAfterWorkspace(old(states), th, old(nextTab))
      ensures th in states && states[th].active.Some?
      ensures activeThread == Some(th) && boundsThread == Some(th)
      ensures forall t | t != th :: t in threadTimers <==> t in old(threadTimers)
      ensures states[th].open ==> th !in threadTimers
      ensures threadTimers <= old(threadTimers)
      ensures Presented(th)
      ensures var k := ActiveKey(th);
              && Turnover(old(runtimes), runtimes, {k}, OwnerKeys(popups))
              && if k in rendererOnly && k !in old(runtimes) then k !in runtimes
                 else k in runtimes && (hasWindow ==> attached == Some(k))
    {
      hide TabTablesOk, RuntimeTablesOk, HasTab, Workspace, OwnerKeys, Turnover, PagesKept, Calm, Spared, Idle;
      if activeThread.Some? && activeThread != Some(th) { ScheduleThreadSuspend(activeThread.value); }
      activeThread, boundsThread := Some(th), Some(th);
      ResumeThread(th);
      ghost var resumed := runtimes;
      WorkspaceAgain(states, th, popups, pendingOpens, nextTab);
      AttachActiveTab(th);
      TurnoverTwice(old(runtimes), resumed, runtimes, {ActiveKey(th)}, {ActiveKey(th)}, OwnerKeys(popups));
      assert {ActiveKey(th)} + {ActiveKey(th)} == {ActiveKey(th)};
    }

    /** `suspendThread`, followed by the budget pass it ends with. */
    method SuspendThread(th: ThreadId)
      requires Valid()
      modifies `runtimes, `attached, `lastActive, `protectedUntil, `tabTimers, `pendingOpens, `evictionTimer
      ensures Valid()
      ensures th !in states || activeThread == Some(th) ==> runtimes == old(runtimes) && attached == old(attached)
      ensures th in states && activeThread != Some(th) ==>
                var gone := Dormant(states[th].tabs, th, states[th].active, OwnerKeys(popups), automation);
                BudgetOutcome(old(runtimes) - gone, runtimes, attached, popups, automation, old(lastActive) - gone,
                              old(protectedUntil) - gone, now, evictionTimer)
                && attached == if old(attached).Some? && old(attached).value in gone then None else old(attached)
      ensures th in states && activeThread != Some(th) ==>
                forall i | 0 <= i < |states[th].tabs| :: Key(th, states[th].tabs[i].id) !in tabTimers
    {
      hide TabTablesOk, RuntimeTablesOk, OwnerKeys, BudgetOutcome, Turnover, SameTimes, Dormant;
      if th !in states || activeThread == Some(th) { return; }
      var owners := PopupOwnerKeys();
      var tabs, active := states[th].tabs, states[th].active;
      var i := 0;
      ghost var gone: set<Key> := {};
      NoneDormant(th, active, owners, automation);
      assert tabs[..0] == [];
      while i < |tabs|
        invariant 0 <= i <= |tabs| && Valid()
        invariant gone == Dormant(tabs[..i], th, active, owners, automation)
        invariant runtimes == old(runtimes) - gone && lastActive == old(lastActive) - gone
                  && protectedUntil == old(protectedUntil) - gone
        invariant attached == if old(attached).Some? && old(attached).value in gone then None else old(attached)
        invariant forall j | 0 <= j < i :: Key(th, tabs[j].id) !in tabTimers
      {
        var key := Key(th, tabs[i].id);
        DormantGrows(tabs, i, th, active, owners, automation);
        if key in owners || (Some(tabs[i].id) == active && key in automation) {
          tabTimers := tabTimers - {key};
        } else {
          gone := gone + {key};
          DestroyRuntime(key);
        }
        i := i + 1;
      }
      assert tabs[..i] == tabs;
      EnforceBudget();
    }

    /** Attaches the shown tab again if the thread is the one in the panel. */
    method ReattachActive(th: ThreadId)
      requires Valid() && th in states
      modifies `states, `nextTab, `runtimes, `attached, `lastActive, `protectedUntil, `tabTimers, `pendingOpens,
               `evictionTimer, `activeThread, `boundsThread, `threadTimers, `nextContents
      ensures Valid() && states == old(states) && nextTab == old(nextTab)
      ensures activeThread == old(activeThread) && boundsThread == old(boundsThread)
      ensures Turnover(old(runtimes), runtimes, ShownKeys(th, states[th].active), {})
      ensures PagesKept(old(Now()), Now(), remote)
      ensures if InPanel(th) && states[th].active.Some?
              then Presented(th)
                   && Spared(old(runtimes), runtimes,
                             Idle(old(runtimes), th, states[th].active, OwnerKeys(popups)), automation)
              else runtimes == old(runtimes) && attached == old(attached) && tabTimers == old(tabTimers)
    {
      hide TabTablesOk, RuntimeTablesOk, HasTab, Workspace, OwnerKeys, Turnover, PagesKept, Calm, Spared, Idle;
      if activeThread == Some(th) && boundsThread == Some(th) && states[th].active.Some? {
        WorkspaceAgain(states, th, popups, pendingOpens, nextTab);
        AttachActiveTab(th);
        TurnoverWider(old(runtimes), runtimes, {ActiveKey(th)}, OwnerKeys(popups), ShownKeys(th, states[th].active),
                      {});
      } else {
        TurnoverNone(runtimes, ShownKeys(th, states[th].active), {});
        PagesKeptNone(Now(), remote);
      }
    }

    // ------------------------------------------------------------- closing

    /** The lines every close ends with: runtime, claims and tab go, and another tab is shown. */
    method RemoveTab(th: ThreadId, x: TabId, active: Option<TabId>)
      requires Valid() && th in states && NoAdopted(popups, Key(th, x)) && NoOpened(popups, Key(th, x))
      requires var rest := Keep(states[th].tabs, {x});
               (active.None? <==> rest == []) && (active.Some? ==> active.value in TabIds(rest))
      modifies `states, `runtimes, `rendererOnly, `automation, `attached, `lastActive, `protectedUntil, `tabTimers,
               `pendingOpens
      ensures Valid()
      ensures states == old(states)[th := Shown(old(states)[th], {x}, active)]
      ensures rendererOnly == old(rendererOnly) - {Key(th, x)} && automation == old(automation) - {Key(th, x)}
      ensures runtimes == old(runtimes) - {Key(th, x)}
      ensures attached == if old(attached) == Some(Key(th, x)) then None else old(attached)
    {
      hide TabTablesOk, RuntimeTablesOk, NoAdopted, NoOpened;
      DestroyRuntime(Key(th, x));
      TabCut(states, popups, pendingOpens, nextTab, th, x, active);
      RuntimesCut(states, runtimes, rendererOnly, automation, attached, th, x, active);
      rendererOnly := rendererOnly - {Key(th, x)};
      automation := automation - {Key(th, x)};
      states := states[th := Shown(states[th], {x}, active)];
    }

    ghost function Now(): Tables
      reads `states, `popups, `runtimes, `rendererOnly, `automation
    {
      Tables(states, popups, runtimes, rendererOnly, automation)
    }

    /** `closePopupRuntime`: the popup, and if it was adopted its tab and all that was opened from it. */
    method ClosePopupRuntime(w: WindowId)
      requires Valid()
      modifies `states, `nextTab, `popups, `runtimes, `rendererOnly, `automation, `attached, `lastActive,
               `protectedUntil, `tabTimers, `pendingOpens, `evictionTimer, `activeThread, `boundsThread, `threadTimers,
               `nextContents
      ensures Valid() && nextTab == old(nextTab) && activeThread == old(activeThread)
              && boundsThread == old(boundsThread)
      ensures PopupClosedOff(old(Now()), Now(), w) && PagesKept(old(Now()), Now(), remote)
      ensures w in old(popups) && old(popups)[w].Adopted() && InPanel(old(popups)[w].thread) ==>
                Presented(old(popups)[w].thread)
      decreases |popups|, 0
    {
      hide TabTablesOk, RuntimeTablesOk, NoAdopted, HasTab, PopupClosedOff, TabGone, PagesKept, Presented;
      PagesKeptClose(Now(), w, remote);
      if w !in popups {
        PlainClosedOff(Now(), w);
        assert popups - {w} == popups;
        return;
      }
      var p := popups[w];
      PopupDropped(states, popups, pendingOpens, nextTab, w);
      popups := popups - {w};
      ghost var dropped := Now();
      if p.Adopted() {
        RemoveAdoptedPopupTab(p);
        PagesKeptTwice(old(Now()), dropped, Now(), remote);
        AdoptedClosedOff(old(Now()), Now(), w);
      } else {
        PlainClosedOff(old(Now()), w);
      }
    }

    /**
     `removeAdoptedPopupTab`, for a popup whose record is already gone; its tab is in the thread, as for every adopted
     popup.
     */
    method RemoveAdoptedPopupTab(p: Popup)
      requires Valid() && p.Adopted() && OpenedBefore(p)
      requires HasTab(states, p.OwnKey()) && HasTab(states, Key(p.thread, p.opener.value))
               && NoAdopted(popups, p.OwnKey())
      modifies `states, `nextTab, `popups, `runtimes, `rendererOnly, `automation, `attached, `lastActive,
               `protectedUntil, `tabTimers, `pendingOpens, `evictionTimer, `activeThread, `boundsThread, `threadTimers,
               `nextContents
      ensures Valid() && nextTab == old(nextTab) && activeThread == old(activeThread)
              && boundsThread == old(boundsThread)
      ensures TabGone(old(Now()), Now(), p.thread, p.tab, p.opener) && PagesKept(old(Now()), Now(), remote)
      ensures InPanel(p.thread) ==> Presented(p.thread)
      decreases |popups|, 2
    {
      hide TabTablesOk, RuntimeTablesOk, Turnover, NoAdopted, NoOpened, CascadeAt, TabGone, PagesKept, Presented,
           Spared, Idle;
      var th, x := p.thread, p.tab;
      ClosePopupWindowsForTab(th, x);
      ghost var mid := Now();
      var rest := Keep(states[th].tabs, {x});
      KeepIds(states[th].tabs, {x});
      RemoveTab(th, x, if p.opener.value in TabIds(rest) then p.opener else LastTab(rest));
      ghost var cut := Now();
      ReattachActive(th);
      TabCutOff(old(Now()), mid, cut, Now(), th, x, p.opener);
      PagesKeptCut(old(Now()), mid, cut, Now(), Key(th, x), remote);
    }

    /** `closePopupWindowsForTab`: a walk over a snapshot, in any order, while the table shrinks underneath. */
    method ClosePopupWindowsForTab(th: ThreadId, x: TabId)
      requires Valid() && NoAdopted(popups, Key(th, x))
      modifies `states, `nextTab, `popups, `runtimes, `rendererOnly, `automation, `attached, `lastActive,
               `protectedUntil, `tabTimers, `pendingOpens, `evictionTimer, `activeThread, `boundsThread, `threadTimers,
               `nextContents
      ensures Valid() && nextTab == old(nextTab) && activeThread == old(activeThread)
              && boundsThread == old(boundsThread)
      ensures CascadeAt(old(Now()), Now(), th, x, Subtree(old(popups), th, x)) && PagesKept(old(Now()), Now(), remote)
      ensures NoAdopted(popups, Key(th, x)) && NoOpened(popups, Key(th, x))
      ensures forall y: TabId | HasTab(old(states), Key(th, y)) && y <= x :: HasTab(states, Key(th, y))
      decreases |popups|, 1
    {
      hide TabTablesOk, RuntimeTablesOk, NoAdopted, NoOpened, CascadeAt, PopupClosedOff, PagesKept;
      PagesKeptNone(Now(), remote);
      var snapshot := popups;
      var pending := popups.Keys;
      ghost var removed: set<WindowId> := {};
      CascadeStart(Now(), th, x);
      ForestOf(states, popups, pendingOpens, nextTab);
      while pending != {}
        invariant Valid() && nextTab == old(nextTab) && activeThread == old(activeThread)
                  && boundsThread == old(boundsThread)
        invariant pending <= snapshot.Keys && CascadeAt(old(Now()), Now(), th, x, removed)
                  && PagesKept(old(Now()), Now(), remote)
        invariant forall w
                         | w in snapshot && w !in pending && snapshot[w].thread == th
                           && (snapshot[w].tab == x || snapshot[w].opener == Some(x)) ::
                    w in removed
        decreases pending
      {
        var w :| w in pending;
        pending := pending - {w};
        if snapshot[w].thread == th && (snapshot[w].tab == x || snapshot[w].opener == Some(x)) {
          ghost var before := Now();
          assert popups == snapshot - removed by { CascadePopups(old(Now()), Now(), th, x, removed); }
          FewerPopups(snapshot, removed);
          ClosePopupRuntime(w);
          CascadeStep(old(Now()), before, Now(), th, x, removed, w);
          PagesKeptTwice(old(Now()), before, Now(), remote);
          removed := WithChild(snapshot, th, removed, w);
        }
      }
      CascadeEnd(old(Now()), Now(), th, x, removed);
    }

    /** `markHumanControl`, as far as it keeps times; its epochs are the subject of `AutomationLeases`. */
    method MarkHumanControl(th: ThreadId)
      modifies `lastActive, `control
      ensures control == old(control) + [th]
      ensures lastActive == if th in states && states[th].active.Some?
                            then old(lastActive)[ActiveKey(th) := now] else old(lastActive)
    {
      control := control + [th];
      if th in states && states[th].active.Some? { lastActive := lastActive[Key(th, states[th].active.value) := now]; }
    }

    /** What `closeTab` and `closeAutomationTab` share for a tab that is not a pop-up's. */
    method CloseOwnTab(th: ThreadId, x: TabId)
      requires Valid() && HasTab(states, Key(th, x)) && NoAdopted(popups, Key(th, x))
      modifies `states, `nextTab, `popups, `runtimes, `rendererOnly, `automation, `attached, `lastActive,
               `protectedUntil, `tabTimers, `pendingOpens, `evictionTimer, `activeThread, `boundsThread, `threadTimers,
               `nextContents
      ensures Valid() && nextTab == old(nextTab) && activeThread == old(activeThread)
              && boundsThread == old(boundsThread) && th in states
      ensures ShownAfterClose(old(Now()), th, x, states[th].active)
      ensures TabGone(old(Now()), Now(), th, x, states[th].active)
      ensures InPanel(th) && states[th].active.Some? ==> Presented(th)
    {
      hide TabTablesOk, RuntimeTablesOk, Turnover, NoAdopted, NoOpened, CascadeAt, TabGone, ShownAfterClose, StateOk,
           Presented, Spared, Idle, PagesKept;
      ForestOf(states, popups, pendingOpens, nextTab);
      ClosePopupWindowsForTab(th, x);
      ghost var mid := Now();
      var active := NextShown(states[th], x);
      NextShownAfterCascade(old(Now()), mid, th, x);
      ThreadOk(states, popups, pendingOpens, nextTab, th);
      NextShownOk(states[th], x, nextTab);
      RemoveTab(th, x, active);
      ghost var cut := Now();
      ReattachActive(th);
      TabCutOff(old(Now()), mid, cut, Now(), th, x, active);
    }

    /** `findAdoptedPopupRuntime`. */
    method FindAdopted(th: ThreadId, x: TabId) returns (found: Option<WindowId>)
      ensures found.None? ==> NoAdopted(popups, Key(th, x))
      ensures found.Some? ==>
                found.value in popups && popups[found.value].OwnKey() == Key(th, x) && popups[found.value].Adopted()
    {
      found := None;
      var pending := popups.Keys;
      while pending != {}
        invariant pending <= popups.Keys
        invariant forall w | w in popups && w !in pending && popups[w].Adopted() :: popups[w].OwnKey() != Key(th, x)
        decreases pending
      {
        var w :| w in pending;
        pending := pending - {w};
        if popups[w].thread == th && popups[w].tab == x && popups[w].Adopted() { return Some(w); }
      }
    }

    /** `closeTab`. */
    method CloseTab(th: ThreadId, x: TabId)
      requires Valid()
      modifies `states, `nextTab, `popups, `runtimes, `rendererOnly, `automation, `attached, `lastActive,
               `protectedUntil, `tabTimers, `pendingOpens, `evictionTimer, `activeThread, `boundsThread, `threadTimers,
               `nextContents, `control
      ensures control == old(control) + [th]
      ensures Valid()
      ensures var was := old(Now()).(states := Workspace(old(states), th, old(nextTab)));
              && th in was.states
              && if x in TabIds(was.states[th].tabs)
                 then ClosedByUser(was, Now(), th, x, TabAfterWorkspace(old(states), th, old(nextTab)))
                 else Now() == was
      ensures var was := Workspace(old(states), th, old(nextTab));
              th in was && x in TabIds(was[th].tabs) && InPanel(th) ==>
                Presented(th) || states[th].tabs == [Tab(TabAfterWorkspace(old(states), th, old(nextTab)), None, false)]
    {
      hide TabTablesOk, RuntimeTablesOk, Turnover, NoAdopted, NoOpened, TabGone, ShownAfterClose, StateOk, Workspace,
           PopupClosedOff, Presented;
      MarkHumanControl(th);
      EnsureWorkspace(th);
      if x !in TabIds(states[th].tabs) { return; }
      ghost var was := Now();
      var popup := FindAdopted(th, x);
      if popup.Some? {
        ForestOf(states, popups, pendingOpens, nextTab);
        ClosePopupRuntime(popup.value);
        ClosedOffTab(was, Now(), popup.value);
        PopupShown(was, th, x, popup.value);
        return;
      }
      CloseOwnTab(th, x);
      ThreadOk(states, popups, pendingOpens, nextTab, th);
      if states[th].active.None? {
        ghost var emptied := Now();
        BlankTab(states, th, nextTab);
        EnsureWorkspace(th);
        EmptiedThenBlank(was, emptied, Now(), th, x, TabAfterWorkspace(old(states), th, old(nextTab)));
      }
    }

    /** `closeAutomationTab`. */
    method CloseAutomationTab(th: ThreadId, x: TabId) returns (ok: bool)
      requires Valid()
      modifies `states, `nextTab, `popups, `runtimes, `rendererOnly, `automation, `attached, `lastActive,
               `protectedUntil, `tabTimers, `pendingOpens, `evictionTimer, `activeThread, `boundsThread, `threadTimers,
               `nextContents
      ensures Valid()
      ensures ok <==> th in old(states) && old(states)[th].open && x in TabIds(old(states)[th].tabs)
      ensures !ok ==> Now() == old(Now())
      ensures ok ==>
                th in states && ShownAfterClose(old(Now()), th, x, states[th].active)
                && TabGone(old(Now()), Now(), th, x, states[th].active)
      ensures ok && InPanel(th) && states[th].active.Some? ==> Presented(th)
    {
      hide TabTablesOk, RuntimeTablesOk, Turnover, NoAdopted, NoOpened, TabGone, ShownAfterClose, StateOk,
           PopupClosedOff, Presented;
      if th !in states || !states[th].open || x !in TabIds(states[th].tabs) { return false; }
      var popup := FindAdopted(th, x);
      if popup.Some? {
        ForestOf(states, popups, pendingOpens, nextTab);
        ClosePopupRuntime(popup.value);
        ClosedOffTab(old(Now()), Now(), popup.value);
        PopupShown(old(Now()), th, x, popup.value);
        ShownActive(old(Now()), Now(), th, x, old(popups)[popup.value].opener);
      } else {
        CloseOwnTab(th, x);
      }
      return true;
    }

    /** `closePopupWindowsForThread`. */
    method ClosePopupWindowsForThread(th: ThreadId)
      requires Valid()
      modifies `states, `nextTab, `popups, `runtimes, `rendererOnly, `automation, `attached, `lastActive,
               `protectedUntil, `tabTimers, `pendingOpens, `evictionTimer, `activeThread, `boundsThread, `threadTimers,
               `nextContents
      ensures Valid() && nextTab == old(nextTab) && activeThread == old(activeThread)
              && boundsThread == old(boundsThread)
      ensures Elsewhere(old(Now()), Now(), th) && NoPopupsOf(popups, th)
      ensures th in states <==> th in old(states)
    {
      hide TabTablesOk, RuntimeTablesOk, PopupClosedOff, Elsewhere;
      var snapshot := popups;
      var pending := popups.Keys;
      NothingElsewhere(Now(), th);
      while pending != {}
        invariant Valid() && nextTab == old(nextTab) && activeThread == old(activeThread)
                  && boundsThread == old(boundsThread) && pending <= snapshot.Keys
        invariant Elsewhere(old(Now()), Now(), th)
        invariant forall w | w in popups :: w in snapshot && popups[w] == snapshot[w]
        invariant forall w | w in popups && popups[w].thread == th :: w in pending
        invariant th in states <==> th in old(states)
        decreases pending
      {
        var w :| w in pending;
        pending := pending - {w};
        if snapshot[w].thread == th {
          ghost var before := Now();
          ClosePopupRuntime(w);
          ClosedOffElsewhere(before, Now(), w);
          ElsewhereTwice(old(Now()), before, Now(), th);
          ElsewherePopups(before, Now(), th);
          assert th in states <==> th in before.states by { ClosedOffThread(before, Now(), w, th); }
        }
      }
    }

    /** `destroyThreadRuntimes`, and the claims on the thread's tabs. */
    method DropThreadRuntimes(th: ThreadId)
      requires Valid()
      modifies `runtimes, `rendererOnly, `automation, `attached, `lastActive, `protectedUntil, `tabTimers, `pendingOpens
      ensures Valid()
      ensures NoKeysOf(runtimes, rendererOnly, automation, th)
      ensures Elsewhere(old(Now()), Now(), th)
    {
      hide TabTablesOk, RuntimeTablesOk, Elsewhere;
      NothingElsewhere(Now(), th);
      if th !in states {
        KeysHaveTabs(states, runtimes, rendererOnly, automation, attached);
        return;
      }
      var tabs := states[th].tabs;
      KeysHaveTabs(states, runtimes, rendererOnly, automation, attached);
      var i := 0;
      while i < |tabs|
        invariant 0 <= i <= |tabs| && Valid()
        invariant Elsewhere(old(Now()), Now(), th)
        invariant forall k | k in runtimes.Keys + rendererOnly + automation && k.thread == th ::
                    exists j :: i <= j < |tabs| && tabs[j].id == k.tab
      {
        var key := Key(th, tabs[i].id);
        ghost var before := Now();
        DestroyRuntime(key);
        ClaimsDropped(states, runtimes, rendererOnly, automation, attached, {key});
        rendererOnly := rendererOnly - {key};
        automation := automation - {key};
        ElsewhereDropped(before, key);
        ElsewhereTwice(old(Now()), before, Now(), th);
        i := i + 1;
      }
    }

    /** The first lines of `close`: the thread leaves the panel. */
    method LeavePanel(th: ThreadId)
      requires Valid()
      modifies `attached, `activeThread, `boundsThread, `threadTimers, `remote
      ensures Valid() && activeThread != Some(th) && boundsThread != Some(th) && th !in threadTimers && th !in remote
      ensures attached == if old(activeThread) == Some(th) then None else old(attached)
    {
      hide TabTablesOk, RuntimeTablesOk;
      threadTimers := threadTimers - {th};
      remote := remote - {th};
      if activeThread == Some(th) {
        Detached(states, runtimes, rendererOnly, automation, attached);
        attached := None;
        activeThread := None;
      }
      if boundsThread == Some(th) { boundsThread := None; }
    }

    /** The last lines of `close`. */
    method EmptyThread(th: ThreadId)
      requires Valid() && NoPopupsOf(popups, th) && NoKeysOf(runtimes, rendererOnly, automation, th)
      modifies `states
      ensures Valid() && states == old(states)[th := ThreadState(false, None, [])]
      ensures Elsewhere(old(Now()), Now(), th)
    {
      hide TabTablesOk, RuntimeTablesOk, NoPopupsOf, NoKeysOf, Elsewhere;
      ThreadEmptied(states, popups, pendingOpens, nextTab, th);
      ThreadEmptiedRuntimes(states, runtimes, rendererOnly, automation, attached, th);
      states := states[th := ThreadState(false, None, [])];
      ElsewhereEmptied(old(Now()), th);
    }

    /** `close`: the thread is emptied and nothing of it stays behind in any table. */
    method Close(th: ThreadId)
      requires Valid()
      modifies `states, `nextTab, `popups, `runtimes, `rendererOnly, `automation, `attached, `lastActive,
               `protectedUntil, `tabTimers, `pendingOpens, `evictionTimer, `activeThread, `boundsThread, `threadTimers,
               `nextContents, `remote, `control
      ensures control == old(control) + [th]
      ensures Valid()
      ensures th in states && states[th] == ThreadState(false, None, []) && Elsewhere(old(Now()), Now(), th)
      ensures NoPopupsOf(popups, th) && NoKeysOf(runtimes, rendererOnly, automation, th)
      ensures activeThread != Some(th) && boundsThread != Some(th) && th !in remote
    {
      hide Valid, Elsewhere, NoPopupsOf, NoKeysOf;
      MarkHumanControl(th);
      LeavePanel(th);
      ClosePopupWindowsForThread(th);
      ghost var closed := Now();
      DropThreadRuntimes(th);
      ElsewhereTwice(old(Now()), closed, Now(), th);
      ghost var dropped := Now();
      EmptyThread(th);
      ElsewhereTwice(old(Now()), dropped, Now(), th);
    }

    // ----------------------------------------------------- opening and showing

    method SetThread(th: ThreadId, next: ThreadState)
      requires Valid() && Touches(StateOf(states, th), next)
      modifies `states
      ensures Valid() && states == old(states)[th := next]
    {
      hide TabTablesOk, RuntimeTablesOk;
      ThreadTouched(states, popups, pendingOpens, nextTab, runtimes, rendererOnly, automation, attached, th, next);
      states := states[th := next];
    }

    /** A new tab at the end of the thread, shown or not. */
    method AppendTab(th: ThreadId, opener: Option<TabId>, native: bool, show: bool) returns (tab: Tab)
      requires Valid() && th in states
      modifies `states, `nextTab
      ensures Valid() && tab == Tab(old(nextTab), opener, native) && nextTab == old(nextTab) + 1
      ensures var s := old(states)[th];
              states
              == old(states)[th := s.(tabs := s.tabs + [tab],
                                      active := if show || s.active.None? then Some(tab.id) else s.active)]
      ensures Key(th, tab.id) !in rendererOnly && Key(th, tab.id) !in runtimes && HasTab(states, Key(th, tab.id))
              && !HasTab(old(states), Key(th, tab.id))
    {
      hide RuntimeTablesOk;
      tab := Tab(nextTab, opener, native);
      var s := states[th];
      assert StateOk(s, nextTab);
      hide TabTablesOk;
      NextTabGrows(states, popups, pendingOpens, nextTab, nextTab + 1);
      var next := s.(tabs := s.tabs + [tab], active := if show || s.active.None? then Some(tab.id) else s.active);
      TabAdded(states, popups, pendingOpens, nextTab + 1, runtimes, rendererOnly, automation, attached, th, next, tab);
      nextTab := nextTab + 1;
      states := states[th := next];
    }

    /** The thread as the panel shows it, its tab resumed and attached. */
    method ShowThread(th: ThreadId, attach: bool)
      requires Valid() && th in states && states[th].active.Some?
      modifies `states, `nextTab, `runtimes, `attached, `lastActive, `protectedUntil, `tabTimers, `pendingOpens,
               `evictionTimer, `activeThread, `boundsThread, `threadTimers, `nextContents
      ensures Valid() && states == old(states) && nextTab == old(nextTab)
      ensures activeThread == old(activeThread) && boundsThread == old(boundsThread)
      ensures Turnover(old(runtimes), runtimes, {ActiveKey(th)}, OwnerKeys(popups))
      ensures activeThread != Some(th) ==> runtimes == old(runtimes) && attached == old(attached)
      ensures activeThread == Some(th) && states[th].open ==>
                Calm(runtimes, th, states[th].active, OwnerKeys(popups), tabTimers)
      ensures InPanel(th) && attach ==> Presented(th)
      ensures !attach ==> attached == old(attached) || attached == None
    {
      hide TabTablesOk, RuntimeTablesOk, HasTab, Workspace, OwnerKeys, Turnover, PagesKept, Calm, Spared, Idle;
      var key := ActiveKey(th);
      WorkspaceAgain(states, th, popups, pendingOpens, nextTab);
      TurnoverNone(runtimes, {key}, OwnerKeys(popups));
      if activeThread == Some(th) {
        ResumeThread(th);
        if boundsThread == Some(th) && attach {
          ghost var resumed := runtimes;
          WorkspaceAgain(states, th, popups, pendingOpens, nextTab);
          AttachActiveTab(th);
          TurnoverTwice(old(runtimes), resumed, runtimes, {key}, {key}, OwnerKeys(popups));
          assert {key} + {key} == {key};
        }
      }
    }

    /** `newTab`. */
    method NewTab(th: ThreadId, activate: bool, opener: Option<TabId>)
      requires Valid()
      modifies `states, `nextTab, `runtimes, `attached, `lastActive, `protectedUntil, `tabTimers, `pendingOpens,
               `evictionTimer, `activeThread, `boundsThread, `threadTimers, `nextContents, `control
      ensures control == old(control) + [th]
      ensures Valid()
      ensures var was, id := Workspace(old(states), th, old(nextTab)), TabAfterWorkspace(old(states), th, old(nextTab));
              && th in was && was[th].active.Some?
              && states
                 == was[th := was[th].(tabs := was[th].tabs + [Tab(id, opener, false)],
                                       active := if activate then Some(id) else was[th].active)]
              && Turnover(old(runtimes), runtimes, {ActiveKey(th)}, OwnerKeys(popups))
      ensures activeThread != Some(th) ==> runtimes == old(runtimes) && attached == old(attached)
      ensures activeThread == Some(th) && states[th].open ==>
                Calm(runtimes, th, states[th].active, OwnerKeys(popups), tabTimers)
      ensures InPanel(th) && activate ==> Presented(th)
      ensures !activate && old(states) == Workspace(old(states), th, old(nextTab)) ==>
                attached == old(attached) || attached == None
    {
      hide TabTablesOk, RuntimeTablesOk, HasTab, Workspace, OwnerKeys, Turnover, Calm, Idle;
      MarkHumanControl(th);
      EnsureWorkspace(th);
      var tab := AppendTab(th, opener, false, activate);
      ShowThread(th, states[th].active == Some(tab.id));
    }

    /** `selectTab`. */
    method SelectTab(th: ThreadId, x: TabId)
      requires Valid()
      modifies `states, `nextTab, `runtimes, `attached, `lastActive, `protectedUntil, `tabTimers, `pendingOpens,
               `evictionTimer, `activeThread, `boundsThread, `threadTimers, `nextContents, `control
      ensures control == old(control) + [th]
      ensures Valid()
      ensures var was := Workspace(old(states), th, old(nextTab));
              && th in was && ResolveTab(was[th], x).Some?
              && states == was[th := was[th].(active := ResolveTab(was[th], x))]
              && Turnover(old(runtimes), runtimes, {ActiveKey(th)}, OwnerKeys(popups))
      ensures activeThread != Some(th) ==> runtimes == old(runtimes) && attached == old(attached)
      ensures InPanel(th) ==> Presented(th)
    {
      hide TabTablesOk, RuntimeTablesOk, Workspace, OwnerKeys, Turnover, Calm, Idle;
      MarkHumanControl(th);
      EnsureWorkspace(th);
      ResolvedTab(states[th], x);
      SetThread(th, states[th].(active := ResolveTab(states[th], x)));
      ShowThread(th, true);
    }

    // ------------------------------------------------------ automation claims

    /** `claimAutomationTab`: a renderer's guest is let go, an owned runtime is kept. */
    method ClaimTab(key: Key)
      requires Valid() && HasTab(states, key)
      modifies `states, `runtimes, `rendererOnly, `automation, `attached, `lastActive, `protectedUntil, `tabTimers,
               `pendingOpens
      ensures Valid() && states == Claimed(old(states), key)
      ensures automation == old(automation) + {key} && rendererOnly == old(rendererOnly) - {key}
      ensures runtimes == if key in old(rendererOnly) then old(runtimes) - {key} else old(runtimes)
    {
      hide TabTablesOk, RuntimeTablesOk;
      if key in runtimes { GuestRuntime(states, runtimes, rendererOnly, automation, attached, key); }
      assert key !in runtimes ==> runtimes - {key} == runtimes;
      if key in runtimes && !runtimes[key].owns { DestroyRuntime(key); }
      TabClaimedTabs(states, popups, pendingOpens, nextTab, key);
      TabClaimed(states, popups, pendingOpens, nextTab, runtimes, rendererOnly, automation, attached, key);
      automation := automation + {key};
      rendererOnly := rendererOnly - {key};
      states := Claimed(states, key);
    }

    /** `prepareAutomationTab`. */
    method PrepareAutomationTab(th: ThreadId, reuse: bool)
      requires Valid()
      modifies `states, `nextTab, `runtimes, `rendererOnly, `automation, `attached, `lastActive, `protectedUntil,
               `tabTimers, `pendingOpens
      ensures Valid()
      ensures th in states && states[th].open && states[th].active.Some?
      ensures var was, id := Workspace(old(states), th, old(nextTab)), TabAfterWorkspace(old(states), th, old(nextTab));
              && th in was
              && if reuse || StateOf(old(states), th).tabs == []
                 then states
                      == was[th := was[th].(open := true, tabs := MarkNative(was[th].tabs, states[th].active.value))]
                      && states[th].active == was[th].active
                 else states[th].active == Some(id)
                      && states
                         == was[th := ThreadState(true, Some(id),
                                                  MarkNative(was[th].tabs + [Tab(id, None, false)], id))]
      ensures automation == old(automation) + {ActiveKey(th)} && rendererOnly == old(rendererOnly) - {ActiveKey(th)}
      ensures ActiveKey(th) in runtimes ==> runtimes[ActiveKey(th)].owns
    {
      hide TabTablesOk, RuntimeTablesOk, HasTab, Workspace;
      var hadExistingTab := StateOf(states, th).tabs != [];
      EnsureWorkspace(th);
      var x := states[th].active.value;
      if !reuse && hadExistingTab {
        var tab := AppendTab(th, None, false, false);
        x := tab.id;
      }
      ClaimTab(Key(th, x));
      assert x in TabIds(states[th].tabs) by {
        ClaimedHas(states, runtimes, rendererOnly, automation, attached, Key(th, x));
      }
      SetThread(th, states[th].(open := true, active := Some(x)));
      if Key(th, x) in runtimes { GuestRuntime(states, runtimes, rendererOnly, automation, attached, Key(th, x)); }
    }

    /** `selectAutomationTab`. */
    method SelectAutomationTab(th: ThreadId, x: TabId) returns (ok: bool)
      requires Valid()
      modifies `states, `runtimes, `rendererOnly, `automation, `attached, `lastActive, `protectedUntil, `tabTimers,
               `pendingOpens
      ensures Valid()
      ensures ok <==> th in old(states) && old(states)[th].open && x in TabIds(old(states)[th].tabs)
      ensures !ok ==> Now() == old(Now())
      ensures ok ==>
                states
                == Claimed(old(states), Key(th, x))[th := Claimed(old(states), Key(th, x))[th].(active := Some(x))]
                     && automation == old(automation) + {Key(th, x)} && rendererOnly == old(rendererOnly) - {Key(th, x)}
    {
      hide TabTablesOk, RuntimeTablesOk;
      if th !in states || !states[th].open || x !in TabIds(states[th].tabs) { return false; }
      ClaimTab(Key(th, x));
      ClaimedHas(states, runtimes, rendererOnly, automation, attached, Key(th, x));
      SetThread(th, states[th].(active := Some(x)));
      return true;
    }

    /** `prepareAutomationNavigation`: the address apart, the tab is claimed and shown as when it is selected. */
    method PrepareAutomationNavigation(th: ThreadId, x: TabId) returns (ok: bool)
      requires Valid()
      modifies `states, `runtimes, `rendererOnly, `automation, `attached, `lastActive, `protectedUntil, `tabTimers,
               `pendingOpens
      ensures Valid()
      ensures ok <==> th in old(states) && old(states)[th].open && x in TabIds(old(states)[th].tabs)
      ensures !ok ==> Now() == old(Now())
      ensures ok ==>
                th in states && states[th].active == Some(x) && Key(th, x) in automation && Key(th, x) !in rendererOnly
      ensures ok && Key(th, x) in runtimes ==> runtimes[Key(th, x)].owns
      ensures forall t | t != th :: (t in states <==> t in old(states)) && (t in states ==> states[t] == old(states)[t])
    {
      hide TabTablesOk, RuntimeTablesOk;
      ok := SelectAutomationTab(th, x);
      if Key(th, x) in runtimes { GuestRuntime(states, runtimes, rendererOnly, automation, attached, Key(th, x)); }
    }

    /** `noteAutomationRuntimeUse`: the runtime just used survives the pass its use starts. */
    method NoteUse(key: Key)
      requires Valid() && key in runtimes
      modifies `runtimes, `attached, `lastActive, `protectedUntil, `tabTimers, `pendingOpens, `evictionTimer
      ensures Valid() && key in runtimes && runtimes[key] == old(runtimes)[key]
      ensures Stamp(lastActive, key) == now && Stamp(protectedUntil, key) == now + USE_GRACE_MS
      ensures Turnover(old(runtimes), runtimes, {}, OwnerKeys(popups))
    {
      hide TabTablesOk, RuntimeTablesOk, OwnerKeys, Turnover, BudgetOutcome, SameTimes;
      lastActive := lastActive[key := now];
      protectedUntil := protectedUntil[key := now + USE_GRACE_MS];
      ghost var windows, times := protectedUntil, lastActive;
      EnforceBudget();
      ProtectedSurvives(old(runtimes), runtimes, attached, popups, automation, times, windows, now, evictionTimer, key);
      SameTime(runtimes.Keys, lastActive, times, key);
      SameTime(runtimes.Keys, protectedUntil, windows, key);
    }

    /** `getAutomationRuntime`, with the use it notes: the runtime is live, owned, claimed and protected for a while. */
    method GetAutomationRuntime(th: ThreadId, x: TabId) returns (ok: bool)
      requires Valid()
      modifies `states, `runtimes, `rendererOnly, `automation, `attached, `lastActive, `protectedUntil, `tabTimers,
               `pendingOpens, `nextContents, `evictionTimer
      ensures Valid()
      ensures ok <==>
                th in old(states) && old(states)[th].open && x in TabIds(old(states)[th].tabs)
                && old(states)[th].active == Some(x)
      ensures !ok ==> Now() == old(Now())
      ensures ok ==> var k := Key(th, x);
                && states == Claimed(old(states), k)
                && automation == old(automation) + {k} && rendererOnly == old(rendererOnly) - {k}
                && Stamp(lastActive, k) == now && Stamp(protectedUntil, k) == now + USE_GRACE_MS
                && k in runtimes && runtimes[k].owns
                && Turnover(old(runtimes), runtimes, {k}, OwnerKeys(popups) - old(rendererOnly))
    {
      hide TabTablesOk, RuntimeTablesOk, OwnerKeys, Turnover, BudgetOutcome;
      if th !in states || !states[th].open || x !in TabIds(states[th].tabs) { return false; }
      if states[th].active != Some(x) { return false; }
      var key := Key(th, x);
      ghost var kept := OwnerKeys(popups) - rendererOnly;
      ClaimTab(key);
      ghost var claimed := runtimes;
      ClaimTurnover(old(runtimes), claimed, key, kept);
      ClaimedHas(states, runtimes, rendererOnly, automation, attached, key);
      var live := EnsureLiveRuntime(key);
      ghost var made := runtimes;
      AddedTurnover(claimed, made, key, kept);
      TurnoverTwice(old(runtimes), claimed, made, {key}, {key}, kept);
      NoteUse(key);
      GuestRuntime(states, runtimes, rendererOnly, automation, attached, key);
      TurnoverWider(made, runtimes, {}, OwnerKeys(popups), {}, kept);
      TurnoverTwice(old(runtimes), made, runtimes, {key} + {key}, {}, kept);
      assert {key} + {key} + {} == {key};
      return true;
    }

    // -------------------------------------------------------- renderer guests

    /** Binds the guest, or refuses when another live guest holds the tab. */
    method BindGuest(key: Key, guest: nat) returns (ok: bool)
      requires Valid() && HasTab(states, key) && key !in automation
      requires forall k | k in runtimes && runtimes[k].contents == Guest(guest) :: k == key
      modifies `runtimes, `rendererOnly, `attached, `lastActive, `protectedUntil, `tabTimers, `pendingOpens
      ensures Valid()
      ensures ok <==> !(key in old(runtimes) && !old(runtimes)[key].owns && old(runtimes)[key].contents != Guest(guest))
      ensures !ok ==> runtimes == old(runtimes) && rendererOnly == old(rendererOnly) && attached == old(attached)
      ensures ok ==> key in runtimes && runtimes[key].contents == Guest(guest) && !runtimes[key].owns
                     && runtimes == old(runtimes)[key := runtimes[key]] && rendererOnly == old(rendererOnly) + {key}
      ensures ok && key in old(runtimes) && old(runtimes)[key].contents != Guest(guest) ==>
                attached == (if old(attached) == Some(key) then None else old(attached)) && key !in lastActive
      ensures ok && !(key in old(runtimes) && old(runtimes)[key].contents != Guest(guest)) ==> attached == old(attached)
    {
      hide TabTablesOk, RuntimeTablesOk, HasTab;
      if key in runtimes { GuestRuntime(states, runtimes, rendererOnly, automation, attached, key); }
      if key in runtimes && runtimes[key].contents == Guest(guest) {
        assert rendererOnly + {key} == rendererOnly;
        rendererOnly := rendererOnly + {key};
        return true;
      }
      if key in runtimes {
        if !runtimes[key].owns { return false; }
        DestroyRuntime(key);
      }
      var runtime := Runtime(Guest(guest), Renderer, false);
      GuestBound(states, runtimes, rendererOnly, automation, attached, key, runtime);
      runtimes := runtimes[key := runtime];
      rendererOnly := rendererOnly + {key};
      return true;
    }

    /** `findRendererRuntimeByWebContentsId`, and the tear-down of the guest's binding to another tab. */
    method ReleaseGuest(guest: nat, except: Key)
      requires Valid()
      modifies `runtimes, `attached, `lastActive, `protectedUntil, `tabTimers, `pendingOpens
      ensures Valid()
      ensures forall k | k in runtimes && runtimes[k].contents == Guest(guest) :: k == except
      ensures GuestMoved(old(runtimes), runtimes, except, guest, automation)
      ensures (except in runtimes <==> except in old(runtimes))
              && (except in runtimes ==> runtimes[except] == old(runtimes)[except])
    {
      hide TabTablesOk, RuntimeTablesOk;
      if k :| k in runtimes && !runtimes[k].owns && runtimes[k].contents == Guest(guest) {
        GuestsOnce(states, runtimes, rendererOnly, automation, attached, k);
        if k != except { DestroyRuntime(k); }
      } else {
        GuestsRendered(states, runtimes, rendererOnly, automation, attached);
      }
    }

    /** `attachWebview`; `trusted` stands for the checks on the guest's host window, type and partition. */
    method AttachWebview(th: ThreadId, x: TabId, guest: nat, trusted: bool) returns (outcome: AttachOutcome)
      requires Valid()
      modifies `runtimes, `rendererOnly, `attached, `lastActive, `protectedUntil, `tabTimers, `pendingOpens,
               `evictionTimer
      ensures Valid()
      ensures outcome == TabMissing <==> th !in states || !states[th].open || x !in TabIds(states[th].tabs)
      ensures outcome == NotActiveTab <==> outcome != TabMissing && states[th].active != Some(x)
      ensures outcome == KeptNative <==>
                outcome !in {TabMissing, NotActiveTab} && exists t :: t in states[th].tabs && t.id == x && t.native
      ensures outcome == GuestRefused <==> outcome !in {TabMissing, NotActiveTab, KeptNative} && !trusted
      ensures outcome in {AlreadyAttached, Bound} ==>
                (outcome == AlreadyAttached <==>
                   (Key(th, x) in old(runtimes) && !old(runtimes)[Key(th, x)].owns
                    && old(runtimes)[Key(th, x)].contents != Guest(guest)))
      ensures outcome in {TabMissing, NotActiveTab, KeptNative, GuestRefused} ==>
                Now() == old(Now()) && attached == old(attached)
      ensures outcome == AlreadyAttached ==>
                rendererOnly == old(rendererOnly) && Key(th, x) in runtimes
                && runtimes[Key(th, x)] == old(runtimes)[Key(th, x)]
      ensures outcome == Bound ==>
                && rendererOnly == old(rendererOnly) + {Key(th, x)} && Key(th, x) in runtimes
                && runtimes[Key(th, x)].contents == Guest(guest)
                && (hasWindow && boundsThread == Some(th) ==> attached == Some(Key(th, x)))
      ensures outcome in {Bound, AlreadyAttached} ==>
                forall k | k in runtimes && runtimes[k].contents == Guest(guest) :: k == Key(th, x)
      ensures GuestMoved(old(runtimes), runtimes, Key(th, x), guest, automation)
    {
      hide TabTablesOk, RuntimeTablesOk, Turnover, OwnerKeys, GuestMoved;
      GuestMovedNone(runtimes, Key(th, x), guest, automation);
      if th !in states || !states[th].open || x !in TabIds(states[th].tabs) { return TabMissing; }
      if states[th].active != Some(x) { return NotActiveTab; }
      var tab :| tab in states[th].tabs && tab.id == x;
      TabUnique(states, popups, pendingOpens, nextTab, th, tab);
      if tab.native { return KeptNative; }
      if !trusted { return GuestRefused; }
      var key := Key(th, x);
      NotClaimed(states, runtimes, rendererOnly, automation, attached, key, tab);
      ReleaseGuest(guest, key);
      ghost var freed := runtimes;
      var ok := BindGuest(key, guest);
      if !ok { return AlreadyAttached; }
      ghost var bound := runtimes;
      TurnoverNone(bound, {}, OwnerKeys(popups));
      if boundsThread == Some(th) { AttachRuntime(key); }
      GuestMovedBound(old(runtimes), freed, bound, runtimes, key, guest, automation, OwnerKeys(popups));
      return Bound;
    }

    /** `detachWebview`: only the guest actually bound is let go. */
    method DetachWebview(th: ThreadId, x: TabId, guest: nat)
      requires Valid()
      modifies `runtimes, `attached, `lastActive, `protectedUntil, `tabTimers, `pendingOpens
      ensures Valid()
      ensures var k := Key(th, x);
              if k in old(runtimes) && old(runtimes)[k].contents == Guest(guest)
              then runtimes == old(runtimes) - {k}
                   && attached == (if old(attached) == Some(k) then None else old(attached))
              else runtimes == old(runtimes) && attached == old(attached)
    {
      hide TabTablesOk, RuntimeTablesOk;
      var key := Key(th, x);
      if key in runtimes {
        GuestRuntime(states, runtimes, rendererOnly, automation, attached, key);
        TabOfRuntime(states, runtimes, rendererOnly, automation, attached, key);
      }
      if th !in states || x !in TabIds(states[th].tabs) { return; }
      if key !in runtimes || runtimes[key].owns || runtimes[key].contents != Guest(guest) { return; }
      DestroyRuntime(key);
    }

    // ------------------------------------------------------- pop-up windows

    /**
     `registerOAuthPopupWindow`: a window opened by an offscreen page is adopted as a tab of
     its own, any other is only recorded; `None` when it is neither a tab before nor after.
     */
    method RegisterPopup(w: WindowId, th: ThreadId, x: TabId,
                         placement: Option<Placement>) returns (tabId: Option<TabId>)
      requires Valid()
      modifies `states, `nextTab, `popups, `runtimes
      ensures Valid()
      ensures w in old(popups) ==>
                Now() == old(Now()) && tabId == if popups[w].Adopted() then Some(popups[w].tab) else None
      ensures w !in old(popups) && placement != Some(Offscreen) ==>
                tabId == None && Now() == old(Now()).(popups := old(popups)[w := Popup(th, x, None)])
      ensures w !in old(popups) && placement == Some(Offscreen)
              && !(th in old(states) && old(states)[th].open && x in TabIds(old(states)[th].tabs)) ==>
                tabId == None && Now() == old(Now())
      ensures w !in old(popups) && placement == Some(Offscreen) && th in old(states) && old(states)[th].open
              && x in TabIds(old(states)[th].tabs) ==>
                var id, s := old(nextTab), old(states)[th];
                && tabId == Some(id) && !HasTab(old(states), Key(th, id))
                && Now() == old(Now()).(
                     states := old(states)[th := s.(tabs := s.tabs + [Tab(id, Some(x), true)], active := Some(id))],
                     popups := old(popups)[w := Popup(th, id, Some(x))],
                     runtimes := old(runtimes)[Key(th, id) := Runtime(Child(w), Offscreen, true)])
    {
      hide RuntimeTablesOk, TabTablesOk;
      if w in popups { return if popups[w].Adopted() then Some(popups[w].tab) else None; }
      if placement != Some(Offscreen) {
        PopupRecorded(states, popups, pendingOpens, nextTab, w, Popup(th, x, None));
        popups := popups[w := Popup(th, x, None)];
        return None;
      }
      if th !in states || !states[th].open || x !in TabIds(states[th].tabs) { return None; }
      TabsAreOld(states, popups, pendingOpens, nextTab, Key(th, x));
      var tab := AppendTab(th, Some(x), true, true);
      OpenerStays(old(states), states, th, tab, x);
      AdoptedIsNew(old(states), popups, pendingOpens, old(nextTab), Key(th, tab.id));
      PopupRecorded(states, popups, pendingOpens, nextTab, w, Popup(th, tab.id, Some(x)));
      OwnRuntimeAdded(states, runtimes, rendererOnly, automation, attached, Key(th, tab.id),
                      Runtime(Child(w), Offscreen, true));
      runtimes := runtimes[Key(th, tab.id) := Runtime(Child(w), Offscreen, true)];
      popups := popups[w := Popup(th, tab.id, Some(x))];
      return Some(tab.id);
    }

    // -------------------------------------------- windows opened by automation

    /** `isCurrentWindowOpenSource`: the page is still the tab's, or that of a pop-up recorded for it. */
    predicate IsCurrentSource(key: Key, contents: Contents)
      reads `runtimes, `popups
    {
      (key in runtimes && runtimes[key].contents == contents) || IsPopupPage(popups, key, contents)
    }

    /**
     The deferred half of `scheduleWindowOpenTab` during an automation gesture: the tab is announced, not yet added.
     */
    method AnnounceWindowOpen(key: Key, contents: Contents) returns (tabId: Option<TabId>)
      requires Valid()
      modifies `pendingOpens, `nextTab
      ensures Valid()
      ensures tabId.Some? <==>
                key !in old(pendingOpens) && IsCurrentSource(key, contents) && HasTab(states, key)
                && states[key.thread].open
      ensures tabId.None? ==> pendingOpens == old(pendingOpens)
      ensures tabId.Some? ==>
                var tab := Tab(old(nextTab), Some(key.tab), true);
                tabId == Some(tab.id) && !HasTab(states, Key(key.thread, tab.id))
                && pendingOpens == old(pendingOpens)[key := PendingOpen(contents, tab)]
    {
      hide RuntimeTablesOk;
      if key in pendingOpens || !IsCurrentSource(key, contents) || !HasTab(states, key) || !states[key.thread].open {
        return None;
      }
      NextTabGrows(states, popups, pendingOpens, nextTab, nextTab + 1);
      NextTabIsNew(states, popups, pendingOpens, nextTab, key.thread);
      tabId := Some(nextTab);
      pendingOpens := pendingOpens[key := PendingOpen(contents, Tab(nextTab, Some(key.tab), true))];
      nextTab := nextTab + 1;
      assert PendingOk(pendingOpens, nextTab);
    }

    /**
     `commitPendingAutomationWindowOpen`: the announced tab is added, shown and claimed, unless its source is gone.
     */
    method CommitWindowOpen(key: Key) returns (committed: bool)
      requires Valid()
      modifies `pendingOpens, `states, `automation
      ensures Valid() && pendingOpens == old(pendingOpens) - {key}
      ensures committed <==> key in old(pendingOpens) && IsCurrentSource(key, old(pendingOpens)[key].contents)
                             && HasTab(old(states), key) && old(states)[key.thread].open
                             && !HasTab(old(states), Key(key.thread, old(pendingOpens)[key].tab.id))
      ensures !committed ==> Now() == old(Now())
      ensures committed ==>
                var th, tab, s := key.thread, old(pendingOpens)[key].tab, old(states)[key.thread];
                Now() == old(Now()).(states := old(states)[th := s.(tabs := s.tabs + [tab], active := Some(tab.id))],
                                     automation := old(automation) + {Key(th, tab.id)})
    {
      hide RuntimeTablesOk, TabTablesOk;
      PendingDropped(states, popups, pendingOpens, nextTab, key);
      if key !in pendingOpens { return false; }
      var pending := pendingOpens[key];
      pendingOpens := pendingOpens - {key};
      var th, tab := key.thread, pending.tab;
      if !IsCurrentSource(key, pending.contents) || !HasTab(states, key) || !states[th].open
         || HasTab(states, Key(th, tab.id)) {
        return false;
      }
      var next := states[th].(tabs := states[th].tabs + [tab], active := Some(tab.id));
      TabAdded(states, popups, pendingOpens, nextTab, runtimes, rendererOnly, automation, attached, th, next, tab);
      NewTabClaimed(old(states), states[th := next], runtimes, rendererOnly, automation, attached, th, tab);
      states := states[th := next];
      automation := automation + {Key(th, tab.id)};
      return true;
    }

    /**
     What follows a committed window: the timer of `scheduleDeferredStatePublication`, or the end of the immediate
     in `scheduleWindowOpenTab`. It may come late, when the thread is no longer the one in the panel, or is closed.
     */
    method FirePublication(th: ThreadId)
      requires Valid()
      modifies `states, `nextTab, `runtimes, `attached, `lastActive, `protectedUntil, `tabTimers, `pendingOpens,
               `evictionTimer, `activeThread, `boundsThread, `threadTimers, `nextContents
      ensures Valid() && activeThread == old(activeThread) && boundsThread == old(boundsThread)
      ensures var inPanel := th in old(states) && activeThread == Some(th) && boundsThread == Some(th);
              if !inPanel then Now() == old(Now()) && attached == old(attached)
              else
                && states == Workspace(old(states), th, old(nextTab)) && th in states && states[th].active.Some?
                && Turnover(old(runtimes), runtimes, {ActiveKey(th)}, OwnerKeys(popups))
                && if ActiveKey(th) in runtimes then hasWindow ==> attached == Some(ActiveKey(th))
                   else ActiveKey(th) in rendererOnly
    {
      hide TabTablesOk, RuntimeTablesOk, Workspace, OwnerKeys, Turnover, HasTab, PagesKept;
      if th in states && activeThread == Some(th) && boundsThread == Some(th) { AttachActiveTab(th); }
    }

    // ---------------------------------------------------------------- timers

    /** A thread hidden long enough goes to sleep. */
    method FireThreadSuspend(th: ThreadId)
      requires Valid() && th in threadTimers
      modifies `runtimes, `attached, `lastActive, `protectedUntil, `tabTimers, `pendingOpens, `evictionTimer,
               `threadTimers
      ensures Valid() && threadTimers == old(threadTimers) - {th}
      ensures activeThread != Some(th) ==> forall k | k in runtimes && k.thread == th ::
                k in OwnerKeys(popups) || (Some(k.tab) == states[th].active && k in automation)
    {
      hide TabTablesOk, OwnerKeys, BudgetOutcome;
      SuspendThread(th);
      threadTimers := threadTimers - {th};
      if th in states && activeThread != Some(th) {
        DormantGone(old(runtimes), runtimes, states, attached, popups, rendererOnly, automation, th, old(lastActive),
                    old(protectedUntil), now, evictionTimer);
      }
    }

    /** An inactive tab kept warm long enough goes to sleep, unless a pop-up hangs on it. */
    method FireTabSuspend(key: Key)
      requires Valid() && key in tabTimers
      modifies `runtimes, `attached, `lastActive, `protectedUntil, `tabTimers, `pendingOpens
      ensures Valid() && tabTimers == old(tabTimers) - {key}
      ensures runtimes
              == if HasTab(states, key) && key !in OwnerKeys(popups) then old(runtimes) - {key} else old(runtimes)
    {
      hide TabTablesOk, RuntimeTablesOk, OwnerKeys;
      tabTimers := tabTimers - {key};
      if !HasTab(states, key) { return; }
      var owners := PopupOwnerKeys();
      if key in owners { return; }
      DestroyRuntime(key);
    }

    /** The eviction timer runs another budget pass, when a protection window has closed. */
    method FireEviction()
      requires Valid() && evictionTimer.Some? && now >= evictionTimer.value
      modifies `runtimes, `attached, `lastActive, `protectedUntil, `tabTimers, `pendingOpens, `evictionTimer
      ensures Valid() && attached == old(attached)
      ensures BudgetOutcome(old(runtimes), runtimes, attached, popups, automation, old(lastActive), old(protectedUntil),
                            now, evictionTimer)
    {
      evictionTimer := None;
      EnforceBudget();
    }

    // ----------------------------------------------------------------- panel

    /** The thread shows a tab that automation has claimed. */
    predicate KeepsAgent(th: ThreadId)
      reads `states, `automation
    {
      th in states && states[th].active.Some? && Key(th, states[th].active.value) in automation
    }

    /** `hide`. */
    method Hide(th: ThreadId)
      requires Valid()
      modifies `runtimes, `attached, `lastActive, `protectedUntil, `tabTimers, `pendingOpens, `evictionTimer,
               `activeThread, `threadTimers, `control
      ensures control == old(control) + if KeepsAgent(th) then [] else [th]
      ensures Valid() && activeThread != Some(th)
      ensures attached == if old(activeThread) == Some(th) then None else old(attached)
      ensures Turnover(old(runtimes), runtimes, {}, OwnerKeys(popups))
      ensures !(th in states && states[th].open) ==> runtimes == old(runtimes) && threadTimers == old(threadTimers)
      ensures th in states && states[th].open ==>
                th in threadTimers
                && (|Background(runtimes, attached, popups, automation)| <= MAX_BACKGROUND || evictionTimer.Some?)
    {
      hide TabTablesOk, RuntimeTablesOk, OwnerKeys, Turnover, BudgetOutcome, Background;
      if !KeepsAgent(th) { MarkHumanControl(th); }
      if activeThread == Some(th) {
        Detached(states, runtimes, rendererOnly, automation, attached);
        attached := None;
        activeThread := None;
      }
      TurnoverNone(runtimes, {}, OwnerKeys(popups));
      if th !in states || !states[th].open { return; }
      ScheduleThreadSuspend(th);
      ghost var times, windows := lastActive, protectedUntil;
      EnforceBudget();
      CapOrTimer(old(runtimes), runtimes, attached, popups, automation, times, windows, now, evictionTimer);
    }

    /** `open`, for a thread that keeps its shown tab's address; `blank` says whether that address is blank. */
    method Open(th: ThreadId, blank: bool)
      requires Valid()
      modifies `states, `nextTab, `runtimes, `attached, `lastActive, `protectedUntil, `tabTimers, `pendingOpens,
               `evictionTimer, `activeThread, `boundsThread, `threadTimers, `nextContents, `control
      ensures control == old(control) + if th in old(states) && old(states)[th].open then [] else [th]
      ensures Valid()
      ensures var was := Workspace(old(states), th, old(nextTab));
              th in was && states == was[th := was[th].(open := true)]
      ensures Turnover(old(runtimes), runtimes, {ActiveKey(th)}, OwnerKeys(popups))
      ensures if old(boundsThread) == Some(th) && old(activeThread) in {None, Some(th)} && !blank
              then activeThread == Some(th) && Presented(th)
              else activeThread == old(activeThread) && runtimes == old(runtimes) && attached == old(attached)
                   && threadTimers == old(threadTimers)
    {
      hide TabTablesOk, RuntimeTablesOk, HasTab, Workspace, OwnerKeys, Turnover, Calm, Idle;
      if th !in states || !states[th].open { MarkHumanControl(th); }
      EnsureWorkspace(th);
      SetThread(th, states[th].(open := true));
      TurnoverNone(runtimes, {ActiveKey(th)}, OwnerKeys(popups));
      if boundsThread == Some(th) && (activeThread == None || activeThread == Some(th)) && !blank {
        WorkspaceAgain(states, th, popups, pendingOpens, nextTab);
        ActivateThread(th);
      }
    }

    /** The panel's thread is no longer on show. */
    method LeaveView(th: ThreadId)
      requires Valid() && th in states
      modifies `attached, `activeThread, `threadTimers
      ensures Valid() && activeThread == (if old(activeThread) == Some(th) then None else old(activeThread))
      ensures attached == if old(activeThread) == Some(th) then None else old(attached)
      ensures threadTimers == if states[th].open && old(activeThread) == Some(th) then old(threadTimers) + {th}
                              else old(threadTimers)
    {
      hide TabTablesOk, RuntimeTablesOk;
      if activeThread == Some(th) {
        Detached(states, runtimes, rendererOnly, automation, attached);
        attached := None;
        activeThread := None;
        ScheduleThreadSuspend(th);
      }
    }

    /** An open thread is on show in the panel. */
    method EnterView(th: ThreadId, renderer: bool, moved: bool)
      requires Valid() && th in states && boundsThread == Some(th)
      modifies `states, `nextTab, `runtimes, `attached, `lastActive, `protectedUntil, `tabTimers, `pendingOpens,
               `evictionTimer, `activeThread, `boundsThread, `threadTimers, `nextContents
      ensures Valid() && th in states && boundsThread == Some(th) && activeThread == Some(th)
      ensures states == old(states) || states == Workspace(old(states), th, old(nextTab))
      ensures forall t | t != th :: t in threadTimers <==> t in old(threadTimers)
      ensures threadTimers <= old(threadTimers)
      ensures states[th].active.Some? ==>
                && (if ActiveKey(th) in runtimes then hasWindow ==> attached == Some(ActiveKey(th))
                    else renderer || ActiveKey(th) in rendererOnly)
                && ((renderer || ActiveKey(th) in rendererOnly) && states == old(states) ==>
                      (ActiveKey(th) !in old(runtimes) ==> runtimes == old(runtimes) && attached == old(attached)))
                && (old(activeThread) != Some(th)
                    && (ActiveKey(th) in old(runtimes) || !(renderer || ActiveKey(th) in rendererOnly)) ==>
                      Presented(th))
    {
      hide TabTablesOk, RuntimeTablesOk, Workspace, OwnerKeys, Turnover, HasTab, PagesKept, Calm, Spared, Idle,
           BudgetOutcome;
      var activeKey := if states[th].active.Some? then Some(ActiveKey(th)) else None;
      // A guest's tab is always renderer-only, so no guest is replaced by a native view here.
      if (renderer || (activeKey.Some? && activeKey.value in rendererOnly))
         && activeKey.Some? && activeKey.value !in runtimes {
        ActivateThreadForPendingRenderer(th);
        return;
      }
      AttachedLive(states, runtimes, rendererOnly, automation, attached);
      if activeKey.Some? { WorkspaceAgain(states, th, popups, pendingOpens, nextTab); }
      if activeThread == Some(th) && attached == activeKey && !moved { return; }
      if activeThread == Some(th) {
        if activeKey.Some? && attached == activeKey {
          AttachRuntime(activeKey.value);
          return;
        }
        AttachActiveTab(th);
        return;
      }
      ActivateThread(th);
    }

    /**
     `setPanelBounds`: `visible` when the panel has bounds, `renderer` when it shows a guest,
     `moved` when the bounds differ from those applied last.
     */
    method SetPanelBounds(th: ThreadId, visible: bool, renderer: bool, moved: bool)
      requires Valid()
      modifies `states, `nextTab, `runtimes, `attached, `lastActive, `protectedUntil, `tabTimers, `pendingOpens,
               `evictionTimer, `activeThread, `boundsThread, `threadTimers, `nextContents
      ensures Valid() && th in states
      ensures boundsThread
              == (if visible then Some(th) else if old(boundsThread) == Some(th) then None else old(boundsThread))
      ensures !(StateOf(old(states), th).open && visible) ==>
                && states == old(states)[th := StateOf(old(states), th)] && runtimes == old(runtimes)
                && activeThread == (if old(activeThread) == Some(th) then None else old(activeThread))
                && attached == (if old(activeThread) == Some(th) then None else old(attached))
                && threadTimers == (if states[th].open && old(activeThread) == Some(th) then old(threadTimers) + {th}
                                    else old(threadTimers))
      ensures StateOf(old(states), th).open && visible ==>
                && activeThread == Some(th)
                && (states == old(states) || states == Workspace(old(states), th, old(nextTab)))
                && (forall t | t != th :: t in threadTimers <==> t in old(threadTimers))
                && threadTimers <= old(threadTimers)
                && (states[th].active.Some? ==>
                      && (if ActiveKey(th) in runtimes then hasWindow ==> attached == Some(ActiveKey(th))
                          else renderer || ActiveKey(th) in rendererOnly)
                      && ((renderer || ActiveKey(th) in rendererOnly) && states == old(states) ==>
                            (ActiveKey(th) !in old(runtimes) ==>
                               runtimes == old(runtimes) && attached == old(attached)))
                      && (old(activeThread) != Some(th)
                          && (ActiveKey(th) in old(runtimes) || !(renderer || ActiveKey(th) in rendererOnly)) ==>
                            Presented(th)))
    {
      hide TabTablesOk, RuntimeTablesOk, Workspace, OwnerKeys, HasTab, Calm, Idle;
      SetThread(th, StateOf(states, th));
      if visible { boundsThread := Some(th); } else if boundsThread == Some(th) { boundsThread := None; }
      if !states[th].open || !visible {
        LeaveView(th);
        return;
      }
      assert states == old(states);
      EnterView(th, renderer, moved);
    }

    /** The tab navigated: made live if its thread is in front, and attached if it is the one on show. */
    method WakeTab(key: Key, shown: bool)
      requires Valid() && HasTab(states, key)
      modifies `runtimes, `attached, `lastActive, `protectedUntil, `tabTimers, `pendingOpens, `evictionTimer,
               `threadTimers, `nextContents
      ensures Valid() && Turnover(old(runtimes), runtimes, {key}, OwnerKeys(popups))
      ensures key in runtimes <==> key in old(runtimes) || (activeThread == Some(key.thread) && key !in rendererOnly)
      ensures key in old(runtimes) ==> runtimes[key] == old(runtimes)[key]
      ensures if shown && key in runtimes then hasWindow ==> attached == Some(key)
              else attached == old(attached) && forall k | k in old(runtimes) :: k in runtimes
      ensures var woken := key in runtimes && key !in old(runtimes);
              threadTimers == if woken then old(threadTimers) - {key.thread} else old(threadTimers)
    {
      hide TabTablesOk, RuntimeTablesOk, OwnerKeys, Turnover, HasTab, BudgetOutcome;
      TurnoverNone(runtimes, {key}, OwnerKeys(popups));
      if key !in runtimes {
        if activeThread != Some(key.thread) || key in rendererOnly { return; }
        var ok := EnsureLiveRuntime(key);
        threadTimers := threadTimers - {key.thread};
      }
      ghost var live := runtimes;
      AddedTurnover(old(runtimes), live, key, OwnerKeys(popups));
      if shown {
        AttachRuntime(key);
        TurnoverTwice(old(runtimes), live, runtimes, {key}, {}, OwnerKeys(popups));
        TurnoverSame(live, runtimes, OwnerKeys(popups), key);
        assert {key} + {} == {key};
      }
    }

    /** `navigate`, as far as it makes runtimes live and attached. */
    method Navigate(th: ThreadId, x: TabId)
      requires Valid()
      modifies `states, `nextTab, `runtimes, `attached, `lastActive, `protectedUntil, `tabTimers, `pendingOpens,
               `evictionTimer, `threadTimers, `nextContents, `control
      ensures control == old(control) + [th]
      ensures Valid()
      ensures states == Workspace(old(states), th, old(nextTab)) && th in states && ResolveTab(states[th], x).Some?
      ensures Turnover(old(runtimes), runtimes, {Key(th, ResolveTab(states[th], x).value)}, OwnerKeys(popups))
      ensures var key := Key(th, ResolveTab(states[th], x).value);
              && (key in runtimes <==> key in old(runtimes) || (activeThread == Some(th) && key !in rendererOnly))
              && (key in old(runtimes) ==> runtimes[key] == old(runtimes)[key])
              && (threadTimers == if key in runtimes && key !in old(runtimes) then old(threadTimers) - {th}
                                  else old(threadTimers))
              && if states[th].active == Some(key.tab) && boundsThread == Some(th) && key in runtimes
                 then hasWindow ==> attached == Some(key)
                 else attached == old(attached) && forall k | k in old(runtimes) :: k in runtimes
    {
      hide TabTablesOk, RuntimeTablesOk, Workspace, OwnerKeys, Turnover;
      MarkHumanControl(th);
      EnsureWorkspace(th);
      ResolvedTab(states[th], x);
      var key := Key(th, ResolveTab(states[th], x).value);
      WakeTab(key, states[th].active == Some(key.tab) && boundsThread == Some(th));
    }

    // ------------------------------------------------ offscreen pages and losses

    /** `activateRemoteRuntime`; `ok` is false without an open tab, and when a renderer's guest was in the way. */
    method ActivateRemote(th: ThreadId) returns (ok: bool)
      requires Valid()
      modifies `remote, `threadTimers, `runtimes, `attached, `lastActive, `protectedUntil, `tabTimers, `pendingOpens,
               `nextContents
      ensures Valid() && remote == old(remote) + {th}
      ensures threadTimers == old(threadTimers) - {th}
      ensures ok <==> th in states && states[th].open && states[th].active.Some? && ActiveKey(th) !in rendererOnly
      ensures ok ==>
                ActiveKey(th) in runtimes && runtimes[ActiveKey(th)].placement == Offscreen
                && runtimes[ActiveKey(th)].owns
      ensures ok && ActiveKey(th) in old(runtimes) && old(runtimes)[ActiveKey(th)].placement == Offscreen ==>
                runtimes == old(runtimes) && attached == old(attached)
      ensures th in states && states[th].active.Some? ==> Turnover(old(runtimes), runtimes, {ActiveKey(th)}, {})
    {
      hide TabTablesOk, RuntimeTablesOk, HasTab, Turnover;
      remote := remote + {th};
      threadTimers := threadTimers - {th};
      if th in states && states[th].active.Some? { TurnoverNone(runtimes, {ActiveKey(th)}, {}); }
      if th !in states || !states[th].open || states[th].active.None? { return false; }
      ActiveHasTab(states, popups, pendingOpens, nextTab, th);
      var key := ActiveKey(th);
      if key in runtimes { GuestRuntime(states, runtimes, rendererOnly, automation, attached, key); }
      if key in runtimes && runtimes[key].placement != Offscreen { DestroyRuntime(key); }
      ghost var calmed := runtimes;
      ClaimTurnover(old(runtimes), calmed, key, {});
      ok := EnsureLiveRuntime(key);
      AddedTurnover(calmed, runtimes, key, {});
      TurnoverTwice(old(runtimes), calmed, runtimes, {key}, {key}, {});
      assert {key} + {key} == {key};
      if key in runtimes { GuestRuntime(states, runtimes, rendererOnly, automation, attached, key); }
    }

    /** Tears a runtime down; if its page was an adopted pop-up's, the window's `closed` event follows. */
    method DestroyAndClose(key: Key)
      requires Valid()
      modifies `states, `nextTab, `popups, `runtimes, `rendererOnly, `automation, `attached, `lastActive,
               `protectedUntil, `tabTimers, `pendingOpens, `evictionTimer, `activeThread, `boundsThread, `threadTimers,
               `nextContents
      ensures Valid() && nextTab == old(nextTab) && activeThread == old(activeThread)
              && boundsThread == old(boundsThread)
      ensures var gone := old(Now()).(runtimes := old(runtimes) - {key});
              && PagesKept(gone, Now(), remote)
              && if key in old(runtimes) && IsAdoptedPage(old(popups), key, old(runtimes)[key].contents)
                 then PopupClosedOff(gone, Now(), old(runtimes)[key].contents.window)
                 else Now() == gone && nextTab == old(nextTab)
    {
      hide TabTablesOk, RuntimeTablesOk, PopupClosedOff, PagesKept;
      var child := if key in runtimes && IsAdoptedPage(popups, key, runtimes[key].contents)
                   then Some(runtimes[key].contents.window) else None;
      DestroyRuntime(key);
      PagesKeptNone(Now(), remote);
      if child.Some? { ClosePopupRuntime(child.value); }
    }

    /** `handleRuntimeLoss`: the page of a live runtime crashed or was destroyed. */
    method RuntimeLost(key: Key)
      requires Valid() && key in runtimes
      modifies `states, `nextTab, `popups, `runtimes, `rendererOnly, `automation, `attached, `lastActive,
               `protectedUntil, `tabTimers, `pendingOpens, `evictionTimer, `activeThread, `boundsThread, `threadTimers,
               `nextContents
      ensures Valid() && activeThread == old(activeThread) && boundsThread == old(boundsThread)
      ensures var th, gone := key.thread, old(Now()).(runtimes := old(runtimes) - {key});
              var shown := activeThread == Some(th) && boundsThread == Some(th);
              && (if IsAdoptedPage(old(popups), key, old(runtimes)[key].contents)
                  then PopupClosedOff(gone, Now(), old(runtimes)[key].contents.window)
                  else Now() == gone.(runtimes := runtimes) && (!shown ==> runtimes == gone.runtimes))
              && (shown ==>
                    && th in states && states[th].active.Some?
                    && (!IsAdoptedPage(old(popups), key, old(runtimes)[key].contents) ==>
                          Turnover(gone.runtimes, runtimes, {ActiveKey(th)}, OwnerKeys(popups)))
                    && if ActiveKey(th) in runtimes then hasWindow ==> attached == Some(ActiveKey(th))
                       else ActiveKey(th) in rendererOnly)
    {
      hide TabTablesOk, RuntimeTablesOk, PopupClosedOff, PagesKept, Turnover, Workspace, OwnerKeys, HasTab;
      TabOfRuntime(states, runtimes, rendererOnly, automation, attached, key);
      ThreadShows(states, popups, pendingOpens, nextTab, key);
      ghost var gone := Now().(runtimes := runtimes - {key});
      ghost var contents := runtimes[key].contents;
      DestroyAndClose(key);
      ghost var mid := Now();
      if IsAdoptedPage(old(popups), key, contents) { ClosedOffShows(gone, mid, contents.window); }
      if boundsThread == Some(key.thread) && activeThread == Some(key.thread) {
        WorkspaceAgain(states, key.thread, popups, pendingOpens, nextTab);
        AttachActiveTab(key.thread);
        if IsAdoptedPage(old(popups), key, contents) {
          ClosedOffReattached(gone, mid, Now(), contents.window, OwnerKeys(popups));
        }
      }
    }

    /** `deactivateRemoteRuntime`: the thread's offscreen pages go, adopted pop-ups with all opened from them. */
    method DeactivateRemote(th: ThreadId)
      requires Valid()
      modifies `states, `nextTab, `popups, `runtimes, `rendererOnly, `automation, `attached, `lastActive,
               `protectedUntil, `tabTimers, `pendingOpens, `evictionTimer, `activeThread, `boundsThread, `threadTimers,
               `nextContents, `remote
      ensures Valid() && remote == old(remote) - {th} && activeThread == old(activeThread)
              && boundsThread == old(boundsThread)
      ensures Elsewhere(old(Now()), Now(), th) && OffscreenKeys(runtimes, th) == {}
      ensures popups == old(popups) - RemotePopups(old(Now()), th)
      ensures th in old(states) && old(states)[th].active.Some? ==>
                PopupsGone(old(Now()), Now(), th, RemotePopups(old(Now()), th))
    {
      hide TabTablesOk, RuntimeTablesOk, PopupClosedOff, PagesKept, Turnover, Workspace, OwnerKeys, Elsewhere,
           OffscreenKeys, RemotePopups, LeavingRemote, PopupsGone, HasTab;
      remote := remote - {th};
      NothingElsewhere(Now(), th);
      LeavingStart(Now(), th, remote);
      var offscreen := OffscreenKeys(runtimes, th);
      ghost var removed: set<WindowId> := {};
      assert forall k | k in offscreen :: k.thread == th by { OffscreenKeysOf(runtimes, th); }
      while offscreen != {}
        invariant Valid() && activeThread == old(activeThread) && boundsThread == old(boundsThread)
        invariant Elsewhere(old(Now()), Now(), th) && remote == old(remote) - {th}
        invariant forall k | k in offscreen :: k.thread == th
        invariant LeavingRemote(old(Now()), Now(), th, offscreen, removed, remote)
        decreases offscreen
      {
        var key :| key in offscreen;
        ghost var before := Now();
        ghost var gone := before.(runtimes := before.runtimes - {key});
        DestroyAndClose(key);
        removed := LeavingStep(old(Now()), before, Now(), th, key, offscreen, removed, remote);
        offscreen := offscreen - {key};
        ElsewhereRuntime(before, key);
        if key in before.runtimes && IsAdoptedPage(before.popups, key, before.runtimes[key].contents) {
          ClosedOffElsewhere(gone, Now(), before.runtimes[key].contents.window);
        }
        ElsewhereTwice(before, gone, Now(), th);
        ElsewhereTwice(old(Now()), before, Now(), th);
      }
      LeavingEnd(old(Now()), Now(), th, removed, remote);
      ghost var before := Now();
      PopupsGoneThen(old(Now()), before, th, RemotePopups(old(Now()), th));
      if th in states && states[th].open && activeThread == Some(th) && boundsThread == Some(th) {
        ghost var n := nextTab;
        if states[th].active.Some? { WorkspaceAgain(states, th, popups, pendingOpens, nextTab); }
        AttachActiveTab(th);
        NoneOffscreen(before, Now(), th, remote);
        PopupsGoneLater(old(Now()), before, Now(), th, RemotePopups(old(Now()), th));
        ElsewhereAttached(before, Now(), th, n, OwnerKeys(popups));
        ElsewhereTwice(old(Now()), before, Now(), th);
      }
    }

    method Advance(later: nat)
      requires Valid() && now <= later
      modifies `now
      ensures Valid() && now == later
    {
      now := later;
    }
  }

  /**
   A thread that another one replaces in the panel is not scheduled for suspension: it is asked for while the thread
   is still in front, when `scheduleThreadSuspend` refuses.
   */
  method ReplacedIsNotScheduled(first: ThreadId, second: ThreadId) returns (m: DesktopBrowserManager)
    requires first != second
    ensures m.Valid() && m.activeThread == Some(second)
    ensures first in m.states && m.states[first].open && first !in m.threadTimers
  {
    hide Workspace, TabTablesOk, RuntimeTablesOk, Calm, Turnover, OwnerKeys;
    m := new DesktopBrowserManager(true);
    m.Open(first, true);
    WorkspaceOpen(map[], first, 0, first);
    ghost var states, n := m.states, m.nextTab;
    m.SetPanelBounds(first, true, false, true);
    WorkspaceOpen(states, first, n, first);
    states, n := m.states, m.nextTab;
    m.Open(second, true);
    WorkspaceOpen(states, second, n, first);
    states, n := m.states, m.nextTab;
    m.SetPanelBounds(second, true, false, true);
    WorkspaceOpen(states, second, n, first);
  }

  lemma WorkspaceOpen(states: States, th: ThreadId, nextTab: TabId, t: ThreadId)
    ensures t in states ==>
              t in Workspace(states, th, nextTab) && Workspace(states, th, nextTab)[t].open == states[t].open
  {
  }
}
