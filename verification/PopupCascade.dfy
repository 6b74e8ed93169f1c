/**
 Closing a pop-up closes everything opened from it
 (`apps/desktop/src/browserManager.ts`, 1291-1340 and 1375-1431): what one call removes,
 and how far a walk over a table that shrinks underneath it has come.
*/
module PopupCascade {
  import opened Wrappers
  import opened PopupForest
  import opened BrowserTables

  /** The popups that close together with this one. */
  ghost function ClosedWith(popups: Popups, w: WindowId): set<WindowId> {
    if w !in popups then {}
    else if popups[w].Adopted() then Subtree(popups, popups[w].thread, popups[w].tab)
    else {w}
  }

  /** The tabs that go with it: its own and all that lie under it, if it was adopted. */
  ghost function GoneTabs(popups: Popups, w: WindowId): set<TabId> {
    if w in popups && popups[w].Adopted() then TabsUnder(popups, popups[w].thread, popups[w].tab) else {}
  }

  ghost function GoneKeys(popups: Popups, w: WindowId): set<Key> {
    if w in popups then KeysOf(popups[w].thread, GoneTabs(popups, w)) else {}
  }

  /** The tabs afterwards: the rest in order, the opener shown. */
  ghost function AfterClosing(states: States, popups: Popups, w: WindowId): States {
    if w in popups && popups[w].Adopted() && popups[w].thread in states
    then states[popups[w].thread := Shown(states[popups[w].thread], GoneTabs(popups, w), popups[w].opener)]
    else states
  }

  /** The only place a runtime may appear: the opener, shown again. */
  function OpenerKeys(popups: Popups, w: WindowId): set<Key> {
    if w in popups && popups[w].Adopted() then {Key(popups[w].thread, popups[w].opener.value)} else {}
  }

  predicate NoAdopted(popups: Popups, k: Key) {
    forall w | w in popups && popups[w].Adopted() :: popups[w].OwnKey() != k
  }

  predicate NoOpened(popups: Popups, k: Key) {
    forall w | w in popups && popups[w].Adopted() :: Key(popups[w].thread, popups[w].opener.value) != k
  }

  /** Part of the way through closing the popups of tab `x`: those in `removed` are gone, with their tabs. */
  ghost predicate Cascading(popups: Popups, th: ThreadId, x: TabId, removed: set<WindowId>) {
    DownClosed(popups, th, removed) && removed <= Subtree(popups, th, x)
  }

  function CascadeStates(states: States, popups: Popups, th: ThreadId, x: TabId, removed: set<WindowId>): States {
    var gone := TabsOf(popups, removed);
    if gone == {} || th !in states then states else states[th := Shown(states[th], gone, Some(x))]
  }

  function CascadeKeys(popups: Popups, th: ThreadId, removed: set<WindowId>): set<Key> {
    KeysOf(th, TabsOf(popups, removed))
  }

  /** What the walk has removed once the child `w` is closed as well. */
  ghost function WithChild(popups: Popups, th: ThreadId, removed: set<WindowId>, w: WindowId): set<WindowId> {
    if w !in popups || w in removed then removed
    else if popups[w].Adopted() then removed + Subtree(popups, th, popups[w].tab)
    else removed + {w}
  }

  lemma ChildClosed(states: States, popups: Popups, th: ThreadId, x: TabId, removed: set<WindowId>, w: WindowId)
    requires Cascading(popups, th, x, removed) && ForestOk(popups) && NoAdopted(popups, Key(th, x))
    requires w in popups && popups[w].thread == th && (popups[w].tab == x || popups[w].opener == Some(x))
    ensures var rest, now, more := popups
                - removed, CascadeStates(states, popups, th, x, removed), WithChild(popups, th, removed, w);
            && Cascading(popups, th, x, more) && w in more
            && rest - ClosedWith(rest, w) == popups - more
            && AfterClosing(now, rest, w) == CascadeStates(states, popups, th, x, more)
            && CascadeKeys(popups, th, removed) + GoneKeys(rest, w) == CascadeKeys(popups, th, more)
            && OpenerKeys(rest, w) <= {Key(th, x)}
  {
    hide ForestOk, Subtree, TabsUnder, DownClosed;
    var rest := popups - removed;
    if w in rest {
      if popups[w].Adopted() {
        assert popups[w].OwnKey() != Key(th, x);
        ForestEntry(popups, w);
        OneMoreChild(popups, th, x, removed, w);
        var gone, under := TabsOf(popups, removed), TabsUnder(rest, th, popups[w].tab);
        assert popups[w].tab in under by { UnderItself(rest, th, popups[w].tab); }
        if th in states { KeepKeep(states[th].tabs, gone, under); }
        KeysOfBoth(th, gone, under);
        if gone == {} { assert gone + under == under; }
      } else {
        OnePlainChild(popups, th, x, removed, w);
      }
    } else {
      assert rest - {} == rest;
    }
  }

  lemma ForestOf(states: States, popups: Popups, pending: map<Key, PendingOpen>, nextTab: TabId)
    requires TabTablesOk(states, popups, pending, nextTab)
    ensures ForestOk(popups)
  {
  }

  lemma ForestEntry(popups: Popups, w: WindowId)
    requires ForestOk(popups) && w in popups
    ensures OpenedBefore(popups[w])
  {
  }

  lemma UnderItself(popups: Popups, th: ThreadId, x: TabId)
    ensures x in TabsUnder(popups, th, x)
  {
  }

  lemma KeysOfBoth(th: ThreadId, a: set<TabId>, b: set<TabId>)
    ensures KeysOf(th, a) + KeysOf(th, b) == KeysOf(th, a + b)
  {
  }

  /** At the end of the walk the whole subtree is gone, and of the tabs under `x` only `x` is left. */
  lemma CascadeDone(states: States, popups: Popups, th: ThreadId, x: TabId, removed: set<WindowId>)
    requires Cascading(popups, th, x, removed) && NoAdopted(popups, Key(th, x))
    requires forall w | w in popups && popups[w].thread == th && (popups[w].tab == x || popups[w].opener == Some(x)) ::
               w in removed
    ensures removed == Subtree(popups, th, x)
    ensures TabsOf(popups, removed) == TabsUnder(popups, th, x) - {x}
    ensures NoAdopted(popups - removed, Key(th, x)) && NoOpened(popups - removed, Key(th, x))
  {
    ClosedAll(popups, th, x, removed);
    TabsOfSubtree(popups, th, x);
  }

  lemma CutLast(states: States, popups: Popups, th: ThreadId, x: TabId, active: Option<TabId>)
    requires th in states && NoAdopted(popups, Key(th, x))
    ensures var now := CascadeStates(states, popups, th, x, Subtree(popups, th, x));
            && th in now
            && now[th := Shown(now[th], {x}, active)]
               == states[th := Shown(states[th], TabsUnder(popups, th, x), active)]
            && (forall y | y in TabIds(states[th].tabs) && y <= x :: y in TabIds(now[th].tabs))
            && (forall k | HasTab(states, k) && k.thread != th :: HasTab(now, k))
            && CascadeKeys(popups, th, Subtree(popups, th, x)) + {Key(th, x)} == KeysOf(th, TabsUnder(popups, th, x))
  {
    hide Subtree, TabsUnder;
    var gone, under := TabsOf(popups, Subtree(popups, th, x)), TabsUnder(popups, th, x);
    TabsOfSubtree(popups, th, x);
    UnderItself(popups, th, x);
    assert gone == under - {x} && gone + {x} == under;
    hide TabsOf, NoAdopted, Keep;
    if gone == {} { assert under == {x}; }
    KeepKeep(states[th].tabs, gone, {x});
    KeepIds(states[th].tabs, gone);
    forall y | y in under ensures x <= y {
      TabsUnderIff(popups, th, x, y);
      UnderIsNewer(popups, th, x, y);
    }
    KeysOfBoth(th, gone, {x});
    assert KeysOf(th, {x}) == {Key(th, x)};
    hide KeysOf;
    var now := CascadeStates(states, popups, th, x, Subtree(popups, th, x));
    assert Shown(now[th], {x}, active) == Shown(states[th], under, active);
  }

  /** A tab that no adopted popup owns or came from can go. */
  lemma TabCut(states: States, popups: Popups, pending: map<Key, PendingOpen>, nextTab: TabId, th: ThreadId, x: TabId,
               active: Option<TabId>)
    requires TabTablesOk(states, popups, pending, nextTab) && th in states
    requires NoAdopted(popups, Key(th, x)) && NoOpened(popups, Key(th, x))
    requires var rest := Keep(states[th].tabs, {x});
             (active.None? <==> rest == []) && (active.Some? ==> active.value in TabIds(rest))
    ensures TabTablesOk(states[th := Shown(states[th], {x}, active)], popups, pending, nextTab)
  {
    hide ForestOk;
    var next := states[th := Shown(states[th], {x}, active)];
    assert StateOk(states[th], nextTab);
    KeepDistinct(states[th].tabs, {x});
    KeepIds(states[th].tabs, {x});
    assert StateOk(next[th], nextTab);
    forall k | HasTab(states, k) && k != Key(th, x) ensures HasTab(next, k) {}
  }

  lemma RuntimesCut(states: States, runtimes: Runtimes, rendererOnly: set<Key>, automation: set<Key>,
                    attached: Option<Key>,
                    th: ThreadId, x: TabId, active: Option<TabId>)
    requires RuntimeTablesOk(states, runtimes, rendererOnly, automation, attached) && th in states
             && Key(th, x) !in runtimes
    ensures RuntimeTablesOk(states[th := Shown(states[th], {x}, active)], runtimes, rendererOnly - {Key(th, x)},
                            automation - {Key(th, x)}, attached)
  {
    var next := states[th := Shown(states[th], {x}, active)];
    KeepIds(states[th].tabs, {x});
    assert NativeOk(next, automation - {Key(th, x)}) by { hide KeysOk, OwnershipOk, GuestsOk; }
    TabsRemoved(states, next, runtimes, rendererOnly, automation, attached, {Key(th, x)});
  }

  /** Dropping a popup's record leaves the tables as good as they were. */
  lemma PopupDropped(states: States, popups: Popups, pending: map<Key, PendingOpen>, nextTab: TabId, w: WindowId)
    requires TabTablesOk(states, popups, pending, nextTab) && w in popups
    ensures TabTablesOk(states, popups - {w}, pending, nextTab)
    ensures OpenedBefore(popups[w])
    ensures popups[w].Adopted() ==>
              && NoAdopted(popups - {w}, popups[w].OwnKey())
              && HasTab(states, popups[w].OwnKey()) && HasTab(states, Key(popups[w].thread, popups[w].opener.value))
  {
  }

  /** What closing an adopted popup removes is its own record and what closing its tab removes. */
  lemma ClosedWithSelf(states: States, popups: Popups, w: WindowId)
    requires w in popups && popups[w].Adopted() && popups[w].thread in states
    ensures var th, x, rest := popups[w].thread, popups[w].tab, popups - {w};
            && rest - Subtree(rest, th, x) == popups - ClosedWith(popups, w)
            && TabsUnder(rest, th, x) == GoneTabs(popups, w)
            && states[th := Shown(states[th], TabsUnder(rest, th, x), popups[w].opener)]
               == AfterClosing(states, popups, w)
  {
    hide Subtree, TabsUnder;
    SubtreeWithoutRoot(popups, w);
  }

  lemma FewerPopups(popups: Popups, removed: set<WindowId>)
    ensures |popups - removed| <= |popups|
  {
  }

  // ------------------------------------------------------------ whole calls

  /** The tables a close changes together. */
  datatype Tables = Tables(states: States, popups: Popups, runtimes: Runtimes, rendererOnly: set<Key>,
                           automation: set<Key>)

  /** What closing one popup does: it and all opened from it are gone, the rest is as it was, its opener is shown. */
  ghost predicate PopupClosedOff(was: Tables, now: Tables, w: WindowId) {
    && now.popups == was.popups - ClosedWith(was.popups, w)
    && now.states == AfterClosing(was.states, was.popups, w)
    && now.rendererOnly == was.rendererOnly - GoneKeys(was.popups, w)
    && now.automation == was.automation - GoneKeys(was.popups, w)
    && Turnover(was.runtimes, now.runtimes, OpenerKeys(was.popups, w), {})
  }

  /** What closing a tab does, `active` being the tab shown next: it and all that lies under it are gone. */
  ghost predicate TabGone(was: Tables, now: Tables, th: ThreadId, x: TabId, active: Option<TabId>) {
    && th in was.states
    && now.popups == was.popups - Subtree(was.popups, th, x)
    && now.states == was.states[th := Shown(was.states[th], TabsUnder(was.popups, th, x), active)]
    && now.rendererOnly == was.rendererOnly - KeysOf(th, TabsUnder(was.popups, th, x))
    && now.automation == was.automation - KeysOf(th, TabsUnder(was.popups, th, x))
    && Turnover(was.runtimes, now.runtimes, ShownKeys(th, active), {})
  }

  function ShownKeys(th: ThreadId, active: Option<TabId>): set<Key> {
    if active.Some? then {Key(th, active.value)} else {}
  }

  /** Closing the popups of tab `x`, with those in `removed` gone so far. */
  ghost predicate CascadeAt(was: Tables, now: Tables, th: ThreadId, x: TabId, removed: set<WindowId>) {
    && Cascading(was.popups, th, x, removed)
    && now.popups == was.popups - removed
    && now.states == CascadeStates(was.states, was.popups, th, x, removed)
    && now.rendererOnly == was.rendererOnly - CascadeKeys(was.popups, th, removed)
    && now.automation == was.automation - CascadeKeys(was.popups, th, removed)
    && Turnover(was.runtimes, now.runtimes, {Key(th, x)}, {})
  }

  lemma CascadeStart(was: Tables, th: ThreadId, x: TabId)
    ensures CascadeAt(was, was, th, x, {})
  {
  }

  lemma CascadePopups(was: Tables, now: Tables, th: ThreadId, x: TabId, removed: set<WindowId>)
    requires CascadeAt(was, now, th, x, removed)
    ensures now.popups == was.popups - removed
  {
  }

  lemma CascadeStep(was: Tables, before: Tables, after: Tables, th: ThreadId, x: TabId, removed: set<WindowId>,
                    w: WindowId)
    requires CascadeAt(was, before, th, x, removed) && PopupClosedOff(before, after, w)
    requires ForestOk(was.popups) && NoAdopted(was.popups, Key(th, x))
    requires w in was.popups && was.popups[w].thread == th
             && (was.popups[w].tab == x || was.popups[w].opener == Some(x))
    ensures var more := WithChild(was.popups, th, removed, w);
            w in more && removed <= more && CascadeAt(was, after, th, x, more)
  {
    hide ForestOk, Subtree, TabsUnder, Turnover, Cascading, CascadeStates, CascadeKeys, NoAdopted, GoneKeys,
         AfterClosing, ClosedWith, OpenerKeys;
    ChildClosed(was.states, was.popups, th, x, removed, w);
    var key := {Key(th, x)};
    TurnoverTwice(was.runtimes, before.runtimes, after.runtimes, key, OpenerKeys(before.popups, w), {});
    assert key + OpenerKeys(before.popups, w) == key;
  }

  lemma CascadeEnd(was: Tables, now: Tables, th: ThreadId, x: TabId, removed: set<WindowId>)
    requires CascadeAt(was, now, th, x, removed) && NoAdopted(was.popups, Key(th, x))
    requires forall w
                    | w in was.popups && was.popups[w].thread == th
                      && (was.popups[w].tab == x || was.popups[w].opener == Some(x)) ::
               w in removed
    ensures CascadeAt(was, now, th, x, Subtree(was.popups, th, x))
    ensures NoAdopted(now.popups, Key(th, x)) && NoOpened(now.popups, Key(th, x))
    ensures forall y | th in was.states && y in TabIds(was.states[th].tabs) && y <= x ::
              th in now.states && y in TabIds(now.states[th].tabs)
  {
    hide Subtree, TabsUnder, Turnover, CascadeStates, NoAdopted, NoOpened;
    CascadeDone(was.states, was.popups, th, x, removed);
    if th in was.states { CutLast(was.states, was.popups, th, x, None); }
  }

  /** Cutting the tab itself after its popups, and attaching the tab shown next, completes the close. */
  lemma TabCutOff(was: Tables, mid: Tables, cut: Tables, now: Tables, th: ThreadId, x: TabId, active: Option<TabId>)
    requires th in was.states && th in mid.states && NoAdopted(was.popups, Key(th, x))
    requires CascadeAt(was, mid, th, x, Subtree(was.popups, th, x))
    requires cut == Tables(mid.states[th := Shown(mid.states[th], {x}, active)], mid.popups,
                           mid.runtimes - {Key(th, x)}, mid.rendererOnly - {Key(th, x)}, mid.automation - {Key(th, x)})
    requires now == cut.(runtimes := now.runtimes) && Turnover(cut.runtimes, now.runtimes, ShownKeys(th, active), {})
    ensures TabGone(was, now, th, x, active)
  {
    hide Subtree, TabsUnder, Turnover, Cascading, CascadeStates, CascadeKeys, NoAdopted, KeysOf, ShownKeys;
    CutLast(was.states, was.popups, th, x, active);
    TurnoverLess(was.runtimes, mid.runtimes, Key(th, x));
    TurnoverTwice(was.runtimes, cut.runtimes, now.runtimes, {}, ShownKeys(th, active), {});
    assert {} + ShownKeys(th, active) == ShownKeys(th, active);
  }

  lemma AdoptedClosedOff(was: Tables, now: Tables, w: WindowId)
    requires w in was.popups && was.popups[w].Adopted()
    requires TabGone(was.(popups := was.popups - {w}), now, was.popups[w].thread, was.popups[w].tab,
                     was.popups[w].opener)
    ensures PopupClosedOff(was, now, w)
  {
    hide Subtree, TabsUnder, Turnover;
    ClosedWithSelf(was.states, was.popups, w);
  }

  lemma ClosedOffTab(was: Tables, now: Tables, w: WindowId)
    requires w in was.popups && was.popups[w].Adopted() && was.popups[w].thread in was.states
             && PopupClosedOff(was, now, w)
    ensures TabGone(was, now, was.popups[w].thread, was.popups[w].tab, was.popups[w].opener)
  {
  }

  lemma PlainClosedOff(was: Tables, w: WindowId)
    requires w in was.popups ==> !was.popups[w].Adopted()
    ensures PopupClosedOff(was, was.(popups := was.popups - {w}), w)
  {
  }

  // ------------------------------------------------------------ whose pages stay

  /**
   A runtime is the one that was there, or a new page of our own, offscreen only for a remote
   thread; and the page of a pop-up that is still recorded stays.
   */
  predicate PagesKept(was: Tables, now: Tables, remote: set<ThreadId>) {
    && (forall w | w in now.popups :: w in was.popups && now.popups[w] == was.popups[w])
    && (forall k | k in now.runtimes ::
          (k in was.runtimes && now.runtimes[k] == was.runtimes[k]) || MadeFor(now.runtimes[k], k, remote))
    && (forall w | w in now.popups && now.popups[w].Adopted() && now.popups[w].OwnKey() in was.runtimes ::
          var k := now.popups[w].OwnKey(); k in now.runtimes && now.runtimes[k] == was.runtimes[k])
  }

  predicate MadeFor(r: Runtime, k: Key, remote: set<ThreadId>) {
    r.contents.Native? && (r.placement == Offscreen ==> k.thread in remote)
  }

  lemma PagesKeptTwice(a: Tables, b: Tables, c: Tables, remote: set<ThreadId>)
    requires PagesKept(a, b, remote) && PagesKept(b, c, remote)
    ensures PagesKept(a, c, remote)
  {
  }

  lemma PagesKeptNone(was: Tables, remote: set<ThreadId>)
    ensures PagesKept(was, was, remote)
  {
  }

  /** Showing a tab: two passes that may only take away, and between them at most one new page. */
  lemma AttachPass(was: Tables, now: Tables, calmed: Runtimes, live: Runtimes, key: Key, remote: set<ThreadId>)
    requires now.popups == was.popups
    requires Turnover(was.runtimes, calmed, {}, OwnerKeys(was.popups))
    requires now.runtimes == live || Turnover(live, now.runtimes, {}, OwnerKeys(was.popups))
    requires live == calmed
             || (key !in calmed && key in live && live == calmed[key := live[key]] && MadeFor(live[key], key, remote))
    ensures Turnover(was.runtimes, now.runtimes, {key}, OwnerKeys(was.popups)) && PagesKept(was, now, remote)
  {
    forall w | w in was.popups && was.popups[w].Adopted() && was.popups[w].OwnKey() in was.runtimes
      ensures var k := was.popups[w].OwnKey(); k in now.runtimes && now.runtimes[k] == was.runtimes[k]
    {
      assert was.popups[w].OwnKey() in OwnerKeys(was.popups);
    }
  }

  /** A tab that no adopted pop-up owns is cut, between two steps that keep pages. */
  lemma PagesKeptCut(was: Tables, mid: Tables, cut: Tables, now: Tables, key: Key, remote: set<ThreadId>)
    requires PagesKept(was, mid, remote) && PagesKept(cut, now, remote)
    requires cut.popups == mid.popups && cut.runtimes == mid.runtimes - {key} && NoAdopted(mid.popups, key)
    ensures PagesKept(was, now, remote)
  {
  }

  lemma PagesKeptClose(was: Tables, w: WindowId, remote: set<ThreadId>)
    ensures PagesKept(was, was.(popups := was.popups - {w}), remote)
  {
  }

  // ------------------------------------------------------- which tab is shown

  /**
   After a close the opener of a popup is shown; otherwise the last tab, unless another tab was shown and stays so.
   */
  ghost predicate ShownAfterClose(was: Tables, th: ThreadId, x: TabId, active: Option<TabId>)
    requires th in was.states
  {
    var s := was.states[th];
    if !NoAdopted(was.popups, Key(th, x)) then exists w :: Holds(was.popups, th, w, x) && active == was.popups[w].opener
    else if s.active == None || s.active == Some(x) || !NoOpened(was.popups, Key(th, x))
    then active == LastTab(Keep(s.tabs, TabsUnder(was.popups, th, x)))
    else active == s.active
  }

  /** The tab to show once the popups of `x` are closed and `x` is about to go. */
  function NextShown(s: ThreadState, x: TabId): Option<TabId> {
    if s.active == None || s.active == Some(x) then LastTab(Keep(s.tabs, {x})) else s.active
  }

  lemma NextShownOk(s: ThreadState, x: TabId, nextTab: TabId)
    requires StateOk(s, nextTab)
    ensures var rest := Keep(s.tabs, {x});
            && (x in TabIds(s.tabs) ==> (NextShown(s, x).None? <==> rest == []))
            && (NextShown(s, x).Some? ==> NextShown(s, x).value in TabIds(rest))
  {
  }

  lemma NextShownAfterCascade(was: Tables, mid: Tables, th: ThreadId, x: TabId)
    requires CascadeAt(was, mid, th, x, Subtree(was.popups, th, x)) && ForestOk(was.popups)
    requires th in was.states && th in mid.states && NoAdopted(was.popups, Key(th, x))
    ensures ShownAfterClose(was, th, x, NextShown(mid.states[th], x))
  {
    hide TabsUnder, Turnover;
    var gone := TabsOf(was.popups, Subtree(was.popups, th, x));
    CutLast(was.states, was.popups, th, x, None);
    assert mid.states[th := Shown(mid.states[th], {x}, None)][th]
           == was.states[th := Shown(was.states[th], TabsUnder(was.popups, th, x), None)][th];
    assert gone == {} <==> NoOpened(was.popups, Key(th, x)) by { OpenedUnder(was.popups, th, x); }
  }

  lemma OpenedUnder(popups: Popups, th: ThreadId, x: TabId)
    requires ForestOk(popups) && NoAdopted(popups, Key(th, x))
    ensures TabsOf(popups, Subtree(popups, th, x)) == {} <==> NoOpened(popups, Key(th, x))
  {
    if !NoOpened(popups, Key(th, x)) {
      var w :| w in popups && popups[w].Adopted() && Key(popups[w].thread, popups[w].opener.value) == Key(th, x);
      ForestEntry(popups, w);
      assert Holds(popups, th, w, popups[w].tab) && Under(popups, th, x, x);
      assert w in Subtree(popups, th, x);
      assert popups[w].tab in TabsOf(popups, Subtree(popups, th, x));
    }
    if y :| y in TabsOf(popups, Subtree(popups, th, x)) {
      var v :| v in Subtree(popups, th, x) && popups[v].Adopted() && popups[v].tab == y;
      assert popups[v].OwnKey() != Key(th, x);
      FirstStep(popups, th, x, y);
    }
  }

  /** A tab closed by its user: as `TabGone`, and a thread left without tabs gets a blank one. */
  ghost predicate ClosedByUser(was: Tables, now: Tables, th: ThreadId, x: TabId, nextTab: TabId)
    requires th in was.states
  {
    exists active ::
      && ShownAfterClose(was, th, x, active)
      && (active.Some? ==> TabGone(was, now, th, x, active))
      && th in now.states
      && (active.None? ==> TabGone(was, now.(states := now.states[th := now.states[th].(tabs := [], active := None)]),
                                   th, x, None)
                           && now.states[th].tabs == [Tab(nextTab, None, false)]
                           && now.states[th].active == Some(nextTab))
  }

  lemma PopupShown(was: Tables, th: ThreadId, x: TabId, w: WindowId)
    requires ForestOk(was.popups) && th in was.states
    requires w in was.popups && was.popups[w].Adopted() && was.popups[w].OwnKey() == Key(th, x)
    ensures ShownAfterClose(was, th, x, was.popups[w].opener)
  {
  }

  lemma ThreadOk(states: States, popups: Popups, pending: map<Key, PendingOpen>, nextTab: TabId, th: ThreadId)
    requires TabTablesOk(states, popups, pending, nextTab) && th in states
    ensures StateOk(states[th], nextTab) && (states[th].active.None? <==> states[th].tabs == [])
  {
  }

  lemma BlankTab(states: States, th: ThreadId, nextTab: TabId)
    requires th in states && states[th].tabs == []
    ensures Workspace(states, th, nextTab)
            == states[th := states[th].(tabs := [Tab(nextTab, None, false)], active := Some(nextTab))]
  {
  }

  lemma EmptiedThenBlank(was: Tables, emptied: Tables, now: Tables, th: ThreadId, x: TabId, nextTab: TabId)
    requires th in was.states && ShownAfterClose(was, th, x, None) && TabGone(was, emptied, th, x, None)
    requires th in emptied.states && emptied.states[th].tabs == [] && emptied.states[th].active == None
    requires var s := emptied.states[th].(tabs := [Tab(nextTab, None, false)], active := Some(nextTab));
             now == emptied.(states := emptied.states[th := s])
    ensures ClosedByUser(was, now, th, x, nextTab)
  {
  }

  /**
   What closing a tab means: exactly the tabs and pop-ups that lie under it go, and no runtime appears but the shown
   tab's.
   */
  lemma CloseRemovesWhatLiesUnder(was: Tables, now: Tables, th: ThreadId, x: TabId, active: Option<TabId>)
    requires TabGone(was, now, th, x, active)
    ensures th in now.states
            && forall t | t in was.states[th].tabs :: t in now.states[th].tabs <==> !Under(was.popups, th, x, t.id)
    ensures forall t | t in now.states[th].tabs :: t in was.states[th].tabs
    ensures forall w | w in was.popups ::
              w in now.popups <==> !(was.popups[w].thread == th && Under(was.popups, th, x, was.popups[w].tab))
    ensures forall k | k in now.runtimes && k !in was.runtimes :: k.thread == th && Some(k.tab) == active
    ensures Elsewhere(was, now, th)
  {
  }

  /** Outside thread `th` nothing changed, except that runtimes may have gone; no popup appeared anywhere. */
  ghost predicate Elsewhere(was: Tables, now: Tables, th: ThreadId) {
    && (forall t | t != th :: t in was.states <==> t in now.states)
    && (forall t | t != th && t in now.states :: now.states[t] == was.states[t])
    && (forall w | w in now.popups :: w in was.popups && now.popups[w] == was.popups[w])
    && (forall w | w in was.popups && was.popups[w].thread != th :: w in now.popups)
    && (forall k | k in now.runtimes && k.thread != th :: k in was.runtimes && now.runtimes[k] == was.runtimes[k])
    && (forall k: Key | k.thread != th ::
          (k in was.rendererOnly <==> k in now.rendererOnly) && (k in was.automation <==> k in now.automation))
  }

  lemma ElsewhereTwice(a: Tables, b: Tables, c: Tables, th: ThreadId)
    requires Elsewhere(a, b, th) && Elsewhere(b, c, th)
    ensures Elsewhere(a, c, th)
  {
  }

  lemma ClosedOffElsewhere(was: Tables, now: Tables, w: WindowId)
    requires PopupClosedOff(was, now, w)
    ensures w !in now.popups
    ensures forall th | w in was.popups ==> was.popups[w].thread == th :: Elsewhere(was, now, th)
  {
  }

  predicate NoPopupsOf(popups: Popups, th: ThreadId) { forall w | w in popups :: popups[w].thread != th }

  /** No live runtime and no claim belongs to the thread. */
  predicate NoKeysOf(runtimes: Runtimes, rendererOnly: set<Key>, automation: set<Key>, th: ThreadId) {
    forall k | k in runtimes.Keys + rendererOnly + automation :: k.thread != th
  }

  /** A thread without pop-ups, runtimes and claims can be emptied. */
  lemma ThreadEmptied(states: States, popups: Popups, pending: map<Key, PendingOpen>, nextTab: TabId, th: ThreadId)
    requires TabTablesOk(states, popups, pending, nextTab)
    requires NoPopupsOf(popups, th)
    ensures TabTablesOk(states[th := ThreadState(false, None, [])], popups, pending, nextTab)
  {
  }

  lemma ThreadEmptiedRuntimes(states: States, runtimes: Runtimes, rendererOnly: set<Key>, automation: set<Key>,
                              attached: Option<Key>, th: ThreadId)
    requires RuntimeTablesOk(states, runtimes, rendererOnly, automation, attached)
    requires NoKeysOf(runtimes, rendererOnly, automation, th)
    ensures RuntimeTablesOk(states[th := ThreadState(false, None, [])], runtimes, rendererOnly, automation, attached)
  {
  }

  lemma KeysHaveTabs(states: States, runtimes: Runtimes, rendererOnly: set<Key>, automation: set<Key>,
                     attached: Option<Key>)
    requires RuntimeTablesOk(states, runtimes, rendererOnly, automation, attached)
    ensures forall k | k in runtimes.Keys + rendererOnly + automation ::
              k.thread in states && exists j :: 0 <= j < |states[k.thread].tabs| && states[k.thread].tabs[j].id == k.tab
  {
  }

  lemma ClaimsDropped(states: States, runtimes: Runtimes, rendererOnly: set<Key>, automation: set<Key>,
                      attached: Option<Key>, gone: set<Key>)
    requires RuntimeTablesOk(states, runtimes, rendererOnly, automation, attached) && runtimes.Keys !! gone
    ensures RuntimeTablesOk(states, runtimes, rendererOnly - gone, automation - gone, attached)
  {
  }

  lemma ShownActive(was: Tables, now: Tables, th: ThreadId, x: TabId, active: Option<TabId>)
    requires TabGone(was, now, th, x, active)
    ensures th in now.states && now.states[th].active == active
  {
  }

  /** Showing the opener once more changes nothing of a close but which runtimes there are. */
  lemma ClosedOffReattached(was: Tables, mid: Tables, now: Tables, w: WindowId, kept: set<Key>)
    requires PopupClosedOff(was, mid, w) && w in was.popups && was.popups[w].Adopted()
             && was.popups[w].thread in was.states
    requires now == mid.(runtimes := now.runtimes)
    requires was.popups[w].thread in mid.states && mid.states[was.popups[w].thread].active.Some?
    requires var th := was.popups[w].thread; Turnover(mid.runtimes, now.runtimes,
                                                      {Key(th, mid.states[th].active.value)}, kept)
    ensures PopupClosedOff(was, now, w)
  {
  }

  lemma ClosedOffShows(was: Tables, now: Tables, w: WindowId)
    requires PopupClosedOff(was, now, w) && w in was.popups && was.popups[w].Adopted()
             && was.popups[w].thread in was.states
    ensures var th := was.popups[w].thread; th in now.states && now.states[th].active == was.popups[w].opener
  {
  }

  lemma NothingElsewhere(was: Tables, th: ThreadId)
    ensures Elsewhere(was, was, th)
  {
  }

  lemma ElsewhereDropped(was: Tables, key: Key)
    ensures Elsewhere(was,
                      was.(runtimes := was.runtimes - {key}, rendererOnly := was.rendererOnly - {key},
                           automation := was.automation - {key}), key.thread)
  {
  }

  lemma ElsewherePopups(was: Tables, now: Tables, th: ThreadId)
    requires Elsewhere(was, now, th)
    ensures forall w | w in now.popups :: w in was.popups && now.popups[w] == was.popups[w]
  {
  }

  lemma ElsewhereEmptied(was: Tables, th: ThreadId)
    ensures Elsewhere(was, was.(states := was.states[th := ThreadState(false, None, [])]), th)
  {
  }

  lemma ClosedOffThread(was: Tables, now: Tables, w: WindowId, th: ThreadId)
    requires PopupClosedOff(was, now, w)
    ensures th in was.states <==> th in now.states
  {
  }

  lemma ElsewhereRuntime(was: Tables, key: Key)
    ensures Elsewhere(was, was.(runtimes := was.runtimes - {key}), key.thread)
  {
  }

  lemma ElsewhereAttached(was: Tables, now: Tables, th: ThreadId, nextTab: TabId, kept: set<Key>)
    requires th in now.states && now.states[th].active.Some?
    requires now == was.(states := Workspace(was.states, th, nextTab), runtimes := now.runtimes)
    requires Turnover(was.runtimes, now.runtimes, {Key(th, now.states[th].active.value)}, kept)
    ensures Elsewhere(was, now, th)
  {
  }

  // --------------------------------------------- when a thread stops being remote

  /** An adopted pop-up of the thread whose page is offscreen. */
  predicate OffscreenPage(t: Tables, th: ThreadId, w: WindowId) {
    && w in t.popups && t.popups[w].Adopted() && t.popups[w].thread == th
    && t.popups[w].OwnKey() in t.runtimes
    && t.runtimes[t.popups[w].OwnKey()].placement == Offscreen && t.runtimes[t.popups[w].OwnKey()].contents == Child(w)
  }

  /** Those, and all opened from them. */
  ghost function RemotePopups(t: Tables, th: ThreadId): set<WindowId> {
    set v | v in t.popups && exists w :: OffscreenPage(t, th, w) && v in Subtree(t.popups, th, t.popups[w].tab)
  }

  function OffscreenKeys(runtimes: Runtimes, th: ThreadId): set<Key> {
    set k | k in runtimes && k.thread == th && runtimes[k].placement == Offscreen
  }

  /** With exactly these pop-ups gone, their tabs and claims are gone too. */
  ghost predicate PopupsGone(was: Tables, now: Tables, th: ThreadId, removed: set<WindowId>) {
    && now.popups == was.popups - removed
    && (th in was.states && was.states[th].active.Some? ==>
          && th in now.states && now.states[th].active.Some?
          && now.states[th].tabs == Keep(was.states[th].tabs, TabsOf(was.popups, removed)))
    && now.rendererOnly == was.rendererOnly - KeysOf(th, TabsOf(was.popups, removed))
    && now.automation == was.automation - KeysOf(th, TabsOf(was.popups, removed))
  }

  /** The offscreen pages left are among those whose turn is to come, and each pop-up that is left still has its own. */
  ghost predicate PagesLeft(was: Tables, now: Tables, th: ThreadId, pending: set<Key>, removed: set<WindowId>,
                            remote: set<ThreadId>) {
    && pending <= OffscreenKeys(was.runtimes, th) && OffscreenKeys(now.runtimes, th) <= pending
    && (forall k | k in now.runtimes ::
          (k in was.runtimes && now.runtimes[k] == was.runtimes[k]) || MadeFor(now.runtimes[k], k, remote))
    && (forall w | OffscreenPage(was, th, w) && w !in removed ::
          var k := was.popups[w].OwnKey(); k in pending && k in now.runtimes && now.runtimes[k] == was.runtimes[k])
  }

  /** The offscreen pages of a thread are being torn down. */
  ghost predicate LeavingRemote(was: Tables, now: Tables, th: ThreadId, pending: set<Key>, removed: set<WindowId>,
                                remote: set<ThreadId>) {
    && DownClosed(was.popups, th, removed) && removed <= RemotePopups(was, th)
    && PopupsGone(was, now, th, removed) && PagesLeft(was, now, th, pending, removed, remote)
  }

  lemma LeavingStart(was: Tables, th: ThreadId, remote: set<ThreadId>)
    ensures LeavingRemote(was, was, th, OffscreenKeys(was.runtimes, th), {}, remote)
  {
    assert TabsOf(was.popups, {}) == {} && KeysOf(th, {}) == {};
    if th in was.states { KeepAll(was.states[th].tabs); }
  }

  lemma {:induction false} KeepAll(tabs: seq<Tab>)
    ensures Keep(tabs, {}) == tabs
  {
    if tabs != [] { KeepAll(tabs[1..]); }
  }

  lemma LeavingStep(was: Tables, before: Tables, now: Tables, th: ThreadId, key: Key, pending: set<Key>,
                    removed: set<WindowId>,
                    remote: set<ThreadId>) returns (more: set<WindowId>)
    requires LeavingRemote(was, before, th, pending, removed, remote) && key in pending && th !in remote
    requires var gone := before.(runtimes := before.runtimes - {key});
             && PagesKept(gone, now, remote)
             && if key in before.runtimes && IsAdoptedPage(before.popups, key, before.runtimes[key].contents)
                then PopupClosedOff(gone, now, before.runtimes[key].contents.window)
                else now == gone
    ensures LeavingRemote(was, now, th, pending - {key}, more, remote)
  {
    more := removed;
    if key in before.runtimes && IsAdoptedPage(before.popups, key, before.runtimes[key].contents) {
      var w := before.runtimes[key].contents.window;
      assert OffscreenPage(was, th, w) by {
        hide DownClosed, RemotePopups, Subtree, PopupsGone, PagesKept, PopupClosedOff;
      }
      more := removed + Subtree(was.popups, th, was.popups[w].tab);
      PageClosed(was, before, now, th, key, removed, w);
    }
    PagesAfter(was, before, now, th, key, pending, removed, more, remote);
  }

  lemma PageClosed(was: Tables, before: Tables, now: Tables, th: ThreadId, key: Key, removed: set<WindowId>,
                   w: WindowId)
    requires DownClosed(was.popups, th, removed) && removed <= RemotePopups(was, th)
             && PopupsGone(was, before, th, removed)
    requires OffscreenPage(was, th, w) && w in before.popups
    requires PopupClosedOff(before.(runtimes := before.runtimes - {key}), now, w)
    ensures var more := removed + Subtree(was.popups, th, was.popups[w].tab);
            w in more && DownClosed(was.popups, th, more) && more <= RemotePopups(was, th)
            && PopupsGone(was, now, th, more)
  {
    hide Turnover, OpenerKeys, TabsOf, TabsUnder, KeysOf;
    var x := was.popups[w].tab;
    var more := removed + Subtree(was.popups, th, x);
    SubtreeDownClosed(was.popups, removed, th, x);
    SubtreeOfRest(was.popups, removed, th, x);
    MoreTabs(was.popups, th, removed, w);
    assert more <= RemotePopups(was, th) by { hide DownClosed, PopupsGone, PopupClosedOff; }
    assert w in more by { assert Under(was.popups, th, x, x); }
    hide DownClosed, RemotePopups, Under, OffscreenPage, Subtree;
    assert now.popups == was.popups - more;
    var gone, under := TabsOf(was.popups, removed), TabsUnder(was.popups - removed, th, x);
    if th in was.states { KeepKeep(was.states[th].tabs, gone, under); }
    KeysOfBoth(th, gone, under);
  }

  lemma PagesAfter(was: Tables, before: Tables, now: Tables, th: ThreadId, key: Key, pending: set<Key>,
                   removed: set<WindowId>, more: set<WindowId>,
                   remote: set<ThreadId>)
    requires PagesLeft(was, before, th, pending, removed, remote) && key in pending && th !in remote
    requires PagesKept(before.(runtimes := before.runtimes - {key}), now, remote) && removed <= more
    requires before.popups == was.popups - removed && now.popups == was.popups - more
    requires key in before.runtimes && IsAdoptedPage(before.popups, key, before.runtimes[key].contents) ==>
               before.runtimes[key].contents.window in more
    ensures PagesLeft(was, now, th, pending - {key}, more, remote)
  {
    forall w | OffscreenPage(was, th, w)
      ensures w in more
              || (var k := was.popups[w].OwnKey();
                  k in pending - {key} && k in now.runtimes && now.runtimes[k] == was.runtimes[k])
    {
      if w !in removed {
        assert w in before.popups;
        assert was.popups[w].OwnKey() == key ==> IsAdoptedPage(before.popups, key, before.runtimes[key].contents);
        assert w in now.popups || w in more;
      }
    }
  }

  lemma LeavingEnd(was: Tables, now: Tables, th: ThreadId, removed: set<WindowId>, remote: set<ThreadId>)
    requires LeavingRemote(was, now, th, {}, removed, remote)
    ensures PopupsGone(was, now, th, RemotePopups(was, th)) && OffscreenKeys(now.runtimes, th) == {}
  {
    hide PopupsGone, MadeFor;
    assert removed == RemotePopups(was, th);
  }

  lemma NoneOffscreen(was: Tables, now: Tables, th: ThreadId, remote: set<ThreadId>)
    requires PagesKept(was, now, remote) && OffscreenKeys(was.runtimes, th) == {} && th !in remote
    ensures OffscreenKeys(now.runtimes, th) == {}
  {
    forall k | k in OffscreenKeys(now.runtimes, th) ensures k in OffscreenKeys(was.runtimes, th) {}
  }

  lemma PopupsGoneThen(was: Tables, now: Tables, th: ThreadId, removed: set<WindowId>)
    requires PopupsGone(was, now, th, removed)
    ensures now.popups == was.popups - removed
    ensures th in was.states && was.states[th].active.Some? ==> th in now.states && now.states[th].active.Some?
  {
  }

  lemma PopupsGoneLater(was: Tables, before: Tables, now: Tables, th: ThreadId, removed: set<WindowId>)
    requires PopupsGone(was, before, th, removed)
    requires before.states == now.states ==> now == before.(runtimes := now.runtimes)
    ensures before.states == now.states ==> PopupsGone(was, now, th, removed)
  {
  }

  lemma OffscreenKeysOf(runtimes: Runtimes, th: ThreadId)
    ensures forall k | k in OffscreenKeys(runtimes, th) :: k.thread == th
  {
  }
}
