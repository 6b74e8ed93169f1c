/**
 Tabs, pop-up windows and the opener relation among them: the tables of
 `apps/desktop/src/browserManager.ts` as values, and what it means for a tab to
 lie under another.
 */
module PopupForest {
  import opened Wrappers

  type ThreadId = nat
  type TabId = nat
  type WindowId = nat

  /** `${threadId}:${tabId}`; tab ids are UUIDs, so the pair is determined by the text. */
  datatype Key = Key(thread: ThreadId, tab: TabId)

  datatype Tab = Tab(id: TabId, opener: Option<TabId>, native: bool)

  datatype ThreadState = ThreadState(open: bool, active: Option<TabId>, tabs: seq<Tab>)

  /** A page-created window; it is adopted as a tab of its own exactly when it has an opener tab. */
  datatype Popup = Popup(thread: ThreadId, tab: TabId, opener: Option<TabId>) {
    predicate Adopted() { opener.Some? }
    function OwnKey(): Key { Key(thread, tab) }
  }

  type States = map<ThreadId, ThreadState>
  type Popups = map<WindowId, Popup>

  // -------------------------------------------------------------------- tabs

  function TabIds(tabs: seq<Tab>): set<TabId> { set t | t in tabs :: t.id }

  predicate DistinctTabs(tabs: seq<Tab>) {
    forall i, j | 0 <= i < j < |tabs| :: tabs[i].id != tabs[j].id
  }

  predicate StateOk(s: ThreadState, nextTab: TabId) {
    && DistinctTabs(s.tabs)
    && (forall t | t in s.tabs :: t.id < nextTab)
    && (s.active.None? <==> s.tabs == [])
    && (s.active.Some? ==> s.active.value in TabIds(s.tabs))
  }

  predicate HasTab(states: States, k: Key) {
    k.thread in states && k.tab in TabIds(states[k.thread].tabs)
  }

  /** The tabs whose ids are not in `gone`, in order. */
  function Keep(tabs: seq<Tab>, gone: set<TabId>): (r: seq<Tab>)
    ensures forall t :: t in r <==> t in tabs && t.id !in gone
    ensures |r| <= |tabs|
  {
    if tabs == [] then []
    else if tabs[0].id in gone then Keep(tabs[1..], gone)
    else [tabs[0]] + Keep(tabs[1..], gone)
  }

  lemma {:induction false} KeepKeep(tabs: seq<Tab>, a: set<TabId>, b: set<TabId>)
    ensures Keep(Keep(tabs, a), b) == Keep(tabs, a + b)
  {
    if tabs != [] { KeepKeep(tabs[1..], a, b); }
  }

  lemma {:induction false} KeepDistinct(tabs: seq<Tab>, gone: set<TabId>)
    requires DistinctTabs(tabs)
    ensures DistinctTabs(Keep(tabs, gone))
  {
    if tabs != [] {
      KeepDistinct(tabs[1..], gone);
      assert forall t | t in tabs[1..] :: t.id != tabs[0].id;
    }
  }

  lemma KeepIds(tabs: seq<Tab>, gone: set<TabId>)
    ensures TabIds(Keep(tabs, gone)) == TabIds(tabs) - gone
  {
  }

  // ------------------------------------------------------------------ popups

  predicate OpenedBefore(p: Popup) { p.opener.Some? ==> p.opener.value < p.tab }

  /** Each tab belongs to at most one adopted popup, and openers are older than what they opened: a forest. */
  predicate ForestOk(popups: Popups) {
    && (forall w | w in popups :: OpenedBefore(popups[w]))
    && (forall v, w | v in popups && w in popups && popups[v].Adopted() && popups[w].Adopted()
                      && popups[v].OwnKey() == popups[w].OwnKey() :: v == w)
  }

  /** Every adopted popup's own tab and its opener tab are tabs of its thread. */
  predicate PopupTabsOk(states: States, popups: Popups) {
    forall w | w in popups && popups[w].Adopted() ::
      HasTab(states, popups[w].OwnKey()) && HasTab(states, Key(popups[w].thread, popups[w].opener.value))
  }

  /** `w` is an adopted popup of the thread whose own tab is `x`. */
  predicate Holds(popups: Popups, th: ThreadId, w: WindowId, x: TabId) {
    w in popups && popups[w].thread == th && popups[w].tab == x && popups[w].Adopted() && popups[w].opener.value < x
  }

  /** Tab `x` is `root` or descends from it through adopted popups. */
  ghost predicate Under(popups: Popups, th: ThreadId, root: TabId, x: TabId)
    decreases x
  {
    x == root || exists w :: Holds(popups, th, w, x) && Under(popups, th, root, popups[w].opener.value)
  }

  /** The popups whose own tab lies under `root`. */
  ghost function Subtree(popups: Popups, th: ThreadId, root: TabId): set<WindowId> {
    set w | w in popups && popups[w].thread == th && Under(popups, th, root, popups[w].tab)
  }

  /** The tabs under `root`. */
  ghost function TabsUnder(popups: Popups, th: ThreadId, root: TabId): set<TabId> {
    {root} + set w | w in Subtree(popups, th, root) :: popups[w].tab
  }

  lemma TabsUnderIff(popups: Popups, th: ThreadId, root: TabId, x: TabId)
    ensures x in TabsUnder(popups, th, root) <==> Under(popups, th, root, x)
  {
  }

  lemma {:induction false} UnderTransitive(popups: Popups, th: ThreadId, a: TabId, b: TabId, c: TabId)
    requires Under(popups, th, a, b) && Under(popups, th, b, c)
    ensures Under(popups, th, a, c)
    decreases c
  {
    if b != c {
      var w :| Holds(popups, th, w, c) && Under(popups, th, b, popups[w].opener.value);
      UnderTransitive(popups, th, a, b, popups[w].opener.value);
    }
  }

  /** Descendants are never older: there is no cycle among tabs. */
  lemma {:induction false} UnderIsNewer(popups: Popups, th: ThreadId, a: TabId, b: TabId)
    requires Under(popups, th, a, b)
    ensures a <= b
    ensures Under(popups, th, b, a) ==> a == b
    decreases b
  {
    if a != b {
      var w :| Holds(popups, th, w, b) && Under(popups, th, a, popups[w].opener.value);
      UnderIsNewer(popups, th, a, popups[w].opener.value);
      if Under(popups, th, b, a) { UnderIsNewer(popups, th, b, a); }
    }
  }

  /** An adopted popup whose own tab is `y` was opened from tab `x`. */
  predicate Opened(popups: Popups, th: ThreadId, x: TabId, y: TabId) {
    exists w :: w in popups && popups[w].thread == th && popups[w].tab == y && popups[w].opener == Some(x)
  }

  /** From each tab to one opened from it. */
  predicate OpenerPath(popups: Popups, th: ThreadId, path: seq<TabId>) {
    path != [] && forall i | 0 <= i < |path| - 1 :: Opened(popups, th, path[i], path[i + 1])
  }

  /** No path of openers comes back to where it was: later tabs on it are newer. */
  lemma {:induction false} PathsAscend(popups: Popups, th: ThreadId, path: seq<TabId>, i: nat, j: nat)
    requires ForestOk(popups) && OpenerPath(popups, th, path) && i < j < |path|
    ensures path[i] < path[j]
    decreases j
  {
    assert Opened(popups, th, path[j - 1], path[j]);
    if i < j - 1 { PathsAscend(popups, th, path, i, j - 1); }
  }

  /** `Under` is reachability along openers. */
  lemma {:induction false} UnderIffPath(popups: Popups, th: ThreadId, root: TabId, x: TabId)
    requires ForestOk(popups)
    ensures Under(popups, th, root, x) <==>
              exists path :: OpenerPath(popups, th, path) && path[0] == root && path[|path| - 1] == x
  {
    if Under(popups, th, root, x) { var path := PathTo(popups, th, root, x); }
    forall path | OpenerPath(popups, th, path) && path[0] == root && path[|path| - 1] == x
      ensures Under(popups, th, root, x)
    {
      PathIsUnder(popups, th, path);
    }
  }

  lemma {:induction false} PathTo(popups: Popups, th: ThreadId, root: TabId, x: TabId) returns (path: seq<TabId>)
    requires Under(popups, th, root, x)
    ensures OpenerPath(popups, th, path) && path[0] == root && path[|path| - 1] == x
    decreases x
  {
    if x == root { return [x]; }
    var w :| Holds(popups, th, w, x) && Under(popups, th, root, popups[w].opener.value);
    path := PathTo(popups, th, root, popups[w].opener.value);
    assert Opened(popups, th, path[|path| - 1], x);
    path := path + [x];
  }

  lemma {:induction false} PathIsUnder(popups: Popups, th: ThreadId, path: seq<TabId>)
    requires ForestOk(popups) && OpenerPath(popups, th, path)
    ensures Under(popups, th, path[0], path[|path| - 1])
    decreases |path|
  {
    var n := |path| - 1;
    if n > 0 {
      var earlier := path[..n];
      assert OpenerPath(popups, th, earlier) by {
        forall i | 0 <= i < n - 1 ensures Opened(popups, th, earlier[i], earlier[i + 1]) {
          assert Opened(popups, th, path[i], path[i + 1]);
        }
      }
      PathIsUnder(popups, th, earlier);
      assert Opened(popups, th, path[n - 1], path[n]);
      var w :| w in popups && popups[w].thread == th && popups[w].tab == path[n]
          && popups[w].opener == Some(path[n - 1]);
      assert Holds(popups, th, w, path[n]);
    }
  }

  /** In a forest the ancestors of a tab form a chain. */
  lemma {:induction false} AncestorsAreAChain(popups: Popups, th: ThreadId, a: TabId, b: TabId, x: TabId)
    requires ForestOk(popups) && Under(popups, th, a, x) && Under(popups, th, b, x)
    ensures Under(popups, th, a, b) || Under(popups, th, b, a)
    decreases x
  {
    if a != x && b != x {
      var v :| Holds(popups, th, v, x) && Under(popups, th, a, popups[v].opener.value);
      var w :| Holds(popups, th, w, x) && Under(popups, th, b, popups[w].opener.value);
      assert popups[v].OwnKey() == popups[w].OwnKey();
      AncestorsAreAChain(popups, th, a, b, popups[v].opener.value);
    }
  }

  /** What lies strictly under a tab lies under one of the popups that tab opened. */
  lemma {:induction false} FirstStep(popups: Popups, th: ThreadId, root: TabId, x: TabId)
    requires Under(popups, th, root, x) && x != root
    ensures exists w ::
              w in popups && popups[w].thread == th && popups[w].opener == Some(root)
              && Under(popups, th, popups[w].tab, x)
    decreases x
  {
    var w :| Holds(popups, th, w, x) && Under(popups, th, root, popups[w].opener.value);
    var o := popups[w].opener.value;
    if o == root {
      assert Under(popups, th, popups[w].tab, x);
    } else {
      FirstStep(popups, th, root, o);
      var v :| v in popups && popups[v].thread == th && popups[v].opener == Some(root)
               && Under(popups, th, popups[v].tab, o);
      assert Under(popups, th, popups[v].tab, x);
    }
  }

  // ------------------------------------------------- taking subtrees away

  /** With an adopted popup, everything under its tab is removed too. */
  ghost predicate DownClosed(popups: Popups, th: ThreadId, removed: set<WindowId>) {
    forall u, v | u in removed && u in popups && popups[u].Adopted() && popups[u].thread == th
                  && v in popups && popups[v].thread == th
                  && Under(popups, th, popups[u].tab, popups[v].tab) :: v in removed
  }

  lemma {:induction false} UnderInFewer(popups: Popups, removed: set<WindowId>, th: ThreadId, root: TabId, x: TabId)
    requires Under(popups - removed, th, root, x)
    ensures Under(popups, th, root, x)
    decreases x
  {
    if x != root {
      var w :| Holds(popups - removed, th, w, x) && Under(popups - removed, th, root, popups[w].opener.value);
      assert Holds(popups, th, w, x);
      UnderInFewer(popups, removed, th, root, popups[w].opener.value);
    }
  }

  /** Removing whole subtrees does not cut the chain above a popup that stays. */
  lemma {:induction false} UnderSurvives(popups: Popups, removed: set<WindowId>, th: ThreadId, root: TabId, x: TabId,
                                         v: WindowId)
    requires DownClosed(popups, th, removed) && v in popups && v !in removed && popups[v].thread == th
    requires Under(popups, th, root, x) && Under(popups, th, x, popups[v].tab)
    ensures Under(popups - removed, th, root, x)
    decreases x
  {
    if x != root {
      var w :| Holds(popups, th, w, x) && Under(popups, th, root, popups[w].opener.value);
      assert w !in removed;
      assert Holds(popups - removed, th, w, x);
      var o := popups[w].opener.value;
      assert Under(popups, th, o, x) by { assert Under(popups, th, o, o); assert Holds(popups, th, w, x); }
      UnderTransitive(popups, th, o, x, popups[v].tab);
      UnderSurvives(popups, removed, th, root, o, v);
    }
  }

  /** So a later subtree is what it was at the start, less what has gone. */
  lemma SubtreeOfRest(popups: Popups, removed: set<WindowId>, th: ThreadId, root: TabId)
    requires DownClosed(popups, th, removed)
    ensures Subtree(popups - removed, th, root) == Subtree(popups, th, root) - removed
  {
    var rest := popups - removed;
    forall w ensures w in Subtree(rest, th, root) <==> w in Subtree(popups, th, root) - removed {
      if w in Subtree(rest, th, root) { UnderInFewer(popups, removed, th, root, popups[w].tab); }
      if w in Subtree(popups, th, root) - removed {
        UnderSurvives(popups, removed, th, root, popups[w].tab, w);
      }
    }
  }

  lemma SubtreeDownClosed(popups: Popups, removed: set<WindowId>, th: ThreadId, root: TabId)
    requires DownClosed(popups, th, removed)
    ensures DownClosed(popups, th, removed + Subtree(popups, th, root))
  {
    var all := removed + Subtree(popups, th, root);
    forall u, v | u in all && u in popups && popups[u].Adopted() && popups[u].thread == th
                  && v in popups && popups[v].thread == th && Under(popups, th, popups[u].tab, popups[v].tab)
      ensures v in all
    {
      if u !in removed { UnderTransitive(popups, th, root, popups[u].tab, popups[v].tab); }
    }
  }

  /** Closing every popup of a tab, with what is under it, closes the tab's whole subtree. */
  lemma ClosedAll(popups: Popups, th: ThreadId, root: TabId, removed: set<WindowId>)
    requires DownClosed(popups, th, removed) && removed <= Subtree(popups, th, root)
    requires forall w
                    | w in popups && popups[w].thread == th
                    && (popups[w].tab == root || popups[w].opener == Some(root)) ::
               w in removed
    ensures removed == Subtree(popups, th, root)
  {
    forall v | v in Subtree(popups, th, root) ensures v in removed {
      if popups[v].tab != root {
        FirstStep(popups, th, root, popups[v].tab);
        var w :| w in popups && popups[w].thread == th && popups[w].opener == Some(root)
                 && Under(popups, th, popups[w].tab, popups[v].tab);
        assert w in removed;
      }
    }
  }

  /** The popup of the root tab itself plays no part in what lies under the root. */
  lemma {:induction false} UnderWithoutRoot(popups: Popups, w: WindowId, th: ThreadId, x: TabId)
    requires w in popups
    ensures Under(popups - {w}, th, popups[w].tab, x) <==> Under(popups, th, popups[w].tab, x)
    decreases x
  {
    var root, rest := popups[w].tab, popups - {w};
    if x != root {
      if Under(popups, th, root, x) {
        var v :| Holds(popups, th, v, x) && Under(popups, th, root, popups[v].opener.value);
        UnderWithoutRoot(popups, w, th, popups[v].opener.value);
        assert Holds(rest, th, v, x);
      }
      if Under(rest, th, root, x) { UnderInFewer(popups, {w}, th, root, x); }
    }
  }

  lemma SubtreeWithoutRoot(popups: Popups, w: WindowId)
    requires w in popups
    ensures var th, root := popups[w].thread, popups[w].tab;
            Subtree(popups, th, root) == {w} + Subtree(popups - {w}, th, root)
            && TabsUnder(popups, th, root) == TabsUnder(popups - {w}, th, root)
  {
    var th, root := popups[w].thread, popups[w].tab;
    forall v | v in popups
      ensures Under(popups - {w}, th, root, popups[v].tab) <==> Under(popups, th, root, popups[v].tab)
    {
      UnderWithoutRoot(popups, w, th, popups[v].tab);
    }
  }

  /** The own tabs of the adopted popups among these. */
  function TabsOf(popups: Popups, windows: set<WindowId>): set<TabId> {
    set w | w in windows && w in popups && popups[w].Adopted() :: popups[w].tab
  }

  lemma TabsOfSubtree(popups: Popups, th: ThreadId, root: TabId)
    ensures {root} + TabsOf(popups, Subtree(popups, th, root)) == TabsUnder(popups, th, root)
    ensures (forall w | w in popups && popups[w].Adopted() && popups[w].thread == th :: popups[w].tab != root) ==>
              TabsOf(popups, Subtree(popups, th, root)) == TabsUnder(popups, th, root) - {root}
  {
  }

  /** A step of the cascade: what closing one more child adds to the popups and tabs gone so far. */
  lemma OneMoreChild(popups: Popups, th: ThreadId, root: TabId, removed: set<WindowId>, w: WindowId)
    requires DownClosed(popups, th, removed) && removed <= Subtree(popups, th, root)
    requires w in popups && w !in removed && popups[w].thread == th && popups[w].opener == Some(root)
             && OpenedBefore(popups[w])
    ensures var more := removed + Subtree(popups, th, popups[w].tab);
            && DownClosed(popups, th, more) && more <= Subtree(popups, th, root) && w in more
            && (popups - removed) - Subtree(popups - removed, th, popups[w].tab) == popups - more
            && TabsOf(popups, removed) + TabsUnder(popups - removed, th, popups[w].tab) == TabsOf(popups, more)
  {
    var x := popups[w].tab;
    var more := removed + Subtree(popups, th, x);
    assert Holds(popups, th, w, x) && Under(popups, th, root, root);
    assert Under(popups, th, root, x);
    SubtreeDownClosed(popups, removed, th, x);
    SubtreeOfRest(popups, removed, th, x);
    forall v | v in Subtree(popups, th, x)
      ensures v in Subtree(popups, th, root)
    {
      UnderTransitive(popups, th, root, x, popups[v].tab);
    }
    MoreTabs(popups, th, removed, w);
  }

  /** The tabs gone once this popup's subtree has gone too. */
  lemma MoreTabs(popups: Popups, th: ThreadId, removed: set<WindowId>, w: WindowId)
    requires DownClosed(popups, th, removed) && w in popups && popups[w].thread == th && popups[w].Adopted()
    ensures var x := popups[w].tab;
            TabsOf(popups, removed) + TabsUnder(popups - removed, th, x)
            == TabsOf(popups, removed + Subtree(popups, th, x))
  {
    var x := popups[w].tab;
    var rest, more := popups - removed, removed + Subtree(popups, th, x);
    SubtreeOfRest(popups, removed, th, x);
    assert Under(popups, th, x, x);
    TabsOfSubtree(rest, th, x);
    assert TabsOf(rest, Subtree(rest, th, x)) == TabsOf(popups, Subtree(popups, th, x) - removed);
    assert x in TabsOf(popups, more);
    assert TabsOf(popups, more) == TabsOf(popups, removed) + TabsOf(popups, Subtree(popups, th, x) - removed);
  }

  lemma OnePlainChild(popups: Popups, th: ThreadId, root: TabId, removed: set<WindowId>, w: WindowId)
    requires DownClosed(popups, th, removed) && removed <= Subtree(popups, th, root)
    requires w in popups && popups[w].thread == th && popups[w].tab == root && !popups[w].Adopted()
    ensures DownClosed(popups, th, removed + {w}) && removed + {w} <= Subtree(popups, th, root)
    ensures popups - removed - {w} == popups - (removed + {w})
    ensures TabsOf(popups, removed + {w}) == TabsOf(popups, removed)
  {
  }

  // ------------------------------------------------------- protected runtimes

  /** The keys of all popups and of the tabs that adopted popups came from. */
  function OwnerKeys(popups: Popups): set<Key> {
    (set w | w in popups :: popups[w].OwnKey())
    + (set w | w in popups && popups[w].Adopted() :: Key(popups[w].thread, popups[w].opener.value))
  }

  /** A set that holds every popup's key and, with an adopted popup's key, its opener's. */
  predicate PopupClosed(popups: Popups, keys: set<Key>) {
    && (forall w | w in popups :: popups[w].OwnKey() in keys)
    && (forall w | w in popups && popups[w].Adopted() && popups[w].OwnKey() in keys ::
          Key(popups[w].thread, popups[w].opener.value) in keys)
  }

  /** `OwnerKeys` is the least such set, whatever the table, cycles and repeated keys included. */
  lemma OwnerKeysLeast(popups: Popups, keys: set<Key>)
    ensures PopupClosed(popups, OwnerKeys(popups))
    ensures PopupClosed(popups, keys) ==> OwnerKeys(popups) <= keys
  {
  }
}
