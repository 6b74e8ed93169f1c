/**
 The tables of `DesktopBrowserManager` (`apps/desktop/src/browserManager.ts`) as values:
 live runtimes, the renderer-only and automation claims and the attached runtime, and
 what has to hold between them and the tabs.
*/
module BrowserTables {
  import opened Wrappers
  import opened PopupForest

  /** A renderer's guest page, a native page of our own, or the page of an adopted child window. */
  datatype Contents = Guest(id: nat) | Native(id: nat) | Child(window: WindowId)

  datatype Placement = AttachedView | Offscreen | Renderer

  datatype Runtime = Runtime(contents: Contents, placement: Placement, owns: bool)

  /** A tab announced to automation and not yet added to its thread. */
  datatype PendingOpen = PendingOpen(contents: Contents, tab: Tab)

  datatype AttachOutcome = Bound | KeptNative | TabMissing | NotActiveTab | GuestRefused | AlreadyAttached

  type Runtimes = map<Key, Runtime>

  // ------------------------------------------------------- table invariants

  predicate TabsOk(states: States, nextTab: TabId) {
    forall th | th in states :: StateOk(states[th], nextTab)
  }

  predicate KeysOk(states: States, keys: set<Key>) {
    forall k | k in keys :: HasTab(states, k)
  }

  /** A live runtime is a renderer's guest exactly when its key is renderer-only. */
  predicate OwnershipOk(runtimes: Runtimes, rendererOnly: set<Key>) {
    forall k | k in runtimes ::
      && (!runtimes[k].owns <==> k in rendererOnly)
      && (!runtimes[k].owns <==> runtimes[k].contents.Guest?)
      && (!runtimes[k].owns <==> runtimes[k].placement == Renderer)
  }

  /** One guest page serves at most one tab. */
  predicate GuestsOk(runtimes: Runtimes) {
    forall j, k
           | j in runtimes && k in runtimes && runtimes[j].contents.Guest?
             && runtimes[j].contents == runtimes[k].contents ::
      j == k
  }

  predicate NativeOk(states: States, automation: set<Key>) {
    forall k, t | k in automation && k.thread in states && t in states[k.thread].tabs && t.id == k.tab :: t.native
  }

  predicate AttachedOk(attached: Option<Key>, runtimes: Runtimes) {
    attached.Some? ==> attached.value in runtimes
  }

  predicate PendingOk(pending: map<Key, PendingOpen>, nextTab: TabId) {
    forall k | k in pending :: pending[k].tab.id < nextTab && pending[k].tab.native
  }

  predicate TabTablesOk(states: States, popups: Popups, pending: map<Key, PendingOpen>, nextTab: TabId) {
    TabsOk(states, nextTab) && ForestOk(popups) && PopupTabsOk(states, popups) && PendingOk(pending, nextTab)
  }

  predicate RuntimeTablesOk(states: States, runtimes: Runtimes, rendererOnly: set<Key>, automation: set<Key>,
                            attached: Option<Key>) {
    && KeysOk(states, runtimes.Keys) && KeysOk(states, rendererOnly) && KeysOk(states, automation)
    && OwnershipOk(runtimes, rendererOnly)
    && rendererOnly !! automation
    && GuestsOk(runtimes)
    && NativeOk(states, automation)
    && AttachedOk(attached, runtimes)
  }

  lemma AttachedLive(states: States, runtimes: Runtimes, rendererOnly: set<Key>, automation: set<Key>,
                     attached: Option<Key>)
    requires RuntimeTablesOk(states, runtimes, rendererOnly, automation, attached)
    ensures attached.Some? ==> attached.value in runtimes
  {
  }

  lemma TabOfRuntime(states: States, runtimes: Runtimes, rendererOnly: set<Key>, automation: set<Key>,
                     attached: Option<Key>, k: Key)
    requires RuntimeTablesOk(states, runtimes, rendererOnly, automation, attached) && k in runtimes
    ensures HasTab(states, k) && exists j :: 0 <= j < |states[k.thread].tabs| && states[k.thread].tabs[j].id == k.tab
  {
  }

  lemma RuntimesDropped(states: States, runtimes: Runtimes, rendererOnly: set<Key>, automation: set<Key>,
                        attached: Option<Key>, gone: set<Key>, next: Option<Key>)
    requires RuntimeTablesOk(states, runtimes, rendererOnly, automation, attached)
    requires next.Some? ==> next.value in runtimes && next.value !in gone
    ensures RuntimeTablesOk(states, runtimes - gone, rendererOnly, automation, next)
  {
  }

  lemma OwnRuntimeAdded(states: States, runtimes: Runtimes, rendererOnly: set<Key>, automation: set<Key>,
                        attached: Option<Key>, key: Key, runtime: Runtime)
    requires RuntimeTablesOk(states, runtimes, rendererOnly, automation, attached)
    requires HasTab(states, key) && key !in rendererOnly && runtime.owns && !runtime.contents.Guest?
             && runtime.placement != Renderer
    ensures RuntimeTablesOk(states, runtimes[key := runtime], rendererOnly, automation, attached)
  {
  }

  lemma GuestBound(states: States, runtimes: Runtimes, rendererOnly: set<Key>, automation: set<Key>,
                   attached: Option<Key>, key: Key, runtime: Runtime)
    requires RuntimeTablesOk(states, runtimes, rendererOnly, automation, attached)
    requires HasTab(states, key) && key !in automation && !runtime.owns && runtime.contents.Guest?
             && runtime.placement == Renderer
    requires forall k | k in runtimes && runtimes[k].contents == runtime.contents :: k == key
    ensures RuntimeTablesOk(states, runtimes[key := runtime], rendererOnly + {key}, automation, attached)
  {
  }

  /** Tables stay consistent when tabs are added or marked, as long as no claimed tab turns non-native. */
  lemma TabsGrown(states: States, next: States, runtimes: Runtimes, rendererOnly: set<Key>, automation: set<Key>,
                  attached: Option<Key>)
    requires RuntimeTablesOk(states, runtimes, rendererOnly, automation, attached)
    requires forall k | HasTab(states, k) :: HasTab(next, k)
    requires NativeOk(next, automation)
    ensures RuntimeTablesOk(next, runtimes, rendererOnly, automation, attached)
  {
  }

  /** Tables stay consistent when tabs go together with everything keyed by them. */
  lemma TabsRemoved(states: States, next: States, runtimes: Runtimes, rendererOnly: set<Key>, automation: set<Key>,
                    attached: Option<Key>, gone: set<Key>)
    requires RuntimeTablesOk(states, runtimes, rendererOnly, automation, attached)
    requires runtimes.Keys !! gone
    requires forall k | HasTab(states, k) && k !in gone :: HasTab(next, k)
    requires NativeOk(next, automation - gone)
    ensures RuntimeTablesOk(next, runtimes, rendererOnly - gone, automation - gone, attached)
  {
  }

  function KeysOf(th: ThreadId, tabs: set<TabId>): set<Key> { set t | t in tabs :: Key(th, t) }

  /** The thread without the tabs `gone`, showing `active`. */
  function Shown(s: ThreadState, gone: set<TabId>, active: Option<TabId>): ThreadState {
    s.(tabs := Keep(s.tabs, gone), active := active)
  }

  function FirstTab(tabs: seq<Tab>): Option<TabId> {
    if tabs == [] then None else Some(tabs[0].id)
  }

  function LastTab(tabs: seq<Tab>): Option<TabId> {
    if tabs == [] then None else Some(tabs[|tabs| - 1].id)
  }

  /** The thread's tabs with one of them marked native. */
  function MarkNative(tabs: seq<Tab>, id: TabId): (r: seq<Tab>)
    ensures |r| == |tabs|
    ensures forall i | 0 <= i < |r| :: r[i] == if tabs[i].id == id then tabs[i].(native := true) else tabs[i]
  {
    seq(|tabs|, i requires 0 <= i < |tabs| => if tabs[i].id == id then tabs[i].(native := true) else tabs[i])
  }

  // ------------------------------------------------------ what steps change

  /** Runtimes only went away, except that those of `kept` stayed and those of `born` may be new. */
  predicate Turnover(was: Runtimes, next: Runtimes, born: set<Key>, kept: set<Key>) {
    && (forall k | k in next :: k in born || (k in was && next[k] == was[k]))
    && (forall k | k in kept && k in was :: k in next && next[k] == was[k])
  }

  lemma TurnoverTwice(a: Runtimes, b: Runtimes, c: Runtimes, born: set<Key>, later: set<Key>, kept: set<Key>)
    requires Turnover(a, b, born, kept) && Turnover(b, c, later, kept)
    ensures Turnover(a, c, born + later, kept)
  {
  }

  lemma TurnoverWider(a: Runtimes, b: Runtimes, born: set<Key>, kept: set<Key>, wider: set<Key>, narrower: set<Key>)
    requires Turnover(a, b, born, kept) && born <= wider && narrower <= kept
    ensures Turnover(a, b, wider, narrower)
  {
  }

  lemma TurnoverLess(a: Runtimes, b: Runtimes, key: Key)
    requires Turnover(a, b, {key}, {})
    ensures Turnover(a, b - {key}, {}, {})
  {
  }

  lemma TurnoverNone(a: Runtimes, born: set<Key>, kept: set<Key>)
    ensures Turnover(a, a, born, kept)
  {
  }

  lemma AddedTurnover(a: Runtimes, b: Runtimes, key: Key, kept: set<Key>)
    requires b == a || (key !in a && key in b && b == a[key := b[key]])
    ensures Turnover(a, b, {key}, kept)
  {
  }

  lemma TurnoverSame(a: Runtimes, b: Runtimes, kept: set<Key>, key: Key)
    requires Turnover(a, b, {}, kept) && key in b
    ensures key in a && b[key] == a[key]
  {
  }

  /** Three passes in a row, of which the second makes one runtime live. */
  lemma TurnoverOfAttach(was: Runtimes, calmed: Runtimes, live: Runtimes, next: Runtimes, key: Key, kept: set<Key>)
    requires Turnover(was, calmed, {}, kept) && Turnover(live, next, {}, kept)
    requires live == calmed || (key !in calmed && key in live && live == calmed[key := live[key]])
    ensures Turnover(was, next, {key}, kept)
    ensures Turnover(was, calmed, {key}, kept)
  {
  }

  function StateOf(states: States, th: ThreadId): ThreadState {
    if th in states then states[th] else ThreadState(false, None, [])
  }

  /** A thread's workspace always has a tab: a blank one when it had none. */
  function Workspace(states: States, th: ThreadId, nextTab: TabId): States {
    var s := StateOf(states, th);
    var filled := if s.tabs == [] then s.(tabs := [Tab(nextTab, None, false)], active := Some(nextTab)) else s;
    states[th := if filled.active.None? || filled.active.value !in TabIds(filled.tabs)
                 then filled.(active := FirstTab(filled.tabs)) else filled]
  }

  function TabAfterWorkspace(states: States, th: ThreadId, nextTab: TabId): TabId {
    if StateOf(states, th).tabs == [] then nextTab + 1 else nextTab
  }

  lemma WorkspaceTabs(states: States, th: ThreadId, popups: Popups, pending: map<Key, PendingOpen>, nextTab: TabId)
    requires TabTablesOk(states, popups, pending, nextTab)
    ensures var next := Workspace(states, th, nextTab);
            && TabTablesOk(next, popups, pending, TabAfterWorkspace(states, th, nextTab))
            && (th in states && states[th].tabs != [] ==> next == states)
            && th in next && next[th].active.Some? && HasTab(next, Key(th, next[th].active.value))
            && (forall k | HasTab(states, k) :: HasTab(next, k))
  {
    var next := Workspace(states, th, nextTab);
    if th in states && states[th].tabs != [] { assert next == states; }
    var blank := Tab(nextTab, None, false);
    assert blank in [blank] && TabIds([blank]) == {nextTab};
  }

  lemma WorkspaceRuntimes(states: States, th: ThreadId, nextTab: TabId, popups: Popups, pending: map<Key, PendingOpen>,
                          runtimes: Runtimes, rendererOnly: set<Key>, automation: set<Key>, attached: Option<Key>)
    requires TabTablesOk(states, popups, pending, nextTab)
    requires RuntimeTablesOk(states, runtimes, rendererOnly, automation, attached)
    ensures RuntimeTablesOk(Workspace(states, th, nextTab), runtimes, rendererOnly, automation, attached)
  {
    WorkspaceTabs(states, th, popups, pending, nextTab);
    var next := Workspace(states, th, nextTab);
    assert NativeOk(next, automation) by {
      hide TabTablesOk, OwnershipOk, GuestsOk, AttachedOk;
      if !(th in states && states[th].tabs != []) {
        forall k | k in automation ensures k.thread != th { assert HasTab(states, k); }
      }
    }
    TabsGrown(states, next, runtimes, rendererOnly, automation, attached);
  }

  lemma WorkspaceAgain(states: States, th: ThreadId, popups: Popups, pending: map<Key, PendingOpen>, nextTab: TabId)
    requires TabTablesOk(states, popups, pending, nextTab) && th in states && states[th].active.Some?
    ensures Workspace(states, th, nextTab) == states && TabAfterWorkspace(states, th, nextTab) == nextTab
  {
  }

  lemma ClaimsDisjoint(states: States, runtimes: Runtimes, rendererOnly: set<Key>, automation: set<Key>,
                       attached: Option<Key>)
    requires RuntimeTablesOk(states, runtimes, rendererOnly, automation, attached)
    ensures rendererOnly !! automation
  {
  }

  lemma TurnoverGone(was: Runtimes, next: Runtimes, kept: set<Key>, key: Key)
    requires Turnover(was, next, {}, kept)
    ensures key !in was ==> key !in next
  {
  }

  lemma Detached(states: States, runtimes: Runtimes, rendererOnly: set<Key>, automation: set<Key>,
                 attached: Option<Key>)
    requires RuntimeTablesOk(states, runtimes, rendererOnly, automation, attached)
    ensures RuntimeTablesOk(states, runtimes, rendererOnly, automation, None)
  {
  }

  lemma NextTabGrows(states: States, popups: Popups, pending: map<Key, PendingOpen>, n: TabId, m: TabId)
    requires TabTablesOk(states, popups, pending, n) && n <= m
    ensures TabTablesOk(states, popups, pending, m)
  {
  }

  predicate Touches(was: ThreadState, next: ThreadState) {
    next.tabs == was.tabs
    && (next.active == was.active || (next.active.Some? && next.active.value in TabIds(next.tabs)))
  }

  /** Opening a thread or showing another of its tabs. */
  lemma ThreadTouched(states: States, popups: Popups, pending: map<Key, PendingOpen>, nextTab: TabId,
                      runtimes: Runtimes, rendererOnly: set<Key>, automation: set<Key>, attached: Option<Key>,
                      th: ThreadId, next: ThreadState)
    requires TabTablesOk(states, popups, pending, nextTab)
             && RuntimeTablesOk(states, runtimes, rendererOnly, automation, attached)
    requires Touches(StateOf(states, th), next)
    ensures TabTablesOk(states[th := next], popups, pending, nextTab)
            && RuntimeTablesOk(states[th := next], runtimes, rendererOnly, automation, attached)
  {
    var after := states[th := next];
    assert th in states ==> StateOk(states[th], nextTab);
    assert TabTablesOk(after, popups, pending, nextTab) by { hide ForestOk; }
    hide TabTablesOk, StateOk;
    forall k | HasTab(states, k) ensures HasTab(after, k) {}
    assert NativeOk(after, automation) by { hide HasTab, KeysOk, OwnershipOk, GuestsOk; }
    TabsGrown(states, after, runtimes, rendererOnly, automation, attached);
  }

  predicate Appends(was: ThreadState, next: ThreadState, tab: Tab) {
    && next.tabs == was.tabs + [tab]
    && (next.active == Some(tab.id) || (next.active == was.active && was.active.Some?))
  }

  lemma TabAddedTabs(states: States, popups: Popups, pending: map<Key, PendingOpen>, nextTab: TabId, th: ThreadId,
                     next: ThreadState, tab: Tab)
    requires TabTablesOk(states, popups, pending, nextTab)
    requires th in states && Appends(states[th], next, tab) && tab.id < nextTab && tab.id !in TabIds(states[th].tabs)
    ensures TabTablesOk(states[th := next], popups, pending, nextTab)
    ensures forall k | HasTab(states, k) :: HasTab(states[th := next], k)
    ensures HasTab(states[th := next], Key(th, tab.id)) && !HasTab(states, Key(th, tab.id))
  {
  }

  lemma TabAdded(states: States, popups: Popups, pending: map<Key, PendingOpen>, nextTab: TabId,
                 runtimes: Runtimes, rendererOnly: set<Key>, automation: set<Key>, attached: Option<Key>, th: ThreadId,
                 next: ThreadState, tab: Tab)
    requires TabTablesOk(states, popups, pending, nextTab)
             && RuntimeTablesOk(states, runtimes, rendererOnly, automation, attached)
    requires th in states && Appends(states[th], next, tab) && tab.id < nextTab && tab.id !in TabIds(states[th].tabs)
    ensures TabTablesOk(states[th := next], popups, pending, nextTab)
            && RuntimeTablesOk(states[th := next], runtimes, rendererOnly, automation, attached)
    ensures Key(th, tab.id) !in rendererOnly && Key(th, tab.id) !in runtimes
            && HasTab(states[th := next], Key(th, tab.id))
  {
    TabAddedTabs(states, popups, pending, nextTab, th, next, tab);
    hide TabTablesOk, HasTab, StateOk, TabIds;
    var after := states[th := next];
    assert NativeOk(after, automation) by { hide OwnershipOk, GuestsOk; }
    TabsGrown(states, after, runtimes, rendererOnly, automation, attached);
  }

  /** The id a request means: the given tab, or the thread's first. */
  function ResolveTab(s: ThreadState, x: TabId): Option<TabId> {
    if x in TabIds(s.tabs) then Some(x) else FirstTab(s.tabs)
  }

  lemma ResolvedTab(s: ThreadState, x: TabId)
    requires s.tabs != []
    ensures ResolveTab(s, x).Some? && ResolveTab(s, x).value in TabIds(s.tabs)
  {
  }

  function Claimed(states: States, k: Key): States
    requires k.thread in states
  {
    states[k.thread := states[k.thread].(tabs := MarkNative(states[k.thread].tabs, k.tab))]
  }

  lemma TabClaimedTabs(states: States, popups: Popups, pending: map<Key, PendingOpen>, nextTab: TabId, k: Key)
    requires TabTablesOk(states, popups, pending, nextTab) && k.thread in states
    ensures TabTablesOk(Claimed(states, k), popups, pending, nextTab)
    ensures forall j :: HasTab(states, j) <==> HasTab(Claimed(states, k), j)
  {
  }

  lemma ClaimedNative(states: States, automation: set<Key>, k: Key)
    requires NativeOk(states, automation) && k.thread in states
    ensures NativeOk(Claimed(states, k), automation + {k})
  {
  }

  /** A claim passes to automation: the tab turns native and the renderer loses it. */
  lemma TabClaimed(states: States, popups: Popups, pending: map<Key, PendingOpen>, nextTab: TabId,
                   runtimes: Runtimes, rendererOnly: set<Key>, automation: set<Key>, attached: Option<Key>, k: Key)
    requires TabTablesOk(states, popups, pending, nextTab)
             && RuntimeTablesOk(states, runtimes, rendererOnly, automation, attached)
    requires HasTab(states, k) && (k in runtimes ==> runtimes[k].owns)
    ensures RuntimeTablesOk(Claimed(states, k), runtimes, rendererOnly - {k}, automation + {k}, attached)
  {
    TabClaimedTabs(states, popups, pending, nextTab, k);
    ClaimedNative(states, automation, k);
    hide TabTablesOk, HasTab, NativeOk, Claimed;
    var next := Claimed(states, k);
    assert KeysOk(next, runtimes.Keys) && KeysOk(next, rendererOnly - {k}) && KeysOk(next, automation + {k});
    assert OwnershipOk(runtimes, rendererOnly - {k}) by { hide KeysOk, GuestsOk; }
  }

  /** A claimed tab is native, so a tab that is not native is not claimed. */
  lemma NotClaimed(states: States, runtimes: Runtimes, rendererOnly: set<Key>, automation: set<Key>,
                   attached: Option<Key>, k: Key, t: Tab)
    requires RuntimeTablesOk(states, runtimes, rendererOnly, automation, attached)
    requires k.thread in states && t in states[k.thread].tabs && t.id == k.tab && !t.native
    ensures k !in automation
  {
  }

  lemma GuestRuntime(states: States, runtimes: Runtimes, rendererOnly: set<Key>, automation: set<Key>,
                     attached: Option<Key>, k: Key)
    requires RuntimeTablesOk(states, runtimes, rendererOnly, automation, attached) && k in runtimes
    ensures runtimes[k].owns <==> !runtimes[k].contents.Guest?
    ensures runtimes[k].owns <==> k !in rendererOnly
    ensures runtimes[k].owns <==> runtimes[k].placement != Renderer
  {
  }

  lemma ClaimedHas(states: States, runtimes: Runtimes, rendererOnly: set<Key>, automation: set<Key>,
                   attached: Option<Key>, k: Key)
    requires RuntimeTablesOk(states, runtimes, rendererOnly, automation, attached) && k in automation
    ensures HasTab(states, k) && k.thread in states && k.tab in TabIds(states[k.thread].tabs)
  {
  }

  lemma ClaimTurnover(was: Runtimes, next: Runtimes, k: Key, kept: set<Key>)
    requires next == was || (next == was - {k} && k !in kept)
    ensures Turnover(was, next, {k}, kept)
  {
  }

  lemma GuestsOnce(states: States, runtimes: Runtimes, rendererOnly: set<Key>, automation: set<Key>,
                   attached: Option<Key>, k: Key)
    requires RuntimeTablesOk(states, runtimes, rendererOnly, automation, attached) && k in runtimes
             && runtimes[k].contents.Guest?
    ensures forall j | j in runtimes && runtimes[j].contents == runtimes[k].contents :: j == k
  {
  }

  lemma GuestsRendered(states: States, runtimes: Runtimes, rendererOnly: set<Key>, automation: set<Key>,
                       attached: Option<Key>)
    requires RuntimeTablesOk(states, runtimes, rendererOnly, automation, attached)
    ensures forall k | k in runtimes && runtimes[k].contents.Guest? :: !runtimes[k].owns
  {
  }

  /** The guest moved to `key`: nothing else is new, and what went was the guest's or a claimed background page. */
  predicate GuestMoved(was: Runtimes, next: Runtimes, key: Key, guest: nat, automation: set<Key>) {
    && (forall k | k in next && k != key :: k in was && next[k] == was[k])
    && (forall k | k in was && k !in next :: was[k].contents == Guest(guest) || k in automation)
  }

  lemma GuestMovedNone(was: Runtimes, key: Key, guest: nat, automation: set<Key>)
    ensures GuestMoved(was, was, key, guest, automation)
  {
  }

  lemma GuestMovedBound(was: Runtimes, freed: Runtimes, bound: Runtimes, next: Runtimes, key: Key, guest: nat,
                        automation: set<Key>, kept: set<Key>)
    requires GuestMoved(was, freed, key, guest, automation) && key in bound && bound == freed[key := bound[key]]
    requires Turnover(bound, next, {}, kept) && key in next && forall k | k in bound && k !in automation :: k in next
    ensures GuestMoved(was, next, key, guest, automation) && next[key] == bound[key]
    ensures forall k | k in next :: k in bound && next[k] == bound[k]
  {
  }

  lemma TabUnique(states: States, popups: Popups, pending: map<Key, PendingOpen>, nextTab: TabId, th: ThreadId, t: Tab)
    requires TabTablesOk(states, popups, pending, nextTab) && th in states && t in states[th].tabs
    ensures forall u | u in states[th].tabs && u.id == t.id :: u == t
  {
  }

  lemma TabsAreOld(states: States, popups: Popups, pending: map<Key, PendingOpen>, nextTab: TabId, k: Key)
    requires TabTablesOk(states, popups, pending, nextTab) && HasTab(states, k)
    ensures k.tab < nextTab
  {
  }

  lemma OpenerStays(before: States, after: States, th: ThreadId, tab: Tab, x: TabId)
    requires th in before && th in after && after[th].tabs == before[th].tabs + [tab] && x in TabIds(before[th].tabs)
    ensures HasTab(after, Key(th, x)) && HasTab(after, Key(th, tab.id))
  {
  }

  /** No adopted popup owns a key that is no tab yet. */
  lemma AdoptedIsNew(before: States, popups: Popups, pending: map<Key, PendingOpen>, nextTab: TabId, k: Key)
    requires TabTablesOk(before, popups, pending, nextTab) && !HasTab(before, k)
    ensures forall w | w in popups && popups[w].Adopted() :: popups[w].OwnKey() != k
  {
  }

  lemma PopupRecorded(states: States, popups: Popups, pending: map<Key, PendingOpen>, nextTab: TabId, w: WindowId,
                      p: Popup)
    requires TabTablesOk(states, popups, pending, nextTab) && w !in popups && OpenedBefore(p)
    requires p.Adopted() ==> HasTab(states, p.OwnKey()) && HasTab(states, Key(p.thread, p.opener.value))
                             && forall v | v in popups && popups[v].Adopted() :: popups[v].OwnKey() != p.OwnKey()
    ensures TabTablesOk(states, popups[w := p], pending, nextTab)
  {
  }

  lemma NextTabIsNew(states: States, popups: Popups, pending: map<Key, PendingOpen>, nextTab: TabId, th: ThreadId)
    requires TabTablesOk(states, popups, pending, nextTab)
    ensures !HasTab(states, Key(th, nextTab))
  {
  }

  lemma PendingDropped(states: States, popups: Popups, pending: map<Key, PendingOpen>, nextTab: TabId, key: Key)
    requires TabTablesOk(states, popups, pending, nextTab)
    ensures TabTablesOk(states, popups, pending - {key}, nextTab)
    ensures key in pending ==> pending[key].tab.id < nextTab && pending[key].tab.native
    ensures key !in pending ==> pending - {key} == pending
  {
  }

  /** A tab born native may be claimed at once. */
  lemma NewTabClaimed(before: States, states: States, runtimes: Runtimes, rendererOnly: set<Key>, automation: set<Key>,
                      attached: Option<Key>, th: ThreadId, tab: Tab)
    requires RuntimeTablesOk(states, runtimes, rendererOnly, automation, attached)
    requires th in before && th in states && states[th].tabs == before[th].tabs + [tab] && tab.native
    requires tab.id !in TabIds(before[th].tabs) && HasTab(states, Key(th, tab.id)) && Key(th, tab.id) !in rendererOnly
    ensures RuntimeTablesOk(states, runtimes, rendererOnly, automation + {Key(th, tab.id)}, attached)
  {
  }

  /** The page of the pop-up recorded for this very tab. */
  predicate IsPopupPage(popups: Popups, key: Key, contents: Contents) {
    contents.Child? && contents.window in popups && popups[contents.window].OwnKey() == key
  }

  /** Of a pop-up that was adopted as this tab. */
  predicate IsAdoptedPage(popups: Popups, key: Key, contents: Contents) {
    IsPopupPage(popups, key, contents) && popups[contents.window].Adopted()
  }

  lemma ThreadShows(states: States, popups: Popups, pending: map<Key, PendingOpen>, nextTab: TabId, k: Key)
    requires TabTablesOk(states, popups, pending, nextTab) && HasTab(states, k)
    ensures k.thread in states && states[k.thread].active.Some?
  {
  }

  lemma ActiveHasTab(states: States, popups: Popups, pending: map<Key, PendingOpen>, nextTab: TabId, th: ThreadId)
    requires TabTablesOk(states, popups, pending, nextTab) && th in states && states[th].active.Some?
    ensures HasTab(states, Key(th, states[th].active.value))
  {
  }
}
