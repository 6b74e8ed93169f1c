/**
 The budget of background automation runtimes (`apps/desktop/src/browserManager.ts`,
 2391-2473): which of them one pass evicts, and when the next pass is due.
*/
module BackgroundBudget {
  import opened Wrappers
  import opened PopupForest
  import opened BrowserTables

  const MAX_BACKGROUND := 4
  const USE_GRACE_MS := 31_000

  /** A time kept per key, zero when there is none. */
  function Stamp(times: map<Key, nat>, k: Key): nat {
    if k in times then times[k] else 0
  }

  lemma {:induction false} LeastExists(keys: set<Key>, times: map<Key, nat>)
    requires keys != {}
    ensures exists k :: k in keys && forall j | j in keys :: Stamp(times, k) <= Stamp(times, j)
  {
    var k :| k in keys;
    var others := keys - {k};
    if others == {} {
      assert keys == {k};
    } else {
      LeastExists(others, times);
      var l :| l in others && forall j | j in others :: Stamp(times, l) <= Stamp(times, j);
      var m := if Stamp(times, k) <= Stamp(times, l) then k else l;
      assert m in keys && forall j | j in keys :: Stamp(times, m) <= Stamp(times, j);
    }
  }

  function Elements(keys: seq<Key>): set<Key> { set k | k in keys }

  /** The keys, least recently active first. */
  predicate ByActivity(keys: seq<Key>, all: set<Key>, lastActive: map<Key, nat>) {
    && Elements(keys) == all && |keys| == |all|
    && (forall i, j | 0 <= i < j < |keys| :: keys[i] != keys[j])
    && (forall i, j | 0 <= i < j < |keys| :: Stamp(lastActive, keys[i]) <= Stamp(lastActive, keys[j]))
  }

  lemma ByActivityAppend(keys: seq<Key>, done: set<Key>, k: Key, lastActive: map<Key, nat>)
    requires ByActivity(keys, done, lastActive) && k !in done
    requires forall j | j in done :: Stamp(lastActive, j) <= Stamp(lastActive, k)
    ensures ByActivity(keys + [k], done + {k}, lastActive)
  {
  }

  method SortByActivity(all: set<Key>, lastActive: map<Key, nat>) returns (keys: seq<Key>)
    ensures ByActivity(keys, all, lastActive)
  {
    hide ByActivity;
    keys := [];
    var rest := all;
    assert ByActivity(keys, all - rest, lastActive) by { assert all - rest == {}; NoneByActivity(lastActive); }
    while rest != {}
      invariant rest <= all && ByActivity(keys, all - rest, lastActive)
      invariant forall j, k | j in all - rest && k in rest :: Stamp(lastActive, j) <= Stamp(lastActive, k)
      decreases rest
    {
      LeastExists(rest, lastActive);
      var k :| k in rest && forall j | j in rest :: Stamp(lastActive, k) <= Stamp(lastActive, j);
      ByActivityAppend(keys, all - rest, k, lastActive);
      assert all - (rest - {k}) == all - rest + {k};
      rest := rest - {k};
      keys := keys + [k];
    }
    assert all - rest == all;
  }

  lemma NoneByActivity(lastActive: map<Key, nat>)
    ensures ByActivity([], {}, lastActive)
  {
  }

  lemma PrefixGrows(keys: seq<Key>, n: nat)
    requires n < |keys|
    ensures Elements(keys[..n + 1]) == Elements(keys[..n]) + {keys[n]} && Elements(keys[..0]) == {}
  {
  }

  lemma {:induction false} PrefixSize(keys: seq<Key>, n: nat)
    requires n <= |keys| && forall i, j | 0 <= i < j < |keys| :: keys[i] != keys[j]
    ensures |Elements(keys[..n])| == n
  {
    if n > 0 {
      PrefixSize(keys, n - 1);
      assert keys[..n] == keys[..n - 1] + [keys[n - 1]];
      assert Elements(keys[..n]) == Elements(keys[..n - 1]) + {keys[n - 1]};
    }
  }

  /** The runtimes that count against the background budget. */
  function Background(runtimes: Runtimes, attached: Option<Key>, popups: Popups, automation: set<Key>): set<Key> {
    set k | k in runtimes && runtimes[k].owns && attached != Some(k) && k !in OwnerKeys(popups) && k in automation
  }

  /** Those still inside their protection window. */
  function Protected(keys: set<Key>, protectedUntil: map<Key, nat>, now: nat): set<Key> {
    set k | k in keys && Stamp(protectedUntil, k) > now
  }

  function Max(a: nat, b: nat): nat { if a >= b then a else b }

  /**
   One budget pass: the background set shrinks from `before` to `after`, to the cap or to
   what is protected, the evicted being unprotected and the least recently active of those.
   */
  predicate BudgetPass(before: set<Key>, after: set<Key>, lastActive: map<Key, nat>, protectedUntil: map<Key, nat>,
                       now: nat) {
    var shielded := Protected(before, protectedUntil, now);
    && shielded <= after <= before
    && |after| == (if |before| <= MAX_BACKGROUND then |before| else Max(MAX_BACKGROUND, |shielded|))
    && forall e, k | e in before - after && k in after - shielded :: Stamp(lastActive, e) <= Stamp(lastActive, k)
  }

  /**
   The timer is armed exactly when protection alone keeps the set over the cap, for just after the first window to
   close.
   */
  predicate TimerAfterPass(after: set<Key>, protectedUntil: map<Key, nat>, now: nat, timer: Option<nat>) {
    if |after| <= MAX_BACKGROUND then timer == None
    else
      && timer.Some?
      && (exists k :: k in after && Stamp(protectedUntil, k) > now && timer.value == Stamp(protectedUntil, k) + 1)
      && (forall k | k in after :: now < Stamp(protectedUntil, k) && timer.value <= Stamp(protectedUntil, k) + 1)
  }

  /** Evicting the first `n` candidates, as many as the excess or as there are, is a budget pass. */
  lemma PassOutcome(before: set<Key>, lastActive: map<Key, nat>, protectedUntil: map<Key, nat>, now: nat,
                    candidates: seq<Key>, n: nat)
    requires |before| > MAX_BACKGROUND
    requires ByActivity(candidates, before - Protected(before, protectedUntil, now), lastActive)
    requires n <= |candidates| && n <= |before| - MAX_BACKGROUND
    requires n == |candidates| || n == |before| - MAX_BACKGROUND
    ensures var after := before - Elements(candidates[..n]);
            && BudgetPass(before, after, lastActive, protectedUntil, now)
            && Elements(candidates[..n]) <= before
            && (n == |before| - MAX_BACKGROUND ==> |after| <= MAX_BACKGROUND)
            && (n < |before| - MAX_BACKGROUND ==>
                  |after| > MAX_BACKGROUND && after == Protected(before, protectedUntil, now))
  {
    var shielded := Protected(before, protectedUntil, now);
    var gone := Elements(candidates[..n]);
    var after := before - gone;
    PrefixSize(candidates, n);
    assert forall k | k in gone :: k in Elements(candidates);
    assert |before - shielded| == |before| - |shielded|;
    if n == |candidates| { assert candidates[..n] == candidates; }
    forall e, k | e in before - after && k in after - shielded ensures Stamp(lastActive, e) <= Stamp(lastActive, k) {
      var i :| 0 <= i < n && candidates[i] == e;
      assert k in Elements(candidates);
      var j :| 0 <= j < |candidates| && candidates[j] == k;
      assert j < n ==> k in gone;
    }
    assert |after| == |before| - n;
    assert shielded <= after;
    if n < |before| - MAX_BACKGROUND { assert after == shielded; }
    else { SubsetSize(shielded, after); }
  }

  lemma SubsetSize(a: set<Key>, b: set<Key>)
    requires a <= b
    ensures |a| <= |b|
  {
    assert b == a + (b - a);
  }

  lemma BackgroundDropped(runtimes: Runtimes, attached: Option<Key>, popups: Popups, automation: set<Key>,
                          gone: set<Key>)
    ensures Background(runtimes - gone, attached, popups, automation)
            == Background(runtimes, attached, popups, automation) - gone
  {
  }

  /** Evicting unprotected runtimes leaves the protection windows of the rest as they were. */
  lemma StillProtected(before: set<Key>, gone: set<Key>, protectedUntil: map<Key, nat>, now: nat)
    requires before - gone == Protected(before, protectedUntil, now)
    ensures Protected(before, protectedUntil - gone, now) == before - gone
    ensures forall k | k in before - gone :: Stamp(protectedUntil - gone, k) == Stamp(protectedUntil, k) > now
  {
  }

  /** What one budget pass does to the runtimes and the timer. */
  predicate BudgetOutcome(was: Runtimes, runtimes: Runtimes, attached: Option<Key>, popups: Popups,
                          automation: set<Key>,
                          lastActive: map<Key, nat>, protectedUntil: map<Key, nat>, now: nat, timer: Option<nat>)
  {
    var before := Background(was, attached, popups, automation);
    var after := Background(runtimes, attached, popups, automation);
    && BudgetPass(before, after, lastActive, protectedUntil, now)
    && TimerAfterPass(after, protectedUntil, now, timer)
    && runtimes == was - (before - after)
  }

  lemma UnderCap(runtimes: Runtimes, attached: Option<Key>, popups: Popups, automation: set<Key>,
                 lastActive: map<Key, nat>, protectedUntil: map<Key, nat>, now: nat)
    requires |Background(runtimes, attached, popups, automation)| <= MAX_BACKGROUND
    ensures BudgetOutcome(runtimes, runtimes, attached, popups, automation, lastActive, protectedUntil, now, None)
  {
  }

  lemma Evicted(was: Runtimes, attached: Option<Key>, popups: Popups, automation: set<Key>,
                lastActive: map<Key, nat>, protectedUntil: map<Key, nat>, now: nat, candidates: seq<Key>, n: nat,
                timer: Option<nat>)
    requires var before := Background(was, attached, popups, automation);
             && |before| > MAX_BACKGROUND
             && ByActivity(candidates, before - Protected(before, protectedUntil, now), lastActive)
             && n <= |candidates| && n <= |before| - MAX_BACKGROUND
             && (n == |candidates| || n == |before| - MAX_BACKGROUND)
             && TimerAfterPass(before - Elements(candidates[..n]), protectedUntil, now, timer)
    ensures BudgetOutcome(was, was - Elements(candidates[..n]), attached, popups, automation, lastActive,
                          protectedUntil, now, timer)
  {
    hide Background, BudgetPass, ByActivity, Elements, Protected, TimerAfterPass;
    var before, gone := Background(was, attached, popups, automation), Elements(candidates[..n]);
    PassOutcome(before, lastActive, protectedUntil, now, candidates, n);
    BackgroundDropped(was, attached, popups, automation, gone);
    assert before - (before - gone) == gone;
  }

  lemma NoTimer(after: set<Key>, protectedUntil: map<Key, nat>, now: nat)
    ensures |after| <= MAX_BACKGROUND ==> TimerAfterPass(after, protectedUntil, now, None)
  {
  }

  lemma ByActivityIn(keys: seq<Key>, all: set<Key>, lastActive: map<Key, nat>)
    requires ByActivity(keys, all, lastActive)
    ensures forall i | 0 <= i < |keys| :: keys[i] in all
  {
  }

  /** A budget pass never touches the attached runtime or one in the chain of an open pop-up. */
  lemma BudgetTurnover(was: Runtimes, runtimes: Runtimes, attached: Option<Key>, popups: Popups, automation: set<Key>,
                       lastActive: map<Key, nat>, protectedUntil: map<Key, nat>, now: nat, timer: Option<nat>)
    requires BudgetOutcome(was, runtimes, attached, popups, automation, lastActive, protectedUntil, now, timer)
    ensures Turnover(was, runtimes, {}, OwnerKeys(popups))
    ensures attached.Some? && attached.value in was ==>
              attached.value in runtimes && runtimes[attached.value] == was[attached.value]
    ensures forall k | k in was && k !in automation :: k in runtimes
  {
  }

  // ------------------------------------------------ one thread's idle runtimes

  /** The thread's live runtimes that are neither shown nor part of an open pop-up's chain. */
  function Idle(runtimes: Runtimes, th: ThreadId, shown: Option<TabId>, owners: set<Key>): set<Key> {
    set k | k in runtimes && k.thread == th && Some(k.tab) != shown && k !in owners
  }

  /** Of a thread's idle runtimes at most one stays warm, one that was active last. */
  predicate IdlePass(was: Runtimes, next: Runtimes, th: ThreadId, shown: Option<TabId>, owners: set<Key>,
                     lastActive: map<Key, nat>) {
    var idle := Idle(was, th, shown, owners);
    if idle == {} then next == was
    else exists warm ::
           warm in idle && next == was - (idle - {warm})
           && forall k | k in idle :: Stamp(lastActive, k) <= Stamp(lastActive, warm)
  }

  /** At most one idle runtime of the thread is live, and it is timed. */
  predicate Calm(runtimes: Runtimes, th: ThreadId, shown: Option<TabId>, owners: set<Key>, timers: set<Key>) {
    |Idle(runtimes, th, shown, owners)| <= 1 && Idle(runtimes, th, shown, owners) <= timers
  }

  lemma CalmAfterPass(was: Runtimes, next: Runtimes, th: ThreadId, shown: Option<TabId>, owners: set<Key>,
                      lastActive: map<Key, nat>, timers: set<Key>)
    requires IdlePass(was, next, th, shown, owners, lastActive) && Idle(next, th, shown, owners) <= timers
    ensures Calm(next, th, shown, owners, timers)
  {
    var idle, left := Idle(was, th, shown, owners), Idle(next, th, shown, owners);
    if idle != {} {
      var warm :| warm in idle && next == was - (idle - {warm});
      assert left == {warm};
    }
  }

  /** Only idle runtimes and claimed ones in the background went. */
  predicate Spared(was: Runtimes, next: Runtimes, idle: set<Key>, automation: set<Key>) {
    forall k | k in was && k !in next :: k in idle || k in automation
  }

  lemma IdleSpared(was: Runtimes, next: Runtimes, th: ThreadId, shown: Option<TabId>, owners: set<Key>,
                   lastActive: map<Key, nat>, automation: set<Key>)
    requires IdlePass(was, next, th, shown, owners, lastActive)
    ensures Spared(was, next, Idle(was, th, shown, owners), automation)
  {
  }

  lemma SparedMore(was: Runtimes, mid: Runtimes, next: Runtimes, idle: set<Key>, automation: set<Key>)
    requires Spared(was, mid, idle, automation) && forall k | k in mid && k !in automation :: k in next
    ensures Spared(was, next, idle, automation)
  {
  }

  /** What a pass over the thread's idle tabs leaves: at most one, and the shown tab and other threads as they were. */
  predicate CalmedOff(was: Runtimes, next: Runtimes, th: ThreadId, shown: Option<TabId>, owners: set<Key>,
                      automation: set<Key>, timers: set<Key>) {
    && Turnover(was, next, {}, owners) && Calm(next, th, shown, owners, timers)
    && Spared(was, next, Idle(was, th, shown, owners), automation)
    && forall k | k in was && (k.thread != th || Some(k.tab) == shown) :: k in next && next[k] == was[k]
  }

  lemma PassCalms(was: Runtimes, next: Runtimes, th: ThreadId, shown: Option<TabId>, owners: set<Key>,
                  lastActive: map<Key, nat>, automation: set<Key>, timers: set<Key>)
    requires IdlePass(was, next, th, shown, owners, lastActive) && Idle(next, th, shown, owners) <= timers
    ensures CalmedOff(was, next, th, shown, owners, automation, timers)
  {
    IdleTurnover(was, next, th, shown, owners, lastActive);
    CalmAfterPass(was, next, th, shown, owners, lastActive, timers);
    IdleSpared(was, next, th, shown, owners, lastActive, automation);
    hide Turnover, Calm, Spared, IdlePass, Idle;
  }

  lemma ShownKept(was: Runtimes, calmed: Runtimes, key: Key, owners: set<Key>, automation: set<Key>, timers: set<Key>)
    requires CalmedOff(was, calmed, key.thread, Some(key.tab), owners, automation, timers)
    ensures key in calmed <==> key in was
    ensures key in was ==> calmed[key] == was[key]
    ensures Turnover(was, calmed, {}, owners) && Calm(calmed, key.thread, Some(key.tab), owners, timers)
    ensures Spared(was, calmed, Idle(was, key.thread, Some(key.tab), owners), automation)
  {
  }

  /** Then the shown tab may come alive, and claimed pages in the background may go. */
  lemma CalmThenShown(was: Runtimes, calmed: Runtimes, next: Runtimes, key: Key, owners: set<Key>, automation: set<Key>,
                      timers: set<Key>, later: set<Key>)
    requires CalmedOff(was, calmed, key.thread, Some(key.tab), owners, automation, timers)
    requires Turnover(calmed, next, {key}, owners) && forall k | k in calmed && k !in automation :: k in next
    requires forall k | k in next && k in timers && k != key :: k in later
    ensures Turnover(was, next, {key}, owners) && Calm(next, key.thread, Some(key.tab), owners, later)
    ensures Spared(was, next, Idle(was, key.thread, Some(key.tab), owners), automation)
    ensures key in calmed <==> key in was
    ensures key in was ==> calmed[key] == was[key]
  {
    ShownKept(was, calmed, key, owners, automation, timers);
    hide CalmedOff;
    CalmLaterKey(calmed, next, key, owners, timers, later);
    SparedMore(was, calmed, next, Idle(was, key.thread, Some(key.tab), owners), automation);
    TurnoverTwice(was, calmed, next, {}, {key}, owners);
    assert {} + {key} == {key};
  }

  /** It stays calm while nothing but the shown tab's runtime appears. */
  lemma CalmLaterKey(runtimes: Runtimes, next: Runtimes, key: Key, owners: set<Key>, timers: set<Key>, later: set<Key>)
    requires Calm(runtimes, key.thread, Some(key.tab), owners, timers) && Turnover(runtimes, next, {key}, owners)
    requires forall k | k in next && k in timers && k != key :: k in later
    ensures Calm(next, key.thread, Some(key.tab), owners, later)
  {
    SubsetSize(Idle(next, key.thread, Some(key.tab), owners), Idle(runtimes, key.thread, Some(key.tab), owners));
  }

  lemma IdleTurnover(was: Runtimes, next: Runtimes, th: ThreadId, shown: Option<TabId>, owners: set<Key>,
                     lastActive: map<Key, nat>)
    requires IdlePass(was, next, th, shown, owners, lastActive)
    ensures Turnover(was, next, {}, owners)
    ensures forall k | k in was && (k.thread != th || Some(k.tab) == shown) :: k in next && next[k] == was[k]
  {
  }

  /** What a suspended thread loses: all but pop-up chains and the claimed tab it shows. */
  function Dormant(tabs: seq<Tab>, th: ThreadId, active: Option<TabId>, owners: set<Key>,
                   automation: set<Key>): set<Key> {
    set t | t in tabs && Key(th, t.id) !in owners && !(Some(t.id) == active && Key(th, t.id) in automation) ::
      Key(th, t.id)
  }

  lemma DormantGrows(tabs: seq<Tab>, n: nat, th: ThreadId, active: Option<TabId>, owners: set<Key>,
                     automation: set<Key>)
    requires n < |tabs|
    ensures var key := Key(th, tabs[n].id);
            Dormant(tabs[..n + 1], th, active, owners, automation) == Dormant(tabs[..n], th, active, owners, automation)
              + if key in owners || (Some(key.tab) == active && key in automation) then {} else {key}
  {
    assert tabs[..n + 1] == tabs[..n] + [tabs[n]];
  }

  lemma NoneDormant(th: ThreadId, active: Option<TabId>, owners: set<Key>, automation: set<Key>)
    ensures Dormant([], th, active, owners, automation) == {}
  {
  }

  /** A runtime inside its protection window survives the pass. */
  lemma ProtectedSurvives(was: Runtimes, runtimes: Runtimes, attached: Option<Key>, popups: Popups,
                          automation: set<Key>, lastActive: map<Key, nat>, protectedUntil: map<Key, nat>, now: nat,
                          timer: Option<nat>, k: Key)
    requires BudgetOutcome(was, runtimes, attached, popups, automation, lastActive, protectedUntil, now, timer)
    requires k in was && Stamp(protectedUntil, k) > now
    ensures k in runtimes && runtimes[k] == was[k]
  {
  }

  lemma CapOrTimer(was: Runtimes, runtimes: Runtimes, attached: Option<Key>, popups: Popups, automation: set<Key>,
                   lastActive: map<Key, nat>, protectedUntil: map<Key, nat>, now: nat, timer: Option<nat>)
    requires BudgetOutcome(was, runtimes, attached, popups, automation, lastActive, protectedUntil, now, timer)
    ensures |Background(runtimes, attached, popups, automation)| <= MAX_BACKGROUND || timer.Some?
  {
  }

  /** After a thread's suspension nothing of it is live but pop-up chains and the claimed tab it shows. */
  lemma DormantGone(was: Runtimes, runtimes: Runtimes, states: States, attached: Option<Key>, popups: Popups,
                    rendererOnly: set<Key>, automation: set<Key>, th: ThreadId, lastActive: map<Key, nat>,
                    protectedUntil: map<Key, nat>, now: nat, timer: Option<nat>)
    requires th in states && RuntimeTablesOk(states, runtimes, rendererOnly, automation, attached)
    requires var gone := Dormant(states[th].tabs, th, states[th].active, OwnerKeys(popups), automation);
             BudgetOutcome(was - gone, runtimes, attached, popups, automation, lastActive - gone, protectedUntil - gone,
                           now, timer)
    ensures forall k | k in runtimes && k.thread == th ::
              k in OwnerKeys(popups) || (Some(k.tab) == states[th].active && k in automation)
  {
  }

  /** The keys of these tabs. */
  function ByTab(tabs: seq<Tab>, th: ThreadId): set<Key> { set t | t in tabs :: Key(th, t.id) }

  /** The idle runtimes of these tabs, the warm one apart. */
  function Cooled(runtimes: Runtimes, tabs: seq<Tab>, th: ThreadId, shown: Option<TabId>, owners: set<Key>,
                  warm: Option<Key>): set<Key> {
    set k | k in Idle(runtimes, th, shown, owners) && Some(k) != warm && k in ByTab(tabs, th)
  }

  lemma NoneCooled(runtimes: Runtimes, th: ThreadId, shown: Option<TabId>, owners: set<Key>, warm: Option<Key>)
    ensures Cooled(runtimes, [], th, shown, owners, warm) == {} && ByTab([], th) == {}
  {
  }

  lemma CooledMore(runtimes: Runtimes, tabs: seq<Tab>, n: nat, th: ThreadId, shown: Option<TabId>, owners: set<Key>,
                   warm: Option<Key>)
    requires n < |tabs|
    ensures var key := Key(th, tabs[n].id);
            && ByTab(tabs[..n + 1], th) == ByTab(tabs[..n], th) + {key}
            && Cooled(runtimes, tabs[..n + 1], th, shown, owners, warm)
               == Cooled(runtimes, tabs[..n], th, shown, owners, warm)
                  + (if key in runtimes && Some(tabs[n].id) != shown && key !in owners && Some(key) != warm
                     then {key} else {})
            && (warm.Some? ==> warm.value !in Cooled(runtimes, tabs[..n + 1], th, shown, owners, warm))
            && forall k | k in Cooled(runtimes, tabs[..n + 1], th, shown, owners, warm) ::
                 Some(k.tab) != shown && k !in owners
  {
  }

  /** When all of a thread's tabs have been looked at, its idle runtimes but one are gone. */
  lemma AllCooled(states: States, was: Runtimes, rendererOnly: set<Key>, automation: set<Key>, attached: Option<Key>,
                  th: ThreadId, shown: Option<TabId>, owners: set<Key>, warm: Option<Key>, lastActive: map<Key, nat>)
    requires RuntimeTablesOk(states, was, rendererOnly, automation, attached) && th in states
    requires var idle := Idle(was, th, shown, owners);
             if idle == {} then warm == None
             else warm.Some? && warm.value in idle
                  && forall k | k in idle :: Stamp(lastActive, k) <= Stamp(lastActive, warm.value)
    ensures var next := was - Cooled(was, states[th].tabs, th, shown, owners, warm);
            && IdlePass(was, next, th, shown, owners, lastActive)
            && Idle(next, th, shown, owners) == (if warm.Some? then {warm.value} else {})
            && (warm.Some? ==> warm.value in ByTab(states[th].tabs, th))
            && Cooled(was, states[th].tabs, th, shown, owners, warm) <= was.Keys
  {
    var idle := Idle(was, th, shown, owners);
    forall k | k in idle ensures k in ByTab(states[th].tabs, th) {
      TabOfRuntime(states, was, rendererOnly, automation, attached, k);
      var j :| 0 <= j < |states[th].tabs| && states[th].tabs[j].id == k.tab;
      assert states[th].tabs[j] in states[th].tabs;
    }
    assert Cooled(was, states[th].tabs, th, shown, owners, warm) == if warm.Some? then idle - {warm.value} else idle;
    if warm.None? { assert was - {} == was; }
  }

  predicate SameTimes(keys: set<Key>, a: map<Key, nat>, b: map<Key, nat>) {
    forall k | k in keys :: Stamp(a, k) == Stamp(b, k)
  }

  lemma TimesKept(runtimes: Runtimes, gone: set<Key>, times: map<Key, nat>)
    ensures SameTimes((runtimes - gone).Keys, times - gone, times) && SameTimes(runtimes.Keys, times, times)
  {
  }

  lemma SameTime(keys: set<Key>, a: map<Key, nat>, b: map<Key, nat>, k: Key)
    requires SameTimes(keys, a, b) && k in keys
    ensures Stamp(a, k) == Stamp(b, k)
  {
  }
}
