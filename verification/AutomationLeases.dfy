/**
 What the browser manager keeps to tell agent from human
 (`apps/desktop/src/browserManager.ts`, 683-757, 911-934, 3228-3253 and 3356-3472): the
 provenance of side effects, gesture leases, and the inputs an agent has announced.
*/
module AutomationLeases {
  import opened Wrappers
  import opened PopupForest

  // -------------------------------------------------------------- provenance

  /** Everything that bears on whether a download is an agent's. */
  datatype Event = Tracked(key: Key) | HumanControl(thread: ThreadId) | TornDown(key: Key, preserving: bool)

  datatype Provenance = Provenance(thread: ThreadId, epoch: nat)

  /** An event that clears the mark of the key. */
  predicate Clears(e: Event, k: Key) {
    e == HumanControl(k.thread) || e == TornDown(k, false)
  }

  /** A download was tracked for the key, and nothing since has cleared it. */
  predicate Tainted(history: seq<Event>, k: Key) {
    exists i :: 0 <= i < |history| && history[i] == Tracked(k) && forall j | i < j < |history| :: !Clears(history[j], k)
  }

  lemma TaintedMore(history: seq<Event>, e: Event, k: Key)
    ensures Tainted(history + [e], k) <==> e == Tracked(k) || (Tainted(history, k) && !Clears(e, k))
  {
    var more, n := history + [e], |history|;
    assert more[n] == e && forall i | 0 <= i < n :: more[i] == history[i];
    if e == Tracked(k) {
      assert more[n] == Tracked(k);
    } else if Tainted(history, k) && !Clears(e, k) {
      var i :| 0 <= i < n && history[i] == Tracked(k) && forall j | i < j < n :: !Clears(history[j], k);
      assert more[i] == Tracked(k) && forall j | i < j < n + 1 :: !Clears(more[j], k);
    }
    if Tainted(more, k) && e != Tracked(k) {
      var i :| 0 <= i < n + 1 && more[i] == Tracked(k) && forall j | i < j < n + 1 :: !Clears(more[j], k);
      assert !Clears(more[n], k);
      assert history[i] == Tracked(k) && forall j | i < j < n :: !Clears(history[j], k) by {
        forall j | i < j < n ensures !Clears(history[j], k) { assert !Clears(more[j], k); }
      }
    }
  }

  /** How often a human has taken control of the thread. */
  function HumanControls(history: seq<Event>, th: ThreadId): nat {
    if history == [] then 0
    else HumanControls(history[..|history| - 1], th) + if history[|history| - 1] == HumanControl(th) then 1 else 0
  }

  lemma HumanControlsMore(history: seq<Event>, e: Event, th: ThreadId)
    ensures HumanControls(history + [e], th) == HumanControls(history, th) + if e == HumanControl(th) then 1 else 0
  {
  }

  function Epoch(epochs: map<ThreadId, nat>, th: ThreadId): nat { if th in epochs then epochs[th] else 0 }

  /** The marks kept are those of the history, each of its own thread and of the thread's current epoch. */
  ghost predicate ProvenanceOk(history: seq<Event>, epochs: map<ThreadId, nat>, provenance: map<Key, Provenance>) {
    && (forall k :: k in provenance <==> Tainted(history, k))
    && (forall k | k in provenance :: provenance[k] == Provenance(k.thread, Epoch(epochs, k.thread)))
    && (forall th :: Epoch(epochs, th) == HumanControls(history, th))
  }

  lemma ProvenanceTracked(history: seq<Event>, epochs: map<ThreadId, nat>, provenance: map<Key, Provenance>, k: Key)
    requires ProvenanceOk(history, epochs, provenance)
    ensures ProvenanceOk(history + [Tracked(k)], epochs, provenance[k := Provenance(k.thread, Epoch(epochs, k.thread))])
  {
    hide Tainted, HumanControls, Epoch;
    forall j
      ensures Tainted(history + [Tracked(k)], j) <==> j == k || Tainted(history, j)
    {
      TaintedMore(history, Tracked(k), j);
    }
    forall th
      ensures HumanControls(history + [Tracked(k)], th) == HumanControls(history, th)
    {
      HumanControlsMore(history, Tracked(k), th);
    }
  }

  lemma ProvenanceCleared(history: seq<Event>, epochs: map<ThreadId, nat>, provenance: map<Key, Provenance>,
                          th: ThreadId)
    requires ProvenanceOk(history, epochs, provenance)
    ensures ProvenanceOk(history + [HumanControl(th)], epochs[th := Epoch(epochs, th) + 1],
                         map k | k in provenance && k.thread != th :: provenance[k])
  {
    var e, next := HumanControl(th), epochs[th := Epoch(epochs, th) + 1];
    assert forall t :: Epoch(next, t) == Epoch(epochs, t) + if t == th then 1 else 0;
    hide Tainted, HumanControls, Epoch;
    forall k
      ensures Tainted(history + [e], k) <==> Tainted(history, k) && k.thread != th
    {
      TaintedMore(history, e, k);
    }
    forall t
      ensures HumanControls(history + [e], t) == HumanControls(history, t) + if t == th then 1 else 0
    {
      HumanControlsMore(history, e, t);
    }
  }

  lemma ProvenanceTornDown(history: seq<Event>, epochs: map<ThreadId, nat>, provenance: map<Key, Provenance>, key: Key,
                           preserving: bool)
    requires ProvenanceOk(history, epochs, provenance)
    ensures ProvenanceOk(history + [TornDown(key, preserving)], epochs,
                         if preserving then provenance else provenance - {key})
  {
    var e := TornDown(key, preserving);
    hide Tainted, HumanControls, Epoch;
    forall k
      ensures Tainted(history + [e], k) <==> Tainted(history, k) && (preserving || k != key)
    {
      TaintedMore(history, e, k);
    }
    forall th
      ensures HumanControls(history + [e], th) == HumanControls(history, th)
    {
      HumanControlsMore(history, e, th);
    }
  }

  // ---------------------------------------------------------- gesture leases

  type LeaseId = nat

  datatype Lease = Lease(key: Key, released: bool)

  function OpenLeases(leases: map<LeaseId, Lease>, k: Key): set<LeaseId> {
    set l | l in leases && leases[l].key == k && !leases[l].released
  }

  function Depth(depths: map<Key, nat>, k: Key): nat { if k in depths then depths[k] else 0 }

  /**
   The depth never exceeds the leases not yet disposed of, so it is zero once all are; it
   equals them for a key not torn down since it last had none.
   */
  ghost predicate GesturesOk(leases: map<LeaseId, Lease>, depths: map<Key, nat>, torn: set<Key>) {
    && (forall k :: Depth(depths, k) <= |OpenLeases(leases, k)|)
    && (forall k | k !in torn :: Depth(depths, k) == |OpenLeases(leases, k)|)
    && (forall k | k in depths :: depths[k] > 0)
  }

  lemma LeaseOpened(leases: map<LeaseId, Lease>, depths: map<Key, nat>, torn: set<Key>, l: LeaseId, key: Key)
    requires GesturesOk(leases, depths, torn) && l !in leases
    ensures GesturesOk(leases[l := Lease(key, false)], depths[key := Depth(depths, key) + 1], torn)
  {
    var next, deeper := leases[l := Lease(key, false)], depths[key := Depth(depths, key) + 1];
    forall k
      ensures |OpenLeases(next, k)| == |OpenLeases(leases, k)| + if k == key then 1 else 0
    {
      OpenedLeases(leases, l, key, k);
    }
    assert forall k :: Depth(deeper, k) == Depth(depths, k) + if k == key then 1 else 0;
    hide OpenLeases;
  }

  lemma OpenedLeases(leases: map<LeaseId, Lease>, l: LeaseId, key: Key, k: Key)
    requires l !in leases
    ensures |OpenLeases(leases[l := Lease(key, false)], k)| == |OpenLeases(leases, k)| + if k == key then 1 else 0
  {
    var next := leases[l := Lease(key, false)];
    if k == key {
      assert OpenLeases(next, k) == OpenLeases(leases, k) + {l};
    } else {
      assert OpenLeases(next, k) == OpenLeases(leases, k);
    }
  }

  /** `endAutomationGesture`: never below zero, and zero is not kept. */
  function Lowered(depths: map<Key, nat>, k: Key): map<Key, nat> {
    var depth: int := if k in depths then depths[k] else 1;
    if depth - 1 <= 0 then depths - {k} else depths[k := depth - 1]
  }

  lemma LeaseReleased(leases: map<LeaseId, Lease>, depths: map<Key, nat>, torn: set<Key>, l: LeaseId)
    requires GesturesOk(leases, depths, torn) && l in leases && !leases[l].released
    ensures var k, next := leases[l].key, leases[l := Lease(leases[l].key, true)];
            GesturesOk(next, Lowered(depths, k), if OpenLeases(next, k) == {} then torn - {k} else torn)
  {
    var key, next := leases[l].key, leases[l := Lease(leases[l].key, true)];
    forall k ensures OpenLeases(next, k) == if k == key then OpenLeases(leases, k) - {l} else OpenLeases(leases, k) {}
    assert l in OpenLeases(leases, key);
    hide OpenLeases;
    assert forall k ::
             Depth(Lowered(depths, key), k)
             == if k == key && Depth(depths, k) > 0 then Depth(depths, k) - 1 else Depth(depths, k);
  }

  lemma DepthDropped(leases: map<LeaseId, Lease>, depths: map<Key, nat>, torn: set<Key>, key: Key)
    requires GesturesOk(leases, depths, torn)
    ensures GesturesOk(leases, depths - {key}, if OpenLeases(leases, key) == {} then torn - {key} else torn + {key})
  {
  }

  /** With all leases of a key disposed of, in whatever order and however often, no gesture is active. */
  lemma AllReleasedMeansZero(leases: map<LeaseId, Lease>, depths: map<Key, nat>, torn: set<Key>, k: Key)
    requires GesturesOk(leases, depths, torn) && forall l | l in leases && leases[l].key == k :: leases[l].released
    ensures Depth(depths, k) == 0 && k !in depths
  {
  }

  // --------------------------------------------------------- expected inputs

  const EXPECTED_MS := 1_000
  const RELEASE_GRACE_MS := 100
  const MAX_EXPECTED := 64

  datatype MouseType = MouseDown | MouseWheel | ContextMenu
  datatype Button = Left | Middle | Right

  datatype Signal =
    | KeySignal(key: string, alt: bool, control: bool, meta: bool, shift: bool)
    | MouseSignal(mouse: MouseType, x: real, y: real, button: Option<Button>)

  function Lower(c: char): char { if 'A' <= c <= 'Z' then c - 'A' + 'a' else c }

  /** `normalizeAutomationKey`. */
  function NormalizedKey(key: string): string {
    if key == "Space" || key == " " then " " else if |key| == 1 then [Lower(key[0])] else key
  }

  predicate Near(a: real, b: real) { -1.5 <= a - b <= 1.5 }

  /** `browserAutomationInputMatches`: an expectation without a button fits any. */
  predicate Matches(expected: Signal, actual: Signal) {
    match (expected, actual)
    case (KeySignal(k, a, c, m, s), KeySignal(l, b, d, n, t)) => NormalizedKey(k) == NormalizedKey(l) && a == b
    && c == d && m == n && s == t
    case (MouseSignal(k, x, y, e), MouseSignal(l, v, w, f)) => k == l && (e.None? || e == f) && Near(x, v) && Near(y, w)
    case _ => false
  }

  /** Two keys that count as one: the two names of the space bar, or a letter in its two cases. */
  predicate TwoNames(k: string, l: string) {
    (k == "Space" && l == " ") || exists c: char | 'A' <= c <= 'Z' :: k == [c] && l == [c - 'A' + 'a']
  }

  lemma SameKeyIff(k: string, l: string)
    ensures NormalizedKey(k) == NormalizedKey(l) <==> k == l || TwoNames(k, l) || TwoNames(l, k)
  {
    if |k| == 1 && |l| == 1 && k != " " && l != " " {
      SameLetterIff(k[0], l[0]);
      assert k == [k[0]] && l == [l[0]];
    }
  }

  lemma SameLetterIff(c: char, d: char)
    ensures Lower(c) == Lower(d)
            <==> c == d || ('A' <= c <= 'Z' && d == c - 'A' + 'a') || ('A' <= d <= 'Z' && c == d - 'A' + 'a')
  {}

  /** A key fits its two names, with the same modifiers; a click fits near its place, with its button or with any. */
  lemma MatchesIff(expected: Signal, actual: Signal)
    ensures expected.KeySignal? ==>
              (Matches(expected, actual) <==>
               exists k :: actual == expected.(key := k) && (k == expected.key || TwoNames(k, expected.key)
                                                             || TwoNames(expected.key, k)))
    ensures expected.MouseSignal? ==>
              (Matches(expected, actual) <==>
               && actual.MouseSignal? && Within(actual.x - expected.x) && Within(actual.y - expected.y)
               && var moved := actual.(x := expected.x, y := expected.y);
               expected == moved || expected == moved.(button := None))
  {
    if expected.KeySignal? && actual.KeySignal? {
      SameKeyIff(expected.key, actual.key);
      assert actual.(key := expected.key) == expected ==> actual == expected.(key := actual.key);
    }
  }

  /** A pixel and a half, either way. */
  predicate Within(d: real) { d <= 1.5 && -d <= 1.5 }

  datatype Pending = Pending(id: nat, signal: Signal, expiresAt: nat)

  /** What was announced, when, and when its announcer let go of it. */
  datatype Registration = Registration(key: Key, signal: Signal, at: nat, released: Option<nat>)

  /** An input that was taken for the agent's. */
  datatype Consumed = Consumed(id: nat, key: Key, signal: Signal, at: nat)

  type Expected = map<Key, seq<Pending>>
  type Registrations = map<nat, Registration>

  function Min(a: nat, b: nat): nat { if a <= b then a else b }

  /** The moment from which an announcement counts no more. */
  function WindowEnd(r: Registration): nat {
    if r.released.Some? then Min(r.at + EXPECTED_MS, r.released.value + RELEASE_GRACE_MS) else r.at + EXPECTED_MS
  }

  function ListOf(expected: Expected, k: Key): seq<Pending> { if k in expected then expected[k] else [] }

  /** `filter((entry) => entry.expiresAt > now)`. */
  function Live(list: seq<Pending>, now: nat): (r: seq<Pending>)
    ensures |r| <= |list| && forall p | p in r :: p in list && p.expiresAt > now
    ensures forall p | p in list && p.expiresAt > now :: p in r
  {
    if list == [] then []
    else if list[0].expiresAt > now then [list[0]] + Live(list[1..], now) else Live(list[1..], now)
  }

  predicate Ascending(list: seq<Pending>) { forall i, j | 0 <= i < j < |list| :: list[i].id < list[j].id }

  function Ids(list: seq<Pending>): set<nat> { set p | p in list :: p.id }

  /** What was announced for the key, in order, is not spent and still counts. */
  predicate Good(k: Key, i: nat, regs: Registrations, spent: set<nat>, now: nat) {
    i in regs && regs[i].key == k && i !in spent && now < WindowEnd(regs[i])
  }

  /** The entry is an announcement for the key that is not spent, with the window it has now. */
  predicate EntryOk(p: Pending, k: Key, regs: Registrations, spent: set<nat>) {
    && p.id in regs && p.id !in spent && regs[p.id].key == k
    && regs[p.id].signal == p.signal && p.expiresAt == WindowEnd(regs[p.id])
  }

  predicate EntriesOk(list: seq<Pending>, k: Key, regs: Registrations, spent: set<nat>) {
    forall p | p in list :: EntryOk(p, k, regs, spent)
  }

  /** A list kept for a key: 64 entries at most, in order, and every announcement that still counts. */
  ghost predicate ListOk(list: seq<Pending>, k: Key, regs: Registrations, spent: set<nat>, now: nat) {
    && |list| <= MAX_EXPECTED && Ascending(list) && EntriesOk(list, k, regs, spent)
    && (forall i | Good(k, i, regs, spent, now) :: i in Ids(list))
  }

  /** Inputs taken for the agent's, one to one with announcements that match them, each inside its window. */
  predicate ConsumedOk(consumed: seq<Consumed>, regs: Registrations) {
    && (forall i, j | 0 <= i < j < |consumed| :: consumed[i].id != consumed[j].id)
    && forall c | c in consumed :: c.id in regs && InWindow(c, regs[c.id])
  }

  predicate InWindow(c: Consumed, r: Registration) {
    && r.key == c.key && Matches(r.signal, c.signal)
    && r.at <= c.at < r.at + EXPECTED_MS
    && (r.released.Some? && r.released.value <= c.at ==> c.at < r.released.value + RELEASE_GRACE_MS)
  }

  /** The announcements for the same key that came later. */
  function LaterOf(regs: Registrations, i: nat): set<nat>
    requires i in regs
  {
    set j | j in regs && j > i && regs[j].key == regs[i].key
  }

  /** Only an announcement with 64 later ones for its key is ever pushed out. */
  predicate PushedOk(regs: Registrations, pushed: set<nat>) {
    forall i | i in pushed :: i in regs && |LaterOf(regs, i)| >= MAX_EXPECTED
  }

  ghost predicate InputsOk(expected: Expected, regs: Registrations, consumed: seq<Consumed>, spent: set<nat>, now: nat,
                           next: nat) {
    && (forall k :: ListOk(ListOf(expected, k), k, regs, spent, now))
    && ConsumedOk(consumed, regs) && (forall c | c in consumed :: c.id in spent && c.at <= now)
    && (forall i | i in regs :: i < next && regs[i].at <= now)
    && (forall i | i in spent :: i in regs)
  }

  lemma AscendingTail(list: seq<Pending>)
    requires Ascending(list) && list != []
    ensures Ascending(list[1..]) && forall p | p in list[1..] :: list[0].id < p.id
  {
  }

  lemma AscendingCons(p: Pending, rest: seq<Pending>)
    requires Ascending(rest) && forall q | q in rest :: p.id < q.id
    ensures Ascending([p] + rest)
  {
  }

  lemma {:induction false} LiveAscending(list: seq<Pending>, now: nat)
    requires Ascending(list)
    ensures Ascending(Live(list, now))
  {
    hide Ascending;
    if list != [] {
      AscendingTail(list);
      LiveAscending(list[1..], now);
      AscendingCons(list[0], Live(list[1..], now));
    }
  }

  /** Dropping what counts no more leaves a list as good as it was. */
  lemma LiveListOk(list: seq<Pending>, k: Key, regs: Registrations, spent: set<nat>, now: nat)
    requires ListOk(list, k, regs, spent, now)
    ensures ListOk(Live(list, now), k, regs, spent, now)
    ensures forall i :: i in Ids(Live(list, now)) <==> Good(k, i, regs, spent, now)
  {
    LiveAscending(list, now);
    var live := Live(list, now);
    hide Ascending, WindowEnd;
    forall i | Good(k, i, regs, spent, now) ensures i in Ids(live) {
      var p :| p in list && p.id == i;
      assert EntryOk(p, k, regs, spent) && p in live;
    }
    forall i | i in Ids(live) ensures Good(k, i, regs, spent, now) {
      var p :| p in live && p.id == i;
      assert EntryOk(p, k, regs, spent);
    }
  }

  function LastUpTo(list: seq<Pending>, n: nat): seq<Pending> { if |list| <= n then list else list[|list| - n..] }

  lemma {:induction false} IdsCounted(list: seq<Pending>)
    requires Ascending(list)
    ensures |Ids(list)| == |list|
  {
    if list != [] {
      AscendingTail(list);
      hide Ascending;
      IdsCounted(list[1..]);
      assert Ids(list) == {list[0].id} + Ids(list[1..]);
    }
  }

  /** The list once one more is announced. */
  function Appended(live: seq<Pending>, p: Pending): seq<Pending> { LastUpTo(live, MAX_EXPECTED - 1) + [p] }

  /** What no longer fits when one more is announced: the oldest. */
  function PushedOut(live: seq<Pending>): set<nat> { Ids(live) - Ids(LastUpTo(live, MAX_EXPECTED - 1)) }

  /** The last entries of a list are in order. */
  lemma LastAscending(list: seq<Pending>, n: nat)
    requires Ascending(list)
    ensures Ascending(LastUpTo(list, n)) && forall p | p in LastUpTo(list, n) :: p in list
  {
  }

  /** The ids that are not among the last are smaller, and there are none unless the last are as many as may be. */
  lemma LastIds(list: seq<Pending>, n: nat, i: nat)
    requires Ascending(list) && i in Ids(list) - Ids(LastUpTo(list, n))
    ensures |LastUpTo(list, n)| == n && forall j | j in Ids(LastUpTo(list, n)) :: i < j
  {
    var kept := LastUpTo(list, n);
    var m :| 0 <= m < |list| && list[m].id == i;
    assert |list| > n by { assert list[m] in list; }
    hide Ascending, Ids;
    CutIds(list, |list| - n, i, m);
  }

  lemma CutIds(list: seq<Pending>, cut: nat, i: nat, m: nat)
    requires Ascending(list) && cut <= |list| && m < |list| && list[m].id == i && i !in Ids(list[cut..])
    ensures forall j | j in Ids(list[cut..]) :: i < j
  {
    hide Ascending;
    var kept := list[cut..];
    forall o | cut <= o < |list| ensures list[o].id in Ids(kept) { assert kept[o - cut] == list[o]; }
    forall j | j in Ids(kept) ensures i < j {
      var o :| 0 <= o < |kept| && kept[o].id == j;
      InOrder(list, m, cut + o);
    }
  }

  lemma InOrder(list: seq<Pending>, i: nat, j: nat)
    requires Ascending(list) && i < j < |list|
    ensures list[i].id < list[j].id
  {
  }

  lemma PushedHasLater(live: seq<Pending>, k: Key, regs: Registrations, spent: set<nat>, next: nat, r: Registration,
                       i: nat)
    requires Ascending(live) && EntriesOk(live, k, regs, spent) && r.key == k && (forall j | j in regs :: j < next)
    requires i in PushedOut(live)
    ensures i in regs && |LaterOf(regs[next := r], i)| >= MAX_EXPECTED
  {
    var kept := LastUpTo(live, MAX_EXPECTED - 1);
    LastAscending(live, MAX_EXPECTED - 1);
    LastIds(live, MAX_EXPECTED - 1, i);
    IdsCounted(kept);
    EntryIds(live, k, regs, spent);
    assert Ids(kept) <= Ids(live);
    hide LastUpTo, Ascending, Ids, EntriesOk;
    LaterIds(Ids(kept), k, regs, next, r, i);
  }

  lemma LaterIds(ids: set<nat>, k: Key, regs: Registrations, next: nat, r: Registration, i: nat)
    requires |ids| == MAX_EXPECTED - 1 && i in regs && regs[i].key == k == r.key
    requires (forall j | j in regs :: j < next) && forall j | j in ids :: i < j && j in regs && regs[j].key == k
    ensures |LaterOf(regs[next := r], i)| >= MAX_EXPECTED
  {
    var later, all := ids + {next}, LaterOf(regs[next := r], i);
    assert later <= all;
    hide LaterOf;
    SubsetSize(later, all);
  }

  lemma EntryIds(list: seq<Pending>, k: Key, regs: Registrations, spent: set<nat>)
    requires EntriesOk(list, k, regs, spent)
    ensures forall i | i in Ids(list) :: i in regs && regs[i].key == k && i !in spent
  {
    hide WindowEnd;
    forall i | i in Ids(list) ensures i in regs && regs[i].key == k && i !in spent {
      var p :| p in list && p.id == i;
      assert EntryOk(p, k, regs, spent);
    }
  }

  lemma SubsetSize(a: set<nat>, b: set<nat>)
    requires a <= b
    ensures |a| <= |b|
  {
    assert b == a + (b - a);
  }

  /** An announcement is added to what is still live, the oldest making way for it. */
  lemma ListAnnounced(live: seq<Pending>, k: Key, regs: Registrations, spent: set<nat>, now: nat, next: nat,
                      r: Registration)
    requires ListOk(live, k, regs, spent, now) && r.key == k
    requires (forall j | j in regs :: j < next) && (forall j | j in spent :: j in regs)
    ensures ListOk(Appended(live, Pending(next, r.signal, WindowEnd(r))), k, regs[next := r],
                   spent + PushedOut(live), now)
  {
    var kept, added := LastUpTo(live, MAX_EXPECTED - 1), Pending(next, r.signal, WindowEnd(r));
    var more, gone := regs[next := r], spent + PushedOut(live);
    LastAscending(live, MAX_EXPECTED - 1);
    KeptFits(live);
    EntryIds(live, k, regs, spent);
    assert EntryOk(added, k, more, gone);
    KeptEntries(live, kept, k, regs, spent, next, r);
    AscendingSnoc(kept, added);
    IdsSnoc(kept, added);
    assert Appended(live, added) == kept + [added];
    hide LastUpTo, Appended, WindowEnd, Ascending, EntryOk, Ids;
    assert forall i | Good(k, i, more, gone, now) && i != next :: Good(k, i, regs, spent, now) && i in Ids(kept);
  }

  lemma KeptEntries(live: seq<Pending>, kept: seq<Pending>, k: Key, regs: Registrations, spent: set<nat>, next: nat,
                    r: Registration)
    requires EntriesOk(live, k, regs, spent) && (forall p | p in kept :: p in live) && forall j | j in regs :: j < next
    ensures EntriesOk(kept, k, regs[next := r], spent + (Ids(live) - Ids(kept)))
    ensures forall p | p in kept :: p.id < next
  {
    hide WindowEnd;
    forall q | q in kept ensures EntryOk(q, k, regs[next := r], spent + (Ids(live) - Ids(kept))) && q.id < next {
      assert EntryOk(q, k, regs, spent) && q.id in Ids(kept);
    }
  }

  lemma IdsSnoc(list: seq<Pending>, p: Pending)
    ensures Ids(list + [p]) == Ids(list) + {p.id}
  {
    assert p in list + [p] && forall q | q in list :: q in list + [p];
  }

  lemma AscendingSnoc(list: seq<Pending>, p: Pending)
    requires Ascending(list) && forall q | q in list :: q.id < p.id
    ensures Ascending(list + [p])
  {
  }

  /** What concerns one key leaves the list of another as good as it was. */
  lemma OtherList(list: seq<Pending>, j: Key, regs: Registrations, spent: set<nat>, more: Registrations, gone: set<nat>,
                  now: nat)
    requires ListOk(list, j, regs, spent, now)
    requires forall i | i in regs && regs[i].key == j :: i in more && more[i] == regs[i] && (i in gone <==> i in spent)
    requires forall i | i in more && more[i].key == j :: i in regs && regs[i].key == j
    ensures ListOk(list, j, more, gone, now)
  {
    hide Ascending, WindowEnd;
    forall p | p in list ensures EntryOk(p, j, more, gone) { assert EntryOk(p, j, regs, spent); }
    assert forall i | Good(j, i, more, gone, now) :: Good(j, i, regs, spent, now);
  }

  lemma Announced(expected: Expected, regs: Registrations, consumed: seq<Consumed>, spent: set<nat>, now: nat,
                  next: nat,
                  k: Key, signal: Signal)
    requires InputsOk(expected, regs, consumed, spent, now, next)
    ensures var live := Live(ListOf(expected, k), now);
            InputsOk(expected[k := Appended(live, Pending(next, signal, now + EXPECTED_MS))],
                     regs[next := Registration(k, signal, now, None)], consumed, spent + PushedOut(live), now, next + 1)
  {
    var live, r := Live(ListOf(expected, k), now), Registration(k, signal, now, None);
    hide InputsOk, ListOf, Live, Appended, ListOk, PushedOut;
    NewListOk(expected, regs, consumed, spent, now, next, k, r);
    PushedCounted(expected, regs, consumed, spent, now, next, k);
    AnnouncedWith(expected, regs, consumed, spent, now, next, k, r,
                  Appended(live, Pending(next, signal, now + EXPECTED_MS)), spent + PushedOut(live));
  }

  lemma NewListOk(expected: Expected, regs: Registrations, consumed: seq<Consumed>, spent: set<nat>, now: nat,
                  next: nat,
                  k: Key, r: Registration)
    requires InputsOk(expected, regs, consumed, spent, now, next) && r.key == k
    ensures var live := Live(ListOf(expected, k), now);
            ListOk(Appended(live, Pending(next, r.signal, WindowEnd(r))), k, regs[next := r],
                   spent + PushedOut(live), now)
  {
    InputFacts(expected, regs, consumed, spent, now, next, k);
    var live := Live(ListOf(expected, k), now);
    assert ListOk(live, k, regs, spent, now) by { LiveListOk(ListOf(expected, k), k, regs, spent, now); }
    hide *;
    ListAnnounced(live, k, regs, spent, now, next, r);
  }

  lemma InputFacts(expected: Expected, regs: Registrations, consumed: seq<Consumed>, spent: set<nat>, now: nat,
                   next: nat,
                   k: Key)
    requires InputsOk(expected, regs, consumed, spent, now, next)
    ensures ListOk(ListOf(expected, k), k, regs, spent, now)
    ensures (forall i | i in regs :: i < next) && forall i | i in spent :: i in regs
  {
    hide ListOk, ListOf, ConsumedOk;
  }

  lemma AnnouncedWith(expected: Expected, regs: Registrations, consumed: seq<Consumed>, spent: set<nat>, now: nat,
                      next: nat, k: Key, r: Registration, list: seq<Pending>, gone: set<nat>)
    requires InputsOk(expected, regs, consumed, spent, now, next)
    requires r.key == k && r.at <= now && ListOk(list, k, regs[next := r], gone, now)
    requires spent <= gone && forall i | i in gone && i !in spent :: i in regs && regs[i].key == k
    ensures InputsOk(expected[k := list], regs[next := r], consumed, gone, now, next + 1)
  {
    hide ConsumedOk, ListOk;
    ConsumedKept(consumed, regs, next, r);
    OtherLists(expected, expected[k := list], regs, spent, now, k, next, r, gone);
  }

  lemma OtherLists(expected: Expected, after: Expected, regs: Registrations, spent: set<nat>, now: nat, k: Key,
                   next: nat,
                   r: Registration, gone: set<nat>)
    requires (forall j :: ListOk(ListOf(expected, j), j, regs, spent, now)) && r.key == k && next !in regs
    requires forall j | j != k :: ListOf(after, j) == ListOf(expected, j)
    requires spent <= gone && forall i | i in gone && i !in spent :: i in regs && regs[i].key == k
    ensures forall j | j != k :: ListOk(ListOf(after, j), j, regs[next := r], gone, now)
  {
    hide ListOk, ListOf;
    forall j | j != k ensures ListOk(ListOf(after, j), j, regs[next := r], gone, now) {
      OtherList(ListOf(expected, j), j, regs, spent, regs[next := r], gone, now);
    }
  }

  lemma ConsumedKept(consumed: seq<Consumed>, regs: Registrations, next: nat, r: Registration)
    requires ConsumedOk(consumed, regs) && forall i | i in regs :: i < next
    ensures ConsumedOk(consumed, regs[next := r])
  {
    hide InWindow;
  }

  lemma PushedMore(expected: Expected, regs: Registrations, consumed: seq<Consumed>, spent: set<nat>, now: nat,
                   next: nat,
                   k: Key, r: Registration, pushed: set<nat>)
    requires InputsOk(expected, regs, consumed, spent, now, next) && PushedOk(regs, pushed) && r.key == k
    ensures PushedOk(regs[next := r], pushed + PushedOut(Live(ListOf(expected, k), now)))
  {
    var live, more := Live(ListOf(expected, k), now), regs[next := r];
    LiveListOk(ListOf(expected, k), k, regs, spent, now);
    forall i | i in pushed + PushedOut(live) ensures i in more && |LaterOf(more, i)| >= MAX_EXPECTED {
      if i in pushed {
        SubsetSize(LaterOf(regs, i), LaterOf(more, i));
      } else {
        PushedHasLater(live, k, regs, spent, next, r, i);
      }
    }
  }

  lemma PushedReleased(regs: Registrations, pushed: set<nat>, id: nat, at: nat)
    requires PushedOk(regs, pushed) && id in regs
    ensures PushedOk(regs[id := regs[id].(released := Some(at))], pushed)
  {
    var more := regs[id := regs[id].(released := Some(at))];
    forall i | i in pushed ensures i in more && |LaterOf(more, i)| >= MAX_EXPECTED {
      assert LaterOf(more, i) == LaterOf(regs, i);
    }
  }

  function Without(list: seq<Pending>, i: nat): seq<Pending>
    requires i < |list|
  {
    list[..i] + list[i + 1..]
  }

  /** The table with this list for the key; an empty one is not kept. */
  function WithList(expected: Expected, k: Key, list: seq<Pending>): (r: Expected)
    ensures forall j :: ListOf(r, j) == if j == k then list else ListOf(expected, j)
  {
    if list == [] then expected - {k} else expected[k := list]
  }

  /** A live match is used up. */
  lemma ConsumedOne(expected: Expected, regs: Registrations, consumed: seq<Consumed>, spent: set<nat>, now: nat,
                    next: nat, k: Key, i: nat, signal: Signal)
    requires InputsOk(expected, regs, consumed, spent, now, next)
    requires i < |Live(ListOf(expected, k), now)| && Matches(Live(ListOf(expected, k), now)[i].signal, signal)
    ensures var live := Live(ListOf(expected, k), now);
            InputsOk(WithList(expected, k, Without(live, i)), regs,
                     consumed + [Consumed(live[i].id, k, signal, now)], spent + {live[i].id}, now, next)
  {
    var live := Live(ListOf(expected, k), now);
    var rest, p := Without(live, i), live[i];
    var gone, after := spent + {p.id}, WithList(expected, k, rest);
    LiveListOk(ListOf(expected, k), k, regs, spent, now);
    assert p in live && p in ListOf(expected, k) && EntryOk(p, k, regs, spent);
    assert InWindow(Consumed(p.id, k, signal, now), regs[p.id]);
    ListWithout(live, k, regs, spent, now, i);
    hide InWindow, Matches, Live, WindowEnd, Without, WithList, Ids;
    ConsumedMore(consumed, regs, Consumed(p.id, k, signal, now));
    forall j ensures ListOk(ListOf(after, j), j, regs, gone, now) {
      if j != k { OtherList(ListOf(expected, j), j, regs, spent, regs, gone, now); }
    }
  }

  lemma ListWithout(list: seq<Pending>, k: Key, regs: Registrations, spent: set<nat>, now: nat, i: nat)
    requires ListOk(list, k, regs, spent, now) && i < |list|
    ensures ListOk(Without(list, i), k, regs, spent + {list[i].id}, now)
  {
    var rest, id := Without(list, i), list[i].id;
    WithoutAscending(list, i);
    hide Ascending, Without, WindowEnd;
    forall q | q in rest ensures EntryOk(q, k, regs, spent + {id}) { assert EntryOk(q, k, regs, spent); }
    assert forall n | Good(k, n, regs, spent + {id}, now) :: Good(k, n, regs, spent, now) && n in Ids(list);
  }

  lemma WithoutAscending(list: seq<Pending>, i: nat)
    requires Ascending(list) && i < |list|
    ensures Ascending(Without(list, i)) && Ids(Without(list, i)) == Ids(list) - {list[i].id}
    ensures |Without(list, i)| < |list| && forall q | q in Without(list, i) :: q in list && q.id != list[i].id
  {
    var rest := Without(list, i);
    assert forall j | 0 <= j < |rest| :: rest[j] == list[if j < i then j else j + 1];
    forall n | n in Ids(list) && n != list[i].id ensures n in Ids(rest) {
      var j :| 0 <= j < |list| && list[j].id == n;
      assert rest[if j < i then j else j - 1] == list[j];
    }
  }

  lemma ConsumedMore(consumed: seq<Consumed>, regs: Registrations, c: Consumed)
    requires ConsumedOk(consumed, regs) && c.id in regs && InWindow(c, regs[c.id])
             && forall d | d in consumed :: d.id != c.id
    ensures ConsumedOk(consumed + [c], regs)
  {
  }

  /** Dropping what counts no more from one list leaves the tables as good as they were. */
  lemma Pruned(expected: Expected, regs: Registrations, consumed: seq<Consumed>, spent: set<nat>, now: nat, next: nat,
               k: Key)
    requires InputsOk(expected, regs, consumed, spent, now, next)
    ensures InputsOk(WithList(expected, k, Live(ListOf(expected, k), now)), regs, consumed, spent, now, next)
  {
    LiveListOk(ListOf(expected, k), k, regs, spent, now);
    hide ListOk, ConsumedOk;
  }

  /** The one entry's window is cut short; the others stay as they are. */
  function CutShort(list: seq<Pending>, id: nat, end: nat): (r: seq<Pending>)
    ensures |r| == |list|
    ensures forall i | 0 <= i < |list| ::
              r[i] == if list[i].id == id then list[i].(expiresAt := Min(list[i].expiresAt, end)) else list[i]
  {
    seq(|list|, i requires 0 <= i < |list| =>
      if list[i].id == id then list[i].(expiresAt := Min(list[i].expiresAt, end)) else list[i])
  }

  /** Letting an announcement go shortens its window, and the list of its key follows. */
  lemma Released(expected: Expected, regs: Registrations, consumed: seq<Consumed>, spent: set<nat>, now: nat, next: nat,
                 id: nat)
    requires InputsOk(expected, regs, consumed, spent, now, next) && id in regs && regs[id].released.None?
    ensures var k := regs[id].key;
            var list := CutShort(Live(ListOf(expected, k), now), id, now + RELEASE_GRACE_MS);
            InputsOk(WithList(expected, k, list), regs[id := regs[id].(released := Some(now))], consumed, spent, now,
                     next)
  {
    var k, more := regs[id].key, regs[id := regs[id].(released := Some(now))];
    var live := Live(ListOf(expected, k), now);
    LiveListOk(ListOf(expected, k), k, regs, spent, now);
    ListCut(live, regs, spent, now, id);
    var list := CutShort(live, id, now + RELEASE_GRACE_MS);
    var after := WithList(expected, k, list);
    assert ConsumedOk(consumed, more) by { ConsumedReleased(consumed, regs, now, id); }
    hide Live, CutShort, WindowEnd, Ids, ConsumedOk, WithList;
    forall j ensures ListOk(ListOf(after, j), j, more, spent, now) {
      if j != k { OtherList(ListOf(expected, j), j, regs, spent, more, spent, now); }
    }
  }

  lemma ConsumedReleased(consumed: seq<Consumed>, regs: Registrations, now: nat, id: nat)
    requires ConsumedOk(consumed, regs) && id in regs && regs[id].released.None?
             && forall c | c in consumed :: c.at <= now
    ensures ConsumedOk(consumed, regs[id := regs[id].(released := Some(now))])
  {
    hide Matches;
  }

  lemma ListCut(live: seq<Pending>, regs: Registrations, spent: set<nat>, now: nat, id: nat)
    requires id in regs && regs[id].released.None? && ListOk(live, regs[id].key, regs, spent, now)
    ensures ListOk(CutShort(live, id, now + RELEASE_GRACE_MS), regs[id].key,
                   regs[id := regs[id].(released := Some(now))], spent, now)
  {
    var k, more := regs[id].key, regs[id := regs[id].(released := Some(now))];
    var list := CutShort(live, id, now + RELEASE_GRACE_MS);
    assert Ascending(list);
    hide Ascending;
    forall q | q in list ensures EntryOk(q, k, more, spent) {
      var i :| 0 <= i < |list| && list[i] == q;
      assert EntryOk(live[i], k, regs, spent);
    }
    forall n | Good(k, n, more, spent, now) ensures n in Ids(list) {
      assert Good(k, n, regs, spent, now);
      var i :| 0 <= i < |live| && live[i].id == n;
      assert list[i].id == n;
    }
  }

  /** Each announcement has a lease of its own, released with it. */
  predicate AnnouncersOk(announced: map<LeaseId, nat>, leases: map<LeaseId, Lease>, regs: Registrations) {
    && (forall l | l in announced :: l in leases && announced[l] in regs && regs[announced[l]].key == leases[l].key
                                     && (leases[l].released <==> regs[announced[l]].released.Some?))
    && (forall l, m | l in announced && m in announced && announced[l] == announced[m] :: l == m)
  }

  lemma AnnouncersLease(announced: map<LeaseId, nat>, leases: map<LeaseId, Lease>, regs: Registrations, l: LeaseId,
                        key: Key)
    requires AnnouncersOk(announced, leases, regs) && l !in leases
    ensures AnnouncersOk(announced, leases[l := Lease(key, false)], regs) && l !in announced
  {
  }

  lemma OthersReleased(announced: map<LeaseId, nat>, leases: map<LeaseId, Lease>, regs: Registrations, l: LeaseId)
    requires AnnouncersOk(announced, leases, regs) && l in leases && l !in announced
    ensures AnnouncersOk(announced, leases[l := Lease(leases[l].key, true)], regs)
  {
  }

  /** An announcement nobody holds yet. */
  lemma AnnouncersSame(announced: map<LeaseId, nat>, leases: map<LeaseId, Lease>, regs: Registrations, id: nat,
                       r: Registration)
    requires AnnouncersOk(announced, leases, regs) && id !in regs
    ensures AnnouncersOk(announced, leases, regs[id := r]) && forall l | l in announced :: announced[l] != id
  {
  }

  lemma AnnouncerAdded(announced: map<LeaseId, nat>, leases: map<LeaseId, Lease>, regs: Registrations, l: LeaseId,
                       id: nat, key: Key)
    requires AnnouncersOk(announced, leases, regs) && l in leases && leases[l] == Lease(key, false)
    requires id in regs && regs[id].key == key && regs[id].released.None?
    requires forall m | m in announced :: announced[m] != id
    ensures AnnouncersOk(announced[l := id], leases, regs)
  {
  }

  lemma AnnouncedLease(announced: map<LeaseId, nat>, leases: map<LeaseId, Lease>, regs: Registrations, l: LeaseId)
    requires AnnouncersOk(announced, leases, regs) && l in announced
    ensures l in leases && announced[l] in regs && regs[announced[l]].key == leases[l].key
            && (leases[l].released <==> regs[announced[l]].released.Some?)
  {
  }

  lemma AnnouncerReleased(announced: map<LeaseId, nat>, leases: map<LeaseId, Lease>, regs: Registrations, l: LeaseId,
                          now: nat)
    requires AnnouncersOk(announced, leases, regs) && l in announced && l in leases && announced[l] in regs
    ensures AnnouncersOk(announced, leases[l := Lease(leases[l].key, true)],
                         regs[announced[l] := regs[announced[l]].(released := Some(now))])
  {
  }

  /** All that letting an announcement go keeps. */
  lemma ReleasedAll(expected: Expected, regs: Registrations, consumed: seq<Consumed>, spent: set<nat>, pushed: set<nat>,
                    now: nat, next: nat, announced: map<LeaseId, nat>, leases: map<LeaseId, Lease>,
                    depths: map<Key, nat>, torn: set<Key>, l: LeaseId)
    requires InputsOk(expected, regs, consumed, spent, now, next) && PushedOk(regs, pushed)
    requires GesturesOk(leases, depths, torn) && AnnouncersOk(announced, leases, regs)
    requires l in announced && l in leases && !leases[l].released
    ensures announced[l] in regs
    ensures var id, key := announced[l], leases[l].key;
            var list := CutShort(Live(ListOf(expected, key), now), id, now + RELEASE_GRACE_MS);
            var more, after := regs[id := regs[id].(released := Some(now))], leases[l := Lease(key, true)];
            && InputsOk(WithList(expected, key, list), more, consumed, spent, now, next) && PushedOk(more, pushed)
            && GesturesOk(after, Lowered(depths, key), if OpenLeases(after, key) == {} then torn - {key} else torn)
            && AnnouncersOk(announced, after, more)
  {
    AnnouncedLease(announced, leases, regs, l);
    Released(expected, regs, consumed, spent, now, next, announced[l]);
    PushedReleased(regs, pushed, announced[l], now);
    LeaseReleased(leases, depths, torn, l);
    AnnouncerReleased(announced, leases, regs, l, now);
    hide InputsOk, PushedOk, GesturesOk, AnnouncersOk, CutShort, Live, WithList, Lowered, OpenLeases;
  }

  lemma TornDownAll(history: seq<Event>, epochs: map<ThreadId, nat>, provenance: map<Key, Provenance>,
                    leases: map<LeaseId, Lease>, depths: map<Key, nat>, torn: set<Key>, k: Key, preserve: bool)
    requires ProvenanceOk(history, epochs, provenance) && GesturesOk(leases, depths, torn)
    ensures ProvenanceOk(history + [TornDown(k, preserve)], epochs, if preserve then provenance else provenance - {k})
    ensures k !in provenance ==> provenance - {k} == provenance
    ensures GesturesOk(leases, depths - {k}, if OpenLeases(leases, k) == {} then torn - {k} else torn + {k})
  {
    ProvenanceTornDown(history, epochs, provenance, k, preserve);
    DepthDropped(leases, depths, torn, k);
    hide ProvenanceOk, GesturesOk;
  }

  lemma NewInput(expected: Expected, regs: Registrations, consumed: seq<Consumed>, spent: set<nat>, now: nat, next: nat)
    requires InputsOk(expected, regs, consumed, spent, now, next)
    ensures next !in regs
  {
  }

  lemma KeptFits(live: seq<Pending>)
    ensures |LastUpTo(live, MAX_EXPECTED - 1)| < MAX_EXPECTED
  {
  }

  /** All announcements made for the key so far. */
  function AllOf(regs: Registrations, k: Key): set<nat> { set i | i in regs && regs[i].key == k }

  lemma ListDropped(expected: Expected, regs: Registrations, consumed: seq<Consumed>, spent: set<nat>, now: nat,
                    next: nat, k: Key)
    requires InputsOk(expected, regs, consumed, spent, now, next)
    ensures InputsOk(expected - {k}, regs, consumed, spent + AllOf(regs, k), now, next)
  {
    var after, gone := expected - {k}, spent + AllOf(regs, k);
    forall j ensures ListOk(ListOf(after, j), j, regs, gone, now) {
      if j != k { OtherList(ListOf(expected, j), j, regs, spent, regs, gone, now); }
    }
  }

  lemma LaterNow(expected: Expected, regs: Registrations, consumed: seq<Consumed>, spent: set<nat>, now: nat, next: nat,
                 later: nat)
    requires InputsOk(expected, regs, consumed, spent, now, next) && now <= later
    ensures InputsOk(expected, regs, consumed, spent, later, next)
  {
    hide WindowEnd, ConsumedOk, Ids;
    forall k ensures ListOk(ListOf(expected, k), k, regs, spent, later) {
      assert ListOk(ListOf(expected, k), k, regs, spent, now);
      assert forall i | Good(k, i, regs, spent, later) :: Good(k, i, regs, spent, now);
    }
  }

  lemma KeyListOk(expected: Expected, regs: Registrations, consumed: seq<Consumed>, spent: set<nat>, now: nat,
                  next: nat,
                  k: Key)
    requires InputsOk(expected, regs, consumed, spent, now, next)
    ensures ListOk(ListOf(expected, k), k, regs, spent, now)
  {
  }

  /** What is pushed out still counted, and was announced for this key. */
  lemma PushedCounted(expected: Expected, regs: Registrations, consumed: seq<Consumed>, spent: set<nat>, now: nat,
                      next: nat, k: Key)
    requires InputsOk(expected, regs, consumed, spent, now, next)
    ensures forall i | i in PushedOut(Live(ListOf(expected, k), now)) :: Good(k, i, regs, spent, now)
    ensures next !in spent
  {
    LiveListOk(ListOf(expected, k), k, regs, spent, now);
  }

  /** The announcements used up, forgotten or pushed out. */
  function SpentOf(consumed: seq<Consumed>, forgotten: set<nat>, pushed: set<nat>): set<nat> {
    (set c | c in consumed :: c.id) + forgotten + pushed
  }

  lemma SpentMore(consumed: seq<Consumed>, forgotten: set<nat>, pushed: set<nat>, c: Consumed, ids: set<nat>)
    ensures SpentOf(consumed, forgotten + ids, pushed) == SpentOf(consumed, forgotten, pushed) + ids
    ensures SpentOf(consumed, forgotten, pushed + ids) == SpentOf(consumed, forgotten, pushed) + ids
    ensures SpentOf(consumed + [c], forgotten, pushed) == SpentOf(consumed, forgotten, pushed) + {c.id}
  {
    assert c in consumed + [c];
  }

  /** All that one more announcement keeps. */
  lemma AnnouncedAll(expected: Expected, regs: Registrations, consumed: seq<Consumed>, forgotten: set<nat>,
                     pushed: set<nat>, now: nat, next: nat, k: Key, signal: Signal)
    requires InputsOk(expected, regs, consumed, SpentOf(consumed, forgotten, pushed), now, next)
             && PushedOk(regs, pushed)
    ensures var live, r := Live(ListOf(expected, k), now), Registration(k, signal, now, None);
            var more, spent := pushed + PushedOut(live), SpentOf(consumed, forgotten, pushed + PushedOut(live));
            && next !in regs && PushedOk(regs[next := r], more)
            && InputsOk(expected[k := Appended(live, Pending(next, signal, now + EXPECTED_MS))],
                        regs[next := r], consumed, spent, now, next + 1)
            && Good(k, next, regs[next := r], spent, now)
            && |LastUpTo(live, MAX_EXPECTED - 1)| < MAX_EXPECTED
            && forall i | i in PushedOut(live) :: Good(k, i, regs, SpentOf(consumed, forgotten, pushed), now)
  {
    var live, r := Live(ListOf(expected, k), now), Registration(k, signal, now, None);
    var spent := SpentOf(consumed, forgotten, pushed);
    NewInput(expected, regs, consumed, spent, now, next);
    PushedCounted(expected, regs, consumed, spent, now, next, k);
    Announced(expected, regs, consumed, spent, now, next, k, signal);
    PushedMore(expected, regs, consumed, spent, now, next, k, r, pushed);
    KeptFits(live);
    SpentMore(consumed, forgotten, pushed, Consumed(0, k, signal, 0), PushedOut(live));
    assert next !in PushedOut(live) by { assert forall i | i in PushedOut(live) :: Good(k, i, regs, spent, now); }
    hide InputsOk, PushedOk, SpentOf, PushedOut, Live, LastUpTo, Appended;
  }

  lemma ForgottenAll(expected: Expected, regs: Registrations, consumed: seq<Consumed>, forgotten: set<nat>,
                     pushed: set<nat>, now: nat, next: nat, k: Key)
    requires InputsOk(expected, regs, consumed, SpentOf(consumed, forgotten, pushed), now, next)
    ensures InputsOk(expected - {k}, regs, consumed, SpentOf(consumed, forgotten + AllOf(regs, k), pushed), now, next)
  {
    ListDropped(expected, regs, consumed, SpentOf(consumed, forgotten, pushed), now, next, k);
    SpentMore(consumed, forgotten, pushed, Consumed(0, k, KeySignal("", false, false, false, false), 0),
              AllOf(regs, k));
    hide InputsOk, SpentOf, AllOf;
  }

  lemma ConsumedAll(expected: Expected, regs: Registrations, consumed: seq<Consumed>, forgotten: set<nat>,
                    pushed: set<nat>, now: nat, next: nat, k: Key, i: nat, signal: Signal)
    requires InputsOk(expected, regs, consumed, SpentOf(consumed, forgotten, pushed), now, next)
    requires i < |Live(ListOf(expected, k), now)| && Matches(Live(ListOf(expected, k), now)[i].signal, signal)
    ensures var live := Live(ListOf(expected, k), now);
            var c := Consumed(live[i].id, k, signal, now);
            InputsOk(WithList(expected, k, Without(live, i)), regs, consumed + [c],
                     SpentOf(consumed + [c], forgotten, pushed), now, next)
  {
    var live := Live(ListOf(expected, k), now);
    ConsumedOne(expected, regs, consumed, SpentOf(consumed, forgotten, pushed), now, next, k, i, signal);
    SpentMore(consumed, forgotten, pushed, Consumed(live[i].id, k, signal, now), {});
    hide InputsOk, SpentOf, Matches, Live, WithList, Without;
  }

  /** Of the entries that match, the first is the oldest announcement that still counts. */
  lemma FirstIsOldest(list: seq<Pending>, k: Key, regs: Registrations, spent: set<nat>, now: nat, signal: Signal,
                      i: nat)
    requires ListOk(list, k, regs, spent, now) && i <= |Live(list, now)|
    requires forall j | 0 <= j < i :: !Matches(Live(list, now)[j].signal, signal)
    ensures var live := Live(list, now);
            && (forall n | Good(k, n, regs, spent, now) && Matches(regs[n].signal, signal) ::
                  i < |live| && live[i].id <= n)
            && (i < |live| ==> Good(k, live[i].id, regs, spent, now) && regs[live[i].id].signal == live[i].signal)
  {
    var live := Live(list, now);
    LiveListOk(list, k, regs, spent, now);
    hide Matches, Live, ListOk, Good, EntriesOk;
    if i < |live| { EntryCounts(live, k, regs, spent, now, i); }
    forall n | Good(k, n, regs, spent, now) && Matches(regs[n].signal, signal) ensures i < |live| && live[i].id <= n {
      NotEarlier(live, k, regs, spent, now, signal, i, n);
    }
  }

  lemma EntryCounts(live: seq<Pending>, k: Key, regs: Registrations, spent: set<nat>, now: nat, i: nat)
    requires ListOk(live, k, regs, spent, now) && i < |live|
    requires forall n :: n in Ids(live) <==> Good(k, n, regs, spent, now)
    ensures Good(k, live[i].id, regs, spent, now) && regs[live[i].id].signal == live[i].signal
  {
    hide WindowEnd, Ascending;
    assert EntryOk(live[i], k, regs, spent) && live[i].id in Ids(live);
  }

  lemma NotEarlier(live: seq<Pending>, k: Key, regs: Registrations, spent: set<nat>, now: nat, signal: Signal, i: nat,
                   n: nat)
    requires ListOk(live, k, regs, spent, now) && n in Ids(live) && n in regs && Matches(regs[n].signal, signal)
    requires i <= |live| && forall j | 0 <= j < i :: !Matches(live[j].signal, signal)
    ensures i < |live| && live[i].id <= n
  {
    hide Matches, EntriesOk, Good;
    var j := EntryAt(live, k, regs, spent, n);
    assert j >= i;
  }

  lemma EntryAt(list: seq<Pending>, k: Key, regs: Registrations, spent: set<nat>, i: nat) returns (j: nat)
    requires EntriesOk(list, k, regs, spent) && i in Ids(list)
    ensures j < |list| && list[j].id == i && i in regs && regs[i].signal == list[j].signal
  {
    hide WindowEnd;
    j :| 0 <= j < |list| && list[j].id == i;
    assert EntryOk(list[j], k, regs, spent);
  }

  // ------------------------------------------------------------- the manager

  class Leases {
    var epochs: map<ThreadId, nat>
    var provenance: map<Key, Provenance>
    var depths: map<Key, nat>
    var leases: map<LeaseId, Lease>
    var expected: Expected
    /** The input a lease was taken for, if any. */
    var announced: map<LeaseId, nat>
    var now: nat
    var nextLease: LeaseId
    var nextInput: nat
    ghost var history: seq<Event>
    ghost var torn: set<Key>
    ghost var registrations: Registrations
    ghost var consumed: seq<Consumed>
    /** Announcements forgotten with their page, and those pushed out by later ones. */
    ghost var forgotten: set<nat>
    ghost var pushed: set<nat>

    ghost function Spent(): set<nat>
      reads `consumed, `forgotten, `pushed
    {
      SpentOf(consumed, forgotten, pushed)
    }

    /** The announcement still counts: not used up, forgotten or pushed out, and inside its window. */
    ghost predicate Counts(key: Key, i: nat)
      reads `registrations, `consumed, `forgotten, `pushed, `now
    {
      Good(key, i, registrations, Spent(), now)
    }

    ghost predicate Valid()
      reads this
    {
      && ProvenanceOk(history, epochs, provenance)
      && GesturesOk(leases, depths, torn)
      && (forall l | l in leases :: l < nextLease)
      && InputsOk(expected, registrations, consumed, Spent(), now, nextInput)
      && PushedOk(registrations, pushed)
      && AnnouncersOk(announced, leases, registrations)
    }

    constructor ()
      ensures Valid() && history == [] && leases == map[] && consumed == [] && registrations == map[]
    {
      epochs, provenance, depths, leases, expected, announced := map[], map[], map[], map[], map[], map[];
      now, nextLease, nextInput := 0, 0, 0;
      history, torn, registrations, consumed, forgotten, pushed := [], {}, map[], [], {}, {};
    }

    /** `beginAutomationGesture`, under a lease of its own. */
    method BeginGesture(key: Key) returns (l: LeaseId)
      requires Valid()
      modifies `depths, `leases, `nextLease
      ensures Valid() && l !in old(leases) && leases == old(leases)[l := Lease(key, false)]
      ensures Depth(depths, key) == Depth(old(depths), key) + 1
    {
      hide ProvenanceOk, GesturesOk, InputsOk, PushedOk, SpentOf;
      l := nextLease;
      LeaseOpened(leases, depths, torn, l, key);
      AnnouncersLease(announced, leases, registrations, l, key);
      hide AnnouncersOk;
      depths := depths[key := Depth(depths, key) + 1];
      leases := leases[l := Lease(key, false)];
      nextLease := nextLease + 1;
    }

    /** Disposing of a lease; a second time is nothing. */
    method EndGesture(l: LeaseId)
      requires Valid() && l in leases && l !in announced
      modifies `depths, `leases, `torn
      ensures Valid() && leases == old(leases)[l := Lease(old(leases)[l].key, true)]
      ensures old(leases)[l].released ==> depths == old(depths)
      ensures !old(leases)[l].released ==> depths == Lowered(old(depths), old(leases)[l].key)
    {
      hide ProvenanceOk, GesturesOk, InputsOk, PushedOk, SpentOf;
      if leases[l].released {
        assert leases[l := Lease(leases[l].key, true)] == leases;
        return;
      }
      LeaseReleased(leases, depths, torn, l);
      var key := leases[l].key;
      OthersReleased(announced, leases, registrations, l);
      hide AnnouncersOk;
      leases := leases[l := Lease(key, true)];
      depths := Lowered(depths, key);
      if OpenLeases(leases, key) == {} { torn := torn - {key}; }
    }

    /** `trackAutomationDownload`. */
    method TrackDownload(key: Key) returns (l: LeaseId)
      requires Valid()
      modifies `provenance, `history, `depths, `leases, `nextLease
      ensures Valid() && history == old(history) + [Tracked(key)]
      ensures l !in old(leases) && leases == old(leases)[l := Lease(key, false)]
              && Depth(depths, key) == Depth(old(depths), key) + 1
    {
      hide ProvenanceOk, GesturesOk, InputsOk, AnnouncersOk, PushedOk, SpentOf;
      ProvenanceTracked(history, epochs, provenance, key);
      provenance := provenance[key := Provenance(key.thread, Epoch(epochs, key.thread))];
      history := history + [Tracked(key)];
      l := BeginGesture(key);
    }

    /** `markHumanControl`. */
    method MarkHumanControl(th: ThreadId)
      requires Valid()
      modifies `epochs, `provenance, `history
      ensures Valid() && history == old(history) + [HumanControl(th)]
      ensures Epoch(epochs, th) == Epoch(old(epochs), th) + 1
    {
      hide ProvenanceOk, GesturesOk, InputsOk, AnnouncersOk, PushedOk, SpentOf;
      ProvenanceCleared(history, epochs, provenance, th);
      epochs := epochs[th := Epoch(epochs, th) + 1];
      provenance := map k | k in provenance && k.thread != th :: provenance[k];
      history := history + [HumanControl(th)];
    }

    /**
     The part of `destroyRuntime` that concerns leases; tracking is preserved when asked for and
     when there is something to preserve, a download listener or a mark.
     */
    method TearDown(key: Key, preserve: bool, hasDownloadListener: bool)
      requires Valid()
      modifies `expected, `depths, `torn, `provenance, `history, `forgotten
      ensures Valid() && history == old(history) + [TornDown(key, preserve)]
      ensures key !in expected && forgotten == old(forgotten) + AllOf(registrations, key)
      ensures depths
               == if preserve && (hasDownloadListener || key in old(provenance)) then old(depths)
                  else old(depths) - {key}
    {
      hide ProvenanceOk, GesturesOk, InputsOk, AnnouncersOk, AllOf, OpenLeases;
      var preserved := preserve && (hasDownloadListener || key in provenance);
      TornDownAll(history, epochs, provenance, leases, depths, torn, key, preserve);
      ForgetInputs(key);
      if !preserved {
        depths := depths - {key};
        torn := if OpenLeases(leases, key) == {} then torn - {key} else torn + {key};
        provenance := provenance - {key};
      }
      history := history + [TornDown(key, preserve)];
    }

    /** Drops the announcements of the key. */
    method ForgetInputs(key: Key)
      requires Valid()
      modifies `expected, `forgotten
      ensures Valid() && key !in expected && forgotten == old(forgotten) + AllOf(registrations, key)
    {
      hide ProvenanceOk, GesturesOk, InputsOk, AnnouncersOk, AllOf, SpentOf, PushedOk;
      ForgottenAll(expected, registrations, consumed, forgotten, pushed, now, nextInput, key);
      forgotten := forgotten + AllOf(registrations, key);
      expected := expected - {key};
    }

    /**
     `handleSessionDownload` for a page that belongs to `context`: agents' downloads are prevented, and only those.
     */
    method HandleDownload(context: Option<Key>) returns (prevented: bool)
      requires Valid()
      ensures prevented <==> context.Some? && Tainted(history, context.value)
    {
      hide GesturesOk, InputsOk, Tainted;
      if context.None? { return false; }
      var key := context.value;
      // Every mark kept is of the current epoch, so the second comparison never decides.
      return key in provenance && provenance[key].epoch == Epoch(epochs, key.thread);
    }

    /** `isAutomationGestureActive`. */
    method GestureActive(key: Key) returns (active: bool)
      requires Valid()
      ensures active ==> exists l :: l in leases && leases[l] == Lease(key, false)
      ensures key !in torn ==> (active <==> OpenLeases(leases, key) != {})
    {
      hide ProvenanceOk, InputsOk;
      active := Depth(depths, key) > 0;
      if active {
        assert |OpenLeases(leases, key)| > 0;
        var l :| l in OpenLeases(leases, key);
        assert leases[l] == Lease(key, false);
      }
    }

    /** The announcement of an input, with at most 63 others of its key. */
    method Announce(key: Key, signal: Signal) returns (id: nat)
      requires Valid()
      modifies `expected, `registrations, `nextInput, `pushed
      ensures Valid() && id !in old(registrations) && forall l | l in announced :: announced[l] != id
      ensures registrations == old(registrations)[id := Registration(key, signal, now, None)]
      ensures key in expected && |expected[key]| <= MAX_EXPECTED
              && Pending(id, signal, now + EXPECTED_MS) in expected[key]
      ensures Counts(key, id)
      ensures old(pushed) <= pushed && forall i | i in pushed && i !in old(pushed) :: old(Counts(key, i))
    {
      hide ProvenanceOk, GesturesOk, InputsOk, AnnouncersOk, Live, LastUpTo, PushedOk, PushedOut, SpentOf, Good;
      id := nextInput;
      AnnouncedAll(expected, registrations, consumed, forgotten, pushed, now, nextInput, key, signal);
      AnnouncersSame(announced, leases, registrations, id, Registration(key, signal, now, None));
      pushed := pushed + PushedOut(Live(ListOf(expected, key), now));
      var kept := LastUpTo(Live(ListOf(expected, key), now), MAX_EXPECTED - 1);
      expected := expected[key := kept + [Pending(id, signal, now + EXPECTED_MS)]];
      registrations := registrations[id := Registration(key, signal, now, None)];
      nextInput := nextInput + 1;
    }

    /** `expectAutomationInput`. */
    method ExpectInput(key: Key, signal: Signal) returns (l: LeaseId)
      requires Valid()
      modifies `expected, `registrations, `announced, `nextInput, `depths, `leases, `nextLease, `pushed
      ensures Valid() && l !in old(leases) && leases == old(leases)[l := Lease(key, false)] && l in announced
      ensures Depth(depths, key) == Depth(old(depths), key) + 1
      ensures announced[l] !in old(registrations) && announced == old(announced)[l := announced[l]]
              && registrations == old(registrations)[announced[l] := Registration(key, signal, now, None)]
      ensures key in expected && |expected[key]| <= MAX_EXPECTED
              && Pending(announced[l], signal, now + EXPECTED_MS) in expected[key]
      ensures Counts(key, announced[l])
      ensures old(pushed) <= pushed && forall i | i in pushed && i !in old(pushed) :: old(Counts(key, i))
    {
      hide ProvenanceOk, GesturesOk, InputsOk, AnnouncersOk, PushedOk, SpentOf, Good;
      var id := Announce(key, signal);
      l := BeginGesture(key);
      AnnouncerAdded(announced, leases, registrations, l, id, key);
      announced := announced[l := id];
    }

    /**
     The function `expectAutomationInput` returns: the announcement stays good for a short while, its gesture ends at
     once.
     */
    method ReleaseInput(l: LeaseId)
      requires Valid() && l in announced
      modifies `expected, `registrations, `depths, `leases, `torn
      ensures Valid() && leases == old(leases)[l := Lease(old(leases)[l].key, true)]
      ensures old(leases)[l].released ==>
                depths == old(depths) && expected == old(expected) && registrations == old(registrations)
      ensures !old(leases)[l].released ==>
                && depths == Lowered(old(depths), old(leases)[l].key)
                && registrations
                   == old(registrations)[announced[l] := old(registrations)[announced[l]].(released := Some(now))]
    {
      hide ProvenanceOk, GesturesOk, InputsOk, AnnouncersOk, Lowered, OpenLeases, Live, CutShort, WithList, PushedOk,
           SpentOf;
      AnnouncedLease(announced, leases, registrations, l);
      if leases[l].released {
        assert leases[l := Lease(leases[l].key, true)] == leases;
        return;
      }
      var id, key := announced[l], leases[l].key;
      ReleasedAll(expected, registrations, consumed, Spent(), pushed, now, nextInput, announced, leases, depths, torn,
                  l);
      var remaining := CutShort(Live(ListOf(expected, key), now), id, now + RELEASE_GRACE_MS);
      expected := WithList(expected, key, remaining);
      registrations := registrations[id := registrations[id].(released := Some(now))];
      leases := leases[l := Lease(key, true)];
      depths := Lowered(depths, key);
      if OpenLeases(leases, key) == {} { torn := torn - {key}; }
    }

    /**
     `consumeExpectedAutomationInput`: true exactly when a live announcement matches, of which the oldest is used up.
     */
    method ConsumeInput(key: Key, signal: Signal) returns (agent: bool)
      requires Valid()
      modifies `expected, `consumed
      ensures Valid()
      ensures agent <==> exists i :: old(Counts(key, i)) && Matches(registrations[i].signal, signal)
      ensures !agent ==> consumed == old(consumed)
      ensures agent ==>
                exists i ::
                  && old(Counts(key, i)) && Matches(registrations[i].signal, signal)
                  && consumed == old(consumed) + [Consumed(i, key, signal, now)]
                  && forall j | old(Counts(key, j)) && Matches(registrations[j].signal, signal) :: i <= j
    {
      hide ProvenanceOk, GesturesOk, InputsOk, Matches, AnnouncersOk, ListOk, WithList, PushedOk, SpentOf, Good, Live,
           Without;
      var live := Live(ListOf(expected, key), now);
      KeyListOk(expected, registrations, consumed, Spent(), now, nextInput, key);
      var i := 0;
      while i < |live| && !Matches(live[i].signal, signal)
        invariant 0 <= i <= |live| && forall j | 0 <= j < i :: !Matches(live[j].signal, signal)
      {
        i := i + 1;
      }
      FirstIsOldest(ListOf(expected, key), key, registrations, Spent(), now, signal, i);
      if i == |live| {
        Pruned(expected, registrations, consumed, Spent(), now, nextInput, key);
        expected := WithList(expected, key, live);
        return false;
      }
      ConsumedAll(expected, registrations, consumed, forgotten, pushed, now, nextInput, key, i, signal);
      expected := WithList(expected, key, Without(live, i));
      consumed := consumed + [Consumed(live[i].id, key, signal, now)];
      return true;
    }

    /** An input on a page: the agent's if it was announced, and otherwise human control of the thread. */
    method ObserveInput(key: Key, signal: Signal) returns (agent: bool)
      requires Valid()
      modifies `expected, `consumed, `epochs, `provenance, `history
      ensures Valid()
      ensures agent <==> exists i :: old(Counts(key, i)) && Matches(registrations[i].signal, signal)
      ensures history == if agent then old(history) else old(history) + [HumanControl(key.thread)]
      ensures !agent ==> !Tainted(history, key)
    {
      hide ProvenanceOk, GesturesOk, InputsOk, Matches, AnnouncersOk, Tainted, Good, SpentOf, PushedOk;
      agent := ConsumeInput(key, signal);
      if !agent {
        TaintedMore(history, HumanControl(key.thread), key);
        MarkHumanControl(key.thread);
      }
    }

    method Advance(later: nat)
      requires Valid() && now <= later
      modifies `now
      ensures Valid() && now == later
    {
      hide ProvenanceOk, GesturesOk, InputsOk, SpentOf;
      LaterNow(expected, registrations, consumed, Spent(), now, nextInput, later);
      now := later;
    }
  }
}
