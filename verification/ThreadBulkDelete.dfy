/**
 Planning the deletion of many threads (`scripts/lib/thread-bulk-delete.ts`, 74-207): which
 threads a selector takes, and which worktrees no surviving thread still uses. How titles
 match a pattern with wildcards and how the locale orders text are parameters.
*/
module ThreadBulkDelete {
  import opened Wrappers
  import JsText

  datatype Selector = Selector(folders: seq<string>, titles: seq<string>, titleLikes: seq<string>,
                               threadIds: seq<string>)

  datatype Thread = Thread(id: string, title: string, folder: Option<string>, worktree: Option<string>, cwd: string)

  datatype Candidate = Candidate(thread: Thread, orphaned: Option<string>)

  datatype Removal = Removal(path: string, cwd: string, ids: seq<string>)

  datatype Plan = Plan(candidates: seq<Candidate>, worktrees: seq<Removal>, active: nat, surviving: int)

  /** `matchesTitleLike`, and the place of a text in the locale's order. */
  datatype Locale = Locale(like: (string, string) -> bool, rank: string -> real)

  function RemovalFolder(): string { "PR parity gap (right-view open)" }

  /** `normalizeWorktreePath`. */
  function Normalized(path: Option<string>): Option<string> {
    if path.Some? && JsText.Trim(path.value) != "" then Some(JsText.Trim(path.value)) else None
  }

  /**
   `threadMatchesSelector`: ids decide alone when there are any; otherwise a folder, a title or a pattern is enough.
   */
  predicate Matches(t: Thread, s: Selector, l: Locale) {
    if s.threadIds != [] then t.id in s.threadIds
    else
      || (t.folder.Some? && t.folder.value in s.folders)
      || t.title in s.titles
      || exists p | p in s.titleLikes :: l.like(t.title, p)
  }

  /** With ids the rest of a selector is not looked at. */
  lemma IdsDecide(t: Thread, s: Selector, l: Locale)
    requires s.threadIds != []
    ensures Matches(t, s, l) <==> exists i :: 0 <= i < |s.threadIds| && s.threadIds[i] == t.id
  {
  }

  /** Without ids a selector takes what any of its parts takes: nothing, a folder, a title or a pattern. */
  lemma MatchesIff(t: Thread, s: Selector, l: Locale)
    requires s.threadIds == []
    ensures Matches(t, Selector([], [], [], []), l) == false
    ensures forall f :: Matches(t, Selector([f], [], [], []), l) <==> t.folder == Some(f)
    ensures forall x :: Matches(t, Selector([], [x], [], []), l) <==> t.title == x
    ensures forall p :: Matches(t, Selector([], [], [p], []), l) <==> l.like(t.title, p)
    ensures forall more: Selector | more.threadIds == [] ::
              Matches(t, Selector(s.folders + more.folders, s.titles + more.titles, s.titleLikes + more.titleLikes, []),
                      l)
              <==> Matches(t, s, l) || Matches(t, more, l)
  {
  }

  predicate UniqueIds(threads: seq<Thread>) {
    forall i, j | 0 <= i < j < |threads| :: threads[i].id != threads[j].id
  }

  function Find(threads: seq<Thread>, id: string): Option<Thread> {
    if threads == [] then None else if threads[0].id == id then Some(threads[0]) else Find(threads[1..], id)
  }

  lemma {:induction false} FindUnique(threads: seq<Thread>, t: Thread)
    requires UniqueIds(threads) && t in threads
    ensures Find(threads, t.id) == Some(t)
  {
    if threads[0] != t {
      assert t in threads[1..];
      assert threads[0].id != t.id;
      FindUnique(threads[1..], t);
    }
  }

  /** A thread that may have its worktree removed with it. */
  predicate Removable(t: Thread, path: string) {
    t.folder == Some(RemovalFolder()) && Normalized(t.worktree) == Some(path)
  }

  predicate Uses(t: Thread, path: string) { Normalized(t.worktree) == Some(path) }

  /** `getOrphanedWorktreePathForDeletion`. */
  function Orphaned(threads: seq<Thread>, deleted: set<string>, id: string): Option<string> {
    var target := Find(threads, id);
    if target.None? then None
    else if target.value.folder != Some(RemovalFolder()) then None
    else
      var path := Normalized(target.value.worktree);
      if path.None? then None
      else if exists t | t in threads :: t.id !in deleted && Uses(t, path.value) then None
      else path
  }

  /** A worktree goes when a deleted thread of the removal folder has it and no survivor uses it. */
  predicate Removed(threads: seq<Thread>, deleted: set<string>, path: string) {
    && (exists t | t in threads :: t.id in deleted && Removable(t, path))
    && forall t | t in threads && t.id !in deleted :: !Uses(t, path)
  }

  lemma OrphanedIff(threads: seq<Thread>, deleted: set<string>, t: Thread, path: string)
    requires UniqueIds(threads) && t in threads && t.id in deleted
    ensures Orphaned(threads, deleted, t.id) == Some(path) <==> Removable(t, path) && Removed(threads, deleted, path)
  {
    FindUnique(threads, t);
  }

  // ----------------------------------------------------------------- sorting

  /** A stable sort by rank. */
  function Sorted<T>(items: seq<T>, rank: T -> real): (r: seq<T>)
    ensures multiset(r) == multiset(items)
    ensures forall i, j | 0 <= i < j < |r| :: rank(r[i]) <= rank(r[j])
    decreases |items|
  {
    if items == [] then []
    else
      assert items == items[..|items| - 1] + [items[|items| - 1]];
      Insert(Sorted(items[..|items| - 1], rank), items[|items| - 1], rank)
  }

  function Insert<T>(sorted: seq<T>, x: T, rank: T -> real): (r: seq<T>)
    requires forall i, j | 0 <= i < j < |sorted| :: rank(sorted[i]) <= rank(sorted[j])
    ensures multiset(r) == multiset(sorted) + multiset{x}
    ensures forall i, j | 0 <= i < j < |r| :: rank(r[i]) <= rank(r[j])
    decreases |sorted|
  {
    if sorted == [] || rank(sorted[|sorted| - 1]) <= rank(x) then sorted + [x]
    else
      var rest := Insert(sorted[..|sorted| - 1], x, rank);
      assert sorted == sorted[..|sorted| - 1] + [sorted[|sorted| - 1]];
      InsertBelow(sorted[..|sorted| - 1], x, rest, sorted[|sorted| - 1], rank);
      rest + [sorted[|sorted| - 1]]
  }

  lemma InsertBelow<T>(sorted: seq<T>, x: T, rest: seq<T>, last: T, rank: T -> real)
    requires multiset(rest) == multiset(sorted) + multiset{x} && rank(x) <= rank(last)
    requires forall i | 0 <= i < |sorted| :: rank(sorted[i]) <= rank(last)
    ensures forall i | 0 <= i < |rest| :: rank(rest[i]) <= rank(last)
  {
    forall i | 0 <= i < |rest| ensures rank(rest[i]) <= rank(last) {
      assert rest[i] in multiset(rest);
      if rest[i] != x { assert rest[i] in multiset(sorted); }
    }
  }

  lemma SameElements<T>(a: seq<T>, b: seq<T>)
    requires multiset(a) == multiset(b)
    ensures |a| == |b| && forall x :: x in a <==> x in b
  {
    assert |multiset(a)| == |a| && |multiset(b)| == |b|;
    forall x ensures x in a <==> x in b { assert x in multiset(a) <==> x in multiset(b); }
  }

  predicate Distinct<T(==)>(items: seq<T>) { forall i, j | 0 <= i < j < |items| :: items[i] != items[j] }

  lemma {:induction false} DistinctIsOnce<T>(items: seq<T>, x: T)
    requires Distinct(items)
    ensures multiset(items)[x] <= 1
    decreases |items|
  {
    if items != [] {
      var front, last := items[..|items| - 1], items[|items| - 1];
      DistinctIsOnce(front, x);
      assert items == front + [last];
      if x == last { assert x !in front; }
    }
  }

  /** Putting items in another order repeats none. */
  lemma ReorderedDistinct<T>(items: seq<T>, reordered: seq<T>)
    requires Distinct(items) && multiset(items) == multiset(reordered)
    ensures Distinct(reordered)
  {
    forall i, j | 0 <= i < j < |reordered| ensures reordered[i] != reordered[j] {
      var x := reordered[j];
      DistinctIsOnce(items, x);
      assert reordered == reordered[..j] + ([x] + reordered[j + 1..]);
      assert multiset(reordered)[x] == multiset(reordered[..j])[x] + 1 + multiset(reordered[j + 1..])[x];
      assert reordered[i] == reordered[..j][i];
    }
  }

  // ---------------------------------------------------------------- grouping

  function Chosen(threads: seq<Thread>, s: Selector, l: Locale): (r: seq<Thread>)
    ensures forall t :: t in r <==> t in threads && Matches(t, s, l)
    ensures |r| <= |threads|
  {
    if threads == [] then []
    else if Matches(threads[0], s, l) then [threads[0]] + Chosen(threads[1..], s, l)
    else Chosen(threads[1..], s, l)
  }

  function Ids(threads: seq<Thread>): set<string> { set t | t in threads :: t.id }

  /** One more thread for the path's entry, which is made when there is none. */
  function Noted(removals: seq<Removal>, path: string, t: Thread): seq<Removal> {
    if removals == [] then [Removal(path, t.cwd, [t.id])]
    else if removals[0].path == path then [removals[0].(ids := removals[0].ids + [t.id])] + removals[1..]
    else [removals[0]] + Noted(removals[1..], path, t)
  }

  function Grouped(candidates: seq<Candidate>): seq<Removal> {
    if candidates == [] then []
    else
      var earlier, c := Grouped(candidates[..|candidates| - 1]), candidates[|candidates| - 1];
      if c.orphaned.None? then earlier else Noted(earlier, c.orphaned.value, c.thread)
  }

  function EntryOf(removals: seq<Removal>, path: string): Option<Removal> {
    if removals == [] then None
    else if removals[0].path == path then Some(removals[0]) else EntryOf(removals[1..], path)
  }

  predicate DistinctPaths(removals: seq<Removal>) {
    forall i, j | 0 <= i < j < |removals| :: removals[i].path != removals[j].path
  }

  /** The candidates orphaning this path, in order. */
  function WithPath(candidates: seq<Candidate>, path: string): seq<Candidate> {
    if candidates == [] then []
    else WithPath(candidates[..|candidates| - 1], path)
         + if candidates[|candidates| - 1].orphaned == Some(path) then [candidates[|candidates| - 1]] else []
  }

  function IdsOf(candidates: seq<Candidate>): seq<string> {
    seq(|candidates|, i requires 0 <= i < |candidates| => candidates[i].thread.id)
  }

  lemma {:induction false} NotedEntries(removals: seq<Removal>, path: string, t: Thread, q: string)
    ensures EntryOf(Noted(removals, path, t), q) ==
            if q != path then EntryOf(removals, q)
            else match EntryOf(removals, q)
                 case None => Some(Removal(path, t.cwd, [t.id]))
                 case Some(r) => Some(r.(ids := r.ids + [t.id]))
    ensures forall r | r in Noted(removals, path, t) :: r.path == path || exists o :: o in removals && o.path == r.path
    decreases |removals|
  {
    if removals != [] && removals[0].path != path { NotedEntries(removals[1..], path, t, q); }
  }

  lemma {:induction false} NotedDistinct(removals: seq<Removal>, path: string, t: Thread)
    requires DistinctPaths(removals)
    ensures DistinctPaths(Noted(removals, path, t))
    decreases |removals|
  {
    if removals != [] && removals[0].path != path {
      var rest := removals[1..];
      NotedDistinct(rest, path, t);
      NotedEntries(rest, path, t, path);
      assert forall o | o in rest :: o.path != removals[0].path;
    }
  }

  /** Each path has one entry: all candidates that orphan it, in order, with the first one's project. */
  lemma {:induction false} GroupedEntries(candidates: seq<Candidate>, path: string)
    ensures DistinctPaths(Grouped(candidates))
    ensures var own := WithPath(candidates, path);
            EntryOf(Grouped(candidates), path)
            == if own == [] then None else Some(Removal(path, own[0].thread.cwd, IdsOf(own)))
    decreases |candidates|
  {
    if candidates != [] {
      var earlier, c := candidates[..|candidates| - 1], candidates[|candidates| - 1];
      GroupedEntries(earlier, path);
      if c.orphaned.Some? {
        NotedEntries(Grouped(earlier), c.orphaned.value, c.thread, path);
        NotedDistinct(Grouped(earlier), c.orphaned.value, c.thread);
      }
      var own := WithPath(earlier, path);
      if c.orphaned == Some(path) {
        assert IdsOf(own + [c]) == IdsOf(own) + [c.thread.id];
        if own == [] {
          assert own + [c] == [c] && IdsOf([c]) == [c.thread.id];
        } else {
          assert (own + [c])[0] == own[0];
        }
        assert WithPath(candidates, path) == own + [c];
      }
      else { assert own + [] == own; }
    }
  }

  lemma {:induction false} EntryIsThere(removals: seq<Removal>, path: string)
    ensures EntryOf(removals, path).Some? ==>
              EntryOf(removals, path).value in removals && EntryOf(removals, path).value.path == path
    ensures DistinctPaths(removals) ==> forall r | r in removals && r.path == path :: EntryOf(removals, path) == Some(r)
  {
    if removals != [] {
      EntryIsThere(removals[1..], path);
      if DistinctPaths(removals) { assert forall r | r in removals[1..] :: r.path != removals[0].path; }
    }
  }

  lemma {:induction false} WithPathDistinct(candidates: seq<Candidate>, path: string)
    requires Distinct(IdsOf(candidates))
    ensures Distinct(IdsOf(WithPath(candidates, path)))
    decreases |candidates|
  {
    if candidates != [] {
      var earlier, c := candidates[..|candidates| - 1], candidates[|candidates| - 1];
      assert IdsOf(candidates) == IdsOf(earlier) + [c.thread.id];
      assert forall i | 0 <= i < |earlier| :: IdsOf(candidates)[i] == IdsOf(earlier)[i];
      WithPathDistinct(earlier, path);
      var own := WithPath(earlier, path);
      WithPathIff(earlier, path);
      forall i | 0 <= i < |own| ensures own[i].thread.id != c.thread.id {
        var k :| 0 <= k < |earlier| && earlier[k] == own[i];
        assert IdsOf(candidates)[k] != IdsOf(candidates)[|earlier|];
      }
      assert IdsOf(own + [c]) == IdsOf(own) + [c.thread.id];
      assert forall i | 0 <= i < |own| :: IdsOf(own)[i] == own[i].thread.id;
      assert own + [] == own;
    }
  }

  lemma {:induction false} WithPathIff(candidates: seq<Candidate>, path: string)
    ensures forall c :: c in WithPath(candidates, path) <==> c in candidates && c.orphaned == Some(path)
    decreases |candidates|
  {
    if candidates != [] {
      WithPathIff(candidates[..|candidates| - 1], path);
      assert candidates == candidates[..|candidates| - 1] + [candidates[|candidates| - 1]];
    }
  }

  // -------------------------------------------------------------------- plans

  function Deleted(threads: seq<Thread>, s: Selector, l: Locale): set<string> { Ids(Chosen(threads, s, l)) }

  lemma DeletedIff(threads: seq<Thread>, s: Selector, l: Locale)
    requires UniqueIds(threads)
    ensures forall t | t in threads :: t.id in Deleted(threads, s, l) <==> Matches(t, s, l)
  {
  }

  function Judged(threads: seq<Thread>, deleted: set<string>, chosen: seq<Thread>): (r: seq<Candidate>)
    ensures |r| == |chosen|
            && forall i | 0 <= i < |r| :: r[i] == Candidate(chosen[i], Orphaned(threads, deleted, chosen[i].id))
  {
    seq(|chosen|, i requires 0 <= i < |chosen| => Candidate(chosen[i], Orphaned(threads, deleted, chosen[i].id)))
  }

  function CandidatesOf(threads: seq<Thread>, s: Selector, l: Locale): seq<Candidate> {
    Sorted(Judged(threads, Deleted(threads, s, l), Chosen(threads, s, l)), (c: Candidate) => l.rank(c.thread.title))
  }

  function Planned(threads: seq<Thread>, s: Selector, l: Locale): Plan {
    var candidates := CandidatesOf(threads, s, l);
    Plan(candidates, Sorted(Grouped(candidates), (r: Removal) => l.rank(r.path)), |threads|, |threads| - |candidates|)
  }

  /** The candidates are the matched threads, each with its own verdict. */
  lemma CandidatesAre(threads: seq<Thread>, s: Selector, l: Locale)
    ensures forall c :: c in CandidatesOf(threads, s, l) <==>
              c.thread in threads && Matches(c.thread, s, l)
              && c.orphaned == Orphaned(threads, Deleted(threads, s, l), c.thread.id)
    ensures |CandidatesOf(threads, s, l)| == |Chosen(threads, s, l)|
    ensures Ids(Chosen(threads, s, l)) == set c | c in CandidatesOf(threads, s, l) :: c.thread.id
  {
    var chosen := Chosen(threads, s, l);
    var judged := Judged(threads, Deleted(threads, s, l), chosen);
    SameElements(CandidatesOf(threads, s, l), judged);
    forall c
      ensures c in judged <==>
                c.thread in chosen && c.orphaned == Orphaned(threads, Deleted(threads, s, l), c.thread.id)
    {
      if c.thread in chosen && c.orphaned == Orphaned(threads, Deleted(threads, s, l), c.thread.id) {
        var i :| 0 <= i < |chosen| && chosen[i] == c.thread;
        assert judged[i] == c;
      }
    }
    forall t | t in chosen ensures exists c :: c in CandidatesOf(threads, s, l) && c.thread == t {
      assert Candidate(t, Orphaned(threads, Deleted(threads, s, l), t.id)) in judged;
    }
  }

  /** With unique ids no thread is a candidate twice. */
  lemma CandidatesDistinct(threads: seq<Thread>, s: Selector, l: Locale)
    requires UniqueIds(threads)
    ensures Distinct(IdsOf(CandidatesOf(threads, s, l)))
  {
    ChosenUnique(threads, s, l);
    var chosen, candidates := Chosen(threads, s, l), CandidatesOf(threads, s, l);
    var judged := Judged(threads, Deleted(threads, s, l), chosen);
    assert Distinct(judged) && multiset(judged) == multiset(candidates);
    ReorderedDistinct(judged, candidates);
    CandidatesAre(threads, s, l);
    hide CandidatesOf, Deleted, Orphaned, Matches;
    forall i, j | 0 <= i < j < |candidates| ensures candidates[i].thread.id != candidates[j].thread.id {
      assert candidates[i] in candidates && candidates[j] in candidates;
      assert candidates[i] != candidates[j];
    }
  }

  lemma {:induction false} ChosenUnique(threads: seq<Thread>, s: Selector, l: Locale)
    requires UniqueIds(threads)
    ensures UniqueIds(Chosen(threads, s, l))
  {
    hide Matches;
    if threads != [] {
      ChosenUnique(threads[1..], s, l);
      assert forall t | t in threads[1..] :: t.id != threads[0].id;
    }
  }

  /** The loop that fills `worktreeMap`, asking once more for each candidate's orphan. */
  method GroupCandidates(threads: seq<Thread>, deleted: set<string>,
                         candidates: seq<Candidate>) returns (worktreeMap: seq<Removal>)
    requires forall c | c in candidates :: c.orphaned == Orphaned(threads, deleted, c.thread.id)
    ensures worktreeMap == Grouped(candidates)
  {
    hide Orphaned, Noted;
    worktreeMap := [];
    var i := 0;
    while i < |candidates|
      invariant 0 <= i <= |candidates| && worktreeMap == Grouped(candidates[..i])
    {
      var c := candidates[i];
      assert candidates[..i + 1][..i] == candidates[..i];
      var orphaned := Orphaned(threads, deleted, c.thread.id);
      if orphaned.Some? { worktreeMap := Noted(worktreeMap, orphaned.value, c.thread); }
      i := i + 1;
    }
    assert candidates[..i] == candidates;
  }

  /** `buildThreadBulkDeletePlan`. */
  method BuildPlan(threads: seq<Thread>, s: Selector, l: Locale) returns (plan: Plan)
    ensures plan == Planned(threads, s, l)
  {
    hide CandidatesOf, Matches, Chosen, Ids, Orphaned, Grouped, Sorted;
    var candidates := CandidatesOf(threads, s, l);
    CandidatesAre(threads, s, l);
    var deletedThreadIds := set c | c in candidates :: c.thread.id;
    var worktreeMap := GroupCandidates(threads, deletedThreadIds, candidates);
    return Plan(candidates, Sorted(worktreeMap, (r: Removal) => l.rank(r.path)), |threads|, |threads| - |candidates|);
  }

  /** The thread is in the removal folder, matched, and has the path. */
  predicate Causes(t: Thread, threads: seq<Thread>, s: Selector, l: Locale, path: string) {
    t in threads && Matches(t, s, l) && Removable(t, path)
  }

  lemma RemovedIff(threads: seq<Thread>, s: Selector, l: Locale, path: string)
    requires UniqueIds(threads)
    ensures Removed(threads, Deleted(threads, s, l), path) <==>
              (exists t :: Causes(t, threads, s, l, path))
              && forall t | t in threads && !Matches(t, s, l) :: !Uses(t, path)
  {
    DeletedIff(threads, s, l);
    hide Deleted, Matches, Removable, Uses;
    if t :| Causes(t, threads, s, l, path) { assert t.id in Deleted(threads, s, l); }
    if Removed(threads, Deleted(threads, s, l), path) {
      var t :| t in threads && t.id in Deleted(threads, s, l) && Removable(t, path);
      assert Causes(t, threads, s, l, path);
    }
  }

  /** The candidates grouped under a path are those that cause its removal, if it is removed. */
  lemma GroupedUnder(threads: seq<Thread>, s: Selector, l: Locale, path: string, c: Candidate)
    requires UniqueIds(threads)
    ensures c in WithPath(CandidatesOf(threads, s, l), path) <==>
              && c in CandidatesOf(threads, s, l) && Causes(c.thread, threads, s, l, path)
              && Removed(threads, Deleted(threads, s, l), path)
  {
    WithPathIff(CandidatesOf(threads, s, l), path);
    CandidatesAre(threads, s, l);
    DeletedIff(threads, s, l);
    hide CandidatesOf, Deleted, Matches, Removable, Orphaned;
    if c in CandidatesOf(threads, s, l) { OrphanedIff(threads, Deleted(threads, s, l), c.thread, path); }
  }

  lemma IdsOfIff(candidates: seq<Candidate>, id: string)
    ensures id in IdsOf(candidates) <==> exists c :: c in candidates && c.thread.id == id
  {
    if c :| c in candidates && c.thread.id == id {
      var i :| 0 <= i < |candidates| && candidates[i] == c;
      assert IdsOf(candidates)[i] == id;
    }
  }

  /** A thread that causes a removal is a candidate, and the path's group holds just those. */
  lemma GroupIds(threads: seq<Thread>, s: Selector, l: Locale, path: string, id: string)
    requires UniqueIds(threads) && Removed(threads, Deleted(threads, s, l), path)
    ensures id in IdsOf(WithPath(CandidatesOf(threads, s, l), path)) <==>
              exists t :: Causes(t, threads, s, l, path) && t.id == id
  {
    var own := WithPath(CandidatesOf(threads, s, l), path);
    IdsOfIff(own, id);
    CandidatesAre(threads, s, l);
    hide CandidatesOf, Deleted, Matches, Removable, Removed, Orphaned, IdsOf, WithPath, UniqueIds;
    if t :| Causes(t, threads, s, l, path) && t.id == id {
      GroupedUnder(threads, s, l, path, Candidate(t, Orphaned(threads, Deleted(threads, s, l), t.id)));
    }
    hide Causes;
    if c :| c in own && c.thread.id == id { GroupedUnder(threads, s, l, path, c); }
  }

  /**
   The plan removes a worktree exactly when some matched thread of the removal folder has it and no
   unmatched thread uses it; it names the path once, with exactly the matched threads that cause it,
   each once.
   */
  lemma PlanRemovesOrphans(threads: seq<Thread>, s: Selector, l: Locale, path: string)
    requires UniqueIds(threads)
    ensures var worktrees := Planned(threads, s, l).worktrees;
            && ((exists r :: r in worktrees && r.path == path) <==>
                 ((exists t :: Causes(t, threads, s, l, path))
                  && forall t | t in threads && !Matches(t, s, l) :: !Uses(t, path)))
            && (forall r, id | r in worktrees && r.path == path ::
                  id in r.ids <==> exists t :: Causes(t, threads, s, l, path) && t.id == id)
            && DistinctPaths(worktrees)
            && (forall r | r in worktrees && r.path == path :: Distinct(r.ids))
  {
    EntriesOfPlan(threads, s, l, path);
    RemovedIff(threads, s, l, path);
    CandidatesDistinct(threads, s, l);
    WithPathDistinct(CandidatesOf(threads, s, l), path);
    hide Planned, Causes, Removed, CandidatesOf, WithPath, IdsOf, Uses, Matches, Deleted, UniqueIds;
    forall r, id | r in Planned(threads, s, l).worktrees && r.path == path
      ensures id in r.ids <==> exists t :: Causes(t, threads, s, l, path) && t.id == id
    {
      GroupIds(threads, s, l, path, id);
    }
  }

  lemma EntriesOfPlan(threads: seq<Thread>, s: Selector, l: Locale, path: string)
    requires UniqueIds(threads)
    ensures var worktrees, own := Planned(threads, s, l).worktrees, WithPath(CandidatesOf(threads, s, l), path);
            && ((exists r :: r in worktrees && r.path == path) <==> Removed(threads, Deleted(threads, s, l), path))
            && (forall r | r in worktrees && r.path == path :: r.ids == IdsOf(own))
            && DistinctPaths(worktrees)
  {
    var candidates, worktrees := CandidatesOf(threads, s, l), Planned(threads, s, l).worktrees;
    assert multiset(worktrees) == multiset(Grouped(candidates));
    SameElements(worktrees, Grouped(candidates));
    EntriesOfGroups(candidates, path);
    ReorderedPaths(Grouped(candidates), worktrees);
    OwnIffRemoved(threads, s, l, path);
    hide *;
  }

  lemma EntriesOfGroups(candidates: seq<Candidate>, path: string)
    ensures var grouped, own := Grouped(candidates), WithPath(candidates, path);
            && ((exists r :: r in grouped && r.path == path) <==> own != [])
            && (forall r | r in grouped && r.path == path :: r.ids == IdsOf(own))
            && DistinctPaths(grouped)
  {
    GroupedEntries(candidates, path);
    EntryIsThere(Grouped(candidates), path);
    hide *;
  }

  lemma ReorderedPaths(removals: seq<Removal>, reordered: seq<Removal>)
    requires DistinctPaths(removals) && multiset(removals) == multiset(reordered)
    ensures DistinctPaths(reordered)
  {
    assert Distinct(removals);
    ReorderedDistinct(removals, reordered);
    SameElements(removals, reordered);
    forall i, j | 0 <= i < j < |reordered| ensures reordered[i].path != reordered[j].path {
      assert reordered[i] in removals && reordered[j] in removals;
      EntryIsThere(removals, reordered[i].path);
      EntryIsThere(removals, reordered[j].path);
    }
  }

  lemma OwnIffRemoved(threads: seq<Thread>, s: Selector, l: Locale, path: string)
    requires UniqueIds(threads)
    ensures WithPath(CandidatesOf(threads, s, l), path) != [] <==> Removed(threads, Deleted(threads, s, l), path)
  {
    var own := WithPath(CandidatesOf(threads, s, l), path);
    if own != [] { GroupedUnder(threads, s, l, path, own[0]); }
    if Removed(threads, Deleted(threads, s, l), path) {
      RemovedIff(threads, s, l, path);
      var t :| Causes(t, threads, s, l, path);
      GroupIds(threads, s, l, path, t.id);
    }
  }

  /** What each candidate says of itself agrees with the plan, and no thread is lost from the count. */
  lemma CandidatesAgreeWithPlan(threads: seq<Thread>, s: Selector, l: Locale, c: Candidate)
    requires UniqueIds(threads) && c in Planned(threads, s, l).candidates
    ensures forall path ::
              c.orphaned == Some(path) <==>
                exists r :: r in Planned(threads, s, l).worktrees && r.path == path && c.thread.id in r.ids
    ensures Planned(threads, s, l).surviving == |threads| - |Chosen(threads, s, l)| >= 0
  {
    CandidatesAre(threads, s, l);
    DeletedIff(threads, s, l);
    hide CandidatesOf, Sorted, Grouped, Matches, Removable, Orphaned, Deleted;
    forall path
      ensures c.orphaned == Some(path) <==>
                exists r :: r in Planned(threads, s, l).worktrees && r.path == path && c.thread.id in r.ids
    {
      OrphanedIff(threads, Deleted(threads, s, l), c.thread, path);
      RemovedIff(threads, s, l, path);
      PlanRemovesOrphans(threads, s, l, path);
      CausesItself(threads, s, l, path, c.thread);
    }
  }

  /** With unique ids a thread's id stands for the thread. */
  lemma CausesItself(threads: seq<Thread>, s: Selector, l: Locale, path: string, t: Thread)
    requires UniqueIds(threads) && t in threads
    ensures (exists u :: Causes(u, threads, s, l, path) && u.id == t.id) <==> Causes(t, threads, s, l, path)
  {
  }

  /** A selector that matches more threads never saves a worktree, and removes each with no fewer threads. */
  lemma MoreMatchedMoreRemoved(threads: seq<Thread>, s: Selector, wider: Selector, l: Locale, r: Removal)
    requires UniqueIds(threads) && forall t | t in threads && Matches(t, s, l) :: Matches(t, wider, l)
    requires r in Planned(threads, s, l).worktrees
    ensures exists w ::
              w in Planned(threads, wider, l).worktrees && w.path == r.path && forall id | id in r.ids :: id in w.ids
  {
    PlanRemovesOrphans(threads, s, l, r.path);
    PlanRemovesOrphans(threads, wider, l, r.path);
    hide Planned, Matches, Removable, Uses, UniqueIds, Distinct, DistinctPaths;
    forall t | Causes(t, threads, s, l, r.path) ensures Causes(t, threads, wider, l, r.path) {}
    var w :| w in Planned(threads, wider, l).worktrees && w.path == r.path;
    assert forall id | id in r.ids :: id in w.ids;
  }
}
