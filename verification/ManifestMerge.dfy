/**
 Merging two update manifests, as `scripts/merge-mac-update-manifests.ts` does:
 a partial join of manifests.
 */
module ManifestMerge {
  import opened Wrappers
  import opened JsText
  import opened UpdateManifest
  import opened ManifestRoundTrip

  datatype MergeError = DifferentVersions | ConflictingFile(url: string) | ConflictingExtra(key: string)

  /** The entry of an insertion-ordered `Map` keyed by url. */
  function Lookup(files: seq<File>, url: string): (r: Option<File>)
    ensures r.Some? ==> r.value in files && r.value.url == url
    ensures r.None? ==> forall f | f in files :: f.url != url
  {
    if files == [] then None
    else if files[0].url == url then Some(files[0])
    else Lookup(files[1..], url)
  }

  /** No two entries for one url differ. */
  predicate Consistent(files: seq<File>) {
    forall i, j | 0 <= i < |files| && 0 <= j < |files| && files[i].url == files[j].url :: files[i] == files[j]
  }

  predicate UniqueUrls(files: seq<File>) {
    forall i, j | 0 <= i < j < |files| :: files[i].url != files[j].url
  }

  predicate ExtrasAgree(a: map<string, Scalar>, b: map<string, Scalar>) {
    forall k | k in a && k in b :: a[k] == b[k]
  }

  /** The entries whose url no earlier entry has. */
  function FirstSeen(files: seq<File>): seq<File> {
    if files == [] then []
    else Put(FirstSeen(files[..|files| - 1]), files[|files| - 1])
  }

  /** `Map.set` on a map that holds at most this very entry for the url. */
  function Put(seen: seq<File>, f: File): seq<File> {
    if Lookup(seen, f.url).Some? then seen else seen + [f]
  }

  lemma FirstSeenSnoc(files: seq<File>, f: File)
    ensures FirstSeen(files + [f]) == Put(FirstSeen(files), f)
  {
  }

  /** Each url is kept once, by an entry that was there. */
  lemma {:induction false} FirstSeenFacts(files: seq<File>)
    ensures UniqueUrls(FirstSeen(files))
    ensures forall f | f in FirstSeen(files) :: f in files
    ensures forall f | f in files :: Lookup(FirstSeen(files), f.url).Some?
  {
    if files != [] {
      var init, f := files[..|files| - 1], files[|files| - 1];
      FirstSeenFacts(init);
      assert files == init + [f];
      var r := FirstSeen(init);
      forall g | g in files ensures Lookup(FirstSeen(files), g.url).Some? {
        if g in init && Lookup(r, f.url).None? {
          assert Lookup(r, g.url).value in r + [f];
        }
      }
    }
  }

  function LaterDate(a: string, b: string): string {
    if TextLeq(b, a) then a else b
  }

  predicate Mergeable(a: Manifest, b: Manifest) {
    a.version == b.version && Consistent(a.files + b.files) && ExtrasAgree(a.extras, b.extras)
  }

  /** The join of two mergeable manifests. */
  function Join(a: Manifest, b: Manifest): Manifest {
    Manifest(a.version, LaterDate(a.releaseDate, b.releaseDate), FirstSeen(a.files + b.files), a.extras + b.extras)
  }

  /** `mergeExtras`: the secondary's entries in turn. */
  method MergeExtras(primary: map<string, Scalar>, secondary: map<string, Scalar>)
    returns (r: Result<map<string, Scalar>, MergeError>)
    ensures r.Ok? <==> ExtrasAgree(primary, secondary)
    ensures r.Ok? ==> r.value == primary + secondary
    ensures r.Err? ==>
              exists k | k in primary && k in secondary :: primary[k] != secondary[k] && r.error == ConflictingExtra(k)
  {
    var merged := primary;
    var pending := secondary.Keys;
    while pending != {}
      invariant pending <= secondary.Keys
      invariant merged == primary + (map k | k in secondary && k !in pending :: secondary[k])
      invariant forall k | k in primary && k in secondary && k !in pending :: primary[k] == secondary[k]
      decreases pending
    {
      var key :| key in pending;
      if key in merged && merged[key] != secondary[key] { return Err(ConflictingExtra(key)); }
      merged := merged[key := secondary[key]];
      pending := pending - {key};
    }
    r := Ok(merged);
  }

  /** `mergeMacUpdateManifests`: it succeeds exactly on mergeable manifests, with their join. */
  method MergeManifests(primary: Manifest, secondary: Manifest) returns (r: Result<Manifest, MergeError>)
    ensures r.Ok? <==> Mergeable(primary, secondary)
    ensures r.Ok? ==> r.value == Join(primary, secondary)
    ensures r.Err? && r.error.DifferentVersions? <==> primary.version != secondary.version
    ensures r.Err? && r.error.ConflictingFile? ==>
              exists f, g | f in primary.files + secondary.files && g in primary.files + secondary.files ::
                f.url == g.url == r.error.url && f != g
  {
    if primary.version != secondary.version { return Err(DifferentVersions); }
    var filesByUrl: seq<File> := [];
    var all := primary.files + secondary.files;
    for i := 0 to |all|
      invariant filesByUrl == FirstSeen(all[..i])
      invariant Consistent(all[..i])
    {
      var file := all[i];
      assert all[..i + 1] == all[..i] + [file];
      assert all[..i + 1][..i] == all[..i];
      var existing := Lookup(filesByUrl, file.url);
      if existing.Some? && existing.value != file {
        FirstSeenFacts(all[..i]);
        assert existing.value in all[..i] && file in all;
        return Err(ConflictingFile(file.url));
      }
      SeenConsistent(all[..i], file);
      FirstSeenSnoc(all[..i], file);
      if existing.None? { filesByUrl := filesByUrl + [file]; }
    }
    assert all[..|all|] == all;
    var extras := MergeExtras(primary.extras, secondary.extras);
    if extras.Err? { return Err(extras.error); }
    var releaseDate := if TextLeq(secondary.releaseDate,
                                  primary.releaseDate) then primary.releaseDate else secondary.releaseDate;
    r := Ok(Manifest(primary.version, releaseDate, filesByUrl, extras.value));
  }

  /** A file that agrees with the entry seen first for its url agrees with every earlier one. */
  lemma SeenConsistent(files: seq<File>, f: File)
    requires Consistent(files)
    requires Lookup(FirstSeen(files), f.url).Some? ==> Lookup(FirstSeen(files), f.url).value == f
    ensures Consistent(files + [f])
  {
    FirstSeenFacts(files);
    forall g | g in files && g.url == f.url ensures g == f {
      var seen := Lookup(FirstSeen(files), g.url).value;
      assert seen in files;
    }
  }

  // ------------------------------------------------------------ join algebra

  function Merged(a: Manifest, b: Manifest): Option<Manifest> {
    if Mergeable(a, b) then Some(Join(a, b)) else None
  }

  function Then(m: Option<Manifest>, n: Option<Manifest>): Option<Manifest> {
    if m.Some? && n.Some? then Merged(m.value, n.value) else None
  }

  /** The files seen as a map from url. */
  function FileMap(files: seq<File>): map<string, File> {
    var urls := set f | f in files :: f.url;
    map u | u in urls && Lookup(files, u).Some? :: Lookup(files, u).value
  }

  /** Equal but for the order and the repetition of files. */
  predicate SameContent(a: Manifest, b: Manifest) {
    a.version == b.version && a.releaseDate == b.releaseDate && FileMap(a.files) == FileMap(b.files)
    && a.extras == b.extras
  }

  /** `u` holds everything `m` does and is not older. */
  predicate Includes(u: Manifest, m: Manifest) {
    && u.version == m.version
    && TextLeq(m.releaseDate, u.releaseDate)
    && (forall f | f in m.files :: f in u.files)
    && (forall k | k in m.extras :: k in u.extras && u.extras[k] == m.extras[k])
  }

  lemma ConsistentLookup(files: seq<File>, f: File)
    requires Consistent(files) && f in files
    ensures Lookup(files, f.url) == Some(f)
    ensures f in FirstSeen(files)
  {
    FirstSeenFacts(files);
    var g := Lookup(files, f.url).value;
    var h := Lookup(FirstSeen(files), f.url).value;
    assert g in files && h in files;
  }

  lemma LaterDateLaws(a: string, b: string, c: string)
    ensures LaterDate(a, b) == LaterDate(b, a) && LaterDate(a, a) == a
    ensures LaterDate(LaterDate(a, b), c) == LaterDate(a, LaterDate(b, c))
    ensures TextLeq(a, LaterDate(a, b)) && TextLeq(b, LaterDate(a, b))
    ensures TextLeq(a, c) && TextLeq(b, c) ==> TextLeq(LaterDate(a, b), c)
  {
    TextLeqTotal(a, b); TextLeqTotal(b, c); TextLeqTotal(a, c); TextLeqTotal(a, a); TextLeqTotal(b, b);
    if TextLeq(a, b) && TextLeq(b, a) { TextLeqAntisymmetric(a, b); }
    if TextLeq(b, c) && TextLeq(c, b) { TextLeqAntisymmetric(b, c); }
    if TextLeq(a, c) && TextLeq(c, a) { TextLeqAntisymmetric(a, c); }
    if TextLeq(a, b) && TextLeq(b, c) { TextLeqTransitive(a, b, c); }
    if TextLeq(c, b) && TextLeq(b, a) { TextLeqTransitive(c, b, a); }
  }

  /** The result holds both inputs, once per url. */
  lemma JoinIncludesBoth(a: Manifest, b: Manifest)
    requires Mergeable(a, b)
    ensures Includes(Join(a, b), a) && Includes(Join(a, b), b) && UniqueUrls(Join(a, b).files)
  {
    var all := a.files + b.files;
    forall f | f in all ensures f in FirstSeen(all) { ConsistentLookup(all, f); }
    FirstSeenFacts(all);
    LaterDateLaws(a.releaseDate, b.releaseDate, b.releaseDate);
  }

  /**
   Two manifests can be merged as soon as some consistent manifest holds both, and then the merge is the least such.
   */
  lemma JoinIsLeast(a: Manifest, b: Manifest, u: Manifest)
    requires Consistent(u.files) && Includes(u, a) && Includes(u, b)
    ensures Mergeable(a, b) && Includes(u, Join(a, b))
  {
    var all := a.files + b.files;
    forall i, j | 0 <= i < |all| && 0 <= j < |all| && all[i].url == all[j].url ensures all[i] == all[j] {
      assert all[i] in u.files && all[j] in u.files;
    }
    FirstSeenFacts(all);
    LaterDateLaws(a.releaseDate, b.releaseDate, u.releaseDate);
  }

  /** For consistent files the order of reading does not change the map. */
  lemma FirstSeenMap(files: seq<File>, u: string)
    requires Consistent(files)
    ensures u in FileMap(FirstSeen(files)) <==> exists f :: f in files && f.url == u
    ensures forall f | f in files && f.url == u :: u in FileMap(FirstSeen(files)) && FileMap(FirstSeen(files))[u] == f
  {
    var r := FirstSeen(files);
    FirstSeenFacts(files);
    forall f | f in files && f.url == u ensures u in FileMap(r) && FileMap(r)[u] == f {
      ConsistentLookup(files, f);
      var g := Lookup(r, u).value;
      assert g in r && g in files;
    }
  }

  lemma SameFilesSameMap(a: seq<File>, b: seq<File>)
    requires Consistent(a) && Consistent(b) && forall f :: f in a <==> f in b
    ensures FileMap(FirstSeen(a)) == FileMap(FirstSeen(b))
  {
    var m, n := FileMap(FirstSeen(a)), FileMap(FirstSeen(b));
    forall u ensures u in m <==> u in n {
      FirstSeenMap(a, u);
      FirstSeenMap(b, u);
    }
    forall u | u in m ensures m[u] == n[u] {
      FirstSeenMap(a, u);
      FirstSeenMap(b, u);
    }
  }

  /** Merging is commutative up to the order of files, failure included. */
  lemma MergeCommutes(a: Manifest, b: Manifest)
    ensures Merged(a, b).Some? <==> Merged(b, a).Some?
    ensures Merged(a, b).Some? ==> SameContent(Merged(a, b).value, Merged(b, a).value)
  {
    hide Consistent, FileMap, FirstSeen, LaterDate;
    var ab, ba := a.files + b.files, b.files + a.files;
    assert forall f :: f in ab <==> f in ba;
    SameElementsConsistent(ab, ba);
    if Mergeable(a, b) {
      SameFilesSameMap(ab, ba);
      LaterDateLaws(a.releaseDate, b.releaseDate, b.releaseDate);
      assert a.extras + b.extras == b.extras + a.extras;
    }
  }

  lemma {:induction false} FirstSeenUnique(files: seq<File>)
    requires UniqueUrls(files)
    ensures FirstSeen(files) == files
  {
    if files == [] {
      assert FirstSeen(files) == files;
    } else {
      hide FirstSeen;
      var init, f := files[..|files| - 1], files[|files| - 1];
      assert files == init + [f];
      FirstSeenUnique(init);
      FirstSeenSnoc(init, f);
      assert Lookup(init, f.url).None?;
    }
  }

  lemma {:induction false} FirstSeenLeft(a: seq<File>, b: seq<File>)
    ensures FirstSeen(FirstSeen(a) + b) == FirstSeen(a + b)
    decreases |b|
  {
    hide FirstSeen, Put;
    if b == [] {
      assert a + b == a && FirstSeen(a) + b == FirstSeen(a);
      FirstSeenFacts(a);
      FirstSeenUnique(FirstSeen(a));
    } else {
      var c, f := b[..|b| - 1], b[|b| - 1];
      assert a + b == a + c + [f] && FirstSeen(a) + b == FirstSeen(a) + c + [f];
      FirstSeenLeft(a, c);
      FirstSeenSnoc(a + c, f);
      FirstSeenSnoc(FirstSeen(a) + c, f);
    }
  }

  lemma {:induction false} FirstSeenRight(a: seq<File>, b: seq<File>)
    ensures FirstSeen(a + FirstSeen(b)) == FirstSeen(a + b)
    decreases |b|
  {
    if b == [] {
      assert FirstSeen(b) == b;
    } else {
      hide FirstSeen;
      var c, f := b[..|b| - 1], b[|b| - 1];
      var r := FirstSeen(c);
      assert a + b == a + c + [f] && b == c + [f];
      FirstSeenRight(a, c);
      FirstSeenSnoc(c, f);
      FirstSeenSnoc(a + c, f);
      if Lookup(r, f.url).Some? {
        FirstSeenFacts(c);
        FirstSeenFacts(a + c);
        assert Lookup(r, f.url).value in a + c;
      } else {
        assert a + FirstSeen(b) == a + r + [f];
        FirstSeenSnoc(a + r, f);
      }
    }
  }

  /** The files of a join are consistent with others exactly when the files joined are. */
  lemma FirstSeenConsistent(a: seq<File>, b: seq<File>)
    requires Consistent(a)
    ensures Consistent(FirstSeen(a) + b) <==> Consistent(a + b)
    ensures Consistent(b + FirstSeen(a)) <==> Consistent(b + a)
  {
    forall f | f in a ensures f in FirstSeen(a) { ConsistentLookup(a, f); }
    FirstSeenFacts(a);
    assert forall f :: f in FirstSeen(a) + b <==> f in a + b;
    assert forall f :: f in b + FirstSeen(a) <==> f in b + a;
    SameElementsConsistent(FirstSeen(a) + b, a + b);
    SameElementsConsistent(b + FirstSeen(a), b + a);
  }

  lemma SameElementsConsistent(a: seq<File>, b: seq<File>)
    requires forall f :: f in a <==> f in b
    ensures Consistent(a) <==> Consistent(b)
  {
    if Consistent(a) {
      forall f, g | f in b && g in b && f.url == g.url ensures f == g { assert f in a && g in a; }
    }
    if Consistent(b) {
      forall f, g | f in a && g in a && f.url == g.url ensures f == g { assert f in b && g in b; }
    }
  }

  lemma PartConsistent(a: seq<File>, b: seq<File>, c: seq<File>)
    requires Consistent(a + b + c)
    ensures Consistent(a + b) && Consistent(b + c)
  {
    forall f, g | f in a + b && g in a + b && f.url == g.url ensures f == g { assert f in a + b + c && g in a + b + c; }
    forall f, g | f in b + c && g in b + c && f.url == g.url ensures f == g { assert f in a + b + c && g in a + b + c; }
  }

  lemma ExtrasAgreeAssociates(a: map<string, Scalar>, b: map<string, Scalar>, c: map<string, Scalar>)
    ensures ExtrasAgree(a, b) && ExtrasAgree(a + b, c) <==> ExtrasAgree(b, c) && ExtrasAgree(a, b + c)
    ensures a + b + c == a + (b + c)
  {
  }

  lemma FilesAgreeAssociates(a: seq<File>, b: seq<File>, c: seq<File>)
    ensures Consistent(a + b) && Consistent(FirstSeen(a + b) + c) <==>
              Consistent(b + c) && Consistent(a + FirstSeen(b + c))
    ensures FirstSeen(FirstSeen(a + b) + c) == FirstSeen(a + FirstSeen(b + c))
  {
    hide Consistent, FirstSeen;
    assert a + (b + c) == a + b + c;
    FirstSeenLeft(a + b, c);
    FirstSeenRight(a, b + c);
    if Consistent(a + b) { FirstSeenConsistent(a + b, c); }
    if Consistent(b + c) { FirstSeenConsistent(b + c, a); }
    if Consistent(a + b + c) { PartConsistent(a, b, c); }
  }

  /** Merging is associative, to the very order of files, failure included. */
  lemma MergeAssociates(a: Manifest, b: Manifest, c: Manifest)
    ensures Then(Merged(a, b), Some(c)) == Then(Some(a), Merged(b, c))
  {
    hide Consistent, FirstSeen, LaterDate, ExtrasAgree;
    LaterDateLaws(a.releaseDate, b.releaseDate, c.releaseDate);
    FilesAgreeAssociates(a.files, b.files, c.files);
    ExtrasAgreeAssociates(a.extras, b.extras, c.extras);
  }

  /** Merging a manifest with itself succeeds exactly when its files are consistent, and only drops repeated urls. */
  lemma MergeIdempotent(a: Manifest)
    ensures Merged(a, a).Some? <==> Consistent(a.files)
    ensures Merged(a, a).Some? ==> Merged(a, a).value == a.(files := FirstSeen(a.files))
    ensures UniqueUrls(a.files) ==> Merged(a, a) == Some(a)
  {
    hide FirstSeen, LaterDate;
    LaterDateLaws(a.releaseDate, a.releaseDate, a.releaseDate);
    assert forall f :: f in a.files + a.files <==> f in a.files;
    SameElementsConsistent(a.files + a.files, a.files);
    SeenAgain(a.files, a.files);
    assert a.extras + a.extras == a.extras;
    if UniqueUrls(a.files) { FirstSeenUnique(a.files); }
  }

  lemma {:induction false} SeenAgain(a: seq<File>, b: seq<File>)
    requires forall f | f in b :: f in a
    ensures FirstSeen(a + b) == FirstSeen(a)
    decreases |b|
  {
    hide FirstSeen;
    if b == [] {
      assert a + b == a;
    } else {
      var c, f := b[..|b| - 1], b[|b| - 1];
      assert a + b == a + c + [f];
      SeenAgain(a, c);
      FirstSeenSnoc(a + c, f);
      FirstSeenFacts(a);
      assert f in b;
    }
  }

  function FirstIndex(files: seq<File>, url: string): (i: nat)
    ensures i <= |files| && (i < |files| ==> files[i].url == url)
    ensures forall j | 0 <= j < i :: files[j].url != url
  {
    if files == [] || files[0].url == url then 0 else 1 + FirstIndex(files[1..], url)
  }

  /** `files` are listed in the order in which `all` first mentions their urls, each as first mentioned. */
  predicate InFirstOrder(files: seq<File>, all: seq<File>) {
    && (forall i | 0 <= i < |files| ::
          FirstIndex(all, files[i].url) < |all| && all[FirstIndex(all, files[i].url)] == files[i])
    && (forall i, j | 0 <= i < j < |files| :: FirstIndex(all, files[i].url) < FirstIndex(all, files[j].url))
  }

  lemma FirstIndexSnoc(files: seq<File>, f: File, url: string)
    ensures FirstIndex(files, url) < |files| ==> FirstIndex(files + [f], url) == FirstIndex(files, url)
    ensures FirstIndex(files, url) == |files| ==> FirstIndex(files + [f], url) >= |files|
  {
    var i, j := FirstIndex(files, url), FirstIndex(files + [f], url);
    if i < |files| { assert (files + [f])[i].url == url; }
    if j < |files| { assert files[j].url == (files + [f])[j].url; }
  }

  lemma OrderKept(q: seq<File>, init: seq<File>, f: File)
    requires InFirstOrder(q, init)
    ensures InFirstOrder(q, init + [f])
  {
    hide FirstIndex;
    forall i | 0 <= i < |q| ensures FirstIndex(init + [f], q[i].url) == FirstIndex(init, q[i].url) {
      FirstIndexSnoc(init, f, q[i].url);
    }
  }

  lemma OrderExtended(q: seq<File>, init: seq<File>, f: File)
    requires InFirstOrder(q, init) && forall g | g in init :: g.url != f.url
    ensures InFirstOrder(q + [f], init + [f])
  {
    hide FirstIndex;
    OrderKept(q, init, f);
    forall i | 0 <= i < |q| ensures FirstIndex(init + [f], q[i].url) < |init| { FirstIndexSnoc(init, f, q[i].url); }
    FirstIndexSnoc(init, f, f.url);
    assert FirstIndex(init, f.url) == |init|;
    assert (init + [f])[|init|] == f;
    assert FirstIndex(init + [f], f.url) == |init|;
  }

  /** Files come out in the order their urls were first seen, each as first seen. */
  lemma {:induction false} FirstSeenOrder(files: seq<File>)
    ensures InFirstOrder(FirstSeen(files), files)
  {
    if files != [] {
      var init, f := files[..|files| - 1], files[|files| - 1];
      assert files == init + [f];
      FirstSeenOrder(init);
      FirstSeenSnoc(init, f);
      FirstSeenFacts(init);
      hide InFirstOrder, FirstSeen;
      if Lookup(FirstSeen(init), f.url).Some? {
        OrderKept(FirstSeen(init), init, f);
      } else {
        OrderExtended(FirstSeen(init), init, f);
      }
    }
  }

  /** A merge of well-formed manifests is well formed, so it survives being printed and parsed. */
  lemma MergeKeepsWellFormed(a: Manifest, b: Manifest)
    requires WellFormed(a) && WellFormed(b) && Mergeable(a, b)
    ensures WellFormed(Join(a, b))
    ensures Parsed(Printed(Join(a, b))) == Ok(Join(a, b))
  {
    hide PlainFile, PlainVersion, SingleLine, Parsed, Printed, CleanScalar, IsKey, Reserved, PlainNumber;
    var r := Join(a, b).files;
    var all := a.files + b.files;
    FirstSeenFacts(all);
    forall i | 0 <= i < |r| ensures PlainFile(r[i]) {
      assert r[i] in r && r[i] in all;
    }
    assert r != [] by { assert all[0] in all; }
    RoundTripIff(Join(a, b));
  }
}
