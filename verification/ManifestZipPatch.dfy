/**
 Patching one zip's digest and size in the manifest text, as
 `scripts/lib/mac-update-zip.ts` does after repacking, judged against the parser
 and the printer.
 */
module ManifestZipPatch {
  import opened Wrappers
  import opened JsText
  import opened UpdateManifest
  import opened ManifestRoundTrip

  datatype Metadata = Metadata(sha512: string, size: nat)

  datatype PatchError = EntryNotUpdated | TopLevelShaNotUpdated

  datatype Flags = Flags(
    inTarget: bool, found: bool, shaUpdated: bool, sizeUpdated: bool,
    pathMatches: bool, pathFound: bool, topShaUpdated: bool)

  const IDLE := Flags(false, false, false, false, false, false, false)

  function ShaLine(meta: Metadata): string { "    sha512: " + meta.sha512 }

  function SizeLine(meta: Metadata): string { "    size: " + PrintNumber(meta.size) }

  function TopShaLine(meta: Metadata): string { "sha512: " + meta.sha512 }

  function UrlOf(line: string): Option<string> { MatchField(line, "  - url:") }

  function ShaOf(line: string): Option<string> { MatchField(line, "    sha512:") }

  function SizeOf(line: string): Option<string> { MatchDigits(line, "    size:") }

  function BlockMapSizeOf(line: string): Option<string> { MatchDigits(line, "    blockMapSize:") }

  function PathOf(line: string): Option<string> { MatchField(line, "path:") }

  function TopShaOf(line: string): Option<string> { MatchField(line, "sha512:") }

  /** One line of the walk: the new flags and the lines put in its place. */
  function PatchLine(s: Flags, line: string, zip: string, meta: Metadata): (Flags, seq<string>) {
    if UrlOf(line).Some? then
      var target := Reread(UrlOf(line).value) == zip;
      (s.(inTarget := target, found := s.found || target), [line])
    else if s.inTarget && ShaOf(line).Some? then (s.(shaUpdated := true), [ShaLine(meta)])
    else if s.inTarget && SizeOf(line).Some? then (s.(sizeUpdated := true), [SizeLine(meta)])
    else if s.inTarget && BlockMapSizeOf(line).Some? then (s, [])
    else if PathOf(line).Some? then
      var matches := Reread(PathOf(line).value) == zip;
      (s.(pathMatches := matches, pathFound := s.pathFound || matches), [line])
    else if s.pathMatches && TopShaOf(line).Some? then
      (s.(topShaUpdated := true, pathMatches := false), [TopShaLine(meta)])
    else (s, [line])
  }

  function PatchFrom(s: Flags, lines: seq<string>, zip: string, meta: Metadata): (Flags, seq<string>)
    decreases |lines|
  {
    if lines == [] then (s, [])
    else
      var (s1, head) := PatchLine(s, lines[0], zip, meta);
      var (s2, tail) := PatchFrom(s1, lines[1..], zip, meta);
      (s2, head + tail)
  }

  function Verdict(s: Flags, lines: seq<string>): Result<string, PatchError> {
    if !s.found || !s.shaUpdated || !s.sizeUpdated then Err(EntryNotUpdated)
    else if s.pathFound && !s.topShaUpdated then Err(TopLevelShaNotUpdated)
    else Ok(JoinLines(lines))
  }

  function Patched(text: string, zip: string, meta: Metadata): Result<string, PatchError> {
    var (s, lines) := PatchFrom(IDLE, SplitLines(text), zip, meta);
    Verdict(s, lines)
  }

  lemma PatchStep(s: Flags, lines: seq<string>, i: nat, zip: string, meta: Metadata)
    requires i < |lines|
    ensures var (s1, head) := PatchLine(s, lines[i], zip, meta);
            var rest := PatchFrom(s1, lines[i + 1..], zip, meta);
            PatchFrom(s, lines[i..], zip, meta) == (rest.0, head + rest.1)
  {
  }

  /** `updateMacUpdateManifestZipEntry`: one walk over the lines with mutable flags. */
  method UpdateZipEntry(manifest: string, zipFileName: string, metadata: Metadata)
    returns (r: Result<string, PatchError>)
    ensures r == Patched(manifest, zipFileName, metadata)
  {
    hide UrlOf, ShaOf, SizeOf, BlockMapSizeOf, PathOf, TopShaOf, Reread, SplitLines, ShaLine, SizeLine, TopShaLine,
         JoinLines;
    var lines := SplitLines(manifest);
    var inTargetFile, targetFileFound, targetShaUpdated, targetSizeUpdated := false, false, false, false;
    var topLevelPathMatches, matchingTopLevelPathFound, topLevelShaUpdated := false, false, false;
    var nextLines: seq<string> := [];
    ghost var whole := PatchFrom(IDLE, lines, zipFileName, metadata);
    assert lines[0..] == lines && [] + whole.1 == whole.1;
    hide PatchFrom;
    ghost var flags := IDLE;
    for i := 0 to |lines|
      invariant flags == Flags(inTargetFile, targetFileFound, targetShaUpdated, targetSizeUpdated,
                               topLevelPathMatches, matchingTopLevelPathFound, topLevelShaUpdated)
      invariant PatchFrom(flags, lines[i..], zipFileName, metadata).0 == whole.0
      invariant nextLines + PatchFrom(flags, lines[i..], zipFileName, metadata).1 == whole.1
    {
      var line := lines[i];
      PatchStep(flags, lines, i, zipFileName, metadata);
      ghost var step := PatchLine(flags, line, zipFileName, metadata);
      var emitted := [line];
      var fileUrl := UrlOf(line);
      var topLevelPath := PathOf(line);
      if fileUrl.Some? {
        inTargetFile := Reread(fileUrl.value) == zipFileName;
        if inTargetFile { targetFileFound := true; }
        flags := flags.(inTarget := inTargetFile, found := targetFileFound);
      } else if inTargetFile && ShaOf(line).Some? {
        targetShaUpdated := true;
        flags := flags.(shaUpdated := true);
        emitted := [ShaLine(metadata)];
      } else if inTargetFile && SizeOf(line).Some? {
        targetSizeUpdated := true;
        flags := flags.(sizeUpdated := true);
        emitted := [SizeLine(metadata)];
      } else if inTargetFile && BlockMapSizeOf(line).Some? {
        emitted := [];
      } else if topLevelPath.Some? {
        topLevelPathMatches := Reread(topLevelPath.value) == zipFileName;
        if topLevelPathMatches { matchingTopLevelPathFound := true; }
        flags := flags.(pathMatches := topLevelPathMatches, pathFound := matchingTopLevelPathFound);
      } else if topLevelPathMatches && TopShaOf(line).Some? {
        topLevelShaUpdated := true;
        topLevelPathMatches := false;
        flags := flags.(topShaUpdated := true, pathMatches := false);
        emitted := [TopShaLine(metadata)];
      }
      assert (flags, emitted) == step;
      hide PatchLine;
      Associative(nextLines, emitted, PatchFrom(flags, lines[i + 1..], zipFileName, metadata).1);
      nextLines := nextLines + emitted;
    }
    assert lines[|lines|..] == [];
    PatchNothing(whole.0, zipFileName, metadata);
    assert nextLines + [] == nextLines;
    if !targetFileFound || !targetShaUpdated || !targetSizeUpdated { return Err(EntryNotUpdated); }
    if matchingTopLevelPathFound && !topLevelShaUpdated { return Err(TopLevelShaNotUpdated); }
    r := Ok(JoinLines(nextLines));
  }

  lemma Associative<T>(a: seq<T>, b: seq<T>, c: seq<T>)
    ensures a + (b + c) == a + b + c
  {
  }

  lemma PatchNothing(s: Flags, zip: string, meta: Metadata)
    ensures forall t: Flags :: PatchFrom(t, [], zip, meta) == (t, [])
  {
  }

  // ------------------------------------------------- agreement with the parser

  function PatchFile(f: File, zip: string, meta: Metadata): File {
    if f.url == zip then f.(sha512 := meta.sha512, size := meta.size) else f
  }

  function PatchFiles(files: seq<File>, zip: string, meta: Metadata): seq<File> {
    if files == [] then [] else [PatchFile(files[0], zip, meta)] + PatchFiles(files[1..], zip, meta)
  }

  /** The manifest with the zip's digest and size replaced and everything else kept. */
  function PatchManifest(m: Manifest, zip: string, meta: Metadata): Manifest {
    m.(files := PatchFiles(m.files, zip, meta))
  }

  predicate HasFile(files: seq<File>, url: string) { exists i | 0 <= i < |files| :: files[i].url == url }

  /** Two keys that open the same line are the same key. */
  lemma SameKey(key: string, rest: string, other: string)
    requires ':' !in key && ':' !in other
    ensures other + ":" <= key + ":" + rest ==> key == other
  {
    var line := key + ":" + rest;
    if other + ":" <= line {
      var tail := line[|other| + 1..];
      assert line == other + ":" + tail;
      FirstColonIs(key, rest);
      FirstColonIs(other, tail);
      assert line[..|key|] == key && line[..|other|] == other;
    }
  }

  /** A line that opens with a key other than `path` is kept as it is. */
  lemma KeyLineKept(s: Flags, key: string, raw: string, zip: string, meta: Metadata)
    requires IsKey(key) && key != "path" && (s.pathMatches ==> key != "sha512")
    ensures PatchLine(s, key + ": " + raw, zip, meta) == (s, [key + ": " + raw])
  {
    hide MatchValue, TrimStart, Reread;
    var line := key + ": " + raw;
    assert line == key + ":" + (" " + raw);
    assert line[0] == key[0] && key[0] != ' ';
    assert "path" + ":" == "path:";
    SameKey(key, " " + raw, "path");
    if key != "sha512" {
      assert "sha512" + ":" == "sha512:";
      SameKey(key, " " + raw, "sha512");
    }
  }

  lemma BareLinesKept(s: Flags, zip: string, meta: Metadata)
    ensures PatchLine(s, "files:", zip, meta) == (s, ["files:"]) && PatchLine(s, "", zip, meta) == (s, [""])
  {
    hide MatchValue, TrimStart;
    assert "files:"[0] == 'f';
  }

  /** Neither a top-level path nor its digest is in play, and digest and size were met with the url. */
  predicate Plain(s: Flags) {
    !s.pathMatches && !s.pathFound && !s.topShaUpdated && s.found == s.shaUpdated == s.sizeUpdated
  }

  predicate SameSearch(s: Flags, t: Flags, target: bool) {
    Plain(s) && Plain(t) && t.found == (s.found || target)
  }

  lemma UrlLineSeen(s: Flags, url: string, zip: string, meta: Metadata)
    requires PlainField(url)
    ensures var line := "  - url: " + url;
            PatchLine(s, line, zip, meta) == (s.(inTarget := url == zip, found := s.found || url == zip), [line])
  {
    hide MatchValue, TrimStart, TrimEnd, Trim, Reread;
    var line := "  - url: " + url;
    assert line == "  - url:" + " " + url;
    MatchFieldIs("  - url:", " ", url);
    PlainFieldIff(url);
  }

  lemma ShaLineSeen(s: Flags, sha512: string, zip: string, meta: Metadata)
    requires PlainField(sha512)
    ensures var line := "    sha512: " + sha512;
            s.inTarget ==> PatchLine(s, line, zip, meta) == (s.(shaUpdated := true), [ShaLine(meta)])
    ensures var line := "    sha512: " + sha512;
            !s.inTarget && !s.pathMatches ==> PatchLine(s, line, zip, meta) == (s, [line])
  {
    hide MatchValue, TrimStart, ShaLine, Reread;
    var line := "    sha512: " + sha512;
    assert line == "    sha512:" + " " + sha512;
    assert line[2] == ' ' && line[0] == ' ';
    MatchFieldIs("    sha512:", " ", sha512);
  }

  lemma SizeLineSeen(s: Flags, size: nat, zip: string, meta: Metadata)
    requires size < EXPONENT_FROM
    ensures var line := "    size: " + PrintNumber(size);
            s.inTarget ==> PatchLine(s, line, zip, meta) == (s.(sizeUpdated := true), [SizeLine(meta)])
    ensures var line := "    size: " + PrintNumber(size);
            !s.inTarget && !s.pathMatches ==> PatchLine(s, line, zip, meta) == (s, [line])
  {
    hide MatchValue, TrimStart, SizeLine, Reread, PrintNumber;
    var line := "    size: " + PrintNumber(size);
    assert line == "    size:" + " " + PrintNumber(size);
    assert line[2] == ' ' && line[0] == ' ' && line[5] == 'i';
    MatchDigitsIs("    size:", " ", PrintNumber(size));
  }

  lemma PatchOne(s: Flags, line: string, rest: seq<string>, zip: string, meta: Metadata)
    ensures var (s1, head) := PatchLine(s, line, zip, meta);
            var (s2, tail) := PatchFrom(s1, rest, zip, meta);
            PatchFrom(s, [line] + rest, zip, meta) == (s2, head + tail)
  {
  }

  lemma FilePatched(s: Flags, f: File, zip: string, meta: Metadata)
    requires Plain(s) && PlainFile(f)
    ensures var (t, lines) := PatchFrom(s, FileLines(f), zip, meta);
            SameSearch(s, t, f.url == zip) && lines == FileLines(PatchFile(f, zip, meta))
  {
    hide PlainField, PatchLine, PatchFrom;
    var l0, l1, l2 := "  - url: " + f.url, "    sha512: " + f.sha512, "    size: " + PrintNumber(f.size);
    assert FileLines(f) == [l0] + ([l1] + ([l2] + []));
    UrlLineSeen(s, f.url, zip, meta);
    PatchOne(s, l0, [l1] + ([l2] + []), zip, meta);
    var s1 := PatchLine(s, l0, zip, meta).0;
    ShaLineSeen(s1, f.sha512, zip, meta);
    PatchOne(s1, l1, [l2] + [], zip, meta);
    var s2 := PatchLine(s1, l1, zip, meta).0;
    SizeLineSeen(s2, f.size, zip, meta);
    PatchOne(s2, l2, [], zip, meta);
    PatchNothing(s2, zip, meta);
  }

  lemma {:induction false} PatchAppend(s: Flags, a: seq<string>, b: seq<string>, zip: string, meta: Metadata)
    ensures var (s1, head) := PatchFrom(s, a, zip, meta);
            var (s2, tail) := PatchFrom(s1, b, zip, meta);
            PatchFrom(s, a + b, zip, meta) == (s2, head + tail)
    decreases |a|
  {
    hide PatchFrom, PatchLine;
    if a == [] {
      PatchNothing(s, zip, meta);
      assert a + b == b && [] + PatchFrom(s, b, zip, meta).1 == PatchFrom(s, b, zip, meta).1;
    } else {
      var line, rest := a[0], a[1..];
      assert a == [line] + rest && a + b == [line] + (rest + b);
      var s1 := PatchLine(s, line, zip, meta).0;
      PatchOne(s, line, rest, zip, meta);
      PatchOne(s, line, rest + b, zip, meta);
      PatchAppend(s1, rest, b, zip, meta);
      Associative(PatchLine(s, line, zip, meta).1, PatchFrom(s1, rest, zip, meta).1,
                  PatchFrom(PatchFrom(s1, rest, zip, meta).0, b, zip, meta).1);
    }
  }

  lemma FilesPatchedCons(f: File, rest: seq<File>, zip: string, meta: Metadata)
    ensures PatchFiles([f] + rest, zip, meta) == [PatchFile(f, zip, meta)] + PatchFiles(rest, zip, meta)
    ensures HasFile([f] + rest, zip) <==> f.url == zip || HasFile(rest, zip)
  {
  }

  lemma {:induction false} FilesPatched(s: Flags, files: seq<File>, zip: string, meta: Metadata)
    requires Plain(s) && forall i | 0 <= i < |files| :: PlainFile(files[i])
    ensures var (t, lines) := PatchFrom(s, AllFileLines(files), zip, meta);
            SameSearch(s, t, HasFile(files, zip)) && lines == AllFileLines(PatchFiles(files, zip, meta))
    decreases |files|
  {
    hide PlainFile, PatchLine, FileLines, PatchFile;
    if files == [] {
      PatchNothing(s, zip, meta);
    } else {
      var f, rest := files[0], files[1..];
      assert files == [f] + rest;
      FilePatched(s, f, zip, meta);
      var t := PatchFrom(s, FileLines(f), zip, meta).0;
      FilesPatched(t, rest, zip, meta);
      PatchAppend(s, FileLines(f), AllFileLines(rest), zip, meta);
      FilesCons(f, rest);
      FilesCons(PatchFile(f, zip, meta), PatchFiles(rest, zip, meta));
      FilesPatchedCons(f, rest, zip, meta);
    }
  }

  lemma {:induction false} ExtrasKept(s: Flags, extras: map<string, Scalar>, keys: seq<string>, zip: string,
                                      meta: Metadata)
    requires Plain(s) && CleanExtras(extras) && forall k | k in keys :: k in extras
    ensures PatchFrom(s, ExtraLines(extras, keys), zip, meta) == (s, ExtraLines(extras, keys))
    decreases |keys|
  {
    hide PatchLine, PrintScalar, IsKey;
    if keys == [] {
      PatchNothing(s, zip, meta);
    } else {
      var key := keys[0];
      assert key in keys && IsKey(key) && !Reserved(key);
      KeyLineKept(s, key, PrintScalar(extras[key]), zip, meta);
      ExtrasKept(s, extras, keys[1..], zip, meta);
      PatchOne(s, key + ": " + PrintScalar(extras[key]), ExtraLines(extras, keys[1..]), zip, meta);
    }
  }

  lemma HeadKept(version: string, zip: string, meta: Metadata)
    ensures PatchFrom(IDLE, ["version: " + version, "files:"], zip, meta) == (IDLE, ["version: " + version, "files:"])
  {
    hide PatchLine, PatchFrom;
    assert IsKey("version") && "version" + ": " + version == "version: " + version;
    KeyLineKept(IDLE, "version", version, zip, meta);
    BareLinesKept(IDLE, zip, meta);
    PatchNothing(IDLE, zip, meta);
    PatchOne(IDLE, "files:", [], zip, meta);
    PatchOne(IDLE, "version: " + version, ["files:"], zip, meta);
    assert ["version: " + version] + ["files:"] == ["version: " + version, "files:"] && ["files:"] + [] == ["files:"];
  }

  lemma TailKept(s: Flags, releaseDate: string, zip: string, meta: Metadata)
    ensures var lines := ["releaseDate: " + QuoteYaml(releaseDate), ""]; PatchFrom(s, lines, zip, meta) == (s, lines)
  {
    hide PatchLine, PatchFrom, QuoteYaml;
    var line := "releaseDate: " + QuoteYaml(releaseDate);
    assert IsKey("releaseDate") && "releaseDate" + ": " + QuoteYaml(releaseDate) == line;
    KeyLineKept(s, "releaseDate", QuoteYaml(releaseDate), zip, meta);
    BareLinesKept(s, zip, meta);
    PatchNothing(s, zip, meta);
    PatchOne(s, "", [], zip, meta);
    PatchOne(s, line, [""], zip, meta);
    assert [line] + [""] == [line, ""] && [""] + [] == [""];
  }

  /** A top-level path of the old format is kept, and noted. */
  lemma PathLineSeen(s: Flags, path: string, zip: string, meta: Metadata)
    requires PlainField(path)
    ensures PatchLine(s, "path: " + path, zip, meta)
            == (s.(pathMatches := path == zip, pathFound := s.pathFound || path == zip), ["path: " + path])
  {
    hide MatchValue, TrimStart, TrimEnd, Trim, Reread;
    var line := "path: " + path;
    assert line == "path:" + " " + path && line[0] == 'p';
    MatchFieldIs("path:", " ", path);
    PlainFieldIff(path);
  }

  /** The digest after it is replaced exactly if the path is the zip's. */
  lemma TopShaLineSeen(s: Flags, sha512: string, zip: string, meta: Metadata)
    requires PlainField(sha512)
    ensures PatchLine(s, "sha512: " + sha512, zip, meta)
            == if s.pathMatches then (s.(topShaUpdated := true, pathMatches := false), [TopShaLine(meta)])
               else (s, ["sha512: " + sha512])
  {
    hide MatchValue, TrimStart, TopShaLine, Reread;
    var line := "sha512: " + sha512;
    assert line == "sha512:" + " " + sha512 && line[0] == 's';
    MatchFieldIs("sha512:", " ", sha512);
  }

  /** The lines of a manifest in the old format, with these before its date. */
  function LegacyLines(m: Manifest, old_: seq<string>): seq<string> {
    ["version: " + m.version, "files:"]
    + (AllFileLines(m.files)
       + (ExtraLines(m.extras, SortedKeys(m.extras.Keys)) + (old_ + ["releaseDate: " + QuoteYaml(m.releaseDate), ""])))
  }

  lemma LegacySplit(m: Manifest, old_: seq<string>)
    requires Clean(m) && forall i | 0 <= i < |old_| :: SingleLine(old_[i])
    ensures SplitLines(JoinLines(LegacyLines(m, old_))) == LegacyLines(m, old_)
  {
    hide SplitLines, JoinLines, SingleLine, QuoteYaml, AllFileLines, ExtraLines, SortedKeys, Unbroken;
    var lines := LegacyLines(m, old_);
    EdgeLinesUnbroken(m);
    FileLinesUnbroken(m.files);
    ExtraLinesUnbroken(m.extras, SortedKeys(m.extras.Keys));
    forall i | 0 <= i < |lines| ensures Unbroken(lines[i]) && '\n' !in lines[i] {
      assert SingleLine(lines[i]);
      SingleLineUnbroken(lines[i]);
    }
    SplitJoin(lines);
  }

  lemma LegacyPairPatched(s: Flags, path: string, sha512: string, zip: string, meta: Metadata)
    requires Plain(s) && PlainField(path) && PlainField(sha512)
    ensures var (t, lines) := PatchFrom(s, ["path: " + path, "sha512: " + sha512], zip, meta);
            && t == s.(pathFound := path == zip, topShaUpdated := s.topShaUpdated || path == zip)
            && lines == ["path: " + path, "sha512: " + if path == zip then meta.sha512 else sha512]
  {
    hide PlainField, PatchLine, PatchFrom;
    var p, q := "path: " + path, "sha512: " + sha512;
    PathLineSeen(s, path, zip, meta);
    var s1 := PatchLine(s, p, zip, meta).0;
    TopShaLineSeen(s1, sha512, zip, meta);
    PatchNothing(PatchLine(s1, q, zip, meta).0, zip, meta);
    PatchOne(s1, q, [], zip, meta);
    PatchOne(s, p, [q], zip, meta);
    assert [q] + [] == [q] && [p] + [q] == [p, q];
  }

  lemma LegacyWalk(m: Manifest, old_: seq<string>, zip: string, meta: Metadata)
    requires WellFormed(m) && forall i | 0 <= i < |old_| :: SingleLine(old_[i])
    ensures var t := PatchFrom(IDLE, AllFileLines(m.files), zip, meta).0;
            var (u, lines) := PatchFrom(t, old_, zip, meta);
            && Plain(t) && t.found == HasFile(m.files, zip)
            && Patched(JoinLines(LegacyLines(m, old_)), zip, meta)
               == Verdict(u, LegacyLines(PatchManifest(m, zip, meta), lines))
  {
    hide PatchFrom, WellFormed, AllFileLines, ExtraLines, QuoteYaml, SplitLines, JoinLines, PatchFiles, HasFile,
         SortedKeys, Verdict, PlainFile, SingleLine;
    WellFormedParts(m);
    LegacySplit(m, old_);
    var head, files := ["version: " + m.version, "files:"], AllFileLines(m.files);
    var extras, tail := ExtraLines(m.extras, SortedKeys(m.extras.Keys)),
        ["releaseDate: " + QuoteYaml(m.releaseDate), ""];
    HeadKept(m.version, zip, meta);
    FilesPatched(IDLE, m.files, zip, meta);
    var t := PatchFrom(IDLE, files, zip, meta).0;
    ExtrasKept(t, m.extras, SortedKeys(m.extras.Keys), zip, meta);
    var u := PatchFrom(t, old_, zip, meta).0;
    TailKept(u, m.releaseDate, zip, meta);
    PatchAppend(t, old_, tail, zip, meta);
    PatchAppend(t, extras, old_ + tail, zip, meta);
    PatchAppend(IDLE, files, extras + (old_ + tail), zip, meta);
    PatchAppend(IDLE, head, files + (extras + (old_ + tail)), zip, meta);
  }

  /** Patching a text of the old format patches its record, and its top-level digest if its path is the zip's. */
  lemma LegacyPatched(m: Manifest, path: string, sha512: string, zip: string, meta: Metadata)
    requires WellFormed(m) && PlainField(path) && PlainField(sha512)
    ensures Patched(JoinLines(LegacyLines(m, ["path: " + path, "sha512: " + sha512])), zip, meta)
         == if !HasFile(m.files, zip) then Err(EntryNotUpdated)
            else Ok(JoinLines(LegacyLines(PatchManifest(m, zip, meta),
                                          ["path: " + path, "sha512: " + if path == zip then meta.sha512 else sha512])))
  {
    var pair := ["path: " + path, "sha512: " + sha512];
    assert SingleLine("path: ") && SingleLine("sha512: ");
    SingleLineConcat("path: ", path);
    SingleLineConcat("sha512: ", sha512);
    hide PatchFrom, WellFormed, JoinLines, LegacyLines, HasFile, PlainField, SingleLine;
    LegacyWalk(m, pair, zip, meta);
    LegacyPairPatched(PatchFrom(IDLE, AllFileLines(m.files), zip, meta).0, path, sha512, zip, meta);
    hide Patched, PatchManifest;
  }

  /** A path of the zip's own whose digest is missing is an error. */
  lemma LegacyDigestMissing(m: Manifest, zip: string, meta: Metadata)
    requires WellFormed(m) && HasFile(m.files, zip) && PlainField(zip)
    ensures Patched(JoinLines(LegacyLines(m, ["path: " + zip])), zip, meta) == Err(TopLevelShaNotUpdated)
  {
    var line := "path: " + zip;
    assert SingleLine("path: ");
    SingleLineConcat("path: ", zip);
    hide PatchFrom, WellFormed, JoinLines, LegacyLines, HasFile, PlainField, SingleLine;
    LegacyWalk(m, [line], zip, meta);
    var t := PatchFrom(IDLE, AllFileLines(m.files), zip, meta).0;
    PathLineSeen(t, zip, zip, meta);
    hide PatchLine;
    PatchNothing(PatchLine(t, line, zip, meta).0, zip, meta);
    PatchOne(t, line, [], zip, meta);
    assert [line] + [] == [line];
    hide Patched, PatchManifest;
  }

  /** Patching the printed text is printing the patched manifest; it fails exactly when no file has the url. */
  lemma PatchAgrees(m: Manifest, zip: string, meta: Metadata)
    requires WellFormed(m)
    ensures Patched(Printed(m), zip, meta)
         == if HasFile(m.files, zip) then Ok(Printed(PatchManifest(m, zip, meta))) else Err(EntryNotUpdated)
  {
    hide PatchFrom, WellFormed, AllFileLines, ExtraLines, QuoteYaml, SplitLines, JoinLines, PatchFiles, HasFile,
         SortedKeys;
    assert Clean(m) && (forall i | 0 <= i < |m.files| :: PlainFile(m.files[i])) by { WellFormedParts(m); }
    var head, files := ["version: " + m.version, "files:"], AllFileLines(m.files);
    var extras, tail := ExtraLines(m.extras, SortedKeys(m.extras.Keys)),
        ["releaseDate: " + QuoteYaml(m.releaseDate), ""];
    PrintedLinesSplit(m);
    HeadKept(m.version, zip, meta);
    FilesPatched(IDLE, m.files, zip, meta);
    var (t, patched) := PatchFrom(IDLE, files, zip, meta);
    ExtrasKept(t, m.extras, SortedKeys(m.extras.Keys), zip, meta);
    TailKept(t, m.releaseDate, zip, meta);
    assert PrintedLines(m) == head + (files + (extras + tail));
    PatchAppend(IDLE, head, files + (extras + tail), zip, meta);
    PatchAppend(IDLE, files, extras + tail, zip, meta);
    PatchAppend(t, extras, tail, zip, meta);
    assert PrintedLines(PatchManifest(m, zip, meta)) == head + (patched + (extras + tail));
  }

  lemma WellFormedParts(m: Manifest)
    requires WellFormed(m)
    ensures Clean(m) && forall i | 0 <= i < |m.files| :: PlainFile(m.files[i])
  {
  }

  /** A digest and a size that are printed so that they read back unchanged. */
  predicate PlainMetadata(meta: Metadata) { PlainField(meta.sha512) && meta.size < EXPONENT_FROM }

  lemma {:induction false} PatchFilesPlain(files: seq<File>, zip: string, meta: Metadata)
    requires forall i | 0 <= i < |files| :: PlainFile(files[i])
    ensures var r := PatchFiles(files, zip, meta);
            |r| == |files|
            && ((forall i | 0 <= i < |r| :: PlainFile(r[i])) <==> (HasFile(files, zip) ==> PlainMetadata(meta)))
  {
    hide PlainField;
    if files != [] {
      var f, rest := files[0], files[1..];
      assert files == [f] + rest && PlainFile(f);
      assert forall i | 0 <= i < |rest| :: rest[i] == files[i + 1];
      PatchFilesPlain(rest, zip, meta);
      FilesPatchedCons(f, rest, zip, meta);
      AllPlainCons(PatchFile(f, zip, meta), PatchFiles(rest, zip, meta));
    }
  }

  lemma AllPlainCons(f: File, rest: seq<File>)
    ensures var files := [f] + rest;
            (forall i | 0 <= i < |files| :: PlainFile(files[i])) <==>
              PlainFile(f) && forall i | 0 <= i < |rest| :: PlainFile(rest[i])
  {
    hide PlainFile;
    var files := [f] + rest;
    assert files[0] == f;
    if forall i | 0 <= i < |files| :: PlainFile(files[i]) {
      forall i | 0 <= i < |rest| ensures PlainFile(rest[i]) { assert rest[i] == files[i + 1]; }
    }
  }

  /**
   The patched text parses to the manifest with that entry's digest and size replaced and all else
   unchanged, exactly when the new digest and size can be read back at all.
   */
  lemma PatchParses(m: Manifest, zip: string, meta: Metadata)
    requires WellFormed(m)
    ensures Patched(Printed(m), zip, meta).Ok? <==> HasFile(m.files, zip)
    ensures HasFile(m.files, zip) ==>
              (Parsed(Patched(Printed(m), zip, meta).value) == Ok(PatchManifest(m, zip, meta)) <==> PlainMetadata(meta))
  {
    hide Patched, Printed, Parsed, PlainFile, PlainMetadata, PlainVersion, CleanExtras, PlainNumbers, HasFile,
         PatchFiles;
    PatchAgrees(m, zip, meta);
    PatchFilesPlain(m.files, zip, meta);
    RoundTripIff(PatchManifest(m, zip, meta));
  }

  // ------------------------------------------------------- patching it twice

  predicate HasCrLf(text: string) { exists i | 0 <= i < |text| - 1 :: text[i] == '\r' && text[i + 1] == '\n' }

  predicate HasCrCrLf(text: string) {
    exists i | 0 <= i < |text| - 2 :: text[i] == '\r' && text[i + 1] == '\r' && text[i + 2] == '\n'
  }

  /** A rewritten line is recognised again, in the same state, and rewritten to itself. */
  lemma PatchLineStable(s: Flags, line: string, zip: string, meta: Metadata)
    requires SingleLine(meta.sha512) && meta.size < EXPONENT_FROM
    ensures var (t, out) := PatchLine(s, line, zip, meta);
            if out == [] then t == s else |out| == 1 && PatchLine(s, out[0], zip, meta) == (t, out)
  {
    hide Reread, TrimStart, PrintNumber;
    if UrlOf(line).Some? {
    } else if s.inTarget && ShaOf(line).Some? {
      ShaLineAgain(meta);
    } else if s.inTarget && SizeOf(line).Some? {
      SizeLineAgain(meta);
    } else if s.inTarget && BlockMapSizeOf(line).Some? {
    } else if PathOf(line).Some? {
    } else if s.pathMatches && TopShaOf(line).Some? {
      TopShaLineAgain(meta);
    }
  }

  /** Any single-line text after a blank is captured by `\s*.+`. */
  lemma BlankThenAnything(text: string)
    requires SingleLine(text)
    ensures MatchValue(" " + text).Some?
  {
  }

  lemma ShaLineAgain(meta: Metadata)
    requires SingleLine(meta.sha512)
    ensures UrlOf(ShaLine(meta)).None? && ShaOf(ShaLine(meta)).Some?
  {
    hide MatchValue;
    var line := ShaLine(meta);
    assert line[2] == ' ';
    assert line == "    sha512:" + (" " + meta.sha512);
    assert line[11..] == " " + meta.sha512;
    BlankThenAnything(meta.sha512);
  }

  lemma SizeLineAgain(meta: Metadata)
    requires meta.size < EXPONENT_FROM
    ensures UrlOf(SizeLine(meta)).None? && ShaOf(SizeLine(meta)).None? && SizeOf(SizeLine(meta)).Some?
  {
    hide MatchValue, TrimStart, PrintNumber;
    var line := SizeLine(meta);
    assert line[2] == ' ' && line[5] == 'i';
    assert line == "    size:" + " " + PrintNumber(meta.size);
    MatchDigitsIs("    size:", " ", PrintNumber(meta.size));
  }

  lemma TopShaLineAgain(meta: Metadata)
    requires SingleLine(meta.sha512)
    ensures var line := TopShaLine(meta);
            UrlOf(line).None? && ShaOf(line).None? && SizeOf(line).None? && BlockMapSizeOf(line).None?
            && PathOf(line).None? && TopShaOf(line).Some?
  {
    hide MatchValue;
    var line := TopShaLine(meta);
    assert line[0] == 's';
    assert line == "sha512:" + (" " + meta.sha512);
    assert line[7..] == " " + meta.sha512;
    BlankThenAnything(meta.sha512);
  }

  /** The patched lines, walked again, come out as they are. */
  lemma {:induction false} PatchFromStable(s: Flags, lines: seq<string>, zip: string, meta: Metadata)
    requires SingleLine(meta.sha512) && meta.size < EXPONENT_FROM
    ensures var (t, out) := PatchFrom(s, lines, zip, meta); PatchFrom(s, out, zip, meta) == (t, out)
    decreases |lines|
  {
    hide PatchLine;
    if lines != [] {
      var (s1, head) := PatchLine(s, lines[0], zip, meta);
      var (t, tail) := PatchFrom(s1, lines[1..], zip, meta);
      PatchLineStable(s, lines[0], zip, meta);
      PatchFromStable(s1, lines[1..], zip, meta);
      if head == [] {
        assert [] + tail == tail;
      } else {
        assert head == [head[0]];
        PatchOne(s, head[0], tail, zip, meta);
      }
    }
  }

  /** A size in exponent form is not recognised again: walked once more, its entry counts as having none. */
  lemma PatchLineLost(s: Flags, line: string, zip: string, meta: Metadata)
    requires SingleLine(meta.sha512) && meta.size >= EXPONENT_FROM
    ensures var (t, out) := PatchLine(s, line, zip, meta);
            if out == [] then t == s
            else |out| == 1 && PatchLine(s.(sizeUpdated := false), out[0], zip, meta).0 == t.(sizeUpdated := false)
  {
    hide UrlOf, ShaOf, SizeOf, BlockMapSizeOf, PathOf, TopShaOf, Reread, ShaLine, TopShaLine, SizeLine, SingleLine;
    if UrlOf(line).Some? {
    } else if s.inTarget && ShaOf(line).Some? {
      ShaLineAgain(meta);
    } else if s.inTarget && SizeOf(line).Some? {
      SizeLineLost(meta);
    } else if s.inTarget && BlockMapSizeOf(line).Some? {
    } else if PathOf(line).Some? {
    } else if s.pathMatches && TopShaOf(line).Some? {
      TopShaLineAgain(meta);
    }
  }

  lemma SizeLineLost(meta: Metadata)
    requires meta.size >= EXPONENT_FROM
    ensures var line := SizeLine(meta);
            UrlOf(line).None? && ShaOf(line).None? && SizeOf(line).None? && BlockMapSizeOf(line).None?
            && PathOf(line).None? && TopShaOf(line).None?
  {
    hide MatchValue, TrimStart, PrintNumber;
    var line := SizeLine(meta);
    assert line[0] == ' ' && line[2] == ' ' && line[4] == 's' && line[5] == 'i';
    assert line == "    size:" + " " + PrintNumber(meta.size);
    MatchDigitsFails("    size:", " ", PrintNumber(meta.size));
  }

  lemma {:induction false} PatchFromLost(s: Flags, lines: seq<string>, zip: string, meta: Metadata)
    requires SingleLine(meta.sha512) && meta.size >= EXPONENT_FROM
    ensures var (t, out) := PatchFrom(s, lines, zip, meta);
            PatchFrom(s.(sizeUpdated := false), out, zip, meta).0 == t.(sizeUpdated := false)
    decreases |lines|
  {
    hide PatchLine;
    if lines != [] {
      var (s1, head) := PatchLine(s, lines[0], zip, meta);
      var (t, tail) := PatchFrom(s1, lines[1..], zip, meta);
      PatchLineLost(s, lines[0], zip, meta);
      PatchFromLost(s1, lines[1..], zip, meta);
      if head == [] {
        assert [] + tail == tail;
      } else {
        assert head == [head[0]];
        PatchOne(s.(sizeUpdated := false), head[0], tail, zip, meta);
      }
    }
  }

  /** No line but the last ends in a carriage return, so joining them makes no CR LF. */
  lemma {:induction false} JoinNoCrLf(lines: seq<string>)
    requires Splittable(lines)
    ensures !HasCrLf(JoinLines(lines))
  {
    if |lines| == 1 {
      NoNewlineNoCrLf(lines[0]);
    } else {
      JoinNoCrLf(lines[1..]);
      LineNoCrLf(lines[0], JoinLines(lines[1..]));
    }
  }

  lemma NoNewlineNoCrLf(line: string)
    requires '\n' !in line
    ensures !HasCrLf(line)
  {
  }

  lemma LineNoCrLf(line: string, rest: string)
    requires Unbroken(line) && !HasCrLf(rest)
    ensures !HasCrLf(line + "\n" + rest)
  {
  }

  /** Joined lines without a CR LF split back into themselves. */
  lemma {:induction false} NoCrLfSplittable(lines: seq<string>)
    requires |lines| >= 1 && !HasCrLf(JoinLines(lines)) && forall i | 0 <= i < |lines| :: '\n' !in lines[i]
    ensures Splittable(lines)
  {
    if |lines| > 1 {
      var line, rest := lines[0], JoinLines(lines[1..]);
      var s := JoinLines(lines);
      assert s == line + "\n" + rest;
      assert !HasCrLf(rest) by {
        forall i | 0 <= i < |rest| - 1 ensures !(rest[i] == '\r' && rest[i + 1] == '\n') {
          assert s[|line| + 1 + i] == rest[i] && s[|line| + 2 + i] == rest[i + 1];
        }
      }
      if line != "" { assert s[|line| - 1] == line[|line| - 1] && s[|line|] == '\n'; }
      NoCrLfSplittable(lines[1..]);
      forall i | 0 <= i < |lines| - 1 ensures Unbroken(lines[i]) { if i > 0 { assert lines[i] == lines[1..][i - 1]; } }
    }
  }

  // Counting carriage returns shows that a text with a CR LF cannot be kept.

  function Returns(s: string): nat {
    if s == "" then 0 else (if s[0] == '\r' then 1 else 0) + Returns(s[1..])
  }

  function TotalReturns(lines: seq<string>): nat {
    if lines == [] then 0 else Returns(lines[0]) + TotalReturns(lines[1..])
  }

  lemma {:induction false} ReturnsConcat(a: string, b: string)
    ensures Returns(a + b) == Returns(a) + Returns(b)
  {
    if a == "" {
      assert a + b == b;
    } else {
      assert (a + b)[1..] == a[1..] + b;
      ReturnsConcat(a[1..], b);
    }
  }

  lemma {:induction false} TotalReturnsConcat(a: seq<string>, b: seq<string>)
    ensures TotalReturns(a + b) == TotalReturns(a) + TotalReturns(b)
  {
    if a == [] {
      assert a + b == b;
    } else {
      assert (a + b)[1..] == a[1..] + b;
      TotalReturnsConcat(a[1..], b);
    }
  }

  lemma {:induction false} JoinReturns(lines: seq<string>)
    ensures Returns(JoinLines(lines)) == TotalReturns(lines)
  {
    if |lines| == 1 {
      assert lines[1..] == [];
    } else if |lines| > 1 {
      JoinReturns(lines[1..]);
      ReturnsConcat(lines[0] + "\n", JoinLines(lines[1..]));
      ReturnsConcat(lines[0], "\n");
      assert "\n"[1..] == "";
    }
  }

  lemma HasCrLfTail(s: string)
    requires s != "" && HasCrLf(s) && !(s[0] == '\r' && |s| >= 2 && s[1] == '\n')
    ensures HasCrLf(s[1..])
  {
  }

  /** Splitting loses a carriage return for each CR LF. */
  lemma {:induction false} SplitReturns(s: string)
    ensures TotalReturns(SplitLines(s)) <= Returns(s)
    ensures HasCrLf(s) ==> TotalReturns(SplitLines(s)) < Returns(s)
  {
    if s == "" {
      assert SplitLines(s) == [""];
    } else if s[0] == '\n' {
      SplitReturns(s[1..]);
      assert SplitLines(s)[1..] == SplitLines(s[1..]);
      if HasCrLf(s) { HasCrLfTail(s); }
    } else if s[0] == '\r' && |s| >= 2 && s[1] == '\n' {
      SplitReturns(s[2..]);
      assert SplitLines(s)[1..] == SplitLines(s[2..]);
      assert s[1..][1..] == s[2..];
      assert Returns(s[1..]) == Returns(s[2..]);
    } else {
      SplitReturns(s[1..]);
      var rest := SplitLines(s[1..]);
      ReturnsConcat([s[0]], rest[0]);
      assert SplitLines(s)[1..] == rest[1..];
      assert Returns([s[0]]) == (if s[0] == '\r' then 1 else 0) by { assert [s[0]][1..] == ""; }
      if HasCrLf(s) { HasCrLfTail(s); }
    }
  }

  lemma {:induction false} NoReturns(s: string)
    requires '\r' !in s
    ensures Returns(s) == 0
  {
    if s != "" { NoReturns(s[1..]); }
  }

  lemma PatchLineReturns(s: Flags, line: string, zip: string, meta: Metadata)
    requires SingleLine(meta.sha512)
    ensures TotalReturns(PatchLine(s, line, zip, meta).1) <= Returns(line)
    ensures forall i | 0 <= i < |PatchLine(s, line, zip, meta).1| ::
              '\n' in PatchLine(s, line, zip, meta).1[i] ==> '\n' in line
  {
    hide UrlOf, ShaOf, SizeOf, BlockMapSizeOf, PathOf, TopShaOf, Reread, PrintNumber;
    assert '\r' !in ShaLine(meta) && '\r' !in TopShaLine(meta) && '\r' !in SizeLine(meta);
    assert '\n' !in ShaLine(meta) && '\n' !in TopShaLine(meta) && '\n' !in SizeLine(meta);
    NoReturns(ShaLine(meta));
    NoReturns(SizeLine(meta));
    NoReturns(TopShaLine(meta));
    assert [line][1..] == [] && [ShaLine(meta)][1..] == [] && [SizeLine(meta)][1..] == []
           && [TopShaLine(meta)][1..] == [];
  }

  lemma {:induction false} PatchFromReturns(s: Flags, lines: seq<string>, zip: string, meta: Metadata)
    requires SingleLine(meta.sha512) && forall i | 0 <= i < |lines| :: '\n' !in lines[i]
    ensures TotalReturns(PatchFrom(s, lines, zip, meta).1) <= TotalReturns(lines)
    ensures forall i | 0 <= i < |PatchFrom(s, lines, zip, meta).1| :: '\n' !in PatchFrom(s, lines, zip, meta).1[i]
    decreases |lines|
  {
    hide PatchLine, Returns;
    if lines != [] {
      var (s1, head) := PatchLine(s, lines[0], zip, meta);
      PatchLineReturns(s, lines[0], zip, meta);
      PatchFromReturns(s1, lines[1..], zip, meta);
      TotalReturnsConcat(head, PatchFrom(s1, lines[1..], zip, meta).1);
    }
  }

  lemma {:induction false} PatchFromNonempty(s: Flags, lines: seq<string>, zip: string, meta: Metadata)
    ensures PatchFrom(s, lines, zip, meta).1 == [] ==> PatchFrom(s, lines, zip, meta).0 == s
    decreases |lines|
  {
    hide UrlOf, ShaOf, SizeOf, BlockMapSizeOf, PathOf, TopShaOf, Reread, ShaLine, SizeLine, TopShaLine;
    if lines != [] { PatchFromNonempty(PatchLine(s, lines[0], zip, meta).0, lines[1..], zip, meta); }
  }

  /** Patching a patched text changes nothing exactly when that text has no CR LF and the size is in digits. */
  lemma PatchTwiceIff(text: string, zip: string, meta: Metadata)
    requires SingleLine(meta.sha512) && Patched(text, zip, meta).Ok?
    ensures var once := Patched(text, zip, meta).value;
            Patched(once, zip, meta) == Ok(once) <==> !HasCrLf(once) && meta.size < EXPONENT_FROM
  {
    hide SplitLines, JoinLines, PatchFrom, HasCrLf, SingleLine;
    var (t, lines) := PatchFrom(IDLE, SplitLines(text), zip, meta);
    var once := JoinLines(lines);
    SplitHasNoNewline(text);
    PatchFromReturns(IDLE, SplitLines(text), zip, meta);
    PatchFromNonempty(IDLE, SplitLines(text), zip, meta);
    if !HasCrLf(once) {
      NoCrLfSplittable(lines);
      SplitJoin(lines);
      if meta.size < EXPONENT_FROM {
        PatchFromStable(IDLE, SplitLines(text), zip, meta);
      } else {
        PatchFromLost(IDLE, SplitLines(text), zip, meta);
      }
    } else {
      SplitHasNoNewline(once);
      var again := PatchFrom(IDLE, SplitLines(once), zip, meta).1;
      PatchFromReturns(IDLE, SplitLines(once), zip, meta);
      JoinReturns(again);
      SplitReturns(once);
    }
  }

  /** Without CR CR LF, splitting eats no carriage return that belongs to a line. */
  lemma {:induction false} SplitUnbroken(s: string)
    requires !HasCrCrLf(s)
    ensures Splittable(SplitLines(s))
  {
    var lines := SplitLines(s);
    if s == "" {
    } else if s[0] == '\n' {
      TailNoCrCrLf(s, 1);
      SplitUnbroken(s[1..]);
      assert lines[1..] == SplitLines(s[1..]);
      SplittableCons("", SplitLines(s[1..]));
    } else if s[0] == '\r' && |s| >= 2 && s[1] == '\n' {
      TailNoCrCrLf(s, 2);
      SplitUnbroken(s[2..]);
      SplittableCons("", SplitLines(s[2..]));
    } else {
      TailNoCrCrLf(s, 1);
      SplitUnbroken(s[1..]);
      var rest := SplitLines(s[1..]);
      var line := [s[0]] + rest[0];
      if |rest| > 1 {
        EmptyFirstLine(s[1..]);
        assert Unbroken(line);
        SplittableTail(rest);
        SplittableCons(line, rest[1..]);
      } else {
        assert lines == [line];
      }
    }
  }

  lemma TailNoCrCrLf(s: string, k: nat)
    requires k <= |s| && !HasCrCrLf(s)
    ensures !HasCrCrLf(s[k..])
  {
  }

  lemma EmptyFirstLine(s: string)
    ensures var lines := SplitLines(s);
            |lines| > 1 && lines[0] == "" ==> s != "" && (s[0] == '\n' || (|s| > 1 && s[0] == '\r' && s[1] == '\n'))
  {
  }

  lemma SplittableCons(line: string, rest: seq<string>)
    requires Unbroken(line) && Splittable(rest)
    ensures Splittable([line] + rest)
  {
  }

  lemma SplittableTail(lines: seq<string>)
    requires Splittable(lines) && |lines| > 1
    ensures Splittable(lines[1..])
  {
  }

  lemma PatchLineUnbroken(s: Flags, line: string, zip: string, meta: Metadata)
    requires SingleLine(meta.sha512) && '\n' !in line
    ensures forall i | 0 <= i < |PatchLine(s, line, zip, meta).1| ::
              '\n' !in PatchLine(s, line, zip, meta).1[i]
              && (Unbroken(line) ==> Unbroken(PatchLine(s, line, zip, meta).1[i]))
    ensures |PatchLine(s, line, zip, meta).1| <= 1
  {
    hide UrlOf, ShaOf, SizeOf, BlockMapSizeOf, PathOf, TopShaOf, Reread, PrintNumber;
    assert '\r' !in ShaLine(meta) && '\r' !in TopShaLine(meta) && '\r' !in SizeLine(meta);
    assert '\n' !in ShaLine(meta) && '\n' !in TopShaLine(meta) && '\n' !in SizeLine(meta);
  }

  lemma {:induction false} PatchFromSplittable(s: Flags, lines: seq<string>, zip: string, meta: Metadata)
    requires SingleLine(meta.sha512) && Splittable(lines)
    ensures var out := PatchFrom(s, lines, zip, meta).1; out == [] || Splittable(out)
    decreases |lines|
  {
    hide PatchLine, Unbroken;
    var (s1, head) := PatchLine(s, lines[0], zip, meta);
    if |lines| == 1 {
      PatchLineUnbroken(s, lines[0], zip, meta);
      assert lines[1..] == [];
      PatchNothing(s1, zip, meta);
      assert head + [] == head;
    } else {
      assert '\n' !in lines[0] by { UnbrokenNoNewline(lines[0]); }
      PatchLineUnbroken(s, lines[0], zip, meta);
      SplittableTail(lines);
      PatchFromSplittable(s1, lines[1..], zip, meta);
      var tail := PatchFrom(s1, lines[1..], zip, meta).1;
      if head == [] {
        assert [] + tail == tail;
      } else {
        assert head == [head[0]];
        if tail == [] {
          UnbrokenNoNewline(head[0]);
          assert head + tail == head;
        } else {
          SplittableCons(head[0], tail);
        }
      }
    }
  }

  lemma UnbrokenNoNewline(line: string)
    requires Unbroken(line)
    ensures '\n' !in line
  {
  }

  /** Patching twice equals patching once on every text without a CR CR LF, unless the size is in exponent form. */
  lemma PatchIdempotent(text: string, zip: string, meta: Metadata)
    requires SingleLine(meta.sha512) && !HasCrCrLf(text) && Patched(text, zip, meta).Ok?
    ensures var once := Patched(text, zip, meta).value; Patched(once, zip, meta) == Ok(once) <==>
                  meta.size < EXPONENT_FROM
  {
    hide SplitLines, JoinLines, PatchFrom, HasCrLf, HasCrCrLf, Splittable, SingleLine;
    var lines := PatchFrom(IDLE, SplitLines(text), zip, meta).1;
    PatchFromNonempty(IDLE, SplitLines(text), zip, meta);
    SplitUnbroken(text);
    PatchFromSplittable(IDLE, SplitLines(text), zip, meta);
    JoinNoCrLf(lines);
    PatchTwiceIff(text, zip, meta);
  }

  // What a caller can see beforehand: which texts are patched to the same text twice.

  predicate EndsInReturn(line: string) { line != "" && line[|line| - 1] == '\r' }

  /** Whether the walk is inside the zip's own file entry after this line. */
  predicate TargetNext(inTarget: bool, line: string, zip: string) {
    if UrlOf(line).Some? then Reread(UrlOf(line).value) == zip else inTarget
  }

  /** Some line is not one of the zip's own block-map sizes, which are dropped. */
  predicate SomeStays(inTarget: bool, lines: seq<string>, zip: string)
    decreases |lines|
  {
    lines != []
    && (!(inTarget && BlockMapSizeOf(lines[0]).Some?)
        || SomeStays(TargetNext(inTarget, lines[0], zip), lines[1..], zip))
  }

  /** A line that still ends in a carriage return is followed by a line that stays. */
  predicate StrayReturn(inTarget: bool, lines: seq<string>, zip: string)
    decreases |lines|
  {
    && lines != []
    && ((EndsInReturn(lines[0]) && SomeStays(TargetNext(inTarget, lines[0], zip), lines[1..], zip))
        || StrayReturn(TargetNext(inTarget, lines[0], zip), lines[1..], zip))
  }

  /** None of the expressions matches a line that ends in a carriage return. */
  lemma FieldLineEnd(line: string, prefix: string)
    ensures MatchField(line, prefix).Some? ==> !EndsInReturn(line)
  {
  }

  lemma DigitsLineEnd(line: string, prefix: string)
    ensures MatchDigits(line, prefix).Some? ==> !EndsInReturn(line)
  {
  }

  /** What one line becomes, as far as the ends of lines and the target go. */
  lemma PatchLineEnds(s: Flags, line: string, zip: string, meta: Metadata)
    requires SingleLine(meta.sha512)
    ensures var (t, out) := PatchLine(s, line, zip, meta);
            && t.inTarget == TargetNext(s.inTarget, line, zip)
            && (out == [] <==> s.inTarget && BlockMapSizeOf(line).Some?)
            && (out != [] ==> |out| == 1 && (EndsInReturn(out[0]) <==> EndsInReturn(line)))
            && (out == [] ==> !EndsInReturn(line))
  {
    hide UrlOf, ShaOf, SizeOf, BlockMapSizeOf, PathOf, TopShaOf, Reread, EndsInReturn, ShaLine, TopShaLine, SizeLine,
         SingleLine;
    MatchedEnds(line);
    NewLineEnds(meta);
    BlockMapAlone(line);
    if UrlOf(line).Some? {
    } else if s.inTarget && ShaOf(line).Some? {
    } else if s.inTarget && SizeOf(line).Some? {
    } else if s.inTarget && BlockMapSizeOf(line).Some? {
    } else if PathOf(line).Some? {
    } else if s.pathMatches && TopShaOf(line).Some? {
    }
  }

  lemma MatchedEnds(line: string)
    ensures ShaOf(line).Some? || TopShaOf(line).Some? || SizeOf(line).Some? || BlockMapSizeOf(line).Some? ==>
              !EndsInReturn(line)
  {
    FieldLineEnd(line, "    sha512:");
    FieldLineEnd(line, "sha512:");
    DigitsLineEnd(line, "    size:");
    DigitsLineEnd(line, "    blockMapSize:");
    hide MatchField, MatchDigits, EndsInReturn;
  }

  lemma NewLineEnds(meta: Metadata)
    requires SingleLine(meta.sha512)
    ensures !EndsInReturn(ShaLine(meta)) && !EndsInReturn(TopShaLine(meta)) && !EndsInReturn(SizeLine(meta))
  {
  }

  lemma BlockMapAlone(line: string)
    ensures BlockMapSizeOf(line).Some? ==> UrlOf(line).None? && ShaOf(line).None? && SizeOf(line).None?
  {
    hide MatchValue, TrimStart, AllDigits;
    if BlockMapSizeOf(line).Some? { assert line[4] == 'b' && line[2] == ' '; }
  }

  lemma {:induction false} SomeStaysIff(s: Flags, lines: seq<string>, zip: string, meta: Metadata)
    requires SingleLine(meta.sha512)
    ensures PatchFrom(s, lines, zip, meta).1 != [] <==> SomeStays(s.inTarget, lines, zip)
    decreases |lines|
  {
    hide PatchLine, TargetNext, BlockMapSizeOf, EndsInReturn;
    if lines != [] {
      PatchLineEnds(s, lines[0], zip, meta);
      SomeStaysIff(PatchLine(s, lines[0], zip, meta).0, lines[1..], zip, meta);
    }
  }

  /** The patched lines split as they were joined exactly when no stray return was followed by a line that stays. */
  lemma {:induction false} StrayReturnIff(s: Flags, lines: seq<string>, zip: string, meta: Metadata)
    requires SingleLine(meta.sha512) && forall i | 0 <= i < |lines| :: '\n' !in lines[i]
    ensures var out := PatchFrom(s, lines, zip, meta).1;
            out == [] || Splittable(out) <==> !StrayReturn(s.inTarget, lines, zip)
    decreases |lines|
  {
    hide PatchLine, TargetNext, BlockMapSizeOf;
    if lines != [] {
      var (s1, head) := PatchLine(s, lines[0], zip, meta);
      var tail := PatchFrom(s1, lines[1..], zip, meta).1;
      PatchLineEnds(s, lines[0], zip, meta);
      PatchLineUnbroken(s, lines[0], zip, meta);
      SomeStaysIff(s1, lines[1..], zip, meta);
      StrayReturnIff(s1, lines[1..], zip, meta);
      if head == [] {
        assert [] + tail == tail;
      } else {
        assert head == [head[0]];
        UnbrokenEnd(head[0]);
        if tail == [] {
          assert head + tail == head;
        } else {
          SplittableConsIff(head[0], tail);
        }
      }
    }
  }

  lemma UnbrokenEnd(line: string)
    ensures Unbroken(line) <==> '\n' !in line && !EndsInReturn(line)
  {
  }

  lemma SplittableConsIff(line: string, rest: seq<string>)
    requires rest != []
    ensures Splittable([line] + rest) <==> Unbroken(line) && Splittable(rest)
  {
    hide Unbroken;
    var all := [line] + rest;
    assert all[0] == line && forall i | 0 <= i < |rest| :: all[i + 1] == rest[i];
    if Splittable(all) {
      forall i | 0 <= i < |rest| - 1 ensures Unbroken(rest[i]) { assert Unbroken(all[i + 1]); }
    }
  }

  /**
   Patching twice equals patching once exactly when no line of the text that keeps a carriage
   return at its end, one from a CR CR LF, is followed by a line that stays, and the size is in digits.
   */
  lemma PatchIdempotentIff(text: string, zip: string, meta: Metadata)
    requires SingleLine(meta.sha512) && Patched(text, zip, meta).Ok?
    ensures var once := Patched(text, zip, meta).value;
            Patched(once, zip, meta) == Ok(once) <==>
              !StrayReturn(false, SplitLines(text), zip) && meta.size < EXPONENT_FROM
  {
    hide SplitLines, JoinLines, PatchFrom, HasCrLf, SingleLine, Splittable, StrayReturn;
    var lines := PatchFrom(IDLE, SplitLines(text), zip, meta).1;
    SplitHasNoNewline(text);
    PatchFromReturns(IDLE, SplitLines(text), zip, meta);
    PatchFromNonempty(IDLE, SplitLines(text), zip, meta);
    PatchTwiceIff(text, zip, meta);
    StrayReturnIff(IDLE, SplitLines(text), zip, meta);
    if Splittable(lines) { JoinNoCrLf(lines); }
    if !HasCrLf(JoinLines(lines)) { NoCrLfSplittable(lines); }
  }

  /** A blank line that holds one stray carriage return is enough to break idempotence, on any manifest. */
  lemma PatchNotIdempotent(m: Manifest, zip: string, meta: Metadata)
    requires WellFormed(m) && HasFile(m.files, zip) && SingleLine(meta.sha512)
    ensures var text := "\r\r\n" + Printed(m);
            Patched(text, zip, meta).Ok?
            && Patched(Patched(text, zip, meta).value, zip, meta) != Patched(text, zip, meta)
  {
    hide Printed, PatchFrom, WellFormed, HasFile, SingleLine, JoinLines, PatchManifest;
    var printed := Printed(m);
    var text := "\r\r\n" + printed;
    SplitStray(printed);
    PatchAgrees(m, zip, meta);
    StrayReturnKept(zip, meta);
    PatchOne(IDLE, "\r", SplitLines(printed), zip, meta);
    var (t, lines) := PatchFrom(IDLE, SplitLines(printed), zip, meta);
    PatchFromNonempty(IDLE, SplitLines(printed), zip, meta);
    JoinPair("\r", lines);
    var once := Patched(text, zip, meta).value;
    assert once[0] == '\r' && once[1] == '\n';
    PatchTwiceIff(text, zip, meta);
  }

  lemma SplitStray(rest: string)
    ensures SplitLines("\r\r\n" + rest) == ["\r"] + SplitLines(rest)
  {
    var text := "\r\r\n" + rest;
    var tail := "\r\n" + rest;
    assert text[1..] == tail && tail[2..] == rest;
    assert tail[0] == '\r' && tail[1] == '\n';
    assert SplitLines(tail) == [""] + SplitLines(rest);
    assert text[0] == '\r' && text[1] == '\r';
    var lines := SplitLines(tail);
    assert SplitLines(text) == [[text[0]] + lines[0]] + lines[1..];
    assert lines[0] == "" && lines[1..] == SplitLines(rest);
    assert [text[0]] + lines[0] == "\r";
  }

  lemma JoinPair(line: string, lines: seq<string>)
    requires lines != []
    ensures JoinLines([line] + lines) == line + "\n" + JoinLines(lines)
  {
  }

  lemma StrayReturnKept(zip: string, meta: Metadata)
    ensures PatchLine(IDLE, "\r", zip, meta) == (IDLE, ["\r"])
  {
  }
}
