/**
 What a manifest text means, said without a parser's cursors: every line is of one kind, a record is
 an url line with the digest and size lines up to the next url or entry, and of several entries with
 one key the last one counts. The parser of `scripts/merge-mac-update-manifests.ts` (70-183) accepts
 exactly the texts that make sense so, and gives what they mean.
*/
module ManifestGrammar {
  import opened Wrappers
  import opened JsText
  import opened UpdateManifest
  import opened ManifestRoundTrip

  datatype Line =
    | Blank
    | UrlLine(url: string)
    | ShaLine(sha512: string)
    | SizeLine(size: nat)
    | FilesLine
    | EntryLine(key: string, value: Scalar)
    | Unsupported

  /** The kind of a line. */
  function Kind(raw: string): Line {
    var line := TrimEnd(raw);
    var url, sha512, size := MatchField(line, "  - url:"), MatchField(line, "    sha512:"),
        MatchDigits(line, "    size:");
    if line == "" then Blank
    else if url.Some? then UrlLine(StripSingleQuotes(Trim(url.value)))
    else if sha512.Some? then ShaLine(StripSingleQuotes(Trim(sha512.value)))
    else if size.Some? then SizeLine(DecimalValue(size.value))
    else if line == "files:" then FilesLine
    else match MatchTopLevel(line) case None => Unsupported case Some((key, raw)) => EntryLine(key, ParseScalar(raw))
  }

  function Kinds(lines: seq<string>): seq<Line> {
    if lines == [] then [] else [Kind(lines[0])] + Kinds(lines[1..])
  }

  // ----------------------------------------------------------------- meaning

  /** The lines up to the next url or entry. */
  function Body(lines: seq<Line>): seq<Line> {
    if lines == [] || lines[0].UrlLine? || lines[0].EntryLine? then [] else [lines[0]] + Body(lines[1..])
  }

  /** The last digest in these lines, or else the one given. */
  function LastSha(lines: seq<Line>, otherwise: Option<string>): Option<string> {
    if lines == [] then otherwise
    else LastSha(lines[1..], if lines[0].ShaLine? then Some(lines[0].sha512) else otherwise)
  }

  function LastSize(lines: seq<Line>, otherwise: Option<nat>): Option<nat> {
    if lines == [] then otherwise
    else LastSize(lines[1..], if lines[0].SizeLine? then Some(lines[0].size) else otherwise)
  }

  /** The record of an url, if the lines after it complete it. */
  function Record(f: PartialFile, after: seq<Line>): Option<File> {
    var sha512, size := LastSha(Body(after), f.sha512), LastSize(Body(after), f.size);
    if sha512.Some? && size.Some? then Some(File(f.url, sha512.value, size.value)) else None
  }

  /** Every url is followed by its digest and size. */
  predicate Complete(lines: seq<Line>) {
    lines == []
    || (&& (lines[0].UrlLine? ==> Record(PartialFile(lines[0].url, None, None), lines[1..]).Some?)
        && Complete(lines[1..]))
  }

  function Files(lines: seq<Line>): seq<File>
    requires Complete(lines)
  {
    if lines == [] then []
    else if lines[0].UrlLine? then [Record(PartialFile(lines[0].url, None, None), lines[1..]).value] + Files(lines[1..])
    else Files(lines[1..])
  }

  /** Digests and sizes stand in a record. */
  predicate Placed(lines: seq<Line>, inRecord: bool) {
    lines == []
    || (&& (lines[0].ShaLine? || lines[0].SizeLine? ==> inRecord)
        && Placed(lines[1..], if lines[0].UrlLine? then true else if lines[0].EntryLine? then false else inRecord))
  }

  /** That is: each has an url before it with no entry in between. */
  lemma {:induction false} PlacedIff(lines: seq<Line>, inRecord: bool)
    ensures Placed(lines, inRecord) <==>
              forall j | 0 <= j < |lines| && (lines[j].ShaLine? || lines[j].SizeLine?) :: InRecord(lines, inRecord, j)
    decreases |lines|
  {
    if lines != [] {
      var rest := lines[1..];
      var next := if lines[0].UrlLine? then true else if lines[0].EntryLine? then false else inRecord;
      PlacedIff(rest, next);
      assert forall j | 0 <= j < |rest| :: rest[j] == lines[j + 1];
      forall j | 0 <= j < |rest| ensures InRecord(rest, next, j) <==> InRecord(lines, inRecord, j + 1) {
        InRecordTail(lines, inRecord, j);
      }
    }
  }

  predicate InRecord(lines: seq<Line>, inRecord: bool, j: nat)
    requires j < |lines|
  {
    || (inRecord && forall k | 0 <= k < j :: !lines[k].EntryLine?)
    || exists i | 0 <= i < j :: lines[i].UrlLine? && forall k | i < k < j :: !lines[k].EntryLine?
  }

  lemma InRecordTail(lines: seq<Line>, inRecord: bool, j: nat)
    requires j + 1 < |lines|
    ensures var next := if lines[0].UrlLine? then true else if lines[0].EntryLine? then false else inRecord;
            InRecord(lines[1..], next, j) <==> InRecord(lines, inRecord, j + 1)
  {
    var rest := lines[1..];
    var next := if lines[0].UrlLine? then true else if lines[0].EntryLine? then false else inRecord;
    assert forall k | 0 <= k < |rest| :: rest[k] == lines[k + 1];
    assert forall k | 1 <= k < |lines| :: lines[k] == rest[k - 1];
    if i :| 0 <= i < j && rest[i].UrlLine? && forall k | i < k < j :: !rest[k].EntryLine? {
      assert lines[i + 1].UrlLine? && forall k | i + 1 < k < j + 1 :: !lines[k].EntryLine?;
    }
    if i :| 0 <= i < j + 1 && lines[i].UrlLine? && forall k | i < k < j + 1 :: !lines[k].EntryLine? {
      if i > 0 { assert rest[i - 1].UrlLine? && forall k | i - 1 < k < j :: !rest[k].EntryLine?; }
    }
  }

  /** The last value given to the key, or else the one there was. */
  function LastValue(lines: seq<Line>, key: string, otherwise: Option<Scalar>): Option<Scalar> {
    if lines == [] then otherwise else LastValue(lines[1..], key, Given(lines[0], key, otherwise))
  }

  /** The value the line gives the key, or else the one there was. */
  function Given(line: Line, key: string, otherwise: Option<Scalar>): Option<Scalar> {
    if line.EntryLine? && line.key == key then Some(line.value) else otherwise
  }

  /** Version and date are always given as text, and nothing is out of the ordinary. */
  predicate Plain(lines: seq<Line>) {
    forall i | 0 <= i < |lines| ::
      && !lines[i].Unsupported?
      && (lines[i].EntryLine? && lines[i].key in {"version", "releaseDate"} ==> lines[i].value.Text?)
  }

  predicate IsExtra(key: string) { key !in {"version", "releaseDate", "path", "sha512"} }

  predicate Sensible(lines: seq<Line>) { Plain(lines) && Placed(lines, false) && Complete(lines) }

  function TextOf(value: Option<Scalar>): Option<string> {
    if value.Some? && value.value.Text? then Some(value.value.text) else None
  }

  function AsValue(text: Option<string>): Option<Scalar> { if text.Some? then Some(Text(text.value)) else None }

  function Lookup(extras: map<string, Scalar>, key: string): Option<Scalar> {
    if key in extras then Some(extras[key]) else None
  }

  /** The manifest is what the lines say. */
  ghost predicate Means(lines: seq<Line>, m: Manifest) {
    && Sensible(lines)
    && LastValue(lines, "version", None) == Some(Text(m.version)) && m.version != ""
    && LastValue(lines, "releaseDate", None) == Some(Text(m.releaseDate)) && m.releaseDate != ""
    && m.files == Files(lines) && m.files != []
    && forall k :: Lookup(m.extras, k) == if IsExtra(k) then LastValue(lines, k, None) else None
  }

  // --------------------------------------------------------------- the parser

  /** Where the parser is, as far as what it reads next depends on it. */
  predicate Reading(p: Progress) { p.current.Some? ==> p.inFiles }

  /** A step sees no more of a line than its kind. */
  function Meant(p: Progress, line: Line): Option<Progress>
    requires Reading(p)
  {
    match line
    case Blank => Some(p)
    case UrlLine(url) =>
      if Closes(p) then Some(Closed(p).(current := Some(PartialFile(url, None, None)), inFiles := true)) else None
    case ShaLine(sha512) =>
      if p.current.Some? then Some(p.(current := Some(p.current.value.(sha512 := Some(sha512))))) else None
    case SizeLine(size) =>
      if p.current.Some? then Some(p.(current := Some(p.current.value.(size := Some(size))))) else None
    case FilesLine => Some(p.(inFiles := true))
    case EntryLine(key, value) =>
      if !Closes(p) then None
      else
        var q := Closed(p).(inFiles := false);
        if key == "version" then if value.Text? then Some(q.(version := Some(value.text))) else None
        else if key == "releaseDate" then if value.Text? then Some(q.(releaseDate := Some(value.text))) else None
        else if IsExtra(key) then Some(q.(extras := q.extras[key := value]))
        else Some(q)
    case Unsupported => None
  }

  predicate Closes(p: Progress) { p.current.None? || (p.current.value.sha512.Some? && p.current.value.size.Some?) }

  function Closed(p: Progress): Progress
    requires Closes(p)
  {
    match p.current
    case None => p
    case Some(f) => p.(files := p.files + [File(f.url, f.sha512.value, f.size.value)], current := None)
  }

  function Got<T>(r: Result<T, ParseError>): Option<T> { match r case Ok(value) => Some(value) case Err(_) => None }

  lemma StepMeant(p: Progress, raw: string, n: nat)
    requires Reading(p)
    ensures Got(Step(p, raw, n)) == Meant(p, Kind(raw))
    ensures Step(p, raw, n).Ok? ==> Reading(Step(p, raw, n).value)
  {
    hide TrimEnd, TrimStart, MatchField, MatchDigits, MatchTopLevel, ParseScalar, StripSingleQuotes, DecimalValue;
    assert p.files + [] == p.files;
  }

  function Wanted(current: Option<PartialFile>, body: seq<Line>): Option<seq<File>> {
    if current.None? then Some([])
    else
      var sha512, size := LastSha(body, current.value.sha512), LastSize(body, current.value.size);
      if sha512.Some? && size.Some? then Some([File(current.value.url, sha512.value, size.value)]) else None
  }

  /** From any point of the parse, the lines left make sense. */
  predicate SensibleFrom(p: Progress, lines: seq<Line>) {
    Plain(lines) && Placed(lines, p.current.Some?) && Complete(lines) && Wanted(p.current, Body(lines)).Some?
  }

  /** And they add this to what has been read. */
  ghost predicate MeansFrom(p: Progress, lines: seq<Line>, q: Progress)
    requires SensibleFrom(p, lines)
  {
    && Closes(q) && Closed(q).files == p.files + Wanted(p.current, Body(lines)).value + Files(lines)
    && AsValue(q.version) == LastValue(lines, "version", AsValue(p.version))
    && AsValue(q.releaseDate) == LastValue(lines, "releaseDate", AsValue(p.releaseDate))
    && forall k :: Lookup(q.extras, k)
                   == if IsExtra(k) then LastValue(lines, k, Lookup(p.extras, k)) else Lookup(p.extras, k)
  }

  predicate PlainLine(line: Line) {
    && !line.Unsupported?
    && (line.EntryLine? && line.key in {"version", "releaseDate"} ==> line.value.Text?)
  }

  lemma PlainCons(line: Line, rest: seq<Line>)
    ensures Plain([line] + rest) <==> PlainLine(line) && Plain(rest)
  {
    var lines := [line] + rest;
    assert lines[0] == line && forall i | 0 <= i < |rest| :: lines[i + 1] == rest[i];
    if Plain(lines) {
      forall i | 0 <= i < |rest| ensures PlainLine(rest[i]) { assert PlainLine(lines[i + 1]); }
    }
  }

  /** One line more in front. */
  lemma LineBefore(p: Progress, line: Line, rest: seq<Line>)
    requires Reading(p)
    ensures SensibleFrom(p, [line] + rest) <==> Meant(p, line).Some? && SensibleFrom(Meant(p, line).value, rest)
    ensures SensibleFrom(p, [line] + rest) ==>
              forall q | MeansFrom(Meant(p, line).value, rest, q) :: MeansFrom(p, [line] + rest, q)
  {
    LineSensible(p, line, rest);
    hide SensibleFrom, MeansFrom;
    if SensibleFrom(p, [line] + rest) { LineMeans(p, line, rest); }
  }

  lemma LineSensible(p: Progress, line: Line, rest: seq<Line>)
    requires Reading(p)
    ensures SensibleFrom(p, [line] + rest) <==> Meant(p, line).Some? && SensibleFrom(Meant(p, line).value, rest)
  {
    PlainCons(line, rest);
    hide Plain;
    var lines := [line] + rest;
    assert lines[0] == line && lines[1..] == rest;
  }

  lemma LineMeans(p: Progress, line: Line, rest: seq<Line>)
    requires Reading(p) && SensibleFrom(p, [line] + rest) && Meant(p, line).Some?
    requires SensibleFrom(Meant(p, line).value, rest)
    ensures forall q | MeansFrom(Meant(p, line).value, rest, q) :: MeansFrom(p, [line] + rest, q)
  {
    LineFiles(p, line, rest);
    LineValues(line, rest);
    LineTexts(p, line);
    LineExtras(p, line);
    hide Meant, Plain, Placed, Complete, Body, Wanted, Files, SensibleFrom, LastValue, Lookup, IsExtra;
  }

  lemma LineTexts(p: Progress, line: Line)
    requires Reading(p) && Meant(p, line).Some?
    ensures var q := Meant(p, line).value;
            && AsValue(q.version) == Given(line, "version", AsValue(p.version))
            && AsValue(q.releaseDate) == Given(line, "releaseDate", AsValue(p.releaseDate))
  {
  }

  lemma LineExtras(p: Progress, line: Line)
    requires Reading(p) && Meant(p, line).Some?
    ensures forall k :: Lookup(Meant(p, line).value.extras, k)
                        == if IsExtra(k) then Given(line, k, Lookup(p.extras, k)) else Lookup(p.extras, k)
  {
  }

  lemma LineValues(line: Line, rest: seq<Line>)
    ensures forall k, otherwise ::
              LastValue([line] + rest, k, otherwise) == LastValue(rest, k, Given(line, k, otherwise))
  {
    var lines := [line] + rest;
    assert lines[0] == line && lines[1..] == rest;
  }

  lemma LineFiles(p: Progress, line: Line, rest: seq<Line>)
    requires Reading(p) && SensibleFrom(p, [line] + rest) && Meant(p, line).Some?
    requires SensibleFrom(Meant(p, line).value, rest)
    ensures var q := Meant(p, line).value;
            q.files + Wanted(q.current, Body(rest)).value + Files(rest)
            == p.files + Wanted(p.current, Body([line] + rest)).value + Files([line] + rest)
  {
    hide Plain, Placed;
    var lines := [line] + rest;
    assert lines[0] == line && lines[1..] == rest;
    if line.UrlLine? {
      var f := PartialFile(line.url, None, None);
      assert Files(lines) == [Record(f, rest).value] + Files(rest);
      var own := if p.current.None? then [] else [Wanted(p.current, []).value[0]];
      assert p.files + own + ([Record(f, rest).value] + Files(rest))
             == p.files + own + [Record(f, rest).value] + Files(rest);
    }
  }

  lemma {:induction false} ParsedFrom(p: Progress, lines: seq<string>, n: nat)
    requires Reading(p)
    ensures var r := ParseFrom(p, lines, n);
            && (r.Ok? && Closes(r.value) <==> SensibleFrom(p, Kinds(lines)))
            && (r.Ok? && Closes(r.value) ==> MeansFrom(p, Kinds(lines), r.value))
    decreases |lines|
  {
    hide Step, Meant, SensibleFrom, MeansFrom, Kind;
    if lines == [] {
      NothingLeft(p);
    } else {
      StepMeant(p, lines[0], n);
      LineBefore(p, Kind(lines[0]), Kinds(lines[1..]));
      if Step(p, lines[0], n).Ok? { ParsedFrom(Step(p, lines[0], n).value, lines[1..], n + 1); }
    }
  }

  lemma NothingLeft(p: Progress)
    ensures Closes(p) <==> SensibleFrom(p, [])
    ensures Closes(p) ==> MeansFrom(p, [], p)
  {
  }

  lemma FinishIff(q: Progress, n: nat, m: Manifest)
    ensures Finish(q, n) == Ok(m) <==>
              && Closes(q) && Closed(q).files == m.files && m.files != []
              && q.version == Some(m.version) && m.version != ""
              && q.releaseDate == Some(m.releaseDate) && m.releaseDate != "" && q.extras == m.extras
  {
    assert q.files + [] == q.files;
  }

  lemma SameExtras(a: map<string, Scalar>, b: map<string, Scalar>)
    ensures a == b <==> forall k :: Lookup(a, k) == Lookup(b, k)
  {
    if forall k :: Lookup(a, k) == Lookup(b, k) {
      forall k ensures k in a <==> k in b { assert Lookup(a, k) == Lookup(b, k); }
      forall k | k in a ensures a[k] == b[k] { assert Lookup(a, k) == Lookup(b, k); }
      assert a.Keys == b.Keys;
    }
  }

  /** The parser accepts a text exactly when it makes sense, and gives what it means. */
  lemma ParsedIff(raw: string, m: Manifest)
    ensures Parsed(raw) == Ok(m) <==> Means(Kinds(SplitLines(raw)), m)
  {
    var lines := SplitLines(raw);
    var cs := Kinds(lines);
    ParsedFrom(START, lines, 1);
    var r := ParseFrom(START, lines, 1);
    hide SplitLines, ParseFrom, Kinds;
    assert SensibleFrom(START, cs) <==> Sensible(cs);
    if r.Ok? {
      FinishIff(r.value, |lines|, m);
      hide Finish;
      if Closes(r.value) { ProgressIff(cs, r.value, m); }
    }
  }

  lemma ProgressIff(lines: seq<Line>, q: Progress, m: Manifest)
    requires SensibleFrom(START, lines) && Sensible(lines) && MeansFrom(START, lines, q)
    ensures Means(lines, m) <==>
              && Closed(q).files == m.files && m.files != []
              && q.version == Some(m.version) && m.version != ""
              && q.releaseDate == Some(m.releaseDate) && m.releaseDate != "" && q.extras == m.extras
  {
    hide LastValue, Files, Sensible;
    SameExtras(q.extras, m.extras);
    assert [] + [] + Files(lines) == Files(lines);
    assert forall k :: Lookup(START.extras, k) == None;
    hide Lookup, Closed;
  }

  // ------------------------------------------------- lines that say nothing

  /** A blank line, or a top-level `path` or digest of the old format that comes right before another entry. */
  predicate Idle(line: Line, after: seq<Line>) {
    || line.Blank?
    || (line.EntryLine? && line.key in {"path", "sha512"} && after != [] && after[0].EntryLine?)
  }

  lemma {:induction false} IdleBody(a: seq<Line>, line: Line, b: seq<Line>, sha512: Option<string>, size: Option<nat>)
    requires Idle(line, b)
    ensures LastSha(Body(a + [line] + b), sha512) == LastSha(Body(a + b), sha512)
    ensures LastSize(Body(a + [line] + b), size) == LastSize(Body(a + b), size)
  {
    if a == [] {
      assert a + [line] + b == [line] + b && a + b == b;
    } else {
      Shifted(a, line, b);
      IdleBody(a[1..], line, b, if a[0].ShaLine? then Some(a[0].sha512) else sha512,
               if a[0].SizeLine? then Some(a[0].size) else size);
    }
  }

  lemma Shifted(a: seq<Line>, line: Line, b: seq<Line>)
    requires a != []
    ensures (a + [line] + b)[0] == a[0] == (a + b)[0]
    ensures (a + [line] + b)[1..] == a[1..] + [line] + b && (a + b)[1..] == a[1..] + b
  {
  }

  lemma {:induction false} IdleSense(a: seq<Line>, line: Line, b: seq<Line>, inRecord: bool)
    requires Idle(line, b)
    ensures Placed(a + [line] + b, inRecord) <==> Placed(a + b, inRecord)
    ensures Complete(a + [line] + b) <==> Complete(a + b)
    ensures Complete(a + b) ==> Files(a + [line] + b) == Files(a + b)
  {
    hide Body, LastSha, LastSize;
    if a == [] {
      assert a + [line] + b == [line] + b && a + b == b;
    } else {
      Shifted(a, line, b);
      IdleBody(a[1..], line, b, None, None);
      IdleSense(a[1..], line, b, if a[0].UrlLine? then true else if a[0].EntryLine? then false else inRecord);
    }
  }

  lemma {:induction false} IdleValue(a: seq<Line>, line: Line, b: seq<Line>, key: string, otherwise: Option<Scalar>)
    requires Idle(line, b) && key !in {"path", "sha512"}
    ensures LastValue(a + [line] + b, key, otherwise) == LastValue(a + b, key, otherwise)
  {
    if a == [] {
      assert a + [line] + b == [line] + b && a + b == b;
    } else {
      Shifted(a, line, b);
      IdleValue(a[1..], line, b, key, if a[0].EntryLine? && a[0].key == key then Some(a[0].value) else otherwise);
    }
  }

  lemma {:induction false} IdlePlain(a: seq<Line>, line: Line, b: seq<Line>)
    requires Idle(line, b)
    ensures Plain(a + [line] + b) <==> Plain(a + b)
  {
    if a == [] {
      assert a + [line] + b == [line] + b && a + b == b;
      PlainCons(line, b);
    } else {
      Shifted(a, line, b);
      IdlePlain(a[1..], line, b);
      assert a + [line] + b == [a[0]] + (a[1..] + [line] + b) && a + b == [a[0]] + (a[1..] + b);
      PlainCons(a[0], a[1..] + [line] + b);
      PlainCons(a[0], a[1..] + b);
    }
  }

  /** Such a line may stand anywhere or be left out. */
  lemma IdleMeans(a: seq<Line>, line: Line, b: seq<Line>, m: Manifest)
    requires Idle(line, b)
    ensures Means(a + [line] + b, m) <==> Means(a + b, m)
  {
    IdlePlain(a, line, b);
    IdleSense(a, line, b, false);
    forall k | k !in {"path", "sha512"}
      ensures LastValue(a + [line] + b, k, None) == LastValue(a + b, k, None)
    {
      IdleValue(a, line, b, k, None);
    }
    hide LastValue, Plain, Placed, Complete, Files, Idle;
  }

  lemma {:induction false} KindsAppend(a: seq<string>, b: seq<string>)
    ensures Kinds(a + b) == Kinds(a) + Kinds(b)
  {
    hide Kind;
    if a == [] {
      assert a + b == b;
    } else {
      assert (a + b)[1..] == a[1..] + b;
      KindsAppend(a[1..], b);
    }
  }

  /** Blank lines and the old format's top-level lines leave what a text parses to as it is. */
  lemma IdleLineIgnored(a: seq<string>, line: string, b: seq<string>, m: Manifest)
    requires Splittable(a + [line] + b) && b != [] && Idle(Kind(line), Kinds(b))
    ensures Parsed(JoinLines(a + [line] + b)) == Ok(m) <==> Parsed(JoinLines(a + b)) == Ok(m)
  {
    hide Kind, Means, Idle, Parsed, JoinLines, SplitLines, Unbroken;
    SplitJoin(a + [line] + b);
    SplittableLess(a, line, b);
    SplitJoin(a + b);
    ParsedIff(JoinLines(a + [line] + b), m);
    ParsedIff(JoinLines(a + b), m);
    KindsAppend(a + [line], b);
    KindsAppend(a, [line]);
    KindsAppend(a, b);
    assert Kinds([line]) == [Kind(line)] by { assert [line][1..] == []; }
    IdleMeans(Kinds(a), Kind(line), Kinds(b), m);
  }

  lemma SplittableLess(a: seq<string>, line: string, b: seq<string>)
    requires Splittable(a + [line] + b) && b != []
    ensures Splittable(a + b)
  {
    hide Unbroken;
    var all, less := a + [line] + b, a + b;
    assert forall i | 0 <= i < |less| :: less[i] == all[if i < |a| then i else i + 1];
  }

  /** The kind of a `key: value` line. */
  lemma EntryKind(key: string, raw: string)
    requires IsKey(key) && SingleLine(raw) && Trim(raw) != ""
    ensures Kind(key + ": " + raw) == EntryLine(key, ParseScalar(raw))
  {
    hide TrimStart, TrimEnd, MatchValue, ParseScalar, SingleLine, FirstColon;
    var shown := TrimEnd(raw);
    var line := key + ":" + (" " + shown);
    FieldLine(key + ":", raw);
    assert key + ": " + raw == (key + ":") + " " + raw && line == (key + ":") + " " + shown;
    assert line[|key|] == ':' && line[0] == key[0] && key[0] != ' ';
    NotFilesHeader(line, |key|);
    assert !("  - url:" <= line) && !("    sha512:" <= line) && !("    size:" <= line);
    TopLevelKey(key, " " + shown);
    ParseTrimmed(raw);
    hide IsKey, Trim;
  }

  /** A manifest in the old format, with a top-level path and digest before its date, parses as it does without. */
  lemma LegacyParses(m: Manifest, path: string, sha512: string)
    requires WellFormed(m) && SingleLine(path) && Trim(path) != "" && SingleLine(sha512) && Trim(sha512) != ""
    ensures var lines := PrintedLines(m);
            var n := |lines| - 2;
            Parsed(JoinLines(lines[..n] + ["path: " + path, "sha512: " + sha512] + lines[n..])) == Ok(m)
  {
    var lines := PrintedLines(m);
    var n := |lines| - 2;
    var p, s, d := "path: " + path, "sha512: " + sha512, "releaseDate: " + QuoteYaml(m.releaseDate);
    EndsInDate(m);
    WellFormedClean(m);
    RoundTripIff(m);
    PrintedSplittable(m);
    QuotedScalar(m.releaseDate);
    LegacyKinds(path, sha512, QuoteYaml(m.releaseDate));
    hide *;
    assert lines == lines[..n] + [d, ""];
    LegacyBeforeDate(lines[..n], p, s, d, m);
  }

  lemma EndsInDate(m: Manifest)
    ensures |PrintedLines(m)| >= 2
            && PrintedLines(m)[|PrintedLines(m)| - 2..] == ["releaseDate: " + QuoteYaml(m.releaseDate), ""]
  {
    hide QuoteYaml;
  }

  lemma LegacyKinds(path: string, sha512: string, date: string)
    requires SingleLine(path) && Trim(path) != "" && SingleLine(sha512) && Trim(sha512) != ""
    requires SingleLine(date) && Trim(date) != ""
    ensures Unbroken("path: " + path) && Unbroken("sha512: " + sha512)
    ensures Kind("path: " + path) == EntryLine("path", ParseScalar(path))
    ensures Kind("sha512: " + sha512) == EntryLine("sha512", ParseScalar(sha512))
    ensures Kind("releaseDate: " + date) == EntryLine("releaseDate", ParseScalar(date))
  {
    PathLabel();
    ShaLabel();
    DateLabel();
    hide *;
    LabelKind("path", "path: ", path);
    LabelKind("sha512", "sha512: ", sha512);
    LabelKind("releaseDate", "releaseDate: ", date);
  }

  /** The kind of an entry whose key and colon are written as one text. */
  lemma LabelKind(key: string, start: string, raw: string)
    requires IsKey(key) && start == key + ": " && SingleLine(start) && SingleLine(raw) && Trim(raw) != ""
    ensures Kind(start + raw) == EntryLine(key, ParseScalar(raw)) && Unbroken(start + raw)
  {
    hide Kind, Trim, SingleLine, ParseScalar, IsKey, Unbroken;
    EntryKind(key, raw);
    SingleLineConcat(start, raw);
    SingleLineUnbroken(start + raw);
  }

  lemma PathLabel()
    ensures IsKey("path") && "path: " == "path" + ": " && SingleLine("path: ")
  {
  }

  lemma ShaLabel()
    ensures IsKey("sha512") && "sha512: " == "sha512" + ": " && SingleLine("sha512: ")
  {
  }

  lemma DateLabel()
    ensures IsKey("releaseDate") && "releaseDate: " == "releaseDate" + ": " && SingleLine("releaseDate: ")
  {
  }

  lemma LegacyBeforeDate(front: seq<string>, p: string, s: string, d: string, m: Manifest)
    requires Splittable(front + [d, ""]) && Unbroken(p) && Unbroken(s)
    requires Kind(p).EntryLine? && Kind(p).key == "path" && Kind(s).EntryLine? && Kind(s).key == "sha512"
    requires Kind(d).EntryLine?
    ensures Parsed(JoinLines(front + [p, s] + [d, ""])) == Ok(m) <==> Parsed(JoinLines(front + [d, ""])) == Ok(m)
  {
    hide Kind, Parsed, JoinLines, Splittable, Unbroken;
    var date := [d, ""];
    var more := [s] + date;
    assert Kinds(date)[0] == Kind(d) && Kinds(more)[0] == Kind(s);
    InsertSplittable(front, s, date);
    IdleLineIgnored(front, s, date, m);
    assert front + [s] + date == front + more;
    InsertSplittable(front, p, more);
    IdleLineIgnored(front, p, more, m);
    assert front + [p] + more == front + [p, s] + date;
  }

  lemma InsertSplittable(a: seq<string>, line: string, b: seq<string>)
    requires Splittable(a + b) && b != [] && Unbroken(line)
    ensures Splittable(a + [line] + b)
  {
    hide Unbroken;
    var less, all := a + b, a + [line] + b;
    assert |all| == |less| + 1 && all[|all| - 1] == less[|less| - 1];
    forall i | 0 <= i < |all| - 1 ensures Unbroken(all[i]) {
      assert all[i] == if i < |a| then less[i] else if i == |a| then line else less[i - 1];
    }
  }

  lemma WellFormedClean(m: Manifest)
    requires WellFormed(m)
    ensures Clean(m)
  {
    hide CleanExtras;
  }
}
