/**
 The macOS update manifest: the line parser and the printer of
 `scripts/merge-mac-update-manifests.ts`.
 */
module UpdateManifest {
  import opened Wrappers
  import opened JsText

  datatype File = File(url: string, sha512: string, size: nat)

  /** A `Fraction` is `mantissa` / 10^`scale` in lowest tenths: equal numbers are equal scalars. */
  datatype Scalar = Text(text: string) | Integer(number: int) | Fraction(mantissa: int,
                                                                         scale: nat) | Boolean(flag: bool)

  datatype Manifest = Manifest(version: string, releaseDate: string, files: seq<File>, extras: map<string, Scalar>)

  datatype ParseError =
    | IncompleteFile(line: nat) | ShaWithoutFile(line: nat) | SizeWithoutFile(line: nat)
    | UnsupportedLine(line: nat) | VersionNotText(line: nat) | ReleaseDateNotText(line: nat)
    | MissingVersion | MissingReleaseDate | MissingFiles

  // ----------------------------------------------------------------- scalars

  predicate Quoted(s: string) { s != "" && s[0] == '\'' && s[|s| - 1] == '\'' }

  function StripSingleQuotes(value: string): string {
    if !Quoted(value) then value
    else if |value| < 2 then ""
    else UndoubleQuotes(value[1..|value| - 1])
  }

  function Unsigned(s: string): string {
    if s != "" && s[0] == '-' then s[1..] else s
  }

  predicate IntegerLiteral(s: string) { AllDigits(Unsigned(s)) }

  function LeadingDigits(s: string): (n: nat)
    ensures n <= |s| && (forall i | 0 <= i < n :: IsDigit(s[i])) && (n < |s| ==> !IsDigit(s[n]))
  {
    if s == "" || !IsDigit(s[0]) then 0 else 1 + LeadingDigits(s[1..])
  }

  /** `^-?\d+\.\d+$`. */
  predicate FractionLiteral(s: string) {
    var body := Unsigned(s);
    var dot := LeadingDigits(body);
    0 < dot < |body| && body[dot] == '.' && AllDigits(body[dot + 1..])
  }

  function Signed(s: string, magnitude: int): int {
    if s != "" && s[0] == '-' then -magnitude else magnitude
  }

  function IntegerOf(s: string): int
    requires IntegerLiteral(s)
  {
    Signed(s, DecimalValue(Unsigned(s)))
  }

  /** The number `m` / 10^`scale`. */
  function LowestTenths(m: int, scale: nat): (r: Scalar)
    ensures r.Integer? || (r.Fraction? && r.scale > 0 && r.mantissa % 10 != 0)
    decreases scale
  {
    if scale == 0 then Integer(m) else if m % 10 == 0 then LowestTenths(m / 10, scale - 1) else Fraction(m, scale)
  }

  function FractionOf(s: string): (r: Scalar)
    requires FractionLiteral(s)
    ensures r.Integer? || (r.Fraction? && r.scale > 0 && r.mantissa % 10 != 0)
  {
    var body := Unsigned(s);
    var dot := LeadingDigits(body);
    LowestTenths(Signed(s, DecimalValue(body[..dot] + body[dot + 1..])), |body| - dot - 1)
  }

  function ParseScalar(raw: string): Scalar {
    var value := Trim(raw);
    if Quoted(value) && |value| >= 2 then Text(UndoubleQuotes(value[1..|value| - 1]))
    else if value == "true" then Boolean(true)
    else if value == "false" then Boolean(false)
    else if IntegerLiteral(value) then Integer(IntegerOf(value))
    else if FractionLiteral(value) then FractionOf(value)
    else Text(value)
  }

  function QuoteYaml(value: string): string { "'" + DoubleQuotes(value) + "'" }

  function PrintScalar(value: Scalar): string {
    match value
    case Text(text) => QuoteYaml(text)
    case Integer(n) => if n < 0 then "-" + PrintNumber(-n) else PrintNumber(n)
    case Fraction(m, scale) =>
      if scale == 0 then "" else if m < 0 then "-" + PrintFraction(-m, scale) else PrintFraction(m, scale)
    case Boolean(flag) => if flag then "true" else "false"
  }

  // --------------------------------------------------------- parsing, by line

  datatype PartialFile = PartialFile(url: string, sha512: Option<string>, size: Option<nat>)

  datatype Progress = Progress(
    version: Option<string>, releaseDate: Option<string>, files: seq<File>,
    extras: map<string, Scalar>, inFiles: bool, current: Option<PartialFile>)

  const START := Progress(None, None, [], map[], false, None)

  /** The finished record of the file being read, if one is being read. */
  function FileRecord(current: Option<PartialFile>, line: nat): Result<seq<File>, ParseError> {
    match current
    case None => Ok([])
    case Some(PartialFile(url, Some(sha512), Some(size))) => Ok([File(url, sha512, size)])
    case Some(_) => Err(IncompleteFile(line))
  }

  predicate IsKey(s: string) {
    s != "" && IsAlpha(s[0]) && forall i | 0 <= i < |s| :: IsAlpha(s[i]) || IsDigit(s[i])
  }

  function FirstColon(s: string): (i: nat)
    ensures i <= |s| && (i < |s| ==> s[i] == ':') && ':' !in s[..i]
  {
    if s == "" || s[0] == ':' then 0 else 1 + FirstColon(s[1..])
  }

  /** `^([A-Za-z][A-Za-z0-9]*):\s*(.+)$`; no key character is a colon, so the first colon ends the key. */
  function MatchTopLevel(line: string): Option<(string, string)> {
    var i := FirstColon(line);
    if i < |line| && IsKey(line[..i]) then
      match MatchValue(line[i + 1..])
      case Some(value) => Some((line[..i], value))
      case None => None
    else None
  }

  /** A line that is neither in a file record nor the `files:` header first closes the open record. */
  function CloseFiles(p: Progress, line: nat): Result<Progress, ParseError> {
    if p.inFiles && p.current.Some? then
      match FileRecord(p.current, line)
      case Err(e) => Err(e)
      case Ok(done) => Ok(p.(files := p.files + done, current := None, inFiles := false))
    else Ok(p.(inFiles := false))
  }

  function Assign(p: Progress, key: string, value: Scalar, line: nat): Result<Progress, ParseError> {
    if key == "version" then
      if value.Text? then Ok(p.(version := Some(value.text))) else Err(VersionNotText(line))
    else if key == "releaseDate" then
      if value.Text? then Ok(p.(releaseDate := Some(value.text))) else Err(ReleaseDateNotText(line))
    else if key == "path" || key == "sha512" then Ok(p)
    else Ok(p.(extras := p.extras[key := value]))
  }

  function TopLevelStep(p: Progress, line: string, n: nat): Result<Progress, ParseError> {
    match CloseFiles(p, n)
    case Err(e) => Err(e)
    case Ok(closed) =>
      match MatchTopLevel(line)
      case None => Err(UnsupportedLine(n))
      case Some((key, raw)) => Assign(closed, key, ParseScalar(raw), n)
  }

  function Step(p: Progress, rawLine: string, n: nat): Result<Progress, ParseError> {
    var line := TrimEnd(rawLine);
    if line == "" then Ok(p)
    else if MatchField(line, "  - url:").Some? then
      match FileRecord(p.current, n)
      case Err(e) => Err(e)
      case Ok(done) =>
        var url := StripSingleQuotes(Trim(MatchField(line, "  - url:").value));
        Ok(p.(files := p.files + done, current := Some(PartialFile(url, None, None)), inFiles := true))
    else if MatchField(line, "    sha512:").Some? then
      if p.current.None? then Err(ShaWithoutFile(n))
      else
        var sha512 := StripSingleQuotes(Trim(MatchField(line, "    sha512:").value));
        Ok(p.(current := Some(p.current.value.(sha512 := Some(sha512)))))
    else if MatchDigits(line, "    size:").Some? then
      if p.current.None? then Err(SizeWithoutFile(n))
      else
        var size := DecimalValue(MatchDigits(line, "    size:").value);
        Ok(p.(current := Some(p.current.value.(size := Some(size)))))
    else if line == "files:" then Ok(p.(inFiles := true))
    else TopLevelStep(p, line, n)
  }

  function ParseFrom(p: Progress, lines: seq<string>, n: nat): Result<Progress, ParseError>
    decreases |lines|
  {
    if lines == [] then Ok(p)
    else
      match Step(p, lines[0], n)
      case Err(e) => Err(e)
      case Ok(q) => ParseFrom(q, lines[1..], n + 1)
  }

  function Finish(p: Progress, lineCount: nat): Result<Manifest, ParseError> {
    match FileRecord(p.current, lineCount)
    case Err(e) => Err(e)
    case Ok(done) =>
      var files := p.files + done;
      if p.version.None? || p.version.value == "" then Err(MissingVersion)
      else if p.releaseDate.None? || p.releaseDate.value == "" then Err(MissingReleaseDate)
      else if files == [] then Err(MissingFiles)
      else Ok(Manifest(p.version.value, p.releaseDate.value, files, p.extras))
  }

  function FinishAll(result: Result<Progress, ParseError>, lineCount: nat): Result<Manifest, ParseError> {
    match result
    case Err(e) => Err(e)
    case Ok(p) => Finish(p, lineCount)
  }

  function Parsed(raw: string): Result<Manifest, ParseError> {
    var lines := SplitLines(raw);
    FinishAll(ParseFrom(START, lines, 1), |lines|)
  }

  /** `parseMacUpdateManifest`: one pass over the lines with mutable cursors. */
  method ParseManifest(raw: string) returns (r: Result<Manifest, ParseError>)
    ensures r == Parsed(raw)
  {
    hide TrimStart, TrimEnd, MatchField, MatchDigits, MatchTopLevel, ParseScalar, FileRecord, StripSingleQuotes,
         DecimalValue, SplitLines;
    var lines := SplitLines(raw);
    var files: seq<File> := [];
    var extras: map<string, Scalar> := map[];
    var version: Option<string> := None;
    var releaseDate: Option<string> := None;
    var inFiles := false;
    var currentFile: Option<PartialFile> := None;
    var index := 0;
    assert lines[0..] == lines;
    while index < |lines|
      invariant 0 <= index <= |lines|
      invariant ParseFrom(Progress(version, releaseDate, files, extras, inFiles, currentFile), lines[index..],
                          index + 1)
             == ParseFrom(START, lines, 1)
    {
      var lineNumber := index + 1;
      var line := TrimEnd(lines[index]);
      assert lines[index..][1..] == lines[index + 1..];
      index := index + 1;
      if line == "" { continue; }

      var fileUrl := MatchField(line, "  - url:");
      if fileUrl.Some? {
        var finalized := FileRecord(currentFile, lineNumber);
        if finalized.Err? { return Err(finalized.error); }
        files := files + finalized.value;
        currentFile := Some(PartialFile(StripSingleQuotes(Trim(fileUrl.value)), None, None));
        inFiles := true;
        continue;
      }

      var fileSha := MatchField(line, "    sha512:");
      if fileSha.Some? {
        if currentFile.None? { return Err(ShaWithoutFile(lineNumber)); }
        currentFile := Some(currentFile.value.(sha512 := Some(StripSingleQuotes(Trim(fileSha.value)))));
        continue;
      }

      var fileSize := MatchDigits(line, "    size:");
      if fileSize.Some? {
        if currentFile.None? { return Err(SizeWithoutFile(lineNumber)); }
        currentFile := Some(currentFile.value.(size := Some(DecimalValue(fileSize.value))));
        continue;
      }

      if line == "files:" { inFiles := true; continue; }

      if inFiles && currentFile.Some? {
        var finalized := FileRecord(currentFile, lineNumber);
        if finalized.Err? { return Err(finalized.error); }
        files := files + finalized.value;
        currentFile := None;
      }
      inFiles := false;

      var topLevel := MatchTopLevel(line);
      if topLevel.None? { return Err(UnsupportedLine(lineNumber)); }
      var key, value := topLevel.value.0, ParseScalar(topLevel.value.1);
      if key == "version" {
        if !value.Text? { return Err(VersionNotText(lineNumber)); }
        version := Some(value.text);
      } else if key == "releaseDate" {
        if !value.Text? { return Err(ReleaseDateNotText(lineNumber)); }
        releaseDate := Some(value.text);
      } else if key != "path" && key != "sha512" {
        extras := extras[key := value];
      }
    }
    assert lines[index..] == [];

    var finalized := FileRecord(currentFile, |lines|);
    if finalized.Err? { return Err(finalized.error); }
    files := files + finalized.value;
    if version.None? || version.value == "" { return Err(MissingVersion); }
    if releaseDate.None? || releaseDate.value == "" { return Err(MissingReleaseDate); }
    if files == [] { return Err(MissingFiles); }
    r := Ok(Manifest(version.value, releaseDate.value, files, extras));
  }

  // ---------------------------------------------------------------- printing

  predicate Least(k: string, keys: set<string>) {
    k in keys && forall j | j in keys :: TextLeq(k, j)
  }

  lemma {:induction false} LeastExists(keys: set<string>)
    requires keys != {}
    ensures exists k :: Least(k, keys)
  {
    var k :| k in keys;
    var others := keys - {k};
    TextLeqTotal(k, k);
    if others == {} {
      assert keys == {k};
      assert Least(k, keys);
    } else {
      LeastExists(others);
      var l :| Least(l, others);
      TextLeqTotal(k, l);
      if TextLeq(k, l) {
        forall j | j in keys ensures TextLeq(k, j) {
          if j != k { TextLeqTransitive(k, l, j); }
        }
        assert Least(k, keys);
      } else {
        assert Least(l, keys);
      }
    }
  }

  lemma LeastUnique(keys: set<string>)
    ensures forall j, k :: Least(j, keys) && Least(k, keys) ==> j == k
  {
    forall j, k | Least(j, keys) && Least(k, keys) ensures j == k { TextLeqAntisymmetric(j, k); }
  }

  /** `Object.keys(extras).toSorted()`. */
  function SortedKeys(keys: set<string>): (r: seq<string>)
    ensures forall k :: k in r <==> k in keys
    ensures forall i, j | 0 <= i < j < |r| :: r[i] != r[j] && TextLeq(r[i], r[j])
  {
    if keys == {} then []
    else
      LeastExists(keys);
      LeastUnique(keys);
      var k :| Least(k, keys);
      [k] + SortedKeys(keys - {k})
  }

  function FileLines(file: File): seq<string> {
    ["  - url: " + file.url, "    sha512: " + file.sha512, "    size: " + PrintNumber(file.size)]
  }

  function AllFileLines(files: seq<File>): seq<string> {
    if files == [] then [] else FileLines(files[0]) + AllFileLines(files[1..])
  }

  function ExtraLines(extras: map<string, Scalar>, keys: seq<string>): seq<string>
    requires forall k | k in keys :: k in extras
  {
    if keys == [] then [] else [keys[0] + ": " + PrintScalar(extras[keys[0]])] + ExtraLines(extras, keys[1..])
  }

  function PrintedLines(m: Manifest): seq<string> {
    ["version: " + m.version, "files:"]
    + AllFileLines(m.files)
    + ExtraLines(m.extras, SortedKeys(m.extras.Keys))
    + ["releaseDate: " + QuoteYaml(m.releaseDate), ""]
  }

  function Printed(m: Manifest): string { JoinLines(PrintedLines(m)) }

  /** `serializeMacUpdateManifest`: pushes the lines one at a time. */
  method SerializeManifest(m: Manifest) returns (text: string)
    ensures text == Printed(m)
  {
    hide SortedKeys, PrintScalar, QuoteYaml, PrintNumber, JoinLines;
    var lines := ["version: " + m.version, "files:"];
    var head := lines;
    for i := 0 to |m.files|
      invariant lines + AllFileLines(m.files[i..]) == head + AllFileLines(m.files)
    {
      var file := m.files[i];
      assert m.files[i..][0] == file && m.files[i..][1..] == m.files[i + 1..];
      ghost var before := lines;
      lines := lines + ["  - url: " + file.url];
      lines := lines + ["    sha512: " + file.sha512];
      lines := lines + ["    size: " + PrintNumber(file.size)];
      assert lines == before + FileLines(file);
    }
    assert m.files[|m.files|..] == [];
    assert lines == head + AllFileLines(m.files);
    head := lines;
    var keys := SortedKeys(m.extras.Keys);
    assert keys[0..] == keys;
    for i := 0 to |keys|
      invariant lines + ExtraLines(m.extras, keys[i..]) == head + ExtraLines(m.extras, keys)
    {
      assert keys[i..][0] == keys[i] && keys[i..][1..] == keys[i + 1..];
      lines := lines + [keys[i] + ": " + PrintScalar(m.extras[keys[i]])];
    }
    assert keys[|keys|..] == [];
    assert lines + [] == lines;
    assert lines == head + ExtraLines(m.extras, keys);
    lines := lines + ["releaseDate: " + QuoteYaml(m.releaseDate)];
    lines := lines + [""];
    assert lines == PrintedLines(m);
    text := JoinLines(lines);
  }
}
