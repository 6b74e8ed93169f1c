/**
 What parsing a printed manifest gives back: for every manifest whose fields are
 single lines, exactly when it parses and to what; and from that, exactly which
 manifests survive the round trip.
 */
module ManifestRoundTrip {
  import opened Wrappers
  import opened JsText
  import opened UpdateManifest

  // -------------------------------------------------------------- conditions

  predicate Reserved(key: string) { key in {"version", "releaseDate", "path", "sha512"} }

  predicate CleanScalar(value: Scalar) {
    && (value.Text? ==> SingleLine(value.text))
    && (value.Fraction? ==> value.scale > 0 && value.mantissa % 10 != 0)
  }

  predicate CleanExtras(extras: map<string, Scalar>) {
    forall k | k in extras :: IsKey(k) && !Reserved(k) && CleanScalar(extras[k])
  }

  predicate CleanFile(file: File) { SingleLine(file.url) && SingleLine(file.sha512) }

  /** Every field fits on the line it is printed on. */
  predicate Clean(m: Manifest) {
    && SingleLine(m.version) && SingleLine(m.releaseDate)
    && (forall i | 0 <= i < |m.files| :: CleanFile(m.files[i]))
    && CleanExtras(m.extras)
  }

  /** The value an unquoted field reads back as. */
  function Reread(field: string): string { StripSingleQuotes(Trim(field)) }

  function RereadFile(file: File): File { File(Reread(file.url), Reread(file.sha512), file.size) }

  function RereadFiles(files: seq<File>): seq<File> {
    if files == [] then [] else [RereadFile(files[0])] + RereadFiles(files[1..])
  }

  predicate ReadableFile(file: File) { Trim(file.url) != "" && Trim(file.sha512) != "" && file.size < EXPONENT_FROM }

  predicate ReadableFiles(files: seq<File>) { forall i | 0 <= i < |files| :: ReadableFile(files[i]) }

  /** The printed text of a clean manifest is accepted by the parser. */
  predicate Readable(m: Manifest) {
    && Trim(m.version) != "" && ParseScalar(m.version).Text? && ParseScalar(m.version).text != ""
    && m.releaseDate != ""
    && m.files != [] && ReadableFiles(m.files)
  }

  /** A number that is printed in plain digits. */
  predicate PlainNumber(value: Scalar) {
    && (value.Integer? ==> -EXPONENT_FROM < value.number < EXPONENT_FROM)
    && (value.Fraction? ==> !Tiny(Abs(value.mantissa), value.scale))
  }

  function Abs(n: int): nat { if n < 0 then -n else n }

  /** A number in exponent form reads back as text. */
  function RereadScalar(value: Scalar): Scalar {
    if PlainNumber(value) then value else Text(PrintScalar(value))
  }

  function RereadExtras(extras: map<string, Scalar>): map<string, Scalar> {
    map k | k in extras :: RereadScalar(extras[k])
  }

  function RereadManifest(m: Manifest): Manifest
    requires ParseScalar(m.version).Text?
  {
    Manifest(ParseScalar(m.version).text, m.releaseDate, RereadFiles(m.files), RereadExtras(m.extras))
  }

  /** An unquoted field that the parser reads back unchanged. */
  predicate PlainField(field: string) {
    field != "" && SingleLine(field) && !IsSpace(field[0]) && !IsSpace(field[|field| - 1]) && !Quoted(field)
  }

  /** A version that is not taken for a quoted string, a boolean or a number. */
  predicate PlainVersion(version: string) {
    && version != "" && SingleLine(version) && !IsSpace(version[0]) && !IsSpace(version[|version| - 1])
    && !(Quoted(version) && |version| >= 2)
    && version != "true" && version != "false"
    && !IntegerLiteral(version) && !FractionLiteral(version)
  }

  predicate PlainFile(file: File) { PlainField(file.url) && PlainField(file.sha512) && file.size < EXPONENT_FROM }

  predicate PlainNumbers(extras: map<string, Scalar>) { forall k | k in extras :: PlainNumber(extras[k]) }

  /** Fields are plain, and numbers small enough to be printed in digits. */
  predicate WellFormed(m: Manifest) {
    && PlainVersion(m.version)
    && m.releaseDate != "" && SingleLine(m.releaseDate)
    && m.files != [] && (forall i | 0 <= i < |m.files| :: PlainFile(m.files[i]))
    && CleanExtras(m.extras) && PlainNumbers(m.extras)
  }

  // ----------------------------------------------------------------- scalars

  lemma QuotedScalar(text: string)
    requires SingleLine(text)
    ensures SingleLine(QuoteYaml(text)) && QuoteYaml(text) != "" && Trim(QuoteYaml(text)) == QuoteYaml(text)
    ensures ParseScalar(QuoteYaml(text)) == Text(text)
  {
    var q := QuoteYaml(text);
    DoubleQuotesSingleLine(text);
    QuotesRoundTrip(text);
    TrimStable(q);
    assert q[1..|q| - 1] == DoubleQuotes(text);
  }

  lemma IntegerLiteralShape(s: string)
    requires IntegerLiteral(s)
    ensures s != "" && SingleLine(s) && !Quoted(s) && s != "true" && s != "false"
    ensures !IsSpace(s[0]) && !IsSpace(s[|s| - 1])
  {
  }

  lemma IntegerLiteralScalar(s: string)
    requires IntegerLiteral(s)
    ensures SingleLine(s) && s != "" && Trim(s) == s && ParseScalar(s) == Integer(IntegerOf(s))
  {
    hide Trim, IntegerLiteral, FractionLiteral, IntegerOf, SingleLine, Quoted;
    IntegerLiteralShape(s);
    TrimStable(s);
  }

  lemma IntegerScalar(n: int)
    ensures var s := PrintScalar(Integer(n));
            SingleLine(s) && s != "" && Trim(s) == s && ParseScalar(s) == RereadScalar(Integer(n))
  {
    hide Trim, ParseScalar, DecimalValue, PrintNumber;
    var m: nat := if n < 0 then -n else n;
    var digits := PrintNumber(m);
    var s := PrintScalar(Integer(n));
    assert Unsigned(s) == digits;
    NumberRoundTrip(m);
    if m < EXPONENT_FROM {
      IntegerLiteralScalar(s);
    } else {
      ExponentScalar(s, digits);
    }
  }

  /** A number in exponent form is no literal the parser knows. */
  lemma ExponentScalar(s: string, digits: string)
    requires Unsigned(s) == digits && digits != "" && IsDigit(digits[0]) && IsDigit(digits[|digits| - 1])
             && 'e' in digits
    ensures Trim(s) == s && ParseScalar(s) == Text(s)
  {
    NoLiteral(s, digits);
    NumeralShape(s, digits);
    PlainText(s);
  }

  /** What begins and ends with a digit, a sign apart, is neither quoted nor a word and is not trimmed. */
  lemma NumeralShape(s: string, digits: string)
    requires Unsigned(s) == digits && digits != "" && IsDigit(digits[0]) && IsDigit(digits[|digits| - 1])
    ensures s != "" && Trim(s) == s && !Quoted(s) && s != "true" && s != "false"
    ensures SingleLine(digits) ==> SingleLine(s)
  {
    assert s == digits || (s[0] == '-' && s[1..] == digits);
    assert s[|s| - 1] == digits[|digits| - 1];
    DigitShape(s[0]);
    DigitShape(s[|s| - 1]);
    hide TrimStart, TrimEnd, Trim, IsSpace, IsLineTerminator;
    TrimStable(s);
    assert s[0] != 't' && s[0] != 'f' && s[0] != '\'';
    hide IsDigit, Unsigned;
  }

  lemma DigitShape(c: char)
    requires IsDigit(c) || c == '-'
    ensures !IsSpace(c) && !IsLineTerminator(c)
  {
  }

  lemma PlainText(s: string)
    requires Trim(s) == s && !Quoted(s) && s != "true" && s != "false" && !IntegerLiteral(s) && !FractionLiteral(s)
    ensures ParseScalar(s) == Text(s)
  {
    hide Trim, Quoted, IntegerLiteral, FractionLiteral;
  }

  lemma NoLiteral(s: string, digits: string)
    requires Unsigned(s) == digits && 'e' in digits
    ensures !IntegerLiteral(s) && !FractionLiteral(s)
  {
    hide Unsigned;
    var i, dot := 0, LeadingDigits(digits);
    i :| 0 <= i < |digits| && digits[i] == 'e';
    if i > dot { assert digits[dot + 1..][i - dot - 1] == 'e'; }
  }

  /** A fraction reads back as itself, or in exponent form as text. */
  lemma FractionScalar(m: int, scale: nat)
    requires scale > 0 && m % 10 != 0
    ensures var value, s := Fraction(m, scale), PrintScalar(Fraction(m, scale));
            SingleLine(s) && Trim(s) != "" && ParseScalar(s) == RereadScalar(value)
  {
    var digits, s := PrintFraction(Abs(m), scale), PrintScalar(Fraction(m, scale));
    FractionShape(Abs(m), scale);
    hide Trim, ParseScalar, PrintFraction, Tiny, Decimal, IsSpace, IsLineTerminator, Quoted, IntegerLiteral,
         FractionLiteral, FractionOf;
    assert Unsigned(s) == digits;
    NumeralShape(s, digits);
    if Tiny(Abs(m), scale) {
      ExponentScalar(s, digits);
    } else {
      TenthsLiteral(m, scale, s);
      FractionLiteralScalar(s);
    }
  }

  /** The digits before and after the point are those of the mantissa. */
  lemma TenthsLiteral(m: int, scale: nat, s: string)
    requires scale > 0 && m % 10 != 0 && !Tiny(Abs(m), scale)
    requires Unsigned(s) == PrintFraction(Abs(m), scale) && (s != "" && s[0] == '-' <==> m < 0)
    ensures !IntegerLiteral(s) && FractionLiteral(s) && FractionOf(s) == Fraction(m, scale)
  {
    hide Tiny, Decimal, DecimalValue, Unsigned;
    var padded, body := Padded(Decimal(Abs(m)), scale + 1), Unsigned(s);
    hide Padded;
    var dot := |padded| - scale;
    var before, after := padded[..dot], padded[dot..];
    assert body == before + "." + after;
    assert body[..dot] == before && body[dot] == '.' && body[dot + 1..] == after;
    hide PrintFraction;
    LeadingDigitsAre(body, dot);
    hide LeadingDigits;
    Rejoined(padded, dot);
    PaddedValue(Decimal(Abs(m)), scale + 1);
    DecimalRoundTrip(Abs(m));
    assert !IsDigit(body[dot]);
    assert Signed(s, DecimalValue(before + after)) == m && |body| - dot - 1 == scale;
  }

  lemma Rejoined(s: string, n: nat)
    requires n <= |s|
    ensures s[..n] + s[n..] == s
  {
  }

  lemma {:induction false} LeadingDigitsAre(s: string, n: nat)
    requires n < |s| && !IsDigit(s[n]) && forall i | 0 <= i < n :: IsDigit(s[i])
    ensures LeadingDigits(s) == n
  {
    if n > 0 { LeadingDigitsAre(s[1..], n - 1); }
  }

  lemma FractionLiteralScalar(s: string)
    requires FractionLiteral(s) && !IntegerLiteral(s) && Trim(s) == s && !Quoted(s) && s != "true" && s != "false"
    ensures ParseScalar(s) == FractionOf(s)
  {
    hide Trim, Quoted, IntegerLiteral, FractionLiteral, FractionOf;
  }

  // ------------------------------------------------------ equal numbers

  /** `m` / 10^`scale`. */
  function Value(m: int, scale: nat): real {
    if scale == 0 then m as real else Value(m, scale - 1) / 10.0
  }

  predicate NumberLiteral(s: string) { IntegerLiteral(s) || FractionLiteral(s) }

  /** The number a literal denotes. */
  function NumberOf(s: string): real
    requires NumberLiteral(s)
  {
    if IntegerLiteral(s) then IntegerOf(s) as real
    else
      var body := Unsigned(s);
      var dot := LeadingDigits(body);
      Value(Signed(s, DecimalValue(body[..dot] + body[dot + 1..])), |body| - dot - 1)
  }

  predicate IsNumber(value: Scalar) {
    value.Integer? || (value.Fraction? && value.scale > 0 && value.mantissa % 10 != 0)
  }

  function ScalarValue(value: Scalar): real
    requires IsNumber(value)
  {
    if value.Integer? then value.number as real else Value(value.mantissa, value.scale)
  }

  /** Two number literals are read as the same value exactly when they denote the same number. */
  lemma SameNumberIff(a: string, b: string)
    requires NumberLiteral(a) && NumberLiteral(b)
    ensures ParseScalar(a) == ParseScalar(b) <==> NumberOf(a) == NumberOf(b)
  {
    hide NumberLiteral, ParseScalar, NumberOf, IsNumber, ScalarValue;
    LiteralValue(a);
    LiteralValue(b);
    if NumberOf(a) == NumberOf(b) { SameValue(ParseScalar(a), ParseScalar(b)); }
  }

  lemma LiteralValue(s: string)
    requires NumberLiteral(s)
    ensures IsNumber(ParseScalar(s)) && ScalarValue(ParseScalar(s)) == NumberOf(s)
  {
    var body := Unsigned(s);
    assert body != "" && IsDigit(body[0]) && IsDigit(body[|body| - 1]);
    NumeralShape(s, body);
    hide Trim, Quoted, IntegerLiteral, Unsigned;
    if IntegerLiteral(s) {
      hide IntegerOf;
    } else {
      var dot := LeadingDigits(body);
      var m, scale := Signed(s, DecimalValue(body[..dot] + body[dot + 1..])), |body| - dot - 1;
      hide FractionLiteral, Signed, DecimalValue, Value, LowestTenths;
      LowestTenthsValue(m, scale);
    }
  }

  lemma {:induction false} LowestTenthsValue(m: int, scale: nat)
    ensures IsNumber(LowestTenths(m, scale)) && ScalarValue(LowestTenths(m, scale)) == Value(m, scale)
    decreases scale
  {
    if scale > 0 && m % 10 == 0 {
      TenTenths(m / 10, scale - 1);
      LowestTenthsValue(m / 10, scale - 1);
    }
  }

  lemma {:induction false} TenTenths(m: int, scale: nat)
    ensures Value(10 * m, scale + 1) == Value(m, scale)
    decreases scale
  {
    if scale > 0 { TenTenths(m, scale - 1); }
  }

  lemma SameValue(a: Scalar, b: Scalar)
    requires IsNumber(a) && IsNumber(b) && ScalarValue(a) == ScalarValue(b)
    ensures a == b
  {
    if a.Fraction? && b.Fraction? {
      SameTenths(a.mantissa, a.scale, b.mantissa, b.scale);
    } else if a.Fraction? {
      WholeTenths(a.mantissa, a.scale, b.number);
    } else if b.Fraction? {
      WholeTenths(b.mantissa, b.scale, a.number);
    }
  }

  lemma {:induction false} WholeTenths(m: int, scale: nat, k: int)
    requires scale > 0 && Value(m, scale) == k as real
    ensures m % 10 == 0
    decreases scale
  {
    assert Value(m, scale - 1) == (10 * k) as real;
    if scale > 1 { WholeTenths(m, scale - 1, 10 * k); }
  }

  lemma {:induction false} SameTenths(m: int, s: nat, n: int, t: nat)
    requires Value(m, s) == Value(n, t) && (s > 0 ==> m % 10 != 0) && (t > 0 ==> n % 10 != 0)
    ensures m == n && s == t
    decreases s
  {
    if s > 0 && t > 0 {
      SameTenths(m, s - 1, n, t - 1);
    } else if s > 0 {
      WholeTenths(m, s, n);
    } else if t > 0 {
      WholeTenths(n, t, m);
    }
  }

  lemma BooleanScalar(flag: bool)
    ensures var s := PrintScalar(Boolean(flag)); SingleLine(s) && Trim(s) != "" && ParseScalar(s) == Boolean(flag)
  {
    hide TrimStart, TrimEnd, Trim, UndoubleQuotes, IntegerLiteral, FractionLiteral, Quoted, QuoteYaml, PrintNumber;
    var s := PrintScalar(Boolean(flag));
    assert s == if flag then "true" else "false";
    WordShape(s);
  }

  lemma WordShape(s: string)
    requires s == "true" || s == "false"
    ensures SingleLine(s) && Trim(s) == s && !Quoted(s)
  {
    hide TrimStart, TrimEnd, Trim;
    TrimStable(s);
  }

  /** Every printable extra value reads back as itself, unless it is a number in exponent form. */
  lemma ScalarRoundTrip(value: Scalar)
    requires CleanScalar(value)
    ensures var s := PrintScalar(value); SingleLine(s) && Trim(s) != "" && ParseScalar(s) == RereadScalar(value)
  {
    hide Trim, ParseScalar, QuoteYaml, PrintNumber, SingleLine;
    match value
    case Text(text) => QuotedScalar(text);
    case Integer(n) => IntegerScalar(n);
    case Fraction(m, scale) => FractionScalar(m, scale);
    case Boolean(flag) => BooleanScalar(flag);
  }

  // --------------------------------------------------------- one line at a time

  /** A field with nothing visible in it leaves its bare prefix on the line. */
  lemma BlankFieldLine(prefix: string, s: string)
    requires prefix != "" && prefix[|prefix| - 1] == ':' && Trim(s) == ""
    ensures TrimEnd(prefix + " " + s) == prefix
  {
    hide TrimStart, TrimEnd;
    var tail, e := " " + s, TrimEnd(s);
    assert AllSpace(e) by { assert e[..|e|] == e; }
    assert e == "";
    assert AllSpace(s) by { assert s[0..] == s; }
    assert prefix + " " + s == prefix + tail;
    TrimEndOf(prefix, tail);
  }

  /** A visible field is captured by `^prefix\s*(.+)$` once the line is trimmed. */
  lemma FieldLine(prefix: string, s: string)
    requires prefix != "" && prefix[|prefix| - 1] == ':' && SingleLine(s) && Trim(s) != ""
    ensures TrimEnd(prefix + " " + s) == prefix + " " + TrimEnd(s)
    ensures MatchValue(" " + TrimEnd(s)) == Some(Trim(s))
  {
    hide TrimStart, TrimEnd;
    var e, v := TrimEnd(s), Trim(s);
    var shown, hidden := prefix + " " + e, s[|e|..];
    assert prefix + " " + s == shown + hidden;
    assert e != "";
    assert shown[|shown| - 1] == e[|e| - 1];
    TrimEndOf(shown, hidden);
    var blank := " " + e[..|e| - |v|];
    assert " " + e == blank + v;
    TrimStartOf(blank, v);
    TrimSingleLine(s);
  }

  lemma TrimTwice(s: string)
    ensures Trim(Trim(s)) == Trim(s)
  {
  }

  /** An indented line is never a top-level entry. */
  lemma IndentedStep(p: Progress, line: string, n: nat)
    requires line != "" && line[0] == ' '
    ensures TopLevelStep(p, line, n).Err?
  {
  }

  lemma BareField(prefix: string)
    ensures MatchField(prefix, prefix) == None
  {
  }

  /** A line that ends in a visible character is not trimmed. */
  lemma EndStable(s: string)
    requires s != "" ==> !IsSpace(s[|s| - 1])
    ensures TrimEnd(s) == s
  {
  }

  /** `Step` trims a line before it looks at it. */
  lemma StepTrims(p: Progress, line: string, n: nat)
    ensures Step(p, line, n) == Step(p, TrimEnd(line), n)
  {
    hide TrimEnd, MatchField, MatchDigits, TopLevelStep;
    EndStable(TrimEnd(line));
  }

  lemma UrlStep(p: Progress, u: string, n: nat)
    requires SingleLine(u)
    ensures Trim(u) == "" ==> Step(p, "  - url: " + u, n).Err?
    ensures Trim(u) != "" ==>
              (Step(p, "  - url: " + u, n)
            == match FileRecord(p.current, n)
               case Err(e) => Err(e)
               case Ok(done) => Ok(p.(files := p.files + done, current := Some(PartialFile(Reread(u), None, None)),
                                      inFiles := true)))
  {
    hide TrimStart, TrimEnd, MatchValue, MatchDigits, TopLevelStep, StripSingleQuotes;
    var prefix := "  - url:";
    assert "  - url: " + u == prefix + " " + u;
    if Trim(u) == "" {
      BlankFieldLine(prefix, u);
      hide MatchField, Step, FileRecord, Trim;
      StepTrims(p, prefix + " " + u, n);
      BareUrlStep(p, n);
    } else {
      FieldLine(prefix, u);
      assert (prefix + " " + TrimEnd(u))[|prefix|..] == " " + TrimEnd(u);
      TrimTwice(u);
    }
  }

  lemma BareUrlStep(p: Progress, n: nat)
    ensures Step(p, "  - url:", n).Err?
  {
    hide TrimStart, TrimEnd, MatchValue, TopLevelStep, StripSingleQuotes;
    var line := "  - url:";
    EndStable(line);
    BareField(line);
    assert line[2] == '-';
    IndentedStep(p, line, n);
  }

  lemma ShaStep(p: Progress, s: string, n: nat)
    requires SingleLine(s) && p.current.Some?
    ensures Trim(s) == "" ==> Step(p, "    sha512: " + s, n).Err?
    ensures Trim(s) != "" ==>
              Step(p, "    sha512: " + s, n) == Ok(p.(current := Some(p.current.value.(sha512 := Some(Reread(s))))))
  {
    hide TrimStart, TrimEnd, MatchValue, MatchDigits, TopLevelStep, StripSingleQuotes;
    var prefix := "    sha512:";
    assert "    sha512: " + s == prefix + " " + s;
    if Trim(s) == "" {
      BlankFieldLine(prefix, s);
      hide MatchField, Step, Trim;
      StepTrims(p, prefix + " " + s, n);
      BareShaStep(p, n);
    } else {
      FieldLine(prefix, s);
      TrimTwice(s);
      hide MatchField, Step, Trim;
      StepTrims(p, prefix + " " + s, n);
      EndStable(TrimEnd(prefix + " " + s));
      ShownShaStep(p, TrimEnd(s), Trim(s), n);
    }
  }

  lemma ShownShaStep(p: Progress, shown: string, v: string, n: nat)
    requires p.current.Some? && MatchValue(" " + shown) == Some(v) && Trim(v) == v
    requires TrimEnd("    sha512:" + " " + shown) == "    sha512:" + " " + shown
    ensures Step(p, "    sha512:" + " " + shown, n)
            == Ok(p.(current := Some(p.current.value.(sha512 := Some(StripSingleQuotes(v))))))
  {
    hide TrimStart, TrimEnd, Trim, MatchValue, MatchDigits, TopLevelStep, StripSingleQuotes;
    var line := "    sha512:" + " " + shown;
    assert line[2] == ' ' && line[|"    sha512:"|..] == " " + shown;
  }

  lemma BareShaStep(p: Progress, n: nat)
    ensures Step(p, "    sha512:", n).Err?
  {
    hide TrimStart, TrimEnd, MatchValue, TopLevelStep, StripSingleQuotes;
    var line := "    sha512:";
    EndStable(line);
    BareField(line);
    assert line[2] == ' ' && line[5] == 'h';
    IndentedStep(p, line, n);
  }

  lemma SizeStep(p: Progress, size: nat, n: nat)
    requires p.current.Some?
    ensures size < EXPONENT_FROM ==>
              Step(p, "    size: " + PrintNumber(size), n)
              == Ok(p.(current := Some(p.current.value.(size := Some(size)))))
    ensures size >= EXPONENT_FROM ==> Step(p, "    size: " + PrintNumber(size), n).Err?
  {
    hide TrimStart, TrimEnd, MatchValue, TopLevelStep, StripSingleQuotes, PrintNumber, DecimalValue;
    var prefix, digits := "    size:", PrintNumber(size);
    var line := "    size: " + digits;
    assert line == prefix + " " + digits;
    assert line[|line| - 1] == digits[|digits| - 1];
    DigitShape(line[|line| - 1]);
    DigitShape(digits[0]);
    assert IsSpace(' ');
    hide IsSpace, IsLineTerminator, SingleLine;
    EndStable(line);
    assert line[2] == ' ' && line[5] == 'i';
    NumberRoundTrip(size);
    if size < EXPONENT_FROM {
      MatchDigitsIs(prefix, " ", digits);
    } else {
      MatchDigitsFails(prefix, " ", digits);
      IndentedStep(p, line, n);
    }
  }

  lemma FilesHeaderStep(p: Progress, n: nat)
    ensures Step(p, "files:", n) == Ok(p.(inFiles := true))
  {
  }

  lemma {:induction false} FirstColonIs(key: string, rest: string)
    requires ':' !in key
    ensures FirstColon(key + ":" + rest) == |key|
  {
    var line := key + ":" + rest;
    if key == "" {
      assert line[0] == ':';
    } else {
      assert line[0] == key[0];
      assert line[1..] == key[1..] + ":" + rest;
      FirstColonIs(key[1..], rest);
    }
  }

  lemma TopLevelKey(key: string, rest: string)
    requires IsKey(key)
    ensures MatchTopLevel(key + ":" + rest)
         == match MatchValue(rest) case Some(v) => Some((key, v)) case None => None
  {
    hide MatchValue, FirstColon;
    var line := key + ":" + rest;
    assert ':' !in key;
    FirstColonIs(key, rest);
    assert line[..|key|] == key && line[|key| + 1..] == rest;
  }

  /** A line that starts with a key and goes on after its colon is seen as a top-level entry only. */
  lemma TopLevelOnly(p: Progress, line: string, n: nat, colon: nat)
    requires 0 < colon < |line| && line[colon] == ':' && line[0] != ' '
    requires line != "files:" && TrimEnd(line) == line
    ensures Step(p, line, n) == TopLevelStep(p, line, n)
  {
    hide TrimEnd, MatchValue, TopLevelStep;
    assert !("  - url:" <= line) && !("    sha512:" <= line) && !("    size:" <= line);
  }

  lemma NotFilesHeader(line: string, colon: nat)
    requires colon + 1 < |line| && line[colon] == ':'
    ensures line != "files:"
  {
  }

  lemma TrimmedKeyStep(p: Progress, key: string, rest: string, n: nat)
    requires IsKey(key)
    requires key + ":" + rest != "files:" && TrimEnd(key + ":" + rest) == key + ":" + rest
    ensures Step(p, key + ":" + rest, n)
         == match CloseFiles(p, n)
            case Err(e) => Err(e)
            case Ok(closed) =>
              match MatchValue(rest)
              case None => Err(UnsupportedLine(n))
              case Some(raw) => Assign(closed, key, ParseScalar(raw), n)
  {
    hide TrimEnd, MatchValue, CloseFiles, Assign, Step, MatchTopLevel, ParseScalar;
    var line := key + ":" + rest;
    assert line[|key|] == ':' && line[0] == key[0];
    TopLevelOnly(p, line, n, |key|);
    TopLevelKey(key, rest);
  }

  /** A printed `key: raw` line closes the open record and assigns the value. */
  lemma KeyStep(p: Progress, key: string, raw: string, n: nat)
    requires IsKey(key) && SingleLine(raw) && Trim(raw) != ""
    ensures Step(p, key + ": " + raw, n)
         == match CloseFiles(p, n)
            case Err(e) => Err(e)
            case Ok(closed) => Assign(closed, key, ParseScalar(raw), n)
  {
    hide *;
    var shown := TrimEnd(raw);
    var rest := " " + shown;
    var line := key + ":" + rest;
    assert key + ": " + raw == (key + ":") + " " + raw;
    assert line == (key + ":") + " " + shown;
    FieldLine(key + ":", raw);
    StepTrims(p, key + ": " + raw, n);
    assert TrimEnd(line) == line by { EndStable(TrimEnd(key + ": " + raw)); }
    assert line[|key|] == ':';
    NotFilesHeader(line, |key|);
    TrimmedKeyStep(p, key, rest, n);
    assert ParseScalar(Trim(raw)) == ParseScalar(raw) by { ParseTrimmed(raw); }
  }

  lemma ParseTrimmed(raw: string)
    ensures ParseScalar(Trim(raw)) == ParseScalar(raw)
  {
    hide Trim, IntegerLiteral, FractionLiteral;
    TrimTwice(raw);
  }

  /** A version with nothing visible in it is refused. */
  lemma BlankVersionStep(p: Progress, version: string, n: nat)
    requires Trim(version) == ""
    ensures Step(p, "version: " + version, n).Err?
  {
    var line := "version:";
    assert TrimEnd("version: " + version) == line && TrimEnd(line) == line by {
      hide *;
      assert "version: " + version == line + " " + version;
      BlankFieldLine(line, version);
      EndStable(TrimEnd("version: " + version));
    }
    hide TrimStart, TrimEnd, CloseFiles, Step, Trim, Assign, ParseScalar;
    StepTrims(p, "version: " + version, n);
    assert line == "version" + ":" + "";
    TrimmedKeyStep(p, "version", "", n);
  }

  // ------------------------------------------------------------ runs of lines

  lemma {:induction false} ParseAppend(p: Progress, a: seq<string>, b: seq<string>, n: nat)
    ensures ParseFrom(p, a + b, n)
         == match ParseFrom(p, a, n)
            case Err(e) => Err(e)
            case Ok(q) => ParseFrom(q, b, n + |a|)
    decreases |a|
  {
    hide Step;
    if a == [] {
      assert a + b == b;
    } else {
      assert (a + b)[0] == a[0] && (a + b)[1..] == a[1..] + b;
      if Step(p, a[0], n).Ok? { ParseAppend(Step(p, a[0], n).value, a[1..], b, n + 1); }
    }
  }

  /** The record being read, if any, is complete: the next line may close it. */
  predicate Closable(p: Progress) {
    p.current.Some? ==> p.inFiles && p.current.value.sha512.Some? && p.current.value.size.Some?
  }

  /** The progress once the open record is closed. */
  function Settled(p: Progress): Progress
    requires Closable(p)
  {
    match p.current
    case None => p.(inFiles := false)
    case Some(f) => p.(files := p.files + [File(f.url, f.sha512.value, f.size.value)], current := None,
                       inFiles := false)
  }

  lemma CloseIsSettled(p: Progress, n: nat)
    requires Closable(p)
    ensures CloseFiles(p, n) == Ok(Settled(p))
    ensures FileRecord(p.current, n).Ok? && p.files + FileRecord(p.current, n).value == Settled(p).files
  {
  }

  /** These lines are accepted and add exactly these files, the last of which may still be open. */
  predicate Reads(p: Progress, lines: seq<string>, n: nat, files: seq<File>)
    requires Closable(p)
  {
    var r := ParseFrom(p, lines, n);
    r.Ok? && Closable(r.value) && Settled(r.value) == Settled(p).(files := Settled(p).files + files)
  }

  lemma ReadsAppend(p: Progress, a: seq<string>, b: seq<string>, n: nat, done: seq<File>, rest: seq<File>)
    requires Closable(p) && Reads(p, a, n, done) && Reads(ParseFrom(p, a, n).value, b, n + |a|, rest)
    ensures Reads(p, a + b, n, done + rest)
  {
    hide ParseFrom;
    ParseAppend(p, a, b, n);
    assert Settled(p).files + (done + rest) == Settled(p).files + done + rest;
  }

  lemma FileBlock(p: Progress, f: File, n: nat)
    requires Closable(p) && CleanFile(f)
    ensures if ReadableFile(f) then Reads(p, FileLines(f), n, [RereadFile(f)]) else ParseFrom(p, FileLines(f), n).Err?
  {
    hide Step, Trim, Reread, SingleLine, PrintNumber;
    var lines := FileLines(f);
    assert lines[1..] == [lines[1], lines[2]] && lines[1..][1..] == [lines[2]] && lines[1..][1..][1..] == [];
    CloseIsSettled(p, n);
    UrlStep(p, f.url, n);
    if Trim(f.url) != "" {
      var p1 := Step(p, lines[0], n).value;
      assert ParseFrom(p, lines, n) == ParseFrom(p1, lines[1..], n + 1);
      ShaStep(p1, f.sha512, n + 1);
      if Trim(f.sha512) != "" {
        var p2 := Step(p1, lines[1], n + 1).value;
        assert ParseFrom(p1, lines[1..], n + 1) == ParseFrom(p2, lines[1..][1..], n + 2);
        SizeStep(p2, f.size, n + 2);
        if f.size < EXPONENT_FROM {
          var p3 := Step(p2, lines[2], n + 2).value;
          assert ParseFrom(p2, lines[1..][1..], n + 2) == ParseFrom(p3, [], n + 3) == Ok(p3);
          assert File(p3.current.value.url, p3.current.value.sha512.value, p3.current.value.size.value)
                 == RereadFile(f);
        } else {
          assert ParseFrom(p2, lines[1..][1..], n + 2).Err?;
        }
      } else {
        assert ParseFrom(p1, lines[1..], n + 1).Err?;
      }
    }
  }

  lemma ReadableCons(f: File, rest: seq<File>)
    ensures ReadableFiles([f] + rest) <==> ReadableFile(f) && ReadableFiles(rest)
  {
    hide ReadableFile;
    var files := [f] + rest;
    assert files[0] == f;
    if ReadableFiles(files) {
      forall i | 0 <= i < |rest| ensures ReadableFile(rest[i]) { assert rest[i] == files[i + 1]; }
    }
  }

  lemma FilesCons(f: File, rest: seq<File>)
    ensures RereadFiles([f] + rest) == [RereadFile(f)] + RereadFiles(rest)
    ensures AllFileLines([f] + rest) == FileLines(f) + AllFileLines(rest)
  {
  }

  lemma FilesNil(p: Progress, n: nat)
    requires Closable(p)
    ensures Reads(p, AllFileLines([]), n, RereadFiles([]))
    ensures ReadableFiles([])
  {
  }

  /**
   The file lines are accepted exactly when every url and digest shows something and every size is in digits, and add
   the files in order.
   */
  lemma {:induction false} FilesBlock(p: Progress, files: seq<File>, n: nat)
    requires Closable(p) && forall i | 0 <= i < |files| :: CleanFile(files[i])
    ensures if ReadableFiles(files) then Reads(p, AllFileLines(files), n, RereadFiles(files))
            else ParseFrom(p, AllFileLines(files), n).Err?
    decreases |files|
  {
    if files == [] {
      hide *;
      FilesNil(p, n);
    } else {
      var f, rest := files[0], files[1..];
      assert files == [f] + rest;
      assert CleanFile(f);
      FilesPair(p, f, rest, n);
    }
  }

  lemma {:induction false} FilesPair(p: Progress, f: File, rest: seq<File>, n: nat)
    requires Closable(p) && CleanFile(f) && forall i | 0 <= i < |rest| :: CleanFile(rest[i])
    ensures var files := [f] + rest;
            if ReadableFiles(files) then Reads(p, AllFileLines(files), n, RereadFiles(files))
            else ParseFrom(p, AllFileLines(files), n).Err?
    decreases |rest| + 1, 0
  {
    hide CleanFile, ReadableFile, ReadableFiles, FileLines, RereadFile, Closable, ParseFrom, AllFileLines, RereadFiles;
    var head, tail := FileLines(f), AllFileLines(rest);
    FilesCons(f, rest);
    ReadableCons(f, rest);
    FileBlock(p, f, n);
    ParseAppend(p, head, tail, n);
    if ReadableFile(f) {
      var q := ParseFrom(p, head, n).value;
      assert Closable(q);
      FilesBlock(q, rest, n + |head|);
      if ReadableFiles(rest) { ReadsAppend(p, head, tail, n, [RereadFile(f)], RereadFiles(rest)); }
    }
  }

  function Restrict(extras: map<string, Scalar>, keys: seq<string>): map<string, Scalar>
    requires forall k | k in keys :: k in extras
  {
    map k | k in keys :: extras[k]
  }

  /** One printed extra is accepted, closes the open record, and defines its key. */
  lemma ExtraStep(p: Progress, key: string, value: Scalar, n: nat)
    requires Closable(p) && IsKey(key) && !Reserved(key) && CleanScalar(value)
    ensures Step(p, key + ": " + PrintScalar(value), n)
            == Ok(Settled(p).(extras := p.extras[key := RereadScalar(value)]))
  {
    hide Step, ParseScalar, PrintScalar, Trim, SingleLine, IsKey, CleanScalar, CloseFiles, RereadScalar;
    ScalarRoundTrip(value);
    KeyStep(p, key, PrintScalar(value), n);
    CloseIsSettled(p, n);
  }

  lemma RestrictCons(base: map<string, Scalar>, extras: map<string, Scalar>, key: string, rest: seq<string>)
    requires key in extras && forall k | k in rest :: k in extras
    ensures base[key := RereadScalar(extras[key])] + RereadExtras(Restrict(extras, rest))
            == base + RereadExtras(Restrict(extras, [key] + rest))
  {
    hide RereadScalar;
  }

  /**
   The extra lines are accepted, close the open record, and define exactly their keys, with the values they read back
   as.
   */
  lemma {:induction false} ExtrasBlock(p: Progress, extras: map<string, Scalar>, keys: seq<string>, n: nat)
    requires Closable(p) && CleanExtras(extras)
    requires forall k | k in keys :: k in extras
    ensures var r := ParseFrom(p, ExtraLines(extras, keys), n);
            r.Ok? && Closable(r.value)
            && Settled(r.value) == Settled(p).(extras := p.extras + RereadExtras(Restrict(extras, keys)))
    decreases |keys|
  {
    hide Step, PrintScalar, IsKey, CleanScalar, RereadScalar;
    if keys == [] {
      assert p.extras + RereadExtras(Restrict(extras, keys)) == p.extras;
    } else {
      var key, rest := keys[0], keys[1..];
      assert keys == [key] + rest;
      ExtraStep(p, key, extras[key], n);
      var q := Settled(p).(extras := p.extras[key := RereadScalar(extras[key])]);
      var lines := ExtraLines(extras, keys);
      assert lines[0] == key + ": " + PrintScalar(extras[key]) && lines[1..] == ExtraLines(extras, rest);
      assert ParseFrom(p, lines, n) == ParseFrom(q, ExtraLines(extras, rest), n + 1);
      RestrictCons(p.extras, extras, key, rest);
      ExtrasBlock(q, extras, rest, n + 1);
    }
  }

  // ------------------------------------------------------- the printed lines

  lemma SingleLineConcat(a: string, b: string)
    requires SingleLine(a) && SingleLine(b)
    ensures SingleLine(a + b)
  {
  }

  lemma SingleLineUnbroken(line: string)
    requires SingleLine(line)
    ensures Unbroken(line) && '\n' !in line
  {
  }

  lemma {:induction false} FileLinesUnbroken(files: seq<File>)
    requires forall i | 0 <= i < |files| :: CleanFile(files[i])
    ensures forall i | 0 <= i < |AllFileLines(files)| :: SingleLine(AllFileLines(files)[i])
  {
    if files != [] {
      assert CleanFile(files[0]);
      SingleLineConcat("  - url: ", files[0].url);
      SingleLineConcat("    sha512: ", files[0].sha512);
      SingleLineConcat("    size: ", PrintNumber(files[0].size));
      FileLinesUnbroken(files[1..]);
    }
  }

  lemma KeySingleLine(key: string)
    requires IsKey(key)
    ensures SingleLine(key + ": ")
  {
  }

  lemma {:induction false} ExtraLinesUnbroken(extras: map<string, Scalar>, keys: seq<string>)
    requires CleanExtras(extras)
    requires forall k | k in keys :: k in extras
    ensures forall i | 0 <= i < |ExtraLines(extras, keys)| :: SingleLine(ExtraLines(extras, keys)[i])
  {
    hide SingleLine, IsKey, CleanScalar, PrintScalar, ParseScalar, Trim, RereadScalar, Reserved;
    if keys != [] {
      var key := keys[0];
      assert key in keys && IsKey(key) && CleanScalar(extras[key]);
      ScalarRoundTrip(extras[key]);
      KeySingleLine(key);
      SingleLineConcat(key + ": ", PrintScalar(extras[key]));
      ExtraLinesUnbroken(extras, keys[1..]);
    }
  }

  lemma EdgeLinesUnbroken(m: Manifest)
    requires Clean(m)
    ensures SingleLine("version: " + m.version) && SingleLine("files:")
            && SingleLine("releaseDate: " + QuoteYaml(m.releaseDate)) && SingleLine("")
  {
    hide QuoteYaml, IsSpace, Trim, ParseScalar, CleanExtras;
    QuotedScalar(m.releaseDate);
    assert SingleLine("version: ") && SingleLine("releaseDate: ");
    hide SingleLine;
    SingleLineConcat("version: ", m.version);
    SingleLineConcat("releaseDate: ", QuoteYaml(m.releaseDate));
  }

  lemma PrintedSplittable(m: Manifest)
    requires Clean(m)
    ensures Splittable(PrintedLines(m)) && |PrintedLines(m)| >= 2
  {
    hide SingleLine, QuoteYaml, AllFileLines, ExtraLines, SortedKeys, Unbroken;
    var lines := PrintedLines(m);
    EdgeLinesUnbroken(m);
    FileLinesUnbroken(m.files);
    ExtraLinesUnbroken(m.extras, SortedKeys(m.extras.Keys));
    forall i | 0 <= i < |lines| ensures Unbroken(lines[i]) && '\n' !in lines[i] {
      assert SingleLine(lines[i]);
      SingleLineUnbroken(lines[i]);
    }
  }

  lemma PrintedLinesSplit(m: Manifest)
    requires Clean(m)
    ensures SplitLines(Printed(m)) == PrintedLines(m)
  {
    hide SplitLines, JoinLines, Splittable, PrintedLines;
    PrintedSplittable(m);
    SplitJoin(PrintedLines(m));
  }

  // ------------------------------------------------------------ main results

  /** The two lines before the file records. */
  lemma HeadBlock(version: string)
    requires SingleLine(version)
    ensures var r := ParseFrom(START, ["version: " + version, "files:"], 1);
            if Trim(version) != "" && ParseScalar(version).Text?
            then r == Ok(START.(version := Some(ParseScalar(version).text), inFiles := true))
            else r.Err?
  {
    hide Step, Trim, ParseScalar, SingleLine;
    var lines := ["version: " + version, "files:"];
    assert lines[1..] == ["files:"] && ["files:"][1..] == [];
    if Trim(version) == "" {
      BlankVersionStep(START, version, 1);
    } else {
      assert IsKey("version");
      assert "version" + ": " + version == "version: " + version;
      KeyStep(START, "version", version, 1);
      if ParseScalar(version).Text? {
        var q := START.(version := Some(ParseScalar(version).text));
        FilesHeaderStep(q, 2);
        assert ParseFrom(q, ["files:"], 2) == ParseFrom(q.(inFiles := true), [], 3);
      }
    }
  }

  /** The two lines after the extras. */
  lemma TailBlock(p: Progress, releaseDate: string, n: nat)
    requires Closable(p) && SingleLine(releaseDate)
    ensures ParseFrom(p, ["releaseDate: " + QuoteYaml(releaseDate), ""], n)
            == Ok(Settled(p).(releaseDate := Some(releaseDate)))
  {
    hide Trim, ParseScalar, SingleLine, QuoteYaml, MatchField, MatchDigits, TopLevelStep;
    var raw := QuoteYaml(releaseDate);
    var lines := ["releaseDate: " + raw, ""];
    assert lines[1..] == [""] && [""][1..] == [];
    QuotedScalar(releaseDate);
    assert IsKey("releaseDate");
    assert "releaseDate" + ": " + raw == lines[0];
    KeyStep(p, "releaseDate", raw, n);
    CloseIsSettled(p, n);
    var q := Settled(p).(releaseDate := Some(releaseDate));
    assert Step(q, "", n + 1) == Ok(q);
    assert ParseFrom(q, [""], n + 1) == ParseFrom(q, [], n + 2);
  }

  /** Everything after the head lines, for a parser that has read them. */
  lemma BodyProgress(m: Manifest, p: Progress, n: nat)
    requires Clean(m)
    requires Closable(p) && Settled(p).files == [] && p.extras == map[]
    ensures var lines := AllFileLines(m.files)
                         + (ExtraLines(m.extras,
                                       SortedKeys(m.extras.Keys)) + ["releaseDate: " + QuoteYaml(m.releaseDate), ""]);
            var r := ParseFrom(p, lines, n);
            if ReadableFiles(m.files)
            then r
                 == Ok(Progress(p.version, Some(m.releaseDate), RereadFiles(m.files), RereadExtras(m.extras), false,
                                None))
            else r.Err?
  {
    hide Step, Trim, ParseScalar, SingleLine, QuoteYaml, CleanFile, ReadableFile, RereadFile, AllFileLines, ExtraLines,
         ParseFrom, SortedKeys;
    var keys := SortedKeys(m.extras.Keys);
    var files, extras, tail := AllFileLines(m.files), ExtraLines(m.extras, keys),
        ["releaseDate: " + QuoteYaml(m.releaseDate), ""];
    ParseAppend(p, files, extras + tail, n);
    FilesBlock(p, m.files, n);
    if ReadableFiles(m.files) {
      var q := ParseFrom(p, files, n).value;
      ParseAppend(q, extras, tail, n + |files|);
      ExtrasBlock(q, m.extras, keys, n + |files|);
      assert map[] + RereadExtras(Restrict(m.extras, keys)) == RereadExtras(m.extras) by {
        assert Restrict(m.extras, keys) == m.extras;
      }
      TailBlock(ParseFrom(q, extras, n + |files|).value, m.releaseDate, n + |files| + |extras|);
      assert [] + RereadFiles(m.files) == RereadFiles(m.files);
    }
  }

  /** Parsing the printed lines of a clean manifest. */
  lemma PrintedProgress(m: Manifest)
    requires Clean(m)
    ensures var r := ParseFrom(START, PrintedLines(m), 1);
            if Trim(m.version) != "" && ParseScalar(m.version).Text? && ReadableFiles(m.files)
            then r
                 == Ok(Progress(Some(ParseScalar(m.version).text), Some(m.releaseDate), RereadFiles(m.files),
                                RereadExtras(m.extras), false, None))
            else r.Err?
  {
    hide Step, Trim, ParseScalar, SingleLine, QuoteYaml, CleanFile, ReadableFile, RereadFile, AllFileLines, ExtraLines,
         ParseFrom, SortedKeys;
    var head := ["version: " + m.version, "files:"];
    var body := AllFileLines(m.files)
                + (ExtraLines(m.extras, SortedKeys(m.extras.Keys)) + ["releaseDate: " + QuoteYaml(m.releaseDate), ""]);
    assert PrintedLines(m) == head + body;
    ParseAppend(START, head, body, 1);
    HeadBlock(m.version);
    if Trim(m.version) != "" && ParseScalar(m.version).Text? {
      BodyProgress(m, ParseFrom(START, head, 1).value, 3);
    }
  }

  /** The whole outcome of parsing a printed manifest whose fields are single lines. */
  lemma PrintedOutcome(m: Manifest)
    requires Clean(m)
    ensures Parsed(Printed(m)).Ok? <==> Readable(m)
    ensures Readable(m) ==> Parsed(Printed(m)) == Ok(RereadManifest(m))
  {
    hide Step, Trim, ParseScalar, SingleLine, ReadableFile, RereadFile, PrintedLines, Printed, ParseFrom, SplitLines;
    PrintedLinesSplit(m);
    PrintedProgress(m);
    assert RereadFiles(m.files) + [] == RereadFiles(m.files);
  }

  // What the parser can produce at all.

  predicate CleanProgress(p: Progress) {
    && (p.version.Some? ==> SingleLine(p.version.value))
    && (p.releaseDate.Some? ==> SingleLine(p.releaseDate.value))
    && (forall i | 0 <= i < |p.files| :: CleanFile(p.files[i]))
    && CleanExtras(p.extras)
    && (p.current.Some? ==>
          SingleLine(p.current.value.url)
          && (p.current.value.sha512.Some? ==> SingleLine(p.current.value.sha512.value)))
  }

  lemma RereadClean(field: string)
    requires SingleLine(field)
    ensures SingleLine(Reread(field))
  {
    hide TrimStart, TrimEnd, UndoubleQuotes;
    TrimSingleLine(field);
    var t := Trim(field);
    if Quoted(t) && |t| >= 2 { UndoubleQuotesSingleLine(t[1..|t| - 1]); }
  }

  lemma ParseScalarClean(raw: string)
    requires SingleLine(raw)
    ensures CleanScalar(ParseScalar(raw))
  {
    hide TrimStart, TrimEnd, UndoubleQuotes, IntegerLiteral, FractionLiteral, IntegerOf, FractionOf;
    TrimSingleLine(raw);
    var t := Trim(raw);
    if Quoted(t) && |t| >= 2 { UndoubleQuotesSingleLine(t[1..|t| - 1]); }
  }

  lemma AssignClean(p: Progress, key: string, value: Scalar, n: nat)
    requires CleanProgress(p) && IsKey(key) && CleanScalar(value)
    ensures Assign(p, key, value, n).Ok? ==> CleanProgress(Assign(p, key, value, n).value)
  {
    hide SingleLine, IsKey;
  }

  lemma TopLevelStepClean(p: Progress, line: string, n: nat)
    requires CleanProgress(p)
    ensures TopLevelStep(p, line, n).Ok? ==> CleanProgress(TopLevelStep(p, line, n).value)
  {
    hide SingleLine, IsKey, CleanExtras, ParseScalar, CleanScalar, Assign;
    var top := MatchTopLevel(line);
    if CloseFiles(p, n).Ok? && top.Some? {
      ParseScalarClean(top.value.1);
      AssignClean(CloseFiles(p, n).value, top.value.0, ParseScalar(top.value.1), n);
    }
  }

  lemma StepClean(p: Progress, line: string, n: nat)
    requires CleanProgress(p)
    ensures Step(p, line, n).Ok? ==> CleanProgress(Step(p, line, n).value)
  {
    hide SingleLine, CleanExtras, TrimStart, TrimEnd, MatchField, MatchDigits, TopLevelStep, StripSingleQuotes,
         DecimalValue, Trim, IsLineTerminator, IsSpace, IsDigit, AllDigits, AllSpace;
    var t := TrimEnd(line);
    TopLevelStepClean(p, t, n);
    if MatchField(t, "  - url:").Some? { RereadClean(MatchField(t, "  - url:").value); }
    if MatchField(t, "    sha512:").Some? { RereadClean(MatchField(t, "    sha512:").value); }
  }

  lemma {:induction false} ParseFromClean(p: Progress, lines: seq<string>, n: nat)
    requires CleanProgress(p)
    ensures ParseFrom(p, lines, n).Ok? ==> CleanProgress(ParseFrom(p, lines, n).value)
    decreases |lines|
  {
    hide Step, CleanProgress;
    if lines != [] {
      StepClean(p, lines[0], n);
      if Step(p, lines[0], n).Ok? { ParseFromClean(Step(p, lines[0], n).value, lines[1..], n + 1); }
    }
  }

  /** Whatever the text, an accepted manifest has single-line fields and usable, unreserved extra keys. */
  lemma ParsedClean(raw: string)
    ensures Parsed(raw).Ok? ==>
              var m := Parsed(raw).value;
              Clean(m) && m.version != "" && m.releaseDate != "" && m.files != []
  {
    hide Step, SplitLines, ParseFrom, SingleLine;
    ParseFromClean(START, SplitLines(raw), 1);
  }

  /** Plain fields are exactly the visible ones that read back as themselves. */
  lemma PlainFieldIff(field: string)
    requires SingleLine(field)
    ensures PlainField(field) <==> Trim(field) != "" && Reread(field) == field
  {
    hide TrimStart, TrimEnd, UndoubleQuotes;
    if PlainField(field) {
      TrimStable(field);
    } else if field != "" && !IsSpace(field[0]) && !IsSpace(field[|field| - 1]) {
      TrimStable(field);
    } else if Trim(field) != "" {
      TrimShorter(field);
    }
  }

  /** Trimming text with a blank at either end makes it shorter. */
  lemma TrimShorter(s: string)
    ensures |Trim(s)| <= |s|
    ensures s != "" && (IsSpace(s[0]) || IsSpace(s[|s| - 1])) ==> |Trim(s)| < |s|
  {
  }

  lemma PlainVersionIff(version: string)
    requires SingleLine(version)
    ensures PlainVersion(version) <==> Trim(version) != "" && ParseScalar(version) == Text(version)
  {
    hide IsSpace, TrimStart, TrimEnd, Trim, SingleLine, UndoubleQuotes, IntegerLiteral, FractionLiteral, IntegerOf,
         FractionOf;
    TrimShorter(version);
    if version != "" && !IsSpace(version[0]) && !IsSpace(version[|version| - 1]) { TrimStable(version); }
  }

  lemma {:induction false} RereadFilesFixed(files: seq<File>)
    ensures RereadFiles(files) == files <==> forall i | 0 <= i < |files| :: RereadFile(files[i]) == files[i]
  {
    hide RereadFile;
    if files != [] {
      var f, rest := files[0], files[1..];
      assert files == [f] + rest;
      RereadFilesFixed(rest);
      assert RereadFiles(files) == files <==> RereadFile(f) == f && RereadFiles(rest) == rest;
      if RereadFiles(files) == files {
        forall i | 0 <= i < |files|
          ensures RereadFile(files[i]) == files[i]
        {
          if i > 0 { assert files[i] == rest[i - 1]; }
        }
      }
    }
  }

  lemma RereadExtrasFixed(extras: map<string, Scalar>)
    ensures RereadExtras(extras) == extras <==> PlainNumbers(extras)
  {
    hide PrintScalar;
    if RereadExtras(extras) == extras {
      forall k | k in extras ensures PlainNumber(extras[k]) { assert RereadExtras(extras)[k] == extras[k]; }
    }
  }

  /** `WellFormed` says of a clean manifest that it is readable and reads back unchanged. */
  lemma WellFormedIff(m: Manifest)
    requires Clean(m)
    ensures WellFormed(m) <==> Readable(m) && RereadManifest(m) == m
  {
    hide SingleLine, Trim, ParseScalar, PlainField, Reread, CleanExtras, Quoted, IntegerLiteral, FractionLiteral,
         RereadFiles;
    PlainVersionIff(m.version);
    RereadExtrasFixed(m.extras);
    hide RereadExtras, PlainNumbers;
    forall i | 0 <= i < |m.files|
      ensures PlainFile(m.files[i]) <==> ReadableFile(m.files[i]) && RereadFile(m.files[i]) == m.files[i]
    {
      assert CleanFile(m.files[i]);
      PlainFieldIff(m.files[i].url);
      PlainFieldIff(m.files[i].sha512);
    }
    RereadFilesFixed(m.files);
  }

  /** A manifest survives printing and parsing exactly when it is well formed. */
  lemma RoundTripIff(m: Manifest)
    ensures Parsed(Printed(m)) == Ok(m) <==> WellFormed(m)
  {
    hide SingleLine, Parsed, Printed, CleanExtras, Readable, RereadManifest;
    if WellFormed(m) {
      assert Clean(m);
      WellFormedIff(m);
      PrintedOutcome(m);
    }
    if Parsed(Printed(m)) == Ok(m) {
      ParsedClean(Printed(m));
      WellFormedIff(m);
      PrintedOutcome(m);
    }
  }
}
