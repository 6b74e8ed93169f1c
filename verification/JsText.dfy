/**
 The string operations the release scripts lean on: trimming, splitting at line
 ends, the regular expressions `\s*(.+)$` and `\s*(\d+)$`, decimal numerals, and
 the quote doubling of single-quoted YAML scalars.
 */
module JsText {
  import opened Wrappers

  predicate IsLineTerminator(c: char) {
    c == '\n' || c == '\r' || c == '\U{2028}' || c == '\U{2029}'
  }

  /** The class `\s`, which is also what `trim` removes. */
  predicate IsSpace(c: char) {
    || IsLineTerminator(c)
    || c == ' ' || c == '\t' || c == '\U{000B}' || c == '\U{000C}'
    || c == '\U{00A0}' || c == '\U{1680}' || '\U{2000}' <= c <= '\U{200A}'
    || c == '\U{202F}' || c == '\U{205F}' || c == '\U{3000}' || c == '\U{FEFF}'
  }

  predicate IsDigit(c: char) { '0' <= c <= '9' }

  predicate IsAlpha(c: char) { 'a' <= c <= 'z' || 'A' <= c <= 'Z' }

  predicate AllDigits(s: string) { s != "" && forall i | 0 <= i < |s| :: IsDigit(s[i]) }

  predicate AllSpace(s: string) { forall i | 0 <= i < |s| :: IsSpace(s[i]) }

  /** No character that `.` refuses to match. */
  predicate SingleLine(s: string) { forall i | 0 <= i < |s| :: !IsLineTerminator(s[i]) }

  // ---------------------------------------------------------------- trimming

  function TrimStart(s: string): (r: string)
    ensures |r| <= |s| && r == s[|s| - |r|..] && AllSpace(s[..|s| - |r|])
    ensures r != "" ==> !IsSpace(r[0])
  {
    if s == "" || !IsSpace(s[0]) then s else TrimStart(s[1..])
  }

  function TrimEnd(s: string): (r: string)
    ensures |r| <= |s| && r == s[..|r|] && AllSpace(s[|r|..])
    ensures r != "" ==> !IsSpace(r[|r| - 1])
  {
    if s == "" || !IsSpace(s[|s| - 1]) then s else TrimEnd(s[..|s| - 1])
  }

  function Trim(s: string): (r: string)
    ensures r != "" ==> !IsSpace(r[0]) && !IsSpace(r[|r| - 1])
  {
    TrimStart(TrimEnd(s))
  }

  lemma {:induction false} TrimStartOf(blank: string, rest: string)
    requires AllSpace(blank)
    requires rest != "" ==> !IsSpace(rest[0])
    ensures TrimStart(blank + rest) == rest
  {
    if blank == "" {
      assert blank + rest == rest;
    } else {
      assert (blank + rest)[1..] == blank[1..] + rest;
      TrimStartOf(blank[1..], rest);
    }
  }

  lemma {:induction false} TrimEndOf(rest: string, blank: string)
    requires AllSpace(blank)
    requires rest != "" ==> !IsSpace(rest[|rest| - 1])
    ensures TrimEnd(rest + blank) == rest
  {
    if blank == "" {
      assert rest + blank == rest;
    } else {
      var n := |blank| - 1;
      assert (rest + blank)[..|rest + blank| - 1] == rest + blank[..n];
      assert (rest + blank)[|rest + blank| - 1] == blank[n];
      TrimEndOf(rest, blank[..n]);
    }
  }

  /** Text that neither starts nor ends with a blank is left alone by `trim`. */
  lemma TrimStable(s: string)
    requires s != "" ==> !IsSpace(s[0]) && !IsSpace(s[|s| - 1])
    ensures TrimEnd(s) == s && TrimStart(s) == s && Trim(s) == s
  {
  }

  lemma TrimSingleLine(s: string)
    requires SingleLine(s)
    ensures SingleLine(TrimStart(s)) && SingleLine(TrimEnd(s)) && SingleLine(Trim(s))
  {
    hide IsSpace, AllSpace, SingleLine, TrimStart, TrimEnd;
    var t := TrimEnd(s);
    var i, j := |s| - |TrimStart(s)|, |t| - |TrimStart(t)|;
    assert s[i..|s|] == s[i..] && s[0..|t|] == s[..|t|] && t[j..|t|] == t[j..];
    PartSingleLine(s, i, |s|);
    PartSingleLine(s, 0, |t|);
    PartSingleLine(t, j, |t|);
  }

  lemma PartSingleLine(s: string, i: int, j: int)
    requires SingleLine(s) && 0 <= i <= j <= |s|
    ensures SingleLine(s[i..j])
  {
    hide IsLineTerminator;
  }

  // ------------------------------------------------------------------- lines

  /** `split(/\r?\n/)`. */
  function SplitLines(s: string): (lines: seq<string>)
    ensures |lines| >= 1
  {
    if s == "" then [""]
    else if s[0] == '\n' then [""] + SplitLines(s[1..])
    else if s[0] == '\r' && |s| >= 2 && s[1] == '\n' then [""] + SplitLines(s[2..])
    else
      var rest := SplitLines(s[1..]);
      [[s[0]] + rest[0]] + rest[1..]
  }

  /** `join("\n")`. */
  function JoinLines(lines: seq<string>): string {
    if |lines| == 0 then ""
    else if |lines| == 1 then lines[0]
    else lines[0] + "\n" + JoinLines(lines[1..])
  }

  /** A line that `SplitLines` cannot break and whose end it cannot eat. */
  predicate Unbroken(line: string) {
    && '\n' !in line
    && (line != "" ==> line[|line| - 1] != '\r')
  }

  predicate Splittable(lines: seq<string>) {
    && |lines| >= 1
    && (forall i | 0 <= i < |lines| - 1 :: Unbroken(lines[i]))
    && '\n' !in lines[|lines| - 1]
  }

  lemma {:induction false} SplitOne(line: string)
    requires '\n' !in line
    ensures SplitLines(line) == [line]
  {
    if line != "" {
      SplitOne(line[1..]);
      assert [line[0]] + line[1..] == line;
    }
  }

  lemma {:induction false} SplitFirst(line: string, rest: string)
    requires Unbroken(line)
    ensures SplitLines(line + "\n" + rest) == [line] + SplitLines(rest)
  {
    var s := line + "\n" + rest;
    if line == "" {
      assert s[0] == '\n' && s[1..] == rest;
    } else {
      assert s[0] == line[0];
      assert s[1..] == line[1..] + "\n" + rest;
      if |line| == 1 { assert s[1] == '\n'; } else { assert s[1] == line[1]; }
      SplitFirst(line[1..], rest);
      assert [line[0]] + line[1..] == line;
    }
  }

  /** Splitting undoes joining. */
  lemma {:induction false} SplitJoin(lines: seq<string>)
    requires Splittable(lines)
    ensures SplitLines(JoinLines(lines)) == lines
  {
    if |lines| == 1 {
      SplitOne(lines[0]);
    } else {
      SplitFirst(lines[0], JoinLines(lines[1..]));
      SplitJoin(lines[1..]);
    }
  }

  lemma {:induction false} SplitHasNoNewline(s: string)
    ensures forall i | 0 <= i < |SplitLines(s)| :: '\n' !in SplitLines(s)[i]
  {
    if s != "" {
      if s[0] == '\n' {
        SplitHasNoNewline(s[1..]);
      } else if s[0] == '\r' && |s| >= 2 && s[1] == '\n' {
        SplitHasNoNewline(s[2..]);
      } else {
        SplitHasNoNewline(s[1..]);
      }
    }
  }

  // --------------------------------------------------- the expression `\s*(.+)$`

  /** One way to match `\s*(.+)$`: `k` blanks, then at least one character, none a line end. */
  predicate ValueSplit(rest: string, k: int) {
    0 <= k < |rest| && AllSpace(rest[..k]) && SingleLine(rest[k..])
  }

  /** What `(.+)` captures. */
  function MatchValue(rest: string): (r: Option<string>)
    ensures r.Some? ==> r.value != "" && SingleLine(r.value)
  {
    var v := TrimStart(rest);
    if v != "" then
      if SingleLine(v) then Some(v) else None
    else if rest != "" && !IsLineTerminator(rest[|rest| - 1]) then Some([rest[|rest| - 1]])
    else None
  }

  /** A match cannot start later than the first visible character. */
  lemma ValueSplitBound(rest: string, k: int)
    requires ValueSplit(rest, k)
    ensures TrimStart(rest) != "" ==> k <= |rest| - |TrimStart(rest)|
  {
  }

  /** A later start of the same match is still a match, down to the last character. */
  lemma ValueSplitTail(rest: string, k: int, n: int)
    requires ValueSplit(rest, k) && k <= n < |rest|
    ensures SingleLine(rest[n..])
  {
  }

  /**
   `MatchValue` is the expression's greedy match: it matches exactly when some split does, and blanks take the most.
   */
  lemma MatchValueIsGreedy(rest: string)
    ensures MatchValue(rest).Some? <==> exists k :: ValueSplit(rest, k)
    ensures MatchValue(rest).Some? ==>
              var v := MatchValue(rest).value;
              && |v| <= |rest| && v == rest[|rest| - |v|..] && ValueSplit(rest, |rest| - |v|)
              && forall k | ValueSplit(rest, k) :: k <= |rest| - |v|
  {
    if MatchValue(rest).Some? {
      var w := MatchValue(rest).value;
      MatchSplits(rest);
      hide MatchValue, ValueSplit;
      assert ValueSplit(rest, |rest| - |w|);
      forall k | ValueSplit(rest, k) ensures k <= |rest| - |w| { SplitBound(rest, k); }
    }
    forall k | ValueSplit(rest, k) ensures MatchValue(rest).Some? { SplitMatches(rest, k); }
  }

  lemma MatchSplits(rest: string)
    requires MatchValue(rest).Some?
    ensures var v := MatchValue(rest).value;
            |v| <= |rest| && v == rest[|rest| - |v|..] && ValueSplit(rest, |rest| - |v|)
  {
    hide IsSpace, IsLineTerminator;
    if TrimStart(rest) == "" {
      assert rest[..|rest|] == rest && MatchValue(rest).value == rest[|rest| - 1..];
    }
  }

  lemma SplitBound(rest: string, k: int)
    requires MatchValue(rest).Some? && ValueSplit(rest, k)
    ensures k <= |rest| - |MatchValue(rest).value|
  {
    ValueSplitBound(rest, k);
    hide ValueSplit, SingleLine;
    assert 0 <= k < |rest| by { SplitInside(rest, k); }
  }

  lemma SplitInside(rest: string, k: int)
    requires ValueSplit(rest, k)
    ensures 0 <= k < |rest| && !IsLineTerminator(rest[|rest| - 1])
  {
    assert rest[k..][|rest| - 1 - k] == rest[|rest| - 1];
  }

  lemma SplitMatches(rest: string, k: int)
    requires ValueSplit(rest, k)
    ensures MatchValue(rest).Some?
  {
    ValueSplitBound(rest, k);
    SplitInside(rest, k);
    var v := TrimStart(rest);
    if v != "" { ValueSplitTail(rest, k, |rest| - |v|); }
  }

  /** `^prefix\s*(.+)$`. */
  function MatchField(line: string, prefix: string): (r: Option<string>)
    ensures r.Some? ==> prefix <= line && r.value != "" && SingleLine(r.value)
  {
    if prefix <= line then MatchValue(line[|prefix|..]) else None
  }

  /** `^prefix\s*(\d+)$`. */
  function MatchDigits(line: string, prefix: string): (r: Option<string>)
    ensures r.Some? ==> prefix <= line && AllDigits(r.value)
  {
    if prefix <= line && AllDigits(TrimStart(line[|prefix|..])) then Some(TrimStart(line[|prefix|..]))
    else None
  }

  /** A captured value is what is left once leading blanks go, when anything is left. */
  lemma MatchFieldIs(prefix: string, blank: string, v: string)
    requires AllSpace(blank) && v != "" && !IsSpace(v[0]) && SingleLine(v)
    ensures MatchField(prefix + blank + v, prefix) == Some(v)
  {
    var line := prefix + blank + v;
    assert line[|prefix|..] == blank + v;
    TrimStartOf(blank, v);
  }

  /** Digits have to follow the blanks at once and run to the end of the line. */
  lemma MatchDigitsFails(prefix: string, blank: string, v: string)
    requires AllSpace(blank) && v != "" && !IsSpace(v[0]) && !AllDigits(v)
    ensures MatchDigits(prefix + blank + v, prefix) == None
  {
    var line := prefix + blank + v;
    assert line[|prefix|..] == blank + v;
    TrimStartOf(blank, v);
  }

  lemma MatchDigitsIs(prefix: string, blank: string, v: string)
    requires AllSpace(blank) && AllDigits(v)
    ensures MatchDigits(prefix + blank + v, prefix) == Some(v)
  {
    var line := prefix + blank + v;
    assert line[|prefix|..] == blank + v;
    assert IsDigit(v[0]);
    TrimStartOf(blank, v);
  }

  // ------------------------------------------------------------------ quotes

  /** `replace(/'/g, "''")`. */
  function DoubleQuotes(s: string): string {
    if s == "" then ""
    else if s[0] == '\'' then "''" + DoubleQuotes(s[1..])
    else [s[0]] + DoubleQuotes(s[1..])
  }

  /** `replace(/''/g, "'")`: pairs are taken from the left and never overlap. */
  function UndoubleQuotes(s: string): (r: string)
    ensures |r| <= |s|
  {
    if s == "" then ""
    else if |s| >= 2 && s[0] == '\'' && s[1] == '\'' then "'" + UndoubleQuotes(s[2..])
    else [s[0]] + UndoubleQuotes(s[1..])
  }

  lemma {:induction false} QuotesRoundTrip(s: string)
    ensures UndoubleQuotes(DoubleQuotes(s)) == s
  {
    if s != "" {
      var d := DoubleQuotes(s);
      QuotesRoundTrip(s[1..]);
      if s[0] == '\'' {
        assert d[0] == '\'' && d[1] == '\'' && d[2..] == DoubleQuotes(s[1..]);
      } else {
        assert d[0] == s[0] && d[1..] == DoubleQuotes(s[1..]);
      }
    }
  }

  lemma {:induction false} DoubleQuotesSingleLine(s: string)
    requires SingleLine(s)
    ensures SingleLine(DoubleQuotes(s))
  {
    if s != "" {
      assert SingleLine(s[1..]) by {
        forall i | 0 <= i < |s[1..]| ensures !IsLineTerminator(s[1..][i]) { assert s[1..][i] == s[i + 1]; }
      }
      DoubleQuotesSingleLine(s[1..]);
    }
  }

  lemma {:induction false} UndoubleQuotesSingleLine(s: string)
    requires SingleLine(s)
    ensures SingleLine(UndoubleQuotes(s))
  {
    if s != "" {
      if |s| >= 2 && s[0] == '\'' && s[1] == '\'' {
        UndoubleQuotesSingleLine(s[2..]);
      } else {
        UndoubleQuotesSingleLine(s[1..]);
      }
    }
  }

  // ---------------------------------------------------------------- decimals

  function DigitChar(d: nat): char
    requires d < 10
  {
    '0' + d as char
  }

  function DigitValue(c: char): (d: nat)
    requires IsDigit(c)
    ensures d < 10
  {
    (c - '0') as int
  }

  /** The decimal digits of a non-negative integer. */
  function Decimal(n: nat): (s: string)
    ensures AllDigits(s)
  {
    if n < 10 then [DigitChar(n)] else Decimal(n / 10) + [DigitChar(n % 10)]
  }

  /** `Number(s)` of a run of digits. */
  function DecimalValue(s: string): nat
    requires AllDigits(s)
  {
    if |s| == 1 then DigitValue(s[0])
    else 10 * DecimalValue(s[..|s| - 1]) + DigitValue(s[|s| - 1])
  }

  lemma {:induction false} DecimalRoundTrip(n: nat)
    ensures DecimalValue(Decimal(n)) == n
  {
    if n >= 10 {
      DecimalRoundTrip(n / 10);
      var s := Decimal(n);
      assert s[..|s| - 1] == Decimal(n / 10);
    }
  }

  /** From here on `String(n)` is in exponent form. */
  const EXPONENT_FROM := 1_000_000_000_000_000_000_000

  function StripZeros(digits: string): (s: string)
    requires AllDigits(digits)
    ensures AllDigits(s) && |s| <= |digits|
  {
    if |digits| > 1 && digits[|digits| - 1] == '0' then StripZeros(digits[..|digits| - 1]) else digits
  }

  /** `String(n)` of a non-negative integer. */
  function PrintNumber(n: nat): (s: string)
    ensures s != "" && IsDigit(s[0]) && IsDigit(s[|s| - 1]) && SingleLine(s)
    ensures AllDigits(s) <==> n < EXPONENT_FROM
    ensures n >= EXPONENT_FROM ==> 'e' in s
  {
    if n < EXPONENT_FROM then Decimal(n)
    else
      var head, power := StripZeros(Decimal(n)), Decimal(|Decimal(n)| - 1);
      var mantissa := if |head| == 1 then head else head[..1] + "." + head[1..];
      assert (mantissa + "e+" + power)[|mantissa|] == 'e';
      mantissa + "e+" + power
  }

  function Padded(digits: string, width: nat): (s: string)
    requires AllDigits(digits)
    ensures AllDigits(s) && |s| >= width && |s| >= |digits|
    decreases width - |digits|
  {
    if |digits| >= width then digits else Padded("0" + digits, width)
  }

  lemma {:induction false} PaddedValue(digits: string, width: nat)
    requires AllDigits(digits)
    ensures DecimalValue(Padded(digits, width)) == DecimalValue(digits)
    decreases width - |digits|
  {
    if |digits| < width {
      ZeroBefore(digits);
      PaddedValue("0" + digits, width);
    }
  }

  lemma {:induction false} ZeroBefore(digits: string)
    requires AllDigits(digits)
    ensures AllDigits("0" + digits) && DecimalValue("0" + digits) == DecimalValue(digits)
    decreases |digits|
  {
    var s, n := "0" + digits, |digits| - 1;
    assert s[..|s| - 1] == "0" + digits[..n] && s[|s| - 1] == digits[n];
    if n > 0 {
      ZeroBefore(digits[..n]);
    } else {
      assert digits[..0] == "" && "0" + "" == "0";
    }
  }

  /** A fraction this small is printed in exponent form. */
  predicate Tiny(n: nat, scale: nat) { |Decimal(n)| + 6 <= scale }

  /** `String` of `n` / 10^`scale`, for a fraction in lowest tenths. */
  function PrintFraction(n: nat, scale: nat): (s: string)
    requires scale > 0
  {
    var digits := Decimal(n);
    if Tiny(n, scale) then
      (if |digits| == 1 then digits else digits[..1] + "." + digits[1..]) + "e-" + Decimal(scale - |digits| + 1)
    else
      var padded := Padded(digits, scale + 1);
      padded[..|padded| - scale] + "." + padded[|padded| - scale..]
  }

  /** What can be seen of it whatever the number. */
  lemma FractionShape(n: nat, scale: nat)
    requires scale > 0
    ensures var s := PrintFraction(n, scale);
            s != "" && IsDigit(s[0]) && IsDigit(s[|s| - 1]) && SingleLine(s) && (Tiny(n, scale) ==> 'e' in s)
  {
    hide Decimal, Padded;
    var digits, s := Decimal(n), PrintFraction(n, scale);
    if Tiny(n, scale) {
      var mantissa := if |digits| == 1 then digits else digits[..1] + "." + digits[1..];
      assert s == mantissa + "e-" + Decimal(scale - |digits| + 1);
      assert s[|mantissa|] == 'e' && s[0] == digits[0];
    }
  }

  /** What is printed is a run of digits that reads back as the number exactly below that bound. */
  lemma NumberRoundTrip(n: nat)
    ensures AllDigits(PrintNumber(n)) && DecimalValue(PrintNumber(n)) == n <==> n < EXPONENT_FROM
  {
    if n < EXPONENT_FROM { DecimalRoundTrip(n); }
  }

  // ---------------------------------------------------------------- ordering

  /** The code-unit order that `sort()` and `>=` use on strings. */
  predicate TextLeq(a: string, b: string) {
    if a == "" then true
    else if b == "" then false
    else if a[0] != b[0] then a[0] < b[0]
    else TextLeq(a[1..], b[1..])
  }

  /** One text is the start of the other, or it has the smaller code unit where they first differ. */
  lemma {:induction false} TextLeqIff(a: string, b: string)
    ensures TextLeq(a, b) <==>
              a <= b || exists k :: 0 <= k < |a| && k < |b| && a[..k] == b[..k] && a[k] < b[k]
    decreases |a|
  {
    if a != "" && b != "" && a[0] == b[0] {
      TextLeqIff(a[1..], b[1..]);
      assert a == [a[0]] + a[1..] && b == [b[0]] + b[1..];
      if k :| 0 <= k < |a[1..]| && k < |b[1..]| && a[1..][..k] == b[1..][..k] && a[1..][k] < b[1..][k] {
        assert a[..k + 1] == [a[0]] + a[1..][..k] && b[..k + 1] == [b[0]] + b[1..][..k];
        assert a[..k + 1] == b[..k + 1] && a[k + 1] < b[k + 1];
      }
      if k :| 0 <= k < |a| && k < |b| && a[..k] == b[..k] && a[k] < b[k] {
        assert k > 0 && a[1..][..k - 1] == a[..k][1..] && b[1..][..k - 1] == b[..k][1..];
        assert a[1..][k - 1] < b[1..][k - 1];
      }
    } else if a != "" && b != "" {
      forall k | 0 < k <= |a| && k <= |b| ensures a[..k] != b[..k] { assert a[..k][0] == a[0] && b[..k][0] == b[0]; }
      if a[0] < b[0] { assert a[..0] == b[..0]; }
    }
  }

  lemma {:induction false} TextLeqTotal(a: string, b: string)
    ensures TextLeq(a, b) || TextLeq(b, a)
  {
    if a != "" && b != "" { TextLeqTotal(a[1..], b[1..]); }
  }

  lemma {:induction false} TextLeqAntisymmetric(a: string, b: string)
    requires TextLeq(a, b) && TextLeq(b, a)
    ensures a == b
  {
    if a != "" && b != "" {
      TextLeqAntisymmetric(a[1..], b[1..]);
      assert a == [a[0]] + a[1..] && b == [b[0]] + b[1..];
    }
  }

  lemma {:induction false} TextLeqTransitive(a: string, b: string, c: string)
    requires TextLeq(a, b) && TextLeq(b, c)
    ensures TextLeq(a, c)
  {
    if a != "" && b != "" && c != "" && a[0] == b[0] == c[0] { TextLeqTransitive(a[1..], b[1..], c[1..]); }
  }
}
