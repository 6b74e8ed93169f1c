/**
 What is kept of a backend's output: its last characters, to quote when the desktop gives up
 (`apps/desktop/src/backendSupervisionPolicy.ts`, 120-135), and the first sign of a startup
 that needs the user (`apps/desktop/src/backendStartupBlock.ts`, 15-52).
*/
module OutputDetectors {
  import opened Wrappers
  import JsText

  const FAILURE_TAIL_CHARS := 8_192
  const STARTUP_CHARS := 16_384
  const MAX_SAFE_INTEGER := 9_007_199_254_740_991

  // -------------------------------------------------------------------- text

  /** `replace(/\r/g, "")`. */
  function StripCr(s: string): (r: string)
    ensures |r| <= |s| && '\r' !in r
  {
    if s == "" then "" else if s[0] == '\r' then StripCr(s[1..]) else [s[0]] + StripCr(s[1..])
  }

  lemma {:induction false} StripCrConcat(a: string, b: string)
    ensures StripCr(a + b) == StripCr(a) + StripCr(b)
    decreases |a|
  {
    if a == "" {
      assert a + b == b;
    } else {
      assert (a + b)[1..] == a[1..] + b;
      StripCrConcat(a[1..], b);
    }
  }

  /** `slice(-n)` of a text longer than `n`, and otherwise the text. */
  function Last(s: string, n: nat): (r: string)
    ensures |r| <= n
  {
    if |s| > n then s[|s| - n..] else s
  }

  /** Cutting early loses nothing that cutting late would keep. */
  lemma LastOfLast(a: string, b: string, n: nat)
    ensures Last(Last(a, n) + b, n) == Last(a + b, n)
  {
  }

  predicate At(s: string, t: string, i: int) {
    0 <= i <= |s| - |t| && s[i..i + |t|] == t
  }

  predicate Includes(s: string, t: string) { exists i | 0 <= i <= |s| :: At(s, t, i) }

  /** `indexOf`. */
  function IndexOf(s: string, t: string): (r: Option<nat>)
    ensures r.None? <==> !Includes(s, t)
    ensures r.Some? ==> At(s, t, r.value) && forall j | 0 <= j < r.value :: !At(s, t, j)
  {
    IndexFrom(s, t, 0)
  }

  function IndexFrom(s: string, t: string, i: nat): (r: Option<nat>)
    requires i <= |s|
    ensures r.None? <==> forall j | i <= j :: !At(s, t, j)
    ensures r.Some? ==> i <= r.value && At(s, t, r.value) && forall j | i <= j < r.value :: !At(s, t, j)
    decreases |s| - i
  {
    if At(s, t, i) then Some(i) else if i == |s| then None else IndexFrom(s, t, i + 1)
  }

  // --------------------------------------------------------- the output's tail

  class BackendOutputTailDetector {
    var tail: string
    ghost var seen: string

    /** The last characters of everything seen so far, carriage returns apart. */
    ghost predicate Valid()
      reads this
    {
      tail == Last(StripCr(seen), FAILURE_TAIL_CHARS)
    }

    constructor ()
      ensures Valid() && seen == ""
    {
      tail, seen := "", "";
    }

    method Push(chunk: string)
      requires Valid()
      modifies this
      ensures Valid() && seen == old(seen) + chunk
    {
      StripCrConcat(seen, chunk);
      LastOfLast(StripCr(seen), StripCr(chunk), FAILURE_TAIL_CHARS);
      tail := tail + StripCr(chunk);
      if |tail| > FAILURE_TAIL_CHARS { tail := tail[|tail| - FAILURE_TAIL_CHARS..]; }
      seen := seen + chunk;
    }
  }

  // ------------------------------------------------------------ startup blocks

  datatype StartupBlock = DatabaseLocked(ownerPid: Option<nat>) | MigrationRecoveryRequired

  function Marker(): string { "MigrationRecoveryRequiredError:" }
  function LockMarker(): string { "DatabaseLifecycleLockedError:" }
  function PidPrefix(): string { "owner pid " }
  function PidSuffix(): string { " is live" }

  lemma MarkerShape()
    ensures |Marker()| == 31 && Marker()[0] == 'M' && '\r' !in Marker()
    ensures forall i | 1 <= i < 31 :: Marker()[i] != 'M'
    ensures LockMarker() != "" && LockMarker()[0] !in Marker()
  {
  }

  /** The text at `i` says who owns the lock: a match of `owner pid (\d+) is live`. */
  predicate OwnerAt(s: string, i: nat, digits: string) {
    JsText.AllDigits(digits) && At(s, PidPrefix() + digits + PidSuffix(), i)
  }

  function DigitRun(s: string): (r: string)
    ensures |r| <= |s| && r == s[..|r|] && forall i | 0 <= i < |r| :: JsText.IsDigit(r[i])
    ensures |r| < |s| ==> !JsText.IsDigit(s[|r|])
  {
    if s != "" && JsText.IsDigit(s[0]) then [s[0]] + DigitRun(s[1..]) else ""
  }

  /** The digits a match at `i` captures. */
  function OwnerDigits(s: string, i: nat): Option<string> {
    if !At(s, PidPrefix(), i) then None
    else
      var rest := s[i + |PidPrefix()|..];
      var digits := DigitRun(rest);
      if digits != "" && At(rest, PidSuffix(), |digits|) then Some(digits) else None
  }

  lemma AtConcat(s: string, a: string, b: string, i: nat)
    ensures At(s, a + b, i) <==> At(s, a, i) && At(s, b, i + |a|)
  {
    if i + |a| + |b| <= |s| {
      assert s[i..i + |a| + |b|] == s[i..i + |a|] + s[i + |a|..i + |a| + |b|];
      if At(s, a + b, i) {
        assert (a + b)[..|a|] == a && (a + b)[|a|..] == b;
        assert s[i..i + |a|] == s[i..i + |a + b|][..|a|] && s[i + |a|..i + |a| + |b|] == s[i..i + |a + b|][|a|..];
      }
    }
  }

  lemma AtDrop(s: string, t: string, i: nat, k: nat)
    requires i <= |s|
    ensures At(s, t, i + k) <==> At(s[i..], t, k)
  {
  }

  lemma OwnerDigitsIff(s: string, i: nat, digits: string)
    ensures OwnerAt(s, i, digits) <==> OwnerDigits(s, i) == Some(digits)
  {
    var p, q := PidPrefix(), PidSuffix();
    assert q != "" && !JsText.IsDigit(q[0]);
    hide PidPrefix, PidSuffix;
    AtConcat(s, p + digits, q, i);
    AtConcat(s, p, digits, i);
    if At(s, p, i) {
      var rest := s[i + |p|..];
      AtDrop(s, digits, i + |p|, 0);
      AtDrop(s, q, i + |p|, |digits|);
      if JsText.AllDigits(digits) && At(rest, digits, 0) && At(rest, q, |digits|) {
        assert rest[|digits|] == rest[|digits|..|digits| + |q|][0];
        assert rest == digits + rest[|digits|..];
        RunIs(digits, rest[|digits|..]);
      }
    }
  }

  lemma {:induction false} RunIs(digits: string, rest: string)
    requires rest != "" && !JsText.IsDigit(rest[0]) && forall i | 0 <= i < |digits| :: JsText.IsDigit(digits[i])
    ensures DigitRun(digits + rest) == digits
    decreases |digits|
  {
    if digits == "" {
      assert digits + rest == rest;
    } else {
      assert (digits + rest)[1..] == digits[1..] + rest;
      RunIs(digits[1..], rest);
    }
  }

  /** `match(/owner pid (\d+) is live/)`: the leftmost one. */
  function OwnerFrom(s: string, i: nat): (r: Option<string>)
    requires i <= |s|
    ensures r.Some? ==> JsText.AllDigits(r.value)
    decreases |s| - i
  {
    if OwnerDigits(s, i).Some? then OwnerDigits(s, i) else if i == |s| then None else OwnerFrom(s, i + 1)
  }

  lemma {:induction false} OwnerIsLeftmost(s: string, i: nat)
    requires i <= |s|
    ensures OwnerFrom(s, i).None? ==> forall j, d | i <= j :: !OwnerAt(s, j, d)
    ensures OwnerFrom(s, i).Some? ==>
              exists j ::
                i <= j <= |s| && OwnerAt(s, j, OwnerFrom(s, i).value) && forall k, d | i <= k < j :: !OwnerAt(s, k, d)
    decreases |s| - i
  {
    hide OwnerAt, OwnerDigits;
    forall d ensures OwnerAt(s, i, d) <==> OwnerDigits(s, i) == Some(d) { OwnerDigitsIff(s, i, d); }
    if OwnerDigits(s, i).None? {
      if i < |s| { OwnerIsLeftmost(s, i + 1); } else {
        forall j: nat, d | i <= j ensures !OwnerAt(s, j, d) { NoOwnerPastEnd(s, j, d); }
      }
    }
  }

  lemma NoOwnerPastEnd(s: string, j: nat, d: string)
    requires j >= |s|
    ensures !OwnerAt(s, j, d)
  {
  }

  /** `Number.parseInt` and the checks on it; what is no safe positive integer counts as unknown. */
  function OwnerPid(digits: Option<string>): Option<nat>
    requires digits.Some? ==> JsText.AllDigits(digits.value)
  {
    if digits.None? then None
    else
      var n := JsText.DecimalValue(digits.value);
      if 0 < n <= MAX_SAFE_INTEGER then Some(n) else None
  }

  /** What a window of output says. */
  function Verdict(output: string): Option<StartupBlock> {
    if Includes(output, Marker()) then Some(MigrationRecoveryRequired)
    else match IndexOf(output, LockMarker())
      case None => None
      case Some(i) =>
        var lockOutput := output[i..];
        var owner := OwnerFrom(lockOutput, 0);
        if owner.None? && !Includes(lockOutput, "\n") then None else Some(DatabaseLocked(OwnerPid(owner)))
  }

  /** The first lock error of the output is at `i`. */
  predicate LockAt(output: string, i: nat) {
    At(output, LockMarker(), i) && forall k | 0 <= k < i :: !At(output, LockMarker(), k)
  }

  /** `digits` are those of the leftmost owner named in the text. */
  ghost predicate OwnerNamed(s: string, digits: string) {
    exists j: nat :: OwnerAt(s, j, digits) && forall k: nat, d | k < j :: !OwnerAt(s, k, d)
  }

  /**
   What a window says: recovery if it holds that marker; otherwise that the database is locked, once the first lock
   error has been followed by its owner, whose number is reported, or by the end of a line, when nobody is known.
   */
  lemma VerdictIff(output: string, owner: Option<nat>)
    ensures Verdict(output) == Some(MigrationRecoveryRequired) <==> Includes(output, Marker())
    ensures Verdict(output) == Some(DatabaseLocked(owner)) <==>
              && !Includes(output, Marker())
              && exists i: nat :: LockAt(output, i) && i <= |output|
                   && ((exists d :: OwnerNamed(output[i..], d) && JsText.AllDigits(d) && owner == PidOf(d))
                       || ((forall j: nat, d :: !OwnerAt(output[i..], j, d)) && '\n' in output[i..] && owner == None))
  {
    hide Marker, OwnerAt, OwnerFrom;
    var index := IndexOf(output, LockMarker());
    hide LockMarker, IndexOf;
    if index.Some? && !Includes(output, Marker()) {
      var rest := output[index.value..];
      OwnerIsLeftmost(rest, 0);
      HasNewline(rest);
      if OwnerFrom(rest, 0).Some? { OwnerOnce(rest, OwnerFrom(rest, 0).value); }
    }
  }

  function PidOf(digits: string): Option<nat>
    requires JsText.AllDigits(digits)
  {
    var n := JsText.DecimalValue(digits);
    if 0 < n <= 9_007_199_254_740_991 then Some(n) else None
  }

  lemma HasNewline(s: string)
    ensures Includes(s, "\n") <==> '\n' in s
  {
    if '\n' in s {
      var i :| 0 <= i < |s| && s[i] == '\n';
      assert At(s, "\n", i);
    }
    if i :| 0 <= i <= |s| && At(s, "\n", i) { assert s[i..i + 1][0] == s[i]; }
  }

  lemma OwnerOnce(s: string, digits: string)
    requires OwnerNamed(s, digits)
    ensures forall d | OwnerNamed(s, d) :: d == digits
  {
    hide OwnerAt;
    forall d | OwnerNamed(s, d) ensures d == digits {
      var j: nat :| OwnerAt(s, j, digits) && forall k: nat, e | k < j :: !OwnerAt(s, k, e);
      var i: nat :| OwnerAt(s, i, d) && forall k: nat, e | k < i :: !OwnerAt(s, k, e);
      assert i == j;
      OwnerDigitsIff(s, j, digits);
      OwnerDigitsIff(s, i, d);
    }
  }

  lemma EmptySaysNothing()
    ensures Verdict("").None? && !Includes("", Marker())
  {
  }

  /** A text new in `a + b` ends in `b`, so the window shows it if `b` leaves it room. */
  lemma NotMissed(a: string, b: string, t: string, n: nat)
    requires t != "" && |b| + |t| - 1 <= n && !Includes(a, t)
    ensures Includes(a + b, t) ==> Includes(Last(a + b, n), t)
  {
    if Includes(a + b, t) && |a + b| > n {
      var i :| 0 <= i <= |a + b| && At(a + b, t, i);
      if i + |t| <= |a| {
        assert a[i..i + |t|] == (a + b)[i..i + |t|];
        assert At(a, t, i);
      }
      var start := |a + b| - n;
      AtDrop(a + b, t, start, i - start);
    }
  }

  lemma WithoutFirst(s: string, t: string)
    requires t != "" && forall k | 0 <= k < |s| :: s[k] != t[0]
    ensures !Includes(s, t)
  {
    forall i | 0 <= i <= |s| ensures !At(s, t, i) {
      if i + |t| <= |s| { assert s[i..i + |t|][0] == s[i]; }
    }
  }

  /** Whatever the greater length, a chunk of it hides a marker that is split across two chunks. */
  lemma MarkerMissed(n: nat) returns (a: string, b: string)
    requires n > STARTUP_CHARS - 30
    ensures |a| == 30 && |b| == n && '\r' !in a + b
    ensures Includes(a + b, Marker()) && !Includes(a, Marker())
    ensures Verdict(a).None? && Verdict(Last(a + b, STARTUP_CHARS)).None?
  {
    MarkerShape();
    var m := Marker();
    hide Marker;
    a, b := m[..30], [m[30]] + seq(n - 1, i => 'x');
    assert a + b == m + seq(n - 1, i => 'x');
    assert At(a + b, m, 0);
    var window := Last(a + b, STARTUP_CHARS);
    var cut := |a + b| - STARTUP_CHARS;
    assert cut > 0 && window == (a + b)[cut..];
    WithoutFirst(window, m);
    var lock := LockMarker();
    assert lock[0] != 'x';
    hide LockMarker;
    assert lock[0] !in a + b;
    WithoutFirst(window, lock);
    WithoutFirst(a, lock);
    assert forall i | 0 <= i <= |a| :: !At(a, m, i);
  }

  // ------------------------------------------------------------- whole streams

  function Joined(chunks: seq<string>): string {
    if chunks == [] then "" else Joined(chunks[..|chunks| - 1]) + chunks[|chunks| - 1]
  }

  /** What has been found after these chunks: the first verdict a window gave, for good. */
  function BlockAfter(chunks: seq<string>): Option<StartupBlock> {
    if chunks == [] then None
    else
      var earlier := BlockAfter(chunks[..|chunks| - 1]);
      if earlier.Some? then earlier else Verdict(Last(StripCr(Joined(chunks)), STARTUP_CHARS))
  }

  predicate ChunksUpTo(chunks: seq<string>, n: nat) { forall i | 0 <= i < |chunks| :: |chunks[i]| <= n }

  /** The stream holds a marker, and nothing has been found. */
  predicate Missed(chunks: seq<string>) {
    BlockAfter(chunks).None? && Includes(StripCr(Joined(chunks)), Marker())
  }

  lemma {:induction false} NoneMissed(chunks: seq<string>, n: nat)
    requires n <= STARTUP_CHARS - 30 && ChunksUpTo(chunks, n)
    ensures !Missed(chunks)
    decreases |chunks|
  {
    hide Verdict, Last, Marker;
    if chunks == [] {
      EmptySaysNothing();
    } else {
      var earlier, chunk := chunks[..|chunks| - 1], chunks[|chunks| - 1];
      NoneMissed(earlier, n);
      MarkerShape();
      StripCrConcat(Joined(earlier), chunk);
      var window := Last(StripCr(Joined(chunks)), STARTUP_CHARS);
      assert Verdict(window).None? ==> !Includes(window, Marker()) by { MarkerDecides(window); }
      if !Includes(StripCr(Joined(earlier)), Marker()) {
        NotMissed(StripCr(Joined(earlier)), StripCr(chunk), Marker(), STARTUP_CHARS);
      }
    }
  }

  lemma MarkerDecides(output: string)
    ensures Includes(output, Marker()) <==> Verdict(output) == Some(MigrationRecoveryRequired)
  {
  }

  lemma {:induction false} NothingStripped(s: string)
    requires '\r' !in s
    ensures StripCr(s) == s
  {
    if s != "" { NothingStripped(s[1..]); }
  }

  /**
   Streams in chunks of at most `n` characters never hide a marker exactly when `n` leaves room for
   all but one character of it in the window.
   */
  lemma MarkerNeverMissedIff(n: nat)
    ensures (forall chunks | ChunksUpTo(chunks, n) :: !Missed(chunks)) <==> n <= STARTUP_CHARS - 30
  {
    if n <= STARTUP_CHARS - 30 {
      forall chunks | ChunksUpTo(chunks, n) ensures !Missed(chunks) { NoneMissed(chunks, n); }
    } else {
      var a, b := MarkerMissed(n);
      TwoChunks(a, b);
      assert ChunksUpTo([a, b], n) && Missed([a, b]);
    }
  }

  lemma TwoChunks(a: string, b: string)
    requires '\r' !in a + b && |a| <= STARTUP_CHARS
    ensures BlockAfter([a]) == Verdict(a) && Joined([a, b]) == a + b && StripCr(a + b) == a + b
    ensures Verdict(a).None? ==> BlockAfter([a, b]) == Verdict(Last(a + b, STARTUP_CHARS))
  {
    hide Verdict;
    NothingStripped(a + b);
    assert '\r' !in a by { assert forall i | 0 <= i < |a| :: (a + b)[i] == a[i]; }
    NothingStripped(a);
    assert [a, b][..1] == [a] && [a][..0] == [] && Joined([]) == "";
    assert Joined([a]) == "" + a == a;
  }

  class BackendStartupBlockDetector {
    var output: string
    var block: Option<StartupBlock>
    ghost var chunks: seq<string>

    /** The block is what the stream so far says, and until one is found the window is its end. */
    ghost predicate Valid()
      reads this
    {
      && block == BlockAfter(chunks)
      && (block.None? ==> output == Last(StripCr(Joined(chunks)), STARTUP_CHARS))
    }

    constructor ()
      ensures Valid() && block.None? && chunks == []
    {
      output, block, chunks := "", None, [];
    }

    method Push(chunk: string)
      requires Valid()
      modifies this
      ensures Valid() && chunks == old(chunks) + [chunk]
      ensures old(block).Some? ==> block == old(block) && output == old(output)
      ensures old(block).None? ==> block == Verdict(Last(StripCr(Joined(chunks)), STARTUP_CHARS))
    {
      hide Last, Marker, LockMarker;
      chunks := chunks + [chunk];
      assert chunks[..|chunks| - 1] == old(chunks);
      if block.Some? { return; }
      StripCrConcat(Joined(old(chunks)), chunk);
      LastOfLast(StripCr(Joined(old(chunks))), StripCr(chunk), STARTUP_CHARS);
      output := Last(output + StripCr(chunk), STARTUP_CHARS);
      if Includes(output, Marker()) {
        block := Some(MigrationRecoveryRequired);
        return;
      }
      var lockErrorIndex := IndexOf(output, LockMarker());
      if lockErrorIndex.None? { return; }
      var lockErrorOutput := output[lockErrorIndex.value..];
      var ownerPidMatch := OwnerFrom(lockErrorOutput, 0);
      if ownerPidMatch.None? && !Includes(lockErrorOutput, "\n") { return; }
      block := Some(DatabaseLocked(OwnerPid(ownerPidMatch)));
    }
  }

  /** A run of the detector over a whole stream: it misses a marker exactly when `Missed` says so. */
  method PushAll(chunks: seq<string>) returns (detector: BackendStartupBlockDetector)
    ensures detector.block == BlockAfter(chunks)
    ensures Missed(chunks) <==> detector.block.None? && Includes(StripCr(Joined(chunks)), Marker())
  {
    hide Verdict, BlockAfter, Joined, StripCr, Marker, Includes;
    detector := new BackendStartupBlockDetector();
    for i := 0 to |chunks|
      invariant detector.Valid() && fresh(detector) && detector.chunks == chunks[..i]
    {
      detector.Push(chunks[i]);
    }
    assert chunks[..|chunks|] == chunks;
  }
}
