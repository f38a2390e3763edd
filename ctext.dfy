/**
 * C text primitives used by the simulator: `isspace`, the `sscanf`
 * directives the source relies on (`%[^...]`, `%d`, `%s`, literal
 * characters), `atoi`, `strtoul` and decimal rendering for `%d`.
 * Strings are `seq<char>` holding the characters before the C terminator.
 */
module CText {
  import opened Wrappers

  const TWO_POW_31: int := 0x8000_0000
  const TWO_POW_32: int := 0x1_0000_0000
  /** ULONG_MAX on the Windows build (unsigned long is 32 bits wide there). */
  const ULONG_MAX: int := 0xFFFF_FFFF
  const TWO_POW_64: int := 0x1_0000_0000_0000_0000

  /** `uint64_t`. */
  type U64 = x: int | 0 <= x < TWO_POW_64

  /** The characters of a C string: everything before its terminating NUL. */
  type CString = s: string | '\0' !in s

  /** `isspace` in the "C" locale. */
  predicate IsSpace(c: char) {
    c == ' ' || c == '\t' || c == '\n' || c == '\r' || c == '\U{000B}' || c == '\U{000C}'
  }

  predicate IsDigit(c: char) {
    '0' <= c <= '9'
  }

  predicate AllDigits(s: string) {
    forall k :: 0 <= k < |s| ==> IsDigit(s[k])
  }

  function DigitValue(c: char): (d: nat)
    requires IsDigit(c)
    ensures d < 10
  {
    (c as int) - ('0' as int)
  }

  function DigitChar(d: nat): (c: char)
    requires d < 10
    ensures IsDigit(c) && DigitValue(c) == d
  {
    (('0' as int) + d) as char
  }

  /**
   * Length of the longest run of characters of s starting at i that are not
   * in stop, capped at width: what a `%W[^stop]` directive consumes.
   */
  function RunLength(s: string, i: nat, width: nat, stop: set<char>): (n: nat)
    requires i <= |s|
    ensures i + n <= |s| && n <= width
    ensures forall k :: i <= k < i + n ==> s[k] !in stop
    ensures i + n < |s| && n < width ==> s[i + n] in stop
    decreases |s| - i
  {
    if i == |s| || width == 0 || s[i] in stop then 0
    else 1 + RunLength(s, i + 1, width - 1, stop)
  }

  /**
   * The `%W[^stop]` directive at position i: at least one and at most width
   * characters outside stop, or a matching failure (None).
   */
  function ScanSet(s: string, i: nat, width: nat, stop: set<char>): (r: Option<(string, nat)>)
    requires i <= |s|
    ensures r.Some? ==> var (tok, j) := r.value;
      i < j <= |s| && tok == s[i..j] && |tok| <= width && (forall c :: c in tok ==> c !in stop)
    ensures r.None? <==> (i == |s| || width == 0 || s[i] in stop)
  {
    var n := RunLength(s, i, width, stop);
    if n == 0 then None else Some((s[i..i + n], i + n))
  }

  /** Index of the first non-space character at or after i (a whitespace directive). */
  function SkipSpaces(s: string, i: nat): (j: nat)
    requires i <= |s|
    ensures i <= j <= |s|
    ensures forall k :: i <= k < j ==> IsSpace(s[k])
    ensures j < |s| ==> !IsSpace(s[j])
    decreases |s| - i
  {
    if i < |s| && IsSpace(s[i]) then SkipSpaces(s, i + 1) else i
  }

  /** Number of decimal digits starting at i. */
  function DigitRun(s: string, i: nat): (n: nat)
    requires i <= |s|
    ensures i + n <= |s|
    ensures forall k :: i <= k < i + n ==> IsDigit(s[k])
    ensures i + n < |s| ==> !IsDigit(s[i + n])
    decreases |s| - i
  {
    if i < |s| && IsDigit(s[i]) then 1 + DigitRun(s, i + 1) else 0
  }

  /** A run of digits inside s, cut out, is a digit string. */
  lemma SliceDigits(s: string, i: nat, j: nat)
    requires i <= j <= |s| && forall k :: i <= k < j ==> IsDigit(s[k])
    ensures AllDigits(s[i..j])
  {
    forall t | 0 <= t < j - i
      ensures IsDigit(s[i..j][t])
    {
      assert s[i..j][t] == s[i + t];
    }
  }

  /** Value of a decimal digit string, most significant digit first. */
  function DigitsValue(ds: string): nat
    requires AllDigits(ds)
  {
    if ds == [] then 0 else DigitsValue(ds[..|ds| - 1]) * 10 + DigitValue(ds[|ds| - 1])
  }

  /** The number `%d` reads (sign applied), with the position after it. */
  datatype Scanned = Scanned(negative: bool, magnitude: nat, next: nat) {
    function Value(): int { if negative then -(magnitude as int) else magnitude }
  }

  /**
   * The `%d` directive at position i: skip white space, an optional sign,
   * then at least one digit; otherwise a matching failure (None).
   */
  function ScanDecimal(s: string, i: nat): (r: Option<Scanned>)
    requires i <= |s|
    ensures r.Some? ==> i < r.value.next <= |s| && !IsSpace(s[r.value.next - 1])
  {
    var j := SkipSpaces(s, i);
    var k := if j < |s| && (s[j] == '-' || s[j] == '+') then j + 1 else j;
    var n := DigitRun(s, k);
    if n == 0 then None
    else
      SliceDigits(s, k, k + n);
      Some(Scanned(j < |s| && s[j] == '-', DigitsValue(s[k..k + n]), k + n))
  }

  /** `%d`, giving the value and the position after it. */
  function ScanInt(s: string, i: nat): (r: Option<(int, nat)>)
    requires i <= |s|
    ensures r.Some? ==> i < r.value.1 <= |s|
  {
    match ScanDecimal(s, i)
    case None => None
    case Some(d) => Some((d.Value(), d.next))
  }

  /** `%Ws`: skip white space, then one to width non-space characters. */
  function ScanWord(s: string, i: nat, width: nat): (r: Option<(string, nat)>)
    requires i <= |s|
    ensures r.Some? ==> var (tok, j) := r.value;
      i < j <= |s| && 0 < |tok| <= width && (forall c :: c in tok ==> !IsSpace(c))
      && |tok| <= j && tok == s[j - |tok|..j]
  {
    var j := SkipSpaces(s, i);
    var n := NonSpaceRun(s, j, width);
    if n == 0 then None else Some((s[j..j + n], j + n))
  }

  function NonSpaceRun(s: string, i: nat, width: nat): (n: nat)
    requires i <= |s|
    ensures i + n <= |s| && n <= width
    ensures forall k :: i <= k < i + n ==> !IsSpace(s[k])
    decreases |s| - i
  {
    if i == |s| || width == 0 || IsSpace(s[i]) then 0 else 1 + NonSpaceRun(s, i + 1, width - 1)
  }

  /** A literal character in a format: it must be the next input character. */
  predicate LiteralAt(s: string, i: nat, c: char) {
    i < |s| && s[i] == c
  }

  /** `strchr`: the index of the first c in s, or None (NULL). */
  function Find(s: string, c: char): (r: Option<nat>)
    ensures r.Some? ==> r.value < |s| && s[r.value] == c && forall k :: 0 <= k < r.value ==> s[k] != c
    ensures r.None? <==> c !in s
  {
    if s == [] then None
    else if s[0] == c then Some(0)
    else match Find(s[1..], c)
      case None => None
      case Some(k) => Some(k + 1)
  }

  /** `%d` at a position where a rendered number starts and the string ends: that number, and the end. */
  lemma ScanIntAt(s: string, i: nat, n: nat)
    requires i <= |s| && s[i..] == Decimal(n)
    ensures ScanInt(s, i) == Some((n, |s|))
  {
    assert s[i..i + |Decimal(n)|] == Decimal(n);
    ScanIntBefore(s, i, n);
  }

  /** `%d` at a position where a rendered number starts and a non-digit (or the end) follows it. */
  lemma ScanIntBefore(s: string, i: nat, n: nat)
    requires i + |Decimal(n)| <= |s| && s[i..i + |Decimal(n)|] == Decimal(n)
    requires i + |Decimal(n)| < |s| ==> !IsDigit(s[i + |Decimal(n)|])
    ensures ScanInt(s, i) == Some((n, i + |Decimal(n)|))
  {
    var d := Decimal(n);
    var e := i + |d|;
    forall k | i <= k < e
      ensures IsDigit(s[k])
    {
      assert s[k] == s[i..e][k - i];
    }
    assert IsDigit(s[i]) && s[i] != '-' && s[i] != '+';
    assert SkipSpaces(s, i) == i;
    DigitRunUpTo(s, i, e);
    DecimalValue(n);
    assert DigitsValue(s[i..e]) == n;
  }

  lemma {:induction false} DigitRunUpTo(s: string, i: nat, j: nat)
    requires i <= j <= |s| && (forall k :: i <= k < j ==> IsDigit(s[k])) && (j < |s| ==> !IsDigit(s[j]))
    ensures DigitRun(s, i) == j - i
    decreases j - i
  {
    if i < j {
      DigitRunUpTo(s, i + 1, j);
    }
  }

  /** `%Ws` reads exactly n characters when n non-space ones end at white space, the width or the end. */
  lemma {:induction false} NonSpaceRunExact(s: string, i: nat, width: nat, n: nat)
    requires i + n <= |s| && n <= width
    requires forall k :: i <= k < i + n ==> !IsSpace(s[k])
    requires i + n == |s| || n == width || IsSpace(s[i + n])
    ensures NonSpaceRun(s, i, width) == n
    decreases n
  {
    if n > 0 {
      NonSpaceRunExact(s, i + 1, width - 1, n - 1);
    }
  }

  /** `%Ws` over a final piece of 1 to W non-space characters reads that piece. */
  lemma ScanWordAt(s: string, i: nat, width: nat, t: string)
    requires 0 < |t| <= width && i + |t| == |s| && s[i..] == t
    requires forall c :: c in t ==> !IsSpace(c)
    ensures ScanWord(s, i, width) == Some((t, |s|))
  {
    forall k | i <= k < |s|
      ensures !IsSpace(s[k])
    {
      assert s[k] == t[k - i] && t[k - i] in t;
    }
    assert SkipSpaces(s, i) == i;
    NonSpaceRunExact(s, i, width, |t|);
    assert s[i..i + |t|] == t;
  }

  /** RunLength is n exactly when n characters outside stop are followed by the end, a stop character or the width. */
  lemma {:induction false} RunLengthExact(s: string, i: nat, width: nat, stop: set<char>, n: nat)
    requires i + n <= |s| && n <= width
    requires forall k :: i <= k < i + n ==> s[k] !in stop
    requires i + n == |s| || n == width || s[i + n] in stop
    ensures RunLength(s, i, width, stop) == n
    decreases n
  {
    if n > 0 {
      RunLengthExact(s, i + 1, width - 1, stop, n - 1);
    }
  }

  /** A white-space directive at i stops at j when only white space lies between and none is at j. */
  lemma {:induction false} SkipSpacesTo(s: string, i: nat, j: nat)
    requires i <= j <= |s| && (forall k :: i <= k < j ==> IsSpace(s[k])) && (j < |s| ==> !IsSpace(s[j]))
    ensures SkipSpaces(s, i) == j
    decreases j - i
  {
    if i < j {
      SkipSpacesTo(s, i + 1, j);
    }
  }

  /** `%d` at i skips the white space up to j and reads the number rendered there, up to a non-digit or the end. */
  lemma ScanIntAfterSpaces(s: string, i: nat, j: nat, n: nat)
    requires i <= j && j + |Decimal(n)| <= |s| && (forall k :: i <= k < j ==> IsSpace(s[k]))
    requires s[j..j + |Decimal(n)|] == Decimal(n)
    requires j + |Decimal(n)| < |s| ==> !IsDigit(s[j + |Decimal(n)|])
    ensures ScanInt(s, i) == Some((n, j + |Decimal(n)|))
  {
    var d := Decimal(n);
    assert s[j] == d[0] && IsDigit(d[0]);
    SkipSpacesTo(s, i, j);
    SkipSpacesTo(s, j, j);
    ScanIntBefore(s, j, n);
    assert ScanDecimal(s, i) == ScanDecimal(s, j);
  }

  /** `%[^stop]` stops exactly at the first character of stop. */
  lemma RunLengthUpTo(s: string, i: nat, width: nat, stop: set<char>, j: nat)
    requires i <= j < |s| && j - i <= width && s[j] in stop
    requires forall k :: i <= k < j ==> s[k] !in stop
    ensures RunLength(s, i, width, stop) == j - i
  {
  }

  /** `atoi`: the `%d` prefix of s, or 0 when there is none. */
  function Atoi(s: string): int {
    match ScanInt(s, 0)
    case None => 0
    case Some((v, _)) => v
  }

  /**
   * `atoi` into an `int`: the `%d` prefix (0 when there is none), or None
   * when that number does not fit an `int`, where C leaves the result
   * undefined.
   */
  function AtoiInt(s: string): (r: Option<int>)
    ensures r.Some? ==> -TWO_POW_31 <= r.value < TWO_POW_31
    ensures r.Some? ==> r.value == Atoi(s)
  {
    var v := Atoi(s);
    if -TWO_POW_31 <= v < TWO_POW_31 then Some(v) else None
  }

  /**
   * `strtoul(s, NULL, 10)` with a 32-bit unsigned long: the magnitude of the
   * digit prefix, ULONG_MAX when it does not fit, negated modulo 2^32 after a
   * '-' sign, and 0 when there is no digit.
   */
  function StrToUL(s: string): (u: nat)
    ensures u <= ULONG_MAX
  {
    match ScanDecimal(s, 0)
    case None => 0
    case Some(d) =>
      if d.magnitude > ULONG_MAX then ULONG_MAX
      else if d.negative then (TWO_POW_32 - d.magnitude) % TWO_POW_32
      else d.magnitude
  }

  /** Storing an `unsigned int` into an `int` field (two's complement). */
  function ToInt32(u: nat): (x: int)
    requires u < TWO_POW_32
    ensures -TWO_POW_31 <= x < TWO_POW_31
    ensures (x - u) % TWO_POW_32 == 0
  {
    if u >= TWO_POW_31 then u - TWO_POW_32 else u
  }

  /** `%d` rendering of a non-negative number. */
  function Decimal(n: nat): (s: CString)
    ensures |s| > 0 && AllDigits(s)
  {
    if n < 10 then [DigitChar(n)] else Decimal(n / 10) + [DigitChar(n % 10)]
  }

  function Pow10(k: nat): (p: nat)
    ensures p >= 1
  {
    if k == 0 then 1 else 10 * Pow10(k - 1)
  }

  /** A number below 10^k renders in at most k digits (one digit for 0). */
  lemma {:induction false} DecimalLength(n: nat, k: nat)
    requires 0 < k && n < Pow10(k)
    ensures |Decimal(n)| <= k
  {
    if n >= 10 {
      DecimalLength(n / 10, k - 1);
    }
  }

  /** Every `unsigned int` renders in at most 10 digits. */
  lemma DecimalOfU32(n: nat)
    requires n < TWO_POW_32
    ensures |Decimal(n)| <= 10
  {
    assert Pow10(10) == 10_000_000_000;
    DecimalLength(n, 10);
  }

  /** Reading back a rendered number gives the number. */
  lemma {:induction false} DecimalValue(n: nat)
    ensures DigitsValue(Decimal(n)) == n
  {
    if n >= 10 {
      var s := Decimal(n);
      assert s[..|s| - 1] == Decimal(n / 10);
      DecimalValue(n / 10);
    }
  }

  lemma {:induction false} DigitRunAll(s: string, i: nat)
    requires i <= |s| && forall k :: i <= k < |s| ==> IsDigit(s[k])
    ensures DigitRun(s, i) == |s| - i
    decreases |s| - i
  {
    if i < |s| {
      DigitRunAll(s, i + 1);
    }
  }

  /** `atoi` inverts `%d` rendering: the config loaders read back what a writer printed. */
  lemma AtoiDecimal(n: nat)
    ensures Atoi(Decimal(n)) == n
    ensures StrToUL(Decimal(n)) == if n > ULONG_MAX then ULONG_MAX else n
  {
    var s := Decimal(n);
    assert !IsSpace(s[0]) && s[0] != '-' && s[0] != '+';
    assert SkipSpaces(s, 0) == 0;
    DigitRunAll(s, 0);
    assert s[0..|s|] == s;
    DecimalValue(n);
  }
}
