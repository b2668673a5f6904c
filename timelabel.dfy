// The "mm:ss" label that demo/main.ts shows for the video's duration and current time:
// [parseInt(((t / 60) % 60).toString(), 10), parseInt((t % 60).toString(), 10)].join(":")
// followed by the replacement of every lone digit (/\b(\d)\b/g) by "0" and that digit.

module TimeLabel {

  import JsText

  /** JavaScript's truncation toward zero of a number (what parseInt does to the decimal
      text of a number written without an exponent). */
  function Trunc(x: real): (n: int)
    ensures x >= 0.0 ==> n == x.Floor
    ensures x < 0.0 ==> n == -((-x).Floor)
  {
    if x >= 0.0 then x.Floor else -((-x).Floor)
  }

  /** Number.prototype.toString writes a number without an exponent exactly when it is 0 or
      its magnitude lies in [1e-6, 1e21). */
  const Micro: real := 0.000001
  const Huge: real := 1000000000000000000000.0

  predicate Positional(x: real) {
    x == 0.0 || Micro <= x < Huge || -Huge < x <= -Micro
  }

  /** parseInt(x.toString(), 10): the integer part of the positional text, or, when the text
      has an exponent ("5e-7", "8.333333333333334e-9", "1.5e+21"), the leading digit, since
      parseInt stops at the '.' or the 'e'. */
  function IntOfText(x: real): (n: int)
    ensures Positional(x) ==> n == Trunc(x)
    ensures !Positional(x) && x > 0.0 ==> 1 <= n <= 9 && n == LeadingDigit(x)
    ensures !Positional(x) && x < 0.0 ==> -9 <= n <= -1 && n == -LeadingDigit(-x)
  {
    if Positional(x) then Trunc(x)
    else if x > 0.0 then LeadingDigit(x)
    else -LeadingDigit(-x)
  }

  /** The first significant decimal digit of a positive number. */
  function LeadingDigit(x: real): (d: int)
    requires x > 0.0
    ensures 1 <= d <= 9
  {
    if x < 1.0 then DigitBelowOne(x) else DigitFromOne(x)
  }

  /** The first significant digit of x in (0, 1): shift the point right until a digit
      appears before it. */
  function DigitBelowOne(x: real): (d: int)
    requires 0.0 < x < 1.0
    ensures 1 <= d <= 9
    decreases (1.0 / x).Floor
  {
    var y := 10.0 * x;
    if y >= 1.0 then y.Floor
    else
      ShiftShrinksInverse(x);
      DigitBelowOne(y)
  }

  lemma ShiftShrinksInverse(x: real)
    requires 0.0 < x && 10.0 * x < 1.0
    ensures 0 <= (1.0 / (10.0 * x)).Floor < (1.0 / x).Floor
  {
    var f := (1.0 / x).Floor;
    assert 1.0 / x > 10.0;
    assert 1.0 / (10.0 * x) == (1.0 / x) / 10.0;
    assert (1.0 / x) / 10.0 < (f as real + 1.0) / 10.0 <= f as real;
  }

  /** The first digit of x >= 1: shift the point left until one digit is left before it. */
  function DigitFromOne(x: real): (d: int)
    requires x >= 1.0
    ensures 1 <= d <= 9
    decreases x.Floor
  {
    if x < 10.0 then x.Floor
    else
      assert (x / 10.0).Floor as real <= x / 10.0 <= x - 9.0 < x.Floor as real;
      DigitFromOne(x / 10.0)
  }

  /** JavaScript's % on numbers: the remainder takes the sign of the dividend. */
  function JsRem(a: real, b: real): (r: real)
    requires b != 0.0
  {
    a - b * Trunc(a / b) as real
  }

  /** The remainder of a non-negative number by 60 is in [0, 60), and a number already
      below 60 is its own remainder. */
  lemma RemBySixty(a: real)
    requires a >= 0.0
    ensures 0.0 <= JsRem(a, 60.0) < 60.0
    ensures a < 60.0 ==> JsRem(a, 60.0) == a
  {
    var q := (a / 60.0).Floor;
    assert q as real <= a / 60.0 < q as real + 1.0;
  }

  /** The two numbers the label shows: parseInt of the text of (t / 60) % 60 and of t % 60. */
  function MinutesShown(t: real): (n: nat)
    requires t >= 0.0
    ensures n < 60
  {
    RemBySixty(t / 60.0);
    Natural(IntOfText(JsRem(t / 60.0, 60.0)))
  }

  function SecondsShown(t: real): (n: nat)
    requires t >= 0.0
    ensures n < 60
  {
    RemBySixty(t);
    Natural(IntOfText(JsRem(t, 60.0)))
  }

  /** The decimal digits of n, as Number.prototype.toString writes an integer. */
  function Decimal(n: nat): (s: string)
    ensures 1 <= |s| && forall k :: 0 <= k < |s| ==> '0' <= s[k] <= '9'
    ensures n < 10 <==> |s| == 1
    decreases n
  {
    if n < 10 then [DecimalDigit(n)] else Decimal(n / 10) + [DecimalDigit(n % 10)]
  }

  function DecimalDigit(d: nat): (c: char)
    requires d < 10
    ensures '0' <= c <= '9' && (c - '0') as int == d
  {
    "0123456789"[d]
  }

  /** The characters \w matches; \b sits between one of these and anything else. */
  predicate IsWordChar(c: char) {
    ('a' <= c <= 'z') || ('A' <= c <= 'Z') || ('0' <= c <= '9') || c == '_'
  }

  /** Position k holds a digit with a word boundary on both sides: a match of \b(\d)\b. */
  predicate LoneDigitAt(s: string, k: int)
    requires 0 <= k < |s|
  {
    && '0' <= s[k] <= '9'
    && (k == 0 || !IsWordChar(s[k - 1]))
    && (k + 1 == |s| || !IsWordChar(s[k + 1]))
  }

  /** The output of the global replacement for positions k and onwards. The matches are one
      character long, so they never overlap and each position is decided on its own. */
  function PadFrom(s: string, k: nat): string
    requires k <= |s|
    decreases |s| - k
  {
    if k == |s| then []
    else (if LoneDigitAt(s, k) then ['0', s[k]] else [s[k]]) + PadFrom(s, k + 1)
  }

  /** s.replace(/\b(\d)\b/g, "0$1"). */
  function PadLoneDigits(s: string): string {
    PadFrom(s, 0)
  }

  /** The label for t seconds, as the canplay and timeupdate handlers build it: always five
      characters, the two numbers written with two digits each around a colon. */
  function Label(t: real): (r: string)
    requires t >= 0.0
    ensures r == TwoDigits(MinutesShown(t)) + ":" + TwoDigits(SecondsShown(t))
    ensures |r| == 5
  {
    var minutes, seconds := MinutesShown(t), SecondsShown(t);
    assert JsText.Join([Decimal(minutes), Decimal(seconds)], ':')
           == Decimal(minutes) + ":" + Decimal(seconds);
    PadsToTwoDigits(minutes, seconds);
    PadLoneDigits(JsText.Join([Decimal(minutes), Decimal(seconds)], ':'))
  }

  /** The minutes and seconds of a non-negative time are never negative. */
  function Natural(n: int): nat {
    if n < 0 then 0 else n
  }

  /** n written with exactly two digits. */
  function TwoDigits(n: nat): (s: string)
    requires n < 100
    ensures |s| == 2 && '0' <= s[0] <= '9' && '0' <= s[1] <= '9'
    ensures 10 * (s[0] - '0') as int + (s[1] - '0') as int == n
  {
    [DecimalDigit(n / 10), DecimalDigit(n % 10)]
  }

  lemma FloorDiv60(t: real)
    requires t >= 0.0
    ensures (t / 60.0).Floor == t.Floor / 60
  {
    var f := t.Floor;
    var q := f / 60;
    assert f == 60 * q + f % 60;
    assert q as real <= t / 60.0 < q as real + 1.0;
  }

  /** The whole part of each remainder: the whole minutes of t modulo an hour, and its whole
      seconds modulo a minute. */
  lemma LabelParts(t: real)
    requires t >= 0.0
    ensures Trunc(JsRem(t / 60.0, 60.0)) == (t.Floor / 60) % 60
    ensures Trunc(JsRem(t, 60.0)) == t.Floor % 60
  {
    var f := t.Floor;
    var a := t / 60.0;
    FloorDiv60(t);
    FloorDiv60(a);
    assert Trunc(a / 60.0) == (f / 60) / 60;
    var hours, minutes := (f / 60) / 60, f / 60;
    assert (a - (60 * hours) as real).Floor == a.Floor - 60 * hours;
    assert (t - (60 * minutes) as real).Floor == f - 60 * minutes;
  }

  /** When neither remainder is written with an exponent, the label is "mm:ss": the whole
      minutes of t modulo an hour, then its whole seconds modulo a minute. */
  lemma LabelIsMinutesSeconds(t: real)
    requires t >= 0.0
    requires Positional(JsRem(t / 60.0, 60.0)) && Positional(JsRem(t, 60.0))
    ensures Label(t) == TwoDigits((t.Floor / 60) % 60) + ":" + TwoDigits(t.Floor % 60)
  {
    LabelParts(t);
    assert MinutesShown(t) == (t.Floor / 60) % 60;
    assert SecondsShown(t) == t.Floor % 60;
  }

  /** A remainder below 1e-6 is written with an exponent, and the label shows its leading
      digit: half a microsecond is labelled "08:05", from "8.333333333333334e-9" and "5e-7". */
  lemma LabelOfHalfMicrosecond()
    ensures Label(0.0000005) == "08:05"
  {
    var t := 0.0000005;
    RemBySixty(t / 60.0);
    RemBySixty(t);
    assert !Positional(t / 60.0) && !Positional(t);
    assert LeadingDigit(t / 60.0) == 8;
    assert LeadingDigit(t) == 5;
    assert MinutesShown(t) == 8 && SecondsShown(t) == 5;
    assert TwoDigits(8) == "08" && TwoDigits(5) == "05";
  }

  /** Within the first second the label is "00:00", the text the ended handler writes, at 0
      and from 60 microseconds on, and only there: before that t / 60 is below 1e-6, written
      with an exponent, and its leading digit shows as the minutes. */
  lemma LabelOfFirstSecond(t: real)
    requires 0.0 <= t < 1.0
    ensures Label(t) == "00:00" <==> t == 0.0 || t >= 0.00006
  {
    RemBySixty(t / 60.0);
    RemBySixty(t);
    if t == 0.0 || t >= 0.00006 {
      assert MinutesShown(t) == 0 && SecondsShown(t) == 0;
      assert TwoDigits(0) == "00";
    } else {
      var m := MinutesShown(t);
      assert 1 <= m <= 9;
      assert Label(t)[1] == TwoDigits(m)[1] != '0';
    }
  }

  lemma PadFromStep(s: string, k: nat)
    requires k < |s|
    ensures PadFrom(s, k) == (if LoneDigitAt(s, k) then ['0', s[k]] else [s[k]]) + PadFrom(s, k + 1)
  {
  }

  /** Joining two numbers below 100 with ':' and padding lone digits writes each with exactly
      two digits. */
  lemma PadsToTwoDigits(m: nat, n: nat)
    requires m < 100 && n < 100
    ensures PadLoneDigits(Decimal(m) + ":" + Decimal(n)) == TwoDigits(m) + ":" + TwoDigits(n)
  {
    ShortDecimal(m);
    ShortDecimal(n);
    PadJoined(Decimal(m), Decimal(n));
  }

  predicate ShortDigits(a: string) {
    1 <= |a| <= 2 && forall k :: 0 <= k < |a| ==> '0' <= a[k] <= '9'
  }

  function PadTwo(a: string): string {
    if |a| == 1 then ['0'] + a else a
  }

  lemma PadJoined(a: string, b: string)
    requires ShortDigits(a) && ShortDigits(b)
    ensures PadLoneDigits(a + ":" + b) == PadTwo(a) + ":" + PadTwo(b)
  {
    var s := a + ":" + b;
    var i := |a|;
    var pa, pb := PadTwo(a), PadTwo(b);
    ColonJoin(a, b);
    PadSegment(s, i + 1, |s|, b);
    assert PadFrom(s, |s|) == [];
    assert PadFrom(s, i + 1) == pb;
    assert !LoneDigitAt(s, i);
    PadFromStep(s, i);
    assert PadFrom(s, i) == ":" + pb;
    PadSegment(s, 0, i, a);
    assert PadFrom(s, 0) == pa + (":" + pb);
    Associative(pa, ":", pb);
  }

  lemma Associative(x: string, y: string, z: string)
    ensures x + (y + z) == x + y + z
  {
  }

  lemma ColonJoin(a: string, b: string)
    ensures var s := a + ":" + b;
            s[|a|] == ':' && s[0..|a|] == a && s[|a| + 1..|s|] == b
  {
  }

  /** Below 100, toString gives one or two digits, and a lone one padded with "0" is the
      two-digit form. */
  lemma ShortDecimal(m: nat)
    requires m < 100
    ensures |Decimal(m)| <= 2
    ensures ShortDigits(Decimal(m)) && PadTwo(Decimal(m)) == TwoDigits(m)
  {
    if m >= 10 {
      assert Decimal(m / 10) == [DecimalDigit(m / 10)];
    }
  }

  /** A run of one or two digits framed by non-word characters (or the ends of the text) is
      padded to two digits, and the replacement carries on after it. */
  lemma PadSegment(s: string, lo: nat, hi: nat, digits: string)
    requires lo < hi <= |s| && s[lo..hi] == digits && ShortDigits(digits)
    requires lo == 0 || !IsWordChar(s[lo - 1])
    requires hi == |s| || !IsWordChar(s[hi])
    ensures PadFrom(s, lo) == PadTwo(digits) + PadFrom(s, hi)
  {
    assert s[lo] == digits[0];
    if |digits| == 1 {
      assert LoneDigitAt(s, lo);
      PadFromStep(s, lo);
    } else {
      assert s[lo + 1] == digits[1];
      assert !LoneDigitAt(s, lo) && !LoneDigitAt(s, lo + 1);
      PadFromStep(s, lo + 1);
      PadFromStep(s, lo);
      assert PadFrom(s, lo) == [s[lo]] + ([s[lo + 1]] + PadFrom(s, hi));
    }
  }
}
