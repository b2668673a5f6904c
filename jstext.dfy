// The JavaScript string built-ins that the comment decoder of demo/main.ts relies on:
// the whitespace trim done with /^\s+|\s+$/g, String.prototype.split on one character,
// the line-break rewrite /(\/n|\\n|\n|\r\n)/g -> "\r", and Number.prototype.toString(16).

module JsText {

  import opened Options

  /** The characters matched by \s in an ECMAScript regular expression. */
  predicate IsSpace(c: char) {
    || c == ' ' || c == '\t' || c == '\n' || c == '\U{000B}' || c == '\U{000C}' || c == '\r'
    || c == '\U{00A0}' || c == '\U{1680}' || ('\U{2000}' <= c <= '\U{200A}')
    || c == '\U{2028}' || c == '\U{2029}' || c == '\U{202F}' || c == '\U{205F}'
    || c == '\U{3000}' || c == '\U{FEFF}'
  }

  /** The characters that '.' refuses to match in an ECMAScript regular expression. */
  predicate IsLineTerminator(c: char) {
    c == '\n' || c == '\r' || c == '\U{2028}' || c == '\U{2029}'
  }

  /** Where the run of whitespace starting at k ends (the ^\s+ alternative, for k = 0). */
  function SpacesFrom(s: string, k: nat): (i: nat)
    requires k <= |s|
    ensures k <= i <= |s|
    ensures forall m :: k <= m < i ==> IsSpace(s[m])
    ensures i < |s| ==> !IsSpace(s[i])
    decreases |s| - k
  {
    if k < |s| && IsSpace(s[k]) then SpacesFrom(s, k + 1) else k
  }

  /** Where the run of whitespace ending at n starts, looking no further left than lo (the
      \s+$ alternative, applied to what ^\s+ left). */
  function SpacesBefore(s: string, lo: nat, n: nat): (j: nat)
    requires lo <= n <= |s|
    ensures lo <= j <= n
    ensures forall m :: j <= m < n ==> IsSpace(s[m])
    ensures j > lo ==> !IsSpace(s[j - 1])
    decreases n
  {
    if n > lo && IsSpace(s[n - 1]) then SpacesBefore(s, lo, n - 1) else n
  }

  /** s.replace(/^\s+|\s+$/g, ""): a middle slice of s with no whitespace at either end,
      everything cut off on either side being whitespace. */
  function Trim(s: string): (r: string)
    ensures |r| <= |s|
    ensures r != [] ==> !IsSpace(r[0]) && !IsSpace(r[|r| - 1])
  {
    var i := SpacesFrom(s, 0);
    s[i..SpacesBefore(s, i, |s|)]
  }

  /** Trimming keeps exactly the characters between the outer whitespace runs, and an
      all-whitespace text trims to nothing. */
  lemma TrimIsMiddleSlice(s: string)
    ensures exists i, j {:trigger s[i..j]} ::
              && 0 <= i <= j <= |s| && Trim(s) == s[i..j]
              && (forall k :: 0 <= k < i ==> IsSpace(s[k]))
              && (forall k :: j <= k < |s| ==> IsSpace(s[k]))
    ensures (forall k :: 0 <= k < |s| ==> IsSpace(s[k])) <==> Trim(s) == []
  {
    var i := SpacesFrom(s, 0);
    var j := SpacesBefore(s, i, |s|);
    assert Trim(s) == s[i..j];
    if Trim(s) == [] {
      assert i == j;
    }
  }

  /** s.split(sep) for a one-character separator: the pieces between separators, in order. */
  function Split(s: string, sep: char): (parts: seq<string>)
    ensures |parts| >= 1
    ensures forall k :: 0 <= k < |parts| ==> sep !in parts[k]
    decreases |s|
  {
    if s == [] then [[]]
    else
      var rest := Split(s[1..], sep);
      if s[0] == sep then [[]] + rest else [[s[0]] + rest[0]] + rest[1..]
  }

  /** parts.join(sep). */
  function Join(parts: seq<string>, sep: char): string
    requires |parts| >= 1
  {
    if |parts| == 1 then parts[0] else parts[0] + [sep] + Join(parts[1..], sep)
  }

  /** Splitting loses nothing: joining the pieces with the separator gives the input back. */
  lemma {:induction false} JoinSplit(s: string, sep: char)
    ensures Join(Split(s, sep), sep) == s
    decreases |s|
  {
    if s != [] {
      var rest := Split(s[1..], sep);
      JoinSplit(s[1..], sep);
      if s[0] == sep {
        assert Split(s, sep)[1..] == rest;
      } else if |rest| == 1 {
        assert Join(Split(s, sep), sep) == [s[0]] + rest[0];
      } else {
        assert Split(s, sep)[1..] == rest[1..];
        assert Join(rest, sep) == rest[0] + [sep] + Join(rest[1..], sep);
      }
    }
  }

  /** The markers that the decoder turns into a line break, looked at from position k. */
  predicate BreakMarkerAt(s: string, k: int)
    requires 0 <= k < |s|
  {
    || s[k] == '\n'
    || (k + 1 < |s| && (s[k] == '/' || s[k] == '\\') && s[k + 1] == 'n')
  }

  predicate NoBreakMarker(s: string) {
    forall k :: 0 <= k < |s| ==> !BreakMarkerAt(s, k)
  }

  /** s.replace(/(\/n|\\n|\n|\r\n)/g, "\r"), scanning left to right and trying the four
      alternatives in order at each position. */
  function NormalizeBreaks(s: string): (r: string)
    ensures NoBreakMarker(r)
    ensures r != [] && r[0] == 'n' ==> s != [] && s[0] == 'n'
    decreases |s|
  {
    if |s| >= 2 && s[0] == '/' && s[1] == 'n' then Prepend('\r', NormalizeBreaks(s[2..]))
    else if |s| >= 2 && s[0] == '\\' && s[1] == 'n' then Prepend('\r', NormalizeBreaks(s[2..]))
    else if |s| >= 1 && s[0] == '\n' then Prepend('\r', NormalizeBreaks(s[1..]))
    else if |s| >= 2 && s[0] == '\r' && s[1] == '\n' then Prepend('\r', NormalizeBreaks(s[2..]))
    else if s == [] then []
    else Prepend(s[0], NormalizeBreaks(s[1..]))
  }

  /** Puts c in front of a marker-free text without creating a marker at the seam. */
  function Prepend(c: char, r: string): (t: string)
    requires NoBreakMarker(r)
    requires c != '\n' && ((c == '/' || c == '\\') && r != [] ==> r[0] != 'n')
    ensures t == [c] + r && NoBreakMarker(t)
  {
    var t := [c] + r;
    assert forall k :: 1 <= k < |t| ==> (BreakMarkerAt(t, k) <==> BreakMarkerAt(r, k - 1));
    t
  }

  /** A text without break markers (and hence without "\r\n") is left as it is. */
  lemma {:induction false} NormalizeBreaksFixes(s: string)
    requires NoBreakMarker(s)
    ensures NormalizeBreaks(s) == s
    decreases |s|
  {
    if s != [] {
      assert !BreakMarkerAt(s, 0);
      var t := s[1..];
      forall k | 0 <= k < |t| ensures !BreakMarkerAt(t, k) {
        assert !BreakMarkerAt(s, k + 1);
      }
      NormalizeBreaksFixes(t);
    }
  }

  /** Normalising twice is normalising once. */
  lemma NormalizeBreaksIdempotent(s: string)
    ensures NormalizeBreaks(NormalizeBreaks(s)) == NormalizeBreaks(s)
  {
    NormalizeBreaksFixes(NormalizeBreaks(s));
  }

  // Hexadecimal digits as produced by Number.prototype.toString(16).

  function HexDigit(d: int): (c: char)
    requires 0 <= d < 16
    ensures DigitValue(c) == d
  {
    "0123456789abcdef"[d]
  }

  predicate IsHexDigit(c: char) {
    ('0' <= c <= '9') || ('a' <= c <= 'f')
  }

  function DigitValue(c: char): (v: nat)
    ensures v < 16
  {
    if '0' <= c <= '9' then (c - '0') as nat
    else if 'a' <= c <= 'f' then (c - 'a') as nat + 10
    else 0
  }

  /** The lower-case base-16 digits of n, most significant first, without leading zeros. */
  function Hex(n: nat): (s: string)
    ensures |s| >= 1 && forall k :: 0 <= k < |s| ==> IsHexDigit(s[k])
    decreases n
  {
    if n < 16 then [HexDigit(n)] else Hex(n / 16) + [HexDigit(n % 16)]
  }

  /** The number a string of hexadecimal digits denotes. */
  function HexValue(s: string): nat
    decreases |s|
  {
    if s == [] then 0 else HexValue(s[..|s| - 1]) * 16 + DigitValue(s[|s| - 1])
  }

  function Pow16(k: nat): (p: nat)
    ensures p >= 1
  {
    if k == 0 then 1 else 16 * Pow16(k - 1)
  }

  /** Printing in base 16 and reading back gives the number. */
  lemma {:induction false} HexRoundTrip(n: nat)
    ensures HexValue(Hex(n)) == n
    decreases n
  {
    if n >= 16 {
      HexRoundTrip(n / 16);
      var s := Hex(n);
      assert s[..|s| - 1] == Hex(n / 16);
    }
  }

  lemma {:induction false} HexValueAppend(a: string, b: string)
    ensures HexValue(a + b) == HexValue(a) * Pow16(|b|) + HexValue(b)
    decreases |b|
  {
    if b != [] {
      var b' := b[..|b| - 1];
      var d := DigitValue(b[|b| - 1]);
      assert (a + b)[..|a + b| - 1] == a + b';
      assert (a + b)[|a + b| - 1] == b[|b| - 1];
      HexValueAppend(a, b');
      var x, y, p := HexValue(a), HexValue(b'), Pow16(|b'|);
      assert HexValue(a + b) == (x * p + y) * 16 + d;
      assert Pow16(|b|) == 16 * p;
      ShiftDigit(x, p, y, d);
    } else {
      assert a + b == a;
    }
  }

  lemma ShiftDigit(x: nat, p: nat, y: nat, d: nat)
    ensures (x * p + y) * 16 + d == x * (16 * p) + (y * 16 + d)
  {
  }

  lemma {:induction false} HexValueBound(s: string)
    ensures HexValue(s) < Pow16(|s|)
    decreases |s|
  {
    if s != [] {
      HexValueBound(s[..|s| - 1]);
    }
  }

  lemma {:induction false} HexValueZeros(z: string)
    requires forall k :: 0 <= k < |z| ==> z[k] == '0'
    ensures HexValue(z) == 0
    decreases |z|
  {
    if z != [] {
      HexValueZeros(z[..|z| - 1]);
    }
  }

  /** (n).toString(16) for an integer n, or for NaN (None). */
  function NumberToHex(n: Option<int>): (s: string)
    ensures |s| >= 1
  {
    match n
    case None => "NaN"
    case Some(v) => if v < 0 then "-" + Hex(-v) else Hex(v)
  }
}
