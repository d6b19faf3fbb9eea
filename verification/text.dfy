// Python's string operations, as far as the diff parser, the path rules and the log scanners use them.
module Text {
  import opened Common

  // str.isspace, which is also \s in a pattern.
  predicate IsSpace(c: char) {
    var n := c as int;
    9 <= n <= 13 || 0x1c <= n <= 0x20 || n == 0x85 || n == 0xa0 || n == 0x1680 || 0x2000 <= n <= 0x200a
    || n == 0x2028 || n == 0x2029 || n == 0x202f || n == 0x205f || n == 0x3000
  }

  // The characters at which str.splitlines cuts.
  predicate IsBreak(c: char) {
    var n := c as int;
    10 <= n <= 13 || 0x1c <= n <= 0x1e || n == 0x85 || n == 0x2028 || n == 0x2029
  }

  predicate StartsWith(s: string, p: string) { p <= s }

  predicate EndsWith(s: string, p: string) { |p| <= |s| && s[|s| - |p|..] == p }

  ghost predicate IsSuffix(t: string, s: string) { |t| <= |s| && s[|s| - |t|..] == t }

  lemma SuffixTrans(a: string, b: string, c: string)
    requires IsSuffix(a, b) && IsSuffix(b, c)
    ensures IsSuffix(a, c)
  {
    assert c[|c| - |a|..] == c[|c| - |b|..][|b| - |a|..];
  }

  function LStrip(s: string): (r: string)
    ensures |r| <= |s| && (r == "" || !IsSpace(r[0]))
  {
    if s != "" && IsSpace(s[0]) then LStrip(s[1..]) else s
  }

  function RStrip(s: string): (r: string)
    ensures |r| <= |s| && (r == "" || !IsSpace(r[|r| - 1]))
  {
    if s != "" && IsSpace(s[|s| - 1]) then RStrip(s[..|s| - 1]) else s
  }

  lemma {:induction false} LStripIsSuffix(s: string)
    ensures IsSuffix(LStrip(s), s)
  {
    if s != "" && IsSpace(s[0]) {
      LStripIsSuffix(s[1..]);
      SuffixTrans(LStrip(s), s[1..], s);
    }
  }

  lemma {:induction false} RStripIsPrefix(s: string)
    ensures RStrip(s) <= s
  {
    if s != "" && IsSpace(s[|s| - 1]) {
      RStripIsPrefix(s[..|s| - 1]);
    }
  }

  function Strip(s: string): string { RStrip(LStrip(s)) }

  // No whitespace at either end.
  predicate Trimmed(s: string) { s == "" || (!IsSpace(s[0]) && !IsSpace(s[|s| - 1])) }

  lemma StripTrims(s: string)
    ensures Trimmed(Strip(s)) && |Strip(s)| <= |s|
    ensures Trimmed(s) ==> Strip(s) == s
    ensures !Trimmed(s) ==> |Strip(s)| < |s|
  {
    RStripIsPrefix(LStrip(s));
    if !Trimmed(s) && !IsSpace(s[0]) {
      assert LStrip(s) == s;
      assert RStrip(s) == RStrip(s[..|s| - 1]);
    }
  }

  lemma {:induction false} RStripKeepsStart(s: string)
    requires s != "" && !IsSpace(s[0])
    ensures RStrip(s) != ""
  {
    if IsSpace(s[|s| - 1]) { RStripKeepsStart(s[..|s| - 1]); }
  }

  // ---------- lines ----------

  predicate OneLine(s: string) { forall i :: 0 <= i < |s| ==> !IsBreak(s[i]) }

  predicate AllOneLine(lines: seq<string>) { forall i :: 0 <= i < |lines| ==> OneLine(lines[i]) }

  // The length of the first line, without its terminator.
  function LineLength(s: string): (n: nat)
    ensures n <= |s| && OneLine(s[..n]) && (n < |s| ==> IsBreak(s[n]))
  {
    if s == "" || IsBreak(s[0]) then 0
    else
      assert s[1..] == s[1..];
      1 + LineLength(s[1..])
  }

  function BreakLength(s: string): nat
    requires s != ""
  {
    if |s| > 1 && s[0] == '\r' && s[1] == '\n' then 2 else 1
  }

  // str.splitlines: no empty last line after a final terminator.
  function SplitLines(s: string): (lines: seq<string>)
    ensures AllOneLine(lines)
    decreases |s|
  {
    if s == "" then []
    else
      var n := LineLength(s);
      if n == |s| then [s] else [s[..n]] + SplitLines(s[n + BreakLength(s[n..])..])
  }

  // "\n".join(lines)
  function Join(lines: seq<string>): string {
    if lines == [] then "" else if |lines| == 1 then lines[0] else lines[0] + "\n" + Join(lines[1..])
  }

  lemma {:induction false} LineLengthIs(s: string, n: nat)
    requires n <= |s| && OneLine(s[..n]) && (n < |s| ==> IsBreak(s[n]))
    ensures LineLength(s) == n
  {
    if n > 0 {
      assert s[..n][0] == s[0];
      assert s[1..][..n - 1] == s[..n][1..];
      LineLengthIs(s[1..], n - 1);
    }
  }

  // Splitting undoes joining, when no line holds a terminator and the last one is not empty.
  lemma {:induction false} SplitJoin(lines: seq<string>)
    requires AllOneLine(lines) && (lines != [] ==> lines[|lines| - 1] != "")
    ensures SplitLines(Join(lines)) == lines
    decreases |lines|
  {
    if |lines| == 1 {
      LineLengthIs(lines[0], |lines[0]|);
    } else if |lines| > 1 {
      var s := Join(lines);
      var n := |lines[0]|;
      assert s[..n] == lines[0] && s[n] == '\n';
      LineLengthIs(s, n);
      assert s[n..][0] == '\n';
      assert s[n + 1..] == Join(lines[1..]);
      SplitJoin(lines[1..]);
    }
  }

  // ---------- decimal numbers ----------

  predicate IsDigit(c: char) { '0' <= c <= '9' }

  predicate AllDigits(s: string) { forall i :: 0 <= i < |s| ==> IsDigit(s[i]) }

  function DigitChar(d: nat): (c: char)
    requires d < 10
    ensures IsDigit(c)
  {
    '0' + d as char
  }

  function Decimal(n: nat): (s: string)
    ensures s != "" && AllDigits(s)
  {
    if n < 10 then [DigitChar(n)] else Decimal(n / 10) + [DigitChar(n % 10)]
  }

  // int() on a string of digits.
  function DecimalValue(s: string): nat
    requires AllDigits(s)
  {
    if s == "" then 0 else 10 * DecimalValue(s[..|s| - 1]) + (s[|s| - 1] - '0') as int
  }

  lemma {:induction false} DecimalRoundTrip(n: nat)
    ensures DecimalValue(Decimal(n)) == n
  {
    if n < 10 {
      assert Decimal(n)[..0] == "";
    } else {
      DecimalRoundTrip(n / 10);
      var s := Decimal(n);
      assert s[..|s| - 1] == Decimal(n / 10);
    }
  }

  // The leading digits of s: what \d+ takes.
  function DigitSpan(s: string): (n: nat)
    ensures n <= |s| && AllDigits(s[..n]) && (n < |s| ==> !IsDigit(s[n]))
  {
    if s == "" || !IsDigit(s[0]) then 0 else 1 + DigitSpan(s[1..])
  }

  lemma {:induction false} DigitSpanOf(d: string, rest: string)
    requires AllDigits(d) && (rest == "" || !IsDigit(rest[0]))
    ensures DigitSpan(d + rest) == |d|
  {
    if d == "" {
      assert d + rest == rest;
    } else {
      assert (d + rest)[1..] == d[1..] + rest;
      DigitSpanOf(d[1..], rest);
    }
  }

  // The leading whitespace of s: what \s+ takes.
  function SpaceSpan(s: string): (n: nat)
    ensures n <= |s|
  {
    if s == "" || !IsSpace(s[0]) then 0 else 1 + SpaceSpan(s[1..])
  }

  // ---------- searching ----------

  // str.find, None for -1.
  function Find(s: string, p: string): (at: Option<nat>)
    ensures at.Some? ==> at.value + |p| <= |s| && s[at.value..at.value + |p|] == p && p <= s[at.value..]
    ensures forall i :: 0 <= i <= |s| && (at.Some? ==> i < at.value) ==> !(p <= s[i..])
    decreases |s|
  {
    if p <= s then Some(0)
    else if s == "" then None
    else
      var rest := Find(s[1..], p);
      assert forall i :: 1 <= i <= |s| ==> s[i..] == s[1..][i - 1..];
      if rest.Some? then Some(rest.value + 1) else None
  }

  lemma FindIs(s: string, p: string, k: nat)
    requires k <= |s| && p <= s[k..] && forall i :: 0 <= i < k ==> !(p <= s[i..])
    ensures Find(s, p) == Some(k)
  {
    assert Find(s, p).Some?;
    assert p <= s[Find(s, p).value..];
  }

  // Looking for one character finds its first occurrence.
  lemma FindChar(s: string, c: char)
    ensures Find(s, [c]).Some? <==> c in s
    ensures Find(s, [c]).Some? ==> s[Find(s, [c]).value] == c && c !in s[..Find(s, [c]).value]
  {
    var at := Find(s, [c]);
    if at.Some? {
      assert s[at.value..][0] == c;
    }
    forall i | 0 <= i < |s| && s[i] == c ensures at.Some? && at.value <= i {
      assert [c] <= s[i..];
    }
  }

  predicate Contains(s: string, p: string) { Find(s, p).Some? }

  lemma NotContained(s: string, p: string)
    requires forall i :: 0 <= i <= |s| ==> !(p <= s[i..])
    ensures !Contains(s, p)
  {
  }

  lemma MissingChar(s: string, p: string, c: char)
    requires c in p && c !in s
    ensures !Contains(s, p)
  {
    var k :| 0 <= k < |p| && p[k] == c;
    forall i | 0 <= i <= |s| ensures !(p <= s[i..]) {
      assert |p| <= |s[i..]| ==> s[i..][k] == s[i + k];
    }
    NotContained(s, p);
  }
}
