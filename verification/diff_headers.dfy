// Which "@@" lines the parser accepts, and which the viewer reads numbers from.
module DiffHeaders {
  import opened Common
  import opened Text
  import opened DiffParser
  import opened DiffViewer

  ghost predicate Blanks(w: string) { w != "" && forall i :: 0 <= i < |w| ==> IsSpace(w[i]) }

  ghost predicate Digits(d: string, n: nat) { d != "" && AllDigits(d) && DecimalValue(d) == n }

  // "start" alone, meaning one line, or "start,count".
  ghost predicate SpanText(s: string, start: nat, count: nat) {
    (Digits(s, start) && count == 1) || exists d, e :: s == d + "," + e && Digits(d, start) && Digits(e, count)
  }

  // "@@ -start,count +start,count @@" and any section text, with any blanks between the parts.
  ghost predicate HeaderText(l: string, r: Range, w1: string, a: string, w2: string, b: string, w3: string, tail: string) {
    && l == "@@" + (w1 + "-" + (a + (w2 + "+" + (b + (w3 + "@" + ("@" + tail))))))
    && Blanks(w1) && Blanks(w2) && Blanks(w3)
    && SpanText(a, r.oldStart, r.oldLines) && SpanText(b, r.newStart, r.newLines)
  }

  ghost predicate HeaderShape(l: string, r: Range) {
    exists w1, a, w2, b, w3, tail :: HeaderText(l, r, w1, a, w2, b, w3, tail)
  }

  // ---------- blanks ----------

  lemma {:induction false} SpaceSpanOf(w: string, rest: string)
    requires (forall i :: 0 <= i < |w| ==> IsSpace(w[i])) && (rest == "" || !IsSpace(rest[0]))
    ensures SpaceSpan(w + rest) == |w|
  {
    if w == "" {
      assert w + rest == rest;
    } else {
      assert (w + rest)[1..] == w[1..] + rest;
      SpaceSpanOf(w[1..], rest);
    }
  }

  lemma {:induction false} SpaceSpanIs(s: string)
    ensures SpaceSpan(s) <= |s| && forall i :: 0 <= i < SpaceSpan(s) ==> IsSpace(s[i])
  {
    if s != "" && IsSpace(s[0]) { SpaceSpanIs(s[1..]); }
  }

  lemma AfterBlanks(w: string, c: char, rest: string)
    requires Blanks(w) && !IsSpace(c)
    ensures AfterSpace(w + [c] + rest, c) == Some(rest)
  {
    hide SpaceSpan;
    var s := w + [c] + rest;
    assert s == w + ([c] + rest);
    SpaceSpanOf(w, [c] + rest);
    assert s[|w|] == c && s[|w| + 1..] == rest;
  }

  lemma BlanksBefore(s: string, c: char) returns (w: string, rest: string)
    requires AfterSpace(s, c).Some?
    ensures s == w + [c] + rest && Blanks(w) && AfterSpace(s, c) == Some(rest)
  {
    hide SpaceSpan;
    SpaceSpanIs(s);
    var n := SpaceSpan(s);
    w, rest := s[..n], s[n + 1..];
  }

  // ---------- numbers ----------

  lemma SpanRead(a: string, start: nat, count: nat, rest: string)
    requires SpanText(a, start, count) && (rest == "" || (!IsDigit(rest[0]) && rest[0] != ','))
    ensures ParseSpan(a + rest) == Some((start, count, rest))
  {
    hide DigitSpan, DecimalValue;
    if Digits(a, start) && count == 1 {
      DigitSpanOf(a, rest);
      assert (a + rest)[..|a|] == a && (a + rest)[|a|..] == rest;
    } else {
      var d, e :| a == d + "," + e && Digits(d, start) && Digits(e, count);
      SpanPairRead(d, e, start, count, rest);
      assert d + "," + e + rest == a + rest;
    }
  }

  lemma SpanPairRead(d: string, e: string, start: nat, count: nat, rest: string)
    requires Digits(d, start) && Digits(e, count) && (rest == "" || (!IsDigit(rest[0]) && rest[0] != ','))
    ensures ParseSpan(d + "," + e + rest) == Some((start, count, rest))
  {
    hide DigitSpan, DecimalValue;
    var tail := "," + e + rest;
    var s := d + "," + e + rest;
    assert s == d + tail;
    DigitSpanOf(d, tail);
    assert s[..|d|] == d && s[|d|..] == tail;
    assert tail[1..] == e + rest;
    DigitSpanOf(e, rest);
    assert tail[1..][..|e|] == e && tail[1..][|e|..] == rest;
  }

  lemma SpanWritten(s: string) returns (a: string)
    requires ParseSpan(s).Some?
    ensures s == a + ParseSpan(s).value.2 && SpanText(a, ParseSpan(s).value.0, ParseSpan(s).value.1)
  {
    hide DigitSpan, DecimalValue;
    var n := DigitSpan(s);
    var d, rest := s[..n], s[n..];
    if rest != "" && rest[0] == ',' {
      var m := DigitSpan(rest[1..]);
      var e := rest[1..][..m];
      a := d + "," + e;
      assert rest == "," + e + rest[1..][m..];
      assert Digits(d, ParseSpan(s).value.0) && Digits(e, ParseSpan(s).value.1);
    } else {
      a := d;
    }
  }

  // ---------- the parser ----------

  // A line is an accepted header with these four numbers exactly when it reads so.
  lemma HeaderIff(l: string, r: Range)
    ensures ParseHeader(l) == Some(r) <==> HeaderShape(l, r)
  {
    hide ParseHeader, HeaderText;
    if ParseHeader(l) == Some(r) {
      var w1, a, w2, b, w3, tail := HeaderWritten(l, r);
    }
    if w1, a, w2, b, w3, tail :| HeaderText(l, r, w1, a, w2, b, w3, tail) { HeaderRead(l, r, w1, a, w2, b, w3, tail); }
  }

  lemma HeaderRead(l: string, r: Range, w1: string, a: string, w2: string, b: string, w3: string, tail: string)
    requires HeaderText(l, r, w1, a, w2, b, w3, tail)
    ensures ParseHeader(l) == Some(r)
  {
    hide AfterSpace, ParseSpan, SpanText;
    var close := w3 + "@" + ("@" + tail);
    var right := w2 + "+" + (b + close);
    assert l[2..] == w1 + "-" + (a + right);
    AfterBlanks(w1, '-', a + right);
    assert right[0] == w2[0] && close[0] == w3[0];
    SpaceNoDigit(w2[0]);
    SpaceNoDigit(w3[0]);
    SpanRead(a, r.oldStart, r.oldLines, right);
    AfterBlanks(w2, '+', b + close);
    SpanRead(b, r.newStart, r.newLines, close);
    AfterBlanks(w3, '@', "@" + tail);
  }

  lemma SpaceNoDigit(c: char)
    requires IsSpace(c)
    ensures !IsDigit(c) && c != ','
  {
  }

  lemma HeaderWritten(l: string, r: Range)
    returns (w1: string, a: string, w2: string, b: string, w3: string, tail: string)
    requires ParseHeader(l) == Some(r)
    ensures HeaderText(l, r, w1, a, w2, b, w3, tail)
  {
    hide AfterSpace, ParseSpan, SpanText, Blanks;
    var rest;
    w1, rest := BlanksBefore(l[2..], '-');
    a := SpanWritten(rest);
    var right, close;
    w2, right := BlanksBefore(ParseSpan(rest).value.2, '+');
    b := SpanWritten(right);
    w3, close := BlanksBefore(ParseSpan(right).value.2, '@');
    tail := close[1..];
    assert close == "@" + tail;
    assert l == "@@" + l[2..];
  }

  // ---------- the viewer ----------

  ghost predicate ViewerText(s: string, a: string, b: string, rest: string, o: nat, n: nat) {
    s == "@@ -" + (a + (" +" + (b + (" @@" + rest))))
    && (exists c :: SpanText(a, o, c)) && exists c :: SpanText(b, n, c)
  }

  // At the start of a text the viewer reads these two numbers exactly when it reads so.
  lemma HeaderAtIff(s: string, o: nat, n: nat)
    ensures HeaderAt(s) == Some((o, n)) <==> exists a, b, rest :: ViewerText(s, a, b, rest, o, n)
  {
    hide HeaderAt, ViewerText;
    if HeaderAt(s) == Some((o, n)) {
      var a, b, rest := ViewerWritten(s, o, n);
    }
    if a, b, rest :| ViewerText(s, a, b, rest, o, n) { ViewerRead(s, a, b, rest, o, n); }
  }

  lemma ViewerRead(s: string, a: string, b: string, rest: string, o: nat, n: nat)
    requires ViewerText(s, a, b, rest, o, n)
    ensures HeaderAt(s) == Some((o, n))
  {
    hide ParseSpan, SpanText;
    var c :| SpanText(a, o, c);
    var d :| SpanText(b, n, d);
    var close := " @@" + rest;
    var right := " +" + (b + close);
    assert s[4..] == a + right && right[2..] == b + close;
    SpanRead(a, o, c, right);
    SpanRead(b, n, d, close);
  }

  lemma ViewerWritten(s: string, o: nat, n: nat) returns (a: string, b: string, rest: string)
    requires HeaderAt(s) == Some((o, n))
    ensures ViewerText(s, a, b, rest, o, n)
  {
    hide ParseSpan, SpanText;
    a := SpanWritten(s[4..]);
    var right := ParseSpan(s[4..]).value.2;
    b := SpanWritten(right[2..]);
    var close := ParseSpan(right[2..]).value.2;
    rest := close[3..];
    assert s == "@@ -" + s[4..] && right == " +" + right[2..] && close == " @@" + rest;
  }

  // Anywhere in a line: the leftmost place counts.
  lemma {:induction false} FirstHeaderIff(s: string, v: (nat, nat))
    ensures FirstHeader(s) == Some(v)
            <==> exists i :: 0 <= i <= |s| && HeaderAt(s[i..]) == Some(v) && forall j :: 0 <= j < i ==> HeaderAt(s[j..]).None?
  {
    hide HeaderAt;
    assert s[0..] == s;
    if HeaderAt(s).None? && s != "" {
      FirstHeaderIff(s[1..], v);
      assert forall i :: 0 <= i < |s| ==> s[1..][i..] == s[i + 1..];
      if i :| 0 <= i <= |s| && HeaderAt(s[i..]) == Some(v) && forall j :: 0 <= j < i ==> HeaderAt(s[j..]).None? {
        assert i > 0 && s[1..][i - 1..] == s[i..];
        assert forall j :: 0 <= j < i - 1 ==> s[1..][j..] == s[j + 1..];
      }
      if i :| 0 <= i <= |s[1..]| && HeaderAt(s[1..][i..]) == Some(v) && forall j :: 0 <= j < i ==> HeaderAt(s[1..][j..]).None? {
        assert s[1..][i..] == s[i + 1..];
        forall j | 0 <= j < i + 1 ensures HeaderAt(s[j..]).None? { assert j > 0 ==> s[1..][j - 1..] == s[j..]; }
      }
    }
  }

  // ---------- the numbers of any diff ----------

  ghost predicate HeadLine(l: string) {
    StartsWith(l, "---") || StartsWith(l, "+++") || StartsWith(l, "diff --git") || StartsWith(l, "index ")
  }

  // Lines that take a number on the old side, and on the new side.
  ghost predicate OldSide(l: string) { !StartsWith(l, "@@") && !HeadLine(l) && !StartsWith(l, "+") }
  ghost predicate NewSide(l: string) { !StartsWith(l, "@@") && !HeadLine(l) && !StartsWith(l, "-") }

  ghost predicate Restarts(l: string) { StartsWith(l, "@@") && FirstHeader(l).Some? }

  ghost function Those(lines: seq<string>, j: nat, i: nat, p: string -> bool): set<nat>
    requires i <= |lines|
  {
    set k: nat | j <= k < i && p(lines[k])
  }

  // How many lines from j on, before i, take a number.
  ghost function OldBetween(lines: seq<string>, j: nat, i: nat): nat
    requires i <= |lines|
  {
    |Those(lines, j, i, OldSide)|
  }

  ghost function NewBetween(lines: seq<string>, j: nat, i: nat): nat
    requires i <= |lines|
  {
    |Those(lines, j, i, NewSide)|
  }

  ghost predicate Kinds(l: string, row: Row, o: nat, n: nat) {
    row == if StartsWith(l, "@@") then Row(HunkHead, l, None, None)
           else if HeadLine(l) then Row(FileHead, l, None, None)
           else if StartsWith(l, "+") then Row(Add, l, None, Some(n))
           else if StartsWith(l, "-") then Row(Del, l, Some(o), None)
           else Row(Normal, l, Some(o), Some(n))
  }

  // The counters in front of line i.
  function CountersAt(lines: seq<string>, o: nat, n: nat, i: nat): (nat, nat)
    requires i <= |lines|
  {
    if i == 0 then (o, n)
    else
      var c := CountersAt(lines, o, n, i - 1);
      (Shown(lines[i - 1], c.0, c.1).1, Shown(lines[i - 1], c.0, c.1).2)
  }

  lemma {:induction false} CountersTail(lines: seq<string>, o: nat, n: nat, i: nat)
    requires lines != [] && 0 < i <= |lines|
    ensures CountersAt(lines, o, n, i)
            == CountersAt(lines[1..], Shown(lines[0], o, n).1, Shown(lines[0], o, n).2, i - 1)
  {
    hide Shown;
    if i > 1 { CountersTail(lines, o, n, i - 1); }
  }

  lemma {:induction false} RowAt(lines: seq<string>, o: nat, n: nat, i: nat)
    requires i < |lines|
    ensures Scan(lines, o, n)[i] == Shown(lines[i], CountersAt(lines, o, n, i).0, CountersAt(lines, o, n, i).1).0
    decreases i
  {
    hide Shown;
    ScanStep(lines, o, n);
    if i > 0 {
      CountersTail(lines, o, n, i);
      RowAt(lines[1..], Shown(lines[0], o, n).1, Shown(lines[0], o, n).2, i - 1);
    }
  }

  lemma ThoseNext(lines: seq<string>, j: nat, i: nat, p: string -> bool)
    requires j <= i < |lines|
    ensures |Those(lines, j, i + 1, p)| == |Those(lines, j, i, p)| + if p(lines[i]) then 1 else 0
  {
    assert Those(lines, j, i + 1, p) == Those(lines, j, i, p) + if p(lines[i]) then {i} else {};
  }

  lemma ThoseNone(lines: seq<string>, i: nat, p: string -> bool)
    requires i <= |lines|
    ensures |Those(lines, i, i, p)| == 0
  {
    assert Those(lines, i, i, p) == {};
  }

  lemma OneLineShown(l: string, o: nat, n: nat)
    ensures Kinds(l, Shown(l, o, n).0, o, n)
    ensures Restarts(l) ==> Shown(l, o, n).1 == FirstHeader(l).value.0 && Shown(l, o, n).2 == FirstHeader(l).value.1
    ensures !Restarts(l) ==>
              && Shown(l, o, n).1 == o + (if OldSide(l) then 1 else 0) && Shown(l, o, n).2 == n + if NewSide(l) then 1 else 0
  {
    hide FirstHeader;
    assert StartsWith(l, "+") ==> l[0] == '+';
    assert StartsWith(l, "-") ==> l[0] == '-';
  }

  // Where counting starts: at the top, or behind the nearest header that carries numbers.
  ghost predicate CountsFrom(lines: seq<string>, j: nat, i: nat, o: nat, n: nat)
    requires j <= i <= |lines|
  {
    && (if j == 0 then o == 0 && n == 0 else Restarts(lines[j - 1]) && FirstHeader(lines[j - 1]) == Some((o, n)))
    && forall k :: j <= k < i ==> !Restarts(lines[k])
  }

  lemma {:induction false} CountersAre(lines: seq<string>, j: nat, i: nat, o: nat, n: nat)
    requires j <= i <= |lines| && CountsFrom(lines, j, i, o, n)
    ensures CountersAt(lines, 0, 0, i) == (o + OldBetween(lines, j, i), n + NewBetween(lines, j, i))
  {
    hide Restarts, FirstHeader, Those, Shown, OldSide, NewSide;
    if i == j {
      ThoseNone(lines, i, OldSide);
      ThoseNone(lines, i, NewSide);
      if i > 0 {
        var c := CountersAt(lines, 0, 0, i - 1);
        OneLineShown(lines[i - 1], c.0, c.1);
      }
    } else {
      CountersAre(lines, j, i - 1, o, n);
      ThoseNext(lines, j, i - 1, OldSide);
      ThoseNext(lines, j, i - 1, NewSide);
      var c := CountersAt(lines, 0, 0, i - 1);
      OneLineShown(lines[i - 1], c.0, c.1);
    }
  }

  // What the viewer shows for any line of any text: its kind by how it starts, and as numbers those of
  // the nearest header before it plus the lines since then that take one on that side.
  lemma AnyLine(lines: seq<string>, j: nat, i: nat, o: nat, n: nat)
    requires j <= i < |lines| && CountsFrom(lines, j, i, o, n)
    ensures Kinds(lines[i], Scan(lines, 0, 0)[i], o + OldBetween(lines, j, i), n + NewBetween(lines, j, i))
  {
    hide Restarts, FirstHeader, OldBetween, NewBetween, Shown, Scan, Kinds;
    CountersAre(lines, j, i, o, n);
    RowAt(lines, 0, 0, i);
    OneLineShown(lines[i], o + OldBetween(lines, j, i), n + NewBetween(lines, j, i));
  }

  // Such a place exists for every line.
  lemma {:induction false} CountingStarts(lines: seq<string>, i: nat) returns (j: nat, o: nat, n: nat)
    requires i <= |lines|
    ensures j <= i && CountsFrom(lines, j, i, o, n)
  {
    hide FirstHeader;
    if i == 0 {
      j, o, n := 0, 0, 0;
    } else if Restarts(lines[i - 1]) {
      j, o, n := i, FirstHeader(lines[i - 1]).value.0, FirstHeader(lines[i - 1]).value.1;
    } else {
      j, o, n := CountingStarts(lines, i - 1);
    }
  }
}
