// Scanning CI logs: removing ANSI control sequences, and cutting the lines around a match.
module LogParser {
  import opened Common
  import opened Text

  // ---------- strip_ansi_codes ----------

  const ESC: char := 0x1b as char

  predicate IsParameter(c: char) { '0' <= c <= '?' }
  predicate IsIntermediate(c: char) { ' ' <= c <= '/' }
  predicate IsFinal(c: char) { '@' <= c <= '~' }

  predicate AllParameters(s: string) { forall i :: 0 <= i < |s| ==> IsParameter(s[i]) }
  predicate AllIntermediates(s: string) { forall i :: 0 <= i < |s| ==> IsIntermediate(s[i]) }

  function ParameterSpan(s: string): (n: nat)
    ensures n <= |s| && AllParameters(s[..n])
  {
    if s == "" || !IsParameter(s[0]) then 0 else 1 + ParameterSpan(s[1..])
  }

  function IntermediateSpan(s: string): (n: nat)
    ensures n <= |s| && AllIntermediates(s[..n])
  {
    if s == "" || !IsIntermediate(s[0]) then 0 else 1 + IntermediateSpan(s[1..])
  }

  // The length of the control sequence at the start of s, 0 if there is none.
  function SequenceLength(s: string): (n: nat)
    ensures n <= |s|
  {
    if |s| < 2 || s[0] != ESC || s[1] != '[' then 0
    else
      var p := ParameterSpan(s[2..]);
      var i := IntermediateSpan(s[2 + p..]);
      var end := 2 + p + i;
      if end < |s| && IsFinal(s[end]) then end + 1 else 0
  }

  // The substitution, left to right.
  function StripAnsi(s: string): string
    decreases |s|
  {
    if s == "" then ""
    else
      var n := SequenceLength(s);
      if n > 0 then StripAnsi(s[n..]) else [s[0]] + StripAnsi(s[1..])
  }

  // Decorated text: chunks, and control sequences in the sense of ECMA-48 section 5.4.
  datatype Piece = Chunk(text: string) | Control(parameters: string, intermediates: string, final: char)

  predicate LegalPiece(p: Piece) {
    match p
    case Chunk(text) => ESC !in text
    case Control(a, b, c) => AllParameters(a) && AllIntermediates(b) && IsFinal(c)
  }

  predicate Legal(pieces: seq<Piece>) { forall i :: 0 <= i < |pieces| ==> LegalPiece(pieces[i]) }

  function RenderPiece(p: Piece): string {
    match p case Chunk(text) => text case Control(a, b, c) => [ESC, '['] + a + b + [c]
  }

  function Render(pieces: seq<Piece>): string {
    if pieces == [] then "" else RenderPiece(pieces[0]) + Render(pieces[1..])
  }

  function Plain(pieces: seq<Piece>): string {
    if pieces == [] then "" else (if pieces[0].Chunk? then pieces[0].text else "") + Plain(pieces[1..])
  }

  lemma {:induction false} ParameterSpanOf(a: string, rest: string)
    requires AllParameters(a) && (rest != "" ==> !IsParameter(rest[0]))
    ensures ParameterSpan(a + rest) == |a|
  {
    if a == "" {
      assert a + rest == rest;
    } else {
      assert (a + rest)[1..] == a[1..] + rest;
      ParameterSpanOf(a[1..], rest);
    }
  }

  lemma {:induction false} IntermediateSpanOf(b: string, rest: string)
    requires AllIntermediates(b) && (rest != "" ==> !IsIntermediate(rest[0]))
    ensures IntermediateSpan(b + rest) == |b|
  {
    if b == "" {
      assert b + rest == rest;
    } else {
      assert (b + rest)[1..] == b[1..] + rest;
      IntermediateSpanOf(b[1..], rest);
    }
  }

  lemma ControlIsSeen(p: Piece, rest: string)
    requires p.Control? && LegalPiece(p)
    ensures SequenceLength(RenderPiece(p) + rest) == |RenderPiece(p)|
  {
    hide ParameterSpan, IntermediateSpan, AllParameters, AllIntermediates, IsFinal, IsParameter, IsIntermediate, SequenceLength;
    var a, b, c := p.parameters, p.intermediates, p.final;
    var tail := [c] + rest;
    var mid := b + tail;
    assert RenderPiece(p) + rest == [ESC, '['] + (a + mid);
    MidStart(b, tail);
    ParameterSpanOf(a, mid);
    IntermediateSpanOf(b, tail);
    ReadBack(a, b, tail);
  }

  lemma ReadBack(a: string, b: string, tail: string)
    requires tail != "" && IsFinal(tail[0])
    requires ParameterSpan(a + (b + tail)) == |a| && IntermediateSpan(b + tail) == |b|
    ensures SequenceLength([ESC, '['] + (a + (b + tail))) == 2 + |a| + |b| + 1
  {
    hide ParameterSpan, IntermediateSpan, IsFinal;
    var s := [ESC, '['] + (a + (b + tail));
    assert s[2..] == a + (b + tail);
    assert s[2 + |a|..] == b + tail;
    assert s[2 + |a| + |b|] == tail[0];
  }

  lemma MidStart(b: string, tail: string)
    requires AllIntermediates(b) && tail != "" && IsFinal(tail[0])
    ensures !IsParameter((b + tail)[0]) && !IsIntermediate(tail[0])
  {
  }

  lemma {:induction false} ChunkIsKept(text: string, rest: string)
    requires ESC !in text
    ensures StripAnsi(text + rest) == text + StripAnsi(rest)
  {
    if text == "" {
      assert text + rest == rest;
    } else {
      assert (text + rest)[1..] == text[1..] + rest;
      ChunkIsKept(text[1..], rest);
    }
  }

  // Stripping undoes any decoration: the result is exactly the concatenation of the chunks.
  lemma {:induction false} StrippingUndoesDecoration(pieces: seq<Piece>)
    requires Legal(pieces)
    ensures StripAnsi(Render(pieces)) == Plain(pieces) && ESC !in Plain(pieces)
  {
    if pieces != [] {
      var p, rest := pieces[0], Render(pieces[1..]);
      assert LegalPiece(p);
      StrippingUndoesDecoration(pieces[1..]);
      if p.Chunk? {
        ChunkIsKept(p.text, rest);
      } else {
        ControlIsSeen(p, rest);
        assert (RenderPiece(p) + rest)[|RenderPiece(p)|..] == rest;
      }
    }
  }

  lemma ReadControl(s: string) returns (p: Piece)
    requires SequenceLength(s) > 0
    ensures LegalPiece(p) && RenderPiece(p) == s[..SequenceLength(s)]
  {
    hide ParameterSpan, IntermediateSpan;
    var body := s[2..];
    var a := ParameterSpan(body);
    var b := IntermediateSpan(s[2 + a..]);
    p := Control(body[..a], s[2 + a..][..b], s[2 + a + b]);
    assert s[..2] == [ESC, '['];
    assert s[..2 + a] == s[..2] + body[..a];
    assert s[..2 + a + b] == s[..2 + a] + s[2 + a..][..b];
  }

  lemma PiecesCons(p: Piece, rest: seq<Piece>)
    requires LegalPiece(p) && Legal(rest)
    ensures Legal([p] + rest) && Render([p] + rest) == RenderPiece(p) + Render(rest)
  {
    hide LegalPiece, RenderPiece;
    assert ([p] + rest)[1..] == rest;
  }

  // A text read back as pieces, when every escape character starts a control sequence.
  lemma {:induction false} ReadPieces(s: string) returns (pieces: seq<Piece>)
    requires ESC !in StripAnsi(s)
    ensures Legal(pieces) && Render(pieces) == s
    decreases |s|
  {
    hide SequenceLength, Legal, Render, RenderPiece;
    if s == "" {
      pieces := [];
      NoPieces();
    } else {
      var n := SequenceLength(s);
      var p;
      if n > 0 {
        p := ReadControl(s);
      } else {
        n, p := 1, Chunk([s[0]]);
        OneChunk(s[0]);
      }
      var rest := ReadPieces(s[n..]);
      pieces := [p] + rest;
      PiecesCons(p, rest);
      assert s == s[..n] + s[n..];
    }
  }

  lemma NoPieces()
    ensures Legal([]) && Render([]) == ""
  {
  }

  lemma OneChunk(c: char)
    ensures RenderPiece(Chunk([c])) == [c]
  {
  }

  // No escape character is left exactly when the log is such an interleaving.
  lemma CleanIffDecorated(s: string)
    ensures ESC !in StripAnsi(s) <==> exists pieces :: Legal(pieces) && Render(pieces) == s
  {
    if ESC !in StripAnsi(s) {
      var pieces := ReadPieces(s);
    }
    if exists pieces :: Legal(pieces) && Render(pieces) == s {
      var pieces :| Legal(pieces) && Render(pieces) == s;
      StrippingUndoesDecoration(pieces);
    }
  }

  // ---------- line ends ----------

  // .replace("\r\n", "\n").replace("\r", "\n")
  function UnixEnds(s: string): (r: string)
    ensures '\r' !in r
    decreases |s|
  {
    if s == "" then ""
    else if s[0] == '\r' then "\n" + UnixEnds(s[if |s| > 1 && s[1] == '\n' then 2 else 1..])
    else [s[0]] + UnixEnds(s[1..])
  }

  // ---------- _extract_surrounding_lines ----------

  // Every line end is one character.
  predicate SingleEnds(text: string) {
    forall i :: 0 <= i < |text| - 1 ==> !(text[i] == '\r' && text[i + 1] == '\n')
  }

  // The first line at whose end the running offset, one for each line end, has reached pos.
  function FirstReaching(lines: seq<string>, pos: int): (idx: Option<nat>)
    ensures idx.Some? ==> idx.value < |lines|
  {
    if lines == [] then None
    else if |lines[0]| + 1 >= pos then Some(0)
    else
      var rest := FirstReaching(lines[1..], pos - |lines[0]| - 1);
      if rest.Some? then Some(rest.value + 1) else None
  }

  function TargetLine(lines: seq<string>, pos: int): nat {
    var idx := FirstReaching(lines, pos);
    if idx.Some? then idx.value else 0
  }

  function First(lines: seq<string>, pos: int, window: nat): nat {
    var t := TargetLine(lines, pos);
    if t < window then 0 else t - window
  }

  function Last(lines: seq<string>, pos: int, window: nat): nat {
    var t := TargetLine(lines, pos);
    if |lines| < t + window + 1 then |lines| else t + window + 1
  }

  method ExtractSurroundingLines(text: string, pos: int, window: nat) returns (snippet: string)
    ensures var lines := SplitLines(text);
            First(lines, pos, window) <= Last(lines, pos, window) <= |lines|
            && snippet == Join(lines[First(lines, pos, window)..Last(lines, pos, window)])
  {
    hide SplitLines, FirstReaching;
    var lines := SplitLines(text);
    var current, target, idx := 0, 0, 0;
    assert lines[0..] == lines;
    while idx < |lines|
      invariant 0 <= idx <= |lines| && target == 0
      invariant TargetLine(lines, pos) == if FirstReaching(lines[idx..], pos - current).Some?
                                          then idx + FirstReaching(lines[idx..], pos - current).value else 0
    {
      ReachingStep(lines[idx..], pos - current);
      assert lines[idx..][1..] == lines[idx + 1..];
      current := current + |lines[idx]| + 1;
      if current >= pos {
        target := idx;
        break;
      }
      idx := idx + 1;
    }
    ReachingNone(lines, idx, pos - current);
    assert target == TargetLine(lines, pos);
    ReachingWithin(lines, pos);
    var start := if target < window then 0 else target - window;
    var end := if |lines| < target + window + 1 then |lines| else target + window + 1;
    snippet := Join(lines[start..end]);
  }

  lemma ReachingStep(lines: seq<string>, pos: int)
    requires lines != []
    ensures FirstReaching(lines, pos)
            == if |lines[0]| + 1 >= pos then Some(0)
               else if FirstReaching(lines[1..], pos - |lines[0]| - 1).Some?
               then Some(FirstReaching(lines[1..], pos - |lines[0]| - 1).value + 1) else None
  {
  }

  lemma ReachingNone(lines: seq<string>, idx: nat, pos: int)
    requires idx <= |lines|
    ensures idx == |lines| ==> FirstReaching(lines[idx..], pos) == None
  {
  }

  lemma ReachingWithin(lines: seq<string>, pos: int)
    ensures TargetLine(lines, pos) < |lines| || (lines == [] && TargetLine(lines, pos) == 0)
  {
  }

  // The line holding an offset: as many line ends come before it.
  function LineOf(text: string, pos: nat): nat
    requires pos <= |text|
  {
    if pos == 0 then 0 else (if IsBreak(text[pos - 1]) then 1 else 0) + LineOf(text, pos - 1)
  }

  function LineStart(lines: seq<string>, n: nat): nat
    requires n <= |lines|
  {
    if n == 0 then 0 else |lines[0]| + 1 + LineStart(lines[1..], n - 1)
  }

  lemma {:induction false} LineOfTail(text: string, n: nat, pos: nat)
    requires n < pos <= |text| && IsBreak(text[n]) && OneLine(text[..n])
    ensures LineOf(text, pos) == 1 + LineOf(text[n + 1..], pos - n - 1)
    decreases pos
  {
    if pos == n + 1 {
      LineOfFirst(text, n);
    } else {
      LineOfTail(text, n, pos - 1);
      assert text[n + 1..][pos - n - 2] == text[pos - 1];
    }
  }

  lemma {:induction false} LineOfFirst(text: string, pos: nat)
    requires pos <= |text| && OneLine(text[..pos])
    ensures LineOf(text, pos) == 0
  {
    if pos > 0 {
      assert text[..pos][pos - 1] == text[pos - 1];
      assert forall i :: 0 <= i < pos - 1 ==> text[..pos - 1][i] == text[..pos][i];
      LineOfFirst(text, pos - 1);
    }
  }

  predicate AtLineStart(text: string, pos: nat)
    requires pos < |text|
  {
    pos > 0 && IsBreak(text[pos - 1])
  }

  // What is known about the offset inside the lines after the first carries over to all lines.
  lemma AfterFirstLine(first: string, rest: seq<string>, pos: nat, h: nat)
    requires pos > |first| && h < |rest|
    ensures var lines := [first] + rest;
            && FirstReaching(lines, pos) == (if pos == |first| + 1 then Some(0)
                                             else if FirstReaching(rest, pos - |first| - 1).Some?
                                             then Some(FirstReaching(rest, pos - |first| - 1).value + 1) else None)
            && LineStart(lines, h + 1) == |first| + 1 + LineStart(rest, h) && lines[h + 1] == rest[h]
  {
    assert ([first] + rest)[1..] == rest;
  }

  // The text holds the lines, at their starts, and the offset lies in the line.
  ghost predicate Holds(text: string, lines: seq<string>, h: nat, pos: nat)
    requires h < |lines| && pos < |text|
  {
    var start := LineStart(lines, h);
    start <= pos <= start + |lines[h]| && (pos < start + |lines[h]| ==> lines[h][pos - start] == text[pos])
  }

  // The scan stops at the line holding the offset, or one line early when that line starts there.
  lemma {:induction false} ScanStops(text: string, pos: nat)
    requires pos < |text| && SingleEnds(text)
    ensures var lines, h := SplitLines(text), LineOf(text, pos);
            && h < |lines| && (AtLineStart(text, pos) ==> h > 0)
            && FirstReaching(lines, pos) == Some(if AtLineStart(text, pos) then h - 1 else h)
            && Holds(text, lines, h, pos)
    decreases |text|
  {
    hide SplitLines, LineOf, FirstReaching, LineStart;
    var n := LineLength(text);
    var lines := SplitLines(text);
    if pos <= n {
      assert forall i :: 0 <= i < pos ==> text[..pos][i] == text[..n][i];
      LineOfFirst(text, pos);
      InFirstLine(text, pos);
    } else {
      var rest := text[n + 1..];
      SingleBreak(text, n);
      LineOfTail(text, n, pos);
      assert rest[pos - n - 1] == text[pos];
      assert pos - n - 1 > 0 ==> rest[pos - n - 2] == text[pos - 1];
      ScanStops(rest, pos - n - 1);
      AfterFirstLine(text[..n], SplitLines(rest), pos, LineOf(rest, pos - n - 1));
      StartOfLine(rest);
    }
  }

  lemma StartOfLine(text: string)
    ensures text != "" ==> LineOf(text, 0) == 0
  {
  }

  lemma InFirstLine(text: string, pos: nat)
    requires pos < |text| && pos <= LineLength(text)
    ensures var lines := SplitLines(text);
            lines != [] && FirstReaching(lines, pos) == Some(0) && Holds(text, lines, 0, pos) && !AtLineStart(text, pos)
  {
    var n := LineLength(text);
    assert SplitLines(text)[0] == text[..n];
    if pos > 0 { assert text[..n][pos - 1] == text[pos - 1]; }
  }

  lemma SingleBreak(text: string, n: nat)
    requires n < |text| && n == LineLength(text) && SingleEnds(text)
    ensures BreakLength(text[n..]) == 1 && SingleEnds(text[n + 1..])
    ensures SplitLines(text) == [text[..n]] + SplitLines(text[n + 1..])
  {
    hide LineLength, SingleEnds;
    BreakIsOne(text, n);
  }

  lemma BreakIsOne(text: string, n: nat)
    requires n < |text| && n == LineLength(text) && SingleEnds(text)
    ensures BreakLength(text[n..]) == 1 && SingleEnds(text[n + 1..])
  {
    assert text[n..][0] == text[n];
    if |text[n..]| > 1 { assert text[n..][1] == text[n + 1]; }
  }

  // The snippet is at most 2 * window + 1 lines.  It holds the line of the offset exactly when the
  // window is at least 1 or the offset is not at the start of a later line.
  lemma WindowHoldsOffset(text: string, pos: nat, window: nat)
    requires pos < |text| && SingleEnds(text)
    ensures var lines := SplitLines(text);
            && Last(lines, pos, window) - First(lines, pos, window) <= 2 * window + 1
            && LineOf(text, pos) < |lines|
            && (First(lines, pos, window) <= LineOf(text, pos) < Last(lines, pos, window)
                <==> window >= 1 || !AtLineStart(text, pos))
  {
    hide SplitLines, LineOf, Holds;
    ScanStops(text, pos);
  }

  // It reaches window lines to both sides of the line where the search stops, or to the text's ends.
  lemma WindowReaches(text: string, pos: nat, window: nat)
    requires pos < |text| && SingleEnds(text)
    ensures var lines, h := SplitLines(text), LineOf(text, pos);
            var stop := if AtLineStart(text, pos) then h - 1 else h;
            && stop >= 0
            && (First(lines, pos, window) == stop - window || (First(lines, pos, window) == 0 && stop < window))
            && (Last(lines, pos, window) == stop + window + 1
                || (Last(lines, pos, window) == |lines| && |lines| < stop + window + 1))
  {
    hide SplitLines, LineOf, Holds;
    ScanStops(text, pos);
  }

  // The texts searched have single line ends: carriage returns are gone.
  lemma CleanedLogHasSingleEnds(raw: string)
    ensures SingleEnds(UnixEnds(raw))
  {
  }
}
