// The unified-diff parser of the patch validator.  The parse is defined block by block: a file is a
// "---" line, its "+++" line and everything up to the next "---"; a hunk is an "@@" line and
// everything up to the next "@@".  ParseUnifiedDiff is the code's index-driven loop over six pieces
// of state, proved to compute exactly that.
module DiffParser {
  import opened Common
  import opened Text
  import opened Paths

  datatype Range = Range(oldStart: nat, oldLines: nat, newStart: nat, newLines: nat)

  datatype Hunk = Hunk(range: Range, header: string, lines: seq<string>)

  datatype FilePatch = FilePatch(path: string, oldPath: Option<string>, newPath: Option<string>,
                                 hunks: seq<Hunk>, raw: string)

  // Line numbers are the ones the messages carry.
  datatype Error =
    | MissingNewPath(line: nat)
    | HunkBeforeFile(line: nat)
    | BadHeader(line: nat, text: string)
    | BadPrefix(line: nat, text: string)

  datatype Parsed = Parsed(patches: seq<FilePatch>, errors: seq<Error>)

  // ---------- hunk headers ----------

  // \d+(?:,\d+)? at the start of s: the numbers, a missing count being 1, and what is left.
  function ParseSpan(s: string): Option<(nat, nat, string)> {
    var n := DigitSpan(s);
    if n == 0 then None
    else
      var rest := s[n..];
      if rest != "" && rest[0] == ',' then
        var m := DigitSpan(rest[1..]);
        if m == 0 then None
        else Some((DecimalValue(s[..n]), DecimalValue(rest[1..][..m]), rest[1..][m..]))
      else Some((DecimalValue(s[..n]), 1, rest))
  }

  // \s+ and then the character c.
  function AfterSpace(s: string, c: char): Option<string> {
    var n := SpaceSpan(s);
    if n > 0 && n < |s| && s[n] == c then Some(s[n + 1..]) else None
  }

  // The second half of a header: \s+\+(\d+)(?:,(\d+))?\s+@@
  function ParseNewSpan(s: string): Option<(nat, nat)> {
    var plus := AfterSpace(s, '+');
    var span := if plus.None? then None else ParseSpan(plus.value);
    if span.None? then None
    else
      var close := AfterSpace(span.value.2, '@');
      if close.None? || !StartsWith(close.value, "@") then None else Some((span.value.0, span.value.1))
  }

  // HUNK_HEADER_PATTERN
  function ParseHeader(line: string): Option<Range> {
    var minus := if StartsWith(line, "@@") then AfterSpace(line[2..], '-') else None;
    var left := if minus.None? then None else ParseSpan(minus.value);
    var right := if left.None? then None else ParseNewSpan(left.value.2);
    if right.None? then None
    else Some(Range(left.value.0, left.value.1, right.value.0, right.value.1))
  }

  function FormatSpan(start: nat, count: nat, short: bool): string {
    if short then Decimal(start) else Decimal(start) + "," + Decimal(count)
  }

  // Headers as diff writes them; a count of 1 may be left out.
  function FormatHeader(r: Range, shortOld: bool, shortNew: bool, section: string): string {
    "@@ -" + FormatSpan(r.oldStart, r.oldLines, shortOld) + " +" + FormatSpan(r.newStart, r.newLines, shortNew)
    + " @@" + section
  }

  lemma ParseSpanOf(start: nat, count: nat, short: bool, rest: string)
    requires short ==> count == 1
    requires rest != "" && rest[0] == ' '
    ensures ParseSpan(FormatSpan(start, count, short) + rest) == Some((start, count, rest))
  {
    hide DigitSpan, Decimal, DecimalValue;
    var s := FormatSpan(start, count, short) + rest;
    DecimalRoundTrip(start);
    DecimalRoundTrip(count);
    var d := Decimal(start);
    if short {
      DigitSpanOf(d, rest);
      assert s[..|d|] == d && s[|d|..] == rest;
    } else {
      var e := Decimal(count);
      var tail := "," + e + rest;
      assert s == d + tail;
      DigitSpanOf(d, tail);
      assert s[..|d|] == d && s[|d|..] == tail;
      assert tail[1..] == e + rest;
      DigitSpanOf(e, rest);
      assert tail[1..][..|e|] == e && tail[1..][|e|..] == rest;
    }
  }

  lemma AfterOneSpace(c: char, rest: string)
    requires !IsSpace(c)
    ensures AfterSpace([' ', c] + rest, c) == Some(rest)
  {
    var s := [' ', c] + rest;
    assert s[1..][0] == c;
    assert SpaceSpan(s[1..]) == 0;
    assert s[2..] == rest;
  }

  lemma ClosingOf(section: string)
    ensures AfterSpace(" @@" + section, '@') == Some("@" + section)
  {
    assert " @@" + section == [' ', '@'] + ("@" + section);
    AfterOneSpace('@', "@" + section);
  }

  lemma NewSpanOf(start: nat, count: nat, short: bool, section: string)
    requires short ==> count == 1
    ensures ParseNewSpan(" +" + FormatSpan(start, count, short) + " @@" + section) == Some((start, count))
  {
    var n, tail := FormatSpan(start, count, short), " @@" + section;
    assert " +" + n + " @@" + section == [' ', '+'] + (n + tail);
    AfterOneSpace('+', n + tail);
    ParseSpanOf(start, count, short, tail);
    ClosingOf(section);
  }

  lemma HeaderRoundTrip(r: Range, shortOld: bool, shortNew: bool, section: string)
    requires (shortOld ==> r.oldLines == 1) && (shortNew ==> r.newLines == 1)
    ensures ParseHeader(FormatHeader(r, shortOld, shortNew, section)) == Some(r)
  {
    hide FormatSpan, AfterSpace, ParseSpan, ParseNewSpan;
    var o, n := FormatSpan(r.oldStart, r.oldLines, shortOld), FormatSpan(r.newStart, r.newLines, shortNew);
    var tail := " +" + n + " @@" + section;
    assert FormatHeader(r, shortOld, shortNew, section)[2..] == [' ', '-'] + (o + tail);
    AfterOneSpace('-', o + tail);
    ParseSpanOf(r.oldStart, r.oldLines, shortOld, tail);
    NewSpanOf(r.newStart, r.newLines, shortNew, section);
  }

  // ---------- lines ----------

  predicate FileLine(l: string) { StartsWith(l, "--- ") }
  predicate NewPathLine(l: string) { StartsWith(l, "+++ ") }
  predicate HunkLine(l: string) { StartsWith(l, "@@") }

  predicate BodyPrefix(l: string) { l != "" && (l[0] == '+' || l[0] == '-' || l[0] == ' ' || l[0] == '\\') }

  // Leading lines before the next file, and before the next file or hunk.
  function FileSpan(lines: seq<string>): (n: nat)
    ensures n <= |lines| && (n < |lines| ==> FileLine(lines[n]))
    ensures forall i :: 0 <= i < n ==> !FileLine(lines[i])
  {
    if lines == [] || FileLine(lines[0]) then 0 else 1 + FileSpan(lines[1..])
  }

  function HunkSpan(lines: seq<string>): (n: nat)
    ensures n <= |lines| && (n < |lines| ==> FileLine(lines[n]) || HunkLine(lines[n]))
    ensures forall i :: 0 <= i < n ==> !FileLine(lines[i]) && !HunkLine(lines[i])
  {
    if lines == [] || FileLine(lines[0]) || HunkLine(lines[0]) then 0 else 1 + HunkSpan(lines[1..])
  }

  // ---------- the parse, block by block ----------

  predicate Ends(lines: seq<string>) { lines == [] || FileLine(lines[0]) || HunkLine(lines[0]) }

  // The body lines of one hunk: an empty line stands for an empty context line.
  function BodyLines(lines: seq<string>): seq<string> {
    if Ends(lines) then []
    else if lines[0] == "" then [" "] + BodyLines(lines[1..])
    else if BodyPrefix(lines[0]) then [lines[0]] + BodyLines(lines[1..])
    else BodyLines(lines[1..])
  }

  function BodyErrors(lines: seq<string>, at: nat): seq<Error> {
    if Ends(lines) then []
    else if lines[0] == "" || BodyPrefix(lines[0]) then BodyErrors(lines[1..], at + 1)
    else [BadPrefix(at + 1, lines[0])] + BodyErrors(lines[1..], at + 1)
  }

  // shown: the lines kept for the patch's own text.
  datatype Body = Body(hunks: seq<Hunk>, shown: seq<string>, errors: seq<Error>)

  function Plus(a: Body, b: Body): Body { Body(a.hunks + b.hunks, a.shown + b.shown, a.errors + b.errors) }

  // A line outside hunks, or a header that is refused.
  function Skipped(l: string, active: bool, at: nat): Body {
    if !HunkLine(l) then Body([], if active then [l] else [], [])
    else Body([], [], [if !active then HunkBeforeFile(at + 1) else BadHeader(at + 1, l)])
  }

  // An accepted hunk header and its body.
  function OneHunk(lines: seq<string>, at: nat): Body
    requires lines != [] && ParseHeader(lines[0]).Some?
  {
    var body := BodyLines(lines[1..]);
    Body([Hunk(ParseHeader(lines[0]).value, lines[0], body)], [lines[0]] + body, BodyErrors(lines[1..], at + 1))
  }

  // The lines of one file after its header; active: the file has a target path.
  function ParseBody(lines: seq<string>, active: bool, at: nat): Body
    decreases |lines|
  {
    if lines == [] || FileLine(lines[0]) then Body([], [], [])
    else if HunkLine(lines[0]) && active && ParseHeader(lines[0]).Some? then
      var n := 1 + HunkSpan(lines[1..]);
      Plus(OneHunk(lines, at), ParseBody(lines[n..], active, at + n))
    else Plus(Skipped(lines[0], active, at), ParseBody(lines[1..], active, at + 1))
  }

  datatype Head = Head(oldPath: Option<string>, newPath: Option<string>, target: Option<string>)

  predicate Active(h: Head) { h.target.Some? && h.target.value != "" }

  function TargetOf(oldPath: string, newPath: string): string {
    Normalize(if StartsWith(newPath, "b/") then newPath[2..] else if StartsWith(oldPath, "a/") then oldPath[2..] else newPath, "")
  }

  function HeadOf(l0: string, l1: string): Head
    requires FileLine(l0) && NewPathLine(l1)
  {
    var oldPath, newPath := Strip(l0[4..]), Strip(l1[4..]);
    Head(Some(oldPath), Some(newPath), Some(TargetOf(oldPath, newPath)))
  }

  function Flush(h: Head, hunks: seq<Hunk>, shown: seq<string>): seq<FilePatch> {
    if Active(h) && hunks != [] then [FilePatch(h.target.value, h.oldPath, h.newPath, hunks, Join(shown))] else []
  }

  function Close(h: Head, hunks: seq<Hunk>, shown: seq<string>, b: Body, rest: Parsed): Parsed {
    Parsed(Flush(h, hunks + b.hunks, shown + b.shown) + rest.patches, b.errors + rest.errors)
  }

  // A file of which the head, some hunks and some shown lines are read already, then the rest.
  function Finish(h: Head, hunks: seq<Hunk>, shown: seq<string>, lines: seq<string>, at: nat): Parsed
    decreases |lines|, 1
  {
    var n := FileSpan(lines);
    Close(h, hunks, shown, ParseBody(lines, Active(h), at), ParseFiles(h, lines[n..], at + n))
  }

  // Whole files.  A "---" line without "+++" keeps the previous new path and target.
  function ParseFiles(h: Head, lines: seq<string>, at: nat): Parsed
    requires lines == [] || FileLine(lines[0])
    decreases |lines|, 0
  {
    if lines == [] then Parsed([], [])
    else if |lines| > 1 && NewPathLine(lines[1]) then
      Finish(HeadOf(lines[0], lines[1]), [], [lines[0], lines[1]], lines[2..], at + 2)
    else
      var rest := Finish(h.(oldPath := Some(Strip(lines[0][4..]))), [], [lines[0]], lines[1..], at + 1);
      rest.(errors := [MissingNewPath(at + 1)] + rest.errors)
  }

  function Parse(lines: seq<string>): Parsed {
    Finish(Head(None, None, None), [], [], lines, 0)
  }

  // ---------- the loop ----------

  function Before(p: seq<FilePatch>, e: seq<Error>, rest: Parsed): Parsed {
    Parsed(p + rest.patches, e + rest.errors)
  }

  lemma FinishAtFile(h: Head, hunks: seq<Hunk>, shown: seq<string>, lines: seq<string>, at: nat)
    requires lines == [] || FileLine(lines[0])
    ensures Finish(h, hunks, shown, lines, at) == Before(Flush(h, hunks, shown), [], ParseFiles(h, lines, at))
  {
    assert lines[0..] == lines;
    assert hunks + [] == hunks && shown + [] == shown;
  }

  lemma BeforeBefore(p: seq<FilePatch>, e: seq<Error>, q: seq<FilePatch>, f: seq<Error>, rest: Parsed)
    ensures Before(p, e, Before(q, f, rest)) == Before(p + q, e + f, rest)
  {
    assert p + (q + rest.patches) == p + q + rest.patches;
    assert e + (f + rest.errors) == e + f + rest.errors;
  }

  lemma ClosePlus(h: Head, hunks: seq<Hunk>, shown: seq<string>, d: Body, b: Body, rest: Parsed)
    ensures Close(h, hunks, shown, Plus(d, b), rest)
            == Before([], d.errors, Close(h, hunks + d.hunks, shown + d.shown, b, rest))
  {
    assert hunks + (d.hunks + b.hunks) == hunks + d.hunks + b.hunks;
    assert shown + (d.shown + b.shown) == shown + d.shown + b.shown;
    assert d.errors + b.errors + rest.errors == d.errors + (b.errors + rest.errors);
  }

  // The first k lines of the current file yield d.
  lemma FinishStep(h: Head, hunks: seq<Hunk>, shown: seq<string>, lines: seq<string>, at: nat, k: nat, d: Body)
    requires k <= FileSpan(lines)
    requires ParseBody(lines, Active(h), at) == Plus(d, ParseBody(lines[k..], Active(h), at + k))
    ensures Finish(h, hunks, shown, lines, at)
            == Before([], d.errors, Finish(h, hunks + d.hunks, shown + d.shown, lines[k..], at + k))
  {
    hide ParseBody, ParseFiles, FileSpan, FileLine, Close, Before, Plus, Active;
    FileSpanAfter(lines, k);
    var rest := ParseFiles(h, lines[FileSpan(lines)..], at + FileSpan(lines));
    ClosePlus(h, hunks, shown, d, ParseBody(lines[k..], Active(h), at + k), rest);
  }

  lemma {:induction false} FileSpanAfter(lines: seq<string>, n: nat)
    requires n <= FileSpan(lines)
    ensures FileSpan(lines[n..]) == FileSpan(lines) - n
    ensures lines[n..][FileSpan(lines[n..])..] == lines[FileSpan(lines)..]
  {
    if n > 0 {
      FileSpanAfter(lines[1..], n - 1);
      assert lines[1..][n - 1..] == lines[n..];
    } else {
      assert lines[0..] == lines;
    }
  }

  lemma {:induction false} HunkSpanWithin(lines: seq<string>)
    ensures HunkSpan(lines) <= FileSpan(lines)
  {
    if !Ends(lines) {
      HunkSpanWithin(lines[1..]);
    }
  }

  // What the loop will have computed, seen from line i.
  ghost function Outlook(lines: seq<string>, i: nat, p: seq<FilePatch>, e: seq<Error>, h: Head,
                         hunks: seq<Hunk>, shown: seq<string>): Parsed
    requires i <= |lines|
  {
    Before(p, e, Finish(h, hunks, shown, lines[i..], i))
  }

  lemma SkipBody(lines: seq<string>, active: bool, at: nat)
    requires lines != [] && !FileLine(lines[0])
    requires HunkLine(lines[0]) ==> !active || ParseHeader(lines[0]).None?
    ensures FileSpan(lines) >= 1
    ensures ParseBody(lines, active, at) == Plus(Skipped(lines[0], active, at), ParseBody(lines[1..], active, at + 1))
  {
    hide ParseHeader, HunkSpan, Skipped;
  }

  lemma StepSkip(lines: seq<string>, i: nat, p: seq<FilePatch>, e: seq<Error>, h: Head,
                 hunks: seq<Hunk>, shown: seq<string>)
    requires i < |lines| && !FileLine(lines[i])
    requires HunkLine(lines[i]) ==> !Active(h) || ParseHeader(lines[i]).None?
    ensures var d := Skipped(lines[i], Active(h), i);
            Outlook(lines, i, p, e, h, hunks, shown)
              == Outlook(lines, i + 1, p, e + d.errors, h, hunks, shown + d.shown)
  {
    hide ParseHeader, ParseBody, Finish, FileSpan, HunkLine, FileLine, Active;
    var d, rest := Skipped(lines[i], Active(h), i), lines[i..];
    assert rest[1..] == lines[i + 1..];
    SkipBody(rest, Active(h), i);
    FinishStep(h, hunks, shown, rest, i, 1, d);
    assert hunks + d.hunks == hunks && p + [] == p;
    BeforeBefore(p, e, [], d.errors, Finish(h, hunks, shown + d.shown, lines[i + 1..], i + 1));
  }

  lemma HunkBody(lines: seq<string>, at: nat)
    requires lines != [] && HunkLine(lines[0]) && ParseHeader(lines[0]).Some?
    ensures var k := 1 + HunkSpan(lines[1..]);
            k <= FileSpan(lines) && ParseBody(lines, true, at) == Plus(OneHunk(lines, at), ParseBody(lines[k..], true, at + k))
  {
    hide ParseHeader, OneHunk, HunkSpan;
    assert lines[0][0] == '@' && !FileLine(lines[0]);
    HunkSpanWithin(lines[1..]);
  }

  lemma FinishHunk(h: Head, hunks: seq<Hunk>, shown: seq<string>, lines: seq<string>, at: nat)
    requires lines != [] && HunkLine(lines[0]) && Active(h) && ParseHeader(lines[0]).Some?
    ensures var d, k := OneHunk(lines, at), 1 + HunkSpan(lines[1..]);
            Finish(h, hunks, shown, lines, at)
              == Before([], d.errors, Finish(h, hunks + d.hunks, shown + d.shown, lines[k..], at + k))
  {
    hide ParseHeader, OneHunk, Finish, ParseBody, FileSpan, HunkSpan;
    HunkBody(lines, at);
    FinishStep(h, hunks, shown, lines, at, 1 + HunkSpan(lines[1..]), OneHunk(lines, at));
  }

  lemma StepHunk(lines: seq<string>, i: nat, p: seq<FilePatch>, e: seq<Error>, h: Head,
                 hunks: seq<Hunk>, shown: seq<string>)
    requires i < |lines| && HunkLine(lines[i]) && Active(h) && ParseHeader(lines[i]).Some?
    ensures var d, j := OneHunk(lines[i..], i), i + 1 + HunkSpan(lines[i + 1..]);
            Outlook(lines, i, p, e, h, hunks, shown)
              == Outlook(lines, j, p, e + d.errors, h, hunks + d.hunks, shown + d.shown)
  {
    hide ParseHeader, OneHunk, Finish;
    var d, rest, k := OneHunk(lines[i..], i), lines[i..], 1 + HunkSpan(lines[i + 1..]);
    assert rest[1..] == lines[i + 1..];
    FinishHunk(h, hunks, shown, rest, i);
    assert rest[k..] == lines[i + k..];
    assert p + [] == p;
    BeforeBefore(p, e, [], d.errors, Finish(h, hunks + d.hunks, shown + d.shown, rest[k..], i + k));
  }

  lemma StepFile(lines: seq<string>, i: nat, p: seq<FilePatch>, e: seq<Error>, h: Head,
                 hunks: seq<Hunk>, shown: seq<string>)
    requires i <= |lines| && (i < |lines| ==> FileLine(lines[i]))
    ensures Outlook(lines, i, p, e, h, hunks, shown)
            == Before(p + Flush(h, hunks, shown), e, ParseFiles(h, lines[i..], i))
    ensures i == |lines| ==> Outlook(lines, i, p, e, h, hunks, shown) == Parsed(p + Flush(h, hunks, shown), e)
  {
    hide Finish, Flush;
    FinishAtFile(h, hunks, shown, lines[i..], i);
    assert e + [] == e;
    BeforeBefore(p, e, Flush(h, hunks, shown), [], ParseFiles(h, lines[i..], i));
  }

  lemma OpenFile(lines: seq<string>, j: nat, p: seq<FilePatch>, e: seq<Error>, bad: seq<Error>, h: Head,
                 shown: seq<string>, rest: Parsed)
    requires j <= |lines| && rest == Before([], bad, Finish(h, [], shown, lines[j..], j))
    ensures Before(p, e, rest) == Outlook(lines, j, p, e + bad, h, [], shown)
  {
    assert p + [] == p;
    BeforeBefore(p, e, [], bad, Finish(h, [], shown, lines[j..], j));
  }

  method ParseUnifiedDiff(raw: string) returns (patches: seq<FilePatch>, errors: seq<Error>)
    ensures Parsed(patches, errors) == Parse(SplitLines(raw))
  {
    hide ParseHeader, ParseFiles, SplitLines, Outlook, Parse, Flush;
    var lines := SplitLines(raw);
    patches, errors := [], [];
    var i, n := 0, |lines|;
    var oldPath: Option<string>, newPath: Option<string>, target: Option<string> := None, None, None;
    var hunks: seq<Hunk>, shown: seq<string> := [], [];
    StartOutlook(lines);
    while i < n
      invariant 0 <= i <= n == |lines|
      invariant Outlook(lines, i, patches, errors, Head(oldPath, newPath, target), hunks, shown) == Parse(lines)
    {
      var line := lines[i];
      var active := target.Some? && target.value != "";
      ghost var h := Head(oldPath, newPath, target);
      if FileLine(line) {
        StepFile(lines, i, patches, errors, h, hunks, shown);
        patches := CloseFile(patches, oldPath, newPath, target, hunks, shown);
        ghost var start := i;
        var bad;
        oldPath, newPath, target, shown, bad, i := ReadFileHead(lines, i, oldPath, newPath, target);
        OpenFile(lines, i, patches, errors, bad, Head(oldPath, newPath, target), shown,
                 ParseFiles(h, lines[start..], start));
        errors := errors + bad;
        hunks := [];
      } else if HunkLine(line) && active && ParseHeader(line).Some? {
        StepHunk(lines, i, patches, errors, h, hunks, shown);
        var body, bad, j := ParseHunkBody(lines, i + 1);
        assert lines[i..][1..] == lines[i + 1..];
        hunks := hunks + [Hunk(ParseHeader(line).value, line, body)];
        shown := shown + ([line] + body);
        errors := errors + bad;
        i := j;
      } else {
        StepSkip(lines, i, patches, errors, h, hunks, shown);
        assert shown + [] == shown && errors + [] == errors;
        if HunkLine(line) {
          errors := errors + [if !active then HunkBeforeFile(i + 1) else BadHeader(i + 1, line)];
        } else if active {
          shown := shown + [line];
        }
        i := i + 1;
      }
    }
    StepFile(lines, n, patches, errors, Head(oldPath, newPath, target), hunks, shown);
    patches := CloseFile(patches, oldPath, newPath, target, hunks, shown);
  }

  lemma StartOutlook(lines: seq<string>)
    ensures Outlook(lines, 0, [], [], Head(None, None, None), [], []) == Parse(lines)
  {
    hide Finish;
    assert lines[0..] == lines;
  }

  // A file is recorded when the next one starts, or at the end, if it has a path and hunks.
  method CloseFile(patches: seq<FilePatch>, oldPath: Option<string>, newPath: Option<string>,
                   target: Option<string>, hunks: seq<Hunk>, shown: seq<string>)
    returns (all: seq<FilePatch>)
    ensures all == patches + Flush(Head(oldPath, newPath, target), hunks, shown)
  {
    all := patches;
    if target.Some? && target.value != "" && hunks != [] {
      all := all + [FilePatch(target.value, oldPath, newPath, hunks, Join(shown))];
    }
  }

  // The "---" line at i, and its "+++" line.
  method ReadFileHead(lines: seq<string>, i: nat, oldPath: Option<string>, newPath: Option<string>,
                      target: Option<string>)
    returns (oldPath': Option<string>, newPath': Option<string>, target': Option<string>, shown: seq<string>,
             errors: seq<Error>, j: nat)
    requires i < |lines| && FileLine(lines[i])
    ensures i < j <= |lines|
    ensures ParseFiles(Head(oldPath, newPath, target), lines[i..], i)
            == Before([], errors, Finish(Head(oldPath', newPath', target'), [], shown, lines[j..], j))
  {
    FileHead(Head(oldPath, newPath, target), lines[i..], i);
    oldPath', newPath', target' := Some(Strip(lines[i][4..])), newPath, target;
    shown, errors, j := [lines[i]], [], i + 1;
    if j < |lines| && NewPathLine(lines[j]) {
      assert lines[i..][2..] == lines[j + 1..];
      newPath' := Some(Strip(lines[j][4..]));
      shown := [lines[i], lines[j]];
      var path := ReadTarget(oldPath'.value, newPath'.value);
      target' := Some(path);
      j := j + 1;
    } else {
      assert lines[i..][1..] == lines[j..];
      errors := [MissingNewPath(j)];
    }
  }

  lemma FileHead(h: Head, lines: seq<string>, at: nat)
    requires lines != [] && FileLine(lines[0])
    ensures |lines| > 1 && NewPathLine(lines[1]) ==>
              ParseFiles(h, lines, at)
                == Before([], [], Finish(HeadOf(lines[0], lines[1]), [], [lines[0], lines[1]], lines[2..], at + 2))
    ensures !(|lines| > 1 && NewPathLine(lines[1])) ==>
              ParseFiles(h, lines, at)
                == Before([], [MissingNewPath(at + 1)],
                          Finish(h.(oldPath := Some(Strip(lines[0][4..]))), [], [lines[0]], lines[1..], at + 1))
  {
    hide Finish, NewPathLine, HeadOf, Strip;
  }

  method ReadTarget(oldPath: string, newPath: string) returns (target: string)
    ensures target == TargetOf(oldPath, newPath)
  {
    target := newPath;
    if StartsWith(target, "b/") {
      target := target[2..];
    } else if StartsWith(oldPath, "a/") {
      target := oldPath[2..];
    }
    target := Normalize(target, "");
  }

  // For the pairs that git writes the target is the file's own path: of both sides when they agree, of
  // the new side after a rename, of the old side when the file is deleted.
  lemma TargetOfGitPair(oldFile: string, newFile: string)
    requires Trimmed(oldFile) && !HasPrefixIn(oldFile, RUNNER_PREFIXES) && !StartsWith(oldFile, "/") && NoBackslash(oldFile)
    requires Trimmed(newFile) && !HasPrefixIn(newFile, RUNNER_PREFIXES) && !StartsWith(newFile, "/") && NoBackslash(newFile)
    ensures TargetOf("a/" + oldFile, "b/" + newFile) == newFile
    ensures TargetOf("/dev/null", "b/" + newFile) == newFile
    ensures TargetOf("a/" + oldFile, "/dev/null") == oldFile
  {
    hide Normalize, HasPrefixIn;
    NormalizeClean(oldFile, "");
    NormalizeClean(newFile, "");
    assert ("a/" + oldFile)[2..] == oldFile && ("b/" + newFile)[2..] == newFile;
    assert StartsWith("a/" + oldFile, "a/") && StartsWith("b/" + newFile, "b/");
    assert "/dev/null"[0] == '/' && "b/"[0] == 'b';
  }

  // The inner loop: the body of a hunk that starts at line i.
  method ParseHunkBody(lines: seq<string>, i: nat) returns (body: seq<string>, errors: seq<Error>, j: nat)
    requires i <= |lines|
    ensures j == i + HunkSpan(lines[i..]) && j <= |lines|
    ensures body == BodyLines(lines[i..]) && errors == BodyErrors(lines[i..], i)
  {
    hide BodyLines, BodyErrors, HunkSpan;
    body, errors, j := [], [], i;
    while j < |lines| && !FileLine(lines[j]) && !HunkLine(lines[j])
      invariant i <= j <= |lines|
      invariant j + HunkSpan(lines[j..]) == i + HunkSpan(lines[i..])
      invariant body + BodyLines(lines[j..]) == BodyLines(lines[i..])
      invariant errors + BodyErrors(lines[j..], j) == BodyErrors(lines[i..], i)
    {
      BodyStep(lines[j..], j);
      assert lines[j..][1..] == lines[j + 1..];
      if BodyPrefix(lines[j]) {
        body := body + [lines[j]];
      } else if lines[j] == "" {
        body := body + [" "];
      } else {
        errors := errors + [BadPrefix(j + 1, lines[j])];
      }
      j := j + 1;
    }
    BodyStep(lines[j..], j);
  }

  lemma BodyStep(lines: seq<string>, at: nat)
    ensures Ends(lines) ==> BodyLines(lines) == [] && BodyErrors(lines, at) == [] && HunkSpan(lines) == 0
    ensures !Ends(lines) ==>
              && HunkSpan(lines) == 1 + HunkSpan(lines[1..])
              && BodyLines(lines) == (if lines[0] == "" then [" "] else if BodyPrefix(lines[0]) then [lines[0]] else [])
                                     + BodyLines(lines[1..])
              && BodyErrors(lines, at) == (if lines[0] == "" || BodyPrefix(lines[0]) then []
                                           else [BadPrefix(at + 1, lines[0])]) + BodyErrors(lines[1..], at + 1)
  {
  }
}
