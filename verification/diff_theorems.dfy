// What the unified-diff parser guarantees: an exact description of the diffs it accepts without an
// error, the round trip of laid-out patches, the stability of each patch's own text, and that every
// hunk is attributed to the nearest preceding file header.
module DiffTheorems {
  import opened Common
  import opened Text
  import opened Paths
  import opened DiffParser

  // ---------- one step of each definition ----------

  lemma BodyUnfold(lines: seq<string>, active: bool, at: nat)
    ensures lines == [] || FileLine(lines[0]) ==> ParseBody(lines, active, at) == Body([], [], [])
    ensures lines != [] && HunkLine(lines[0]) && active && ParseHeader(lines[0]).Some? ==>
              var n := 1 + HunkSpan(lines[1..]);
              n <= FileSpan(lines)
              && ParseBody(lines, active, at) == Plus(OneHunk(lines, at), ParseBody(lines[n..], active, at + n))
    ensures lines != [] && !FileLine(lines[0]) && !(HunkLine(lines[0]) && active && ParseHeader(lines[0]).Some?) ==>
              ParseBody(lines, active, at) == Plus(Skipped(lines[0], active, at), ParseBody(lines[1..], active, at + 1))
  {
    hide ParseHeader, OneHunk, Skipped, HunkSpan;
    if lines != [] && HunkLine(lines[0]) {
      assert lines[0][0] == '@' && !FileLine(lines[0]);
      HunkSpanWithin(lines[1..]);
    }
  }

  // The file that a header pair opens, and the files after it.
  lemma FilesUnfold(h: Head, lines: seq<string>, at: nat)
    requires |lines| > 1 && FileLine(lines[0]) && NewPathLine(lines[1])
    ensures var h', rest := HeadOf(lines[0], lines[1]), lines[2..];
            var n, b := FileSpan(rest), ParseBody(rest, Active(h'), at + 2);
            var later := ParseFiles(h', rest[n..], at + 2 + n);
            ParseFiles(h, lines, at)
              == Parsed(Flush(h', b.hunks, [lines[0], lines[1]] + b.shown) + later.patches, b.errors + later.errors)
  {
    hide ParseBody, HeadOf, Flush;
    FileHead(h, lines, at);
    var b := ParseBody(lines[2..], Active(HeadOf(lines[0], lines[1])), at + 2);
    assert [] + b.hunks == b.hunks;
  }

  lemma FilesNeedPair(h: Head, lines: seq<string>, at: nat)
    requires lines != [] && FileLine(lines[0]) && !(|lines| > 1 && NewPathLine(lines[1]))
    ensures ParseFiles(h, lines, at).errors != []
  {
    hide ParseBody, Finish;
    FileHead(h, lines, at);
  }

  // ---------- which diffs parse without errors ----------

  // Read line by line: target is the path of the nearest preceding header pair ("" before the
  // first), inHunk says whether an "@@" line came after that pair.
  predicate WellFormed(lines: seq<string>, target: string, inHunk: bool)
    decreases |lines|
  {
    if lines == [] then true
    else if StartsWith(lines[0], "--- ") then
      |lines| > 1 && StartsWith(lines[1], "+++ ")
      && WellFormed(lines[2..], TargetOf(Strip(lines[0][4..]), Strip(lines[1][4..])), false)
    else if StartsWith(lines[0], "@@") then
      target != "" && ParseHeader(lines[0]).Some? && WellFormed(lines[1..], target, true)
    else
      && (inHunk ==> lines[0] == "" || lines[0][0] == ' ' || lines[0][0] == '+' || lines[0][0] == '-' || lines[0][0] == '\\')
      && WellFormed(lines[1..], target, inHunk)
  }

  function Target(h: Head): string { if h.target.Some? then h.target.value else "" }

  // Inside a hunk body up to its end.
  lemma {:induction false} BodyWellFormed(lines: seq<string>, target: string, at: nat)
    ensures WellFormed(lines, target, true)
            <==> BodyErrors(lines, at) == [] && WellFormed(lines[HunkSpan(lines)..], target, true)
    decreases |lines|
  {
    hide ParseHeader, TargetOf;
    if Ends(lines) {
      assert lines[0..] == lines;
    } else {
      BodyWellFormed(lines[1..], target, at + 1);
      assert lines[1..][HunkSpan(lines[1..])..] == lines[HunkSpan(lines)..];
    }
  }

  // inHunk does not matter where the next line is a header or nothing is left.
  lemma InHunkAtEnd(lines: seq<string>, target: string)
    requires Ends(lines)
    ensures WellFormed(lines, target, true) == WellFormed(lines, target, false)
  {
  }

  // One accepted hunk, from its header to the next header.
  lemma HunkWellFormed(lines: seq<string>, target: string, at: nat)
    requires lines != [] && HunkLine(lines[0]) && !FileLine(lines[0]) && target != "" && ParseHeader(lines[0]).Some?
    ensures WellFormed(lines, target, false)
            <==> OneHunk(lines, at).errors == [] && WellFormed(lines[1 + HunkSpan(lines[1..])..], target, false)
  {
    hide ParseHeader, TargetOf, BodyLines, BodyErrors, HunkSpan;
    var n, tail := HunkSpan(lines[1..]), lines[1..];
    BodyWellFormed(tail, target, at + 1);
    InHunkAtEnd(tail[n..], target);
    assert tail[n..] == lines[n + 1..];
  }

  // Any other line of a file, outside hunks.
  lemma LineWellFormed(l: string, rest: seq<string>, h: Head, at: nat)
    requires !FileLine(l) && !(HunkLine(l) && Active(h) && ParseHeader(l).Some?)
    ensures WellFormed([l] + rest, Target(h), false)
            <==> Skipped(l, Active(h), at).errors == [] && WellFormed(rest, Target(h), false)
  {
    hide ParseHeader, TargetOf;
    assert ([l] + rest)[1..] == rest;
  }

  lemma {:induction false} FileWellFormed(lines: seq<string>, h: Head, at: nat)
    ensures WellFormed(lines, Target(h), false)
            <==> ParseBody(lines, Active(h), at).errors == [] && WellFormed(lines[FileSpan(lines)..], Target(h), false)
    decreases |lines|
  {
    hide ParseHeader, ParseBody, WellFormed, OneHunk, FileSpan, HunkSpan;
    BodyUnfold(lines, Active(h), at);
    if lines == [] || FileLine(lines[0]) {
      assert lines[0..] == lines;
    } else if HunkLine(lines[0]) && Active(h) && ParseHeader(lines[0]).Some? {
      var n := 1 + HunkSpan(lines[1..]);
      HunkWellFormed(lines, Target(h), at);
      FileWellFormed(lines[n..], h, at + n);
      FileSpanAfter(lines, n);
    } else {
      assert [lines[0]] + lines[1..] == lines;
      LineWellFormed(lines[0], lines[1..], h, at);
      FileWellFormed(lines[1..], h, at + 1);
      FileSpanPast(lines);
      FileSpanAfter(lines, 1);
    }
  }

  lemma FileSpanPast(lines: seq<string>)
    requires lines != [] && !FileLine(lines[0])
    ensures FileSpan(lines) >= 1
  {
  }

  // Where the lines of a file begin.
  lemma HeadWellFormed(lines: seq<string>, target: string)
    requires lines == [] || FileLine(lines[0])
    ensures WellFormed(lines, target, false) <==>
              lines == [] || (|lines| > 1 && NewPathLine(lines[1])
                              && WellFormed(lines[2..], Target(HeadOf(lines[0], lines[1])), false))
  {
    hide ParseHeader, TargetOf;
  }

  lemma FileSpanEnds(lines: seq<string>)
    ensures var tail := lines[FileSpan(lines)..]; tail == [] || FileLine(tail[0])
  {
    hide FileLine;
  }

  lemma {:induction false} FilesWellFormed(h: Head, lines: seq<string>, at: nat)
    requires lines == [] || FileLine(lines[0])
    ensures ParseFiles(h, lines, at).errors == [] <==> WellFormed(lines, Target(h), false)
    decreases |lines|
  {
    hide ParseFiles, ParseBody, WellFormed, FileSpan, Flush, HeadOf, FileLine, NewPathLine, Target;
    HeadWellFormed(lines, Target(h));
    if |lines| > 1 && NewPathLine(lines[1]) {
      var h', rest := HeadOf(lines[0], lines[1]), lines[2..];
      FileWellFormed(rest, h', at + 2);
      FileSpanEnds(rest);
      FilesWellFormed(h', rest[FileSpan(rest)..], at + 2 + FileSpan(rest));
      FilesUnfold(h, lines, at);
    } else if lines != [] {
      FilesNeedPair(h, lines, at);
    } else {
      NoFiles(h, at);
    }
  }

  lemma NoFiles(h: Head, at: nat)
    ensures ParseFiles(h, [], at) == Parsed([], [])
  {
  }

  // The parse reports no error exactly for the well-formed diffs.
  lemma ErrorFreeIffWellFormed(lines: seq<string>)
    ensures Parse(lines).errors == [] <==> WellFormed(lines, "", false)
  {
    hide ParseHeader, ParseBody, ParseFiles, WellFormed;
    var h := Head(None, None, None);
    FileWellFormed(lines, h, 0);
    FilesWellFormed(h, lines[FileSpan(lines)..], FileSpan(lines));
  }

  // ---------- every hunk belongs to the nearest preceding file header ----------

  // The lines up to the next header, an empty one read as an empty context line.
  function BodyRead(lines: seq<string>): seq<string> {
    if lines == [] || StartsWith(lines[0], "--- ") || StartsWith(lines[0], "@@") then []
    else [if lines[0] == "" then " " else lines[0]] + BodyRead(lines[1..])
  }

  lemma {:induction false} BodyIsRead(lines: seq<string>, at: nat)
    requires BodyErrors(lines, at) == []
    ensures BodyLines(lines) == BodyRead(lines) && |BodyLines(lines)| == HunkSpan(lines)
  {
    if !Ends(lines) { BodyIsRead(lines[1..], at + 1); }
  }

  // The hunks of a diff in order: the path of the pair read last, the "@@" line and the body.
  function Attributed(lines: seq<string>, target: string): seq<(string, string, seq<string>)>
    decreases |lines|
  {
    if lines == [] then []
    else if StartsWith(lines[0], "--- ") && |lines| > 1 && StartsWith(lines[1], "+++ ") then
      Attributed(lines[2..], TargetOf(Strip(lines[0][4..]), Strip(lines[1][4..])))
    else if StartsWith(lines[0], "@@") then [(target, lines[0], BodyRead(lines[1..]))] + Attributed(lines[1..], target)
    else Attributed(lines[1..], target)
  }

  function HunkPairs(path: string, hunks: seq<Hunk>): seq<(string, string, seq<string>)> {
    if hunks == [] then [] else [(path, hunks[0].header, hunks[0].lines)] + HunkPairs(path, hunks[1..])
  }

  function PatchPairs(ps: seq<FilePatch>): seq<(string, string, seq<string>)> {
    if ps == [] then [] else HunkPairs(ps[0].path, ps[0].hunks) + PatchPairs(ps[1..])
  }

  lemma {:induction false} AttributedSkipsBody(lines: seq<string>, target: string)
    ensures Attributed(lines, target) == Attributed(lines[HunkSpan(lines)..], target)
  {
    hide TargetOf;
    if Ends(lines) {
      assert lines[0..] == lines;
    } else {
      AttributedSkipsBody(lines[1..], target);
      assert lines[1..][HunkSpan(lines[1..])..] == lines[HunkSpan(lines)..];
    }
  }

  lemma {:induction false} AttributedFile(lines: seq<string>, target: string, at: nat)
    requires target != "" && ParseBody(lines, true, at).errors == []
    ensures Attributed(lines, target)
            == HunkPairs(target, ParseBody(lines, true, at).hunks) + Attributed(lines[FileSpan(lines)..], target)
    decreases |lines|
  {
    hide ParseHeader, TargetOf, BodyLines, BodyErrors, ParseBody;
    BodyUnfold(lines, true, at);
    if lines == [] || FileLine(lines[0]) {
      assert lines[0..] == lines;
    } else if HunkLine(lines[0]) {
      AttributedHunk(lines, target, at);
    } else {
      AttributedFile(lines[1..], target, at + 1);
      FileSpanAfter(lines, 1);
      assert ParseBody(lines, true, at).hunks == ParseBody(lines[1..], true, at + 1).hunks;
    }
  }

  lemma AttributedOne(lines: seq<string>, target: string, at: nat)
    requires lines != [] && HunkLine(lines[0]) && !FileLine(lines[0])
    ensures Attributed(lines, target)
            == [(target, lines[0], BodyRead(lines[1..]))] + Attributed(lines[1 + HunkSpan(lines[1..])..], target)
  {
    hide TargetOf, HunkSpan, BodyRead;
    AttributedSkipsBody(lines[1..], target);
    assert lines[1..][HunkSpan(lines[1..])..] == lines[1 + HunkSpan(lines[1..])..];
  }

  lemma PlusAssociates<T>(a: seq<T>, b: seq<T>, c: seq<T>)
    ensures a + (b + c) == a + b + c
  {
  }

  lemma PairsCons(path: string, lines: seq<string>, at: nat, later: seq<Hunk>)
    requires lines != [] && ParseHeader(lines[0]).Some? && OneHunk(lines, at).errors == []
    ensures HunkPairs(path, OneHunk(lines, at).hunks + later) == [(path, lines[0], BodyRead(lines[1..]))] + HunkPairs(path, later)
  {
    hide ParseHeader, BodyLines, BodyErrors, BodyRead;
    BodyIsRead(lines[1..], at + 1);
    var all := OneHunk(lines, at).hunks + later;
    assert all[1..] == later;
  }

  lemma {:induction false} AttributedHunk(lines: seq<string>, target: string, at: nat)
    requires target != "" && ParseBody(lines, true, at).errors == []
    requires lines != [] && HunkLine(lines[0]) && !FileLine(lines[0])
    ensures Attributed(lines, target)
            == HunkPairs(target, ParseBody(lines, true, at).hunks) + Attributed(lines[FileSpan(lines)..], target)
    decreases |lines|, 0
  {
    hide ParseHeader, OneHunk, ParseBody, FileSpan, HunkSpan, Attributed, HunkPairs;
    BodyUnfold(lines, true, at);
    var n := 1 + HunkSpan(lines[1..]);
    AttributedOne(lines, target, at);
    AttributedFile(lines[n..], target, at + n);
    FileSpanAfter(lines, n);
    var later := ParseBody(lines[n..], true, at + n).hunks;
    PairsCons(target, lines, at, later);
    PlusAssociates([(target, lines[0], BodyRead(lines[1..]))], HunkPairs(target, later),
                   Attributed(lines[FileSpan(lines)..], target));
  }

  // Without a target path an error-free file has no hunk at all.
  lemma {:induction false} AttributedInactive(lines: seq<string>, target: string, at: nat)
    requires ParseBody(lines, false, at).errors == []
    ensures ParseBody(lines, false, at).hunks == []
    ensures Attributed(lines, target) == Attributed(lines[FileSpan(lines)..], target)
    decreases |lines|
  {
    hide ParseHeader, TargetOf, ParseBody;
    BodyUnfold(lines, false, at);
    if lines == [] || FileLine(lines[0]) {
      assert lines[0..] == lines;
    } else {
      AttributedInactive(lines[1..], target, at + 1);
      FileSpanAfter(lines, 1);
    }
  }

  lemma AttributedPair(lines: seq<string>, target: string)
    requires |lines| > 1 && FileLine(lines[0]) && NewPathLine(lines[1])
    ensures Attributed(lines, target) == Attributed(lines[2..], Target(HeadOf(lines[0], lines[1])))
  {
    hide TargetOf;
  }

  // The lines of one file, with or without a target path.
  lemma AttributedBody(lines: seq<string>, h: Head, at: nat)
    requires ParseBody(lines, Active(h), at).errors == []
    ensures !Active(h) ==> ParseBody(lines, Active(h), at).hunks == []
    ensures Attributed(lines, Target(h))
            == HunkPairs(Target(h), ParseBody(lines, Active(h), at).hunks) + Attributed(lines[FileSpan(lines)..], Target(h))
  {
    hide ParseBody, Attributed, FileSpan;
    if Active(h) {
      AttributedFile(lines, Target(h), at);
    } else {
      AttributedInactive(lines, Target(h), at);
    }
  }

  lemma NoneAttributed(h: Head, at: nat)
    ensures PatchPairs(ParseFiles(h, [], at).patches) == Attributed([], Target(h))
  {
  }

  lemma {:induction false} AttributedFiles(h: Head, lines: seq<string>, at: nat)
    requires lines == [] || FileLine(lines[0])
    requires ParseFiles(h, lines, at).errors == []
    ensures PatchPairs(ParseFiles(h, lines, at).patches) == Attributed(lines, Target(h))
    decreases |lines|
  {
    hide ParseBody, ParseFiles, Flush, HunkPairs, PatchPairs, Attributed, HeadOf, Target, FileSpan;
    if lines == [] {
      NoneAttributed(h, at);
    } else {
      if !(|lines| > 1 && NewPathLine(lines[1])) { FilesNeedPair(h, lines, at); }
      var h', rest := HeadOf(lines[0], lines[1]), lines[2..];
      var n, b := FileSpan(rest), ParseBody(rest, Active(h'), at + 2);
      FilesUnfold(h, lines, at);
      AttributedPair(lines, Target(h));
      AttributedBody(rest, h', at + 2);
      AttributedFiles(h', rest[n..], at + 2 + n);
      FlushPairs(h', b.hunks, [lines[0], lines[1]] + b.shown, ParseFiles(h', rest[n..], at + 2 + n).patches);
    }
  }

  lemma FlushPairs(h: Head, hunks: seq<Hunk>, shown: seq<string>, later: seq<FilePatch>)
    requires !Active(h) ==> hunks == []
    ensures PatchPairs(Flush(h, hunks, shown) + later) == HunkPairs(Target(h), hunks) + PatchPairs(later)
  {
    if hunks != [] {
      assert (Flush(h, hunks, shown) + later)[1..] == later;
    } else {
      assert Flush(h, hunks, shown) + later == later;
    }
  }

  // After an error-free parse, the hunks of the patches, in order, are exactly the "@@" lines of the
  // diff with the lines that follow them, each under the path of the nearest preceding "---"/"+++" pair.
  lemma HunksBelongToNearestFile(lines: seq<string>)
    requires Parse(lines).errors == []
    ensures PatchPairs(Parse(lines).patches) == Attributed(lines, "")
  {
    hide ParseHeader, ParseBody, ParseFiles, Attributed, PatchPairs;
    var h, n := Head(None, None, None), FileSpan(lines);
    AttributedInactive(lines, "", 0);
    AttributedFiles(h, lines[n..], n);
    assert Parse(lines).patches == ParseFiles(h, lines[n..], n).patches;
  }

  // ---------- round trip ----------

  ghost predicate LegalHunk(k: Hunk) {
    && ParseHeader(k.header) == Some(k.range) && OneLine(k.header)
    && AllOneLine(k.lines)
    && forall i :: 0 <= i < |k.lines| ==>
         k.lines[i] != "" && k.lines[i][0] in {' ', '+', '-', '\\'} && !StartsWith(k.lines[i], "--- ")
  }

  ghost predicate LegalPatch(p: FilePatch) {
    && p.oldPath.Some? && p.newPath.Some? && Trimmed(p.oldPath.value) && Trimmed(p.newPath.value)
    && OneLine(p.oldPath.value) && OneLine(p.newPath.value)
    && p.path != "" && p.path == TargetOf(p.oldPath.value, p.newPath.value)
    && p.hunks != [] && LegalHunkList(p.hunks) && p.raw == Join(LayOut(p))
  }

  ghost predicate LegalHunkList(hunks: seq<Hunk>) {
    forall i {:trigger LegalHunk(hunks[i])} :: 0 <= i < |hunks| ==> LegalHunk(hunks[i])
  }

  ghost predicate AllLegal(ps: seq<FilePatch>) {
    forall i {:trigger LegalPatch(ps[i])} :: 0 <= i < |ps| ==> LegalPatch(ps[i])
  }

  function HunkText(hunks: seq<Hunk>): seq<string> {
    if hunks == [] then [] else [hunks[0].header] + hunks[0].lines + HunkText(hunks[1..])
  }

  function PathText(path: Option<string>): string { if path.Some? then path.value else "" }

  function LayOut(p: FilePatch): seq<string> {
    ["--- " + PathText(p.oldPath), "+++ " + PathText(p.newPath)] + HunkText(p.hunks)
  }

  function LayOutAll(ps: seq<FilePatch>): seq<string> {
    if ps == [] then [] else LayOut(ps[0]) + LayOutAll(ps[1..])
  }

  lemma {:induction false} LegalBody(ls: seq<string>, rest: seq<string>, at: nat)
    requires forall i :: 0 <= i < |ls| ==> BodyPrefix(ls[i]) && !FileLine(ls[i])
    requires Ends(rest)
    ensures BodyLines(ls + rest) == ls && BodyErrors(ls + rest, at) == [] && HunkSpan(ls + rest) == |ls|
  {
    if ls == [] {
      assert ls + rest == rest;
    } else {
      assert (ls + rest)[1..] == ls[1..] + rest;
      LegalBody(ls[1..], rest, at + 1);
    }
  }

  lemma LegalRest(hunks: seq<Hunk>)
    requires LegalHunkList(hunks) && hunks != []
    ensures LegalHunk(hunks[0]) && LegalHunkList(hunks[1..])
    ensures HunkText(hunks) == [hunks[0].header] + hunks[0].lines + HunkText(hunks[1..])
  {
    hide LegalHunk;
    forall i | 0 <= i < |hunks[1..]| ensures LegalHunk(hunks[1..][i]) { assert LegalHunk(hunks[i + 1]); }
  }

  lemma NoHunks(rest: seq<string>, at: nat)
    requires rest == [] || FileLine(rest[0])
    ensures HunkText([]) == [] && ParseBody(HunkText([]) + rest, true, at) == Body([], HunkText([]), [])
    ensures FileSpan(HunkText([]) + rest) == 0 && Ends(HunkText([]) + rest)
  {
    hide ParseHeader;
    assert HunkText([]) + rest == rest;
  }

  lemma {:induction false} LegalHunks(hunks: seq<Hunk>, rest: seq<string>, at: nat)
    requires LegalHunkList(hunks)
    requires rest == [] || FileLine(rest[0])
    ensures ParseBody(HunkText(hunks) + rest, true, at) == Body(hunks, HunkText(hunks), [])
    ensures FileSpan(HunkText(hunks) + rest) == |HunkText(hunks)|
    ensures Ends(HunkText(hunks) + rest)
    decreases |hunks|
  {
    hide LegalHunk, LegalHunkList, HunkText, ParseBody, FileSpan, Ends;
    if hunks == [] {
      NoHunks(rest, at);
    } else {
      LegalRest(hunks);
      var k, later, text := hunks[0], hunks[1..], HunkText(hunks[1..]);
      LegalHunks(later, rest, at + 1 + |k.lines|);
      FirstLegalHunk(k, later, text, text + rest, at);
      assert [k.header] + k.lines + (text + rest) == HunkText(hunks) + rest;
      assert [k] + later == hunks;
    }
  }

  lemma FirstLegalHunk(k: Hunk, later: seq<Hunk>, shown: seq<string>, tail: seq<string>, at: nat)
    requires LegalHunk(k) && Ends(tail)
    requires ParseBody(tail, true, at + 1 + |k.lines|) == Body(later, shown, [])
    ensures var lines := [k.header] + k.lines + tail;
            && ParseBody(lines, true, at) == Body([k] + later, [k.header] + k.lines + shown, [])
            && FileSpan(lines) == 1 + |k.lines| + FileSpan(tail) && Ends(lines)
  {
    hide ParseHeader, BodyLines, BodyErrors, HunkSpan, ParseBody, FileSpan;
    var lines := [k.header] + k.lines + tail;
    HeaderStart(k.header);
    assert lines[0] == k.header && lines[1..] == k.lines + tail;
    LegalBody(k.lines, tail, at + 1);
    assert lines[1 + |k.lines|..] == tail;
    BodyUnfold(lines, true, at);
    FileSpanOver([k.header] + k.lines, tail);
  }

  lemma HeaderStart(header: string)
    requires ParseHeader(header).Some?
    ensures HunkLine(header) && !FileLine(header)
  {
    assert header[0] == '@';
  }

  lemma {:induction false} FileSpanOver(ls: seq<string>, rest: seq<string>)
    requires forall i :: 0 <= i < |ls| ==> !FileLine(ls[i])
    ensures FileSpan(ls + rest) == |ls| + FileSpan(rest)
  {
    if ls == [] {
      assert ls + rest == rest;
    } else {
      assert (ls + rest)[1..] == ls[1..] + rest;
      FileSpanOver(ls[1..], rest);
    }
  }

  lemma LegalHead(p: FilePatch)
    requires LegalPatch(p)
    ensures var l0, l1 := "--- " + PathText(p.oldPath), "+++ " + PathText(p.newPath);
            && FileLine(l0) && NewPathLine(l1) && OneLine(l0) && OneLine(l1)
            && HeadOf(l0, l1) == Head(p.oldPath, p.newPath, Some(p.path))
  {
    hide TargetOf, LegalHunkList, LayOut;
    var l0, l1 := "--- " + p.oldPath.value, "+++ " + p.newPath.value;
    assert l0[4..] == p.oldPath.value && l1[4..] == p.newPath.value;
    StripTrims(p.oldPath.value);
    StripTrims(p.newPath.value);
  }

  lemma AllLegalRest(ps: seq<FilePatch>)
    requires AllLegal(ps) && ps != []
    ensures LegalPatch(ps[0]) && AllLegal(ps[1..])
  {
    hide LegalPatch;
    forall i | 0 <= i < |ps[1..]| ensures LegalPatch(ps[1..][i]) { assert LegalPatch(ps[i + 1]); }
  }

  lemma {:induction false} ParseLaidOut(h: Head, ps: seq<FilePatch>, at: nat)
    requires AllLegal(ps)
    ensures LayOutAll(ps) == [] || FileLine(LayOutAll(ps)[0])
    ensures ParseFiles(h, LayOutAll(ps), at) == Parsed(ps, [])
    decreases |ps|
  {
    hide LegalPatch, AllLegal, LayOut, ParseFiles, FileLine, HunkText;
    if ps == [] {
      NoFiles(h, at);
    } else {
      AllLegalRest(ps);
      var p := ps[0];
      var h' := Head(p.oldPath, p.newPath, Some(p.path));
      ParseLaidOut(h', ps[1..], at + 2 + |HunkText(p.hunks)|);
      ParseOne(h, p, LayOutAll(ps[1..]), at, ps[1..]);
      assert [p] + ps[1..] == ps;
    }
  }

  lemma LaidOutLines(p: FilePatch, tail: seq<string>)
    ensures var lines, text := LayOut(p) + tail, HunkText(p.hunks);
            && |lines| > 1 && lines[0] == "--- " + PathText(p.oldPath) && lines[1] == "+++ " + PathText(p.newPath)
            && lines[2..] == text + tail && lines[2..][|text|..] == tail && [lines[0], lines[1]] + text == LayOut(p)
  {
    hide HunkText;
    var lines, text := LayOut(p) + tail, HunkText(p.hunks);
    assert lines[2..] == text + tail;
  }

  lemma ParseOne(h: Head, p: FilePatch, tail: seq<string>, at: nat, later: seq<FilePatch>)
    requires LegalPatch(p) && (tail == [] || FileLine(tail[0]))
    requires ParseFiles(Head(p.oldPath, p.newPath, Some(p.path)), tail, at + 2 + |HunkText(p.hunks)|)
             == Parsed(later, [])
    ensures LayOut(p) != [] && FileLine((LayOut(p) + tail)[0])
    ensures ParseFiles(h, LayOut(p) + tail, at) == Parsed([p] + later, [])
  {
    hide ParseBody, HunkText, FileSpan, TargetOf, ParseFiles, LegalHunkList, LayOut, FileLine, NewPathLine, HeadOf, Join,
         Trimmed, OneLine, PathText;
    LegalHead(p);
    LegalHunks(p.hunks, tail, at + 2);
    LaidOutLines(p, tail);
    FilesUnfold(h, LayOut(p) + tail, at);
  }

  lemma {:induction false} HunkTextOneLine(hunks: seq<Hunk>)
    requires LegalHunkList(hunks)
    ensures AllOneLine(HunkText(hunks))
    ensures hunks != [] ==> HunkText(hunks) != [] && HunkText(hunks)[|HunkText(hunks)| - 1] != ""
  {
    hide ParseHeader;
    if hunks != [] {
      assert LegalHunk(hunks[0]);
      HeaderStart(hunks[0].header);
      forall i | 0 <= i < |hunks| - 1 ensures LegalHunk(hunks[1..][i]) { assert LegalHunk(hunks[i + 1]); }
      HunkTextOneLine(hunks[1..]);
    }
  }

  lemma LayOutOne(p: FilePatch)
    requires LegalPatch(p)
    ensures AllOneLine(LayOut(p)) && LayOut(p) != [] && LayOut(p)[|LayOut(p)| - 1] != ""
  {
    hide TargetOf, LegalHunk, HunkText;
    LegalHead(p);
    HunkTextOneLine(p.hunks);
  }

  lemma {:induction false} LayOutOneLine(ps: seq<FilePatch>)
    requires AllLegal(ps)
    ensures AllOneLine(LayOutAll(ps))
    ensures ps != [] ==> LayOutAll(ps) != [] && LayOutAll(ps)[|LayOutAll(ps)| - 1] != ""
  {
    hide LegalPatch, AllLegal, LayOut, OneLine;
    if ps != [] {
      AllLegalRest(ps);
      LayOutOne(ps[0]);
      LayOutOneLine(ps[1..]);
    }
  }

  // Laying out any legal patches and parsing the text returns the same patches and no error.
  lemma RoundTrip(ps: seq<FilePatch>)
    requires AllLegal(ps)
    ensures Parse(SplitLines(Join(LayOutAll(ps)))) == Parsed(ps, [])
  {
    hide ParseBody, ParseFiles, AllLegal, Finish;
    var lines := LayOutAll(ps);
    LayOutOneLine(ps);
    SplitJoin(lines);
    ParseLaidOut(Head(None, None, None), ps, 0);
    FinishAtFile(Head(None, None, None), [], [], lines, 0);
  }

  // ---------- re-parsing a patch's own text ----------

  // Re-reading the lines kept for a file gives the same hunks, keeps the same lines, and no error.
  lemma {:induction false} ShownStable(lines: seq<string>, at: nat, again: nat)
    requires ParseBody(lines, true, at).errors == []
    ensures var b := ParseBody(lines, true, at);
            ParseBody(b.shown, true, again) == b && FileSpan(b.shown) == |b.shown|
    decreases |lines|
  {
    hide ParseHeader;
    var b := ParseBody(lines, true, at);
    if lines == [] || FileLine(lines[0]) {
    } else if HunkLine(lines[0]) {
      HunkStable(lines, at, again);
    } else {
      ShownStable(lines[1..], at + 1, again + 1);
      assert b.shown[1..] == ParseBody(lines[1..], true, at + 1).shown;
    }
  }

  lemma BodyCons(l: string, body: seq<string>, rest: seq<string>, at: nat)
    requires BodyPrefix(l) && !FileLine(l)
    requires BodyLines(body + rest) == body && BodyErrors(body + rest, at + 1) == [] && HunkSpan(body + rest) == |body|
    ensures var all := [l] + body;
            BodyLines(all + rest) == all && BodyErrors(all + rest, at) == [] && HunkSpan(all + rest) == |all|
  {
    assert ([l] + body + rest)[1..] == body + rest;
    BodyStep([l] + body + rest, at);
  }

  lemma {:induction false} BodyStable(lines: seq<string>, rest: seq<string>, at: nat, again: nat)
    requires BodyErrors(lines, at) == [] && Ends(rest)
    ensures var body := BodyLines(lines);
            BodyLines(body + rest) == body && BodyErrors(body + rest, again) == [] && HunkSpan(body + rest) == |body|
    ensures forall i :: 0 <= i < |BodyLines(lines)| ==> !FileLine(BodyLines(lines)[i])
    decreases |lines|
  {
    hide BodyLines, BodyErrors, HunkSpan;
    BodyStep(lines, at);
    if Ends(lines) {
      assert [] + rest == rest;
      BodyStep(rest, again);
    } else {
      BodyStable(lines[1..], rest, at + 1, again + 1);
      BodyCons(if lines[0] == "" then " " else lines[0], BodyLines(lines[1..]), rest, again);
    }
  }

  lemma {:induction false} HunkStable(lines: seq<string>, at: nat, again: nat)
    requires lines != [] && HunkLine(lines[0]) && !FileLine(lines[0])
    requires ParseBody(lines, true, at).errors == []
    ensures var b := ParseBody(lines, true, at);
            ParseBody(b.shown, true, again) == b && FileSpan(b.shown) == |b.shown|
    decreases |lines|, 0
  {
    hide ParseHeader, BodyLines, BodyErrors, HunkSpan, ParseBody, FileSpan;
    BodyUnfold(lines, true, at);
    var n := 1 + HunkSpan(lines[1..]);
    var body := BodyLines(lines[1..]);
    var rest := ParseBody(lines[n..], true, at + n);
    ShownStable(lines[n..], at + n, again + 1 + |body|);
    BodyStable(lines[1..], [], at + 1, again + 1);
    ShownEnds(lines[n..], at + n);
    BodyStable(lines[1..], rest.shown, at + 1, again + 1);
    var shown := [lines[0]] + body + rest.shown;
    assert shown[0] == lines[0] && shown[1..] == body + rest.shown && shown[1 + |body|..] == rest.shown;
    BodyUnfold(shown, true, again);
    FileSpanOver([lines[0]] + body, rest.shown);
  }

  // What follows a hunk starts with the next hunk, or is empty.
  lemma ShownEnds(lines: seq<string>, at: nat)
    requires Ends(lines) && ParseBody(lines, true, at).errors == []
    ensures Ends(ParseBody(lines, true, at).shown)
  {
    hide ParseHeader, BodyLines;
  }

  lemma {:induction false} ShownOneLine(lines: seq<string>, at: nat)
    requires AllOneLine(lines)
    ensures AllOneLine(ParseBody(lines, true, at).shown)
    ensures var b := ParseBody(lines, true, at);
            b.errors == [] && b.hunks != [] ==> b.shown != [] && b.shown[|b.shown| - 1] != ""
    decreases |lines|
  {
    hide ParseHeader, BodyErrors, BodyLines, ParseBody, HunkSpan;
    BodyUnfold(lines, true, at);
    if lines != [] && !FileLine(lines[0]) {
      if HunkLine(lines[0]) && ParseHeader(lines[0]).Some? {
        var n := 1 + HunkSpan(lines[1..]);
        BodyOneLine(lines[1..]);
        ShownOneLine(lines[n..], at + n);
        LastShown(lines[n..], at + n);
        assert lines[0] != "";
      } else {
        ShownOneLine(lines[1..], at + 1);
      }
    }
  }

  // Nothing is kept after a hunk but further hunks.
  lemma LastShown(lines: seq<string>, at: nat)
    requires Ends(lines)
    ensures var b := ParseBody(lines, true, at); b.errors == [] && b.hunks == [] ==> b.shown == []
  {
    hide ParseHeader, BodyLines;
  }

  lemma {:induction false} BodyOneLine(lines: seq<string>)
    requires AllOneLine(lines)
    ensures AllOneLine(BodyLines(lines)) && forall i :: 0 <= i < |BodyLines(lines)| ==> BodyLines(lines)[i] != ""
  {
    if !Ends(lines) {
      BodyOneLine(lines[1..]);
    }
  }

  // The patch's own text, read alone.
  ghost predicate Stable(p: FilePatch) {
    Parse(SplitLines(p.raw)) == Parsed([p], [])
  }

  lemma FileIsStable(l0: string, l1: string, lines: seq<string>, at: nat)
    requires FileLine(l0) && NewPathLine(l1) && OneLine(l0) && OneLine(l1) && AllOneLine(lines)
    requires Active(HeadOf(l0, l1)) && ParseBody(lines, true, at).errors == []
    requires ParseBody(lines, true, at).hunks != []
    ensures var b := ParseBody(lines, true, at);
            var h := HeadOf(l0, l1);
            Stable(FilePatch(h.target.value, h.oldPath, h.newPath, b.hunks, Join([l0, l1] + b.shown)))
  {
    hide ParseBody, HeadOf, FileSpan, Parse, SplitLines, Join, OneLine, FileLine, NewPathLine;
    var b := ParseBody(lines, true, at);
    ShownOneLine(lines, at);
    SplitJoin([l0, l1] + b.shown);
    ShownStable(lines, at, 2);
    ParseAlone(l0, l1, b.shown);
  }

  // A header pair and the lines of one file, and nothing after.
  lemma ParseAlone(l0: string, l1: string, shown: seq<string>)
    requires FileLine(l0) && NewPathLine(l1) && FileSpan(shown) == |shown|
    ensures var h := HeadOf(l0, l1);
            var b := ParseBody(shown, Active(h), 2);
            Parse([l0, l1] + shown) == Parsed(Flush(h, b.hunks, [l0, l1] + b.shown), b.errors)
  {
    hide ParseBody, HeadOf, Finish, ParseFiles, FileSpan, Flush;
    var all, none := [l0, l1] + shown, Head(None, None, None);
    assert all[2..] == shown && shown[|shown|..] == [];
    FinishAtFile(none, [], [], all, 0);
    FilesUnfold(none, all, 0);
    NoFiles(HeadOf(l0, l1), 2 + |shown|);
    assert Flush(none, [], []) == [] by { EmptyFlush(none); }
  }

  lemma EmptyFlush(h: Head)
    ensures Flush(h, [], []) == []
  {
  }

  ghost predicate AllStable(ps: seq<FilePatch>) {
    forall i {:trigger Stable(ps[i])} :: 0 <= i < |ps| ==> Stable(ps[i])
  }

  lemma AllStablePlus(ps: seq<FilePatch>, qs: seq<FilePatch>)
    requires AllStable(ps) && AllStable(qs)
    ensures AllStable(ps + qs)
  {
    hide Stable;
  }

  // The patch that a file with an error-free body leaves, if any, is stable.
  lemma FlushIsStable(l0: string, l1: string, lines: seq<string>, at: nat)
    requires FileLine(l0) && NewPathLine(l1) && OneLine(l0) && OneLine(l1) && AllOneLine(lines)
    requires ParseBody(lines, Active(HeadOf(l0, l1)), at).errors == []
    ensures var b := ParseBody(lines, Active(HeadOf(l0, l1)), at);
            AllStable(Flush(HeadOf(l0, l1), b.hunks, [l0, l1] + b.shown))
  {
    hide ParseBody, HeadOf, Stable;
    var h := HeadOf(l0, l1);
    if Active(h) && ParseBody(lines, Active(h), at).hunks != [] {
      FileIsStable(l0, l1, lines, at);
    }
  }

  lemma NoneStable(h: Head, at: nat)
    ensures AllStable(ParseFiles(h, [], at).patches)
  {
  }

  lemma {:induction false} FilesAreStable(h: Head, lines: seq<string>, at: nat)
    requires lines == [] || FileLine(lines[0])
    requires AllOneLine(lines) && ParseFiles(h, lines, at).errors == []
    ensures AllStable(ParseFiles(h, lines, at).patches)
    decreases |lines|
  {
    hide ParseBody, HeadOf, AllStable, ParseFiles, FileSpan, Flush;
    if lines == [] {
      NoneStable(h, at);
    } else {
      if !(|lines| > 1 && NewPathLine(lines[1])) { FilesNeedPair(h, lines, at); }
      var h', rest := HeadOf(lines[0], lines[1]), lines[2..];
      var n, b := FileSpan(rest), ParseBody(rest, Active(h'), at + 2);
      FilesUnfold(h, lines, at);
      FilesAreStable(h', rest[n..], at + 2 + n);
      FlushIsStable(lines[0], lines[1], rest, at + 2);
      AllStablePlus(Flush(h', b.hunks, [lines[0], lines[1]] + b.shown),
                    ParseFiles(h', rest[n..], at + 2 + n).patches);
    }
  }

  // After any error-free parse, each patch's own text parses alone to exactly that patch.
  lemma ReparseStable(raw: string)
    requires Parse(SplitLines(raw)).errors == []
    ensures AllStable(Parse(SplitLines(raw)).patches)
  {
    hide ParseBody, ParseFiles, AllStable;
    var lines, h := SplitLines(raw), Head(None, None, None);
    var n := FileSpan(lines);
    FilesAreStable(h, lines[n..], n);
    assert Parse(lines).patches == ParseFiles(h, lines[n..], n).patches;
  }
}
