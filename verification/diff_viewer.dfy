// The numbering scan of the diff viewer: two counters run over the lines of a diff.  For diffs laid
// out as diff -u writes them it is correct exactly when no line is ambiguous; then every number
// shown is the number of that very line in the old or the new file.
module DiffViewer {
  import opened Common
  import opened Text
  import opened DiffParser
  import opened DiffTheorems

  // Marker is what "\ No newline at end of file" should be; the viewer never uses it.
  datatype Kind = Add | Del | HunkHead | FileHead | Normal | Marker

  datatype Row = Row(kind: Kind, text: string, oldNum: Option<nat>, newNum: Option<nat>)

  // ---------- the scan ----------

  predicate IsJsSpace(c: char) {
    var n := c as int;
    9 <= n <= 13 || n == 0x20 || n == 0xa0 || n == 0x1680 || 0x2000 <= n <= 0x200a || n == 0x2028 || n == 0x2029
    || n == 0x202f || n == 0x205f || n == 0x3000 || n == 0xfeff
  }

  predicate JsBlank(s: string) { forall i :: 0 <= i < |s| ==> IsJsSpace(s[i]) }

  // split('\n')
  function JsSplit(s: string): (lines: seq<string>)
    ensures lines != []
    decreases |s|
  {
    var cut := Find(s, "\n");
    if cut.None? then [s] else [s[..cut.value]] + JsSplit(s[cut.value + 1..])
  }

  // \d+(?:,\d+)? : the number and what is left.
  function StartAt(s: string): Option<(nat, string)> {
    var span := ParseSpan(s);
    if span.None? then None else Some((span.value.0, span.value.2))
  }

  // The header pattern at the start of s: the two start lines.
  function HeaderAt(s: string): Option<(nat, nat)> {
    var left := if StartsWith(s, "@@ -") then StartAt(s[4..]) else None;
    var right := if left.Some? && StartsWith(left.value.1, " +") then StartAt(left.value.1[2..]) else None;
    if right.Some? && StartsWith(right.value.1, " @@") then Some((left.value.0, right.value.0)) else None
  }

  // The leftmost match.
  function FirstHeader(s: string): Option<(nat, nat)> {
    if HeaderAt(s).Some? then HeaderAt(s) else if s == "" then None else FirstHeader(s[1..])
  }

  predicate HeaderClass(l: string) {
    StartsWith(l, "---") || StartsWith(l, "+++") || StartsWith(l, "diff --git") || StartsWith(l, "index ")
  }

  // One line, and the counters after it.
  function Shown(l: string, o: nat, n: nat): (Row, nat, nat) {
    if StartsWith(l, "@@") then
      var h := FirstHeader(l);
      (Row(HunkHead, l, None, None), if h.Some? then h.value.0 else o, if h.Some? then h.value.1 else n)
    else if HeaderClass(l) then (Row(FileHead, l, None, None), o, n)
    else if StartsWith(l, "+") then (Row(Add, l, None, Some(n)), o, n + 1)
    else if StartsWith(l, "-") then (Row(Del, l, Some(o), None), o + 1, n)
    else (Row(Normal, l, Some(o), Some(n)), o + 1, n + 1)
  }

  function Scan(lines: seq<string>, o: nat, n: nat): (rows: seq<Row>)
    ensures |rows| == |lines| && forall i :: 0 <= i < |rows| ==> rows[i].text == lines[i]
  {
    if lines == [] then [] else var (row, o', n') := Shown(lines[0], o, n); [row] + Scan(lines[1..], o', n')
  }

  // None for the "no patch" box.
  method View(diff: Option<string>) returns (rows: Option<seq<Row>>)
    ensures rows == if diff.None? || JsBlank(diff.value) then None else Some(Scan(JsSplit(diff.value), 0, 0))
  {
    if diff.None? || JsBlank(diff.value) {
      return None;
    }
    var lines := JsSplit(diff.value);
    var all := NumberLines(lines);
    return Some(all);
  }

  method NumberLines(lines: seq<string>) returns (rows: seq<Row>)
    ensures rows == Scan(lines, 0, 0)
  {
    hide Scan, Shown;
    rows := [];
    var oldLine, newLine, i := 0, 0, 0;
    assert lines[0..] == lines;
    while i < |lines|
      invariant 0 <= i <= |lines|
      invariant rows + Scan(lines[i..], oldLine, newLine) == Scan(lines, 0, 0)
    {
      ScanStep(lines[i..], oldLine, newLine);
      assert lines[i..][1..] == lines[i + 1..];
      var row;
      row, oldLine, newLine := NumberLine(lines[i], oldLine, newLine);
      PlusAssociates(rows, [row], Scan(lines[i + 1..], oldLine, newLine));
      rows := rows + [row];
      i := i + 1;
    }
    ScanEnds(oldLine, newLine);
    assert lines[i..] == [];
  }

  method NumberLine(line: string, currentOld: nat, currentNew: nat) returns (row: Row, oldLine: nat, newLine: nat)
    ensures (row, oldLine, newLine) == Shown(line, currentOld, currentNew)
  {
    oldLine, newLine := currentOld, currentNew;
    if StartsWith(line, "@@") {
      var h := FirstHeader(line);
      if h.Some? {
        oldLine, newLine := h.value.0, h.value.1;
      }
      row := Row(HunkHead, line, None, None);
    } else if HeaderClass(line) {
      row := Row(FileHead, line, None, None);
    } else if StartsWith(line, "+") {
      row := Row(Add, line, None, Some(newLine));
      newLine := newLine + 1;
    } else if StartsWith(line, "-") {
      row := Row(Del, line, Some(oldLine), None);
      oldLine := oldLine + 1;
    } else {
      row := Row(Normal, line, Some(oldLine), Some(newLine));
      oldLine, newLine := oldLine + 1, newLine + 1;
    }
  }

  lemma ScanStep(lines: seq<string>, o: nat, n: nat)
    requires lines != []
    ensures Scan(lines, o, n)
            == [Shown(lines[0], o, n).0] + Scan(lines[1..], Shown(lines[0], o, n).1, Shown(lines[0], o, n).2)
  {
    hide Shown;
  }

  lemma ScanEnds(o: nat, n: nat)
    ensures Scan([], o, n) == []
  {
  }

  // ---------- what a reader should see ----------

  // A hunk as diff -u writes it.
  ghost predicate Canonical(k: Hunk) {
    && (exists shortOld, shortNew, section {:trigger FormatHeader(k.range, shortOld, shortNew, section)} ::
          && (shortOld ==> k.range.oldLines == 1) && (shortNew ==> k.range.newLines == 1)
          && k.header == FormatHeader(k.range, shortOld, shortNew, section))
    && forall i :: 0 <= i < |k.lines| ==> BodyPrefix(k.lines[i])
  }

  ghost predicate AllCanonical(hunks: seq<Hunk>) {
    forall i {:trigger Canonical(hunks[i])} :: 0 <= i < |hunks| ==> Canonical(hunks[i])
  }

  function ExpectedLine(l: string, o: nat, n: nat): (Row, nat, nat) {
    if StartsWith(l, "+") then (Row(Add, l, None, Some(n)), o, n + 1)
    else if StartsWith(l, "-") then (Row(Del, l, Some(o), None), o + 1, n)
    else if StartsWith(l, " ") then (Row(Normal, l, Some(o), Some(n)), o + 1, n + 1)
    else (Row(Marker, l, None, None), o, n)
  }

  function ExpectedBody(body: seq<string>, o: nat, n: nat): (rows: seq<Row>)
    ensures |rows| == |body|
  {
    if body == [] then [] else var (row, o', n') := ExpectedLine(body[0], o, n); [row] + ExpectedBody(body[1..], o', n')
  }

  function ExpectedHunk(k: Hunk): (rows: seq<Row>)
    ensures |rows| == 1 + |k.lines|
  {
    [Row(HunkHead, k.header, None, None)] + ExpectedBody(k.lines, k.range.oldStart, k.range.newStart)
  }

  function ExpectedHunks(hunks: seq<Hunk>): (rows: seq<Row>)
    ensures |rows| == |HunkText(hunks)|
  {
    if hunks == [] then [] else ExpectedHunk(hunks[0]) + ExpectedHunks(hunks[1..])
  }

  function ExpectedFile(p: FilePatch): seq<Row> {
    [Row(FileHead, LayOut(p)[0], None, None), Row(FileHead, LayOut(p)[1], None, None)] + ExpectedHunks(p.hunks)
  }

  function Expected(ps: seq<FilePatch>): (rows: seq<Row>)
    ensures |rows| == |LayOutAll(ps)|
  {
    if ps == [] then [] else ExpectedFile(ps[0]) + Expected(ps[1..])
  }

  // Lines the viewer takes for something else: markers, and changes whose text starts with "--" or "++".
  predicate Ambiguous(l: string) { StartsWith(l, "\\") || StartsWith(l, "---") || StartsWith(l, "+++") }

  predicate ClearBody(body: seq<string>) { forall i :: 0 <= i < |body| ==> !Ambiguous(body[i]) }

  ghost predicate ClearHunks(hunks: seq<Hunk>) {
    forall i {:trigger ClearBody(hunks[i].lines)} :: 0 <= i < |hunks| ==> ClearBody(hunks[i].lines)
  }

  ghost predicate ClearFiles(ps: seq<FilePatch>) {
    forall i {:trigger ClearHunks(ps[i].hunks)} :: 0 <= i < |ps| ==> ClearHunks(ps[i].hunks)
  }

  ghost predicate AllCanonicalFiles(ps: seq<FilePatch>) {
    forall i {:trigger AllCanonical(ps[i].hunks)} :: 0 <= i < |ps| ==> AllCanonical(ps[i].hunks)
  }

  // ---------- the scan meets the expectation exactly on clear diffs ----------

  lemma StartOf(start: nat, count: nat, short: bool, rest: string)
    requires (short ==> count == 1) && rest != "" && rest[0] == ' '
    ensures StartAt(FormatSpan(start, count, short) + rest) == Some((start, rest))
  {
    hide ParseSpan, FormatSpan;
    ParseSpanOf(start, count, short, rest);
  }

  lemma HeaderSeen(r: Range, shortOld: bool, shortNew: bool, section: string)
    requires (shortOld ==> r.oldLines == 1) && (shortNew ==> r.newLines == 1)
    ensures FirstHeader(FormatHeader(r, shortOld, shortNew, section)) == Some((r.oldStart, r.newStart))
    ensures StartsWith(FormatHeader(r, shortOld, shortNew, section), "@@")
  {
    hide FormatSpan, StartAt, FirstHeader;
    var o, n := FormatSpan(r.oldStart, r.oldLines, shortOld), FormatSpan(r.newStart, r.newLines, shortNew);
    var s, tail, end := FormatHeader(r, shortOld, shortNew, section), " +" + n + " @@" + section, " @@" + section;
    assert s == "@@ -" + (o + tail) && s[4..] == o + tail;
    StartOf(r.oldStart, r.oldLines, shortOld, tail);
    assert tail == " +" + (n + end) && tail[2..] == n + end;
    StartOf(r.newStart, r.newLines, shortNew, end);
    FirstAtStart(s);
  }

  lemma FirstAtStart(s: string)
    requires HeaderAt(s).Some?
    ensures FirstHeader(s) == HeaderAt(s)
  {
  }

  // A body line alone: the viewer agrees exactly when the line is not ambiguous.
  lemma LineAgrees(l: string, o: nat, n: nat)
    requires BodyPrefix(l)
    ensures Shown(l, o, n).0 == ExpectedLine(l, o, n).0 <==> !Ambiguous(l)
    ensures !Ambiguous(l) ==> Shown(l, o, n) == ExpectedLine(l, o, n)
  {
    hide FirstHeader;
    assert StartsWith(l, "+") <==> l[0] == '+';
    assert StartsWith(l, "-") <==> l[0] == '-';
    assert StartsWith(l, " ") <==> l[0] == ' ';
    assert StartsWith(l, "\\") <==> l[0] == '\\';
    assert "@@"[0] == '@' && "diff --git"[0] == 'd' && "index "[0] == 'i' && "---"[0] == '-' && "+++"[0] == '+';
  }

  function After(lines: seq<string>, o: nat, n: nat): (nat, nat) {
    if lines == [] then (o, n) else var (_, o', n') := Shown(lines[0], o, n); After(lines[1..], o', n')
  }

  lemma {:induction false} ScanPlus(a: seq<string>, b: seq<string>, o: nat, n: nat)
    ensures Scan(a + b, o, n) == Scan(a, o, n) + Scan(b, After(a, o, n).0, After(a, o, n).1)
  {
    hide Shown;
    if a == [] {
      assert a + b == b;
    } else {
      var (row, o', n') := Shown(a[0], o, n);
      assert (a + b)[1..] == a[1..] + b;
      ScanPlus(a[1..], b, o', n');
    }
  }

  lemma PlusEqual<T>(a: seq<T>, b: seq<T>, c: seq<T>, d: seq<T>)
    requires |a| == |c|
    ensures a + b == c + d <==> a == c && b == d
  {
    if a + b == c + d {
      assert a == (a + b)[..|a|] == (c + d)[..|a|] == c;
      assert b == (a + b)[|a|..] == (c + d)[|a|..] == d;
    }
  }

  lemma {:induction false} BodyAgrees(body: seq<string>, o: nat, n: nat)
    requires forall i :: 0 <= i < |body| ==> BodyPrefix(body[i])
    ensures Scan(body, o, n) == ExpectedBody(body, o, n) <==> ClearBody(body)
  {
    hide Shown, ExpectedLine, Ambiguous;
    if body != [] {
      var (row, o', n') := Shown(body[0], o, n);
      var (row', o'', n'') := ExpectedLine(body[0], o, n);
      LineAgrees(body[0], o, n);
      BodyAgrees(body[1..], o', n');
      PlusEqual([row], Scan(body[1..], o', n'), [row'], ExpectedBody(body[1..], o'', n''));
      assert ClearBody(body) <==> !Ambiguous(body[0]) && ClearBody(body[1..]) by { ClearCons(body); }
    }
  }

  lemma ClearCons(body: seq<string>)
    requires body != []
    ensures ClearBody(body) <==> !Ambiguous(body[0]) && ClearBody(body[1..])
  {
    hide Ambiguous;
    assert body == [body[0]] + body[1..];
  }

  lemma HunkAgrees(k: Hunk, o: nat, n: nat)
    requires Canonical(k)
    ensures Scan([k.header] + k.lines, o, n) == ExpectedHunk(k) <==> ClearBody(k.lines)
  {
    hide ClearBody, ExpectedBody, FormatHeader, FirstHeader;
    var shortOld, shortNew, section :| (shortOld ==> k.range.oldLines == 1) && (shortNew ==> k.range.newLines == 1)
                                        && k.header == FormatHeader(k.range, shortOld, shortNew, section);
    HeaderSeen(k.range, shortOld, shortNew, section);
    BodyAgrees(k.lines, k.range.oldStart, k.range.newStart);
    var all := [k.header] + k.lines;
    assert all[1..] == k.lines;
    var row := Row(HunkHead, k.header, None, None);
    PlusEqual([row], Scan(k.lines, k.range.oldStart, k.range.newStart), [row],
              ExpectedBody(k.lines, k.range.oldStart, k.range.newStart));
  }

  lemma HunksTail(hunks: seq<Hunk>)
    requires hunks != []
    ensures AllCanonical(hunks) ==> Canonical(hunks[0]) && AllCanonical(hunks[1..])
    ensures ClearHunks(hunks) <==> ClearBody(hunks[0].lines) && ClearHunks(hunks[1..])
  {
    hide Canonical, ClearBody;
    assert hunks == [hunks[0]] + hunks[1..];
    if AllCanonical(hunks) {
      forall i | 0 <= i < |hunks[1..]| ensures Canonical(hunks[1..][i]) { assert Canonical(hunks[i + 1]); }
    }
    if ClearHunks(hunks) {
      forall i | 0 <= i < |hunks[1..]| ensures ClearBody(hunks[1..][i].lines) { assert ClearBody(hunks[i + 1].lines); }
    }
    if ClearBody(hunks[0].lines) && ClearHunks(hunks[1..]) {
      forall i | 0 <= i < |hunks| ensures ClearBody(hunks[i].lines) {
        if i > 0 { assert ClearBody(hunks[1..][i - 1].lines); }
      }
    }
  }

  lemma {:induction false} HunksAgree(hunks: seq<Hunk>, o: nat, n: nat)
    requires AllCanonical(hunks)
    ensures Scan(HunkText(hunks), o, n) == ExpectedHunks(hunks) <==> ClearHunks(hunks)
  {
    hide Canonical, AllCanonical, ClearBody, ClearHunks, ExpectedHunk, Scan, After;
    if hunks == [] {
      ScanEnds(o, n);
      NoneClear();
    } else {
      var first := [hunks[0].header] + hunks[0].lines;
      var (o', n') := After(first, o, n);
      HunksTail(hunks);
      HunkAgrees(hunks[0], o, n);
      HunksAgree(hunks[1..], o', n');
      ScanPlus(first, HunkText(hunks[1..]), o, n);
      PlusEqual(Scan(first, o, n), Scan(HunkText(hunks[1..]), o', n'), ExpectedHunk(hunks[0]), ExpectedHunks(hunks[1..]));
    }
  }

  lemma NoneClear()
    ensures ClearHunks([]) && ClearFiles([])
  {
  }

  lemma FileAgrees(p: FilePatch, o: nat, n: nat)
    requires AllCanonical(p.hunks)
    ensures Scan(LayOut(p), o, n) == ExpectedFile(p) <==> ClearHunks(p.hunks)
  {
    hide AllCanonical, ClearHunks, ExpectedHunks, HunkText, LayOut, Scan;
    HeadsShown(p, o, n);
    HunksAgree(p.hunks, o, n);
    var heads := [Row(FileHead, LayOut(p)[0], None, None), Row(FileHead, LayOut(p)[1], None, None)];
    PlusEqual(heads, Scan(HunkText(p.hunks), o, n), heads, ExpectedHunks(p.hunks));
  }

  lemma HeadsShown(p: FilePatch, o: nat, n: nat)
    ensures |LayOut(p)| >= 2
    ensures Scan(LayOut(p), o, n)
            == [Row(FileHead, LayOut(p)[0], None, None), Row(FileHead, LayOut(p)[1], None, None)] + Scan(HunkText(p.hunks), o, n)
  {
    hide HunkText, PathText, Scan, Shown;
    var all := LayOut(p);
    assert all[1..][1..] == HunkText(p.hunks);
    assert StartsWith(all[0], "---") && StartsWith(all[1], "+++");
    DashesShown(all[0], o, n);
    DashesShown(all[1], o, n);
    ScanStep(all, o, n);
    ScanStep(all[1..], o, n);
  }

  lemma FilesTail(ps: seq<FilePatch>)
    requires ps != []
    ensures AllCanonicalFiles(ps) ==> AllCanonical(ps[0].hunks) && AllCanonicalFiles(ps[1..])
    ensures ClearFiles(ps) <==> ClearHunks(ps[0].hunks) && ClearFiles(ps[1..])
  {
    hide AllCanonical, ClearHunks;
    if AllCanonicalFiles(ps) {
      forall i | 0 <= i < |ps[1..]| ensures AllCanonical(ps[1..][i].hunks) { assert AllCanonical(ps[i + 1].hunks); }
    }
    if ClearFiles(ps) {
      forall i | 0 <= i < |ps[1..]| ensures ClearHunks(ps[1..][i].hunks) { assert ClearHunks(ps[i + 1].hunks); }
    }
    if ClearHunks(ps[0].hunks) && ClearFiles(ps[1..]) {
      forall i | 0 <= i < |ps| ensures ClearHunks(ps[i].hunks) {
        if i > 0 { assert ClearHunks(ps[1..][i - 1].hunks); }
      }
    }
  }

  lemma {:induction false} ScanAgrees(ps: seq<FilePatch>, o: nat, n: nat)
    requires AllCanonicalFiles(ps)
    ensures Scan(LayOutAll(ps), o, n) == Expected(ps) <==> ClearFiles(ps)
  {
    hide AllCanonical, AllCanonicalFiles, ClearHunks, ClearFiles, ExpectedFile, Scan, After, LayOut;
    if ps == [] {
      ScanEnds(o, n);
      NoneClear();
    } else {
      var (o', n') := After(LayOut(ps[0]), o, n);
      FilesTail(ps);
      FileAgrees(ps[0], o, n);
      ScanAgrees(ps[1..], o', n');
      ScanPlus(LayOut(ps[0]), LayOutAll(ps[1..]), o, n);
      SameLength(ps[0]);
      PlusEqual(Scan(LayOut(ps[0]), o, n), Scan(LayOutAll(ps[1..]), o', n'), ExpectedFile(ps[0]), Expected(ps[1..]));
    }
  }

  lemma SameLength(p: FilePatch)
    ensures |ExpectedFile(p)| == |LayOut(p)|
  {
  }

  // ---------- from the text ----------

  predicate NoLineFeed(lines: seq<string>) { forall i :: 0 <= i < |lines| ==> '\n' !in lines[i] }

  lemma {:induction false} JsSplitJoin(lines: seq<string>)
    requires lines != [] && NoLineFeed(lines)
    ensures JsSplit(Join(lines)) == lines
  {
    hide Find;
    var s := Join(lines);
    FindChar(s, '\n');
    if |lines| > 1 {
      var k := |lines[0]|;
      assert s[..k] == lines[0] && s[k] == '\n' && s[k + 1..] == Join(lines[1..]);
      assert Find(s, "\n") == Some(k);
      JsSplitJoin(lines[1..]);
    }
  }

  lemma {:induction false} JoinLast(lines: seq<string>)
    requires lines != []
    ensures Join(lines + [""]) == Join(lines) + "\n"
  {
    if |lines| > 1 {
      JoinLast(lines[1..]);
      assert (lines + [""])[1..] == lines[1..] + [""];
    } else {
      assert (lines + [""])[1..] == [""];
    }
  }

  // The rows shown for laid-out patches are the expected ones exactly when no changed or marker line
  // is ambiguous and the text does not end with a line feed, which adds a context row that no file has.
  lemma ViewIsRight(ps: seq<FilePatch>, newline: bool)
    requires ps != [] && AllCanonicalFiles(ps) && NoLineFeed(LayOutAll(ps))
    ensures var text := Join(LayOutAll(ps)) + if newline then "\n" else "";
            Scan(JsSplit(text), 0, 0) == Expected(ps) <==> ClearFiles(ps) && !newline
  {
    hide AllCanonicalFiles, ClearFiles, Scan, Expected, LayOut, JsSplit;
    var lines := LayOutAll(ps);
    assert lines != [] by { LayOutStarts(ps[0]); }
    var text := Join(lines) + if newline then "\n" else "";
    if newline {
      JoinLast(lines);
      JsSplitJoin(lines + [""]);
      assert |Scan(JsSplit(text), 0, 0)| == |lines| + 1;
    } else {
      assert text == Join(lines);
      JsSplitJoin(lines);
      ScanAgrees(ps, 0, 0);
    }
  }

  lemma LayOutStarts(p: FilePatch)
    ensures |LayOut(p)| >= 2
  {
  }

  // ---------- the numbers are those of the files ----------

  // Applying a hunk body from line o of the old file on: the old lines used and the new file so far.
  function ApplyBody(body: seq<string>, before: seq<string>, o: nat, out: seq<string>): (r: Option<(nat, seq<string>)>)
    requires o <= |before|
    ensures r.Some? ==> o <= r.value.0 <= |before| && out <= r.value.1
    decreases |body|
  {
    if body == [] then Some((o, out))
    else if body[0] == "" then None
    else
      var text := body[0][1..];
      match body[0][0]
      case '+' => ApplyBody(body[1..], before, o, out + [text])
      case '-' => if o < |before| && before[o] == text then ApplyBody(body[1..], before, o + 1, out) else None
      case ' ' => if o < |before| && before[o] == text then ApplyBody(body[1..], before, o + 1, out + [text]) else None
      case '\\' => ApplyBody(body[1..], before, o, out)
      case _ => None
  }

  // An empty range names the line before it.
  function LinesBefore(start: nat, count: nat): int { if count == 0 then start else start - 1 }

  // One hunk, after the unchanged lines before it; ranges and counts must be those of the header.
  function ApplyHunk(k: Hunk, before: seq<string>, o: nat, out: seq<string>): (r: Option<(nat, seq<string>)>)
    requires o <= |before|
    ensures r.Some? ==> o <= r.value.0 <= |before| && out <= r.value.1
  {
    var from := LinesBefore(k.range.oldStart, k.range.oldLines);
    if !(o <= from <= |before|) then None
    else
      var out' := out + before[o..from];
      var b := ApplyBody(k.lines, before, from, out');
      if |out'| == LinesBefore(k.range.newStart, k.range.newLines) && b.Some?
         && b.value.0 - from == k.range.oldLines && |b.value.1| - |out'| == k.range.newLines
      then b else None
  }

  // Patching a file: None when the hunks do not apply to it.
  function ApplyHunks(hunks: seq<Hunk>, before: seq<string>, o: nat, out: seq<string>): (r: Option<seq<string>>)
    requires o <= |before|
    ensures r.Some? ==> out <= r.value
    decreases |hunks|
  {
    if hunks == [] then Some(out + before[o..])
    else
      var next := ApplyHunk(hunks[0], before, o, out);
      if next.None? then None else ApplyHunks(hunks[1..], before, next.value.0, next.value.1)
  }

  predicate Shows(num: Option<nat>, text: string, file: seq<string>) {
    num.Some? ==> 1 <= num.value <= |file| && text != "" && file[num.value - 1] == text[1..]
  }

  predicate RowsRight(rows: seq<Row>, before: seq<string>, after: seq<string>) {
    forall i :: 0 <= i < |rows| ==> Shows(rows[i].oldNum, rows[i].text, before) && Shows(rows[i].newNum, rows[i].text, after)
  }

  function OldNums(rows: seq<Row>): seq<nat> {
    if rows == [] then []
    else (if rows[0].oldNum.Some? then [rows[0].oldNum.value] else []) + OldNums(rows[1..])
  }

  function NewNums(rows: seq<Row>): seq<nat> {
    if rows == [] then []
    else (if rows[0].newNum.Some? then [rows[0].newNum.value] else []) + NewNums(rows[1..])
  }

  predicate Increasing(s: seq<nat>, lo: nat, hi: nat) {
    (forall i :: 0 <= i < |s| ==> lo <= s[i] < hi) && forall i, j :: 0 <= i < j < |s| ==> s[i] < s[j]
  }

  lemma IncreasingPlus(a: seq<nat>, b: seq<nat>, lo: nat, mid: nat, mid': nat, hi: nat)
    requires Increasing(a, lo, mid) && Increasing(b, mid', hi) && lo <= mid <= mid' <= hi
    ensures Increasing(a + b, lo, hi)
  {
  }

  lemma NumsCons(row: Row, rest: seq<Row>)
    ensures OldNums([row] + rest) == (if row.oldNum.Some? then [row.oldNum.value] else []) + OldNums(rest)
    ensures NewNums([row] + rest) == (if row.newNum.Some? then [row.newNum.value] else []) + NewNums(rest)
  {
    assert ([row] + rest)[1..] == rest;
  }

  lemma NoNums()
    ensures OldNums([]) == [] && NewNums([]) == []
  {
  }

  lemma {:induction false} NumsPlus(a: seq<Row>, b: seq<Row>)
    ensures OldNums(a + b) == OldNums(a) + OldNums(b) && NewNums(a + b) == NewNums(a) + NewNums(b)
  {
    hide OldNums, NewNums;
    if a == [] {
      NoNums();
      assert a + b == b;
      assert [] + OldNums(b) == OldNums(b) && [] + NewNums(b) == NewNums(b);
    } else {
      NumsPlus(a[1..], b);
      NumsCons(a[0], a[1..]);
      NumsCons(a[0], a[1..] + b);
      assert [a[0]] + a[1..] == a && [a[0]] + (a[1..] + b) == a + b;
      PlusAssociates(if a[0].oldNum.Some? then [a[0].oldNum.value] else [], OldNums(a[1..]), OldNums(b));
      PlusAssociates(if a[0].newNum.Some? then [a[0].newNum.value] else [], NewNums(a[1..]), NewNums(b));
    }
  }

  // The numbers of some rows, seen from the lines before and after them on either side.
  ghost predicate Numbered(rows: seq<Row>, before: seq<string>, after: seq<string>, o: nat, o': nat, n: nat, n': nat) {
    RowsRight(rows, before, after) && Increasing(OldNums(rows), o + 1, o' + 1) && Increasing(NewNums(rows), n + 1, n' + 1)
  }

  lemma NumberedPlus(a: seq<Row>, b: seq<Row>, before: seq<string>, after: seq<string>, o: nat, o1: nat, o': nat,
                     n: nat, n1: nat, n': nat)
    requires Numbered(a, before, after, o, o1, n, n1) && Numbered(b, before, after, o1, o', n1, n')
    requires o <= o1 <= o' && n <= n1 <= n'
    ensures Numbered(a + b, before, after, o, o', n, n')
  {
    NumsPlus(a, b);
    IncreasingPlus(OldNums(a), OldNums(b), o + 1, o1 + 1, o1 + 1, o' + 1);
    IncreasingPlus(NewNums(a), NewNums(b), n + 1, n1 + 1, n1 + 1, n' + 1);
  }

  lemma OneNumbered(row: Row, before: seq<string>, after: seq<string>, o: nat, o': nat, n: nat, n': nat)
    requires row.oldNum.Some? ==> row.oldNum.value == o + 1 && o < o' && Shows(row.oldNum, row.text, before)
    requires row.newNum.Some? ==> row.newNum.value == n + 1 && n < n' && Shows(row.newNum, row.text, after)
    ensures Numbered([row], before, after, o, o', n, n')
  {
    hide OldNums, NewNums;
    NoNums();
    NumsCons(row, []);
    assert [row] + [] == [row];
  }

  lemma {:induction false} BodyRight(body: seq<string>, before: seq<string>, o: nat, out: seq<string>,
                                     after: seq<string>, oldNum: nat, newNum: nat)
    requires o <= |before| && ApplyBody(body, before, o, out).Some?
    requires ApplyBody(body, before, o, out).value.1 <= after
    requires ApplyBody(body, before, o, out).value.0 > o ==> oldNum == o + 1
    requires |ApplyBody(body, before, o, out).value.1| > |out| ==> newNum == |out| + 1
    ensures var (o', out') := ApplyBody(body, before, o, out).value;
            Numbered(ExpectedBody(body, oldNum, newNum), before, after, o, o', |out|, |out'|)
    decreases |body|
  {
    hide Numbered;
    if body == [] {
      NoneNumbered(before, after, o, |out|);
    } else {
      var text := body[0][1..];
      var (o', out') := ApplyBody(body, before, o, out).value;
      var (row, oldNum', newNum') := ExpectedLine(body[0], oldNum, newNum);
      var o1 := if body[0][0] == '-' || body[0][0] == ' ' then o + 1 else o;
      var out1 := if body[0][0] == '+' || body[0][0] == ' ' then out + [text] else out;
      BodyRight(body[1..], before, o1, out1, after, oldNum', newNum');
      OneNumbered(row, before, after, o, o1, |out|, |out1|);
      NumberedPlus([row], ExpectedBody(body[1..], oldNum', newNum'), before, after, o, o1, o', |out|, |out1|, |out'|);
    }
  }

  lemma NoneNumbered(before: seq<string>, after: seq<string>, o: nat, n: nat)
    ensures Numbered([], before, after, o, o, n, n)
  {
  }

  // Rows without numbers, and gaps before them.
  lemma Unnumbered(row: Row, rows: seq<Row>, before: seq<string>, after: seq<string>, o: nat, o1: nat, o': nat,
                   n: nat, n1: nat, n': nat)
    requires row.oldNum.None? && row.newNum.None? && o <= o1 && n <= n1
    requires Numbered(rows, before, after, o1, o', n1, n')
    ensures Numbered([row] + rows, before, after, o, o', n, n')
  {
    NumsPlus([row], rows);
  }

  lemma HunkRight(k: Hunk, before: seq<string>, o: nat, out: seq<string>, after: seq<string>)
    requires o <= |before| && ApplyHunk(k, before, o, out).Some?
    requires ApplyHunk(k, before, o, out).value.1 <= after
    ensures var (o', out') := ApplyHunk(k, before, o, out).value;
            Numbered(ExpectedHunk(k), before, after, o, o', |out|, |out'|)
  {
    hide Numbered, ApplyBody;
    var from := LinesBefore(k.range.oldStart, k.range.oldLines);
    var out1 := out + before[o..from];
    var (o', out') := ApplyHunk(k, before, o, out).value;
    BodyRight(k.lines, before, from, out1, after, k.range.oldStart, k.range.newStart);
    Unnumbered(Row(HunkHead, k.header, None, None), ExpectedBody(k.lines, k.range.oldStart, k.range.newStart),
               before, after, o, from, o', |out|, |out1|, |out'|);
  }

  lemma {:induction false} HunksRight(hunks: seq<Hunk>, before: seq<string>, o: nat, out: seq<string>, after: seq<string>)
    requires o <= |before| && ApplyHunks(hunks, before, o, out) == Some(after)
    ensures Numbered(ExpectedHunks(hunks), before, after, o, |before|, |out|, |after|)
    decreases |hunks|
  {
    hide Numbered, ApplyHunk, ExpectedHunk;
    if hunks == [] {
      NoneNumbered(before, after, o, |out|);
      Widen([], before, after, o, o, |before|, |out|, |out|, |after|);
    } else {
      var (o', out') := ApplyHunk(hunks[0], before, o, out).value;
      HunkRight(hunks[0], before, o, out, after);
      HunksRight(hunks[1..], before, o', out', after);
      NumberedPlus(ExpectedHunk(hunks[0]), ExpectedHunks(hunks[1..]), before, after, o, o', |before|, |out|, |out'|, |after|);
    }
  }

  lemma Widen(rows: seq<Row>, before: seq<string>, after: seq<string>, o: nat, o1: nat, o': nat, n: nat, n1: nat, n': nat)
    requires Numbered(rows, before, after, o, o1, n, n1) && o1 <= o' && n1 <= n'
    ensures Numbered(rows, before, after, o, o', n, n')
  {
  }

  lemma FileRight(p: FilePatch, before: seq<string>, after: seq<string>)
    requires ApplyHunks(p.hunks, before, 0, []) == Some(after)
    ensures Numbered(ExpectedFile(p), before, after, 0, |before|, 0, |after|)
  {
    hide Numbered, ExpectedHunks, ApplyHunks, LayOut, ExpectedFile;
    HunksRight(p.hunks, before, 0, [], after);
    var rows := ExpectedHunks(p.hunks);
    var l0, l1 := ExpectedStarts(p);
    Unnumbered(l1, rows, before, after, 0, 0, |before|, 0, 0, |after|);
    Unnumbered(l0, [l1] + rows, before, after, 0, 0, |before|, 0, 0, |after|);
  }

  lemma ExpectedStarts(p: FilePatch) returns (l0: Row, l1: Row)
    ensures ExpectedFile(p) == [l0] + ([l1] + ExpectedHunks(p.hunks))
    ensures l0.oldNum.None? && l0.newNum.None? && l1.oldNum.None? && l1.newNum.None?
  {
    hide ExpectedHunks, LayOut;
    LayOutStarts(p);
    l0, l1 := Row(FileHead, LayOut(p)[0], None, None), Row(FileHead, LayOut(p)[1], None, None);
  }

  // For a canonical diff that takes one file to another, without ambiguous lines, the viewer shows
  // one row per line; every number it shows is that of the row's own text in the old or the new
  // file, and the numbers of either side strictly increase over all hunks.
  lemma NumbersAreRight(p: FilePatch, before: seq<string>, after: seq<string>)
    requires AllCanonical(p.hunks) && ClearHunks(p.hunks) && NoLineFeed(LayOut(p))
    requires ApplyHunks(p.hunks, before, 0, []) == Some(after)
    ensures var rows := Scan(JsSplit(Join(LayOut(p))), 0, 0);
            && |rows| == |LayOut(p)| && RowsRight(rows, before, after)
            && Increasing(OldNums(rows), 1, |before| + 1) && Increasing(NewNums(rows), 1, |after| + 1)
  {
    hide AllCanonical, ClearHunks, Scan, ExpectedFile, LayOut, JsSplit, ApplyHunks, RowsRight, Increasing, OldNums, NewNums;
    LayOutStarts(p);
    JsSplitJoin(LayOut(p));
    FileAgrees(p, 0, 0);
    FileRight(p, before, after);
  }

  // ---------- a misnumbered patch ----------

  // Deleting the line "--" + x and keeping y.
  function DashedPatch(x: string, y: string): FilePatch {
    var r := Range(1, 2, 1, 1);
    FilePatch("f", Some("a/f"), Some("b/f"), [Hunk(r, FormatHeader(r, false, false, ""), ["---" + x, " " + y])], "")
  }

  lemma DashedApplies(x: string, y: string)
    ensures AllCanonical(DashedPatch(x, y).hunks)
    ensures ApplyHunks(DashedPatch(x, y).hunks, ["--" + x, y], 0, []) == Some([y])
  {
    hide FormatHeader;
    var p, before := DashedPatch(x, y), ["--" + x, y];
    var k := p.hunks[0];
    assert k.header == FormatHeader(k.range, false, false, "");
    assert Canonical(k);
    assert ("---" + x)[1..] == "--" + x && (" " + y)[1..] == y && ("---" + x)[0] == '-' && (" " + y)[0] == ' ';
    var body := k.lines;
    assert body[1..] == [" " + y] && [" " + y][1..] == [];
    assert before[1] == y && [] + [y] == [y];
    assert ApplyBody([], before, 2, [y]) == Some((2, [y]));
    assert ApplyBody([" " + y], before, 1, []) == ApplyBody([], before, 2, [] + [y]);
    assert ApplyBody(body, before, 0, []) == Some((2, [y]));
    assert [] + before[0..0] == [];
    assert ApplyHunk(k, before, 0, []) == Some((2, [y]));
    assert p.hunks[1..] == [] && [y] + before[2..] == [y];
  }

  // The patch applies, but the viewer shows the kept line y as line 1 of the old file, which is "--" + x.
  lemma DashedIsMisnumbered(x: string, y: string)
    requires '\n' !in x && '\n' !in y && y != "--" + x
    ensures ApplyHunks(DashedPatch(x, y).hunks, ["--" + x, y], 0, []) == Some([y])
    ensures !RowsRight(Scan(JsSplit(Join(LayOut(DashedPatch(x, y)))), 0, 0), ["--" + x, y], [y])
  {
    hide JsSplit, Join, ApplyHunks, DashedPatch, Scan, FirstHeader, FormatHeader;
    DashedApplies(x, y);
    DashedText(x, y);
    JsSplitJoin(LayOut(DashedPatch(x, y)));
    DashedScan(FormatHeader(Range(1, 2, 1, 1), false, false, ""), x, y);
    var row := Scan(LayOut(DashedPatch(x, y)), 0, 0)[4];
    assert row == Row(Normal, " " + y, Some(1), Some(1));
    assert (" " + y)[1..] == y;
  }

  lemma DashedText(x: string, y: string)
    requires '\n' !in x && '\n' !in y
    ensures var h := FormatHeader(Range(1, 2, 1, 1), false, false, "");
            && LayOut(DashedPatch(x, y)) == ["--- a/f", "+++ b/f", h, "---" + x, " " + y]
            && StartsWith(h, "@@") && FirstHeader(h) == Some((1, 1)) && NoLineFeed(LayOut(DashedPatch(x, y)))
  {
    hide FormatHeader, FirstHeader;
    var p := DashedPatch(x, y);
    HeaderSeen(p.hunks[0].range, false, false, "");
    DashedHeader();
    assert HunkText(p.hunks[1..]) == [];
    assert "--- " + "a/f" == "--- a/f" && "+++ " + "b/f" == "+++ b/f";
    assert LayOut(p) == ["--- a/f", "+++ b/f", p.hunks[0].header, "---" + x, " " + y];
  }

  lemma DashedHeader()
    ensures '\n' !in FormatHeader(Range(1, 2, 1, 1), false, false, "")
  {
    assert forall c :: IsDigit(c) ==> c != '\n';
  }

  lemma DashedScan(h: string, x: string, y: string)
    requires StartsWith(h, "@@") && FirstHeader(h) == Some((1, 1))
    ensures |Scan(["--- a/f", "+++ b/f", h, "---" + x, " " + y], 0, 0)| == 5
    ensures Scan(["--- a/f", "+++ b/f", h, "---" + x, " " + y], 0, 0)[4] == Row(Normal, " " + y, Some(1), Some(1))
  {
    hide FirstHeader, Scan, Shown, HeaderClass;
    var l5 := ["--- a/f", "+++ b/f", h, "---" + x, " " + y];
    var l4, l3, l2, l1 := ["+++ b/f", h, "---" + x, " " + y], [h, "---" + x, " " + y], ["---" + x, " " + y], [" " + y];
    assert l5[1..] == l4 && l4[1..] == l3 && l3[1..] == l2 && l2[1..] == l1;
    DashesShown("--- a/f", 0, 0);
    DashesShown("+++ b/f", 0, 0);
    DashesShown("---" + x, 1, 1);
    HeaderShown(h, 0, 0);
    ContextShown(y, 1, 1);
    ScanStep(l5, 0, 0);
    ScanStep(l4, 0, 0);
    ScanStep(l3, 0, 0);
    ScanStep(l2, 1, 1);
    ScanStep(l1, 1, 1);
  }

  lemma DashesShown(l: string, o: nat, n: nat)
    requires StartsWith(l, "---") || StartsWith(l, "+++")
    ensures Shown(l, o, n) == (Row(FileHead, l, None, None), o, n)
  {
    hide FirstHeader;
    assert l[0] == '-' || l[0] == '+';
    assert "@@"[0] == '@';
  }

  lemma HeaderShown(h: string, o: nat, n: nat)
    requires StartsWith(h, "@@") && FirstHeader(h) == Some((1, 1))
    ensures Shown(h, o, n) == (Row(HunkHead, h, None, None), 1, 1)
  {
    hide FirstHeader, HeaderClass;
  }

  lemma ContextShown(y: string, o: nat, n: nat)
    ensures Shown(" " + y, o, n) == (Row(Normal, " " + y, Some(o), Some(n)), o + 1, n + 1)
  {
    hide FirstHeader;
    assert (" " + y)[0] == ' ';
    assert "@@"[0] == '@' && "---"[0] == '-' && "+++"[0] == '+' && "diff --git"[0] == 'd' && "index "[0] == 'i';
  }
}
