// What a snippet shows, which files are shown, what an import line is, and where a run stops, each
// told apart from the way the resolver computes it.
module ContextTheorems {
  import opened Common
  import opened Text
  import opened Paths
  import opened ContextResolver

  // ---------- which files are shown ----------

  // The candidate's path, once normalised, stays below the root and is a file within the size limit
  // that can be read and is not empty.
  lemma ShownIff(w: World, c: Candidate)
    ensures var path := Normalize(c.path, w.repo);
            Look(w, c).Some?
            <==> path != "" && path[0] != '/' && !Contains(path, "..") && '\0' !in path
                 && var at := w.root + RealParts(Split(path));
                    at in w.files && w.files[at].size <= w.max.fileSize
                    && w.files[at].content.Some? && |w.files[at].content.value| > 0
  {
    hide Normalize, Numbered, Join, Split, RealParts, Contains;
    AcceptedPathsDescend(w.root, Normalize(c.path, w.repo));
  }

  // The lines of the file behind a path below the root.
  function LinesOf(w: World, path: string): seq<string> {
    var at := w.root + RealParts(Split(path));
    if at in w.files && w.files[at].content.Some? then w.files[at].content.value else []
  }

  // ---------- which lines ----------

  // half a window to both sides of the line asked for, cut at the ends of the file; from the top, a
  // whole window, when the file does not have that line.
  lemma WindowReaches(w: World, c: Candidate)
    requires Look(w, c).Some?
    ensures var e, half := Look(w, c).value, w.max.window / 2;
            && e.target == c.line && e.path == Normalize(c.path, w.repo)
            && e.total == |LinesOf(w, e.path)|
            && (c.line.Some? && 1 <= c.line.value <= e.total ==>
                  && (e.start == c.line.value - half || (e.start == 1 && c.line.value - half < 1))
                  && (e.end == c.line.value + half || (e.end == e.total && e.total < c.line.value + half)))
            && (c.line.None? || !(1 <= c.line.value <= e.total) ==>
                  e.start == 1 && (e.end == w.max.window || (e.end == e.total && e.total < w.max.window)))
  {
    hide Normalize, Numbered, Join, Split, RealParts;
    AcceptedPathsDescend(w.root, Normalize(c.path, w.repo));
  }

  // ---------- what the rows read ----------

  // text is the line without the line ends behind it.
  ghost predicate Bare(text: string, line: string) {
    && text <= line && (forall i :: |text| <= i < |line| ==> line[i] == '\r' || line[i] == '\n')
    && (text != "" ==> text[|text| - 1] != '\r' && text[|text| - 1] != '\n')
  }

  // The number, at least four wide, then the mark of the line asked for, and the line.
  ghost predicate RowText(row: string, n: nat, marked: bool, line: string) {
    exists pad, text ::
      && row == pad + Decimal(n) + (if marked then " > | " else "   | ") + text
      && (forall i :: 0 <= i < |pad| ==> pad[i] == ' ') && |pad| == (if |Decimal(n)| < 4 then 4 - |Decimal(n)| else 0)
      && Bare(text, line)
  }

  lemma {:induction false} ChompIsBare(s: string)
    ensures Bare(ChompAll(s), s)
  {
    if s != "" && (s[|s| - 1] == '\n' || s[|s| - 1] == '\r') { ChompIsBare(s[..|s| - 1]); }
  }

  lemma {:induction false} SpacesBlank(n: nat)
    ensures forall i :: 0 <= i < n ==> Spaces(n)[i] == ' '
  {
    if n > 0 { SpacesBlank(n - 1); }
  }

  lemma RowReads(lines: seq<string>, n: nat, target: Option<int>)
    requires 1 <= n <= |lines|
    ensures RowText(NumberedLine(lines, n, target), n, target == Some(n), lines[n - 1])
  {
    hide Decimal, ChompAll, Spaces, Bare;
    var d := Decimal(n);
    var pad := if |d| < 4 then Spaces(4 - |d|) else "";
    var text := ChompAll(lines[n - 1]);
    SpacesBlank(if |d| < 4 then 4 - |d| else 0);
    ChompIsBare(lines[n - 1]);
    assert pad + d == Padded(n);
    JoinedMark(Padded(n), target == Some(n), text);
  }

  lemma JoinedMark(head: string, marked: bool, text: string)
    ensures head + (if marked then " >" else "  ") + " | " + text == head + (if marked then " > | " else "   | ") + text
  {
    var mark := if marked then " >" else "  ";
    assert mark + " | " == if marked then " > | " else "   | ";
    assert head + mark + " | " == head + (mark + " | ");
  }

  lemma {:induction false} NumberedAt(lines: seq<string>, start: nat, end: nat, target: Option<int>, j: nat)
    requires 1 <= start <= end + 1 && end <= |lines|
    ensures |Numbered(lines, start, end, target)| == end + 1 - start
    ensures j < end + 1 - start ==> Numbered(lines, start, end, target)[j] == NumberedLine(lines, start + j, target)
    decreases end
  {
    hide NumberedLine;
    if start <= end { NumberedAt(lines, start, end - 1, target, j); }
  }

  // A snippet is one row for each line of its window, in order, each with the line's own number and text.
  lemma SnippetShows(w: World, c: Candidate) returns (rows: seq<string>)
    requires Look(w, c).Some? && w.max.window >= 1
    ensures var e := Look(w, c).value;
            var lines := LinesOf(w, e.path);
            && e.content == Join(rows) && 1 <= e.start <= e.end <= |lines| && |rows| == e.end - e.start + 1
            && forall j :: 0 <= j < |rows| ==>
                 RowText(rows[j], e.start + j, c.line == Some(e.start + j), lines[e.start + j - 1])
  {
    hide Normalize, Numbered, Join, Split, RealParts, NumberedLine, RowText;
    AcceptedPathsDescend(w.root, Normalize(c.path, w.repo));
    var lines, e := LinesAt(w, Normalize(c.path, w.repo)).value, Look(w, c).value;
    rows := Numbered(lines, e.start, e.end, c.line);
    NumberedAt(lines, e.start, e.end, c.line, 0);
    forall j | 0 <= j < |rows| ensures RowText(rows[j], e.start + j, c.line == Some(e.start + j), lines[e.start + j - 1]) {
      NumberedAt(lines, e.start, e.end, c.line, j);
      RowReads(lines, e.start + j, c.line);
    }
  }

  // ---------- imports ----------

  ghost predicate Blanks(w: string) { w != "" && w[0] == ' ' && forall i :: 0 <= i < |w| ==> IsSpace(w[i]) }
  ghost predicate SomeBlanks(w: string) { w != "" && forall i :: 0 <= i < |w| ==> IsSpace(w[i]) }

  // A dotted name of ASCII letters, digits and '_'.
  ghost predicate ModuleName(m: string) {
    m != "" && forall i :: 0 <= i < |m| ==>
      '0' <= m[i] <= '9' || 'a' <= m[i] <= 'z' || 'A' <= m[i] <= 'Z' || m[i] == '_' || m[i] == '.'
  }

  ghost predicate FromLine(line: string, m: string) {
    exists w1, w2, tail :: Blanks(w1) && SomeBlanks(w2) && line == "from" + (w1 + (m + (w2 + ("import" + tail))))
  }

  ghost predicate ImportLine(line: string, m: string) {
    exists w1, tail :: Blanks(w1) && (tail == "" || !IsModuleChar(tail[0])) && line == "import" + (w1 + (m + tail))
  }

  lemma {:induction false} SpaceSpanOf(w: string, rest: string)
    requires (forall i :: 0 <= i < |w| ==> IsSpace(w[i])) && (rest == "" || !IsSpace(rest[0]))
    ensures SpaceSpan(w + rest) == |w|
  {
    if w == "" {
      assert w + rest == rest;
    } else {
      assert (w + rest)[1..] == w[1..] + rest;
      SpaceSpanOf(w[1..], rest);
    }
  }

  lemma {:induction false} SpaceSpanIs(s: string)
    ensures forall i :: 0 <= i < SpaceSpan(s) ==> IsSpace(s[i])
  {
    if s != "" && IsSpace(s[0]) { SpaceSpanIs(s[1..]); }
  }

  lemma {:induction false} ModuleSpanOf(m: string, rest: string)
    requires (forall i :: 0 <= i < |m| ==> IsModuleChar(m[i])) && (rest == "" || !IsModuleChar(rest[0]))
    ensures ModuleSpan(m + rest) == |m|
  {
    if m == "" {
      assert m + rest == rest;
    } else {
      assert (m + rest)[1..] == m[1..] + rest;
      ModuleSpanOf(m[1..], rest);
    }
  }

  lemma {:induction false} ModuleSpanIs(s: string)
    ensures forall i :: 0 <= i < ModuleSpan(s) ==> IsModuleChar(s[i])
    ensures ModuleSpan(s) < |s| ==> !IsModuleChar(s[ModuleSpan(s)])
  {
    if s != "" && IsModuleChar(s[0]) { ModuleSpanIs(s[1..]); }
  }

  lemma NotBoth(c: char)
    ensures !(IsSpace(c) && IsModuleChar(c))
  {
  }

  // Blanks and a name, followed by something that does not go on with the name.
  lemma ModuleRead(w: string, m: string, rest: string)
    requires Blanks(w) && ModuleName(m) && (rest == "" || !IsModuleChar(rest[0]))
    ensures ModuleAfter(w + (m + rest)) == Some((m, rest))
  {
    hide SpaceSpan, ModuleSpan, IsModuleChar, IsSpace;
    NameChars(m);
    NotBoth(m[0]);
    SpaceSpanOf(w, m + rest);
    ModuleSpanOf(m, rest);
    assert (w + (m + rest))[|w|..] == m + rest;
    assert (m + rest)[..|m|] == m && (m + rest)[|m|..] == rest;
  }

  lemma NameChars(m: string)
    ensures ModuleName(m) <==> m != "" && forall i :: 0 <= i < |m| ==> IsModuleChar(m[i])
  {
  }

  lemma ModuleWritten(s: string) returns (w: string, m: string, rest: string)
    requires ModuleAfter(s).Some? && s[0] == ' '
    ensures ModuleAfter(s) == Some((m, rest)) && s == w + (m + rest)
    ensures Blanks(w) && ModuleName(m) && (rest == "" || !IsModuleChar(rest[0]))
  {
    hide SpaceSpan, ModuleSpan, IsModuleChar, IsSpace, ModuleName;
    SpaceSpanIs(s);
    var sp := SpaceSpan(s);
    var t := s[sp..];
    ModuleSpanIs(t);
    var n := ModuleSpan(t);
    w, m, rest := s[..sp], t[..n], t[n..];
    NameChars(m);
  }

  // A stripped line imports a module exactly when it reads "from m import" or "import m".
  lemma ImportIff(line: string, m: string)
    ensures ImportedModule(line) == Some(m) <==> ModuleName(m) && (FromLine(line, m) || ImportLine(line, m))
  {
    hide ImportedModule, ModuleName;
    if ImportedModule(line) == Some(m) { ImportWritten(line, m); }
    if ModuleName(m) && FromLine(line, m) { FromRead(line, m); }
    if ModuleName(m) && ImportLine(line, m) { ImportRead(line, m); }
  }

  lemma FromRead(line: string, m: string)
    requires ModuleName(m) && FromLine(line, m)
    ensures ImportedModule(line) == Some(m)
  {
    hide ModuleAfter, SpaceSpan, ModuleName, IsModuleChar;
    var w1, w2, tail :| Blanks(w1) && SomeBlanks(w2) && line == "from" + (w1 + (m + (w2 + ("import" + tail))));
    var rest := w2 + ("import" + tail);
    assert line[4..] == w1 + (m + rest) && line[..5] == "from ";
    NotBoth(w2[0]);
    assert rest[0] == w2[0];
    ModuleRead(w1, m, rest);
    SpaceSpanOf(w2, "import" + tail);
    assert rest[|w2|..] == "import" + tail;
  }

  lemma ImportRead(line: string, m: string)
    requires ModuleName(m) && ImportLine(line, m)
    ensures ImportedModule(line) == Some(m)
  {
    hide ModuleAfter, SpaceSpan, ModuleName, IsModuleChar;
    var w1, tail :| Blanks(w1) && (tail == "" || !IsModuleChar(tail[0])) && line == "import" + (w1 + (m + tail));
    assert line[6..] == w1 + (m + tail) && line[..7] == "import " && line[0] == 'i';
    ModuleRead(w1, m, tail);
  }

  lemma ImportWritten(line: string, m: string)
    requires ImportedModule(line) == Some(m)
    ensures ModuleName(m) && (FromLine(line, m) || ImportLine(line, m))
  {
    hide ModuleAfter, SpaceSpan, ModuleName, IsModuleChar;
    if StartsWith(line, "from ") {
      var w1, m', rest := ModuleWritten(line[4..]);
      SpaceSpanIs(rest);
      var n := SpaceSpan(rest);
      var w2, tail := rest[..n], rest[n..][6..];
      assert rest[n..] == "import" + tail;
      assert rest == w2 + ("import" + tail);
      assert line == "from" + line[4..];
      assert line == "from" + (w1 + (m + (w2 + ("import" + tail))));
      assert Blanks(w1) && SomeBlanks(w2);
    } else {
      var w1, m', tail := ModuleWritten(line[6..]);
      assert line == "import" + line[6..];
      assert ImportLine(line, m);
    }
  }

  // The file of a module: its dots are directories.
  lemma ModuleFile(m: string)
    ensures var path := ModulePath(m);
            && |path| == |m| + 3 && path[|m|..] == ".py"
            && forall i :: 0 <= i < |m| ==> path[i] == if m[i] == '.' then '/' else m[i]
  {
  }

  // A Python file: a name before ".py" in any case.
  lemma PythonIff(parts: seq<string>)
    ensures IsPython(parts)
            <==> parts != []
                 && exists stem, p, y :: stem != "" && parts[|parts| - 1] == stem + ['.', p, y]
                                         && (p == 'p' || p == 'P') && (y == 'y' || y == 'Y')
  {
    if IsPython(parts) {
      var name := parts[|parts| - 1];
      var stem := name[..|name| - 3];
      assert name == stem + ['.', name[|name| - 2], name[|name| - 1]];
    }
  }

  // ---------- where a run stops ----------

  // A run that leaves candidates over has as many snippets as files are allowed, or the next snippet
  // would go over the character budget; and it goes over no such candidate.
  lemma StopsIff(w: World, initial: seq<Candidate>, n: nat)
    requires RunsTo(w, initial, n)
    ensures forall k :: 0 <= k <= n && k < |Grow(w, initial, k)| ==>
              var cands := Grow(w, initial, k);
              var es, next := Collect(w, cands[..k]), Look(w, cands[k]);
              k == n <==> |es| >= w.max.files || (next.Some? && TotalChars(es) + |next.value.content| > w.max.chars)
  {
    hide Grow, Collect, Look, TotalChars;
    forall k | 0 <= k <= n && k < |Grow(w, initial, k)|
      ensures var cands := Grow(w, initial, k);
              var es, next := Collect(w, cands[..k]), Look(w, cands[k]);
              k == n <==> |es| >= w.max.files || (next.Some? && TotalChars(es) + |next.value.content| > w.max.chars)
    {
      assert k < n ==> Passes(w, initial, k);
    }
  }

  // The characters of a run are those of its snippets.
  lemma {:induction false} CharsAdd(es: seq<Evidence>, e: Evidence)
    ensures TotalChars([]) == 0 && TotalChars(es + [e]) == TotalChars(es) + |e.content|
  {
    AddChars(es, e);
  }
}
