// Which characters count as whitespace, line ends and parts of control sequences, and what cutting
// a text into lines does, told by the characters themselves.
module TextTheorems {
  import opened Common
  import opened Text
  import LogParser
  import DiffViewer

  // str.isspace
  lemma SpacesAre(c: char)
    ensures IsSpace(c)
            <==> c in {'\t', '\n', '\U{b}', '\U{c}', '\r', '\U{1c}', '\U{1d}', '\U{1e}', '\U{1f}', ' ', '\U{85}', '\U{a0}',
                       '\U{1680}', '\U{2000}', '\U{2001}', '\U{2002}', '\U{2003}', '\U{2004}', '\U{2005}', '\U{2006}',
                       '\U{2007}', '\U{2008}', '\U{2009}', '\U{200a}', '\U{2028}', '\U{2029}', '\U{202f}', '\U{205f}',
                       '\U{3000}'}
  {
  }

  // The ends of lines for str.splitlines.
  lemma BreaksAre(c: char)
    ensures IsBreak(c)
            <==> c in {'\n', '\U{b}', '\U{c}', '\r', '\U{1c}', '\U{1d}', '\U{1e}', '\U{85}', '\U{2028}', '\U{2029}'}
  {
  }

  // The whitespace that String.prototype.trim removes.
  lemma JsSpacesAre(c: char)
    ensures DiffViewer.IsJsSpace(c)
            <==> c in {'\t', '\n', '\U{b}', '\U{c}', '\r', ' ', '\U{a0}', '\U{1680}', '\U{2000}', '\U{2001}', '\U{2002}',
                       '\U{2003}', '\U{2004}', '\U{2005}', '\U{2006}', '\U{2007}', '\U{2008}', '\U{2009}', '\U{200a}',
                       '\U{2028}', '\U{2029}', '\U{202f}', '\U{205f}', '\U{3000}', '\U{feff}'}
  {
  }

  lemma JsBlankIff(s: string)
    ensures DiffViewer.JsBlank(s) <==> forall c :: c in s ==> DiffViewer.IsJsSpace(c)
  {
    hide DiffViewer.IsJsSpace;
  }

  // ---------- lines ----------

  // A line without a line end, then a line end, "\r\n" being one, then the rest.
  lemma CutLine(a: string, end: string, b: string)
    requires OneLine(a) && (end == "\r\n" || (|end| == 1 && IsBreak(end[0]) && !(end == "\r" && b != "" && b[0] == '\n')))
    ensures SplitLines(a + end + b) == [a] + SplitLines(b)
  {
    hide IsBreak, LineLength, SplitLines;
    var s := a + end + b;
    FirstLine(a, end + b);
    assert s == a + (end + b);
    assert s[|a|..] == end + b;
    assert BreakLength(end + b) == |end| by {
      if end == "\r\n" {
        assert (end + b)[0] == '\r' && (end + b)[1] == '\n';
      } else {
        assert (end + b)[0] == end[0] && end == [end[0]];
        assert |end + b| > 1 ==> (end + b)[1] == b[0];
      }
    }
    assert s[|a| + |end|..] == b && s[..|a|] == a;
    CutHere(s, |a|, |end|);
  }

  lemma CutHere(s: string, n: nat, k: nat)
    requires n < |s| && LineLength(s) == n && BreakLength(s[n..]) == k && n + k <= |s|
    ensures SplitLines(s) == [s[..n]] + SplitLines(s[n + k..])
  {
    hide LineLength, IsBreak;
  }

  lemma {:induction false} FirstLine(a: string, rest: string)
    requires OneLine(a) && rest != "" && (rest[0] == '\r' || IsBreak(rest[0]))
    ensures LineLength(a + rest) == |a|
  {
    if a == "" {
      assert a + rest == rest;
    } else {
      assert (a + rest)[1..] == a[1..] + rest;
      FirstLine(a[1..], rest);
    }
  }

  // The last line needs no end, and no line follows the last end.
  lemma LastLine(a: string)
    requires OneLine(a)
    ensures SplitLines(a) == if a == "" then [] else [a]
  {
    if a != "" { WholeLine(a); }
  }

  lemma {:induction false} WholeLine(a: string)
    requires OneLine(a)
    ensures LineLength(a) == |a|
  {
    if a != "" { WholeLine(a[1..]); }
  }

  // ---------- logs ----------

  // ECMA-48 section 5.4: columns 3, 2, and 4 to 7 of the code table.
  lemma ControlBytes(c: char)
    ensures LogParser.IsParameter(c) <==> 0x30 <= c as int <= 0x3f
    ensures LogParser.IsIntermediate(c) <==> 0x20 <= c as int <= 0x2f
    ensures LogParser.IsFinal(c) <==> 0x40 <= c as int <= 0x7e
    ensures LogParser.ESC as int == 0x1b
  {
  }

  // "\r\n" and a lone "\r" become "\n", and nothing else changes.
  lemma {:induction false} UnixEndsKeep(a: string, b: string)
    requires '\r' !in a
    ensures LogParser.UnixEnds(a + b) == a + LogParser.UnixEnds(b) && LogParser.UnixEnds(a) == a
  {
    if a == "" {
      assert a + b == b;
    } else {
      assert (a + b)[1..] == a[1..] + b;
      UnixEndsKeep(a[1..], b);
      assert a == [a[0]] + a[1..];
    }
  }

  lemma UnixEndsReplace(a: string, b: string)
    requires '\r' !in a
    ensures LogParser.UnixEnds(a + "\r\n" + b) == a + "\n" + LogParser.UnixEnds(b)
    ensures b == "" || b[0] != '\n' ==> LogParser.UnixEnds(a + "\r" + b) == a + "\n" + LogParser.UnixEnds(b)
  {
    hide LogParser.UnixEnds;
    OneEnd(b);
    UnixEndsKeep(a, "\r\n" + b);
    UnixEndsKeep(a, "\r" + b);
    assert a + "\r\n" + b == a + ("\r\n" + b) && a + "\r" + b == a + ("\r" + b);
    assert a + ("\n" + LogParser.UnixEnds(b)) == a + "\n" + LogParser.UnixEnds(b);
  }

  lemma OneEnd(b: string)
    ensures LogParser.UnixEnds("\r\n" + b) == "\n" + LogParser.UnixEnds(b)
    ensures b == "" || b[0] != '\n' ==> LogParser.UnixEnds("\r" + b) == "\n" + LogParser.UnixEnds(b)
  {
    assert ("\r\n" + b)[2..] == b && ("\r" + b)[1..] == b;
  }
}
