// Exactly which errors the diff parser reports, with their lines, in order.
module DiffFaults {
  import opened Common
  import opened Text
  import opened DiffParser
  import opened DiffTheorems

  // Read line by line: target is the path of the nearest preceding header pair ("" before the first),
  // inHunk says whether an accepted "@@" line came after it and nothing was refused since, and at lines
  // are read already.
  function Faults(lines: seq<string>, target: string, inHunk: bool, at: nat): seq<Error>
    decreases |lines|
  {
    if lines == [] then []
    else if StartsWith(lines[0], "--- ") then
      if |lines| > 1 && StartsWith(lines[1], "+++ ") then
        Faults(lines[2..], TargetOf(Strip(lines[0][4..]), Strip(lines[1][4..])), false, at + 2)
      else [MissingNewPath(at + 1)] + Faults(lines[1..], target, false, at + 1)
    else if StartsWith(lines[0], "@@") then
      if target == "" then [HunkBeforeFile(at + 1)] + Faults(lines[1..], target, false, at + 1)
      else if ParseHeader(lines[0]).None? then [BadHeader(at + 1, lines[0])] + Faults(lines[1..], target, false, at + 1)
      else Faults(lines[1..], target, true, at + 1)
    else
      (if inHunk && lines[0] != "" && lines[0][0] !in {' ', '+', '-', '\\'} then [BadPrefix(at + 1, lines[0])] else [])
      + Faults(lines[1..], target, inHunk, at + 1)
  }

  // Where a body ends it does not matter that it was one.
  lemma EndFaults(lines: seq<string>, target: string, at: nat)
    requires Ends(lines)
    ensures Faults(lines, target, true, at) == Faults(lines, target, false, at)
    ensures BodyErrors(lines, at) == [] && HunkSpan(lines) == 0
  {
    hide ParseHeader, TargetOf;
  }

  function PrefixFault(l: string, at: nat): seq<Error> {
    if l == "" || BodyPrefix(l) then [] else [BadPrefix(at + 1, l)]
  }

  lemma BodyFaultsStep(lines: seq<string>, target: string, at: nat)
    requires !Ends(lines)
    ensures Faults(lines, target, true, at) == PrefixFault(lines[0], at) + Faults(lines[1..], target, true, at + 1)
    ensures BodyErrors(lines, at) == PrefixFault(lines[0], at) + BodyErrors(lines[1..], at + 1)
    ensures HunkSpan(lines) == 1 + HunkSpan(lines[1..])
  {
    hide ParseHeader, TargetOf;
    BodyStep(lines, at);
  }

  lemma {:induction false} BodyFaults(lines: seq<string>, target: string, at: nat)
    ensures Faults(lines, target, true, at)
            == BodyErrors(lines, at) + Faults(lines[HunkSpan(lines)..], target, false, at + HunkSpan(lines))
    decreases |lines|
  {
    hide Faults, BodyErrors, HunkSpan, PrefixFault;
    if Ends(lines) {
      EndFaults(lines, target, at);
      assert lines[0..] == lines;
    } else {
      var rest := lines[1..];
      BodyFaultsStep(lines, target, at);
      BodyFaults(rest, target, at + 1);
      assert rest[HunkSpan(rest)..] == lines[HunkSpan(lines)..];
      PlusAssociates(PrefixFault(lines[0], at), BodyErrors(rest, at + 1),
                     Faults(lines[HunkSpan(lines)..], target, false, at + HunkSpan(lines)));
    }
  }

  lemma HunkFaults(lines: seq<string>, target: string, at: nat)
    requires lines != [] && HunkLine(lines[0]) && !FileLine(lines[0]) && target != "" && ParseHeader(lines[0]).Some?
    ensures var n := 1 + HunkSpan(lines[1..]);
            Faults(lines, target, false, at) == OneHunk(lines, at).errors + Faults(lines[n..], target, false, at + n)
  {
    hide ParseHeader, TargetOf, BodyLines, BodyErrors, HunkSpan;
    BodyFaults(lines[1..], target, at + 1);
    assert lines[1..][HunkSpan(lines[1..])..] == lines[1 + HunkSpan(lines[1..])..];
  }

  lemma SkippedFaults(lines: seq<string>, h: Head, at: nat)
    requires lines != [] && !FileLine(lines[0]) && !(HunkLine(lines[0]) && Active(h) && ParseHeader(lines[0]).Some?)
    ensures Faults(lines, Target(h), false, at)
            == Skipped(lines[0], Active(h), at).errors + Faults(lines[1..], Target(h), false, at + 1)
  {
    hide ParseHeader, TargetOf;
  }

  lemma {:induction false} FileFaults(lines: seq<string>, h: Head, at: nat)
    ensures Faults(lines, Target(h), false, at)
            == ParseBody(lines, Active(h), at).errors + Faults(lines[FileSpan(lines)..], Target(h), false, at + FileSpan(lines))
    decreases |lines|
  {
    hide ParseHeader, ParseBody, Faults, OneHunk, Skipped, FileSpan, HunkSpan;
    BodyUnfold(lines, Active(h), at);
    if lines == [] || FileLine(lines[0]) {
      assert lines[0..] == lines;
    } else if HunkLine(lines[0]) && Active(h) && ParseHeader(lines[0]).Some? {
      var n := 1 + HunkSpan(lines[1..]);
      HunkFaults(lines, Target(h), at);
      FileFaults(lines[n..], h, at + n);
      FileSpanAfter(lines, n);
      PlusAssociates(OneHunk(lines, at).errors, ParseBody(lines[n..], Active(h), at + n).errors,
                     Faults(lines[FileSpan(lines)..], Target(h), false, at + FileSpan(lines)));
    } else {
      SkippedFaults(lines, h, at);
      FileFaults(lines[1..], h, at + 1);
      FileSpanPast(lines);
      FileSpanAfter(lines, 1);
      PlusAssociates(Skipped(lines[0], Active(h), at).errors, ParseBody(lines[1..], Active(h), at + 1).errors,
                     Faults(lines[FileSpan(lines)..], Target(h), false, at + FileSpan(lines)));
    }
  }

  lemma FinishErrors(h: Head, hunks: seq<Hunk>, shown: seq<string>, lines: seq<string>, at: nat)
    ensures FileSpan(lines) == |lines| || FileLine(lines[FileSpan(lines)])
    ensures Finish(h, hunks, shown, lines, at).errors
            == ParseBody(lines, Active(h), at).errors
               + ParseFiles(h, lines[FileSpan(lines)..], at + FileSpan(lines)).errors
  {
    hide ParseBody, ParseFiles;
  }

  // A file and the rest, once its head is read.
  lemma {:induction false} FinishFaults(h: Head, hunks: seq<Hunk>, shown: seq<string>, lines: seq<string>, at: nat)
    ensures Finish(h, hunks, shown, lines, at).errors == Faults(lines, Target(h), false, at)
    decreases |lines|, 1
  {
    hide ParseBody, ParseFiles, Finish, Faults, FileSpan, Active, Target;
    FinishErrors(h, hunks, shown, lines, at);
    FileFaults(lines, h, at);
    FilesFaults(h, lines[FileSpan(lines)..], at + FileSpan(lines));
  }

  lemma {:induction false} FilesFaults(h: Head, lines: seq<string>, at: nat)
    requires lines == [] || FileLine(lines[0])
    ensures ParseFiles(h, lines, at).errors == Faults(lines, Target(h), false, at)
    decreases |lines|, 0
  {
    hide ParseFiles, Finish, TargetOf, ParseHeader;
    if lines == [] {
      NoFiles(h, at);
    } else {
      FileHead(h, lines, at);
      if |lines| > 1 && NewPathLine(lines[1]) {
        FinishFaults(HeadOf(lines[0], lines[1]), [], [lines[0], lines[1]], lines[2..], at + 2);
      } else {
        FinishFaults(h.(oldPath := Some(Strip(lines[0][4..]))), [], [lines[0]], lines[1..], at + 1);
      }
    }
  }

  // The errors of a parse are exactly the faults of its lines.
  lemma ErrorsAreFaults(lines: seq<string>)
    ensures Parse(lines).errors == Faults(lines, "", false, 0)
  {
    hide Finish, Faults;
    FinishFaults(Head(None, None, None), [], [], lines, 0);
  }
}
