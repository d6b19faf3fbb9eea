// CodebaseContextResolver.resolve_context: reading source windows around the places a failure names.
// The loop appends the local imports it finds to the very list it goes through, under three budgets.
module ContextResolver {
  import opened Common
  import opened Text
  import opened Paths

  datatype Limits = Limits(window: nat, fileSize: nat, files: nat, chars: nat)

  // A regular file; content None: looking at it or reading it raises.  Lines keep their ends.
  datatype File = File(size: nat, content: Option<seq<string>>)

  // The checkout of one commit, by resolved path components.
  datatype World = World(root: seq<string>, files: map<seq<string>, File>, repo: string, max: Limits)

  datatype Candidate = Candidate(path: string, line: Option<int>)

  // Line numbers count from 1; both ends belong to the window.
  datatype Evidence = Evidence(path: string, start: nat, end: nat, target: Option<int>, content: string, total: nat)

  datatype Status = Unavailable | Empty | Success | Partial

  datatype Package = Package(evidences: seq<Evidence>, status: Status)

  // ---------- one candidate ----------

  // The file behind a path below the root.
  function FileAt(w: World, path: string): Option<File> {
    var safe := SafePath(w.root, path);
    if safe.Some? && safe.value in w.files then Some(w.files[safe.value]) else None
  }

  // Its lines, unless it is too large, unreadable or empty.
  function LinesAt(w: World, path: string): Option<seq<string>> {
    var f := FileAt(w, path);
    if f.None? || f.value.size > w.max.fileSize || f.value.content.None? || f.value.content.value == [] then None
    else f.value.content
  }

  predicate ValidTarget(line: Option<int>, total: nat) { line.Some? && 1 <= line.value <= total }

  function WindowStart(line: Option<int>, total: nat, window: nat): nat {
    if ValidTarget(line, total) && line.value - window / 2 > 1 then line.value - window / 2 else 1
  }

  function WindowEnd(line: Option<int>, total: nat, window: nat): nat {
    var end := if ValidTarget(line, total) then line.value + window / 2 else window;
    if total < end then total else end
  }

  // rstrip("\r\n")
  function ChompAll(s: string): string {
    if s != "" && (s[|s| - 1] == '\n' || s[|s| - 1] == '\r') then ChompAll(s[..|s| - 1]) else s
  }

  function Spaces(n: nat): (s: string)
    ensures |s| == n
  {
    if n == 0 then "" else " " + Spaces(n - 1)
  }

  // f"{n:4d}"
  function Padded(n: nat): string { var d := Decimal(n); if |d| < 4 then Spaces(4 - |d|) + d else d }

  function NumberedLine(lines: seq<string>, n: nat, target: Option<int>): string
    requires 1 <= n <= |lines|
  {
    Padded(n) + (if target == Some(n) then " >" else "  ") + " | " + ChompAll(lines[n - 1])
  }

  function Numbered(lines: seq<string>, start: nat, end: nat, target: Option<int>): (shown: seq<string>)
    requires 1 <= start && end <= |lines|
    decreases end
  {
    if end < start then [] else Numbered(lines, start, end - 1, target) + [NumberedLine(lines, end, target)]
  }

  // The snippet a candidate yields, if its file can be shown.
  function Look(w: World, c: Candidate): (e: Option<Evidence>)
    ensures e.Some? <==> LinesAt(w, Normalize(c.path, w.repo)).Some?
  {
    var path := Normalize(c.path, w.repo);
    var lines := LinesAt(w, path);
    if lines.None? then None
    else
      var start, end := WindowStart(c.line, |lines.value|, w.max.window), WindowEnd(c.line, |lines.value|, w.max.window);
      Some(Evidence(path, start, end, c.line, Join(Numbered(lines.value, start, end, c.line)), |lines.value|))
  }

  // ---------- imports ----------

  predicate IsModuleChar(c: char) { IsDigit(c) || 'a' <= c <= 'z' || 'A' <= c <= 'Z' || c == '_' || c == '.' }

  function ModuleSpan(s: string): (n: nat)
    ensures n <= |s|
  {
    if s == "" || !IsModuleChar(s[0]) then 0 else 1 + ModuleSpan(s[1..])
  }

  // \s+([a-zA-Z0-9_\.]+) : the module and what follows it.
  function ModuleAfter(s: string): Option<(string, string)> {
    var sp := SpaceSpan(s);
    var n := ModuleSpan(s[sp..]);
    if sp == 0 || n == 0 then None else Some((s[sp..][..n], s[sp..][n..]))
  }

  // The module that a stripped line imports.
  function ImportedModule(line: string): Option<string> {
    if StartsWith(line, "from ") then
      var m := ModuleAfter(line[4..]);
      if m.Some? && SpaceSpan(m.value.1) > 0 && StartsWith(m.value.1[SpaceSpan(m.value.1)..], "import")
      then Some(m.value.0) else None
    else if StartsWith(line, "import ") then
      var m := ModuleAfter(line[6..]);
      if m.Some? then Some(m.value.0) else None
    else None
  }

  function ModulePath(name: string): string {
    seq(|name|, i requires 0 <= i < |name| => if name[i] == '.' then '/' else name[i]) + ".py"
  }

  // suffix.lower() == ".py"
  predicate IsPython(parts: seq<string>) {
    parts != []
    && var name := parts[|parts| - 1];
       |name| > 3 && name[|name| - 3] == '.' && name[|name| - 2] in {'p', 'P'} && name[|name| - 1] in {'y', 'Y'}
  }

  predicate Listed(cands: seq<Candidate>, path: string) { exists i :: 0 <= i < |cands| && cands[i].path == path }

  // A line's import becomes a candidate if it is a local file not listed yet.
  function AddImport(w: World, cands: seq<Candidate>, line: string): seq<Candidate> {
    var m := ImportedModule(Strip(line));
    if m.Some? && !Listed(cands, ModulePath(m.value)) && FileAt(w, ModulePath(m.value)).Some?
    then cands + [Candidate(ModulePath(m.value), None)] else cands
  }

  function AddImports(w: World, cands: seq<Candidate>, lines: seq<string>): seq<Candidate> {
    if lines == [] then cands
    else AddImport(w, AddImports(w, cands, lines[..|lines| - 1]), lines[|lines| - 1])
  }

  // The list after candidate c has yielded its snippet, or has yielded none.
  function Discover(w: World, cands: seq<Candidate>, c: Candidate): seq<Candidate> {
    var path := Normalize(c.path, w.repo);
    var lines := LinesAt(w, path);
    if lines.Some? && IsPython(SafePath(w.root, path).value) then AddImports(w, cands, lines.value) else cands
  }

  lemma {:induction false} AddImportsExtends(w: World, cands: seq<Candidate>, lines: seq<string>)
    ensures cands <= AddImports(w, cands, lines)
  {
    hide ImportedModule, ModulePath, FileAt, Listed, Strip;
    if lines != [] { AddImportsExtends(w, cands, lines[..|lines| - 1]); }
  }

  lemma DiscoverExtends(w: World, cands: seq<Candidate>, c: Candidate)
    ensures cands <= Discover(w, cands, c)
  {
    hide LinesAt, AddImports, IsPython, Normalize, SafePath;
    if Discover(w, cands, c) != cands {
      AddImportsExtends(w, cands, LinesAt(w, Normalize(c.path, w.repo)).value);
    }
  }

  // ---------- the whole run ----------

  // The candidates once the first n of them are done.
  function Grow(w: World, initial: seq<Candidate>, n: nat): (cands: seq<Candidate>) {
    if n == 0 then initial
    else
      var before := Grow(w, initial, n - 1);
      if n - 1 < |before| then Discover(w, before, before[n - 1]) else before
  }

  // The snippets of some candidates, in order.
  function Collect(w: World, cands: seq<Candidate>): (es: seq<Evidence>)
    ensures |es| <= |cands|
  {
    if cands == [] then []
    else
      var last := Look(w, cands[|cands| - 1]);
      Collect(w, cands[..|cands| - 1]) + if last.Some? then [last.value] else []
  }

  function TotalChars(es: seq<Evidence>): nat {
    if es == [] then 0 else TotalChars(es[..|es| - 1]) + |es[|es| - 1].content|
  }

  // The run does not get past the next candidate: file budget or character budget.
  predicate OutOfBudget(w: World, es: seq<Evidence>, next: Candidate) {
    |es| >= w.max.files
    || (Look(w, next).Some? && TotalChars(es) + |Look(w, next).value.content| > w.max.chars)
  }

  // n candidates are done, one after the other, and nothing more.
  ghost predicate RunsTo(w: World, initial: seq<Candidate>, n: nat) {
    && n <= |Grow(w, initial, n)|
    && (forall k :: 0 <= k < n ==> Passes(w, initial, k))
    && (n < |Grow(w, initial, n)| ==> !Passes(w, initial, n))
  }

  ghost predicate Passes(w: World, initial: seq<Candidate>, k: nat) {
    var cands := Grow(w, initial, k);
    k < |cands| && !OutOfBudget(w, Collect(w, cands[..k]), cands[k])
  }

  function StatusOf(found: nat, candidates: nat): Status {
    if found == 0 then Empty else if found < candidates then Partial else Success
  }

  // ---------- resolve_context ----------

  // checkout None: the commit could not be checked out.  done counts the candidates gone through.
  method ResolveContext(checkout: Option<World>, signalFile: Option<string>, signalLine: Option<int>,
                        frames: seq<(string, int)>)
    returns (package: Package, ghost initial: seq<Candidate>, ghost done: nat)
    ensures initial == Initial(signalFile, signalLine, frames)
    ensures checkout.None? ==> package == Package([], Unavailable)
    ensures checkout.Some? ==>
              var w := checkout.value;
              && RunsTo(w, initial, done)
              && package.evidences == Collect(w, Grow(w, initial, done)[..done])
              && package.status == StatusOf(|package.evidences|, |Grow(w, initial, done)|)
  {
    hide Progress, RunsTo, Collect, Grow, OutOfBudget, Discover, Look, Initial;
    var candidates := InitialCandidates(signalFile, signalLine, frames);
    initial, done := candidates, 0;
    if checkout.None? {
      return Package([], Unavailable), initial, done;
    }
    var w := checkout.value;
    var evidences: seq<Evidence>, total, i, stop := [], 0, 0, false;
    Start(w, initial);
    if candidates == [] {
      AllDone(w, initial, 0, [], []);
      return Package([], Empty), initial, done;
    }
    while i < |candidates| && !stop
      invariant i <= |candidates| && Progress(w, initial, i, candidates, evidences) && total == TotalChars(evidences)
      invariant stop ==> RunsTo(w, initial, i)
      invariant |evidences| <= w.max.files
      decreases !stop, w.max.files - |evidences|, |candidates| - i
    {
      Budget(w, evidences, candidates[i]);
      if |evidences| >= w.max.files {
        Stopped(w, initial, i, candidates, evidences);
        stop := true;
      } else {
        var found, grown := ReadCandidate(w, candidates[i], candidates);
        if found.Some? && total + |found.value.content| > w.max.chars {
          Stopped(w, initial, i, candidates, evidences);
          stop := true;
        } else {
          StepOver(w, initial, i, candidates, evidences, grown);
          candidates := grown;
          i := i + 1;
          if found.Some? {
            AddChars(evidences, found.value);
            evidences := evidences + [found.value];
            total := total + |found.value.content|;
          }
        }
      }
    }
    done := i;
    if i == |candidates| { AllDone(w, initial, i, candidates, evidences); }
    Arrived(w, initial, i, candidates, evidences);
    package := Package(evidences, if evidences == [] then Empty else if |evidences| < |candidates| then Partial else Success);
  }

  // The state of the loop at candidate i.
  ghost predicate Progress(w: World, initial: seq<Candidate>, i: nat, cands: seq<Candidate>, es: seq<Evidence>) {
    && cands == Grow(w, initial, i) && i <= |cands| && es == Collect(w, cands[..i])
    && forall k :: 0 <= k < i ==> Passes(w, initial, k)
  }

  lemma Start(w: World, initial: seq<Candidate>)
    ensures Progress(w, initial, 0, initial, []) && TotalChars([]) == 0
  {
    assert initial[..0] == [];
  }

  lemma AllDone(w: World, initial: seq<Candidate>, i: nat, cands: seq<Candidate>, es: seq<Evidence>)
    requires Progress(w, initial, i, cands, es) && i == |cands|
    ensures RunsTo(w, initial, i)
    ensures cands == Grow(w, initial, i) && es == Collect(w, cands[..i])
  {
    hide Grow, Collect, Passes;
  }

  lemma Arrived(w: World, initial: seq<Candidate>, i: nat, cands: seq<Candidate>, es: seq<Evidence>)
    requires Progress(w, initial, i, cands, es)
    ensures cands == Grow(w, initial, i) && i <= |cands| && es == Collect(w, cands[..i])
  {
    hide Grow, Collect, Passes;
  }

  lemma Stopped(w: World, initial: seq<Candidate>, i: nat, cands: seq<Candidate>, es: seq<Evidence>)
    requires Progress(w, initial, i, cands, es) && i < |cands| && OutOfBudget(w, es, cands[i])
    ensures RunsTo(w, initial, i)
  {
    hide Grow, Collect, OutOfBudget;
  }

  lemma Budget(w: World, es: seq<Evidence>, c: Candidate)
    ensures OutOfBudget(w, es, c) <==>
              |es| >= w.max.files || (Look(w, c).Some? && TotalChars(es) + |Look(w, c).value.content| > w.max.chars)
  {
  }

  lemma StepOver(w: World, initial: seq<Candidate>, i: nat, cands: seq<Candidate>, es: seq<Evidence>, grown: seq<Candidate>)
    requires Progress(w, initial, i, cands, es) && i < |cands| && !OutOfBudget(w, es, cands[i])
    requires grown == Discover(w, cands, cands[i])
    ensures Progress(w, initial, i + 1, grown,
               es + if Look(w, cands[i]).Some? then [Look(w, cands[i]).value] else [])
    ensures es + [] == es && (Look(w, cands[i]).None? ==> grown == cands)
  {
    hide Discover, Look, OutOfBudget, Grow, Collect, Passes;
    NothingFound(w, cands, cands[i]);
    GrowNext(w, initial, i);
    NextCollected(w, cands, grown, i);
    PassesAt(w, initial, i);
  }

  lemma PassesAt(w: World, initial: seq<Candidate>, i: nat)
    ensures var cands := Grow(w, initial, i);
            Passes(w, initial, i) <==> i < |cands| && !OutOfBudget(w, Collect(w, cands[..i]), cands[i])
  {
  }

  lemma GrowNext(w: World, initial: seq<Candidate>, i: nat)
    requires i < |Grow(w, initial, i)|
    ensures Grow(w, initial, i + 1) == Discover(w, Grow(w, initial, i), Grow(w, initial, i)[i])
    ensures Grow(w, initial, i) <= Grow(w, initial, i + 1)
  {
    hide Discover;
    DiscoverExtends(w, Grow(w, initial, i), Grow(w, initial, i)[i]);
  }

  lemma NextCollected(w: World, before: seq<Candidate>, grown: seq<Candidate>, i: nat)
    requires i < |before| && before <= grown
    ensures Collect(w, grown[..i + 1])
            == Collect(w, before[..i]) + if Look(w, before[i]).Some? then [Look(w, before[i]).value] else []
  {
    hide Look;
    assert grown[..i + 1][..i] == before[..i];
  }

  lemma NothingFound(w: World, cands: seq<Candidate>, c: Candidate)
    ensures Look(w, c).None? ==> Discover(w, cands, c) == cands
  {
  }

  lemma AddChars(es: seq<Evidence>, e: Evidence)
    ensures TotalChars(es + [e]) == TotalChars(es) + |e.content|
  {
    assert (es + [e])[..|es|] == es;
  }

  // The places that the frames name, in order.
  function FramePlaces(frames: seq<(string, int)>): seq<Candidate> {
    if frames == [] then []
    else
      var last := frames[|frames| - 1];
      FramePlaces(frames[..|frames| - 1]) + if last.0 == "" then [] else [Candidate(last.0, Some(last.1))]
  }

  function SignalPlace(file: Option<string>, line: Option<int>): seq<Candidate> {
    if file.Some? && file.value != "" then [Candidate(file.value, line)] else []
  }

  // The signal's own place, then the frames' places, each where it comes first.
  function Initial(signalFile: Option<string>, signalLine: Option<int>, frames: seq<(string, int)>): seq<Candidate> {
    Distinct(SignalPlace(signalFile, signalLine) + FramePlaces(frames))
  }

  // Exactly the places named, each once, in the order in which they are named first.
  ghost predicate InOrder(cands: seq<Candidate>, places: seq<Candidate>) {
    && NoDuplicates(cands) && (forall c :: c in cands <==> c in places)
    && forall i, j :: 0 <= i < j < |cands| ==> FirstAt(places, cands[i]) < FirstAt(places, cands[j])
  }

  lemma DistinctIsInOrder(places: seq<Candidate>)
    ensures InOrder(Distinct(places), places)
  {
    hide Distinct, FirstAt;
    var d := Distinct(places);
    forall i, j | 0 <= i < j < |d| ensures FirstAt(places, d[i]) < FirstAt(places, d[j]) {
      DistinctInOrder(places, i, j);
    }
  }

  method InitialCandidates(signalFile: Option<string>, signalLine: Option<int>, frames: seq<(string, int)>)
    returns (cands: seq<Candidate>)
    ensures cands == Initial(signalFile, signalLine, frames)
    ensures InOrder(cands, SignalPlace(signalFile, signalLine) + FramePlaces(frames))
  {
    hide Distinct, InOrder, FramePlaces;
    ghost var first := SignalPlace(signalFile, signalLine);
    cands := [];
    if signalFile.Some? && signalFile.value != "" {
      cands := [Candidate(signalFile.value, signalLine)];
    }
    StartPlaces(first, frames);
    var i := 0;
    while i < |frames|
      invariant 0 <= i <= |frames| && cands == Distinct(first + FramePlaces(frames[..i]))
    {
      NextPlace(first, frames, i);
      var c := Candidate(frames[i].0, Some(frames[i].1));
      if frames[i].0 != "" && c !in cands {
        cands := cands + [c];
      }
      i := i + 1;
    }
    assert frames[..i] == frames;
    DistinctIsInOrder(first + FramePlaces(frames));
  }

  lemma StartPlaces(first: seq<Candidate>, frames: seq<(string, int)>)
    requires |first| <= 1
    ensures Distinct(first + FramePlaces(frames[..0])) == first
  {
    assert first + FramePlaces(frames[..0]) == first;
    if |first| == 1 { assert Distinct(first[..0]) == []; }
  }

  lemma NextPlace(first: seq<Candidate>, frames: seq<(string, int)>, i: nat)
    requires i < |frames|
    ensures var c, d := Candidate(frames[i].0, Some(frames[i].1)), Distinct(first + FramePlaces(frames[..i]));
            Distinct(first + FramePlaces(frames[..i + 1])) == if frames[i].0 == "" || c in d then d else d + [c]
  {
    hide Distinct;
    var c, places := Candidate(frames[i].0, Some(frames[i].1)), FramePlaces(frames[..i]);
    assert frames[..i + 1][..i] == frames[..i];
    if frames[i].0 == "" {
      assert first + (places + []) == first + places;
    } else {
      assert first + (places + [c]) == first + places + [c];
      DistinctNext(first + places, c);
    }
  }

  lemma DistinctNext(places: seq<Candidate>, c: Candidate)
    ensures Distinct(places + [c]) == var d := Distinct(places); if c in d then d else d + [c]
  {
    assert (places + [c])[..|places|] == places;
  }

  // The places named: the signal's file, unless it is missing or empty, with its line, then each frame
  // that names a file, with its line, in order.
  lemma {:induction false} PlacesAre(file: Option<string>, line: Option<int>, frames: seq<(string, int)>, c: Candidate)
    ensures c in SignalPlace(file, line) + FramePlaces(frames)
            <==> (file == Some(c.path) && c.path != "" && c.line == line)
                 || exists i :: 0 <= i < |frames| && Names(frames[i], c)
    ensures |SignalPlace(file, line)| <= 1
  {
    FramesAre(frames, c);
  }

  // The frame names the place.
  predicate Names(frame: (string, int), c: Candidate) {
    c.path != "" && frame.0 == c.path && c.line == Some(frame.1)
  }

  lemma {:induction false} FramesAre(frames: seq<(string, int)>, c: Candidate)
    ensures c in FramePlaces(frames) <==> exists i :: 0 <= i < |frames| && Names(frames[i], c)
  {
    hide Names, FramePlaces;
    if frames != [] {
      var n := |frames| - 1;
      FramesAre(frames[..n], c);
      assert forall i :: 0 <= i < n ==> frames[..n][i] == frames[i];
      LastFrame(frames, c);
    } else {
      NoFrames();
    }
  }

  lemma NoFrames()
    ensures FramePlaces([]) == []
  {
  }

  lemma LastFrame(frames: seq<(string, int)>, c: Candidate)
    requires frames != []
    ensures c in FramePlaces(frames) <==> c in FramePlaces(frames[..|frames| - 1]) || Names(frames[|frames| - 1], c)
  {
    var before := FramePlaces(frames[..|frames| - 1]);
    assert before + [] == before;
  }

  // Path, size, contents, window and imports of one candidate.
  method ReadCandidate(w: World, c: Candidate, cands: seq<Candidate>)
    returns (found: Option<Evidence>, grown: seq<Candidate>)
    ensures found == Look(w, c) && grown == Discover(w, cands, c) && cands <= grown
  {
    hide SafePath, Normalize, AddImports, Numbered, Decimal, Join;
    found, grown := None, cands;
    var path := Normalize(c.path, w.repo);
    var safe := SafePath(w.root, path);
    if safe.None? || safe.value !in w.files {
      return;
    }
    var f := w.files[safe.value];
    if f.size > w.max.fileSize || f.content.None? || f.content.value == [] {
      return;
    }
    var lines := f.content.value;
    var start, end := 1, if |lines| < w.max.window then |lines| else w.max.window;
    if c.line.Some? && 1 <= c.line.value <= |lines| {
      var half := w.max.window / 2;
      start := if c.line.value - half > 1 then c.line.value - half else 1;
      end := if |lines| < c.line.value + half then |lines| else c.line.value + half;
    }
    var content := FormatWindow(lines, start, end, c.line);
    found := Some(Evidence(path, start, end, c.line, content, |lines|));
    if IsPython(safe.value) {
      AddImportsExtends(w, cands, lines);
      grown := DiscoverImports(w, cands, lines);
    }
  }

  method FormatWindow(lines: seq<string>, start: nat, end: nat, target: Option<int>) returns (content: string)
    requires 1 <= start <= end + 1 && end <= |lines|
    ensures content == Join(Numbered(lines, start, end, target))
  {
    hide NumberedLine;
    var shown := [];
    var n := start;
    while n <= end
      invariant start <= n <= end + 1
      invariant shown == Numbered(lines, start, n - 1, target)
    {
      shown := shown + [NumberedLine(lines, n, target)];
      n := n + 1;
    }
    content := Join(shown);
  }

  method DiscoverImports(w: World, cands: seq<Candidate>, lines: seq<string>) returns (grown: seq<Candidate>)
    ensures grown == AddImports(w, cands, lines)
  {
    hide ImportedModule, ModulePath, FileAt, Strip;
    grown := cands;
    var i := 0;
    while i < |lines|
      invariant 0 <= i <= |lines|
      invariant grown == AddImports(w, cands, lines[..i])
    {
      assert lines[..i + 1][..i] == lines[..i];
      var m := ImportedModule(Strip(lines[i]));
      if m.Some? && !Listed(grown, ModulePath(m.value)) && FileAt(w, ModulePath(m.value)).Some? {
        grown := grown + [Candidate(ModulePath(m.value), None)];
      }
      i := i + 1;
    }
    assert lines[..i] == lines;
  }

  // ---------- what a run guarantees ----------

  // The run is determined: there is one place where it can end.
  lemma RunIsUnique(w: World, initial: seq<Candidate>, n: nat, m: nat)
    requires RunsTo(w, initial, n) && RunsTo(w, initial, m)
    ensures n == m
  {
    hide Passes, Grow;
    EndsHere(w, initial, n);
    EndsHere(w, initial, m);
  }

  lemma EndsHere(w: World, initial: seq<Candidate>, n: nat)
    requires RunsTo(w, initial, n)
    ensures !Passes(w, initial, n)
  {
    hide Grow, Collect, OutOfBudget;
  }

  // Both budgets are kept at every point of the run.
  lemma {:induction false} BudgetsAreKept(w: World, initial: seq<Candidate>, n: nat)
    requires forall k :: 0 <= k < n ==> Passes(w, initial, k)
    ensures n <= |Grow(w, initial, n)|
    ensures var es := Collect(w, Grow(w, initial, n)[..n]); |es| <= w.max.files && TotalChars(es) <= w.max.chars
  {
    hide Grow, Collect, Discover, Look;
    if n == 0 {
      Start(w, initial);
    } else {
      var i := n - 1;
      BudgetsAreKept(w, initial, i);
      assert Passes(w, initial, i);
      GrowNext(w, initial, i);
      var before := Grow(w, initial, i);
      NextCollected(w, before, Grow(w, initial, n), i);
      var es := Collect(w, before[..i]);
      if Look(w, before[i]).Some? {
        AddChars(es, Look(w, before[i]).value);
      } else {
        assert es + [] == es;
      }
    }
  }

  // Every snippet comes from a candidate of the run.
  lemma {:induction false} CollectedFrom(w: World, cands: seq<Candidate>, k: nat) returns (i: nat)
    requires k < |Collect(w, cands)|
    ensures i < |cands| && Look(w, cands[i]) == Some(Collect(w, cands)[k])
  {
    hide Look;
    var n := |cands| - 1;
    if k < |Collect(w, cands[..n])| {
      i := CollectedFrom(w, cands[..n], k);
    } else {
      i := n;
    }
  }

  // A snippet lies inside its file, holds the line asked for when the file has it, is no longer than
  // the window allows, and shows a readable file below the root within the size limit.
  lemma WindowIsRight(w: World, c: Candidate)
    requires Look(w, c).Some? && w.max.window >= 1
    ensures var e := Look(w, c).value;
            && 1 <= e.start <= e.end <= e.total && e.end - e.start + 1 <= 2 * (w.max.window / 2) + 1
            && (c.line.Some? && 1 <= c.line.value <= e.total ==> e.start <= c.line.value <= e.end)
            && PlainRelative(e.path) && w.root + RealParts(Split(e.path)) in w.files
            && w.files[w.root + RealParts(Split(e.path))].size <= w.max.fileSize
  {
    hide Normalize, Numbered, Join;
    AcceptedPathsDescend(w.root, Normalize(c.path, w.repo));
  }

  ghost predicate AllFound(w: World, cands: seq<Candidate>) {
    forall i {:trigger Look(w, cands[i])} :: 0 <= i < |cands| ==> Look(w, cands[i]).Some?
  }

  ghost predicate NoneFound(w: World, cands: seq<Candidate>) {
    forall i {:trigger Look(w, cands[i])} :: 0 <= i < |cands| ==> Look(w, cands[i]).None?
  }

  // One snippet for each candidate, in order.
  ghost predicate OneEach(w: World, cands: seq<Candidate>, es: seq<Evidence>) {
    |es| == |cands| && forall i {:trigger Look(w, cands[i])} :: 0 <= i < |cands| ==> Look(w, cands[i]) == Some(es[i])
  }

  lemma AllFoundStep(w: World, cands: seq<Candidate>, last: Candidate)
    ensures AllFound(w, cands + [last]) <==> AllFound(w, cands) && Look(w, last).Some?
  {
    hide Look;
    var all := cands + [last];
    if AllFound(w, all) {
      assert Look(w, all[|cands|]).Some?;
      forall i | 0 <= i < |cands| ensures Look(w, cands[i]).Some? { assert Look(w, all[i]).Some?; }
    }
  }

  lemma NoneFoundStep(w: World, cands: seq<Candidate>, last: Candidate)
    ensures NoneFound(w, cands + [last]) <==> NoneFound(w, cands) && Look(w, last).None?
  {
    hide Look;
    var all := cands + [last];
    if NoneFound(w, all) {
      assert Look(w, all[|cands|]).None?;
      forall i | 0 <= i < |cands| ensures Look(w, cands[i]).None? { assert Look(w, all[i]).None?; }
    }
  }

  lemma OneEachStep(w: World, cands: seq<Candidate>, es: seq<Evidence>, last: Candidate)
    requires OneEach(w, cands, es) && Look(w, last).Some?
    ensures OneEach(w, cands + [last], es + [Look(w, last).value])
  {
    hide Look;
  }

  lemma {:induction false} CollectAll(w: World, cands: seq<Candidate>)
    ensures |Collect(w, cands)| == |cands| <==> AllFound(w, cands)
    ensures AllFound(w, cands) ==> OneEach(w, cands, Collect(w, cands))
    ensures Collect(w, cands) == [] <==> NoneFound(w, cands)
  {
    hide Look, AllFound, NoneFound, OneEach;
    if cands == [] {
      NothingFoundYet(w);
    } else {
      var n := |cands| - 1;
      CollectAll(w, cands[..n]);
      assert cands[..n] + [cands[n]] == cands;
      AllFoundStep(w, cands[..n], cands[n]);
      NoneFoundStep(w, cands[..n], cands[n]);
      if AllFound(w, cands) { OneEachStep(w, cands[..n], Collect(w, cands[..n]), cands[n]); }
    }
  }

  lemma NothingFoundYet(w: World)
    ensures AllFound(w, []) && NoneFound(w, []) && OneEach(w, [], [])
  {
  }

  // "success" means that there were candidates and every one of them, the discovered imports too,
  // produced its snippet; "empty" means that none that was looked at did.
  lemma SuccessIff(w: World, initial: seq<Candidate>, n: nat)
    requires RunsTo(w, initial, n)
    ensures var cands := Grow(w, initial, n);
            var es := Collect(w, cands[..n]);
            && (StatusOf(|es|, |cands|) == Success <==> cands != [] && n == |cands| && AllFound(w, cands))
            && (StatusOf(|es|, |cands|) == Success ==> OneEach(w, cands, es))
            && (StatusOf(|es|, |cands|) == Empty <==> NoneFound(w, cands[..n]))
  {
    hide Grow, Collect, Look, Passes, AllFound, NoneFound, OneEach;
    var cands := Grow(w, initial, n);
    CollectAll(w, cands[..n]);
    if n == |cands| { assert cands[..n] == cands; }
  }

  // So each snippet of a run is the right window of one of its candidates.
  lemma EverySnippetIsRight(w: World, initial: seq<Candidate>, n: nat, k: nat) returns (i: nat)
    requires RunsTo(w, initial, n) && w.max.window >= 1 && k < |Collect(w, Grow(w, initial, n)[..n])|
    ensures i < n && n <= |Grow(w, initial, n)|
    ensures var c, e := Grow(w, initial, n)[i], Collect(w, Grow(w, initial, n)[..n])[k];
            && e.path == Normalize(c.path, w.repo) && e.target == c.line && 1 <= e.start <= e.end <= e.total
            && e.end - e.start + 1 <= 2 * (w.max.window / 2) + 1
            && (c.line.Some? && 1 <= c.line.value <= e.total ==> e.start <= c.line.value <= e.end)
            && PlainRelative(e.path) && w.root + RealParts(Split(e.path)) in w.files
  {
    hide Grow, Collect, Normalize, Numbered, Passes;
    var cands := Grow(w, initial, n)[..n];
    i := CollectedFrom(w, cands, k);
    WindowIsRight(w, cands[i]);
  }

  // ---------- the candidates are closed under imports ----------

  // Line l imports a local file.
  predicate ImportsFile(w: World, line: string, path: string) {
    var m := ImportedModule(Strip(line));
    m.Some? && path == ModulePath(m.value) && FileAt(w, path).Some?
  }

  lemma {:induction false} ListedStays(cands: seq<Candidate>, more: seq<Candidate>, path: string)
    requires cands <= more && Listed(cands, path)
    ensures Listed(more, path)
  {
    var i :| 0 <= i < |cands| && cands[i].path == path;
    assert more[i] == cands[i];
  }

  ghost predicate SomeImports(w: World, lines: seq<string>, path: string) {
    exists k :: 0 <= k < |lines| && ImportsFile(w, lines[k], path)
  }

  // An appended candidate: an imported local file that was not listed before.
  ghost predicate IsAppended(w: World, lines: seq<string>, all: seq<Candidate>, j: nat)
    requires j < |all|
  {
    all[j].line.None? && !Listed(all[..j], all[j].path) && SomeImports(w, lines, all[j].path)
  }

  ghost predicate AllListed(w: World, lines: seq<string>, all: seq<Candidate>) {
    forall path :: SomeImports(w, lines, path) ==> Listed(all, path)
  }

  ghost predicate OnlyAppended(w: World, lines: seq<string>, all: seq<Candidate>, from: nat) {
    forall j {:trigger IsAppended(w, lines, all, j)} :: from <= j < |all| ==> IsAppended(w, lines, all, j)
  }

  lemma SomeImportsStep(w: World, lines: seq<string>, path: string)
    requires lines != []
    ensures SomeImports(w, lines, path)
            <==> SomeImports(w, lines[..|lines| - 1], path) || ImportsFile(w, lines[|lines| - 1], path)
  {
    hide ImportsFile;
    var n := |lines| - 1;
    if SomeImports(w, lines, path) {
      var k :| 0 <= k < |lines| && ImportsFile(w, lines[k], path);
      assert k < n ==> lines[..n][k] == lines[k];
    }
    if SomeImports(w, lines[..n], path) {
      var k :| 0 <= k < n && ImportsFile(w, lines[..n][k], path);
      assert lines[k] == lines[..n][k];
    }
  }

  // One more line.
  lemma OneImport(w: World, cands: seq<Candidate>, line: string)
    ensures var all := AddImport(w, cands, line);
            && cands <= all && |all| <= |cands| + 1
            && (forall path :: ImportsFile(w, line, path) ==> Listed(all, path))
            && (|all| > |cands| ==>
                  all[|cands|].line.None? && !Listed(cands, all[|cands|].path) && ImportsFile(w, line, all[|cands|].path))
  {
    hide ImportedModule, ModulePath, FileAt, Strip;
    var all := AddImport(w, cands, line);
    forall path | ImportsFile(w, line, path) ensures Listed(all, path) {
      if Listed(cands, path) {
        ListedStays(cands, all, path);
      } else {
        assert all[|cands|].path == path;
      }
    }
  }

  lemma {:induction false} ImportsAdded(w: World, cands: seq<Candidate>, lines: seq<string>)
    ensures AllListed(w, lines, AddImports(w, cands, lines))
    ensures OnlyAppended(w, lines, AddImports(w, cands, lines), |cands|)
  {
    hide AddImport, ImportsFile, Listed;
    if lines != [] {
      var n := |lines| - 1;
      var before, all := AddImports(w, cands, lines[..n]), AddImports(w, cands, lines);
      ImportsAdded(w, cands, lines[..n]);
      OneImport(w, before, lines[n]);
      forall path | SomeImports(w, lines, path) ensures Listed(all, path) {
        SomeImportsStep(w, lines, path);
        if Listed(before, path) { ListedStays(before, all, path); }
      }
      forall j | |cands| <= j < |all| ensures IsAppended(w, lines, all, j) {
        SomeImportsStep(w, lines, all[j].path);
        if j < |before| {
          assert IsAppended(w, lines[..n], before, j);
          assert all[j] == before[j] && all[..j] == before[..j];
        } else {
          assert all[..j] == before;
        }
      }
    }
  }

  // The lines that a candidate's imports are read from: those of a Python file that was shown.
  function ImportSource(w: World, c: Candidate): seq<string> {
    var path := Normalize(c.path, w.repo);
    var lines := LinesAt(w, path);
    if lines.Some? && IsPython(SafePath(w.root, path).value) then lines.value else []
  }

  lemma DiscoverIs(w: World, cands: seq<Candidate>, c: Candidate)
    ensures Discover(w, cands, c) == AddImports(w, cands, ImportSource(w, c))
  {
    hide LinesAt, IsPython, SafePath, Normalize, AddImport;
    assert AddImports(w, cands, []) == cands;
  }

  // The list holds the initial candidates, then only local files that an earlier shown Python file
  // imports, each one new when it was appended.  It is closed: whatever local file a shown Python
  // file imports is listed.
  ghost predicate Closed(w: World, initial: seq<Candidate>, cands: seq<Candidate>, n: nat)
    requires n <= |cands|
  {
    && initial <= cands
    && (forall i {:trigger ImportSource(w, cands[i])} :: 0 <= i < n ==> AllListed(w, ImportSource(w, cands[i]), cands))
    && (forall j {:trigger Imported(w, cands, n, j)} :: |initial| <= j < |cands| ==> Imported(w, cands, n, j))
  }

  ghost predicate Imported(w: World, cands: seq<Candidate>, n: nat, j: nat)
    requires n <= |cands| && j < |cands|
  {
    exists i {:trigger ImportSource(w, cands[i])} :: 0 <= i < n && i < j && IsAppended(w, ImportSource(w, cands[i]), cands, j)
  }

  lemma AllListedStays(w: World, lines: seq<string>, cands: seq<Candidate>, more: seq<Candidate>)
    requires AllListed(w, lines, cands) && cands <= more
    ensures AllListed(w, lines, more)
  {
    hide SomeImports, Listed;
    forall path | SomeImports(w, lines, path) ensures Listed(more, path) { ListedStays(cands, more, path); }
  }

  lemma ClosedStep(w: World, initial: seq<Candidate>, cands: seq<Candidate>, more: seq<Candidate>, i: nat)
    requires i < |cands| && Closed(w, initial, cands, i) && cands <= more
    requires AllListed(w, ImportSource(w, cands[i]), more)
    requires OnlyAppended(w, ImportSource(w, cands[i]), more, |cands|)
    ensures Closed(w, initial, more, i + 1)
  {
    hide AllListed, IsAppended, ImportSource;
    forall k | 0 <= k < i + 1 ensures AllListed(w, ImportSource(w, more[k]), more) {
      assert more[k] == cands[k];
      if k < i { AllListedStays(w, ImportSource(w, cands[k]), cands, more); }
    }
    var n := i + 1;
    forall j | |initial| <= j < |more| ensures Imported(w, more, n, j) {
      if j < |cands| {
        assert Imported(w, cands, i, j);
        var k :| 0 <= k < i && k < j && IsAppended(w, ImportSource(w, cands[k]), cands, j);
        AppendedStays(w, ImportSource(w, cands[k]), cands, more, j);
        assert more[k] == cands[k];
        assert IsAppended(w, ImportSource(w, more[k]), more, j);
      } else {
        assert more[i] == cands[i];
        assert IsAppended(w, ImportSource(w, more[i]), more, j);
      }
    }
  }

  lemma AppendedStays(w: World, lines: seq<string>, cands: seq<Candidate>, more: seq<Candidate>, j: nat)
    requires j < |cands| && cands <= more && IsAppended(w, lines, cands, j)
    ensures IsAppended(w, lines, more, j)
  {
    hide SomeImports, Listed;
    assert more[..j] == cands[..j] && more[j] == cands[j];
  }

  lemma {:induction false} CandidatesAreClosed(w: World, initial: seq<Candidate>, n: nat)
    requires forall k :: 0 <= k < n ==> Passes(w, initial, k)
    ensures n <= |Grow(w, initial, n)| && Closed(w, initial, Grow(w, initial, n), n)
  {
    hide Grow, Discover, Closed, ImportSource, AllListed, OnlyAppended, OutOfBudget, Collect;
    if n == 0 {
      Start(w, initial);
      ClosedAtStart(w, initial);
    } else {
      var i := n - 1;
      CandidatesAreClosed(w, initial, i);
      assert Passes(w, initial, i);
      GrowNext(w, initial, i);
      var cands := Grow(w, initial, i);
      DiscoverIs(w, cands, cands[i]);
      ImportsAdded(w, cands, ImportSource(w, cands[i]));
      ClosedStep(w, initial, cands, Grow(w, initial, n), i);
    }
  }

  lemma ClosedAtStart(w: World, initial: seq<Candidate>)
    ensures Closed(w, initial, initial, 0)
  {
  }
}
