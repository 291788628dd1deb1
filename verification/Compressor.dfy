/** The tool-output compressor (`rtk.rs`). */
module Compressor {
  import opened Decimal
  import opened Strings

  // --- Repeated lines ---------------------------------------------------------------------

  function RepeatMarker(n: nat): string {
    "... line repeated " + Dec(n) + " more times ..."
  }

  /** How often the first line is repeated at the start. */
  function RunLength(lines: seq<string>): (n: nat)
    ensures n <= |lines|
    ensures lines != [] ==> n > 0
    ensures forall i | 0 <= i < n :: lines[i] == lines[0]
    ensures n < |lines| && n > 0 ==> lines[n] != lines[0]
  {
    if |lines| <= 1 then |lines| else if lines[1] != lines[0] then 1 else 1 + RunLength(lines[1..])
  }

  function Repeat(line: string, n: nat): seq<string> {
    seq(n, i => line)
  }

  function Emitted(line: string, n: nat, threshold: nat): seq<string>
    requires n > 0
  {
    if n >= threshold then [line, RepeatMarker(n - 1)] else Repeat(line, n)
  }

  function Deduped(lines: seq<string>, threshold: nat): seq<string>
    decreases |lines|
  {
    if lines == [] then []
    else
      var n := RunLength(lines);
      Emitted(lines[0], n, threshold) + Deduped(lines[n..], threshold)
  }

  lemma RunLengthIs(lines: seq<string>, n: nat)
    requires 0 < n <= |lines|
    requires forall i | 0 <= i < n :: lines[i] == lines[0]
    requires n < |lines| ==> lines[n] != lines[0]
    ensures RunLength(lines) == n
  {
  }

  lemma DedupedRun(lines: seq<string>, i: nat, runEnd: nat, threshold: nat)
    requires i < runEnd <= |lines|
    requires forall j | i <= j < runEnd :: lines[j] == lines[i]
    requires runEnd < |lines| ==> lines[runEnd] != lines[i]
    ensures Deduped(lines[i..], threshold)
            == Emitted(lines[i], runEnd - i, threshold) + Deduped(lines[runEnd..], threshold)
  {
    hide Emitted;
    RunLengthIs(lines[i..], runEnd - i);
    assert lines[i..][runEnd - i..] == lines[runEnd..];
  }

  lemma EmittedIs(lines: seq<string>, i: nat, runEnd: nat, threshold: nat)
    requires i < runEnd <= |lines|
    requires forall j | i <= j < runEnd :: lines[j] == lines[i]
    ensures Emitted(lines[i], runEnd - i, threshold)
            == [lines[i]] + if runEnd - i >= threshold then [RepeatMarker(runEnd - i - 1)] else lines[i + 1..runEnd]
  {
  }

  lemma NothingLeft(threshold: nat)
    ensures Deduped([], threshold) == []
  {
  }

  lemma Associates<T>(a: seq<T>, b: seq<T>, c: seq<T>)
    ensures a + (b + c) == (a + b) + c
  {
  }

  method DedupeRepeatedLines(lines: seq<string>, threshold: nat) returns (out: seq<string>)
    ensures out == Deduped(lines, threshold)
  {
    hide Deduped, Emitted, RepeatMarker;
    out := [];
    var i := 0;
    assert lines[0..] == lines;
    while i < |lines|
      invariant 0 <= i <= |lines|
      invariant Deduped(lines, threshold) == out + Deduped(lines[i..], threshold)
    {
      var runEnd := i + 1;
      while runEnd < |lines| && lines[runEnd] == lines[i]
        invariant i < runEnd <= |lines|
        invariant forall j | i <= j < runEnd :: lines[j] == lines[i]
      {
        runEnd := runEnd + 1;
      }
      var runLen := runEnd - i;
      DedupedRun(lines, i, runEnd, threshold);
      EmittedIs(lines, i, runEnd, threshold);
      ghost var before := out;
      out := out + [lines[i]];
      if runLen >= threshold {
        out := out + [RepeatMarker(runLen - 1)];
      } else {
        out := out + lines[i + 1..runEnd];
      }
      Associates(before, Emitted(lines[i], runLen, threshold), Deduped(lines[runEnd..], threshold));
      i := runEnd;
    }
    NothingLeft(threshold);
    assert lines[i..] == [] && out + [] == out;
  }

  /** Markers name their number. */
  lemma MarkerIsInjective(m: nat, n: nat)
    requires RepeatMarker(m) == RepeatMarker(n)
    ensures m == n
  {
    var head, tail := "... line repeated ", " more times ...";
    var rm, rn := RepeatMarker(m), RepeatMarker(n);
    assert |rm| == |head| + |Dec(m)| + |tail| && |rn| == |head| + |Dec(n)| + |tail|;
    assert rm[|head|..|rm| - |tail|] == Dec(m) && rn[|head|..|rn| - |tail|] == Dec(n);
    ValueOfDec(m);
    ValueOfDec(n);
  }

  ghost predicate IsMarker(line: string) {
    exists n: nat :: line == RepeatMarker(n)
  }

  ghost function MarkerCount(line: string): nat
    requires IsMarker(line)
  {
    var n: nat :| line == RepeatMarker(n);
    n
  }

  /** Undoing the code: a marker stands for that many more copies of the line before it. */
  ghost function Expanded(out: seq<string>): seq<string>
    decreases |out|
  {
    if out == [] then []
    else if |out| >= 2 && IsMarker(out[1]) then Repeat(out[0], 1 + MarkerCount(out[1])) + Expanded(out[2..])
    else [out[0]] + Expanded(out[1..])
  }

  lemma PlainLineExpands(out: seq<string>)
    requires out != [] && (|out| >= 2 ==> !IsMarker(out[1]))
    ensures Expanded(out) == [out[0]] + Expanded(out[1..])
  {
  }

  lemma {:induction false} CopiesExpand(line: string, n: nat, rest: seq<string>)
    requires !IsMarker(line) && (rest != [] ==> !IsMarker(rest[0]))
    ensures Expanded(Repeat(line, n) + rest) == Repeat(line, n) + Expanded(rest)
  {
    hide IsMarker, Expanded;
    var all := Repeat(line, n) + rest;
    if n == 0 {
      assert all == rest;
      assert Repeat(line, 0) + Expanded(rest) == Expanded(rest);
    } else {
      assert all[1..] == Repeat(line, n - 1) + rest;
      assert |all| >= 2 ==> all[1] == if n > 1 then line else rest[0];
      PlainLineExpands(all);
      CopiesExpand(line, n - 1, rest);
      assert Repeat(line, n) + Expanded(rest) == [line] + (Repeat(line, n - 1) + Expanded(rest));
    }
  }

  lemma EmptyExpands()
    ensures Expanded([]) == []
  {
  }

  lemma MarkedRunExpands(line: string, n: nat, rest: seq<string>)
    requires n > 0
    ensures Expanded([line, RepeatMarker(n - 1)] + rest) == Repeat(line, n) + Expanded(rest)
  {
    var all := [line, RepeatMarker(n - 1)] + rest;
    assert all[1] == RepeatMarker(n - 1) && all[2..] == rest;
    MarkerIsInjective(MarkerCount(all[1]), n - 1);
  }

  /** Exactly runs of at least `threshold` equal lines are coded: the line, and a marker for the others. */
  lemma RunsAreCoded(line: string, n: nat, rest: seq<string>, threshold: nat)
    requires n > 0 && (rest != [] ==> rest[0] != line)
    ensures Deduped(Repeat(line, n) + rest, threshold)
            == (if n >= threshold then [line] + [RepeatMarker(n - 1)] else Repeat(line, n)) + Deduped(rest, threshold)
  {
    var lines := Repeat(line, n) + rest;
    RunLengthIs(lines, n);
    assert lines[n..] == rest;
    assert [line] + [RepeatMarker(n - 1)] == [line, RepeatMarker(n - 1)];
  }

  /** Main result: the code is lossless, at every threshold, when no input line looks like a marker. */
  lemma {:induction false} DedupeIsLossless(lines: seq<string>, threshold: nat)
    requires forall i | 0 <= i < |lines| :: !IsMarker(lines[i])
    ensures Expanded(Deduped(lines, threshold)) == lines
    ensures Deduped(lines, threshold) != [] ==> lines != [] && Deduped(lines, threshold)[0] == lines[0]
    decreases |lines|
  {
    hide IsMarker, Expanded;
    if lines == [] {
      EmptyExpands();
    } else {
      var n := RunLength(lines);
      var rest := Deduped(lines[n..], threshold);
      DedupeIsLossless(lines[n..], threshold);
      assert lines == Repeat(lines[0], n) + lines[n..];
      if n >= threshold {
        MarkedRunExpands(lines[0], n, rest);
      } else {
        CopiesExpand(lines[0], n, rest);
      }
    }
  }

  /** With such a line it need not be: these two inputs have the same output. */
  lemma MarkersAreAmbiguous(a: seq<string>, b: seq<string>)
    requires a == ["x", "x", "x"] && b == ["x", RepeatMarker(2)]
    ensures Deduped(a, 3) == Deduped(b, 3)
  {
    RunLengthIs(a, 3);
    assert a[3..] == [];
    assert RepeatMarker(2)[0] == '.';
    RunLengthIs(b, 1);
    RunLengthIs(b[1..], 1);
    assert b[1..][1..] == [];
    assert Deduped(b[1..], 3) == Repeat(RepeatMarker(2), 1) + [] == [RepeatMarker(2)];
    assert Deduped(b, 3) == Repeat("x", 1) + [RepeatMarker(2)] == ["x", RepeatMarker(2)];
  }

  /** From threshold 2 on, the code never lengthens its input. */
  lemma {:induction false} DedupeShortens(lines: seq<string>, threshold: nat)
    requires threshold >= 2
    ensures |Deduped(lines, threshold)| <= |lines|
    decreases |lines|
  {
    if lines != [] {
      DedupeShortens(lines[RunLength(lines)..], threshold);
    }
  }

  // --- Head and tail -----------------------------------------------------------------------------

  function OmittedMarker(n: nat): string {
    "... " + Dec(n) + " lines omitted ..."
  }

  function HeadTail(lines: seq<string>, head: nat, tail: nat): (out: seq<string>)
    ensures |out| <= head + tail + 1
    ensures |lines| <= head + tail ==> out == lines
    ensures |lines| > head + tail ==>
              |out| == head + 1 + tail && head <= |lines| && tail <= |lines|
              && out[..head] == lines[..head] && out[head + 1..] == lines[|lines| - tail..]
              && out[head] == OmittedMarker(|lines| - |out| + 1)
  {
    if |lines| <= head + tail then lines
    else lines[..head] + [OmittedMarker(|lines| - head - tail)] + lines[|lines| - tail..]
  }

  // --- Collapsed lines ------------------------------------------------------------------------------

  /** A line kept verbatim, or the number of lines a marker stands for. */
  datatype Piece = Kept(line: string) | Omitted(n: nat)

  function Flushed(out: seq<Piece>, run: nat): seq<Piece> {
    if run > 0 then out + [Omitted(run)] else out
  }

  /** The output so far and the length of the current run of collapsible lines. */
  function CollapseState(lines: seq<string>, collapses: string -> bool): (seq<Piece>, nat) {
    if lines == [] then ([], 0)
    else
      var (out, run) := CollapseState(lines[..|lines| - 1], collapses);
      var line := lines[|lines| - 1];
      if collapses(line) then (out, run + 1) else (Flushed(out, run) + [Kept(line)], 0)
  }

  function Collapsed(lines: seq<string>, collapses: string -> bool): seq<Piece> {
    var (out, run) := CollapseState(lines, collapses);
    Flushed(out, run)
  }

  function Shown(p: Piece, marker: nat -> string): string {
    match p
    case Kept(line) => line
    case Omitted(n) => marker(n)
  }

  function ShownAll(ps: seq<Piece>, marker: nat -> string): seq<string> {
    seq(|ps|, i requires 0 <= i < |ps| => Shown(ps[i], marker))
  }

  /** The loop of `compress_test` and of `compress_build`. */
  method CollapseRuns(lines: seq<string>, collapses: string -> bool, marker: nat -> string) returns (out: seq<string>)
    ensures out == ShownAll(Collapsed(lines, collapses), marker)
  {
    out := [];
    var run := 0;
    for i := 0 to |lines|
      invariant out == ShownAll(CollapseState(lines[..i], collapses).0, marker)
      invariant run == CollapseState(lines[..i], collapses).1
    {
      assert lines[..i + 1][..i] == lines[..i];
      if collapses(lines[i]) {
        run := run + 1;
      } else {
        if run > 0 {
          out := out + [marker(run)];
          run := 0;
        }
        out := out + [lines[i]];
      }
    }
    assert lines[..|lines|] == lines;
    if run > 0 {
      out := out + [marker(run)];
    }
  }

  /** The pieces account for every line: kept lines stand for themselves and may not be collapsible, a marker stands
    for a maximal run of collapsible lines. */
  ghost predicate AccountsFor(ps: seq<Piece>, lines: seq<string>, collapses: string -> bool) {
    if ps == [] then lines == []
    else
      var p := ps[|ps| - 1];
      match p
      case Kept(line) =>
        && lines != [] && lines[|lines| - 1] == line && !collapses(line)
        && AccountsFor(ps[..|ps| - 1], lines[..|lines| - 1], collapses)
      case Omitted(n) =>
        && 0 < n <= |lines|
        && (forall i | |lines| - n <= i < |lines| :: collapses(lines[i]))
        && (|ps| > 1 ==> ps[|ps| - 2].Kept?)
        && AccountsFor(ps[..|ps| - 1], lines[..|lines| - n], collapses)
  }

  lemma {:induction false} StateAccounts(lines: seq<string>, collapses: string -> bool)
    ensures var (out, run) := CollapseState(lines, collapses);
            && run <= |lines|
            && (forall i | |lines| - run <= i < |lines| :: collapses(lines[i]))
            && (out != [] ==> out[|out| - 1].Kept?)
            && AccountsFor(out, lines[..|lines| - run], collapses)
  {
    hide AccountsFor;
    if lines == [] {
      NothingAccounts(lines, collapses);
    } else {
      var n := |lines| - 1;
      var (out, run) := CollapseState(lines[..n], collapses);
      StateAccounts(lines[..n], collapses);
      if collapses(lines[n]) {
        assert lines[..n][..n - run] == lines[..|lines| - (run + 1)];
      } else {
        FlushAccounts(out, lines[..n], run, collapses);
        KeptAccounts(Flushed(out, run), lines, collapses);
        assert lines[..|lines| - 0] == lines;
      }
    }
  }

  lemma NothingAccounts(lines: seq<string>, collapses: string -> bool)
    requires lines == []
    ensures AccountsFor([], lines[..0], collapses)
  {
  }

  lemma KeptAccounts(ps: seq<Piece>, lines: seq<string>, collapses: string -> bool)
    requires lines != [] && !collapses(lines[|lines| - 1])
    requires AccountsFor(ps, lines[..|lines| - 1], collapses)
    ensures AccountsFor(ps + [Kept(lines[|lines| - 1])], lines, collapses)
  {
    assert (ps + [Kept(lines[|lines| - 1])])[..|ps|] == ps;
  }

  lemma FlushAccounts(out: seq<Piece>, lines: seq<string>, run: nat, collapses: string -> bool)
    requires run <= |lines| && forall i | |lines| - run <= i < |lines| :: collapses(lines[i])
    requires out != [] ==> out[|out| - 1].Kept?
    requires AccountsFor(out, lines[..|lines| - run], collapses)
    ensures AccountsFor(Flushed(out, run), lines, collapses)
  {
    if run > 0 {
      assert (out + [Omitted(run)])[..|out|] == out;
    } else {
      assert lines[..|lines|] == lines;
    }
  }

  /** Main result: the output of the two collapsing categories accounts for every input line, in order. */
  lemma CollapsedAccounts(lines: seq<string>, collapses: string -> bool)
    ensures AccountsFor(Collapsed(lines, collapses), lines, collapses)
  {
    var (out, run) := CollapseState(lines, collapses);
    StateAccounts(lines, collapses);
    FlushAccounts(out, lines, run, collapses);
  }

  function KeptLines(ps: seq<Piece>): seq<string> {
    if ps == [] then []
    else KeptLines(ps[..|ps| - 1]) + if ps[|ps| - 1].Kept? then [ps[|ps| - 1].line] else []
  }

  function OmittedCount(ps: seq<Piece>): nat {
    if ps == [] then 0
    else OmittedCount(ps[..|ps| - 1]) + if ps[|ps| - 1].Omitted? then ps[|ps| - 1].n else 0
  }

  function Selected(lines: seq<string>, collapses: string -> bool): seq<string> {
    if lines == [] then []
    else Selected(lines[..|lines| - 1], collapses) + if collapses(lines[|lines| - 1]) then [] else [lines[|lines| - 1]]
  }

  lemma {:induction false} SelectedDropsRun(lines: seq<string>, n: nat, collapses: string -> bool)
    requires n <= |lines| && forall i | |lines| - n <= i < |lines| :: collapses(lines[i])
    ensures Selected(lines, collapses) == Selected(lines[..|lines| - n], collapses)
  {
    if n == 0 {
      assert lines[..|lines|] == lines;
    } else {
      var m := |lines| - 1;
      SelectedDropsRun(lines[..m], n - 1, collapses);
      assert lines[..m][..m - (n - 1)] == lines[..|lines| - n];
    }
  }

  /** So the kept lines are the lines that do not collapse, the markers add up to the rest, and no two markers meet. */
  lemma {:induction false} AccountIsExact(ps: seq<Piece>, lines: seq<string>, collapses: string -> bool)
    requires AccountsFor(ps, lines, collapses)
    ensures KeptLines(ps) == Selected(lines, collapses)
    ensures OmittedCount(ps) + |KeptLines(ps)| == |lines|
    ensures forall i | 0 < i < |ps| :: ps[i - 1].Kept? || ps[i].Kept?
    decreases |ps|
  {
    if ps != [] {
      var n := |ps| - 1;
      if ps[n].Kept? {
        AccountIsExact(ps[..n], lines[..|lines| - 1], collapses);
      } else {
        AccountIsExact(ps[..n], lines[..|lines| - ps[n].n], collapses);
        SelectedDropsRun(lines, ps[n].n, collapses);
      }
    }
  }

  // --- The categories -------------------------------------------------------------------------------

  datatype Category = Git | Test | Build | Package | Generic

  predicate LooksLikeCommit(line: string) {
    StartsWith(line, "commit ") &&
    var hash := SecondWord(line);
    |hash| >= 7 && forall i | 0 <= i < |hash| :: IsHexDigit(hash[i])
  }

  predicate IsPassingTest(line: string) {
    var trimmed := TrimStart(line);
    StartsWith(trimmed, "test ") && EndsWith(trimmed, " ok")
  }

  predicate IsTestLine(line: string) {
    var trimmed := TrimStart(line);
    StartsWith(trimmed, "test ") && (EndsWith(trimmed, " ok") || EndsWith(trimmed, " FAILED"))
  }

  predicate IsErrorLine(line: string) {
    var trimmed := TrimStart(line);
    StartsWith(trimmed, "error: ") || StartsWith(trimmed, "Error: ")
  }

  predicate IsCompiling(line: string) {
    StartsWith(TrimStart(line), "Compiling ")
  }

  predicate LooksLikeGit(text: string) {
    var lower := ToAsciiLowercase(text);
    || Contains(lower, "on branch ")
    || Contains(lower, "nothing to commit")
    || Contains(lower, "changes not staged")
    || Contains(lower, "changes to be committed")
    || Contains(text, "diff --git ")
    || (Lines(text) != [] && LooksLikeCommit(Lines(text)[0]))
  }

  predicate LooksLikeTest(text: string) {
    var lower := ToAsciiLowercase(text);
    || Contains(text, "test result:")
    || Contains(lower, "tests passed")
    || Contains(lower, "tests failed")
    || (exists line | line in Lines(text) :: IsTestLine(line))
    || (Contains(lower, "passed") && Contains(lower, "failed") && Contains(text, "="))
  }

  predicate LooksLikeBuild(text: string) {
    || Contains(ToAsciiLowercase(text), "compiling ")
    || Contains(text, "warning: ")
    || Contains(text, "error[")
    || exists line | line in Lines(text) :: IsErrorLine(line)
  }

  predicate LooksLikePackage(text: string) {
    var lower := ToAsciiLowercase(text);
    || ((Contains(lower, "npm ") || Contains(lower, "added ") || Contains(lower, "resolving"))
        && (Contains(lower, " packages") || Contains(lower, "dependencies")))
    || Contains(lower, "successfully installed")
    || Contains(lower, "audited ")
  }

  function Classify(text: string): Category {
    if LooksLikeGit(text) then Git
    else if LooksLikeTest(text) then Test
    else if LooksLikeBuild(text) then Build
    else if LooksLikePackage(text) then Package
    else Generic
  }

  function PassingMarker(n: nat): string {
    "... " + Dec(n) + " passing test lines omitted ..."
  }

  function CompilingMarker(n: nat): string {
    "... " + Dec(n) + " \"Compiling\" lines omitted ..."
  }

  predicate IsSummaryLike(line: string) {
    var lower := ToAsciiLowercase(line);
    || Contains(lower, "added")
    || Contains(lower, "removed")
    || Contains(lower, "audited")
    || Contains(lower, "successfully installed")
    || Contains(lower, "up to date")
    || Contains(lower, "packages in")
    || Contains(lower, "vulnerabilit")
  }

  predicate IsNoSummary(line: string) {
    !IsSummaryLike(line)
  }

  function GitLines(lines: seq<string>): (out: seq<string>)
    ensures |out| <= 13
    ensures var all := Deduped(lines, 3);
            if |all| <= 12 then out == all else |out| == 13 && out[..8] == all[..8] && out[9..] == all[|all| - 4..]
  {
    HeadTail(Deduped(lines, 3), 8, 4)
  }

  function GenericLines(lines: seq<string>): (out: seq<string>)
    ensures |out| <= 81
    ensures var all := Deduped(lines, 3);
            if |all| <= 80 then out == all else |out| == 81 && out[..40] == all[..40] && out[41..] == all[|all| - 40..]
  {
    HeadTail(Deduped(lines, 3), 40, 40)
  }

  function TestLines(lines: seq<string>): seq<string> {
    ShownAll(Collapsed(lines, IsPassingTest), PassingMarker)
  }

  function BuildLines(lines: seq<string>): seq<string> {
    ShownAll(Collapsed(lines, IsCompiling), CompilingMarker)
  }

  /** For more than four lines. */
  function PackageLines(lines: seq<string>): seq<string> {
    var summary := Selected(lines, IsNoSummary);
    if summary != [] then summary else HeadTail(lines, 2, 2)
  }

  function CompressedAs(category: Category, text: string): string {
    var lines := Lines(text);
    match category
    case Git => Join(GitLines(lines))
    case Test => Join(TestLines(lines))
    case Build => Join(BuildLines(lines))
    case Package => if |lines| <= 4 then text else Join(PackageLines(lines))
    case Generic => Join(GenericLines(lines))
  }

  /** A marker is this text around its number. */
  predicate IsNumberedText(marker: string, head: string, n: nat, tail: string) {
    && |marker| >= |head| + |tail|
    && marker[..|head|] == head && marker[|marker| - |tail|..] == tail
    && (forall i | |head| <= i < |marker| - |tail| :: IsDigit(marker[i]))
    && Value(marker[|head|..|marker| - |tail|]) == n
  }

  lemma NumberedText(head: string, n: nat, tail: string)
    ensures IsNumberedText(head + Dec(n) + tail, head, n, tail)
  {
    var marker := head + Dec(n) + tail;
    ValueOfDec(n);
    assert marker[..|head|] == head && marker[|marker| - |tail|..] == tail;
    assert marker[|head|..|marker| - |tail|] == Dec(n);
  }

  /** Every marker says how many lines it stands for. */
  lemma MarkersNameTheirNumber(n: nat)
    ensures IsNumberedText(RepeatMarker(n), "... line repeated ", n, " more times ...")
    ensures IsNumberedText(OmittedMarker(n), "... ", n, " lines omitted ...")
    ensures IsNumberedText(PassingMarker(n), "... ", n, " passing test lines omitted ...")
    ensures IsNumberedText(CompilingMarker(n), "... ", n, " \"Compiling\" lines omitted ...")
  {
    hide IsNumberedText, Dec;
    NumberedText("... line repeated ", n, " more times ...");
    NumberedText("... ", n, " lines omitted ...");
    NumberedText("... ", n, " passing test lines omitted ...");
    NumberedText("... ", n, " \"Compiling\" lines omitted ...");
  }

  /** Apart from its indentation, the line begins and ends like this. */
  ghost predicate Framed(line: string, start: string, end: string) {
    exists text :: Indented(line, text) && start <= text && |end| <= |text| && text[|text| - |end|..] == end
  }

  lemma FramedMeans(line: string, start: string, end: string)
    requires start != "" && !IsWhitespace(start[0]) && Framed(line, start, end)
    ensures StartsWith(TrimStart(line), start) && EndsWith(TrimStart(line), end)
  {
    hide TrimStart, Indented, IsWhitespace;
    var text :| Indented(line, text) && start <= text && |end| <= |text| && text[|text| - |end|..] == end;
    assert text[0] == start[0];
    TrimmedIs(line, text);
  }

  lemma TrimmedMeansFramed(line: string, start: string, end: string)
    requires StartsWith(TrimStart(line), start) && EndsWith(TrimStart(line), end)
    ensures Framed(line, start, end)
  {
    hide TrimStart, Indented, IsWhitespace;
    TrimStartIs(line);
  }

  lemma FramedIff(line: string, start: string, end: string)
    requires start != "" && !IsWhitespace(start[0])
    ensures Framed(line, start, end) <==> StartsWith(TrimStart(line), start) && EndsWith(TrimStart(line), end)
  {
    hide Framed, TrimStart, StartsWith, EndsWith, IsWhitespace;
    if Framed(line, start, end) {
      FramedMeans(line, start, end);
    } else if StartsWith(TrimStart(line), start) && EndsWith(TrimStart(line), end) {
      TrimmedMeansFramed(line, start, end);
    }
  }

  lemma EndsWithNothing(s: string)
    ensures EndsWith(s, "")
  {
    assert s[|s|..] == "";
  }

  /** Which lines a test or build output is collapsed by. */
  lemma CollapsedLinesAre(line: string)
    ensures IsPassingTest(line) <==> Framed(line, "test ", " ok")
    ensures IsCompiling(line) <==> Framed(line, "Compiling ", "")
  {
    hide Framed, TrimStart, StartsWith, EndsWith;
    assert "test "[0] == 't' && "Compiling "[0] == 'C';
    FramedIff(line, "test ", " ok");
    FramedIff(line, "Compiling ", "");
    EndsWithNothing(TrimStart(line));
  }

  /** The pieces the output of these two categories is made of keep every other line: a failed test, a warning. */
  lemma OtherLinesSurvive(lines: seq<string>)
    ensures var ps := Collapsed(lines, IsPassingTest);
            && TestLines(lines) == ShownAll(ps, PassingMarker)
            && forall line | line in lines && !Framed(line, "test ", " ok") :: line in KeptLines(ps)
    ensures var ps := Collapsed(lines, IsCompiling);
            && BuildLines(lines) == ShownAll(ps, CompilingMarker)
            && forall line | line in lines && !Framed(line, "Compiling ", "") :: line in KeptLines(ps)
  {
    CollapsedAccounts(lines, IsPassingTest);
    CollapsedAccounts(lines, IsCompiling);
    AccountIsExact(Collapsed(lines, IsPassingTest), lines, IsPassingTest);
    AccountIsExact(Collapsed(lines, IsCompiling), lines, IsCompiling);
    forall line | line in lines
      ensures !Framed(line, "test ", " ok") ==> line in KeptLines(Collapsed(lines, IsPassingTest))
      ensures !Framed(line, "Compiling ", "") ==> line in KeptLines(Collapsed(lines, IsCompiling))
    {
      CollapsedLinesAre(line);
      SelectedMembers(lines, IsPassingTest, line);
      SelectedMembers(lines, IsCompiling, line);
    }
  }

  lemma {:induction false} SelectedMembers(lines: seq<string>, drops: string -> bool, line: string)
    ensures line in Selected(lines, drops) <==> line in lines && !drops(line)
  {
    if lines != [] {
      var n := |lines| - 1;
      SelectedMembers(lines[..n], drops, line);
      assert lines == lines[..n] + [lines[n]];
    }
  }

  lemma {:induction false} KeptPiece(ps: seq<Piece>, line: string) returns (i: nat)
    requires line in KeptLines(ps)
    ensures i < |ps| && ps[i] == Kept(line)
  {
    var n := |ps| - 1;
    if line in KeptLines(ps[..n]) {
      i := KeptPiece(ps[..n], line);
    } else {
      i := n;
    }
  }

  lemma KeptAreShown(ps: seq<Piece>, marker: nat -> string, line: string)
    requires line in KeptLines(ps)
    ensures line in ShownAll(ps, marker)
  {
    var i := KeptPiece(ps, line);
    assert ShownAll(ps, marker)[i] == line;
  }

  ghost predicate Mentions(text: string, keywords: seq<string>) {
    exists k | 0 <= k < |keywords| :: Contains(text, keywords[k])
  }

  ghost predicate HasLine(text: string, start: string, end: string) {
    exists line | line in Lines(text) :: Framed(line, start, end)
  }

  /** The line names a commit: a hexadecimal word of at least seven digits follows. */
  ghost predicate NamesCommit(line: string) {
    "commit " <= line && exists hash, rest :: IsHash(hash) && Indented(line[7..], rest) && IsFirstWord(rest, hash)
  }

  lemma HashIsSecondWord(line: string)
    requires "commit " <= line
    ensures SecondWord(line) == FirstWord(TrimStart(line[7..]))
  {
    var tail := line[6..];
    CommitIsFirst(line);
    assert tail[0] == ' ' && tail[1..] == line[7..];
    assert SecondWord(line) == FirstWord(TrimStart(tail));
  }

  predicate IsHash(hash: string) {
    |hash| >= 7 && forall c | c in hash :: '0' <= c <= '9' || 'a' <= c <= 'f' || 'A' <= c <= 'F'
  }

  lemma HashDigits(hash: string)
    ensures IsHash(hash) <==> |hash| >= 7 && forall i | 0 <= i < |hash| :: IsHexDigit(hash[i])
    ensures IsHash(hash) ==> !IsWhitespace(hash[0])
  {
    if IsHash(hash) {
      assert hash[0] in hash;
    }
    assert forall i | 0 <= i < |hash| :: hash[i] in hash;
  }

  lemma HexWordNamesCommit(line: string)
    requires LooksLikeCommit(line)
    ensures NamesCommit(line)
  {
    hide FirstWord, TrimStart, SecondWord, IsHash, IsFirstWord, Indented, IsHexDigit;
    var rest := TrimStart(line[7..]);
    HashIsSecondWord(line);
    TrimStartIs(line[7..]);
    FirstWordIff(rest, FirstWord(rest));
    HashDigits(FirstWord(rest));
  }

  lemma NamedCommitIsHexWord(line: string)
    requires NamesCommit(line)
    ensures LooksLikeCommit(line)
  {
    hide FirstWord, TrimStart, SecondWord, IsHash, Indented, IsHexDigit, IsWhitespace;
    HashIsSecondWord(line);
    var hash, rest :| IsHash(hash) && Indented(line[7..], rest) && IsFirstWord(rest, hash);
    HashDigits(hash);
    assert rest[0] == hash[0];
    TrimmedIs(line[7..], rest);
    FirstWordIff(rest, hash);
  }

  lemma CommitLinesAre(line: string)
    ensures LooksLikeCommit(line) <==> NamesCommit(line)
  {
    hide LooksLikeCommit, NamesCommit;
    if LooksLikeCommit(line) {
      HexWordNamesCommit(line);
    }
    if NamesCommit(line) {
      NamedCommitIsHexWord(line);
    }
  }

  lemma CommitIsFirst(line: string)
    requires "commit " <= line
    ensures TrimStart(line) == line && FirstWord(line) == "commit"
  {
    assert line[..7] == "commit ";
    assert line[0] == 'c' && line[6] == ' ';
    assert "commit" <= line;
    FirstWordIff(line, "commit");
  }

  ghost predicate GitShaped(text: string) {
    || Mentions(ToAsciiLowercase(text),
                ["on branch ", "nothing to commit", "changes not staged", "changes to be committed"])
    || Mentions(text, ["diff --git "])
    || (Lines(text) != [] && NamesCommit(Lines(text)[0]))
  }

  ghost predicate TestShaped(text: string) {
    var lower := ToAsciiLowercase(text);
    || Mentions(text, ["test result:"])
    || Mentions(lower, ["tests passed", "tests failed"])
    || HasLine(text, "test ", " ok") || HasLine(text, "test ", " FAILED")
    || (Mentions(lower, ["passed"]) && Mentions(lower, ["failed"]) && '=' in text)
  }

  ghost predicate BuildShaped(text: string) {
    || Mentions(ToAsciiLowercase(text), ["compiling "])
    || Mentions(text, ["warning: ", "error["])
    || HasLine(text, "error: ", "") || HasLine(text, "Error: ", "")
  }

  ghost predicate PackageShaped(text: string) {
    var lower := ToAsciiLowercase(text);
    || (Mentions(lower, ["npm ", "added ", "resolving"]) && Mentions(lower, [" packages", "dependencies"]))
    || Mentions(lower, ["successfully installed", "audited "])
  }

  lemma MentionsOne(text: string, a: string)
    ensures Mentions(text, [a]) <==> Contains(text, a)
  {
    assert [a][0] == a;
  }

  lemma MentionsMore(text: string, a: string, keywords: seq<string>)
    ensures Mentions(text, [a] + keywords) <==> Contains(text, a) || Mentions(text, keywords)
  {
    var all := [a] + keywords;
    if Mentions(text, keywords) {
      var k :| 0 <= k < |keywords| && Contains(text, keywords[k]);
      assert all[k + 1] == keywords[k];
    }
    if Contains(text, a) {
      assert all[0] == a;
    }
    if Mentions(text, all) {
      var k :| 0 <= k < |all| && Contains(text, all[k]);
      assert k > 0 ==> keywords[k - 1] == all[k];
    }
  }

  lemma MentionsTwo(text: string, a: string, b: string)
    ensures Mentions(text, [a, b]) <==> Contains(text, a) || Contains(text, b)
  {
    assert [a, b] == [a] + [b];
    MentionsMore(text, a, [b]);
    MentionsOne(text, b);
  }

  lemma GitIs(text: string)
    ensures LooksLikeGit(text) <==> GitShaped(text)
  {
    hide Contains, ToAsciiLowercase, Lines, LooksLikeCommit, NamesCommit, Mentions;
    var lower := ToAsciiLowercase(text);
    var a, b, c, d := "on branch ", "nothing to commit", "changes not staged", "changes to be committed";
    assert [a, b, c, d] == [a] + ([b] + [c, d]);
    MentionsMore(lower, a, [b] + [c, d]);
    MentionsMore(lower, b, [c, d]);
    MentionsTwo(lower, c, d);
    MentionsOne(text, "diff --git ");
    if Lines(text) != [] {
      CommitLinesAre(Lines(text)[0]);
    }
  }

  lemma {:induction false} ContainsChar(text: string, c: char)
    ensures Contains(text, [c]) <==> c in text
  {
    if text != [] {
      ContainsChar(text[1..], c);
      assert text == [text[0]] + text[1..];
      assert [c] <= text <==> text[0] == c;
    }
  }

  lemma LinesOfTest(text: string)
    ensures (exists line | line in Lines(text) :: IsTestLine(line))
            <==> HasLine(text, "test ", " ok") || HasLine(text, "test ", " FAILED")
  {
    hide Lines, Framed, StartsWith, EndsWith, TrimStart;
    assert "test "[0] == 't';
    forall line
      ensures IsTestLine(line) <==> Framed(line, "test ", " ok") || Framed(line, "test ", " FAILED")
    {
      FramedIff(line, "test ", " ok");
      FramedIff(line, "test ", " FAILED");
    }
  }

  lemma LinesOfErrors(text: string)
    ensures (exists line | line in Lines(text) :: IsErrorLine(line))
            <==> HasLine(text, "error: ", "") || HasLine(text, "Error: ", "")
  {
    hide Lines, Framed, StartsWith, TrimStart;
    assert "error: "[0] == 'e' && "Error: "[0] == 'E';
    forall line
      ensures IsErrorLine(line) <==> Framed(line, "error: ", "") || Framed(line, "Error: ", "")
    {
      FramedIff(line, "error: ", "");
      FramedIff(line, "Error: ", "");
      EndsWithNothing(TrimStart(line));
    }
  }

  lemma TestIs(text: string)
    ensures LooksLikeTest(text) <==> TestShaped(text)
  {
    hide Contains, ToAsciiLowercase, IsTestLine, HasLine, Mentions;
    var lower := ToAsciiLowercase(text);
    MentionsOne(text, "test result:");
    MentionsTwo(lower, "tests passed", "tests failed");
    MentionsOne(lower, "passed");
    MentionsOne(lower, "failed");
    ContainsChar(text, '=');
    LinesOfTest(text);
  }

  lemma BuildIs(text: string)
    ensures LooksLikeBuild(text) <==> BuildShaped(text)
  {
    hide Contains, ToAsciiLowercase, IsErrorLine, HasLine, Mentions;
    MentionsOne(ToAsciiLowercase(text), "compiling ");
    MentionsTwo(text, "warning: ", "error[");
    LinesOfErrors(text);
  }

  lemma PackageIs(text: string)
    ensures LooksLikePackage(text) <==> PackageShaped(text)
  {
    hide Contains, ToAsciiLowercase, Mentions;
    var lower := ToAsciiLowercase(text);
    assert ["npm ", "added ", "resolving"] == ["npm "] + ["added ", "resolving"];
    MentionsMore(lower, "npm ", ["added ", "resolving"]);
    MentionsTwo(lower, "added ", "resolving");
    MentionsTwo(lower, " packages", "dependencies");
    MentionsTwo(lower, "successfully installed", "audited ");
  }

  /** The category is that of the first shape a text has, in this order. */
  lemma ClassificationIs(text: string)
    ensures Classify(text)
            == if GitShaped(text) then Git
               else if TestShaped(text) then Test
               else if BuildShaped(text) then Build
               else if PackageShaped(text) then Package
               else Generic
  {
    hide LooksLikeGit, LooksLikeTest, LooksLikeBuild, LooksLikePackage;
    GitIs(text);
    TestIs(text);
    BuildIs(text);
    PackageIs(text);
  }

  /** The lines that sum up what a package manager did. */
  lemma SummaryLinesAre(line: string)
    ensures IsSummaryLike(line)
            <==> Mentions(ToAsciiLowercase(line),
                          ["added", "removed"] + (["audited", "successfully installed"]
                                                  + (["up to date", "packages in"] + ["vulnerabilit"])))
  {
    hide Contains, ToAsciiLowercase, Mentions;
    var lower := ToAsciiLowercase(line);
    MentionsOne(lower, "vulnerabilit");
    MentionsPair(lower, "up to date", "packages in", ["vulnerabilit"]);
    MentionsPair(lower, "audited", "successfully installed", ["up to date", "packages in"] + ["vulnerabilit"]);
    MentionsPair(lower, "added", "removed",
                 ["audited", "successfully installed"] + (["up to date", "packages in"] + ["vulnerabilit"]));
  }

  lemma MentionsPair(text: string, a: string, b: string, keywords: seq<string>)
    ensures Mentions(text, [a, b] + keywords) <==> Contains(text, a) || Contains(text, b) || Mentions(text, keywords)
  {
    hide Contains, Mentions;
    assert [a, b] + keywords == [a] + ([b] + keywords);
    MentionsMore(text, a, [b] + keywords);
    MentionsMore(text, b, keywords);
  }

  /** Main result: whatever a text classified as test output holds that is no passing test, and whatever one classified
    as build output holds that is no "Compiling" line, is a line of the compressed text. */
  lemma NothingImportantIsLost(text: string, line: string)
    requires line in Lines(StripAnsi(text))
    ensures Classify(StripAnsi(text)) == Test && !Framed(line, "test ", " ok") ==>
              exists out :: Compressed(text) == Join(out) && line in out
    ensures Classify(StripAnsi(text)) == Build && !Framed(line, "Compiling ", "") ==>
              exists out :: Compressed(text) == Join(out) && line in out
  {
    hide StripAnsi, Classify, Framed;
    var lines := Lines(StripAnsi(text));
    OtherLinesSurvive(lines);
    if Classify(StripAnsi(text)) == Test && !Framed(line, "test ", " ok") {
      KeptAreShown(Collapsed(lines, IsPassingTest), PassingMarker, line);
      assert Compressed(text) == Join(TestLines(lines)) && line in TestLines(lines);
    }
    if Classify(StripAnsi(text)) == Build && !Framed(line, "Compiling ", "") {
      KeptAreShown(Collapsed(lines, IsCompiling), CompilingMarker, line);
      assert Compressed(text) == Join(BuildLines(lines)) && line in BuildLines(lines);
    }
  }

  lemma PackageLinesJoin(text: string)
    requires Classify(StripAnsi(text)) == Package && |Lines(StripAnsi(text))| > 4
    ensures Compressed(text) == Join(PackageLines(Lines(StripAnsi(text))))
  {
    hide StripAnsi, Classify, PackageLines;
  }

  /** A short package log stays as it is; of a longer one the summary lines are left, or the first and last two. */
  lemma PackageOutputIs(text: string)
    requires Classify(StripAnsi(text)) == Package
    ensures var stripped := StripAnsi(text);
            var lines := Lines(stripped);
            && (|lines| <= 4 ==> Compressed(text) == stripped)
            && (|lines| > 4 && (exists line | line in lines :: IsSummaryLike(line)) ==>
                  exists out :: Compressed(text) == Join(out)
                                && forall line :: line in out <==> line in lines && IsSummaryLike(line))
            && (|lines| > 4 && !(exists line | line in lines :: IsSummaryLike(line)) ==>
                  Compressed(text) == Join(lines[..2] + [OmittedMarker(|lines| - 4)] + lines[|lines| - 2..]))
  {
    hide StripAnsi, Classify, IsSummaryLike;
    var lines := Lines(StripAnsi(text));
    var summary := Selected(lines, IsNoSummary);
    forall line
      ensures line in summary <==> line in lines && IsSummaryLike(line)
    {
      SelectedMembers(lines, IsNoSummary, line);
    }
    if |lines| > 4 {
      PackageLinesJoin(text);
      if summary == [] {
        assert HeadTail(lines, 2, 2) == lines[..2] + [OmittedMarker(|lines| - 4)] + lines[|lines| - 2..];
      } else {
        assert summary[0] in summary;
        assert Compressed(text) == Join(summary);
      }
    }
  }

  // --- ANSI sequences -----------------------------------------------------------------------------------

  /** What follows the first ASCII letter. */
  function AfterLetter(text: string): (rest: string)
    ensures |rest| <= |text|
  {
    if text == [] then [] else if IsAsciiAlphabetic(text[0]) then text[1..] else AfterLetter(text[1..])
  }

  function StripAnsi(text: string): string
    decreases |text|
  {
    if text == [] then []
    else if text[0] == '\U{001B}' && |text| > 1 && text[1] == '[' then StripAnsi(AfterLetter(text[2..]))
    else [text[0]] + StripAnsi(text[1..])
  }

  /** The loops of `strip_ansi`: `rest` is what the character iterator has left. */
  method StripAnsiLoop(text: string) returns (out: string)
    ensures out == StripAnsi(text)
  {
    out := [];
    var rest := text;
    while rest != []
      invariant StripAnsi(text) == out + StripAnsi(rest)
      decreases |rest|
    {
      var c := rest[0];
      rest := rest[1..];
      if c == '\U{001B}' && rest != [] && rest[0] == '[' {
        rest := rest[1..];
        ghost var sequence := rest;
        var found := false;
        while rest != [] && !found
          invariant found ==> rest == AfterLetter(sequence)
          invariant !found ==> AfterLetter(rest) == AfterLetter(sequence)
          invariant |rest| <= |sequence|
          decreases |rest|
        {
          found := IsAsciiAlphabetic(rest[0]);
          rest := rest[1..];
        }
      } else {
        out := out + [c];
      }
    }
  }

  function Compressed(text: string): string {
    var stripped := StripAnsi(text);
    CompressedAs(Classify(stripped), stripped)
  }

  method Compress(text: string) returns (compressed: string)
    ensures compressed == Compressed(text)
  {
    var stripped := StripAnsiLoop(text);
    var lines := Lines(stripped);
    match Classify(stripped) {
      case Git =>
        var deduped := DedupeRepeatedLines(lines, 3);
        compressed := Join(HeadTail(deduped, 8, 4));
      case Test =>
        var out := CollapseRuns(lines, IsPassingTest, PassingMarker);
        compressed := Join(out);
      case Build =>
        var out := CollapseRuns(lines, IsCompiling, CompilingMarker);
        compressed := Join(out);
      case Package =>
        compressed := if |lines| <= 4 then stripped else Join(PackageLines(lines));
      case Generic =>
        var deduped := DedupeRepeatedLines(lines, 3);
        compressed := Join(HeadTail(deduped, 40, 40));
    }
  }

  // --- When nothing is left -----------------------------------------------------------------------------------

  /** Nothing, or one empty line. */
  predicate Nothing(lines: seq<string>) {
    lines == [] || lines == [""]
  }

  lemma DedupedNothing(lines: seq<string>, threshold: nat)
    requires threshold >= 2
    ensures Nothing(Deduped(lines, threshold)) <==> Nothing(lines)
  {
  }

  lemma HeadTailNothing(lines: seq<string>, head: nat, tail: nat)
    requires head + tail > 0
    ensures Nothing(HeadTail(lines, head, tail)) <==> Nothing(lines)
  {
  }

  lemma {:induction false} CollapsedNothing(lines: seq<string>, collapses: string -> bool, marker: nat -> string)
    requires forall n: nat :: marker(n) != ""
    requires !collapses("")
    ensures Nothing(ShownAll(Collapsed(lines, collapses), marker)) <==> Nothing(lines)
  {
    var ps := Collapsed(lines, collapses);
    CollapsedAccounts(lines, collapses);
    if |ps| == 1 {
      assert ps[..0] == [];
      if ps[0].Kept? {
        assert lines[..|lines| - 1] == [] && lines == lines[..|lines| - 1] + [lines[|lines| - 1]];
        assert ShownAll(ps, marker) == [lines[0]];
      } else {
        assert lines[|lines| - 1] != "";
        assert ShownAll(ps, marker)[0] != "";
      }
    } else if |ps| > 1 {
      TwoPiecesTwoLines(ps, lines, collapses);
    }
  }

  lemma TwoPiecesTwoLines(ps: seq<Piece>, lines: seq<string>, collapses: string -> bool)
    requires |ps| > 1 && AccountsFor(ps, lines, collapses)
    ensures |lines| >= 2
  {
  }

  lemma {:induction false} SelectedHolds(lines: seq<string>, drops: string -> bool)
    ensures forall i | 0 <= i < |Selected(lines, drops)| :: !drops(Selected(lines, drops)[i])
  {
    if lines != [] {
      SelectedHolds(lines[..|lines| - 1], drops);
    }
  }

  lemma EmptyIsNoSummary()
    ensures !IsSummaryLike("")
  {
  }

  lemma PackageLinesNothing(lines: seq<string>)
    requires |lines| > 4
    ensures !Nothing(PackageLines(lines))
  {
    hide IsSummaryLike;
    SelectedHolds(lines, IsNoSummary);
    EmptyIsNoSummary();
    assert Selected(lines, IsNoSummary) != [""] by {
      assert Selected(lines, IsNoSummary) != [] ==> Selected(lines, IsNoSummary)[0] != "";
    }
  }

  lemma {:induction false} NotWithin(text: string, part: string)
    requires |text| < |part|
    ensures !Contains(text, part)
  {
    if Contains(text, part) {
      ContainsNeedsLength(text, part);
    }
  }

  lemma PackageTextIsLong(text: string)
    requires |text| <= 2
    ensures !LooksLikePackage(text)
  {
    var lower := ToAsciiLowercase(text);
    NotWithin(lower, " packages");
    NotWithin(lower, "dependencies");
    NotWithin(lower, "successfully installed");
    NotWithin(lower, "audited ");
  }

  lemma CollapsedCategoriesNothing(lines: seq<string>)
    ensures Nothing(TestLines(lines)) <==> Nothing(lines)
    ensures Nothing(BuildLines(lines)) <==> Nothing(lines)
  {
    forall n: nat
      ensures PassingMarker(n) != "" && CompilingMarker(n) != ""
    {
      assert PassingMarker(n)[0] == '.' && CompilingMarker(n)[0] == '.';
    }
    assert !IsPassingTest("") && !IsCompiling("");
    CollapsedNothing(lines, IsPassingTest, PassingMarker);
    CollapsedNothing(lines, IsCompiling, CompilingMarker);
  }

  /** Main result: the compressor returns an empty string exactly when nothing but ANSI sequences stands on at most
    one, empty, line.  The source promises an empty string for empty input only. */
  lemma CompressIsEmptyIff(text: string)
    ensures Compressed(text) == "" <==> IsBlank(StripAnsi(text))
  {
    hide Classify, GitLines, GenericLines, TestLines, BuildLines, PackageLines, StripAnsi;
    var stripped := StripAnsi(text);
    var lines := Lines(stripped);
    BlankIffNothing(stripped);
    match Classify(stripped)
    case Git =>
      SummariesNothing(lines);
      JoinIsEmptyIff(GitLines(lines));
    case Generic =>
      SummariesNothing(lines);
      JoinIsEmptyIff(GenericLines(lines));
    case Test =>
      CollapsedCategoriesNothing(lines);
      JoinIsEmptyIff(TestLines(lines));
    case Build =>
      CollapsedCategoriesNothing(lines);
      JoinIsEmptyIff(BuildLines(lines));
    case Package =>
      PackageMeansLong(stripped);
      if |lines| > 4 {
        PackageLinesNothing(lines);
        JoinIsEmptyIff(PackageLines(lines));
      }
  }

  /** Input that is not empty, and a result that is. */
  lemma BareNewlineVanishes()
    ensures Compressed("\n") == ""
  {
    PlainTextIsNotStripped("\n");
    CompressIsEmptyIff("\n");
  }

  lemma BlankIffNothing(text: string)
    ensures IsBlank(text) <==> Nothing(Lines(text))
  {
    NoLinesIff(text);
    OneBlankLineIff(text);
  }

  lemma SummariesNothing(lines: seq<string>)
    ensures Nothing(GitLines(lines)) <==> Nothing(lines)
    ensures Nothing(GenericLines(lines)) <==> Nothing(lines)
  {
    DedupedNothing(lines, 3);
    HeadTailNothing(Deduped(lines, 3), 8, 4);
    HeadTailNothing(Deduped(lines, 3), 40, 40);
  }

  lemma PackageMeansLong(text: string)
    requires Classify(text) == Package
    ensures |text| > 2
  {
    hide LooksLikeGit, LooksLikeTest, LooksLikeBuild, LooksLikePackage;
    if |text| <= 2 {
      PackageTextIsLong(text);
    }
  }

  /** Without an escape character nothing is stripped. */
  lemma {:induction false} PlainTextIsNotStripped(text: string)
    requires '\U{001B}' !in text
    ensures StripAnsi(text) == text
  {
    if text != [] {
      PlainTextIsNotStripped(text[1..]);
    }
  }

  lemma {:induction false} AfterLetterIs(parameters: string, letter: char, rest: string)
    requires 'a' <= letter <= 'z' || 'A' <= letter <= 'Z'
    requires forall c | c in parameters :: !('a' <= c <= 'z') && !('A' <= c <= 'Z')
    ensures AfterLetter(parameters + [letter] + rest) == rest
  {
    if parameters != [] {
      assert (parameters + [letter] + rest)[1..] == parameters[1..] + [letter] + rest;
      assert parameters[0] in parameters && forall c | c in parameters[1..] :: c in parameters;
      AfterLetterIs(parameters[1..], letter, rest);
    }
  }

  /** Exactly the escape sequences disappear: escape, bracket, parameters and the letter that ends them. */
  lemma {:induction false} SequenceIsStripped(plain: string, parameters: string, letter: char, rest: string)
    requires '\U{001B}' !in plain
    requires 'a' <= letter <= 'z' || 'A' <= letter <= 'Z'
    requires forall c | c in parameters :: !('a' <= c <= 'z') && !('A' <= c <= 'Z')
    ensures StripAnsi(plain + (['\U{001B}', '['] + (parameters + [letter] + rest))) == plain + StripAnsi(rest)
    decreases |plain|
  {
    var tail := ['\U{001B}', '['] + (parameters + [letter] + rest);
    if plain == [] {
      AfterLetterIs(parameters, letter, rest);
      assert plain + tail == tail && tail[2..] == parameters + [letter] + rest;
    } else {
      assert plain[0] in plain;
      assert (plain + tail)[1..] == plain[1..] + tail;
      SequenceIsStripped(plain[1..], parameters, letter, rest);
    }
  }

  // --- How long the output is ---------------------------------------------------------------------------------

  lemma {:induction false} DedupedIsOneLine(lines: seq<string>, threshold: nat)
    requires forall line | line in lines :: OneLine(line)
    ensures forall line | line in Deduped(lines, threshold) :: OneLine(line)
    decreases |lines|
  {
    if lines != [] {
      var n := RunLength(lines);
      DedupedIsOneLine(lines[n..], threshold);
      assert lines[0] in lines;
      assert OneLine(RepeatMarker(n - 1));
      assert forall line | line in Emitted(lines[0], n, threshold) :: line == lines[0] || line == RepeatMarker(n - 1);
    }
  }

  lemma HeadTailIsOneLine(lines: seq<string>, head: nat, tail: nat)
    requires forall line | line in lines :: OneLine(line)
    ensures forall line | line in HeadTail(lines, head, tail) :: OneLine(line)
  {
  }

  /** Git output shrinks to at most 13 lines and unclassified output to at most 81, however long it was. */
  lemma LongOutputIsCut(text: string)
    ensures |Lines(CompressedAs(Git, text))| <= 13
    ensures |Lines(CompressedAs(Generic, text))| <= 81
  {
    var deduped := Deduped(Lines(text), 3);
    LinesAreOneLine(text);
    DedupedIsOneLine(Lines(text), 3);
    HeadTailIsOneLine(deduped, 8, 4);
    HeadTailIsOneLine(deduped, 40, 40);
    JoinedLines(GitLines(Lines(text)));
    JoinedLines(GenericLines(Lines(text)));
  }
}
