/**
 The same normalisation on whole source texts: split after every newline, normalise the lines, concatenate. The
 last line may lack its newline, and then moving it joins it to its successor.
 */
module QtSource {
  import Decimal
  import opened Options
  import opened Sorting
  import opened Text
  import opened QtDeclarations

  /** `split_inclusive` at newlines. */
  function Lines(s: string): seq<string>
    decreases |s|
  {
    var n := IndexOf(s, '\n');
    if s == "" then [] else if n == |s| then [s] else [s[..n + 1]] + Lines(s[n + 1..])
  }

  function Concat(lines: seq<string>): string {
    if lines == [] then "" else lines[0] + Concat(lines[1..])
  }

  /** The normalised source, or nothing when a key the scan asks for aborts it. */
  function NormalizeSource(source: string): Option<string> {
    if !Contains(source, MARKER) then Some(source)
    else if Panics(Lines(source)) then None
    else Some(Concat(Normalize(Lines(source))))
  }

  /** `normalize_aot_register_declaration_order`: split, normalise the vector of lines in place, concatenate. */
  method NormalizeText(source: string) returns (r: Option<string>)
    ensures r == NormalizeSource(source)
  {
    if !Contains(source, MARKER) {
      return Some(source);
    }
    var pieces := Lines(source);
    var lines := new string[|pieces|](i requires 0 <= i < |pieces| => pieces[i]);
    assert lines[..] == pieces;
    var panicked := NormalizeLines(lines);
    if panicked {
      return None;
    }
    return Some(Concat(lines[..]));
  }

  /** Ends in a newline. */
  predicate Terminated(line: string) { line != "" && line[|line| - 1] == '\n' }

  /** A nonempty piece with a newline at most at its end. */
  predicate LineShaped(line: string) { line != "" && forall i :: 0 <= i < |line| - 1 ==> line[i] != '\n' }

  /** What splitting produces: only the last line may be unterminated. */
  ghost predicate WellSplit(lines: seq<string>) {
    && (forall i :: 0 <= i < |lines| ==> LineShaped(lines[i]))
    && (forall i :: 0 <= i < |lines| - 1 ==> Terminated(lines[i]))
  }

  lemma LinesCons(line: string, rest: string)
    requires LineShaped(line) && Terminated(line)
    ensures Lines(line + rest) == [line] + Lines(rest)
  {
    var body := line[..|line| - 1];
    IndexOfFree(body, '\n', rest);
    assert line + rest == body + ['\n'] + rest;
    assert (line + rest)[..|line|] == line && (line + rest)[|line|..] == rest;
  }

  lemma LinesOne(line: string)
    requires LineShaped(line)
    ensures Lines(line) == [line]
  {
    if Terminated(line) {
      LinesCons(line, "");
      assert line + "" == line;
    }
  }

  lemma {:induction false} LinesWellSplit(s: string)
    ensures WellSplit(Lines(s)) && Concat(Lines(s)) == s && (s != "" ==> Lines(s) != [])
    decreases |s|
  {
    if s != "" {
      var n := IndexOf(s, '\n');
      if n == |s| {
        OneLine(s);
        WellSplitOne(s);
      } else {
        hide Lines, IndexOf, WellSplit, Concat, LineShaped, Terminated;
        LinesWellSplit(s[n + 1..]);
        CutLine(s, n);
        LinesCons(s[..n + 1], s[n + 1..]);
        WellSplitCons(s[..n + 1], Lines(s[n + 1..]));
        ConcatCons(s[..n + 1], Lines(s[n + 1..]));
      }
    }
  }

  lemma CutLine(s: string, n: nat)
    requires n == IndexOf(s, '\n') < |s|
    ensures s == s[..n + 1] + s[n + 1..] && LineShaped(s[..n + 1]) && Terminated(s[..n + 1])
  {
    hide IndexOf;
  }

  lemma ConcatCons(line: string, rest: seq<string>)
    ensures Concat([line] + rest) == line + Concat(rest)
  {
    assert ([line] + rest)[1..] == rest;
  }

  lemma WellSplitOne(line: string)
    requires LineShaped(line)
    ensures WellSplit([line])
  {
    hide LineShaped;
  }

  lemma WellSplitCons(first: string, rest: seq<string>)
    requires LineShaped(first) && Terminated(first) && WellSplit(rest)
    ensures WellSplit([first] + rest)
  {
    hide LineShaped, Terminated;
  }

  lemma {:induction false} LinesOfConcat(lines: seq<string>)
    requires WellSplit(lines)
    ensures Lines(Concat(lines)) == lines
  {
    if |lines| == 1 {
      assert Concat(lines) == lines[0] + Concat([]) == lines[0];
      LinesOne(lines[0]);
    } else if lines != [] {
      LinesOfConcat(lines[1..]);
      LinesCons(lines[0], Concat(lines[1..]));
    }
  }

  /** Splitting gives these lines back exactly when only the last one lacks its newline. */
  lemma LinesOfConcatIff(lines: seq<string>)
    ensures Lines(Concat(lines)) == lines <==> WellSplit(lines)
  {
    LinesWellSplit(Concat(lines));
    if WellSplit(lines) { LinesOfConcat(lines); }
  }

  lemma {:induction false} ConcatSplits(a: seq<string>, b: seq<string>)
    ensures Concat(a + b) == Concat(a) + Concat(b)
  {
    if a == [] {
      assert a + b == b;
    } else {
      ConcatSplits(a[1..], b);
      assert (a + b)[1..] == a[1..] + b && (a + b)[0] == a[0];
      assert a[0] + (Concat(a[1..]) + Concat(b)) == (a[0] + Concat(a[1..])) + Concat(b);
    }
  }

  lemma {:induction false} LinesAfter(a: seq<string>, rest: string)
    requires forall i :: 0 <= i < |a| ==> LineShaped(a[i]) && Terminated(a[i])
    ensures Lines(Concat(a) + rest) == a + Lines(rest)
  {
    hide Lines, LineShaped, Terminated;
    if a == [] {
      assert Concat(a) + rest == rest;
    } else {
      LinesAfter(a[1..], rest);
      LinesCons(a[0], Concat(a[1..]) + rest);
      assert Concat(a) + rest == a[0] + (Concat(a[1..]) + rest);
      assert [a[0]] + (a[1..] + Lines(rest)) == a + Lines(rest);
    }
  }

  // ---------------------------------------------------------------- the marker

  lemma ContainsIn(pre: string, s: string, post: string, t: string)
    requires Contains(s, t)
    ensures Contains(pre + (s + post), t)
  {
    var i :| 0 <= i <= |s| && OccursAt(s, i, t);
    var whole := pre + (s + post);
    assert whole[|pre| + i..|pre| + i + |t|] == s[i..i + |t|];
    assert OccursAt(whole, |pre| + i, t);
  }

  /** A text without newline occurs in a source exactly when it occurs in one of its lines. */
  lemma {:induction false} OccursInALine(s: string, t: string)
    requires t != "" && Free(t, '\n') && Contains(s, t)
    ensures exists k :: 0 <= k < |Lines(s)| && Contains(Lines(s)[k], t)
    decreases |s|
  {
    hide Lines, IndexOf, OccursAt, LineShaped, Terminated, Contains, Free;
    var n := IndexOf(s, '\n');
    if n == |s| {
      OnlyLine(s, t);
    } else {
      CutLine(s, n);
      LinesCons(s[..n + 1], s[n + 1..]);
      var lines := Lines(s[n + 1..]);
      assert Lines(s) == [s[..n + 1]] + lines;
      InFirstOrRest(s, t, n);
      if Contains(s[..n + 1], t) {
        assert Lines(s)[0] == s[..n + 1];
      } else {
        OccursInALine(s[n + 1..], t);
        var k :| 0 <= k < |lines| && Contains(lines[k], t);
        assert Lines(s)[k + 1] == lines[k];
      }
    }
  }

  lemma OnlyLine(s: string, t: string)
    requires t != "" && Contains(s, t) && IndexOf(s, '\n') == |s|
    ensures |Lines(s)| == 1 && Lines(s)[0] == s
  {
  }

  lemma InFirstOrRest(s: string, t: string, n: nat)
    requires t != "" && Free(t, '\n') && n < |s| && s[n] == '\n' && Contains(s, t)
    ensures Contains(s[..n + 1], t) || Contains(s[n + 1..], t)
  {
    var i :| 0 <= i <= |s| && OccursAt(s, i, t);
    hide OccursAt, Contains;
    if i <= n { OccursInFirst(s, t, n, i); } else { OccursInRest(s, t, n, i); }
  }

  lemma OccursInFirst(s: string, t: string, n: nat, i: nat)
    requires t != "" && Free(t, '\n') && n < |s| && s[n] == '\n' && i <= n && OccursAt(s, i, t)
    ensures Contains(s[..n + 1], t)
  {
    assert forall j :: 0 <= j < |t| ==> s[i + j] == s[i..i + |t|][j] == t[j];
    assert s[..n + 1][i..i + |t|] == s[i..i + |t|];
    assert OccursAt(s[..n + 1], i, t);
  }

  lemma OccursInRest(s: string, t: string, n: nat, i: nat)
    requires n < i && OccursAt(s, i, t)
    ensures Contains(s[n + 1..], t)
  {
    assert s[n + 1..][i - n - 1..i - n - 1 + |t|] == s[i..i + |t|];
    assert OccursAt(s[n + 1..], i - n - 1, t);
  }

  lemma {:induction false} LineInConcat(lines: seq<string>, k: nat, t: string)
    requires k < |lines| && Contains(lines[k], t)
    ensures Contains(Concat(lines), t)
  {
    if k == 0 {
      ContainsIn("", lines[0], Concat(lines[1..]), t);
      assert "" + (lines[0] + Concat(lines[1..])) == Concat(lines);
    } else {
      LineInConcat(lines[1..], k - 1, t);
      ContainsIn(lines[0], Concat(lines[1..]), "", t);
      assert lines[0] + (Concat(lines[1..]) + "") == Concat(lines);
    }
  }

  /** Reordering lines neither adds nor removes the marker. */
  lemma MarkerKept(source: string, lines: seq<string>)
    requires Contains(source, MARKER) && multiset(lines) == multiset(Lines(source))
    ensures Contains(Concat(lines), MARKER)
  {
    assert Free(MARKER, '\n') && MARKER != "";
    hide Contains, MARKER, Lines, Concat;
    OccursInALine(source, MARKER);
    var k :| 0 <= k < |Lines(source)| && Contains(Lines(source)[k], MARKER);
    SameMembers(lines, Lines(source));
    assert Lines(source)[k] in lines;
    var j :| 0 <= j < |lines| && lines[j] == Lines(source)[k];
    LineInConcat(lines, j, MARKER);
  }

  // ---------------------------------------------------------------- the unterminated last line

  /** The run that reaches the end of the lines, if there is one. */
  function TailRun(lines: seq<string>): seq<string>
    decreases |lines|
  {
    if lines == [] then []
    else if !IsHeader(lines[0]) then TailRun(lines[1..])
    else if RunEnd(lines) == |lines| then lines[RunStart(lines)..]
    else TailRun(lines[RunEnd(lines)..])
  }

  /** The last line has its newline, or no line of its run sorts behind it. */
  ghost predicate SafeTail(lines: seq<string>) {
    lines == [] || Terminated(lines[|lines| - 1])
    || forall i :: 0 <= i < |TailRun(lines)| ==> KeyLeq(TailRun(lines)[i], lines[|lines| - 1])
  }

  ghost predicate AllTerminated(lines: seq<string>) {
    forall i :: 0 <= i < |lines| ==> LineShaped(lines[i]) && Terminated(lines[i])
  }

  lemma WellSplitAfter(a: seq<string>, b: seq<string>)
    requires AllTerminated(a)
    ensures WellSplit(a + b) <==> WellSplit(b)
  {
    hide LineShaped, Terminated;
    if WellSplit(a + b) {
      forall i | 0 <= i < |b| ensures LineShaped(b[i]) { assert b[i] == (a + b)[|a| + i]; }
      forall i | 0 <= i < |b| - 1 ensures Terminated(b[i]) { assert b[i] == (a + b)[|a| + i]; }
    }
  }

  lemma WellSplitHead(lines: seq<string>, n: nat)
    requires WellSplit(lines) && n < |lines|
    ensures AllTerminated(lines[..n]) && WellSplit(lines[n..])
  {
    hide LineShaped, Terminated;
    forall i | 0 <= i < |lines| - n ensures LineShaped(lines[n..][i]) { assert lines[n..][i] == lines[n + i]; }
  }

  lemma AllTerminatedPermuted(a: seq<string>, b: seq<string>)
    requires AllTerminated(a) && multiset(a) == multiset(b)
    ensures AllTerminated(b)
  {
    hide LineShaped, Terminated;
    SameMembers(a, b);
    forall i | 0 <= i < |b| ensures LineShaped(b[i]) && Terminated(b[i]) { assert b[i] in a; }
  }

  /** Sorting the last run of a source keeps it well split exactly when its last line may stay last. */
  lemma TailRunSplit(run: seq<string>)
    requires WellSplit(run) && forall i :: 0 <= i < |run| ==> IsDeclaration(run[i])
    ensures WellSplit(SortRun(run)) <==>
              run == [] || Terminated(run[|run| - 1]) || forall i :: 0 <= i < |run| ==> KeyLeq(run[i], run[|run| - 1])
  {
    hide LineShaped, Terminated, KeyLeq, IsDeclaration;
    SortedRun(run);
    var sorted := SortRun(run);
    if run != [] {
      var n := |run| - 1;
      WellSplitHead(run, n);
      if Terminated(run[n]) {
        assert AllTerminated(run);
        AllTerminatedPermuted(run, sorted);
        WellSplitAfter(sorted, []);
        assert sorted + [] == sorted;
      } else {
        if forall i :: 0 <= i < |run| ==> KeyLeq(run[i], run[n]) {
          SortKeepsGreatestLast(run[..n], run[n], KeyLeq);
          assert run == run[..n] + [run[n]];
          SortPermutes(run[..n], KeyLeq);
          AllTerminatedPermuted(run[..n], SortRun(run[..n]));
          WellSplitAfter(SortRun(run[..n]), [run[n]]);
        }
        if WellSplit(sorted) { LastIsGreatest(run, sorted); }
      }
    }
  }

  lemma LastIsGreatest(run: seq<string>, sorted: seq<string>)
    requires run != [] && multiset(sorted) == multiset(run) && Sorted(sorted, KeyLeq) && WellSplit(sorted)
    requires !Terminated(run[|run| - 1])
    ensures forall i :: 0 <= i < |run| ==> KeyLeq(run[i], run[|run| - 1])
  {
    hide KeyLeq, LineShaped, Terminated;
    KeyLeqOrder();
    SameMembers(sorted, run);
    SameLength(sorted, run);
    var last, n := run[|run| - 1], |sorted| - 1;
    assert last in sorted;
    var p :| 0 <= p < |sorted| && sorted[p] == last;
    assert p == n;
    forall i | 0 <= i < |run| ensures KeyLeq(run[i], last) {
      assert run[i] in sorted;
      var j :| 0 <= j < |sorted| && sorted[j] == run[i];
      assert j < n ==> KeyLeq(sorted[j], sorted[n]);
    }
  }

  lemma OneOtherLine(lines: seq<string>)
    requires |lines| == 1 && !IsHeader(lines[0])
    ensures Normalize(lines) == lines && TailRun(lines) == []
  {
    hide IsHeader;
    assert lines[1..] == [] && Normalize([]) == [] && TailRun([]) == [];
  }

  lemma {:induction false} NormalizedSplit(lines: seq<string>)
    requires WellSplit(lines)
    ensures WellSplit(Normalize(lines)) <==> SafeTail(lines)
    decreases |lines|
  {
    hide LineShaped, Terminated, KeyLeq, IsDeclaration, IsHeader, IsSkipped, RunStart, RunEnd, SortRun;
    if lines == [] {
    } else if !IsHeader(lines[0]) {
      if |lines| == 1 {
        OneOtherLine(lines);
      } else {
        WellSplitHead(lines, 1);
        NormalizedSplit(lines[1..]);
        WellSplitAfter(lines[..1], Normalize(lines[1..]));
        assert lines[..1] == [lines[0]] && lines[1..][|lines| - 2] == lines[|lines| - 1];
        assert TailRun(lines) == TailRun(lines[1..]);
      }
    } else {
      NormalizedSegmentSplit(lines);
      if RunEnd(lines) < |lines| {
        WellSplitHead(lines, RunEnd(lines));
        NormalizedSplit(lines[RunEnd(lines)..]);
        assert lines[RunEnd(lines)..][|lines| - RunEnd(lines) - 1] == lines[|lines| - 1];
        assert TailRun(lines) == TailRun(lines[RunEnd(lines)..]);
      }
    }
  }

  lemma NormalizedSegmentSplit(lines: seq<string>)
    requires WellSplit(lines) && lines != [] && IsHeader(lines[0])
    ensures RunEnd(lines) < |lines| ==>
              (WellSplit(Normalize(lines)) <==> WellSplit(Normalize(lines[RunEnd(lines)..])))
    ensures RunEnd(lines) == |lines| ==> (WellSplit(Normalize(lines)) <==> SafeTail(lines))
  {
    hide LineShaped, Terminated, KeyLeq, IsDeclaration, IsHeader, IsSkipped, RunStart, RunEnd, SortRun;
    if RunEnd(lines) < |lines| { InnerSegmentSplit(lines); } else { LastSegmentSplit(lines); }
  }

  lemma InnerSegmentSplit(lines: seq<string>)
    requires WellSplit(lines) && lines != [] && IsHeader(lines[0]) && RunEnd(lines) < |lines|
    ensures WellSplit(Normalize(lines)) <==> WellSplit(Normalize(lines[RunEnd(lines)..]))
  {
    hide WellSplit, AllTerminated, IsDeclaration, IsHeader, IsSkipped, RunStart, RunEnd, SortRun, Normalize, Sorted;
    var start, end := RunStart(lines), RunEnd(lines);
    var run, rest := lines[start..end], Normalize(lines[end..]);
    SegmentOf(lines);
    NormalizeSegment(lines, start, end);
    RunOf(lines, start, end);
    SortedRun(run);
    WellSplitHead(lines, end);
    SubTerminated(lines[..end], start);
    assert lines[..end][..start] == lines[..start] && lines[..end][start..] == run;
    AllTerminatedPermuted(run, SortRun(run));
    WellSplitAfter(SortRun(run), rest);
    WellSplitAfter(lines[..start], SortRun(run) + rest);
  }

  lemma LastSegmentSplit(lines: seq<string>)
    requires WellSplit(lines) && lines != [] && IsHeader(lines[0]) && RunEnd(lines) == |lines|
    ensures WellSplit(Normalize(lines)) <==> SafeTail(lines)
  {
    hide WellSplit, AllTerminated, IsDeclaration, IsHeader, IsSkipped, RunStart, RunEnd, SortRun, Terminated, KeyLeq,
         Sorted, Normalize, TailRun;
    var start := RunStart(lines);
    var run := lines[start..];
    SegmentOf(lines);
    RunOf(lines, start, |lines|);
    assert lines[start..|lines|] == run;
    LastSegment(lines);
    if start == |lines| {
      SortRunEmpty();
      assert lines[..start] == lines && run == [] && lines + [] == lines;
    } else {
      WellSplitHead(lines, start);
      TailRunSplit(run);
      WellSplitAfter(lines[..start], SortRun(run));
      assert run[|run| - 1] == lines[|lines| - 1];
    }
  }

  lemma LastSegment(lines: seq<string>)
    requires lines != [] && IsHeader(lines[0]) && RunEnd(lines) == |lines|
    ensures Normalize(lines) == lines[..RunStart(lines)] + SortRun(lines[RunStart(lines)..])
    ensures TailRun(lines) == lines[RunStart(lines)..]
  {
    hide IsHeader, RunStart, RunEnd, SortRun;
    var start := RunStart(lines);
    assert lines[start..|lines|] == lines[start..] && lines[|lines|..] == [] && Normalize([]) == [];
    assert SortRun(lines[start..]) + [] == SortRun(lines[start..]);
  }

  lemma SortRunEmpty()
    ensures SortRun([]) == []
  {
  }

  lemma SubTerminated(lines: seq<string>, n: nat)
    requires AllTerminated(lines) && n <= |lines|
    ensures AllTerminated(lines[..n]) && AllTerminated(lines[n..])
  {
    hide LineShaped, Terminated;
  }

  /**
   When the source is normalised, the lines of the result are the normalised lines exactly when the last line has
   its newline or no line of its run sorts behind it; otherwise it is joined to the line that now follows it.
   */
  lemma LinesSurviveIff(source: string)
    requires Contains(source, MARKER) && NormalizeSource(source).Some?
    ensures Lines(NormalizeSource(source).value) == Normalize(Lines(source)) <==> SafeTail(Lines(source))
  {
    hide SafeTail, Normalize, WellSplit, Contains, Panics;
    LinesWellSplit(source);
    NormalizedSplit(Lines(source));
    LinesOfConcatIff(Normalize(Lines(source)));
  }

  const EXAMPLE_HEADER := MARKER + ("wrapCall" + ("aotContext" + ("argumentsPtr" + ("[](" + "\n"))))
  const EXAMPLE_FIRST := ['i', 'n', 't', ' ', 'r', '2', '_', '0', ';', '\n']
  const EXAMPLE_LAST := ['i', 'n', 't', ' ', 'r', '1', '_', '0', ';']

  lemma ExampleDeclaration(line: string, digit: char, post: string)
    requires Decimal.IsDigit(digit) && Blank(post) && line == ['i', 'n', 't', ' ', 'r', digit, '_', '0', ';'] + post
    ensures Key(line) == Some((Decimal.DigitValue(digit), 0)) && !KeyPanics(line)
  {
    hide Key, Declaration, ParseName, LastSeparator, Trim, KeyPanics;
    var d := ['i', 'n', 't', ' ', 'r', digit, '_', '0'];
    assert line == "" + (((d + "") + ";") + post);
    ExampleText(digit);
    hide IsWhitespace, Forbidden;
    DeclarationOf(line, "", d, "", post);
    KeyOfParts(line, d, 3);
    PanicsByParts(line, d, 3);
    ExampleName(digit);
    assert d[4..] == ['r', digit, '_', '0'];
  }

  lemma ExampleText(digit: char)
    requires Decimal.IsDigit(digit)
    ensures var d := ['i', 'n', 't', ' ', 'r', digit, '_', '0'];
      NoneForbidden(d) && LastSeparator(d) == 3 && Trim(d[..3]) != "" && !IsWhitespace(d[0]) && !IsWhitespace(d[7])
  {
    var d := ['i', 'n', 't', ' ', 'r', digit, '_', '0'];
    SeparatorIs(d, 3);
    assert !IsWhitespace(d[..3][0]);
  }

  lemma ExampleName(digit: char)
    requires Decimal.IsDigit(digit)
    ensures ParseName(['r', digit, '_', '0']) == Some((Decimal.DigitValue(digit), 0))
  {
    var name := ['r', digit, '_', '0'];
    IndexOfFree([digit], '_', "0");
    assert name[1..] == [digit] + ['_'] + "0";
    assert name[1..][..1] == [digit] && name[1..][2..] == "0";
    assert [digit][..0] == "" && Decimal.Value([digit]) == Decimal.DigitValue(digit);
    assert "0"[..0] == "" && Decimal.Value("0") == 0;
  }

  lemma Somewhere(whole: string, pre: string, t: string, post: string)
    requires whole == pre + (t + post)
    ensures Contains(whole, t)
  {
    assert t[0..0 + |t|] == t;
    assert OccursAt(t, 0, t);
    ContainsIn(pre, t, post, t);
  }

  lemma ExampleHeader()
    ensures IsHeader(EXAMPLE_HEADER) && Contains(EXAMPLE_HEADER, MARKER) && LineShaped(EXAMPLE_HEADER)
            && Terminated(EXAMPLE_HEADER)
  {
    hide Contains;
    var e := "[](" + "\n";
    var d := "argumentsPtr" + e;
    var c := "aotContext" + d;
    Somewhere(EXAMPLE_HEADER, "", MARKER, "wrapCall" + c);
    Somewhere(EXAMPLE_HEADER, MARKER, "wrapCall", c);
    Somewhere(EXAMPLE_HEADER, MARKER + "wrapCall", "aotContext", d);
    Somewhere(EXAMPLE_HEADER, MARKER + "wrapCall" + "aotContext", "argumentsPtr", e);
    Somewhere(EXAMPLE_HEADER, MARKER + "wrapCall" + "aotContext" + "argumentsPtr", "[](", "\n");
    var body := MARKER + ("wrapCall" + ("aotContext" + ("argumentsPtr" + "[](")));
    assert Free(MARKER, '\n') && Free("wrapCall", '\n') && Free("aotContext", '\n') && Free("argumentsPtr", '\n')
           && Free("[](", '\n');
    assert Free(body, '\n');
    assert EXAMPLE_HEADER == body + "\n";
  }

  /** A declaration without its newline that sorts before another one: the two end up on one line. */
  lemma UnterminatedLastLineIsJoined()
    ensures var source := EXAMPLE_HEADER + (EXAMPLE_FIRST + EXAMPLE_LAST);
      && Contains(source, MARKER) && NormalizeSource(source).Some?
      && Lines(NormalizeSource(source).value) != Normalize(Lines(source))
  {
    hide IsHeader, Contains, Key, KeyPanics, Normalize, Panics, EXAMPLE_HEADER, Lines;
    var source := EXAMPLE_HEADER + (EXAMPLE_FIRST + EXAMPLE_LAST);
    ExampleHeader();
    ContainsIn("", EXAMPLE_HEADER, EXAMPLE_FIRST + EXAMPLE_LAST, MARKER);
    assert "" + source == source;
    LinesCons(EXAMPLE_HEADER, EXAMPLE_FIRST + EXAMPLE_LAST);
    LinesCons(EXAMPLE_FIRST, EXAMPLE_LAST);
    LinesOne(EXAMPLE_LAST);
    var lines := [EXAMPLE_HEADER, EXAMPLE_FIRST, EXAMPLE_LAST];
    assert Lines(source) == lines;
    ExampleDeclaration(EXAMPLE_FIRST, '2', "\n");
    ExampleDeclaration(EXAMPLE_LAST, '1', "");
    ExampleTail(lines);
    LinesSurviveIff(source);
  }

  lemma ExampleTail(lines: seq<string>)
    requires lines == [EXAMPLE_HEADER, EXAMPLE_FIRST, EXAMPLE_LAST] && IsHeader(EXAMPLE_HEADER)
    requires Key(EXAMPLE_FIRST) == Some((2, 0)) && Key(EXAMPLE_LAST) == Some((1, 0))
    requires !KeyPanics(EXAMPLE_FIRST) && !KeyPanics(EXAMPLE_LAST)
    ensures !SafeTail(lines) && !Panics(lines)
  {
    hide IsHeader, Key, IsSkipped, KeyPanics;
    DeclarationsStandApart(EXAMPLE_FIRST);
    SegmentsAreUnique(lines, 1, 3);
    PanicsSegment(lines, 1, 3);
    assert lines[3..] == [] && lines[1..] == [EXAMPLE_FIRST, EXAMPLE_LAST];
    assert !KeyLeq(TailRun(lines)[0], lines[2]);
  }

  /** A declaration whose last separator is a no-break space, which takes two bytes. */
  const EXAMPLE_WIDE := ['i', 'n', 't', '\U{A0}', 'r', '1', '_', '0', ';', '\n']

  lemma ExampleWide()
    ensures KeyPanics(EXAMPLE_WIDE) && !IsSkipped(EXAMPLE_WIDE) && LineShaped(EXAMPLE_WIDE)
  {
    hide KeyPanics, Declaration, LastSeparator, Trim;
    var d := ['i', 'n', 't', '\U{A0}', 'r', '1', '_', '0'];
    WideText();
    hide IsWhitespace, Forbidden;
    assert EXAMPLE_WIDE == "" + (((d + "") + ";") + "\n");
    DeclarationOf(EXAMPLE_WIDE, "", d, "", "\n");
    PanicsByParts(EXAMPLE_WIDE, d, 3);
    TrimOf("", d + ";", "\n");
    assert EXAMPLE_WIDE == "" + ((d + ";") + "\n");
  }

  lemma WideText()
    ensures var d := ['i', 'n', 't', '\U{A0}', 'r', '1', '_', '0'];
      && NoneForbidden(d) && LastSeparator(d) == 3 && !IsWhitespace(d[0]) && !IsWhitespace(d[7])
      && Blank("\n") && !IsWhitespace(';')
  {
    SeparatorIs(['i', 'n', 't', '\U{A0}', 'r', '1', '_', '0'], 3);
  }

  /** Such a line behind a header aborts the whole normalisation. */
  lemma WideSeparatorAborts()
    ensures NormalizeSource(EXAMPLE_HEADER + EXAMPLE_WIDE) == None
  {
    hide IsHeader, Contains, KeyPanics, Normalize, EXAMPLE_HEADER, EXAMPLE_WIDE, Lines, IsSkipped, LineShaped,
         Terminated;
    var source := EXAMPLE_HEADER + EXAMPLE_WIDE;
    ExampleHeader();
    ExampleWide();
    ContainsIn("", EXAMPLE_HEADER, EXAMPLE_WIDE, MARKER);
    assert "" + source == source;
    LinesCons(EXAMPLE_HEADER, EXAMPLE_WIDE);
    LinesOne(EXAMPLE_WIDE);
    var lines := [EXAMPLE_HEADER, EXAMPLE_WIDE];
    assert Lines(source) == lines;
    StartIs(lines, 1);
    assert KeyPanics(lines[1]);
  }

  // ---------------------------------------------------------------- results on sources

  /**
   Two generated sources that differ only in the order of lines inside runs have the same normal form or both abort,
   newline at the end or not, provided keys tell the lines of a run apart.
   */
  lemma NondeterminismErased(a: string, b: string)
    requires SameUpToRuns(Lines(a), Lines(b)) && RunsDistinguish(Lines(a))
    ensures Contains(a, MARKER) <==> Contains(b, MARKER)
    ensures Contains(a, MARKER) ==> NormalizeSource(a) == NormalizeSource(b)
  {
    hide SameUpToRuns, RunsDistinguish, Normalize, Contains, Panics;
    SameNormalForm(Lines(a), Lines(b));
    PanicsAlike(Lines(a), Lines(b));
    Aligned(Lines(a), Lines(b));
    LinesWellSplit(a);
    LinesWellSplit(b);
    if Contains(a, MARKER) { MarkerKept(a, Lines(b)); }
    if Contains(b, MARKER) { MarkerKept(b, Lines(a)); }
  }

  /** Splitting a sorted last run after joining its unterminated line leaves a sorted run. */
  lemma {:induction false} JoinedRun(run: seq<string>)
    requires Sorted(run, KeyLeq) && (forall i :: 0 <= i < |run| ==> IsDeclaration(run[i]) && LineShaped(run[i]))
    requires forall i, j :: 0 <= i < j < |run| ==> Terminated(run[i]) || Terminated(run[j])
    ensures var joined := Lines(Concat(run));
      && Sorted(joined, KeyLeq) && (forall i :: 0 <= i < |joined| ==> IsDeclaration(joined[i]))
      && (run != [] ==> forall i :: 0 <= i < |joined| ==> KeyLeq(run[0], joined[i]))
      && (Calm(run) ==> Calm(joined))
  {
    hide KeyLeq, IsDeclaration, LineShaped, Terminated, Lines, Concat, KeyPanics;
    KeyLeqOrder();
    if run == [] {
      NoLines();
    } else if Terminated(run[0]) {
      JoinedRun(run[1..]);
      FirstTerminated(run);
      if |run| == 1 { NoLines(); }
      var rest := Lines(Concat(run[1..]));
      forall i | 0 <= i < |rest| ensures KeyLeq(run[0], rest[i]) {
        assert KeyLeq(run[0], run[1]) && KeyLeq(run[1..][0], rest[i]);
      }
    } else if |run| == 1 {
      OneLine(run[0]);
      assert run == [run[0]];
    } else {
      FirstJoined(run);
      JoinedKey(run[0], run[1]);
      assert forall i :: 0 <= i < |run[1..]| ==> run[1..][i] == run[i + 1];
    }
  }

  /** No key of these lines aborts the scan. */
  ghost predicate Calm(lines: seq<string>) { forall i :: 0 <= i < |lines| ==> !KeyPanics(lines[i]) }

  lemma KeyLeqOrder()
    ensures forall x :: KeyLeq(x, x)
    ensures forall x, y, z {:trigger KeyLeq(x, y), KeyLeq(y, z)} :: KeyLeq(x, y) && KeyLeq(y, z) ==> KeyLeq(x, z)
  {
    hide KeyOf;
  }

  lemma NoLines()
    ensures Lines(Concat([])) == []
  {
  }

  lemma OneLine(line: string)
    requires LineShaped(line)
    ensures Lines(Concat([line])) == [line]
  {
    assert Concat([line]) == line + Concat([]) == line;
    LinesOne(line);
  }

  lemma FirstTerminated(run: seq<string>)
    requires run != [] && LineShaped(run[0]) && Terminated(run[0])
    ensures Lines(Concat(run)) == [run[0]] + Lines(Concat(run[1..]))
  {
    LinesCons(run[0], Concat(run[1..]));
  }

  lemma FirstJoined(run: seq<string>)
    requires |run| >= 2 && LineShaped(run[0]) && !Terminated(run[0]) && AllTerminated(run[1..])
    ensures Lines(Concat(run)) == [run[0] + run[1]] + run[2..]
  {
    var first := run[0] + run[1];
    var rest := run[2..];
    assert run[1..][0] == run[1] && run[1..][1..] == rest;
    assert Concat(run) == first + Concat(rest);
    assert LineShaped(first) && Terminated(first) by {
      forall i | 0 <= i < |first| - 1 ensures first[i] != '\n' {
        assert i >= |run[0]| ==> first[i] == run[1][i - |run[0]|];
      }
    }
    LinesCons(first, Concat(rest));
    SubTerminated(run[1..], 1);
    WellSplitAfter(rest, []);
    assert rest + [] == rest;
    LinesOfConcat(rest);
  }

  lemma JoinedKey(first: string, second: string)
    requires IsDeclaration(first) && IsDeclaration(second)
    ensures IsDeclaration(first + second) && KeyOf(first + second) == KeyOf(second)
    ensures KeyPanics(first + second) == KeyPanics(second)
    ensures forall x ::
              (KeyLeq(x, second) <==> KeyLeq(x, first + second)) && (KeyLeq(second, x) <==> KeyLeq(first + second, x))
  {
    hide Key, KeyPanics;
    KeyOfGlued(first, second);
  }

  /** The text after normalising, split again. */
  function Resplit(lines: seq<string>): seq<string> { Lines(Concat(Normalize(lines))) }

  lemma ResplitFirst(lines: seq<string>)
    requires WellSplit(lines) && lines != []
    ensures Resplit(lines) != [] && Resplit(lines)[0] == lines[0]
  {
    hide Normalize, SameUpToRuns, Lines, Concat, LineShaped, Terminated;
    NormalizePermutesInsideRuns(lines);
    SameFirst(lines, Normalize(lines));
    if |lines| == 1 {
      assert Normalize(lines) == [lines[0]];
      OneLine(lines[0]);
    } else {
      FirstTerminated(Normalize(lines));
    }
  }

  lemma ResplitAfter(head: seq<string>, rest: seq<string>)
    requires AllTerminated(head)
    ensures Lines(Concat(head + rest)) == head + Lines(Concat(rest))
  {
    hide LineShaped, Terminated, Lines, Concat;
    ConcatSplits(head, rest);
    LinesAfter(head, Concat(rest));
  }

  /** A segment whose run is sorted is settled when what follows is. */
  lemma SettledSegment(head: seq<string>, run: seq<string>, rest: seq<string>)
    requires head != [] && IsHeader(head[0]) && forall i :: 1 <= i < |head| ==> IsSkipped(head[i])
    requires Sorted(run, KeyLeq) && forall i :: 0 <= i < |run| ==> IsDeclaration(run[i])
    requires rest != [] ==> !IsDeclaration(rest[0]) && (run == [] ==> !IsSkipped(rest[0]))
    requires Normalize(rest) == rest
    ensures Normalize(head + (run + rest)) == head + (run + rest)
  {
    hide IsHeader, IsSkipped, IsDeclaration, KeyLeq, Normalize, SortRun;
    Assembled(head, run, rest);
    Cut(head, run, rest);
    NormalizeSegment(head + (run + rest), |head|, |head| + |run|);
    SortedStays(run);
  }

  lemma Assembled(head: seq<string>, run: seq<string>, rest: seq<string>)
    requires head != [] && IsHeader(head[0]) && forall i :: 1 <= i < |head| ==> IsSkipped(head[i])
    requires forall i :: 0 <= i < |run| ==> IsDeclaration(run[i])
    requires rest != [] ==> !IsDeclaration(rest[0]) && (run == [] ==> !IsSkipped(rest[0]))
    ensures Segmented(head + (run + rest), |head|, |head| + |run|)
  {
    hide IsHeader, IsSkipped, IsDeclaration;
  }

  /** A segment none of whose examined lines aborts is as calm as what follows it. */
  lemma CalmSegment(head: seq<string>, run: seq<string>, rest: seq<string>)
    requires head != [] && IsHeader(head[0]) && forall i :: 1 <= i < |head| ==> IsSkipped(head[i])
    requires Calm(run) && forall i :: 0 <= i < |run| ==> IsDeclaration(run[i])
    requires rest != [] ==> !IsDeclaration(rest[0]) && (run == [] ==> !IsSkipped(rest[0])) && !KeyPanics(rest[0])
    requires !Panics(rest)
    ensures !Panics(head + (run + rest))
  {
    hide IsHeader, IsSkipped, IsDeclaration, KeyPanics, Panics;
    var all := head + (run + rest);
    Assembled(head, run, rest);
    Cut(head, run, rest);
    PanicsSegment(all, |head|, |head| + |run|);
    forall i | |head| <= i <= |head| + |run| && i < |all| ensures !KeyPanics(all[i]) {
      assert all[i] == if i < |head| + |run| then run[i - |head|] else rest[0];
    }
  }

  lemma {:induction false} ResplitSettled(lines: seq<string>)
    requires WellSplit(lines)
    ensures Normalize(Resplit(lines)) == Resplit(lines)
    decreases |lines|
  {
    hide LineShaped, Terminated, KeyLeq, IsDeclaration, IsHeader, IsSkipped, RunStart, RunEnd, SortRun, Lines, Concat;
    if lines == [] {
      NoLines();
    } else if !IsHeader(lines[0]) {
      if |lines| == 1 {
        assert Normalize(lines) == [lines[0]];
        OneLine(lines[0]);
      } else {
        WellSplitHead(lines, 1);
        ResplitSettled(lines[1..]);
        ResplitAfter([lines[0]], Normalize(lines[1..]));
        assert lines[..1] == [lines[0]];
        assert ([lines[0]] + Resplit(lines[1..]))[1..] == Resplit(lines[1..]);
      }
    } else if RunEnd(lines) < |lines| {
      WellSplitHead(lines, RunEnd(lines));
      ResplitSettled(lines[RunEnd(lines)..]);
      ResplitSegment(lines);
    } else {
      ResplitTail(lines);
    }
  }

  /** Splitting again what normalising made of a segment that is not the last. */
  lemma ResplitInner(lines: seq<string>)
    requires WellSplit(lines) && lines != [] && IsHeader(lines[0]) && RunEnd(lines) < |lines|
    ensures Resplit(lines)
         == lines[..RunStart(lines)]
             + (SortRun(lines[RunStart(lines)..RunEnd(lines)]) + Resplit(lines[RunEnd(lines)..]))
  {
    hide LineShaped, Terminated, KeyLeq, IsDeclaration, IsHeader, IsSkipped, RunStart, RunEnd, SortRun, Lines, Concat,
         Normalize, Sorted;
    var start, end := RunStart(lines), RunEnd(lines);
    var head, run, rest := lines[..start], lines[start..end], lines[end..];
    SegmentOf(lines);
    NormalizeSegment(lines, start, end);
    RunOf(lines, start, end);
    SortedRun(run);
    WellSplitHead(lines, end);
    SubTerminated(lines[..end], start);
    assert lines[..end][..start] == head && lines[..end][start..] == run;
    AllTerminatedPermuted(run, SortRun(run));
    ResplitAfter(head, SortRun(run) + Normalize(rest));
    ResplitAfter(SortRun(run), Normalize(rest));
  }

  lemma ResplitSegment(lines: seq<string>)
    requires WellSplit(lines) && lines != [] && IsHeader(lines[0]) && RunEnd(lines) < |lines|
    requires Normalize(Resplit(lines[RunEnd(lines)..])) == Resplit(lines[RunEnd(lines)..])
    ensures Normalize(Resplit(lines)) == Resplit(lines)
  {
    hide LineShaped, Terminated, KeyLeq, IsDeclaration, IsHeader, IsSkipped, RunStart, RunEnd, SortRun, Resplit,
         Normalize;
    var start, end := RunStart(lines), RunEnd(lines);
    SegmentOf(lines);
    RunOf(lines, start, end);
    SortedRun(lines[start..end]);
    ResplitInner(lines);
    WellSplitHead(lines, end);
    ResplitFirst(lines[end..]);
    SettledSegment(lines[..start], SortRun(lines[start..end]), Resplit(lines[end..]));
  }

  /** The same for the last segment, whose unterminated line may have been joined to another. */
  lemma ResplitLast(lines: seq<string>) returns (joined: seq<string>)
    requires WellSplit(lines) && lines != [] && IsHeader(lines[0]) && RunEnd(lines) == |lines|
    ensures Resplit(lines) == lines[..RunStart(lines)] + joined && Sorted(joined, KeyLeq)
    ensures forall i :: 0 <= i < |joined| ==> IsDeclaration(joined[i])
    ensures Calm(SortRun(lines[RunStart(lines)..RunEnd(lines)])) ==> Calm(joined)
  {
    hide LineShaped, Terminated, KeyLeq, IsDeclaration, IsHeader, IsSkipped, RunStart, RunEnd, SortRun, Lines, Concat,
         Calm;
    var start, end := RunStart(lines), RunEnd(lines);
    var head, run := lines[..start], lines[start..end];
    SegmentOf(lines);
    RunOf(lines, start, end);
    SortedRun(run);
    assert lines[end..] == [] && Normalize(lines) == head + SortRun(run);
    if run == [] {
      assert SortRun(run) == [] && head + SortRun(run) == lines;
      LinesOfConcat(lines);
      joined := SortRun(run);
    } else {
      WellSplitHead(lines, start);
      assert lines[start..] == run;
      OneUnterminated(run, SortRun(run));
      JoinedRun(SortRun(run));
      ResplitAfter(head, SortRun(run));
      joined := Lines(Concat(SortRun(run)));
    }
  }

  lemma ResplitTail(lines: seq<string>)
    requires WellSplit(lines) && lines != [] && IsHeader(lines[0]) && RunEnd(lines) == |lines|
    ensures Normalize(Resplit(lines)) == Resplit(lines)
  {
    hide KeyLeq, IsDeclaration, IsHeader, IsSkipped, RunStart, RunEnd, Resplit, Calm, SortRun;
    SegmentOf(lines);
    var joined := ResplitLast(lines);
    SettledSegment(lines[..RunStart(lines)], joined, []);
    assert joined + [] == joined;
  }

  /** Reordering a well-split run leaves at most one line without its newline. */
  lemma OneUnterminated(run: seq<string>, other: seq<string>)
    requires WellSplit(run) && run != [] && multiset(run) == multiset(other)
    ensures forall i :: 0 <= i < |other| ==> LineShaped(other[i])
    ensures forall i, j :: 0 <= i < j < |other| ==> Terminated(other[i]) || Terminated(other[j])
  {
    hide LineShaped, Terminated;
    SameMembers(run, other);
    SameLength(run, other);
    forall i | 0 <= i < |other| ensures LineShaped(other[i]) { assert other[i] in run; }
    var n := |run| - 1;
    assert run == run[..n] + [run[n]];
    forall i, j | 0 <= i < j < |other| ensures Terminated(other[i]) || Terminated(other[j]) {
      var x := other[i];
      WithoutMultiset(other, i);
      assert Without(other, i)[j - 1] == other[j];
      if !Terminated(x) {
        assert x in run;
        assert x == run[n];
        assert multiset(Without(other, i)) == multiset(run[..n]);
        SameMembers(Without(other, i), run[..n]);
        assert other[j] in run[..n];
      }
    }
  }

  /** What the scan examines in a segment, and what is left to scan. */
  lemma CalmParts(lines: seq<string>)
    requires lines != [] && IsHeader(lines[0]) && !Panics(lines)
    ensures Calm(lines[RunStart(lines)..RunEnd(lines)]) && !Panics(lines[RunEnd(lines)..])
    ensures RunEnd(lines) < |lines| ==> !KeyPanics(lines[RunEnd(lines)])
  {
    hide IsHeader, RunStart, RunEnd, KeyPanics;
  }

  lemma CalmPermuted(a: seq<string>, b: seq<string>)
    requires Calm(a) && multiset(a) == multiset(b)
    ensures Calm(b)
  {
    hide KeyPanics;
    SameMembers(a, b);
    forall i | 0 <= i < |b| ensures !KeyPanics(b[i]) { assert b[i] in a; }
  }

  /** A source that was normalised without aborting is normalised again without aborting. */
  lemma {:induction false} ResplitCalm(lines: seq<string>)
    requires WellSplit(lines) && !Panics(lines)
    ensures !Panics(Resplit(lines))
    decreases |lines|
  {
    hide LineShaped, Terminated, KeyLeq, IsDeclaration, IsHeader, IsSkipped, RunStart, RunEnd, SortRun, Lines, Concat,
         KeyPanics;
    if lines == [] {
      NoLines();
    } else if !IsHeader(lines[0]) {
      if |lines| == 1 {
        assert Normalize(lines) == [lines[0]];
        OneLine(lines[0]);
      } else {
        WellSplitHead(lines, 1);
        ResplitCalm(lines[1..]);
        ResplitAfter([lines[0]], Normalize(lines[1..]));
        assert lines[..1] == [lines[0]];
        assert ([lines[0]] + Resplit(lines[1..]))[1..] == Resplit(lines[1..]);
      }
    } else {
      CalmParts(lines);
      if RunEnd(lines) < |lines| {
        WellSplitHead(lines, RunEnd(lines));
        ResplitCalm(lines[RunEnd(lines)..]);
        CalmInnerSegment(lines);
      } else {
        CalmLastSegment(lines);
      }
    }
  }

  lemma CalmInnerSegment(lines: seq<string>)
    requires WellSplit(lines) && lines != [] && IsHeader(lines[0]) && RunEnd(lines) < |lines|
    requires Calm(lines[RunStart(lines)..RunEnd(lines)]) && !KeyPanics(lines[RunEnd(lines)])
    requires !Panics(Resplit(lines[RunEnd(lines)..]))
    ensures !Panics(Resplit(lines))
  {
    hide LineShaped, Terminated, IsDeclaration, IsHeader, IsSkipped, RunStart, RunEnd, SortRun, Lines, Concat,
         Normalize, KeyPanics, Panics, Calm, Sorted;
    var start, end := RunStart(lines), RunEnd(lines);
    SegmentOf(lines);
    RunOf(lines, start, end);
    SortedRun(lines[start..end]);
    CalmPermuted(lines[start..end], SortRun(lines[start..end]));
    ResplitInner(lines);
    WellSplitHead(lines, end);
    ResplitFirst(lines[end..]);
    CalmSegment(lines[..start], SortRun(lines[start..end]), Resplit(lines[end..]));
  }

  lemma CalmLastSegment(lines: seq<string>)
    requires WellSplit(lines) && lines != [] && IsHeader(lines[0]) && RunEnd(lines) == |lines|
    requires Calm(lines[RunStart(lines)..RunEnd(lines)])
    ensures !Panics(Resplit(lines))
  {
    hide LineShaped, Terminated, IsDeclaration, IsHeader, IsSkipped, RunStart, RunEnd, SortRun, Lines, Concat,
         Normalize, KeyPanics, Calm, Sorted, KeyLeq, Resplit;
    var start, end := RunStart(lines), RunEnd(lines);
    SegmentOf(lines);
    RunOf(lines, start, end);
    SortedRun(lines[start..end]);
    CalmPermuted(lines[start..end], SortRun(lines[start..end]));
    var joined := ResplitLast(lines);
    CalmSegment(lines[..start], joined, []);
    assert joined + [] == joined;
  }

  /**
   Normalising a source twice is normalising it once, even when its last line has no newline: the second pass neither
   aborts nor changes anything.
   */
  lemma NormalizeSourceIdempotent(source: string)
    requires NormalizeSource(source).Some?
    ensures NormalizeSource(NormalizeSource(source).value) == NormalizeSource(source)
  {
    hide Normalize, Contains, Lines, Concat, Panics;
    if Contains(source, MARKER) {
      LinesWellSplit(source);
      ResplitSettled(Lines(source));
      ResplitCalm(Lines(source));
      NormalizePermutesInsideRuns(Lines(source));
      Aligned(Lines(source), Normalize(Lines(source)));
      MarkerKept(source, Normalize(Lines(source)));
      LinesWellSplit(NormalizeSource(source).value);
    }
  }
}
