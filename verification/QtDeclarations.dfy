/**
 Order normalisation of the register declarations in generated ahead-of-time code: inside each run of declarations
 that follows a function header, lines are sorted by register, and nothing else moves.
 */
module QtDeclarations {
  import opened Options
  import opened Decimal
  import opened Sorting
  import opened Text

  const MARKER := "aotBuiltFunctions"
  const U64: nat := 0x1_0000_0000_0000_0000

  // ---------------------------------------------------------------- lines

  predicate Forbidden(c: char) { c in "=,(){}[]" }

  predicate IsSeparator(c: char) { IsWhitespace(c) || c == '*' || c == '&' }

  /** Position of the last separator, or -1. */
  function LastSeparator(s: string): (n: int)
    ensures -1 <= n < |s| && (n >= 0 ==> IsSeparator(s[n]))
    ensures forall i :: n < i < |s| ==> !IsSeparator(s[i])
  {
    if s == "" then -1 else if IsSeparator(s[|s| - 1]) then |s| - 1 else LastSeparator(s[..|s| - 1])
  }

  /** The declaration of a line that ends in a semicolon, without it. */
  function Declaration(line: string): Option<string> {
    var t := Trim(line);
    if t != "" && t[|t| - 1] == ';' then Some(TrimEnd(t[..|t| - 1])) else None
  }

  /** `r<register>_<ordinal>` with both numbers in 64 bits. */
  function ParseName(name: string): Option<(nat, nat)> {
    if name == "" || name[0] != 'r' then None
    else
      var u := IndexOf(name[1..], '_');
      if u == |name| - 1 then None
      else
        var register, ordinal := name[1..][..u], name[1..][u + 1..];
        if register == "" || ordinal == "" || !AllDigits(register) || !AllDigits(ordinal) then None
        else if Value(register) >= U64 || Value(ordinal) >= U64 then None
        else Some((Value(register), Value(ordinal)))
  }

  /** `aot_register_declaration_key`, with the name cut at the separator character. */
  function Key(line: string): Option<(nat, nat)> {
    match Declaration(line)
    case None => None
    case Some(d) =>
      var n := LastSeparator(d);
      if (exists i :: 0 <= i < |d| && Forbidden(d[i])) || n < 0 || Trim(d[..n]) == "" then None
      else ParseName(d[n + 1..])
  }

  /** The original cuts one byte after the separator, which aborts when the separator takes several bytes. */
  predicate KeyPanics(line: string) {
    match Declaration(line)
    case None => false
    case Some(d) =>
      var n := LastSeparator(d);
      !(exists i :: 0 <= i < |d| && Forbidden(d[i])) && n >= 0 && d[n] as int >= 0x80
  }

  predicate IsDeclaration(line: string) { Key(line).Some? }

  predicate IsHeader(line: string) {
    Contains(line, "wrapCall") && Contains(line, "aotContext") && Contains(line, "argumentsPtr")
        && Contains(line, "[](")
  }

  predicate IsSkipped(line: string) {
    Trim(line) == "" || "Q_UNUSED(" <= Trim(line)
  }

  /** The layout of a line that ends in a semicolon. */
  ghost predicate Layout(line: string, pre: string, d: string, mid: string, post: string) {
    && Blank(pre) && Blank(mid) && Blank(post)
    && (d != "" ==> !IsWhitespace(d[0]) && !IsWhitespace(d[|d| - 1])) && (d == "" ==> mid == "")
    && line == pre + (((d + mid) + ";") + post)
  }

  lemma LayoutOf(line: string) returns (pre: string, mid: string, post: string)
    requires Declaration(line).Some?
    ensures Layout(line, pre, Declaration(line).value, mid, post)
  {
    hide IsWhitespace;
    pre, post := TrimCuts(line);
    var t := Trim(line);
    var body := t[..|t| - 1];
    var d := TrimEnd(body);
    mid := body[|d|..];
    assert body == d + mid && t == body + ";";
    assert d == "" ==> body == mid;
  }

  lemma DeclarationOf(line: string, pre: string, d: string, mid: string, post: string)
    requires Layout(line, pre, d, mid, post)
    ensures Declaration(line) == Some(d)
  {
    assert !IsWhitespace(';');
    hide IsWhitespace;
    var m := (d + mid) + ";";
    TrimOf(pre, m, post);
    assert m[..|m| - 1] == d + mid;
    TrimEndSkips(d, mid);
  }

  /** A declaration has no parenthesis, so it is neither a header nor a line that is skipped. */
  lemma DeclarationsStandApart(line: string)
    requires IsDeclaration(line)
    ensures !IsHeader(line) && !IsSkipped(line)
  {
    hide IsWhitespace, Contains, Trim, LastSeparator, ParseName;
    NoParenthesis(line);
    NoCall(line);
    NotUnused(line);
  }

  lemma NoCall(line: string)
    requires Free(line, '(')
    ensures !Contains(line, "[](")
  {
    var call := "[](";
    assert |call| == 3 && call[2] == '(';
    hide OccursAt;
    forall i | 0 <= i <= |line| ensures !OccursAt(line, i, call) { OccursChar(line, i, call, 2); }
  }

  lemma NotUnused(line: string)
    requires Free(line, '(')
    ensures !("Q_UNUSED(" <= Trim(line))
  {
    hide IsWhitespace, Trim;
    var pre, post := TrimCuts(line);
    var t := Trim(line);
    assert |t| >= 9 ==> line[|pre| + 8] == t[8];
  }

  lemma NoParenthesis(line: string)
    requires IsDeclaration(line)
    ensures Free(line, '(')
  {
    hide IsWhitespace, LastSeparator, ParseName, Declaration;
    var pre, mid, post := LayoutOf(line);
    assert Forbidden('(');
    BlankHasNone(pre);
    BlankHasNone(mid);
    BlankHasNone(post);
  }

  lemma BlankHasNone(s: string)
    requires Blank(s)
    ensures Free(s, '(')
  {
    assert !IsWhitespace('(');
  }

  lemma SeparatorIs(s: string, n: int)
    requires 0 <= n < |s| && IsSeparator(s[n]) && forall i :: n < i < |s| ==> !IsSeparator(s[i])
    ensures LastSeparator(s) == n
  {
    hide IsSeparator;
    var m := LastSeparator(s);
    var atM := if m >= 0 then s[m] else ' ';
  }

  ghost predicate NoneForbidden(s: string) { forall i :: 0 <= i < |s| ==> !Forbidden(s[i]) }

  lemma BlankAllowed(s: string)
    requires Blank(s)
    ensures NoneForbidden(s)
  {
  }

  /** The parts of a declaration with a key. */
  lemma KeyParts(line: string) returns (d: string, n: nat)
    requires IsDeclaration(line)
    ensures Declaration(line) == Some(d) && n < |d| && n == LastSeparator(d) && NoneForbidden(d) && Trim(d[..n]) != ""
    ensures Key(line) == ParseName(d[n + 1..])
  {
    hide Declaration, ParseName, Trim, IsWhitespace, Forbidden;
    d := Declaration(line).value;
    n := LastSeparator(d);
  }

  lemma KeyOfParts(line: string, d: string, n: nat)
    requires Declaration(line) == Some(d) && n < |d| && n == LastSeparator(d) && NoneForbidden(d) && Trim(d[..n]) != ""
    ensures Key(line) == ParseName(d[n + 1..])
  {
    hide Declaration, ParseName, Trim, IsWhitespace, Forbidden;
  }

  /** Two declarations on one line have the key of the second, and abort only if the second would. */
  lemma KeyOfGlued(first: string, second: string)
    requires IsDeclaration(first) && IsDeclaration(second)
    ensures Key(first + second) == Key(second) && KeyPanics(first + second) == KeyPanics(second)
  {
    hide Declaration, ParseName, IsWhitespace, Forbidden, Key, KeyPanics;
    var d1, n1 := KeyParts(first);
    var d2, n2 := KeyParts(second);
    var pre1, mid1, post1 := LayoutOf(first);
    var pre2, mid2, post2 := LayoutOf(second);
    var gap := (mid1 + ";") + (post1 + pre2);
    var d := d1 + (gap + d2);
    GluedText(pre1, d1, mid1, post1, pre2, d2, mid2, post2);
    DeclarationOf(first + second, pre1, d, mid2, post2);
    GapAllowed(mid1, post1, pre2);
    var n := |d1| + |gap| + n2;
    GluedSeparator(d1 + gap, d2, n2);
    assert d1 + (gap + d2) == (d1 + gap) + d2;
    assert d[..n][0] == d1[0];
    KeyOfParts(first + second, d, n);
    PanicsByParts(first + second, d, n);
    PanicsByParts(second, d2, n2);
  }

  lemma PanicsByParts(line: string, d: string, n: nat)
    requires Declaration(line) == Some(d) && n < |d| && n == LastSeparator(d) && NoneForbidden(d)
    ensures KeyPanics(line) <==> d[n] as int >= 0x80
  {
    hide Declaration, IsWhitespace, Forbidden;
  }

  lemma GluedText(pre1: string, d1: string, mid1: string, post1: string, pre2: string, d2: string, mid2: string,
                  post2: string)
    ensures (pre1 + (((d1 + mid1) + ";") + post1)) + (pre2 + (((d2 + mid2) + ";") + post2))
         == pre1 + ((((d1 + (((mid1 + ";") + (post1 + pre2)) + d2)) + mid2) + ";") + post2)
  {
  }

  lemma GluedSeparator(head: string, d: string, n: nat)
    requires n < |d| && n == LastSeparator(d)
    ensures LastSeparator(head + d) == |head| + n && (head + d)[|head| + n] == d[n]
    ensures (head + d)[|head| + n + 1..] == d[n + 1..]
  {
    hide IsSeparator;
    assert forall i :: 0 <= i < |d| ==> (head + d)[|head| + i] == d[i];
    forall i | |head| + n < i < |head + d| ensures !IsSeparator((head + d)[i]) {
      assert (head + d)[i] == d[i - |head|];
    }
    SeparatorIs(head + d, |head| + n);
  }

  lemma GapAllowed(mid: string, post: string, pre: string)
    requires Blank(mid) && Blank(post) && Blank(pre)
    ensures NoneForbidden((mid + ";") + (post + pre))
  {
    BlankAllowed(mid);
    BlankAllowed(post);
    BlankAllowed(pre);
    assert !Forbidden(';');
    hide IsWhitespace, Forbidden;
  }

  // ---------------------------------------------------------------- normalising a sequence of lines

  function SkipLength(lines: seq<string>): (n: nat)
    ensures n <= |lines| && (forall i :: 0 <= i < n ==> IsSkipped(lines[i])) && (n < |lines| ==> !IsSkipped(lines[n]))
  {
    PrefixLength(lines, IsSkipped)
  }

  function RunLength(lines: seq<string>): (n: nat)
    ensures n <= |lines| && (forall i :: 0 <= i < n ==> IsDeclaration(lines[i]))
            && (n < |lines| ==> !IsDeclaration(lines[n]))
  {
    PrefixLength(lines, IsDeclaration)
  }

  /** Where the run behind a header begins and ends. */
  function RunStart(lines: seq<string>): (n: nat)
    requires lines != []
    ensures 1 <= n <= |lines|
  {
    1 + SkipLength(lines[1..])
  }

  function RunEnd(lines: seq<string>): (n: nat)
    requires lines != []
    ensures RunStart(lines) <= n <= |lines|
  {
    RunStart(lines) + RunLength(lines[RunStart(lines)..])
  }

  function KeyOf(line: string): (nat, nat) { if Key(line).Some? then Key(line).value else (0, 0) }

  predicate KeyLeq(x: string, y: string) {
    KeyOf(x).0 < KeyOf(y).0 || (KeyOf(x).0 == KeyOf(y).0 && KeyOf(x).1 <= KeyOf(y).1)
  }

  function SortRun(run: seq<string>): seq<string> { Sort(run, KeyLeq) }

  /** What the loop makes of the lines from a position where it looks for a header. */
  function Normalize(lines: seq<string>): seq<string>
    decreases |lines|
  {
    if lines == [] then []
    else if !IsHeader(lines[0]) then [lines[0]] + Normalize(lines[1..])
    else
      var start, end := RunStart(lines), RunEnd(lines);
      lines[..start] + (SortRun(lines[start..end]) + Normalize(lines[end..]))
  }

  /** Some line whose key the loop asks for aborts it. */
  predicate Panics(lines: seq<string>)
    decreases |lines|
  {
    if lines == [] then false
    else if !IsHeader(lines[0]) then Panics(lines[1..])
    else
      var start, end := RunStart(lines), RunEnd(lines);
      || (exists i :: start <= i <= end && i < |lines| && KeyPanics(lines[i]))
      || Panics(lines[end..])
  }

  lemma KeyOrder()
    ensures TotalPreorder(KeyLeq)
  {
    hide KeyOf;
  }

  /** A header, lines that are skipped, a run, and a rest that continues none of them. */
  ghost predicate Segmented(lines: seq<string>, start: nat, end: nat) {
    && 1 <= start <= end <= |lines| && IsHeader(lines[0])
    && (forall i :: 1 <= i < start ==> IsSkipped(lines[i]))
    && (forall i :: start <= i < end ==> IsDeclaration(lines[i]))
    && (end < |lines| ==> !IsDeclaration(lines[end]) && (start == end ==> !IsSkipped(lines[end])))
  }

  lemma SegmentOf(lines: seq<string>)
    requires lines != [] && IsHeader(lines[0])
    ensures Segmented(lines, RunStart(lines), RunEnd(lines))
  {
    hide IsHeader, IsSkipped, IsDeclaration;
    var start := RunStart(lines);
    forall i | 1 <= i < start ensures IsSkipped(lines[i]) { assert lines[i] == lines[1..][i - 1]; }
    forall i | start <= i < RunEnd(lines) ensures IsDeclaration(lines[i]) {
      assert lines[i] == lines[start..][i - start];
    }
  }

  lemma SegmentsAreUnique(lines: seq<string>, start: nat, end: nat)
    requires Segmented(lines, start, end)
    ensures RunStart(lines) == start && RunEnd(lines) == end
  {
    hide IsHeader, IsSkipped, IsDeclaration, RunStart, RunEnd;
    SegmentOf(lines);
    OnlySegment(lines, start, end, RunStart(lines), RunEnd(lines));
  }

  lemma OnlySegment(lines: seq<string>, start: nat, end: nat, s: nat, e: nat)
    requires Segmented(lines, start, end) && Segmented(lines, s, e)
    ensures start == s && end == e
  {
    hide IsHeader, IsSkipped, IsDeclaration;
    forall i | 0 <= i < |lines| && IsDeclaration(lines[i]) ensures !IsSkipped(lines[i]) {
      DeclarationsStandApart(lines[i]);
    }
    var atStart := if start < |lines| then lines[start] else "";
    var atS := if s < |lines| then lines[s] else "";
    var atEnd := if end < |lines| then lines[end] else "";
    var atE := if e < |lines| then lines[e] else "";
  }

  lemma NormalizeSegment(lines: seq<string>, start: nat, end: nat)
    requires Segmented(lines, start, end)
    ensures Normalize(lines) == lines[..start] + (SortRun(lines[start..end]) + Normalize(lines[end..]))
  {
    hide IsHeader, IsSkipped, IsDeclaration, RunStart, RunEnd, SortRun;
    SegmentsAreUnique(lines, start, end);
  }

  // ---------------------------------------------------------------- sources that differ inside runs only

  /** `b` is `a` with the lines inside each run in some order. */
  ghost predicate SameUpToRuns(a: seq<string>, b: seq<string>)
    decreases |a|
  {
    if a == [] then b == []
    else if !IsHeader(a[0]) then b != [] && b[0] == a[0] && SameUpToRuns(a[1..], b[1..])
    else
      var start, end := RunStart(a), RunEnd(a);
      && end <= |b| && b[..start] == a[..start]
      && multiset(b[start..end]) == multiset(a[start..end])
      && SameUpToRuns(a[end..], b[end..])
  }

  /** In every run, lines with the same key are the same line. */
  ghost predicate RunsDistinguish(lines: seq<string>)
    decreases |lines|
  {
    if lines == [] then true
    else if !IsHeader(lines[0]) then RunsDistinguish(lines[1..])
    else KeysDistinguish(lines[RunStart(lines)..RunEnd(lines)], KeyLeq) && RunsDistinguish(lines[RunEnd(lines)..])
  }

  lemma SortedRun(run: seq<string>)
    requires forall i :: 0 <= i < |run| ==> IsDeclaration(run[i])
    ensures multiset(SortRun(run)) == multiset(run) && |SortRun(run)| == |run| && Sorted(SortRun(run), KeyLeq)
    ensures forall i :: 0 <= i < |run| ==> IsDeclaration(SortRun(run)[i])
  {
    hide IsDeclaration, KeyLeq;
    KeyOrder();
    SortPermutes(run, KeyLeq);
    SortSorts(run, KeyLeq);
    SameLength(run, SortRun(run));
    AllDeclarations(run, SortRun(run));
  }

  lemma AllDeclarations(run: seq<string>, other: seq<string>)
    requires multiset(run) == multiset(other) && forall i :: 0 <= i < |run| ==> IsDeclaration(run[i])
    ensures forall i :: 0 <= i < |other| ==> IsDeclaration(other[i])
  {
    hide IsDeclaration;
    SameMembers(run, other);
    forall i | 0 <= i < |other| ensures IsDeclaration(other[i]) { assert other[i] in run; }
  }

  /** Related sources begin with the same line. */
  lemma SameFirst(a: seq<string>, b: seq<string>)
    requires SameUpToRuns(a, b)
    ensures a == [] <==> b == []
    ensures a != [] ==> b[0] == a[0]
  {
    hide IsHeader, RunEnd;
    assert a != [] && IsHeader(a[0]) ==> b[..RunStart(a)][0] == a[..RunStart(a)][0];
  }

  /** Run boundaries survive reordering inside the runs. */
  lemma SameSegment(a: seq<string>, b: seq<string>)
    requires SameUpToRuns(a, b) && a != [] && IsHeader(a[0])
    ensures Segmented(b, RunStart(a), RunEnd(a))
  {
    hide IsHeader, IsDeclaration, IsSkipped, RunStart, RunEnd;
    var start, end := RunStart(a), RunEnd(a);
    SegmentOf(a);
    SameFirst(a, b);
    SameFirst(a[end..], b[end..]);
    forall i | 1 <= i < start ensures IsSkipped(b[i]) { assert b[i] == b[..start][i] == a[i]; }
    var run := a[start..end];
    forall i | 0 <= i < |run| ensures IsDeclaration(run[i]) { assert run[i] == a[start + i]; }
    AllDeclarations(run, b[start..end]);
    forall i | start <= i < end ensures IsDeclaration(b[i]) { assert b[i] == b[start..end][i - start]; }
    assert end < |a| ==> b[end..][0] == a[end..][0];
  }

  /** Normalising only reorders lines inside runs. */
  lemma {:induction false} NormalizePermutesInsideRuns(lines: seq<string>)
    ensures SameUpToRuns(lines, Normalize(lines)) && |Normalize(lines)| == |lines|
    decreases |lines|
  {
    hide IsHeader, RunStart, RunEnd, IsDeclaration, IsSkipped, SortRun;
    if lines != [] && !IsHeader(lines[0]) {
      NormalizePermutesInsideRuns(lines[1..]);
      assert Normalize(lines)[1..] == Normalize(lines[1..]);
    } else if lines != [] {
      var start, end := RunStart(lines), RunEnd(lines);
      SegmentOf(lines);
      NormalizePermutesInsideRuns(lines[end..]);
      RunOf(lines, start, end);
      SortedRun(lines[start..end]);
      Reordered(lines, SortRun(lines[start..end]), Normalize(lines[end..]));
    }
  }

  lemma Reordered(lines: seq<string>, run: seq<string>, rest: seq<string>)
    requires lines != [] && IsHeader(lines[0])
    requires multiset(run) == multiset(lines[RunStart(lines)..RunEnd(lines)])
             && SameUpToRuns(lines[RunEnd(lines)..], rest)
    ensures SameUpToRuns(lines, lines[..RunStart(lines)] + (run + rest))
  {
    hide IsHeader, RunStart, RunEnd;
    SameLength(run, lines[RunStart(lines)..RunEnd(lines)]);
    Cut(lines[..RunStart(lines)], run, rest);
  }

  lemma Cut<T>(a: seq<T>, b: seq<T>, c: seq<T>)
    ensures (a + (b + c))[..|a|] == a && (a + (b + c))[|a|..|a| + |b|] == b && (a + (b + c))[|a| + |b|..] == c
  {
  }

  lemma RunOf(lines: seq<string>, start: nat, end: nat)
    requires Segmented(lines, start, end)
    ensures forall i :: 0 <= i < end - start ==> IsDeclaration(lines[start..end][i])
  {
    hide IsHeader, IsDeclaration, IsSkipped;
  }

  /** Every line that is not a declaration stays where it is, and declarations only change places with each other. */
  lemma {:induction false} OtherLinesStay(a: seq<string>, b: seq<string>, i: nat)
    requires SameUpToRuns(a, b) && i < |a|
    ensures |a| == |b| && (IsDeclaration(a[i]) <==> IsDeclaration(b[i])) && (!IsDeclaration(a[i]) ==> a[i] == b[i])
    decreases |a|
  {
    hide IsHeader, RunStart, RunEnd, IsDeclaration, IsSkipped;
    if !IsHeader(a[0]) {
      Aligned(a[1..], b[1..]);
      if i > 0 { OtherLinesStay(a[1..], b[1..], i - 1); }
    } else {
      var start, end := RunStart(a), RunEnd(a);
      SegmentOf(a);
      SameSegment(a, b);
      Aligned(a[end..], b[end..]);
      if i < start { assert b[..start][i] == a[..start][i]; }
      if i >= end { OtherLinesStay(a[end..], b[end..], i - end); }
    }
  }

  lemma {:induction false} Aligned(a: seq<string>, b: seq<string>)
    requires SameUpToRuns(a, b)
    ensures |a| == |b| && multiset(a) == multiset(b)
    decreases |a|
  {
    hide IsHeader, RunStart, RunEnd;
    if a != [] && !IsHeader(a[0]) {
      Aligned(a[1..], b[1..]);
      assert a == [a[0]] + a[1..] && b == [b[0]] + b[1..];
    } else if a != [] {
      var start, end := RunStart(a), RunEnd(a);
      Aligned(a[end..], b[end..]);
      assert a == a[..start] + (a[start..end] + a[end..]) && b == b[..start] + (b[start..end] + b[end..]);
    }
  }

  lemma {:induction false} SameSymmetric(a: seq<string>, b: seq<string>)
    requires SameUpToRuns(a, b)
    ensures SameUpToRuns(b, a)
    decreases |a|
  {
    hide IsHeader, RunStart, RunEnd, IsDeclaration, IsSkipped;
    if a != [] && !IsHeader(a[0]) {
      SameSymmetric(a[1..], b[1..]);
    } else if a != [] {
      SameSegment(a, b);
      SegmentsAreUnique(b, RunStart(a), RunEnd(a));
      SameSymmetric(a[RunEnd(a)..], b[RunEnd(a)..]);
      SameFirst(a, b);
    }
  }

  lemma {:induction false} SameTransitive(a: seq<string>, b: seq<string>, c: seq<string>)
    requires SameUpToRuns(a, b) && SameUpToRuns(b, c)
    ensures SameUpToRuns(a, c)
    decreases |a|
  {
    hide IsHeader, RunStart, RunEnd, IsDeclaration, IsSkipped;
    if a != [] && !IsHeader(a[0]) {
      SameTransitive(a[1..], b[1..], c[1..]);
    } else if a != [] {
      SameSegment(a, b);
      SegmentsAreUnique(b, RunStart(a), RunEnd(a));
      SameTransitive(a[RunEnd(a)..], b[RunEnd(a)..], c[RunEnd(a)..]);
      SameFirst(a, b);
    }
  }

  /** Sources that differ only in the order inside runs normalise to the same lines when keys tell lines apart. */
  lemma {:induction false} SameNormalForm(a: seq<string>, b: seq<string>)
    requires SameUpToRuns(a, b) && RunsDistinguish(a)
    ensures Normalize(a) == Normalize(b)
    decreases |a|
  {
    hide IsHeader, RunStart, RunEnd, IsDeclaration, IsSkipped, KeyLeq;
    if a != [] && !IsHeader(a[0]) {
      SameNormalForm(a[1..], b[1..]);
    } else if a != [] {
      var start, end := RunStart(a), RunEnd(a);
      SegmentOf(a);
      SameSegment(a, b);
      NormalizeSegment(b, start, end);
      SameNormalForm(a[end..], b[end..]);
      KeyOrder();
      SortForgetsOrder(a[start..end], b[start..end], KeyLeq);
    }
  }

  /** The normal form identifies exactly the sources that differ inside runs. */
  lemma NormalFormIffSame(a: seq<string>, b: seq<string>)
    requires RunsDistinguish(a)
    ensures Normalize(a) == Normalize(b) <==> SameUpToRuns(a, b)
  {
    hide SameUpToRuns, Normalize, RunsDistinguish;
    if Normalize(a) == Normalize(b) {
      NormalizePermutesInsideRuns(a);
      NormalizePermutesInsideRuns(b);
      SameSymmetric(b, Normalize(b));
      SameTransitive(a, Normalize(a), b);
    }
    if SameUpToRuns(a, b) { SameNormalForm(a, b); }
  }

  /** Normalising again changes nothing. */
  lemma {:induction false} NormalizeIdempotent(lines: seq<string>)
    ensures Normalize(Normalize(lines)) == Normalize(lines)
    decreases |lines|
  {
    hide IsHeader, RunStart, RunEnd, IsDeclaration, IsSkipped, SortRun, KeyLeq;
    if lines != [] && !IsHeader(lines[0]) {
      NormalizeIdempotent(lines[1..]);
      assert Normalize(lines)[1..] == Normalize(lines[1..]);
    } else if lines != [] {
      NormalizeIdempotent(lines[RunEnd(lines)..]);
      IdempotentSegment(lines);
    }
  }

  lemma IdempotentSegment(lines: seq<string>)
    requires lines != [] && IsHeader(lines[0])
    requires var rest := Normalize(lines[RunEnd(lines)..]); Normalize(rest) == rest
    ensures Normalize(Normalize(lines)) == Normalize(lines)
  {
    hide IsHeader, RunStart, RunEnd, IsDeclaration, IsSkipped, SortRun, KeyLeq, Normalize, SameUpToRuns;
    var start, end := RunStart(lines), RunEnd(lines);
    var n, run, rest := Normalize(lines), SortRun(lines[start..end]), Normalize(lines[end..]);
    SegmentOf(lines);
    NormalizeSegment(lines, start, end);
    RunOf(lines, start, end);
    SortedRun(lines[start..end]);
    Cut(lines[..start], run, rest);
    NormalizePermutesInsideRuns(lines);
    SameSegment(lines, n);
    NormalizeSegment(n, start, end);
    SortedStays(run);
  }

  lemma SortedStays(run: seq<string>)
    requires Sorted(run, KeyLeq)
    ensures SortRun(run) == run
  {
    hide KeyLeq;
    SortKeepsSorted(run, KeyLeq);
  }

  lemma PanicsSegment(lines: seq<string>, start: nat, end: nat)
    requires Segmented(lines, start, end)
    ensures Panics(lines) <==>
              (exists i :: start <= i <= end && i < |lines| && KeyPanics(lines[i])) || Panics(lines[end..])
  {
    hide IsHeader, IsSkipped, IsDeclaration, RunStart, RunEnd, KeyPanics;
    SegmentsAreUnique(lines, start, end);
  }

  lemma {:induction false} PanicsCarryOver(a: seq<string>, b: seq<string>)
    requires SameUpToRuns(a, b) && Panics(a)
    ensures Panics(b)
    decreases |a|
  {
    hide IsHeader, IsSkipped, IsDeclaration, RunStart, RunEnd, KeyPanics;
    if !IsHeader(a[0]) {
      PanicsCarryOver(a[1..], b[1..]);
    } else {
      var start, end := RunStart(a), RunEnd(a);
      SameSegment(a, b);
      PanicsSegment(b, start, end);
      if Panics(a[end..]) {
        PanicsCarryOver(a[end..], b[end..]);
      } else {
        var i :| start <= i <= end && i < |a| && KeyPanics(a[i]);
        PanickingLine(a, b, start, end, i);
      }
    }
  }

  lemma PanickingLine(a: seq<string>, b: seq<string>, start: nat, end: nat, i: nat)
    requires start <= i <= end <= |a| && i < |a| && end <= |b| && KeyPanics(a[i])
    requires SameUpToRuns(a[end..], b[end..])
    requires multiset(b[start..end]) == multiset(a[start..end])
    ensures exists j :: start <= j <= end && j < |b| && KeyPanics(b[j])
  {
    hide KeyPanics, SameUpToRuns;
    if i == end {
      SameFirst(a[end..], b[end..]);
      assert b[end] == b[end..][0] == a[end..][0];
    } else {
      SameMembers(b[start..end], a[start..end]);
      assert a[start..end][i - start] == a[i];
      assert a[i] in b[start..end];
      var k :| 0 <= k < end - start && b[start..end][k] == a[i];
      assert b[start + k] == a[i];
    }
  }

  /** Sources that differ inside runs only abort alike. */
  lemma PanicsAlike(a: seq<string>, b: seq<string>)
    requires SameUpToRuns(a, b)
    ensures Panics(a) <==> Panics(b)
  {
    hide SameUpToRuns, Panics;
    SameSymmetric(a, b);
    if Panics(a) { PanicsCarryOver(a, b); }
    if Panics(b) { PanicsCarryOver(b, a); }
  }

  // ---------------------------------------------------------------- in place

  /** `copy_from_slice` */
  method CopyInto(lines: array<string>, start: nat, run: seq<string>)
    requires start + |run| <= lines.Length
    modifies lines
    ensures lines[..] == old(lines[..start]) + (run + old(lines[start + |run|..]))
  {
    var i := 0;
    while i < |run|
      invariant 0 <= i <= |run|
      invariant forall k :: 0 <= k < i ==> lines[start + k] == run[k]
      invariant forall k :: 0 <= k < lines.Length && !(start <= k < start + i) ==> lines[k] == old(lines[k])
    {
      lines[start + i] := run[i];
      i := i + 1;
    }
  }

  /** The end of the run that starts at `start`, unless a key aborts the search. */
  method FindRunEnd(lines: array<string>, start: nat) returns (panicked: bool, end: nat)
    requires start <= lines.Length
    ensures start <= end <= lines.Length && (forall i :: start <= i < end ==> IsDeclaration(lines[i]))
    ensures panicked <==> exists i :: start <= i <= end && i < lines.Length && KeyPanics(lines[i])
    ensures !panicked && end < lines.Length ==> !IsDeclaration(lines[end])
    ensures panicked ==> end < lines.Length && KeyPanics(lines[end])
  {
    hide IsDeclaration, KeyPanics;
    end := start;
    while end < lines.Length
      invariant start <= end <= lines.Length
      invariant forall i :: start <= i < end ==> IsDeclaration(lines[i]) && !KeyPanics(lines[i])
    {
      if KeyPanics(lines[end]) {
        return true, end;
      }
      if !IsDeclaration(lines[end]) {
        break;
      }
      end := end + 1;
    }
    panicked := false;
  }

  lemma StartIs(lines: seq<string>, start: nat)
    requires 1 <= start <= |lines| && (forall i :: 1 <= i < start ==> IsSkipped(lines[i]))
    requires start < |lines| ==> !IsSkipped(lines[start])
    ensures RunStart(lines) == start
  {
    hide IsSkipped;
    var n := SkipLength(lines[1..]);
    var atN := if n + 1 < |lines| then lines[n + 1] else "";
    var rest := lines[1..];
    assert forall i :: 0 <= i < |rest| ==> rest[i] == lines[i + 1];
  }

  lemma EndReaches(lines: seq<string>, j: nat)
    requires lines != [] && RunStart(lines) <= j <= |lines|
    requires forall i :: RunStart(lines) <= i < j ==> IsDeclaration(lines[i])
    ensures j <= RunEnd(lines)
  {
    hide IsDeclaration, RunStart;
    var rest := lines[RunStart(lines)..];
    assert forall i :: 0 <= i < |rest| ==> rest[i] == lines[i + RunStart(lines)];
  }

  /** `lines` holds the normalised part of `source` up to `index` and the untouched rest. */
  ghost predicate NormalizedUpTo(source: seq<string>, lines: seq<string>, index: nat) {
    && index <= |source| && |lines| == |source| && lines[index..] == source[index..]
    && Normalize(source) == lines[..index] + Normalize(source[index..])
    && (Panics(source) <==> Panics(source[index..]))
  }

  lemma PassLine(source: seq<string>, lines: seq<string>, index: nat)
    requires NormalizedUpTo(source, lines, index) && index < |source| && !IsHeader(source[index])
    ensures NormalizedUpTo(source, lines, index + 1)
  {
    hide IsHeader, RunStart, RunEnd, SortRun, KeyPanics;
    var rest := source[index..];
    assert rest[1..] == source[index + 1..];
    assert lines[index] == lines[index..][0] == rest[0] && lines[index + 1..] == lines[index..][1..];
    assert lines[..index + 1] == lines[..index] + [lines[index]];
  }

  lemma Spliced<T>(source: seq<T>, lines: seq<T>, index: nat, start: nat, end: nat, sorted: seq<T>, rest: seq<T>)
    requires index <= start <= end <= |source| == |lines| && lines[index..] == source[index..]
             && |sorted| == end - start
    ensures var updated := lines[..start] + (sorted + lines[end..]);
      && |updated| == |source| && updated[end..] == source[end..]
      && updated[..end] + rest == lines[..index] + (source[index..][..start - index] + (sorted + rest))
  {
    var updated := lines[..start] + (sorted + lines[end..]);
    assert updated[end..] == lines[end..] == lines[index..][end - index..] == source[end..];
    assert source[index..][..start - index] == lines[index..][..start - index] == lines[index..start];
    assert updated[..end] == lines[..index] + (lines[index..start] + sorted);
  }

  lemma NoneAborts(source: seq<string>, index: nat, start: nat, end: nat)
    requires index <= start <= end <= |source| && Segmented(source[index..], start - index, end - index)
    requires forall i :: start <= i <= end && i < |source| ==> !KeyPanics(source[i])
    ensures Panics(source[index..]) <==> Panics(source[end..])
  {
    hide IsHeader, IsSkipped, IsDeclaration, RunStart, RunEnd, KeyPanics;
    var rest := source[index..];
    SegmentsAreUnique(rest, start - index, end - index);
    assert rest[end - index..] == source[end..];
    forall i | start - index <= i <= end - index && i < |rest| ensures !KeyPanics(rest[i]) {
      assert rest[i] == source[index + i];
    }
  }

  lemma PassRun(source: seq<string>, lines: seq<string>, index: nat, start: nat, end: nat)
    requires NormalizedUpTo(source, lines, index) && index <= start <= end <= |source|
    requires Segmented(source[index..], start - index, end - index)
    requires forall i :: start <= i <= end && i < |source| ==> !KeyPanics(source[i])
    ensures NormalizedUpTo(source, lines[..start] + (SortRun(source[start..end]) + lines[end..]), end)
  {
    hide IsHeader, IsSkipped, IsDeclaration, RunStart, RunEnd, SortRun, KeyPanics, Normalize, Panics;
    var rest := source[index..];
    NormalizeSegment(rest, start - index, end - index);
    RunOf(rest, start - index, end - index);
    assert rest[start - index..end - index] == source[start..end] && rest[end - index..] == source[end..];
    SortedRun(source[start..end]);
    Spliced(source, lines, index, start, end, SortRun(source[start..end]), Normalize(source[end..]));
    NoneAborts(source, index, start, end);
  }

  lemma PassedAll(source: seq<string>, lines: seq<string>)
    requires NormalizedUpTo(source, lines, |source|)
    ensures lines == Normalize(source) && !Panics(source)
  {
    assert source[|source|..] == [] && lines[..|source|] == lines;
  }

  /** What the two searches behind a header have established. */
  ghost predicate Scanned(lines: seq<string>, index: nat, start: nat, end: nat) {
    && index < start <= end <= |lines| && IsHeader(lines[index])
    && (forall i :: index < i < start ==> IsSkipped(lines[i])) && (start < |lines| ==> !IsSkipped(lines[start]))
    && (forall i :: start <= i < end ==> IsDeclaration(lines[i]))
  }

  lemma RestAt(source: seq<string>, lines: seq<string>, index: nat)
    requires index <= |source| && |lines| == |source| && lines[index..] == source[index..]
    ensures forall i :: 0 <= i < |source| - index ==> source[index..][i] == lines[index + i]
    ensures forall i :: index <= i < |source| ==> source[i] == lines[i]
  {
    forall i | index <= i < |source| ensures source[i] == lines[i] {
      assert lines[index..][i - index] == source[index..][i - index];
    }
  }

  lemma ScannedAborts(source: seq<string>, lines: seq<string>, index: nat, start: nat, end: nat)
    requires NormalizedUpTo(source, lines, index) && Scanned(lines, index, start, end) && end < |lines|
             && KeyPanics(lines[end])
    ensures Panics(source)
  {
    hide IsHeader, IsSkipped, IsDeclaration, KeyPanics, Normalize, RunStart, RunEnd;
    RestAt(source, lines, index);
    var rest := source[index..];
    StartIs(rest, start - index);
    EndReaches(rest, end - index);
    assert KeyPanics(rest[end - index]);
  }

  lemma ScannedSegment(source: seq<string>, lines: seq<string>, index: nat, start: nat, end: nat)
    requires NormalizedUpTo(source, lines, index) && Scanned(lines, index, start, end)
    requires end < |lines| ==> !IsDeclaration(lines[end])
    ensures Segmented(source[index..], start - index, end - index) && source[start..end] == lines[start..end]
  {
    hide IsHeader, IsSkipped, IsDeclaration, KeyPanics, Normalize, Panics, RunStart, RunEnd;
    RestAt(source, lines, index);
  }

  /** `normalize_aot_register_declaration_order` on its vector of lines. */
  method NormalizeLines(lines: array<string>) returns (panicked: bool)
    modifies lines
    ensures panicked <==> Panics(old(lines[..]))
    ensures !panicked ==> lines[..] == Normalize(old(lines[..]))
  {
    hide IsHeader, IsSkipped, IsDeclaration, KeyPanics, Normalize, Panics, SortRun;
    ghost var source := lines[..];
    var index := 0;
    while index < lines.Length
      invariant NormalizedUpTo(source, lines[..], index)
    {
      if !IsHeader(lines[index]) {
        PassLine(source, lines[..], index);
        index := index + 1;
        continue;
      }
      var start := index + 1;
      while start < lines.Length && IsSkipped(lines[start])
        invariant index < start <= lines.Length && forall i :: index < i < start ==> IsSkipped(lines[i])
      {
        start := start + 1;
      }
      var stopped, end := FindRunEnd(lines, start);
      assert Scanned(lines[..], index, start, end);
      if stopped {
        ScannedAborts(source, lines[..], index, start, end);
        return true;
      }
      ScannedSegment(source, lines[..], index, start, end);
      RestAt(source, lines[..], index);
      var declarations := lines[start..end];
      PassRun(source, lines[..], index, start, end);
      CopyInto(lines, start, SortRun(declarations));
      index := end;
    }
    PassedAll(source, lines[..]);
    panicked := false;
  }
}
