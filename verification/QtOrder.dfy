/**
 In which order the register declarations end up, read off the text of the lines: behind a header and the lines that
 are skipped, the temporaries `r<register>_<ordinal>` stand by register and then by ordinal, as numbers.
 */
module QtOrder {
  import opened Options
  import opened Decimal
  import opened Sorting
  import opened Text
  import opened QtDeclarations
  import opened QtSource

  // ---------------------------------------------------------------- what a declaration says

  /** A type, a separator, the name `r<register>_<ordinal>` and a semicolon, with blanks around. */
  ghost predicate WrittenAs(line: string, pre: string, head: string, separator: char, register: string,
                            ordinal: string, mid: string, post: string)
  {
    && Blank(pre) && Blank(mid) && Blank(post)
    && head != "" && !IsWhitespace(head[0]) && (forall i :: 0 <= i < |head| ==> head[i] !in "=,(){}[]")
    && (IsWhitespace(separator) || separator == '*' || separator == '&')
    && register != "" && AllDigits(register) && ordinal != "" && AllDigits(ordinal)
    && line == pre + (((head + ([separator] + NameText(register, ordinal)) + mid) + ";") + post)
  }

  function NameText(register: string, ordinal: string): string { ['r'] + (register + ['_'] + ordinal) }

  /** The line declares the temporary with these two numbers, each below 2^64. */
  ghost predicate Declares(line: string, a: nat, b: nat) {
    && a < 0x1_0000_0000_0000_0000 && b < 0x1_0000_0000_0000_0000
    && exists pre, head, separator, register, ordinal, mid, post ::
         WrittenAs(line, pre, head, separator, register, ordinal, mid, post)
         && Value(register) == a && Value(ordinal) == b
  }

  lemma NameParses(register: string, ordinal: string)
    requires register != "" && AllDigits(register) && ordinal != "" && AllDigits(ordinal)
    requires Value(register) < U64 && Value(ordinal) < U64
    ensures ParseName(NameText(register, ordinal)) == Some((Value(register), Value(ordinal)))
  {
    var name := NameText(register, ordinal);
    assert Free(register, '_');
    IndexOfFree(register, '_', ordinal);
    assert name[1..] == register + ['_'] + ordinal;
    assert name[1..][..|register|] == register && name[1..][|register| + 1..] == ordinal;
  }

  lemma ParsedName(name: string) returns (register: string, ordinal: string)
    requires ParseName(name).Some?
    ensures register != "" && AllDigits(register) && ordinal != "" && AllDigits(ordinal)
    ensures name == NameText(register, ordinal) && Value(register) < U64 && Value(ordinal) < U64
    ensures ParseName(name) == Some((Value(register), Value(ordinal)))
  {
    var u := IndexOf(name[1..], '_');
    register, ordinal := name[1..][..u], name[1..][u + 1..];
    assert name[1..] == register + ['_'] + ordinal;
    assert name == ['r'] + name[1..];
  }

  lemma NamesArePlain(register: string, ordinal: string)
    requires AllDigits(register) && AllDigits(ordinal)
    ensures var name := NameText(register, ordinal);
      forall i :: 0 <= i < |name| ==> !IsSeparator(name[i]) && !IsWhitespace(name[i]) && !Forbidden(name[i])
  {
    var name := NameText(register, ordinal);
    forall i | 0 <= i < |name| ensures IsDigit(name[i]) || name[i] == 'r' || name[i] == '_' {
      if 1 <= i <= |register| { assert name[i] == register[i - 1]; }
      if i > |register| + 1 { assert name[i] == ordinal[i - |register| - 2]; }
    }
    forall c: char ensures IsDigit(c) || c == 'r' || c == '_' ==> !IsSeparator(c) && !IsWhitespace(c) && !Forbidden(c) {
    }
  }

  lemma WrittenHasKey(line: string, pre: string, head: string, separator: char, register: string, ordinal: string,
                      mid: string, post: string)
    requires WrittenAs(line, pre, head, separator, register, ordinal, mid, post)
    requires Value(register) < U64 && Value(ordinal) < U64
    ensures Key(line) == Some((Value(register), Value(ordinal)))
  {
    var name := NameText(register, ordinal);
    var d, n := head + ([separator] + name), |head|;
    NamesArePlain(register, ordinal);
    assert IsSeparator(separator) && !Forbidden(separator);
    hide IsWhitespace, Forbidden, Key, ParseName, Declaration, Trim;
    assert d[n] == separator && d[..n] == head && d[n + 1..] == name;
    assert forall i :: n < i < |d| ==> d[i] == name[i - n - 1];
    SeparatorIs(d, n);
    assert Layout(line, pre, d, mid, post);
    DeclarationOf(line, pre, d, mid, post);
    TypeIsThere(head);
    AllowedAround(head, separator, name);
    KeyOfParts(line, d, n);
    NameParses(register, ordinal);
  }

  lemma TypeIsThere(head: string)
    requires head != "" && !IsWhitespace(head[0])
    ensures Trim(head) != ""
  {
    hide IsWhitespace;
  }

  lemma AllowedAround(head: string, separator: char, name: string)
    requires (forall i :: 0 <= i < |head| ==> head[i] !in "=,(){}[]") && !Forbidden(separator)
    requires forall i :: 0 <= i < |name| ==> !Forbidden(name[i])
    ensures NoneForbidden(head + ([separator] + name))
  {
    forall i | 0 <= i < |head| ensures !Forbidden(head[i]) { }
    hide Forbidden;
  }

  /** The key of a line is the pair of numbers in its text. */
  lemma KeyIff(line: string, a: nat, b: nat)
    ensures Key(line) == Some((a, b)) <==> Declares(line, a, b)
  {
    hide Key, IsWhitespace;
    if Key(line) == Some((a, b)) { KeyIsWritten(line, a, b); }
    if Declares(line, a, b) {
      var pre, head, separator, register, ordinal, mid, post :|
        WrittenAs(line, pre, head, separator, register, ordinal, mid, post)
        && Value(register) == a && Value(ordinal) == b;
      WrittenHasKey(line, pre, head, separator, register, ordinal, mid, post);
    }
  }

  lemma KeyIsWritten(line: string, a: nat, b: nat)
    requires Key(line) == Some((a, b))
    ensures Declares(line, a, b)
  {
    hide Key, Trim, ParseName, Declaration, LastSeparator;
    var d, n := KeyParts(line);
    var pre, mid, post := LayoutOf(line);
    var register, ordinal := ParsedName(d[n + 1..]);
    var head, separator := d[..n], d[n];
    assert d == head + ([separator] + NameText(register, ordinal));
    HeadIsThere(head);
    assert forall i :: 0 <= i < |head| ==> head[i] == d[i] && !Forbidden(d[i]);
    assert head[0] == d[0];
    assert WrittenAs(line, pre, head, separator, register, ordinal, mid, post);
  }

  lemma HeadIsThere(head: string)
    requires Trim(head) != ""
    ensures head != ""
  {
  }

  // ---------------------------------------------------------------- the order

  ghost predicate Opens(line: string) {
    && Contains(line, "wrapCall") && Contains(line, "aotContext") && Contains(line, "argumentsPtr")
    && Contains(line, "[](")
  }

  /** A blank line, or one that begins with `Q_UNUSED(` behind its blanks. */
  ghost predicate PassedOver(line: string) { Blank(line) || "Q_UNUSED(" <= Trim(line) }

  lemma PassedOverIsSkipped(line: string)
    ensures PassedOver(line) <==> IsSkipped(line)
  {
    hide IsWhitespace;
    if Trim(line) == "" {
      var pre, post := TrimCuts(line);
    }
  }

  ghost predicate DeclaresSome(line: string) { exists a, b :: Declares(line, a, b) }

  lemma SomeIsDeclaration(line: string)
    ensures DeclaresSome(line) <==> IsDeclaration(line)
  {
    hide Key, Declares;
    if IsDeclaration(line) { KeyIff(line, Key(line).value.0, Key(line).value.1); }
    if a, b :| Declares(line, a, b) { KeyIff(line, a, b); }
  }

  /** Behind a header at `h` come lines that are passed over, then declarations from `start` to `end`, then another. */
  ghost predicate RunAt(lines: seq<string>, h: nat, start: nat, end: nat) {
    && h < start < end <= |lines| && Opens(lines[h])
    && (forall i :: h < i < start ==> PassedOver(lines[i]))
    && (forall i :: start <= i < end ==> DeclaresSome(lines[i]))
    && (end < |lines| ==> !DeclaresSome(lines[end]))
  }

  lemma RunIsSegment(lines: seq<string>, start: nat, end: nat)
    requires RunAt(lines, 0, start, end)
    ensures Segmented(lines, start, end)
  {
    hide PassedOver, DeclaresSome, IsSkipped, IsDeclaration;
    forall i | 0 <= i < |lines|
      ensures PassedOver(lines[i]) <==> IsSkipped(lines[i])
      ensures DeclaresSome(lines[i]) <==> IsDeclaration(lines[i])
    {
      PassedOverIsSkipped(lines[i]);
      SomeIsDeclaration(lines[i]);
    }
  }

  /** The same run seen from a later line. */
  lemma RunFrom(lines: seq<string>, h: nat, start: nat, end: nat, k: nat)
    requires RunAt(lines, h, start, end) && k <= h
    ensures RunAt(lines[k..], h - k, start - k, end - k)
  {
    hide Opens, PassedOver, DeclaresSome;
    var rest := lines[k..];
    assert forall i :: 0 <= i < |rest| ==> rest[i] == lines[i + k];
  }

  /** A header among the lines passed over behind an earlier one opens the run of that one. */
  lemma RunFromEarlier(lines: seq<string>, h: nat, start: nat, end: nat)
    requires RunAt(lines, h, start, end) && IsHeader(lines[0]) && h < RunStart(lines)
    ensures RunAt(lines, 0, start, end)
  {
    hide IsHeader, PassedOver, DeclaresSome, IsDeclaration, IsSkipped, RunStart, RunEnd;
    SegmentOf(lines);
    forall i | 0 < i < start ensures PassedOver(lines[i]) {
      if i < RunStart(lines) { PassedOverIsSkipped(lines[i]); }
    }
    assert Opens(lines[0]) by { OpensIsHeader(lines[0]); }
  }

  lemma OpensIsHeader(line: string)
    ensures Opens(line) <==> IsHeader(line)
  {
    hide Contains;
  }

  /** The lines of a run are sorted where they stand. */
  lemma {:induction false} RunIsSorted(lines: seq<string>, h: nat, start: nat, end: nat)
    requires RunAt(lines, h, start, end)
    ensures |Normalize(lines)| == |lines| && Normalize(lines)[start..end] == SortRun(lines[start..end])
    decreases |lines|
  {
    hide IsHeader, Opens, PassedOver, DeclaresSome, IsDeclaration, IsSkipped, RunStart, RunEnd, SortRun, RunAt,
         Normalize, SameUpToRuns;
    NormalizePermutesInsideRuns(lines);
    HeaderInside(lines, h, start, end);
    if IsHeader(lines[0]) && h < RunStart(lines) {
      RunHere(lines, h, start, end);
    } else {
      var front, cut := FrontOf(lines, h, start, end);
      RunFrom(lines, h, start, end, cut);
      RunIsSorted(lines[cut..], h - cut, start - cut, end - cut);
      NormalizePermutesInsideRuns(lines[cut..]);
      Shifted(front, Normalize(lines[cut..]), lines, start, end);
    }
  }

  /** What the loop has passed when it goes on looking for the header. */
  lemma FrontOf(lines: seq<string>, h: nat, start: nat, end: nat) returns (front: seq<string>, cut: nat)
    requires RunAt(lines, h, start, end) && (IsHeader(lines[0]) ==> RunStart(lines) <= h)
    ensures 0 < cut <= h && |front| == cut && Normalize(lines) == front + Normalize(lines[cut..])
  {
    hide IsHeader, Opens, PassedOver, DeclaresSome, IsDeclaration, IsSkipped, RunStart, RunEnd, SortRun, RunAt;
    HeaderInside(lines, h, start, end);
    if !IsHeader(lines[0]) {
      front, cut := [lines[0]], 1;
    } else {
      RunBehind(lines, h, start, end);
      cut := RunEnd(lines);
      front := lines[..RunStart(lines)] + SortRun(lines[RunStart(lines)..cut]);
    }
  }

  lemma HeaderInside(lines: seq<string>, h: nat, start: nat, end: nat)
    requires RunAt(lines, h, start, end)
    ensures h < start < end <= |lines| && IsHeader(lines[h])
  {
    hide PassedOver, DeclaresSome, IsHeader;
    OpensIsHeader(lines[h]);
  }

  lemma Shifted(front: seq<string>, rest: seq<string>, lines: seq<string>, start: nat, end: nat)
    requires |front| <= start <= end <= |lines| && |front| + |rest| == |lines|
    ensures (front + rest)[start..end] == rest[start - |front|..end - |front|]
    ensures lines[|front|..][start - |front|..end - |front|] == lines[start..end]
  {
  }

  lemma RunHere(lines: seq<string>, h: nat, start: nat, end: nat)
    requires RunAt(lines, h, start, end) && IsHeader(lines[0]) && h < RunStart(lines)
    ensures end <= |Normalize(lines)| && Normalize(lines)[start..end] == SortRun(lines[start..end])
  {
    hide IsHeader, DeclaresSome, IsDeclaration, IsSkipped, RunStart, RunEnd, SortRun, RunAt, Normalize;
    HeaderInside(lines, h, start, end);
    RunFromEarlier(lines, h, start, end);
    RunIsSegment(lines, start, end);
    NormalizeSegment(lines, start, end);
    RunOf(lines, start, end);
    SortedRun(lines[start..end]);
    QtDeclarations.Cut(lines[..start], SortRun(lines[start..end]), Normalize(lines[end..]));
  }

  /** A header behind the lines passed over is not inside the run, for declarations are no headers. */
  lemma RunBehind(lines: seq<string>, h: nat, start: nat, end: nat)
    requires RunAt(lines, h, start, end) && IsHeader(lines[0]) && RunStart(lines) <= h
    ensures RunEnd(lines) <= h
    ensures |SortRun(lines[RunStart(lines)..RunEnd(lines)])| == RunEnd(lines) - RunStart(lines)
  {
    hide IsHeader, DeclaresSome, IsDeclaration, IsSkipped, RunStart, RunEnd, SortRun, RunAt;
    HeaderInside(lines, h, start, end);
    SegmentOf(lines);
    RunOf(lines, RunStart(lines), RunEnd(lines));
    SortedRun(lines[RunStart(lines)..RunEnd(lines)]);
    if h < RunEnd(lines) { DeclarationsStandApart(lines[h]); }
  }

  /**
   In the normalised lines the declarations of one run are ordered by register and then by ordinal, as numbers read off
   their text.
   */
  lemma RunsAreOrdered(lines: seq<string>, h: nat, start: nat, end: nat, i: nat, j: nat, a: nat, b: nat, c: nat, d: nat)
    requires RunAt(lines, h, start, end) && start <= i < j < end && |Normalize(lines)| == |lines|
    requires Declares(Normalize(lines)[i], a, b) && Declares(Normalize(lines)[j], c, d)
    ensures a < c || (a == c && b <= d)
  {
    hide RunAt, Declares, IsDeclaration, Normalize, Key, SortRun;
    RunIsSorted(lines, h, start, end);
    HeaderInside(lines, h, start, end);
    RunDeclares(lines, h, start, end);
    SortedRun(lines[start..end]);
    var out := Normalize(lines);
    assert out[i] == out[start..end][i - start] && out[j] == out[start..end][j - start];
    assert KeyLeq(out[i], out[j]);
    KeyIff(out[i], a, b);
    KeyIff(out[j], c, d);
  }

  lemma RunDeclares(lines: seq<string>, h: nat, start: nat, end: nat)
    requires RunAt(lines, h, start, end)
    ensures forall i :: 0 <= i < end - start ==> IsDeclaration(lines[start..end][i])
  {
    hide Opens, PassedOver, DeclaresSome, IsDeclaration;
    forall i | 0 <= i < end - start ensures IsDeclaration(lines[start..end][i]) {
      SomeIsDeclaration(lines[start + i]);
    }
  }

  /** Declarations of one run with the same two numbers keep their order. */
  lemma EqualNumbersKeepOrder(lines: seq<string>, h: nat, start: nat, end: nat, a: nat, b: nat)
    requires RunAt(lines, h, start, end)
    ensures end <= |Normalize(lines)|
    ensures Filter(Normalize(lines)[start..end], x => Declares(x, a, b))
            == Filter(lines[start..end], x => Declares(x, a, b))
  {
    hide RunAt, Declares, Normalize, Key, Filter, Sort;
    RunIsSorted(lines, h, start, end);
    HeaderInside(lines, h, start, end);
    forall x, y | Declares(x, a, b) && Declares(y, a, b) ensures KeyLeq(x, y) {
      KeyIff(x, a, b);
      KeyIff(y, a, b);
    }
    SortIsStable(lines[start..end], KeyLeq, x => Declares(x, a, b));
  }

  /**
   On text: the lines of a normalised source whose last line may stay last are ordered so inside every run, and a source
   without the marker `aotBuiltFunctions` is left alone.
   */
  lemma OutputIsOrdered(source: string, h: nat, start: nat, end: nat, i: nat, j: nat, a: nat, b: nat, c: nat, d: nat)
    requires NormalizeSource(source).Some? && SafeTail(Lines(source)) && RunAt(Lines(source), h, start, end)
    requires start <= i < j < end && |Lines(NormalizeSource(source).value)| == |Lines(source)|
    requires Declares(Lines(NormalizeSource(source).value)[i], a, b)
    requires Declares(Lines(NormalizeSource(source).value)[j], c, d)
    ensures if Contains(source, "aotBuiltFunctions") then a < c || (a == c && b <= d)
            else NormalizeSource(source) == Some(source)
  {
    hide RunAt, Declares, Normalize, SafeTail, Lines, Contains, Panics;
    if Contains(source, "aotBuiltFunctions") {
      LinesSurviveIff(source);
      RunsAreOrdered(Lines(source), h, start, end, i, j, a, b, c, d);
    }
  }
}
