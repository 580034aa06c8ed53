/**
 Rewriting a resource collection: every `<file …>path</file>` entry keeps its tag and gets the name of its staged
 copy as the path, and the text around the entries is untouched.
 */
module QtResources {
  import opened Options
  import opened Text
  import opened Bytes
  import XmlText
  import Decimal

  const OPEN := "<file"
  const CLOSE := "</file>"

  datatype Failure = MalformedTag | MissingClose | NoAlias | BadText(reason: XmlText.Failure) | Unresolved | NoEntries

  /** One entry with the text before it; a collection ends with a last stretch of text. */
  datatype Entry = Entry(gap: string, tag: string, body: string)

  datatype Document = Document(entries: seq<Entry>, tail: string)

  /** `attribute` */
  function Attribute(tag: string, name: string): Option<string> {
    var marker := name + "=";
    match Find(tag, marker)
    case None => None
    case Some(i) =>
      var start := i + |marker|;
      if start >= |tag| || (tag[start] != '"' && tag[start] != '\'') then None
      else
        var value := tag[start + 1..];
        var n := IndexOf(value, tag[start]);
        if n == |value| then None else Some(value[..n])
  }

  /** The checks on one entry; `resolves` tells whether a decoded path leads to a file that can be copied. */
  function CheckEntry(tag: string, body: string, resolves: string -> bool): Option<Failure> {
    if Attribute(tag, "alias").None? then Some(NoAlias)
    else
      match XmlText.Decode(Trim(body))
      case Err(e) => Some(BadText(e))
      case Ok(path) => if resolves(path) then None else Some(Unresolved)
  }

  function Cons(e: Entry, r: Result<Document, Failure>): Result<Document, Failure> {
    match r
    case Ok(d) => Ok(Document([e] + d.entries, d.tail))
    case Err(f) => Err(f)
  }

  /** The scan for entries, from the left. */
  function Parse(s: string, resolves: string -> bool): Result<Document, Failure>
    decreases |s|, 2
  {
    match Find(s, OPEN)
    case None => Ok(Document([], s))
    case Some(i) => ParseTag(s[..i], s[i..], resolves)
  }

  function ParseTag(gap: string, entry: string, resolves: string -> bool): Result<Document, Failure>
    decreases |entry|, 1
  {
    var j := IndexOf(entry, '>');
    if j == |entry| then Err(MalformedTag) else ParseBody(gap, entry[..j + 1], entry[j + 1..], resolves)
  }

  function ParseBody(gap: string, tag: string, after: string, resolves: string -> bool): Result<Document, Failure>
    decreases |after|, 0
  {
    match Find(after, CLOSE)
    case None => Err(MissingClose)
    case Some(k) =>
      match CheckEntry(tag, after[..k], resolves)
      case Some(f) => Err(f)
      case None => Cons(Entry(gap, tag, after[..k]), Parse(after[k + |CLOSE|..], resolves))
  }

  function EntryText(e: Entry): string { e.gap + (e.tag + (e.body + CLOSE)) }

  function Join(entries: seq<Entry>, tail: string): string {
    if entries == [] then tail else EntryText(entries[0]) + Join(entries[1..], tail)
  }

  /** What makes the scan find exactly this entry. */
  ghost predicate EntryValid(e: Entry, resolves: string -> bool) {
    && OccursAt(e.tag, 0, OPEN) && (forall i :: 0 <= i < |e.gap| ==> !OccursAt(e.gap + e.tag, i, OPEN))
    && IndexOf(e.tag, '>') == |e.tag| - 1
    && (forall i :: 0 <= i < |e.body| ==> !OccursAt(e.body + CLOSE, i, CLOSE))
    && CheckEntry(e.tag, e.body, resolves).None?
  }

  ghost predicate DocumentValid(d: Document, resolves: string -> bool) {
    && (forall i :: 0 <= i < |d.entries| ==> EntryValid(d.entries[i], resolves))
    && (forall i :: 0 <= i <= |d.tail| ==> !OccursAt(d.tail, i, OPEN))
  }

  // ---------------------------------------------------------------- the scan and its inverse

  lemma OccursInPrefix(a: string, b: string, i: int, t: string)
    requires i + |t| <= |a|
    ensures OccursAt(a + b, i, t) <==> OccursAt(a, i, t)
  {
    if 0 <= i { assert (a + b)[i..i + |t|] == a[i..i + |t|]; }
  }

  lemma OccursBehind(a: string, b: string, t: string)
    requires OccursAt(b, 0, t)
    ensures OccursAt(a + b, |a|, t)
  {
    assert (a + b)[|a|..|a| + |t|] == b[0..|t|];
  }

  lemma IndexOfExtends(a: string, b: string, c: char)
    requires IndexOf(a, c) < |a|
    ensures IndexOf(a + b, c) == IndexOf(a, c)
  {
    var n := IndexOf(a, c);
    assert (a + b)[n] == a[n] && forall i :: 0 <= i < n ==> (a + b)[i] == a[i];
    var m := IndexOf(a + b, c);
    assert m <= n;
  }

  /** One step of the scan, by the positions it finds. */
  lemma ParseFound(s: string, i: nat, j: nat, k: nat, resolves: string -> bool)
    requires Find(s, OPEN) == Some(i) && j == IndexOf(s[i..], '>') < |s| - i && Find(s[i..][j + 1..], CLOSE) == Some(k)
    ensures var tag, after := s[i..][..j + 1], s[i..][j + 1..];
      Parse(s, resolves) ==
        match CheckEntry(tag, after[..k], resolves)
        case Some(f) => Err(f)
        case None => Cons(Entry(s[..i], tag, after[..k]), Parse(after[k + |CLOSE|..], resolves))
  {
    hide CheckEntry, OccursAt, Find, IndexOf, OPEN, CLOSE, Cons, ParseTag, ParseBody;
    TagFollows(s[..i], s[i..], j, resolves);
    BodyFollows(s[..i], s[i..][..j + 1], s[i..][j + 1..], k, resolves);
  }

  lemma TagFollows(gap: string, entry: string, j: nat, resolves: string -> bool)
    requires j == IndexOf(entry, '>') < |entry|
    ensures ParseTag(gap, entry, resolves) == ParseBody(gap, entry[..j + 1], entry[j + 1..], resolves)
  {
    hide IndexOf, ParseBody;
  }

  lemma BodyFollows(gap: string, tag: string, after: string, k: nat, resolves: string -> bool)
    requires Find(after, CLOSE) == Some(k)
    ensures ParseBody(gap, tag, after, resolves) ==
        match CheckEntry(tag, after[..k], resolves)
        case Some(f) => Err(f)
        case None => Cons(Entry(gap, tag, after[..k]), Parse(after[k + |CLOSE|..], resolves))
  {
    hide CheckEntry, OccursAt, Find, CLOSE, Cons, Parse;
  }

  lemma Cut(a: string, b: string)
    ensures (a + b)[..|a|] == a && (a + b)[|a|..] == b
  {
  }

  lemma Whole(s: string, n: nat)
    requires n <= |s|
    ensures s == s[..n] + s[n..]
  {
  }

  lemma Regrouped(a: string, b: string, c: string)
    ensures (a + b) + c == a + (b + c)
  {
  }

  /** The scan of an entry's text finds that entry. */
  lemma ParseEntry(e: Entry, rest: string, resolves: string -> bool)
    requires EntryValid(e, resolves)
    ensures Parse(EntryText(e) + rest, resolves) == Cons(e, Parse(rest, resolves))
  {
    hide CheckEntry, OccursAt, Parse, IndexOf, Find, OPEN, CLOSE, EntryValid, EntryText, Cons;
    var after := (e.body + CLOSE) + rest;
    EntryTextIs(e, rest);
    FindsOpen(e, after, resolves);
    FindsEnd(e, after, resolves);
    FindsClose(e, rest, resolves);
    Regrouped(e.gap, e.tag, after);
    Cut(e.gap, e.tag + after);
    Cut(e.tag, after);
    Regrouped(e.body, CLOSE, rest);
    Cut(e.body, CLOSE + rest);
    Cut(e.body + CLOSE, rest);
    ParseFound((e.gap + e.tag) + after, |e.gap|, |e.tag| - 1, |e.body|, resolves);
  }

  lemma EntryTextIs(e: Entry, rest: string)
    ensures EntryText(e) + rest == (e.gap + e.tag) + ((e.body + CLOSE) + rest)
  {
    hide CLOSE;
    Regrouped(e.gap, e.tag, e.body + CLOSE);
    Regrouped(e.gap + e.tag, e.body + CLOSE, rest);
  }

  lemma FindsEnd(e: Entry, after: string, resolves: string -> bool)
    requires EntryValid(e, resolves)
    ensures e.tag != "" && IndexOf(e.tag + after, '>') == |e.tag| - 1 && CheckEntry(e.tag, e.body, resolves).None?
  {
    hide CheckEntry, OccursAt, IndexOf, OPEN, CLOSE;
    IndexOfExtends(e.tag, after, '>');
  }

  lemma FindsOpen(e: Entry, after: string, resolves: string -> bool)
    requires EntryValid(e, resolves)
    ensures Find((e.gap + e.tag) + after, OPEN) == Some(|e.gap|)
  {
    var s := (e.gap + e.tag) + after;
    OccursBehind(e.gap, e.tag, OPEN);
    forall i | 0 <= i <= |e.gap| ensures OccursAt(s, i, OPEN) <==> OccursAt(e.gap + e.tag, i, OPEN) {
      OccursInPrefix(e.gap + e.tag, after, i, OPEN);
    }
    FindIs(s, OPEN, |e.gap|);
  }

  lemma FindsClose(e: Entry, rest: string, resolves: string -> bool)
    requires EntryValid(e, resolves)
    ensures Find((e.body + CLOSE) + rest, CLOSE) == Some(|e.body|)
  {
    var s := (e.body + CLOSE) + rest;
    assert CLOSE[0..|CLOSE|] == CLOSE;
    OccursBehind(e.body, CLOSE, CLOSE);
    forall i | 0 <= i <= |e.body| ensures OccursAt(s, i, CLOSE) <==> OccursAt(e.body + CLOSE, i, CLOSE) {
      OccursInPrefix(e.body + CLOSE, rest, i, CLOSE);
    }
    FindIs(s, CLOSE, |e.body|);
  }

  lemma {:induction false} ParseJoined(entries: seq<Entry>, tail: string, resolves: string -> bool)
    requires DocumentValid(Document(entries, tail), resolves)
    ensures Parse(Join(entries, tail), resolves) == Ok(Document(entries, tail))
  {
    hide EntryValid, OccursAt, CheckEntry, Find, IndexOf, EntryText;
    if entries != [] {
      hide Parse;
      ParseJoined(entries[1..], tail, resolves);
      ParseEntry(entries[0], Join(entries[1..], tail), resolves);
      assert entries == [entries[0]] + entries[1..];
    }
  }

  lemma {:induction false} ParsedIsValid(s: string, resolves: string -> bool)
    requires Parse(s, resolves).Ok?
    ensures var d := Parse(s, resolves).value; DocumentValid(d, resolves) && Join(d.entries, d.tail) == s
    decreases |s|
  {
    hide EntryValid, CheckEntry, OccursAt, Find, IndexOf, EntryText, OPEN, CLOSE, Parse;
    var found := Find(s, OPEN);
    if found.None? {
      ParseEnds(s, resolves);
    } else {
      hide DocumentValid, Join;
      var i := found.value;
      var j := IndexOf(s[i..], '>');
      if j == |s| - i { ParseMalformed(s, i, resolves); }
      var after := s[i..][j + 1..];
      if Find(after, CLOSE).None? { ParseUnclosed(s, i, j, resolves); }
      var k := Find(after, CLOSE).value;
      ParseFound(s, i, j, k, resolves);
      FoundEntry(s, i, j, k, resolves);
      var e, rest := Entry(s[..i], s[i..][..j + 1], after[..k]), after[k + |CLOSE|..];
      ParsedIsValid(rest, resolves);
      ConsValid(e, Parse(rest, resolves).value, resolves);
    }
  }

  lemma ConsValid(e: Entry, d: Document, resolves: string -> bool)
    requires EntryValid(e, resolves) && DocumentValid(d, resolves)
    ensures DocumentValid(Document([e] + d.entries, d.tail), resolves)
    ensures Join([e] + d.entries, d.tail) == EntryText(e) + Join(d.entries, d.tail)
  {
    hide EntryValid, EntryText, OccursAt, OPEN;
    assert ([e] + d.entries)[1..] == d.entries;
  }

  lemma FoundEntry(s: string, i: nat, j: nat, k: nat, resolves: string -> bool)
    requires Find(s, OPEN) == Some(i) && j == IndexOf(s[i..], '>') < |s| - i && Find(s[i..][j + 1..], CLOSE) == Some(k)
    requires CheckEntry(s[i..][..j + 1], s[i..][j + 1..][..k], resolves).None?
    ensures var after := s[i..][j + 1..];
      var e := Entry(s[..i], s[i..][..j + 1], after[..k]);
      EntryValid(e, resolves) && EntryText(e) + after[k + |CLOSE|..] == s && k + |CLOSE| <= |after|
  {
    hide CheckEntry, OccursAt, OPEN, CLOSE, IndexOf, Find, EntryText, EntryValid;
    var tag, after := s[i..][..j + 1], s[i..][j + 1..];
    var e, rest := Entry(s[..i], tag, after[..k]), after[k + |CLOSE|..];
    CloseFound(after, k);
    Whole(s, i);
    Whole(s[i..], j + 1);
    Regrouped(e.gap, tag, after);
    OpenFound(s, i);
    TagFound(s[i..], j);
    forall m | 0 <= m < i ensures !OccursAt(e.gap + tag, m, OPEN) {
      OccursInPrefix(e.gap + tag, after, m, OPEN);
    }
    forall m | 0 <= m < k ensures !OccursAt(e.body + CLOSE, m, CLOSE) {
      OccursInPrefix(e.body + CLOSE, rest, m, CLOSE);
    }
    FoundIsValid(e, resolves);
    EntryTextIs(e, rest);
  }

  lemma FoundIsValid(e: Entry, resolves: string -> bool)
    requires OccursAt(e.tag, 0, OPEN) && forall i :: 0 <= i < |e.gap| ==> !OccursAt(e.gap + e.tag, i, OPEN)
    requires IndexOf(e.tag, '>') == |e.tag| - 1 && CheckEntry(e.tag, e.body, resolves).None?
    requires forall i :: 0 <= i < |e.body| ==> !OccursAt(e.body + CLOSE, i, CLOSE)
    ensures EntryValid(e, resolves)
  {
  }

  lemma CloseFound(after: string, k: nat)
    requires OccursAt(after, k, CLOSE)
    ensures k + |CLOSE| <= |after| && after == (after[..k] + CLOSE) + after[k + |CLOSE|..]
  {
    hide CLOSE;
  }

  lemma OpenFound(s: string, i: nat)
    requires OccursAt(s, i, OPEN)
    ensures i <= |s| && OccursAt(s[i..], 0, OPEN)
  {
    hide OPEN;
    assert s[i..][0..|OPEN|] == s[i..i + |OPEN|];
  }

  lemma TagFound(s: string, j: nat)
    requires j == IndexOf(s, '>') < |s| && OccursAt(s, 0, OPEN)
    ensures |OPEN| < j + 1 && IndexOf(s[..j + 1], '>') == j && OccursAt(s[..j + 1], 0, OPEN)
  {
    hide IndexOf, OPEN, OccursAt;
    OpenIsPlain();
    OpenBeforeEnd(s, j);
    FirstIsLast(s[..j + 1], '>');
    OccursInPrefix(s[..j + 1], s[j + 1..], 0, OPEN);
    assert s == s[..j + 1] + s[j + 1..];
  }

  lemma FirstIsLast(s: string, c: char)
    requires s != "" && s[|s| - 1] == c && forall i :: 0 <= i < |s| - 1 ==> s[i] != c
    ensures IndexOf(s, c) == |s| - 1
  {
    hide IndexOf;
    var n := IndexOf(s, c);
    assert n < |s| ==> s[n] == c;
  }

  lemma OpenIsPlain()
    ensures Free(OPEN, '>')
  {
  }

  lemma OpenBeforeEnd(s: string, j: nat)
    requires j < |s| && s[j] == '>' && OccursAt(s, 0, OPEN) && Free(OPEN, '>')
    ensures |OPEN| <= j
  {
    hide OPEN;
    assert forall m :: 0 <= m < |OPEN| ==> s[m] == s[0..|OPEN|][m] == OPEN[m];
  }

  /** The scan and the text of a document are inverse to each other, on exactly the valid documents. */
  lemma ParseIff(s: string, d: Document, resolves: string -> bool)
    ensures Parse(s, resolves) == Ok(d) <==> DocumentValid(d, resolves) && Join(d.entries, d.tail) == s
  {
    hide DocumentValid, Join, Parse;
    if Parse(s, resolves) == Ok(d) { ParsedIsValid(s, resolves); }
    if DocumentValid(d, resolves) { ParseJoined(d.entries, d.tail, resolves); }
  }

  // ---------------------------------------------------------------- staged entries

  function Padded(digits: string): string
    decreases 4 - |digits|
  {
    if |digits| >= 4 then digits else Padded("0" + digits)
  }

  /** `resource-0000`, `resource-0001`, … */
  function StagedName(index: nat): string { "resource-" + Padded(Decimal.Print(index)) }

  function Staged(e: Entry, index: nat): Entry { e.(body := StagedName(index)) }

  function Restage(entries: seq<Entry>, index: nat): (r: seq<Entry>)
    ensures |r| == |entries|
    ensures forall i :: 0 <= i < |r| ==> r[i] == Staged(entries[i], index + i)
  {
    if entries == [] then [] else [Staged(entries[0], index)] + Restage(entries[1..], index + 1)
  }

  /** What `normalize_qml_resources` writes. */
  function Normalized(contents: string, resolves: string -> bool): Result<string, Failure> {
    match Parse(contents, resolves)
    case Err(f) => Err(f)
    case Ok(d) => if d.entries == [] then Err(NoEntries) else Ok(Join(Restage(d.entries, 0), d.tail))
  }

  lemma {:induction false} PaddedDigits(digits: string)
    requires digits != "" && Decimal.AllDigits(digits)
    ensures Padded(digits) != "" && Decimal.AllDigits(Padded(digits))
    decreases 4 - |digits|
  {
    if |digits| < 4 { PaddedDigits("0" + digits); }
  }

  lemma {:induction false} LeadingZero(digits: string)
    requires Decimal.AllDigits(digits)
    ensures Decimal.AllDigits("0" + digits) && Decimal.Value("0" + digits) == Decimal.Value(digits)
    decreases |digits|
  {
    var padded := "0" + digits;
    if digits == "" {
      assert padded[..0] == "";
    } else {
      var n := |digits| - 1;
      LeadingZero(digits[..n]);
      assert padded[..n + 1] == "0" + digits[..n];
    }
  }

  lemma {:induction false} PaddedValue(digits: string)
    requires Decimal.AllDigits(digits)
    ensures Decimal.AllDigits(Padded(digits)) && Decimal.Value(Padded(digits)) == Decimal.Value(digits)
    ensures |Padded(digits)| == if |digits| < 4 then 4 else |digits|
    decreases 4 - |digits|
  {
    if |digits| < 4 {
      LeadingZero(digits);
      PaddedValue("0" + digits);
    }
  }

  /** A staged name is `resource-` and the index in at least four digits, without a superfluous zero beyond that. */
  lemma StagedNameIs(index: nat)
    ensures var name := StagedName(index);
      && |name| >= 13 && name[..9] == "resource-" && Decimal.AllDigits(name[9..])
      && Decimal.Value(name[9..]) == index && (|name| > 13 ==> name[9] != '0')
  {
    hide Padded;
    var digits := Decimal.Print(index);
    Decimal.PrintIsNumeral(index);
    PaddedValue(digits);
    PaddedLong(digits);
    assert StagedName(index)[9..] == Padded(digits);
  }

  lemma PaddedLong(digits: string)
    ensures |digits| >= 4 ==> Padded(digits) == digits
  {
  }

  /** Different entries get different names. */
  lemma StagedNamesDiffer(i: nat, j: nat)
    requires StagedName(i) == StagedName(j)
    ensures i == j
  {
    hide StagedName;
    StagedNameIs(i);
    StagedNameIs(j);
  }

  lemma NameIsPlain(index: nat)
    ensures var name := StagedName(index);
      && Free(name, '<') && Free(name, '&') && XmlText.Decode(Trim(name)) == Ok(name)
  {
    hide XmlText.Decode, StagedName, IsWhitespace;
    var name := StagedName(index);
    NameCharacters(index);
    TrimOf("", name, "");
    assert "" + (name + "") == name && name + "" == name;
    XmlText.DecodePlain(name, "");
    XmlText.DecodeNothing();
  }

  lemma NameCharacters(index: nat)
    ensures var name := StagedName(index);
      && name != "" && Free(name, '<') && Free(name, '&') && !IsWhitespace(name[0]) && !IsWhitespace(name[|name| - 1])
  {
    hide Padded;
    var digits := Padded(Decimal.Print(index));
    Decimal.PrintIsNumeral(index);
    PaddedDigits(Decimal.Print(index));
    assert Free("resource-", '<') && Free("resource-", '&') && Free(digits, '<') && Free(digits, '&');
  }

  lemma StagedValid(e: Entry, index: nat, resolves: string -> bool, again: string -> bool)
    requires EntryValid(e, resolves) && again(StagedName(index))
    ensures EntryValid(Staged(e, index), again)
  {
    hide StagedName, OccursAt, XmlText.Decode, Trim;
    var name := StagedName(index);
    NameIsPlain(index);
    NoCloseBefore(name);
  }

  lemma NoCloseBefore(name: string)
    requires Free(name, '<')
    ensures forall i :: 0 <= i < |name| ==> !OccursAt(name + CLOSE, i, CLOSE)
  {
    forall i | 0 <= i < |name| ensures !OccursAt(name + CLOSE, i, CLOSE) {
      assert (name + CLOSE)[i..i + |CLOSE|][0] == name[i];
    }
  }

  /** The staging directory holds the copies this collection was staged as, one per entry. */
  ghost predicate StagedFilesResolve(contents: string, resolves: string -> bool, again: string -> bool) {
    Parse(contents, resolves).Ok? ==>
      forall i :: 0 <= i < |Parse(contents, resolves).value.entries| ==> again(StagedName(i))
  }

  /**
   Scanning the rewritten collection finds the same entries in the same order with the same tags and the same text
   around them; only the paths have become the staged names, which resolve next to the rewritten file.
   */
  lemma RewritingKeepsStructure(contents: string, resolves: string -> bool, again: string -> bool)
    requires Normalized(contents, resolves).Ok? && StagedFilesResolve(contents, resolves, again)
    ensures Parse(contents, resolves).Ok?
    ensures var d := Parse(contents, resolves).value;
      Parse(Normalized(contents, resolves).value, again) == Ok(Document(Restage(d.entries, 0), d.tail))
  {
    hide EntryValid, OccursAt, Parse, Join, Staged, StagedName;
    ParsedIsValid(contents, resolves);
    var d := Parse(contents, resolves).value;
    var staged := Restage(d.entries, 0);
    forall i | 0 <= i < |staged| ensures EntryValid(staged[i], again) {
      StagedValid(d.entries[i], i, resolves, again);
    }
    ParseJoined(staged, d.tail, again);
  }

  /** Rewriting the rewritten collection changes nothing. */
  lemma RewritingIdempotent(contents: string, resolves: string -> bool, again: string -> bool)
    requires Normalized(contents, resolves).Ok? && StagedFilesResolve(contents, resolves, again)
    ensures Normalized(Normalized(contents, resolves).value, again) == Normalized(contents, resolves)
  {
    hide Parse, Join, StagedName;
    RewritingKeepsStructure(contents, resolves, again);
    var staged := Restage(Parse(contents, resolves).value.entries, 0);
    assert Restage(staged, 0) == staged;
  }

  // ---------------------------------------------------------------- which collections are rewritten

  /** A collection is rewritten exactly when it is the text of a valid document with an entry. */
  lemma NormalizedIff(contents: string, resolves: string -> bool)
    ensures Normalized(contents, resolves).Ok? <==>
            exists d :: DocumentValid(d, resolves) && Join(d.entries, d.tail) == contents && d.entries != []
    ensures Normalized(contents, resolves) == Err(NoEntries) <==>
            exists d :: DocumentValid(d, resolves) && Join(d.entries, d.tail) == contents && d.entries == []
  {
    hide DocumentValid, Join, Parse;
    ParseNeverSaysEmpty(contents, resolves);
    if Parse(contents, resolves).Ok? { ParseIff(contents, Parse(contents, resolves).value, resolves); }
    forall d | DocumentValid(d, resolves) && Join(d.entries, d.tail) == contents
      ensures Parse(contents, resolves) == Ok(d)
    {
      ParseIff(contents, d, resolves);
    }
  }

  lemma {:induction false} ParseNeverSaysEmpty(s: string, resolves: string -> bool)
    ensures Parse(s, resolves) != Err(NoEntries)
    decreases |s|
  {
    hide Parse, OccursAt, Find, IndexOf, CheckEntry, OPEN, CLOSE;
    var found := Find(s, OPEN);
    if found.None? {
      ParseEnds(s, resolves);
    } else {
      var i := found.value;
      var j := IndexOf(s[i..], '>');
      if j == |s| - i {
        ParseMalformed(s, i, resolves);
      } else {
        var after := s[i..][j + 1..];
        var close := Find(after, CLOSE);
        if close.None? {
          ParseUnclosed(s, i, j, resolves);
        } else {
          ParseFound(s, i, j, close.value, resolves);
          CheckNeverSaysEmpty(s[i..][..j + 1], after[..close.value], resolves);
          ParseNeverSaysEmpty(after[close.value + |CLOSE|..], resolves);
        }
      }
    }
  }

  lemma CheckNeverSaysEmpty(tag: string, body: string, resolves: string -> bool)
    ensures CheckEntry(tag, body, resolves) != Some(NoEntries)
  {
    hide XmlText.Decode, Trim, Attribute;
  }

  /** The next entry of the text is the one the scan fails for: no end of its tag, no closing tag, or a failed check. */
  ghost predicate StuckAt(rest: string, failure: Failure, resolves: string -> bool) {
    exists i :: Find(rest, OPEN) == Some(i) && StuckThere(rest[i..], failure, resolves)
  }

  ghost predicate StuckThere(entry: string, failure: Failure, resolves: string -> bool) {
    || (failure == MalformedTag && Free(entry, '>'))
    || (exists tag, after :: TagCut(entry, tag, after) && StuckBehind(tag, after, failure, resolves))
  }

  /** The tag ends with the first closing bracket. */
  ghost predicate TagCut(entry: string, tag: string, after: string) {
    entry == tag + after && tag != "" && tag[|tag| - 1] == '>' && Free(tag[..|tag| - 1], '>')
  }

  ghost predicate StuckBehind(tag: string, after: string, failure: Failure, resolves: string -> bool) {
    || (failure == MissingClose && Find(after, CLOSE).None?)
    || (exists k :: Find(after, CLOSE) == Some(k) && CheckEntry(tag, after[..k], resolves) == Some(failure))
  }

  /** A failure is reported for the first entry that is stuck, behind entries that are all fine. */
  lemma {:induction false} FirstFailureReported(s: string, failure: Failure, resolves: string -> bool)
    returns (entries: seq<Entry>, rest: string)
    requires Parse(s, resolves) == Err(failure)
    ensures s == Join(entries, rest) && (forall i :: 0 <= i < |entries| ==> EntryValid(entries[i], resolves))
    ensures StuckAt(rest, failure, resolves)
    decreases |s|
  {
    hide EntryValid, CheckEntry, OccursAt, Find, IndexOf, EntryText, OPEN, CLOSE, StuckAt, Parse;
    if Find(s, OPEN).None? { ParseEnds(s, resolves); }
    var i := Find(s, OPEN).value;
    var j := IndexOf(s[i..], '>');
    if j == |s| - i {
      ParseMalformed(s, i, resolves);
      assert StuckAt(s, failure, resolves) by { NoTagEnd(s, i, resolves); }
      return [], s;
    }
    var tag, after := s[i..][..j + 1], s[i..][j + 1..];
    TagIsCut(s[i..], j);
    var close := Find(after, CLOSE);
    if close.None? { ParseUnclosed(s, i, j, resolves); } else { ParseFound(s, i, j, close.value, resolves); }
    if close.None? || CheckEntry(tag, after[..close.value], resolves).Some? {
      assert StuckAt(s, failure, resolves) by { NoEntryHere(s, i, tag, after, failure, resolves); }
      return [], s;
    }
    var k := close.value;
    FoundEntry(s, i, j, k, resolves);
    var e, more := Entry(s[..i], tag, after[..k]), after[k + |CLOSE|..];
    var others;
    others, rest := FirstFailureReported(more, failure, resolves);
    entries := [e] + others;
    assert entries[1..] == others;
  }

  lemma NoTagEnd(s: string, i: nat, resolves: string -> bool)
    requires Find(s, OPEN) == Some(i) && IndexOf(s[i..], '>') == |s| - i
    ensures StuckAt(s, MalformedTag, resolves)
  {
    hide CheckEntry, OccursAt, Find, IndexOf;
    assert Free(s[i..], '>');
    assert StuckThere(s[i..], MalformedTag, resolves);
  }

  lemma TagIsCut(entry: string, j: nat)
    requires j == IndexOf(entry, '>') < |entry|
    ensures TagCut(entry, entry[..j + 1], entry[j + 1..])
  {
    hide IndexOf;
    Whole(entry, j + 1);
    var tag := entry[..j + 1];
    forall k | 0 <= k < j ensures tag[..j][k] != '>' { assert tag[..j][k] == entry[k]; }
  }

  lemma NoEntryHere(s: string, i: nat, tag: string, after: string, failure: Failure, resolves: string -> bool)
    requires Find(s, OPEN) == Some(i) && TagCut(s[i..], tag, after)
    requires || (Find(after, CLOSE).None? && failure == MissingClose)
             || (Find(after, CLOSE).Some?
                 && CheckEntry(tag, after[..Find(after, CLOSE).value], resolves) == Some(failure))
    ensures StuckAt(s, failure, resolves)
  {
    hide CheckEntry, OccursAt, Find, IndexOf, TagCut;
    assert StuckBehind(tag, after, failure, resolves);
    assert StuckThere(s[i..], failure, resolves);
  }

  // ---------------------------------------------------------------- what an entry stands for

  /** The bytes an entry leads to: `content` reads the file at a decoded path. */
  function ContentOf(e: Entry, content: string -> Option<Bytes>): Option<Bytes> {
    match XmlText.Decode(Trim(e.body))
    case Err(_) => None
    case Ok(path) => content(path)
  }

  /** A path that can be copied. */
  function Reachable(content: string -> Option<Bytes>): string -> bool { path => content(path).Some? }

  /** The staging directory holds one copy per entry, under its name. */
  ghost predicate CopiesOf(entries: seq<Entry>, content: string -> Option<Bytes>, staged: map<string, Bytes>) {
    forall k :: 0 <= k < |entries| ==>
      StagedName(k) in staged && ContentOf(entries[k], content) == Some(staged[StagedName(k)])
  }

  function Lookup(staged: map<string, Bytes>): string -> Option<Bytes> {
    path => if path in staged then Some(staged[path]) else None
  }

  lemma CopiesGrow(entries: seq<Entry>, content: string -> Option<Bytes>, staged: map<string, Bytes>, e: Entry,
                   bytes: Bytes)
    requires CopiesOf(entries, content, staged) && ContentOf(e, content) == Some(bytes)
    ensures CopiesOf(entries + [e], content, staged[StagedName(|entries|) := bytes])
  {
    hide StagedName, ContentOf;
    forall k | 0 <= k < |entries| ensures StagedName(k) != StagedName(|entries|) {
      if StagedName(k) == StagedName(|entries|) { StagedNamesDiffer(k, |entries|); }
    }
  }

  /**
   Rewriting preserves what the collection stands for: entry by entry, with the same tag and so the same alias, the
   rewritten collection leads to the same bytes in the staging directory as the original did in its own place.
   */
  lemma RewritingKeepsContents(contents: string, content: string -> Option<Bytes>, staged: map<string, Bytes>)
    requires Normalized(contents, Reachable(content)).Ok? && Parse(contents, Reachable(content)).Ok?
    requires CopiesOf(Parse(contents, Reachable(content)).value.entries, content, staged)
    ensures var d := Parse(contents, Reachable(content)).value;
      var again := Parse(Normalized(contents, Reachable(content)).value, Reachable(Lookup(staged)));
      && again.Ok? && |again.value.entries| == |d.entries| && again.value.tail == d.tail
      && forall k :: 0 <= k < |d.entries| ==>
           && again.value.entries[k].tag == d.entries[k].tag && again.value.entries[k].gap == d.entries[k].gap
           && ContentOf(again.value.entries[k], Lookup(staged)) == ContentOf(d.entries[k], content)
  {
    hide Parse, Normalized, StagedName, Trim, XmlText.Decode;
    var d := Parse(contents, Reachable(content)).value;
    RewritingKeepsStructure(contents, Reachable(content), Reachable(Lookup(staged)));
    forall k | 0 <= k < |d.entries|
      ensures ContentOf(Staged(d.entries[k], k), Lookup(staged)) == ContentOf(d.entries[k], content)
    {
      NameIsPlain(k);
    }
  }

  // ---------------------------------------------------------------- the checks on an entry

  /** The tag has `alias=` and, behind its first occurrence, the value between two quotes of one kind. */
  ghost predicate HasAlias(tag: string, value: string) {
    exists i, quote :: AliasAt(tag, value, i, quote)
  }

  ghost predicate AliasAt(tag: string, value: string, i: nat, quote: char) {
    && OccursAt(tag, i, "alias=") && (forall j :: 0 <= j < i ==> !OccursAt(tag, j, "alias="))
    && (quote == '"' || quote == '\'') && Free(value, quote)
    && [quote] + value + [quote] <= tag[i + 6..]
  }

  lemma AliasIff(tag: string, value: string)
    ensures Attribute(tag, "alias") == Some(value) <==> HasAlias(tag, value)
  {
    var marker := "alias" + "=";
    assert marker == "alias=" && |marker| == 6;
    if Attribute(tag, "alias") == Some(value) { AliasFound(tag, value); }
    if i, quote :| AliasAt(tag, value, i, quote) { AliasReads(tag, value, i, quote); }
  }

  lemma AliasFound(tag: string, value: string)
    requires Attribute(tag, "alias") == Some(value)
    ensures HasAlias(tag, value)
  {
    var marker := "alias" + "=";
    assert marker == "alias=" && |marker| == 6;
    hide OccursAt, IndexOf, Find;
    var i := Find(tag, marker).value;
    var rest := tag[i + 6..];
    assert rest[0] == tag[i + 6] && rest[1..] == tag[i + 7..];
    QuotedIsPrefix(rest, IndexOf(rest[1..], rest[0]));
    assert AliasAt(tag, value, i, rest[0]);
  }

  lemma QuotedIsPrefix(rest: string, n: nat)
    requires rest != "" && n == IndexOf(rest[1..], rest[0]) < |rest| - 1
    ensures [rest[0]] + rest[1..][..n] + [rest[0]] <= rest && Free(rest[1..][..n], rest[0])
  {
    hide IndexOf;
    var quoted := [rest[0]] + rest[1..][..n] + [rest[0]];
    assert rest[..n + 2] == quoted;
  }

  lemma AliasReads(tag: string, value: string, i: nat, quote: char)
    requires AliasAt(tag, value, i, quote)
    ensures Attribute(tag, "alias") == Some(value)
  {
    var marker := "alias" + "=";
    assert marker == "alias=" && |marker| == 6;
    FindIs(tag, marker, i);
    hide OccursAt, IndexOf, Find;
    var rest := tag[i + 6..];
    var quoted := [quote] + value + [quote];
    assert rest == quoted + rest[|quoted|..];
    var text := tag[i + 7..];
    assert text == rest[1..] == value + [quote] + rest[|quoted|..];
    assert tag[i + 6] == rest[0] == quote;
    IndexOfFree(value, quote, rest[|quoted|..]);
    assert text[..|value|] == value;
  }

  /**
   An entry is accepted exactly when its tag has an alias and its trimmed text escapes a path that can be copied; the
   first of these that fails is what is reported.
   */
  lemma EntryAcceptedIff(tag: string, body: string, resolves: string -> bool)
    ensures CheckEntry(tag, body, resolves).None? <==>
            && (exists value :: HasAlias(tag, value))
            && (exists path :: XmlText.Escapes(Trim(body), path) && resolves(path))
    ensures CheckEntry(tag, body, resolves) == Some(NoAlias) <==> !exists value :: HasAlias(tag, value)
    ensures CheckEntry(tag, body, resolves) == Some(Unresolved) <==>
            && (exists value :: HasAlias(tag, value))
            && (exists path :: XmlText.Escapes(Trim(body), path) && !resolves(path))
  {
    hide HasAlias, Attribute, XmlText.Decode, XmlText.Escapes, Trim;
    if Attribute(tag, "alias").Some? { AliasIff(tag, Attribute(tag, "alias").value); }
    if value :| HasAlias(tag, value) { AliasIff(tag, value); }
    var text := Trim(body);
    if XmlText.Decode(text).Ok? { XmlText.DecodesIffEscapes(text, XmlText.Decode(text).value); }
    forall path | XmlText.Escapes(text, path) ensures XmlText.Decode(text) == Ok(path) {
      XmlText.DecodesIffEscapes(text, path);
    }
  }

  // ---------------------------------------------------------------- in place

  /** The text an entry is replaced by: its own tag, the staged name, the closing tag. */
  function StagedText(tag: string, index: nat): string
    requires |tag| > |OPEN|
  {
    OPEN + tag[|OPEN|..|tag| - 1] + ">" + StagedName(index) + CLOSE
  }

  function Head(entries: seq<Entry>): string { Join(entries, "") }

  lemma {:induction false} JoinAppends(entries: seq<Entry>, e: Entry, tail: string)
    ensures Join(entries + [e], tail) == Join(entries, EntryText(e) + tail)
  {
    hide EntryText;
    if entries == [] {
      assert entries + [e] == [e] && [e][1..] == [];
    } else {
      JoinAppends(entries[1..], e, tail);
      assert (entries + [e])[1..] == entries[1..] + [e];
    }
  }

  lemma {:induction false} JoinIsHead(entries: seq<Entry>, tail: string)
    ensures Join(entries, tail) == Head(entries) + tail
  {
    hide EntryText;
    if entries != [] {
      JoinIsHead(entries[1..], tail);
      assert EntryText(entries[0]) + (Head(entries[1..]) + tail) == (EntryText(entries[0]) + Head(entries[1..])) + tail;
    }
  }

  lemma HeadAppends(entries: seq<Entry>, e: Entry)
    ensures Head(entries + [e]) == Head(entries) + EntryText(e)
  {
    hide EntryText;
    JoinAppends(entries, e, "");
    JoinIsHead(entries, EntryText(e) + "");
    assert EntryText(e) + "" == EntryText(e);
  }

  /** The span of entry `k` and its replacement. */
  ghost predicate Replaces(entries: seq<Entry>, k: nat, r: (nat, nat, string)) {
    && k < |entries|
    && r.0 == |Head(entries[..k])| + |entries[k].gap|
    && r.1 == |Head(entries[..k])| + |EntryText(entries[k])|
    && r.2 == entries[k].tag + (StagedName(k) + CLOSE)
  }

  /** Replacing one span right of which everything is already rewritten. */
  lemma SpliceOne(entries: seq<Entry>, k: nat, tail: string, r: (nat, nat, string))
    requires k < |entries| && Replaces(entries, k, r)
    ensures var before := Head(entries[..k + 1]) + Join(Restage(entries[k + 1..], k + 1), tail);
      && r.0 <= r.1 <= |before|
      && before[..r.0] + (r.2 + before[r.1..]) == Head(entries[..k]) + Join(Restage(entries[k..], k), tail)
  {
    hide StagedName, Join;
    var e, head, rest := entries[k], Head(entries[..k]), Join(Restage(entries[k + 1..], k + 1), tail);
    assert entries[..k + 1] == entries[..k] + [e];
    HeadAppends(entries[..k], e);
    var before := (head + EntryText(e)) + rest;
    assert before[..r.0] == head + e.gap && before[r.1..] == rest;
    JoinStaged(entries, k, tail);
    assert (head + e.gap) + (r.2 + rest) == head + ((e.gap + r.2) + rest);
  }

  lemma JoinStaged(entries: seq<Entry>, k: nat, tail: string)
    requires k < |entries|
    ensures Join(Restage(entries[k..], k), tail)
         == (entries[k].gap + (entries[k].tag + (StagedName(k) + CLOSE))) + Join(Restage(entries[k + 1..], k + 1), tail)
  {
    hide StagedName;
    var all := Restage(entries[k..], k);
    assert all[1..] == Restage(entries[k + 1..], k + 1);
  }

  method ReplaceAll(contents: string, replacements: seq<(nat, nat, string)>, ghost entries: seq<Entry>,
                    ghost tail: string)
    returns (rewritten: string)
    requires contents == Join(entries, tail) && |replacements| == |entries|
    requires forall k :: 0 <= k < |entries| ==> Replaces(entries, k, replacements[k])
    ensures rewritten == Join(Restage(entries, 0), tail)
  {
    hide Replaces, Join, Restage;
    rewritten := contents;
    var i := |replacements|;
    NothingLeft(entries, tail);
    while i > 0
      invariant 0 <= i <= |replacements|
      invariant rewritten == Head(entries[..i]) + Join(Restage(entries[i..], i), tail)
    {
      i := i - 1;
      SpliceOne(entries, i, tail, replacements[i]);
      var (start, end, replacement) := replacements[i];
      rewritten := rewritten[..start] + (replacement + rewritten[end..]);
    }
    AllDone(entries, tail);
  }

  lemma NothingLeft(entries: seq<Entry>, tail: string)
    ensures Join(entries, tail) == Head(entries[..|entries|]) + Join(Restage(entries[|entries|..], |entries|), tail)
  {
    JoinIsHead(entries, tail);
    assert entries[..|entries|] == entries && entries[|entries|..] == [];
  }

  lemma AllDone(entries: seq<Entry>, tail: string)
    ensures Head(entries[..0]) + Join(Restage(entries[0..], 0), tail) == Join(Restage(entries, 0), tail)
  {
    assert entries[..0] == [] && entries[0..] == entries && Head([]) == "";
  }

  // ---------------------------------------------------------------- the scan by positions

  function Prepend(entries: seq<Entry>, r: Result<Document, Failure>): Result<Document, Failure> {
    match r
    case Ok(d) => Ok(Document(entries + d.entries, d.tail))
    case Err(f) => Err(f)
  }

  /** `from` is where the scan stands after finding `entries`. */
  ghost predicate ScannedTo(contents: string, from: nat, entries: seq<Entry>, resolves: string -> bool) {
    && from <= |contents| && contents == Join(entries, contents[from..]) && from == |Head(entries)|
    && Parse(contents, resolves) == Prepend(entries, Parse(contents[from..], resolves))
  }

  lemma ScanStarts(contents: string, resolves: string -> bool)
    ensures ScannedTo(contents, 0, [], resolves)
  {
    hide Parse;
    assert contents[0..] == contents;
    var r := Parse(contents, resolves);
    assert r.Ok? ==> [] + r.value.entries == r.value.entries;
  }

  lemma ScanAdvances(contents: string, from: nat, entries: seq<Entry>, e: Entry, rest: string, resolves: string -> bool)
    requires ScannedTo(contents, from, entries, resolves) && contents[from..] == EntryText(e) + rest
    requires Parse(contents[from..], resolves) == Cons(e, Parse(rest, resolves))
    ensures ScannedTo(contents, from + |EntryText(e)|, entries + [e], resolves)
    ensures rest == contents[from + |EntryText(e)|..]
  {
    hide Parse, Join, EntryText;
    assert contents[from + |EntryText(e)|..] == contents[from..][|EntryText(e)|..] == rest;
    JoinAppends(entries, e, rest);
    HeadAppends(entries, e);
    var r := Parse(rest, resolves);
    assert r.Ok? ==> entries + ([e] + r.value.entries) == (entries + [e]) + r.value.entries;
  }

  lemma StagedTextIs(tag: string, index: nat)
    requires OccursAt(tag, 0, OPEN) && IndexOf(tag, '>') == |tag| - 1 && |tag| > |OPEN|
    ensures StagedText(tag, index) == tag + (StagedName(index) + CLOSE)
  {
    hide StagedName, IndexOf, OPEN, CLOSE;
    ThreeParts(tag, |OPEN|);
    Regrouped(OPEN + tag[|OPEN|..|tag| - 1] + ">", StagedName(index), CLOSE);
  }

  lemma ThreeParts(tag: string, n: nat)
    requires n < |tag| && tag[|tag| - 1] == '>'
    ensures tag == tag[0..n] + tag[n..|tag| - 1] + ">"
  {
  }

  lemma ReplacesExtends(entries: seq<Entry>, e: Entry, k: nat, r: (nat, nat, string))
    requires Replaces(entries, k, r)
    ensures Replaces(entries + [e], k, r)
  {
    hide StagedName;
    assert (entries + [e])[..k] == entries[..k];
  }

  /** One round of the scan: the entry at the positions found, and its replacement. */
  lemma ScanRound(contents: string, from: nat, entries: seq<Entry>, i: nat, j: nat, k: nat, resolves: string -> bool)
    returns (e: Entry)
    requires ScannedTo(contents, from, entries, resolves)
    requires var s := contents[from..];
      && Find(s, OPEN) == Some(i) && j == IndexOf(s[i..], '>') < |s| - i && Find(s[i..][j + 1..], CLOSE) == Some(k)
      && CheckEntry(s[i..][..j + 1], s[i..][j + 1..][..k], resolves).None?
    ensures e == Entry(contents[from..][..i], contents[from..][i..][..j + 1], contents[from..][i..][j + 1..][..k])
    ensures |EntryText(e)| == i + j + 1 + k + |CLOSE|
    ensures ScannedTo(contents, from + |EntryText(e)|, entries + [e], resolves)
    ensures |e.tag| > |OPEN|
    ensures Replaces(entries + [e], |entries|, (from + i, from + |EntryText(e)|, StagedText(e.tag, |entries|)))
  {
    hide Parse, Join, CheckEntry, OccursAt, Find, StagedName, IndexOf;
    var s := contents[from..];
    e := Entry(s[..i], s[i..][..j + 1], s[i..][j + 1..][..k]);
    FoundEntry(s, i, j, k, resolves);
    ParseFound(s, i, j, k, resolves);
    ScanAdvances(contents, from, entries, e, s[i..][j + 1..][k + |CLOSE|..], resolves);
    OpenFound(s, i);
    TagFound(s[i..], j);
    StagedTextIs(e.tag, |entries|);
    assert (entries + [e])[..|entries|] == entries;
  }

  method CheckOne(tag: string, body: string, content: string -> Option<Bytes>)
    returns (f: Option<Failure>, bytes: Bytes)
    ensures f == CheckEntry(tag, body, Reachable(content))
    ensures f.None? ==> forall e: Entry :: e.body == body ==> ContentOf(e, content) == Some(bytes)
  {
    bytes := [];
    if Attribute(tag, "alias").None? {
      return Some(NoAlias), bytes;
    }
    var path := XmlText.DecodeXmlText(Trim(body));
    if path.Err? {
      return Some(BadText(path.error)), bytes;
    }
    if content(path.value).None? {
      return Some(Unresolved), bytes;
    }
    return None, content(path.value).value;
  }

  /**
   `normalize_qml_resources`: copy each file and collect the spans from left to right, then replace the spans from right
   to left.
   */
  method NormalizeResources(contents: string, content: string -> Option<Bytes>)
    returns (r: Result<string, Failure>, staged: map<string, Bytes>)
    ensures r == Normalized(contents, Reachable(content))
    ensures r.Ok? ==> Parse(contents, Reachable(content)).Ok?
                      && CopiesOf(Parse(contents, Reachable(content)).value.entries, content, staged)
  {
    hide Parse, Join, Restage, Replaces, EntryText, Head, CheckEntry, StagedText, Find, IndexOf, OccursAt, CopiesOf,
         StagedName, ContentOf;
    var resolves := Reachable(content);
    staged := map[];
    NoCopiesYet(content);
    var replacements: seq<(nat, nat, string)> := [];
    var searchFrom := 0;
    ghost var entries: seq<Entry> := [];
    ScanStarts(contents, resolves);
    while true
      invariant ScannedTo(contents, searchFrom, entries, resolves)
      invariant |replacements| == |entries| && forall k :: 0 <= k < |entries| ==> Replaces(entries, k, replacements[k])
      invariant CopiesOf(entries, content, staged)
      decreases |contents| - searchFrom
    {
      var rest := contents[searchFrom..];
      var found := Find(rest, OPEN);
      if found.None? {
        ParseEnds(rest, resolves);
        assert entries + [] == entries;
        break;
      }
      var i := found.value;
      var j := IndexOf(rest[i..], '>');
      if j == |rest| - i {
        ParseMalformed(rest, i, resolves);
        return Err(MalformedTag), staged;
      }
      var after := rest[i..][j + 1..];
      var close := Find(after, CLOSE);
      if close.None? {
        ParseUnclosed(rest, i, j, resolves);
        return Err(MissingClose), staged;
      }
      var k := close.value;
      var tag := rest[i..][..j + 1];
      ParseFound(rest, i, j, k, resolves);
      var refused, bytes := CheckOne(tag, after[..k], content);
      if refused.Some? {
        return Err(refused.value), staged;
      }
      ghost var e := ScanRound(contents, searchFrom, entries, i, j, k, resolves);
      forall n | 0 <= n < |entries| ensures Replaces(entries + [e], n, replacements[n]) {
        ReplacesExtends(entries, e, n, replacements[n]);
      }
      replacements := replacements
          + [(searchFrom + i, searchFrom + i + j + 1 + k + |CLOSE|, StagedText(tag, |replacements|))];
      searchFrom := searchFrom + i + j + 1 + k + |CLOSE|;
      CopiesGrow(entries, content, staged, e, bytes);
      staged := staged[StagedName(|replacements| - 1) := bytes];
      entries := entries + [e];
    }
    if replacements == [] {
      return Err(NoEntries), staged;
    }
    var rewritten := ReplaceAll(contents, replacements, entries, contents[searchFrom..]);
    return Ok(rewritten), staged;
  }

  lemma NoCopiesYet(content: string -> Option<Bytes>)
    ensures CopiesOf([], content, map[])
  {
  }

  lemma ParseEnds(s: string, resolves: string -> bool)
    requires Find(s, OPEN).None?
    ensures Parse(s, resolves) == Ok(Document([], s))
  {
  }

  lemma ParseMalformed(s: string, i: nat, resolves: string -> bool)
    requires Find(s, OPEN) == Some(i) && IndexOf(s[i..], '>') == |s| - i
    ensures Parse(s, resolves) == Err(MalformedTag)
  {
    hide CheckEntry, OccursAt, Find, IndexOf, OPEN, CLOSE, Cons, ParseBody;
  }

  lemma ParseUnclosed(s: string, i: nat, j: nat, resolves: string -> bool)
    requires Find(s, OPEN) == Some(i) && j == IndexOf(s[i..], '>') < |s| - i && Find(s[i..][j + 1..], CLOSE).None?
    ensures Parse(s, resolves) == Err(MissingClose)
  {
    hide CheckEntry, OccursAt, Find, IndexOf, OPEN, CLOSE, Cons, ParseTag;
    TagFollows(s[..i], s[i..], j, resolves);
  }
}
