/**
 Stable versions MAJOR.MINOR.PATCH. The grammar is implemented three times: by one regular
 expression with groups (release channel), by a bounded regular expression followed by a split
 (native upgrade policy), and by a split followed by a bounded regular expression per part
 (Windows lifecycle).
 */
module Versions {
  import opened Options
  import opened Decimal
  import opened Text

  const MAX_TEXT := 32
  const MAX_DIGITS := 10
  const MAX_COMPONENT := 0xFFFF_FFFF

  datatype Version = Version(major: nat, minor: nat, patch: nat) {
    predicate InRange() { major <= MAX_COMPONENT && minor <= MAX_COMPONENT && patch <= MAX_COMPONENT }

    function Text(): string { Dotted(Print(major), Dotted(Print(minor), Print(patch))) }
  }

  function Dotted(a: string, rest: string): string { a + "." + rest }

  /** Tuple order. */
  predicate Less(a: Version, b: Version) {
    a.major < b.major || (a.major == b.major && (a.minor < b.minor || (a.minor == b.minor && a.patch < b.patch)))
  }

  /** The three components as digits of one number in base 2^32. */
  function Weight(v: Version): nat {
    (v.major * 0x1_0000_0000 + v.minor) * 0x1_0000_0000 + v.patch
  }

  /** On versions that parse, newer means the greater number. */
  lemma LessIsNumeric(a: Version, b: Version)
    requires a.InRange() && b.InRange()
    ensures Less(a, b) <==> Weight(a) < Weight(b)
  {
  }

  // ---------------------------------------------------------------- release channel

  /** Length of the longest digit prefix. */
  function DigitRun(s: string): (n: nat)
    ensures n <= |s| && AllDigits(s[..n]) && (n < |s| ==> !IsDigit(s[n]))
  {
    if s == "" || !IsDigit(s[0]) then 0
    else
      assert s[..1 + DigitRun(s[1..])] == [s[0]] + s[1..][..DigitRun(s[1..])];
      1 + DigitRun(s[1..])
  }

  /** What (0|[1-9][0-9]*) consumes at the front of `s`; zero when it does not match. */
  function NumberPrefix(s: string): (n: nat)
    ensures n <= |s|
  {
    if s == "" then 0 else if s[0] == '0' then 1 else DigitRun(s)
  }

  /** Matches a number and the dot after it. */
  function NumberThenDot(s: string): Option<(string, string)> {
    var n := NumberPrefix(s);
    if 0 < n < |s| && s[n] == '.' then Some((s[..n], s[n + 1..])) else None
  }

  predicate TooBig(part: string) {
    |part| > MAX_DIGITS || !AllDigits(part) || Value(part) > MAX_COMPONENT
  }

  /** `parse_stable_version` of the release channel. */
  function ParseChannelVersion(s: string): Option<Version> {
    if |s| > MAX_TEXT then None
    else
      match NumberThenDot(s)
      case None => None
      case Some((a, rest)) =>
        match NumberThenDot(rest)
        case None => None
        case Some((b, c)) =>
          if c == "" || NumberPrefix(c) != |c| || TooBig(a) || TooBig(b) || TooBig(c) then None
          else Some(Version(Value(a), Value(b), Value(c)))
  }

  // ---------------------------------------------------------------- native upgrade policy

  /** What 0|[1-9][0-9]{0,9} consumes at the front of `s`. */
  function BoundedPrefix(s: string): (n: nat)
    ensures n <= |s|
  {
    if s == "" then 0
    else if s[0] == '0' then 1
    else if DigitRun(s) <= MAX_DIGITS then DigitRun(s) else MAX_DIGITS
  }

  function BoundedThenDot(s: string): Option<(string, string)> {
    var n := BoundedPrefix(s);
    if 0 < n < |s| && s[n] == '.' then Some((s[..n], s[n + 1..])) else None
  }

  predicate BoundedNumeral(part: string) { part != "" && BoundedPrefix(part) == |part| }

  /** The bounded regular expression accepts the whole text. */
  predicate BoundedShape(s: string) {
    match BoundedThenDot(s)
    case None => false
    case Some((_, rest)) =>
      match BoundedThenDot(rest)
      case None => false
      case Some((_, c)) => BoundedNumeral(c)
  }

  /** The numbers of a dotted text, as `int` reads them. */
  function Numbers(parts: seq<string>): Option<Version> {
    if |parts| != 3 || !AllDigits(parts[0]) || !AllDigits(parts[1]) || !AllDigits(parts[2]) then None
    else
      var v := Version(Value(parts[0]), Value(parts[1]), Value(parts[2]));
      if v.InRange() then Some(v) else None
  }

  /** `_version` of the native upgrade policy. */
  function ParseNativeVersion(s: string): Option<Version> {
    if |s| > MAX_TEXT || !BoundedShape(s) then None else Numbers(Split(s, '.'))
  }

  // ---------------------------------------------------------------- Windows lifecycle

  /** `StableVersion.parse` of the Windows lifecycle. */
  function ParseWindowsVersion(s: string): Option<Version> {
    var parts := Split(s, '.');
    if |s| > MAX_TEXT || |parts| != 3 || !BoundedNumeral(parts[0]) || !BoundedNumeral(parts[1])
        || !BoundedNumeral(parts[2])
    then None
    else Numbers(parts)
  }

  // ---------------------------------------------------------------- one language

  lemma BoundedNumeralIsNumeral(p: string)
    ensures BoundedNumeral(p) <==> Numeral(p) && |p| <= MAX_DIGITS
  {
    if p != "" {
      assert p[..|p|] == p;
      if AllDigits(p) { RunOfDigits(p); }
    }
  }

  lemma {:induction false} DigitRunIs(s: string, n: nat)
    requires n <= |s| && (forall i :: 0 <= i < n ==> IsDigit(s[i])) && (n < |s| ==> !IsDigit(s[n]))
    ensures DigitRun(s) == n
  {
    if n > 0 { DigitRunIs(s[1..], n - 1); }
  }

  lemma RunOfDigits(p: string)
    requires AllDigits(p)
    ensures DigitRun(p) == |p|
  {
    DigitRunIs(p, |p|);
  }

  lemma NumberPrefixIsNumeral(p: string)
    ensures p != "" && NumberPrefix(p) == |p| <==> Numeral(p)
  {
    if p != "" {
      assert p[..|p|] == p;
      if AllDigits(p) { RunOfDigits(p); }
    }
  }

  /** A number followed by a dot is recognised as such, and nothing else is. */
  lemma NumberThenDotIff(s: string, a: string, rest: string)
    ensures NumberThenDot(s) == Some((a, rest)) <==> Numeral(a) && s == Dotted(a, rest)
  {
    if NumberThenDot(s) == Some((a, rest)) {
      assert s == Dotted(a, rest);
      if s[0] != '0' { assert AllDigits(s[..DigitRun(s)]); }
    }
    if Numeral(a) && s == Dotted(a, rest) {
      RunOfNumeral(a, rest);
      assert s[..|a|] == a && s[|a| + 1..] == rest;
    }
  }

  lemma RunOfNumeral(a: string, rest: string)
    requires Numeral(a)
    ensures DigitRun(Dotted(a, rest)) == |a|
  {
    var s := Dotted(a, rest);
    assert s[|a|] == '.' && forall i :: 0 <= i < |a| ==> s[i] == a[i];
    DigitRunIs(s, |a|);
  }

  lemma SplitsInThree(s: string, a: string, b: string, c: string)
    requires Free(a, '.') && Free(b, '.') && Free(c, '.')
    ensures Split(s, '.') == [a, b, c] <==> s == Dotted(a, Dotted(b, c))
  {
    JoinThree(a, b, c);
    JoinSplit(s, '.');
    SplitJoin([a, b, c], '.');
  }

  lemma JoinThree(a: string, b: string, c: string)
    ensures Join([a, b, c], '.') == Dotted(a, Dotted(b, c))
  {
    JoinCons(b, [c], '.');
    JoinCons(a, [b, c], '.');
    assert [a] + [b, c] == [a, b, c] && [b] + [c] == [b, c];
  }

  lemma InRangeShort(n: nat)
    requires n <= MAX_COMPONENT
    ensures |Print(n)| <= MAX_DIGITS && Numeral(Print(n)) && Value(Print(n)) == n && Free(Print(n), '.')
  {
    PrintIsNumeral(n);
    PrintedLength(n, MAX_DIGITS);
    assert Pow10(10) == 10_000_000_000;
  }

  lemma AcceptedIsPrinted(s: string)
    requires ParseChannelVersion(s).Some?
    ensures ParseChannelVersion(s).value.InRange() && s == ParseChannelVersion(s).value.Text()
  {
    var (a, rest) := NumberThenDot(s).value;
    var (b, c) := NumberThenDot(rest).value;
    NumberThenDotIff(s, a, rest);
    NumberThenDotIff(rest, b, c);
    NumberPrefixIsNumeral(c);
    NumeralIsPrinted(a);
    NumeralIsPrinted(b);
    NumeralIsPrinted(c);
  }

  lemma PrintedIsAccepted(v: Version)
    requires v.InRange()
    ensures ParseChannelVersion(v.Text()) == Some(v)
  {
    InRangeShort(v.major);
    InRangeShort(v.minor);
    InRangeShort(v.patch);
    var rest := Dotted(Print(v.minor), Print(v.patch));
    NumberThenDotIff(v.Text(), Print(v.major), rest);
    NumberThenDotIff(rest, Print(v.minor), Print(v.patch));
    NumberPrefixIsNumeral(Print(v.patch));
  }

  /** The release channel's parser accepts exactly the printed forms of in-range versions. */
  lemma ChannelVersionIff(s: string, v: Version)
    ensures ParseChannelVersion(s) == Some(v) <==> v.InRange() && s == v.Text()
  {
    if ParseChannelVersion(s) == Some(v) { AcceptedIsPrinted(s); }
    if v.InRange() && s == v.Text() { PrintedIsAccepted(v); }
  }

  /** So does the Windows parser. */
  lemma WindowsVersionIff(s: string, v: Version)
    ensures ParseWindowsVersion(s) == Some(v) <==> v.InRange() && s == v.Text()
  {
    if ParseWindowsVersion(s) == Some(v) {
      var parts := Split(s, '.');
      assert parts == [parts[0], parts[1], parts[2]];
      forall i | 0 <= i < 3 ensures Numeral(parts[i]) && Print(Value(parts[i])) == parts[i] {
        BoundedNumeralIsNumeral(parts[i]);
        NumeralIsPrinted(parts[i]);
      }
      SplitsInThree(s, parts[0], parts[1], parts[2]);
    }
    if v.InRange() && s == v.Text() {
      InRangeShort(v.major);
      InRangeShort(v.minor);
      InRangeShort(v.patch);
      SplitsInThree(s, Print(v.major), Print(v.minor), Print(v.patch));
      BoundedNumeralIsNumeral(Print(v.major));
      BoundedNumeralIsNumeral(Print(v.minor));
      BoundedNumeralIsNumeral(Print(v.patch));
    }
  }

  /** The bounded expression accepts exactly three bounded numerals joined by dots. */
  lemma BoundedShapeIff(s: string)
    ensures BoundedShape(s) <==> |Split(s, '.')| == 3 && forall i :: 0 <= i < 3 ==> BoundedNumeral(Split(s, '.')[i])
  {
    var parts := Split(s, '.');
    if BoundedShape(s) { ShapeSplits(s); }
    if |parts| == 3 && forall i :: 0 <= i < 3 ==> BoundedNumeral(parts[i]) {
      assert parts == [parts[0], parts[1], parts[2]];
      NumeralsHaveShape(s, parts[0], parts[1], parts[2]);
    }
  }

  lemma ShapeSplits(s: string)
    requires BoundedShape(s)
    ensures |Split(s, '.')| == 3 && forall i :: 0 <= i < 3 ==> BoundedNumeral(Split(s, '.')[i])
  {
    var (a, rest) := BoundedThenDot(s).value;
    var (b, c) := BoundedThenDot(rest).value;
    BoundedThenDotIff(s, a, rest);
    BoundedThenDotIff(rest, b, c);
    BoundedNumeralIsNumeral(a);
    BoundedNumeralIsNumeral(b);
    BoundedNumeralIsNumeral(c);
    SplitsInThree(s, a, b, c);
  }

  lemma NumeralsHaveShape(s: string, a: string, b: string, c: string)
    requires BoundedNumeral(a) && BoundedNumeral(b) && BoundedNumeral(c) && Split(s, '.') == [a, b, c]
    ensures BoundedShape(s)
  {
    BoundedNumeralIsNumeral(a);
    BoundedNumeralIsNumeral(b);
    BoundedNumeralIsNumeral(c);
    SplitsInThree(s, a, b, c);
    BoundedThenDotIff(s, a, Dotted(b, c));
    BoundedThenDotIff(Dotted(b, c), b, c);
  }

  lemma BoundedThenDotIff(s: string, a: string, rest: string)
    ensures BoundedThenDot(s) == Some((a, rest)) <==> BoundedNumeral(a) && s == Dotted(a, rest)
  {
    BoundedNumeralIsNumeral(a);
    NumberThenDotIff(s, a, rest);
    if BoundedThenDot(s) == Some((a, rest)) {
      if s[0] != '0' {
        var run := s[..DigitRun(s)];
        assert forall i :: 0 <= i < |run| ==> IsDigit(run[i]) && run[i] == s[i];
      }
      assert NumberThenDot(s) == Some((a, rest));
    }
  }

  lemma NativeIsWindows(s: string)
    ensures ParseNativeVersion(s) == ParseWindowsVersion(s)
  {
    BoundedShapeIff(s);
  }

  /**
   The three parsers agree on every string; they accept exactly the printed forms of triples of
   32-bit numbers, and each such form is read back as its triple.
   */
  lemma ParsersAgree(s: string)
    ensures ParseChannelVersion(s) == ParseNativeVersion(s) == ParseWindowsVersion(s)
  {
    NativeIsWindows(s);
    if ParseChannelVersion(s).Some? {
      ChannelVersionIff(s, ParseChannelVersion(s).value);
      WindowsVersionIff(s, ParseChannelVersion(s).value);
    }
    if ParseWindowsVersion(s).Some? {
      ChannelVersionIff(s, ParseWindowsVersion(s).value);
      WindowsVersionIff(s, ParseWindowsVersion(s).value);
    }
  }

  /** Printing then parsing is the identity on 32-bit triples; so parsing is injective and onto. */
  lemma PrintThenParse(v: Version)
    ensures ParseChannelVersion(v.Text()) == Some(v) <==> v.InRange()
  {
    ChannelVersionIff(v.Text(), v);
  }

  /** Two texts with the same parse are the same text. */
  lemma ParseInjective(s: string, t: string)
    requires ParseChannelVersion(s).Some? && ParseChannelVersion(s) == ParseChannelVersion(t)
    ensures s == t
  {
    ChannelVersionIff(s, ParseChannelVersion(s).value);
    ChannelVersionIff(t, ParseChannelVersion(t).value);
  }

  /** The component bounds already imply the limit of 32 characters. */
  lemma TextFits(v: Version)
    requires v.InRange()
    ensures |v.Text()| <= MAX_TEXT
  {
    InRangeShort(v.major);
    InRangeShort(v.minor);
    InRangeShort(v.patch);
  }
}
