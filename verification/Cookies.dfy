/** Cookies as they arrive in request headers and leave in response headers. */
module Cookies {
  import opened Options
  import opened Sorting
  import opened Text

  const SESSION_COOKIE_NAME := "synveil_session"
  const CSRF_COOKIE_NAME := "synveil_csrf"
  const COOKIE_EXPIRY := "Expires=Thu, 01 Jan 1970 00:00:00 GMT"

  // ---------------------------------------------------------------- crumbs

  /** The pieces of a header value without their outer whitespace, and without empty ones. */
  function Remaining(pieces: seq<string>): seq<string> { Filter(Map(pieces, Trim), (c: string) => c != "") }

  function CrumbsOf(value: string): seq<string> { Remaining(Split(value, ';')) }

  /** All crumbs of readable headers, in order. */
  function Crumbs(headers: seq<Option<string>>): seq<string> {
    if headers == [] then []
    else (if headers[0].Some? then CrumbsOf(headers[0].value) else []) + Crumbs(headers[1..])
  }

  predicate Readable(headers: seq<Option<string>>) {
    forall i :: 0 <= i < |headers| ==> headers[i].Some?
  }

  predicate HasEquals(crumb: string) { '=' in crumb }

  function NameOf(crumb: string): string { Trim(crumb[..IndexOf(crumb, '=')]) }

  function ValueOf(crumb: string): string
    requires HasEquals(crumb)
  {
    Trim(crumb[IndexOf(crumb, '=') + 1..])
  }

  predicate Named(crumb: string, name: string) { HasEquals(crumb) && NameOf(crumb) == name }

  predicate WellFormed(crumbs: seq<string>) { forall i :: 0 <= i < |crumbs| ==> HasEquals(crumbs[i]) }

  function Matching(crumbs: seq<string>, name: string): seq<string> { Filter(crumbs, (c: string) => Named(c, name)) }

  /** The cookie of a request: all headers readable, all crumbs well formed, exactly one with the name. */
  function Cookie(headers: seq<Option<string>>, name: string): Option<string> {
    var crumbs := Crumbs(headers);
    if !Readable(headers) || !WellFormed(crumbs) then None
    else
      var matching := Matching(crumbs, name);
      if |matching| == 1 && HasEquals(matching[0]) then Some(ValueOf(matching[0])) else None
  }

  /** Crumb `i` and no other has the name. */
  ghost predicate OnlyCrumb(crumbs: seq<string>, name: string, i: int) {
    && 0 <= i < |crumbs| && Named(crumbs[i], name)
    && forall j :: 0 <= j < |crumbs| && Named(crumbs[j], name) ==> j == i
  }

  lemma {:induction false} NoneMatching(crumbs: seq<string>, name: string)
    ensures Matching(crumbs, name) == [] <==> forall j :: 0 <= j < |crumbs| ==> !Named(crumbs[j], name)
  {
    hide Named;
    FilterMembers(crumbs, (c: string) => Named(c, name));
    if Matching(crumbs, name) != [] {
      assert Matching(crumbs, name)[0] in Matching(crumbs, name);
    }
    forall j | 0 <= j < |crumbs| && Named(crumbs[j], name) ensures Matching(crumbs, name) != [] {
      assert crumbs[j] in Matching(crumbs, name);
    }
  }

  lemma {:induction false} OneMatching(crumbs: seq<string>, name: string)
    ensures |Matching(crumbs, name)| == 1 <==> exists i :: OnlyCrumb(crumbs, name, i)
    ensures forall i :: OnlyCrumb(crumbs, name, i) ==> Matching(crumbs, name) == [crumbs[i]]
  {
    hide Named;
    if crumbs != [] {
      var rest := crumbs[1..];
      assert Matching(crumbs, name) == (if Named(crumbs[0], name) then [crumbs[0]] else []) + Matching(rest, name);
      NoneMatching(rest, name);
      OneMatching(rest, name);
      assert forall i :: 0 <= i < |rest| ==> rest[i] == crumbs[i + 1];
      if Named(crumbs[0], name) {
        if Matching(rest, name) == [] { assert OnlyCrumb(crumbs, name, 0); }
      } else {
        forall i | 1 <= i < |crumbs| ensures OnlyCrumb(crumbs, name, i) <==> OnlyCrumb(rest, name, i - 1) {
          ShiftedOnly(crumbs, name, i);
        }
        if i :| OnlyCrumb(rest, name, i) { assert OnlyCrumb(crumbs, name, i + 1); }
      }
    }
  }

  lemma ShiftedOnly(crumbs: seq<string>, name: string, i: int)
    requires 1 <= i < |crumbs| && !Named(crumbs[0], name)
    ensures OnlyCrumb(crumbs, name, i) <==> OnlyCrumb(crumbs[1..], name, i - 1)
  {
    hide Named;
    var rest := crumbs[1..];
    if OnlyCrumb(crumbs, name, i) {
      forall j | 0 <= j < |rest| && Named(rest[j], name) ensures j == i - 1 { assert rest[j] == crumbs[j + 1]; }
    }
    if OnlyCrumb(rest, name, i - 1) {
      forall j | 0 <= j < |crumbs| && Named(crumbs[j], name) ensures j == i {
        assert j >= 1 && crumbs[j] == rest[j - 1];
      }
    }
  }

  /** A value comes back exactly when everything is well formed and one crumb has the name; it is that crumb's value. */
  lemma CookieIff(headers: seq<Option<string>>, name: string, value: string)
    ensures Cookie(headers, name) == Some(value) <==>
      && Readable(headers) && WellFormed(Crumbs(headers))
      && exists i :: OnlyCrumb(Crumbs(headers), name, i) && ValueOf(Crumbs(headers)[i]) == value
  {
    hide Crumbs, Named, ValueOf, Filter;
    OneMatching(Crumbs(headers), name);
  }

  /** Only the crumbs count, not their order or how they are spread over header lines. */
  lemma CookieForgetsLayout(a: seq<Option<string>>, b: seq<Option<string>>, name: string)
    requires Readable(a) <==> Readable(b)
    requires Readable(a) ==> multiset(Crumbs(a)) == multiset(Crumbs(b))
    ensures Cookie(a, name) == Cookie(b, name)
  {
    hide Crumbs, Named, ValueOf, Filter;
    if Readable(a) {
      SameMembers(Crumbs(a), Crumbs(b));
      SameFormed(Crumbs(a), Crumbs(b));
      FilterPermutes(Crumbs(a), Crumbs(b), (c: string) => Named(c, name));
      var x, y := Matching(Crumbs(a), name), Matching(Crumbs(b), name);
      SameLength(x, y);
      if |x| == 1 {
        SameMembers(x, y);
        assert x[0] in y;
      }
    }
  }

  lemma SameFormed(x: seq<string>, y: seq<string>)
    requires forall c :: c in x <==> c in y
    ensures WellFormed(x) <==> WellFormed(y)
  {
    hide HasEquals;
    forall i | 0 <= i < |x| ensures x[i] in y { assert x[i] in x; }
    forall i | 0 <= i < |y| ensures y[i] in x { assert y[i] in y; }
  }

  // ---------------------------------------------------------------- header lines

  lemma {:induction false} CrumbsSplit(a: seq<Option<string>>, b: seq<Option<string>>)
    ensures Crumbs(a + b) == Crumbs(a) + Crumbs(b)
  {
    hide CrumbsOf;
    if a == [] {
      assert a + b == b;
    } else {
      CrumbsSplit(a[1..], b);
      assert (a + b)[1..] == a[1..] + b;
    }
  }

  lemma CrumbsOfOne(h: string)
    ensures Crumbs([Some(h)]) == CrumbsOf(h)
  {
    hide CrumbsOf;
    assert [Some(h)][1..] == [];
  }

  lemma SpaceTrims(t: string)
    ensures Trim(" " + t) == Trim(t)
  {
    TrimStartSkips(" ", t);
  }

  lemma FirstPiece(head: string, rest: seq<string>)
    ensures Remaining([" " + head] + rest) == Remaining([head] + rest)
  {
    hide Trim, Remaining;
    RemainingStep([" " + head] + rest);
    RemainingStep([head] + rest);
    SpaceTrims(head);
  }

  lemma LeadingSpace(t: string)
    ensures Remaining(Split(" " + t, ';')) == Remaining(Split(t, ';'))
  {
    hide Trim, Remaining, Split, IndexOf;
    var n := IndexOf(t, ';');
    if n == |t| {
      SplitFree(t, ';');
      SplitFree(" " + t, ';');
      FirstPiece(t, []);
      assert [" " + t] + [] == [" " + t] && [t] + [] == [t];
    } else {
      var head, rest := t[..n], t[n + 1..];
      SplitCons(head, ';', rest);
      SplitCons(" " + head, ';', rest);
      assert t == head + [';'] + rest && " " + t == (" " + head) + [';'] + rest;
      FirstPiece(head, Split(rest, ';'));
    }
  }

  /** Joining two header values as one line, the way section 8.1.2.5 of RFC 7540 does, joins their crumbs. */
  lemma CrumbsOfJoined(x: string, y: string)
    ensures CrumbsOf(x + [';'] + (" " + y)) == CrumbsOf(x) + CrumbsOf(y)
  {
    hide Remaining, Split;
    SplitAppends(x, ';', " " + y);
    RemainingSplits(Split(x, ';'), Split(" " + y, ';'));
    LeadingSpace(y);
  }

  /** Splitting a cookie header over two lines never changes the answer. */
  lemma LineSplitIrrelevant(before: seq<Option<string>>, x: string, y: string, after: seq<Option<string>>, name: string)
    ensures Cookie(before + ([Some(x + [';'] + (" " + y))] + after), name)
            == Cookie(before + ([Some(x), Some(y)] + after), name)
  {
    hide CrumbsOf, Cookie;
    var joined, split := [Some(x + [';'] + (" " + y))], [Some(x), Some(y)];
    CrumbsOfJoined(x, y);
    CrumbsOfOne(x + [';'] + (" " + y));
    CrumbsOfOne(x);
    CrumbsOfOne(y);
    assert split == [Some(x)] + [Some(y)];
    CrumbsSplit([Some(x)], [Some(y)]);
    CrumbsSplit(joined, after);
    CrumbsSplit(split, after);
    CrumbsSplit(before, joined + after);
    CrumbsSplit(before, split + after);
    SameReadable(before, joined, split, after);
    CookieForgetsLayout(before + (joined + after), before + (split + after), name);
  }

  lemma SameReadable(before: seq<Option<string>>, a: seq<Option<string>>, b: seq<Option<string>>,
                     after: seq<Option<string>>)
    requires Readable(a) && Readable(b)
    ensures Readable(before + (a + after)) <==> Readable(before + (b + after))
  {
    ReadableParts(before, a, after);
    ReadableParts(before, b, after);
  }

  lemma ReadableParts(before: seq<Option<string>>, a: seq<Option<string>>, after: seq<Option<string>>)
    ensures Readable(before + (a + after)) <==> Readable(before) && Readable(a) && Readable(after)
  {
    var all := before + (a + after);
    if Readable(all) {
      forall i | 0 <= i < |before| ensures before[i].Some? { assert all[i] == before[i]; }
      forall i | 0 <= i < |a| ensures a[i].Some? { assert all[|before| + i] == a[i]; }
      forall i | 0 <= i < |after| ensures after[i].Some? { assert all[|before| + |a| + i] == after[i]; }
    }
  }

  // ---------------------------------------------------------------- reading

  /** `found` is right for the crumbs seen so far. */
  ghost predicate Seen(crumbs: seq<string>, name: string, found: Option<string>) {
    && WellFormed(crumbs) && |Matching(crumbs, name)| <= 1
    && (if Matching(crumbs, name) == [] then found == None
        else HasEquals(Matching(crumbs, name)[0]) && found == Some(ValueOf(Matching(crumbs, name)[0])))
  }

  /** What one more crumb does to the answer. */
  lemma SeeCrumb(crumbs: seq<string>, c: string, rest: seq<string>, name: string, found: Option<string>)
    requires Seen(crumbs, name, found)
    ensures !HasEquals(c) ==> !WellFormed(crumbs + ([c] + rest))
    ensures HasEquals(c) && !Named(c, name) ==> Seen(crumbs + [c], name, found)
    ensures Named(c, name) && found.None? ==> Seen(crumbs + [c], name, Some(ValueOf(c)))
    ensures Named(c, name) && found.Some? ==> |Matching(crumbs + ([c] + rest), name)| >= 2
  {
    hide HasEquals, ValueOf;
    var p := (x: string) => Named(x, name);
    assert (crumbs + ([c] + rest))[|crumbs|] == c;
    FilterSplits(crumbs, [c], p);
    FilterSplits(crumbs, [c] + rest, p);
    FilterSplits([c], rest, p);
    assert Filter([c], p) == if Named(c, name) then [c] else [] by { assert [c][1..] == []; }
  }

  lemma RemainingStep(pieces: seq<string>)
    requires pieces != []
    ensures Remaining(pieces) == (if Trim(pieces[0]) == "" then [] else [Trim(pieces[0])]) + Remaining(pieces[1..])
  {
    assert Map(pieces, Trim)[1..] == Map(pieces[1..], Trim);
  }

  lemma RemainingNone()
    ensures Remaining([]) == []
  {
  }

  lemma RemainingSplits(a: seq<string>, b: seq<string>)
    ensures Remaining(a + b) == Remaining(a) + Remaining(b)
  {
    MapSplits(a, b, Trim);
    FilterSplits(Map(a, Trim), Map(b, Trim), (c: string) => c != "");
  }

  method ReadHeader(value: string, name: string, found: Option<string>, ghost crumbs: seq<string>)
    returns (failed: bool, r: Option<string>)
    requires Seen(crumbs, name, found)
    ensures failed ==>
            forall rest :: !WellFormed(crumbs + (CrumbsOf(value) + rest))
                || |Matching(crumbs + (CrumbsOf(value) + rest), name)| >= 2
    ensures !failed ==> Seen(crumbs + CrumbsOf(value), name, r)
  {
    hide Seen, Matching, WellFormed, Trim, Remaining, IndexOf;
    var pieces := Split(value, ';');
    r := found;
    var i := 0;
    ghost var seen := crumbs;
    assert pieces[0..] == pieces;
    while i < |pieces|
      invariant 0 <= i <= |pieces|
      invariant Seen(seen, name, r) && crumbs + CrumbsOf(value) == seen + Remaining(pieces[i..])
    {
      hide CrumbsOf;
      var pair := Trim(pieces[i]);
      RemainingStep(pieces[i..]);
      assert pieces[i..][1..] == pieces[i + 1..];
      if pair != "" {
        ghost var after := Remaining(pieces[i + 1..]);
        forall rest ensures crumbs + (CrumbsOf(value) + rest) == seen + ([pair] + (after + rest)) {
          Regroup(crumbs, CrumbsOf(value), seen, pair, after, rest);
        }
        if !HasEquals(pair) {
          forall rest ensures !WellFormed(crumbs + (CrumbsOf(value) + rest)) {
            SeeCrumb(seen, pair, after + rest, name, r);
          }
          return true, None;
        }
        SeeCrumb(seen, pair, after, name, r);
        if Named(pair, name) {
          if r.Some? {
            forall rest ensures |Matching(crumbs + (CrumbsOf(value) + rest), name)| >= 2 {
              SeeCrumb(seen, pair, after + rest, name, r);
            }
            return true, None;
          }
          r := Some(ValueOf(pair));
        }
        assert seen + ([pair] + after) == (seen + [pair]) + after;
        seen := seen + [pair];
      }
      i := i + 1;
    }
    RemainingNone();
    assert pieces[i..] == [] && seen + [] == seen;
    failed := false;
  }

  lemma Regroup<T>(crumbs: seq<T>, all: seq<T>, seen: seq<T>, pair: T, after: seq<T>, rest: seq<T>)
    requires crumbs + all == seen + ([pair] + after)
    ensures crumbs + (all + rest) == seen + ([pair] + (after + rest))
  {
    assert crumbs + (all + rest) == (crumbs + all) + rest;
  }

  /** `read_cookie`: the loops over headers and pieces with their early returns. */
  method ReadCookie(headers: seq<Option<string>>, name: string) returns (r: Option<string>)
    ensures r == Cookie(headers, name)
  {
    hide Seen, Matching, WellFormed, CrumbsOf;
    var found: Option<string> := None;
    var i := 0;
    NothingSeen(name);
    assert headers[..0] == [];
    while i < |headers|
      invariant 0 <= i <= |headers| && Readable(headers[..i])
      invariant Seen(Crumbs(headers[..i]), name, found)
    {
      if headers[i].None? {
        return None;
      }
      HeaderParts(headers, i);
      ghost var crumbs := Crumbs(headers[..i]);
      var failed, next := ReadHeader(headers[i].value, name, found, crumbs);
      if failed {
        CookieFails(headers, name);
        return None;
      }
      found := next;
      i := i + 1;
    }
    assert headers[..i] == headers;
    SeenAll(headers, name, found);
    return found;
  }

  lemma NothingSeen(name: string)
    ensures Seen(Crumbs([]), name, None)
  {
  }

  lemma HeaderParts(headers: seq<Option<string>>, i: nat)
    requires i < |headers| && headers[i].Some?
    ensures Crumbs(headers[..i + 1]) == Crumbs(headers[..i]) + CrumbsOf(headers[i].value)
    ensures Crumbs(headers) == Crumbs(headers[..i]) + (CrumbsOf(headers[i].value) + Crumbs(headers[i + 1..]))
  {
    hide CrumbsOf, Crumbs;
    assert headers[..i + 1] == headers[..i] + [headers[i]]
           && headers == headers[..i] + ([headers[i]] + headers[i + 1..]);
    CrumbsSplit(headers[..i], [headers[i]]);
    CrumbsSplit(headers[..i], [headers[i]] + headers[i + 1..]);
    CrumbsSplit([headers[i]], headers[i + 1..]);
    CrumbsOfOne(headers[i].value);
  }

  lemma CookieFails(headers: seq<Option<string>>, name: string)
    requires !WellFormed(Crumbs(headers)) || |Matching(Crumbs(headers), name)| >= 2
    ensures Cookie(headers, name) == None
  {
  }

  lemma SeenAll(headers: seq<Option<string>>, name: string, found: Option<string>)
    requires Readable(headers) && Seen(Crumbs(headers), name, found)
    ensures Cookie(headers, name) == found
  {
  }

  // ---------------------------------------------------------------- writing

  datatype SameSite = Lax | Strict

  datatype CookieConfig = CookieConfig(secure: bool, sameSite: SameSite)

  function SameSiteText(s: SameSite): string { if s.Lax? then "SameSite=Lax" else "SameSite=Strict" }

  /** Text that stands as one piece of a header: no separator, no outer whitespace, not empty. */
  predicate Piece(s: string) {
    s != "" && Free(s, ';') && !IsWhitespace(s[0]) && !IsWhitespace(s[|s| - 1])
  }

  /** One more `; attribute`. */
  function With(text: string, attribute: string): string { text + [';'] + (" " + attribute) }

  function Attributes(httpOnly: bool, config: CookieConfig): seq<string> {
    [SameSiteText(config.sameSite)] + (if httpOnly then ["HttpOnly"] else [])
        + (if config.secure then ["Secure"] else [])
  }

  function WithAll(text: string, attributes: seq<string>): string
    decreases |attributes|
  {
    if attributes == [] then text else WithAll(With(text, attributes[0]), attributes[1..])
  }

  lemma PieceIsCrumb(s: string)
    requires Piece(s)
    ensures CrumbsOf(s) == [s]
  {
    hide IsWhitespace;
    SplitFree(s, ';');
    TrimSelf(s);
    RemainingStep([s]);
    RemainingNone();
  }

  lemma WithAddsCrumb(text: string, attribute: string)
    requires Piece(attribute)
    ensures CrumbsOf(With(text, attribute)) == CrumbsOf(text) + [attribute]
  {
    hide CrumbsOf;
    CrumbsOfJoined(text, attribute);
    PieceIsCrumb(attribute);
  }

  lemma {:induction false} WithAllAddsCrumbs(text: string, attributes: seq<string>)
    requires forall i :: 0 <= i < |attributes| ==> Piece(attributes[i])
    ensures CrumbsOf(WithAll(text, attributes)) == CrumbsOf(text) + attributes
    decreases |attributes|
  {
    hide CrumbsOf, Piece, With;
    if attributes != [] {
      WithAddsCrumb(text, attributes[0]);
      WithAllAddsCrumbs(With(text, attributes[0]), attributes[1..]);
      assert attributes == [attributes[0]] + attributes[1..];
    }
  }

  lemma AttributesArePieces(httpOnly: bool, config: CookieConfig)
    ensures Piece("Path=/") && Piece("Max-Age=0") && Piece("HttpOnly") && Piece("Secure")
    ensures forall i :: 0 <= i < |Attributes(httpOnly, config)| ==> Piece(Attributes(httpOnly, config)[i])
  {
    assert Piece("SameSite=Lax") && Piece("SameSite=Strict") && Piece("HttpOnly") && Piece("Secure");
    hide Piece;
  }

  /** The Set-Cookie value of `append_cookie`. */
  function CookieText(name: string, value: string, httpOnly: bool, config: CookieConfig): string {
    WithAll(With(name + "=" + value, "Path=/"), Attributes(httpOnly, config))
  }

  /** A name without separators, and a value that stands alone. */
  predicate NameValid(name: string) { Piece(name) && Free(name, '=') }

  predicate ValueValid(value: string) {
    Free(value, ';') && (value != "" ==> !IsWhitespace(value[0]) && !IsWhitespace(value[|value| - 1]))
  }

  lemma NamedPair(name: string, value: string)
    requires NameValid(name) && ValueValid(value)
    ensures var crumb := name + "=" + value; Piece(crumb) && Named(crumb, name) && ValueOf(crumb) == value
  {
    assert !IsWhitespace('=');
    hide IsWhitespace, Trim, IndexOf;
    var crumb := name + "=" + value;
    IndexOfFree(name, '=', value);
    assert crumb == name + ['='] + value && crumb[|name|] == '=';
    assert crumb[..|name|] == name && crumb[|name| + 1..] == value;
    TrimSelf(name);
    TrimSelf(value);
  }

  lemma TrimSelf(s: string)
    requires s != "" ==> !IsWhitespace(s[0]) && !IsWhitespace(s[|s| - 1])
    ensures Trim(s) == s
  {
    hide IsWhitespace;
    if s != "" {
      TrimOf("", s, "");
      assert "" + (s + "") == s;
    }
  }

  /** Blanks around the name, the equals sign and the value do not count; a later equals sign belongs to the value. */
  lemma CrumbReads(a: string, name: string, b: string, c: string, value: string, d: string)
    requires Blank(a) && Blank(b) && Blank(c) && Blank(d) && NameValid(name)
    requires value != "" ==> !IsWhitespace(value[0]) && !IsWhitespace(value[|value| - 1])
    ensures var crumb := (a + (name + b)) + ['='] + (c + (value + d));
      Named(crumb, name) && ValueOf(crumb) == value
  {
    assert !IsWhitespace('=');
    hide IsWhitespace, IndexOf;
    var left, right := a + (name + b), c + (value + d);
    var crumb := left + ['='] + right;
    assert Free(left, '=') by {
      assert Free(a, '=') && Free(name, '=') && Free(b, '=');
    }
    IndexOfFree(left, '=', right);
    assert crumb[..|left|] == left && crumb[|left| + 1..] == right && crumb[|left|] == '=';
    TrimOf(a, name, b);
    if value == "" {
      assert Blank(right);
      assert Trim(right) == "";
    } else {
      TrimOf(c, value, d);
    }
  }

  /**
   A written cookie reads back: its pieces are the pair, the path and exactly the attributes of the policy, so
   the cookie is host-only, and the pair names the cookie and its value.
   */
  lemma WrittenCookieReadsBack(name: string, value: string, httpOnly: bool, config: CookieConfig)
    requires NameValid(name) && ValueValid(value)
    ensures CrumbsOf(CookieText(name, value, httpOnly, config))
         == [name + "=" + value, "Path=/"] + Attributes(httpOnly, config)
    ensures Named(name + "=" + value, name) && ValueOf(name + "=" + value) == value
  {
    hide Piece, CrumbsOf, With, Attributes, NameValid, ValueValid;
    NamedPair(name, value);
    PieceIsCrumb(name + "=" + value);
    AttributesArePieces(httpOnly, config);
    WithAddsCrumb(name + "=" + value, "Path=/");
    WithAllAddsCrumbs(With(name + "=" + value, "Path=/"), Attributes(httpOnly, config));
  }

  /** The Set-Cookie value of `append_clear_cookie`. */
  function ClearText(name: string, httpOnly: bool, config: CookieConfig): string {
    WithAll(With(With(With(name + "=" + "", "Max-Age=0"), COOKIE_EXPIRY), "Path=/"), Attributes(httpOnly, config))
  }

  /** A cleared cookie has no value, no lifetime and otherwise the attributes it was set with. */
  lemma ClearedCookieReadsBack(name: string, httpOnly: bool, config: CookieConfig)
    requires NameValid(name)
    ensures CrumbsOf(ClearText(name, httpOnly, config))
         == [name + "=" + "", "Max-Age=0", COOKIE_EXPIRY, "Path=/"] + Attributes(httpOnly, config)
    ensures Named(name + "=" + "", name) && ValueOf(name + "=" + "") == ""
  {
    hide Piece, CrumbsOf, With, Attributes, NameValid;
    var pair := name + "=" + "";
    NamedPair(name, "");
    PieceIsCrumb(pair);
    AttributesArePieces(httpOnly, config);
    ExpiryIsPiece();
    WithAddsCrumb(pair, "Max-Age=0");
    WithAddsCrumb(With(pair, "Max-Age=0"), COOKIE_EXPIRY);
    WithAddsCrumb(With(With(pair, "Max-Age=0"), COOKIE_EXPIRY), "Path=/");
    WithAllAddsCrumbs(With(With(With(pair, "Max-Age=0"), COOKIE_EXPIRY), "Path=/"), Attributes(httpOnly, config));
  }

  lemma ExpiryIsPiece()
    ensures Piece(COOKIE_EXPIRY)
  {
  }

  // ---------------------------------------------------------------- what the browser is told

  /** The attributes behind the path are those of the policy, each once, and there is no other. */
  ghost predicate PolicyShown(attributes: seq<string>, httpOnly: bool, config: CookieConfig) {
    && ("HttpOnly" in attributes <==> httpOnly) && ("Secure" in attributes <==> config.secure)
    && ("SameSite=Strict" in attributes <==> config.sameSite.Strict?)
    && ("SameSite=Lax" in attributes <==> config.sameSite.Lax?)
    && (forall a :: a in attributes ==> a in ["HttpOnly", "Secure", "SameSite=Strict", "SameSite=Lax"])
    && (forall i, j :: 0 <= i < j < |attributes| ==> attributes[i] != attributes[j])
  }

  lemma AttributesShowPolicy(httpOnly: bool, config: CookieConfig)
    ensures PolicyShown(Attributes(httpOnly, config), httpOnly, config)
  {
    var http, secure, strict, lax := "HttpOnly", "Secure", "SameSite=Strict", "SameSite=Lax";
    assert http[0] == 'H' && secure[1] == 'e' && strict[9] == 'S' && lax[9] == 'L' && strict[1] == 'a' == lax[1];
    assert http != secure && http != strict && http != lax && secure != strict && secure != lax && strict != lax;
  }

  /** A written cookie: the pair, the path, then exactly the attributes the policy asks for. */
  lemma WrittenCookieShowsPolicy(name: string, value: string, httpOnly: bool, config: CookieConfig)
    requires NameValid(name) && ValueValid(value)
    ensures var crumbs := CrumbsOf(CookieText(name, value, httpOnly, config));
      && |crumbs| >= 2 && crumbs[..2] == [name + "=" + value, "Path=/"]
      && PolicyShown(crumbs[2..], httpOnly, config)
  {
    hide CrumbsOf, Attributes, NameValid, ValueValid, PolicyShown, CookieText;
    WrittenCookieReadsBack(name, value, httpOnly, config);
    AttributesShowPolicy(httpOnly, config);
  }

  /** A cleared cookie: the empty pair, two attributes that end its life, the path, then the same attributes. */
  lemma ClearedCookieShowsPolicy(name: string, httpOnly: bool, config: CookieConfig)
    requires NameValid(name)
    ensures var crumbs := CrumbsOf(ClearText(name, httpOnly, config));
      && |crumbs| >= 4
      && crumbs[..4] == [name + "=", "Max-Age=0", "Expires=Thu, 01 Jan 1970 00:00:00 GMT", "Path=/"]
      && PolicyShown(crumbs[4..], httpOnly, config)
  {
    hide CrumbsOf, Attributes, NameValid, PolicyShown, ClearText;
    ClearedCookieReadsBack(name, httpOnly, config);
    AttributesShowPolicy(httpOnly, config);
    assert name + "=" + "" == name + "=";
  }

  lemma OwnNamesAreValid()
    ensures NameValid("synveil_session") && NameValid("synveil_csrf")
  {
  }

  /** The response headers under construction. */
  class ResponseHeaders {
    var setCookie: seq<string>

    constructor ()
      ensures setCookie == []
    {
      setCookie := [];
    }

    /** `append_cookie` */
    method AppendCookie(name: string, value: string, httpOnly: bool, config: CookieConfig)
      modifies this
      ensures setCookie == old(setCookie) + [CookieText(name, value, httpOnly, config)]
    {
      var cookie := PushAttributes(With(name + "=" + value, "Path=/"), httpOnly, config);
      setCookie := setCookie + [cookie];
    }

    /** `append_session_cookie`: the session is out of reach of scripts. */
    method AppendSessionCookie(token: string, config: CookieConfig)
      requires ValueValid(token)
      modifies this
      ensures |setCookie| == |old(setCookie)| + 1 && setCookie[..|old(setCookie)|] == old(setCookie)
      ensures var crumbs := CrumbsOf(setCookie[|old(setCookie)|]);
        && |crumbs| >= 2 && crumbs[..2] == ["synveil_session=" + token, "Path=/"]
        && PolicyShown(crumbs[2..], true, config)
    {
      hide NameValid, ValueValid, CrumbsOf, PolicyShown, CookieText;
      AppendCookie(SESSION_COOKIE_NAME, token, true, config);
      OwnNamesAreValid();
      WrittenCookieShowsPolicy("synveil_session", token, true, config);
      assert "synveil_session" + "=" + token == "synveil_session=" + token;
    }

    /** `append_csrf_cookie`: scripts have to read this one. */
    method AppendCsrfCookie(token: string, config: CookieConfig)
      requires ValueValid(token)
      modifies this
      ensures |setCookie| == |old(setCookie)| + 1 && setCookie[..|old(setCookie)|] == old(setCookie)
      ensures var crumbs := CrumbsOf(setCookie[|old(setCookie)|]);
        && |crumbs| >= 2 && crumbs[..2] == ["synveil_csrf=" + token, "Path=/"]
        && PolicyShown(crumbs[2..], false, config)
    {
      hide NameValid, ValueValid, CrumbsOf, PolicyShown, CookieText;
      AppendCookie(CSRF_COOKIE_NAME, token, false, config);
      OwnNamesAreValid();
      WrittenCookieShowsPolicy("synveil_csrf", token, false, config);
      assert "synveil_csrf" + "=" + token == "synveil_csrf=" + token;
    }

    /** `append_clear_cookies` */
    method AppendClearCookies(config: CookieConfig)
      modifies this
      ensures setCookie
              == old(setCookie)
                  + [ClearText(SESSION_COOKIE_NAME, true, config), ClearText(CSRF_COOKIE_NAME, false, config)]
      ensures var n := |old(setCookie)|;
        var session, csrf := CrumbsOf(setCookie[n]), CrumbsOf(setCookie[n + 1]);
        && |session| >= 4 && session[0] == "synveil_session=" && PolicyShown(session[4..], true, config)
        && |csrf| >= 4 && csrf[0] == "synveil_csrf=" && PolicyShown(csrf[4..], false, config)
    {
      hide CrumbsOf, PolicyShown, NameValid;
      OwnNamesAreValid();
      ClearedCookieShowsPolicy("synveil_session", true, config);
      ClearedCookieShowsPolicy("synveil_csrf", false, config);
      var session := PushAttributes(With(With(With(SESSION_COOKIE_NAME + "=" + "", "Max-Age=0"), COOKIE_EXPIRY),
          "Path=/"), true, config);
      var csrf := PushAttributes(With(With(With(CSRF_COOKIE_NAME + "=" + "", "Max-Age=0"), COOKIE_EXPIRY), "Path=/"),
          false, config);
      setCookie := setCookie + [session, csrf];
    }
  }

  /** The attributes after the path, pushed one by one. */
  method PushAttributes(text: string, httpOnly: bool, config: CookieConfig) returns (cookie: string)
    ensures cookie == WithAll(text, Attributes(httpOnly, config))
  {
    hide With, SameSiteText;
    cookie := With(text, SameSiteText(config.sameSite));
    ghost var pushed: seq<string> := [SameSiteText(config.sameSite)];
    WithAllOne(text, pushed[0]);
    if httpOnly {
      WithAllPush(text, pushed, "HttpOnly");
      cookie := With(cookie, "HttpOnly");
      pushed := pushed + ["HttpOnly"];
    }
    if config.secure {
      WithAllPush(text, pushed, "Secure");
      cookie := With(cookie, "Secure");
      pushed := pushed + ["Secure"];
    }
    assert pushed == Attributes(httpOnly, config);
  }

  lemma WithAllOne(text: string, attribute: string)
    ensures WithAll(text, [attribute]) == With(text, attribute)
  {
    assert [attribute][1..] == [];
  }

  lemma {:induction false} WithAllPush(text: string, attributes: seq<string>, last: string)
    ensures WithAll(text, attributes + [last]) == With(WithAll(text, attributes), last)
    decreases |attributes|
  {
    hide With;
    if attributes == [] {
      WithAllOne(text, last);
      assert attributes + [last] == [last];
    } else {
      WithAllPush(With(text, attributes[0]), attributes[1..], last);
      assert (attributes + [last])[1..] == attributes[1..] + [last];
    }
  }
}
