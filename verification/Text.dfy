/** Strings the way the sources use them: first occurrence, splitting, trimming. */
module Text {
  import opened Options

  /** Position of the first `c`, or the length when there is none. */
  function IndexOf(s: string, c: char): (n: nat)
    ensures n <= |s| && (n < |s| ==> s[n] == c) && forall i :: 0 <= i < n ==> s[i] != c
  {
    if s == "" || s[0] == c then 0 else 1 + IndexOf(s[1..], c)
  }

  /** The pieces between the separators; never empty. */
  function Split(s: string, c: char): (pieces: seq<string>)
    ensures |pieces| >= 1
    decreases |s|
  {
    var n := IndexOf(s, c);
    if n == |s| then [s] else [s[..n]] + Split(s[n + 1..], c)
  }

  predicate Free(s: string, c: char) { forall i :: 0 <= i < |s| ==> s[i] != c }

  lemma IndexOfFree(s: string, c: char, t: string)
    requires Free(s, c)
    ensures IndexOf(s + [c] + t, c) == |s| && IndexOf(s, c) == |s|
  {
    var whole := s + [c] + t;
    assert whole[|s|] == c && forall i :: 0 <= i < |s| ==> whole[i] == s[i];
  }

  lemma SplitCons(s: string, c: char, t: string)
    requires Free(s, c)
    ensures Split(s + [c] + t, c) == [s] + Split(t, c)
  {
    IndexOfFree(s, c, t);
    assert (s + [c] + t)[..|s|] == s && (s + [c] + t)[|s| + 1..] == t;
  }

  lemma SplitFree(s: string, c: char)
    requires Free(s, c)
    ensures Split(s, c) == [s]
  {
  }

  lemma {:induction false} SplitAppends(s: string, c: char, t: string)
    ensures Split(s + [c] + t, c) == Split(s, c) + Split(t, c)
    decreases |s|
  {
    hide Split, IndexOf;
    var n := IndexOf(s, c);
    if n == |s| {
      SplitFree(s, c);
      SplitCons(s, c, t);
    } else {
      var head, rest := s[..n], s[n + 1..];
      var tail := rest + [c] + t;
      assert s == head + [c] + rest && s + [c] + t == head + [c] + tail;
      SplitAppends(rest, c, t);
      SplitCons(head, c, rest);
      SplitCons(head, c, tail);
      assert [head] + (Split(rest, c) + Split(t, c)) == ([head] + Split(rest, c)) + Split(t, c);
    }
  }

  /** Every piece is free of the separator. */
  lemma {:induction false} PiecesFree(s: string, c: char)
    ensures forall i :: 0 <= i < |Split(s, c)| ==> Free(Split(s, c)[i], c)
    decreases |s|
  {
    var n := IndexOf(s, c);
    if n < |s| { PiecesFree(s[n + 1..], c); }
  }

  function Join(pieces: seq<string>, c: char): string {
    if pieces == [] then ""
    else if |pieces| == 1 then pieces[0]
    else pieces[0] + [c] + Join(pieces[1..], c)
  }

  lemma {:induction false} JoinSplit(s: string, c: char)
    ensures Join(Split(s, c), c) == s
    decreases |s|
  {
    hide Split, IndexOf;
    var n := IndexOf(s, c);
    if n == |s| {
      SplitFree(s, c);
    } else {
      hide Join;
      var head, t := s[..n], s[n + 1..];
      assert s == head + [c] + t;
      JoinSplit(t, c);
      SplitCons(head, c, t);
      JoinCons(head, Split(t, c), c);
    }
  }

  lemma JoinCons(s: string, pieces: seq<string>, c: char)
    requires pieces != []
    ensures Join([s] + pieces, c) == s + [c] + Join(pieces, c)
  {
    assert ([s] + pieces)[1..] == pieces;
  }

  lemma {:induction false} SplitJoin(pieces: seq<string>, c: char)
    requires pieces != [] && forall i :: 0 <= i < |pieces| ==> Free(pieces[i], c)
    ensures Split(Join(pieces, c), c) == pieces
  {
    if |pieces| == 1 {
      SplitFree(pieces[0], c);
    } else {
      SplitJoin(pieces[1..], c);
      SplitCons(pieces[0], c, Join(pieces[1..], c));
    }
  }

  // ---------------------------------------------------------------- whitespace

  /** The Unicode White_Space property. */
  predicate IsWhitespace(c: char) {
    var u := c as int;
    || 9 <= u <= 13 || u == 0x20 || u == 0x85 || u == 0xA0 || u == 0x1680 || 0x2000 <= u <= 0x200A
    || u == 0x2028 || u == 0x2029 || u == 0x202F || u == 0x205F || u == 0x3000
  }

  predicate Blank(s: string) { forall i :: 0 <= i < |s| ==> IsWhitespace(s[i]) }

  function TrimStart(s: string): (r: string)
    ensures r == "" <==> Blank(s)
    ensures r != "" ==> !IsWhitespace(r[0])
  {
    if s != "" && IsWhitespace(s[0]) then TrimStart(s[1..]) else s
  }

  function TrimEnd(s: string): (r: string)
    ensures r <= s
    ensures r == "" <==> Blank(s)
    ensures r != "" ==> !IsWhitespace(r[|r| - 1])
    ensures Blank(s[|r|..])
  {
    if s != "" && IsWhitespace(s[|s| - 1]) then TrimEnd(s[..|s| - 1]) else s
  }

  function Trim(s: string): string { TrimEnd(TrimStart(s)) }

  lemma {:induction false} TrimStartSkips(pre: string, s: string)
    requires Blank(pre)
    ensures TrimStart(pre + s) == TrimStart(s)
  {
    hide IsWhitespace;
    if pre == "" {
      assert pre + s == s;
    } else {
      TrimStartSkips(pre[1..], s);
      assert (pre + s)[1..] == pre[1..] + s;
    }
  }

  lemma {:induction false} TrimEndSkips(s: string, post: string)
    requires Blank(post)
    ensures TrimEnd(s + post) == TrimEnd(s)
  {
    hide IsWhitespace;
    if post == "" {
      assert s + post == s;
    } else {
      var n := |post| - 1;
      TrimEndSkips(s, post[..n]);
      assert (s + post)[..|s + post| - 1] == s + post[..n];
    }
  }

  lemma {:induction false} TrimStartCuts(s: string) returns (pre: string)
    ensures Blank(pre) && s == pre + TrimStart(s)
  {
    hide IsWhitespace;
    if s != "" && IsWhitespace(s[0]) {
      var rest := TrimStartCuts(s[1..]);
      pre := [s[0]] + rest;
      assert s == [s[0]] + s[1..];
    } else {
      pre := "";
    }
  }

  lemma TrimCuts(s: string) returns (pre: string, post: string)
    ensures Blank(pre) && Blank(post) && s == pre + (Trim(s) + post)
    ensures Trim(s) != "" ==> !IsWhitespace(Trim(s)[0])
  {
    hide IsWhitespace;
    pre := TrimStartCuts(s);
    var t := TrimStart(s);
    post := t[|Trim(s)|..];
    assert t == Trim(s) + post;
  }

  /** Text that neither starts nor ends with whitespace is what trimming leaves of it. */
  lemma TrimOf(pre: string, m: string, post: string)
    requires Blank(pre) && Blank(post) && m != "" && !IsWhitespace(m[0]) && !IsWhitespace(m[|m| - 1])
    ensures Trim(pre + (m + post)) == m
  {
    hide IsWhitespace;
    TrimStartSkips(pre, m + post);
    TrimEndSkips(m, post);
  }

  predicate OccursAt(s: string, i: int, t: string) {
    0 <= i <= |s| - |t| && s[i..i + |t|] == t
  }

  /** Where a text occurs, its characters do. */
  lemma OccursChar(s: string, i: int, t: string, k: nat)
    requires k < |t|
    ensures OccursAt(s, i, t) ==> 0 <= i + k < |s| && s[i + k] == t[k]
  {
    if 0 <= i <= |s| - |t| { assert s[i + k] == s[i..i + |t|][k]; }
  }

  predicate Contains(s: string, t: string) {
    exists i :: 0 <= i <= |s| && OccursAt(s, i, t)
  }

  /** The first occurrence of a text. */
  function Find(s: string, t: string): (r: Option<nat>)
    ensures r.Some? ==> r.value + |t| <= |s| && OccursAt(s, r.value, t)
    ensures r.Some? ==> forall i :: 0 <= i < r.value ==> !OccursAt(s, i, t)
    ensures r.None? ==> forall i :: 0 <= i <= |s| ==> !OccursAt(s, i, t)
  {
    FindFrom(s, t, 0)
  }

  function FindFrom(s: string, t: string, from: nat): (r: Option<nat>)
    requires from <= |s|
    ensures r.Some? ==> from <= r.value && r.value + |t| <= |s| && OccursAt(s, r.value, t)
    ensures r.Some? ==> forall i :: from <= i < r.value ==> !OccursAt(s, i, t)
    ensures r.None? ==> forall i :: from <= i <= |s| ==> !OccursAt(s, i, t)
    decreases |s| - from
  {
    if OccursAt(s, from, t) then Some(from) else if from == |s| then None else FindFrom(s, t, from + 1)
  }

  lemma FindIs(s: string, t: string, n: nat)
    requires OccursAt(s, n, t) && forall i :: 0 <= i < n ==> !OccursAt(s, i, t)
    ensures Find(s, t) == Some(n)
  {
    assert n <= |s|;
    hide OccursAt;
  }
}
