/**
 Detached signatures: the locally trusted entries are sorted and tried in order. Shared by the
 channel and the manifest authentication.
 */
module Signatures {
  import opened Options
  import opened Sorting

  /** `canonical` is the sorted dump that breaks ties between manifest entries; channel entries carry none. */
  datatype Entry = Entry(keyId: string, scheme: string, signatureFilename: string, canonical: string)

  // ---------------------------------------------------------------- the order of the entries

  /** Code point order on strings. */
  predicate TextLeq(a: string, b: string) {
    a == "" || (b != "" && (a[0] < b[0] || (a[0] == b[0] && TextLeq(a[1..], b[1..]))))
  }

  lemma {:induction false} TextLeqTotal(a: string, b: string)
    ensures TextLeq(a, b) || TextLeq(b, a)
  {
    if a != "" && b != "" && a[0] == b[0] { TextLeqTotal(a[1..], b[1..]); }
  }

  lemma {:induction false} TextLeqTransitive(a: string, b: string, c: string)
    requires TextLeq(a, b) && TextLeq(b, c)
    ensures TextLeq(a, c)
  {
    if a != "" && a[0] == b[0] && b[0] == c[0] { TextLeqTransitive(a[1..], b[1..], c[1..]); }
  }

  lemma {:induction false} TextLeqAntisymmetric(a: string, b: string)
    requires TextLeq(a, b) && TextLeq(b, a)
    ensures a == b
  {
    if a != "" {
      TextLeqAntisymmetric(a[1..], b[1..]);
      assert a == [a[0]] + a[1..] && b == [b[0]] + b[1..];
    }
  }

  /** `a` stops first, or has the smaller character where the two first differ. */
  ghost predicate TextBefore(a: string, b: string) {
    exists k :: DiffersAt(a, b, k)
  }

  predicate DiffersAt(a: string, b: string, k: nat) {
    k <= |a| && k < |b| && a[..k] == b[..k] && (k == |a| || a[k] < b[k])
  }

  lemma {:induction false} TextLeqIff(a: string, b: string)
    ensures TextLeq(a, b) <==> a == b || TextBefore(a, b)
  {
    if a == "" {
      assert b != "" ==> DiffersAt(a, b, 0);
    } else if b != "" {
      var x, y := a[1..], b[1..];
      assert a == [a[0]] + x && b == [b[0]] + y;
      if a[0] < b[0] { assert DiffersAt(a, b, 0); }
      if a[0] == b[0] {
        TextLeqIff(x, y);
        if k :| DiffersAt(x, y, k) { DiffersLater(a, b, k); }
      }
      if k :| DiffersAt(a, b, k) { DiffersEarlier(a, b, k); }
    }
  }

  lemma DiffersLater(a: string, b: string, k: nat)
    requires a != "" && b != "" && a[0] == b[0] && DiffersAt(a[1..], b[1..], k)
    ensures DiffersAt(a, b, k + 1)
  {
    assert a[..k + 1] == [a[0]] + a[1..][..k] && b[..k + 1] == [b[0]] + b[1..][..k];
  }

  lemma DiffersEarlier(a: string, b: string, k: nat)
    requires a != "" && b != "" && DiffersAt(a, b, k)
    ensures a[0] < b[0] || (a[0] == b[0] && k > 0 && DiffersAt(a[1..], b[1..], k - 1))
  {
    if k > 0 {
      assert a[0] == a[..k][0] == b[..k][0] == b[0];
      assert a[1..][..k - 1] == a[..k][1..] && b[1..][..k - 1] == b[..k][1..];
    }
  }

  /** By key, then scheme, then file name, then dump, each in code point order. */
  ghost predicate Precedes(x: Entry, y: Entry) {
    || TextBefore(x.keyId, y.keyId)
    || (x.keyId == y.keyId
        && (|| TextBefore(x.scheme, y.scheme)
            || (x.scheme == y.scheme
                && (|| TextBefore(x.signatureFilename, y.signatureFilename)
                    || (x.signatureFilename == y.signatureFilename && TextBefore(x.canonical, y.canonical))))))
  }

  lemma EntryLeqIff(x: Entry, y: Entry)
    ensures EntryLeq(x, y) <==> x == y || Precedes(x, y)
  {
    hide TextLeq, TextBefore;
    TextLeqIff(x.keyId, y.keyId);
    TextLeqIff(x.scheme, y.scheme);
    TextLeqIff(x.signatureFilename, y.signatureFilename);
    TextLeqIff(x.canonical, y.canonical);
    IsNotBefore(x.keyId);
    IsNotBefore(x.scheme);
    IsNotBefore(x.signatureFilename);
  }

  lemma IsNotBefore(a: string)
    ensures !TextBefore(a, a)
  {
  }

  /** Lexicographic on two texts, then on the rest. */
  predicate Before(a: string, b: string, rest: bool) { TextLeq(a, b) && (a == b ==> rest) }

  /** The sort key (key_id, scheme, signature_filename, canonical dump). */
  predicate EntryLeq(x: Entry, y: Entry) {
    Before(x.keyId, y.keyId,
           Before(x.scheme, y.scheme,
                  Before(x.signatureFilename, y.signatureFilename, TextLeq(x.canonical, y.canonical))))
  }

  lemma BeforeTotal(a: string, b: string, there: bool, back: bool)
    requires there || back
    ensures Before(a, b, there) || Before(b, a, back)
  {
    TextLeqTotal(a, b);
    if TextLeq(a, b) && TextLeq(b, a) { TextLeqAntisymmetric(a, b); }
  }

  lemma BeforeTransitive(a: string, b: string, c: string, ab: bool, bc: bool, ac: bool)
    requires Before(a, b, ab) && Before(b, c, bc) && (ab && bc ==> ac)
    ensures Before(a, c, ac)
  {
    TextLeqTransitive(a, b, c);
    if a == c { TextLeqAntisymmetric(a, b); }
  }

  lemma EntryOrder()
    ensures TotalPreorder(EntryLeq)
  {
    forall x, y ensures EntryLeq(x, y) || EntryLeq(y, x) {
      TextLeqTotal(x.canonical, y.canonical);
      var f, g := Before(x.signatureFilename, y.signatureFilename, TextLeq(x.canonical, y.canonical)),
                  Before(y.signatureFilename, x.signatureFilename, TextLeq(y.canonical, x.canonical));
      BeforeTotal(x.signatureFilename, y.signatureFilename, TextLeq(x.canonical, y.canonical),
          TextLeq(y.canonical, x.canonical));
      BeforeTotal(x.scheme, y.scheme, f, g);
      BeforeTotal(x.keyId, y.keyId, Before(x.scheme, y.scheme, f), Before(y.scheme, x.scheme, g));
    }
    forall x, y, z | EntryLeq(x, y) && EntryLeq(y, z) ensures EntryLeq(x, z) {
      EntryLeqTransitive(x, y, z);
    }
  }

  lemma EntryLeqTransitive(x: Entry, y: Entry, z: Entry)
    requires EntryLeq(x, y) && EntryLeq(y, z)
    ensures EntryLeq(x, z)
  {
    var f, g, h := TextLeq(x.canonical, y.canonical), TextLeq(y.canonical, z.canonical),
        TextLeq(x.canonical, z.canonical);
    if f && g { TextLeqTransitive(x.canonical, y.canonical, z.canonical); }
    var f1, g1, h1 :=
      Before(x.signatureFilename, y.signatureFilename, f), Before(y.signatureFilename, z.signatureFilename, g),
      Before(x.signatureFilename, z.signatureFilename, h);
    if f1 && g1 { BeforeTransitive(x.signatureFilename, y.signatureFilename, z.signatureFilename, f, g, h); }
    var f2, g2, h2 := Before(x.scheme, y.scheme, f1), Before(y.scheme, z.scheme, g1), Before(x.scheme, z.scheme, h1);
    if f2 && g2 { BeforeTransitive(x.scheme, y.scheme, z.scheme, f1, g1, h1); }
    BeforeTransitive(x.keyId, y.keyId, z.keyId, f2, g2, h2);
  }

  lemma EntryLeqAntisymmetric(x: Entry, y: Entry)
    requires EntryLeq(x, y) && EntryLeq(y, x)
    ensures x == y
  {
    TextLeqAntisymmetric(x.keyId, y.keyId);
    TextLeqAntisymmetric(x.scheme, y.scheme);
    TextLeqAntisymmetric(x.signatureFilename, y.signatureFilename);
    TextLeqAntisymmetric(x.canonical, y.canonical);
  }

  // ---------------------------------------------------------------- the choice

  predicate Trusted(e: Entry, keys: set<string>, schemes: set<string>) { e.scheme in schemes && e.keyId in keys }

  function Eligible(entries: seq<Entry>, keys: set<string>, schemes: set<string>): seq<Entry> {
    Filter(entries, e => Trusted(e, keys, schemes))
  }

  function FirstVerified(entries: seq<Entry>, verify: Entry -> bool): Option<Entry> {
    if entries == [] then None
    else if verify(entries[0]) then Some(entries[0])
    else FirstVerified(entries[1..], verify)
  }

  /** The entry the authentication rests on. */
  function Chosen(entries: seq<Entry>, keys: set<string>, schemes: set<string>, verify: Entry -> bool): Option<Entry> {
    FirstVerified(Sort(Eligible(entries, keys, schemes), EntryLeq), verify)
  }

  /** The loop: sort the trusted entries, try them one by one, stop at the first that verifies. */
  method ChooseEntry(entries: seq<Entry>, keys: set<string>, schemes: set<string>, verify: Entry -> bool)
    returns (chosen: Option<Entry>)
    ensures chosen == Chosen(entries, keys, schemes, verify)
  {
    var eligible := Sort(Eligible(entries, keys, schemes), EntryLeq);
    var i := 0;
    while i < |eligible|
      invariant 0 <= i <= |eligible|
      invariant FirstVerified(eligible, verify) == FirstVerified(eligible[i..], verify)
    {
      if verify(eligible[i]) {
        return Some(eligible[i]);
      }
      i := i + 1;
    }
    return None;
  }

  /** `e` is listed, trusted, verifies, and no such entry sorts before it. */
  ghost predicate IsLeastVerified(entries: seq<Entry>, keys: set<string>, schemes: set<string>, verify: Entry -> bool,
                                  e: Entry) {
    && e in entries && Trusted(e, keys, schemes) && verify(e)
    && (forall x :: x in entries && Trusted(x, keys, schemes) && verify(x) ==> EntryLeq(e, x))
  }

  lemma {:induction false} FirstVerifiedIsLeast(entries: seq<Entry>, verify: Entry -> bool)
    requires Sorted(entries, EntryLeq)
    ensures match FirstVerified(entries, verify)
      case None => forall x :: x in entries ==> !verify(x)
      case Some(e) => e in entries && verify(e) && forall x :: x in entries && verify(x) ==> EntryLeq(e, x)
  {
    if entries != [] {
      EntryOrder();
      FirstVerifiedIsLeast(entries[1..], verify);
      assert entries == [entries[0]] + entries[1..];
    }
  }

  /** The choice is the least trusted entry that verifies; there is none exactly when no trusted entry verifies. */
  lemma ChosenIsLeast(entries: seq<Entry>, keys: set<string>, schemes: set<string>, verify: Entry -> bool)
    ensures match Chosen(entries, keys, schemes, verify)
      case None => forall x :: x in entries && Trusted(x, keys, schemes) ==> !verify(x)
      case Some(e) => IsLeastVerified(entries, keys, schemes, verify, e)
  {
    var trusted := e => Trusted(e, keys, schemes);
    var eligible := Eligible(entries, keys, schemes);
    EntryOrder();
    SortSorts(eligible, EntryLeq);
    SortPermutes(eligible, EntryLeq);
    SameMembers(Sort(eligible, EntryLeq), eligible);
    FilterMembers(entries, trusted);
    FirstVerifiedIsLeast(Sort(eligible, EntryLeq), verify);
  }

  /** Every other trusted entry that verifies stands behind the chosen one, by key, scheme, file name and dump. */
  lemma ChosenComesFirst(entries: seq<Entry>, keys: set<string>, schemes: set<string>, verify: Entry -> bool, x: Entry)
    requires x in entries && x.keyId in keys && x.scheme in schemes && verify(x)
    ensures Chosen(entries, keys, schemes, verify).Some?
    ensures var e := Chosen(entries, keys, schemes, verify).value; e == x || Precedes(e, x)
  {
    hide Chosen, EntryLeq, Precedes;
    ChosenIsLeast(entries, keys, schemes, verify);
    EntryLeqIff(Chosen(entries, keys, schemes, verify).value, x);
  }

  /** The order in which signatures are listed does not matter. */
  lemma ChosenForgetsOrder(entries: seq<Entry>, shuffled: seq<Entry>, keys: set<string>, schemes: set<string>,
                           verify: Entry -> bool)
    requires multiset(entries) == multiset(shuffled)
    ensures Chosen(entries, keys, schemes, verify) == Chosen(shuffled, keys, schemes, verify)
    ensures Eligible(entries, keys, schemes) == [] <==> Eligible(shuffled, keys, schemes) == []
  {
    var trusted := e => Trusted(e, keys, schemes);
    FilterPermutes(entries, shuffled, trusted);
    SameLength(Eligible(entries, keys, schemes), Eligible(shuffled, keys, schemes));
    EntryOrder();
    forall x, y | EntryLeq(x, y) && EntryLeq(y, x) ensures x == y { EntryLeqAntisymmetric(x, y); }
    SortForgetsOrder(Eligible(entries, keys, schemes), Eligible(shuffled, keys, schemes), EntryLeq);
  }
}
