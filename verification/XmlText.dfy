/** Decoding the five predefined entities of section 4.6 of XML 1.0. */
module XmlText {
  import opened Options
  import opened Text

  datatype Failure = UnterminatedEntity | UnsupportedEntity

  function EntityValue(name: string): Option<char> {
    if name == "amp" then Some('&')
    else if name == "lt" then Some('<')
    else if name == "gt" then Some('>')
    else if name == "quot" then Some('"')
    else if name == "apos" then Some('\'')
    else None
  }

  function EntityName(c: char): Option<string> {
    if c == '&' then Some("amp")
    else if c == '<' then Some("lt")
    else if c == '>' then Some("gt")
    else if c == '"' then Some("quot")
    else if c == '\'' then Some("apos")
    else None
  }

  lemma NamesAndValues(c: char, name: string)
    ensures EntityName(c) == Some(name) <==> EntityValue(name) == Some(c)
  {
  }

  lemma NamesAreFree(c: char)
    requires EntityName(c).Some?
    ensures Free(EntityName(c).value, ';')
  {
  }

  /** A reference to the character. */
  function Reference(name: string): string { ['&'] + (name + [';']) }

  /**
   `t` writes `s` with every character either as itself, unless it is an ampersand, or as its entity.
   */
  predicate Escapes(t: string, s: string)
    decreases |s|
  {
    if s == "" then t == ""
    else
      || (t != "" && t[0] == s[0] && s[0] != '&' && Escapes(t[1..], s[1..]))
      || (EntityName(s[0]).Some?
          && var e := Reference(EntityName(s[0]).value); e <= t && Escapes(t[|e|..], s[1..]))
  }

  function Prefixed(head: string, r: Result<string, Failure>): Result<string, Failure> {
    match r
    case Ok(s) => Ok(head + s)
    case Err(e) => Err(e)
  }

  /** `decode_xml_text`, one character or entity at a time. */
  function Decode(t: string): Result<string, Failure>
    decreases |t|
  {
    if t == "" then Ok("")
    else if t[0] != '&' then Prefixed([t[0]], Decode(t[1..]))
    else
      var n := IndexOf(t[1..], ';');
      if n == |t| - 1 then Err(UnterminatedEntity)
      else
        match EntityValue(t[1..][..n])
        case None => Err(UnsupportedEntity)
        case Some(c) => Prefixed([c], Decode(t[1..][n + 1..]))
  }

  lemma ReferenceIs(t: string, n: nat)
    requires t != "" && t[0] == '&' && n == IndexOf(t[1..], ';') < |t| - 1
    ensures Reference(t[1..][..n]) <= t && t[|Reference(t[1..][..n])|..] == t[1..][n + 1..]
  {
    var e := Reference(t[1..][..n]);
    assert t[..|e|] == e;
  }

  lemma {:induction false} DecodedEscapes(t: string)
    requires Decode(t).Ok?
    ensures Escapes(t, Decode(t).value)
    decreases |t|
  {
    hide EntityValue, EntityName, Reference, Escapes;
    if t == "" {
      EscapesEmpty();
    } else if t[0] != '&' {
      DecodedEscapes(t[1..]);
      EscapesItself(t, Decode(t[1..]).value);
    } else {
      var n := IndexOf(t[1..], ';');
      var c := EntityValue(t[1..][..n]).value;
      DecodedEscapes(t[1..][n + 1..]);
      ReferenceIs(t, n);
      NamesAndValues(c, t[1..][..n]);
      EscapesByName(t, c, Decode(t[1..][n + 1..]).value);
    }
  }

  lemma EscapesEmpty()
    ensures Escapes("", "")
  {
  }

  lemma EscapesItself(t: string, s: string)
    requires t != "" && t[0] != '&' && Escapes(t[1..], s)
    ensures Escapes(t, [t[0]] + s)
  {
    assert ([t[0]] + s)[1..] == s;
  }

  lemma EscapesByName(t: string, c: char, s: string)
    requires EntityName(c).Some? && Reference(EntityName(c).value) <= t
    requires Escapes(t[|Reference(EntityName(c).value)|..], s)
    ensures Escapes(t, [c] + s)
  {
    assert ([c] + s)[1..] == s;
  }

  lemma DecodeReference(c: char, rest: string)
    requires EntityName(c).Some?
    ensures Decode(Reference(EntityName(c).value) + rest) == Prefixed([c], Decode(rest))
  {
    hide EntityName, EntityValue;
    var name := EntityName(c).value;
    var t := Reference(name) + rest;
    NamesAreFree(c);
    IndexOfFree(name, ';', rest);
    assert t[1..] == name + [';'] + rest;
    assert t[1..][..|name|] == name && t[1..][|name| + 1..] == rest;
    NamesAndValues(c, name);
  }

  lemma {:induction false} EscapesDecode(t: string, s: string)
    requires Escapes(t, s)
    ensures Decode(t) == Ok(s)
    decreases |s|
  {
    hide EntityName, EntityValue, Reference;
    if s != "" {
      assert s == [s[0]] + s[1..];
      if t != "" && t[0] == s[0] && s[0] != '&' && Escapes(t[1..], s[1..]) {
        EscapesDecode(t[1..], s[1..]);
      } else {
        var e := Reference(EntityName(s[0]).value);
        EscapesDecode(t[|e|..], s[1..]);
        DecodeReference(s[0], t[|e|..]);
        assert t == e + t[|e|..];
      }
    }
  }

  /** Decoding inverts escaping: it yields exactly the text that was escaped, and fails on everything else. */
  lemma DecodesIffEscapes(t: string, s: string)
    ensures Decode(t) == Ok(s) <==> Escapes(t, s)
  {
    if Decode(t) == Ok(s) { DecodedEscapes(t); }
    if Escapes(t, s) { EscapesDecode(t, s); }
  }

  /** The five entities and what they stand for. */
  lemma PredefinedEntities()
    ensures Decode("&amp;") == Ok("&") && Decode("&lt;") == Ok("<") && Decode("&gt;") == Ok(">")
    ensures Decode("&quot;") == Ok("\"") && Decode("&apos;") == Ok("'")
  {
    hide Decode;
    assert EntityName('&') == Some("amp") && EntityName('<') == Some("lt") && EntityName('>') == Some("gt");
    assert EntityName('"') == Some("quot") && EntityName('\'') == Some("apos");
    EntityStandsFor('&', "&amp;");
    EntityStandsFor('<', "&lt;");
    EntityStandsFor('>', "&gt;");
    EntityStandsFor('"', "&quot;");
    EntityStandsFor('\'', "&apos;");
  }

  lemma EntityStandsFor(c: char, text: string)
    requires EntityName(c).Some? && text == Reference(EntityName(c).value)
    ensures Decode(text) == Ok([c])
  {
    hide Decode, EntityName, Reference;
    DecodeReference(c, "");
    DecodeNothing();
    assert text + "" == text && [c] + "" == [c];
  }

  lemma {:induction false} DecodePlain(plain: string, rest: string)
    requires Free(plain, '&')
    ensures Decode(plain + rest) == Prefixed(plain, Decode(rest))
  {
    hide Decode;
    if plain == "" {
      assert plain + rest == rest;
      assert Decode(rest).Ok? ==> "" + Decode(rest).value == Decode(rest).value;
    } else {
      var c, tail := plain[0], plain[1..];
      assert plain == [c] + tail && plain + rest == [c] + (tail + rest);
      DecodePlain(tail, rest);
      DecodeCharacter(c, tail + rest);
      PrefixedTwice([c], tail, Decode(rest));
    }
  }

  lemma DecodeCharacter(c: char, rest: string)
    requires c != '&'
    ensures Decode([c] + rest) == Prefixed([c], Decode(rest))
  {
    hide IndexOf, EntityValue;
    assert ([c] + rest)[1..] == rest;
  }

  lemma PrefixedTwice(a: string, b: string, r: Result<string, Failure>)
    ensures Prefixed(a, Prefixed(b, r)) == Prefixed(a + b, r)
  {
    assert r.Ok? ==> a + (b + r.value) == (a + b) + r.value;
  }

  /** Decoding from the next ampersand on. */
  lemma DecodeAt(rest: string, start: nat)
    requires start == IndexOf(rest, '&') < |rest|
    ensures var after := rest[start + 1..];
      var end := IndexOf(after, ';');
      Decode(rest) ==
        if end == |after| then Err(UnterminatedEntity)
        else if EntityValue(after[..end]).None? then Err(UnsupportedEntity)
        else Prefixed(rest[..start] + [EntityValue(after[..end]).value], Decode(after[end + 1..]))
  {
    hide EntityValue, Decode, IndexOf;
    var plain, after := rest[..start], rest[start + 1..];
    var end := IndexOf(after, ';');
    assert rest == plain + (['&'] + after);
    DecodePlain(plain, ['&'] + after);
    DecodeEntity(after);
    if end < |after| && EntityValue(after[..end]).Some? {
      PrefixedTwice(plain, [EntityValue(after[..end]).value], Decode(after[end + 1..]));
    }
  }

  lemma DecodeEntity(after: string)
    ensures var end := IndexOf(after, ';');
      Decode(['&'] + after) ==
        if end == |after| then Err(UnterminatedEntity)
        else if EntityValue(after[..end]).None? then Err(UnsupportedEntity)
        else Prefixed([EntityValue(after[..end]).value], Decode(after[end + 1..]))
  {
    hide EntityValue, IndexOf;
    assert (['&'] + after)[1..] == after;
  }

  /** The loop over `rest` and `decoded`. */
  method DecodeXmlText(value: string) returns (r: Result<string, Failure>)
    ensures r == Decode(value)
    ensures r.Ok? ==> Escapes(value, r.value)
  {
    hide EntityValue, Decode, Escapes;
    var decoded := "";
    var rest := value;
    assert Decode(value).Ok? ==> "" + Decode(value).value == Decode(value).value;
    while '&' in rest
      invariant Decode(value) == Prefixed(decoded, Decode(rest))
      decreases |rest|
    {
      var start := IndexOf(rest, '&');
      var after := rest[start + 1..];
      DecodeAt(rest, start);
      var end := IndexOf(after, ';');
      if end == |after| {
        return Err(UnterminatedEntity);
      }
      var c := EntityValue(after[..end]);
      if c.None? {
        return Err(UnsupportedEntity);
      }
      PrefixedTwice(decoded, rest[..start] + [c.value], Decode(after[end + 1..]));
      decoded := decoded + (rest[..start] + [c.value]);
      rest := after[end + 1..];
    }
    DecodePlain(rest, "");
    DecodeNothing();
    assert rest + "" == rest;
    r := Ok(decoded + rest);
    DecodedEscapes(value);
  }

  lemma DecodeNothing()
    ensures Decode("") == Ok("")
  {
  }
}
