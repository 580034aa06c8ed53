/** Session-bound double-submit proofs: nonce and tag in hexadecimal, and the check of the cookie and header pair. */
module Csrf {
  import opened Options
  import opened Bytes
  import opened Text
  import Cookies

  const NONCE_BYTES: nat := 32
  const TAG_BYTES: nat := 32
  const RAW_BYTES: nat := NONCE_BYTES + TAG_BYTES
  const HEX_BYTES: nat := 2 * RAW_BYTES

  /** Session tokens, nonces and tags are all 32 bytes. */
  type Block = b: Bytes | |b| == 32 witness seq(32, _ => 0)

  /** A keyed authentication code is an arbitrary function to this model. */
  type Mac = Bytes -> Block

  // ---------------------------------------------------------------- hexadecimal

  function HexDigit(value: int): char
    requires 0 <= value < 16
  {
    if value < 10 then ('0' as int + value) as char else ('a' as int + value - 10) as char
  }

  function Nibble(c: char): (r: Option<int>)
    ensures r.Some? ==> 0 <= r.value < 16
  {
    if '0' <= c <= '9' then Some(c as int - '0' as int)
    else if 'a' <= c <= 'f' then Some(c as int - 'a' as int + 10)
    else if 'A' <= c <= 'F' then Some(c as int - 'A' as int + 10)
    else None
  }

  function Lower(c: char): char { if 'A' <= c <= 'Z' then (c as int + 32) as char else c }

  function LowerText(s: string): string { seq(|s|, i requires 0 <= i < |s| => Lower(s[i])) }

  function EncodeByte(b: byte): string { [HexDigit(b as int / 16), HexDigit(b as int % 16)] }

  function Encode(bytes: Bytes): (r: string)
    ensures |r| == 2 * |bytes|
  {
    if bytes == [] then "" else EncodeByte(bytes[0]) + Encode(bytes[1..])
  }

  /** The bytes of pairs of digits; nothing for an odd length or another character. */
  function DecodePairs(s: string): (r: Option<Bytes>)
    ensures r.Some? ==> |s| == 2 * |r.value|
  {
    if s == "" then Some([])
    else if |s| == 1 || Nibble(s[0]).None? || Nibble(s[1]).None? then None
    else
      match DecodePairs(s[2..])
      case None => None
      case Some(rest) => Some([(Nibble(s[0]).value * 16 + Nibble(s[1]).value) as byte] + rest)
  }

  /** `decode_hex` also asks for the length of a proof. */
  function Decode(s: string): Option<Bytes> {
    var r := DecodePairs(s);
    if r.Some? && |r.value| == RAW_BYTES then r else None
  }

  lemma NibbleInvertsDigit(v: int)
    requires 0 <= v < 16
    ensures Nibble(HexDigit(v)) == Some(v) && Lower(HexDigit(v)) == HexDigit(v)
  {
  }

  lemma DigitOfNibble(c: char)
    requires Nibble(c).Some?
    ensures HexDigit(Nibble(c).value) == Lower(c)
  {
  }

  lemma {:induction false} DecodePairsInverts(bytes: Bytes)
    ensures DecodePairs(Encode(bytes)) == Some(bytes) && LowerText(Encode(bytes)) == Encode(bytes)
  {
    hide HexDigit, Nibble, Lower, EncodeByte;
    if bytes != [] {
      var b, text, rest := bytes[0], Encode(bytes), Encode(bytes[1..]);
      DecodePairsInverts(bytes[1..]);
      ByteInverts(b);
      assert text == EncodeByte(b) + rest && text[2..] == rest && bytes == [b] + bytes[1..];
      assert text[0] == EncodeByte(b)[0] && text[1] == EncodeByte(b)[1];
      assert forall i :: 0 <= i < |rest| ==> LowerText(rest)[i] == Lower(rest[i]);
      assert forall i :: 2 <= i < |text| ==> text[i] == rest[i - 2];
    }
  }

  lemma ByteInverts(b: byte)
    ensures var t := EncodeByte(b);
      && |t| == 2 && Lower(t[0]) == t[0] && Lower(t[1]) == t[1] && Nibble(t[0]).Some? && Nibble(t[1]).Some?
      && Nibble(t[0]).value * 16 + Nibble(t[1]).value == b as int
  {
    NibbleInvertsDigit(b as int / 16);
    NibbleInvertsDigit(b as int % 16);
  }

  lemma {:induction false} ReencodesLower(s: string)
    requires DecodePairs(s).Some?
    ensures Encode(DecodePairs(s).value) == LowerText(s)
  {
    if s != "" {
      var rest := DecodePairs(s[2..]).value;
      var high, low := Nibble(s[0]).value, Nibble(s[1]).value;
      ReencodesLower(s[2..]);
      DigitOfNibble(s[0]);
      DigitOfNibble(s[1]);
      var bytes := DecodePairs(s).value;
      assert bytes[0] as int / 16 == high && bytes[0] as int % 16 == low;
      assert bytes[1..] == rest;
      assert LowerText(s) == [Lower(s[0]), Lower(s[1])] + LowerText(s[2..]);
    }
  }

  lemma {:induction false} DecodePairsLower(s: string)
    ensures DecodePairs(LowerText(s)) == DecodePairs(s)
  {
    if |s| >= 2 {
      DecodePairsLower(s[2..]);
      LowerNibble(s[0]);
      LowerNibble(s[1]);
      assert LowerText(s)[2..] == LowerText(s[2..]);
    }
  }

  lemma LowerNibble(c: char)
    ensures Nibble(Lower(c)) == Nibble(c)
  {
  }

  /** The sixteen digits in the order of their values. */
  const HEX_DIGITS := "0123456789abcdef"

  lemma DigitIs(v: int)
    requires 0 <= v < 16
    ensures HexDigit(v) == HEX_DIGITS[v]
  {
  }

  /** Byte `i` is written as two digits of base sixteen, the high one first. */
  lemma {:induction false} EncodedByte(bytes: Bytes, i: nat)
    requires i < |bytes|
    ensures var high, low := bytes[i] as int / 16, bytes[i] as int % 16;
      && bytes[i] as int == 16 * high + low && 0 <= high < 16
      && Encode(bytes)[2 * i] == "0123456789abcdef"[high] && Encode(bytes)[2 * i + 1] == "0123456789abcdef"[low]
  {
    hide HexDigit;
    if i == 0 {
      DigitIs(bytes[0] as int / 16);
      DigitIs(bytes[0] as int % 16);
    } else {
      EncodedByte(bytes[1..], i - 1);
      var rest := Encode(bytes[1..]);
      assert Encode(bytes) == EncodeByte(bytes[0]) + rest;
      assert Encode(bytes)[2 * i] == rest[2 * (i - 1)] && Encode(bytes)[2 * i + 1] == rest[2 * (i - 1) + 1];
    }
  }

  /** Decoding yields these bytes exactly for the texts whose lower-case form is their encoding. */
  lemma DecodeIff(s: string, bytes: Bytes)
    ensures Decode(s) == Some(bytes) <==> |bytes| == RAW_BYTES && LowerText(s) == Encode(bytes)
  {
    hide DecodePairs, Encode, LowerText;
    if Decode(s) == Some(bytes) { ReencodesLower(s); }
    if |bytes| == RAW_BYTES && LowerText(s) == Encode(bytes) {
      DecodePairsInverts(bytes);
      DecodePairsLower(s);
    }
  }

  /** `encode_hex` */
  method EncodeHex(bytes: Bytes) returns (value: string)
    ensures value == Encode(bytes)
  {
    value := "";
    var i := 0;
    while i < |bytes|
      invariant 0 <= i <= |bytes| && Encode(bytes) == value + Encode(bytes[i..])
    {
      assert bytes[i..][1..] == bytes[i + 1..];
      assert value + (EncodeByte(bytes[i]) + Encode(bytes[i + 1..]))
             == (value + EncodeByte(bytes[i])) + Encode(bytes[i + 1..]);
      value := value + [HexDigit(bytes[i] as int / 16)] + [HexDigit(bytes[i] as int % 16)];
      i := i + 1;
    }
    assert bytes[i..] == [] && value + "" == value;
  }

  /** Decoded so far, and what the rest will add. */
  function Append(done: Bytes, r: Option<Bytes>): Option<Bytes> {
    if r.Some? then Some(done + r.value) else None
  }

  /** `decode_hex`, pair by pair. */
  method DecodeHex(value: string) returns (r: Option<Bytes>)
    ensures r == Decode(value)
  {
    var decoded: Bytes := [];
    var i := 0;
    assert value[0..] == value;
    assert DecodePairs(value).Some? ==> [] + DecodePairs(value).value == DecodePairs(value).value;
    while i < |value|
      invariant 0 <= i <= |value| && DecodePairs(value) == Append(decoded, DecodePairs(value[i..]))
    {
      if i + 1 == |value| {
        return None;
      }
      var high, low := Nibble(value[i]), Nibble(value[i + 1]);
      if high.None? || low.None? {
        return None;
      }
      var b := (high.value * 16 + low.value) as byte;
      assert value[i..][2..] == value[i + 2..];
      ghost var rest := DecodePairs(value[i + 2..]);
      assert rest.Some? ==> decoded + ([b] + rest.value) == (decoded + [b]) + rest.value;
      decoded := decoded + [b];
      i := i + 2;
    }
    assert value[i..] == "" && decoded + [] == decoded;
    return if |decoded| == RAW_BYTES then Some(decoded) else None;
  }

  // ---------------------------------------------------------------- proofs

  /** "synveil/csrf/v1" and a zero byte. */
  const DOMAIN: Bytes := [115, 121, 110, 118, 101, 105, 108, 47, 99, 115, 114, 102, 47, 118, 49, 0]

  function Message(session: Block, nonce: Block): Bytes { DOMAIN + session + nonce }

  function Raw(mac: Mac, session: Block, nonce: Block): Bytes { nonce + mac(Message(session, nonce)) }

  /** What `issue` returns for a given nonce. */
  function Proof(mac: Mac, session: Block, nonce: Block): string { Encode(Raw(mac, session, nonce)) }

  /** `verify` */
  predicate Verifies(mac: Mac, session: Block, candidate: string) {
    |candidate| == HEX_BYTES
    && match Decode(candidate)
       case None => false
       case Some(raw) => mac(Message(session, raw[..NONCE_BYTES])) == raw[NONCE_BYTES..]
  }

  /** `issue`, filling the raw buffer with the nonce and then the tag. */
  method Issue(mac: Mac, session: Block, nonce: Block) returns (proof: string)
    ensures proof == Proof(mac, session, nonce)
  {
    var tag := mac(Message(session, nonce));
    var raw := new byte[RAW_BYTES](_ => 0);
    var i := 0;
    while i < NONCE_BYTES
      invariant 0 <= i <= NONCE_BYTES && raw[..i] == nonce[..i]
    {
      raw[i] := nonce[i];
      i := i + 1;
    }
    assert raw[..NONCE_BYTES] == nonce;
    while i < RAW_BYTES
      invariant NONCE_BYTES <= i <= RAW_BYTES && raw[..NONCE_BYTES] == nonce
                && raw[NONCE_BYTES..i] == tag[..i - NONCE_BYTES]
    {
      raw[i] := tag[i - NONCE_BYTES];
      i := i + 1;
    }
    assert raw[..] == raw[..NONCE_BYTES] + raw[NONCE_BYTES..RAW_BYTES] && tag[..TAG_BYTES] == tag;
    proof := EncodeHex(raw[..]);
  }

  /**
   The authenticated message is the text `synveil/csrf/v1`, a zero byte, the session token and the nonce, in this
   order; a proof is the nonce followed by its tag.
   */
  lemma MessageLayout(mac: Mac, session: Block, nonce: Block)
    ensures var m := Message(session, nonce);
      && |m| == 80 && m[15] == 0 && m[16..48] == session && m[48..] == nonce
      && forall i :: 0 <= i < 15 ==> m[i] as int == "synveil/csrf/v1"[i] as int
    ensures var raw := Raw(mac, session, nonce);
      |raw| == 64 && raw[..32] == nonce && raw[32..] == mac(Message(session, nonce))
  {
    var m := Message(session, nonce);
    assert m[..16] == DOMAIN;
    var text := "synveil/csrf/v1";
    assert text == ['s', 'y', 'n', 'v', 'e', 'i', 'l', '/', 'c', 's', 'r', 'f', '/', 'v', '1'];
    assert forall i :: 0 <= i < 15 ==> m[i] == DOMAIN[i];
  }

  /** The framing is unambiguous. */
  lemma MessageInjective(s1: Block, n1: Block, s2: Block, n2: Block)
    requires Message(s1, n1) == Message(s2, n2)
    ensures s1 == s2 && n1 == n2
  {
    var k := |DOMAIN|;
    assert Message(s1, n1)[k..k + 32] == s1 && Message(s2, n2)[k..k + 32] == s2;
    assert Message(s1, n1)[k + 32..] == n1 && Message(s2, n2)[k + 32..] == n2;
  }

  /** A candidate verifies exactly when its lower-case form is a proof that could have been issued for the session. */
  lemma VerifiesIffIssued(mac: Mac, session: Block, candidate: string)
    ensures Verifies(mac, session, candidate) <==>
            exists nonce: Block :: LowerText(candidate) == Proof(mac, session, nonce)
  {
    hide DecodePairs, Encode, Message;
    if Verifies(mac, session, candidate) {
      var raw := Decode(candidate).value;
      var nonce: Block := raw[..NONCE_BYTES];
      DecodeIff(candidate, raw);
      assert raw == Raw(mac, session, nonce);
      assert LowerText(candidate) == Proof(mac, session, nonce);
    }
    if nonce: Block :| LowerText(candidate) == Proof(mac, session, nonce) {
      IssuedVerifies(mac, session, candidate, nonce);
    }
  }

  lemma IssuedVerifies(mac: Mac, session: Block, candidate: string, nonce: Block)
    requires LowerText(candidate) == Proof(mac, session, nonce)
    ensures Verifies(mac, session, candidate)
  {
    hide DecodePairs, Encode, Message;
    var raw := Raw(mac, session, nonce);
    DecodeIff(candidate, raw);
    assert raw[..NONCE_BYTES] == nonce && raw[NONCE_BYTES..] == mac(Message(session, nonce));
    assert |LowerText(candidate)| == |candidate|;
  }

  /** One candidate accepted for two sessions is a collision of the authentication code. */
  lemma SessionBound(mac: Mac, s1: Block, s2: Block, candidate: string)
    requires Verifies(mac, s1, candidate) && Verifies(mac, s2, candidate) && s1 != s2
    ensures exists nonce: Block ::
              Message(s1, nonce) != Message(s2, nonce) && mac(Message(s1, nonce)) == mac(Message(s2, nonce))
  {
    var nonce: Block := Decode(candidate).value[..NONCE_BYTES];
    if Message(s1, nonce) == Message(s2, nonce) { MessageInjective(s1, nonce, s2, nonce); }
    assert mac(Message(s1, nonce)) == mac(Message(s2, nonce));
  }

  // ---------------------------------------------------------------- the pair

  /** The cookie and header part of `validate_request`. */
  method ValidatePair(mac: Mac, session: Block, cookieHeaders: seq<Option<string>>, header: Option<string>)
    returns (ok: bool)
    ensures ok <==> PairValid(mac, session, cookieHeaders, header)
  {
    var cookie := Cookies.ReadCookie(cookieHeaders, Cookies.CSRF_COOKIE_NAME);
    if cookie.None? || header.None? {
      return false;
    }
    return cookie.value == header.value && Verifies(mac, session, header.value);
  }

  predicate PairValid(mac: Mac, session: Block, cookieHeaders: seq<Option<string>>, header: Option<string>) {
    && header.Some? && Cookies.Cookie(cookieHeaders, Cookies.CSRF_COOKIE_NAME) == header
    && Verifies(mac, session, header.value)
  }

  lemma {:induction false} EncodedIsHex(bytes: Bytes)
    ensures forall i :: 0 <= i < |Encode(bytes)| ==> IsLowerHex(Encode(bytes)[i])
  {
    if bytes != [] {
      EncodedIsHex(bytes[1..]);
      assert IsLowerHex(HexDigit(bytes[0] as int / 16)) && IsLowerHex(HexDigit(bytes[0] as int % 16));
    }
  }

  lemma ProofIsPlain(mac: Mac, session: Block, nonce: Block)
    ensures Cookies.ValueValid(Proof(mac, session, nonce))
            && LowerText(Proof(mac, session, nonce)) == Proof(mac, session, nonce)
  {
    hide Encode;
    EncodedIsHex(Raw(mac, session, nonce));
    DecodePairsInverts(Raw(mac, session, nonce));
  }

  /**
   An issued proof, echoed in the one CSRF cookie among any other well-formed cookies and copied to the header,
   passes the pair check for its session.
   */
  lemma EchoedProofPasses(mac: Mac, session: Block, nonce: Block, headers: seq<Option<string>>, i: int)
    requires Cookies.Readable(headers) && Cookies.WellFormed(Cookies.Crumbs(headers))
    requires Cookies.OnlyCrumb(Cookies.Crumbs(headers), Cookies.CSRF_COOKIE_NAME, i)
    requires Cookies.Crumbs(headers)[i] == Cookies.CSRF_COOKIE_NAME + "=" + Proof(mac, session, nonce)
    ensures PairValid(mac, session, headers, Some(Proof(mac, session, nonce)))
  {
    hide Proof, Cookies.Crumbs, LowerText, Verifies, Cookies.ValueValid;
    var proof := Proof(mac, session, nonce);
    ProofIsPlain(mac, session, nonce);
    assert Cookies.NameValid(Cookies.CSRF_COOKIE_NAME);
    Cookies.NamedPair(Cookies.CSRF_COOKIE_NAME, proof);
    Cookies.CookieIff(headers, Cookies.CSRF_COOKIE_NAME, proof);
    IssuedVerifies(mac, session, proof, nonce);
  }

  /** Whatever passes the pair check is, up to case, a proof issued for this very session. */
  lemma PassedPairWasIssued(mac: Mac, session: Block, headers: seq<Option<string>>, header: Option<string>)
    requires PairValid(mac, session, headers, header)
    ensures exists nonce: Block :: LowerText(header.value) == Proof(mac, session, nonce)
  {
    VerifiesIffIssued(mac, session, header.value);
  }

  /**
   The pair passes exactly when every cookie header is readable and well formed, one crumb is named `synveil_csrf`, its
   value is the header's, and that value is, up to case, a proof for this session.
   */
  lemma PairPassesIff(mac: Mac, session: Block, headers: seq<Option<string>>, header: Option<string>)
    ensures PairValid(mac, session, headers, header) <==>
      && header.Some? && Cookies.Readable(headers) && Cookies.WellFormed(Cookies.Crumbs(headers))
      && (exists i :: Cookies.OnlyCrumb(Cookies.Crumbs(headers), "synveil_csrf", i)
                      && Cookies.ValueOf(Cookies.Crumbs(headers)[i]) == header.value)
      && (exists nonce: Block :: LowerText(header.value) == Proof(mac, session, nonce))
  {
    hide Verifies, Proof, Cookies.Crumbs, Cookies.Cookie, Cookies.Named, Cookies.ValueOf, LowerText;
    if header.Some? {
      Cookies.CookieIff(headers, "synveil_csrf", header.value);
      VerifiesIffIssued(mac, session, header.value);
    }
  }
}
