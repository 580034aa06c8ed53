/** Authenticated channels: evidence, parsing, the anti-rollback rule and release selection. */
module ReleaseChannel {
  import opened Options
  import opened Bytes
  import opened Versions
  import opened ChannelFormat
  import opened Signatures
  import opened Sorting

  const MAX_CHANNEL_BYTES := 1_048_576
  const CHANNEL_FILENAME := "SYNVEIL-RELEASE-CHANNEL.json"
  const PINNED := "pinned_sha256"
  const DETACHED := "detached_signature"
  const PINNED_STATE := "AUTHENTICATED_PINNED_DIGEST"
  const SIGNED_STATE := "AUTHENTICATED_SIGNATURE"

  /** What the model leaves abstract: the digest, JSON decoding and the portable file-name test. */
  datatype World = World(sha256: Digest, loads: Bytes -> Option<Json>, safeFilename: string -> bool)

  datatype TrustPolicy = TrustPolicy(
    authenticationMethod: string,
    expectedSha256: Option<string>,
    trustedKeyIds: set<string>,
    allowedSchemes: set<string>,
    minimumGeneration: int,
    maxChannelBytes: int)

  datatype Authentication = Authentication(
    state: string, authMethod: string, sha256: string, size: int, keyId: Option<string>, scheme: Option<string>)

  datatype AuthenticatedChannel = AuthenticatedChannel(raw: Bytes, document: Channel, authentication: Authentication)

  datatype HighWater = HighWater(generation: int, sha256: string)

  datatype SelectedRelease = SelectedRelease(
    channel: AuthenticatedChannel, index: int, release: Release, selectionMode: string, currentVersion: Option<string>)

  // ---------------------------------------------------------------- signature descriptors

  datatype Descriptor = Descriptor(size: int, sha256: string, entries: seq<Entry>)

  predicate TokenChar(c: char) {
    'A' <= c <= 'Z' || 'a' <= c <= 'z' || '0' <= c <= '9' || c == '.' || c == '_' || c == '-'
  }

  /** [A-Za-z0-9][A-Za-z0-9._-]{0,127} */
  predicate Token(s: string) {
    && 1 <= |s| <= 128 && s[0] != '.' && s[0] != '_' && s[0] != '-'
    && forall i :: 0 <= i < |s| ==> TokenChar(s[i])
  }

  predicate TokenField(j: Json) { j.Str? && Token(j.s) }

  predicate EntryFieldsValid(w: World, j: Json) {
    && j.Obj? && j.fields.Keys == {Scheme, KeyId, SignatureFilename}
    && TokenField(j.fields[Scheme]) && TokenField(j.fields[KeyId]) && TokenField(j.fields[SignatureFilename])
    && w.safeFilename(j.fields[SignatureFilename].s)
  }

  function EntryOf(w: World, j: Json): Entry {
    if EntryFieldsValid(w, j) then Entry(j.fields[KeyId].s, j.fields[Scheme].s, j.fields[SignatureFilename].s, "")
    else Entry("", "", "", "")
  }

  /** `validate_auth_descriptor` */
  function ValidateDescriptor(w: World, j: Json): Result<Descriptor, Code> {
    if !j.Obj? || j.fields.Keys != {SchemaVersion, ChannelFilename, ChannelSizeBytes, ChannelSha256, SignatureList} then
      Err(InvalidChannel)
    else
      var f := j.fields;
      if f[SchemaVersion] != Int(1) then Err(UnsupportedChannelAuthentication)
      else if f[ChannelFilename] != Str(CHANNEL_FILENAME) then Err(InvalidChannel)
      else if !f[ChannelSizeBytes].Int? || !(0 <= f[ChannelSizeBytes].i <= MAX_CHANNEL_BYTES) then Err(InvalidChannel)
      else if !HexField(f[ChannelSha256], 64) then Err(InvalidChannel)
      else if !f[SignatureList].Arr? || !(1 <= |f[SignatureList].items| <= 16) then Err(InvalidChannel)
      else if !All(f[SignatureList].items, e => EntryFieldsValid(w, e)) then Err(InvalidChannel)
      else
        Ok(Descriptor(f[ChannelSizeBytes].i, f[ChannelSha256].s, Map(f[SignatureList].items, e => EntryOf(w, e))))
  }

  // ---------------------------------------------------------------- authentication

  /** The evidence for one verified entry. */
  function SignedEvidence(sha256: string, size: int, e: Entry): Authentication {
    Authentication(SIGNED_STATE, DETACHED, sha256, size, Some(e.keyId), Some(e.scheme))
  }

  /** `authenticate_channel`; `verify` is the trusted verifier over these exact bytes, if there is one. */
  function Authenticate(w: World, raw: Bytes, policy: TrustPolicy, descriptor: Json, verify: Option<Entry -> bool>)
    : Result<Authentication, Code>
  {
    if |raw| > policy.maxChannelBytes then Err(ChannelTooLarge)
    else
      var digest := w.sha256(raw);
      if policy.authenticationMethod == PINNED then
        if policy.expectedSha256.None? || !HexText(policy.expectedSha256.value, 64)
            || policy.expectedSha256.value != digest
        then Err(ChannelAuthFailed)
        else Ok(Authentication(PINNED_STATE, PINNED, digest, |raw|, None, None))
      else if policy.authenticationMethod != DETACHED then Err(UnsupportedChannelAuthentication)
      else
        match ValidateDescriptor(w, descriptor)
        case Err(code) => Err(code)
        case Ok(d) =>
          if d.size != |raw| || d.sha256 != digest then Err(ChannelAuthFailed)
          else if Eligible(d.entries, policy.trustedKeyIds, policy.allowedSchemes) == [] || verify.None? then
            Err(UnsupportedChannelAuthentication)
          else
            match Chosen(d.entries, policy.trustedKeyIds, policy.allowedSchemes, verify.value)
            case None => Err(ChannelAuthFailed)
            case Some(e) => Ok(SignedEvidence(digest, |raw|, e))
  }

  /** The same descriptor with its signatures listed in another order. */
  ghost predicate Relisted(a: Json, b: Json) {
    && a.Obj? && b.Obj? && SignatureList in a.fields && SignatureList in b.fields
    && a.fields[SignatureList].Arr? && b.fields[SignatureList].Arr?
    && b.fields == a.fields[SignatureList := b.fields[SignatureList]]
    && multiset(a.fields[SignatureList].items) == multiset(b.fields[SignatureList].items)
  }

  lemma DescriptorRelisted(w: World, a: Json, b: Json)
    requires Relisted(a, b)
    ensures match ValidateDescriptor(w, a)
      case Err(code) => ValidateDescriptor(w, b) == Err(code)
      case Ok(d) =>
        && ValidateDescriptor(w, b).Ok?
        && ValidateDescriptor(w, b).value == d.(entries := ValidateDescriptor(w, b).value.entries)
        && multiset(d.entries) == multiset(ValidateDescriptor(w, b).value.entries)
  {
    hide EntryFieldsValid, EntryOf, HexField;
    var xs, ys := a.fields[SignatureList].items, b.fields[SignatureList].items;
    assert a.fields.Keys == b.fields.Keys;
    SameLength(xs, ys);
    SameMembers(xs, ys);
    MapPermutes(xs, ys, e => EntryOf(w, e));
    AllPermutes(xs, ys, e => EntryFieldsValid(w, e));
  }

  /** With a deterministic verifier the outcome does not depend on the order in which signatures are listed. */
  lemma AuthenticationForgetsOrder(w: World, raw: Bytes, policy: TrustPolicy, a: Json, b: Json,
                                   verify: Option<Entry -> bool>)
    requires Relisted(a, b)
    ensures Authenticate(w, raw, policy, a, verify) == Authenticate(w, raw, policy, b, verify)
  {
    hide ValidateDescriptor;
    DescriptorRelisted(w, a, b);
    if ValidateDescriptor(w, a).Ok? && verify.Some? {
      ChosenForgetsOrder(ValidateDescriptor(w, a).value.entries, ValidateDescriptor(w, b).value.entries,
                         policy.trustedKeyIds, policy.allowedSchemes, verify.value);
    }
  }

  // ---------------------------------------------------------------- what evidence rests on

  /** One entry of the signature list, as the document it is. */
  function SignatureItem(key: string, scheme: string, file: string): Json {
    Obj(map[KeyId := Str(key), Scheme := Str(scheme), SignatureFilename := Str(file)])
  }

  /** A descriptor of exactly these bytes, with these signature entries. */
  ghost predicate DescribesBytes(w: World, raw: Bytes, descriptor: Json, items: seq<Json>) {
    && descriptor == Obj(map[SchemaVersion := Int(1), ChannelFilename := Str("SYNVEIL-RELEASE-CHANNEL.json"),
                             ChannelSizeBytes := Int(|raw|), ChannelSha256 := Str(w.sha256(raw)),
                             SignatureList := Arr(items)])
    && |raw| <= MAX_CHANNEL_BYTES && HexText(w.sha256(raw), 64) && 1 <= |items| <= 16
    && (forall i :: 0 <= i < |items| ==> EntryFieldsValid(w, items[i]))
  }

  /** Entry `i` has a trusted key and an allowed scheme. */
  ghost predicate TrustedItem(items: seq<Json>, i: int, keys: set<string>, schemes: set<string>, key: string,
                              scheme: string, file: string)
  {
    0 <= i < |items| && items[i] == SignatureItem(key, scheme, file) && key in keys && scheme in schemes
  }

  /** The descriptor describes the bytes, and the verifier vouches for one of its trusted entries. */
  ghost predicate SignedBy(w: World, raw: Bytes, descriptor: Json, keys: set<string>, schemes: set<string>,
                           verify: Option<Entry -> bool>, key: string, scheme: string)
  {
    exists items, i, file ::
      && DescribesBytes(w, raw, descriptor, items) && TrustedItem(items, i, keys, schemes, key, scheme, file)
      && verify.Some? && verify.value(Entry(key, scheme, file, ""))
  }

  lemma ItemIs(w: World, j: Json)
    requires EntryFieldsValid(w, j)
    ensures var e := EntryOf(w, j);
      j == SignatureItem(e.keyId, e.scheme, e.signatureFilename) && e.canonical == "" && e.keyId != "" && e.scheme != ""
  {
    hide Token;
    var e := EntryOf(w, j);
    assert j.fields == SignatureItem(e.keyId, e.scheme, e.signatureFilename).fields;
    TokensAreNotEmpty(e.keyId);
    TokensAreNotEmpty(e.scheme);
  }

  lemma TokensAreNotEmpty(s: string)
    ensures Token(s) ==> s != ""
  {
  }

  lemma DescriptorIff(w: World, raw: Bytes, j: Json)
    ensures (exists items :: DescribesBytes(w, raw, j, items)) <==>
            && ValidateDescriptor(w, j).Ok?
            && ValidateDescriptor(w, j).value.size == |raw| && ValidateDescriptor(w, j).value.sha256 == w.sha256(raw)
    ensures forall items :: DescribesBytes(w, raw, j, items) ==>
              ValidateDescriptor(w, j) == Ok(Descriptor(|raw|, w.sha256(raw), Map(items, e => EntryOf(w, e))))
  {
    hide EntryFieldsValid, EntryOf, HexText;
    if ValidateDescriptor(w, j).Ok? && ValidateDescriptor(w, j).value.size == |raw|
       && ValidateDescriptor(w, j).value.sha256 == w.sha256(raw)
    {
      var items := j.fields[SignatureList].items;
      var f := map[SchemaVersion := Int(1), ChannelFilename := Str("SYNVEIL-RELEASE-CHANNEL.json"),
                   ChannelSizeBytes := Int(|raw|), ChannelSha256 := Str(w.sha256(raw)), SignatureList := Arr(items)];
      assert j.fields == f;
      assert DescribesBytes(w, raw, j, items);
    }
    forall items | DescribesBytes(w, raw, j, items)
      ensures ValidateDescriptor(w, j) == Ok(Descriptor(|raw|, w.sha256(raw), Map(items, e => EntryOf(w, e))))
    {
      DescriptorReads(w, raw, j, items);
    }
  }

  lemma DescriptorReads(w: World, raw: Bytes, j: Json, items: seq<Json>)
    requires DescribesBytes(w, raw, j, items)
    ensures ValidateDescriptor(w, j) == Ok(Descriptor(|raw|, w.sha256(raw), Map(items, e => EntryOf(w, e))))
  {
    hide EntryFieldsValid, EntryOf, HexText;
    assert j.fields.Keys == {SchemaVersion, ChannelFilename, ChannelSizeBytes, ChannelSha256, SignatureList};
    assert j.fields[SignatureList].items == items;
  }

  /** The entries read from the items, and the items behind the entries. */
  lemma EntriesAndItems(w: World, items: seq<Json>, key: string, scheme: string, file: string)
    requires forall i :: 0 <= i < |items| ==> EntryFieldsValid(w, items[i])
    ensures Entry(key, scheme, file, "") in Map(items, e => EntryOf(w, e)) <==>
            SignatureItem(key, scheme, file) in items
    ensures forall e :: e in Map(items, j => EntryOf(w, j)) ==> e.canonical == "" && e.keyId != "" && e.scheme != ""
  {
    hide EntryFieldsValid, EntryOf;
    var entries := Map(items, e => EntryOf(w, e));
    var x, j := Entry(key, scheme, file, ""), SignatureItem(key, scheme, file);
    forall i | 0 <= i < |items|
      ensures items[i] == SignatureItem(entries[i].keyId, entries[i].scheme, entries[i].signatureFilename)
      ensures entries[i].canonical == "" && entries[i].keyId != "" && entries[i].scheme != ""
    {
      ItemIs(w, items[i]);
    }
    if x in entries {
      var i :| 0 <= i < |entries| && entries[i] == x;
      assert items[i] == j;
    }
    if j in items {
      var i :| 0 <= i < |items| && items[i] == j;
      ItemsDiffer(entries[i], x);
    }
  }

  lemma ItemsDiffer(x: Entry, y: Entry)
    requires SignatureItem(x.keyId, x.scheme, x.signatureFilename)
             == SignatureItem(y.keyId, y.scheme, y.signatureFilename)
    ensures x.keyId == y.keyId && x.scheme == y.scheme && x.signatureFilename == y.signatureFilename
  {
    var f, g := SignatureItem(x.keyId, x.scheme, x.signatureFilename).fields,
                SignatureItem(y.keyId, y.scheme, y.signatureFilename).fields;
    assert f[KeyId] == g[KeyId] && f[Scheme] == g[Scheme] && f[SignatureFilename] == g[SignatureFilename];
  }

  /**
   Under detached signatures the bytes authenticate exactly when they fit the limit, the descriptor describes them, and
   the verifier vouches for one of its entries with a trusted key and an allowed scheme; the evidence names such an
   entry.
   */
  lemma SignedIff(w: World, raw: Bytes, policy: TrustPolicy, descriptor: Json, verify: Option<Entry -> bool>)
    requires policy.authenticationMethod == "detached_signature"
    ensures var r := Authenticate(w, raw, policy, descriptor, verify);
      && (r.Ok? <==>
            && |raw| <= policy.maxChannelBytes
            && exists key, scheme ::
                 SignedBy(w, raw, descriptor, policy.trustedKeyIds, policy.allowedSchemes, verify, key, scheme))
      && (r.Ok? ==>
            && r.value.keyId.Some? && r.value.scheme.Some?
            && SignedBy(w, raw, descriptor, policy.trustedKeyIds, policy.allowedSchemes, verify,
                        r.value.keyId.value, r.value.scheme.value)
            && r.value == Authentication("AUTHENTICATED_SIGNATURE", "detached_signature", w.sha256(raw), |raw|,
                                         r.value.keyId, r.value.scheme))
  {
    hide ValidateDescriptor, DescribesBytes, Chosen, Eligible;
    var r := Authenticate(w, raw, policy, descriptor, verify);
    DescriptorIff(w, raw, descriptor);
    if r.Ok? {
      var items :| DescribesBytes(w, raw, descriptor, items);
      AcceptedIsSigned(w, raw, policy, descriptor, verify, items);
    }
    if key, scheme :|
       && |raw| <= policy.maxChannelBytes
       && SignedBy(w, raw, descriptor, policy.trustedKeyIds, policy.allowedSchemes, verify, key, scheme)
    {
      SignedIsAccepted(w, raw, policy, descriptor, verify, key, scheme);
    }
  }

  lemma AcceptedIsSigned(w: World, raw: Bytes, policy: TrustPolicy, descriptor: Json, verify: Option<Entry -> bool>,
                         items: seq<Json>)
    requires policy.authenticationMethod == DETACHED && Authenticate(w, raw, policy, descriptor, verify).Ok?
    requires DescribesBytes(w, raw, descriptor, items)
    ensures var a := Authenticate(w, raw, policy, descriptor, verify).value;
      && a.keyId.Some? && a.scheme.Some? && |raw| <= policy.maxChannelBytes
      && a == Authentication(SIGNED_STATE, DETACHED, w.sha256(raw), |raw|, a.keyId, a.scheme)
      && SignedBy(w, raw, descriptor, policy.trustedKeyIds, policy.allowedSchemes, verify, a.keyId.value,
                  a.scheme.value)
  {
    hide ValidateDescriptor, EntryFieldsValid, EntryOf, Chosen, Eligible, SignatureItem;
    DescriptorReads(w, raw, descriptor, items);
    var entries := Map(items, e => EntryOf(w, e));
    ChosenIsLeast(entries, policy.trustedKeyIds, policy.allowedSchemes, verify.value);
    var e := Chosen(entries, policy.trustedKeyIds, policy.allowedSchemes, verify.value).value;
    EntriesAndItems(w, items, e.keyId, e.scheme, e.signatureFilename);
    assert e == Entry(e.keyId, e.scheme, e.signatureFilename, "");
    var i :| 0 <= i < |items| && items[i] == SignatureItem(e.keyId, e.scheme, e.signatureFilename);
    assert TrustedItem(items, i, policy.trustedKeyIds, policy.allowedSchemes, e.keyId, e.scheme, e.signatureFilename);
  }

  lemma SignedIsAccepted(w: World, raw: Bytes, policy: TrustPolicy, descriptor: Json, verify: Option<Entry -> bool>,
                         key: string, scheme: string)
    requires policy.authenticationMethod == DETACHED && |raw| <= policy.maxChannelBytes
    requires SignedBy(w, raw, descriptor, policy.trustedKeyIds, policy.allowedSchemes, verify, key, scheme)
    ensures Authenticate(w, raw, policy, descriptor, verify).Ok?
  {
    hide ValidateDescriptor, EntryFieldsValid, EntryOf, Chosen, Eligible, SignatureItem;
    var items, i, file :|
      && DescribesBytes(w, raw, descriptor, items)
      && TrustedItem(items, i, policy.trustedKeyIds, policy.allowedSchemes, key, scheme, file)
      && verify.Some? && verify.value(Entry(key, scheme, file, ""));
    DescriptorReads(w, raw, descriptor, items);
    var entries := Map(items, e => EntryOf(w, e));
    EntriesAndItems(w, items, key, scheme, file);
    assert items[i] in items;
    ChosenIsLeast(entries, policy.trustedKeyIds, policy.allowedSchemes, verify.value);
    TrustedIsEligible(entries, policy.trustedKeyIds, policy.allowedSchemes, Entry(key, scheme, file, ""));
  }

  lemma TrustedIsEligible(entries: seq<Entry>, keys: set<string>, schemes: set<string>, e: Entry)
    requires e in entries && Trusted(e, keys, schemes)
    ensures Eligible(entries, keys, schemes) != []
  {
    FilterMembers(entries, x => Trusted(x, keys, schemes));
    assert e in Eligible(entries, keys, schemes);
  }

  /** A descriptor of the bytes with a trusted entry none of which verifies is a failed authentication. */
  lemma UnverifiedIsRefused(w: World, raw: Bytes, policy: TrustPolicy, descriptor: Json, verify: Option<Entry -> bool>,
                            items: seq<Json>, i: int, key: string, scheme: string, file: string)
    requires policy.authenticationMethod == "detached_signature" && |raw| <= policy.maxChannelBytes
    requires DescribesBytes(w, raw, descriptor, items) && verify.Some?
    requires TrustedItem(items, i, policy.trustedKeyIds, policy.allowedSchemes, key, scheme, file)
    requires forall k, s ::
               !SignedBy(w, raw, descriptor, policy.trustedKeyIds, policy.allowedSchemes, verify, k, s)
    ensures Authenticate(w, raw, policy, descriptor, verify) == Err(ChannelAuthFailed)
  {
    hide ValidateDescriptor, EntryFieldsValid, EntryOf, Chosen, Eligible, SignatureItem, SignedBy;
    SignedIff(w, raw, policy, descriptor, verify);
    DescriptorReads(w, raw, descriptor, items);
    EntriesAndItems(w, items, key, scheme, file);
    assert items[i] in items;
    TrustedIsEligible(Map(items, e => EntryOf(w, e)), policy.trustedKeyIds, policy.allowedSchemes,
                      Entry(key, scheme, file, ""));
  }

  /** Without a trusted entry, or without a verifier, the descriptor cannot authenticate at all. */
  lemma UntrustedIsUnsupported(w: World, raw: Bytes, policy: TrustPolicy, descriptor: Json,
                               verify: Option<Entry -> bool>, items: seq<Json>)
    requires policy.authenticationMethod == "detached_signature" && |raw| <= policy.maxChannelBytes
    requires DescribesBytes(w, raw, descriptor, items)
    requires || verify.None?
             || forall i, key, scheme, file ::
                  !TrustedItem(items, i, policy.trustedKeyIds, policy.allowedSchemes, key, scheme, file)
    ensures Authenticate(w, raw, policy, descriptor, verify) == Err(UnsupportedChannelAuthentication)
  {
    hide ValidateDescriptor, EntryFieldsValid, EntryOf, Chosen, Eligible, SignatureItem, TrustedItem;
    DescriptorReads(w, raw, descriptor, items);
    EligibleIsTrusted(w, items, policy.trustedKeyIds, policy.allowedSchemes);
  }

  lemma EligibleIsTrusted(w: World, items: seq<Json>, keys: set<string>, schemes: set<string>)
    requires forall i :: 0 <= i < |items| ==> EntryFieldsValid(w, items[i])
    ensures Eligible(Map(items, e => EntryOf(w, e)), keys, schemes) != [] ==>
              exists i, key, scheme, file :: TrustedItem(items, i, keys, schemes, key, scheme, file)
  {
    hide EntryFieldsValid, EntryOf, SignatureItem;
    var entries := Map(items, e => EntryOf(w, e));
    FilterMembers(entries, e => Trusted(e, keys, schemes));
    var eligible := Eligible(entries, keys, schemes);
    if eligible != [] {
      var e := eligible[0];
      assert e in eligible;
      EntriesAndItems(w, items, e.keyId, e.scheme, e.signatureFilename);
      assert e == Entry(e.keyId, e.scheme, e.signatureFilename, "");
      var i :| 0 <= i < |items| && items[i] == SignatureItem(e.keyId, e.scheme, e.signatureFilename);
      assert TrustedItem(items, i, keys, schemes, e.keyId, e.scheme, e.signatureFilename);
    }
  }

  /** Under a pin the bytes authenticate exactly when they fit the limit and have that digest. */
  lemma PinnedIff(w: World, raw: Bytes, policy: TrustPolicy, descriptor: Json, verify: Option<Entry -> bool>)
    requires policy.authenticationMethod == "pinned_sha256"
    ensures var r := Authenticate(w, raw, policy, descriptor, verify);
      && (r.Ok? <==> |raw| <= policy.maxChannelBytes && policy.expectedSha256 == Some(w.sha256(raw))
                     && HexText(w.sha256(raw), 64))
      && (r.Ok? ==> r.value == Authentication("AUTHENTICATED_PINNED_DIGEST", "pinned_sha256", w.sha256(raw), |raw|,
                                              None, None))
  {
  }

  // ---------------------------------------------------------------- parsing

  /** The byte and evidence checks of `parse_authenticated_channel`. */
  function CheckEvidence(w: World, raw: Bytes, a: Authentication, policy: TrustPolicy): Option<Code> {
    if |raw| > policy.maxChannelBytes then Some(ChannelTooLarge)
    else if !(1 <= policy.minimumGeneration <= MAX_GENERATION) then Some(InvalidReleasePolicy)
    else
      var digest := w.sha256(raw);
      if !(a.state == PINNED_STATE || a.state == SIGNED_STATE) || a.size != |raw| || a.sha256 != digest then
        Some(ChannelAuthFailed)
      else if a.authMethod != policy.authenticationMethod then Some(ChannelAuthFailed)
      else if policy.authenticationMethod == PINNED then
        if a.state != PINNED_STATE || policy.expectedSha256.None? || !HexText(policy.expectedSha256.value, 64)
           || policy.expectedSha256.value != digest || a.keyId.Some? || a.scheme.Some?
        then Some(ChannelAuthFailed) else None
      else if policy.authenticationMethod == DETACHED then
        if a.state != SIGNED_STATE || a.keyId.None? || a.keyId.value !in policy.trustedKeyIds || a.scheme.None?
           || a.scheme.value !in policy.allowedSchemes
        then Some(ChannelAuthFailed) else None
      else Some(UnsupportedChannelAuthentication)
  }

  /** `parse_authenticated_channel` */
  function Parse(w: World, raw: Bytes, a: Authentication, policy: TrustPolicy): Result<AuthenticatedChannel, Code> {
    match CheckEvidence(w, raw, a, policy)
    case Some(code) => Err(code)
    case None =>
      match w.loads(raw)
      case None => Err(InvalidChannel)
      case Some(j) =>
        match Validate(j)
        case Err(code) => Err(code)
        case Ok(document) =>
          if document.generation < policy.minimumGeneration then Err(ChannelRollback)
          else Ok(AuthenticatedChannel(raw, document, a))
  }

  /** The evidence is about these bytes and of the kind the policy asks for. */
  ghost predicate EvidenceFits(w: World, raw: Bytes, a: Authentication, policy: TrustPolicy) {
    && |raw| <= policy.maxChannelBytes && a.size == |raw| && a.sha256 == w.sha256(raw)
    && a.authMethod == policy.authenticationMethod && 1 <= policy.minimumGeneration <= MAX_GENERATION
    && (|| (&& a.authMethod == "pinned_sha256" && a.state == "AUTHENTICATED_PINNED_DIGEST"
            && policy.expectedSha256 == Some(w.sha256(raw)) && HexText(w.sha256(raw), 64)
            && a.keyId.None? && a.scheme.None?)
        || (&& a.authMethod == "detached_signature" && a.state == "AUTHENTICATED_SIGNATURE"
            && a.keyId.Some? && a.keyId.value in policy.trustedKeyIds
            && a.scheme.Some? && a.scheme.value in policy.allowedSchemes))
  }

  /**
   A channel is parsed exactly when the evidence fits, the bytes decode to a valid channel, and its generation is at
   least the trusted minimum.
   */
  lemma ParseIff(w: World, raw: Bytes, a: Authentication, policy: TrustPolicy, ctx: AuthenticatedChannel)
    ensures Parse(w, raw, a, policy) == Ok(ctx) <==>
      && EvidenceFits(w, raw, a, policy) && ctx.raw == raw && ctx.authentication == a
      && w.loads(raw) == Some(ChannelJson(ctx.document)) && ChannelValid(ctx.document)
      && policy.minimumGeneration <= ctx.document.generation
  {
    hide ChannelJson, ChannelValid, Validate, HexText;
    EvidenceIff(w, raw, a, policy);
    hide CheckEvidence, EvidenceFits;
    if w.loads(raw).Some? { ValidateIff(w.loads(raw).value, ctx.document); }
  }

  lemma EvidenceIff(w: World, raw: Bytes, a: Authentication, policy: TrustPolicy)
    ensures CheckEvidence(w, raw, a, policy).None? <==> EvidenceFits(w, raw, a, policy)
  {
    hide HexText;
    assert PINNED != DETACHED by { assert PINNED[0] != DETACHED[0]; }
  }

  /** The policy a context is re-validated under. */
  function ContextPolicy(a: Authentication): Option<TrustPolicy> {
    if a.authMethod == PINNED then Some(TrustPolicy(PINNED, Some(a.sha256), {}, {}, 1, MAX_CHANNEL_BYTES))
    else if a.authMethod == DETACHED then
      Some(TrustPolicy(DETACHED, None,
                       if a.keyId.Some? && a.keyId.value != "" then {a.keyId.value} else {},
                       if a.scheme.Some? && a.scheme.value != "" then {a.scheme.value} else {},
                       1, MAX_CHANNEL_BYTES))
    else None
  }

  /** `_validated_context` */
  function ValidatedContext(w: World, ctx: AuthenticatedChannel): Result<Channel, Code> {
    match ContextPolicy(ctx.authentication)
    case None => Err(UnsupportedChannelAuthentication)
    case Some(policy) =>
      match Parse(w, ctx.raw, ctx.authentication, policy)
      case Err(code) => Err(code)
      case Ok(parsed) => if parsed.document != ctx.document then Err(ChannelAuthFailed) else Ok(parsed.document)
  }

  /** Evidence from `authenticate_channel` passes every evidence check under the policy that produced it. */
  lemma EvidenceAccepted(w: World, raw: Bytes, policy: TrustPolicy, descriptor: Json, verify: Option<Entry -> bool>)
    requires Authenticate(w, raw, policy, descriptor, verify).Ok?
    ensures var a := Authenticate(w, raw, policy, descriptor, verify).value;
      && (CheckEvidence(w, raw, a, policy).None? <==> 1 <= policy.minimumGeneration <= MAX_GENERATION)
      && a.sha256 == w.sha256(raw) && HexText(a.sha256, 64) && a.size == |raw|
      && (a.keyId.Some? ==> a.keyId.value != "") && (a.scheme.Some? ==> a.scheme.value != "")
  {
    hide EntryFieldsValid, Chosen, HexText;
    if policy.authenticationMethod == DETACHED {
      var d := ValidateDescriptor(w, descriptor).value;
      ChosenIsLeast(d.entries, policy.trustedKeyIds, policy.allowedSchemes, verify.value);
      var e := Chosen(d.entries, policy.trustedKeyIds, policy.allowedSchemes, verify.value).value;
      var items := descriptor.fields[SignatureList].items;
      assert e in d.entries;
      var i :| 0 <= i < |items| && e == EntryOf(w, items[i]);
      EntriesNonEmpty(w, items[i]);
    }
  }

  lemma EntriesNonEmpty(w: World, j: Json)
    requires EntryFieldsValid(w, j)
    ensures EntryOf(w, j).keyId != "" && EntryOf(w, j).scheme != ""
  {
  }

  /**
   A parsed context passes `_validated_context` exactly when its bytes fit the module's own limit and a
   signing key or scheme, when present, is not the empty text. Evidence from `authenticate_channel` always
   meets the second half; a policy limit above the module's limit breaks the first.
   */
  lemma ParsedContextRevalidates(w: World, raw: Bytes, a: Authentication, policy: TrustPolicy)
    requires Parse(w, raw, a, policy).Ok?
    ensures var ctx := Parse(w, raw, a, policy).value;
      ValidatedContext(w, ctx) == Ok(ctx.document) <==>
        && |raw| <= MAX_CHANNEL_BYTES
        && (a.authMethod == DETACHED ==> a.keyId != Some("") && a.scheme != Some(""))
  {
    ValidateIff(w.loads(raw).value, Parse(w, raw, a, policy).value.document);
  }

  const ZEROES := seq(64, _ => '0')

  /** A world in which every digest is the same and every document is a channel without releases. */
  function PlainWorld(): World { World(_ => ZEROES, _ => Some(ChannelJson(Channel(1, []))), _ => true) }

  lemma PlainChannelIsValid()
    ensures Validate(ChannelJson(Channel(1, []))) == Ok(Channel(1, []))
  {
    hide ChannelJson;
    ValidateIff(ChannelJson(Channel(1, [])), Channel(1, []));
  }

  /** A limit one byte above the module's: authenticated and parsed, but refused when it is re-validated. */
  lemma LooseLimitBreaksRevalidation() returns (raw: Bytes, policy: TrustPolicy)
    ensures var w := PlainWorld();
      && Authenticate(w, raw, policy, Null, None).Ok?
      && Parse(w, raw, Authenticate(w, raw, policy, Null, None).value, policy).Ok?
      && ValidatedContext(w, Parse(w, raw, Authenticate(w, raw, policy, Null, None).value, policy).value)
         == Err(ChannelTooLarge)
  {
    hide Validate, ChannelJson;
    PlainChannelIsValid();
    raw := seq(MAX_CHANNEL_BYTES + 1, _ => 0);
    policy := TrustPolicy(PINNED, Some(ZEROES), {}, {}, 1, MAX_CHANNEL_BYTES + 1);
  }

  /** Evidence that names the empty key: accepted under a policy that trusts it, refused when it is re-validated. */
  lemma EmptyKeyBreaksRevalidation() returns (a: Authentication, policy: TrustPolicy)
    ensures var w := PlainWorld();
      && a.keyId == Some("") && Parse(w, [], a, policy).Ok?
      && ValidatedContext(w, Parse(w, [], a, policy).value) == Err(ChannelAuthFailed)
  {
    hide Validate, ChannelJson;
    PlainChannelIsValid();
    a := Authentication(SIGNED_STATE, DETACHED, ZEROES, 0, Some(""), Some("scheme"));
    policy := TrustPolicy(DETACHED, None, {""}, {"scheme"}, 1, MAX_CHANNEL_BYTES);
  }

  /** A context that re-validates is bound to its bytes: its digest, its document, a valid channel. */
  lemma ContextBound(w: World, ctx: AuthenticatedChannel)
    requires ValidatedContext(w, ctx).Ok?
    ensures ctx.authentication.sha256 == w.sha256(ctx.raw) && |ctx.raw| <= MAX_CHANNEL_BYTES
    ensures w.loads(ctx.raw) == Some(ChannelJson(ctx.document)) && ChannelValid(ctx.document)
    ensures ValidatedContext(w, ctx).value == ctx.document
  {
    ValidateIff(w.loads(ctx.raw).value, ctx.document);
  }

  // ---------------------------------------------------------------- anti-rollback

  predicate HighWaterValid(h: HighWater) {
    1 <= h.generation <= MAX_GENERATION && HexText(h.sha256, 64)
  }

  /** `evaluate_high_water` */
  function EvaluateHighWater(w: World, ctx: AuthenticatedChannel, stored: Option<HighWater>): Result<HighWater, Code> {
    match ValidatedContext(w, ctx)
    case Err(code) => Err(code)
    case Ok(document) =>
      if stored.Some? && !HighWaterValid(stored.value) then Err(InvalidReleasePolicy)
      else
        var incoming := HighWater(document.generation, ctx.authentication.sha256);
        if stored.None? || incoming.generation > stored.value.generation then Ok(incoming)
        else if incoming.generation < stored.value.generation then Err(ChannelRollback)
        else if incoming.sha256 != stored.value.sha256 then Err(ChannelEquivocation)
        else Ok(stored.value)
  }

  /** `h` is at least as new as `g`, and the same record when the generations agree. */
  predicate Dominates(h: HighWater, g: HighWater) {
    g.generation < h.generation || g == h
  }

  /**
   What is accepted is the channel's own record and dominates what was stored; a channel is refused for its
   generation exactly when its record does not dominate the stored one.
   */
  lemma AcceptanceDominates(w: World, ctx: AuthenticatedChannel, stored: Option<HighWater>)
    requires ValidatedContext(w, ctx).Ok? && (stored.Some? ==> HighWaterValid(stored.value))
    ensures var incoming := HighWater(ctx.document.generation, ctx.authentication.sha256);
      && (EvaluateHighWater(w, ctx, stored).Ok? <==> (stored.Some? ==> Dominates(incoming, stored.value)))
      && (EvaluateHighWater(w, ctx, stored).Ok? ==> EvaluateHighWater(w, ctx, stored).value == incoming)
      && (EvaluateHighWater(w, ctx, stored) == Err(ChannelRollback) <==>
            stored.Some? && ctx.document.generation < stored.value.generation)
      && (EvaluateHighWater(w, ctx, stored) == Err(ChannelEquivocation) <==>
            stored.Some? && ctx.document.generation == stored.value.generation
            && ctx.authentication.sha256 != stored.value.sha256)
  {
    ContextBound(w, ctx);
  }

  /** Evaluating the same channel again, against what was just accepted, accepts it again. */
  lemma SecondEvaluationAccepts(w: World, ctx: AuthenticatedChannel, stored: Option<HighWater>)
    requires EvaluateHighWater(w, ctx, stored).Ok? && HexText(ctx.authentication.sha256, 64)
    ensures EvaluateHighWater(w, ctx, Some(EvaluateHighWater(w, ctx, stored).value))
            == EvaluateHighWater(w, ctx, stored)
  {
    ContextBound(w, ctx);
  }

  // ---------------------------------------------------------------- selection

  predicate FreshEligible(r: Release) { r.freshInstall }

  predicate UpgradeEligible(r: Release, current: string) {
    Less(VersionOf(current), VersionOf(r.productVersion)) && current in r.upgradeFrom
  }

  /** The last eligible release; `Ok(None)` is the outcome that no release is available. */
  function Pick(ctx: AuthenticatedChannel, document: Channel, p: Release -> bool, mode: string, current: Option<string>)
    : Option<SelectedRelease>
  {
    var eligible := Positions(document.releases, p);
    if eligible == [] then None
    else
      var i := eligible[|eligible| - 1];
      Some(SelectedRelease(ctx, i, document.releases[i], mode, current))
  }

  /** `select_fresh_install` */
  function SelectFreshInstall(w: World, ctx: AuthenticatedChannel, stored: Option<HighWater>)
    : Result<Option<SelectedRelease>, Code>
  {
    match EvaluateHighWater(w, ctx, stored)
    case Err(code) => Err(code)
    case Ok(_) =>
      match ValidatedContext(w, ctx)
      case Err(code) => Err(code)
      case Ok(document) => Ok(Pick(ctx, document, FreshEligible, "fresh_install", None))
  }

  /** `select_upgrade` */
  function SelectUpgrade(w: World, ctx: AuthenticatedChannel, current: string, stored: Option<HighWater>)
    : Result<Option<SelectedRelease>, Code>
  {
    match EvaluateHighWater(w, ctx, stored)
    case Err(code) => Err(code)
    case Ok(_) =>
      match ValidatedContext(w, ctx)
      case Err(code) => Err(code)
      case Ok(document) =>
        if !Parses(current) then Err(InvalidVersion)
        else Ok(Pick(ctx, document, (r: Release) => UpgradeEligible(r, current), "upgrade", Some(current)))
  }

  /** `r` is eligible and no eligible release is newer. */
  ghost predicate Greatest(releases: seq<Release>, p: Release -> bool, r: Release) {
    && r in releases && p(r)
    && forall x :: x in releases && p(x) ==> x == r || Less(VersionOf(x.productVersion), VersionOf(r.productVersion))
  }

  lemma PickIsGreatest(ctx: AuthenticatedChannel, document: Channel, p: Release -> bool, mode: string,
                       current: Option<string>)
    requires ChannelValid(document)
    ensures match Pick(ctx, document, p, mode, current)
      case None => forall x :: x in document.releases ==> !p(x)
      case Some(s) =>
        && 0 <= s.index < |document.releases| && s.release == document.releases[s.index]
        && Greatest(document.releases, p, s.release)
  {
    hide ReleaseValid, VersionOf;
    var eligible := Positions(document.releases, p);
    if eligible != [] {
      var last := eligible[|eligible| - 1];
      var r := document.releases[last];
      forall x | x in document.releases && p(x)
        ensures x == r || Less(VersionOf(x.productVersion), VersionOf(r.productVersion))
      {
        var i :| 0 <= i < |document.releases| && document.releases[i] == x;
        assert i in eligible;
        var k :| 0 <= k < |eligible| && eligible[k] == i;
      }
    }
  }

  /** The greatest eligible release has the greatest version number. */
  lemma GreatestIsNumeric(document: Channel, p: Release -> bool, r: Release, x: Release)
    requires ChannelValid(document) && Greatest(document.releases, p, r) && x in document.releases && p(x)
    ensures x == r || Weight(VersionOf(x.productVersion)) < Weight(VersionOf(r.productVersion))
  {
    hide Weight, Less, ParseChannelVersion;
    InRangeOf(document, x);
    InRangeOf(document, r);
    LessIsNumeric(VersionOf(x.productVersion), VersionOf(r.productVersion));
  }

  lemma InRangeOf(document: Channel, x: Release)
    requires ChannelValid(document) && x in document.releases
    ensures VersionOf(x.productVersion).InRange()
  {
    hide ParseChannelVersion;
    var i :| 0 <= i < |document.releases| && document.releases[i] == x;
    assert ReleaseValid(document.releases[i]);
    ChannelVersionIff(x.productVersion, VersionOf(x.productVersion));
  }

  /** Fresh installation takes the newest release open to it, and none exactly when there is none. */
  lemma FreshInstallPicksNewest(w: World, ctx: AuthenticatedChannel, stored: Option<HighWater>)
    requires SelectFreshInstall(w, ctx, stored).Ok?
    ensures match SelectFreshInstall(w, ctx, stored).value
      case None => forall x :: x in ctx.document.releases ==> !x.freshInstall
      case Some(s) => Greatest(ctx.document.releases, FreshEligible, s.release)
  {
    ContextBound(w, ctx);
    PickIsGreatest(ctx, ctx.document, FreshEligible, "fresh_install", None);
  }

  /** Listing a version as an upgrade source is listing its number, and it already makes the target newer. */
  lemma MembershipIsNumeric(r: Release, current: string)
    requires ReleaseValid(r) && Parses(current)
    ensures current in r.upgradeFrom <==> exists s :: s in r.upgradeFrom && VersionOf(s) == VersionOf(current)
    ensures UpgradeEligible(r, current) <==> current in r.upgradeFrom
  {
    forall s | s in r.upgradeFrom && VersionOf(s) == VersionOf(current) ensures s == current {
      var i :| 0 <= i < |r.upgradeFrom| && r.upgradeFrom[i] == s;
      assert Parses(r.upgradeFrom[i]);
      ParseInjective(s, current);
    }
    if current in r.upgradeFrom {
      var i :| 0 <= i < |r.upgradeFrom| && r.upgradeFrom[i] == current;
      assert Less(VersionOf(r.upgradeFrom[i]), VersionOf(r.productVersion));
    }
  }

  /** Upgrading takes the newest release that names the current version as a source, numerically. */
  lemma UpgradePicksNewest(w: World, ctx: AuthenticatedChannel, current: string, stored: Option<HighWater>)
    requires SelectUpgrade(w, ctx, current, stored).Ok?
    ensures Parses(current)
    ensures match SelectUpgrade(w, ctx, current, stored).value
      case None =>
        forall x, s :: x in ctx.document.releases && s in x.upgradeFrom ==> VersionOf(s) != VersionOf(current)
      case Some(sel) =>
        && Less(VersionOf(current), VersionOf(sel.release.productVersion))
        && Greatest(ctx.document.releases, (r: Release) => current in r.upgradeFrom, sel.release)
  {
    hide VersionOf, Less, ValidatedContext, EvaluateHighWater, ChannelValid, ChannelJson, Parses, Positions;
    ContextBound(w, ctx);
    var p := (r: Release) => UpgradeEligible(r, current);
    PickIsGreatest(ctx, ctx.document, p, "upgrade", Some(current));
    EligibleByNumber(ctx.document, current);
  }

  lemma EligibleByNumber(document: Channel, current: string)
    requires ChannelValid(document) && Parses(current)
    ensures forall x :: x in document.releases ==>
              && (UpgradeEligible(x, current) <==> current in x.upgradeFrom)
              && (forall s :: s in x.upgradeFrom && VersionOf(s) == VersionOf(current) ==> UpgradeEligible(x, current))
  {
    hide VersionOf, Less, ReleaseValid, Ascending, UpgradeEligible, Parses;
    forall x | x in document.releases
      ensures UpgradeEligible(x, current) <==> current in x.upgradeFrom
      ensures forall s :: s in x.upgradeFrom && VersionOf(s) == VersionOf(current) ==> UpgradeEligible(x, current)
    {
      var i :| 0 <= i < |document.releases| && document.releases[i] == x;
      assert ReleaseValid(document.releases[i]);
      MembershipIsNumeric(x, current);
    }
  }

  // ---------------------------------------------------------------- selected releases

  /** `validate_selected_release` */
  function ValidateSelected(w: World, s: SelectedRelease): Result<Release, Code> {
    match ValidatedContext(w, s.channel)
    case Err(code) => Err(code)
    case Ok(document) =>
      if !(0 <= s.index < |document.releases|) || document.releases[s.index] != s.release then
        Err(SelectedReleaseDetached)
      else
        var r := s.release;
        if s.selectionMode == "fresh_install" then
          if s.currentVersion.Some? || !r.freshInstall then Err(SelectedReleaseDetached) else Ok(r)
        else if s.selectionMode == "upgrade" then
          if s.currentVersion.None? || !Parses(s.currentVersion.value) || !UpgradeEligible(r, s.currentVersion.value)
          then Err(SelectedReleaseDetached) else Ok(r)
        else Err(SelectedReleaseDetached)
  }

  /**
   A selection is valid exactly when its context re-validates, the release stands at its index, and it is open to fresh
   installation or lists the current version as an upgrade source.
   */
  lemma SelectedIff(w: World, s: SelectedRelease, r: Release)
    ensures ValidateSelected(w, s) == Ok(r) <==>
      && ValidatedContext(w, s.channel).Ok? && s.release == r
      && 0 <= s.index < |s.channel.document.releases| && s.channel.document.releases[s.index] == r
      && (|| (s.selectionMode == "fresh_install" && s.currentVersion.None? && r.freshInstall)
          || (s.selectionMode == "upgrade" && s.currentVersion.Some? && Parses(s.currentVersion.value)
              && s.currentVersion.value in r.upgradeFrom))
  {
    hide ValidatedContext, ChannelJson, ReleaseValid, Parses, UpgradeEligible, VersionOf;
    var first, second := "fresh_install", "upgrade";
    assert first[0] != second[0];
    if ValidatedContext(w, s.channel).Ok? {
      ContextBound(w, s.channel);
      var document := s.channel.document;
      if 0 <= s.index < |document.releases| && s.currentVersion.Some? && Parses(s.currentVersion.value) {
        assert ReleaseValid(document.releases[s.index]);
        MembershipIsNumeric(document.releases[s.index], s.currentVersion.value);
      }
    }
  }

  /** Every release a fresh-install selection returns passes its own validation. */
  lemma FreshSelectionValidates(w: World, ctx: AuthenticatedChannel, stored: Option<HighWater>)
    requires SelectFreshInstall(w, ctx, stored).Ok? && SelectFreshInstall(w, ctx, stored).value.Some?
    ensures var s := SelectFreshInstall(w, ctx, stored).value.value;
      s.channel == ctx && ValidateSelected(w, s) == Ok(s.release)
  {
    hide ValidatedContext, EvaluateHighWater, ChannelValid, Positions;
    ContextBound(w, ctx);
    PickIsGreatest(ctx, ctx.document, FreshEligible, "fresh_install", None);
  }

  /** So does every release an upgrade selection returns. */
  lemma UpgradeSelectionValidates(w: World, ctx: AuthenticatedChannel, current: string, stored: Option<HighWater>)
    requires SelectUpgrade(w, ctx, current, stored).Ok? && SelectUpgrade(w, ctx, current, stored).value.Some?
    ensures var s := SelectUpgrade(w, ctx, current, stored).value.value;
      s.channel == ctx && ValidateSelected(w, s) == Ok(s.release)
  {
    hide ValidatedContext, EvaluateHighWater, ChannelValid, Positions, UpgradeEligible, Parses;
    ContextBound(w, ctx);
    PickIsGreatest(ctx, ctx.document, (r: Release) => UpgradeEligible(r, current), "upgrade", Some(current));
  }

  /**
   Authentication, parsing and re-validation fit together: under a policy no looser than the module's byte
   limit, a context parsed from authenticated bytes always re-validates.
   */
  lemma AuthenticatedContextsRevalidate(w: World, raw: Bytes, policy: TrustPolicy, descriptor: Json,
                                        verify: Option<Entry -> bool>)
    requires policy.maxChannelBytes <= MAX_CHANNEL_BYTES && Authenticate(w, raw, policy, descriptor, verify).Ok?
    requires Parse(w, raw, Authenticate(w, raw, policy, descriptor, verify).value, policy).Ok?
    ensures var ctx := Parse(w, raw, Authenticate(w, raw, policy, descriptor, verify).value, policy).value;
      ValidatedContext(w, ctx) == Ok(ctx.document) && HexText(ctx.authentication.sha256, 64)
  {
    EvidenceAccepted(w, raw, policy, descriptor, verify);
    ParsedContextRevalidates(w, raw, Authenticate(w, raw, policy, descriptor, verify).value, policy);
  }
}
