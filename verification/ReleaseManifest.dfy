/** Manifests bound to the bytes that were authenticated, and the one artifact chosen from them. */
module ReleaseManifest {
  import opened Options
  import opened Bytes
  import opened ChannelFormat
  import opened Signatures
  import opened Sorting
  import Channel = ReleaseChannel

  datatype Code =
    | ManifestTooLarge | ManifestAuthFailed | UnsupportedAuthentication | InvalidManifest | VersionMismatch
    | SourceCommitMismatch | NoMatchingArtifact | AmbiguousArtifact

  datatype Artifact = Artifact(
    id: string, artifactType: string, filename: string, platform: string, architecture: string, role: string,
    productVersion: string, size: nat, sha256: string)

  datatype Manifest = Manifest(productVersion: string, sourceCommit: string, artifacts: seq<Artifact>)

  /** The digest, decoding plus validation of manifest bytes, the file-name test and the sorted dump are arbitrary. */
  datatype World = World(
    sha256: Digest, decode: Bytes -> Option<Manifest>, safeFilename: string -> bool, dumps: Json -> string)

  datatype AuthMethod =
    | Pinned(expected: Option<string>)
    | Detached(keys: set<string>, schemes: set<string>)
    | OtherMethod

  datatype TrustPolicy = TrustPolicy(authMethod: AuthMethod, maxBytes: int)

  datatype Authentication = ByDigest(sha256: string, size: nat) | BySignature(sha256: string, size: nat, keyId: string)

  datatype AuthenticatedManifest = AuthenticatedManifest(raw: Bytes, document: Manifest, authentication: Authentication)

  datatype SelectedArtifact = SelectedArtifact(manifest: AuthenticatedManifest, index: int, artifact: Artifact)

  // ---------------------------------------------------------------- authentication

  const DESCRIPTOR_FIELDS := {SchemaVersion, ManifestFilename, ManifestSizeBytes, ManifestSha256, SignatureList}

  predicate NamedToken(j: Json, k: Key) { j.Obj? && k in j.fields && Channel.TokenField(j.fields[k]) }

  /** A signature entry; unlike a channel's, it may have members besides these three. */
  predicate EntryFieldsValid(w: World, j: Json) {
    && NamedToken(j, Scheme) && NamedToken(j, KeyId) && NamedToken(j, SignatureFilename)
    && w.safeFilename(j.fields[SignatureFilename].s)
  }

  function EntryOf(w: World, j: Json): Entry {
    if EntryFieldsValid(w, j) then
      Entry(j.fields[KeyId].s, j.fields[Scheme].s, j.fields[SignatureFilename].s, w.dumps(j))
    else Entry("", "", "", "")
  }

  /** The checks on a detached descriptor up to the choice of a signature. */
  function CheckDescriptor(w: World, raw: Bytes, maxBytes: int, j: Json): Result<seq<Entry>, Code> {
    if !j.Obj? || j.fields.Keys != DESCRIPTOR_FIELDS || j.fields[SchemaVersion] != Int(1)
       || j.fields[ManifestFilename] != Str(MANIFEST_FILENAME)
    then Err(UnsupportedAuthentication)
    else
      var size, digest, list := j.fields[ManifestSizeBytes], j.fields[ManifestSha256], j.fields[SignatureList];
      if !size.Int? || !(1 <= size.i <= maxBytes) || size.i != |raw| || !HexField(digest, 64)
          || digest.s != w.sha256(raw)
      then Err(ManifestAuthFailed)
      else if !list.Arr? || !(1 <= |list.items| <= 16) || !All(list.items, e => EntryFieldsValid(w, e)) then
        Err(UnsupportedAuthentication)
      else Ok(Map(list.items, e => EntryOf(w, e)))
  }

  /** `authenticate_manifest`; without a descriptor its document is null. */
  function Authenticate(w: World, raw: Bytes, policy: TrustPolicy, descriptor: Json, verify: Option<Entry -> bool>)
    : Result<Authentication, Code>
  {
    var digest := w.sha256(raw);
    if |raw| > policy.maxBytes then Err(ManifestTooLarge)
    else
      match policy.authMethod
      case Pinned(expected) =>
        if expected.None? || !HexText(expected.value, 64) || digest != expected.value then Err(ManifestAuthFailed)
        else Ok(ByDigest(digest, |raw|))
      case Detached(keys, schemes) => AuthenticateDetached(w, raw, policy.maxBytes, keys, schemes, descriptor, verify)
      case OtherMethod => Err(UnsupportedAuthentication)
  }

  function AuthenticateDetached(w: World, raw: Bytes, maxBytes: int, keys: set<string>, schemes: set<string>,
                                descriptor: Json, verify: Option<Entry -> bool>): Result<Authentication, Code>
  {
    match CheckDescriptor(w, raw, maxBytes, descriptor)
    case Err(code) => Err(code)
    case Ok(entries) =>
      if Eligible(entries, keys, schemes) == [] || verify.None? then Err(UnsupportedAuthentication)
      else
        match Chosen(entries, keys, schemes, verify.value)
        case None => Err(ManifestAuthFailed)
        case Some(e) => Ok(BySignature(w.sha256(raw), |raw|, e.keyId))
  }

  /** Relisting the signatures changes neither the checks nor which entries there are. */
  lemma DescriptorRelisted(w: World, raw: Bytes, maxBytes: int, a: Json, b: Json)
    requires Channel.Relisted(a, b)
    ensures match CheckDescriptor(w, raw, maxBytes, a)
      case Err(code) => CheckDescriptor(w, raw, maxBytes, b) == Err(code)
      case Ok(entries) =>
        && CheckDescriptor(w, raw, maxBytes, b).Ok?
        && multiset(entries) == multiset(CheckDescriptor(w, raw, maxBytes, b).value)
  {
    hide EntryFieldsValid, EntryOf, HexField;
    var xs, ys := a.fields[SignatureList].items, b.fields[SignatureList].items;
    assert a.fields.Keys == b.fields.Keys;
    SameLength(xs, ys);
    MapPermutes(xs, ys, e => EntryOf(w, e));
    AllPermutes(xs, ys, e => EntryFieldsValid(w, e));
  }

  /** With a deterministic verifier the order in which signatures are listed does not matter, for errors either. */
  lemma AuthenticationForgetsOrder(w: World, raw: Bytes, policy: TrustPolicy, a: Json, b: Json,
                                   verify: Option<Entry -> bool>)
    requires Channel.Relisted(a, b)
    ensures Authenticate(w, raw, policy, a, verify) == Authenticate(w, raw, policy, b, verify)
  {
    hide CheckDescriptor, Eligible, Chosen;
    if policy.authMethod.Detached? {
      DescriptorRelisted(w, raw, policy.maxBytes, a, b);
      var x := CheckDescriptor(w, raw, policy.maxBytes, a);
      if x.Ok? {
        var y := CheckDescriptor(w, raw, policy.maxBytes, b).value;
        if verify.Some? {
          ChosenForgetsOrder(x.value, y, policy.authMethod.keys, policy.authMethod.schemes, verify.value);
        }
      }
    }
  }

  // ---------------------------------------------------------------- what evidence rests on

  /** A descriptor of exactly these bytes, with these signature entries. */
  ghost predicate DescribesBytes(w: World, raw: Bytes, maxBytes: int, descriptor: Json, items: seq<Json>) {
    && descriptor == Obj(map[SchemaVersion := Int(1), ManifestFilename := Str("SYNVEIL-RELEASE-MANIFEST.json"),
                             ManifestSizeBytes := Int(|raw|), ManifestSha256 := Str(w.sha256(raw)),
                             SignatureList := Arr(items)])
    && 1 <= |raw| <= maxBytes && HexText(w.sha256(raw), 64) && 1 <= |items| <= 16
    && (forall i :: 0 <= i < |items| ==> EntryFieldsValid(w, items[i]))
  }

  /** The entry says so. */
  predicate Names(j: Json, key: string, scheme: string, file: string) {
    && j.Obj? && KeyId in j.fields && j.fields[KeyId] == Str(key)
    && Scheme in j.fields && j.fields[Scheme] == Str(scheme)
    && SignatureFilename in j.fields && j.fields[SignatureFilename] == Str(file)
  }

  /** The descriptor describes the bytes, and the verifier vouches for one of its trusted entries. */
  ghost predicate SignedBy(w: World, raw: Bytes, maxBytes: int, descriptor: Json, keys: set<string>,
                           schemes: set<string>, verify: Option<Entry -> bool>, key: string)
  {
    exists items, i, scheme, file ::
      && DescribesBytes(w, raw, maxBytes, descriptor, items) && 0 <= i < |items| && Names(items[i], key, scheme, file)
      && key in keys && scheme in schemes && verify.Some?
      && verify.value(Entry(key, scheme, file, w.dumps(items[i])))
  }

  lemma DescriptorReads(w: World, raw: Bytes, maxBytes: int, j: Json, items: seq<Json>)
    requires DescribesBytes(w, raw, maxBytes, j, items)
    ensures CheckDescriptor(w, raw, maxBytes, j) == Ok(Map(items, e => EntryOf(w, e)))
  {
    hide EntryFieldsValid, EntryOf, HexText;
    assert j.fields.Keys == DESCRIPTOR_FIELDS;
    assert j.fields[SignatureList].items == items;
  }

  lemma CheckedDescribes(w: World, raw: Bytes, maxBytes: int, j: Json)
    requires CheckDescriptor(w, raw, maxBytes, j).Ok?
    ensures exists items :: DescribesBytes(w, raw, maxBytes, j, items)
  {
    hide EntryFieldsValid, EntryOf, HexText;
    var items := j.fields[SignatureList].items;
    var f := map[SchemaVersion := Int(1), ManifestFilename := Str("SYNVEIL-RELEASE-MANIFEST.json"),
                 ManifestSizeBytes := Int(|raw|), ManifestSha256 := Str(w.sha256(raw)), SignatureList := Arr(items)];
    assert j.fields == f;
    assert DescribesBytes(w, raw, maxBytes, j, items);
  }

  lemma EntryNames(w: World, j: Json)
    requires EntryFieldsValid(w, j)
    ensures var e := EntryOf(w, j); Names(j, e.keyId, e.scheme, e.signatureFilename) && e.canonical == w.dumps(j)
    ensures forall key, scheme, file :: Names(j, key, scheme, file) ==>
              EntryOf(w, j) == Entry(key, scheme, file, w.dumps(j))
  {
    hide Channel.Token;
  }

  /**
   Under detached signatures a manifest authenticates exactly when it fits the limit, the descriptor describes its
   bytes, and the verifier vouches for one of the entries with a trusted key and an allowed scheme; the evidence names
   its key.
   */
  lemma SignedIff(w: World, raw: Bytes, policy: TrustPolicy, descriptor: Json, verify: Option<Entry -> bool>)
    requires policy.authMethod.Detached?
    ensures var r := Authenticate(w, raw, policy, descriptor, verify);
      var keys, schemes := policy.authMethod.keys, policy.authMethod.schemes;
      && (r.Ok? <==> exists key :: SignedBy(w, raw, policy.maxBytes, descriptor, keys, schemes, verify, key))
      && (r.Ok? ==>
            && r.value.BySignature? && r.value == BySignature(w.sha256(raw), |raw|, r.value.keyId)
            && SignedBy(w, raw, policy.maxBytes, descriptor, keys, schemes, verify, r.value.keyId))
  {
    hide CheckDescriptor, DescribesBytes, Chosen, Eligible, SignedBy;
    var r := Authenticate(w, raw, policy, descriptor, verify);
    var keys, schemes := policy.authMethod.keys, policy.authMethod.schemes;
    if r.Ok? { AcceptedIsSigned(w, raw, policy, descriptor, verify); }
    if key :| SignedBy(w, raw, policy.maxBytes, descriptor, keys, schemes, verify, key) {
      SignedIsAccepted(w, raw, policy, descriptor, verify, key);
    }
  }

  lemma AcceptedIsSigned(w: World, raw: Bytes, policy: TrustPolicy, descriptor: Json, verify: Option<Entry -> bool>)
    requires policy.authMethod.Detached? && Authenticate(w, raw, policy, descriptor, verify).Ok?
    ensures var a := Authenticate(w, raw, policy, descriptor, verify).value;
      && a.BySignature? && a == BySignature(w.sha256(raw), |raw|, a.keyId)
      && SignedBy(w, raw, policy.maxBytes, descriptor, policy.authMethod.keys, policy.authMethod.schemes, verify,
                  a.keyId)
  {
    hide CheckDescriptor, EntryFieldsValid, EntryOf, Chosen, Eligible, Names;
    CheckedDescribes(w, raw, policy.maxBytes, descriptor);
    var items :| DescribesBytes(w, raw, policy.maxBytes, descriptor, items);
    DescriptorReads(w, raw, policy.maxBytes, descriptor, items);
    var entries := Map(items, e => EntryOf(w, e));
    ChosenIsLeast(entries, policy.authMethod.keys, policy.authMethod.schemes, verify.value);
    var e := Chosen(entries, policy.authMethod.keys, policy.authMethod.schemes, verify.value).value;
    var i :| 0 <= i < |entries| && entries[i] == e;
    EntryNames(w, items[i]);
    assert Names(items[i], e.keyId, e.scheme, e.signatureFilename);
    assert e == Entry(e.keyId, e.scheme, e.signatureFilename, w.dumps(items[i]));
  }

  lemma SignedIsAccepted(w: World, raw: Bytes, policy: TrustPolicy, descriptor: Json, verify: Option<Entry -> bool>,
                         key: string)
    requires policy.authMethod.Detached?
    requires SignedBy(w, raw, policy.maxBytes, descriptor, policy.authMethod.keys, policy.authMethod.schemes, verify,
                      key)
    ensures Authenticate(w, raw, policy, descriptor, verify).Ok?
  {
    hide CheckDescriptor, EntryFieldsValid, EntryOf, Chosen, Eligible, Names;
    var items, i, scheme, file :|
      && DescribesBytes(w, raw, policy.maxBytes, descriptor, items)
      && 0 <= i < |items| && Names(items[i], key, scheme, file)
      && key in policy.authMethod.keys && scheme in policy.authMethod.schemes && verify.Some?
      && verify.value(Entry(key, scheme, file, w.dumps(items[i])));
    DescriptorReads(w, raw, policy.maxBytes, descriptor, items);
    var entries := Map(items, e => EntryOf(w, e));
    EntryNames(w, items[i]);
    assert entries[i] == Entry(key, scheme, file, w.dumps(items[i]));
    ChosenIsLeast(entries, policy.authMethod.keys, policy.authMethod.schemes, verify.value);
    Channel.TrustedIsEligible(entries, policy.authMethod.keys, policy.authMethod.schemes, entries[i]);
  }

  /** Under a pin a manifest authenticates exactly when it fits the limit and has that digest. */
  lemma PinnedIff(w: World, raw: Bytes, policy: TrustPolicy, descriptor: Json, verify: Option<Entry -> bool>)
    requires policy.authMethod.Pinned?
    ensures Authenticate(w, raw, policy, descriptor, verify).Ok? <==>
      |raw| <= policy.maxBytes && policy.authMethod.expected == Some(w.sha256(raw)) && HexText(w.sha256(raw), 64)
  {
  }

  // ---------------------------------------------------------------- contexts

  predicate Bound(w: World, raw: Bytes, a: Authentication) {
    a.size == |raw| && a.sha256 == w.sha256(raw)
  }

  /** `parse_authenticated_manifest` */
  function Parse(w: World, raw: Bytes, a: Authentication, version: Option<string>, commit: Option<string>)
    : Result<AuthenticatedManifest, Code>
  {
    if !Bound(w, raw, a) then Err(ManifestAuthFailed)
    else
      match w.decode(raw)
      case None => Err(InvalidManifest)
      case Some(document) =>
        if version.Some? && document.productVersion != version.value then Err(VersionMismatch)
        else if commit.Some? && document.sourceCommit != commit.value then Err(SourceCommitMismatch)
        else Ok(AuthenticatedManifest(raw, document, a))
  }

  /** `_validate_context` */
  function ValidateContext(w: World, ctx: AuthenticatedManifest): Result<Manifest, Code> {
    if !Bound(w, ctx.raw, ctx.authentication) then Err(ManifestAuthFailed)
    else
      match w.decode(ctx.raw)
      case None => Err(InvalidManifest)
      case Some(document) => if document != ctx.document then Err(ManifestAuthFailed) else Ok(document)
  }

  // ---------------------------------------------------------------- the artifact

  datatype Identity = Identity(platform: string, architecture: string, artifactType: string, role: string,
                               version: string)

  predicate HasIdentity(a: Artifact, id: Identity) {
    Identity(a.platform, a.architecture, a.artifactType, a.role, a.productVersion) == id
  }

  /** Positions of the artifacts with the requested identity. */
  function Matches(artifacts: seq<Artifact>, id: Identity): seq<nat> {
    Positions(artifacts, (a: Artifact) => HasIdentity(a, id))
  }

  /** `select_artifact`, for a platform and architecture already in canonical form. */
  function Select(w: World, ctx: AuthenticatedManifest, id: Identity): Result<SelectedArtifact, Code> {
    match ValidateContext(w, ctx)
    case Err(code) => Err(code)
    case Ok(manifest) =>
      if manifest.productVersion != id.version then Err(VersionMismatch)
      else
        var matches := Matches(manifest.artifacts, id);
        if matches == [] then Err(NoMatchingArtifact)
        else if |matches| != 1 then Err(AmbiguousArtifact)
        else Ok(SelectedArtifact(ctx, matches[0], manifest.artifacts[matches[0]]))
  }

  ghost predicate OnlyMatch(artifacts: seq<Artifact>, id: Identity, i: int) {
    && 0 <= i < |artifacts| && HasIdentity(artifacts[i], id)
    && forall j :: 0 <= j < |artifacts| && HasIdentity(artifacts[j], id) ==> j == i
  }

  /** In an authenticated context of the right version, selection succeeds exactly when one artifact matches. */
  lemma SelectsTheOnlyMatch(w: World, ctx: AuthenticatedManifest, id: Identity)
    requires ValidateContext(w, ctx).Ok? && ctx.document.productVersion == id.version
    ensures Select(w, ctx, id).Ok? <==> exists i :: OnlyMatch(ctx.document.artifacts, id, i)
    ensures Select(w, ctx, id).Ok? ==>
              var s := Select(w, ctx, id).value;
              OnlyMatch(ctx.document.artifacts, id, s.index) && s.artifact == ctx.document.artifacts[s.index]
  {
    var artifacts := ctx.document.artifacts;
    var matches := Matches(artifacts, id);
    assert |matches| > 1 ==> matches[0] < matches[1];
    if |matches| == 1 {
      forall j | 0 <= j < |artifacts| && HasIdentity(artifacts[j], id) ensures j == matches[0] {
        assert j in matches;
      }
      assert OnlyMatch(artifacts, id, matches[0]);
    }
    if i :| OnlyMatch(artifacts, id, i) {
      assert i in matches && forall k :: 0 <= k < |matches| ==> matches[k] == i;
    }
  }

  /** `_validate_selection`; a negative index counts from the end, as the language does. */
  function ValidateSelection(w: World, s: SelectedArtifact): Result<Artifact, Code> {
    match ValidateContext(w, s.manifest)
    case Err(code) => Err(code)
    case Ok(manifest) =>
      var n := |manifest.artifacts|;
      var i := if s.index < 0 then s.index + n else s.index;
      if !(0 <= i < n) || manifest.artifacts[i] != s.artifact then Err(ManifestAuthFailed) else Ok(s.artifact)
  }

  /** A selection is valid exactly when its context is, and the artifact stands at its index or as far from the end. */
  lemma SelectionIff(w: World, s: SelectedArtifact, a: Artifact)
    ensures ValidateSelection(w, s) == Ok(a) <==>
      && ValidateContext(w, s.manifest).Ok? && s.artifact == a
      && var artifacts := s.manifest.document.artifacts;
         || (0 <= s.index < |artifacts| && artifacts[s.index] == a)
         || (-|artifacts| <= s.index < 0 && artifacts[|artifacts| + s.index] == a)
  {
  }

  /** A context is valid exactly when its evidence is about its bytes and they decode to its document. */
  lemma ContextIff(w: World, ctx: AuthenticatedManifest)
    ensures ValidateContext(w, ctx).Ok? <==>
      && ctx.authentication.size == |ctx.raw| && ctx.authentication.sha256 == w.sha256(ctx.raw)
      && w.decode(ctx.raw) == Some(ctx.document)
    ensures ValidateContext(w, ctx).Ok? ==> ValidateContext(w, ctx).value == ctx.document
  {
  }
}
