/**
 The quick installer's acquisition: authenticated channel, anti-rollback, release, bound manifest, artifact and
 staged bytes, each step trusting only what the one before it authenticated.
 */
module Acquire {
  import opened Options
  import opened Bytes
  import opened Staging
  import Format = ChannelFormat
  import Channel = ReleaseChannel
  import Manifest = ReleaseManifest
  import Signatures

  datatype World = World(
    sha256: Digest, loads: Bytes -> Option<Format.Json>, safeFilename: string -> bool,
    decode: Bytes -> Option<Manifest.Manifest>, dumps: Format.Json -> string)
  {
    function ForChannel(): Channel.World { Channel.World(sha256, loads, safeFilename) }
    function ForManifest(): Manifest.World { Manifest.World(sha256, decode, safeFilename, dumps) }
  }

  datatype Failure =
    | NetworkError
    | ResponseTooLarge
    | ChannelError(channel: Format.Code)
    | StateNotKept
    | NoReleaseAvailable
    | ManifestBindingMismatch
    | ManifestError(manifest: Manifest.Code)
    | StagingFailure(staging: Code)

  /** Keys and the one scheme of a trust policy file; without one the channel digest is pinned. */
  datatype Trust = Trust(keys: set<string>, scheme: string)

  datatype Arguments = Arguments(pin: Option<string>, trust: Option<Trust>, minimumGeneration: int,
                                 artifactType: string)

  /** Keeping the record may fail before or after the file was replaced. */
  datatype Keeping = Kept | FailsBefore | FailsAfter

  /**
   Whatever the servers answer, the disk does and other stagers put into the directory meanwhile. `verify` stands for
   the fetched signatures under the trusted keys; `earlier` appears before the last look at the destination, `later`
   only before the link.
   */
  datatype Answers = Answers(
    channel: Option<Bytes>, descriptor: Option<Bytes>, verify: Option<Signatures.Entry -> bool>, keeping: Keeping,
    manifest: Option<Bytes>, artifact: Option<Bytes>, earlier: map<string, Bytes>, later: map<string, Bytes>)

  datatype Package = Package(filename: string, content: Bytes, version: string, downloaded: bool)

  // ---------------------------------------------------------------- the steps

  /** `fetch_https` */
  function Fetch(answer: Option<Bytes>, limit: nat): Result<Bytes, Failure> {
    if answer.None? then Err(NetworkError)
    else if |answer.value| > limit then Err(ResponseTooLarge)
    else Ok(answer.value)
  }

  function PolicyOf(args: Arguments): Channel.TrustPolicy {
    match args.trust
    case None =>
      Channel.TrustPolicy(Channel.PINNED, args.pin, {}, {}, args.minimumGeneration, Channel.MAX_CHANNEL_BYTES)
    case Some(t) =>
      Channel.TrustPolicy(Channel.DETACHED, None, t.keys, {t.scheme}, args.minimumGeneration, Channel.MAX_CHANNEL_BYTES)
  }

  /** The descriptor a trust policy asks for, already validated once when it was fetched. */
  function FetchDescriptor(w: World, args: Arguments, answers: Answers): Result<Format.Json, Failure> {
    if args.trust.None? then Ok(Format.Null)
    else
      match Fetch(answers.descriptor, Channel.MAX_CHANNEL_BYTES)
      case Err(e) => Err(e)
      case Ok(raw) =>
        match w.loads(raw)
        case None => Err(ChannelError(Format.InvalidChannel))
        case Some(j) =>
          if Channel.ValidateDescriptor(w.ForChannel(), j).Err? then
            Err(ChannelError(Channel.ValidateDescriptor(w.ForChannel(), j).error))
          else if answers.verify.None? then Err(NetworkError)
          else Ok(j)
  }

  function OpenChannel(w: World, args: Arguments, answers: Answers): Result<Channel.AuthenticatedChannel, Failure> {
    match Fetch(answers.channel, Channel.MAX_CHANNEL_BYTES)
    case Err(e) => Err(e)
    case Ok(raw) =>
      match FetchDescriptor(w, args, answers)
      case Err(e) => Err(e)
      case Ok(descriptor) =>
        match Channel.Authenticate(w.ForChannel(), raw, PolicyOf(args), descriptor, answers.verify)
        case Err(code) => Err(ChannelError(code))
        case Ok(evidence) =>
          match Channel.Parse(w.ForChannel(), raw, evidence, PolicyOf(args))
          case Err(code) => Err(ChannelError(code))
          case Ok(ctx) => Ok(ctx)
  }

  function ChooseRelease(w: World, ctx: Channel.AuthenticatedChannel, accepted: Channel.HighWater)
    : Result<Format.Release, Failure>
  {
    match Channel.SelectFreshInstall(w.ForChannel(), ctx, Some(accepted))
    case Err(code) => Err(ChannelError(code))
    case Ok(None) => Err(NoReleaseAvailable)
    case Ok(Some(selected)) =>
      match Channel.ValidateSelected(w.ForChannel(), selected)
      case Err(code) => Err(ChannelError(code))
      case Ok(release) => Ok(release)
  }

  /** `authenticate_selected_manifest`, on a release that has been validated. */
  function OpenManifest(w: World, release: Format.Release, answers: Answers)
    : Result<Manifest.AuthenticatedManifest, Failure>
  {
    match Fetch(answers.manifest, Format.MAX_MANIFEST_BYTES)
    case Err(e) => Err(e)
    case Ok(raw) =>
      if |raw| != release.manifestSize then Err(ManifestBindingMismatch)
      else
        var policy := Manifest.TrustPolicy(Manifest.Pinned(Some(release.manifestSha256)), Format.MAX_MANIFEST_BYTES);
        match Manifest.Authenticate(w.ForManifest(), raw, policy, Format.Null, None)
        case Err(_) => Err(ManifestBindingMismatch)
        case Ok(evidence) =>
          match Manifest.Parse(w.ForManifest(), raw, evidence, Some(release.productVersion), Some(release.sourceCommit))
          case Err(_) => Err(ManifestBindingMismatch)
          case Ok(ctx) => Ok(ctx)
  }

  function IdentityFor(args: Arguments, version: string): Manifest.Identity {
    Manifest.Identity("linux", "x86_64", args.artifactType, "native_package", version)
  }

  function ChooseArtifact(w: World, args: Arguments, release: Format.Release, answers: Answers)
    : Result<Manifest.SelectedArtifact, Failure>
  {
    match OpenManifest(w, release, answers)
    case Err(e) => Err(e)
    case Ok(ctx) =>
      match Manifest.Select(w.ForManifest(), ctx, IdentityFor(args, release.productVersion))
      case Err(code) => Err(ManifestError(code))
      case Ok(selection) => Ok(selection)
  }

  /** Others only ever add files under names that are free. */
  function Joined(files: map<string, Bytes>, others: map<string, Bytes>): map<string, Bytes> { others + files }

  /** A destination that exists is kept when it matches and refused otherwise. */
  function Existing(w: World, a: Manifest.Artifact, files: map<string, Bytes>): Result<Package, Failure>
    requires a.filename in files
  {
    if Fits(w.sha256, files[a.filename], a.size, a.sha256) then
      Ok(Package(a.filename, files[a.filename], a.productVersion, false))
    else Err(StagingFailure(DestinationConflict))
  }

  /** What the copy loop says about the artifact's stream. */
  function Copied(w: World, a: Manifest.Artifact, stream: Bytes): Option<Code> {
    if |stream| > a.size then Some(ArtifactTooLarge)
    else if |stream| < a.size then Some(ArtifactTruncated)
    else if w.sha256(stream) != a.sha256 then Some(ArtifactDigestMismatch)
    else None
  }

  /** `download_artifact`: the outcome and the directory it leaves. */
  function Download(w: World, selection: Manifest.SelectedArtifact, files: map<string, Bytes>, answers: Answers)
    : (Result<Package, Failure>, map<string, Bytes>)
  {
    match Manifest.ValidateSelection(w.ForManifest(), selection)
    case Err(code) => (Err(ManifestError(code)), files)
    case Ok(a) =>
      if a.filename in files then (Existing(w, a, files), files)
      else if answers.artifact.None? then (Err(NetworkError), files)
      else
        var seen := Joined(files, answers.earlier);
        if a.filename in seen then (Existing(w, a, seen), seen)
        else if Copied(w, a, answers.artifact.value).Some? then
          (Err(StagingFailure(Copied(w, a, answers.artifact.value).value)), seen)
        else
          var met := Joined(seen, answers.later);
          if a.filename in met then (Err(StagingFailure(DestinationConflict)), met)
          else
            (Ok(Package(a.filename, answers.artifact.value, a.productVersion, true)),
             met[a.filename := answers.artifact.value])
  }

  // ---------------------------------------------------------------- one whole run

  /** The record the run accepts, if it gets that far; what is stored already needs no writing. */
  function Accepted(w: World, args: Arguments, answers: Answers, stored: Option<Channel.HighWater>)
    : Option<Channel.HighWater>
  {
    match OpenChannel(w, args, answers)
    case Err(_) => None
    case Ok(ctx) =>
      match Channel.EvaluateHighWater(w.ForChannel(), ctx, stored)
      case Err(_) => None
      case Ok(h) => if stored == Some(h) || answers.keeping.Kept? then Some(h) else None
  }

  /** What a run reports, and the record and the directory it leaves. */
  datatype Installation = Installation(
    result: Result<Package, Failure>, record: Option<Channel.HighWater>, files: map<string, Bytes>)

  function Run(w: World, args: Arguments, answers: Answers, stored: Option<Channel.HighWater>,
               files: map<string, Bytes>)
    : Installation
  {
    match OpenChannel(w, args, answers)
    case Err(e) => Installation(Err(e), stored, files)
    case Ok(ctx) =>
      match Channel.EvaluateHighWater(w.ForChannel(), ctx, stored)
      case Err(code) => Installation(Err(ChannelError(code)), stored, files)
      case Ok(h) =>
        if stored != Some(h) && !answers.keeping.Kept? then
          Installation(Err(StateNotKept), if answers.keeping.FailsAfter? then Some(h) else stored, files)
        else
          match ChooseRelease(w, ctx, h)
          case Err(e) => Installation(Err(e), Some(h), files)
          case Ok(release) =>
            match ChooseArtifact(w, args, release, answers)
            case Err(e) => Installation(Err(e), Some(h), files)
            case Ok(selection) =>
              var (result, left) := Download(w, selection, files, answers);
              Installation(result, Some(h), left)
  }

  function Outcome(w: World, args: Arguments, answers: Answers, stored: Option<Channel.HighWater>,
                   files: map<string, Bytes>): Result<Package, Failure>
  {
    Run(w, args, answers, stored, files).result
  }

  /** What one installer leaves on disk between runs. */
  class Installer {
    var highWater: Option<Channel.HighWater>
    var files: map<string, Bytes>

    constructor ()
      ensures highWater == None && files == map[]
    {
      highWater := None;
      files := map[];
    }

    /** `acquire`: the record is kept as soon as it is accepted, the file only once its bytes are verified. */
    method Acquire(w: World, args: Arguments, answers: Answers) returns (r: Result<Package, Failure>)
      modifies this
      ensures Installation(r, highWater, files) == Run(w, args, answers, old(highWater), old(files))
    {
      hide OpenChannel, ChooseRelease, ChooseArtifact, Download, Channel.EvaluateHighWater;
      var channel := OpenChannel(w, args, answers);
      if channel.Err? {
        return Err(channel.error);
      }
      var accepted := Channel.EvaluateHighWater(w.ForChannel(), channel.value, highWater);
      if accepted.Err? {
        return Err(ChannelError(accepted.error));
      }
      if highWater != Some(accepted.value) {
        if answers.keeping.FailsBefore? {
          return Err(StateNotKept);
        }
        highWater := Some(accepted.value);
        if answers.keeping.FailsAfter? {
          return Err(StateNotKept);
        }
      }
      var release := ChooseRelease(w, channel.value, accepted.value);
      if release.Err? {
        return Err(release.error);
      }
      var selection := ChooseArtifact(w, args, release.value, answers);
      if selection.Err? {
        return Err(selection.error);
      }
      r := Stage(w, selection.value, answers);
    }

    method Stage(w: World, selection: Manifest.SelectedArtifact, answers: Answers) returns (r: Result<Package, Failure>)
      modifies this`files
      ensures (r, files) == Download(w, selection, old(files), answers)
    {
      var valid := Manifest.ValidateSelection(w.ForManifest(), selection);
      if valid.Err? {
        return Err(ManifestError(valid.error));
      }
      var a := valid.value;
      if a.filename in files {
        r := CheckExisting(w, a);
        return;
      }
      if answers.artifact.None? {
        return Err(NetworkError);
      }
      files := Joined(files, answers.earlier);
      if a.filename in files {
        r := CheckExisting(w, a);
        return;
      }
      var stream := new Stream(answers.artifact.value);
      var copied := CopyStream(w.sha256, stream, a.size, a.sha256);
      if copied.Err? {
        return Err(StagingFailure(copied.error));
      }
      files := Joined(files, answers.later);
      if a.filename in files {
        return Err(StagingFailure(DestinationConflict));
      }
      files := files[a.filename := copied.value];
      return Ok(Package(a.filename, copied.value, a.productVersion, true));
    }

    /** The look at an existing destination, reading it to its end. */
    method CheckExisting(w: World, a: Manifest.Artifact) returns (r: Result<Package, Failure>)
      requires a.filename in files
      ensures r == Existing(w, a, files)
    {
      var content := files[a.filename];
      var stream := new Stream(content);
      var same := Matches(w.sha256, stream, |content|, a.size, a.sha256);
      if !same {
        return Err(StagingFailure(DestinationConflict));
      }
      return Ok(Package(a.filename, content, a.productVersion, false));
    }
  }

  // ---------------------------------------------------------------- what an opened channel is

  /** The fetched descriptor describes the bytes, and the verifier vouches for an entry under a trusted key. */
  ghost predicate Signed(w: World, trust: Trust, answers: Answers, raw: Bytes) {
    && answers.descriptor.Some? && |answers.descriptor.value| <= Channel.MAX_CHANNEL_BYTES
    && exists j, key, scheme ::
         && w.loads(answers.descriptor.value) == Some(j)
         && Channel.SignedBy(w.ForChannel(), raw, j, trust.keys, {trust.scheme}, answers.verify, key, scheme)
  }

  /** What makes the installer believe the channel bytes: the pinned digest, or a signature under a trust policy. */
  ghost predicate Believed(w: World, args: Arguments, answers: Answers, raw: Bytes) {
    match args.trust
    case None => args.pin == Some(w.sha256(raw)) && HexText(w.sha256(raw), 64)
    case Some(trust) => Signed(w, trust, answers, raw)
  }

  /** The fetched channel is believed and decodes to this valid document of at least the trusted generation. */
  ghost predicate ChannelIs(w: World, args: Arguments, answers: Answers, document: Format.Channel) {
    && answers.channel.Some? && |answers.channel.value| <= Channel.MAX_CHANNEL_BYTES
    && Believed(w, args, answers, answers.channel.value)
    && w.loads(answers.channel.value) == Some(Format.ChannelJson(document)) && Format.ChannelValid(document)
    && 1 <= args.minimumGeneration <= Format.MAX_GENERATION && args.minimumGeneration <= document.generation
  }

  lemma DescriptorFetched(w: World, trust: Trust, args: Arguments, answers: Answers, raw: Bytes)
    requires args.trust == Some(trust) && Signed(w, trust, answers, raw)
    ensures FetchDescriptor(w, args, answers).Ok?
    ensures w.loads(answers.descriptor.value) == Some(FetchDescriptor(w, args, answers).value)
  {
    hide Channel.ValidateDescriptor;
    var j, key, scheme :|
      && w.loads(answers.descriptor.value) == Some(j)
      && Channel.SignedBy(w.ForChannel(), raw, j, trust.keys, {trust.scheme}, answers.verify, key, scheme);
    Channel.DescriptorIff(w.ForChannel(), raw, j);
  }

  /** Authentication under the policy of the arguments succeeds exactly on bytes that are believed. */
  lemma AuthenticIff(w: World, args: Arguments, answers: Answers, raw: Bytes)
    ensures |raw| <= Channel.MAX_CHANNEL_BYTES && Believed(w, args, answers, raw) <==>
      && FetchDescriptor(w, args, answers).Ok?
      && Channel.Authenticate(w.ForChannel(), raw, PolicyOf(args), FetchDescriptor(w, args, answers).value,
                              answers.verify).Ok?
  {
    hide Channel.Authenticate, Channel.ValidateDescriptor, Channel.SignedBy, HexText;
    if args.trust.None? {
      Channel.PinnedIff(w.ForChannel(), raw, PolicyOf(args), Format.Null, answers.verify);
    } else {
      var trust := args.trust.value;
      if Signed(w, trust, answers, raw) { DescriptorFetched(w, trust, args, answers, raw); }
      if FetchDescriptor(w, args, answers).Ok? {
        Channel.SignedIff(w.ForChannel(), raw, PolicyOf(args), FetchDescriptor(w, args, answers).value, answers.verify);
      }
    }
  }

  /** Opening succeeds exactly on such a channel, and gives its document. */
  lemma OpenChannelIff(w: World, args: Arguments, answers: Answers)
    ensures OpenChannel(w, args, answers).Ok? ==>
              ChannelIs(w, args, answers, OpenChannel(w, args, answers).value.document)
    ensures forall document :: ChannelIs(w, args, answers, document) ==>
              OpenChannel(w, args, answers).Ok? && OpenChannel(w, args, answers).value.document == document
  {
    hide Channel.Authenticate, Channel.Parse, FetchDescriptor, Believed, Format.ChannelJson, Format.ChannelValid,
         HexText;
    if answers.channel.Some? {
      var raw := answers.channel.value;
      AuthenticIff(w, args, answers, raw);
      if FetchDescriptor(w, args, answers).Ok? {
        var descriptor := FetchDescriptor(w, args, answers).value;
        var r := Channel.Authenticate(w.ForChannel(), raw, PolicyOf(args), descriptor, answers.verify);
        if r.Ok? { ParsedUnderPolicy(w, args, raw, r.value, descriptor, answers.verify); }
      }
    }
  }

  lemma ParsedUnderPolicy(w: World, args: Arguments, raw: Bytes, a: Channel.Authentication, descriptor: Format.Json,
                          verify: Option<Signatures.Entry -> bool>)
    requires Channel.Authenticate(w.ForChannel(), raw, PolicyOf(args), descriptor, verify) == Ok(a)
    ensures var r := Channel.Parse(w.ForChannel(), raw, a, PolicyOf(args));
      && (r.Ok? ==>
            && w.loads(raw) == Some(Format.ChannelJson(r.value.document)) && Format.ChannelValid(r.value.document)
            && 1 <= args.minimumGeneration <= Format.MAX_GENERATION
            && args.minimumGeneration <= r.value.document.generation)
      && (forall document ::
            && w.loads(raw) == Some(Format.ChannelJson(document)) && Format.ChannelValid(document)
            && 1 <= args.minimumGeneration <= Format.MAX_GENERATION && args.minimumGeneration <= document.generation ==>
            r == Ok(Channel.AuthenticatedChannel(raw, document, a)))
  {
    hide Channel.Authenticate, Channel.CheckEvidence, Channel.EvidenceFits, Channel.Parse, Format.ChannelJson,
         Format.ChannelValid, HexText;
    var policy := PolicyOf(args);
    Channel.EvidenceAccepted(w.ForChannel(), raw, policy, descriptor, verify);
    Channel.EvidenceIff(w.ForChannel(), raw, a, policy);
    EvidenceNeedsMinimum(w, raw, a, policy);
    var r := Channel.Parse(w.ForChannel(), raw, a, policy);
    if r.Ok? { Channel.ParseIff(w.ForChannel(), raw, a, policy, r.value); }
    forall document | w.loads(raw) == Some(Format.ChannelJson(document)) && Format.ChannelValid(document)
                      && 1 <= args.minimumGeneration <= Format.MAX_GENERATION
                      && args.minimumGeneration <= document.generation
      ensures r == Ok(Channel.AuthenticatedChannel(raw, document, a))
    {
      Channel.ParseIff(w.ForChannel(), raw, a, policy, Channel.AuthenticatedChannel(raw, document, a));
    }
  }

  lemma EvidenceNeedsMinimum(w: World, raw: Bytes, a: Channel.Authentication, policy: Channel.TrustPolicy)
    ensures Channel.EvidenceFits(w.ForChannel(), raw, a, policy) ==>
              1 <= policy.minimumGeneration <= Format.MAX_GENERATION
  {
  }

  /** The opened channel is the decoded, valid document of exactly the bytes that were fetched and are believed. */
  lemma OpenedChannelIsBound(w: World, args: Arguments, answers: Answers)
    requires OpenChannel(w, args, answers).Ok?
    ensures var ctx := OpenChannel(w, args, answers).value;
      && answers.channel == Some(ctx.raw) && ctx.authentication.sha256 == w.sha256(ctx.raw)
      && Believed(w, args, answers, ctx.raw)
      && HexText(ctx.authentication.sha256, 64)
      && Channel.ValidatedContext(w.ForChannel(), ctx) == Ok(ctx.document)
      && w.loads(ctx.raw) == Some(Format.ChannelJson(ctx.document)) && Format.ChannelValid(ctx.document)
  {
    hide Format.ChannelJson, Format.ChannelValid, Channel.ValidateDescriptor, Format.Validate,
         Channel.ValidatedContext, HexText, Believed, Channel.Authenticate, Channel.CheckEvidence;
    OpenChannelIff(w, args, answers);
    var descriptor := FetchDescriptor(w, args, answers).value;
    Channel.AuthenticatedContextsRevalidate(w.ForChannel(), answers.channel.value, PolicyOf(args), descriptor,
        answers.verify);
    Channel.ContextBound(w.ForChannel(), OpenChannel(w, args, answers).value);
  }

  /**
   Once a channel has been accepted, selection evaluates it a second time and never refuses: the only way not to
   get a release is that none is open to fresh installation.
   */
  lemma SelectionNeverRefuses(w: World, args: Arguments, answers: Answers, stored: Option<Channel.HighWater>)
    requires Accepted(w, args, answers, stored).Some?
    ensures var ctx := OpenChannel(w, args, answers).value;
      match ChooseRelease(w, ctx, Accepted(w, args, answers, stored).value)
      case Ok(release) => Channel.Greatest(ctx.document.releases, Channel.FreshEligible, release)
      case Err(e) => e == NoReleaseAvailable && forall x :: x in ctx.document.releases ==> !x.freshInstall
  {
    hide Channel.ValidatedContext, Format.ChannelValid, Format.ChannelJson, Channel.Greatest, OpenChannel, Believed,
         Channel.ValidateSelected, Channel.Pick, HexText, Channel.HighWaterValid;
    OpenedChannelIsBound(w, args, answers);
    var ctx := OpenChannel(w, args, answers).value;
    var h := Accepted(w, args, answers, stored).value;
    Channel.SecondEvaluationAccepts(w.ForChannel(), ctx, stored);
    Channel.FreshInstallPicksNewest(w.ForChannel(), ctx, Some(h));
    if Channel.SelectFreshInstall(w.ForChannel(), ctx, Some(h)).value.Some? {
      Channel.FreshSelectionValidates(w.ForChannel(), ctx, Some(h));
    }
  }

  /** The release depends on the document alone, not on the stored record or the evidence. */
  lemma ReleaseDependsOnDocument(w: World, c1: Channel.AuthenticatedChannel, h1: Channel.HighWater,
                                 c2: Channel.AuthenticatedChannel, h2: Channel.HighWater)
    requires ChooseRelease(w, c1, h1).Ok? && ChooseRelease(w, c2, h2).Ok? && c1.document == c2.document
    ensures ChooseRelease(w, c1, h1) == ChooseRelease(w, c2, h2)
  {
    hide Channel.ValidatedContext, Format.ChannelValid, Format.ChannelJson, Channel.EvaluateHighWater;
    Channel.ContextBound(w.ForChannel(), c1);
    Channel.ContextBound(w.ForChannel(), c2);
    Channel.FreshSelectionValidates(w.ForChannel(), c1, Some(h1));
    Channel.FreshSelectionValidates(w.ForChannel(), c2, Some(h2));
  }

  /** An opened manifest consists of the fetched bytes, which have the release's size and digest. */
  lemma OpenedManifestIsBound(w: World, release: Format.Release, answers: Answers)
    requires OpenManifest(w, release, answers).Ok?
    ensures var m := OpenManifest(w, release, answers).value;
      && answers.manifest == Some(m.raw) && |m.raw| == release.manifestSize && w.sha256(m.raw) == release.manifestSha256
      && w.decode(m.raw) == Some(m.document) && Manifest.ValidateContext(w.ForManifest(), m) == Ok(m.document)
      && m.document.productVersion == release.productVersion && m.document.sourceCommit == release.sourceCommit
  {
  }

  /** The chosen artifact is the only one with the wanted identity in the opened manifest. */
  lemma ChosenArtifactIsTheOnlyMatch(w: World, args: Arguments, release: Format.Release, answers: Answers)
    requires ChooseArtifact(w, args, release, answers).Ok?
    ensures OpenManifest(w, release, answers).Ok?
    ensures var m, s := OpenManifest(w, release, answers).value, ChooseArtifact(w, args, release, answers).value;
      && s.manifest == m && s.artifact.productVersion == release.productVersion
      && Manifest.OnlyMatch(m.document.artifacts, IdentityFor(args, release.productVersion), s.index)
      && s.artifact == m.document.artifacts[s.index]
      && Manifest.ValidateSelection(w.ForManifest(), s) == Ok(s.artifact)
  {
    hide OpenManifest, Manifest.Matches;
    OpenedManifestIsBound(w, release, answers);
    var m := OpenManifest(w, release, answers).value;
    Manifest.SelectsTheOnlyMatch(w.ForManifest(), m, IdentityFor(args, release.productVersion));
  }

  // ---------------------------------------------------------------- the results

  /** Artifact `i` is the Linux x86-64 native package of this type and version. */
  predicate IsPackage(a: Manifest.Artifact, artifactType: string, version: string) {
    && a.platform == "linux" && a.architecture == "x86_64" && a.role == "native_package"
    && a.artifactType == artifactType && a.productVersion == version
  }

  ghost predicate OnlyPackage(artifacts: seq<Manifest.Artifact>, artifactType: string, version: string, i: int) {
    && 0 <= i < |artifacts| && IsPackage(artifacts[i], artifactType, version)
    && forall j :: 0 <= j < |artifacts| && IsPackage(artifacts[j], artifactType, version) ==> j == i
  }

  lemma OnlyPackageIff(artifacts: seq<Manifest.Artifact>, args: Arguments, version: string, i: int)
    ensures Manifest.OnlyMatch(artifacts, IdentityFor(args, version), i) <==>
            OnlyPackage(artifacts, args.artifactType, version, i)
  {
  }

  /** The links from the channel bytes to the staged bytes. */
  ghost predicate Chain(w: World, args: Arguments, channel: Bytes, release: Format.Release, manifest: Bytes,
                        package: Package) {
    && (exists document :: w.loads(channel) == Some(Format.ChannelJson(document)) && Format.ChannelValid(document)
                           && Channel.Greatest(document.releases, Channel.FreshEligible, release))
    && |manifest| == release.manifestSize && w.sha256(manifest) == release.manifestSha256 && w.decode(manifest).Some?
    && (exists i :: OnlyPackage(w.decode(manifest).value.artifacts, args.artifactType, release.productVersion, i)
                    && var a := w.decode(manifest).value.artifacts[i];
                       package.filename == a.filename && Fits(w.sha256, package.content, a.size, a.sha256))
    && package.version == release.productVersion
  }

  /** The manifest and release of a successful run. */
  function ReleaseOf(w: World, args: Arguments, answers: Answers, stored: Option<Channel.HighWater>): Format.Release
    requires Accepted(w, args, answers, stored).Some?
    requires ChooseRelease(w, OpenChannel(w, args, answers).value, Accepted(w, args, answers, stored).value).Ok?
  {
    ChooseRelease(w, OpenChannel(w, args, answers).value, Accepted(w, args, answers, stored).value).value
  }

  lemma RunParts(w: World, args: Arguments, answers: Answers, stored: Option<Channel.HighWater>,
                 files: map<string, Bytes>)
    requires Outcome(w, args, answers, stored, files).Ok?
    ensures OpenChannel(w, args, answers).Ok? && Accepted(w, args, answers, stored).Some?
    ensures ChooseRelease(w, OpenChannel(w, args, answers).value, Accepted(w, args, answers, stored).value).Ok?
    ensures var release := ReleaseOf(w, args, answers, stored);
      && ChooseArtifact(w, args, release, answers).Ok?
      && Outcome(w, args, answers, stored, files)
         == Download(w, ChooseArtifact(w, args, release, answers).value, files, answers).0
  {
    hide OpenChannel, ChooseRelease, ChooseArtifact, Download, Channel.EvaluateHighWater;
  }

  /**
   Whatever the servers answer, a successful run stages the one matching artifact of the manifest that the newest
   release open to fresh installation in the authenticated channel binds by size and digest.
   */
  lemma AcquiredThroughTheChain(w: World, args: Arguments, answers: Answers, stored: Option<Channel.HighWater>,
                                files: map<string, Bytes>)
    requires Outcome(w, args, answers, stored, files).Ok?
    ensures answers.channel.Some? && answers.manifest.Some?
            && Believed(w, args, answers, answers.channel.value)
    ensures exists release ::
      Chain(w, args, answers.channel.value, release, answers.manifest.value,
          Outcome(w, args, answers, stored, files).value)
  {
    hide OpenChannel, ChooseRelease, ChooseArtifact, OpenManifest, Accepted, Outcome, Format.ChannelJson, Believed,
         Format.ChannelValid, Channel.Greatest, Manifest.OnlyMatch, Manifest.ValidateSelection, OnlyPackage,
         Channel.ValidatedContext, HexText;
    RunParts(w, args, answers, stored, files);
    OpenedChannelIsBound(w, args, answers);
    SelectionNeverRefuses(w, args, answers, stored);
    var release := ReleaseOf(w, args, answers, stored);
    ChosenArtifactIsTheOnlyMatch(w, args, release, answers);
    OpenedManifestIsBound(w, release, answers);
    var selection := ChooseArtifact(w, args, release, answers).value;
    OnlyPackageIff(selection.manifest.document.artifacts, args, release.productVersion, selection.index);
    assert Chain(w, args, answers.channel.value, release, answers.manifest.value,
           Outcome(w, args, answers, stored, files).value);
  }

  /**
   Two successful runs for the same profile whose channels have the same digest stage byte-identical packages
   under the same name and version, whatever the servers, stored records and directories were; otherwise the
   channel, the manifest or the package bytes of the two runs are an explicit digest collision.
   */
  lemma SameDigestSamePackage(w: World, args1: Arguments, answers1: Answers, stored1: Option<Channel.HighWater>,
                              files1: map<string, Bytes>,
                              args2: Arguments, answers2: Answers, stored2: Option<Channel.HighWater>,
                              files2: map<string, Bytes>)
    requires args1.artifactType == args2.artifactType
    requires Outcome(w, args1, answers1, stored1, files1).Ok? && Outcome(w, args2, answers2, stored2, files2).Ok?
    requires answers1.channel.Some? && answers2.channel.Some?
    requires w.sha256(answers1.channel.value) == w.sha256(answers2.channel.value)
    ensures var p1 := Outcome(w, args1, answers1, stored1, files1).value;
      var p2 := Outcome(w, args2, answers2, stored2, files2).value;
      || (p1.filename == p2.filename && p1.content == p2.content && p1.version == p2.version)
      || Collide(w.sha256, answers1.channel.value, answers2.channel.value)
      || (answers1.manifest.Some? && answers2.manifest.Some?
         && Collide(w.sha256, answers1.manifest.value, answers2.manifest.value))
      || Collide(w.sha256, p1.content, p2.content)
  {
    hide OpenChannel, ChooseRelease, ChooseArtifact, OpenManifest, Accepted, Outcome, Format.ChannelJson,
         Format.ChannelValid, Channel.Greatest, Manifest.ValidateSelection, Channel.ValidatedContext, HexText, Believed;
    RunParts(w, args1, answers1, stored1, files1);
    RunParts(w, args2, answers2, stored2, files2);
    OpenedChannelIsBound(w, args1, answers1);
    OpenedChannelIsBound(w, args2, answers2);
    if answers1.channel == answers2.channel {
      SameBytesSameDocument(w, args1, answers1, args2, answers2);
      ReleaseDependsOnDocument(w, OpenChannel(w, args1, answers1).value, Accepted(w, args1, answers1, stored1).value,
                               OpenChannel(w, args2, answers2).value, Accepted(w, args2, answers2, stored2).value);
      var release := ReleaseOf(w, args1, answers1, stored1);
      ChosenArtifactIsTheOnlyMatch(w, args1, release, answers1);
      ChosenArtifactIsTheOnlyMatch(w, args2, release, answers2);
      OpenedManifestIsBound(w, release, answers1);
      OpenedManifestIsBound(w, release, answers2);
    }
  }

  lemma SameBytesSameDocument(w: World, args1: Arguments, answers1: Answers, args2: Arguments, answers2: Answers)
    requires OpenChannel(w, args1, answers1).Ok? && OpenChannel(w, args2, answers2).Ok?
             && answers1.channel == answers2.channel
    ensures OpenChannel(w, args1, answers1).value.document == OpenChannel(w, args2, answers2).value.document
  {
    hide Format.Validate, Channel.CheckEvidence, Channel.Authenticate, FetchDescriptor;
  }

  /** In particular for one pinned digest. */
  lemma SamePinSamePackage(w: World, args: Arguments, answers1: Answers, stored1: Option<Channel.HighWater>,
                           files1: map<string, Bytes>,
                           answers2: Answers, stored2: Option<Channel.HighWater>, files2: map<string, Bytes>)
    requires args.trust.None?
    requires Outcome(w, args, answers1, stored1, files1).Ok? && Outcome(w, args, answers2, stored2, files2).Ok?
    ensures answers1.channel.Some? && answers2.channel.Some? && answers1.manifest.Some? && answers2.manifest.Some?
    ensures var p1 := Outcome(w, args, answers1, stored1, files1).value;
      var p2 := Outcome(w, args, answers2, stored2, files2).value;
      || (p1.filename == p2.filename && p1.content == p2.content && p1.version == p2.version)
      || Collide(w.sha256, answers1.channel.value, answers2.channel.value)
      || Collide(w.sha256, answers1.manifest.value, answers2.manifest.value)
      || Collide(w.sha256, p1.content, p2.content)
  {
    hide Outcome, Chain;
    AcquiredThroughTheChain(w, args, answers1, stored1, files1);
    AcquiredThroughTheChain(w, args, answers2, stored2, files2);
    SameDigestSamePackage(w, args, answers1, stored1, files1, args, answers2, stored2, files2);
  }

  /**
   A run never changes a file that was there, a package it reports is in the directory it leaves, and nothing else is
   new but what others put there; it reports a download exactly when the file was not there before.
   */
  lemma FilesAreKept(w: World, args: Arguments, answers: Answers, stored: Option<Channel.HighWater>,
                     files: map<string, Bytes>)
    ensures var i := Run(w, args, answers, stored, files);
      && (forall f :: f in files ==> f in i.files && i.files[f] == files[f])
      && (i.result.Ok? ==> i.result.value.filename in i.files
                           && i.files[i.result.value.filename] == i.result.value.content)
      && (forall f :: f in i.files ==>
            f in files || f in answers.earlier || f in answers.later || (i.result.Ok? && f == i.result.value.filename))
      && (i.result.Ok? ==> (i.result.value.downloaded <==>
            i.result.value.filename !in files && i.result.value.filename !in answers.earlier))
  {
    hide OpenChannel, ChooseRelease, ChooseArtifact, Channel.EvaluateHighWater, Download;
    DownloadKeepsFiles(w, files, answers);
  }

  lemma DownloadKeepsFiles(w: World, files: map<string, Bytes>, answers: Answers)
    ensures forall selection :: var (result, left) := Download(w, selection, files, answers);
      && (forall f :: f in files ==> f in left && left[f] == files[f])
      && (result.Ok? ==> result.value.filename in left && left[result.value.filename] == result.value.content)
      && (forall f :: f in left ==>
            f in files || f in answers.earlier || f in answers.later || (result.Ok? && f == result.value.filename))
      && (result.Ok? ==> (result.value.downloaded <==>
            result.value.filename !in files && result.value.filename !in answers.earlier))
  {
    hide Manifest.ValidateSelection, Fits, Copied;
  }

  /**
   The record a run leaves is the one it found or the channel's own, which then is newer; after a success it is the
   channel's own.
   */
  lemma RecordFollows(w: World, args: Arguments, answers: Answers, stored: Option<Channel.HighWater>,
                      files: map<string, Bytes>)
    requires stored.Some? ==> Channel.HighWaterValid(stored.value)
    ensures var i := Run(w, args, answers, stored, files);
      && (i.record == stored
          || (i.record.Some? && (stored.Some? ==> stored.value.generation < i.record.value.generation)))
      && (i.record != stored || i.result.Ok? ==>
            && i.record.Some? && OpenChannel(w, args, answers).Ok?
            && i.record.value.generation == OpenChannel(w, args, answers).value.document.generation
            && i.record.value.sha256 == w.sha256(answers.channel.value))
  {
    hide OpenChannel, ChooseRelease, ChooseArtifact, Channel.EvaluateHighWater, Download, Believed,
         Channel.ValidatedContext, Format.ChannelJson, Format.ChannelValid, HexText, Channel.HighWaterValid;
    if OpenChannel(w, args, answers).Ok? {
      OpenedChannelIsBound(w, args, answers);
      Channel.AcceptanceDominates(w.ForChannel(), OpenChannel(w, args, answers).value, stored);
    }
  }

  /** Running again, whatever the disk and other stagers do, finds the package in place and accepts the same record. */
  lemma SecondRunIsNoop(w: World, args: Arguments, answers: Answers, stored: Option<Channel.HighWater>,
                        files: map<string, Bytes>, keeping: Keeping, earlier: map<string, Bytes>,
                        later: map<string, Bytes>)
    requires Outcome(w, args, answers, stored, files).Ok?
    ensures var first := Run(w, args, answers, stored, files);
      var again := answers.(keeping := keeping, earlier := earlier, later := later);
      Run(w, args, again, first.record, first.files)
      == first.(result := Ok(first.result.value.(downloaded := false)))
  {
    hide OpenChannel, ChooseRelease, ChooseArtifact, Format.ChannelJson, Format.ChannelValid, Channel.EvaluateHighWater,
         Channel.ValidatedContext, HexText, Believed;
    RunParts(w, args, answers, stored, files);
    FilesAreKept(w, args, answers, stored, files);
    OpenedChannelIsBound(w, args, answers);
    var again := answers.(keeping := keeping, earlier := earlier, later := later);
    SameQuestions(w, args, answers, again, ReleaseOf(w, args, answers, stored));
    Channel.SecondEvaluationAccepts(w.ForChannel(), OpenChannel(w, args, answers).value, stored);
  }

  /** Opening the channel and choosing the artifact ask only the servers. */
  lemma SameQuestions(w: World, args: Arguments, answers: Answers, again: Answers, release: Format.Release)
    requires again == answers.(keeping := again.keeping, earlier := again.earlier, later := again.later)
    ensures OpenChannel(w, args, answers) == OpenChannel(w, args, again)
    ensures ChooseArtifact(w, args, release, answers) == ChooseArtifact(w, args, release, again)
  {
    hide Channel.Authenticate, Channel.Parse, Channel.ValidateDescriptor, Manifest.Authenticate, Manifest.Parse,
         Manifest.Select;
  }

  // ---------------------------------------------------------------- when a run succeeds

  /** The stored record is sound and not newer than, nor at odds with, this channel's. */
  ghost predicate MayFollow(w: World, answers: Answers, stored: Option<Channel.HighWater>, document: Format.Channel)
    requires answers.channel.Some?
  {
    var h := Channel.HighWater(document.generation, w.sha256(answers.channel.value));
    stored.Some? ==>
      && 1 <= stored.value.generation <= Format.MAX_GENERATION && HexText(stored.value.sha256, 64)
      && (stored.value.generation < h.generation || stored.value == h)
  }

  /** The record of this channel may follow the stored one, and what has to be written is. */
  ghost predicate RecordKept(w: World, answers: Answers, stored: Option<Channel.HighWater>, document: Format.Channel)
    requires answers.channel.Some?
  {
    && MayFollow(w, answers, stored, document)
    && (|| stored == Some(Channel.HighWater(document.generation, w.sha256(answers.channel.value)))
        || answers.keeping.Kept?)
  }

  /** The fetched manifest is the one the release binds. */
  ghost predicate ManifestIs(w: World, answers: Answers, release: Format.Release, manifest: Manifest.Manifest) {
    && answers.manifest.Some? && |answers.manifest.value| <= Format.MAX_MANIFEST_BYTES
    && |answers.manifest.value| == release.manifestSize && w.sha256(answers.manifest.value) == release.manifestSha256
    && HexText(release.manifestSha256, 64) && w.decode(answers.manifest.value) == Some(manifest)
    && manifest.productVersion == release.productVersion && manifest.sourceCommit == release.sourceCommit
  }

  /** The package is in place, appears in time, or arrives whole before anybody else takes its name. */
  predicate Obtained(w: World, a: Manifest.Artifact, files: map<string, Bytes>, answers: Answers) {
    if a.filename in files then Fits(w.sha256, files[a.filename], a.size, a.sha256)
    else if answers.artifact.None? then false
    else if a.filename in answers.earlier then Fits(w.sha256, answers.earlier[a.filename], a.size, a.sha256)
    else Fits(w.sha256, answers.artifact.value, a.size, a.sha256) && a.filename !in answers.later
  }

  /** Everything a successful run needs, link by link. */
  ghost predicate Provided(w: World, args: Arguments, answers: Answers, stored: Option<Channel.HighWater>,
                           files: map<string, Bytes>, document: Format.Channel, release: Format.Release,
                           manifest: Manifest.Manifest, i: int)
  {
    && ChannelIs(w, args, answers, document) && RecordKept(w, answers, stored, document)
    && Channel.Greatest(document.releases, (r: Format.Release) => r.freshInstall, release)
    && ManifestIs(w, answers, release, manifest)
    && OnlyPackage(manifest.artifacts, args.artifactType, release.productVersion, i)
    && Obtained(w, manifest.artifacts[i], files, answers)
  }

  lemma ManifestOpens(w: World, release: Format.Release, answers: Answers)
    ensures OpenManifest(w, release, answers).Ok? ==>
              ManifestIs(w, answers, release, OpenManifest(w, release, answers).value.document)
    ensures forall manifest :: ManifestIs(w, answers, release, manifest) ==>
              OpenManifest(w, release, answers).Ok? && OpenManifest(w, release, answers).value.document == manifest
  {
    hide HexText;
  }

  lemma ArtifactChosen(w: World, args: Arguments, release: Format.Release, answers: Answers)
    ensures ChooseArtifact(w, args, release, answers).Ok? <==>
      && OpenManifest(w, release, answers).Ok?
      && exists i :: OnlyPackage(OpenManifest(w, release, answers).value.document.artifacts, args.artifactType,
                                 release.productVersion, i)
  {
    hide OpenManifest, OnlyPackage, Manifest.OnlyMatch, Manifest.Matches;
    if OpenManifest(w, release, answers).Ok? {
      OpenedManifestIsBound(w, release, answers);
      var m, id := OpenManifest(w, release, answers).value, IdentityFor(args, release.productVersion);
      Manifest.SelectsTheOnlyMatch(w.ForManifest(), m, id);
      forall i ensures Manifest.OnlyMatch(m.document.artifacts, id, i) <==>
                       OnlyPackage(m.document.artifacts, args.artifactType, release.productVersion, i)
      {
        OnlyPackageIff(m.document.artifacts, args, release.productVersion, i);
      }
      assert Manifest.Select(w.ForManifest(), m, id).Ok? ==>
          OnlyPackage(m.document.artifacts, args.artifactType, release.productVersion,
                      Manifest.Select(w.ForManifest(), m, id).value.index);
    }
  }

  lemma DownloadIff(w: World, selection: Manifest.SelectedArtifact, files: map<string, Bytes>, answers: Answers)
    requires Manifest.ValidateSelection(w.ForManifest(), selection) == Ok(selection.artifact)
    ensures Download(w, selection, files, answers).0.Ok? <==> Obtained(w, selection.artifact, files, answers)
  {
    hide Manifest.ValidateSelection;
  }

  lemma RecordIff(w: World, args: Arguments, answers: Answers, stored: Option<Channel.HighWater>)
    requires OpenChannel(w, args, answers).Ok?
    ensures answers.channel.Some?
    ensures RecordKept(w, answers, stored, OpenChannel(w, args, answers).value.document) <==>
            Accepted(w, args, answers, stored).Some?
  {
    hide OpenChannel, Believed, Channel.ValidatedContext, Format.ChannelJson, Format.ChannelValid, HexText;
    OpenedChannelIsBound(w, args, answers);
    var ctx := OpenChannel(w, args, answers).value;
    if stored.Some? ==> Channel.HighWaterValid(stored.value) {
      Channel.AcceptanceDominates(w.ForChannel(), ctx, stored);
    }
  }

  /** Once a channel is accepted its record stays, whatever fails later. */
  lemma AcceptedIsKept(w: World, args: Arguments, answers: Answers, stored: Option<Channel.HighWater>,
                       files: map<string, Bytes>, document: Format.Channel)
    requires ChannelIs(w, args, answers, document) && RecordKept(w, answers, stored, document)
    ensures Run(w, args, answers, stored, files).record
            == Some(Channel.HighWater(document.generation, w.sha256(answers.channel.value)))
  {
    hide OpenChannel, ChooseRelease, ChooseArtifact, Channel.EvaluateHighWater, Download, Believed, ChannelIs,
         RecordKept, Channel.ValidatedContext, Format.ChannelJson, Format.ChannelValid, HexText;
    OpenChannelIff(w, args, answers);
    RecordIff(w, args, answers, stored);
    OpenedChannelIsBound(w, args, answers);
    EvaluatedIsOwn(w, OpenChannel(w, args, answers).value, stored);
  }

  lemma EvaluatedIsOwn(w: World, ctx: Channel.AuthenticatedChannel, stored: Option<Channel.HighWater>)
    requires Channel.EvaluateHighWater(w.ForChannel(), ctx, stored).Ok?
    ensures Channel.EvaluateHighWater(w.ForChannel(), ctx, stored).value
            == Channel.HighWater(ctx.document.generation, ctx.authentication.sha256)
  {
    hide Channel.ValidatedContext, Format.ChannelJson, Format.ChannelValid, HexText;
    Channel.ContextBound(w.ForChannel(), ctx);
    Channel.AcceptanceDominates(w.ForChannel(), ctx, stored);
  }

  lemma RunsThrough(w: World, args: Arguments, answers: Answers, stored: Option<Channel.HighWater>,
                    files: map<string, Bytes>)
    requires Accepted(w, args, answers, stored).Some?
    requires ChooseRelease(w, OpenChannel(w, args, answers).value, Accepted(w, args, answers, stored).value).Ok?
    requires ChooseArtifact(w, args, ReleaseOf(w, args, answers, stored), answers).Ok?
    ensures Outcome(w, args, answers, stored, files)
            == Download(w, ChooseArtifact(w, args, ReleaseOf(w, args, answers, stored), answers).value, files,
                        answers).0
  {
    hide OpenChannel, ChooseRelease, ChooseArtifact, Download, Channel.EvaluateHighWater;
  }

  lemma GreatestIsUnique(releases: seq<Format.Release>, r: Format.Release, s: Format.Release)
    requires Channel.Greatest(releases, Channel.FreshEligible, r)
    requires Channel.Greatest(releases, (x: Format.Release) => x.freshInstall, s)
    ensures r == s
  {
    hide Format.VersionOf;
  }

  /**
   A run succeeds exactly when it is provided with everything: a believed channel not older than the trusted and the
   stored record, a release open to fresh installation, the manifest that the newest such release binds, exactly one
   Linux x86-64 native package of the wanted type in it, and that package's bytes.
   */
  lemma SucceedsIff(w: World, args: Arguments, answers: Answers, stored: Option<Channel.HighWater>,
                    files: map<string, Bytes>)
    ensures Outcome(w, args, answers, stored, files).Ok? <==>
            exists document, release, manifest, i ::
              Provided(w, args, answers, stored, files, document, release, manifest, i)
  {
    hide Outcome, Provided;
    if Outcome(w, args, answers, stored, files).Ok? { SuccessWasProvided(w, args, answers, stored, files); }
    if document, release, manifest, i :|
       Provided(w, args, answers, stored, files, document, release, manifest, i)
    {
      ProvidedSucceeds(w, args, answers, stored, files, document, release, manifest, i);
    }
  }

  lemma SuccessWasProvided(w: World, args: Arguments, answers: Answers, stored: Option<Channel.HighWater>,
                           files: map<string, Bytes>)
    requires Outcome(w, args, answers, stored, files).Ok?
    ensures exists document, release, manifest, i ::
              Provided(w, args, answers, stored, files, document, release, manifest, i)
  {
    hide OpenChannel, ChooseRelease, ChooseArtifact, OpenManifest, Accepted, Outcome, ChannelIs, RecordKept, ManifestIs,
         OnlyPackage, Obtained, Download, Manifest.ValidateSelection, Manifest.OnlyMatch;
    RunParts(w, args, answers, stored, files);
    var document := OpenChannel(w, args, answers).value.document;
    var release := ReleaseOf(w, args, answers, stored);
    OpenChannelIff(w, args, answers);
    RecordIff(w, args, answers, stored);
    SelectionNeverRefuses(w, args, answers, stored);
    FreshIsFresh(document.releases, release);
    ChosenArtifactIsTheOnlyMatch(w, args, release, answers);
    ManifestOpens(w, release, answers);
    var manifest := OpenManifest(w, release, answers).value.document;
    var s := ChooseArtifact(w, args, release, answers).value;
    OnlyPackageIff(manifest.artifacts, args, release.productVersion, s.index);
    DownloadIff(w, s, files, answers);
    assert Provided(w, args, answers, stored, files, document, release, manifest, s.index);
  }

  lemma FreshIsFresh(releases: seq<Format.Release>, r: Format.Release)
    requires Channel.Greatest(releases, Channel.FreshEligible, r)
    ensures Channel.Greatest(releases, (x: Format.Release) => x.freshInstall, r)
  {
    hide Format.VersionOf;
  }

  lemma ProvidedSucceeds(w: World, args: Arguments, answers: Answers, stored: Option<Channel.HighWater>,
                         files: map<string, Bytes>, document: Format.Channel, release: Format.Release,
                         manifest: Manifest.Manifest, i: int)
    requires Provided(w, args, answers, stored, files, document, release, manifest, i)
    ensures Outcome(w, args, answers, stored, files).Ok?
  {
    hide OpenChannel, ChooseRelease, ChooseArtifact, OpenManifest, Accepted, Outcome, ChannelIs, RecordKept, ManifestIs,
         Obtained, Download, Manifest.ValidateSelection, Manifest.OnlyMatch, Channel.Greatest;
    OpenChannelIff(w, args, answers);
    RecordIff(w, args, answers, stored);
    SelectionNeverRefuses(w, args, answers, stored);
    SomeIsFresh(document.releases, release);
    GreatestIsUnique(document.releases, ReleaseOf(w, args, answers, stored), release);
    ManifestOpens(w, release, answers);
    ArtifactChosen(w, args, release, answers);
    ChosenArtifactIsTheOnlyMatch(w, args, release, answers);
    var s := ChooseArtifact(w, args, release, answers).value;
    OnlyPackageIff(manifest.artifacts, args, release.productVersion, s.index);
    assert s.index == i;
    DownloadIff(w, s, files, answers);
    RunsThrough(w, args, answers, stored, files);
  }

  lemma SomeIsFresh(releases: seq<Format.Release>, r: Format.Release)
    requires Channel.Greatest(releases, (x: Format.Release) => x.freshInstall, r)
    ensures exists x :: x in releases && x.freshInstall
  {
  }

  // ---------------------------------------------------------------- why a run fails

  /** The file that stands in the way, or what is wrong with the stream. */
  predicate StagingFails(w: World, a: Manifest.Artifact, files: map<string, Bytes>, answers: Answers, code: Code) {
    var seen := Joined(files, answers.earlier);
    match code
    case DestinationConflict =>
      || (a.filename in seen && !Fits(w.sha256, seen[a.filename], a.size, a.sha256))
      || (a.filename !in seen && a.filename in answers.later)
    case ArtifactTooLarge => answers.artifact.Some? && |answers.artifact.value| > a.size
    case ArtifactTruncated => answers.artifact.Some? && |answers.artifact.value| < a.size
    case ArtifactDigestMismatch =>
      answers.artifact.Some? && |answers.artifact.value| == a.size && w.sha256(answers.artifact.value) != a.sha256
    case _ => false
  }

  /** What the answers, the record and the directory are like when a run reports this failure. */
  ghost predicate Explained(w: World, args: Arguments, answers: Answers, stored: Option<Channel.HighWater>,
                            files: map<string, Bytes>, e: Failure)
  {
    match e
    case NetworkError =>
      || answers.channel.None? || (args.trust.Some? && (answers.descriptor.None? || answers.verify.None?))
      || answers.manifest.None? || answers.artifact.None?
    case ResponseTooLarge =>
      || (answers.channel.Some? && |answers.channel.value| > Channel.MAX_CHANNEL_BYTES)
      || (answers.descriptor.Some? && |answers.descriptor.value| > Channel.MAX_CHANNEL_BYTES)
      || (answers.manifest.Some? && |answers.manifest.value| > Format.MAX_MANIFEST_BYTES)
    case ChannelError(_) =>
      forall document :: ChannelIs(w, args, answers, document) ==> !MayFollow(w, answers, stored, document)
    case StateNotKept => !answers.keeping.Kept?
    case NoReleaseAvailable =>
      exists document ::
        ChannelIs(w, args, answers, document) && forall r :: r in document.releases ==> !r.freshInstall
    case ManifestBindingMismatch =>
      exists document, release ::
        && ChannelIs(w, args, answers, document)
        && Channel.Greatest(document.releases, Channel.FreshEligible, release)
        && forall manifest :: !ManifestIs(w, answers, release, manifest)
    case ManifestError(_) =>
      exists release, manifest ::
        && ManifestIs(w, answers, release, manifest)
        && forall i :: !OnlyPackage(manifest.artifacts, args.artifactType, release.productVersion, i)
    case StagingFailure(code) =>
      exists release, manifest, i ::
        && ManifestIs(w, answers, release, manifest)
        && OnlyPackage(manifest.artifacts, args.artifactType, release.productVersion, i)
        && StagingFails(w, manifest.artifacts[i], files, answers, code)
  }

  lemma OpeningFails(w: World, args: Arguments, answers: Answers, stored: Option<Channel.HighWater>,
                     files: map<string, Bytes>)
    requires OpenChannel(w, args, answers).Err?
    ensures Explained(w, args, answers, stored, files, OpenChannel(w, args, answers).error)
  {
    OpenChannelIff(w, args, answers);
    hide Channel.Authenticate, Channel.Parse, Channel.ValidateDescriptor, Believed, ChannelIs, MayFollow;
  }

  lemma RecordFails(w: World, args: Arguments, answers: Answers, stored: Option<Channel.HighWater>,
                    files: map<string, Bytes>)
    requires OpenChannel(w, args, answers).Ok?
    requires Channel.EvaluateHighWater(w.ForChannel(), OpenChannel(w, args, answers).value, stored).Err?
    ensures forall code :: Explained(w, args, answers, stored, files, ChannelError(code))
  {
    hide OpenChannel, Believed, Channel.ValidatedContext, Format.ChannelJson, Format.ChannelValid, HexText;
    OpenedChannelIsBound(w, args, answers);
    OpenChannelIff(w, args, answers);
    var ctx := OpenChannel(w, args, answers).value;
    if stored.Some? ==> Channel.HighWaterValid(stored.value) {
      Channel.AcceptanceDominates(w.ForChannel(), ctx, stored);
    }
    assert !MayFollow(w, answers, stored, ctx.document);
    hide ChannelIs, MayFollow;
    forall document | ChannelIs(w, args, answers, document) ensures document == ctx.document { }
  }

  lemma ReleaseFails(w: World, args: Arguments, answers: Answers, stored: Option<Channel.HighWater>,
                     files: map<string, Bytes>)
    requires Accepted(w, args, answers, stored).Some?
    requires ChooseRelease(w, OpenChannel(w, args, answers).value, Accepted(w, args, answers, stored).value).Err?
    ensures Explained(w, args, answers, stored, files,
              ChooseRelease(w, OpenChannel(w, args, answers).value, Accepted(w, args, answers, stored).value).error)
  {
    hide OpenChannel, ChooseRelease, ChannelIs;
    SelectionNeverRefuses(w, args, answers, stored);
    OpenChannelIff(w, args, answers);
  }

  lemma ManifestFails(w: World, args: Arguments, answers: Answers, stored: Option<Channel.HighWater>,
                      files: map<string, Bytes>, release: Format.Release)
    requires OpenChannel(w, args, answers).Ok?
    requires Channel.Greatest(OpenChannel(w, args, answers).value.document.releases, Channel.FreshEligible, release)
    requires OpenManifest(w, release, answers).Err?
    ensures Explained(w, args, answers, stored, files, OpenManifest(w, release, answers).error)
  {
    hide OpenChannel, ChannelIs, Channel.Greatest;
    OpenChannelIff(w, args, answers);
    ManifestOpens(w, release, answers);
    hide ManifestIs, Manifest.Authenticate, Manifest.Parse;
  }

  lemma ArtifactFails(w: World, args: Arguments, answers: Answers, stored: Option<Channel.HighWater>,
                      files: map<string, Bytes>, release: Format.Release)
    requires OpenManifest(w, release, answers).Ok? && ChooseArtifact(w, args, release, answers).Err?
    ensures Explained(w, args, answers, stored, files, ChooseArtifact(w, args, release, answers).error)
  {
    hide OpenManifest, ManifestIs, OnlyPackage, Manifest.Select;
    ManifestOpens(w, release, answers);
    ArtifactChosen(w, args, release, answers);
    var manifest := OpenManifest(w, release, answers).value.document;
    assert ManifestIs(w, answers, release, manifest);
  }

  lemma DownloadFails(w: World, args: Arguments, answers: Answers, stored: Option<Channel.HighWater>,
                      files: map<string, Bytes>, release: Format.Release)
    requires ChooseArtifact(w, args, release, answers).Ok?
    requires Download(w, ChooseArtifact(w, args, release, answers).value, files, answers).0.Err?
    ensures Explained(w, args, answers, stored, files,
              Download(w, ChooseArtifact(w, args, release, answers).value, files, answers).0.error)
  {
    hide OpenManifest, ManifestIs, Manifest.OnlyMatch, ChooseArtifact, Manifest.ValidateSelection;
    ChosenArtifactIsTheOnlyMatch(w, args, release, answers);
    ManifestOpens(w, release, answers);
    var s := ChooseArtifact(w, args, release, answers).value;
    var manifest := OpenManifest(w, release, answers).value.document;
    OnlyPackageIff(manifest.artifacts, args, release.productVersion, s.index);
    var e := Download(w, s, files, answers).0.error;
    DownloadError(w, s, files, answers);
    assert e.StagingFailure? ==> StagingFails(w, manifest.artifacts[s.index], files, answers, e.staging);
  }

  lemma DownloadError(w: World, s: Manifest.SelectedArtifact, files: map<string, Bytes>, answers: Answers)
    requires Manifest.ValidateSelection(w.ForManifest(), s) == Ok(s.artifact)
    requires Download(w, s, files, answers).0.Err?
    ensures match Download(w, s, files, answers).0.error
      case NetworkError => answers.artifact.None?
      case StagingFailure(code) => StagingFails(w, s.artifact, files, answers, code)
      case _ => false
  {
    hide Manifest.ValidateSelection;
  }

  /** Every failure a run reports is explained by the answers, the stored record or the directory. */
  lemma FailuresAreExplained(w: World, args: Arguments, answers: Answers, stored: Option<Channel.HighWater>,
                             files: map<string, Bytes>)
    requires Outcome(w, args, answers, stored, files).Err?
    ensures Explained(w, args, answers, stored, files, Outcome(w, args, answers, stored, files).error)
  {
    hide OpenChannel, Channel.EvaluateHighWater, ChooseRelease, ChooseArtifact, Download, Explained;
    if OpenChannel(w, args, answers).Err? {
      OpeningFails(w, args, answers, stored, files);
    } else {
      var ctx := OpenChannel(w, args, answers).value;
      if Channel.EvaluateHighWater(w.ForChannel(), ctx, stored).Err? {
        RecordFails(w, args, answers, stored, files);
      } else if Accepted(w, args, answers, stored).None? {
        NotKept(w, args, answers, stored, files);
      } else if ChooseRelease(w, ctx, Accepted(w, args, answers, stored).value).Err? {
        ReleaseFails(w, args, answers, stored, files);
      } else {
        LaterFails(w, args, answers, stored, files, ReleaseOf(w, args, answers, stored));
      }
    }
  }

  lemma NotKept(w: World, args: Arguments, answers: Answers, stored: Option<Channel.HighWater>,
                files: map<string, Bytes>)
    requires !answers.keeping.Kept?
    ensures Explained(w, args, answers, stored, files, StateNotKept)
  {
  }

  lemma LaterFails(w: World, args: Arguments, answers: Answers, stored: Option<Channel.HighWater>,
                   files: map<string, Bytes>, release: Format.Release)
    requires Accepted(w, args, answers, stored).Some?
    requires ChooseRelease(w, OpenChannel(w, args, answers).value, Accepted(w, args, answers, stored).value)
             == Ok(release)
    ensures ChooseArtifact(w, args, release, answers).Err? ==>
              Explained(w, args, answers, stored, files, ChooseArtifact(w, args, release, answers).error)
    ensures ChooseArtifact(w, args, release, answers).Ok?
            && Download(w, ChooseArtifact(w, args, release, answers).value, files, answers).0.Err? ==>
              Explained(w, args, answers, stored, files,
                Download(w, ChooseArtifact(w, args, release, answers).value, files, answers).0.error)
  {
    hide OpenChannel, ChooseRelease, Download, Explained, OpenManifest, Manifest.Select;
    SelectionNeverRefuses(w, args, answers, stored);
    if OpenManifest(w, release, answers).Err? {
      ManifestFails(w, args, answers, stored, files, release);
    } else if ChooseArtifact(w, args, release, answers).Err? {
      ArtifactFails(w, args, answers, stored, files, release);
    } else if Download(w, ChooseArtifact(w, args, release, answers).value, files, answers).0.Err? {
      DownloadFails(w, args, answers, stored, files, release);
    }
  }
}
