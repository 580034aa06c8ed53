/** The stable-channel document: what `validate_channel` accepts. */
module ChannelFormat {
  import opened Options
  import opened Bytes
  import opened Versions

  /** The member names these documents use; any other name is `Other`. */
  datatype Key =
    | SchemaVersion | Product | ChannelName | Generation | Releases
    | ProductVersion | SourceCommit | ManifestFilename | ManifestSizeBytes | ManifestSha256 | FreshInstall | UpgradeFrom
    | ChannelFilename | ChannelSizeBytes | ChannelSha256 | SignatureList | Scheme | KeyId | SignatureFilename
    | Other(name: string)

  datatype Json =
    | Null
    | Bool(b: bool)
    | Int(i: int)
    | Float(text: string)
    | Str(s: string)
    | Arr(items: seq<Json>)
    | Obj(fields: map<Key, Json>)

  datatype Code =
    | InvalidVersion | InvalidChannel | UnsupportedChannelSchema | UnsupportedChannel | InvalidReleasePolicy
    | ChannelTooLarge | ChannelAuthFailed | UnsupportedChannelAuthentication | ChannelRollback | ChannelEquivocation
    | SelectedReleaseDetached | ManifestBindingMismatch | NoReleaseAvailable

  const MAX_RELEASES := 256
  const MAX_UPGRADE_SOURCES_PER_RELEASE := 256
  const MAX_GENERATION := 0x7FFF_FFFF_FFFF_FFFF
  const MAX_MANIFEST_BYTES := 1024 * 1024
  const MANIFEST_FILENAME := "SYNVEIL-RELEASE-MANIFEST.json"
  const TOP_FIELDS := {SchemaVersion, Product, ChannelName, Generation, Releases}
  const RELEASE_FIELDS := {ProductVersion, SourceCommit, ManifestFilename, ManifestSizeBytes,
                           ManifestSha256, FreshInstall, UpgradeFrom}

  datatype Release = Release(
    productVersion: string,
    sourceCommit: string,
    manifestSize: int,
    manifestSha256: string,
    freshInstall: bool,
    upgradeFrom: seq<string>)

  datatype Channel = Channel(generation: int, releases: seq<Release>)

  // ---------------------------------------------------------------- the documents of valid channels

  predicate Parses(s: string) { ParseChannelVersion(s).Some? }

  function VersionOf(s: string): Version {
    if Parses(s) then ParseChannelVersion(s).value else Version(0, 0, 0)
  }

  /** Upgrade sources are ascending, without repetition, and older than their target. */
  predicate SourcesValid(sources: seq<string>, target: Version) {
    && |sources| <= MAX_UPGRADE_SOURCES_PER_RELEASE
    && (forall i :: 0 <= i < |sources| ==> Parses(sources[i]))
    && (forall i, j :: 0 <= i < j < |sources| ==> Less(VersionOf(sources[i]), VersionOf(sources[j])))
    && (forall i :: 0 <= i < |sources| ==> Less(VersionOf(sources[i]), target))
  }

  predicate ReleaseValid(r: Release) {
    && Parses(r.productVersion)
    && HexText(r.sourceCommit, 40)
    && 1 <= r.manifestSize <= MAX_MANIFEST_BYTES
    && HexText(r.manifestSha256, 64)
    && SourcesValid(r.upgradeFrom, VersionOf(r.productVersion))
  }

  predicate Ascending(releases: seq<Release>) {
    forall i, j :: 0 <= i < j < |releases| ==>
      Less(VersionOf(releases[i].productVersion), VersionOf(releases[j].productVersion))
  }

  predicate ChannelValid(ch: Channel) {
    && 1 <= ch.generation <= MAX_GENERATION
    && |ch.releases| <= MAX_RELEASES
    && (forall i :: 0 <= i < |ch.releases| ==> ReleaseValid(ch.releases[i]))
    && Ascending(ch.releases)
  }

  function Texts(s: seq<string>): seq<Json> { seq(|s|, i requires 0 <= i < |s| => Str(s[i])) }

  function ReleaseJson(r: Release): Json {
    Obj(map[ProductVersion := Str(r.productVersion),
            SourceCommit := Str(r.sourceCommit),
            ManifestFilename := Str(MANIFEST_FILENAME),
            ManifestSizeBytes := Int(r.manifestSize),
            ManifestSha256 := Str(r.manifestSha256),
            FreshInstall := Bool(r.freshInstall),
            UpgradeFrom := Arr(Texts(r.upgradeFrom))])
  }

  function ReleasesJson(releases: seq<Release>): seq<Json> {
    seq(|releases|, i requires 0 <= i < |releases| => ReleaseJson(releases[i]))
  }

  function ChannelJson(ch: Channel): Json {
    Obj(map[SchemaVersion := Int(1),
            Product := Str("Synveil"),
            ChannelName := Str("stable"),
            Generation := Int(ch.generation),
            Releases := Arr(ReleasesJson(ch.releases))])
  }

  // ---------------------------------------------------------------- the checks, in the source's order

  predicate HexField(j: Json, n: nat) { j.Str? && HexText(j.s, n) }

  predicate AllTexts(items: seq<Json>) { forall i :: 0 <= i < |items| ==> items[i].Str? }

  function TextsOf(items: seq<Json>): seq<string>
    requires AllTexts(items)
  {
    seq(|items|, i requires 0 <= i < |items| => items[i].s)
  }

  function CheckSources(j: Json, target: Version): Result<seq<string>, Code> {
    if !j.Arr? || |j.items| > MAX_UPGRADE_SOURCES_PER_RELEASE then Err(InvalidReleasePolicy)
    else if !AllTexts(j.items) || exists i :: 0 <= i < |j.items| && !Parses(j.items[i].s) then Err(InvalidVersion)
    else if !SourcesValid(TextsOf(j.items), target) then Err(InvalidReleasePolicy)
    else Ok(TextsOf(j.items))
  }

  function CheckRelease(j: Json, prior: Option<Version>): Result<Release, Code> {
    if !j.Obj? || j.fields.Keys != RELEASE_FIELDS then Err(InvalidChannel)
    else
      var f := j.fields;
      if !f[ProductVersion].Str? || !Parses(f[ProductVersion].s) then Err(InvalidVersion)
      else
        var version := VersionOf(f[ProductVersion].s);
        if prior.Some? && !Less(prior.value, version) then Err(InvalidReleasePolicy)
        else if !HexField(f[SourceCommit], 40) then Err(InvalidChannel)
        else if f[ManifestFilename] != Str(MANIFEST_FILENAME) then Err(InvalidChannel)
        else if !f[ManifestSizeBytes].Int? || !(1 <= f[ManifestSizeBytes].i <= MAX_MANIFEST_BYTES) then
          Err(InvalidChannel)
        else if !HexField(f[ManifestSha256], 64) then Err(InvalidChannel)
        else if !f[FreshInstall].Bool? then Err(InvalidReleasePolicy)
        else
          match CheckSources(f[UpgradeFrom], version)
          case Err(code) => Err(code)
          case Ok(sources) =>
            Ok(Release(f[ProductVersion].s, f[SourceCommit].s, f[ManifestSizeBytes].i, f[ManifestSha256].s,
                       f[FreshInstall].b, sources))
  }

  /** The releases in order, each newer than the one before. */
  function CheckReleases(items: seq<Json>, prior: Option<Version>): Result<seq<Release>, Code> {
    if items == [] then Ok([])
    else
      match CheckRelease(items[0], prior)
      case Err(code) => Err(code)
      case Ok(r) =>
        match CheckReleases(items[1..], Some(VersionOf(r.productVersion)))
        case Err(code) => Err(code)
        case Ok(rest) => Ok([r] + rest)
  }

  function CheckHeader(j: Json): (r: Result<seq<Json>, Code>)
    ensures r.Ok? ==> j.Obj? && Generation in j.fields && j.fields[Generation].Int?
  {
    if !j.Obj? || j.fields.Keys != TOP_FIELDS then Err(InvalidChannel)
    else
      var f := j.fields;
      if f[SchemaVersion] != Int(1) then Err(UnsupportedChannelSchema)
      else if f[Product] != Str("Synveil") || f[ChannelName] != Str("stable") then Err(UnsupportedChannel)
      else if !f[Generation].Int? || !(1 <= f[Generation].i <= MAX_GENERATION) then Err(InvalidChannel)
      else if !f[Releases].Arr? || |f[Releases].items| > MAX_RELEASES then Err(InvalidChannel)
      else Ok(f[Releases].items)
  }

  function Validate(j: Json): Result<Channel, Code> {
    match CheckHeader(j)
    case Err(code) => Err(code)
    case Ok(items) =>
      match CheckReleases(items, None)
      case Err(code) => Err(code)
      case Ok(releases) => Ok(Channel(j.fields[Generation].i, releases))
  }

  /** `validate_channel`: one pass over the releases that remembers the version before. */
  method ValidateChannel(j: Json) returns (r: Result<Channel, Code>)
    ensures r == Validate(j)
  {
    hide CheckHeader, CheckRelease;
    var header := CheckHeader(j);
    if header.Err? {
      return Err(header.error);
    }
    var items := header.value;
    var prior: Option<Version> := None;
    var releases: seq<Release> := [];
    var i := 0;
    assert forall rest: seq<Release> :: [] + rest == rest;
    while i < |items|
      invariant 0 <= i <= |items|
      invariant match CheckReleases(items[i..], prior)
                case Err(code) => CheckReleases(items, None) == Err(code)
                case Ok(rest) => CheckReleases(items, None) == Ok(releases + rest)
    {
      assert items[i..][0] == items[i] && items[i..][1..] == items[i + 1..];
      var item := CheckRelease(items[i], prior);
      if item.Err? {
        return Err(item.error);
      }
      prior := Some(VersionOf(item.value.productVersion));
      assert forall rest: seq<Release> :: releases + ([item.value] + rest) == (releases + [item.value]) + rest;
      releases := releases + [item.value];
      i := i + 1;
    }
    assert releases + [] == releases;
    return Ok(Channel(j.fields[Generation].i, releases));
  }

  // ---------------------------------------------------------------- validation inverts printing

  lemma TextsInverse(items: seq<Json>, s: seq<string>)
    ensures AllTexts(items) && TextsOf(items) == s <==> items == Texts(s)
  {
  }

  lemma CheckSourcesIff(j: Json, target: Version, sources: seq<string>)
    ensures CheckSources(j, target) == Ok(sources) <==> j == Arr(Texts(sources)) && SourcesValid(sources, target)
  {
    if j.Arr? { TextsInverse(j.items, sources); }
    if j == Arr(Texts(sources)) && SourcesValid(sources, target) {
      assert TextsOf(j.items) == sources;
      assert forall i :: 0 <= i < |sources| ==> j.items[i].s == sources[i];
    }
  }

  lemma CheckedRelease(j: Json, prior: Option<Version>)
    requires CheckRelease(j, prior).Ok?
    ensures var r := CheckRelease(j, prior).value;
      && j == ReleaseJson(r) && ReleaseValid(r)
      && (prior.Some? ==> Less(prior.value, VersionOf(r.productVersion)))
  {
    hide CheckSources, SourcesValid, HexText, Parses, VersionOf;
    var r := CheckRelease(j, prior).value;
    CheckSourcesIff(j.fields[UpgradeFrom], VersionOf(r.productVersion), r.upgradeFrom);
    assert j.fields == ReleaseJson(r).fields;
  }

  lemma PrintedRelease(r: Release, prior: Option<Version>)
    requires ReleaseValid(r) && (prior.Some? ==> Less(prior.value, VersionOf(r.productVersion)))
    ensures CheckRelease(ReleaseJson(r), prior) == Ok(r)
  {
    hide CheckSources, SourcesValid, HexText, Parses, VersionOf;
    assert ReleaseJson(r).fields.Keys == RELEASE_FIELDS;
    CheckSourcesIff(ReleaseJson(r).fields[UpgradeFrom], VersionOf(r.productVersion), r.upgradeFrom);
  }

  lemma CheckReleaseIff(j: Json, prior: Option<Version>, r: Release)
    ensures CheckRelease(j, prior) == Ok(r) <==>
            && j == ReleaseJson(r) && ReleaseValid(r)
            && (prior.Some? ==> Less(prior.value, VersionOf(r.productVersion)))
  {
    hide CheckRelease, ReleaseJson, ReleaseValid, VersionOf;
    if CheckRelease(j, prior) == Ok(r) { CheckedRelease(j, prior); }
    if j == ReleaseJson(r) && ReleaseValid(r) && (prior.Some? ==> Less(prior.value, VersionOf(r.productVersion))) {
      PrintedRelease(r, prior);
    }
  }

  ghost predicate ReleasesMatch(items: seq<Json>, prior: Option<Version>, releases: seq<Release>) {
    && items == ReleasesJson(releases)
    && (forall i :: 0 <= i < |releases| ==> ReleaseValid(releases[i]))
    && Ascending(releases)
    && (prior.Some? ==> forall i :: 0 <= i < |releases| ==> Less(prior.value, VersionOf(releases[i].productVersion)))
  }

  lemma ReleasesMatchCons(item: Json, items: seq<Json>, prior: Option<Version>, r: Release, rest: seq<Release>)
    ensures ReleasesMatch([item] + items, prior, [r] + rest) <==>
            && item == ReleaseJson(r) && ReleaseValid(r)
            && (prior.Some? ==> Less(prior.value, VersionOf(r.productVersion)))
            && ReleasesMatch(items, Some(VersionOf(r.productVersion)), rest)
  {
    hide ReleaseValid, ReleaseJson, VersionOf;
    var all := [r] + rest;
    assert all[0] == r && all[1..] == rest;
    assert ReleasesJson(all) == [ReleaseJson(r)] + ReleasesJson(rest);
    assert ([item] + items)[0] == item && ([item] + items)[1..] == items;
    assert forall i :: 0 <= i < |rest| ==> all[i + 1] == rest[i];
    if ReleasesMatch([item] + items, prior, all) {
      assert ReleasesJson(all)[0] == item && ReleasesJson(all)[1..] == items;
      forall i | 0 <= i < |rest|
        ensures ReleaseValid(rest[i]) && Less(VersionOf(r.productVersion), VersionOf(rest[i].productVersion))
      {
        assert ReleaseValid(all[i + 1]) && Less(VersionOf(all[0].productVersion), VersionOf(all[i + 1].productVersion));
      }
      forall i, j | 0 <= i < j < |rest|
        ensures Less(VersionOf(rest[i].productVersion), VersionOf(rest[j].productVersion))
      {
        assert Less(VersionOf(all[i + 1].productVersion), VersionOf(all[j + 1].productVersion));
      }
    }
  }

  lemma {:induction false} CheckReleasesIff(items: seq<Json>, prior: Option<Version>, releases: seq<Release>)
    ensures CheckReleases(items, prior) == Ok(releases) <==> ReleasesMatch(items, prior, releases)
  {
    if items == [] || releases == [] {
      assert |ReleasesJson(releases)| == |releases|;
    } else {
      var r, rest := releases[0], releases[1..];
      assert items == [items[0]] + items[1..] && releases == [r] + rest;
      CheckReleaseIff(items[0], prior, r);
      CheckReleasesIff(items[1..], Some(VersionOf(r.productVersion)), rest);
      ReleasesMatchCons(items[0], items[1..], prior, r, rest);
      if CheckReleases(items, prior) == Ok(releases) {
        assert ([r] + rest)[0] == CheckReleases(items, prior).value[0];
      }
    }
  }

  /**
   Validation accepts exactly the documents of valid channels (strictly ascending releases, ascending
   older upgrade sources, bounded sizes, well-formed digests) and reads back the channel they print.
   */
  lemma ValidateIff(j: Json, ch: Channel)
    ensures Validate(j) == Ok(ch) <==> ChannelValid(ch) && j == ChannelJson(ch)
  {
    hide CheckReleases, ReleaseValid, Ascending, ReleasesJson;
    if Validate(j) == Ok(ch) {
      CheckReleasesIff(j.fields[Releases].items, None, ch.releases);
      assert j.fields == ChannelJson(ch).fields;
      SameCount(ch.releases);
    }
    if ChannelValid(ch) && j == ChannelJson(ch) {
      assert j.fields.Keys == TOP_FIELDS;
      SameCount(ch.releases);
      CheckReleasesIff(j.fields[Releases].items, None, ch.releases);
    }
  }

  lemma SameCount(releases: seq<Release>)
    ensures |ReleasesJson(releases)| == |releases|
  {
  }
}
