/**
 * The release script utils/update-manifest.js: it decides the version to stamp into
 * system.json from the CI tag and commit, and overrides the manifest and download URLs with
 * the ones given on the command line. Reading the environment, the command line and the
 * file are left to the caller: their values arrive as parameters.
 */
module UpdateManifest {
  import opened Wrappers

  /** A value interpolated into a template literal: a missing one prints as `undefined`. */
  function Show(v: Option<string>): (r: string)
    ensures v.Some? ==> r == v.value
    ensures v.None? ==> r == "undefined"
  {
    if v.Some? then v.value else "undefined"
  }

  /** The first value unless it is missing, else the second. */
  function Coalesce<T>(a: Option<T>, b: Option<T>): (r: Option<T>)
    ensures a.Some? ==> r == a
    ensures a.None? ==> r == b
  {
    if a.Some? then a else b
  }

  /** What the CI environment says about the build. */
  datatype Build = Build(tag: Option<string>, commitSha: Option<string>)

  /** The command-line options. */
  datatype Options = Options(systemVersion: Option<string>, manifest: Option<string>, download: Option<string>)

  /** The three manifest members the script writes. */
  datatype ManifestData = ManifestData(version: Option<string>, manifest: Option<string>, download: Option<string>)

  /**
   * `getSystemVersion()`: an untagged build with a commit SHA gets the current version
   * suffixed with `-<sha>`; a tagged build gets the version given on the command line; any
   * other build keeps the current version.
   */
  function GetSystemVersion(version: Option<string>, build: Build, systemVersion: Option<string>): (r: Option<string>)
    ensures !TruthyText(build.tag) && TruthyText(build.commitSha) ==> r == Some(Show(version) + "-" + build.commitSha.value)
    ensures TruthyText(build.tag) ==> r == systemVersion
    ensures !TruthyText(build.tag) && !TruthyText(build.commitSha) ==> r == version
  {
    if !TruthyText(build.tag) && TruthyText(build.commitSha) then Some(Show(version) + "-" + build.commitSha.value)
    else if TruthyText(build.tag) then systemVersion
    else version
  }

  /** `newManifestData`: the version decision, and each URL from the command line unless it was not given. */
  function NewManifestData(current: ManifestData, build: Build, options: Options): (r: ManifestData)
    ensures r.version == GetSystemVersion(current.version, build, options.systemVersion)
    ensures r.manifest == Coalesce(options.manifest, current.manifest)
    ensures r.download == Coalesce(options.download, current.download)
  {
    ManifestData(
      GetSystemVersion(current.version, build, options.systemVersion),
      Coalesce(options.manifest, current.manifest),
      Coalesce(options.download, current.download))
  }

  /** A tagged build does not depend on the commit SHA. */
  lemma TaggedIgnoresSha(version: Option<string>, tag: string, sha1: Option<string>, sha2: Option<string>, systemVersion: Option<string>)
    requires tag != []
    ensures GetSystemVersion(version, Build(Some(tag), sha1), systemVersion)
         == GetSystemVersion(version, Build(Some(tag), sha2), systemVersion)
  {
  }

  /** Running the script twice on a tagged build gives the same manifest data as running it once. */
  lemma TaggedIdempotent(current: ManifestData, build: Build, options: Options)
    requires TruthyText(build.tag)
    ensures NewManifestData(NewManifestData(current, build, options), build, options)
         == NewManifestData(current, build, options)
  {
  }

  /**
   * Running it twice on an untagged build with a SHA appends the SHA twice: the version keeps
   * growing, so the script is not idempotent there.
   */
  lemma UntaggedAccumulates(current: ManifestData, build: Build, options: Options)
    requires !TruthyText(build.tag) && TruthyText(build.commitSha)
    ensures var once := NewManifestData(current, build, options);
            var twice := NewManifestData(once, build, options);
            && once.version.Some? && twice.version.Some?
            && twice.version.value == once.version.value + "-" + build.commitSha.value
            && twice.version != once.version
  {
    var once := NewManifestData(current, build, options);
    var twice := NewManifestData(once, build, options);
    assert |twice.version.value| > |once.version.value|;
  }

  /** The untagged version starts with the current one, whatever it was. */
  lemma UntaggedKeepsPrefix(current: ManifestData, build: Build, options: Options)
    requires !TruthyText(build.tag) && TruthyText(build.commitSha) && current.version.Some?
    ensures var v := NewManifestData(current, build, options).version.value;
            && |current.version.value| < |v|
            && v[..|current.version.value|] == current.version.value
            && v[|current.version.value|] == '-'
  {
    var v := NewManifestData(current, build, options).version.value;
    assert v == current.version.value + ("-" + build.commitSha.value);
  }

  /** The parsed system.json: the three members the script writes, and everything else. */
  class Manifest {
    var version: Option<string>
    var manifest: Option<string>
    var download: Option<string>
    var others: map<string, string>

    constructor (version: Option<string>, manifest: Option<string>, download: Option<string>, others: map<string, string>)
      ensures this.version == version && this.manifest == manifest && this.download == download
      ensures this.others == others
    {
      this.version := version;
      this.manifest := manifest;
      this.download := download;
      this.others := others;
    }

    /** The members the script reads and writes. */
    function Data(): ManifestData
      reads this
    {
      ManifestData(version, manifest, download)
    }

    /**
     * The top level of the script: compute `newManifestData` from the manifest as read, then
     * assign its three members into the manifest. No other member changes.
     */
    method Update(build: Build, options: Options) returns (data: ManifestData)
      modifies this
      ensures data == NewManifestData(old(Data()), build, options)
      ensures Data() == data
      ensures others == old(others)
    {
      data := ManifestData(
        GetSystemVersion(version, build, options.systemVersion),
        Coalesce(options.manifest, manifest),
        Coalesce(options.download, download));
      version := data.version;
      manifest := data.manifest;
      download := data.download;
    }
  }
}
