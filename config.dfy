/**
 * The settings a `WindowsResource` holds, as a value: the record the emitter reads, the
 * setter calls as data with their effect, and the defaults `new` starts from. The class
 * in module `Resource` keeps the same fields and is specified through `Config`.
 */
module Config {
  import opened Wrappers
  import opened Text
  import opened Version

  /** A snapshot of the nine fields of `WindowsResource`. */
  datatype Config = Config(
    toolkitPath: string,
    properties: map<string, string>,
    versionInfo: map<VersionField, u64>,
    rcFile: Option<string>,
    icon: Option<string>,
    language: u16,
    manifest: Option<string>,
    manifestFile: Option<string>,
    outputDirectory: string)

  /** At most one of the inline manifest and the manifest file is set. */
  predicate ManifestExclusive(c: Config) {
    c.manifest.None? || c.manifestFile.None?
  }

  /** One call of a setter, with its arguments. */
  datatype Call =
    | Set(name: string, value: string)
    | SetToolkitPath(path: string)
    | SetLanguage(language: u16)
    | SetIcon(path: string)
    | SetVersionInfo(field: VersionField, word: u64)
    | SetManifest(manifest: string)
    | SetManifestFile(file: string)
    | SetResourceFile(path: string)
    | SetOutputDirectory(path: string)

  /** The record after one setter call. */
  function Apply(c: Config, call: Call): Config {
    match call
    case Set(name, value) => c.(properties := c.properties[name := value])
    case SetToolkitPath(path) => c.(toolkitPath := path)
    case SetLanguage(language) => c.(language := language)
    case SetIcon(path) => c.(icon := Some(path))
    case SetVersionInfo(field, word) => c.(versionInfo := c.versionInfo[field := word])
    case SetManifest(manifest) => c.(manifestFile := None, manifest := Some(manifest))
    case SetManifestFile(file) => c.(manifestFile := Some(file), manifest := None)
    case SetResourceFile(path) => c.(rcFile := Some(path))
    case SetOutputDirectory(path) => c.(outputDirectory := path)
  }

  /** The record after a chain of setter calls, applied first to last. */
  function Run(c: Config, calls: seq<Call>): Config
    decreases |calls|
  {
    if calls == [] then c else Apply(Run(c, calls[..|calls| - 1]), calls[|calls| - 1])
  }

  /** The fields of the record, to say which ones a call may change. */
  datatype Field =
    | ToolkitPathField | PropertiesField | VersionInfoField | RcFileField | IconField
    | LanguageField | ManifestField | ManifestFileField | OutputDirectoryField

  /** The fields a call writes. */
  function Targets(call: Call): set<Field> {
    match call
    case Set(_, _) => {PropertiesField}
    case SetToolkitPath(_) => {ToolkitPathField}
    case SetLanguage(_) => {LanguageField}
    case SetIcon(_) => {IconField}
    case SetVersionInfo(_, _) => {VersionInfoField}
    case SetManifest(_) | SetManifestFile(_) => {ManifestField, ManifestFileField}
    case SetResourceFile(_) => {RcFileField}
    case SetOutputDirectory(_) => {OutputDirectoryField}
  }

  /** Two records agree on every field outside `fs`. */
  predicate AgreeOutside(a: Config, b: Config, fs: set<Field>) {
    && (ToolkitPathField !in fs ==> a.toolkitPath == b.toolkitPath)
    && (PropertiesField !in fs ==> a.properties == b.properties)
    && (VersionInfoField !in fs ==> a.versionInfo == b.versionInfo)
    && (RcFileField !in fs ==> a.rcFile == b.rcFile)
    && (IconField !in fs ==> a.icon == b.icon)
    && (LanguageField !in fs ==> a.language == b.language)
    && (ManifestField !in fs ==> a.manifest == b.manifest)
    && (ManifestFileField !in fs ==> a.manifestFile == b.manifestFile)
    && (OutputDirectoryField !in fs ==> a.outputDirectory == b.outputDirectory)
  }

  /**
   * A setter changes only its own field; `set` and `set_version_info` write exactly one key
   * and keep every other key.
   */
  lemma ApplyFrame(c: Config, call: Call)
    ensures AgreeOutside(Apply(c, call), c, Targets(call))
    ensures call.Set? ==> var p := Apply(c, call).properties;
      && p.Keys == c.properties.Keys + {call.name}
      && p[call.name] == call.value
      && forall k | k in c.properties && k != call.name :: p[k] == c.properties[k]
    ensures call.SetVersionInfo? ==> var vi := Apply(c, call).versionInfo;
      && vi.Keys == c.versionInfo.Keys + {call.field}
      && vi[call.field] == call.word
      && forall f | f in c.versionInfo && f != call.field :: vi[f] == c.versionInfo[f]
  {
  }

  /** Each setter call keeps the two manifests exclusive, and each manifest call sets its own and clears the other. */
  lemma ApplyManifest(c: Config, call: Call)
    requires ManifestExclusive(c)
    ensures ManifestExclusive(Apply(c, call))
    ensures call.SetManifest? ==> Apply(c, call).manifest == Some(call.manifest) && Apply(c, call).manifestFile.None?
    ensures call.SetManifestFile? ==> Apply(c, call).manifestFile == Some(call.file) && Apply(c, call).manifest.None?
  {
  }

  /** No chain of setter calls sets both manifests at once. */
  lemma {:induction false} RunKeepsExclusive(c: Config, calls: seq<Call>)
    requires ManifestExclusive(c)
    ensures ManifestExclusive(Run(c, calls))
    decreases |calls|
  {
    if calls != [] {
      RunKeepsExclusive(c, calls[..|calls| - 1]);
      ApplyManifest(Run(c, calls[..|calls| - 1]), calls[|calls| - 1]);
    }
  }

  predicate IsManifestCall(call: Call) {
    call.SetManifest? || call.SetManifestFile?
  }

  /**
   * The manifest settings after a chain are those of its last manifest call; with no
   * manifest call they are those of the start.
   */
  lemma {:induction false} RunManifestLast(c: Config, calls: seq<Call>, i: int)
    requires -1 <= i < |calls|
    requires 0 <= i ==> IsManifestCall(calls[i])
    requires forall j | i < j < |calls| :: !IsManifestCall(calls[j])
    ensures var r := Run(c, calls);
      && (i == -1 ==> r.manifest == c.manifest && r.manifestFile == c.manifestFile)
      && (0 <= i && calls[i].SetManifest? ==> r.manifest == Some(calls[i].manifest) && r.manifestFile.None?)
      && (0 <= i && calls[i].SetManifestFile? ==> r.manifestFile == Some(calls[i].file) && r.manifest.None?)
    decreases |calls|
  {
    if calls != [] {
      var init := calls[..|calls| - 1];
      var last := calls[|calls| - 1];
      if i < |calls| - 1 {
        assert !IsManifestCall(last);
        assert forall j | i < j < |init| :: init[j] == calls[j];
        RunManifestLast(c, init, i);
        ApplyKeepsManifests(Run(c, init), last);
      }
    }
  }

  lemma ApplyKeepsManifests(c: Config, call: Call)
    requires !IsManifestCall(call)
    ensures Apply(c, call).manifest == c.manifest && Apply(c, call).manifestFile == c.manifestFile
  {
  }

  /** The call is a `set` of property `k`. */
  predicate SetsProperty(call: Call, k: string) {
    call.Set? && call.name == k
  }

  /** The call is a `set_version_info` of field `f`. */
  predicate SetsField(call: Call, f: VersionField) {
    call.SetVersionInfo? && call.field == f
  }

  /**
   * A property holds the value of the last `set` of its name; a name never `set` keeps its
   * value from the start, and is present exactly when it was.
   */
  lemma {:induction false} RunPropertyLast(c: Config, calls: seq<Call>, k: string)
    ensures var r := Run(c, calls);
      && (k in r.properties <==> k in c.properties || exists j | 0 <= j < |calls| :: SetsProperty(calls[j], k))
      && (forall j | 0 <= j < |calls| && SetsProperty(calls[j], k) && (forall j' | j < j' < |calls| :: !SetsProperty(calls[j'], k)) ::
            r.properties[k] == calls[j].value)
      && ((forall j | 0 <= j < |calls| :: !SetsProperty(calls[j], k)) && k in c.properties ==>
            r.properties[k] == c.properties[k])
    decreases |calls|
  {
    if calls != [] {
      var init := calls[..|calls| - 1];
      var last := calls[|calls| - 1];
      RunPropertyLast(c, init, k);
      ApplyProperty(Run(c, init), last, k);
      assert forall j | 0 <= j < |init| :: init[j] == calls[j];
      if !SetsProperty(last, k) {
        assert forall j | 0 <= j < |calls| && SetsProperty(calls[j], k) :: j < |init|;
      }
    }
  }

  /** What one call does to one property. */
  lemma ApplyProperty(c: Config, call: Call, k: string)
    ensures var p := Apply(c, call).properties;
      && (SetsProperty(call, k) ==> k in p && p[k] == call.value)
      && (!SetsProperty(call, k) ==> (k in p <==> k in c.properties) && (k in p ==> p[k] == c.properties[k]))
  {
  }

  /** A version field holds the word of the last `set_version_info` of it, or its starting word. */
  lemma {:induction false} RunVersionInfoLast(c: Config, calls: seq<Call>, f: VersionField)
    ensures var r := Run(c, calls);
      && (f in r.versionInfo <==> f in c.versionInfo || exists j | 0 <= j < |calls| :: SetsField(calls[j], f))
      && (forall j | 0 <= j < |calls| && SetsField(calls[j], f) && (forall j' | j < j' < |calls| :: !SetsField(calls[j'], f)) ::
            r.versionInfo[f] == calls[j].word)
      && ((forall j | 0 <= j < |calls| :: !SetsField(calls[j], f)) && f in c.versionInfo ==>
            r.versionInfo[f] == c.versionInfo[f])
    decreases |calls|
  {
    if calls != [] {
      var init := calls[..|calls| - 1];
      var last := calls[|calls| - 1];
      RunVersionInfoLast(c, init, f);
      ApplyVersionInfo(Run(c, init), last, f);
      assert forall j | 0 <= j < |init| :: init[j] == calls[j];
      if !SetsField(last, f) {
        assert forall j | 0 <= j < |calls| && SetsField(calls[j], f) :: j < |init|;
      }
    }
  }

  /** What one call does to one version field. */
  lemma ApplyVersionInfo(c: Config, call: Call, f: VersionField)
    ensures var vi := Apply(c, call).versionInfo;
      && (SetsField(call, f) ==> f in vi && vi[f] == call.word)
      && (!SetsField(call, f) ==> (f in vi <==> f in c.versionInfo) && (f in vi ==> vi[f] == c.versionInfo[f]))
  {
  }

  /** The values `new` reads from the environment cargo sets for a build script. */
  datatype Env = Env(
    pkgVersion: string,          // CARGO_PKG_VERSION
    pkgName: string,             // CARGO_PKG_NAME
    pkgDescription: string,      // CARGO_PKG_DESCRIPTION
    versionMajor: string,        // CARGO_PKG_VERSION_MAJOR
    versionMinor: string,        // CARGO_PKG_VERSION_MINOR
    versionPatch: string,        // CARGO_PKG_VERSION_PATCH
    outDir: Option<string>)      // OUT_DIR, when set

  /** The string table `new` seeds from the package before `Cargo.toml` is read. */
  function BaseProperties(env: Env): (p: map<string, string>)
    ensures p.Keys == {"FileVersion", "ProductVersion", "ProductName", "FileDescription"}
    ensures p["FileVersion"] == p["ProductVersion"] == env.pkgVersion
    ensures p["ProductName"] == env.pkgName && p["FileDescription"] == env.pkgDescription
  {
    map["FileVersion" := env.pkgVersion, "ProductVersion" := env.pkgVersion,
        "ProductName" := env.pkgName, "FileDescription" := env.pkgDescription]
  }

  const VOS_NT_WINDOWS32: u64 := 0x40004
  const VFT_APP: u64 := 1
  const VFT2_UNKNOWN: u64 := 0
  const VS_FFI_FILEFLAGSMASK: u64 := 0x3F

  /** The version-info fields of `new`: all seven set, the two version words packed from the package version. */
  function DefaultVersionInfo(env: Env): (vi: map<VersionField, u64>)
    ensures vi.Keys == {FILEVERSION, PRODUCTVERSION, FILEOS, FILETYPE, FILESUBTYPE, FILEFLAGSMASK, FILEFLAGS}
    ensures vi[FILEVERSION] == vi[PRODUCTVERSION]
    ensures vi[FILEOS] == 0x40004 && vi[FILETYPE] == 1 && vi[FILESUBTYPE] == 0
    ensures vi[FILEFLAGSMASK] == 0x3F && vi[FILEFLAGS] == 0
  {
    var v := PackedVersion(env.versionMajor, env.versionMinor, env.versionPatch);
    map[FILEVERSION := v, PRODUCTVERSION := v, FILEOS := VOS_NT_WINDOWS32, FILETYPE := VFT_APP,
        FILESUBTYPE := VFT2_UNKNOWN, FILEFLAGSMASK := VS_FFI_FILEFLAGSMASK, FILEFLAGS := 0]
  }

  /** With minor and patch below 2^16 the version words are the major modulo 2^16, the minor, the patch and zero. */
  lemma DefaultVersionWords(env: Env)
    requires Component(env.versionMinor) < 0x1_0000 && Component(env.versionPatch) < 0x1_0000
    ensures Unpack(DefaultVersionInfo(env)[FILEVERSION])
        == Quad(Component(env.versionMajor) % 0x1_0000, Component(env.versionMinor), Component(env.versionPatch), 0)
  {
    var a, b, c := Component(env.versionMajor), Component(env.versionMinor), Component(env.versionPatch);
    PackTruncatesMajor(a, b, c);
    UnpackPack(a % 0x1_0000, b, c);
  }

  /** Bits of the major component past the top word are shifted out: only its low 16 bits survive. */
  lemma PackTruncatesMajor(a: nat, b: u16, c: u16)
    ensures Pack(a, b, c) == Pack(a % 0x1_0000, b, c)
  {
    var hi := (a * 0x1_0000_0000_0000) % U64_LIMIT;
    assert a == (a / 0x1_0000) * 0x1_0000 + a % 0x1_0000;
    assert a * 0x1_0000_0000_0000 == (a / 0x1_0000) * U64_LIMIT + (a % 0x1_0000) * 0x1_0000_0000_0000;
    assert hi == (a % 0x1_0000) * 0x1_0000_0000_0000;
    assert ((a % 0x1_0000) * 0x1_0000_0000_0000) % U64_LIMIT == hi;
  }

  /**
   * The record `new` builds: the package properties with the `Cargo.toml` overlay already
   * applied (`props`), the default version info, the kit path found in the registry, no
   * icon, manifest or resource file, neutral language, and `OUT_DIR` (or `.`) as output.
   */
  function Defaults(env: Env, props: map<string, string>, toolkitPath: string): (c: Config)
    ensures ManifestExclusive(c)
    ensures c.language == 0 && c.icon.None? && c.rcFile.None? && c.manifest.None? && c.manifestFile.None?
    ensures c.outputDirectory == if env.outDir.Some? then env.outDir.value else "."
  {
    Config(toolkitPath, props, DefaultVersionInfo(env), None, None, 0, None, None, env.outDir.GetOr("."))
  }

  /** No element occurs twice. */
  predicate Distinct<K(==)>(s: seq<K>) {
    forall i, j | 0 <= i < j < |s| :: s[i] != s[j]
  }

  /** `seq` lists every element of `keys` exactly once. */
  predicate IsEnumeration<K>(s: seq<K>, keys: set<K>) {
    && (forall i | 0 <= i < |s| :: s[i] in keys)
    && (forall k | k in keys :: k in s)
    && Distinct(s)
  }

  /** An enumeration of a set is as long as the set is large. */
  lemma {:induction false} EnumerationSize<K>(s: seq<K>, keys: set<K>)
    requires IsEnumeration(s, keys)
    ensures |s| == |keys|
    decreases |s|
  {
    if s != [] {
      var init := s[..|s| - 1];
      var last := s[|s| - 1];
      assert forall k | k in keys - {last} :: k in init by {
        forall k | k in keys - {last} ensures k in init {
          var i :| 0 <= i < |s| && s[i] == k;
          assert i < |s| - 1;
          assert init[i] == k;
        }
      }
      EnumerationSize(init, keys - {last});
    } else {
      assert forall k | k in keys :: false;
      assert keys == {};
    }
  }
}
