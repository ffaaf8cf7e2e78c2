/**
 * `WindowsResource`: the record `new` builds, its setters, `write_resource_file` as the
 * lines it writes, and the choice `compile` makes of the script it hands to the resource
 * compiler. Every method is specified through the value `Snapshot()` of the fields.
 */
module Resource {
  import opened Wrappers
  import opened Text
  import opened Version
  import opened CargoToml
  import opened Sdk
  import opened Config
  import opened Emitter

  /** The kit list `get_sdk` gives for a registry output, or its error. */
  function SdkResult(registry: Option<string>, x64: bool, pathExists: string -> bool): Result<seq<string>, SdkError> {
    if registry.None? then Failure(QueryFailed) else ScanKits(Lines(registry.value), x64, pathExists)
  }

  /** The file `compile` hands to the resource compiler: the user's own, or `resource.rc` in the output directory. */
  function CompileInput(c: Config): (p: string)
    ensures c.rcFile.Some? ==> p == c.rcFile.value
    ensures c.rcFile.None? ==>
      && StartsWith(p, c.outputDirectory) && |p| >= |c.outputDirectory| + 11 && p[|p| - 11..] == "resource.rc"
      && (c.outputDirectory != [] && !IsBareDrive(c.outputDirectory) ==> IsSeparator(p[|p| - 12]))
  {
    if c.rcFile.Some? then c.rcFile.value else JoinPath(c.outputDirectory, "resource.rc")
  }

  /** The four properties `new` inserts before reading `Cargo.toml`. */
  method NewProperties(env: Env) returns (props: map<string, string>)
    ensures props == BaseProperties(env)
  {
    props := map[];
    props := props["FileVersion" := env.pkgVersion];
    props := props["ProductVersion" := env.pkgVersion];
    props := props["ProductName" := env.pkgName];
    props := props["FileDescription" := env.pkgDescription];
  }

  /** The seven version fields `new` inserts. */
  method NewVersionInfo(env: Env) returns (ver: map<VersionField, u64>)
    ensures ver == DefaultVersionInfo(env)
  {
    var version := PackedVersion(env.versionMajor, env.versionMinor, env.versionPatch);
    ver := map[];
    ver := ver[FILEVERSION := version];
    ver := ver[PRODUCTVERSION := version];
    ver := ver[FILEOS := 0x40004];
    ver := ver[FILETYPE := 1];
    ver := ver[FILESUBTYPE := 0];
    ver := ver[FILEFLAGSMASK := 0x3F];
    ver := ver[FILEFLAGS := 0];
  }

  /** The loop over the manifest's lines: each quoted, its quotes doubled and its ends trimmed. */
  method QuoteLines(ls: seq<string>) returns (lines: seq<string>)
    ensures lines == QuotedLines(ls)
  {
    lines := [];
    var n := 0;
    while n < |ls|
      invariant n <= |ls|
      invariant lines == QuotedLines(ls[..n])
    {
      MapSeqSnoc(QuotedLine, ls, n);
      lines := lines + [QuotedLine(ls[n])];
      n := n + 1;
    }
    assert ls[..n] == ls;
  }

  class WindowsResource {
    var toolkitPath: string
    var properties: map<string, string>
    var versionInfo: map<VersionField, u64>
    var rcFile: Option<string>
    var icon: Option<string>
    var language: u16
    var manifest: Option<string>
    var manifestFile: Option<string>
    var outputDirectory: string

    /** The fields as a value. */
    function Snapshot(): Config
      reads this
    {
      Config(toolkitPath, properties, versionInfo, rcFile, icon, language, manifest, manifestFile, outputDirectory)
    }

    /** The inline manifest and the manifest file are never both set. */
    predicate Valid()
      reads this
    {
      ManifestExclusive(Snapshot())
    }

    /**
     * `new`: seeds the string table from the package, overlays `package.metadata.winres`,
     * packs the package version, and takes the last Windows Kits root found. It panics
     * when `Cargo.toml` cannot be read, when a `KitsRoot` line has no `REG_SZ`, and when
     * the registry lists no usable kit: those are its preconditions.
     */
    constructor (env: Env, cargoToml: ManifestRead, registry: Option<string>, x64: bool, pathExists: string -> bool)
      requires !cargoToml.Unreadable?
      requires SdkResult(registry, x64, pathExists).Failure? ==> SdkResult(registry, x64, pathExists).error == QueryFailed
      requires SdkResult(registry, x64, pathExists).Success? ==> SdkResult(registry, x64, pathExists).value != []
      ensures Valid()
      ensures Snapshot() == Defaults(env, MetadataOverlay(BaseProperties(env), cargoToml),
                                     DefaultToolkitPath(SdkResult(registry, x64, pathExists)))
    {
      var props := NewProperties(env);
      var overlaid := ParseCargoToml(props, cargoToml);
      var ver := NewVersionInfo(env);
      var sdk := GetSdk(registry, x64, pathExists);
      assert sdk == SdkResult(registry, x64, pathExists);
      var kit := if sdk.Success? then sdk.value[|sdk.value| - 1] else "";
      assert kit == DefaultToolkitPath(sdk);
      toolkitPath := kit;
      properties := overlaid.value;
      versionInfo := ver;
      rcFile := None;
      icon := None;
      language := 0;
      manifest := None;
      manifestFile := None;
      outputDirectory := if env.outDir.Some? then env.outDir.value else ".";
    }

    /** `set`: inserts or overwrites one property. */
    method SetProperty(name: string, value: string)
      requires Valid()
      modifies this`properties
      ensures Valid()
      ensures properties == old(properties)[name := value]
      ensures Snapshot() == Apply(old(Snapshot()), Set(name, value))
    {
      properties := properties[name := value];
    }

    /** `set_toolkit_path`. */
    method SetToolkitPath(path: string)
      requires Valid()
      modifies this`toolkitPath
      ensures Valid()
      ensures toolkitPath == path
      ensures Snapshot() == Apply(old(Snapshot()), Call.SetToolkitPath(path))
    {
      toolkitPath := path;
    }

    /** `set_language`. */
    method SetLanguage(lang: u16)
      requires Valid()
      modifies this`language
      ensures Valid()
      ensures language == lang
      ensures Snapshot() == Apply(old(Snapshot()), Call.SetLanguage(lang))
    {
      language := lang;
    }

    /** `set_icon`. */
    method SetIcon(path: string)
      requires Valid()
      modifies this`icon
      ensures Valid()
      ensures icon == Some(path)
      ensures Snapshot() == Apply(old(Snapshot()), Call.SetIcon(path))
    {
      icon := Some(path);
    }

    /** `set_version_info`: inserts or overwrites one field. */
    method SetVersionInfo(field: VersionField, value: u64)
      requires Valid()
      modifies this`versionInfo
      ensures Valid()
      ensures versionInfo == old(versionInfo)[field := value]
      ensures Snapshot() == Apply(old(Snapshot()), Call.SetVersionInfo(field, value))
    {
      versionInfo := versionInfo[field := value];
    }

    /** `set_manifest`: sets the inline manifest and drops any manifest file. */
    method SetManifest(text: string)
      modifies this`manifest, this`manifestFile
      ensures manifest == Some(text) && manifestFile.None?
      ensures Valid()
      ensures Snapshot() == Apply(old(Snapshot()), Call.SetManifest(text))
    {
      manifestFile := None;
      manifest := Some(text);
    }

    /** `set_manifest_file`: sets the manifest file and drops any inline manifest. */
    method SetManifestFile(file: string)
      modifies this`manifest, this`manifestFile
      ensures manifestFile == Some(file) && manifest.None?
      ensures Valid()
      ensures Snapshot() == Apply(old(Snapshot()), Call.SetManifestFile(file))
    {
      manifestFile := Some(file);
      manifest := None;
    }

    /** `set_resource_file`. */
    method SetResourceFile(path: string)
      requires Valid()
      modifies this`rcFile
      ensures Valid()
      ensures rcFile == Some(path)
      ensures Snapshot() == Apply(old(Snapshot()), Call.SetResourceFile(path))
    {
      rcFile := Some(path);
    }

    /** `set_output_directory`. */
    method SetOutputDirectory(path: string)
      requires Valid()
      modifies this`outputDirectory
      ensures Valid()
      ensures outputDirectory == path
      ensures Snapshot() == Apply(old(Snapshot()), Call.SetOutputDirectory(path))
    {
      outputDirectory := path;
    }

    /** The loop over `version_info`: one line per field, in iteration order. */
    method VersionSection(fieldOrder: seq<VersionField>) returns (lines: seq<string>)
      requires forall i | 0 <= i < |fieldOrder| :: fieldOrder[i] in versionInfo
      ensures lines == VersionLines(versionInfo, fieldOrder)
    {
      lines := [];
      var i := 0;
      while i < |fieldOrder|
        invariant i <= |fieldOrder|
        invariant lines == VersionLines(versionInfo, fieldOrder[..i])
      {
        VersionLinesSnoc(versionInfo, fieldOrder, i);
        var f := fieldOrder[i];
        var v := versionInfo[f];
        var line;
        if f == FILEVERSION || f == PRODUCTVERSION {
          line := FieldName(f) + " " + Decimal((v / 0x1_0000_0000_0000) % 0x1_0000) + ", "
            + Decimal((v / 0x1_0000_0000) % 0x1_0000) + ", " + Decimal((v / 0x1_0000) % 0x1_0000) + ", "
            + Decimal(v % 0x1_0000);
        } else {
          line := FieldName(f) + " 0x" + Hex(v);
        }
        assert line == VersionLine(f, v);
        lines := lines + [line];
        i := i + 1;
      }
      assert fieldOrder[..i] == fieldOrder;
    }

    /** The loop over `properties`: a `VALUE` line for each property whose value is not empty. */
    method PropertySection(keyOrder: seq<string>) returns (lines: seq<string>)
      requires forall i | 0 <= i < |keyOrder| :: keyOrder[i] in properties
      ensures lines == PropertyLines(properties, keyOrder)
    {
      lines := [];
      var j := 0;
      while j < |keyOrder|
        invariant j <= |keyOrder|
        invariant lines == PropertyLines(properties, keyOrder[..j])
      {
        var k := keyOrder[j];
        var v := properties[k];
        assert keyOrder[..j + 1][..j] == keyOrder[..j];
        if v != "" {
          lines := lines + ["VALUE \"" + k + "\", \"" + v + "\""];
        }
        j := j + 1;
      }
      assert keyOrder[..j] == keyOrder;
    }

    /** The manifest resource, when `FILETYPE` is set: inline, line by line, or as a file reference. */
    method ManifestSection() returns (lines: seq<string>)
      ensures lines == ManifestLines(Snapshot())
    {
      lines := [];
      if FILETYPE in versionInfo {
        var e := Decimal(versionInfo[FILETYPE]);
        if manifest.Some? {
          var quoted := QuoteLines(Lines(manifest.value));
          lines := [e + " 24", "{"] + quoted + ["}"];
        } else if manifestFile.Some? {
          lines := [e + " 24 \"" + manifestFile.value + "\""];
        }
      }
    }

    /**
     * `write_resource_file`: the lines of the script, with the version fields and the
     * properties visited in the given iteration orders.
     */
    method WriteResourceFile(fieldOrder: seq<VersionField>, keyOrder: seq<string>) returns (lines: seq<string>)
      requires Valid()
      requires IsEnumeration(fieldOrder, versionInfo.Keys) && IsEnumeration(keyOrder, properties.Keys)
      ensures lines == Script(Snapshot(), fieldOrder, keyOrder)
    {
      lines := ["#pragma code_page(65001)", "1 VERSIONINFO"];
      var versionLines := VersionSection(fieldOrder);
      lines := lines + versionLines;
      lines := lines + ["{", "BLOCK \"StringFileInfo\"", "{", "BLOCK \"" + Hex4(language) + "04b0\"", "{"];
      var valueLines := PropertySection(keyOrder);
      lines := lines + valueLines;
      lines := lines + ["}", "}", "BLOCK \"VarFileInfo\" {", "VALUE \"Translation\", 0x" + Hex(language) + ", 0x04b0", "}", "}"];
      if icon.Some? {
        lines := lines + ["1 ICON \"" + icon.value + "\""];
      }
      var manifestLines := ManifestSection();
      lines := lines + manifestLines;
    }

    /**
     * `compile`, up to the call of the resource compiler: with no resource file of the
     * user's, the script is generated and written to `resource.rc` in the output
     * directory; the compiler is given the user's file or that one.
     */
    method Compile(fieldOrder: seq<VersionField>, keyOrder: seq<string>) returns (input: string, script: Option<seq<string>>)
      requires Valid()
      requires IsEnumeration(fieldOrder, versionInfo.Keys) && IsEnumeration(keyOrder, properties.Keys)
      ensures input == CompileInput(Snapshot())
      ensures rcFile.None? <==> script.Some?
      ensures script.Some? ==> script.value == Script(Snapshot(), fieldOrder, keyOrder)
    {
      var rc := JoinPath(outputDirectory, "resource.rc");
      script := None;
      if rcFile.None? {
        var lines := WriteResourceFile(fieldOrder, keyOrder);
        script := Some(lines);
      }
      input := if rcFile.Some? then rcFile.value else rc;
    }
  }
}
