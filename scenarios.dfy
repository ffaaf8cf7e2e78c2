/**
 * Worked examples: the resource script of a package built with the defaults, after an
 * icon and a language are set, and with each form of manifest.
 */
module Scenarios {
  import opened Wrappers
  import opened Text
  import opened Version
  import opened CargoToml
  import opened Config
  import opened Emitter

  lemma RunOne(c: Config, a: Call)
    ensures Run(c, [a]) == Apply(c, a)
  {
    assert [a][..0] == [];
  }

  lemma RunTwo(c: Config, a: Call, b: Call)
    ensures Run(c, [a, b]) == Apply(Apply(c, a), b)
  {
    assert [a, b][..1] == [a];
    RunOne(c, a);
  }

  /** A configuration holding `major.minor.patch` under both version fields has both word lines in its script. */
  lemma VersionWordLinesOf(c: Config, major: u16, minor: u16, patch: u16, fieldOrder: seq<VersionField>, keyOrder: seq<string>)
    requires IsEnumeration(fieldOrder, c.versionInfo.Keys) && IsEnumeration(keyOrder, c.properties.Keys)
    requires FILEVERSION in c.versionInfo && PRODUCTVERSION in c.versionInfo
    requires c.versionInfo[FILEVERSION] == c.versionInfo[PRODUCTVERSION] == Pack(major, minor, patch)
    ensures var s := Script(c, fieldOrder, keyOrder);
      && "FILEVERSION " + Decimal(major) + ", " + Decimal(minor) + ", " + Decimal(patch) + ", 0" in s
      && "PRODUCTVERSION " + Decimal(major) + ", " + Decimal(minor) + ", " + Decimal(patch) + ", 0" in s
  {
    VersionLinePacked(FILEVERSION, major, minor, patch);
    VersionLinePacked(PRODUCTVERSION, major, minor, patch);
    assert FieldName(FILEVERSION) + " " == "FILEVERSION ";
    assert FieldName(PRODUCTVERSION) + " " == "PRODUCTVERSION ";
    ScriptHasVersionLine(c, fieldOrder, keyOrder, FILEVERSION);
    ScriptHasVersionLine(c, fieldOrder, keyOrder, PRODUCTVERSION);
  }

  /** A configuration holding the default values of the five other fields has their lines in its script. */
  lemma FixedFieldLinesOf(c: Config, fieldOrder: seq<VersionField>, keyOrder: seq<string>)
    requires IsEnumeration(fieldOrder, c.versionInfo.Keys) && IsEnumeration(keyOrder, c.properties.Keys)
    requires FILEOS in c.versionInfo && FILETYPE in c.versionInfo && FILESUBTYPE in c.versionInfo
    requires FILEFLAGSMASK in c.versionInfo && FILEFLAGS in c.versionInfo
    requires c.versionInfo[FILEOS] == 0x40004 && c.versionInfo[FILETYPE] == 1 && c.versionInfo[FILESUBTYPE] == 0
    requires c.versionInfo[FILEFLAGSMASK] == 0x3F && c.versionInfo[FILEFLAGS] == 0
    ensures var s := Script(c, fieldOrder, keyOrder);
      && "FILEOS 0x40004" in s && "FILETYPE 0x1" in s && "FILESUBTYPE 0x0" in s
      && "FILEFLAGSMASK 0x3f" in s && "FILEFLAGS 0x0" in s
  {
    DefaultFieldLines();
    ScriptHasVersionLine(c, fieldOrder, keyOrder, FILEOS);
    ScriptHasVersionLine(c, fieldOrder, keyOrder, FILETYPE);
    ScriptHasVersionLine(c, fieldOrder, keyOrder, FILESUBTYPE);
    ScriptHasVersionLine(c, fieldOrder, keyOrder, FILEFLAGSMASK);
    ScriptHasVersionLine(c, fieldOrder, keyOrder, FILEFLAGS);
  }

  /** A package whose version is `major.minor.patch`, each below 2^16, gets those words in both version lines. */
  lemma DefaultVersionLines(env: Env, major: u16, minor: u16, patch: u16, props: map<string, string>, toolkitPath: string,
                            fieldOrder: seq<VersionField>, keyOrder: seq<string>)
    requires env.versionMajor == Decimal(major) && env.versionMinor == Decimal(minor) && env.versionPatch == Decimal(patch)
    requires var c := Defaults(env, props, toolkitPath);
      IsEnumeration(fieldOrder, c.versionInfo.Keys) && IsEnumeration(keyOrder, c.properties.Keys)
    ensures var s := Script(Defaults(env, props, toolkitPath), fieldOrder, keyOrder);
      && "FILEVERSION " + Decimal(major) + ", " + Decimal(minor) + ", " + Decimal(patch) + ", 0" in s
      && "PRODUCTVERSION " + Decimal(major) + ", " + Decimal(minor) + ", " + Decimal(patch) + ", 0" in s
      && "FILEOS 0x40004" in s && "FILETYPE 0x1" in s && "FILESUBTYPE 0x0" in s
      && "FILEFLAGSMASK 0x3f" in s && "FILEFLAGS 0x0" in s
  {
    var c := Defaults(env, props, toolkitPath);
    var vi := DefaultVersionInfo(env);
    assert c.versionInfo == vi;
    ParseU64Decimal(major);
    ParseU64Decimal(minor);
    ParseU64Decimal(patch);
    assert vi[FILEVERSION] == PackedVersion(env.versionMajor, env.versionMinor, env.versionPatch) == Pack(major, minor, patch);
    VersionWordLinesOf(c, major, minor, patch, fieldOrder, keyOrder);
    FixedFieldLinesOf(c, fieldOrder, keyOrder);
  }

  /**
   * A package with no `package.metadata.winres` section and no setter called: the string
   * table is the neutral-language block and holds the package's name and description.
   */
  lemma MinimalStringTable(env: Env, cargoToml: ManifestRead, toolkitPath: string,
                           fieldOrder: seq<VersionField>, keyOrder: seq<string>)
    requires env.pkgName != "" && env.pkgDescription != ""
    requires WinresTable(cargoToml).None?
    requires var c := Defaults(env, MetadataOverlay(BaseProperties(env), cargoToml), toolkitPath);
      IsEnumeration(fieldOrder, c.versionInfo.Keys) && IsEnumeration(keyOrder, c.properties.Keys)
    ensures var s := Script(Defaults(env, MetadataOverlay(BaseProperties(env), cargoToml), toolkitPath), fieldOrder, keyOrder);
      && "BLOCK \"000004b0\"" in s
      && ValueLine("ProductName", env.pkgName) in s && ValueLine("FileDescription", env.pkgDescription) in s
  {
    var c := Defaults(env, MetadataOverlay(BaseProperties(env), cargoToml), toolkitPath);
    assert c.properties == BaseProperties(env);
    LanguageExamples();
    ScriptHasLanguage(c, fieldOrder, keyOrder);
    ScriptHasValueLine(c, fieldOrder, keyOrder, "ProductName");
    ScriptHasValueLine(c, fieldOrder, keyOrder, "FileDescription");
  }

  /**
   * After `set_icon(path)` and `set_language(lang)` the script names the icon, the block
   * of the language, and its translation.
   */
  lemma IconAndLanguageScript(c: Config, path: string, lang: u16, fieldOrder: seq<VersionField>, keyOrder: seq<string>)
    requires var r := Run(c, [SetIcon(path), SetLanguage(lang)]);
      IsEnumeration(fieldOrder, r.versionInfo.Keys) && IsEnumeration(keyOrder, r.properties.Keys)
    ensures var s := Script(Run(c, [SetIcon(path), SetLanguage(lang)]), fieldOrder, keyOrder);
      && "1 ICON \"" + path + "\"" in s
      && "BLOCK \"" + Hex4(lang) + "04b0\"" in s
      && "VALUE \"Translation\", 0x" + Hex(lang) + ", 0x04b0" in s
  {
    RunTwo(c, SetIcon(path), SetLanguage(lang));
    IconAndLanguageLines(Run(c, [SetIcon(path), SetLanguage(lang)]), path, lang, fieldOrder, keyOrder);
  }

  /** A configuration with an icon and a language has the icon line and both language lines. */
  lemma IconAndLanguageLines(r: Config, path: string, lang: u16, fieldOrder: seq<VersionField>, keyOrder: seq<string>)
    requires r.icon == Some(path) && r.language == lang
    requires IsEnumeration(fieldOrder, r.versionInfo.Keys) && IsEnumeration(keyOrder, r.properties.Keys)
    ensures var s := Script(r, fieldOrder, keyOrder);
      && "1 ICON \"" + path + "\"" in s
      && "BLOCK \"" + Hex4(lang) + "04b0\"" in s
      && "VALUE \"Translation\", 0x" + Hex(lang) + ", 0x04b0" in s
  {
    ScriptHasLanguage(r, fieldOrder, keyOrder);
    ScriptTail(r, fieldOrder, keyOrder);
  }

  /**
   * With `FILETYPE` set, `set_manifest_file(path)` gives the single line
   * `<filetype> 24 "<path>"`; a later `set_manifest(text)` replaces it with the inline
   * form.
   */
  lemma ManifestFileThenInline(c: Config, path: string, text: string)
    requires FILETYPE in c.versionInfo
    ensures ManifestLines(Run(c, [SetManifestFile(path)])) == [Decimal(c.versionInfo[FILETYPE]) + " 24 \"" + path + "\""]
    ensures ManifestLines(Run(c, [SetManifestFile(path), SetManifest(text)]))
         == [Decimal(c.versionInfo[FILETYPE]) + " 24", "{"] + QuotedLines(Lines(text)) + ["}"]
  {
    RunOne(c, SetManifestFile(path));
    RunTwo(c, SetManifestFile(path), SetManifest(text));
    ManifestFileLine(Apply(c, SetManifestFile(path)));
  }
}
