# winres, modelled in Dafny

`winres` is a Rust build-script helper. A `build.rs` creates a `WindowsResource`,
adjusts it with setters, and calls `compile`. That writes a Windows resource script
(`resource.rc`) describing the version information, string table, icon and manifest of
the executable, and hands it to the resource compiler of the installed Windows SDK or
MinGW. This project models the core of `lib.rs` and proves what it promises:

- `Version`: the seven `VersionInfo` fields. It packs `major.minor.patch` into one `u64`
  in `WindowsResource::new`, with bits shifted past bit 63 dropped, and unpacks the four
  16-bit words when `FILEVERSION`/`PRODUCTVERSION` are written. Packing uses a bit-level
  OR.
- `Text`: the parts of the Rust standard library the core relies on:
  - `str::trim` with Unicode White_Space, `str::lines`, `str::find` and
    `str::replace("\"", "\"\"")`;
  - the `{}`, `{:#x}` and `{:04x}` formats, and `u64` parsing;
  - Windows `PathBuf::join`, and the UTF-8 length of a prefix.
- `CargoToml`: `parse_cargo_toml`, which overlays the string entries of
  `[package.metadata.winres]` onto the properties.
- `Sdk`: `get_sdk`, the scan of the `reg query` output for Windows Kits roots whose
  `rc.exe` exists.
- `Config`: the record as a value, each setter call as data (`Call`) with its effect
  (`Apply`, `Run`), and the defaults of `new`.
- `Emitter`: the script `write_resource_file` writes, as a sequence of lines (`Script`),
  and what it contains.
- `Resource`: the class `WindowsResource`. It has the nine fields of the Rust struct, a
  constructor for `new`, one method per setter, `WriteResourceFile` with its loops over
  `version_info`, `properties` and the manifest lines, and `Compile`'s choice of input
  file. Each method is specified through `Snapshot()`, the fields as a `Config`.
- `Scenarios`: worked examples built on the lemmas above. They cover a default package,
  an icon plus a language, and both manifest forms.

`HashMap` iteration order is not fixed by Rust. `write_resource_file` therefore takes the
order as a parameter, a sequence that lists each key exactly once (`IsEnumeration`). Every
property of the script is proved for any such order. The `parse_cargo_toml` loop picks
its next key with `:|`, so its result is proved for every visiting order.

Three behaviours of `lib.rs` shape the model:

- `get_sdk` fails in two ways. It returns an `io::Error` when `reg` cannot run or its
  output is not UTF-8. It panics, through `find(..).unwrap()`, on a `KitsRoot` line without
  `REG_SZ`. `Sdk.GetSdk` returns `QueryFailed` and `MissingRegSz` for these, and `new`
  requires that the second does not happen.
- `new` takes the last kit found with `v.pop().unwrap()`, which panics when a successful
  query lists no usable kit. The constructor therefore requires a non-empty kit list
  whenever the query succeeds. The empty string is the toolkit path only when the query
  itself fails.
- `new` packs three components and leaves the fourth 16-bit word zero; the line that
  would set it is commented out. The unpacking side reads back any four words
  (`Version.WordsOfSum`), and packing then unpacking gives the three components and a
  zero fourth word (`Version.UnpackPack`).

## Model

| member | source | states |
|---|---|---|
| Version.Pack | lib.rs:173-176 | the packed version, the OR of `major << 48`, `minor << 32` and `patch << 16` on `u64`; its contract bounds it below 2^64, and its meaning is stated in `PackIsSum`, `UnpackPack`, `PackTruncatesMajor`, `MinorOverflowsIntoMajor` and `PackOverlapping` |
| Version.Or | lib.rs:173-176 | the bitwise OR of the compound assignments; shown to be a sum on disjoint words in `PackIsSum` |
| Version.Unpack | lib.rs:369-372 | the four words `(v >> 48) as u16`, `(v >> 32) as u16`, `(v >> 16) as u16`, `v as u16`; meaning in `WordsOfSum`, `PackUnpack`, `VersionLineWords` |
| Version.Component | lib.rs:174-176 | `parse().unwrap_or(0)`: the parsed `u64`, or 0; its contract bounds it below 2^64, and `ParseU64Decimal` and `PackedVersionRoundTrip` state which texts give which value |
| Version.PackedVersion | lib.rs:173-176 | the word stored under both version fields; meaning in `PackedVersionRoundTrip`, `DefaultVersionWords` |
| Version.FieldName | lib.rs:367-368 | `{:?}` of a field, its variant name; used in `DefaultFieldLines` and `VersionLinePacked` |
| Config.Apply | lib.rs:226-350 | the effect of one setter call (including `set_resource_file` and `set_output_directory`, lib.rs:412-424); meaning in `ApplyFrame`, `ApplyManifest` |
| Config.Run | lib.rs:226-350 | a chain of setter calls applied first to last; meaning in `RunKeepsExclusive`, `RunManifestLast`, `RunPropertyLast`, `RunVersionInfoLast` |
| Emitter.Script | lib.rs:353-405 | the whole script in write order; meaning in `ScriptLength`, `ScriptHasVersionLine`, `ScriptHasValueLine`, `ScriptHasLanguage`, `ScriptTail` |
| Emitter.VersionLine | lib.rs:362-376 | one `version_info` line; meaning in `VersionLinePacked`, `VersionLineWords`, `VersionLineHex`, `DefaultFieldLines` |
| Emitter.VersionLines | lib.rs:362-376 | the version lines in iteration order; meaning in `VersionSectionComplete` |
| Emitter.StringFileInfoOpen | lib.rs:377-378 | the string-table opening lines; meaning in `LanguageLines` |
| Emitter.EmittedKeys | lib.rs:379-383 | the keys visited whose value is not empty; meaning in `EmittedKeysMembers`, `PropertySection` |
| Emitter.PropertyLines | lib.rs:379-383 | the `VALUE` lines in iteration order; meaning in `PropertySection` |
| Emitter.Closing | lib.rs:384-388 | the closing and `VarFileInfo` lines; meaning in `LanguageLines` |
| Emitter.IconLines | lib.rs:389-391 | the icon line when an icon is set; meaning in `ScriptTail` |
| Emitter.ManifestLines | lib.rs:392-403 | the manifest resource; meaning in `ManifestPresent`, `ManifestInline`, `ManifestFileLine` |
| Emitter.QuotedLine | lib.rs:397 | one inline manifest line; meaning in `QuotedLineDecodes`, `QuotedAttributeLine` |
| Emitter.QuotedLines | lib.rs:396-398 | the quoted manifest lines in order; meaning in `ManifestInline` |
| Sdk.IsKitsRootLine | lib.rs:523 | a line whose trimmed form starts with `KitsRoot`; meaning in `ClassifyCases` |
| Sdk.KitOf | lib.rs:524-527 | the root after `REG_SZ`, or none when `REG_SZ` is missing; meaning in `KitAtAscii`, `ScanKitsFails` |
| Sdk.KitAt | lib.rs:524-527 | the characters after the byte offset of `REG_SZ` plus six, leading whitespace skipped; meaning in `KitAtAscii` |
| Sdk.RcExePath | lib.rs:529-534 | the kit joined with the architecture's `rc.exe` path; used in `ScanKitsSound`, `ScanKitsComplete` |
| Sdk.Classify | lib.rs:523-539 | what the loop does with one line; meaning in `ClassifyCases` |
| Sdk.Outcomes | lib.rs:522-541 | the outcome of every line, in registry order; meaning in `ScanKitsFails`, `ScanKitsSound`, `ScanKitsComplete`, `ScanKitsAppend` |
| Sdk.Scan | lib.rs:522-541 | the kits kept up to the first stop; meaning in `ScanKitsFails`, `ScanKitsSound`, `ScanKitsComplete`, `ScanKitsAppend` |
| Sdk.ScanKits | lib.rs:522-541 | the scan of the registry lines; `GetSdk` is proved equal to it |
| CargoToml.Lookup | lib.rs:552 | `lookup("metadata.winres")`, key by key; used in `OverrideWins` |
| CargoToml.WinresTable | lib.rs:550-553 | the `package.metadata.winres` table when the document parses and has one; meaning in `OverlayEntries` |
| CargoToml.Overlay | lib.rs:554-561 | the properties with the section's string entries written over them; meaning in `OverlayIdempotent`, `OverlayStep` |
| CargoToml.MetadataOverlay | lib.rs:550-574 | the properties after `parse_cargo_toml`; meaning in `OverlayEntries`, `OverrideWins` |
| Text.Trim | lib.rs:397 | `str::trim`, through `TrimStart` and `TrimEnd`; meaning in `TrimDoubleQuotes` |
| Text.DoubleQuotes | lib.rs:397 | `replace("\"", "\"\"")`; meaning in `UndoubleDoubleQuotes`, `DoubleQuotesCount`, `TrimDoubleQuotes` |
| Text.Decimal | lib.rs:369-372 | `{}` of an unsigned integer; meaning in `FromBaseToBase`, `ParseU64Decimal` |
| Text.Hex | lib.rs:374 | `{:x}`, the digits of `{:#x}`; meaning in `FromBaseToBase`, `ToBase`, `VersionLineHex` |
| Text.Hex4 | lib.rs:378 | `{:04x}`; meaning in `Hex4Exact` |
| Text.Utf8Len | lib.rs:525 | the byte length `find` counts in; meaning in `AsciiUtf8Len` |
| Resource.SdkResult | lib.rs:186-189 | the result of `get_sdk` that `new` matches on; `GetSdk` is proved equal to it |
| Version.PackIsSum | lib.rs:173-176 | with every component below 2^16, the OR of the three shifted components equals their sum |
| Version.UnpackPack | lib.rs:173-179 | unpacking the packed `major.minor.patch` gives back the three components and a zero fourth word |
| Version.WordsOfSum | lib.rs:366-372 | the four shifts-and-truncations read back all four 16-bit words of `w3·2^48 + w2·2^32 + w1·2^16 + w0` |
| Version.PackUnpack | lib.rs:366-372 | a 64-bit value whose lowest word is zero is the packing of the upper three words it unpacks to |
| Version.PackOverlapping | lib.rs:174-175 | when the shifted minor sets the same bits as the shifted major, the packed word holds them once and is not the sum of the two |
| Version.MinorOverflowsIntoMajor | lib.rs:175 | a minor component of 65536 is shifted into the major word: unpacked, it reads as `1.0.0.0` |
| Version.PackedVersionRoundTrip | lib.rs:173-176 | components written in decimal and below 2^16, parsed and packed, unpack to themselves |
| Config.PackTruncatesMajor | lib.rs:174 | `major << 48` on `u64` keeps only the low 16 bits of the major component |
| Config.DefaultVersionWords | lib.rs:173-179 | the default `FILEVERSION` unpacks to `major mod 2^16`, minor, patch, 0 when minor and patch fit a word |
| Config.BaseProperties | lib.rs:159-169 | the seeded properties are exactly `FileVersion`, `ProductVersion` (both the package version), `ProductName` and `FileDescription` |
| Config.DefaultVersionInfo | lib.rs:178-184 | the default version info has exactly the seven fields, equal file and product versions, and the constants `0x40004`, `1`, `0`, `0x3F`, `0` |
| Config.Defaults | lib.rs:191-201 | a new record has no icon, resource file or manifest, language 0, and output directory `OUT_DIR` or `.` |
| Config.ApplyFrame | lib.rs:226-350 | each setter changes only its own field; `set` and `set_version_info` write one key and keep every other |
| Config.ApplyManifest | lib.rs:334-350 | `set_manifest` and `set_manifest_file` each set their own form and clear the other, and every setter keeps the two exclusive |
| Config.RunKeepsExclusive | lib.rs:334-350 | along any chain of setter calls the inline manifest and the manifest file are never both set |
| Config.RunManifestLast | lib.rs:334-350 | after a chain, the manifest is that of the last manifest call, or the initial one when there is none |
| Config.RunPropertyLast | lib.rs:226-229 | after a chain, a property holds the value of its last `set`, or its initial value; it is present exactly when it was present or was set |
| Config.RunVersionInfoLast | lib.rs:308-311 | after a chain, a version field holds the value of its last `set_version_info`, or its initial value; it is present exactly when it was present or was set |
| Text.TrimStart | lib.rs:526 | the result is a suffix of the input; everything dropped is whitespace, and the result does not start with whitespace |
| Text.TrimEnd | lib.rs:397 | the result is a prefix of the input; everything dropped is whitespace, and the result does not end with whitespace |
| Text.Find | lib.rs:525 | the index returned is the first occurrence of the pattern; `None` means it occurs nowhere |
| Text.Lines | lib.rs:396 | no line of `str::lines` contains a newline |
| Text.LinesRoundTrip | lib.rs:396 | for text without carriage returns, joining the lines with newlines gives the text back, plus a final newline if it lacked one |
| Text.UndoubleDoubleQuotes | lib.rs:397 | doubling every `"` can be undone, so the quoted manifest line determines the original |
| Text.DoubleQuotesCount | lib.rs:397 | doubling adds one character per quote and doubles the number of quotes |
| Text.TrimDoubleQuotes | lib.rs:397 | trimming commutes with doubling quotes, so the order of `replace` and `trim` does not matter |
| Text.FromBaseToBase | lib.rs:374 | reading back the digits `{:#x}` and `{}` print gives the number |
| Text.ToBase | lib.rs:374 | the digits printed are digits of the base, with no leading zero except for 0 itself |
| Text.Hex4Exact | lib.rs:378 | `{:04x}` of a `u16` is exactly four hex digits that read back as the number |
| Text.ParseU64Decimal | lib.rs:174-176 | parsing the decimal form of a `u64` gives the number back |
| Text.ParseU64 | lib.rs:174-176 | a parsed value is below 2^64, and only decimal digits (with an optional `+`) parse |
| Text.AsciiUtf8Len | lib.rs:525 | on ASCII text the byte length equals the character count |
| Text.JoinPath | lib.rs:469 | a joined path starts with the base, ends with the relative part, and has a separator between them unless the base is empty or a bare drive |
| CargoToml.StringEntries | lib.rs:554-560 | the entries of the section that are strings, with their text; meaning in `OverlayEntries`, `OverlayStep` |
| CargoToml.ParseCargoToml | lib.rs:545-575 | fails exactly when `Cargo.toml` cannot be read; otherwise the result is the properties overlaid with the section's string entries, for any visiting order |
| CargoToml.OverlayStep | lib.rs:556-557 | visiting one more entry inserts it when it is a string, and changes nothing otherwise |
| CargoToml.OverlayEntries | lib.rs:554-561 | a key is overwritten exactly when the section holds a string for it; every other key keeps its value and none is added |
| CargoToml.OverlayIdempotent | lib.rs:554-561 | applying the section twice gives the same properties as applying it once |
| CargoToml.OverrideWins | lib.rs:171 | a `ProductName` in `[package.metadata.winres]` overrides the one from the environment; a non-string entry is ignored |
| Sdk.GetSdk | lib.rs:513-543 | fails with `QueryFailed` when `reg` gives no usable output; otherwise returns the scan of its lines, stopping at a `KitsRoot` line without `REG_SZ` |
| Sdk.ClassifyCases | lib.rs:523-539 | a line stops the scan exactly when it is a `KitsRoot` line without `REG_SZ`, and yields a kit exactly when its `rc.exe` exists |
| Sdk.ScanKitsFails | lib.rs:525 | the scan fails exactly when some `KitsRoot` line lacks `REG_SZ`, and then with `MissingRegSz` |
| Sdk.ScanKitsSound | lib.rs:536-538 | every kit kept comes from a `KitsRoot` line and has an existing `rc.exe` |
| Sdk.ScanKitsComplete | lib.rs:522-541 | every `KitsRoot` line whose `rc.exe` exists contributes its kit |
| Sdk.ScanKitsAppend | lib.rs:522-541 | the kits keep registry order: those of a longer output are those of its first part followed by those of the rest |
| Sdk.KitAtAscii | lib.rs:524-527 | on an ASCII line the kit is the text after `REG_SZ` with leading whitespace skipped |
| Sdk.DefaultToolkitPath | lib.rs:186-189 | the default toolkit path is the last kit found, or empty when the query failed |
| Emitter.VersionSectionComplete | lib.rs:362-376 | one line per version field, and each line is the line of one field |
| Emitter.VersionLinePacked | lib.rs:366-372 | a packed version is written as `FIELD major, minor, patch, 0` |
| Emitter.VersionLineWords | lib.rs:366-372 | the four words written for a version field recombine to its value |
| Emitter.VersionLineHex | lib.rs:374 | another field is written as `FIELD 0x` and lowercase hex digits that read back as its value, with no leading zero |
| Emitter.DefaultFieldLines | lib.rs:374 | the five fixed defaults are written `FILEOS 0x40004`, `FILETYPE 0x1`, `FILESUBTYPE 0x0`, `FILEFLAGSMASK 0x3f`, `FILEFLAGS 0x0` |
| Emitter.EmittedKeysMembers | lib.rs:379-383 | a property gets a line exactly when it is visited and its value is not empty |
| Emitter.PropertySection | lib.rs:379-383 | each property with a non-empty value gets exactly one `VALUE` line with its key and value, and an empty one gets none |
| Emitter.LanguageLines | lib.rs:377-388 | the block name carries the language as four hex digits before `04b0`, and the translation line carries it as `0x` hex; both read back as the language |
| Emitter.LanguageExamples | lib.rs:377-388 | English (US), `0x409`, gives `BLOCK "040904b0"` and `0x409`; neutral gives `BLOCK "000004b0"` and `0x0` |
| Emitter.ManifestPresent | lib.rs:392-403 | a manifest resource is written exactly when `FILETYPE` is set and a manifest (inline or file) is set |
| Emitter.ManifestInline | lib.rs:393-399 | an inline manifest is `<filetype> 24`, `{`, one quoted line per manifest line, then `}` |
| Emitter.ManifestFileLine | lib.rs:400-402 | a manifest file is the single line `<filetype> 24 "<path>"` |
| Emitter.QuotedLineDecodes | lib.rs:397 | each inline manifest line is quoted, and undoubling its inside gives back the trimmed source line |
| Emitter.QuotedAttributeLine | lib.rs:397 | an XML line with one quoted attribute value is written with its quotes doubled |
| Emitter.ScriptLength | lib.rs:353-405 | the script has 13 fixed lines, plus one per version field, one per non-empty property, one for an icon, and the manifest lines |
| Emitter.ScriptHasVersionLine | lib.rs:362-376 | every version field's line is in the script |
| Emitter.ScriptHasValueLine | lib.rs:379-383 | every non-empty property's `VALUE` line is in the script |
| Emitter.ScriptHasLanguage | lib.rs:377-388 | both language lines are in the script |
| Emitter.ScriptTail | lib.rs:389-403 | an icon's line is in the script, and the script ends with the manifest lines |
| Resource.CompileInput | lib.rs:467-477 | the compiler's input is the user's resource file, or `resource.rc` joined under the output directory |
| Resource.NewProperties | lib.rs:159-169 | the properties `new` inserts are the seeded ones |
| Resource.NewVersionInfo | lib.rs:173-184 | the version map `new` builds is the default one |
| Resource.QuoteLines | lib.rs:396-398 | the manifest loop writes the quoted form of each line, in order |
| Resource.WindowsResource.constructor | lib.rs:158-202 | `new` gives the defaults with the overlaid properties and the last kit as toolkit path, and the manifests are exclusive |
| Resource.WindowsResource.SetProperty | lib.rs:226-229 | `set` inserts or overwrites one property and changes nothing else |
| Resource.WindowsResource.SetToolkitPath | lib.rs:240-243 | `set_toolkit_path` replaces the toolkit path only |
| Resource.WindowsResource.SetLanguage | lib.rs:292-295 | `set_language` replaces the language only |
| Resource.WindowsResource.SetIcon | lib.rs:301-304 | `set_icon` sets the icon only |
| Resource.WindowsResource.SetVersionInfo | lib.rs:308-311 | `set_version_info` inserts or overwrites one field and changes nothing else |
| Resource.WindowsResource.SetManifest | lib.rs:334-338 | `set_manifest` sets the inline manifest and clears the manifest file |
| Resource.WindowsResource.SetManifestFile | lib.rs:346-350 | `set_manifest_file` sets the manifest file and clears the inline manifest |
| Resource.WindowsResource.SetResourceFile | lib.rs:412-415 | `set_resource_file` sets the user's resource file only |
| Resource.WindowsResource.SetOutputDirectory | lib.rs:421-424 | `set_output_directory` replaces the output directory only |
| Resource.WindowsResource.VersionSection | lib.rs:362-376 | the loop over `version_info` writes one line per field in iteration order |
| Resource.WindowsResource.PropertySection | lib.rs:379-383 | the loop over `properties` writes a `VALUE` line for each non-empty property, in iteration order |
| Resource.WindowsResource.ManifestSection | lib.rs:392-403 | the manifest part written is the inline form, the file form, or nothing |
| Resource.WindowsResource.WriteResourceFile | lib.rs:353-405 | the lines written are the script of the current fields |
| Resource.WindowsResource.Compile | lib.rs:467-481 | a script is generated exactly when the user gave no resource file, and the compiler is given the chosen input |
| Scenarios.DefaultVersionLines | lib.rs:173-184 | a package at version `a.b.c` gets `FILEVERSION a, b, c, 0`, `PRODUCTVERSION a, b, c, 0` and the five fixed field lines |
| Scenarios.MinimalStringTable | lib.rs:162-171 | without a winres section, the script has the neutral-language block and the package's name and description |
| Scenarios.IconAndLanguageScript | lib.rs:378-390 | after `set_icon` and `set_language`, the script has the icon line and both language lines |
| Scenarios.ManifestFileThenInline | lib.rs:334-350 | a manifest file gives one line, and a later `set_manifest` replaces it with the inline form |

## Left out

- Running external programs is not modelled: `compile_with_toolkit` (lib.rs:426-456 and
  lib.rs:483-509) for `windres.exe`, `ar.exe` and `rc.exe`, and the `reg query` of
  `get_sdk`. The output of `reg` is the `registry`/`query` parameter, with `None` when
  it cannot run or is not UTF-8.
- File I/O is not modelled. Creating and writing `resource.rc` becomes the returned
  lines. Reading `Cargo.toml` and the TOML parser become the `ManifestRead` parameter.
- `Path::exists` is the `pathExists` parameter.
- The `cargo:` and diagnostic lines printed with `println!` are not modelled.
- Environment variables are fields of the `Env` parameter. The `unwrap` panics on
  missing variables are not modelled, and `OUT_DIR` is optional as in the source.
- `toolkit()` (lib.rs:105-113) and the `cfg!` target tests are not modelled. The target
  architecture is the `x64` parameter of the kit scan.
- `Resource.WindowsResource.constructor`: the panics of `new` are preconditions.
  - `Cargo.toml` must be readable.
  - No `KitsRoot` line may lack `REG_SZ`.
  - A successful query must list at least one usable kit.
- The `&mut Self` that setters return for chaining is not modelled. A chain of calls is
  modelled as `Config.Run` over a sequence of `Call`s.
- `CargoToml.ParseCargoToml` returns the new properties instead of updating the borrowed
  map in place.
- `HashMap` iteration order is a parameter, not a particular hash order.
- Escaping is not added: property values, keys and paths are written into the script
  unescaped, as in the source. A value containing `"` gives a malformed line in both.
