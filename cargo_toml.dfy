/**
 * `parse_cargo_toml`: the `[package.metadata.winres]` section of `Cargo.toml` overrides
 * the string-table properties that `WindowsResource::new` seeded from the environment.
 * Reading the file and running the TOML parser are outside the model; their outcome is
 * the `ManifestRead` argument.
 */
module CargoToml {
  import opened Wrappers

  /** A value of a parsed TOML document. */
  datatype TomlValue =
    | TString(s: string)
    | TInteger(i: int)
    | TFloat(text: string)
    | TBoolean(b: bool)
    | TDatetime(text: string)
    | TArray(items: seq<TomlValue>)
    | TTable(entries: map<string, TomlValue>)

  /** What opening, reading and parsing `Cargo.toml` gave. */
  datatype ManifestRead =
    | Unreadable                            // `File::open` or `read_to_string` failed
    | Unparsable                            // `toml::Parser::parse` gave `None`
    | Parsed(root: map<string, TomlValue>)

  datatype IoError = IoError

  /**
   * `Value::lookup` of a dotted path, split at its dots: each key selects an entry of a
   * table. The keys used here (`metadata`, `winres`) are not numbers, so an array never
   * matches one.
   */
  function Lookup(v: TomlValue, path: seq<string>): Option<TomlValue>
    decreases |path|
  {
    if path == [] then Some(v)
    else if v.TTable? && path[0] in v.entries then Lookup(v.entries[path[0]], path[1..])
    else None
  }

  /** The `package.metadata.winres` table, when the document has one. */
  function WinresTable(read: ManifestRead): Option<map<string, TomlValue>> {
    if read.Parsed? && "package" in read.root then
      match Lookup(read.root["package"], ["metadata", "winres"])
      case Some(TTable(t)) => Some(t)
      case _ => None
    else None
  }

  /** The string-valued entries of a table; the other entries are only reported. */
  function StringEntries(t: map<string, TomlValue>): (m: map<string, string>)
    ensures forall k :: k in m <==> k in t && t[k].TString?
    ensures forall k | k in m :: m[k] == t[k].s
  {
    map k | k in t && t[k].TString? :: t[k].s
  }

  /** The properties after the section is applied: each string entry overwrites its key. */
  function Overlay(props: map<string, string>, t: map<string, TomlValue>): map<string, string> {
    props + StringEntries(t)
  }

  /** The properties `parse_cargo_toml` leaves behind once the file has been read. */
  function MetadataOverlay(props: map<string, string>, read: ManifestRead): map<string, string> {
    match WinresTable(read)
    case Some(t) => Overlay(props, t)
    case None => props
  }

  /** The section holds a string for `k`, so `k` takes that value. */
  predicate Overrides(read: ManifestRead, k: string) {
    WinresTable(read).Some? && k in WinresTable(read).value && WinresTable(read).value[k].TString?
  }

  /**
   * A key is overwritten exactly when the section holds a string for it; every other key
   * keeps its value, and no key is added otherwise.
   */
  lemma OverlayEntries(props: map<string, string>, read: ManifestRead, k: string)
    ensures var r := MetadataOverlay(props, read);
      && (k in r <==> k in props || Overrides(read, k))
      && (Overrides(read, k) ==> r[k] == WinresTable(read).value[k].s)
      && (k in props && !Overrides(read, k) ==> r[k] == props[k])
  {
  }

  /** Applying the section a second time changes nothing. */
  lemma OverlayIdempotent(props: map<string, string>, t: map<string, TomlValue>)
    ensures Overlay(Overlay(props, t), t) == Overlay(props, t)
  {
  }

  lemma OverlayStep(props: map<string, string>, t: map<string, TomlValue>, remaining: set<string>, k: string)
    requires remaining <= t.Keys && k in remaining
    ensures var before := props + StringEntries(t - remaining);
      var after := props + StringEntries(t - (remaining - {k}));
      after == if t[k].TString? then before[k := t[k].s] else before
  {
    var before := props + StringEntries(t - remaining);
    var after := props + StringEntries(t - (remaining - {k}));
    var expected := if t[k].TString? then before[k := t[k].s] else before;
    forall j
      ensures j in after <==> j in expected
      ensures j in after ==> after[j] == expected[j]
    {
      if j != k {
        assert j in t - remaining <==> j in t - (remaining - {k});
      }
    }
    assert after == expected;
  }

  /**
   * `parse_cargo_toml`: fails only when the file cannot be read; once it has been read,
   * every branch (parse error, no `package`, no `metadata.winres`, not a table) succeeds,
   * and the string entries of the section, visited in any order, overwrite their keys.
   */
  method ParseCargoToml(props: map<string, string>, read: ManifestRead)
    returns (r: Result<map<string, string>, IoError>)
    ensures read.Unreadable? <==> r.Failure?
    ensures r.Success? ==> r.value == MetadataOverlay(props, read)
  {
    if read.Unreadable? {
      return Failure(IoError);
    }
    if read.Unparsable? || "package" !in read.root {
      return Success(props);
    }
    var section := Lookup(read.root["package"], ["metadata", "winres"]);
    if section.None? || !section.value.TTable? {
      return Success(props);
    }
    var t := section.value.entries;
    var result := props;
    var remaining := t.Keys;
    while remaining != {}
      invariant remaining <= t.Keys
      invariant result == props + StringEntries(t - remaining)
      decreases remaining
    {
      var k :| k in remaining;
      OverlayStep(props, t, remaining, k);
      if t[k].TString? {
        result := result[k := t[k].s];
      }
      remaining := remaining - {k};
    }
    assert t - {} == t;
    return Success(result);
  }

  /** An entry of the section takes precedence over the value seeded from the environment. */
  lemma OverrideWins()
    ensures var props := map["ProductName" := "demo", "FileDescription" := "A demo"];
      var winres := TTable(map["ProductName" := TString("Override"), "Build" := TInteger(3)]);
      var read := Parsed(map["package" := TTable(map["metadata" := TTable(map["winres" := winres])])]);
      MetadataOverlay(props, read) == map["ProductName" := "Override", "FileDescription" := "A demo"]
  {
    var props := map["ProductName" := "demo", "FileDescription" := "A demo"];
    var t := map["ProductName" := TString("Override"), "Build" := TInteger(3)];
    var winres := TTable(t);
    var read := Parsed(map["package" := TTable(map["metadata" := TTable(map["winres" := winres])])]);
    var metadata := TTable(map["winres" := winres]);
    assert Lookup(winres, []) == Some(winres);
    assert Lookup(metadata, ["winres"]) == Some(winres) by {
      assert ["winres"][1..] == [];
    }
    assert Lookup(TTable(map["metadata" := metadata]), ["metadata", "winres"]) == Some(winres) by {
      assert ["metadata", "winres"][1..] == ["winres"];
    }
    assert WinresTable(read) == Some(t);
    assert StringEntries(t) == map["ProductName" := "Override"];
  }
}
