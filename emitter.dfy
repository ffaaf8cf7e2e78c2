/**
 * The text `write_resource_file` writes, as the sequence of its lines (the file is each
 * line followed by a newline). The two `HashMap`s are walked in an order the model takes
 * as a parameter: any sequence that lists every key exactly once.
 */
module Emitter {
  import opened Wrappers
  import opened Text
  import opened Version
  import opened Config

  /** UTF-8 code page, then the resource header. */
  const Preamble: seq<string> := ["#pragma code_page(65001)", "1 VERSIONINFO"]

  /**
   * The line of one version-info field: the two version fields as four decimal 16-bit
   * words, every other field as `0x` and lowercase hex without padding.
   */
  function VersionLine(f: VersionField, v: nat): string {
    if IsVersionWords(f) then
      var q := Unpack(v);
      FieldName(f) + " " + Decimal(q.major) + ", " + Decimal(q.minor) + ", " + Decimal(q.patch) + ", " + Decimal(q.build)
    else
      FieldName(f) + " 0x" + Hex(v)
  }

  /** The entries of `version_info` in iteration order, as `iter()` yields them. */
  function Entries(vi: map<VersionField, u64>, order: seq<VersionField>): (es: seq<(VersionField, u64)>)
    requires forall i | 0 <= i < |order| :: order[i] in vi
    ensures |es| == |order| && forall i | 0 <= i < |order| :: es[i] == (order[i], vi[order[i]])
  {
    seq(|order|, i requires 0 <= i < |order| => (order[i], vi[order[i]]))
  }

  function EntryLine(e: (VersionField, u64)): string {
    VersionLine(e.0, e.1)
  }

  /** The version-info lines, one per field in iteration order. */
  function VersionLines(vi: map<VersionField, u64>, order: seq<VersionField>): seq<string>
    requires forall i | 0 <= i < |order| :: order[i] in vi
  {
    MapSeq(EntryLine, Entries(vi, order))
  }

  lemma EntriesSnoc(vi: map<VersionField, u64>, order: seq<VersionField>, n: nat)
    requires n < |order| && forall i | 0 <= i < |order| :: order[i] in vi
    ensures Entries(vi, order[..n + 1]) == Entries(vi, order[..n]) + [(order[n], vi[order[n]])]
  {
    var a, b := Entries(vi, order[..n + 1]), Entries(vi, order[..n]) + [(order[n], vi[order[n]])];
    forall j | 0 <= j < |a| ensures a[j] == b[j] {
      assert order[..n + 1][j] == order[j];
    }
  }

  lemma VersionLinesSnoc(vi: map<VersionField, u64>, order: seq<VersionField>, n: nat)
    requires n < |order| && forall i | 0 <= i < |order| :: order[i] in vi
    ensures VersionLines(vi, order[..n + 1]) == VersionLines(vi, order[..n]) + [VersionLine(order[n], vi[order[n]])]
  {
    EntriesSnoc(vi, order, n);
    MapSeqAppend(EntryLine, Entries(vi, order[..n]), (order[n], vi[order[n]]));
  }

  /** Opening of the string table, whose block is named by the language as four hex digits and code page 1200. */
  function StringFileInfoOpen(language: u16): seq<string> {
    ["{", "BLOCK \"StringFileInfo\"", "{", "BLOCK \"" + Hex4(language) + "04b0\"", "{"]
  }

  function ValueLine(k: string, v: string): string {
    "VALUE \"" + k + "\", \"" + v + "\""
  }

  /** The properties that get a line: those with a non-empty value, in iteration order. */
  function EmittedKeys(props: map<string, string>, order: seq<string>): seq<string>
    requires forall i | 0 <= i < |order| :: order[i] in props
    decreases |order|
  {
    if order == [] then []
    else
      var k := order[|order| - 1];
      EmittedKeys(props, order[..|order| - 1]) + if props[k] != "" then [k] else []
  }

  /** The `VALUE` lines of the string table. */
  function PropertyLines(props: map<string, string>, order: seq<string>): seq<string>
    requires forall i | 0 <= i < |order| :: order[i] in props
    decreases |order|
  {
    if order == [] then []
    else
      var k := order[|order| - 1];
      PropertyLines(props, order[..|order| - 1]) + if props[k] != "" then [ValueLine(k, props[k])] else []
  }

  /** Closing of the string table, then the translation table naming the language and code page 1200. */
  function Closing(language: u16): seq<string> {
    ["}", "}", "BLOCK \"VarFileInfo\" {", "VALUE \"Translation\", 0x" + Hex(language) + ", 0x04b0", "}", "}"]
  }

  function IconLines(icon: Option<string>): seq<string> {
    if icon.Some? then ["1 ICON \"" + icon.value + "\""] else []
  }

  /** One line of an inline manifest: quotes doubled, then trimmed, then quoted. */
  function QuotedLine(l: string): string {
    "\"" + Trim(DoubleQuotes(l)) + "\""
  }

  function QuotedLines(ls: seq<string>): seq<string> {
    MapSeq(QuotedLine, ls)
  }

  /** `f` applied to every element, in order. */
  function MapSeq<A, B>(f: A -> B, s: seq<A>): (r: seq<B>)
    ensures |r| == |s| && forall j | 0 <= j < |s| :: r[j] == f(s[j])
  {
    seq(|s|, j requires 0 <= j < |s| => f(s[j]))
  }

  lemma MapSeqAppend<A, B>(f: A -> B, s: seq<A>, x: A)
    ensures MapSeq(f, s + [x]) == MapSeq(f, s) + [f(x)]
  {
    var a, b := MapSeq(f, s + [x]), MapSeq(f, s) + [f(x)];
    forall j | 0 <= j < |a| ensures a[j] == b[j] {
      assert (s + [x])[j] == if j < |s| then s[j] else x;
    }
  }

  lemma MapSeqSnoc<A, B>(f: A -> B, s: seq<A>, n: nat)
    requires n < |s|
    ensures MapSeq(f, s[..n + 1]) == MapSeq(f, s[..n]) + [f(s[n])]
  {
    assert s[..n + 1] == s[..n] + [s[n]];
    MapSeqAppend(f, s[..n], s[n]);
  }

  /**
   * The manifest resource (type 24, named by the `FILETYPE` value in decimal): written only
   * when `FILETYPE` is set, inline when a manifest string is set, else as a file reference.
   */
  function ManifestLines(c: Config): seq<string> {
    if FILETYPE !in c.versionInfo then []
    else
      var ft := Decimal(c.versionInfo[FILETYPE]);
      if c.manifest.Some? then [ft + " 24", "{"] + QuotedLines(Lines(c.manifest.value)) + ["}"]
      else if c.manifestFile.Some? then [ft + " 24 \"" + c.manifestFile.value + "\""]
      else []
  }

  /** The whole resource script. */
  function Script(c: Config, fieldOrder: seq<VersionField>, keyOrder: seq<string>): seq<string>
    requires IsEnumeration(fieldOrder, c.versionInfo.Keys) && IsEnumeration(keyOrder, c.properties.Keys)
  {
    Preamble + VersionLines(c.versionInfo, fieldOrder) + StringFileInfoOpen(c.language)
      + PropertyLines(c.properties, keyOrder) + Closing(c.language) + IconLines(c.icon) + ManifestLines(c)
  }

  /** The version section holds exactly one line per field set, whatever the iteration order. */
  lemma VersionSectionComplete(vi: map<VersionField, u64>, order: seq<VersionField>)
    requires IsEnumeration(order, vi.Keys)
    ensures |VersionLines(vi, order)| == |vi|
    ensures forall f | f in vi :: VersionLine(f, vi[f]) in VersionLines(vi, order)
    ensures forall l | l in VersionLines(vi, order) :: exists f | f in vi :: l == VersionLine(f, vi[f])
  {
    EnumerationSize(order, vi.Keys);
    VersionLinesCover(vi, order);
    VersionLinesFromFields(vi, order);
  }

  lemma VersionLinesCover(vi: map<VersionField, u64>, order: seq<VersionField>)
    requires IsEnumeration(order, vi.Keys)
    ensures forall f | f in vi :: VersionLine(f, vi[f]) in VersionLines(vi, order)
  {
    var ls := VersionLines(vi, order);
    forall f | f in vi ensures VersionLine(f, vi[f]) in ls {
      var i :| 0 <= i < |order| && order[i] == f;
      assert ls[i] == VersionLine(f, vi[f]);
    }
  }

  lemma VersionLinesFromFields(vi: map<VersionField, u64>, order: seq<VersionField>)
    requires forall i | 0 <= i < |order| :: order[i] in vi
    ensures forall l | l in VersionLines(vi, order) :: exists f | f in vi :: l == VersionLine(f, vi[f])
  {
    var ls := VersionLines(vi, order);
    forall l | l in ls ensures exists f | f in vi :: l == VersionLine(f, vi[f]) {
      var i :| 0 <= i < |ls| && ls[i] == l;
      assert l == VersionLine(order[i], vi[order[i]]);
    }
  }

  /** A packed package version is written back as its three components and a zero. */
  lemma VersionLinePacked(f: VersionField, major: u16, minor: u16, patch: u16)
    requires IsVersionWords(f)
    ensures VersionLine(f, Pack(major, minor, patch))
         == FieldName(f) + " " + Decimal(major) + ", " + Decimal(minor) + ", " + Decimal(patch) + ", 0"
  {
    UnpackPack(major, minor, patch);
  }

  /** The four words of a version line put back together give the 64-bit value. */
  lemma VersionLineWords(f: VersionField, v: u64)
    requires IsVersionWords(f)
    ensures var q := Unpack(v);
      && VersionLine(f, v) == FieldName(f) + " " + Decimal(q.major) + ", " + Decimal(q.minor) + ", " + Decimal(q.patch) + ", " + Decimal(q.build)
      && q.major * 0x1_0000_0000_0000 + q.minor * 0x1_0000_0000 + q.patch * 0x1_0000 + q.build == v
  {
    var w1 := v / 0x1_0000;
    var w2 := w1 / 0x1_0000;
    var w3 := w2 / 0x1_0000;
    assert v == w1 * 0x1_0000 + v % 0x1_0000;
    assert w1 == w2 * 0x1_0000 + w1 % 0x1_0000;
    assert w2 == w3 * 0x1_0000 + w2 % 0x1_0000;
    assert w3 < 0x1_0000;
    assert v / 0x1_0000_0000 == w2;
    assert v / 0x1_0000_0000_0000 == w3;
  }

  /** Any other field is written as `0x` and hex digits that read back as its value. */
  lemma VersionLineHex(f: VersionField, v: nat)
    requires !IsVersionWords(f)
    ensures var h := VersionLine(f, v)[|FieldName(f)| + 3..];
      && VersionLine(f, v) == FieldName(f) + " 0x" + h
      && h != [] && (forall i | 0 <= i < |h| :: IsDigit(h[i], 16))
      && FromBase(h, 16) == v
      && (h[0] == '0' ==> v == 0)
  {
    var h := Hex(v);
    assert VersionLine(f, v)[|FieldName(f)| + 3..] == h;
    FromBaseToBase(v, 16);
  }

  /** The lines `new`'s default fields give: `FILEOS 0x40004`, `FILETYPE 0x1`, and so on. */
  lemma DefaultFieldLines()
    ensures VersionLine(FILEOS, 0x40004) == "FILEOS 0x40004"
    ensures VersionLine(FILETYPE, 1) == "FILETYPE 0x1"
    ensures VersionLine(FILESUBTYPE, 0) == "FILESUBTYPE 0x0"
    ensures VersionLine(FILEFLAGSMASK, 0x3F) == "FILEFLAGSMASK 0x3f"
    ensures VersionLine(FILEFLAGS, 0) == "FILEFLAGS 0x0"
  {
    HexExamples();
  }

  lemma HexExamples()
    ensures Hex(0) == "0" && Hex(1) == "1" && Hex(0x3F) == "3f" && Hex(0x40004) == "40004" && Hex(0x409) == "409"
  {
    assert ToBase(0x4, 16) == "4";
    assert ToBase(0x40, 16) == "40";
    assert ToBase(0x400, 16) == "400";
    assert ToBase(0x4000, 16) == "4000";
    assert ToBase(0x3, 16) == "3";
    assert ToBase(0x40, 16) == "40";
    assert ToBase(0x4, 16) == "4";
  }

  /** The emitted properties are the non-empty ones, each once. */
  lemma {:induction false} EmittedKeysMembers(props: map<string, string>, order: seq<string>)
    requires forall i | 0 <= i < |order| :: order[i] in props
    ensures forall k :: k in EmittedKeys(props, order) <==> k in order && props[k] != ""
    decreases |order|
  {
    if order != [] {
      var init := order[..|order| - 1];
      var k := order[|order| - 1];
      assert forall i | 0 <= i < |init| :: init[i] == order[i];
      EmittedKeysMembers(props, init);
      assert order == init + [k];
    }
  }

  /** Distinct keys in the iteration order give distinct emitted keys. */
  lemma {:induction false} EmittedKeysDistinct(props: map<string, string>, order: seq<string>)
    requires forall i | 0 <= i < |order| :: order[i] in props
    requires Distinct(order)
    ensures Distinct(EmittedKeys(props, order))
    decreases |order|
  {
    if order != [] {
      var init := order[..|order| - 1];
      var k := order[|order| - 1];
      assert forall i | 0 <= i < |init| :: init[i] == order[i];
      assert Distinct(init) by {
        forall i, j | 0 <= i < j < |init| ensures init[i] != init[j] {
          assert order[i] != order[j];
        }
      }
      EmittedKeysDistinct(props, init);
      EmittedKeysMembers(props, init);
      assert k !in init by {
        forall i | 0 <= i < |init| ensures init[i] != k {
          assert order[i] != order[|order| - 1];
        }
      }
      var ks := EmittedKeys(props, init);
      var all := EmittedKeys(props, order);
      assert all == ks + if props[k] != "" then [k] else [];
      forall i, j | 0 <= i < j < |all| ensures all[i] != all[j] {
        if j < |ks| {
          assert all[i] == ks[i] && all[j] == ks[j];
          assert ks[i] != ks[j];
        } else {
          assert all[j] == k && all[i] == ks[i];
          assert ks[i] in ks;
          assert k !in ks;
        }
      }
    }
  }

  /** The `VALUE` lines are those of the emitted properties, one per property, in order. */
  lemma {:induction false} PropertyLinesOfKeys(props: map<string, string>, order: seq<string>)
    requires forall i | 0 <= i < |order| :: order[i] in props
    ensures var ks := EmittedKeys(props, order);
      && (forall i | 0 <= i < |ks| :: ks[i] in props)
      && |PropertyLines(props, order)| == |ks|
      && forall i | 0 <= i < |ks| :: PropertyLines(props, order)[i] == ValueLine(ks[i], props[ks[i]])
    decreases |order|
  {
    EmittedKeysMembers(props, order);
    if order != [] {
      var init := order[..|order| - 1];
      assert forall i | 0 <= i < |init| :: init[i] == order[i];
      PropertyLinesOfKeys(props, init);
    }
  }

  /** The keys whose value is not empty. */
  function NonEmptyKeys(props: map<string, string>): set<string> {
    set k | k in props && props[k] != ""
  }

  /**
   * Every property with a non-empty value gets exactly one `VALUE` line, and a property
   * with an empty value gets none.
   */
  lemma PropertySection(props: map<string, string>, order: seq<string>)
    requires IsEnumeration(order, props.Keys)
    ensures var ks := EmittedKeys(props, order);
      && (forall k :: k in ks <==> k in NonEmptyKeys(props))
      && (forall i | 0 <= i < |ks| :: ks[i] in props)
      && Distinct(ks)
      && |PropertyLines(props, order)| == |ks| == |NonEmptyKeys(props)|
      && forall i | 0 <= i < |ks| :: PropertyLines(props, order)[i] == ValueLine(ks[i], props[ks[i]])
  {
    EmittedKeysMembers(props, order);
    EmittedKeysDistinct(props, order);
    PropertyLinesOfKeys(props, order);
    var ks := EmittedKeys(props, order);
    EnumerationSize(ks, NonEmptyKeys(props));
  }

  /**
   * The string-table block is named by exactly four lowercase hex digits of the language
   * followed by `04b0`; the translation line gives the language in unpadded hex; both read
   * back as the language.
   */
  lemma LanguageLines(language: u16)
    ensures var h := StringFileInfoOpen(language)[3][7..11];
      && StringFileInfoOpen(language)[3] == "BLOCK \"" + h + "04b0\""
      && (forall i | 0 <= i < 4 :: IsDigit(h[i], 16))
      && FromBase(h, 16) == language
    ensures var t := Closing(language)[3][|"VALUE \"Translation\", 0x"|..|Closing(language)[3]| - 8];
      && Closing(language)[3] == "VALUE \"Translation\", 0x" + t + ", 0x04b0"
      && t != [] && (forall i | 0 <= i < |t| :: IsDigit(t[i], 16))
      && FromBase(t, 16) == language
      && (t[0] == '0' ==> language == 0)
  {
    Hex4Exact(language);
    assert StringFileInfoOpen(language)[3][7..11] == Hex4(language);
    var t := Hex(language);
    var line := Closing(language)[3];
    assert line[|"VALUE \"Translation\", 0x"|..|line| - 8] == t;
    FromBaseToBase(language, 16);
  }

  /** English (US) gives block `040904b0` and translation `0x409`; neutral gives `000004b0` and `0x0`. */
  lemma LanguageExamples()
    ensures StringFileInfoOpen(0x409)[3] == "BLOCK \"040904b0\""
    ensures Closing(0x409)[3] == "VALUE \"Translation\", 0x409, 0x04b0"
    ensures StringFileInfoOpen(0)[3] == "BLOCK \"000004b0\""
    ensures Closing(0)[3] == "VALUE \"Translation\", 0x0, 0x04b0"
  {
    HexExamples();
  }

  /** The manifest section appears exactly when `FILETYPE` is set and some manifest is set. */
  lemma ManifestPresent(c: Config)
    ensures ManifestLines(c) != [] <==> FILETYPE in c.versionInfo && (c.manifest.Some? || c.manifestFile.Some?)
  {
  }

  /** A quoted manifest line is in quotes, and undoing the doubled quotes inside gives the source line trimmed. */
  lemma QuotedLineDecodes(l: string)
    ensures var q := QuotedLine(l);
      && |q| >= 2 && q[0] == '"' && q[|q| - 1] == '"'
      && UndoubleQuotes(q[1..|q| - 1]) == Trim(l)
  {
    var q := QuotedLine(l);
    assert q[1..|q| - 1] == Trim(DoubleQuotes(l));
    TrimDoubleQuotes(l);
    UndoubleDoubleQuotes(Trim(l));
  }

  /**
   * An inline manifest is written as `<filetype> 24`, a brace, one quoted line per manifest
   * line, and a brace.
   */
  lemma ManifestInline(c: Config)
    requires FILETYPE in c.versionInfo && c.manifest.Some?
    ensures var ls := Lines(c.manifest.value); var m := ManifestLines(c);
      && |m| == |ls| + 3
      && m[0] == Decimal(c.versionInfo[FILETYPE]) + " 24" && m[1] == "{" && m[|m| - 1] == "}"
      && forall j | 0 <= j < |ls| :: m[j + 2] == QuotedLine(ls[j])
  {
  }

  /** A manifest file, with no inline manifest, is the one line `<filetype> 24 "<path>"`. */
  lemma ManifestFileLine(c: Config)
    requires FILETYPE in c.versionInfo && c.manifest.None? && c.manifestFile.Some?
    ensures ManifestLines(c) == [Decimal(c.versionInfo[FILETYPE]) + " 24 \"" + c.manifestFile.value + "\""]
  {
  }

  /** How many lines the script has: 13 fixed ones, one per field, property and icon, and the manifest's. */
  lemma ScriptLength(c: Config, fieldOrder: seq<VersionField>, keyOrder: seq<string>)
    requires IsEnumeration(fieldOrder, c.versionInfo.Keys) && IsEnumeration(keyOrder, c.properties.Keys)
    ensures |Script(c, fieldOrder, keyOrder)|
         == 13 + |c.versionInfo| + |NonEmptyKeys(c.properties)| + (if c.icon.Some? then 1 else 0) + |ManifestLines(c)|
  {
    VersionSectionComplete(c.versionInfo, fieldOrder);
    PropertySection(c.properties, keyOrder);
  }

  lemma DoubleQuotesAttribute(a: string, m: string, e: string)
    requires '"' !in a && '"' !in m && '"' !in e
    ensures DoubleQuotes(a + "\"" + m + "\"" + e) == a + "\"\"" + m + "\"\"" + e
  {
    var q, qq := "\"", "\"\"";
    assert DoubleQuotes(q) == qq;
    DoubleQuotesNoQuote(a);
    DoubleQuotesAppend(a, q);
    assert DoubleQuotes(a + q) == a + qq;
    DoubleQuotesNoQuote(m);
    DoubleQuotesAppend(a + q, m);
    assert DoubleQuotes(a + q + m) == a + qq + m;
    DoubleQuotesAppend(a + q + m, q);
    assert DoubleQuotes(a + q + m + q) == a + qq + m + qq;
    DoubleQuotesNoQuote(e);
    DoubleQuotesAppend(a + q + m + q, e);
  }

  /**
   * A manifest line holding one quoted attribute value, such as `<a b="c"/>`, is written
   * with both quotes doubled: `"<a b=""c""/>"`.
   */
  lemma QuotedAttributeLine(a: string, m: string, e: string)
    requires '"' !in a && '"' !in m && '"' !in e
    requires a != [] && !IsWhitespace(a[0]) && e != [] && !IsWhitespace(e[|e| - 1])
    ensures QuotedLine(a + "\"" + m + "\"" + e) == "\"" + a + "\"\"" + m + "\"\"" + e + "\""
  {
    DoubleQuotesAttribute(a, m, e);
    var d := a + "\"\"" + m + "\"\"" + e;
    assert d[0] == a[0] && d[|d| - 1] == e[|e| - 1];
    TrimUnchanged(d);
  }

  /** Every field set gets its line in the script. */
  lemma ScriptHasVersionLine(c: Config, fieldOrder: seq<VersionField>, keyOrder: seq<string>, f: VersionField)
    requires IsEnumeration(fieldOrder, c.versionInfo.Keys) && IsEnumeration(keyOrder, c.properties.Keys)
    requires f in c.versionInfo
    ensures VersionLine(f, c.versionInfo[f]) in Script(c, fieldOrder, keyOrder)
  {
    VersionLinesCover(c.versionInfo, fieldOrder);
  }

  /** Every property with a non-empty value gets its `VALUE` line in the script. */
  lemma ScriptHasValueLine(c: Config, fieldOrder: seq<VersionField>, keyOrder: seq<string>, k: string)
    requires IsEnumeration(fieldOrder, c.versionInfo.Keys) && IsEnumeration(keyOrder, c.properties.Keys)
    requires k in c.properties && c.properties[k] != ""
    ensures ValueLine(k, c.properties[k]) in Script(c, fieldOrder, keyOrder)
  {
    PropertySection(c.properties, keyOrder);
    var ks := EmittedKeys(c.properties, keyOrder);
    assert k in ks;
    var i :| 0 <= i < |ks| && ks[i] == k;
    assert PropertyLines(c.properties, keyOrder)[i] == ValueLine(k, c.properties[k]);
  }

  /** The script names the language in its string-table block and in its translation line. */
  lemma ScriptHasLanguage(c: Config, fieldOrder: seq<VersionField>, keyOrder: seq<string>)
    requires IsEnumeration(fieldOrder, c.versionInfo.Keys) && IsEnumeration(keyOrder, c.properties.Keys)
    ensures "BLOCK \"" + Hex4(c.language) + "04b0\"" in Script(c, fieldOrder, keyOrder)
    ensures "VALUE \"Translation\", 0x" + Hex(c.language) + ", 0x04b0" in Script(c, fieldOrder, keyOrder)
  {
    assert StringFileInfoOpen(c.language)[3] in StringFileInfoOpen(c.language);
    assert Closing(c.language)[3] in Closing(c.language);
  }

  /** An icon, when set, is in the script; the manifest lines close it. */
  lemma ScriptTail(c: Config, fieldOrder: seq<VersionField>, keyOrder: seq<string>)
    requires IsEnumeration(fieldOrder, c.versionInfo.Keys) && IsEnumeration(keyOrder, c.properties.Keys)
    ensures c.icon.Some? ==> "1 ICON \"" + c.icon.value + "\"" in Script(c, fieldOrder, keyOrder)
    ensures var s := Script(c, fieldOrder, keyOrder); var m := ManifestLines(c);
      |s| >= |m| && s[|s| - |m|..] == m
  {
    var s := Script(c, fieldOrder, keyOrder);
    var m := ManifestLines(c);
    if c.icon.Some? {
      assert s[|s| - |m| - 1] == "1 ICON \"" + c.icon.value + "\"";
    }
  }
}
