/**
 * `get_sdk`: the scan of the output of
 * `reg query "HKLM\SOFTWARE\Microsoft\Windows Kits\Installed Roots"` for Windows Kits roots
 * whose resource compiler exists. Running `reg` and checking the file system are outside the
 * model: the first is the `query` argument (`None` when `reg` could not be run or its output
 * is not UTF-8), the second the `pathExists` predicate.
 */
module Sdk {
  import opened Wrappers
  import opened Text

  const RcExeX64: string := "bin\\10.0.15063.0\\x64\\rc.exe"
  const RcExeX86: string := "bin\\10.0.15063.0\\x86\\rc.exe"

  /** Where `rc.exe` sits under a kits root, for a 64-bit or a 32-bit host. */
  function RcExePath(kit: string, x64: bool): string {
    JoinPath(kit, if x64 then RcExeX64 else RcExeX86)
  }

  datatype SdkError =
    | QueryFailed    // `reg` could not be run, or its output was not UTF-8: an `io::Error`
    | MissingRegSz   // a `KitsRoot` line without `REG_SZ`: the `unwrap` of `find` panics

  /** A line that names a kits root. */
  predicate IsKitsRootLine(line: string) {
    StartsWith(Trim(line), "KitsRoot")
  }

  /**
   * The root a `KitsRoot` line names: the line's characters after `REG_SZ`, leading
   * whitespace skipped. `find` counts bytes and `skip` counts characters, so the offset
   * skipped is the UTF-8 length of the text before `REG_SZ`, plus six.
   */
  function KitOf(line: string): Option<string> {
    match Find(line, "REG_SZ")
    case None => None
    case Some(i) => Some(KitAt(line, i))
  }

  /** The text after the six bytes of `REG_SZ` found at character `i`, leading whitespace skipped. */
  function KitAt(line: string, i: nat): string
    requires i <= |line|
  {
    TrimStart(Drop(line, Utf8Len(line[..i]) + 6))
  }

  /** What the scan does with one line of the registry output. */
  datatype LineOutcome =
    | Skip          // not a `KitsRoot` line, or its `rc.exe` does not exist
    | Keep(kit: string)
    | Stop          // a `KitsRoot` line without `REG_SZ`

  function Classify(line: string, x64: bool, pathExists: string -> bool): LineOutcome {
    if !IsKitsRootLine(line) then Skip
    else match KitOf(line)
      case None => Stop
      case Some(kit) => if pathExists(RcExePath(kit, x64)) then Keep(kit) else Skip
  }

  /** A line stops the scan exactly when it names a root without `REG_SZ`, and contributes exactly when its `rc.exe` exists. */
  lemma ClassifyCases(line: string, x64: bool, pathExists: string -> bool)
    ensures var o := Classify(line, x64, pathExists);
      && (o.Stop? <==> IsKitsRootLine(line) && KitOf(line).None?)
      && (o.Keep? <==> IsKitsRootLine(line) && KitOf(line).Some? && pathExists(RcExePath(KitOf(line).value, x64)))
      && (o.Keep? ==> o.kit == KitOf(line).value)
  {
  }

  /** The outcome of every line, in order. */
  function Outcomes(lines: seq<string>, x64: bool, pathExists: string -> bool): (os: seq<LineOutcome>)
    ensures |os| == |lines|
    ensures forall i | 0 <= i < |lines| :: os[i] == Classify(lines[i], x64, pathExists)
  {
    seq(|lines|, i requires 0 <= i < |lines| => Classify(lines[i], x64, pathExists))
  }

  /** The kits kept, in order, or the reason the scan stops at the first `Stop`. */
  function Scan(os: seq<LineOutcome>): Result<seq<string>, SdkError> {
    if os == [] then Success([])
    else
      match Scan(os[..|os| - 1])
      case Failure(e) => Failure(e)
      case Success(kits) =>
        match os[|os| - 1]
        case Skip => Success(kits)
        case Keep(kit) => Success(kits + [kit])
        case Stop => Failure(MissingRegSz)
  }

  /** The kits the scan keeps from `lines`, in order, or the reason it stops. */
  function ScanKits(lines: seq<string>, x64: bool, pathExists: string -> bool): Result<seq<string>, SdkError> {
    Scan(Outcomes(lines, x64, pathExists))
  }

  lemma {:induction false} ScanFails(os: seq<LineOutcome>)
    ensures Scan(os).Failure? <==> Stop in os
    ensures Scan(os).Failure? ==> Scan(os).error == MissingRegSz
    decreases |os|
  {
    if os != [] {
      var init := os[..|os| - 1];
      ScanFails(init);
      assert os == init + [os[|os| - 1]];
    }
  }

  lemma {:induction false} ScanSound(os: seq<LineOutcome>, kit: string)
    requires Scan(os).Success? && kit in Scan(os).value
    ensures Keep(kit) in os
    decreases |os|
  {
    var init := os[..|os| - 1];
    assert os == init + [os[|os| - 1]];
    if Scan(init).Success? && kit in Scan(init).value {
      ScanSound(init, kit);
    }
  }

  lemma {:induction false} ScanComplete(os: seq<LineOutcome>, kit: string)
    requires Scan(os).Success? && Keep(kit) in os
    ensures kit in Scan(os).value
    decreases |os|
  {
    var init := os[..|os| - 1];
    assert os == init + [os[|os| - 1]];
    if os[|os| - 1] != Keep(kit) {
      ScanComplete(init, kit);
    }
  }

  lemma {:induction false} ScanAppend(a: seq<LineOutcome>, b: seq<LineOutcome>)
    requires Scan(a).Success? && Scan(b).Success?
    ensures Scan(a + b) == Success(Scan(a).value + Scan(b).value)
    decreases |b|
  {
    if b == [] {
      assert a + b == a;
      assert Scan(a).value + Scan(b).value == Scan(a).value;
    } else {
      var init := b[..|b| - 1];
      assert (a + b)[..|a + b| - 1] == a + init;
      assert (a + b)[|a + b| - 1] == b[|b| - 1];
      ScanAppend(a, init);
      var x, y := Scan(a).value, Scan(init).value;
      match b[|b| - 1]
      case Keep(kit) => assert (x + y) + [kit] == x + (y + [kit]);
      case _ =>
    }
  }

  lemma {:induction false} ScanStopPersists(os: seq<LineOutcome>, n: nat)
    requires n <= |os| && Scan(os[..n]).Failure?
    ensures Scan(os) == Scan(os[..n])
    decreases |os|
  {
    if n < |os| {
      var init := os[..|os| - 1];
      assert init[..n] == os[..n];
      ScanStopPersists(init, n);
    } else {
      assert os[..n] == os;
    }
  }

  /** One more outcome extends the scan of a prefix by that outcome alone. */
  lemma ScanSnoc(os: seq<LineOutcome>, n: nat)
    requires n < |os|
    ensures Scan(os[..n + 1]) == match Scan(os[..n])
      case Failure(e) => Failure(e)
      case Success(kits) =>
        match os[n]
        case Skip => Success(kits)
        case Keep(kit) => Success(kits + [kit])
        case Stop => Failure(MissingRegSz)
  {
    assert os[..n + 1][..n] == os[..n];
  }

  /** The scan stops exactly when some `KitsRoot` line lacks `REG_SZ`, and then for that reason. */
  lemma ScanKitsFails(lines: seq<string>, x64: bool, pathExists: string -> bool)
    ensures ScanKits(lines, x64, pathExists).Failure?
        <==> exists i | 0 <= i < |lines| :: IsKitsRootLine(lines[i]) && KitOf(lines[i]).None?
    ensures ScanKits(lines, x64, pathExists).Failure? ==> ScanKits(lines, x64, pathExists).error == MissingRegSz
  {
    var os := Outcomes(lines, x64, pathExists);
    ScanFails(os);
    if Stop in os {
      var i :| 0 <= i < |os| && os[i] == Stop;
      ClassifyCases(lines[i], x64, pathExists);
    }
    if exists i | 0 <= i < |lines| :: IsKitsRootLine(lines[i]) && KitOf(lines[i]).None? {
      var i :| 0 <= i < |lines| && IsKitsRootLine(lines[i]) && KitOf(lines[i]).None?;
      ClassifyCases(lines[i], x64, pathExists);
      assert os[i] == Stop;
    }
  }

  /** Every kit kept has an existing `rc.exe` and comes from a `KitsRoot` line. */
  lemma ScanKitsSound(lines: seq<string>, x64: bool, pathExists: string -> bool, kit: string)
    requires ScanKits(lines, x64, pathExists).Success?
    requires kit in ScanKits(lines, x64, pathExists).value
    ensures pathExists(RcExePath(kit, x64))
    ensures exists i | 0 <= i < |lines| :: IsKitsRootLine(lines[i]) && KitOf(lines[i]) == Some(kit)
  {
    var os := Outcomes(lines, x64, pathExists);
    ScanSound(os, kit);
    var i :| 0 <= i < |os| && os[i] == Keep(kit);
    ClassifyCases(lines[i], x64, pathExists);
    assert IsKitsRootLine(lines[i]) && KitOf(lines[i]) == Some(kit);
  }

  /** Every `KitsRoot` line whose `rc.exe` exists contributes its kit. */
  lemma ScanKitsComplete(lines: seq<string>, x64: bool, pathExists: string -> bool, i: nat)
    requires ScanKits(lines, x64, pathExists).Success?
    requires i < |lines| && IsKitsRootLine(lines[i]) && KitOf(lines[i]).Some?
    requires pathExists(RcExePath(KitOf(lines[i]).value, x64))
    ensures KitOf(lines[i]).value in ScanKits(lines, x64, pathExists).value
  {
    var os := Outcomes(lines, x64, pathExists);
    ClassifyCases(lines[i], x64, pathExists);
    assert os[i] == Keep(KitOf(lines[i]).value);
    ScanComplete(os, KitOf(lines[i]).value);
  }

  /**
   * The scan keeps registry order: the kits of a longer output are those of its first
   * part followed by those of the rest.
   */
  lemma ScanKitsAppend(a: seq<string>, b: seq<string>, x64: bool, pathExists: string -> bool)
    requires ScanKits(a, x64, pathExists).Success? && ScanKits(b, x64, pathExists).Success?
    ensures ScanKits(a + b, x64, pathExists)
         == Success(ScanKits(a, x64, pathExists).value + ScanKits(b, x64, pathExists).value)
  {
    var oa, ob := Outcomes(a, x64, pathExists), Outcomes(b, x64, pathExists);
    var oab := Outcomes(a + b, x64, pathExists);
    assert forall i | 0 <= i < |a + b| :: oab[i] == (oa + ob)[i] by {
      forall i | 0 <= i < |a + b|
        ensures oab[i] == (oa + ob)[i]
      {
        if i < |a| {
          assert (a + b)[i] == a[i];
        } else {
          assert (a + b)[i] == b[i - |a|];
        }
      }
    }
    assert oab == oa + ob;
    ScanAppend(oa, ob);
  }

  /**
   * On an ASCII line the bytes skipped are the characters skipped: the root is the text
   * after the six characters of `REG_SZ`, leading whitespace skipped.
   */
  lemma KitAtAscii(line: string, i: nat)
    requires IsAscii(line) && i + 6 <= |line|
    ensures KitAt(line, i) == TrimStart(line[i + 6..])
  {
    AsciiPrefix(line, i);
    DropFrom(line, i + 6);
  }

  lemma DropFrom(s: string, n: nat)
    requires n <= |s|
    ensures Drop(s, n) == s[n..]
  {
  }

  lemma AsciiPrefix(line: string, i: nat)
    requires IsAscii(line) && i <= |line|
    ensures Utf8Len(line[..i]) == i
  {
    var before := line[..i];
    assert IsAscii(before) by {
      forall k | 0 <= k < |before| ensures before[k] as int < 0x80 {
        assert before[k] == line[k];
      }
    }
    AsciiUtf8Len(before);
  }

  /**
   * `get_sdk`: walks the lines of the registry output, keeping, in order, the root of every
   * `KitsRoot` line whose `rc.exe` exists.
   */
  method GetSdk(query: Option<string>, x64: bool, pathExists: string -> bool)
    returns (r: Result<seq<string>, SdkError>)
    ensures query.None? ==> r == Failure(QueryFailed)
    ensures query.Some? ==> r == ScanKits(Lines(query.value), x64, pathExists)
  {
    if query.None? {
      return Failure(QueryFailed);
    }
    var lines := Lines(query.value);
    ghost var os := Outcomes(lines, x64, pathExists);
    var kits: seq<string> := [];
    var n := 0;
    while n < |lines|
      invariant n <= |lines|
      invariant Scan(os[..n]) == Success(kits)
    {
      var line := lines[n];
      ScanSnoc(os, n);
      ghost var o := Classify(line, x64, pathExists);
      assert os[n] == o;
      if IsKitsRootLine(line) {
        var found := KitOf(line);
        if found.None? {
          assert o == Stop;
          ScanStopPersists(os, n + 1);
          return Failure(MissingRegSz);
        }
        var kit := found.value;
        if pathExists(RcExePath(kit, x64)) {
          assert o == Keep(kit);
          kits := kits + [kit];
        } else {
          assert o == Skip;
        }
      } else {
        assert o == Skip;
      }
      assert Scan(os[..n + 1]) == Success(kits);
      n := n + 1;
    }
    assert os[..n] == os;
    return Success(kits);
  }

  /**
   * The default `toolkit_path` of `new`: the last kit found (`v.pop().unwrap()`), or the
   * empty string when the registry could not be queried.
   */
  function DefaultToolkitPath(sdk: Result<seq<string>, SdkError>): (p: string)
    requires sdk.Success? ==> sdk.value != []
    requires sdk.Failure? ==> sdk.error == QueryFailed
    ensures sdk.Success? ==> p in sdk.value && sdk.value == sdk.value[..|sdk.value| - 1] + [p]
    ensures sdk.Failure? ==> p == ""
  {
    if sdk.Success? then sdk.value[|sdk.value| - 1] else ""
  }
}
