/**
 * The string and number primitives the resource helper relies on, stated on `seq<char>`:
 * `char::is_whitespace`, `str::trim`, `str::find`, `str::lines`, the `.rc` quote escape,
 * integer formatting (`{}`, `{:x}`, `{:04x}`), `u64::from_str`, the UTF-8 length behind a
 * byte offset, and the way a Windows `PathBuf::push` joins two paths.
 */
module Text {
  import opened Wrappers

  /** Unicode White_Space: the characters `char::is_whitespace` accepts. */
  predicate IsWhitespace(c: char) {
    || c == ' '
    || '\t' <= c <= '\r'
    || c == '\U{85}' || c == '\U{A0}' || c == '\U{1680}'
    || '\U{2000}' <= c <= '\U{200A}'
    || c == '\U{2028}' || c == '\U{2029}' || c == '\U{202F}' || c == '\U{205F}' || c == '\U{3000}'
  }

  /** `str::trim_start`; also the `skip_while(|c| c.is_whitespace())` of the SDK scan. */
  function TrimStart(s: string): (r: string)
    ensures |r| <= |s| && r == s[|s| - |r|..]
    ensures forall i | 0 <= i < |s| - |r| :: IsWhitespace(s[i])
    ensures r != [] ==> !IsWhitespace(r[0])
  {
    if s != [] && IsWhitespace(s[0]) then TrimStart(s[1..]) else s
  }

  /** `str::trim_end`. */
  function TrimEnd(s: string): (r: string)
    ensures |r| <= |s| && r == s[..|r|]
    ensures forall i | |r| <= i < |s| :: IsWhitespace(s[i])
    ensures r != [] ==> !IsWhitespace(r[|r| - 1])
  {
    if s != [] && IsWhitespace(s[|s| - 1]) then TrimEnd(s[..|s| - 1]) else s
  }

  /** `str::trim`. */
  function Trim(s: string): string {
    TrimEnd(TrimStart(s))
  }

  /** A string that neither starts nor ends with whitespace is its own trim. */
  lemma TrimUnchanged(s: string)
    requires s != [] && !IsWhitespace(s[0]) && !IsWhitespace(s[|s| - 1])
    ensures Trim(s) == s
  {
  }

  predicate StartsWith(s: string, prefix: string) {
    |prefix| <= |s| && s[..|prefix|] == prefix
  }

  predicate OccursAt(s: string, pat: string, i: nat) {
    i + |pat| <= |s| && s[i..i + |pat|] == pat
  }

  /** `str::find`: the position of the first occurrence of `pat` in `s`, if any. */
  function Find(s: string, pat: string): (r: Option<nat>)
    ensures r.Some? ==> OccursAt(s, pat, r.value)
    ensures forall i: nat | r.None? || i < r.value :: !OccursAt(s, pat, i)
    decreases |s|
  {
    if |s| < |pat| then None
    else if s[..|pat|] == pat then Some(0)
    else
      var r := Find(s[1..], pat);
      assert forall i: nat | 1 <= i :: OccursAt(s, pat, i) == OccursAt(s[1..], pat, i - 1) by {
        forall i: nat | 1 <= i ensures OccursAt(s, pat, i) == OccursAt(s[1..], pat, i - 1) {
          OccursAtTail(s, pat, i);
        }
      }
      assert !OccursAt(s, pat, 0);
      match r
      case None => None
      case Some(k) => Some(k + 1)
  }

  lemma OccursAtTail(s: string, pat: string, i: nat)
    requires 1 <= i && s != []
    ensures OccursAt(s, pat, i) == OccursAt(s[1..], pat, i - 1)
  {
    if i + |pat| <= |s| {
      var a, b := s[i..i + |pat|], s[1..][i - 1..i - 1 + |pat|];
      assert |a| == |b|;
      assert forall k | 0 <= k < |a| :: a[k] == b[k];
    }
  }

  /** The length of the first line of `s`: the index of its first `'\n'`, or `|s|`. */
  function LineEnd(s: string): (i: nat)
    ensures i <= |s| && (i < |s| ==> s[i] == '\n')
    ensures forall k | 0 <= k < i :: s[k] != '\n'
  {
    if s == [] || s[0] == '\n' then 0 else 1 + LineEnd(s[1..])
  }

  /** Drops the `'\r'` of a `"\r\n"` line ending. */
  function StripCr(line: string): string {
    if line != [] && line[|line| - 1] == '\r' then line[..|line| - 1] else line
  }

  /**
   * `str::lines`: the pieces between `'\n'` characters, each losing a `'\r'` that stood
   * right before its `'\n'`; a final `'\n'` does not start an empty last line.
   */
  function Lines(s: string): (r: seq<string>)
    ensures forall k | 0 <= k < |r| :: '\n' !in r[k]
    decreases |s|
  {
    if s == [] then []
    else
      var i := LineEnd(s);
      if i == |s| then [s] else [StripCr(s[..i])] + Lines(s[i + 1..])
  }

  /** Every line followed by a newline: the inverse of `Lines` on text without `'\r'`. */
  function Unlines(ls: seq<string>): string {
    if ls == [] then [] else ls[0] + "\n" + Unlines(ls[1..])
  }

  /** Splitting into lines loses nothing but a missing final newline. */
  lemma {:induction false} LinesRoundTrip(s: string)
    requires '\r' !in s
    ensures Unlines(Lines(s)) == if s == [] || s[|s| - 1] == '\n' then s else s + "\n"
    decreases |s|
  {
    if s != [] {
      var i := LineEnd(s);
      if i == |s| {
        assert s[|s| - 1] != '\n';
        assert Lines(s) == [s];
        UnlinesCons(s, []);
        assert [s] + [] == [s];
      } else {
        LinesRoundTripStep(s, i);
      }
    }
  }

  lemma {:induction false} LinesRoundTripStep(s: string, i: nat)
    requires '\r' !in s && i == LineEnd(s) < |s|
    ensures Unlines(Lines(s)) == if s[|s| - 1] == '\n' then s else s + "\n"
    decreases |s|, 0
  {
    var t := s[i + 1..];
    var line := s[..i];
    NotInSlice(s, '\r', i + 1, |s|);
    LinesFirst(s, i);
    UnlinesCons(line, Lines(t));
    LinesRoundTrip(t);
    JoinLine(s, line, t);
  }

  /** Text without `'\r'` splits into its first line and the lines of what follows the `'\n'`. */
  lemma LinesFirst(s: string, i: nat)
    requires '\r' !in s && i == LineEnd(s) < |s|
    ensures Lines(s) == [s[..i]] + Lines(s[i + 1..])
    ensures s == s[..i] + "\n" + s[i + 1..]
  {
    SplitAround(s, i);
    NotInSlice(s, '\r', 0, i);
    assert s[..i] == s[0..i];
    assert StripCr(s[..i]) == s[..i];
  }

  /** A first line and a newline in front of the rest keep the rest's final-newline rule. */
  lemma JoinLine(s: string, line: string, t: string)
    requires s == line + "\n" + t
    ensures var u := if t == [] || t[|t| - 1] == '\n' then t else t + "\n";
      line + "\n" + u == if s[|s| - 1] == '\n' then s else s + "\n"
  {
    if t != [] {
      assert t[|t| - 1] == s[|s| - 1];
      assert line + "\n" + (t + "\n") == s + "\n";
    }
  }

  lemma SplitAround(s: string, i: nat)
    requires i < |s|
    ensures s == s[..i] + [s[i]] + s[i + 1..]
  {
    assert s[..i] + [s[i]] == s[..i + 1];
    assert s[..i + 1] + s[i + 1..] == s;
  }

  lemma UnlinesCons(l: string, ls: seq<string>)
    ensures Unlines([l] + ls) == l + "\n" + Unlines(ls)
  {
    assert ([l] + ls)[1..] == ls;
  }

  lemma NotInSlice(s: string, c: char, i: nat, j: nat)
    requires i <= j <= |s| && c !in s
    ensures c !in s[i..j]
  {
  }

  /** The `.rc` string escape applied to inline manifest lines: every `"` becomes `""`. */
  function DoubleQuotes(s: string): string {
    if s == [] then [] else (if s[0] == '"' then "\"\"" else [s[0]]) + DoubleQuotes(s[1..])
  }

  /** A string with nothing to escape is written as it is. */
  lemma {:induction false} DoubleQuotesNoQuote(s: string)
    requires '"' !in s
    ensures DoubleQuotes(s) == s
  {
    if s != [] {
      assert '"' !in s[1..];
      DoubleQuotesNoQuote(s[1..]);
      assert s == [s[0]] + s[1..];
    }
  }

  /** How a resource compiler reads the body of an `.rc` string back: `""` stands for `"`. */
  function UndoubleQuotes(s: string): string {
    if |s| >= 2 && s[0] == '"' && s[1] == '"' then "\"" + UndoubleQuotes(s[2..])
    else if s == [] then []
    else [s[0]] + UndoubleQuotes(s[1..])
  }

  /** The escape is lossless: reading an escaped string back gives the original. */
  lemma {:induction false} UndoubleDoubleQuotes(s: string)
    ensures UndoubleQuotes(DoubleQuotes(s)) == s
  {
    if s != [] {
      UndoubleDoubleQuotes(s[1..]);
      var rest := DoubleQuotes(s[1..]);
      if s[0] == '"' {
        assert DoubleQuotes(s) == "\"\"" + rest;
        assert (("\"\"" + rest)[2..]) == rest;
      } else {
        assert DoubleQuotes(s) == [s[0]] + rest;
        assert ([s[0]] + rest)[1..] == rest;
      }
      assert s == [s[0]] + s[1..];
    }
  }

  function Count(s: string, c: char): nat {
    if s == [] then 0 else (if s[0] == c then 1 else 0) + Count(s[1..], c)
  }

  lemma {:induction false} CountAppend(a: string, b: string, c: char)
    ensures Count(a + b, c) == Count(a, c) + Count(b, c)
  {
    if a != [] {
      assert (a + b)[0] == a[0];
      assert (a + b)[1..] == a[1..] + b;
      CountAppend(a[1..], b, c);
    } else {
      assert a + b == b;
    }
  }

  /** A line with `k` quotes grows by `k` characters and carries `2k` quotes once escaped. */
  lemma {:induction false} DoubleQuotesCount(s: string)
    ensures |DoubleQuotes(s)| == |s| + Count(s, '"')
    ensures Count(DoubleQuotes(s), '"') == 2 * Count(s, '"')
  {
    if s != [] {
      DoubleQuotesCount(s[1..]);
      var head := if s[0] == '"' then "\"\"" else [s[0]];
      CountAppend(head, DoubleQuotes(s[1..]), '"');
    }
  }

  lemma {:induction false} DoubleQuotesAppend(a: string, b: string)
    ensures DoubleQuotes(a + b) == DoubleQuotes(a) + DoubleQuotes(b)
  {
    if a != [] {
      assert (a + b)[0] == a[0];
      assert (a + b)[1..] == a[1..] + b;
      DoubleQuotesAppend(a[1..], b);
      var head := if a[0] == '"' then "\"\"" else [a[0]];
      assert DoubleQuotes(a + b) == head + DoubleQuotes(a[1..] + b);
      assert DoubleQuotes(a) == head + DoubleQuotes(a[1..]);
    } else {
      assert a + b == b;
    }
  }

  lemma {:induction false} TrimStartDoubleQuotes(s: string)
    ensures TrimStart(DoubleQuotes(s)) == DoubleQuotes(TrimStart(s))
  {
    if s != [] {
      var d := DoubleQuotes(s);
      if IsWhitespace(s[0]) {
        assert d == [s[0]] + DoubleQuotes(s[1..]);
        assert d[1..] == DoubleQuotes(s[1..]);
        assert TrimStart(d) == TrimStart(d[1..]);
        assert TrimStart(s) == TrimStart(s[1..]);
        TrimStartDoubleQuotes(s[1..]);
      } else {
        assert d[0] == s[0];
        assert TrimStart(d) == d;
        assert TrimStart(s) == s;
      }
    }
  }

  lemma {:induction false} TrimEndDoubleQuotes(s: string)
    ensures TrimEnd(DoubleQuotes(s)) == DoubleQuotes(TrimEnd(s))
    decreases |s|
  {
    if s != [] {
      var init, c := s[..|s| - 1], s[|s| - 1];
      assert s == init + [c];
      DoubleQuotesAppend(init, [c]);
      var d := DoubleQuotes(s);
      var dc := DoubleQuotes([c]);
      assert dc == (if c == '"' then "\"\"" else [c]) by {
        assert [c][1..] == [];
      }
      assert d == DoubleQuotes(init) + dc;
      if IsWhitespace(c) {
        assert d[..|d| - 1] == DoubleQuotes(init);
        TrimEndDoubleQuotes(init);
      } else {
        assert d[|d| - 1] == (if c == '"' then '"' else c);
      }
    }
  }

  /** Escaping and trimming commute: neither touches what the other changes. */
  lemma TrimDoubleQuotes(s: string)
    ensures Trim(DoubleQuotes(s)) == DoubleQuotes(Trim(s))
  {
    TrimStartDoubleQuotes(s);
    TrimEndDoubleQuotes(TrimStart(s));
  }

  // ---------------------------------------------------------------- numbers

  const U16_LIMIT: nat := 0x1_0000
  const U64_LIMIT: nat := 0x1_0000_0000_0000_0000

  function Pow(b: nat, k: nat): nat {
    if k == 0 then 1 else b * Pow(b, k - 1)
  }

  /** The digit character Rust's formatter writes for `d` (lowercase for hex). */
  function DigitChar(d: nat): char
    requires d < 16
  {
    if d < 10 then ('0' as int + d) as char else ('a' as int + d - 10) as char
  }

  function DigitValue(c: char): nat {
    if '0' <= c <= '9' then c as int - '0' as int
    else if 'a' <= c <= 'f' then c as int - 'a' as int + 10
    else 0
  }

  predicate IsDigit(c: char, base: nat) {
    ('0' <= c <= '9' || 'a' <= c <= 'f') && DigitValue(c) < base
  }

  /** The digit character of `d` names a digit of `base` whose value is `d`. */
  lemma DigitCharValue(d: nat, base: nat)
    requires d < base <= 16
    ensures IsDigit(DigitChar(d), base) && DigitValue(DigitChar(d)) == d
    ensures DigitChar(d) == '0' <==> d == 0
  {
  }

  lemma DivStep(n: nat, base: nat)
    requires 2 <= base <= n
    ensures 1 <= n / base < n && n % base < base
    ensures n == (n / base) * base + n % base
  {
  }

  /** `n` written in `base` with no leading zeros: `{}` for base 10, `{:x}` for base 16. */
  function ToBase(n: nat, base: nat): (r: string)
    requires 2 <= base <= 16
    ensures r != [] && forall i | 0 <= i < |r| :: IsDigit(r[i], base)
    ensures r == "0" <==> n == 0
    ensures r[0] == '0' ==> r == "0"
    decreases n
  {
    if n < base then
      DigitCharValue(n, base);
      [DigitChar(n)]
    else
      DivStep(n, base);
      var q := ToBase(n / base, base);
      DigitCharValue(n % base, base);
      var r := q + [DigitChar(n % base)];
      assert r[0] == q[0];
      assert forall i | 0 <= i < |q| :: r[i] == q[i];
      r
  }

  /** The value of a digit string in `base`. */
  function FromBase(s: string, base: nat): nat
    requires 2 <= base <= 16
  {
    if s == [] then 0 else FromBase(s[..|s| - 1], base) * base + DigitValue(s[|s| - 1])
  }

  /** Formatting loses nothing: the digits read back as the number. */
  lemma {:induction false} FromBaseToBase(n: nat, base: nat)
    requires 2 <= base <= 16
    ensures FromBase(ToBase(n, base), base) == n
    decreases n
  {
    var r := ToBase(n, base);
    if n < base {
      DigitCharValue(n, base);
      assert r[..0] == [];
    } else {
      DivStep(n, base);
      var q := ToBase(n / base, base);
      var d := DigitChar(n % base);
      DigitCharValue(n % base, base);
      assert r == q + [d];
      assert r[..|r| - 1] == q;
      FromBaseToBase(n / base, base);
      calc {
        FromBase(r, base);
        FromBase(q, base) * base + DigitValue(d);
        (n / base) * base + n % base;
        n;
      }
    }
  }

  /** Leading zeros do not change the value of a digit string. */
  lemma {:induction false} FromBaseLeadingZeros(z: string, s: string, base: nat)
    requires 2 <= base <= 16
    requires forall i | 0 <= i < |z| :: z[i] == '0'
    ensures FromBase(z + s, base) == FromBase(s, base)
    decreases |s| + |z|
  {
    if s == [] {
      if z != [] {
        assert z + s == z;
        assert z[..|z| - 1] + [] == z[..|z| - 1];
        FromBaseLeadingZeros(z[..|z| - 1], [], base);
      }
    } else {
      assert (z + s)[..|z + s| - 1] == z + s[..|s| - 1];
      FromBaseLeadingZeros(z, s[..|s| - 1], base);
    }
  }

  lemma MulStrictMonotone(b: nat, x: nat, y: nat)
    requires b * x < b * y
    ensures x < y
  {
  }

  /** A number below `base^k` takes at most `k` digits. */
  lemma {:induction false} ToBaseWidth(n: nat, base: nat, k: nat)
    requires 2 <= base <= 16 && 1 <= k && n < Pow(base, k)
    ensures |ToBase(n, base)| <= k
    decreases k
  {
    if n >= base {
      assert k >= 2;
      var p, q := Pow(base, k - 1), n / base;
      assert base * q <= n < base * p;
      MulStrictMonotone(base, q, p);
      ToBaseWidth(q, base, k - 1);
    }
  }

  /** Left-pads with `'0'` to `width` characters, as the `0` flag of a width does. */
  function ZeroPad(s: string, width: nat): (r: string)
    ensures |r| == if |s| < width then width else |s|
  {
    if |s| < width then seq(width - |s|, _ => '0') + s else s
  }

  /** `{}` of an unsigned integer. */
  function Decimal(n: nat): string {
    ToBase(n, 10)
  }

  /** `{:x}` of an unsigned integer; `{:#x}` is `"0x"` followed by this. */
  function Hex(n: nat): string {
    ToBase(n, 16)
  }

  /** `{:04x}` of an unsigned integer. */
  function Hex4(n: nat): string {
    ZeroPad(Hex(n), 4)
  }

  /** `{:04x}` of a 16-bit value is exactly four lowercase hex digits that read back as it. */
  lemma Hex4Exact(n: nat)
    requires n < U16_LIMIT
    ensures |Hex4(n)| == 4
    ensures forall i | 0 <= i < 4 :: IsDigit(Hex4(n)[i], 16)
    ensures FromBase(Hex4(n), 16) == n
  {
    assert Pow(16, 4) == U16_LIMIT;
    ToBaseWidth(n, 16, 4);
    var h := Hex(n);
    var z := seq(4 - |h|, _ => '0');
    assert Hex4(n) == z + h;
    FromBaseLeadingZeros(z, h, 16);
    FromBaseToBase(n, 16);
    forall i | 0 <= i < 4 ensures IsDigit(Hex4(n)[i], 16) {
      if i >= |z| {
        assert Hex4(n)[i] == h[i - |z|];
      }
    }
  }

  predicate AllDecimal(s: string) {
    forall i | 0 <= i < |s| :: '0' <= s[i] <= '9'
  }

  /**
   * `str::parse::<u64>`: an optional `+`, then at least one ASCII digit, with a value that
   * fits in 64 bits; anything else is an error (`None`).
   */
  function ParseU64(s: string): (r: Option<nat>)
    ensures r.Some? ==> r.value < U64_LIMIT
    ensures r.Some? ==> s != [] && (AllDecimal(s) || (s[0] == '+' && AllDecimal(s[1..])))
  {
    var digits := if s != [] && s[0] == '+' then s[1..] else s;
    if digits == [] || !AllDecimal(digits) then None
    else
      var v := FromBase(digits, 10);
      if v < U64_LIMIT then Some(v) else None
  }

  /** Every 64-bit value parses back from its decimal form. */
  lemma ParseU64Decimal(n: nat)
    requires n < U64_LIMIT
    ensures ParseU64(Decimal(n)) == Some(n)
  {
    var d := Decimal(n);
    assert IsDigit(d[0], 10);
    assert AllDecimal(d) by {
      forall i | 0 <= i < |d| ensures '0' <= d[i] <= '9' {
        assert IsDigit(d[i], 10);
      }
    }
    FromBaseToBase(n, 10);
  }

  /** The number of bytes a character takes in UTF-8. */
  function Utf8Width(c: char): nat {
    if c as int < 0x80 then 1 else if c as int < 0x800 then 2 else if c as int < 0x1_0000 then 3 else 4
  }

  /** The UTF-8 length of a string: the unit of the offsets `str::find` returns. */
  function Utf8Len(s: string): (n: nat)
    ensures n >= |s|
  {
    if s == [] then 0 else Utf8Width(s[0]) + Utf8Len(s[1..])
  }

  predicate IsAscii(s: string) {
    forall i | 0 <= i < |s| :: s[i] as int < 0x80
  }

  /** On ASCII text byte offsets and character counts agree. */
  lemma {:induction false} AsciiUtf8Len(s: string)
    requires IsAscii(s)
    ensures Utf8Len(s) == |s|
  {
    if s != [] {
      assert IsAscii(s[1..]) by {
        forall i | 0 <= i < |s| - 1 ensures s[1..][i] as int < 0x80 { assert s[1..][i] == s[i + 1]; }
      }
      AsciiUtf8Len(s[1..]);
    }
  }

  /** `Iterator::skip(n)` over the characters of `s`. */
  function Drop(s: string, n: nat): string {
    if n >= |s| then [] else s[n..]
  }

  /** Path separators of Windows paths. */
  predicate IsSeparator(c: char) {
    c == '\\' || c == '/'
  }

  /** A path that is only a drive prefix, such as `C:`. */
  predicate IsBareDrive(p: string) {
    |p| == 2 && p[1] == ':' && ('a' <= p[0] <= 'z' || 'A' <= p[0] <= 'Z')
  }

  /**
   * Windows `PathBuf::push` of a relative path: a `\` goes between the two parts unless
   * the base is empty, already ends in a separator, or is a bare drive.
   */
  function JoinPath(base: string, rel: string): (r: string)
    ensures StartsWith(r, base) && |r| >= |base| + |rel| && r[|r| - |rel|..] == rel
    ensures |r| <= |base| + |rel| + 1
    ensures base != [] && !IsBareDrive(base) ==> IsSeparator(r[|r| - |rel| - 1])
  {
    if base == [] || IsSeparator(base[|base| - 1]) || IsBareDrive(base) then base + rel
    else base + "\\" + rel
  }
}
