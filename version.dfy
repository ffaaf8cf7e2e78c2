/**
 * The numeric side of `VERSIONINFO`: the seven version-info fields, the packing of the
 * package version into one 64-bit word in `WindowsResource::new`, and the extraction of
 * its four 16-bit words when `FILEVERSION` and `PRODUCTVERSION` are written out.
 */
module Version {
  import opened Wrappers
  import opened Text

  type u16 = x: int | 0 <= x < 0x1_0000
  type u64 = x: int | 0 <= x < 0x1_0000_0000_0000_0000

  /** The keys of the `version_info` map. */
  datatype VersionField =
    | FILEVERSION
    | PRODUCTVERSION
    | FILEOS
    | FILETYPE
    | FILESUBTYPE
    | FILEFLAGSMASK
    | FILEFLAGS

  /** `{:?}` of a field: the variant's own name. */
  function FieldName(f: VersionField): string {
    match f
    case FILEVERSION => "FILEVERSION"
    case PRODUCTVERSION => "PRODUCTVERSION"
    case FILEOS => "FILEOS"
    case FILETYPE => "FILETYPE"
    case FILESUBTYPE => "FILESUBTYPE"
    case FILEFLAGSMASK => "FILEFLAGSMASK"
    case FILEFLAGS => "FILEFLAGS"
  }

  /** The two fields written as four 16-bit words rather than as one hex number. */
  predicate IsVersionWords(f: VersionField) {
    f == FILEVERSION || f == PRODUCTVERSION
  }

  /** Bitwise OR of two unsigned integers, one bit at a time from the lowest. */
  function Or(a: nat, b: nat): nat
    decreases a + b
  {
    if a == 0 then b
    else if b == 0 then a
    else 2 * Or(a / 2, b / 2) + (if a % 2 == 1 || b % 2 == 1 then 1 else 0)
  }

  lemma {:induction false} PowAdd(b: nat, m: nat, n: nat)
    ensures Pow(b, m + n) == Pow(b, m) * Pow(b, n)
    decreases n
  {
    if n > 0 {
      PowAdd(b, m, n - 1);
      assert Pow(b, m + n) == b * Pow(b, m + n - 1);
      assert Pow(b, n) == b * Pow(b, n - 1);
      MulSwap(b, Pow(b, m), Pow(b, n - 1));
    }
  }

  lemma PowPositive(k: nat)
    ensures Pow(2, k) >= 1
  {
    if k > 0 {
      PowPositive(k - 1);
    }
  }

  lemma Pow2Constants()
    ensures Pow(2, 16) == 0x1_0000
    ensures Pow(2, 32) == 0x1_0000_0000
    ensures Pow(2, 48) == 0x1_0000_0000_0000
    ensures Pow(2, 64) == U64_LIMIT
  {
    assert Pow(2, 2) == 4;
    PowAdd(2, 2, 2);
    assert Pow(2, 4) == 16;
    PowAdd(2, 4, 4);
    assert Pow(2, 8) == 0x100;
    PowAdd(2, 8, 8);
    assert Pow(2, 16) == 0x1_0000;
    PowAdd(2, 16, 16);
    assert Pow(2, 32) == 0x1_0000_0000;
    PowAdd(2, 32, 16);
    PowAdd(2, 32, 32);
  }

  /** OR of two `k`-bit numbers is a `k`-bit number. */
  lemma {:induction false} OrBound(a: nat, b: nat, k: nat)
    requires a < Pow(2, k) && b < Pow(2, k)
    ensures Or(a, b) < Pow(2, k)
    decreases k
  {
    if a != 0 && b != 0 {
      assert k > 0;
      OrBound(a / 2, b / 2, k - 1);
    }
  }

  /** OR with a number whose bits lie below the other's lowest set bit is addition. */
  lemma {:induction false} OrDisjoint(x: nat, y: nat, k: nat)
    requires y < Pow(2, k)
    ensures Or(x * Pow(2, k), y) == x * Pow(2, k) + y
    decreases k
  {
    if k > 0 && x != 0 && y != 0 {
      var p := Pow(2, k - 1);
      PowPositive(k - 1);
      assert Pow(2, k) == 2 * p;
      var a := x * Pow(2, k);
      assert a == 2 * (x * p);
      assert x * p >= 1;
      assert a / 2 == x * p && a % 2 == 0;
      assert y / 2 < p;
      OrDisjoint(x, y / 2, k - 1);
    }
  }

  /**
   * The packed version of `new`: `0 | major << 48 | minor << 32 | patch << 16` on `u64`,
   * where a shift drops the bits it pushes past bit 63.
   */
  function Pack(major: nat, minor: nat, patch: nat): (v: nat)
    ensures v < U64_LIMIT
  {
    var hi := (major * 0x1_0000_0000_0000) % U64_LIMIT;
    var mid := (minor * 0x1_0000_0000) % U64_LIMIT;
    var lo := (patch * 0x1_0000) % U64_LIMIT;
    Pow2Constants();
    OrBound(0, hi, 64);
    OrBound(Or(0, hi), mid, 64);
    OrBound(Or(Or(0, hi), mid), lo, 64);
    Or(Or(Or(0, hi), mid), lo)
  }

  /** The four 16-bit words of a version value, most significant first. */
  datatype Quad = Quad(major: u16, minor: u16, patch: u16, build: u16)

  /** `(v >> 48) as u16`, `(v >> 32) as u16`, `(v >> 16) as u16`, `v as u16`. */
  function Unpack(v: nat): Quad {
    Quad((v / 0x1_0000_0000_0000) % 0x1_0000,
         (v / 0x1_0000_0000) % 0x1_0000,
         (v / 0x1_0000) % 0x1_0000,
         v % 0x1_0000)
  }

  /** With every component below 2^16, packing is a plain sum of shifted words. */
  lemma PackIsSum(major: u16, minor: u16, patch: u16)
    ensures Pack(major, minor, patch) == major * 0x1_0000_0000_0000 + minor * 0x1_0000_0000 + patch * 0x1_0000
  {
    var hi, mid, lo := major * 0x1_0000_0000_0000, minor * 0x1_0000_0000, patch * 0x1_0000;
    ShiftsFit(major, minor, patch);
    assert Pack(major, minor, patch) == Or(Or(Or(0, hi), mid), lo);
    OrOfWords(major, minor, patch);
  }

  /** No component below 2^16 loses a bit to its shift. */
  lemma ShiftsFit(major: u16, minor: u16, patch: u16)
    ensures (major * 0x1_0000_0000_0000) % U64_LIMIT == major * 0x1_0000_0000_0000
    ensures (minor * 0x1_0000_0000) % U64_LIMIT == minor * 0x1_0000_0000
    ensures (patch * 0x1_0000) % U64_LIMIT == patch * 0x1_0000
  {
    assert major * 0x1_0000_0000_0000 <= 0xFFFF * 0x1_0000_0000_0000;
    assert minor * 0x1_0000_0000 <= 0xFFFF * 0x1_0000_0000;
    assert patch * 0x1_0000 <= 0xFFFF * 0x1_0000;
  }

  lemma MulAssoc(x: int, y: int, z: int)
    ensures x * (y * z) == (x * y) * z
  {
  }

  lemma MulSwap(x: int, y: int, z: int)
    ensures x * (y * z) == y * (x * z)
  {
  }

  lemma MulDistrib(x: int, y: int, z: int)
    ensures (x + y) * z == x * z + y * z
  {
  }

  /** The OR of three shifted words that do not overlap is their sum. */
  lemma OrOfWords(major: u16, minor: u16, patch: u16)
    ensures var hi, mid, lo := major * 0x1_0000_0000_0000, minor * 0x1_0000_0000, patch * 0x1_0000;
      Or(Or(Or(0, hi), mid), lo) == hi + mid + lo
  {
    var hi, mid, lo := major * 0x1_0000_0000_0000, minor * 0x1_0000_0000, patch * 0x1_0000;
    assert Or(0, hi) == hi;
    assert mid < 0x1_0000_0000_0000 by {
      assert minor * 0x1_0000_0000 <= 0xFFFF * 0x1_0000_0000;
    }
    OrShift48(major, mid);
    var upper := major * 0x1_0000 + minor;
    assert hi + mid == upper * 0x1_0000_0000 by {
      MulAssoc(major, 0x1_0000, 0x1_0000_0000);
      MulDistrib(major * 0x1_0000, minor, 0x1_0000_0000);
    }
    assert lo < 0x1_0000_0000 by {
      assert patch * 0x1_0000 <= 0xFFFF * 0x1_0000;
    }
    OrShift32(upper, lo);
  }

  lemma OrShift48(x: nat, y: nat)
    requires y < 0x1_0000_0000_0000
    ensures Or(x * 0x1_0000_0000_0000, y) == x * 0x1_0000_0000_0000 + y
  {
    Pow2Constants();
    OrDisjoint(x, y, 48);
  }

  lemma OrShift32(x: nat, y: nat)
    requires y < 0x1_0000_0000
    ensures Or(x * 0x1_0000_0000, y) == x * 0x1_0000_0000 + y
  {
    Pow2Constants();
    OrDisjoint(x, y, 32);
  }


  /** Unpacking a packed version gives back its three components and a zero fourth word. */
  lemma UnpackPack(major: u16, minor: u16, patch: u16)
    ensures Unpack(Pack(major, minor, patch)) == Quad(major, minor, patch, 0)
  {
    PackIsSum(major, minor, patch);
    WordsOfSum(major, minor, patch, 0);
  }

  /** The four words of a sum of shifted words are read back by shifting down and truncating. */
  lemma WordsOfSum(major: u16, minor: u16, patch: u16, build: u16)
    ensures var v := major * 0x1_0000_0000_0000 + minor * 0x1_0000_0000 + patch * 0x1_0000 + build;
      Unpack(v) == Quad(major, minor, patch, build)
  {
    var v := major * 0x1_0000_0000_0000 + minor * 0x1_0000_0000 + patch * 0x1_0000 + build;
    var w2 := major * 0x1_0000 + minor;
    var w1 := w2 * 0x1_0000 + patch;
    assert v == w1 * 0x1_0000 + build by {
      MulAssoc(major, 0x1_0000, 0x1_0000);
      MulAssoc(major, 0x1_0000_0000, 0x1_0000);
      MulAssoc(minor, 0x1_0000, 0x1_0000);
      MulDistrib(major * 0x1_0000, minor, 0x1_0000);
      MulDistrib(w2 * 0x1_0000, patch, 0x1_0000);
    }
    WordSplit(v, w1, build);
    WordSplit(w1, w2, patch);
    WordSplit(w2, major, minor);
    ShiftTwice(v);
  }

  /** A number written as a multiple of 2^16 plus a word: shifting down by 16 and truncating recover both. */
  lemma WordSplit(v: int, q: int, r: int)
    requires 0 <= r < 0x1_0000 && v == q * 0x1_0000 + r
    ensures v / 0x1_0000 == q && v % 0x1_0000 == r
  {
  }

  /** Shifting down by 16 and then by 16, 32 or 48 more. */
  lemma ShiftTwice(v: nat)
    ensures v / 0x1_0000 / 0x1_0000 == v / 0x1_0000_0000
    ensures v / 0x1_0000_0000 / 0x1_0000 == v / 0x1_0000_0000_0000
  {
  }


  /** A 64-bit value whose lowest word is zero is the packing of its upper three words. */
  lemma PackUnpack(v: nat)
    requires v < U64_LIMIT && v % 0x1_0000 == 0
    ensures var q := Unpack(v); Pack(q.major, q.minor, q.patch) == v
  {
    var q := Unpack(v);
    PackIsSum(q.major, q.minor, q.patch);
    WordsOf(v);
  }

  /** A 64-bit value whose lowest word is zero is the sum of its upper three words, shifted. */
  lemma WordsOf(v: nat)
    requires v < U64_LIMIT && v % 0x1_0000 == 0
    ensures v == (v / 0x1_0000_0000_0000) % 0x1_0000 * 0x1_0000_0000_0000
               + (v / 0x1_0000_0000) % 0x1_0000 * 0x1_0000_0000 + (v / 0x1_0000) % 0x1_0000 * 0x1_0000
  {
    var w1 := v / 0x1_0000;
    var w2 := w1 / 0x1_0000;
    var w3 := w2 / 0x1_0000;
    assert v == w1 * 0x1_0000;
    assert w1 == w2 * 0x1_0000 + w1 % 0x1_0000;
    assert w2 == w3 * 0x1_0000 + w2 % 0x1_0000;
    assert w3 < 0x1_0000;
    assert v / 0x1_0000_0000 == w2;
    assert v / 0x1_0000_0000_0000 == w3;
  }

  /** OR of a number with itself is that number. */
  lemma {:induction false} OrSelf(a: nat)
    ensures Or(a, a) == a
    decreases a
  {
    if a != 0 {
      OrSelf(a / 2);
    }
  }

  /**
   * Where the shifted components overlap, `|=` is not a sum: a minor of `major * 2^16`
   * sets exactly the bits of the shifted major, and the packed word holds them once.
   */
  lemma PackOverlapping(major: u16, minor: nat)
    requires minor == major * 0x1_0000
    ensures Pack(major, minor, 0) == major * 0x1_0000_0000_0000
    ensures major > 0 ==> Pack(major, minor, 0) != major * 0x1_0000_0000_0000 + minor * 0x1_0000_0000
  {
    var w := major * 0x1_0000_0000_0000;
    assert minor * 0x1_0000_0000 == w by {
      MulAssoc(major, 0x1_0000, 0x1_0000_0000);
    }
    ShiftsFit(major, 0, 0);
    assert Or(0, w) == w;
    OrSelf(w);
    assert Or(w, 0) == w;
  }

  /** A minor component of 2^16 is shifted past its word and lands in the major word. */
  lemma MinorOverflowsIntoMajor()
    ensures Unpack(Pack(0, 0x1_0000, 0)) == Quad(1, 0, 0, 0)
  {
    assert Pack(0, 0x1_0000, 0) == 0x1_0000_0000_0000;
  }

  /** `env::var(..).parse().unwrap_or(0)`: a component that does not parse as `u64` is zero. */
  function Component(s: string): (n: nat)
    ensures n < U64_LIMIT
  {
    ParseU64(s).GetOr(0)
  }

  /** The version word `new` stores under `FILEVERSION` and `PRODUCTVERSION`. */
  function PackedVersion(major: string, minor: string, patch: string): nat {
    Pack(Component(major), Component(minor), Component(patch))
  }

  /** Components written in decimal and below 2^16 come back out of the packed word. */
  lemma PackedVersionRoundTrip(major: u16, minor: u16, patch: u16)
    ensures Unpack(PackedVersion(Decimal(major), Decimal(minor), Decimal(patch))) == Quad(major, minor, patch, 0)
  {
    ParseU64Decimal(major);
    ParseU64Decimal(minor);
    ParseU64Decimal(patch);
    UnpackPack(major, minor, patch);
  }
}
