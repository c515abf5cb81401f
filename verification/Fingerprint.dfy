/** The FNV-1a fingerprint (64 bit, section 2 of draft-eastlake-fnv) that decides whether the browser
    validation WASM is rebuilt. The list of files is the sorted one; walking the directories and
    sorting the paths are not modelled. */
module Fingerprint {
  import opened Common

  const MODULUS: int := 0x1_0000_0000_0000_0000
  const OFFSET_BASIS: int := 0xcbf2_9ce4_8422_2325
  const PRIME: int := 0x100_0000_01b3

  type U64 = x: int | 0 <= x < MODULUS witness 0
  type Byte = x: int | 0 <= x < 256 witness 0

  // ---------------------------------------------------------------- the hash

  function Power2(n: nat): nat { if n == 0 then 1 else 2 * Power2(n - 1) }

  /** Bitwise exclusive or of the low `n` bits. */
  function Xor(x: nat, y: nat, n: nat): (z: nat)
    ensures z < Power2(n)
    decreases n, x
  {
    if n == 0 then 0 else (x + y) % 2 + 2 * Xor(x / 2, y / 2, n - 1)
  }

  function XorByte(x: Byte, y: Byte): Byte {
    assert Power2(8) == 256 by { assert Power2(4) == 16; }
    Xor(x, y, 8)
  }

  /** Exclusive or with a byte touches only the low byte. */
  function XorLow(h: U64, b: Byte): U64 {
    LowByteFits(h);
    h - h % 256 + XorByte(h % 256, b)
  }

  lemma LowByteFits(h: U64)
    ensures 0 <= h - h % 256 <= MODULUS - 256
  {
  }

  function WrappingMul(x: U64): U64 { (x * PRIME) % MODULUS }

  function Mix(h: U64, b: Byte): U64 { WrappingMul(XorLow(h, b)) }

  function Hash(h: U64, bytes: seq<Byte>): U64
    decreases bytes
  {
    if bytes == [] then h else Hash(Mix(h, bytes[0]), bytes[1..])
  }

  class Fnv1a64 {
    var state: U64

    constructor()
      ensures state == OFFSET_BASIS
    {
      state := OFFSET_BASIS;
    }

    method Write(bytes: seq<Byte>)
      modifies this
      ensures state == Hash(old(state), bytes)
    {
      for i := 0 to |bytes|
        invariant Hash(old(state), bytes) == Hash(state, bytes[i..])
      {
        state := XorLow(state, bytes[i]);
        state := WrappingMul(state);
        assert bytes[i..][1..] == bytes[i + 1..];
      }
    }
  }

  lemma {:induction false} HashConcat(h: U64, a: seq<Byte>, b: seq<Byte>)
    ensures Hash(h, a + b) == Hash(Hash(h, a), b)
    decreases a
  {
    if a == [] {
      assert a + b == b;
    } else {
      assert (a + b)[1..] == a[1..] + b;
      HashConcat(Mix(h, a[0]), a[1..], b);
    }
  }

  // ---------------------------------------------------------------- injectivity

  /** The inverse of the odd multiplier modulo 2^64. */
  const INVERSE: int := 0xce965057aff6957b
  const QUOTIENT: int := 0xce9650590f

  lemma InverseIsInverse()
    ensures PRIME * INVERSE == 1 + QUOTIENT * MODULUS
  {
  }

  lemma RemainderOfMultiple(a: U64, z: int)
    ensures (a + z * MODULUS) % MODULUS == a
  {
  }

  /** Multiplying by the inverse undoes the wrapping multiplication. */
  lemma WrappingMulIsUndone(x: U64)
    ensures (WrappingMul(x) * INVERSE) % MODULUS == x
  {
    InverseIsInverse();
    var q := (x * PRIME) / MODULUS;
    var r := WrappingMul(x);
    assert x * PRIME == q * MODULUS + r;
    var z := x * QUOTIENT - q * INVERSE;
    assert r * INVERSE == x + z * MODULUS;
    RemainderOfMultiple(x, z);
  }

  lemma {:induction false} XorIsUndone(x: nat, y: nat, n: nat)
    requires x < Power2(n) && y < Power2(n)
    ensures Xor(Xor(x, y, n), y, n) == x && Xor(Xor(x, y, n), x, n) == y
    decreases n
  {
    if n == 0 {
    } else {
      XorIsUndone(x / 2, y / 2, n - 1);
      XorTwice(x, y, n, Xor(x / 2, y / 2, n - 1), y);
      XorTwice(x, y, n, Xor(x / 2, y / 2, n - 1), x);
      Parity(x, y);
      Parity(y, x);
    }
  }

  /** The low bit and the rest of a double exclusive or. */
  lemma XorTwice(x: nat, y: nat, n: nat, rest: nat, w: nat)
    requires n > 0 && rest == Xor(x / 2, y / 2, n - 1)
    ensures Xor(Xor(x, y, n), w, n) == ((x + y) % 2 + w) % 2 + 2 * Xor(rest, w / 2, n - 1)
  {
    var bit := (x + y) % 2;
    assert Xor(x, y, n) == bit + 2 * rest;
    HalfOfSum(bit, rest, w);
  }

  lemma HalfOfSum(bit: nat, rest: nat, w: nat)
    requires bit < 2
    ensures (bit + 2 * rest) / 2 == rest && (bit + 2 * rest + w) % 2 == (bit + w) % 2
  {
  }

  lemma Parity(x: nat, y: nat)
    ensures ((x + y) % 2 + y) % 2 == x % 2 && x == x % 2 + 2 * (x / 2)
  {
  }

  lemma XorByteIsUndone(x: Byte, y: Byte)
    ensures XorByte(XorByte(x, y), y) == x && XorByte(XorByte(x, y), x) == y
  {
    assert Power2(8) == 256 by { assert Power2(4) == 16; }
    XorIsUndone(x, y, 8);
  }

  /** Exclusive or with a known byte loses nothing, and neither does it for a known state. */
  lemma XorLowIsInjective(h: U64, b: Byte, h': U64, b': Byte)
    requires XorLow(h, b) == XorLow(h', b')
    ensures h == h' <==> b == b'
  {
    LowBytesMatch(h, XorByte(h % 256, b), h', XorByte(h' % 256, b'));
    XorByteIsUndone(h % 256, b);
    XorByteIsUndone(h' % 256, b');
  }

  lemma LowBytesMatch(h: U64, x: Byte, h': U64, x': Byte)
    requires h - h % 256 + x == h' - h' % 256 + x'
    ensures x == x' && h / 256 == h' / 256
  {
  }

  lemma MixIsInjective(h: U64, b: Byte, h': U64, b': Byte)
    requires Mix(h, b) == Mix(h', b')
    ensures h == h' <==> b == b'
  {
    WrappingMulIsUndone(XorLow(h, b));
    WrappingMulIsUndone(XorLow(h', b'));
    XorLowIsInjective(h, b, h', b');
  }

  /** Hashing the same bytes from different states never collides. */
  lemma {:induction false} HashIsInjective(h: U64, h': U64, bytes: seq<Byte>)
    requires h != h'
    ensures Hash(h, bytes) != Hash(h', bytes)
    decreases bytes
  {
    if bytes == [] {
    } else {
      if Mix(h, bytes[0]) == Mix(h', bytes[0]) {
        MixIsInjective(h, bytes[0], h', bytes[0]);
      }
      HashIsInjective(Mix(h, bytes[0]), Mix(h', bytes[0]), bytes[1..]);
    }
  }

  /** Two byte streams that differ in exactly one place have different hashes. */
  lemma OneByteChangesHash(h: U64, before: seq<Byte>, x: Byte, y: Byte, after: seq<Byte>)
    requires x != y
    ensures Hash(h, before + [x] + after) != Hash(h, before + [y] + after)
  {
    var mid := Hash(h, before);
    HashConcat(h, before + [x], after);
    HashConcat(h, before, [x]);
    HashConcat(h, before + [y], after);
    HashConcat(h, before, [y]);
    assert Hash(mid, [x]) == Mix(mid, x) && Hash(mid, [y]) == Mix(mid, y);
    if Mix(mid, x) == Mix(mid, y) {
      MixIsInjective(mid, x, mid, y);
    }
    HashIsInjective(Mix(mid, x), Mix(mid, y), after);
  }

  function Bit(x: int, y: int): int { (x + y) % 2 }

  lemma XorFour(x: nat, y: nat, n: nat)
    requires n >= 4
    ensures Xor(x, y, n) == Bit(x, y) + 2 * Bit(x / 2, y / 2) + 4 * Bit(x / 4, y / 4) + 8 * Bit(x / 8, y / 8)
                            + 16 * Xor(x / 16, y / 16, n - 4)
  {
    assert x / 2 / 2 == x / 4 && x / 4 / 2 == x / 8 && x / 8 / 2 == x / 16;
    assert y / 2 / 2 == y / 4 && y / 4 / 2 == y / 8 && y / 8 / 2 == y / 16;
    assert Xor(x, y, n) == Bit(x, y) + 2 * Xor(x / 2, y / 2, n - 1);
    assert Xor(x / 2, y / 2, n - 1) == Bit(x / 2, y / 2) + 2 * Xor(x / 4, y / 4, n - 2);
    assert Xor(x / 4, y / 4, n - 2) == Bit(x / 4, y / 4) + 2 * Xor(x / 8, y / 8, n - 3);
    assert Xor(x / 8, y / 8, n - 3) == Bit(x / 8, y / 8) + 2 * Xor(x / 16, y / 16, n - 4);
  }

  function BitSum(x: Byte, y: Byte): int {
    Bit(x, y) + 2 * Bit(x / 2, y / 2) + 4 * Bit(x / 4, y / 4) + 8 * Bit(x / 8, y / 8)
    + 16 * Bit(x / 16, y / 16) + 32 * Bit(x / 32, y / 32) + 64 * Bit(x / 64, y / 64) + 128 * Bit(x / 128, y / 128)
  }

  /** Exclusive or has a one exactly where the bytes' binary digits differ. */
  lemma XorByBits(x: Byte, y: Byte)
    ensures XorByte(x, y) == BitSum(x, y)
  {
    var eight := 8;
    XorFour(x, y, eight);
    var u, v := x / 16, y / 16;
    XorFour(u, v, eight - 4);
    assert u / 2 == x / 32 && u / 4 == x / 64 && u / 8 == x / 128;
    assert v / 2 == y / 32 && v / 4 == y / 64 && v / 8 == y / 128;
    assert Xor(u / 16, v / 16, 0) == 0;
  }

  lemma LowByte(h: int, high: int, low: Byte)
    requires h == 256 * high + low
    ensures h % 256 == low
  {
  }

  lemma XorLowOf(h: U64, b: Byte, high: int, low: Byte, x: Byte)
    requires h == 256 * high + low && XorByte(low, b) == x
    ensures XorLow(h, b) == 256 * high + x
  {
    LowByte(h, high, low);
  }

  lemma WrapsTo(x: U64, q: int, r: U64)
    requires x * PRIME == q * MODULUS + r
    ensures WrappingMul(x) == r
  {
    RemainderOfMultiple(r, q);
  }

  lemma BitsOfA(x: Byte, y: Byte)
    requires x == 0x25 && y == 0x61
    ensures BitSum(x, y) == 0x44
  {
    assert x / 2 == 18 && x / 4 == 9 && x / 8 == 4 && x / 16 == 2 && x / 32 == 1 && x / 64 == 0 && x / 128 == 0;
    assert y / 2 == 48 && y / 4 == 24 && y / 8 == 12 && y / 16 == 6 && y / 32 == 3 && y / 64 == 1 && y / 128 == 0;
  }

  lemma MixOfA(h: U64, a: Byte)
    requires h == OFFSET_BASIS && a == 0x61
    ensures Mix(h, a) == 0xaf63_dc4c_8601_ec8c
  {
    var low: Byte := 0x25;
    BitsOfA(low, a);
    XorByBits(low, a);
    XorLowOf(h, a, 0xcb_f29c_e484_2223, low, 0x44);
    WrapsTo(0xcbf2_9ce4_8422_2344, 0xcbf29ce5de, 0xaf63_dc4c_8601_ec8c);
  }

  /** The published FNV-1a value of the one-byte string "a". */
  lemma PublishedVector(h: U64, bytes: seq<Byte>)
    requires h == OFFSET_BASIS && bytes == [0x61]
    ensures Hash(h, bytes) == 0xaf63_dc4c_8601_ec8c
  {
    MixOfA(h, bytes[0]);
    assert bytes[1..] == [];
    assert Hash(h, bytes) == Hash(Mix(h, bytes[0]), []);
  }

  // ---------------------------------------------------------------- printing

  function HexChar(d: int): char
    requires 0 <= d < 16
  {
    if d < 10 then '0' + d as char else 'a' + (d - 10) as char
  }

  /** The last `width` hexadecimal digits of `n`. */
  function Hex(n: nat, width: nat): (s: string)
    ensures |s| == width
  {
    if width == 0 then "" else Hex(n / 16, width - 1) + [HexChar(n % 16)]
  }

  function Power16(k: nat): nat { if k == 0 then 1 else 16 * Power16(k - 1) }

  lemma {:induction false} HexIsInjective(a: nat, b: nat, width: nat)
    requires a < Power16(width) && b < Power16(width) && Hex(a, width) == Hex(b, width)
    ensures a == b
  {
    if width == 0 {
    } else {
      var s, t := Hex(a, width), Hex(b, width);
      assert s[width - 1] == HexChar(a % 16) && t[width - 1] == HexChar(b % 16);
      assert s[..width - 1] == Hex(a / 16, width - 1) && t[..width - 1] == Hex(b / 16, width - 1);
      HexIsInjective(a / 16, b / 16, width - 1);
    }
  }

  function HexDigitValue(c: char): int {
    if '0' <= c <= '9' then (c - '0') as int else if 'a' <= c <= 'f' then (c - 'a') as int + 10 else 0
  }

  /** The number that hexadecimal digits stand for, the first digit counting most. */
  function HexValue(s: string): int {
    if s == "" then 0 else HexValue(s[..|s| - 1]) * 16 + HexDigitValue(s[|s| - 1])
  }

  /** The printed digits stand for the number, and are lower-case hexadecimal digits. */
  lemma {:induction false} HexReadsBack(n: nat, width: nat)
    requires n < Power16(width)
    ensures HexValue(Hex(n, width)) == n
    ensures forall i :: 0 <= i < width ==> Hex(n, width)[i] in "0123456789abcdef"
  {
    if width == 0 {
    } else {
      HexReadsBack(n / 16, width - 1);
      HexCharReadsBack(n % 16);
      assert Hex(n, width)[..width - 1] == Hex(n / 16, width - 1);
    }
  }

  lemma HexCharReadsBack(d: int)
    requires 0 <= d < 16
    ensures HexDigitValue(HexChar(d)) == d && HexChar(d) in "0123456789abcdef"
  {
    assert HexChar(d) == "0123456789abcdef"[d];
  }

  lemma SixteenDigitsSuffice()
    ensures Power16(16) == MODULUS
  {
    assert Power16(4) == 65536;
    assert Power16(8) == 65536 * Power16(4);
    assert Power16(12) == 65536 * Power16(8);
    assert Power16(16) == 65536 * Power16(12);
  }

  // ---------------------------------------------------------------- the fingerprint

  datatype File = File(path: seq<Byte>, content: seq<Byte>)

  function FileBytes(f: File): seq<Byte> { f.path + [0] + f.content + [0] }

  function Body(files: seq<File>): seq<Byte> {
    if files == [] then [] else Body(files[..|files| - 1]) + FileBytes(files[|files| - 1])
  }

  function FingerprintOf(version: seq<Byte>, files: seq<File>): string {
    Hex(Hash(OFFSET_BASIS, version + Body(files)), 16)
  }

  method ValidationWasmFingerprint(version: seq<Byte>, files: seq<File>) returns (fingerprint: string)
    ensures fingerprint == FingerprintOf(version, files)
  {
    var hash := new Fnv1a64();
    hash.Write(version);
    NoFiles(version, files);
    for i := 0 to |files|
      invariant hash.state == Hash(OFFSET_BASIS, version + Body(files[..i]))
    {
      WriteFile(hash, files[i]);
      OneMoreFile(version, files, i);
    }
    return Hex(hash.state, 16);
  }

  lemma NoFiles(version: seq<Byte>, files: seq<File>)
    ensures version + Body(files[..0]) == version && files[..|files|] == files
  {
  }

  lemma OneMoreFile(version: seq<Byte>, files: seq<File>, i: nat)
    requires i < |files|
    ensures Hash(OFFSET_BASIS, version + Body(files[..i + 1]))
            == Hash(Hash(OFFSET_BASIS, version + Body(files[..i])), FileBytes(files[i]))
  {
    var upTo := files[..i + 1];
    assert upTo[..i] == files[..i];
    assert Body(upTo) == Body(files[..i]) + FileBytes(files[i]);
    HashConcat(OFFSET_BASIS, version + Body(files[..i]), FileBytes(files[i]));
    Associate(version, Body(files[..i]), FileBytes(files[i]));
  }

  lemma Associate<T>(a: seq<T>, b: seq<T>, c: seq<T>)
    ensures a + (b + c) == a + b + c
  {
  }

  method WriteFile(hash: Fnv1a64, f: File)
    modifies hash
    ensures hash.state == Hash(old(hash.state), FileBytes(f))
  {
    ghost var h := hash.state;
    hash.Write(f.path);
    hash.Write([0]);
    hash.Write(f.content);
    hash.Write([0]);
    HashConcat(h, f.path, [0]);
    HashConcat(h, f.path + [0], f.content);
    HashConcat(h, f.path + [0] + f.content, [0]);
  }

  /** The same files with one byte of one file's content replaced. */
  function Edited(files: seq<File>, k: nat, i: nat, b: Byte): seq<File>
    requires k < |files| && i < |files[k].content|
  {
    files[k := files[k].(content := files[k].content[i := b])]
  }

  lemma {:induction false} BodySplits(files: seq<File>, k: nat)
    requires k < |files|
    ensures Body(files) == Body(files[..k]) + FileBytes(files[k]) + Tail(files, k + 1)
  {
    if k == |files| - 1 {
    } else {
      var front := files[..|files| - 1];
      BodySplits(front, k);
      assert front[..k] == files[..k];
      TailGrows(files, k + 1);
    }
  }

  /** What the files from `k` on contribute. */
  function Tail(files: seq<File>, k: nat): seq<Byte>
    requires k <= |files|
    decreases |files| - k
  {
    if k == |files| then [] else FileBytes(files[k]) + Tail(files, k + 1)
  }

  lemma {:induction false} TailGrows(files: seq<File>, k: nat)
    requires k < |files|
    ensures Tail(files, k) == Tail(files[..|files| - 1], k) + FileBytes(files[|files| - 1])
    decreases |files| - k
  {
    if k == |files| - 1 {
    } else {
      TailGrows(files, k + 1);
    }
  }

  lemma {:induction false} TailIgnoresEarlier(files: seq<File>, other: seq<File>, k: nat)
    requires |files| == |other| && k <= |files| && files[k..] == other[k..]
    ensures Tail(files, k) == Tail(other, k)
    decreases |files| - k
  {
    if k == |files| {
    } else {
      assert files[k..][0] == other[k..][0];
      assert files[k + 1..] == files[k..][1..] && other[k + 1..] == other[k..][1..];
      TailIgnoresEarlier(files, other, k + 1);
    }
  }

  /** Replacing one byte of one file always changes the sixteen digits. */
  lemma OneByteChangesFingerprint(version: seq<Byte>, files: seq<File>, k: nat, i: nat, b: Byte)
    requires k < |files| && i < |files[k].content| && files[k].content[i] != b
    ensures FingerprintOf(version, files) != FingerprintOf(version, Edited(files, k, i, b))
  {
    var edited, f := Edited(files, k, i, b), files[k];
    var before := version + Body(files[..k]) + f.path + [0] + f.content[..i];
    var after := f.content[i + 1..] + [0] + Tail(files, k + 1);
    StreamAround(version, files, k, i);
    StreamAround(version, edited, k, i);
    assert edited[..k] == files[..k] && edited[k + 1..] == files[k + 1..];
    TailIgnoresEarlier(files, edited, k + 1);
    assert edited[k].content[..i] == f.content[..i] && edited[k].content[i + 1..] == f.content[i + 1..];
    OneByteOfTheStream(version, files, version, edited, before, f.content[i], b, after);
  }

  /** Streams that differ in one byte have different fingerprints. */
  lemma OneByteOfTheStream(
    version: seq<Byte>, files: seq<File>, version': seq<Byte>, files': seq<File>,
    before: seq<Byte>, x: Byte, y: Byte, after: seq<Byte>)
    requires x != y
    requires version + Body(files) == before + [x] + after && version' + Body(files') == before + [y] + after
    ensures FingerprintOf(version, files) != FingerprintOf(version', files')
  {
    OneByteChangesHash(OFFSET_BASIS, before, x, y, after);
    SixteenDigitsSuffice();
    var h, h' := Hash(OFFSET_BASIS, version + Body(files)), Hash(OFFSET_BASIS, version' + Body(files'));
    if Hex(h, 16) == Hex(h', 16) {
      HexIsInjective(h, h', 16);
    }
  }

  /** Changing one byte of the version changes the digits. */
  lemma VersionByteChangesFingerprint(version: seq<Byte>, files: seq<File>, i: nat, b: Byte)
    requires i < |version| && version[i] != b
    ensures FingerprintOf(version, files) != FingerprintOf(version[i := b], files)
  {
    var before, after := version[..i], version[i + 1..] + Body(files);
    InFront(version, i, version[i], Body(files));
    InFront(version, i, b, Body(files));
    assert version[i := version[i]] == version;
    OneByteOfTheStream(version, files, version[i := b], files, before, version[i], b, after);
  }

  lemma InFront<T>(s: seq<T>, i: nat, x: T, rest: seq<T>)
    requires i < |s|
    ensures s[i := x] + rest == s[..i] + [x] + (s[i + 1..] + rest)
  {
  }

  /** Changing one byte of one path changes the digits. */
  lemma PathByteChangesFingerprint(version: seq<Byte>, files: seq<File>, k: nat, i: nat, b: Byte)
    requires k < |files| && i < |files[k].path| && files[k].path[i] != b
    ensures FingerprintOf(version, files)
            != FingerprintOf(version, files[k := files[k].(path := files[k].path[i := b])])
  {
    var f := files[k];
    var renamed := files[k := f.(path := f.path[i := b])];
    var start, rest := version + Body(files[..k]), [0] + f.content + [0] + Tail(files, k + 1);
    PathInStream(version, files, k);
    PathInStream(version, renamed, k);
    assert renamed[..k] == files[..k] && renamed[k + 1..] == files[k + 1..];
    TailIgnoresEarlier(files, renamed, k + 1);
    InMiddle(start, f.path, i, f.path[i], rest);
    InMiddle(start, f.path, i, b, rest);
    assert f.path[i := f.path[i]] == f.path;
    OneByteOfTheStream(version, files, version, renamed, start + f.path[..i], f.path[i], b, f.path[i + 1..] + rest);
  }

  lemma InMiddle<T>(start: seq<T>, s: seq<T>, i: nat, x: T, rest: seq<T>)
    requires i < |s|
    ensures start + (s[i := x] + rest) == start + s[..i] + [x] + (s[i + 1..] + rest)
  {
  }

  lemma PathInStream(version: seq<Byte>, files: seq<File>, k: nat)
    requires k < |files|
    ensures var f := files[k];
            version + Body(files)
            == version + Body(files[..k]) + (f.path + ([0] + f.content + [0] + Tail(files, k + 1)))
  {
    BodySplits(files, k);
    RegroupPath(version, Body(files[..k]), files[k].path, [0], files[k].content, Tail(files, k + 1));
  }

  lemma RegroupPath<T>(a: seq<T>, b: seq<T>, path: seq<T>, zero: seq<T>, content: seq<T>, tail: seq<T>)
    ensures a + (b + (path + zero + content + zero) + tail) == a + b + (path + (zero + content + zero + tail))
  {
  }

  // ---------------------------------------------------------------- what is hashed

  function Flatten(parts: seq<seq<Byte>>): seq<Byte> {
    if parts == [] then [] else Flatten(parts[..|parts| - 1]) + parts[|parts| - 1]
  }

  /** The version, and for each file in order its path, a zero byte, its content and a zero byte. */
  function Parts(version: seq<Byte>, files: seq<File>): seq<seq<Byte>> {
    seq(1 + 4 * |files|, j requires 0 <= j < 1 + 4 * |files| =>
      if j == 0 then version
      else if j % 4 == 1 then files[(j - 1) / 4].path
      else if j % 4 == 3 then files[(j - 1) / 4].content
      else [0])
  }

  lemma FlattenAppends(parts: seq<seq<Byte>>, part: seq<Byte>)
    ensures Flatten(parts + [part]) == Flatten(parts) + part
  {
    assert (parts + [part])[..|parts|] == parts;
  }

  lemma PartsAppend(version: seq<Byte>, files: seq<File>, f: File)
    ensures Parts(version, files + [f]) == Parts(version, files) + [f.path] + [[0]] + [f.content] + [[0]]
  {
    var all, p := Parts(version, files + [f]), Parts(version, files);
    var n := |p|;
    forall j | 0 <= j < n
      ensures all[j] == p[j]
    {
      assert j > 0 ==> (j - 1) / 4 < |files|;
    }
    assert all[n] == f.path && all[n + 1] == [0] && all[n + 2] == f.content && all[n + 3] == [0];
    Last4(all, p, f.path, [0], f.content);
  }

  lemma Last4<T>(all: seq<T>, p: seq<T>, a: T, b: T, c: T)
    requires |all| == |p| + 4 && (forall j :: 0 <= j < |p| ==> all[j] == p[j])
    requires all[|p|] == a && all[|p| + 1] == b && all[|p| + 2] == c && all[|p| + 3] == b
    ensures all == p + [a] + [b] + [c] + [b]
  {
  }

  lemma FlattenFour(p: seq<seq<Byte>>, a: seq<Byte>, b: seq<Byte>, c: seq<Byte>)
    ensures Flatten(p + [a] + [b] + [c] + [b]) == Flatten(p) + a + b + c + b
  {
    FlattenAppends(p, a);
    FlattenAppends(p + [a], b);
    FlattenAppends(p + [a] + [b], c);
    FlattenAppends(p + [a] + [b] + [c], b);
  }

  lemma {:induction false} BodyIsParts(version: seq<Byte>, files: seq<File>)
    ensures version + Body(files) == Flatten(Parts(version, files))
    decreases files
  {
    if files == [] {
      assert Parts(version, files) == [] + [version];
      FlattenAppends([], version);
      assert version + [] == [] + version;
    } else {
      var front, f := files[..|files| - 1], files[|files| - 1];
      BodyIsParts(version, front);
      PartsAppend(version, front, f);
      assert front + [f] == files;
      FlattenFour(Parts(version, front), f.path, [0], f.content);
      FiveParts(version, Body(front), f.path, [0], f.content);
    }
  }

  /** The hashed stream is exactly these parts. */
  lemma StreamIsParts(version: seq<Byte>, files: seq<File>)
    ensures FingerprintOf(version, files) == Hex(Hash(OFFSET_BASIS, Flatten(Parts(version, files))), 16)
  {
    BodyIsParts(version, files);
  }

  lemma FiveParts<T>(a: seq<T>, b: seq<T>, path: seq<T>, zero: seq<T>, content: seq<T>)
    ensures a + (b + (path + zero + content + zero)) == a + b + path + zero + content + zero
  {
  }

  /** Where a content byte sits in the hashed stream. */
  lemma StreamAround(version: seq<Byte>, files: seq<File>, k: nat, i: nat)
    requires k < |files| && i < |files[k].content|
    ensures var f := files[k];
            version + Body(files) == (version + Body(files[..k]) + f.path + [0] + f.content[..i])
                                     + [f.content[i]] + (f.content[i + 1..] + [0] + Tail(files, k + 1))
  {
    var f := files[k];
    BodySplits(files, k);
    Regroup(version, Body(files[..k]), f.path, [0], f.content, i, Tail(files, k + 1));
  }

  lemma Regroup<T>(a: seq<T>, b: seq<T>, path: seq<T>, zero: seq<T>, content: seq<T>, i: nat, tail: seq<T>)
    requires i < |content|
    ensures a + (b + (path + zero + content + zero) + tail)
            == (a + b + path + zero + content[..i]) + [content[i]] + (content[i + 1..] + zero + tail)
  {
  }

  // ---------------------------------------------------------------- the decision to rebuild

  predicate IsSpace(c: char) { c == ' ' || c == '\t' || c == '\n' || c == '\r' }

  function TrimEnd(s: string): string {
    if s != "" && IsSpace(s[|s| - 1]) then TrimEnd(s[..|s| - 1]) else s
  }

  function TrimStart(s: string): string {
    if s != "" && IsSpace(s[0]) then TrimStart(s[1..]) else s
  }

  function Trim(s: string): string { TrimStart(TrimEnd(s)) }

  lemma SpaceIs(c: char)
    ensures IsSpace(c) <==> c in " \t\n\r"
  {
    assert " \t\n\r" == [' ', '\t', '\n', '\r'];
  }

  predicate AllSpace(s: string) { forall i :: 0 <= i < |s| ==> IsSpace(s[i]) }

  lemma AllSpaceConcat(a: string, b: string)
    requires AllSpace(a) && AllSpace(b)
    ensures AllSpace(a + b)
  {
  }

  /** Trimming takes white space off both ends, and all of it. */
  lemma TrimIsExact(s: string) returns (a: string, b: string)
    ensures s == a + Trim(s) + b
    ensures AllSpace(a)
    ensures AllSpace(b)
    ensures Trim(s) != "" ==> !IsSpace(Trim(s)[0]) && !IsSpace(Trim(s)[|Trim(s)| - 1])
  {
    b := TrimmedEnd(s);
    a := TrimmedStart(TrimEnd(s));
    assert s == a + Trim(s) + b;
    assert Trim(s) != "" ==> TrimEnd(s)[|TrimEnd(s)| - 1] == Trim(s)[|Trim(s)| - 1];
  }

  lemma {:induction false} TrimmedEnd(s: string) returns (b: string)
    ensures s == TrimEnd(s) + b && AllSpace(b)
    ensures TrimEnd(s) != "" ==> !IsSpace(TrimEnd(s)[|TrimEnd(s)| - 1])
  {
    if s == "" || !IsSpace(s[|s| - 1]) {
      b := "";
    } else {
      var rest := TrimmedEnd(s[..|s| - 1]);
      b := rest + [s[|s| - 1]];
      AllSpaceConcat(rest, [s[|s| - 1]]);
      assert s == s[..|s| - 1] + [s[|s| - 1]];
    }
  }

  lemma {:induction false} TrimmedStart(s: string) returns (a: string)
    ensures s == a + TrimStart(s) && AllSpace(a)
    ensures TrimStart(s) != "" ==> !IsSpace(TrimStart(s)[0])
  {
    if s == "" || !IsSpace(s[0]) {
      a := "";
    } else {
      var rest := TrimmedStart(s[1..]);
      a := [s[0]] + rest;
      AllSpaceConcat([s[0]], rest);
      assert s == [s[0]] + s[1..];
    }
  }

  lemma {:induction false} HexHasNoSpace(n: nat, width: nat, i: nat)
    requires i < width
    ensures !IsSpace(Hex(n, width)[i])
  {
    if i == width - 1 {
    } else {
      HexHasNoSpace(n / 16, width - 1, i);
    }
  }

  /** The stored line reads back as the fingerprint that was written. */
  lemma StoredLineReadsBack(n: nat)
    ensures Trim(Hex(n, 16) + "\n") == Hex(n, 16)
  {
    var hex := Hex(n, 16);
    var line := hex + "\n";
    HexHasNoSpace(n, 16, 0);
    HexHasNoSpace(n, 16, 15);
    assert line[..|line| - 1] == hex;
    assert TrimEnd(hex) == hex;
    assert TrimEnd(line) == TrimEnd(hex);
  }

  datatype Tool = Missing | Breaks | Works

  datatype BuildResult = UpToDate | Rebuilt | Panicked

  /** The output directory: whether all required outputs are there, and the fingerprint file. */
  class OutputDir {
    var outputsExist: bool
    var fingerprintFile: Option<string>

    constructor(outputsExist: bool, fingerprintFile: Option<string>)
      ensures this.outputsExist == outputsExist && this.fingerprintFile == fingerprintFile
    {
      this.outputsExist, this.fingerprintFile := outputsExist, fingerprintFile;
    }

    method BuildIfNeeded(version: seq<Byte>, files: seq<File>, tool: Tool) returns (result: BuildResult)
      modifies this
      ensures result == UpToDate <==> IsCurrent(old(outputsExist), old(fingerprintFile), version, files)
      ensures result == UpToDate ==> outputsExist == old(outputsExist) && fingerprintFile == old(fingerprintFile)
      ensures result == Rebuilt ==> outputsExist && fingerprintFile == Some(FingerprintOf(version, files) + "\n")
      ensures result == Panicked <==>
                tool != Works && !IsCurrent(old(outputsExist), old(fingerprintFile), version, files)
      ensures result == Panicked && tool == Breaks ==> !outputsExist && fingerprintFile == None
    {
      var fingerprint := ValidationWasmFingerprint(version, files);
      var current := fingerprintFile.Some? && Trim(fingerprintFile.value) == fingerprint;
      if outputsExist && current {
        return UpToDate;
      }
      if tool == Missing {
        return Panicked;
      }
      outputsExist, fingerprintFile := false, None;
      if tool == Breaks {
        return Panicked;
      }
      outputsExist, fingerprintFile := true, Some(fingerprint + "\n");
      return Rebuilt;
    }
  }

  predicate IsCurrent(outputsExist: bool, stored: Option<string>, version: seq<Byte>, files: seq<File>) {
    outputsExist && stored.Some? && Trim(stored.value) == FingerprintOf(version, files)
  }

  /** After a build, the same files are up to date and any one-byte edit is not. */
  lemma OneByteForcesRebuild(version: seq<Byte>, files: seq<File>, k: nat, i: nat, b: Byte)
    requires k < |files| && i < |files[k].content|
    ensures var stored := Some(FingerprintOf(version, files) + "\n");
            IsCurrent(true, stored, version, Edited(files, k, i, b)) <==> files[k].content[i] == b
  {
    StoredLineReadsBack(Hash(OFFSET_BASIS, version + Body(files)));
    if files[k].content[i] != b {
      OneByteChangesFingerprint(version, files, k, i, b);
    } else {
      assert files[k].content[i := b] == files[k].content;
      assert Edited(files, k, i, b) == files;
    }
  }
}
