/**
 * Identifier generators of the database layer (lib/database/core.ts): a
 * 32-character alphanumeric id and a version-4 UUID in the layout of
 * section 4.4 of RFC 4122. Random values are inputs: `Math.random()` draws
 * as reals in [0, 1), and the sixteen bytes `crypto.getRandomValues` fills.
 */
module Ids {
  import Shuffle

  const Uppercase: string := "ABCDEFGHIJKLMNOPQRSTUVWXYZ"
  const Lowercase: string := "abcdefghijklmnopqrstuvwxyz"
  const Digits: string := "0123456789"
  /** The 62 characters an id draws from. */
  const Alphabet: string := Uppercase + Lowercase + Digits

  predicate IsAlphanumeric(c: char) {
    'A' <= c <= 'Z' || 'a' <= c <= 'z' || '0' <= c <= '9'
  }

  lemma AlphabetIsAlphanumeric(i: nat)
    requires i < |Alphabet|
    ensures IsAlphanumeric(Alphabet[i])
  {
    if i < 26 {
      assert Alphabet[i] == Uppercase[i];
    } else if i < 52 {
      assert Alphabet[i] == Lowercase[i - 26];
    } else {
      assert Alphabet[i] == Digits[i - 52];
    }
  }

  predicate Draws(randoms: seq<real>) {
    forall k :: 0 <= k < |randoms| ==> 0.0 <= randoms[k] < 1.0
  }

  /** `chars.charAt(Math.floor(Math.random() * chars.length))`. */
  function IdChar(r: real): (c: char)
    requires 0.0 <= r < 1.0
    ensures IsAlphanumeric(c)
  {
    var i := Shuffle.DrawIndex(r, |Alphabet| - 1);
    AlphabetIsAlphanumeric(i);
    Alphabet[i]
  }

  /** `generateRandomId`: 32 characters appended one by one. */
  method GenerateRandomId(randoms: seq<real>) returns (id: string)
    requires |randoms| >= 32 && Draws(randoms)
    ensures |id| == 32
    ensures forall i :: 0 <= i < 32 ==> IsAlphanumeric(id[i]) && id[i] == IdChar(randoms[i])
  {
    id := "";
    var i := 0;
    while i < 32
      invariant 0 <= i <= 32 && |id| == i
      invariant forall k :: 0 <= k < i ==> id[k] == IdChar(randoms[k])
    {
      id := id + [IdChar(randoms[i])];
      i := i + 1;
    }
  }

  /** An entry of a `Uint8Array`. */
  type Byte = x: int | 0 <= x < 256

  /**
   * A fallback byte, `Math.floor(Math.random() * 256)`: every draw in
   * [0, 1) gives a value a `Uint8Array` holds unchanged.
   */
  function FallbackByte(r: real): (b: int)
    requires 0.0 <= r < 1.0
    ensures 0 <= b <= 255
  {
    Shuffle.DrawIndex(r, 255)
  }

  /** The sixteen bytes filled from `Math.random()` when `crypto` is missing. */
  function FallbackBytes(randoms: seq<real>): (bytes: seq<Byte>)
    requires |randoms| >= 16 && Draws(randoms)
    ensures |bytes| == 16
    ensures forall i :: 0 <= i < 16 ==> bytes[i] == Shuffle.DrawIndex(randoms[i], 255)
  {
    seq(16, i requires 0 <= i < 16 => FallbackByte(randoms[i]))
  }

  /*
   * The source stamps with bitwise operators on bytes; the model writes
   * them as the arithmetic they amount to on a byte, and these two lemmas
   * prove the match on every 8-bit value.
   */
  lemma VersionMask(b: bv8)
    ensures ((b & 0x0f) | 0x40) as int == b as int % 16 + 0x40
  {
  }

  lemma VariantMask(b: bv8)
    ensures ((b & 0x3f) | 0x80) as int == b as int % 64 + 0x80
  {
  }

  /** `(b & 0x0f) | 0x40`: the version nibble 4. */
  function Version(b: Byte): Byte {
    b % 16 + 0x40
  }

  /** `(b & 0x3f) | 0x80`: the variant bits 10. */
  function Variant(b: Byte): Byte {
    b % 64 + 0x80
  }

  /** The version in byte 6 and the variant in byte 8. */
  function Stamp(bytes: seq<Byte>): (r: seq<Byte>)
    requires |bytes| == 16
    ensures |r| == 16
  {
    bytes[6 := Version(bytes[6])][8 := Variant(bytes[8])]
  }

  function HexDigit(d: nat): char
    requires d < 16
  {
    "0123456789abcdef"[d]
  }

  predicate IsLowerHex(c: char) {
    '0' <= c <= '9' || 'a' <= c <= 'f'
  }

  /** `b.toString(16).padStart(2, '0')` for every byte, joined. */
  function Hex(bytes: seq<Byte>): (h: string)
    ensures |h| == 2 * |bytes|
    ensures forall k :: 0 <= k < |bytes| ==>
      h[2 * k] == HexDigit(bytes[k] / 16) && h[2 * k + 1] == HexDigit(bytes[k] % 16)
  {
    if |bytes| == 0 then ""
    else [HexDigit(bytes[0] / 16), HexDigit(bytes[0] % 16)] + Hex(bytes[1..])
  }

  /** The five groups of 8, 4, 4, 4 and 12 digits joined by `-`. */
  function Groups(hex: string): (u: string)
    requires |hex| == 32
    ensures |u| == 36
  {
    hex[0..8] + "-" + hex[8..12] + "-" + hex[12..16] + "-" + hex[16..20] + "-" + hex[20..32]
  }

  /** Where digit `h` of the 32 lands in the dashed text. */
  function Position(h: nat): nat {
    if h < 8 then h else if h < 12 then h + 1 else if h < 16 then h + 2 else if h < 20 then h + 3 else h + 4
  }

  lemma GroupsAt(hex: string, h: nat)
    requires |hex| == 32 && h < 32
    ensures Groups(hex)[Position(h)] == hex[h]
  {
  }

  lemma GroupsDashes(hex: string)
    requires |hex| == 32
    ensures Groups(hex)[8] == '-' && Groups(hex)[13] == '-' && Groups(hex)[18] == '-' && Groups(hex)[23] == '-'
  {
  }

  function UuidOf(random: seq<Byte>): string
    requires |random| == 16
  {
    Groups(Hex(Stamp(random)))
  }

  /**
   * `generateUUID` once the sixteen random bytes are drawn: the bytes are
   * stamped in place, then formatted.
   */
  method GenerateUUID(random: seq<Byte>) returns (uuid: string)
    requires |random| == 16
    ensures uuid == UuidOf(random)
    ensures |uuid| == 36
  {
    var bytes := new Byte[16](i requires 0 <= i < 16 => random[i]);
    bytes[6] := Version(bytes[6]);
    bytes[8] := Variant(bytes[8]);
    assert bytes[..] == Stamp(random);
    var hex := Hex(bytes[..]);
    uuid := Groups(hex);
  }

  lemma HexDigitIsHex(d: nat)
    requires d < 16
    ensures IsLowerHex(HexDigit(d))
  {
  }

  /**
   * The layout: 36 characters, `-` at indices 8, 13, 18 and 23, and a
   * lowercase hex digit everywhere else.
   */
  lemma UuidLayout(random: seq<Byte>)
    requires |random| == 16
    ensures |UuidOf(random)| == 36
    ensures forall i :: i in {8, 13, 18, 23} ==> UuidOf(random)[i] == '-'
    ensures forall i :: 0 <= i < 36 && i !in {8, 13, 18, 23} ==> IsLowerHex(UuidOf(random)[i])
  {
    var hex := Hex(Stamp(random));
    GroupsDashes(hex);
    forall i | 0 <= i < 36 && i !in {8, 13, 18, 23}
      ensures IsLowerHex(UuidOf(random)[i])
    {
      var h := if i < 8 then i else if i < 13 then i - 1 else if i < 18 then i - 2 else if i < 23 then i - 3 else i - 4;
      assert Position(h) == i;
      GroupsAt(hex, h);
      var k := h / 2;
      HexDigitIsHex(Stamp(random)[k] / 16);
      HexDigitIsHex(Stamp(random)[k] % 16);
      assert h == 2 * k || h == 2 * k + 1;
    }
  }

  /** Index 14 is the version digit `4`. */
  lemma VersionDigit(random: seq<Byte>)
    requires |random| == 16
    ensures UuidOf(random)[14] == '4'
  {
    var b := Stamp(random)[6];
    assert b / 16 == 4;
    GroupsAt(Hex(Stamp(random)), 12);
  }

  /** Index 19 is the variant digit, one of `8`, `9`, `a`, `b`. */
  lemma VariantDigit(random: seq<Byte>)
    requires |random| == 16
    ensures UuidOf(random)[19] in {'8', '9', 'a', 'b'}
  {
    var b := Stamp(random)[8];
    assert 8 <= b / 16 <= 11;
    GroupsAt(Hex(Stamp(random)), 16);
  }

  /** The 122 random bits the stamp leaves alone. */
  function FreeBits(random: seq<Byte>): seq<Byte>
    requires |random| == 16
  {
    random[6 := random[6] % 16][8 := random[8] % 64]
  }

  lemma HexDigitInjective(a: nat, b: nat)
    requires a < 16 && b < 16 && HexDigit(a) == HexDigit(b)
    ensures a == b
  {
  }

  lemma {:induction false} HexInjective(a: seq<Byte>, b: seq<Byte>)
    requires |a| == |b| && Hex(a) == Hex(b)
    ensures a == b
  {
    forall k | 0 <= k < |a|
      ensures a[k] == b[k]
    {
      assert Hex(a)[2 * k] == Hex(b)[2 * k] && Hex(a)[2 * k + 1] == Hex(b)[2 * k + 1];
      HexDigitInjective(a[k] / 16, b[k] / 16);
      HexDigitInjective(a[k] % 16, b[k] % 16);
      assert a[k] == 16 * (a[k] / 16) + a[k] % 16;
      assert b[k] == 16 * (b[k] / 16) + b[k] % 16;
    }
  }

  lemma GroupsInjective(a: string, b: string)
    requires |a| == 32 && |b| == 32 && Groups(a) == Groups(b)
    ensures a == b
  {
    forall h | 0 <= h < 32
      ensures a[h] == b[h]
    {
      GroupsAt(a, h);
      GroupsAt(b, h);
    }
  }

  /**
   * Two byte strings give the same UUID exactly when they agree on the 122
   * bits the stamp keeps: formatting loses nothing else.
   */
  lemma UuidInjective(a: seq<Byte>, b: seq<Byte>)
    requires |a| == 16 && |b| == 16
    ensures UuidOf(a) == UuidOf(b) <==> FreeBits(a) == FreeBits(b)
  {
    if UuidOf(a) == UuidOf(b) {
      GroupsInjective(Hex(Stamp(a)), Hex(Stamp(b)));
      HexInjective(Stamp(a), Stamp(b));
      assert Stamp(a)[6] == Stamp(b)[6] && Stamp(a)[8] == Stamp(b)[8];
      assert FreeBits(a)[6] == FreeBits(b)[6];
      assert FreeBits(a)[8] == FreeBits(b)[8];
      forall i | 0 <= i < 16 && i != 6 && i != 8
        ensures FreeBits(a)[i] == FreeBits(b)[i]
      {
        assert Stamp(a)[i] == a[i] && Stamp(b)[i] == b[i];
      }
    }
    if FreeBits(a) == FreeBits(b) {
      assert FreeBits(a)[6] == a[6] % 16 && FreeBits(b)[6] == b[6] % 16;
      assert FreeBits(a)[8] == a[8] % 64 && FreeBits(b)[8] == b[8] % 64;
      forall i | 0 <= i < 16 && i != 6 && i != 8
        ensures a[i] == b[i]
      {
        assert FreeBits(a)[i] == a[i] && FreeBits(b)[i] == b[i];
      }
      assert Stamp(a) == Stamp(b);
    }
  }
}
