/** Bytes, big-endian integers, and base64url without padding (section 5 of RFC 4648). */
module Bytes {
  import opened Tables

  type Byte = x: nat | x < 256
  type Sextet = x: nat | x < 64

  // --------------------------------------------------------------- big-endian

  function Pow256(w: nat): (r: nat)
    ensures r > 0
  {
    if w == 0 then 1 else 256 * Pow256(w - 1)
  }

  /** `n` in `w` bytes, most significant first. */
  function BigEndian(n: nat, w: nat): (bs: seq<Byte>)
    ensures |bs| == w
  {
    if w == 0 then [] else BigEndian(n / 256, w - 1) + [n % 256]
  }

  function ValueOf(bs: seq<Byte>): nat {
    if bs == [] then 0 else 256 * ValueOf(bs[..|bs| - 1]) + bs[|bs| - 1]
  }

  lemma {:induction false} ValueOfBigEndian(n: nat, w: nat)
    requires n < Pow256(w)
    ensures ValueOf(BigEndian(n, w)) == n
  {
    if w > 0 {
      ValueOfBigEndian(n / 256, w - 1);
      var init := BigEndian(n / 256, w - 1);
      assert (init + [n % 256])[..w - 1] == init;
    }
  }

  lemma {:induction false} BigEndianOfValue(bs: seq<Byte>)
    ensures BigEndian(ValueOf(bs), |bs|) == bs && ValueOf(bs) < Pow256(|bs|)
  {
    if bs != [] {
      BigEndianOfValue(bs[..|bs| - 1]);
      assert ValueOf(bs) / 256 == ValueOf(bs[..|bs| - 1]);
      assert bs == bs[..|bs| - 1] + [bs[|bs| - 1]];
    }
  }

  /** The first byte counts most. */
  lemma {:induction false} FirstCountsMost(b: Byte, rest: seq<Byte>)
    ensures ValueOf([b] + rest) == b * Pow256(|rest|) + ValueOf(rest)
  {
    var bs, n := [b] + rest, |rest|;
    if rest == [] {
      assert ValueOf(bs) == 256 * ValueOf(bs[..0]) + b;
    } else {
      FirstCountsMost(b, rest[..n - 1]);
      assert bs[..n] == [b] + rest[..n - 1];
      Shifted(b, Pow256(n - 1), ValueOf(rest[..n - 1]));
    }
  }

  lemma Shifted(b: nat, p: nat, v: nat)
    ensures 256 * (b * p + v) == b * (256 * p) + 256 * v
  {
    assert 256 * (b * p) == b * (256 * p);
  }

  // ------------------------------------------------------------- the alphabet

  function CharOf(v: Sextet): char {
    if v < 26 then 'A' + v as char
    else if v < 52 then 'a' + (v - 26) as char
    else if v < 62 then '0' + (v - 52) as char
    else if v == 62 then '-' else '_'
  }

  function SextetOf(c: char): Option<Sextet> {
    if 'A' <= c <= 'Z' then Some(c as int - 'A' as int)
    else if 'a' <= c <= 'z' then Some(26 + c as int - 'a' as int)
    else if '0' <= c <= '9' then Some(52 + c as int - '0' as int)
    else if c == '-' then Some(62)
    else if c == '_' then Some(63)
    else None
  }

  lemma AlphabetInverse(v: Sextet, c: char)
    ensures SextetOf(c) == Some(v) <==> CharOf(v) == c
  {
  }

  function Spell(vs: seq<Sextet>): (s: string)
    ensures |s| == |vs|
  {
    if vs == [] then "" else [CharOf(vs[0])] + Spell(vs[1..])
  }

  function Unspell(s: string): Option<seq<Sextet>> {
    if s == "" then Some([])
    else
      match SextetOf(s[0])
      case None => None
      case Some(v) =>
        match Unspell(s[1..])
        case None => None
        case Some(vs) => Some([v] + vs)
  }

  lemma {:induction false} SpellInverse(vs: seq<Sextet>, s: string)
    ensures Unspell(s) == Some(vs) <==> Spell(vs) == s
  {
    if vs != [] && s != "" {
      SpellInverse(vs[1..], s[1..]);
      AlphabetInverse(vs[0], s[0]);
      assert vs == [vs[0]] + vs[1..] && s == [s[0]] + s[1..];
      if Spell(vs) == s { assert Spell(vs)[1..] == Spell(vs[1..]); }
    }
  }

  // ------------------------------------------------------------------ packing

  // Three bytes and four sextets hold the same 24 bits.

  function First(b0: Byte): Sextet {
    b0 / 4
  }

  function Second(b0: Byte, b1: Byte): Sextet {
    b0 % 4 * 16 + b1 / 16
  }

  function Third(b1: Byte, b2: Byte): Sextet {
    b1 % 16 * 4 + b2 / 64
  }

  function Fourth(b2: Byte): Sextet {
    b2 % 64
  }

  function High(v0: nat, v1: nat): (b: Byte)
    requires v0 < 64 && v1 < 64
  {
    v0 * 4 + v1 / 16
  }

  function Middle(v1: nat, v2: nat): (b: Byte)
    requires v1 < 64 && v2 < 64
  {
    v1 % 16 * 16 + v2 / 4
  }

  function Low(v2: nat, v3: nat): (b: Byte)
    requires v2 < 64 && v3 < 64
  {
    v2 % 4 * 64 + v3
  }

  lemma BytesRegroup(b0: Byte, b1: Byte, b2: Byte)
    ensures High(First(b0), Second(b0, b1)) == b0 && Middle(Second(b0, b1), Third(b1, b2)) == b1
    ensures Low(Third(b1, b2), Fourth(b2)) == b2
  {
  }

  /** A short group leaves its low bits clear. */
  lemma LoneByte(b0: Byte)
    ensures Second(b0, 0) % 16 == 0
  {
    var m := b0 % 4;
    assert m == 0 || m == 1 || m == 2 || m == 3;
  }

  lemma ShortGroup(b1: Byte)
    ensures Third(b1, 0) % 4 == 0
  {
    assert Third(b1, 0) == 4 * (b1 % 16);
  }

  lemma HighOfLone(b0: Byte)
    ensures High(First(b0), Second(b0, 0)) == b0
  {
  }

  lemma SextetsRegroup(v0: Sextet, v1: Sextet, v2: Sextet, v3: Sextet)
    ensures First(High(v0, v1)) == v0 && Second(High(v0, v1), Middle(v1, v2)) == v1
    ensures Third(Middle(v1, v2), Low(v2, v3)) == v2 && Fourth(Low(v2, v3)) == v3
  {
  }

  /** Three bytes to four sextets; a remainder of one or two bytes to two or three. */
  function Pack(bs: seq<Byte>): seq<Sextet> {
    if |bs| == 0 then []
    else if |bs| == 1 then [First(bs[0]), Second(bs[0], 0)]
    else if |bs| == 2 then [First(bs[0]), Second(bs[0], bs[1]), Third(bs[1], 0)]
    else [First(bs[0]), Second(bs[0], bs[1]), Third(bs[1], bs[2]), Fourth(bs[2])] + Pack(bs[3..])
  }

  /** A group's sextets hold the bits of its bytes, most significant first, and after them
      only the zero bits that fill the last. */
  lemma GroupKeepsBits(b0: Byte, b1: Byte, b2: Byte)
    ensures 64 * First(b0) + Second(b0, 0) == 16 * b0
    ensures 4096 * First(b0) + 64 * Second(b0, b1) + Third(b1, 0) == 4 * (256 * b0 + b1)
    ensures 262144 * First(b0) + 4096 * Second(b0, b1) + 64 * Third(b1, b2) + Fourth(b2) == 65536 * b0 + 256 * b1 + b2
  {
  }

  lemma {:induction false} PackedLength(bs: seq<Byte>)
    ensures |Pack(bs)| == |bs| / 3 * 4 + if |bs| % 3 == 0 then 0 else |bs| % 3 + 1
  {
    if |bs| > 2 { PackedLength(bs[3..]); }
  }

  /** The strict inverse: no stray sextet, no bits left over. */
  function Unpack(vs: seq<Sextet>): Option<seq<Byte>> {
    if |vs| == 0 then Some([])
    else if |vs| == 1 then None
    else if |vs| == 2 then
      if vs[1] % 16 != 0 then None else Some([High(vs[0], vs[1])])
    else if |vs| == 3 then
      if vs[2] % 4 != 0 then None else Some([High(vs[0], vs[1]), Middle(vs[1], vs[2])])
    else
      match Unpack(vs[4..])
      case None => None
      case Some(rest) => Some([High(vs[0], vs[1]), Middle(vs[1], vs[2]), Low(vs[2], vs[3])] + rest)
  }

  lemma TwoBytes(b0: Byte, b1: Byte)
    ensures Unpack(Pack([b0, b1])) == Some([b0, b1])
  {
    BytesRegroup(b0, b1, 0);
    ShortGroup(b1);
    var vs := Pack([b0, b1]);
    assert |vs| == 3 && vs[2] % 4 == 0;
    assert Unpack(vs) == Some([High(vs[0], vs[1]), Middle(vs[1], vs[2])]);
  }

  lemma UnpackTwo(v0: Sextet, v1: Sextet)
    requires v1 % 16 == 0
    ensures Unpack([v0, v1]) == Some([High(v0, v1)])
  {
  }

  lemma OneByte(b0: Byte)
    ensures Unpack(Pack([b0])) == Some([b0])
  {
    LoneByte(b0);
    HighOfLone(b0);
    UnpackTwo(First(b0), Second(b0, 0));
    assert Pack([b0]) == [First(b0), Second(b0, 0)];
  }

  lemma UnpackGroup(v0: Sextet, v1: Sextet, v2: Sextet, v3: Sextet, rest: seq<Sextet>, bs: seq<Byte>)
    requires |bs| > 2 && Unpack(rest) == Some(bs[3..])
    requires High(v0, v1) == bs[0] && Middle(v1, v2) == bs[1] && Low(v2, v3) == bs[2]
    ensures Unpack([v0, v1, v2, v3] + rest) == Some(bs)
  {
    assert ([v0, v1, v2, v3] + rest)[4..] == rest;
    assert bs == [bs[0], bs[1], bs[2]] + bs[3..];
  }

  lemma FullGroup(bs: seq<Byte>)
    requires |bs| > 2 && Unpack(Pack(bs[3..])) == Some(bs[3..])
    ensures Unpack(Pack(bs)) == Some(bs)
  {
    BytesRegroup(bs[0], bs[1], bs[2]);
    UnpackGroup(First(bs[0]), Second(bs[0], bs[1]), Third(bs[1], bs[2]), Fourth(bs[2]), Pack(bs[3..]), bs);
  }

  lemma {:induction false} UnpackPack(bs: seq<Byte>)
    ensures Unpack(Pack(bs)) == Some(bs)
  {
    if |bs| > 2 {
      UnpackPack(bs[3..]);
      FullGroup(bs);
    } else if |bs| == 2 {
      TwoBytes(bs[0], bs[1]);
      assert bs == [bs[0], bs[1]];
    } else if |bs| == 1 {
      OneByte(bs[0]);
      assert bs == [bs[0]];
    }
  }

  /** With the last bits clear, a short group's missing byte reads as zero. */
  lemma {:induction false} PackUnpack(vs: seq<Sextet>)
    ensures Unpack(vs).Some? ==> Pack(Unpack(vs).value) == vs
  {
    if Unpack(vs).Some? {
      if |vs| == 2 || |vs| == 3 {
        PackUnpackShort(vs);
      } else if |vs| > 3 {
        PackUnpackGroup(vs);
        PackUnpack(vs[4..]);
        assert vs == vs[..4] + vs[4..];
      }
    }
  }

  lemma TwoClear(v0: Sextet, v1: Sextet)
    requires v1 % 16 == 0
    ensures First(High(v0, v1)) == v0 && Second(High(v0, v1), 0) == v1
  {
    var m := v1 / 16;
    assert v1 == 16 * m && High(v0, v1) == 4 * v0 + m;
  }

  lemma ThreeClear(v1: Sextet, v2: Sextet)
    requires v2 % 4 == 0
    ensures Third(Middle(v1, v2), 0) == v2
  {
    var m, n := v1 % 16, v2 / 4;
    assert v2 == 4 * n && Middle(v1, v2) == 16 * m + n;
    LowFour(m, n);
  }

  lemma LowFour(m: nat, n: nat)
    requires n < 16
    ensures (16 * m + n) % 16 == n
  {
  }

  lemma PackUnpackTwo(v0: Sextet, v1: Sextet)
    requires v1 % 16 == 0
    ensures Pack([High(v0, v1)]) == [v0, v1]
  {
    TwoClear(v0, v1);
    PackOne(High(v0, v1), v0, v1);
  }

  lemma PackUnpackThree(v0: Sextet, v1: Sextet, v2: Sextet)
    requires v2 % 4 == 0
    ensures Pack([High(v0, v1), Middle(v1, v2)]) == [v0, v1, v2]
  {
    ThreeClear(v1, v2);
    SextetsRegroup(v0, v1, v2, 0);
    PackTwo(High(v0, v1), Middle(v1, v2), v0, v1, v2);
  }

  lemma PackUnpackShort(vs: seq<Sextet>)
    requires (|vs| == 2 || |vs| == 3) && Unpack(vs).Some?
    ensures Pack(Unpack(vs).value) == vs
  {
    if |vs| == 2 {
      PackUnpackTwo(vs[0], vs[1]);
      assert vs == [vs[0], vs[1]];
    } else {
      PackUnpackThree(vs[0], vs[1], vs[2]);
      assert vs == [vs[0], vs[1], vs[2]];
    }
  }

  lemma PackOne(b0: Byte, v0: Sextet, v1: Sextet)
    requires First(b0) == v0 && Second(b0, 0) == v1
    ensures Pack([b0]) == [v0, v1]
  {
  }

  lemma PackTwo(b0: Byte, b1: Byte, v0: Sextet, v1: Sextet, v2: Sextet)
    requires First(b0) == v0 && Second(b0, b1) == v1 && Third(b1, 0) == v2
    ensures Pack([b0, b1]) == [v0, v1, v2]
  {
  }

  lemma PackUnpackGroup(vs: seq<Sextet>)
    requires |vs| > 3 && Unpack(vs).Some?
    ensures Unpack(vs[4..]).Some? && Pack(Unpack(vs).value) == vs[..4] + Pack(Unpack(vs[4..]).value)
  {
    SextetsRegroup(vs[0], vs[1], vs[2], vs[3]);
    var bs, rest := Unpack(vs).value, Unpack(vs[4..]).value;
    assert bs[3..] == rest;
    assert vs[..4] == [vs[0], vs[1], vs[2], vs[3]];
  }

  // ---------------------------------------------------------------- base64url

  function Encode64(bs: seq<Byte>): string {
    Spell(Pack(bs))
  }

  function Decode64(s: string): Option<seq<Byte>> {
    match Unspell(s)
    case None => None
    case Some(vs) => Unpack(vs)
  }

  /** Three of the test vectors of section 10 of RFC 4648, and the two characters in which
      its URL-safe alphabet differs. */
  lemma TestVectors()
    ensures Encode64([0x66]) == "Zg" && Encode64([0x66, 0x6F]) == "Zm8" && Encode64([0x66, 0x6F, 0x6F]) == "Zm9v"
    ensures Encode64([0xFB, 0xEF, 0xFF]) == "--__"
  {
    assert Pack([0x66]) == [25, 32];
    assert Pack([0x66, 0x6F]) == [25, 38, 60];
    assert Pack([0x66, 0x6F, 0x6F]) == [25, 38, 61, 47];
    assert Pack([0xFB, 0xEF, 0xFF]) == [62, 62, 63, 63];
  }

  /** A text decodes to given bytes exactly when it is their encoding. */
  lemma Base64Inverse(bs: seq<Byte>, s: string)
    ensures Decode64(s) == Some(bs) <==> Encode64(bs) == s
  {
    UnpackPack(bs);
    SpellInverse(Pack(bs), s);
    if Decode64(s) == Some(bs) {
      var vs := Unspell(s).value;
      PackUnpack(vs);
      SpellInverse(vs, s);
    }
  }
}
