/** The encrypted feed cursor. The cipher and the keyed hash are parameters. */
module Cursor {
  import opened Tables
  import opened Bytes

  const CURSOR_VERSION: Byte := 0x02
  const V1_VERSION: Byte := 0x01
  const NONCE_LEN := 12
  const TAG_LEN := 16
  const KID_LEN := 4
  const PLAIN_LEN := 28
  const V1_PLAIN_LEN := 8

  type U32 = x: nat | x < 0x1_0000_0000
  type U64 = x: nat | x < 0x1_0000_0000_0000_0000

  /** `seal` and `open` take the nonce, the associated data and the text; `mac` gives
      the bytes a nonce is cut from. The labels start the associated data. */
  datatype Suite = Suite(
    seal: (seq<Byte>, seq<Byte>, seq<Byte>) -> seq<Byte>,
    open: (seq<Byte>, seq<Byte>, seq<Byte>) -> Option<seq<Byte>>,
    mac: seq<Byte> -> seq<Byte>,
    aadLabel: seq<Byte>,
    aadLabelV1: seq<Byte>)

  /** The cipher is an exact inverse pair that adds a tag. */
  ghost predicate Lawful(c: Suite) {
    && (forall n, a, p, s :: c.open(n, a, s) == Some(p) <==> c.seal(n, a, p) == s)
    && (forall n, a, p :: |c.seal(n, a, p)| == |p| + TAG_LEN)
    && (forall m :: |c.mac(m)| == 32)
  }

  datatype ChangesKey = ChangesKey(keyId: Byte, kid: seq<Byte>, epoch: U32, suite: Suite)

  ghost predicate ValidKey(k: ChangesKey) {
    |k.kid| == KID_LEN && Lawful(k.suite)
  }

  datatype Decoded = Decoded(pos: U64, seqNo: U64, fp: seq<Byte>)

  predicate ValidDecoded(d: Decoded) {
    |d.fp| == 8
  }

  datatype Failure = Invalid | UnknownKey | Stale

  datatype Result<T> = Ok(value: T) | Err(error: Failure)

  // -------------------------------------------------------------- sealed bytes

  /** The bytes in clear at the front of a cursor of either version. */
  function Header(k: ChangesKey, version: Byte): seq<Byte> {
    if version == V1_VERSION then [version, k.keyId] else [version, k.keyId] + k.kid
  }

  function NonceFor(k: ChangesKey, version: Byte, plain: seq<Byte>): (n: seq<Byte>)
    requires |k.suite.mac(if version == V1_VERSION then plain else [version] + plain)| == 32
    ensures |n| == NONCE_LEN
  {
    k.suite.mac(if version == V1_VERSION then plain else [version] + plain)[..NONCE_LEN]
  }

  function Label(k: ChangesKey, version: Byte): seq<Byte> {
    if version == V1_VERSION then k.suite.aadLabelV1 else k.suite.aadLabel
  }

  ghost function Issue(k: ChangesKey, version: Byte, plain: seq<Byte>): seq<Byte>
    requires ValidKey(k)
  {
    var nonce := NonceFor(k, version, plain);
    Header(k, version) + nonce + k.suite.seal(nonce, Label(k, version) + Header(k, version), plain)
  }

  function PlainLen(version: Byte): nat {
    if version == V1_VERSION then V1_PLAIN_LEN else PLAIN_LEN
  }

  function HeaderLen(version: Byte): nat {
    if version == V1_VERSION then 2 else 2 + KID_LEN
  }

  predicate WellFormed(raw: seq<Byte>) {
    && |raw| > 0 && (raw[0] == CURSOR_VERSION || raw[0] == V1_VERSION)
    && |raw| == HeaderLen(raw[0]) + NONCE_LEN + PlainLen(raw[0]) + TAG_LEN
  }

  predicate NamesKey(k: ChangesKey, raw: seq<Byte>)
    requires WellFormed(raw)
  {
    raw[1] == k.keyId && (raw[0] == CURSOR_VERSION ==> raw[2..2 + KID_LEN] == k.kid)
  }

  /** Check and open raw cursor bytes: the version and the sealed text. */
  ghost function Unseal(k: ChangesKey, raw: seq<Byte>): Result<(Byte, seq<Byte>)>
    requires ValidKey(k)
  {
    if !WellFormed(raw) then Err(Invalid)
    else if !NamesKey(k, raw) then Err(UnknownKey)
    else
      var h := HeaderLen(raw[0]);
      var nonce := raw[h..h + NONCE_LEN];
      match k.suite.open(nonce, Label(k, raw[0]) + raw[..h], raw[h + NONCE_LEN..])
      case None => Err(Invalid)
      case Some(plain) =>
        if |plain| != PlainLen(raw[0]) || NonceFor(k, raw[0], plain) != nonce then Err(Invalid)
        else Ok((raw[0], plain))
  }

  lemma HeaderIs(k: ChangesKey, raw: seq<Byte>)
    requires ValidKey(k) && WellFormed(raw)
    ensures NamesKey(k, raw) <==> raw[..HeaderLen(raw[0])] == Header(k, raw[0])
  {
    var h := HeaderLen(raw[0]);
    if raw[0] == V1_VERSION {
      assert raw[..2] == [raw[0], raw[1]];
    } else {
      assert raw[..h] == [raw[0], raw[1]] + raw[2..2 + KID_LEN];
      if raw[..h] == Header(k, raw[0]) {
        assert raw[..h][2..] == k.kid && raw[..h][1] == k.keyId;
      }
    }
  }

  predicate IsVersion(version: Byte) {
    version == CURSOR_VERSION || version == V1_VERSION
  }

  lemma IssueParts(k: ChangesKey, version: Byte, plain: seq<Byte>)
    requires ValidKey(k) && IsVersion(version) && |plain| == PlainLen(version)
    ensures var raw := Issue(k, version, plain);
            var h := HeaderLen(version);
            && WellFormed(raw) && raw[0] == version && NamesKey(k, raw) && raw[..h] == Header(k, version)
            && raw[h..h + NONCE_LEN] == NonceFor(k, version, plain)
            && raw[h + NONCE_LEN..] == k.suite.seal(NonceFor(k, version, plain), Label(k, version) + Header(k, version), plain)
  {
    var raw, h, nonce := Issue(k, version, plain), HeaderLen(version), NonceFor(k, version, plain);
    assert |Header(k, version)| == h && Header(k, version)[0] == version;
    assert raw[..h] == Header(k, version);
    assert raw[0] == raw[..h][0];
    HeaderIs(k, raw);
  }

  /** Bytes open under a key exactly when that key issued them. */
  lemma UnsealIsInverse(k: ChangesKey, raw: seq<Byte>, version: Byte, plain: seq<Byte>)
    requires ValidKey(k)
    ensures Unseal(k, raw) == Ok((version, plain)) <==>
            IsVersion(version) && |plain| == PlainLen(version) && raw == Issue(k, version, plain)
  {
    if Unseal(k, raw) == Ok((version, plain)) {
      HeaderIs(k, raw);
      var h := HeaderLen(version);
      assert raw == raw[..h] + raw[h..h + NONCE_LEN] + raw[h + NONCE_LEN..];
    }
    if IsVersion(version) && |plain| == PlainLen(version) && raw == Issue(k, version, plain) {
      IssueParts(k, version, plain);
      var nonce, aad := NonceFor(k, version, plain), Label(k, version) + Header(k, version);
      assert k.suite.open(nonce, aad, k.suite.seal(nonce, aad, plain)) == Some(plain);
    }
  }

  // ------------------------------------------------------------------- cursors

  function Plain(d: Decoded, epoch: U32): (p: seq<Byte>)
    requires ValidDecoded(d)
    ensures |p| == PLAIN_LEN
  {
    BigEndian(d.pos, 8) + BigEndian(d.seqNo, 8) + d.fp + BigEndian(epoch, 4)
  }

  lemma Widths()
    ensures Pow256(8) == 0x1_0000_0000_0000_0000 && Pow256(4) == 0x1_0000_0000
  {
    assert Pow256(2) == 0x1_0000;
    assert Pow256(4) == 0x1_0000 * Pow256(2);
    assert Pow256(6) == 0x1_0000 * Pow256(4);
    assert Pow256(8) == 0x1_0000 * Pow256(6);
  }

  function Word(bs: seq<Byte>): (n: U64)
    requires |bs| == 8
  {
    Widths();
    BigEndianOfValue(bs);
    ValueOf(bs)
  }

  function HalfWord(bs: seq<Byte>): (n: U32)
    requires |bs| == 4
  {
    Widths();
    BigEndianOfValue(bs);
    ValueOf(bs)
  }

  function ReadPlain(p: seq<Byte>): Decoded
    requires |p| == PLAIN_LEN
  {
    Decoded(Word(p[..8]), Word(p[8..16]), p[16..24])
  }

  function ReadEpoch(p: seq<Byte>): U32
    requires |p| == PLAIN_LEN
  {
    HalfWord(p[24..])
  }

  lemma Quarters(a: seq<Byte>, b: seq<Byte>, c: seq<Byte>, d: seq<Byte>)
    requires |a| == |b| == |c| == 8 && |d| == 4
    ensures var p := a + b + c + d; p[..8] == a && p[8..16] == b && p[16..24] == c && p[24..] == d
  {
  }

  /** The fields determine the text and the text the fields. */
  lemma PlainInverse(d: Decoded, epoch: U32, p: seq<Byte>)
    requires ValidDecoded(d) && |p| == PLAIN_LEN
    ensures ReadPlain(p) == d && ReadEpoch(p) == epoch <==> p == Plain(d, epoch)
  {
    Widths();
    if p == Plain(d, epoch) {
      Quarters(BigEndian(d.pos, 8), BigEndian(d.seqNo, 8), d.fp, BigEndian(epoch, 4));
      ValueOfBigEndian(d.pos, 8);
      ValueOfBigEndian(d.seqNo, 8);
      ValueOfBigEndian(epoch, 4);
    }
    if ReadPlain(p) == d && ReadEpoch(p) == epoch {
      BigEndianOfValue(p[..8]);
      BigEndianOfValue(p[8..16]);
      BigEndianOfValue(p[24..]);
      assert p == p[..8] + p[8..16] + p[16..24] + p[24..];
    }
  }

  ghost function EncodeCursor(k: ChangesKey, d: Decoded): string
    requires ValidKey(k) && ValidDecoded(d)
  {
    Encode64(Issue(k, CURSOR_VERSION, Plain(d, k.epoch)))
  }

  /** A cursor of the first version carries only a position. */
  ghost function EncodeV1(k: ChangesKey, pos: U64): string
    requires ValidKey(k)
  {
    Encode64(Issue(k, V1_VERSION, BigEndian(pos, 8)))
  }

  ghost function DecodeCursor(k: ChangesKey, s: string): (r: Result<Decoded>)
    requires ValidKey(k)
    ensures r.Ok? ==> ValidDecoded(r.value)
  {
    match Decode64(s)
    case None => Err(Invalid)
    case Some(raw) =>
      match Unseal(k, raw)
      case Err(e) => Err(e)
      case Ok((version, plain)) =>
        if version == V1_VERSION then Err(Stale)
        else
          assert |plain| == PLAIN_LEN by { UnsealIsInverse(k, raw, version, plain); }
          if ReadEpoch(plain) != k.epoch then Err(Stale) else Ok(ReadPlain(plain))
  }

  /** What the sealed text of a cursor holds, byte by byte. */
  lemma PlainLayout(d: Decoded, epoch: U32)
    requires ValidDecoded(d)
    ensures var p := Plain(d, epoch);
            && |p| == 28 && ValueOf(p[..8]) == d.pos && ValueOf(p[8..16]) == d.seqNo
            && p[16..24] == d.fp && ValueOf(p[24..28]) == epoch
  {
    var p := Plain(d, epoch);
    PlainInverse(d, epoch, p);
    assert p[24..28] == p[24..];
  }

  /** A cursor is 83 characters of base64url holding 62 bytes: the version, the key id, the
      master key's mark, twelve bytes of the keyed hash of the version and the text, and the
      text sealed under that nonce with the six bytes before it as associated data. */
  lemma CursorLayout(k: ChangesKey, d: Decoded)
    requires ValidKey(k) && ValidDecoded(d)
    ensures |EncodeCursor(k, d)| == 83 && Decode64(EncodeCursor(k, d)).Some?
    ensures var raw, plain := Decode64(EncodeCursor(k, d)).value, Plain(d, k.epoch);
            && |raw| == 62 && raw[..2] == [2, k.keyId] && raw[2..6] == k.kid && raw[6..18] == k.suite.mac([2] + plain)[..12]
            && raw[18..] == k.suite.seal(raw[6..18], k.suite.aadLabel + raw[..6], plain)
  {
    var plain := Plain(d, k.epoch);
    var raw := Issue(k, CURSOR_VERSION, plain);
    IssueParts(k, CURSOR_VERSION, plain);
    Base64Inverse(raw, Encode64(raw));
    PackedLength(raw);
    assert raw[..2] == [raw[0], raw[1]];
  }

  /** One of the first version is 51 characters: the version, the key id, the nonce of the
      position alone, and the position sealed with the two bytes before it. */
  lemma FirstVersionLayout(k: ChangesKey, pos: U64)
    requires ValidKey(k)
    ensures |EncodeV1(k, pos)| == 51 && Decode64(EncodeV1(k, pos)).Some? && ValueOf(BigEndian(pos, 8)) == pos
    ensures var raw, plain := Decode64(EncodeV1(k, pos)).value, BigEndian(pos, 8);
            && |raw| == 38 && raw[..2] == [1, k.keyId] && raw[2..14] == k.suite.mac(plain)[..12]
            && raw[14..] == k.suite.seal(raw[2..14], k.suite.aadLabelV1 + raw[..2], plain)
  {
    var plain := BigEndian(pos, 8);
    var raw := Issue(k, V1_VERSION, plain);
    IssueParts(k, V1_VERSION, plain);
    Base64Inverse(raw, Encode64(raw));
    PackedLength(raw);
    Widths();
    ValueOfBigEndian(pos, 8);
    assert raw[..2] == [raw[0], raw[1]];
  }

  /** A text was sealed by this key under some epoch exactly when it opens to that text. */
  lemma OpensToIssued(k: ChangesKey, s: string, version: Byte, plain: seq<Byte>)
    requires ValidKey(k) && IsVersion(version) && |plain| == PlainLen(version)
    ensures s == Encode64(Issue(k, version, plain)) <==>
            Decode64(s).Some? && Unseal(k, Decode64(s).value) == Ok((version, plain))
  {
    var raw := Issue(k, version, plain);
    Base64Inverse(raw, s);
    UnsealIsInverse(k, raw, version, plain);
    if Decode64(s).Some? { UnsealIsInverse(k, Decode64(s).value, version, plain); }
  }

  /** What opens under a key, and as what. */
  lemma OpenedShape(k: ChangesKey, s: string)
    requires ValidKey(k)
    ensures Decode64(s).Some? && Unseal(k, Decode64(s).value).Ok? ==>
              var (version, plain) := Unseal(k, Decode64(s).value).value;
              IsVersion(version) && |plain| == PlainLen(version) && s == Encode64(Issue(k, version, plain))
  {
    if Decode64(s).Some? && Unseal(k, Decode64(s).value).Ok? {
      var (version, plain) := Unseal(k, Decode64(s).value).value;
      UnsealIsInverse(k, Decode64(s).value, version, plain);
      OpensToIssued(k, s, version, plain);
    }
  }

  /** Decoding is the exact inverse of encoding: it succeeds with `d` on the encoding
      of `d` under this key and epoch, and on nothing else. */
  lemma DecodeIsInverse(k: ChangesKey, s: string, d: Decoded)
    requires ValidKey(k) && ValidDecoded(d)
    ensures DecodeCursor(k, s) == Ok(d) <==> s == EncodeCursor(k, d)
  {
    if DecodeCursor(k, s) == Ok(d) {
      OpenedShape(k, s);
      var (version, plain) := Unseal(k, Decode64(s).value).value;
      PlainInverse(d, k.epoch, plain);
    }
    if s == EncodeCursor(k, d) {
      OpensToIssued(k, s, CURSOR_VERSION, Plain(d, k.epoch));
      PlainInverse(d, k.epoch, Plain(d, k.epoch));
    }
  }

  ghost predicate OfOtherEpoch(k: ChangesKey, s: string)
    requires ValidKey(k)
  {
    exists e: U32, d: Decoded :: e != k.epoch && ValidDecoded(d) && s == EncodeCursor(k.(epoch := e), d)
  }

  ghost predicate OfFirstVersion(k: ChangesKey, s: string)
    requires ValidKey(k)
  {
    exists pos: U64 :: s == EncodeV1(k, pos)
  }

  lemma OtherEpochIssues(k: ChangesKey, e: U32, d: Decoded)
    requires ValidKey(k) && ValidDecoded(d)
    ensures EncodeCursor(k.(epoch := e), d) == Encode64(Issue(k, CURSOR_VERSION, Plain(d, e)))
  {
    assert Header(k.(epoch := e), CURSOR_VERSION) == Header(k, CURSOR_VERSION);
  }

  /** Stale are exactly the cursors of this key issued under another epoch or in the
      first version. */
  lemma StaleExactly(k: ChangesKey, s: string)
    requires ValidKey(k)
    ensures DecodeCursor(k, s) == Err(Stale) <==> OfOtherEpoch(k, s) || OfFirstVersion(k, s)
  {
    if DecodeCursor(k, s) == Err(Stale) { StaleMeans(k, s); }
    if OfOtherEpoch(k, s) {
      var e: U32, d: Decoded :| e != k.epoch && ValidDecoded(d) && s == EncodeCursor(k.(epoch := e), d);
      OtherEpochIssues(k, e, d);
      OpensToIssued(k, s, CURSOR_VERSION, Plain(d, e));
      PlainInverse(d, e, Plain(d, e));
    }
    if OfFirstVersion(k, s) {
      var pos: U64 :| s == EncodeV1(k, pos);
      OpensToIssued(k, s, V1_VERSION, BigEndian(pos, 8));
    }
  }

  lemma StaleMeans(k: ChangesKey, s: string)
    requires ValidKey(k) && DecodeCursor(k, s) == Err(Stale)
    ensures OfOtherEpoch(k, s) || OfFirstVersion(k, s)
  {
    UnsealNeverStale(k, s);
    OpenedShape(k, s);
    var (version, plain) := Unseal(k, Decode64(s).value).value;
    if version == V1_VERSION {
      var pos := Word(plain);
      BigEndianOfValue(plain);
      assert s == EncodeV1(k, pos);
    } else {
      var d, e := ReadPlain(plain), ReadEpoch(plain);
      PlainInverse(d, e, plain);
      OtherEpochIssues(k, e, d);
      assert s == EncodeCursor(k.(epoch := e), d);
    }
  }

  lemma UnsealNeverStale(k: ChangesKey, s: string)
    requires ValidKey(k) && DecodeCursor(k, s) == Err(Stale)
    ensures Decode64(s).Some? && Unseal(k, Decode64(s).value).Ok?
  {
  }

  /** A cursor issued under another key id or master key is of an unknown key. */
  lemma OtherKeyIsUnknown(k: ChangesKey, k': ChangesKey, d: Decoded)
    requires ValidKey(k) && ValidKey(k') && ValidDecoded(d)
    requires k'.keyId != k.keyId || k'.kid != k.kid
    ensures DecodeCursor(k, EncodeCursor(k', d)) == Err(UnknownKey)
  {
    var plain := Plain(d, k'.epoch);
    var raw := Issue(k', CURSOR_VERSION, plain);
    IssueParts(k', CURSOR_VERSION, plain);
    HeaderIs(k, raw);
    Base64Inverse(raw, Encode64(raw));
    assert Header(k', CURSOR_VERSION)[1] == k'.keyId && Header(k', CURSOR_VERSION)[2..] == k'.kid;
    assert Header(k, CURSOR_VERSION)[1] == k.keyId && Header(k, CURSOR_VERSION)[2..] == k.kid;
  }

  /** And only a well-formed text that names another key is. */
  lemma UnknownExactly(k: ChangesKey, s: string)
    requires ValidKey(k)
    ensures DecodeCursor(k, s) == Err(UnknownKey) <==>
            Decode64(s).Some? && WellFormed(Decode64(s).value) && !NamesKey(k, Decode64(s).value)
  {
  }
}
