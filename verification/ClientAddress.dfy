/** Which address a request is charged to: prefix matching of trusted proxies, and the
    right-to-left walk over the forwarded chain. */
module ClientAddress {
  import opened Arith
  import opened Tables

  // ------------------------------------------------------------ masked bytes

  /** A byte with its top `take` bits set. */
  function Mask(take: nat): bv8
    requires 0 < take <= 8
  {
    if take == 8 then 0xFF else !(0xFF >> take)
  }

  /** Two bytes agree in their top `take` bits. */
  predicate SameTop(x: bv8, y: bv8, take: nat)
    requires 0 < take <= 8
  {
    x & Mask(take) == y & Mask(take)
  }

  function Val(x: bv8): (v: nat)
    ensures v < 256
  {
    x as int
  }

  lemma MaskIs()
    ensures Mask(1) == 0x80 && Mask(2) == 0xC0 && Mask(3) == 0xE0 && Mask(4) == 0xF0
    ensures Mask(5) == 0xF8 && Mask(6) == 0xFC && Mask(7) == 0xFE && Mask(8) == 0xFF
  {
  }

  lemma MaskIsShift(x: bv8, y: bv8)
    ensures (x & 0x80 == y & 0x80) <==> x >> 7 == y >> 7
    ensures (x & 0xC0 == y & 0xC0) <==> x >> 6 == y >> 6
    ensures (x & 0xE0 == y & 0xE0) <==> x >> 5 == y >> 5
    ensures (x & 0xF0 == y & 0xF0) <==> x >> 4 == y >> 4
    ensures (x & 0xF8 == y & 0xF8) <==> x >> 3 == y >> 3
    ensures (x & 0xFC == y & 0xFC) <==> x >> 2 == y >> 2
    ensures (x & 0xFE == y & 0xFE) <==> x >> 1 == y >> 1
    ensures (x & 0xFF == y & 0xFF) <==> x == y
  {
  }

  lemma ShiftIsDiv(x: bv8)
    ensures Val(x >> 7) == Val(x) / 128 && Val(x >> 6) == Val(x) / 64
    ensures Val(x >> 5) == Val(x) / 32 && Val(x >> 4) == Val(x) / 16
    ensures Val(x >> 3) == Val(x) / 8 && Val(x >> 2) == Val(x) / 4
    ensures Val(x >> 1) == Val(x) / 2
  {
  }

  lemma BitsAreInteger(x: bv8, y: bv8)
    ensures x == y <==> Val(x) == Val(y)
  {
  }

  lemma OneOrTwoBits(x: bv8, y: bv8)
    ensures (x & 0x80 == y & 0x80) <==> Val(x) / 128 == Val(y) / 128
    ensures (x & 0xC0 == y & 0xC0) <==> Val(x) / 64 == Val(y) / 64
  {
    MaskIsShift(x, y);
    ShiftIsDiv(x);
    ShiftIsDiv(y);
    BitsAreInteger(x >> 7, y >> 7);
    BitsAreInteger(x >> 6, y >> 6);
  }

  lemma ThreeOrFourBits(x: bv8, y: bv8)
    ensures (x & 0xE0 == y & 0xE0) <==> Val(x) / 32 == Val(y) / 32
    ensures (x & 0xF0 == y & 0xF0) <==> Val(x) / 16 == Val(y) / 16
  {
    MaskIsShift(x, y);
    ShiftIsDiv(x);
    ShiftIsDiv(y);
    BitsAreInteger(x >> 5, y >> 5);
    BitsAreInteger(x >> 4, y >> 4);
  }

  lemma FiveOrSixBits(x: bv8, y: bv8)
    ensures (x & 0xF8 == y & 0xF8) <==> Val(x) / 8 == Val(y) / 8
    ensures (x & 0xFC == y & 0xFC) <==> Val(x) / 4 == Val(y) / 4
  {
    MaskIsShift(x, y);
    ShiftIsDiv(x);
    ShiftIsDiv(y);
    BitsAreInteger(x >> 3, y >> 3);
    BitsAreInteger(x >> 2, y >> 2);
  }

  lemma SevenOrEightBits(x: bv8, y: bv8)
    ensures (x & 0xFE == y & 0xFE) <==> Val(x) / 2 == Val(y) / 2
    ensures (x & 0xFF == y & 0xFF) <==> Val(x) == Val(y)
  {
    MaskIsShift(x, y);
    ShiftIsDiv(x);
    ShiftIsDiv(y);
    BitsAreInteger(x >> 1, y >> 1);
    BitsAreInteger(x, y);
  }

  lemma FewBits(x: bv8, y: bv8, take: nat)
    requires 0 < take <= 4
    ensures SameTop(x, y, take) <==> Val(x) / Pow2(8 - take) == Val(y) / Pow2(8 - take)
  {
    MaskIs();
    SmallPowers();
    if take <= 2 { OneOrTwoBits(x, y); } else { ThreeOrFourBits(x, y); }
  }

  lemma ManyBits(x: bv8, y: bv8, take: nat)
    requires 4 < take <= 8
    ensures SameTop(x, y, take) <==> Val(x) / Pow2(8 - take) == Val(y) / Pow2(8 - take)
  {
    MaskIs();
    SmallPowers();
    if take <= 6 { FiveOrSixBits(x, y); } else { SevenOrEightBits(x, y); }
  }

  /** Comparing under a mask of the top bits is comparing quotients. */
  lemma SameTopIs(x: bv8, y: bv8, take: nat)
    requires 0 < take <= 8
    ensures SameTop(x, y, take) <==> Val(x) / Pow2(8 - take) == Val(y) / Pow2(8 - take)
  {
    if take <= 4 { FewBits(x, y, take); } else { ManyBits(x, y, take); }
  }

  // ------------------------------------------------------------ long division

  lemma AtLeast(a: nat, b: nat, d: nat)
    ensures a <= b ==> a * d <= b * d
  {
  }

  lemma NextMultiple(a: nat, d: nat)
    ensures (a + 1) * d == a * d + d
  {
  }

  lemma DivUnique(n: nat, d: nat, q: nat, r: nat)
    requires d > 0 && n == q * d + r && r < d
    ensures n / d == q && n % d == r
  {
    var q' := n / d;
    assert n == q' * d + n % d;
    AtLeast(q + 1, q', d);
    NextMultiple(q, d);
    AtLeast(q' + 1, q, d);
    NextMultiple(q', d);
  }

  lemma Regroup(q: nat, k: nat, s: nat, m: nat)
    ensures (q * k + s) * m == q * (m * k) + s * m
  {
    assert q * (m * k) == (q * k) * m;
  }

  /** Low digits do not reach the quotient. */
  lemma DivTop(x: nat, r: nat, m: nat, k: nat)
    requires m > 0 && k > 0 && r < m && m * k > 0
    ensures (x * m + r) / (m * k) == x / k
  {
    var q, s := x / k, x % k;
    Regroup(q, k, s, m);
    assert x == q * k + s;
    AtLeast(s + 1, k, m);
    NextMultiple(s, m);
    DivUnique(x * m + r, m * k, q, s * m + r);
  }

  /** A high digit adds to the quotient of the low ones. */
  lemma DivLow(x: nat, r: nat, d: nat, k: nat)
    requires d > 0
    ensures (x * (k * d) + r) / d == x * k + r / d
  {
    var q, s := r / d, r % d;
    Regroup(x, k, q, d);
    assert x * (k * d) == x * (d * k);
    DivUnique(x * (k * d) + r, d, x * k + q, s);
  }

  lemma Digits(x: nat, y: nat, r: nat, s: nat, k: nat)
    requires r < k && s < k
    ensures x * k + r == y * k + s <==> x == y && r == s
  {
    DivUnique(x * k + r, k, x, r);
    DivUnique(y * k + s, k, y, s);
  }

  lemma QuotientBound(r: nat, d: nat, k: nat)
    requires d > 0 && r < k * d
    ensures r / d < k
  {
    AtLeast(k, r / d, d);
  }

  // ------------------------------------------------------------- leading bits

  /** Octets as one integer, the first the most significant. */
  function IntegerOf(octets: seq<bv8>): nat {
    if octets == [] then 0
    else Val(octets[0]) * Pow2(8 * (|octets| - 1)) + IntegerOf(octets[1..])
  }

  function Quotient(n: nat, d: nat): nat
    requires d > 0
  {
    n / d
  }

  /** The top `n` bits of an address, as an integer. */
  function TopBits(octets: seq<bv8>, n: nat): nat
    requires n <= 8 * |octets|
  {
    Quotient(IntegerOf(octets), Pow2(8 * |octets| - n))
  }

  lemma {:induction false} IntegerBound(octets: seq<bv8>)
    ensures IntegerOf(octets) < Pow2(8 * |octets|)
  {
    if octets != [] {
      IntegerBound(octets[1..]);
      var m := Pow2(8 * (|octets| - 1));
      SmallPowers();
      PowAdds(8, 8 * (|octets| - 1));
      AtLeast(Val(octets[0]), 255, m);
    }
  }

  /** Agreement of the top `bits` bits, byte by byte. */
  predicate Agree(a: seq<bv8>, b: seq<bv8>, bits: nat)
    requires |a| == |b|
  {
    if bits == 0 || a == [] then true
    else if bits <= 8 then SameTop(a[0], b[0], bits)
    else a[0] == b[0] && Agree(a[1..], b[1..], bits - 8)
  }

  /** With at most eight bits left, only the first byte counts. */
  lemma TopInFirst(octets: seq<bv8>, n: nat)
    requires octets != [] && 0 < n <= 8
    ensures TopBits(octets, n) == Val(octets[0]) / Pow2(8 - n)
  {
    var low := 8 * (|octets| - 1);
    IntegerBound(octets[1..]);
    PowAdds(low, 8 - n);
    DivTop(Val(octets[0]), IntegerOf(octets[1..]), Pow2(low), Pow2(8 - n));
  }

  /** With more, the first byte stands above the top bits of the rest. */
  lemma TopInRest(octets: seq<bv8>, n: nat)
    requires octets != [] && 8 < n <= 8 * |octets|
    ensures TopBits(octets, n) == Val(octets[0]) * Pow2(n - 8) + TopBits(octets[1..], n - 8)
    ensures TopBits(octets[1..], n - 8) < Pow2(n - 8)
  {
    var d := Pow2(8 * |octets| - n);
    var rest := IntegerOf(octets[1..]);
    PowAdds(n - 8, 8 * |octets| - n);
    DivLow(Val(octets[0]), rest, d, Pow2(n - 8));
    IntegerBound(octets[1..]);
    QuotientBound(rest, d, Pow2(n - 8));
  }

  lemma NoBits(octets: seq<bv8>)
    ensures TopBits(octets, 0) == 0
  {
    IntegerBound(octets);
    QuotientBound(IntegerOf(octets), Pow2(8 * |octets|), 1);
  }

  /** Comparing byte by byte is comparing the top bits of the two addresses as integers. */
  lemma {:induction false} AgreeIsInteger(a: seq<bv8>, b: seq<bv8>, bits: nat)
    requires |a| == |b| && bits <= 8 * |a|
    ensures Agree(a, b, bits) <==> TopBits(a, bits) == TopBits(b, bits)
  {
    if bits == 0 {
      NoBits(a);
      NoBits(b);
    } else if bits <= 8 {
      TopInFirst(a, bits);
      TopInFirst(b, bits);
      SameTopIs(a[0], b[0], bits);
    } else {
      TopInRest(a, bits);
      TopInRest(b, bits);
      AgreeIsInteger(a[1..], b[1..], bits - 8);
      BitsAreInteger(a[0], b[0]);
      Digits(Val(a[0]), Val(b[0]), TopBits(a[1..], bits - 8), TopBits(b[1..], bits - 8), Pow2(bits - 8));
    }
  }

  lemma SameByte(x: bv8, y: bv8)
    ensures SameTop(x, y, 8) <==> x == y
  {
    MaskIs();
    MaskIsShift(x, y);
  }

  /** One turn of the loop. */
  lemma AgreeStep(a: seq<bv8>, b: seq<bv8>, bits: nat)
    requires |a| == |b| > 0 && bits > 0
    ensures var take := if bits < 8 then bits else 8;
            Agree(a, b, bits) <==> SameTop(a[0], b[0], take) && Agree(a[1..], b[1..], bits - take)
  {
    SameByte(a[0], b[0]);
  }

  method MaskedEq(a: seq<bv8>, b: seq<bv8>, prefixLen: nat) returns (eq: bool)
    requires |a| == |b| && prefixLen <= 8 * |a|
    ensures eq <==> TopBits(a, prefixLen) == TopBits(b, prefixLen)
  {
    AgreeIsInteger(a, b, prefixLen);
    var bits := prefixLen;
    var i := 0;
    while i < |a| && bits > 0
      invariant 0 <= i <= |a|
      invariant Agree(a[i..], b[i..], bits) <==> Agree(a, b, prefixLen)
    {
      var take := if bits < 8 then bits else 8;
      AgreeStep(a[i..], b[i..], bits);
      assert a[i..][1..] == a[i + 1..] && b[i..][1..] == b[i + 1..];
      if !SameTop(a[i], b[i], take) { return false; }
      bits := bits - take;
      i := i + 1;
    }
    return true;
  }

  // ------------------------------------------------------------------ the walk

  datatype IpAddr = V4(octets: seq<bv8>) | V6(octets: seq<bv8>)

  predicate ValidIp(ip: IpAddr) {
    |ip.octets| == if ip.V4? then 4 else 16
  }

  datatype Cidr = Cidr(base: IpAddr, prefixLen: nat)

  predicate ValidCidr(c: Cidr) {
    ValidIp(c.base) && c.prefixLen <= 8 * |c.base.octets|
  }

  /** In the block: the same family and the same leading bits. */
  predicate InBlock(c: Cidr, ip: IpAddr)
    requires ValidCidr(c)
  {
    ValidIp(ip) && c.base.V4? == ip.V4? && TopBits(c.base.octets, c.prefixLen) == TopBits(ip.octets, c.prefixLen)
  }

  predicate ValidProxies(trusted: seq<Cidr>) {
    forall c :: c in trusted ==> ValidCidr(c)
  }

  predicate Trusted(trusted: seq<Cidr>, ip: IpAddr)
    requires ValidProxies(trusted)
  {
    exists c :: c in trusted && InBlock(c, ip)
  }

  method Contains(trusted: seq<Cidr>, ip: IpAddr) returns (found: bool)
    requires ValidProxies(trusted) && ValidIp(ip)
    ensures found <==> Trusted(trusted, ip)
  {
    for i := 0 to |trusted|
      invariant forall c :: c in trusted[..i] ==> !InBlock(c, ip)
    {
      var c := trusted[i];
      assert c in trusted;
      if c.base.V4? == ip.V4? {
        var eq := MaskedEq(c.base.octets, ip.octets, c.prefixLen);
        if eq { return true; }
      }
      assert trusted[..i + 1] == trusted[..i] + [c];
    }
    assert trusted[..|trusted|] == trusted;
    return false;
  }

  /** The entries of a header, the rightmost first. */
  function RightToLeft(header: string): (entries: seq<string>)
    ensures entries != []
  {
    if header == "" then [""]
    else
      var rest := RightToLeft(header[1..]);
      if header[0] == ',' then rest + [""]
      else rest[|rest| - 1 := [header[0]] + rest[|rest| - 1]]
  }

  /** Entries put back together, the first rightmost. */
  function Joined(entries: seq<string>): string
    requires entries != []
  {
    if |entries| == 1 then entries[0] else Joined(entries[1..]) + "," + entries[0]
  }

  lemma {:induction false} JoinedEnd(entries: seq<string>, last: string)
    ensures Joined(entries + [last]) == if entries == [] then last else last + "," + Joined(entries)
  {
    if |entries| > 1 {
      JoinedEnd(entries[1..], last);
      assert (entries + [last])[1..] == entries[1..] + [last];
    } else if |entries| == 1 {
      assert (entries + [last])[1..] == [last];
    }
  }

  /** The entries are the text between the commas: none holds one. */
  lemma {:induction false} EntriesHoldNoComma(header: string, i: nat)
    requires i < |RightToLeft(header)|
    ensures ',' !in RightToLeft(header)[i]
  {
    if header != "" {
      var rest := RightToLeft(header[1..]);
      if i < |rest| { EntriesHoldNoComma(header[1..], i); }
    }
  }

  /** And together they are the header. */
  lemma {:induction false} EntriesAreHeader(header: string)
    ensures Joined(RightToLeft(header)) == header
  {
    if header != "" {
      EntriesAreHeader(header[1..]);
      var rest := RightToLeft(header[1..]);
      var init, last := rest[..|rest| - 1], rest[|rest| - 1];
      assert rest == init + [last];
      JoinedEnd(init, last);
      if header[0] == ',' {
        JoinedEnd(rest, "");
      } else {
        assert rest[|rest| - 1 := [header[0]] + last] == init + [[header[0]] + last];
        JoinedEnd(init, [header[0]] + last);
      }
    }
  }

  lemma LastGrows(rest: seq<string>, last: seq<string>, c: char)
    requires last != []
    ensures var all := rest + last;
            all[|all| - 1 := [c] + all[|all| - 1]] == rest + last[|last| - 1 := [c] + last[|last| - 1]]
  {
    assert (rest + last)[|rest + last| - 1] == last[|last| - 1];
  }

  lemma {:induction false} EntriesJoin(left: string, right: string)
    ensures RightToLeft(left + "," + right) == RightToLeft(right) + RightToLeft(left)
  {
    var whole := left + "," + right;
    if left == "" {
      assert whole[1..] == right;
    } else {
      EntriesJoin(left[1..], right);
      assert whole[1..] == left[1..] + "," + right;
      var rest, last := RightToLeft(right), RightToLeft(left[1..]);
      if left[0] == ',' {
        assert rest + last + [""] == rest + (last + [""]);
      } else {
        LastGrows(rest, last, left[0]);
      }
    }
  }

  function Parsed(parse: string -> Option<IpAddr>, entries: seq<string>): (hops: seq<Option<IpAddr>>)
    ensures |hops| == |entries| && forall i :: 0 <= i < |hops| ==> hops[i] == parse(entries[i])
  {
    seq(|entries|, i requires 0 <= i < |entries| => parse(entries[i]))
  }

  /** The walk stops at this hop: unreadable, or past the skipped ones and not a proxy. */
  predicate StopsAt(hops: seq<Option<IpAddr>>, trusted: seq<Cidr>, skip: nat, i: nat)
    requires ValidProxies(trusted) && i < |hops|
  {
    hops[i].None? || (skip <= i && !Trusted(trusted, hops[i].value))
  }

  predicate Stops(hops: seq<Option<IpAddr>>, trusted: seq<Cidr>, skip: nat)
    requires ValidProxies(trusted)
  {
    exists i :: 0 <= i < |hops| && StopsAt(hops, trusted, skip, i)
  }

  /** The address the walk names: of the first stopping hop, if that is readable. */
  ghost predicate Names(hops: seq<Option<IpAddr>>, trusted: seq<Cidr>, skip: nat, peer: IpAddr, ip: IpAddr)
    requires ValidProxies(trusted)
  {
    if Stops(hops, trusted, skip) then
      exists i :: 0 <= i < |hops| && StopsAt(hops, trusted, skip, i) && ip == hops[i].GetOr(peer)
                  && forall j :: 0 <= j < i ==> !StopsAt(hops, trusted, skip, j)
    else ip == peer
  }

  datatype TrustMode = AnyPeer | TrustedProxies

  predicate PeerTrusted(mode: TrustMode, trusted: seq<Cidr>, peer: IpAddr)
    requires ValidProxies(trusted)
  {
    mode == AnyPeer || Trusted(trusted, peer)
  }

  method ResolveClientIp(peer: IpAddr, xff: Option<string>, parse: string -> Option<IpAddr>, trusted: seq<Cidr>,
                         mode: TrustMode, skip: nat) returns (ip: IpAddr)
    requires ValidProxies(trusted) && ValidIp(peer)
    requires forall s :: parse(s).Some? ==> ValidIp(parse(s).value)
    ensures PeerTrusted(mode, trusted, peer) && xff.Some? ==>
              Names(Parsed(parse, RightToLeft(xff.value)), trusted, skip, peer, ip)
    ensures !PeerTrusted(mode, trusted, peer) || xff.None? ==> ip == peer
  {
    var peerTrusted := true;
    if mode == TrustedProxies {
      peerTrusted := Contains(trusted, peer);
      peerTrusted := |trusted| > 0 && peerTrusted;
    }
    if !peerTrusted { return peer; }
    if xff.None? { return peer; }
    var entries := RightToLeft(xff.value);
    ghost var hops := Parsed(parse, entries);
    var i := 0;
    while i < skip
      invariant 0 <= i <= skip && i <= |entries|
      invariant forall j :: 0 <= j < i ==> !StopsAt(hops, trusted, skip, j)
    {
      if i == |entries| { return peer; }
      var hop := parse(entries[i]);
      if hop.None? {
        assert StopsAt(hops, trusted, skip, i);
        return peer;
      }
      i := i + 1;
    }
    while i < |entries|
      invariant skip <= i <= |entries|
      invariant forall j :: 0 <= j < i ==> !StopsAt(hops, trusted, skip, j)
    {
      match parse(entries[i]) {
        case None =>
          assert StopsAt(hops, trusted, skip, i);
          return peer;
        case Some(candidate) =>
          var known := Contains(trusted, candidate);
          if !known {
            assert StopsAt(hops, trusted, skip, i);
            return candidate;
          }
      }
      i := i + 1;
    }
    return peer;
  }

  // ---------------------------------------------------------------- theorems

  lemma NamesOne(hops: seq<Option<IpAddr>>, trusted: seq<Cidr>, skip: nat, peer: IpAddr, ip: IpAddr, ip': IpAddr)
    requires ValidProxies(trusted) && Names(hops, trusted, skip, peer, ip) && Names(hops, trusted, skip, peer, ip')
    ensures ip == ip'
  {
    if Stops(hops, trusted, skip) {
      var i :| 0 <= i < |hops| && StopsAt(hops, trusted, skip, i) && ip == hops[i].GetOr(peer)
               && forall j :: 0 <= j < i ==> !StopsAt(hops, trusted, skip, j);
      var k :| 0 <= k < |hops| && StopsAt(hops, trusted, skip, k) && ip' == hops[k].GetOr(peer)
               && forall j :: 0 <= j < k ==> !StopsAt(hops, trusted, skip, j);
      assert i == k;
    }
  }

  lemma LeftIsUnread(hops: seq<Option<IpAddr>>, more: seq<Option<IpAddr>>, trusted: seq<Cidr>, skip: nat, peer: IpAddr, ip: IpAddr)
    requires ValidProxies(trusted) && Stops(hops, trusted, skip) && Names(hops, trusted, skip, peer, ip)
    ensures Names(hops + more, trusted, skip, peer, ip)
  {
    var all := hops + more;
    forall i | 0 <= i < |hops|
      ensures StopsAt(all, trusted, skip, i) == StopsAt(hops, trusted, skip, i)
    {
      assert all[i] == hops[i];
    }
    var i :| 0 <= i < |hops| && StopsAt(hops, trusted, skip, i) && ip == hops[i].GetOr(peer)
             && forall j :: 0 <= j < i ==> !StopsAt(hops, trusted, skip, j);
    assert StopsAt(all, trusted, skip, i);
  }

  lemma ParsedJoin(parse: string -> Option<IpAddr>, xs: seq<string>, ys: seq<string>)
    ensures Parsed(parse, xs + ys) == Parsed(parse, xs) + Parsed(parse, ys)
  {
  }

  /** Where the walk stops within the entries the proxies appended, no text a client
      put in front of them changes the address. */
  lemma ForgedPrefixIsIgnored(forged: string, appended: string, parse: string -> Option<IpAddr>, trusted: seq<Cidr>,
                              skip: nat, peer: IpAddr, ip: IpAddr)
    requires ValidProxies(trusted) && Stops(Parsed(parse, RightToLeft(appended)), trusted, skip)
    ensures Names(Parsed(parse, RightToLeft(forged + "," + appended)), trusted, skip, peer, ip)
            <==> Names(Parsed(parse, RightToLeft(appended)), trusted, skip, peer, ip)
  {
    EntriesJoin(forged, appended);
    ParsedJoin(parse, RightToLeft(appended), RightToLeft(forged));
    var hops, more := Parsed(parse, RightToLeft(appended)), Parsed(parse, RightToLeft(forged));
    var first := Named(hops, trusted, skip, peer);
    LeftIsUnread(hops, more, trusted, skip, peer, first);
    if Names(hops + more, trusted, skip, peer, ip) { NamesOne(hops + more, trusted, skip, peer, ip, first); }
    if Names(hops, trusted, skip, peer, ip) { NamesOne(hops, trusted, skip, peer, ip, first); }
  }

  /** Some address is always named. */
  lemma Named(hops: seq<Option<IpAddr>>, trusted: seq<Cidr>, skip: nat, peer: IpAddr) returns (ip: IpAddr)
    requires ValidProxies(trusted)
    ensures Names(hops, trusted, skip, peer, ip)
  {
    ip := peer;
    if Stops(hops, trusted, skip) {
      var i := 0;
      while !StopsAt(hops, trusted, skip, i)
        invariant 0 <= i < |hops|
        invariant forall j :: 0 <= j < i ==> !StopsAt(hops, trusted, skip, j)
        decreases |hops| - i
      {
        i := i + 1;
      }
      ip := hops[i].GetOr(peer);
    }
  }

  /** Where it does not, the next readable entry that is not a proxy decides. */
  lemma UnstoppedReadsOn(hops: seq<Option<IpAddr>>, trusted: seq<Cidr>, skip: nat, peer: IpAddr, ip: IpAddr)
    requires ValidProxies(trusted) && !Stops(hops, trusted, skip) && skip <= |hops| && !Trusted(trusted, ip)
    ensures Names(hops, trusted, skip, peer, peer) && Names(hops + [Some(ip)], trusted, skip, peer, ip)
  {
    var all, n := hops + [Some(ip)], |hops|;
    assert StopsAt(all, trusted, skip, n);
    forall j | 0 <= j < n
      ensures !StopsAt(all, trusted, skip, j)
    {
      assert all[j] == hops[j];
      assert !StopsAt(hops, trusted, skip, j);
    }
    assert ip == all[n].GetOr(peer);
  }
}
