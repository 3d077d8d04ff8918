/** Bucket filters over the feed: a prefix of a row's hash in memory, a half-open
    range over the hash column in SQL. The two select the same rows. */
module Buckets {
  import opened Tables

  predicate IsHexDigit(c: char) {
    '0' <= c <= '9' || 'a' <= c <= 'f'
  }

  predicate IsHex(s: string) {
    forall i :: 0 <= i < |s| ==> IsHexDigit(s[i])
  }

  /** Bytewise comparison, as the "C" collation orders the column. */
  predicate Below(a: string, b: string) {
    if b == [] then false
    else if a == [] then true
    else a[0] < b[0] || (a[0] == b[0] && Below(a[1..], b[1..]))
  }

  predicate StartsWith(h: string, p: string) {
    |p| <= |h| && h[..|p|] == p
  }

  /** `h` lies at or above `lower` and, when there is one, below `upper`. */
  predicate InRange(h: string, lower: string, upper: Option<string>) {
    !Below(h, lower) && (upper.Some? ==> Below(h, upper.value))
  }

  function NextDigit(c: char): char
    requires IsHexDigit(c) && c != 'f'
  {
    if c == '9' then 'a' else (c as int + 1) as char
  }

  /** The prefix incremented as a hexadecimal number of its own width; none when all digits are `f`. */
  function Successor(p: string): (r: Option<string>)
    requires IsHex(p)
    ensures r.Some? ==> |r.value| == |p| && IsHex(r.value)
  {
    if p == [] then None
    else
      var last, rest := p[|p| - 1], p[..|p| - 1];
      if last != 'f' then Some(rest + [NextDigit(last)])
      else match Successor(rest)
        case None => None
        case Some(carried) => Some(carried + ['0'])
  }

  /** The zeros a carry leaves behind. */
  function Zeros(n: nat): (z: string)
    ensures |z| == n
  {
    seq(n, _ => '0')
  }

  lemma {:induction false} CarryOver(p: string, i: nat)
    requires IsHex(p) && i < |p| && p[i] != 'f' && forall j :: i < j < |p| ==> p[j] == 'f'
    ensures Successor(p) == Some(p[..i] + [NextDigit(p[i])] + Zeros(|p| - i - 1))
    decreases |p|
  {
    if i < |p| - 1 {
      var rest := p[..|p| - 1];
      CarryOver(rest, i);
      assert rest[..i] == p[..i];
      assert Zeros(|p| - i - 2) + ['0'] == Zeros(|p| - i - 1);
      assert p[..i] + [NextDigit(p[i])] + Zeros(|p| - i - 2) + ['0'] == p[..i] + [NextDigit(p[i])] + Zeros(|p| - i - 1);
    } else {
      assert p[..i] + [NextDigit(p[i])] + Zeros(0) == p[..|p| - 1] + [NextDigit(p[i])];
    }
  }

  lemma {:induction false} NoCarry(p: string)
    requires IsHex(p) && forall j :: 0 <= j < |p| ==> p[j] == 'f'
    ensures Successor(p) == None
  {
    if p != [] { NoCarry(p[..|p| - 1]); }
  }

  /** `Bucket::range`: turn trailing `f`s to zeros from the right until a digit takes the carry. */
  method Range(prefix: string) returns (lower: string, upper: Option<string>)
    requires IsHex(prefix)
    ensures lower == prefix && upper == Successor(prefix)
  {
    lower := prefix;
    var digits := new char[|prefix|](i requires 0 <= i < |prefix| => prefix[i]);
    var i := |prefix|;
    while i > 0
      invariant 0 <= i <= |prefix| == digits.Length
      invariant digits[..i] == prefix[..i]
      invariant forall j :: i <= j < |prefix| ==> prefix[j] == 'f' && digits[j] == '0'
    {
      i := i - 1;
      assert digits[i] == digits[..i + 1][i] == prefix[..i + 1][i];
      if digits[i] == 'f' {
        digits[i] := '0';
      } else {
        CarryOver(prefix, i);
        assert digits[..i] == prefix[..i];
        digits[i] := NextDigit(digits[i]);
        assert digits[..i] == prefix[..i] by { assert digits[..i] == digits[..i + 1][..i]; }
        assert digits[i + 1..] == Zeros(|prefix| - i - 1);
        assert digits[..] == digits[..i] + [digits[i]] + digits[i + 1..];
        return prefix, Some(digits[..]);
      }
    }
    NoCarry(prefix);
    upper := None;
  }

  // ------------------------------------------------------- range against prefix

  lemma {:induction false} BelowByLast(a: string, x: char, b: string, y: char)
    requires |a| == |b|
    ensures Below(a + [x], b + [y]) <==> Below(a, b) || (a == b && x < y)
  {
    if a == [] {
      assert a + [x] == [x] && b + [y] == [y] && [x][1..] == [] && [y][1..] == [];
    } else {
      BelowByLast(a[1..], x, b[1..], y);
      assert (a + [x])[1..] == a[1..] + [x] && (b + [y])[1..] == b[1..] + [y];
      assert a == [a[0]] + a[1..] && b == [b[0]] + b[1..];
    }
  }

  /** A longer string compares with a shorter one by its leading part. */
  lemma {:induction false} BelowByPrefix(h: string, p: string)
    requires |p| <= |h|
    ensures Below(h, p) <==> Below(h[..|p|], p)
  {
    if p != [] {
      BelowByPrefix(h[1..], p[1..]);
      assert h[..|p|][1..] == h[1..][..|p| - 1];
    }
  }

  /** Of all hexadecimal strings of its width, only `p` itself lies between `p` and its successor. */
  lemma {:induction false} OnlyItself(lead: string, p: string)
    requires IsHex(lead) && IsHex(p) && |lead| == |p|
    ensures InRange(lead, p, Successor(p)) <==> lead == p
  {
    if p != [] {
      var n := |p| - 1;
      var r, d, rest, last := lead[..n], lead[n], p[..n], p[n];
      assert lead == r + [d] && p == rest + [last];
      OnlyItself(r, rest);
      BelowByLast(r, d, rest, last);
      if last != 'f' {
        BelowByLast(r, d, rest, NextDigit(last));
        NotBelowItself(r);
      } else if Successor(rest).Some? {
        BelowByLast(r, d, Successor(rest).value, '0');
      }
    }
  }

  lemma {:induction false} NotBelowItself(s: string)
    ensures !Below(s, s)
  {
    if s != [] { NotBelowItself(s[1..]); }
  }

  /** The half-open range of a bucket holds exactly the hashes that start with it,
      whenever the hash is no shorter than the bucket. */
  lemma RangeIsPrefix(h: string, p: string)
    requires IsHex(h) && IsHex(p) && |p| <= |h|
    ensures InRange(h, p, Successor(p)) <==> StartsWith(h, p)
  {
    BelowByPrefix(h, p);
    OnlyItself(h[..|p|], p);
    if Successor(p).Some? { BelowByPrefix(h, Successor(p).value); }
  }

  /** On a shorter hash the two tests come apart. */
  lemma ShortHashDiffers()
    ensures InRange("2", "1f", Successor("1f")) && !StartsWith("2", "1f")
  {
    CarryOver("1f", 0);
    assert "1f"[..0] + [NextDigit('1')] + Zeros(1) == "20";
    assert "2"[1..] == "" && "20"[1..] == "0";
    assert Below("", "0");
  }

  // ------------------------------------------------------------------- queries

  /** The filter of a feed query. Bucket values are prefixes of the hashes. */
  datatype Query = Query(
    ctxIds: set<CtxId>,
    lineageIds: set<LineageId>,
    agentIds: set<AgentId>,
    revocationAgents: set<AgentId>,
    lineageBuckets: set<string>,
    agentBuckets: set<string>,
    kinds: set<ChangeKind>)

  predicate HasIdClause(q: Query) {
    !(q.ctxIds == {} && q.lineageIds == {} && q.agentIds == {} && q.revocationAgents == {}
      && q.lineageBuckets == {} && q.agentBuckets == {})
  }

  predicate MatchesIds(q: Query, c: Change) {
    || c.ctx in q.ctxIds
    || c.lineage in q.lineageIds
    || c.agent in q.agentIds
    || (c.kind == KeyRevocationChange && c.agent in q.revocationAgents)
  }

  predicate MatchesKind(q: Query, c: Change) {
    q.kinds == {} || c.kind in q.kinds
  }

  /** The filter as the in-memory feed evaluates it. */
  predicate Matches(q: Query, hash: string -> string, c: Change) {
    && (|| !HasIdClause(q)
        || MatchesIds(q, c)
        || (exists b :: b in q.lineageBuckets && StartsWith(hash(c.lineage.text), b))
        || (exists b :: b in q.agentBuckets && StartsWith(hash(c.agent.did), b)))
    && MatchesKind(q, c)
  }

  /** The filter as the SQL statement states it, one range per bucket. */
  predicate MatchesSql(q: Query, hash: string -> string, c: Change)
    requires forall b :: b in q.lineageBuckets + q.agentBuckets ==> IsHex(b)
  {
    && (|| !HasIdClause(q)
        || MatchesIds(q, c)
        || (exists b :: b in q.lineageBuckets && InRange(hash(c.lineage.text), b, Successor(b)))
        || (exists b :: b in q.agentBuckets && InRange(hash(c.agent.did), b, Successor(b))))
    && MatchesKind(q, c)
  }

  /** `hash` writes every digest in `n` hexadecimal digits. */
  ghost predicate Digests(hash: string -> string, n: nat) {
    forall s :: IsHex(hash(s)) && |hash(s)| == n
  }

  /** Every backend selects the same rows, buckets being no longer than a digest. */
  lemma SqlMatchesMemory(q: Query, hash: string -> string, n: nat, c: Change)
    requires Digests(hash, n)
    requires forall b :: b in q.lineageBuckets + q.agentBuckets ==> IsHex(b) && |b| <= n
    ensures MatchesSql(q, hash, c) <==> Matches(q, hash, c)
  {
    forall b | b in q.lineageBuckets
      ensures InRange(hash(c.lineage.text), b, Successor(b)) <==> StartsWith(hash(c.lineage.text), b)
    {
      RangeIsPrefix(hash(c.lineage.text), b);
    }
    forall b | b in q.agentBuckets
      ensures InRange(hash(c.agent.did), b, Successor(b)) <==> StartsWith(hash(c.agent.did), b)
    {
      RangeIsPrefix(hash(c.agent.did), b);
    }
  }

  // -------------------------------------------------------- what a filter means

  /** The row is named by one of the query's lists, whatever its kind. */
  ghost predicate Named(q: Query, hash: string -> string, c: Change) {
    || c.ctx in q.ctxIds
    || c.lineage in q.lineageIds
    || c.agent in q.agentIds
    || (c.kind == KeyRevocationChange && c.agent in q.revocationAgents)
    || (exists b :: b in q.lineageBuckets && b <= hash(c.lineage.text))
    || (exists b :: b in q.agentBuckets && b <= hash(c.agent.did))
  }

  lemma StartsWithIsPrefix(h: string, b: string)
    ensures StartsWith(h, b) <==> b <= h
  {
  }

  /** A query with any list at all selects only rows one of its lists names; one with
      none selects rows regardless of their ids; and only kinds it asks for, all of
      them when it asks for none. */
  lemma FilterSelects(q: Query, hash: string -> string, c: Change)
    ensures q.ctxIds != {} || q.lineageIds != {} || q.agentIds != {} || q.revocationAgents != {}
            || q.lineageBuckets != {} || q.agentBuckets != {} ==>
              (Matches(q, hash, c) <==> Named(q, hash, c) && (q.kinds == {} || c.kind in q.kinds))
    ensures q.ctxIds == {} && q.lineageIds == {} && q.agentIds == {} && q.revocationAgents == {}
            && q.lineageBuckets == {} && q.agentBuckets == {} ==>
              (Matches(q, hash, c) <==> q.kinds == {} || c.kind in q.kinds)
  {
    forall b
      ensures StartsWith(hash(c.lineage.text), b) <==> b <= hash(c.lineage.text)
      ensures StartsWith(hash(c.agent.did), b) <==> b <= hash(c.agent.did)
    {
      StartsWithIsPrefix(hash(c.lineage.text), b);
      StartsWithIsPrefix(hash(c.agent.did), b);
    }
  }
}
