/**
 Prefix containment by masked comparison (section 3.1 of RFC 4632, section 2.3 of RFC 4291), related to address
 ranges. Addresses start from parsed bits, most significant first; a parser failure is `None`.
 */
module Cidr {
  import opened Wrappers

  datatype Family = V4 | V6

  type Bits = seq<bool>

  function Width(f: Family): nat {
    match f case V4 => 32 case V6 => 128
  }

  datatype Address = Address(family: Family, bits: Bits) {
    predicate Valid() {
      |bits| == Width(family)
    }
  }

  /** The address as written, host bits included, and the prefix length. */
  datatype Prefix = Prefix(ip: Address, len: nat) {
    predicate Valid() {
      ip.Valid() && len <= Width(ip.family)
    }
  }

  /** The second argument, told apart by the slash. */
  datatype Query = Subnet(subnet: Option<Prefix>) | Ip(ip: Option<Address>)

  // ---------- the code ----------

  function Mask(len: nat, width: nat): (m: Bits)
    ensures |m| == width && forall k :: 0 <= k < width ==> m[k] == (k < len)
  {
    seq(width, k => k < len)
  }

  function And(a: Bits, m: Bits): (r: Bits)
    requires |a| == |m|
    ensures |r| == |a| && forall k :: 0 <= k < |a| ==> r[k] == (a[k] && m[k])
  {
    seq(|a|, k requires 0 <= k < |a| => a[k] && m[k])
  }

  function Network(p: Prefix): Bits
    requires p.Valid()
  {
    And(p.ip.bits, Mask(p.len, |p.ip.bits|))
  }

  /** Masked comparison; addresses of another family never match. */
  predicate Contains(p: Prefix, a: Address)
    requires p.Valid() && a.Valid()
  {
    p.ip.family == a.family
    && And(Network(p), Mask(p.len, |a.bits|)) == And(a.bits, Mask(p.len, |a.bits|))
  }

  predicate WellFormed(prefix: Option<Prefix>, query: Query) {
    && (prefix.Some? ==> prefix.value.Valid())
    && (match query
        case Subnet(q) => q.Some? ==> q.value.Valid()
        case Ip(a) => a.Some? ==> a.value.Valid())
  }

  function PrefixContainsSubnetOrIP(prefix: Option<Prefix>, query: Query): (r: Outcome<bool>)
    requires WellFormed(prefix, query)
    ensures r.Ok? <==> prefix.Some? && query != Subnet(None) && query != Ip(None)
    ensures !r.Panic?
  {
    match prefix
    case None => Err
    case Some(p) =>
      match query
      case Subnet(None) => Err
      case Subnet(Some(q)) => Ok(Contains(p, q.ip) && (q.len == 0 || p.len <= q.len))
      case Ip(None) => Err
      case Ip(Some(a)) => Ok(Contains(p, a))
  }

  // ---------- address ranges ----------

  function Pow2(n: nat): (r: nat)
    ensures r >= 1
  {
    if n == 0 then 1 else 2 * Pow2(n - 1)
  }

  lemma {:induction false} Pow2Grows(m: nat, n: nat)
    requires m < n
    ensures Pow2(m) < Pow2(n)
    decreases n
  {
    if m >= n - 1 {
    } else {
      Pow2Grows(m, n - 1);
    }
  }

  function Val(bits: Bits): nat {
    if bits == [] then 0 else (if bits[0] then Pow2(|bits| - 1) else 0) + Val(bits[1..])
  }

  lemma {:induction false} ValBound(bits: Bits)
    ensures Val(bits) < Pow2(|bits|)
  {
    if bits == [] {
    } else {
      ValBound(bits[1..]);
    }
  }

  /** The lowest address of the block: host bits cleared. */
  function Low(bits: Bits, len: nat): nat
    requires len <= |bits|
  {
    Val(And(bits, Mask(len, |bits|)))
  }

  function High(bits: Bits, len: nat): nat
    requires len <= |bits|
  {
    Low(bits, len) + Pow2(|bits| - len) - 1
  }

  predicate InRange(p: Prefix, v: nat)
    requires p.Valid()
  {
    Low(p.ip.bits, p.len) <= v <= High(p.ip.bits, p.len)
  }

  /** Every address of q's block is an address of p's block. */
  predicate RangeInside(q: Prefix, p: Prefix)
    requires q.Valid() && p.Valid()
  {
    && q.ip.family == p.ip.family
    && Low(p.ip.bits, p.len) <= Low(q.ip.bits, q.len)
    && High(q.ip.bits, q.len) <= High(p.ip.bits, p.len)
  }

  lemma {:induction false} ValAllClear(bits: Bits)
    requires forall k :: 0 <= k < |bits| ==> !bits[k]
    ensures Val(bits) == 0
  {
    if bits == [] {
    } else {
      ValAllClear(bits[1..]);
    }
  }

  lemma {:induction false} LowStep(bits: Bits, len: nat)
    requires 0 < len <= |bits|
    ensures Low(bits, len) == (if bits[0] then Pow2(|bits| - 1) else 0) + Low(bits[1..], len - 1)
  {
    assert And(bits, Mask(len, |bits|))[1..] == And(bits[1..], Mask(len - 1, |bits| - 1));
  }

  lemma {:induction false} LowZero(bits: Bits)
    ensures Low(bits, 0) == 0
  {
    ValAllClear(And(bits, Mask(0, |bits|)));
  }

  lemma {:induction false} RangeFits(bits: Bits, len: nat)
    requires len <= |bits|
    ensures High(bits, len) < Pow2(|bits|)
    decreases len
  {
    if len == 0 {
      LowZero(bits);
    } else {
      LowStep(bits, len);
      RangeFits(bits[1..], len - 1);
    }
  }

  /** Agreement on the first `len` bits is membership in the block's range. */
  lemma {:induction false} AgreeIffInRange(n: Bits, a: Bits, len: nat)
    requires |n| == |a| && len <= |n|
    ensures n[..len] == a[..len] <==> Low(n, len) <= Val(a) <= High(n, len)
    decreases len
  {
    hide Low;
    ValBound(a);
    if len == 0 {
      LowZero(n);
    } else {
      LowStep(n, len);
      ValBound(a[1..]);
      RangeFits(n[1..], len - 1);
      AgreeIffInRange(n[1..], a[1..], len - 1);
      AgreeStep(n, a, len);
    }
  }

  lemma {:induction false} AgreeStep(n: Bits, a: Bits, len: nat)
    requires |n| == |a| && 0 < len <= |n|
    ensures n[..len] == a[..len] <==> n[0] == a[0] && n[1..][..len - 1] == a[1..][..len - 1]
  {
    assert n[..len] == [n[0]] + n[1..][..len - 1];
    assert a[..len] == [a[0]] + a[1..][..len - 1];
  }

  lemma {:induction false} ContainsIffAgree(p: Prefix, a: Address)
    requires p.Valid() && a.Valid() && p.ip.family == a.family
    ensures Contains(p, a) <==> p.ip.bits[..p.len] == a.bits[..p.len]
  {
    var m := Mask(p.len, |a.bits|);
    var x, y := And(Network(p), m), And(a.bits, m);
    if p.ip.bits[..p.len] == a.bits[..p.len] {
      forall k | 0 <= k < |x| ensures x[k] == y[k] {
        if k < p.len {
          assert p.ip.bits[..p.len][k] == a.bits[..p.len][k];
        }
      }
      assert x == y;
    }
    if x == y {
      forall k | 0 <= k < p.len ensures p.ip.bits[k] == a.bits[k] {
        assert x[k] == y[k];
      }
      assert p.ip.bits[..p.len] == a.bits[..p.len];
    }
  }

  /** Addresses of 32 and of 128 bits, prefixes no longer than these. */
  lemma {:induction false} ValidSpelled(p: Prefix)
    ensures p.Valid() <==>
      if p.ip.family == V4 then |p.ip.bits| == 32 && p.len <= 32 else |p.ip.bits| == 128 && p.len <= 128
  {
  }

  /** The same family and the same leading bits. */
  predicate Agree(p: Prefix, a: Address)
    requires p.Valid() && a.Valid()
  {
    p.ip.family == a.family && p.ip.bits[..p.len] == a.bits[..p.len]
  }

  /**
   The whole answer without masks: an error exactly for what does not parse, else whether the leading bits agree
   and, for a subnet, whether its length is 0 or no shorter than the prefix.
   */
  lemma {:induction false} AnswerByLeadingBits(prefix: Option<Prefix>, query: Query)
    requires WellFormed(prefix, query)
    ensures var r := PrefixContainsSubnetOrIP(prefix, query);
      match prefix
      case None => r == Err
      case Some(p) =>
        match query
        case Subnet(None) => r == Err
        case Subnet(Some(q)) => r == Ok(Agree(p, q.ip) && (q.len == 0 || p.len <= q.len))
        case Ip(None) => r == Err
        case Ip(Some(a)) => r == Ok(Agree(p, a))
  {
    if prefix.Some? {
      var p := prefix.value;
      match query
      case Subnet(Some(q)) => AgreeIffContains(p, q.ip);
      case Ip(Some(a)) => AgreeIffContains(p, a);
      case _ =>
    }
  }

  lemma {:induction false} AgreeIffContains(p: Prefix, a: Address)
    requires p.Valid() && a.Valid()
    ensures Contains(p, a) <==> Agree(p, a)
  {
    if p.ip.family == a.family {
      ContainsIffAgree(p, a);
    }
  }

  /** Masked comparison decides membership in the prefix's address range. */
  lemma {:induction false} ContainsIffInRange(p: Prefix, a: Address)
    requires p.Valid() && a.Valid()
    ensures Contains(p, a) <==> p.ip.family == a.family && InRange(p, Val(a.bits))
  {
    if p.ip.family == a.family {
      ContainsIffAgree(p, a);
      AgreeIffInRange(p.ip.bits, a.bits, p.len);
    }
  }

  lemma {:induction false} LowIsAgreed(p: Bits, q: Bits, plen: nat, qlen: nat)
    requires |p| == |q| && plen <= qlen <= |p| && p[..plen] == q[..plen]
    ensures Low(p, plen) <= Low(q, qlen) && High(q, qlen) <= High(p, plen)
    decreases plen
  {
    if plen == 0 {
      LowZero(p);
      RangeFits(q, qlen);
    } else {
      LowStep(p, plen);
      LowStep(q, qlen);
      assert p[..plen][0] == q[..plen][0];
      assert p[1..][..plen - 1] == p[..plen][1..];
      assert q[1..][..plen - 1] == q[..plen][1..];
      LowIsAgreed(p[1..], q[1..], plen - 1, qlen - 1);
    }
  }

  /** Containment of blocks: the sub-block's address matches and its prefix is no shorter. */
  lemma {:induction false} InsideIff(p: Prefix, q: Prefix)
    requires p.Valid() && q.Valid()
    ensures RangeInside(q, p) <==> Contains(p, q.ip) && p.len <= q.len
  {
    if p.ip.family == q.ip.family {
      ContainsIffAgree(p, q.ip);
      if Contains(p, q.ip) && p.len <= q.len {
        LowIsAgreed(p.ip.bits, q.ip.bits, p.len, q.len);
      }
      if RangeInside(q, p) {
        InsideMatches(p, q);
      }
    }
  }

  lemma {:induction false} InsideMatches(p: Prefix, q: Prefix)
    requires p.Valid() && q.Valid() && RangeInside(q, p)
    ensures Contains(p, q.ip) && p.len <= q.len
  {
    hide Contains, Low;
    AgreeIffInRange(q.ip.bits, q.ip.bits, q.len);
    ContainsIffInRange(p, q.ip);
    if q.len < p.len {
      Pow2Grows(|p.ip.bits| - p.len, |p.ip.bits| - q.len);
    }
  }

  /**
   For all inputs: the answer for a subnet is right unless the subnet is written with length 0, the prefix is
   longer, and the written address happens to match; exactly then the answer is a wrong yes.
   */
  lemma {:induction false} SubnetAnswerIsRightIff(p: Prefix, q: Prefix)
    requires p.Valid() && q.Valid()
    ensures PrefixContainsSubnetOrIP(Some(p), Subnet(Some(q))) == Ok(RangeInside(q, p))
       <==> !(q.len == 0 && p.len > 0 && Contains(p, q.ip))
  {
    InsideIff(p, q);
  }

  /** 10.0.0.0/8 is said to contain 10.0.0.0/0, the whole address space. */
  lemma {:induction false} ZeroLengthSubnetIsMisjudged() returns (p: Prefix, q: Prefix)
    ensures p.Valid() && q.Valid() && p.len == 8 && q.len == 0
    ensures PrefixContainsSubnetOrIP(Some(p), Subnet(Some(q))) == Ok(true) && !RangeInside(q, p)
  {
    var bits: Bits := seq(32, k => k == 4 || k == 6);
    var ten := Address(V4, bits);
    p, q := Prefix(ten, 8), Prefix(ten, 0);
    ContainsIffAgree(p, ten);
    InsideIff(p, q);
  }

  /** For an address the answer is always right. */
  lemma {:induction false} AddressAnswerIsRight(p: Prefix, a: Address)
    requires p.Valid() && a.Valid()
    ensures PrefixContainsSubnetOrIP(Some(p), Ip(Some(a)))
         == Ok(p.ip.family == a.family && InRange(p, Val(a.bits)))
  {
    ContainsIffInRange(p, a);
  }

  // ---------- the order it induces ----------

  predicate Yes(p: Prefix, q: Prefix)
    requires p.Valid() && q.Valid()
  {
    PrefixContainsSubnetOrIP(Some(p), Subnet(Some(q))) == Ok(true)
  }

  predicate Proper(p: Prefix, q: Prefix) {
    q.len > 0 || p.len == 0
  }

  lemma {:induction false} ContainmentIsReflexive(p: Prefix)
    requires p.Valid()
    ensures Yes(p, p)
  {
    ContainsIffAgree(p, p.ip);
  }

  lemma {:induction false} ContainmentIsTransitive(p: Prefix, q: Prefix, r: Prefix)
    requires p.Valid() && q.Valid() && r.Valid() && Proper(p, q) && Proper(q, r)
    requires Yes(p, q) && Yes(q, r)
    ensures Yes(p, r) && Proper(p, r)
  {
    InsideIff(p, q);
    InsideIff(q, r);
    InsideIff(p, r);
  }

  /** Mutual containment means the same network: equal lengths and equal masked bits. */
  lemma {:induction false} ContainmentIsAntisymmetric(p: Prefix, q: Prefix)
    requires p.Valid() && q.Valid() && Proper(p, q) && Proper(q, p)
    requires Yes(p, q) && Yes(q, p)
    ensures p.ip.family == q.ip.family && p.len == q.len && Network(p) == Network(q)
  {
    ContainsIffAgree(p, q.ip);
    forall k | 0 <= k < |p.ip.bits| ensures Network(p)[k] == Network(q)[k] {
      if k < p.len {
        assert p.ip.bits[..p.len][k] == q.ip.bits[..p.len][k];
      }
    }
  }
}
