/** IPv4 subnets and the packet filter's view of them. Addresses are 32-bit words. */
module Cidr {
  import opened Bits

  type Word = n: int | 0 <= n < WORD

  datatype Option<+T> = None | Some(value: T)

  datatype Cidr = Cidr(address: Word, prefix: nat) {
    predicate Valid() { prefix <= 32 }

    function Mask(): nat
      requires Valid()
    {
      if prefix == 0 then 0 else ShiftLeft(WORD - 1, 32 - prefix)
    }

    function Network(): nat
      requires Valid()
    {
      And(address, Mask())
    }

    predicate Contains(a: Word)
      requires Valid()
    {
      And(a, Mask()) == Network()
    }

    function Broadcast(): nat
      requires Valid()
    {
      MaskIsOnes(prefix);
      Or(Network(), Not(Mask()))
    }
  }

  /** The number of addresses under a prefix. */
  function Size(prefix: nat): nat
    requires prefix <= 32
  {
    Pow2(32 - prefix)
  }

  lemma RemainderAtMost(a: nat, p: nat)
    requires p > 0
    ensures a % p <= a
  {
    if a < p { DivModUnique(a, p, 0, a); }
  }

  /** The first address of the aligned interval an address lies in. */
  function Base(a: Word, prefix: nat): nat
    requires prefix <= 32
  {
    RemainderAtMost(a, Size(prefix));
    a - a % Size(prefix)
  }

  lemma MaskIsOnes(prefix: nat)
    requires prefix <= 32
    ensures Cidr(0, prefix).Mask() == WORD - Size(prefix) && 0 < Size(prefix) <= WORD
  {
    WordIsPow2();
    PowMonotone(32 - prefix, 32);
    var p := Size(prefix);
    if prefix > 0 {
      PowMonotone(32 - prefix, 31);
      assert (WORD - 1) * p == (p - 1) * WORD + (WORD - p);
      DivModUnique((WORD - 1) * p, WORD, p - 1, WORD - p);
    }
  }

  lemma MaskedIsBase(a: Word, prefix: nat)
    requires prefix <= 32
    ensures And(a, Cidr(0, prefix).Mask()) == Base(a, prefix)
  {
    MaskIsOnes(prefix);
    WordIsPow2();
    MaskClears(a, 32, 32 - prefix);
  }

  /** Within one aligned interval, and only there, the base is the same. */
  lemma SameBase(a: nat, b: nat, p: nat)
    requires p > 0
    ensures a - a % p == b - b % p <==> b - b % p <= a < b - b % p + p
  {
    var q, r := b / p, b % p;
    assert b == q * p + r;
    assert a == a / p * p + a % p;
    if q * p <= a < q * p + p { DivModUnique(a, p, q, a - q * p); }
  }

  /** The aligned interval lies inside the address space. */
  lemma IntervalFits(a: Word, prefix: nat)
    requires prefix <= 32
    ensures Base(a, prefix) % Size(prefix) == 0
    ensures Base(a, prefix) + Size(prefix) <= WORD
  {
    var p, count := Size(prefix), Pow2(prefix);
    WordIsPow2();
    PowSum(prefix, 32 - prefix);
    assert WORD == count * p;
    MultipleBelow(a, p, count);
  }

  /** The multiple at or below a number under a whole number of steps. */
  lemma MultipleBelow(a: nat, p: nat, count: nat)
    requires p > 0 && a < count * p
    ensures a - a % p + p <= count * p && (a - a % p) % p == 0
  {
    var q := a / p;
    assert a == q * p + a % p;
    if q > count { MulStep(count, q, p); }
    if q < count { MulStep(q, count, p); }
    DivModUnique(q * p, p, q, 0);
  }

  /** A subnet holds exactly the 2^(32-prefix) addresses from its network address up,
      the broadcast address being the last (section 3.1 of RFC 4632). */
  lemma ContainsIsInterval(c: Cidr, a: Word)
    requires c.Valid()
    ensures c.Network() == Base(c.address, c.prefix)
    ensures c.Broadcast() == c.Network() + Size(c.prefix) - 1 < WORD
    ensures c.Contains(a) <==> c.Network() <= a < c.Network() + Size(c.prefix)
  {
    MaskIsOnes(c.prefix);
    MaskedIsBase(c.address, c.prefix);
    MaskedIsBase(a, c.prefix);
    SameBase(a, c.address, Size(c.prefix));
    IntervalFits(c.address, c.prefix);
    OrFills(Base(c.address, c.prefix), 32 - c.prefix);
  }

  // ----- the packet filter's view -----

  /** Network byte order. */
  function Octets(a: Word): seq<nat> {
    [a / 0x100 / 0x100 / 0x100, a / 0x100 / 0x100 % 0x100, a / 0x100 % 0x100, a % 0x100]
  }

  function FromOctets(a: nat, b: nat, c: nat, d: nat): nat {
    0x100 * (0x100 * (0x100 * a + b) + c) + d
  }

  lemma OctetsOf(n: Word, a: nat, b: nat, c: nat, d: nat)
    requires a < 0x100 && b < 0x100 && c < 0x100 && d < 0x100
    ensures n == FromOctets(a, b, c, d) <==> Octets(n) == [a, b, c, d]
  {
    var o := Octets(n);
    assert n == FromOctets(o[0], o[1], o[2], o[3]);
    if n == FromOctets(a, b, c, d) {
      var n1, n2 := 0x100 * (0x100 * a + b) + c, 0x100 * a + b;
      assert n / 0x100 == n1 && n % 0x100 == d;
      assert n1 / 0x100 == n2 && n1 % 0x100 == c;
      assert n2 / 0x100 == a && n2 % 0x100 == b;
    }
  }

  /** What the bitwise and compare expressions of a rule do with the four payload
      bytes: mask, exclusive-or with zero, compare. */
  predicate RuleMatches(payload: seq<nat>, mask: seq<nat>, value: seq<nat>)
    requires |payload| == |mask| == |value|
  {
    forall i :: 0 <= i < |payload| ==> Xor(And(payload[i], mask[i]), 0) == value[i]
  }

  lemma {:induction false} AndBound(x: nat, y: nat)
    ensures And(x, y) <= x && And(x, y) <= y
  {
    if x != 0 && y != 0 { AndBound(x / 2, y / 2); }
  }

  /** One more octet at the low end. */
  lemma AndOctet(x: nat, y: nat)
    ensures And(x, y) == 0x100 * And(x / 0x100, y / 0x100) + And(x % 0x100, y % 0x100)
  {
    assert Pow2(8) == 0x100;
    AndParts(8, x / 0x100, x % 0x100, y / 0x100, y % 0x100);
  }

  lemma AndOctets(a: Word, m: Word)
    ensures And(a, m) < WORD
    ensures var x, y := Octets(a), Octets(m);
            Octets(And(a, m)) == [And(x[0], y[0]), And(x[1], y[1]), And(x[2], y[2]), And(x[3], y[3])]
  {
    AndBound(a, m);
    var x, y := Octets(a), Octets(m);
    AndBound(x[0], y[0]);
    AndBound(x[1], y[1]);
    AndBound(x[2], y[2]);
    AndBound(x[3], y[3]);
    AndOctet(a, m);
    AndOctet(a / 0x100, m / 0x100);
    AndOctet(a / 0x100 / 0x100, m / 0x100 / 0x100);
    OctetsOf(And(a, m), And(x[0], y[0]), And(x[1], y[1]), And(x[2], y[2]), And(x[3], y[3]));
  }

  lemma OctetsInjective(a: Word, b: Word)
    requires Octets(a) == Octets(b)
    ensures a == b
  {
    var o := Octets(a);
    OctetsOf(a, o[0], o[1], o[2], o[3]);
    OctetsOf(b, o[0], o[1], o[2], o[3]);
  }

  lemma RuleOnOctets(x: seq<nat>, y: seq<nat>, v: seq<nat>, masked: seq<nat>)
    requires |x| == |y| == |v| == 4
    requires masked == [And(x[0], y[0]), And(x[1], y[1]), And(x[2], y[2]), And(x[3], y[3])]
    ensures RuleMatches(x, y, v) <==> masked == v
  {
    forall i | 0 <= i < 4 ensures Xor(And(x[i], y[i]), 0) == masked[i] {
      XorZero(masked[i]);
    }
  }

  /** A rule masks the address as a whole. */
  lemma RuleMasks(a: Word, m: Word, v: Word)
    ensures RuleMatches(Octets(a), Octets(m), Octets(v)) <==> And(a, m) == v
  {
    AndOctets(a, m);
    RuleOnOctets(Octets(a), Octets(m), Octets(v), Octets(And(a, m)));
    if Octets(And(a, m)) == Octets(v) { OctetsInjective(And(a, m), v); }
  }

  /** The rules match a packet exactly when its address belongs to the subnet,
      provided the subnet is written with its network address. */
  lemma RuleMatchesSubnet(c: Cidr, a: Word)
    requires c.Valid() && c.address == c.Network()
    ensures c.Mask() < WORD
    ensures RuleMatches(Octets(a), Octets(c.Mask()), Octets(c.address)) <==> c.Contains(a)
  {
    MaskIsOnes(c.prefix);
    RuleMasks(a, c.Mask(), c.address);
  }

  /** Otherwise no packet matches at all. */
  lemma UnalignedNeverMatches(c: Cidr, a: Word)
    requires c.Valid() && c.address != c.Network()
    ensures c.Mask() < WORD && !RuleMatches(Octets(a), Octets(c.Mask()), Octets(c.address))
  {
    MaskIsOnes(c.prefix);
    RuleMasks(a, c.Mask(), c.address);
    MaskedIsBase(a, c.prefix);
    MaskedIsBase(c.address, c.prefix);
    IntervalFits(a, c.prefix);
  }
}
