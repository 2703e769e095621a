/**
  Overlap of two networks in prefix notation.

  An address is a number of `width` bits, 32 or 128 in practice; the width stands for the address
  family.  A network is given by an address and a prefix length; it consists of all addresses that
  agree with it in the first `prefix` bits, as section 3.1 of RFC 4632 defines it.
*/
module Cidr {
  import opened Options

  function Pow2(n: nat): (p: nat)
    ensures p > 0
  {
    if n == 0 then 1 else 2 * Pow2(n - 1)
  }

  datatype Address = Address(width: nat, bits: nat)

  /** A parsed network: the masked base address and the prefix length. */
  datatype Network = Network(width: nat, base: nat, prefix: nat)

  /** The number of addresses that share a prefix of the given length. */
  function BlockSize(width: nat, prefix: nat): (size: nat)
    requires prefix <= width
    ensures size > 0
  {
    Pow2(width - prefix)
  }

  /** `x` with its last `bits` bits cleared. */
  function Masked(x: nat, bits: nat): nat {
    if bits == 0 then x else 2 * Masked(x / 2, bits - 1)
  }

  ghost predicate WellFormed(n: Network) {
    && n.prefix <= n.width
    && n.base < Pow2(n.width)
    && Masked(n.base, n.width - n.prefix) == n.base
  }

  /** What net.ParseCIDR returns for an address with a prefix length: the host bits are cleared. */
  function Parse(a: Address, prefix: nat): Option<Network> {
    if prefix <= a.width && a.bits < Pow2(a.width) then
      Some(Network(a.width, Masked(a.bits, a.width - prefix), prefix))
    else None
  }

  /** Same width and equal after masking. */
  predicate Contains(n: Network, a: Address)
    requires n.prefix <= n.width
  {
    a.width == n.width && Masked(a.bits, n.width - n.prefix) == n.base
  }

  const IPV4: nat := 32
  const IPV6: nat := 128
  const IPV4_ADDRESSES: nat := 0x1_0000_0000

  /** An IPv4 address written in IPv6 form, ::ffff:a.b.c.d. */
  predicate Mapped(a: Address) {
    a.width == IPV6 && a.bits / IPV4_ADDRESSES == 0xFFFF
  }

  /** net.IP.To4 where it applies: such an address is the IPv4 address. */
  function To4(a: Address): Address {
    if Mapped(a) then Address(IPV4, a.bits % IPV4_ADDRESSES) else a
  }

  /** The number and mask that net.IPNet.Contains works with: IPv4 ones if the base is an IPv4 address. */
  function Normal(n: Network): Network {
    if Mapped(Address(n.width, n.base)) then
      Network(IPV4, n.base % IPV4_ADDRESSES, if n.prefix >= IPV6 - IPV4 then n.prefix - (IPV6 - IPV4) else 0)
    else n
  }

  predicate NetContains(n: Network, a: Address)
    requires n.prefix <= n.width
  {
    Contains(Normal(n), To4(a))
  }

  /** As the source decides it: parse errors count as an overlap; otherwise only the base addresses are tried. */
  function Intersect(net1: Option<Network>, net2: Option<Network>): bool
    requires net1.Some? ==> net1.value.prefix <= net1.value.width
    requires net2.Some? ==> net2.value.prefix <= net2.value.width
  {
    if net1.None? || net2.None? then true
    else
      var (a, b) := (net1.value, net2.value);
      NetContains(a, Address(b.width, b.base)) || NetContains(b, Address(a.width, a.base))
  }

  // ---------------------------------------------------------------------------------------------
  // Masking and power-of-two blocks
  // ---------------------------------------------------------------------------------------------

  /** Masking rounds down to the beginning of a block. */
  lemma {:induction false} MaskedBounds(x: nat, bits: nat)
    ensures Masked(x, bits) <= x < Masked(x, bits) + Pow2(bits)
  {
    if bits > 0 {
      MaskedBounds(x / 2, bits - 1);
    }
  }

  /** All addresses of a block have its first address in common. */
  lemma {:induction false} MaskedInBlock(base: nat, x: nat, bits: nat)
    requires Masked(base, bits) == base <= x < base + Pow2(bits)
    ensures Masked(x, bits) == base
  {
    if bits > 0 {
      MaskedInBlock(base / 2, x / 2, bits - 1);
    }
  }

  /** Masking fewer bits first makes no difference. */
  lemma {:induction false} MaskedTwice(x: nat, fewer: nat, bits: nat)
    requires fewer <= bits
    ensures Masked(Masked(x, fewer), bits) == Masked(x, bits)
  {
    if fewer > 0 {
      MaskedTwice(x / 2, fewer - 1, bits - 1);
    }
  }

  /** Masking acts only on the part below a multiple of the block size. */
  lemma {:induction false} MaskedBelow(t: nat, r: nat, bits: nat)
    requires Masked(t, bits) == t
    ensures Masked(t + r, bits) == t + Masked(r, bits)
  {
    if bits > 0 {
      MaskedBelow(t / 2, r / 2, bits - 1);
      assert (t + r) / 2 == t / 2 + r / 2;
    }
  }

  lemma {:induction false} MaskedDouble(t: nat, bits: nat)
    ensures Masked(Pow2(bits) * t, bits) == Pow2(bits) * t
  {
    if bits > 0 {
      MaskedDouble(t, bits - 1);
      assert Pow2(bits) * t == 2 * (Pow2(bits - 1) * t);
    }
  }

  // ---------------------------------------------------------------------------------------------
  // Laws
  // ---------------------------------------------------------------------------------------------

  ghost predicate IsMember(n: Network, x: nat)
    requires WellFormed(n)
  {
    n.base <= x < n.base + BlockSize(n.width, n.prefix)
  }

  /** Masking decides membership in the range of addresses that starts at the base. */
  lemma ContainsIsRange(n: Network, x: nat)
    requires WellFormed(n)
    ensures Contains(n, Address(n.width, x)) <==> IsMember(n, x)
  {
    MaskedBounds(x, n.width - n.prefix);
    if IsMember(n, x) {
      MaskedInBlock(n.base, x, n.width - n.prefix);
    }
  }

  /** Parsing yields a well-formed network that contains the parsed address. */
  lemma ParseIsWellFormed(a: Address, prefix: nat)
    requires Parse(a, prefix).Some?
    ensures WellFormed(Parse(a, prefix).value) && Contains(Parse(a, prefix).value, a)
  {
    MaskedBounds(a.bits, a.width - prefix);
    MaskedTwice(a.bits, a.width - prefix, a.width - prefix);
  }

  /** A network with the shorter prefix that shares one address with another contains all of it. */
  lemma ShorterPrefixContains(a: Network, b: Network, x: nat, y: nat)
    requires WellFormed(a) && WellFormed(b) && a.width == b.width && a.prefix <= b.prefix
    requires Contains(a, Address(a.width, x)) && Contains(b, Address(b.width, x))
    requires Contains(b, Address(b.width, y))
    ensures Contains(a, Address(a.width, y))
  {
    MaskedTwice(x, b.width - b.prefix, a.width - a.prefix);
    MaskedTwice(y, b.width - b.prefix, a.width - a.prefix);
  }

  lemma BaseIsMember(n: Network)
    requires WellFormed(n)
    ensures Contains(n, Address(n.width, n.base))
  {
  }

  lemma Pow2Of32()
    ensures Pow2(IPV4) == IPV4_ADDRESSES
  {
    assert Pow2(8) == 256;
    Pow2Adds(8, 8);
    Pow2Adds(16, 16);
  }

  lemma {:induction false} Pow2Adds(m: nat, n: nat)
    ensures Pow2(m + n) == Pow2(m) * Pow2(n)
  {
    if m > 0 {
      Pow2Adds(m - 1, n);
      assert Pow2(m + n) == 2 * Pow2(m - 1 + n);
    }
  }

  /** A masked address of an IPv6 network is an IPv4 address only if the prefix reaches into its last 32 bits. */
  lemma MappedPrefix(n: Network)
    requires WellFormed(n) && Mapped(Address(n.width, n.base))
    ensures n.prefix >= IPV6 - IPV4
  {
    if n.prefix < IPV6 - IPV4 {
      // the lowest bit of the 0xFFFF would be cleared
      MaskedFewer(n.base, IPV4 + 1, n.width - n.prefix);
      MappedIsOdd(n.base);
    }
  }

  /** What is masked already with many bits is masked with fewer. */
  lemma MaskedFewer(x: nat, fewer: nat, bits: nat)
    requires fewer <= bits && Masked(x, bits) == x
    ensures Masked(x, fewer) == x
  {
    MaskedTwice(x, fewer, bits);
    MaskedBounds(x, fewer);
    MaskedBounds(Masked(x, fewer), bits);
  }

  lemma MappedIsOdd(x: nat)
    requires x / IPV4_ADDRESSES == 0xFFFF
    ensures Masked(x, IPV4 + 1) != x
  {
    Pow2Of32();
    var base := Pow2(IPV4 + 1) * 0x7FFF;
    assert Pow2(IPV4 + 1) == 2 * IPV4_ADDRESSES;
    MaskedDouble(0x7FFF, IPV4 + 1);
    MaskedInBlock(base, x, IPV4 + 1);
  }

  lemma NormalIsWellFormed(n: Network)
    requires WellFormed(n)
    ensures WellFormed(Normal(n)) && Normal(Normal(n)) == Normal(n)
    ensures To4(Address(n.width, n.base)) == Address(Normal(n).width, Normal(n).base)
  {
    if Mapped(Address(n.width, n.base)) {
      MappedPrefix(n);
      Pow2Of32();
      var bits := n.width - n.prefix;
      var t, r := IPV4_ADDRESSES * 0xFFFF, n.base % IPV4_ADDRESSES;
      MaskedDouble(0xFFFF, IPV4);
      MaskedFewer(t, bits, IPV4);
      MaskedBelow(t, r, bits);
    }
  }

  /** Some address lies in both networks; an IPv4 address is taken in its short form. */
  ghost predicate Overlap(a: Network, b: Network)
    requires WellFormed(a) && WellFormed(b)
  {
    exists x: Address :: To4(x) == x && NetContains(a, x) && NetContains(b, x)
  }

  /** All addresses of `b` lie in `a`. */
  ghost predicate Covers(a: Network, b: Network)
    requires WellFormed(a) && WellFormed(b)
  {
    forall x: Address :: NetContains(b, x) ==> NetContains(a, x)
  }

  lemma NestedOrApart(a: Network, b: Network, x: Address)
    requires WellFormed(a) && WellFormed(b) && Contains(a, x) && Contains(b, x)
    ensures if a.prefix <= b.prefix then forall y: Address | Contains(b, y) :: Contains(a, y)
            else forall y: Address | Contains(a, y) :: Contains(b, y)
  {
    if a.prefix <= b.prefix {
      forall y: Address | Contains(b, y) ensures Contains(a, y) {
        ShorterPrefixContains(a, b, x.bits, y.bits);
      }
    } else {
      forall y: Address | Contains(a, y) ensures Contains(b, y) {
        ShorterPrefixContains(b, a, x.bits, y.bits);
      }
    }
  }

  /** Trying the two base addresses decides overlap, and networks that overlap are nested. */
  lemma IntersectDecidesOverlap(a: Network, b: Network)
    requires WellFormed(a) && WellFormed(b)
    ensures Intersect(Some(a), Some(b)) <==> Overlap(a, b)
    ensures Overlap(a, b) ==> Covers(a, b) || Covers(b, a)
  {
    var a', b' := Normal(a), Normal(b);
    NormalIsWellFormed(a);
    NormalIsWellFormed(b);
    BaseIsMember(a');
    BaseIsMember(b');
    var baseA, baseB := Address(a'.width, a'.base), Address(b'.width, b'.base);
    assert To4(baseA) == baseA && To4(baseB) == baseB;
    if Overlap(a, b) {
      var x: Address :| To4(x) == x && NetContains(a, x) && NetContains(b, x);
      NestedOrApart(a', b', x);
      if a'.prefix <= b'.prefix {
        assert Covers(a, b) && NetContains(a, Address(b.width, b.base));
      } else {
        assert Covers(b, a) && NetContains(b, Address(a.width, a.base));
      }
    }
    if NetContains(a, Address(b.width, b.base)) {
      assert To4(baseB) == baseB && NetContains(a, baseB) && NetContains(b, baseB);
    }
    if NetContains(b, Address(a.width, a.base)) {
      assert To4(baseA) == baseA && NetContains(a, baseA) && NetContains(b, baseA);
    }
  }

  /** The answer for two written networks: true exactly if one does not parse or they share an address. */
  lemma IntersectWritten(a1: Address, p1: nat, a2: Address, p2: nat)
    ensures Parse(a1, p1).Some? ==> WellFormed(Parse(a1, p1).value)
    ensures Parse(a2, p2).Some? ==> WellFormed(Parse(a2, p2).value)
    ensures Intersect(Parse(a1, p1), Parse(a2, p2)) <==>
              (Parse(a1, p1).Some? && Parse(a2, p2).Some? ==> Overlap(Parse(a1, p1).value, Parse(a2, p2).value))
    ensures Intersect(Parse(a1, p1), Parse(a2, p2)) == Intersect(Parse(a2, p2), Parse(a1, p1))
  {
    if Parse(a1, p1).Some? { ParseIsWellFormed(a1, p1); }
    if Parse(a2, p2).Some? { ParseIsWellFormed(a2, p2); }
    if Parse(a1, p1).Some? && Parse(a2, p2).Some? {
      IntersectDecidesOverlap(Parse(a1, p1).value, Parse(a2, p2).value);
    }
  }
}
