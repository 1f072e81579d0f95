/** The subnet arithmetic the LAN server uses: an interface address with a prefix length. */
module Ipv4Nets {
  import opened Common

  datatype Subnet = Subnet(addr: Ip, prefix: nat)

  type Ipv4Net = n: Subnet | n.prefix <= 32 witness Subnet(0, 0)

  function Size(net: Ipv4Net): (size: nat)
    ensures size > 0
  {
    Pow2(32 - net.prefix)
  }

  /** `a` with the bits below the block size cleared. */
  function BlockStart(a: nat, size: nat): nat
    requires size > 0
  {
    a - a % size
  }

  lemma BlockStartIsAligned(a: nat, size: nat)
    requires size > 0
    ensures BlockStart(a, size) % size == 0
  {
    var start := BlockStart(a, size);
    var k := a / size - start / size;
    assert k * size == start % size;
    SmallMultipleIsZero(k, size);
  }

  lemma SmallMultipleIsZero(k: int, size: nat)
    requires 0 <= k * size < size
    ensures k * size == 0
  {
    assert k >= 1 ==> k * size >= size;
  }

  lemma BlockStaysInside(a: nat, size: nat, blocks: nat)
    requires size > 0 && a < blocks * size
    ensures BlockStart(a, size) + size <= blocks * size
  {
    var block := a / size;
    assert a == block * size + a % size;
    assert block < blocks;
    assert (block + 1) * size <= blocks * size;
  }

  /** The aligned block of `Size` addresses around `addr` stays within 32 bits. */
  lemma BlockFits(net: Ipv4Net)
    ensures BlockStart(net.addr, Size(net)) + Size(net) <= U32_SIZE
  {
    assert Pow2(net.prefix) * Size(net) == U32_SIZE by {
      Pow2Sum(net.prefix, 32 - net.prefix);
      Pow2At32();
    }
    BlockStaysInside(net.addr, Size(net), Pow2(net.prefix));
  }

  function Network(net: Ipv4Net): (ip: Ip)
    ensures ip <= net.addr < ip + Size(net) <= U32_SIZE
    ensures ip % Size(net) == 0
  {
    BlockFits(net);
    BlockStartIsAligned(net.addr, Size(net));
    BlockStart(net.addr, Size(net))
  }

  function Broadcast(net: Ipv4Net): (ip: Ip)
    ensures net.addr <= ip
  {
    Network(net) + Size(net) - 1
  }

  predicate Contains(net: Ipv4Net, ip: Ip) {
    Network(net) <= ip <= Broadcast(net)
  }

  /**
   * Hosts leave out the network and broadcast addresses, except on the two
   * smallest subnets, where every address is a host.
   */
  predicate IsHost(net: Ipv4Net, ip: Ip) {
    FirstHost(net) <= ip <= LastHost(net)
  }

  function FirstHost(net: Ipv4Net): (n: nat)
    ensures Network(net) <= n
  {
    if net.prefix < 31 then Network(net) + 1 else Network(net)
  }

  function LastHost(net: Ipv4Net): (n: int)
    ensures n <= Broadcast(net)
  {
    if net.prefix < 31 then Broadcast(net) - 1 else Broadcast(net)
  }

  /**
   * Below a prefix length of 31 the hosts are the subnet's addresses without the first and the
   * last; otherwise they are all its addresses.
   */
  lemma HostsOfSubnet(net: Ipv4Net, ip: Ip)
    ensures Contains(net, ip) <==> net.addr / Pow2(32 - net.prefix) == ip / Pow2(32 - net.prefix)
    ensures IsHost(net, ip) <==>
            && Contains(net, ip)
            && (net.prefix < 31 ==> ip > 0 && Contains(net, ip - 1) && ip + 1 < U32_SIZE && Contains(net, ip + 1))
  {
    SameBlock(net.addr, ip, Size(net));
  }

  /** Two addresses lie in one block when they have the same quotient. */
  lemma SameBlock(a: nat, b: nat, size: nat)
    requires size > 0
    ensures BlockStart(a, size) <= b < BlockStart(a, size) + size <==> a / size == b / size
  {
    var start := BlockStart(a, size);
    assert start == (a / size) * size;
    assert b == (b / size) * size + b % size;
    if start <= b < start + size {
      QuotientIs(b, size, a / size);
    }
  }

  lemma QuotientIs(b: nat, size: nat, q: nat)
    requires size > 0 && q * size <= b < q * size + size
    ensures b / size == q
  {
    var k := b / size - q;
    assert b == (b / size) * size + b % size;
    assert k * size == b - b % size - q * size;
    assert k >= 1 ==> k * size >= size;
    assert k <= -1 ==> (-k) * size >= size;
  }

  ghost function Addresses(net: Ipv4Net): (s: set<int>)
    ensures |s| == Size(net)
    ensures forall ip: Ip :: ip in s <==> Contains(net, ip)
  {
    RangeSize(Network(net), Network(net) + Size(net));
    Range(Network(net), Network(net) + Size(net))
  }

  ghost function Hosts(net: Ipv4Net): (s: set<int>)
    ensures forall ip: Ip :: ip in s <==> IsHost(net, ip)
    ensures forall n :: n in s ==> 0 <= n < U32_SIZE
  {
    Range(FirstHost(net), LastHost(net) + 1)
  }
}
