/** `Ipv4Subnet`: a network block computed from an address and a mask with 32-bit operators. */
module Ipv4Subnet {
  import opened Prelude
  import opened Bits
  import opened Ipv4Text

  datatype Subnet = Subnet(network: UInt32, broadcast: UInt32, prefixLength: nat) {
    /** `Network + 1` and `Broadcast - 1`, wrapping as 32-bit arithmetic does. */
    function FirstHost(): UInt32 {
      if prefixLength >= 31 then network else (network + 1) % 0x1_0000_0000
    }

    function LastHost(): UInt32 {
      if prefixLength >= 31 then broadcast else (broadcast - 1) % 0x1_0000_0000
    }

    /** `(ulong)LastHost - FirstHost + 1`, in 64 bits. */
    function HostCount(): int {
      (LastHost() - FirstHost() + 1) % 0x1_0000_0000_0000_0000
    }

    predicate ContainsHost(address: UInt32) {
      FirstHost() <= address <= LastHost()
    }

    /** The block is the aligned one of `2^(32 - prefixLength)` addresses. */
    ghost predicate Valid() {
      && prefixLength <= 32
      && Aligned(network, 32 - prefixLength)
      && broadcast - network + 1 == Pow2(32 - prefixLength)
    }
  }

  datatype SubnetError = BadAddress | NotContiguous

  function Complement(bits: UInt32): UInt32 {
    0xFFFF_FFFF - bits
  }

  /** `(inverse & (inverse + 1)) == 0`; the sum is taken in 64 bits and cannot wrap. */
  predicate Contiguous(bits: UInt32) {
    And(Complement(bits), Complement(bits) + 1) == 0
  }

  /** The constructor on already parsed words. */
  function FromWords(ip: UInt32, bits: UInt32): Result<Subnet, SubnetError> {
    var inverse := Complement(bits);
    if !Contiguous(bits) then Err(NotContiguous) else
      var network := And(ip, bits) % 0x1_0000_0000;
      Ok(Subnet(network, Or(network, inverse) % 0x1_0000_0000, PopCount(bits)))
  }

  function Create(address: string, mask: string): Result<Subnet, SubnetError> {
    match (Parse(address), Parse(mask))
    case (Some(ip), Some(bits)) => FromWords(ip, bits)
    case _ => Err(BadAddress)
  }

  /** The mask with `p` leading ones. */
  ghost function Mask(p: nat): UInt32
    requires p <= 32
  {
    Pow2Is32();
    Pow2Monotone(32 - p, 32);
    Pow2(32) - Pow2(32 - p)
  }

  lemma Pow2Is32()
    ensures Pow2(32) == 0x1_0000_0000
  {
    assert Pow2(8) == 256;
    assert Pow2(16) == 0x1_0000;
    assert Pow2(24) == 0x100_0000;
  }

  /** The test on the complement accepts exactly the runs of ones followed by zeros, all zeros included. */
  lemma ContiguousIffMask(bits: UInt32)
    ensures Contiguous(bits) <==> exists p: nat :: p <= 32 && bits == Mask(p)
  {
    hide And, Pow2;
    Pow2Is32();
    var inverse := Complement(bits);
    var n: nat := 32;
    NoCarryIffLowRun(inverse, n);
    if p: nat :| p <= n && bits == Mask(p) {
      assert inverse == Pow2(n - p) - 1;
    }
    if h: nat :| h <= n && inverse == Pow2(h) - 1 {
      assert bits == Mask(n - h);
    }
  }

  lemma BlockOf(ip: UInt32, bits: UInt32, n: nat, h: nat)
    requires h <= n && Pow2(n) == 0x1_0000_0000 && bits == Pow2(n) - Pow2(h)
    ensures var start := And(ip, bits);
            && Aligned(start, h) && start <= ip < start + Pow2(h) <= 0x1_0000_0000
            && Or(start, Complement(bits)) == start + Pow2(h) - 1
            && PopCount(bits) == n - h
  {
    PopCountOfMask(n, h);
    BlockBounds(ip, n, h);
  }

  /**
   * A mask is accepted exactly when it is a run of ones followed by zeros, and the subnet is then the
   * aligned block of that prefix length around the address.
   */
  lemma SubnetIsAlignedBlock(ip: UInt32, bits: UInt32)
    ensures FromWords(ip, bits).Ok? <==> exists p: nat :: p <= 32 && bits == Mask(p)
    ensures FromWords(ip, bits).Ok? ==>
              var s := FromWords(ip, bits).value;
              s.Valid() && bits == Mask(s.prefixLength) && s.network <= ip <= s.broadcast
  {
    hide And, Or, PopCount, Pow2;
    ContiguousIffMask(bits);
    if Contiguous(bits) {
      var n: nat := 32;
      var p: nat :| p <= n && bits == Mask(p);
      Pow2Is32();
      BlockOf(ip, bits, n, n - p);
      var start := And(ip, bits);
      assert FromWords(ip, bits) == Ok(Subnet(start, start + Pow2(n - p) - 1, p));
    }
  }

  /** No host bound or count wraps, and the count is the number of addresses `ContainsHost` accepts. */
  lemma HostRange(s: Subnet)
    requires s.Valid()
    ensures s.network <= s.FirstHost() <= s.LastHost() <= s.broadcast
    ensures s.HostCount() == s.LastHost() - s.FirstHost() + 1
    ensures s.HostCount() == if s.prefixLength == 32 then 1 else if s.prefixLength == 31 then 2
                             else Pow2(32 - s.prefixLength) - 2
    ensures s.prefixLength < 31 ==>
              forall x: UInt32 :: s.ContainsHost(x) <==> s.network < x < s.broadcast
  {
    if s.prefixLength < 31 {
      Pow2Monotone(2, 32 - s.prefixLength);
      assert Pow2(2) == 4;
    } else {
      assert Pow2(0) == 1 && Pow2(1) == 2;
    }
  }

  /** The hosts of a subnet, as a set, number `HostCount`. */
  lemma HostCountCountsHosts(s: Subnet)
    requires s.Valid()
    ensures forall x: UInt32 :: s.ContainsHost(x) <==> x in Interval(s.FirstHost(), s.LastHost())
    ensures |Interval(s.FirstHost(), s.LastHost())| == s.HostCount()
  {
    HostRange(s);
  }

  /** A subnet is made of exactly the texts of an address and of a mask, and is the block of that mask around the address. */
  lemma CreateValid(address: string, mask: string)
    ensures Create(address, mask).Ok? <==>
              && Parse(address).Some? && Parse(mask).Some?
              && exists p: nat :: p <= 32 && Parse(mask).value == Mask(p)
    ensures Create(address, mask).Ok? ==>
              var s := Create(address, mask).value;
              s.Valid() && s.network <= Parse(address).value <= s.broadcast && Parse(mask).value == Mask(s.prefixLength)
  {
    hide Parse, FromWords, Mask;
    if Parse(address).Some? && Parse(mask).Some? {
      SubnetIsAlignedBlock(Parse(address).value, Parse(mask).value);
    }
  }
}
