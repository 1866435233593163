/** Which addresses the fetcher dials: mask tests over 32-bit addresses, and the 16-byte
    forms that carry one. */
module PublicIp {

  /** A CIDR block: an address and the mask of its prefix. */
  datatype Cidr = Cidr(net: bv32, mask: bv32)

  const BLOCK_COUNT := 14

  /** The blocks refused, in the order they are tested. */
  function Block(i: nat): Cidr
    requires i < BLOCK_COUNT
  {
    match i
    case 0 => Cidr(0x0a00_0000, 0xff00_0000)   // 10.0.0.0/8
    case 1 => Cidr(0xac10_0000, 0xfff0_0000)   // 172.16.0.0/12
    case 2 => Cidr(0xc0a8_0000, 0xffff_0000)   // 192.168.0.0/16
    case 3 => Cidr(0x7f00_0000, 0xff00_0000)   // 127.0.0.0/8
    case 4 => Cidr(0xa9fe_0000, 0xffff_0000)   // 169.254.0.0/16
    case 5 => Cidr(0x0000_0000, 0xff00_0000)   // 0.0.0.0/8
    case 6 => Cidr(0x6440_0000, 0xffc0_0000)   // 100.64.0.0/10
    case 7 => Cidr(0xc000_0000, 0xffff_ff00)   // 192.0.0.0/24
    case 8 => Cidr(0xc000_0200, 0xffff_ff00)   // 192.0.2.0/24
    case 9 => Cidr(0xc612_0000, 0xfffe_0000)   // 198.18.0.0/15
    case 10 => Cidr(0xc633_6400, 0xffff_ff00)   // 198.51.100.0/24
    case 11 => Cidr(0xcb00_7100, 0xffff_ff00)   // 203.0.113.0/24
    case 12 => Cidr(0xe000_0000, 0xf000_0000)   // 224.0.0.0/4
    case _ => Cidr(0xf000_0000, 0xf000_0000)   // 240.0.0.0/4
  }

  /** The first and last address of each block. */
  function Interval(i: nat): (bv32, bv32)
    requires i < BLOCK_COUNT
  {
    match i
    case 0 => (0x0a00_0000, 0x0aff_ffff)
    case 1 => (0xac10_0000, 0xac1f_ffff)
    case 2 => (0xc0a8_0000, 0xc0a8_ffff)
    case 3 => (0x7f00_0000, 0x7fff_ffff)
    case 4 => (0xa9fe_0000, 0xa9fe_ffff)
    case 5 => (0x0000_0000, 0x00ff_ffff)
    case 6 => (0x6440_0000, 0x647f_ffff)
    case 7 => (0xc000_0000, 0xc000_00ff)
    case 8 => (0xc000_0200, 0xc000_02ff)
    case 9 => (0xc612_0000, 0xc613_ffff)
    case 10 => (0xc633_6400, 0xc633_64ff)
    case 11 => (0xcb00_7100, 0xcb00_71ff)
    case 12 => (0xe000_0000, 0xefff_ffff)
    case _ => (0xf000_0000, 0xffff_ffff)
  }

  predicate InBlock(i: nat, ip: bv32)
    requires i < BLOCK_COUNT
  {
    ip & Block(i).mask == Block(i).net & Block(i).mask
  }

  predicate InInterval(i: nat, ip: bv32)
    requires i < BLOCK_COUNT
  {
    Interval(i).0 <= ip <= Interval(i).1
  }

  predicate Public4(ip: bv32) {
    forall i :: 0 <= i < BLOCK_COUNT ==> !InBlock(i, ip)
  }

  method IsPublicIPv4(ip: bv32) returns (public: bool)
    ensures public == Public4(ip)
  {
    var i := 0;
    while i < BLOCK_COUNT
      invariant 0 <= i <= BLOCK_COUNT
      invariant forall j :: 0 <= j < i ==> !InBlock(j, ip)
    {
      if InBlock(i, ip) {
        return false;
      }
      i := i + 1;
    }
    return true;
  }

  /** A mask test and an interval test that agree. */
  predicate Agrees(i: nat, ip: bv32)
    requires i < BLOCK_COUNT
  {
    InBlock(i, ip) <==> InInterval(i, ip)
  }

  // The blocks one by one, each over all 2^32 addresses.

  lemma Mask0(ip: bv32)
    ensures Agrees(0, ip)
  {
  }

  lemma Mask1(ip: bv32)
    ensures Agrees(1, ip)
  {
  }

  lemma Mask2(ip: bv32)
    ensures Agrees(2, ip)
  {
  }

  lemma Mask3(ip: bv32)
    ensures Agrees(3, ip)
  {
  }

  lemma Mask4(ip: bv32)
    ensures Agrees(4, ip)
  {
  }

  lemma Mask5(ip: bv32)
    ensures Agrees(5, ip)
  {
  }

  lemma Mask6(ip: bv32)
    ensures Agrees(6, ip)
  {
  }

  lemma Mask7(ip: bv32)
    ensures Agrees(7, ip)
  {
  }

  lemma Mask8(ip: bv32)
    ensures Agrees(8, ip)
  {
  }

  lemma Mask9(ip: bv32)
    ensures Agrees(9, ip)
  {
  }

  lemma Mask10(ip: bv32)
    ensures Agrees(10, ip)
  {
  }

  lemma Mask11(ip: bv32)
    ensures Agrees(11, ip)
  {
  }

  lemma Mask12(ip: bv32)
    ensures Agrees(12, ip)
  {
  }

  lemma Mask13(ip: bv32)
    ensures Agrees(13, ip)
  {
  }

  lemma MasksAgree(ip: bv32)
    ensures forall i :: 0 <= i < BLOCK_COUNT ==> Agrees(i, ip)
  {
    Mask0(ip);
    Mask1(ip);
    Mask2(ip);
    Mask3(ip);
    Mask4(ip);
    Mask5(ip);
    Mask6(ip);
    Mask7(ip);
    Mask8(ip);
    Mask9(ip);
    Mask10(ip);
    Mask11(ip);
    Mask12(ip);
    Mask13(ip);
  }

  /** Public means outside all fourteen intervals. */
  lemma PublicIsOutsideIntervals(ip: bv32)
    ensures Public4(ip) <==> forall i :: 0 <= i < BLOCK_COUNT ==> !InInterval(i, ip)
  {
    forall i | 0 <= i < BLOCK_COUNT
      ensures InBlock(i, ip) <==> InInterval(i, ip)
    {
      MasksAgree(ip);
      assert Agrees(i, ip);
    }
  }

  lemma ApartFirst(i: nat, j: nat)
    requires i < j < BLOCK_COUNT && i < 3
    ensures Apart(Interval(i), Interval(j))
  {
  }

  lemma ApartMiddle(i: nat, j: nat)
    requires i < j < BLOCK_COUNT && 3 <= i < 6
    ensures Apart(Interval(i), Interval(j))
  {
  }

  lemma ApartLast(i: nat, j: nat)
    requires i < j < BLOCK_COUNT && 6 <= i
    ensures Apart(Interval(i), Interval(j))
  {
  }

  predicate Apart(a: (bv32, bv32), b: (bv32, bv32)) { a.1 < b.0 || b.1 < a.0 }

  /** The intervals are pairwise disjoint. */
  lemma IntervalsAreDisjoint(i: nat, j: nat)
    requires i < j < BLOCK_COUNT
    ensures Apart(Interval(i), Interval(j))
  {
    if i < 3 {
      ApartFirst(i, j);
    } else if i < 6 {
      ApartMiddle(i, j);
    } else {
      ApartLast(i, j);
    }
  }

  // ---- sixteen-byte addresses ------------------------------------------------------------

  /** A parsed address: four bytes, or sixteen as two halves. */
  datatype Ip = V4(v4: bv32) | V16(hi: bv64, lo: bv64)

  /** The IPv4-mapped range of section 2.5.5.2 of RFC 4291 stands for the address it carries. */
  predicate Carries4(ip: Ip) { ip.V4? || (ip.hi == 0 && ip.lo >> 32 == 0xffff) }

  function To4(ip: Ip): bv32
    requires Carries4(ip)
  {
    match ip
    case V4(a) => a
    case V16(_, lo) => (lo & 0xffff_ffff) as bv32
  }

  predicate Loopback4(a: bv32) { a >> 24 == 127 }
  predicate LinkLocalUnicast4(a: bv32) { a >> 16 == 0xa9fe }
  predicate LinkLocalMulticast4(a: bv32) { a >> 8 == 0xe0_0000 }
  predicate Private4(a: bv32) { a >> 24 == 10 || a >> 20 == 0xac1 || a >> 16 == 0xc0a8 }
  predicate Multicast4(a: bv32) { a >> 28 == 0xe }
  predicate Unspecified4(a: bv32) { a == 0 }

  predicate Loopback(ip: Ip) {
    if Carries4(ip) then Loopback4(To4(ip)) else ip.hi == 0 && ip.lo == 1
  }

  predicate LinkLocalUnicast(ip: Ip) {
    if Carries4(ip) then LinkLocalUnicast4(To4(ip)) else ip.hi >> 54 == 0x3fa
  }

  predicate LinkLocalMulticast(ip: Ip) {
    if Carries4(ip) then LinkLocalMulticast4(To4(ip)) else ip.hi >> 56 == 0xff && (ip.hi >> 48) & 0xf == 2
  }

  predicate Private(ip: Ip) {
    if Carries4(ip) then Private4(To4(ip)) else ip.hi >> 57 == 0x7e
  }

  predicate Multicast(ip: Ip) {
    if Carries4(ip) then Multicast4(To4(ip)) else ip.hi >> 56 == 0xff
  }

  predicate Unspecified(ip: Ip) {
    if Carries4(ip) then Unspecified4(To4(ip)) else ip.hi == 0 && ip.lo == 0
  }

  predicate InterfaceLocalMulticast(ip: Ip) {
    !Carries4(ip) && ip.hi >> 56 == 0xff && (ip.hi >> 48) & 0xf == 1
  }

  predicate IsPublic(ip: Ip) {
    if Loopback(ip) || LinkLocalUnicast(ip) || LinkLocalMulticast(ip) then false
    else if Private(ip) || Multicast(ip) || Unspecified(ip) then false
    else if InterfaceLocalMulticast(ip) then false
    else if Carries4(ip) then Public4(To4(ip))
    else true
  }

  lemma LoopbackIsListed(a: bv32)
    requires Loopback4(a) || Unspecified4(a)
    ensures InBlock(3, a) || InBlock(5, a)
  {
  }

  lemma LinkLocalIsListed(a: bv32)
    requires LinkLocalUnicast4(a)
    ensures InBlock(4, a)
  {
  }

  lemma PrivateIsListed(a: bv32)
    requires Private4(a)
    ensures InBlock(0, a) || InBlock(1, a) || InBlock(2, a)
  {
  }

  lemma MulticastIsListed(a: bv32)
    requires LinkLocalMulticast4(a) || Multicast4(a)
    ensures InBlock(12, a)
  {
  }

  /** For any address that carries an IPv4 one, the checks before the block list change
      nothing: the block list alone decides. */
  lemma NamedChecksAreRedundant(ip: Ip)
    requires Carries4(ip)
    ensures IsPublic(ip) == Public4(To4(ip))
  {
    var a := To4(ip);
    if Loopback4(a) || Unspecified4(a) {
      LoopbackIsListed(a);
    } else if LinkLocalUnicast4(a) {
      LinkLocalIsListed(a);
    } else if Private4(a) {
      PrivateIsListed(a);
    } else if LinkLocalMulticast4(a) || Multicast4(a) {
      MulticastIsListed(a);
    }
  }

  /** The mapped range is 2^32 addresses in a row, the last of ::ffff:0:0/96. */
  lemma MappedRange(hi: bv64, lo: bv64)
    ensures Carries4(V16(hi, lo)) <==> hi == 0 && 0xffff_0000_0000 <= lo <= 0xffff_ffff_ffff
    ensures Carries4(V16(hi, lo)) ==> To4(V16(hi, lo)) as bv64 == lo - 0xffff_0000_0000
  {
  }

  /** The other IPv6 addresses, by their upper halves: refused are exactly :: and ::1, the
      unique local fc00::/7, the link-local fe80::/10 and the multicast ff00::/8. */
  lemma PublicV6IsOutsideIntervals(hi: bv64, lo: bv64)
    requires !Carries4(V16(hi, lo))
    ensures IsPublic(V16(hi, lo)) <==>
              && !(hi == 0 && lo <= 1)
              && !(0xfc00_0000_0000_0000 <= hi <= 0xfdff_ffff_ffff_ffff)
              && !(0xfe80_0000_0000_0000 <= hi <= 0xfebf_ffff_ffff_ffff)
              && hi < 0xff00_0000_0000_0000
  {
    PrefixTests(hi);
  }

  lemma PrefixTests(hi: bv64)
    ensures hi >> 57 == 0x7e <==> 0xfc00_0000_0000_0000 <= hi <= 0xfdff_ffff_ffff_ffff
    ensures hi >> 54 == 0x3fa <==> 0xfe80_0000_0000_0000 <= hi <= 0xfebf_ffff_ffff_ffff
    ensures hi >> 56 == 0xff <==> 0xff00_0000_0000_0000 <= hi
  {
  }
}
