/** IPv4 addresses as `WifiManager` and `DhcpInfo` hand them to
    `MainActivity`: a 32-bit `int` whose LOW byte is the FIRST octet, printed
    low byte first by `getIpAddress` and `getSubnetBroadcastAddress`. */
module NetAddress {
  import opened Wrappers
  import opened JavaText

  type byte = bv8

  datatype Octets = Octets(o1: byte, o2: byte, o3: byte, o4: byte)

  /** `(x & 0xff)`, `(x >> 8 & 0xff)`, `(x >> 16 & 0xff)`, `(x >> 24 & 0xff)`:
      the octets in printing order. (Java's `>>` is arithmetic, but the mask
      keeps only the eight bits a logical shift gives as well.) */
  function OctetsOf(x: bv32): Octets {
    Octets((x & 0xFF) as byte, ((x >> 8) & 0xFF) as byte, ((x >> 16) & 0xFF) as byte, ((x >> 24) & 0xFF) as byte)
  }

  /** The packed form of four octets, first octet in the low byte. */
  function Pack(q: Octets): (x: bv32)
    ensures OctetsOf(x) == q
  {
    (q.o1 as bv32) | ((q.o2 as bv32) << 8) | ((q.o3 as bv32) << 16) | ((q.o4 as bv32) << 24)
  }

  /** Packing is also a left inverse: an address is its four octets. */
  lemma PackOctetsOf(x: bv32)
    ensures Pack(OctetsOf(x)) == x
  {
  }

  /** `"%d.%d.%d.%d"` of four octets (digits as ASCII; see README). */
  function QuadText(q: Octets): string {
    DecimalString(q.o1 as nat) + "." + DecimalString(q.o2 as nat) + "." +
    DecimalString(q.o3 as nat) + "." + DecimalString(q.o4 as nat)
  }

  /** The dotted quad of a packed address, low byte first. */
  function FormatQuad(x: bv32): string {
    QuadText(OctetsOf(x))
  }

  // ---------------------------------------------------------------------
  // A reference reader for dotted quads
  // ---------------------------------------------------------------------

  lemma NatToByte(n: nat)
    requires n < 256
    ensures (n as byte) as nat == n
  {
    var wide := n as bv9;
    assert wide as nat == n;
  }

  lemma ByteToNat(o: byte)
    ensures o as nat < 256 && (o as nat) as byte == o
  {
  }

  /** One decimal octet: one to three digits, value at most 255. */
  function ParseOctet(s: string): (r: Option<byte>)
    ensures r.Some? ==> AllDigits(s) && s != [] && DigitsValue(s) == r.value as nat
  {
    if s == [] || |s| > 3 || !AllDigits(s) || DigitsValue(s) > 255 then None
    else
      NatToByte(DigitsValue(s));
      Some(DigitsValue(s) as byte)
  }

  /** `a.b.c.d` read back into the packed form. */
  function ParseQuad(s: string): Option<bv32> {
    var parts := Split(s, '.');
    if |parts| != 4 then None
    else
      match (ParseOctet(parts[0]), ParseOctet(parts[1]), ParseOctet(parts[2]), ParseOctet(parts[3]))
      case (Some(a), Some(b), Some(c), Some(d)) => Some(Pack(Octets(a, b, c, d)))
      case _ => None
  }

  lemma DecimalStringShape(n: nat)
    ensures '.' !in DecimalString(n)
    ensures n < 1000 ==> |DecimalString(n)| <= 3
  {
    var d := DecimalString(n);
    assert forall k :: 0 <= k < |d| ==> IsDigit(d[k]);
    if 10 <= n < 1000 {
      DecimalStringShape(n / 10);
    }
  }

  lemma ParseOctetOf(o: byte)
    ensures ParseOctet(DecimalString(o as nat)) == Some(o)
  {
    ByteToNat(o);
    DecimalStringShape(o as nat);
    DecimalStringValue(o as nat);
  }

  /** `a.b.c.d` splits back into its four pieces. */
  lemma {:induction false} FourParts(a: string, b: string, c: string, d: string)
    requires '.' !in a && '.' !in b && '.' !in c && '.' !in d && d != []
    ensures Split(a + "." + b + "." + c + "." + d, '.') == [a, b, c, d]
  {
    var p := [a, b, c, d];
    assert p[1..] == [b, c, d] && p[1..][1..] == [c, d] && p[1..][1..][1..] == [d];
    assert Join(p[1..][1..], '.') == c + "." + d;
    assert Join(p[1..], '.') == b + "." + c + "." + d;
    assert Join(p, '.') == a + "." + b + "." + c + "." + d;
    SplitJoin(p, '.');
  }

  /** The octet text splits back into its four numbers. */
  lemma QuadTextParts(q: Octets)
    ensures Split(QuadText(q), '.') ==
              [DecimalString(q.o1 as nat), DecimalString(q.o2 as nat), DecimalString(q.o3 as nat), DecimalString(q.o4 as nat)]
  {
    DecimalStringShape(q.o1 as nat);
    DecimalStringShape(q.o2 as nat);
    DecimalStringShape(q.o3 as nat);
    DecimalStringShape(q.o4 as nat);
    FourParts(DecimalString(q.o1 as nat), DecimalString(q.o2 as nat), DecimalString(q.o3 as nat), DecimalString(q.o4 as nat));
  }

  /** Round trip: reading a printed address gives the address back. */
  lemma ParseFormatQuad(x: bv32)
    ensures ParseQuad(FormatQuad(x)) == Some(x)
  {
    var q := OctetsOf(x);
    QuadTextParts(q);
    ParseOctetOf(q.o1);
    ParseOctetOf(q.o2);
    ParseOctetOf(q.o3);
    ParseOctetOf(q.o4);
    PackOctetsOf(x);
  }

  /** Printing is injective: two addresses print alike only when equal. */
  lemma FormatQuadInjective(x: bv32, y: bv32)
    requires FormatQuad(x) == FormatQuad(y)
    ensures x == y
  {
    ParseFormatQuad(x);
    ParseFormatQuad(y);
  }

  // ---------------------------------------------------------------------
  // Broadcast addresses
  // ---------------------------------------------------------------------

  const AllOnes: bv32 := 0xFFFF_FFFF

  /** `(ipAddress & subnetMask) | (~subnetMask & 0xFFFFFFFF)`. */
  function SubnetBroadcast(ip: bv32, mask: bv32): bv32 {
    (ip & mask) | !mask
  }

  /** The subnet broadcast address keeps the network bits of `ip` and sets
      every host bit, ... */
  lemma SubnetBroadcastShape(ip: bv32, mask: bv32)
    ensures SubnetBroadcast(ip, mask) & mask == ip & mask
    ensures SubnetBroadcast(ip, mask) | mask == AllOnes
  {
  }

  /** ... and it is the only address that does. */
  lemma SubnetBroadcastUnique(ip: bv32, mask: bv32, b: bv32)
    requires b & mask == ip & mask && b | mask == AllOnes
    ensures b == SubnetBroadcast(ip, mask)
  {
  }

  /** The `/24` guess: `(ip & 0x00ffffff) | 0xff000000`. */
  function SlashTwentyFourBroadcast(ip: bv32): (b: bv32)
    ensures var q, r := OctetsOf(ip), OctetsOf(b);
            r.o1 == q.o1 && r.o2 == q.o2 && r.o3 == q.o3 && r.o4 == 255
  {
    (ip & 0x00FF_FFFF) | 0xFF00_0000
  }

  /** The guess is the subnet broadcast for the mask 255.255.255.0 (packed
      low byte first): the first three octets are kept and the last,
      printed fourth, is 255. */
  lemma SlashTwentyFourIsSubnet(ip: bv32)
    ensures SlashTwentyFourBroadcast(ip) == SubnetBroadcast(ip, 0x00FF_FFFF)
    ensures var q, b := OctetsOf(ip), OctetsOf(SlashTwentyFourBroadcast(ip));
            b.o1 == q.o1 && b.o2 == q.o2 && b.o3 == q.o3 && b.o4 == 255
  {
  }

  /** `DhcpInfo`: the address and the netmask, both packed. */
  datatype DhcpInfo = DhcpInfo(ipAddress: bv32, netmask: bv32)

  /** What the Wi-Fi service reports: no `WifiManager` at all, or its DHCP
      information (possibly `null`), the connection's address (0 when not
      connected) and whether the hotspot check answered true. */
  datatype WifiState =
    | NoWifiManager
    | Wifi(dhcp: Option<DhcpInfo>, connectionIp: bv32, hotspot: bool)

  /** The address `getSubnetBroadcastAddress` picks, by its three tiers: the
      DHCP subnet when the mask is non-zero, the `/24` guess from the
      connection address when that is non-zero, the limited broadcast
      address `255.255.255.255` otherwise. */
  function BroadcastTarget(w: WifiState): (b: bv32)
    ensures w.Wifi? && w.dhcp.Some? && w.dhcp.value.netmask != 0 ==>
              b == SubnetBroadcast(w.dhcp.value.ipAddress, w.dhcp.value.netmask)
    ensures w.Wifi? && !(w.dhcp.Some? && w.dhcp.value.netmask != 0) && w.connectionIp != 0 ==>
              b == SubnetBroadcast(w.connectionIp, 0x00FF_FFFF) && OctetsOf(b).o4 == 255
    ensures (w.NoWifiManager? || (!(w.dhcp.Some? && w.dhcp.value.netmask != 0) && w.connectionIp == 0)) ==>
              b == AllOnes
  {
    if w.NoWifiManager? then AllOnes
    else if w.dhcp.Some? && w.dhcp.value.netmask != 0 then
      SubnetBroadcast(w.dhcp.value.ipAddress, w.dhcp.value.netmask)
    else if w.connectionIp != 0 then
      SlashTwentyFourIsSubnet(w.connectionIp);
      SlashTwentyFourBroadcast(w.connectionIp)
    else AllOnes
  }

  /** `getSubnetBroadcastAddress`: the chosen address as a dotted quad. */
  function SubnetBroadcastAddress(w: WifiState): (s: string)
    ensures ParseQuad(s) == Some(BroadcastTarget(w))
  {
    ParseFormatQuad(BroadcastTarget(w));
    FormatQuad(BroadcastTarget(w))
  }

  /** The global fallback prints as `255.255.255.255`. */
  lemma AllOnesText()
    ensures FormatQuad(AllOnes) == "255.255.255.255"
  {
    DecimalStringOfSmall(255);
  }

  /** The worked example: 192.168.87.68 with mask 255.255.255.0 broadcasts
      to 192.168.87.255 ... */
  lemma BroadcastExampleOctets()
    ensures OctetsOf(SubnetBroadcast(Pack(Octets(192, 168, 87, 68)), Pack(Octets(255, 255, 255, 0)))) ==
              Octets(192, 168, 87, 255)
  {
  }

  /** ... printed as `192.168.87.255`. */
  lemma BroadcastExample()
    ensures var ip := Pack(Octets(192, 168, 87, 68));
            var mask := Pack(Octets(255, 255, 255, 0));
            SubnetBroadcastAddress(Wifi(Some(DhcpInfo(ip, mask)), ip, false)) == "192.168.87.255"
  {
    var ip := Pack(Octets(192, 168, 87, 68));
    var mask := Pack(Octets(255, 255, 255, 0));
    var target := SubnetBroadcast(ip, mask);
    assert mask != 0 by {
      assert OctetsOf(mask).o1 == 255;
    }
    assert BroadcastTarget(Wifi(Some(DhcpInfo(ip, mask)), ip, false)) == target;
    BroadcastExampleOctets();
    assert FormatQuad(target) == QuadText(Octets(192, 168, 87, 255));
    BroadcastExampleText();
  }

  lemma BroadcastExampleText()
    ensures QuadText(Octets(192, 168, 87, 255)) == "192.168.87.255"
  {
    DecimalStringOfSmall(192);
    DecimalStringOfSmall(168);
    DecimalStringOfSmall(87);
    DecimalStringOfSmall(255);
    var first := DecimalString(192) + "." + DecimalString(168);
    assert first == "192.168";
    var third := first + "." + DecimalString(87);
    assert third == "192.168.87";
    assert third + "." + DecimalString(255) == "192.168.87.255";
  }

  // ---------------------------------------------------------------------
  // The phone's own address
  // ---------------------------------------------------------------------

  const HotspotAddress := "192.168.43.1"
  const NotAvailable := "Not Available"

  /** `getIpAddress`: the hotspot gateway address when the hotspot is on,
      the connection address when it is non-zero, otherwise "Not Available". */
  function LocalIpText(w: WifiState): (s: string)
    ensures w.Wifi? && !w.hotspot && w.connectionIp != 0 ==> ParseQuad(s) == Some(w.connectionIp)
    ensures (w.NoWifiManager? || (!w.hotspot && w.connectionIp == 0)) ==> s == NotAvailable
    ensures w.Wifi? && w.hotspot ==> s == HotspotAddress
  {
    if w.NoWifiManager? then NotAvailable
    else if w.hotspot then HotspotAddress
    else if w.connectionIp != 0 then
      ParseFormatQuad(w.connectionIp);
      FormatQuad(w.connectionIp)
    else NotAvailable
  }

  /** The hotspot address is itself a dotted quad. */
  lemma HotspotAddressIsQuad()
    ensures HotspotAddress == FormatQuad(Pack(Octets(192, 168, 43, 1)))
  {
    DecimalStringOfSmall(192);
    DecimalStringOfSmall(168);
    DecimalStringOfSmall(43);
    assert DecimalString(1) == "1";
  }
}
