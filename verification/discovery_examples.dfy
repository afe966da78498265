/**
  The IP discovery on small hand-built inputs. The descriptor and the
  networking configuration are stand-ins shaped to give the values that
  engine/vmware/vmware_test.go:30 and :43 expect (one interface with MAC
  00:0c:29:f7:07:f2; DHCP on networks 1 and 8); the files those tests read
  are not part of this model. The lease (172.16.23.131, valid from time 100
  to 200, on network 8) is made up for these examples.
 */
module DiscoveryExamples {
  import opened Core
  import opened Mac
  import opened Discovery

  const GuestMac: string := "00:0c:29:f7:07:f2"
  const GuestAddr: HardwareAddr := [0x00, 0x0c, 0x29, 0xf7, 0x07, 0xf2]

  const OtherMac: string := "00:0c:29:56:7f:63"
  const OtherAddr: HardwareAddr := [0x00, 0x0c, 0x29, 0x56, 0x7f, 0x63]

  const Descriptor: seq<VmxMatch> := [VmxMatch("ethernet0", GuestMac)]
  const Networking: seq<string> := ["1", "8"]

  function Tables(lease: LeaseMatch): map<int, seq<LeaseMatch>> {
    map[1 := [], 8 := [lease]]
  }

  /** A lease of 172.16.23.131 valid from time 100 to time 200, for the MAC given as `mac`. */
  function Lease(mac: string): LeaseMatch {
    LeaseMatch("172.16.23.131", Some("172.16.23.131"), Some(100), Some(200), mac)
  }

  lemma GuestMacParses()
    ensures ParseMac(GuestMac) == Some(GuestAddr)
  {
    assert FormatMac(GuestAddr[4..]) == "07:f2";
    assert FormatMac(GuestAddr[2..]) == "29:f7:07:f2";
    assert FormatMac(GuestAddr) == GuestMac;
    MacRoundTrip(GuestAddr);
  }

  lemma OtherMacParses()
    ensures ParseMac(OtherMac) == Some(OtherAddr)
  {
    assert FormatMac(OtherAddr[4..]) == "7f:63";
    assert FormatMac(OtherAddr[2..]) == "29:56:7f:63";
    assert FormatMac(OtherAddr) == OtherMac;
    MacRoundTrip(OtherAddr);
  }

  lemma DescriptorInterfaces()
    ensures ReadMacs(Descriptor) == map["ethernet0" := GuestAddr]
  {
    GuestMacParses();
    assert Descriptor[..0] == [];
  }

  /** The stand-in networking configuration lists DHCP on networks 1 and 8, in that order. */
  lemma NetworkingStandIn()
    ensures ListNetworks(Networking) == [1, 8]
  {
    assert Unsigned("1") == Some(1);
    assert Unsigned("8") == Some(8);
  }

  /** On network 8 the guest's lease is current at time 150 and answers with its address. */
  lemma LeaseOnNetworkEight()
    ensures FindLease(Tables(Lease(GuestMac))[8], GuestAddr, 150) == Success("172.16.23.131")
  {
    GuestMacParses();
    assert Current(Lease(GuestMac), GuestAddr, 150);
    assert Tables(Lease(GuestMac))[8] == [Lease(GuestMac)];
  }

  /** Network 1 has no lease at all, so the search goes on to network 8 and finds the guest there. */
  lemma GuestDetected()
    ensures DetectIP(Some(Networking), Tables(Lease(GuestMac)), GuestAddr, 150) == Success("172.16.23.131")
  {
    NetworkingStandIn();
    LeaseOnNetworkEight();
    var tables := Tables(Lease(GuestMac));
    assert LeaseLookup(tables, 1, GuestAddr, 150) == Failure(NotFound);
    assert LeaseLookup(tables, 8, GuestAddr, 150) == Success("172.16.23.131");
  }

  /** A current lease for the guest's MAC on network 8 yields its address. */
  lemma CurrentLeaseFound()
    ensures Enumerates(["ethernet0"], ReadMacs(Descriptor).Keys)
    ensures IP(Some(Descriptor), Some(Networking), Tables(Lease(GuestMac)), 150, ["ethernet0"])
         == Success("172.16.23.131")
  {
    DescriptorInterfaces();
    GuestDetected();
  }

  /** At time 250 the guest's lease on network 8 has expired. */
  lemma LeaseExpiredOnNetworkEight()
    ensures FindLease(Tables(Lease(GuestMac))[8], GuestAddr, 250) == Failure(NotFound)
  {
    assert Tables(Lease(GuestMac))[8] == [Lease(GuestMac)];
    assert !Current(Lease(GuestMac), GuestAddr, 250);
  }

  /** A lease for another MAC is never the guest's, whatever the time. */
  lemma OtherLeaseOnNetworkEight()
    ensures FindLease(Tables(Lease(OtherMac))[8], GuestAddr, 150) == Failure(NotFound)
  {
    OtherMacParses();
    FormatMacInjective(OtherAddr, GuestAddr);
    assert Tables(Lease(OtherMac))[8] == [Lease(OtherMac)];
    assert !Current(Lease(OtherMac), GuestAddr, 150);
  }

  /** Neither network answers for the guest, so the search over both ends in `NotFound`. */
  lemma GuestNotDetected(lease: LeaseMatch, now: int)
    requires FindLease(Tables(lease)[8], GuestAddr, now) == Failure(NotFound)
    ensures DetectIP(Some(Networking), Tables(lease), GuestAddr, now) == Failure(NotFound)
  {
    NetworkingStandIn();
    var tables := Tables(lease);
    assert LeaseLookup(tables, 1, GuestAddr, now) == Failure(NotFound);
    assert LeaseLookup(tables, 8, GuestAddr, now) == Failure(NotFound);
  }

  /** The same lease after it has expired is not an answer: discovery reports `NotFound`. */
  lemma ExpiredLeaseNotFound()
    ensures Enumerates(["ethernet0"], ReadMacs(Descriptor).Keys)
    ensures IP(Some(Descriptor), Some(Networking), Tables(Lease(GuestMac)), 250, ["ethernet0"])
         == Failure(NotFound)
  {
    DescriptorInterfaces();
    LeaseExpiredOnNetworkEight();
    GuestNotDetected(Lease(GuestMac), 250);
  }

  /** A MAC that appears in no lease table is `NotFound`, not a parse error. */
  lemma UnknownMacNotFound()
    ensures Enumerates(["ethernet0"], ReadMacs(Descriptor).Keys)
    ensures IP(Some(Descriptor), Some(Networking), Tables(Lease(OtherMac)), 150, ["ethernet0"])
         == Failure(NotFound)
  {
    DescriptorInterfaces();
    OtherLeaseOnNetworkEight();
    GuestNotDetected(Lease(OtherMac), 150);
  }
}
