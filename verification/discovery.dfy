/**
  VMware IP discovery: correlate the MAC addresses declared in a guest's `.vmx`
  file with the host's DHCP lease tables (dhcpd.leases(5) records) of every
  virtual network that has DHCP enabled.

  The regular expressions of the source are not modelled; their matches arrive
  as tuples of captured text. Lease times and the lease IP arrive already
  converted by the host's parsers (`None` where the parser rejected the text),
  and times are integers on the same clock as `now`.
 */
module Discovery {
  import opened Core
  import opened Mac

  /** One match of `(ethernet\d+)\.generatedAddress ?= ?"([0-9a-fA-F:]+)"`. */
  datatype VmxMatch = VmxMatch(iface: string, mac: string)

  /** One match of the lease pattern: `lease <ip> { starts ..; ends ..; hardware ethernet <mac>; ...`. */
  datatype LeaseMatch = LeaseMatch(
    ipText: string,
    ip: Option<string>,
    starts: Option<int>,
    ends: Option<int>,
    mac: string)

  // ----- ReadMACAdressesFromVMX -----

  predicate ValidEntry(m: VmxMatch) {
    ParseMac(m.mac).Some?
  }

  /** Entry `i` is the last well-formed declaration of its interface. */
  predicate LastDeclaration(ms: seq<VmxMatch>, i: int)
    requires 0 <= i < |ms|
  {
    ValidEntry(ms[i]) &&
    forall j :: i < j < |ms| && ms[j].iface == ms[i].iface ==> !ValidEntry(ms[j])
  }

  /**
    The interface-to-MAC map of a descriptor, built in file order: malformed
    addresses are skipped and a later declaration replaces an earlier one.
   */
  function ReadMacs(ms: seq<VmxMatch>): (r: map<string, HardwareAddr>)
    ensures |ms| == 0 ==> r == map[]
    ensures forall k :: k in r ==> ValidLength(|r[k]|)
    decreases |ms|
  {
    if |ms| == 0 then map[]
    else
      var prev := ReadMacs(ms[..|ms| - 1]);
      var last := ms[|ms| - 1];
      if ValidEntry(last) then prev[last.iface := ParseMac(last.mac).value] else prev
  }

  /** An interface is in the map exactly when some well-formed line declares it. */
  lemma {:induction false} ReadMacsKeys(ms: seq<VmxMatch>, k: string)
    ensures k in ReadMacs(ms) <==> exists i :: 0 <= i < |ms| && ms[i].iface == k && ValidEntry(ms[i])
    decreases |ms|
  {
    if |ms| > 0 {
      var init := ms[..|ms| - 1];
      ReadMacsKeys(init, k);
      assert forall i :: 0 <= i < |init| ==> init[i] == ms[i];
      if k in ReadMacs(ms) && k !in ReadMacs(init) {
        assert ms[|ms| - 1].iface == k && ValidEntry(ms[|ms| - 1]);
      }
    }
  }

  /** The address recorded for an interface is the one on its last well-formed line. */
  lemma {:induction false} ReadMacsLastWins(ms: seq<VmxMatch>, i: int)
    requires 0 <= i < |ms| && LastDeclaration(ms, i)
    ensures ms[i].iface in ReadMacs(ms) && ReadMacs(ms)[ms[i].iface] == ParseMac(ms[i].mac).value
    decreases |ms|
  {
    var init := ms[..|ms| - 1];
    if i < |ms| - 1 {
      assert forall j :: 0 <= j < |init| ==> init[j] == ms[j];
      assert LastDeclaration(init, i);
      ReadMacsLastWins(init, i);
    }
  }

  // ----- ListDHCPVirtualNetworks -----

  const MaxInt64: int := 0x7fff_ffff_ffff_ffff

  predicate IsDigit(c: char) {
    '0' <= c <= '9'
  }

  function DigitsValue(s: string): nat
    requires forall i :: 0 <= i < |s| ==> IsDigit(s[i])
  {
    if |s| == 0 then 0
    else
      assert IsDigit(s[|s| - 1]);
      DigitsValue(s[..|s| - 1]) * 10 + (s[|s| - 1] as int - '0' as int)
  }

  /** A non-empty run of decimal digits, as an unbounded natural number. */
  function Unsigned(s: string): Option<nat> {
    if |s| > 0 && forall i :: 0 <= i < |s| ==> IsDigit(s[i]) then Some(DigitsValue(s)) else None
  }

  /** `strconv.ParseInt(s, 10, 0)` on a 64-bit platform: optional sign, decimal digits, range check. */
  function ParseInt(s: string): (r: Option<int>)
    ensures r.Some? ==> -MaxInt64 - 1 <= r.value <= MaxInt64
  {
    if |s| > 0 && (s[0] == '+' || s[0] == '-') then
      match Unsigned(s[1..])
      case None => None
      case Some(u) =>
        if s[0] == '-' then (if u <= MaxInt64 + 1 then Some(0 - u as int) else None)
        else (if u <= MaxInt64 then Some(u) else None)
    else
      match Unsigned(s)
      case None => None
      case Some(u) => if u <= MaxInt64 then Some(u) else None
  }

  function DigitChar(d: int): char
    requires 0 <= d < 10
  {
    "0123456789"[d]
  }

  /** Decimal text of a natural number, without leading zeros. */
  function Decimal(n: nat): (r: string)
    ensures |r| > 0 && forall i :: 0 <= i < |r| ==> IsDigit(r[i])
  {
    if n < 10 then [DigitChar(n)] else Decimal(n / 10) + [DigitChar(n % 10)]
  }

  lemma {:induction false} DecimalValue(n: nat)
    ensures DigitsValue(Decimal(n)) == n
    decreases n
  {
    if n >= 10 {
      var s := Decimal(n);
      assert s[..|s| - 1] == Decimal(n / 10);
      DecimalValue(n / 10);
    }
  }

  /** Every network number the configuration can hold is read back as itself. */
  lemma {:induction false} ParseIntRoundTrip(n: nat)
    requires n <= MaxInt64
    ensures ParseInt(Decimal(n)) == Some(n)
  {
    DecimalValue(n);
  }

  /**
    The DHCP-enabled network ids: the captured digits of every
    `answer VNET_<n>_DHCP yes` line, in file order, skipping numbers that do
    not parse.
   */
  function ListNetworks(tokens: seq<string>): (r: seq<int>)
    ensures |r| <= |tokens|
    ensures forall i :: 0 <= i < |r| ==> -MaxInt64 - 1 <= r[i] <= MaxInt64
  {
    if |tokens| == 0 then []
    else
      var rest := ListNetworks(tokens[1..]);
      match ParseInt(tokens[0])
      case None => rest
      case Some(n) => [n] + rest
  }

  /** A network is listed exactly when some captured token parses to its number. */
  lemma {:induction false} ListNetworksMembers(tokens: seq<string>, x: int)
    ensures x in ListNetworks(tokens) <==> exists i :: 0 <= i < |tokens| && ParseInt(tokens[i]) == Some(x)
    decreases |tokens|
  {
    if |tokens| > 0 {
      ListNetworksMembers(tokens[1..], x);
      assert forall i :: 1 <= i < |tokens| ==> tokens[i] == tokens[1..][i - 1];
      if exists i :: 0 <= i < |tokens| && ParseInt(tokens[i]) == Some(x) {
        var i :| 0 <= i < |tokens| && ParseInt(tokens[i]) == Some(x);
        if i > 0 {
          assert ParseInt(tokens[1..][i - 1]) == Some(x);
        }
      }
    }
  }

  /** When every token parses, nothing is skipped: the list is the tokens' values in file order. */
  lemma {:induction false} ListNetworksAllParse(tokens: seq<string>)
    requires forall i :: 0 <= i < |tokens| ==> ParseInt(tokens[i]).Some?
    ensures |ListNetworks(tokens)| == |tokens|
    ensures forall i :: 0 <= i < |tokens| ==> ListNetworks(tokens)[i] == ParseInt(tokens[i]).value
    decreases |tokens|
  {
    if |tokens| > 0 {
      assert forall i :: 1 <= i < |tokens| ==> tokens[i] == tokens[1..][i - 1];
      ListNetworksAllParse(tokens[1..]);
    }
  }

  // ----- FindCurrentLeaseByMAC -----

  /**
    A lease that answers for `addr` at `now`: its MAC parses and prints the
    same as `addr`, both times parse, and `now` lies strictly inside the window.
   */
  predicate Current(l: LeaseMatch, addr: HardwareAddr, now: int)
    ensures Current(l, addr, now) ==> ParseMac(l.mac) == Some(addr)
  {
    && ParseMac(l.mac).Some?
    && (FormatMacInjective(ParseMac(l.mac).value, addr);
        FormatMac(ParseMac(l.mac).value) == FormatMac(addr))
    && l.starts.Some? && l.ends.Some?
    && l.starts.value < now < l.ends.value
  }

  predicate NoCurrentLease(ls: seq<LeaseMatch>, addr: HardwareAddr, now: int) {
    forall i :: 0 <= i < |ls| ==> !Current(ls[i], addr, now)
  }

  /** What the lookup answers for a lease it stopped at: its address, or a parse error when the address is bad. */
  function LeaseAnswer(l: LeaseMatch): Result<string> {
    if l.ip.Some? then Success(l.ip.value) else Failure(BadLeaseAddress(l.ipText))
  }

  /** The first current lease of `addr` in file order decides; if there is none the answer is `NotFound`. */
  function FindLease(ls: seq<LeaseMatch>, addr: HardwareAddr, now: int): (r: Result<string>)
    ensures r == Failure(NotFound) <==> NoCurrentLease(ls, addr, now)
    ensures r != Failure(NotFound) ==>
      exists i :: 0 <= i < |ls| && Current(ls[i], addr, now) && r == LeaseAnswer(ls[i]) &&
        forall j :: 0 <= j < i ==> !Current(ls[j], addr, now)
    decreases |ls|
  {
    if |ls| == 0 then Failure(NotFound)
    else if Current(ls[0], addr, now) then LeaseAnswer(ls[0])
    else
      var r := FindLease(ls[1..], addr, now);
      assert forall i :: 1 <= i < |ls| ==> ls[i] == ls[1..][i - 1];
      r
  }

  // ----- the search policy shared by DetectIPFromMACAddress and IP -----

  /**
    Try `f` on each element in order: the first success is returned, `NotFound`
    moves on to the next element, any other error stops the search, and an
    exhausted list is `NotFound`.
   */
  function FirstFound<T>(xs: seq<T>, f: T -> Result<string>): (r: Result<string>)
    ensures r == Failure(NotFound) <==> forall i :: 0 <= i < |xs| ==> f(xs[i]) == Failure(NotFound)
    ensures r != Failure(NotFound) ==>
      exists i :: 0 <= i < |xs| && f(xs[i]) == r &&
        forall j :: 0 <= j < i ==> f(xs[j]) == Failure(NotFound)
    decreases |xs|
  {
    if |xs| == 0 then Failure(NotFound)
    else if f(xs[0]) == Failure(NotFound) then
      var r := FirstFound(xs[1..], f);
      assert forall i :: 1 <= i < |xs| ==> xs[i] == xs[1..][i - 1];
      r
    else f(xs[0])
  }

  // ----- DetectIPFromMACAddress -----

  /** The lease table of network `n`; a table that cannot be read is an error, not `NotFound`. */
  function LeaseLookup(tables: map<int, seq<LeaseMatch>>, n: int, addr: HardwareAddr, now: int): (r: Result<string>)
    ensures n !in tables ==> r.Failure? && r != Failure(NotFound)
  {
    if n in tables then FindLease(tables[n], addr, now) else Failure(FileSystem("read lease table"))
  }

  /** `addr` holds a current lease with address `ip` on one of the networks `nets`. */
  ghost predicate LeasedOn(nets: seq<int>, tables: map<int, seq<LeaseMatch>>, addr: HardwareAddr, now: int, ip: string) {
    exists n :: n in nets && n in tables &&
      exists i :: 0 <= i < |tables[n]| && Current(tables[n][i], addr, now) && tables[n][i].ip == Some(ip)
  }

  /** Every network of `nets` has a readable table and none of them holds a current lease of `addr`. */
  ghost predicate UnleasedOn(nets: seq<int>, tables: map<int, seq<LeaseMatch>>, addr: HardwareAddr, now: int) {
    forall n :: n in nets ==> n in tables && NoCurrentLease(tables[n], addr, now)
  }

  /** `addr` holds a current lease with address `ip` on some DHCP-enabled network. */
  ghost predicate LeasedTo(networking: Option<seq<string>>, tables: map<int, seq<LeaseMatch>>,
                           addr: HardwareAddr, now: int, ip: string)
  {
    networking.Some? && LeasedOn(ListNetworks(networking.value), tables, addr, now, ip)
  }

  /** Every DHCP-enabled network has a readable table and none of them holds a current lease of `addr`. */
  ghost predicate Unleased(networking: Option<seq<string>>, tables: map<int, seq<LeaseMatch>>,
                           addr: HardwareAddr, now: int)
  {
    networking.Some? && UnleasedOn(ListNetworks(networking.value), tables, addr, now)
  }

  /** A table lookup answers `NotFound` exactly when the table is readable and holds no current lease of `addr`. */
  lemma LookupNotFound(tables: map<int, seq<LeaseMatch>>, n: int, addr: HardwareAddr, now: int)
    ensures LeaseLookup(tables, n, addr, now) == Failure(NotFound) <==> n in tables && NoCurrentLease(tables[n], addr, now)
  {
  }

  /** An address a table lookup answers is leased to `addr` on that network. */
  lemma LookupLeased(tables: map<int, seq<LeaseMatch>>, n: int, addr: HardwareAddr, now: int)
    requires LeaseLookup(tables, n, addr, now).Success?
    ensures n in tables
    ensures exists i :: 0 <= i < |tables[n]| && Current(tables[n][i], addr, now)
                       && tables[n][i].ip == Some(LeaseLookup(tables, n, addr, now).value)
  {
    var r := LeaseLookup(tables, n, addr, now);
    var j :| 0 <= j < |tables[n]| && Current(tables[n][j], addr, now) && r == LeaseAnswer(tables[n][j]);
    assert tables[n][j].ip == Some(r.value);
  }

  /**
    Searching the lease tables of `nets` in order: an address found is leased
    to `addr` on one of them, and the search ends in `NotFound` exactly when
    every table is readable and none holds a current lease of `addr`.
   */
  lemma SearchLeases(nets: seq<int>, lookup: int -> Result<string>, tables: map<int, seq<LeaseMatch>>,
                     addr: HardwareAddr, now: int)
    requires forall n :: lookup(n) == LeaseLookup(tables, n, addr, now)
    ensures FirstFound(nets, lookup).Success? ==> LeasedOn(nets, tables, addr, now, FirstFound(nets, lookup).value)
    ensures FirstFound(nets, lookup) == Failure(NotFound) <==> UnleasedOn(nets, tables, addr, now)
  {
    var r := FirstFound(nets, lookup);
    if r.Success? {
      var i :| 0 <= i < |nets| && lookup(nets[i]) == r;
      LookupLeased(tables, nets[i], addr, now);
    }
    if r == Failure(NotFound) {
      forall n | n in nets ensures n in tables && NoCurrentLease(tables[n], addr, now) {
        var i :| 0 <= i < |nets| && nets[i] == n;
        LookupNotFound(tables, n, addr, now);
      }
    }
    if UnleasedOn(nets, tables, addr, now) {
      forall i | 0 <= i < |nets| ensures lookup(nets[i]) == Failure(NotFound) {
        assert nets[i] in nets;
        LookupNotFound(tables, nets[i], addr, now);
      }
    }
  }

  /** `r` is the lookup of some network of `nets`, and every network listed before it answered `NotFound`. */
  predicate DecidedBy(nets: seq<int>, tables: map<int, seq<LeaseMatch>>, addr: HardwareAddr, now: int, r: Result<string>) {
    exists i :: 0 <= i < |nets| && LeaseLookup(tables, nets[i], addr, now) == r &&
      forall j :: 0 <= j < i ==> LeaseLookup(tables, nets[j], addr, now) == Failure(NotFound)
  }

  /**
    The networks are searched in the order listed: an answer other than
    `NotFound` is the lookup of some network, and every network before it
    answered `NotFound`.
   */
  lemma SearchOrder(nets: seq<int>, lookup: int -> Result<string>, tables: map<int, seq<LeaseMatch>>,
                    addr: HardwareAddr, now: int)
    requires forall n :: lookup(n) == LeaseLookup(tables, n, addr, now)
    ensures FirstFound(nets, lookup) != Failure(NotFound) ==> DecidedBy(nets, tables, addr, now, FirstFound(nets, lookup))
  {
    var r := FirstFound(nets, lookup);
    if r != Failure(NotFound) {
      var i :| 0 <= i < |nets| && lookup(nets[i]) == r && forall j :: 0 <= j < i ==> lookup(nets[j]) == Failure(NotFound);
      assert LeaseLookup(tables, nets[i], addr, now) == r;
    }
  }

  /** The IP leased to one MAC address, searching the DHCP-enabled networks in the order listed. */
  function DetectIP(networking: Option<seq<string>>, tables: map<int, seq<LeaseMatch>>,
                    addr: HardwareAddr, now: int): (r: Result<string>)
    ensures r.Success? ==> LeasedTo(networking, tables, addr, now, r.value)
    ensures r == Failure(NotFound) <==> Unleased(networking, tables, addr, now)
    ensures networking.None? ==> r.Failure? && r != Failure(NotFound)
    ensures networking.Some? && r != Failure(NotFound) ==> DecidedBy(ListNetworks(networking.value), tables, addr, now, r)
  {
    if networking.None? then Failure(FileSystem("read networking configuration"))
    else
      var nets := ListNetworks(networking.value);
      var lookup := n => LeaseLookup(tables, n, addr, now);
      SearchLeases(nets, lookup, tables, addr, now);
      SearchOrder(nets, lookup, tables, addr, now);
      FirstFound(nets, lookup)
  }

  // ----- IP -----

  ghost predicate SomeInterfaceLeased(macs: map<string, HardwareAddr>, networking: Option<seq<string>>,
                                      tables: map<int, seq<LeaseMatch>>, now: int, ip: string)
  {
    exists iface :: iface in macs && LeasedTo(networking, tables, macs[iface], now, ip)
  }

  ghost predicate NoInterfaceLeased(macs: map<string, HardwareAddr>, networking: Option<seq<string>>,
                                    tables: map<int, seq<LeaseMatch>>, now: int)
  {
    forall iface :: iface in macs ==> Unleased(networking, tables, macs[iface], now)
  }

  /** `order` lists every key of the map exactly once: the guarantees of ranging over a Go map. */
  predicate Enumerates(order: seq<string>, keys: set<string>) {
    && (forall k :: k in order ==> k in keys)
    && (forall k :: k in keys ==> k in order)
    && (forall i, j :: 0 <= i < j < |order| ==> order[i] != order[j])
  }

  /** The search for one interface of the map; a name that is not in the map has no lease. */
  function InterfaceLookup(macs: map<string, HardwareAddr>, iface: string, networking: Option<seq<string>>,
                           tables: map<int, seq<LeaseMatch>>, now: int): Result<string>
  {
    if iface in macs then DetectIP(networking, tables, macs[iface], now) else Failure(NotFound)
  }

  /**
    The first IP found for any of the guest's MAC addresses, visiting the
    interfaces in `order` (Go leaves the order of a map unspecified).
   */
  function IP(vmx: Option<seq<VmxMatch>>, networking: Option<seq<string>>,
              tables: map<int, seq<LeaseMatch>>, now: int, order: seq<string>): (r: Result<string>)
    requires vmx.Some? ==> Enumerates(order, ReadMacs(vmx.value).Keys)
    ensures vmx.None? ==> r.Failure? && r.error != NotFound
    ensures r.Success? ==> vmx.Some? && SomeInterfaceLeased(ReadMacs(vmx.value), networking, tables, now, r.value)
    ensures r == Failure(NotFound) <==> vmx.Some? && NoInterfaceLeased(ReadMacs(vmx.value), networking, tables, now)
    ensures vmx.Some? && r != Failure(NotFound) ==>
      var macs := ReadMacs(vmx.value);
      exists i :: 0 <= i < |order| && InterfaceLookup(macs, order[i], networking, tables, now) == r &&
        forall j :: 0 <= j < i ==> InterfaceLookup(macs, order[j], networking, tables, now) == Failure(NotFound)
  {
    if vmx.None? then Failure(FileSystem("read vmx"))
    else
      var macs := ReadMacs(vmx.value);
      var f := iface => InterfaceLookup(macs, iface, networking, tables, now);
      var r := FirstFound(order, f);
      assert r.Success? ==> SomeInterfaceLeased(macs, networking, tables, now, r.value) by {
        if r.Success? {
          var i :| 0 <= i < |order| && f(order[i]) == r;
          assert order[i] in macs;
        }
      }
      assert r == Failure(NotFound) <==> NoInterfaceLeased(macs, networking, tables, now) by {
        if r == Failure(NotFound) {
          forall iface | iface in macs ensures Unleased(networking, tables, macs[iface], now) {
            var i :| 0 <= i < |order| && order[i] == iface;
            assert f(order[i]) == Failure(NotFound);
          }
        }
      }
      r
  }
}
