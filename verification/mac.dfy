/**
  Hardware (MAC) addresses as the VMware IP discovery reads them: `net.ParseMAC`
  for the colon-separated form and `HardwareAddr.String`, the canonical text
  the lease lookup compares.
 */
module Mac {
  import opened Core

  newtype byte = x: int | 0 <= x < 256

  type HardwareAddr = seq<byte>

  /** The address lengths `net.ParseMAC` accepts: EUI-48, EUI-64 and 20-octet InfiniBand. */
  predicate ValidLength(n: int) {
    n == 6 || n == 8 || n == 20
  }

  function HexValue(c: char): Option<int> {
    if '0' <= c <= '9' then Some(c as int - '0' as int)
    else if 'a' <= c <= 'f' then Some(c as int - 'a' as int + 10)
    else if 'A' <= c <= 'F' then Some(c as int - 'A' as int + 10)
    else None
  }

  function HexDigit(n: int): char
    requires 0 <= n < 16
  {
    "0123456789abcdef"[n]
  }

  lemma HexDigitValue(n: int)
    requires 0 <= n < 16
    ensures HexValue(HexDigit(n)) == Some(n)
  {
  }

  /** Two characters of hexadecimal as one octet. */
  function Octet(hi: char, lo: char): Option<byte> {
    if HexValue(hi).Some? && HexValue(lo).Some? then
      Some((HexValue(hi).value * 16 + HexValue(lo).value) as byte)
    else None
  }

  /** The groups `hh:hh:...:hh`, each two hex digits, colon-separated (`xtoi2` over the string). */
  function ParseGroups(s: string): (r: Option<HardwareAddr>)
    ensures r.Some? ==> |r.value| > 0 && |s| == 3 * |r.value| - 1
    decreases |s|
  {
    if |s| < 2 then None
    else if Octet(s[0], s[1]).None? then None
    else if |s| == 2 then Some([Octet(s[0], s[1]).value])
    else if s[2] != ':' || |s| < 3 then None
    else
      match ParseGroups(s[3..])
      case None => None
      case Some(rest) => Some([Octet(s[0], s[1]).value] + rest)
  }

  /**
    `net.ParseMAC` restricted to the colon form. The regular expressions that
    capture the MAC text admit only hexadecimal digits and colons, so the
    hyphen and dot forms never reach it.
   */
  function ParseMac(s: string): (r: Option<HardwareAddr>)
    ensures r.Some? ==> ValidLength(|r.value|)
  {
    if |s| < 14 then None
    else if s[2] != ':' then None
    else if (|s| + 1) % 3 != 0 then None
    else if !ValidLength((|s| + 1) / 3) then None
    else ParseGroups(s)
  }

  /** `HardwareAddr.String`: lower-case hex octets joined by colons. */
  function FormatMac(a: HardwareAddr): (r: string)
    ensures |a| > 0 ==> |r| == 3 * |a| - 1
    ensures |a| == 0 ==> r == ""
  {
    if |a| == 0 then ""
    else if |a| == 1 then [HexDigit(a[0] as int / 16), HexDigit(a[0] as int % 16)]
    else [HexDigit(a[0] as int / 16), HexDigit(a[0] as int % 16), ':'] + FormatMac(a[1..])
  }

  lemma {:induction false} GroupsRoundTrip(a: HardwareAddr)
    requires |a| > 0
    ensures ParseGroups(FormatMac(a)) == Some(a)
    decreases |a|
  {
    var s := FormatMac(a);
    HexDigitValue(a[0] as int / 16);
    HexDigitValue(a[0] as int % 16);
    assert (a[0] as int / 16) * 16 + a[0] as int % 16 == a[0] as int;
    assert Octet(s[0], s[1]) == Some(a[0]);
    if |a| > 1 {
      assert s[3..] == FormatMac(a[1..]);
      GroupsRoundTrip(a[1..]);
      assert a == [a[0]] + a[1..];
    } else {
      assert |s| == 2;
      assert a == [a[0]];
    }
  }

  /** Printing an address and parsing the text back gives the same address. */
  lemma {:induction false} MacRoundTrip(a: HardwareAddr)
    requires ValidLength(|a|)
    ensures ParseMac(FormatMac(a)) == Some(a)
  {
    var s := FormatMac(a);
    assert s[2] == ':';
    assert |s| + 1 == 3 * |a|;
    assert (|s| + 1) % 3 == 0 && (|s| + 1) / 3 == |a| by {
      assert |a| == 6 || |a| == 8 || |a| == 20;
    }
    GroupsRoundTrip(a);
  }

  /**
    Two parsed addresses print the same exactly when they are the same address,
    so comparing `String()` forms, as the lease lookup does, compares addresses.
   */
  lemma {:induction false} FormatMacInjective(a: HardwareAddr, b: HardwareAddr)
    ensures FormatMac(a) == FormatMac(b) <==> a == b
  {
    if FormatMac(a) == FormatMac(b) {
      if |a| == 0 || |b| == 0 {
        assert |a| == 0 && |b| == 0;
      } else {
        GroupsRoundTrip(a);
        GroupsRoundTrip(b);
      }
    }
  }

  function LowerChar(c: char): char {
    if 'A' <= c <= 'Z' then (c as int - 'A' as int + 'a' as int) as char else c
  }

  /** ASCII lower-casing, character by character. */
  function Lower(s: string): (r: string)
    ensures |r| == |s|
    ensures forall i :: 0 <= i < |s| ==> r[i] == LowerChar(s[i])
  {
    seq(|s|, i requires 0 <= i < |s| => LowerChar(s[i]))
  }

  lemma HexDigitOfValue(c: char)
    requires HexValue(c).Some?
    ensures 0 <= HexValue(c).value < 16
    ensures HexDigit(HexValue(c).value) == LowerChar(c)
  {
  }

  lemma {:induction false} FormatOfGroups(s: string)
    requires ParseGroups(s).Some?
    ensures FormatMac(ParseGroups(s).value) == Lower(s)
    decreases |s|
  {
    var a := ParseGroups(s).value;
    var hi := HexValue(s[0]).value;
    var lo := HexValue(s[1]).value;
    HexDigitOfValue(s[0]);
    HexDigitOfValue(s[1]);
    assert a[0] as int == hi * 16 + lo;
    assert a[0] as int / 16 == hi && a[0] as int % 16 == lo;
    if |s| == 2 {
      assert FormatMac(a) == [LowerChar(s[0]), LowerChar(s[1])];
    } else {
      FormatOfGroups(s[3..]);
      assert a[1..] == ParseGroups(s[3..]).value;
      assert FormatMac(a) == [LowerChar(s[0]), LowerChar(s[1]), ':'] + Lower(s[3..]);
    }
  }

  /**
    The canonical text of a parsed address is the input text lower-cased:
    `String()` comparison is a case-insensitive comparison of the captured text.
   */
  lemma {:induction false} ParseMacCanonical(s: string)
    requires ParseMac(s).Some?
    ensures FormatMac(ParseMac(s).value) == Lower(s)
  {
    FormatOfGroups(s);
  }
}
