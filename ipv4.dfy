/** The IPv4 half of Python's `ipaddress` module, as far as the subnet check uses it:
    `ip_address(s)`, `ip_network(s, strict=False)` and `address in network`. Addresses are the
    32-bit integers the module stores; dotted text is parsed as the module parses it. */
module Ipv4 {
  import opened Wrappers
  import opened Text

  /** 2 to the power `n`. */
  function Pow2(n: nat): (r: nat)
    ensures r > 0
  {
    if n == 0 then 1 else 2 * Pow2(n - 1)
  }

  const AddressCount: nat := 0x1_0000_0000
  const AllOnes: nat := 0xFFFF_FFFF

  lemma Pow2Bits()
    ensures Pow2(32) == AddressCount
  {
    assert Pow2(8) == 256;
    assert Pow2(16) == 65536;
    assert Pow2(24) == 16777216;
  }

  /** `_parse_octet`: one to three ASCII digits, no leading zero unless the octet is "0", at most
      255. */
  function ParseOctet(s: string): (r: Option<nat>)
    ensures r.Some? ==> r.value < 256 && IsDigits(s)
  {
    if !IsDigits(s) || |s| > 3 then None
    else if s != "0" && s[0] == '0' then None
    else if DigitsValue(s) > 255 then None
    else Some(DigitsValue(s))
  }

  /** The address whose four bytes, most significant first, are `a.b.c.d`. */
  function FromOctets(a: nat, b: nat, c: nat, d: nat): nat {
    ((a * 256 + b) * 256 + c) * 256 + d
  }

  /** `IPv4Address(s)`: no '/', exactly four dot-separated octets. `None` is the
      `AddressValueError` case. */
  function ParseAddress(s: string): (r: Option<nat>)
    ensures r.Some? ==> r.value < AddressCount && CountChar(s, '.') == 3 && '/' !in s
  {
    if s == "" || '/' in s then None
    else
      var parts := Split(s, '.');
      if |parts| != 4 then None
      else
        var a, b, c, d := ParseOctet(parts[0]), ParseOctet(parts[1]), ParseOctet(parts[2]), ParseOctet(parts[3]);
        if a.Some? && b.Some? && c.Some? && d.Some? then Some(FromOctets(a.value, b.value, c.value, d.value))
        else None
  }

  /** The dotted text of an address (`str(IPv4Address(n))`). */
  function FormatAddress(n: nat): string
    requires n < AddressCount
  {
    ShowNat(n / 16777216) + "." + ShowNat(n / 65536 % 256) + "." + ShowNat(n / 256 % 256) + "." + ShowNat(n % 256)
  }

  /** The netmask with `p` leading one bits. */
  function Mask(p: nat): nat
    requires p <= 32
  {
    var ones: nat := Pow2(p) - 1;
    var hosts: nat := Pow2(32 - p);
    ones * hosts
  }

  /** `a & netmask` for the mask of prefix `p`: the address with its host bits cleared. */
  function Masked(a: nat, p: nat): (r: nat)
    requires p <= 32
  {
    var k := Pow2(32 - p);
    Quotient(a, k) * k
  }

  /** Division of a natural number by a positive one stays natural. */
  function Quotient(a: nat, k: nat): nat
    requires k > 0
  {
    a / k
  }

  /** The prefix length whose netmask is `v`, searching from `p` up. */
  function FindPrefix(v: nat, p: nat): (r: Option<nat>)
    requires p <= 33
    ensures r.Some? ==> p <= r.value <= 32 && Mask(r.value) == v
    ensures r.None? ==> forall q | p <= q <= 32 :: Mask(q) != v
    decreases 33 - p
  {
    if p > 32 then None else if Mask(p) == v then Some(p) else FindPrefix(v, p + 1)
  }

  /** `_prefix_from_prefix_string`: ASCII digits whose value is at most 32. */
  function PrefixFromString(s: string): (r: Option<nat>)
    ensures r.Some? <==> IsDigits(s) && DigitsValue(s) <= 32
  {
    if IsDigits(s) && DigitsValue(s) <= 32 then Some(DigitsValue(s)) else None
  }

  /** `_make_netmask` on text: a prefix length, else a dotted netmask, else a dotted hostmask.
      `None` is the `NetmaskValueError` case. */
  function ParsePrefix(s: string): (r: Option<nat>)
    ensures r.Some? ==> r.value <= 32
  {
    match PrefixFromString(s)
    case Some(p) => Some(p)
    case None =>
      match ParseAddress(s)
      case None => None
      case Some(v) =>
        match FindPrefix(v, 0)
        case Some(p) => Some(p)
        case None => FindPrefix(AllOnes - v, 0)
  }

  /** An IPv4 network: its (host-bits-cleared) address and prefix length. */
  datatype Network = Network(address: nat, prefix: nat)

  /** `IPv4Network(s, strict=False)`: an address, then optionally '/' and a prefix, netmask or
      hostmask; host bits set in the address are cleared rather than refused. */
  function ParseNetwork(s: string): (r: Option<Network>)
    ensures r.Some? ==> r.value.prefix <= 32
    ensures r.Some? ==> CountChar(s, '/') <= 1 && ParseAddress(Split(s, '/')[0]).Some?
    ensures r.Some? ==> r.value.address == Masked(ParseAddress(Split(s, '/')[0]).value, r.value.prefix)
  {
    var parts := Split(s, '/');
    if |parts| > 2 then None
    else
      match ParseAddress(parts[0])
      case None => None
      case Some(a) =>
        var prefix := if |parts| == 1 then Some(32) else ParsePrefix(parts[1]);
        match prefix
        case None => None
        case Some(p) => Some(Network(Masked(a, p), p))
  }

  /** `address in network`. */
  predicate Contains(n: Network, a: nat)
    requires n.prefix <= 32
  {
    Masked(a, n.prefix) == n.address
  }

  /** `_is_ip_in_subnet` of graph_checks/subnet_mismatches.py: membership, with any text that does
      not parse counting as a member. */
  function IsIpInSubnet(ip: string, cidr: string): (r: bool)
  {
    match ParseAddress(ip)
    case None => true
    case Some(a) =>
      match ParseNetwork(cidr)
      case None => true
      case Some(n) => Contains(n, a)
  }

  // ---------------------------------------------------------------------------------------------
  // Properties

  /** Division by a positive number undoes multiplication by it. */
  lemma MulDiv(q: nat, k: nat)
    requires k > 0
    ensures q * k / k == q
  {
    var d, m := q * k / k, q * k % k;
    assert q * k == d * k + m && 0 <= m < k;
    if d < q {
      assert (q - d) * k == m;
      MulAtLeast(q - d, k);
    } else if d > q {
      assert (d - q) * k == 0 - m;
      MulAtLeast(d - q, k);
    }
  }

  /** A positive multiple of `k` is at least `k`. */
  lemma MulAtLeast(j: nat, k: nat)
    requires j >= 1
    ensures j * k >= k
  {
    assert j * k == (j - 1) * k + k;
  }

  /** Text that splits at its one '/' into an address and a prefix length reads as the network of
      that address's top bits. */
  lemma ParseNetworkOfTwo(s: string, addr: string, prefix: string, a: nat, p: nat)
    requires Split(s, '/') == [addr, prefix] && ParseAddress(addr) == Some(a) && ParsePrefix(prefix) == Some(p)
    ensures ParseNetwork(s) == Some(Network(Masked(a, p), p))
  {
  }

  /** Clearing the host bits twice is clearing them once. */
  lemma MaskedTwice(a: nat, p: nat)
    requires p <= 32
    ensures Masked(Masked(a, p), p) == Masked(a, p)
  {
    var k := Pow2(32 - p);
    var q := a / k;
    assert Masked(a, p) == q * k;
    MulDiv(q, k);
    assert Masked(q * k, p) == q * k / k * k;
  }

  /** Two addresses agree on their masked form iff they agree on their top `p` bits. */
  lemma MaskedEqual(a: nat, b: nat, p: nat)
    requires p <= 32
    ensures Masked(a, p) == Masked(b, p) <==> a / Pow2(32 - p) == b / Pow2(32 - p)
  {
    var k := Pow2(32 - p);
    assert Masked(a, p) == a / k * k && Masked(b, p) == b / k * k;
    ScaledEqual(a / k, b / k, k);
  }

  /** Multiplying by a positive number is one to one. */
  lemma ScaledEqual(x: nat, y: nat, k: nat)
    requires k > 0
    ensures x * k == y * k <==> x == y
  {
    MulDiv(x, k);
    MulDiv(y, k);
  }

  /** The check fails exactly when both texts parse and the address lies outside the network: the
      top `prefix` bits of the address differ from those of the network's address, whatever host
      bits the network text carried. */
  lemma IsIpInSubnetSpec(ip: string, cidr: string)
    ensures !IsIpInSubnet(ip, cidr) <==>
      && ParseAddress(ip).Some? && ParseNetwork(cidr).Some?
      && var p := ParseNetwork(cidr).value.prefix;
         ParseAddress(ip).value / Pow2(32 - p) != ParseAddress(Split(cidr, '/')[0]).value / Pow2(32 - p)
  {
    if ParseAddress(ip).Some? && ParseNetwork(cidr).Some? {
      var p := ParseNetwork(cidr).value.prefix;
      var base := ParseAddress(Split(cidr, '/')[0]).value;
      MaskedEqual(ParseAddress(ip).value, base, p);
      MaskedTwice(base, p);
    }
  }

  /** Text without the separator is a single piece. */
  lemma {:induction false} SplitWithout(s: string, c: char)
    requires c !in s
    ensures Split(s, c) == [s]
  {
    if s != [] {
      SplitWithout(s[..|s| - 1], c);
      assert s == s[..|s| - 1] + [s[|s| - 1]];
    }
  }

  /** Splitting at a separator splits the two sides apart. */
  lemma {:induction false} SplitAt(x: string, c: char, y: string)
    ensures Split(x + [c] + y, c) == Split(x, c) + Split(y, c)
    decreases |y|
  {
    if y == [] {
      assert x + [c] + y == x + [c];
      SplitSnoc(x, c, c);
      assert Split(y, c) == [""];
    } else {
      var y', e := y[..|y| - 1], y[|y| - 1];
      assert y == y' + [e];
      SplitAt(x, c, y');
      SplitAtSnoc(x, c, y', e);
    }
  }

  /** The step of `SplitAt`: one more character after the separator. */
  lemma SplitAtSnoc(x: string, c: char, y: string, e: char)
    requires Split(x + [c] + y, c) == Split(x, c) + Split(y, c)
    ensures Split(x + [c] + (y + [e]), c) == Split(x, c) + Split(y + [e], c)
  {
    assert x + [c] + (y + [e]) == (x + [c] + y) + [e];
    if e == c {
      SplitAtSeparator(x, c, y);
    } else {
      SplitAtOther(x, c, y, e);
    }
  }

  /** `SplitAtSnoc` for a second separator: both sides gain an empty piece. */
  lemma SplitAtSeparator(x: string, c: char, y: string)
    requires Split(x + [c] + y, c) == Split(x, c) + Split(y, c)
    ensures Split(x + [c] + y + [c], c) == Split(x, c) + Split(y + [c], c)
  {
    var a, b := Split(x, c), Split(y, c);
    SplitSnoc(x + [c] + y, c, c);
    SplitSnoc(y, c, c);
    assert a + b + [""] == a + (b + [""]);
  }

  /** `SplitAtSnoc` for any other character: both sides extend their last piece. */
  lemma SplitAtOther(x: string, c: char, y: string, e: char)
    requires e != c
    requires Split(x + [c] + y, c) == Split(x, c) + Split(y, c)
    ensures Split(x + [c] + y + [e], c) == Split(x, c) + Split(y + [e], c)
  {
    var a, b := Split(x, c), Split(y, c);
    ExtendsLastPiece(x + [c] + y, e, c, a + b);
    ExtendsLastPiece(y, e, c, b);
    ExtendLast(a, b, e);
  }

  /** A character other than the separator extends the last piece. */
  lemma ExtendsLastPiece(s: string, e: char, c: char, r: seq<string>)
    requires e != c && Split(s, c) == r
    ensures r != [] && Split(s + [e], c) == r[..|r| - 1] + [r[|r| - 1] + [e]]
  {
    SplitSnoc(s, e, c);
  }

  /** Extending the last piece of `a + b`, for a non-empty `b`, extends the last piece of `b`. */
  lemma ExtendLast(a: seq<string>, b: seq<string>, e: char)
    requires b != []
    ensures var ab := a + b;
      ab[..|ab| - 1] + [ab[|ab| - 1] + [e]] == a + (b[..|b| - 1] + [b[|b| - 1] + [e]])
  {
    var ab := a + b;
    assert ab[..|ab| - 1] == a + b[..|b| - 1];
    assert ab[|ab| - 1] == b[|b| - 1];
  }

  /** One more character: a separator opens a new piece, anything else extends the last one. */
  lemma SplitSnoc(s: string, e: char, c: char)
    ensures Split(s + [e], c) ==
      var r := Split(s, c);
      if e == c then r + [""] else r[..|r| - 1] + [r[|r| - 1] + [e]]
  {
    assert (s + [e])[..|s|] == s;
  }

  /** Four pieces without dots, joined by dots, split back into the four pieces. */
  lemma SplitFour(a: string, b: string, c: string, d: string)
    requires '.' !in a && '.' !in b && '.' !in c && '.' !in d
    ensures Split(a + "." + b + "." + c + "." + d, '.') == [a, b, c, d]
  {
    SplitWithout(a, '.');
    SplitWithout(b, '.');
    SplitWithout(c, '.');
    SplitWithout(d, '.');
    SplitAt(a, '.', b);
    SplitAt(a + "." + b, '.', c);
    SplitAt(a + "." + b + "." + c, '.', d);
  }

  /** The four bytes of an address put back together give the address. */
  lemma OctetsOf(n: nat)
    requires n < AddressCount
    ensures FromOctets(n / 16777216, n / 65536 % 256, n / 256 % 256, n % 256) == n
  {
    var q1 := n / 256;
    var q2 := q1 / 256;
    assert n == q1 * 256 + n % 256;
    assert q1 == q2 * 256 + q1 % 256;
    assert n / 65536 == q2 by {
      assert n == q2 * 65536 + (q1 % 256 * 256 + n % 256);
    }
    assert n / 16777216 == q2 / 256 by {
      assert n == q2 / 256 * 16777216 + (q2 % 256 * 65536 + q1 % 256 * 256 + n % 256);
    }
    assert q2 == q2 / 256 * 256 + q2 % 256;
  }

  /** Decimal text of an octet: at most three digits, no leading zero unless it is "0". */
  lemma {:induction false} ShowOctet(n: nat)
    requires n < 256
    ensures ParseOctet(ShowNat(n)) == Some(n)
  {
    ShowNatValue(n);
    var s := ShowNat(n);
    if n >= 10 {
      ShowNatLead(n);
    }
    assert |s| <= 3 by {
      if n >= 100 {
        assert ShowNat(n) == ShowNat(n / 10) + [('0' as int + n % 10) as char];
        assert ShowNat(n / 10) == ShowNat(n / 100) + [('0' as int + n / 10 % 10) as char];
      } else if n >= 10 {
        assert ShowNat(n) == ShowNat(n / 10) + [('0' as int + n % 10) as char];
      }
    }
  }

  /** The decimal text of a number of two or more digits does not start with '0'. */
  lemma {:induction false} ShowNatLead(n: nat)
    requires n >= 10
    ensures ShowNat(n)[0] != '0'
  {
    if n / 10 >= 10 {
      ShowNatLead(n / 10);
    }
  }

  /** The decimal text of an octet parses back to it and holds neither '.' nor '/'. */
  lemma OctetText(n: nat)
    requires n < 256
    ensures ParseOctet(ShowNat(n)) == Some(n) && '.' !in ShowNat(n) && '/' !in ShowNat(n)
  {
    ShowOctet(n);
    assert IsDigits(ShowNat(n));
  }

  /** Four octets written in decimal and joined by dots parse to the address they make up. */
  lemma ParseJoined(a: nat, b: nat, c: nat, d: nat)
    requires a < 256 && b < 256 && c < 256 && d < 256
    ensures ParseAddress(ShowNat(a) + "." + ShowNat(b) + "." + ShowNat(c) + "." + ShowNat(d))
         == Some(FromOctets(a, b, c, d))
  {
    OctetText(a);
    OctetText(b);
    OctetText(c);
    OctetText(d);
    var sa, sb, sc, sd := ShowNat(a), ShowNat(b), ShowNat(c), ShowNat(d);
    SplitFour(sa, sb, sc, sd);
    var t := sa + "." + sb + "." + sc + "." + sd;
    assert '/' !in t;
  }

  /** Round trip: the dotted text of an address parses back to it. */
  lemma ParseFormat(n: nat)
    requires n < AddressCount
    ensures ParseAddress(FormatAddress(n)) == Some(n)
  {
    ParseJoined(n / 16777216, n / 65536 % 256, n / 256 % 256, n % 256);
    OctetsOf(n);
  }

  /** BACnet MS/TP and other non-IP addresses never fail the check. */
  lemma NonIpAddressesPass(cidr: string)
    ensures IsIpInSubnet("1001:5", cidr)
    ensures IsIpInSubnet("not-an-ip-address", cidr)
  {
    SplitWithout("1001:5", '.');
    SplitWithout("not-an-ip-address", '.');
  }
}
