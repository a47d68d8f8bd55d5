/** LAN settings and the subnet checks every LAN change must pass (`agent/src/router.rs`). */
module LanRules {
  import opened Prelude
  import opened Bits
  import opened Text

  datatype LanSettings = LanSettings(
    ipaddr: string,
    netmask: string,
    dhcpEnabled: bool,
    dhcpStart: string,
    dhcpEnd: string,
    leaseSeconds: nat)

  datatype SettingsError =
    | BadAddress
    | BadNetmask
    | BadDhcpStart
    | BadDhcpEnd
    | NotPrivate
    | NetmaskNotContiguous
    | NotAHostAddress
    | RangeOutsideSubnet
    | RangeNotAscending
    | RangeIncludesRouter
    | BadLease

  function ParseOctet(s: string): Option<nat> {
    if |s| < 1 || |s| > 3 || !AllDigits(s) || (|s| > 1 && s[0] == '0') || DecimalValue(s) > 255 then None
    else Some(DecimalValue(s))
  }

  /** `Ipv4Addr::from_str` followed by `u32::from`: four octets without leading zeros. */
  function ParseIpv4(s: string): (ip: Option<nat>)
    ensures ip.Some? ==> ip.value < U32_SIZE
  {
    var parts := Split(s, '.');
    if |parts| != 4 then None
    else match (ParseOctet(parts[0]), ParseOctet(parts[1]), ParseOctet(parts[2]), ParseOctet(parts[3]))
      case (Some(a), Some(b), Some(c), Some(d)) => Some(((a * 256 + b) * 256 + c) * 256 + d)
      case _ => None
  }

  /** RFC 1918 section 3: 10/8, 172.16/12 and 192.168/16. */
  predicate IsPrivate(ip: nat) {
    || ip / 0x100_0000 == 10
    || ip / 0x10_0000 == 172 * 16 + 1
    || ip / 0x1_0000 == 192 * 256 + 168
  }

  /** The checks as the agent makes them, with bitwise tests on 32-bit words. `None` accepts. */
  function Validate(s: LanSettings): Option<SettingsError> {
    match (ParseIpv4(s.ipaddr), ParseIpv4(s.netmask), ParseIpv4(s.dhcpStart), ParseIpv4(s.dhcpEnd))
    case (None, _, _, _) => Some(BadAddress)
    case (_, None, _, _) => Some(BadNetmask)
    case (_, _, None, _) => Some(BadDhcpStart)
    case (_, _, _, None) => Some(BadDhcpEnd)
    case (Some(ip), Some(mask), Some(start), Some(end)) =>
      CheckNumbers(ip, mask, start, end, s.leaseSeconds)
  }

  function CheckNumbers(ip: nat, mask: nat, start: nat, end: nat, lease: nat): Option<SettingsError>
    requires mask < U32_SIZE
  {
    var inverse := U32_SIZE - 1 - mask;
    var network := And(ip, mask);
    if !IsPrivate(ip) then Some(NotPrivate)
    else if !NetmaskAccepted(mask) then Some(NetmaskNotContiguous)
    else CheckHosts(ip, network, Or(network, inverse), start, And(start, mask), end, And(end, mask), lease)
  }

  /** The bit tests on the netmask: contiguous, and between /8 and /30. */
  predicate NetmaskAccepted(mask: nat)
    requires mask < U32_SIZE
  {
    var inverse := U32_SIZE - 1 - mask;
    And(inverse, (inverse + 1) % U32_SIZE) == 0 && 8 <= CountOnes(mask) <= 30
  }

  function CheckHosts(ip: nat, network: nat, broadcast: nat, start: nat, startNetwork: nat,
                      end: nat, endNetwork: nat, lease: nat): Option<SettingsError>
  {
    if ip == network || ip == broadcast then Some(NotAHostAddress)
    else if startNetwork != network || endNetwork != network then Some(RangeOutsideSubnet)
    else if start >= end || start == network || end == broadcast then Some(RangeNotAscending)
    else if start <= ip <= end then Some(RangeIncludesRouter)
    else if !(60 <= lease <= 604_800) then Some(BadLease)
    else None
  }

  predicate Valid(s: LanSettings) {
    Validate(s).None?
  }

  /** The same acceptance rule in plain arithmetic: a subnet of `2^hostBits` addresses. */
  predicate UsableSubnet(hostBits: nat, ip: nat, mask: nat, start: nat, end: nat, lease: nat) {
    && 2 <= hostBits <= 24
    && mask == U32_SIZE - Pow2(hostBits)
    && IsPrivate(ip)
    && var base := ip - ip % Pow2(hostBits);
       var last := base + Pow2(hostBits) - 1;
    && base < ip < last
    && base < start < end < last
    && !(start <= ip <= end)
    && 60 <= lease <= 604_800
  }

  ghost predicate Usable(ip: nat, mask: nat, start: nat, end: nat, lease: nat) {
    exists hostBits: nat :: UsableSubnet(hostBits, ip, mask, start, end, lease)
  }

  lemma WordSizes()
    ensures Pow2(32) == U32_SIZE
    ensures Pow2(24) == 0x100_0000 && Pow2(2) == 4
  {
    assert Pow2(8) == 256;
    assert Pow2(16) == 0x1_0000;
    assert Pow2(24) == 0x100_0000;
  }

  lemma NoWrap(inverse: nat)
    requires inverse < U32_SIZE - 1
    ensures (inverse + 1) % U32_SIZE == inverse + 1
  {
  }

  lemma AcceptedNetmaskHasHostBits(mask: nat) returns (k: nat)
    requires mask < U32_SIZE && NetmaskAccepted(mask)
    ensures 2 <= k <= 24 && mask == U32_SIZE - Pow2(k)
  {
    var inverse := U32_SIZE - 1 - mask;
    assert mask != 0 by {
      assert CountOnes(0) == 0;
    }
    NoWrap(inverse);
    ContiguousLowBits(inverse);
    k :| inverse == Pow2(k) - 1;
    assert Pow2(32) == U32_SIZE by {
      WordSizes();
    }
    assert k <= 32 by {
      if k > 32 {
        Pow2StrictlyMonotonic(32, k);
      }
    }
    CountOnesHighMask(32, k);
  }

  lemma HostBitsMakeNetmaskAccepted(k: nat)
    requires 2 <= k <= 24
    ensures Pow2(k) < U32_SIZE && NetmaskAccepted(U32_SIZE - Pow2(k))
  {
    hide Pow2, And, CountOnes;
    assert Pow2(32) == U32_SIZE by {
      WordSizes();
    }
    Pow2StrictlyMonotonic(k, 32);
    var mask := U32_SIZE - Pow2(k);
    assert CountOnes(mask) == 32 - k by {
      CountOnesHighMask(32, k);
    }
    var inverse := U32_SIZE - 1 - mask;
    assert inverse == Pow2(k) - 1;
    NoWrap(inverse);
    assert And(inverse, inverse + 1) == 0 by {
      ContiguousLowBits(inverse);
    }
  }

  /** The bit tests on the netmask accept exactly `2^32 - 2^k` with `2 <= k <= 24`. */
  lemma NetmaskTests(mask: nat)
    requires mask < U32_SIZE
    ensures NetmaskAccepted(mask) <==> exists k: nat :: 2 <= k <= 24 && mask == U32_SIZE - Pow2(k)
  {
    if NetmaskAccepted(mask) {
      var k := AcceptedNetmaskHasHostBits(mask);
    }
    if k: nat :| 2 <= k <= 24 && mask == U32_SIZE - Pow2(k) {
      HostBitsMakeNetmaskAccepted(k);
    }
  }

  /** `x` lies in the block of `p` addresses that holds `ip` exactly when both round down alike. */
  lemma SameBlock(x: nat, ip: nat, p: nat)
    requires p >= 1
    ensures var base := ip - ip % p;
            base >= 0 && (x - x % p == base <==> base <= x < base + p)
  {
    var base := ip - ip % p;
    var q := ip / p;
    assert ip == q * p + ip % p;
    if base <= x < base + p {
      ModUnique(x, p, q, x - base);
    }
  }

  /** Masking rounds an address down to the subnet's first one. */
  lemma MaskRoundsDown(x: nat, k: nat)
    requires x < U32_SIZE && k <= 24
    ensures Pow2(k) <= U32_SIZE
    ensures And(x, U32_SIZE - Pow2(k)) == x - x % Pow2(k)
  {
    WordSizes();
    AndHighMask(x, 32, k);
    LowBitsIsRemainder(x, k);
  }

  lemma BroadcastIsLast(ip: nat, k: nat)
    requires k <= 24
    ensures ip - ip % Pow2(k) >= 0
    ensures Or(ip - ip % Pow2(k), Pow2(k) - 1) == ip - ip % Pow2(k) + Pow2(k) - 1
  {
    RoundedDownIsMultiple(ip, Pow2(k));
    OrLowMask(ip - ip % Pow2(k), k);
  }

  lemma RoundedDownIsMultiple(x: nat, p: nat)
    requires p >= 1
    ensures x - x % p >= 0 && (x - x % p) % p == 0
  {
    assert x == (x / p) * p + x % p;
    ModUnique(x - x % p, p, x / p, 0);
  }

  lemma HostsAccepted(p: nat, ip: nat, start: nat, end: nat, lease: nat)
    requires p >= 4
    ensures ip - ip % p >= 0
    ensures var base := ip - ip % p;
            CheckHosts(ip, base, base + p - 1, start, start - start % p, end, end - end % p, lease).None?
            <==> base < ip < base + p - 1 && base < start < end < base + p - 1
                 && !(start <= ip <= end) && 60 <= lease <= 604_800
  {
    SameBlock(start, ip, p);
    SameBlock(end, ip, p);
    SameBlock(ip, ip, p);
  }

  /** The bit tests in blocks of `p` addresses, once masking is known to round down to them. */
  lemma CheckedInBlocks(p: nat, ip: nat, mask: nat, start: nat, end: nat, lease: nat)
    requires 4 <= p <= U32_SIZE && mask == U32_SIZE - p && NetmaskAccepted(mask)
    requires And(ip, mask) == ip - ip % p && And(start, mask) == start - start % p && And(end, mask) == end - end % p
    requires Or(ip - ip % p, p - 1) == ip - ip % p + p - 1
    ensures ip - ip % p >= 0
    ensures var base := ip - ip % p;
            CheckNumbers(ip, mask, start, end, lease).None?
            <==> IsPrivate(ip) && base < ip < base + p - 1 && base < start < end < base + p - 1
                 && !(start <= ip <= end) && 60 <= lease <= 604_800
  {
    hide And, Or, NetmaskAccepted, CheckHosts, IsPrivate;
    HostsAccepted(p, ip, start, end, lease);
  }

  lemma AtLeastFour(k: nat)
    requires 2 <= k
    ensures Pow2(k) >= 4
  {
    WordSizes();
    Pow2Monotonic(2, k);
  }

  lemma NumbersAcceptedFor(k: nat, ip: nat, start: nat, end: nat, lease: nat)
    requires 2 <= k <= 24 && ip < U32_SIZE && start < U32_SIZE && end < U32_SIZE
    ensures Pow2(k) <= U32_SIZE
    ensures CheckNumbers(ip, U32_SIZE - Pow2(k), start, end, lease).None?
            <==> UsableSubnet(k, ip, U32_SIZE - Pow2(k), start, end, lease)
  {
    hide And, Or, Pow2, NetmaskAccepted, CheckNumbers, IsPrivate;
    HostBitsMakeNetmaskAccepted(k);
    AtLeastFour(k);
    MaskRoundsDown(ip, k);
    MaskRoundsDown(start, k);
    MaskRoundsDown(end, k);
    BroadcastIsLast(ip, k);
    CheckedInBlocks(Pow2(k), ip, U32_SIZE - Pow2(k), start, end, lease);
  }

  lemma NumbersAcceptedExactly(ip: nat, mask: nat, start: nat, end: nat, lease: nat)
    requires ip < U32_SIZE && mask < U32_SIZE && start < U32_SIZE && end < U32_SIZE
    ensures CheckNumbers(ip, mask, start, end, lease).None? <==> Usable(ip, mask, start, end, lease)
  {
    if CheckNumbers(ip, mask, start, end, lease).None? {
      var k := AcceptedNetmaskHasHostBits(mask);
      NumbersAcceptedFor(k, ip, start, end, lease);
    }
    if k: nat :| UsableSubnet(k, ip, mask, start, end, lease) {
      NumbersAcceptedFor(k, ip, start, end, lease);
    }
  }

  /** Settings are accepted exactly when all four addresses parse and form a usable subnet. */
  lemma AcceptedExactly(s: LanSettings)
    ensures Valid(s) <==>
            && ParseIpv4(s.ipaddr).Some? && ParseIpv4(s.netmask).Some?
            && ParseIpv4(s.dhcpStart).Some? && ParseIpv4(s.dhcpEnd).Some?
            && Usable(ParseIpv4(s.ipaddr).value, ParseIpv4(s.netmask).value,
                      ParseIpv4(s.dhcpStart).value, ParseIpv4(s.dhcpEnd).value, s.leaseSeconds)
  {
    match (ParseIpv4(s.ipaddr), ParseIpv4(s.netmask), ParseIpv4(s.dhcpStart), ParseIpv4(s.dhcpEnd))
    case (Some(ip), Some(mask), Some(start), Some(end)) =>
      NumbersAcceptedExactly(ip, mask, start, end, s.leaseSeconds);
    case _ =>
  }
}
