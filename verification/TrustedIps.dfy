/**
 * Trusted address ranges: a list of CIDR texts is turned into base-and-mask pairs, and an address
 * is trusted when some pair of its version matches it.
 *
 * The number operators of the source are written out: 32-bit shifts and masks wrap to a signed
 * word, big-integer masks may be negative. The version that the platform reports for an address is
 * a parameter. `None` stands for a thrown range error, and inside the IPv4 fold for NaN.
 */
module TrustedIps {
  import opened Collections
  import opened Bits
  import opened Text

  const WORD: nat := 0x1_0000_0000

  function ToUint32(x: int): nat {
    x % WORD
  }

  function ToInt32(x: int): int {
    if ToUint32(x) >= 0x8000_0000 then ToUint32(x) - WORD else ToUint32(x)
  }

  /** `x << n` on 32-bit words: only the last five bits of `n` count. */
  function ShiftLeft32(x: int, n: int): int {
    ToInt32(ToInt32(x) * Pow2(n % 32))
  }

  function And32(x: int, y: int): int {
    ToInt32(And(ToUint32(x), ToUint32(y)))
  }

  /** `1 << n` on big integers: a negative count shifts right, past the only digit. */
  function OneShiftedBy(n: int): nat {
    if n >= 0 then Pow2(n) else 0
  }

  /** Exclusive or on two's-complement big integers. */
  function XorBig(x: int, y: nat): int {
    if x >= 0 then Xor(x, y) else -1 - Xor(-1 - x, y)
  }

  /** `x & mask` on big integers: a negative mask is the complement of `-1 - mask`. */
  function AndBig(x: nat, mask: int): int {
    if mask >= 0 then And(x, mask) else x - And(x, -1 - mask)
  }

  datatype Range = Range(base: int, mask: int)

  datatype Ranges = Ranges(v4: seq<Range>, v6: seq<Range>)

  // ---------------------------------------------------------------- reading addresses

  function AddOctet(acc: Option<int>, octet: string): Option<int> {
    var shifted := ShiftLeft32(if acc.Some? then acc.value else 0, 8);
    match ToNumber(octet)
    case None => None
    case Some(n) => Some(shifted + n)
  }

  function FoldOctets(acc: Option<int>, parts: seq<string>): Option<int>
    decreases |parts|
  {
    if parts == [] then acc else FoldOctets(AddOctet(acc, parts[0]), parts[1..])
  }

  function IPv4ToLong(ip: string): nat {
    var total := FoldOctets(Some(0), Split(ip, "."));
    ToUint32(if total.Some? then total.value else 0)
  }

  /** The groups as numbers, unless one has no leading digit. */
  function GroupValues(parts: seq<string>): Option<seq<nat>> {
    if parts == [] then Some([])
    else
      match (ParseInt(parts[0], 16), GroupValues(parts[1..]))
      case (Some(v), Some(rest)) => Some([v] + rest)
      case _ => None
  }

  /** Reading digits from the most significant on. */
  function Horner(acc: nat, values: seq<nat>, radix: nat): nat
    decreases |values|
  {
    if values == [] then acc else Horner(acc * radix + values[0], values[1..], radix)
  }

  function Copies<T>(n: nat, x: T): (r: seq<T>)
    ensures |r| == n && forall i :: 0 <= i < n ==> r[i] == x
  {
    if n == 0 then [] else [x] + Copies(n - 1, x)
  }

  function GroupsIn(side: string): seq<string> {
    if side != "" then Split(side, ":") else []
  }

  /** Zeros make up the groups that are missing; a negative number of them is thrown. */
  function Filled(left: seq<string>, right: seq<string>): Option<string> {
    if |left| + |right| > 8 then None
    else Some(Join(left + Copies(8 - |left| - |right|, "0") + right, ":"))
  }

  function ExpandIPv6(ip: string): Option<string> {
    var sides := Split(ip, "::");
    Filled(GroupsIn(sides[0]), GroupsIn(if |sides| > 1 then sides[1] else ""))
  }

  function IPv6ToBigInt(ip: string): Option<nat> {
    var full := if Includes(ip, "::") then ExpandIPv6(ip) else Some(ip);
    match full
    case None => None
    case Some(text) =>
      match GroupValues(Split(text, ":"))
      case None => None
      case Some(values) => Some(Horner(0, values, Pow2(16)))
  }

  // ---------------------------------------------------------------- reading entries

  function Mask4(bits: Option<nat>): nat {
    if bits == Some(0) then 0
    else ToUint32(ShiftLeft32(0xffff_ffff, if bits.Some? then 32 - bits.value else 0))
  }

  function Mask6(bits: nat, width: nat): int {
    if bits == 0 then 0
    else XorBig(OneShiftedBy(width - bits) - 1, OneShiftedBy(width) - 1)
  }

  /** The text after the slash, or nothing when there is none or it is empty. */
  function BitsText(cidr: string): Option<string> {
    var parts := Split(cidr, "/");
    if |parts| > 1 && parts[1] != "" then Some(parts[1]) else None
  }

  function ParseIPv4CIDR(cidr: string): Range {
    var text := BitsText(cidr);
    var mask := Mask4(if text.Some? then ParseInt(text.value, 10) else Some(32));
    Range(And32(IPv4ToLong(Split(cidr, "/")[0]), mask), mask)
  }

  function ParseIPv6CIDR(cidr: string): Option<Range> {
    var text := BitsText(cidr);
    match (if text.Some? then ParseInt(text.value, 10) else Some(128), IPv6ToBigInt(Split(cidr, "/")[0]))
    case (Some(bits), Some(net)) =>
      var mask := Mask6(bits, 128);
      Some(Range(AndBig(net, mask), mask))
    case _ => None
  }

  function WithEntry(ranges: Ranges, cidr: string): Option<Ranges> {
    if Includes(cidr, ".") then Some(ranges.(v4 := ranges.v4 + [ParseIPv4CIDR(cidr)]))
    else if Includes(cidr, ":") then
      match ParseIPv6CIDR(cidr)
      case None => None
      case Some(range) => Some(ranges.(v6 := ranges.v6 + [range]))
    else Some(ranges)
  }

  function RangesOf(list: seq<string>): Option<Ranges> {
    if list == [] then Some(Ranges([], []))
    else
      match RangesOf(list[..|list| - 1])
      case None => None
      case Some(ranges) => WithEntry(ranges, list[|list| - 1])
  }

  predicate Matches4(range: Range, ip: nat) {
    And32(ip, range.mask) == range.base
  }

  predicate Matches6(range: Range, ip: nat) {
    AndBig(ip, range.mask) == range.base
  }

  function Verdict(ranges: Ranges, addr: string, version: nat): Option<bool> {
    if version == 4 && ranges.v4 != [] then
      Some(exists r :: r in ranges.v4 && Matches4(r, IPv4ToLong(addr)))
    else if version == 6 && ranges.v6 != [] then
      match IPv6ToBigInt(addr)
      case None => None
      case Some(ip) => Some(exists r :: r in ranges.v6 && Matches6(r, ip))
    else Some(false)
  }

  // ---------------------------------------------------------------- the two entry points

  method CreateTrustedIPs(list: seq<string>) returns (result: Option<Ranges>)
    ensures result == RangesOf(list)
  {
    var v4: seq<Range>, v6: seq<Range> := [], [];
    var i := 0;
    while i < |list|
      invariant i <= |list|
      invariant RangesOf(list[..i]) == Some(Ranges(v4, v6))
    {
      var cidr := list[i];
      OneMore(list, i);
      if Includes(cidr, ".") {
        v4 := v4 + [ParseIPv4CIDR(cidr)];
      } else if Includes(cidr, ":") {
        var range := ParseIPv6CIDR(cidr);
        if range.None? {
          Thrown(list, i + 1);
          return None;
        }
        v6 := v6 + [range.value];
      }
      i := i + 1;
    }
    assert list[..i] == list;
    return Some(Ranges(v4, v6));
  }

  lemma OneMore(list: seq<string>, i: nat)
    requires i < |list|
    ensures RangesOf(list[..i + 1])
         == match RangesOf(list[..i]) case None => None case Some(ranges) => WithEntry(ranges, list[i])
  {
    assert list[..i + 1][..i] == list[..i];
  }

  /** An entry that throws spoils every list that starts with it. */
  lemma {:induction false} Thrown(list: seq<string>, n: nat)
    requires n <= |list| && RangesOf(list[..n]) == None
    ensures RangesOf(list) == None
    decreases |list|
  {
    if n < |list| {
      assert list[..|list| - 1][..n] == list[..n];
      Thrown(list[..|list| - 1], n);
    } else {
      assert list[..n] == list;
    }
  }

  method IsTrusted(ranges: Ranges, addr: string, version: nat) returns (result: Option<bool>)
    ensures result == Verdict(ranges, addr, version)
  {
    if |ranges.v4| == 0 && |ranges.v6| == 0 {
      return Some(false);
    }
    if version == 4 && |ranges.v4| > 0 {
      var ip := IPv4ToLong(addr);
      for i := 0 to |ranges.v4|
        invariant forall k :: 0 <= k < i ==> !Matches4(ranges.v4[k], ip)
      {
        if And32(ip, ranges.v4[i].mask) == ranges.v4[i].base {
          assert Matches4(ranges.v4[i], ip);
          return Some(true);
        }
      }
    } else if version == 6 && |ranges.v6| > 0 {
      var num := IPv6ToBigInt(addr);
      if num.None? {
        return None;
      }
      for i := 0 to |ranges.v6|
        invariant forall k :: 0 <= k < i ==> !Matches6(ranges.v6[k], num.value)
      {
        if AndBig(num.value, ranges.v6[i].mask) == ranges.v6[i].base {
          assert Matches6(ranges.v6[i], num.value);
          return Some(true);
        }
      }
    }
    return Some(false);
  }
}
