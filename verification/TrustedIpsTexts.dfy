/**
 Texts as people write them, and texts that do not read as an address: numbers in decimal and hexadecimal
 digits, octets that are empty or no number, too many groups, unreadable lengths, entries of neither syntax.
 */
module TrustedIpsTexts {
  import opened Collections
  import opened Bits
  import opened Text
  import opened TrustedIps
  import opened TrustedIpsProperties

  // ---------------------------------------------------------------- numbers as they are written

  const LOWER := "0123456789abcdef"
  const UPPER := "0123456789ABCDEF"

  lemma SmallerQuotient(n: nat, base: nat, q: nat, d: nat)
    requires base >= 2 && n == base * q + d && d < base
    ensures AppendDigit(q, base, d) == n
    ensures if n < base then d == n else q < n
  {
    if q > 0 {
      assert base * q >= 2 * q;
    }
  }

  lemma LastDigit(n: nat, base: nat)
    requires base >= 2
    ensures AppendDigit(n / base, base, n % base) == n && n % base < base
    ensures if n < base then n % base == n else n / base < n
  {
    SmallerQuotient(n, base, n / base, n % base);
  }

  /** The number in the given base, most significant digit first; `alphabet` lists the digits. */
  function Written(n: nat, base: nat, alphabet: string): (s: string)
    requires 2 <= base <= |alphabet|
    ensures s != ""
  {
    LastDigit(n, base);
    var last := [alphabet[n % base]];
    if n < base then last else Written(n / base, base, alphabet) + last
  }

  ghost predicate ListsDigits(alphabet: string) {
    |alphabet| == 16 && forall k :: 0 <= k < 16 ==> DigitValue(alphabet[k]) == k
  }

  lemma BothListDigits()
    ensures ListsDigits(LOWER) && ListsDigits(UPPER)
  {
  }

  lemma NumeralSnoc(front: string, last: char, base: nat)
    requires (forall i :: 0 <= i < |front| ==> IsDigit(front[i], base)) && IsDigit(last, base)
    ensures IsNumeral(front + [last], base)
    ensures ValueOf(front + [last], base) == AppendDigit(ValueOf(front, base), base, DigitValue(last))
  {
    var s := front + [last];
    assert s[..|s| - 1] == front && s[|s| - 1] == last;
  }

  lemma WrittenLast(n: nat, base: nat, alphabet: string)
    requires 2 <= base <= |alphabet|
    ensures n % base < base
    ensures Written(n, base, alphabet)
         == if n < base then [alphabet[n % base]] else Written(n / base, base, alphabet) + [alphabet[n % base]]
  {
  }

  /** A written number ends in its last digit. */
  lemma WrittenParts(n: nat, base: nat, alphabet: string) returns (rest: nat, last: nat)
    requires 2 <= base <= |alphabet|
    ensures last < base && n == AppendDigit(rest, base, last) && (n >= base ==> rest < n) && (n < base ==> last == n)
    ensures Written(n, base, alphabet)
         == if n < base then [alphabet[last]] else Written(rest, base, alphabet) + [alphabet[last]]
  {
    hide AppendDigit, Written;
    LastDigit(n, base);
    WrittenLast(n, base, alphabet);
    return n / base, n % base;
  }

  /** Reading a written number gives it back, in either case. */
  lemma {:induction false} ReadsWhatIsWritten(n: nat, base: nat, alphabet: string)
    requires 2 <= base <= 16 && ListsDigits(alphabet)
    ensures var s := Written(n, base, alphabet);
            IsNumeral(s, base) && ValueOf(s, base) == n
  {
    hide ValueOf, DigitValue, AppendDigit, IsNumeral, Written;
    var rest, last := WrittenParts(n, base, alphabet);
    if n < base {
      OneDigit(alphabet[last], base);
    } else {
      ReadsWhatIsWritten(rest, base, alphabet);
      NumeralDigits(Written(rest, base, alphabet), base);
      NumeralSnoc(Written(rest, base, alphabet), alphabet[last], base);
    }
  }

  lemma NumeralDigits(s: string, base: nat)
    requires IsNumeral(s, base)
    ensures forall i :: 0 <= i < |s| ==> IsDigit(s[i], base)
  {
  }

  lemma OneDigit(last: char, base: nat)
    requires IsDigit(last, base)
    ensures IsNumeral([last], base) && ValueOf([last], base) == DigitValue(last)
  {
    assert [last][..0] == "";
  }

  lemma ParsesWhatIsWritten(n: nat, base: nat, alphabet: string)
    requires 2 <= base <= 16 && ListsDigits(alphabet)
    ensures ParseInt(Written(n, base, alphabet), base) == Some(n)
    ensures base == 10 ==> ToNumber(Written(n, base, alphabet)) == Some(n)
  {
    ReadsWhatIsWritten(n, base, alphabet);
    DigitsOfNumeral(Written(n, base, alphabet), base);
  }

  function Octet(n: nat): string {
    Written(n, 10, LOWER)
  }

  /** A dotted quad of four numbers reads as the number that they are the bytes of. */
  lemma ReadsWrittenQuad(a: nat, b: nat, c: nat, d: nat)
    requires a < 256 && b < 256 && c < 256 && d < 256
    ensures IPv4ToLong(Octet(a) + "." + Octet(b) + "." + Octet(c) + "." + Octet(d))
         == a * 0x100_0000 + b * 0x1_0000 + c * 0x100 + d
  {
    hide Written, IPv4ToLong;
    var quad := V4([Octet(a), Octet(b), Octet(c), Octet(d)]);
    QuadIsValid(a, b, c, d);
    ReadsV4(quad);
    JoinFour(Octet(a), Octet(b), Octet(c), Octet(d));
    QuadNumber(a, b, c, d);
  }

  lemma JoinFour(a: string, b: string, c: string, d: string)
    ensures Join([a, b, c, d], ".") == a + "." + b + "." + c + "." + d
  {
    assert [a, b, c, d][1..] == [b, c, d] && [b, c, d][1..] == [c, d] && [c, d][1..] == [d];
    var two := c + "." + d;
    var three := b + "." + two;
    assert Join([c, d], ".") == two && Join([b, c, d], ".") == three;
    assert a + "." + three == a + "." + b + "." + two;
    assert a + "." + b + "." + two == a + "." + b + "." + c + "." + d;
  }

  lemma QuadIsValid(a: nat, b: nat, c: nat, d: nat)
    requires a < 256 && b < 256 && c < 256 && d < 256
    ensures var quad := V4([Octet(a), Octet(b), Octet(c), Octet(d)]);
            quad.Valid() && quad.Groups() == [a, b, c, d]
  {
    hide Written, ValueOf, IsDigit;
    var octets, numbers := [Octet(a), Octet(b), Octet(c), Octet(d)], [a, b, c, d];
    forall i | 0 <= i < 4 ensures IsNumeral(octets[i], 10) && ValueOf(octets[i], 10) == numbers[i] {
      BothListDigits();
      ReadsWhatIsWritten(numbers[i], 10, LOWER);
    }
    forall i | 0 <= i < 4 ensures Values(octets, 10)[i] == numbers[i] {
      ValuesAt(octets, 10, i);
    }
    assert Values(octets, 10) == numbers;
  }

  lemma QuadNumber(a: nat, b: nat, c: nat, d: nat)
    ensures NumberOf([a, b, c, d], 8) == a * 0x100_0000 + b * 0x1_0000 + c * 0x100 + d
  {
    assert Pow2(8) == 256;
    HornerCons(0, a, [b, c, d], 256);
    HornerCons(a, b, [c, d], 256);
    HornerCons(a * 256 + b, c, [d], 256);
    HornerCons((a * 256 + b) * 256 + c, d, [], 256);
    assert [a] + [b, c, d] == [a, b, c, d] && [b] + [c, d] == [b, c, d] && [c] + [d] == [c, d] && [d] + [] == [d];
    HornerNone(((a * 256 + b) * 256 + c) * 256 + d, 256);
  }

  // ---------------------------------------------------------------- octets that are no number

  /** An octet that is no number spoils all that was read before it, and nothing after it. */
  lemma UnreadableOctetWipes(front: seq<string>, octet: string, rest: seq<string>)
    requires ToNumber(octet) == None
    ensures FoldOctets(Some(0), front + [octet] + rest)
         == if rest == [] then None else FoldOctets(Some(0), rest)
  {
    FoldAppend(Some(0), front, [octet] + rest);
    assert front + [octet] + rest == front + ([octet] + rest);
    FoldFirst(FoldOctets(Some(0), front), octet, rest);
  }

  lemma {:induction false} FoldAppend(acc: Option<int>, a: seq<string>, b: seq<string>)
    ensures FoldOctets(acc, a + b) == FoldOctets(FoldOctets(acc, a), b)
    decreases |a|
  {
    hide AddOctet;
    if a == [] {
      assert a + b == b;
    } else {
      assert (a + b)[0] == a[0] && (a + b)[1..] == a[1..] + b;
      FoldAppend(AddOctet(acc, a[0]), a[1..], b);
    }
  }

  /** So a dotted text reads as its octets behind the last one that is no number, or as 0 when that is the last. */
  lemma UnreadableQuad(front: seq<string>, octet: string, rest: seq<string>)
    requires ToNumber(octet) == None && forall p :: p in front + [octet] + rest ==> Lacks(p, '.')
    ensures IPv4ToLong(Join(front + [octet] + rest, "."))
         == if rest == [] then 0 else IPv4ToLong(Join(rest, "."))
  {
    SplitJoin(front + [octet] + rest, '.');
    UnreadableOctetWipes(front, octet, rest);
    if rest != [] {
      assert forall p :: p in rest ==> p in front + [octet] + rest;
      SplitJoin(rest, '.');
    }
  }

  /** An empty octet reads as 0. */
  lemma EmptyOctetIsZero(front: seq<string>, rest: seq<string>)
    ensures FoldOctets(Some(0), front + [""] + rest) == FoldOctets(Some(0), front + ["0"] + rest)
  {
    assert front + [""] + rest == front + ([""] + rest) && front + ["0"] + rest == front + (["0"] + rest);
    hide FoldOctets, AddOctet;
    FoldAppend(Some(0), front, [""] + rest);
    FoldAppend(Some(0), front, ["0"] + rest);
    var acc := FoldOctets(Some(0), front);
    FoldFirst(acc, "", rest);
    FoldFirst(acc, "0", rest);
    AddsNothing(acc);
  }

  lemma FoldFirst(acc: Option<int>, octet: string, rest: seq<string>)
    ensures FoldOctets(acc, [octet] + rest) == FoldOctets(AddOctet(acc, octet), rest)
  {
    hide AddOctet;
    assert ([octet] + rest)[1..] == rest;
  }

  lemma AddsNothing(acc: Option<int>)
    ensures AddOctet(acc, "") == AddOctet(acc, "0")
  {
    hide ToNumber, ShiftLeft32;
    BothAreZero();
  }

  lemma BothAreZero()
    ensures ToNumber("") == Some(0) && ToNumber("0") == Some(0)
  {
    hide ValueOf;
    OneDigit('0', 10);
  }

  // ---------------------------------------------------------------- groups

  /** A text with `::` throws exactly when it has more than eight groups beside it. */
  lemma TooManyGroupsIff(left: seq<string>, right: seq<string>)
    requires Numerals(left, 16) && Numerals(right, 16)
    ensures IPv6ToBigInt(Join(left, ":") + "::" + Join(right, ":")) == None <==> |left| + |right| > 8
  {
    hide Numerals, Join, Split, Copies, Filled, GroupsIn, ExpandIPv6, IPv6ToBigInt, NoDouble;
    var l, r := Join(left, ":"), Join(right, ":");
    SideBySide(left);
    SideBySide(right);
    SplitAtDouble(l, ':', r);
    assert GroupsIn(l) == left && GroupsIn(r) == right by {
      SideGroups(left);
      SideGroups(right);
    }
    ExpandsUpToEight(l + "::" + r, l, r, left, right);
    if |left| + |right| <= 8 {
      FilledNumerals(left, right);
      ReadsFull(left + Copies(8 - |left| - |right|, "0") + right);
    }
    ThrowsIfNotFilled(l + "::" + r, left, right);
  }

  lemma SideGroups(parts: seq<string>)
    requires Numerals(parts, 16)
    ensures GroupsIn(Join(parts, ":")) == parts
  {
    hide Numerals, Join, Split;
    SideBySide(parts);
  }

  lemma ThrowsIfNotFilled(text: string, left: seq<string>, right: seq<string>)
    requires Includes(text, "::") && ExpandIPv6(text) == Filled(left, right)
    requires |left| + |right| <= 8 ==>
               GroupValues(Split(Join(left + Copies(8 - |left| - |right|, "0") + right, ":"), ":")) != None
    ensures IPv6ToBigInt(text) == None <==> |left| + |right| > 8
  {
    hide Horner, GroupValues, ExpandIPv6, Join, Split, Copies, Includes, GroupsIn;
  }

  lemma ExpandsUpToEight(text: string, l: string, r: string, left: seq<string>, right: seq<string>)
    requires Split(text, "::") == [l, r] && GroupsIn(l) == left && GroupsIn(r) == right
    ensures ExpandIPv6(text) == Filled(left, right)
  {
    hide GroupsIn, Filled;
  }

  lemma FilledNumerals(left: seq<string>, right: seq<string>)
    requires Numerals(left, 16) && Numerals(right, 16) && |left| + |right| <= 8
    ensures var full := left + Copies(8 - |left| - |right|, "0") + right; Numerals(full, 16) && full != []
  {
    hide IsNumeral, Numerals, Copies, ValueOf, Values;
    ZeroNumeral();
    FilledValues(left, right, 8 - |left| - |right|, "0");
  }

  predicate IsUnreadable(group: string) {
    group == "" || !IsDigit(group[0], 16)
  }

  /** A text without `::` throws exactly when some group has no leading hexadecimal digit. */
  lemma UnreadableGroupIff(parts: seq<string>)
    requires parts != [] && (forall p :: p in parts ==> p != "" && Lacks(p, ':'))
    ensures IPv6ToBigInt(Join(parts, ":")) == None <==> exists p :: p in parts && IsUnreadable(p)
  {
    hide Horner, IsUnreadable;
    JoinNoDouble(parts, ':');
    SplitNoDouble(Join(parts, ":"), ':');
    SplitJoin(parts, ':');
    GroupsReadIff(parts);
  }

  lemma {:induction false} GroupsReadIff(parts: seq<string>)
    ensures GroupValues(parts) == None <==> exists p :: p in parts && IsUnreadable(p)
  {
    if parts != [] {
      GroupsReadIff(parts[1..]);
      assert forall p :: p in parts <==> p == parts[0] || p in parts[1..];
      assert ParseInt(parts[0], 16) == None <==> IsUnreadable(parts[0]);
    }
  }

  // ---------------------------------------------------------------- entries that are not addresses

  predicate IsEntry(text: string) {
    Includes(text, ".") || Includes(text, ":")
  }

  /** Entries of neither syntax change nothing. */
  lemma {:induction false} OtherEntriesAreIgnored(list: seq<string>)
    ensures RangesOf(list) == RangesOf(Filter(list, IsEntry))
  {
    if list != [] {
      hide Filter, Includes, ParseIPv4CIDR, ParseIPv6CIDR;
      var front, last := list[..|list| - 1], list[|list| - 1];
      assert list == front + [last];
      OtherEntriesAreIgnored(front);
      FilterAppend(front, [last], IsEntry);
      if IsEntry(last) {
        FilterAll([last], IsEntry);
        var kept := Filter(front, IsEntry) + [last];
        assert kept[..|kept| - 1] == Filter(front, IsEntry);
      } else {
        FilterNothing([last], IsEntry);
        assert Filter(front, IsEntry) + [] == Filter(front, IsEntry);
      }
    }
  }

  /** Reading a list throws exactly when one of its colon-separated entries does. */
  lemma {:induction false} ThrowsIff(list: seq<string>)
    ensures RangesOf(list) == None <==>
              exists i :: 0 <= i < |list|
                && !Includes(list[i], ".") && Includes(list[i], ":") && ParseIPv6CIDR(list[i]) == None
  {
    hide Includes, ParseIPv4CIDR, ParseIPv6CIDR;
    if list != [] {
      ThrowsIff(list[..|list| - 1]);
    }
  }

  /** A question throws exactly when a colon-separated text that cannot be read is compared with some range. */
  lemma VerdictThrowsIff(ranges: Ranges, addr: string, version: nat)
    ensures Verdict(ranges, addr, version) == None <==> version == 6 && ranges.v6 != [] && IPv6ToBigInt(addr) == None
  {
  }

  /** A length that is no number lets a dotted-quad entry compare the whole address and makes any other throw. */
  lemma UnreadableLength(net: Address, text: string)
    requires net.Valid() && text != "" && Lacks(text, '/') && !IsDigit(text[0], 10)
    ensures var cidr := net.Show() + "/" + text;
            if net.V4? then ParseIPv4CIDR(cidr) == ParseIPv4CIDR(net.Show()) else ParseIPv6CIDR(cidr) == None
  {
    ShownLacks(net, '/');
    SplitFirst(net.Show(), '/', text);
    SplitWhole(text, '/');
    SplitWhole(net.Show(), '/');
    assert net.Show() + "/" + text == net.Show() + ['/'] + text;
    FullMask();
  }

  lemma FullMask()
    ensures Mask4(None) == Mask4(Some(32))
  {
  }
}
