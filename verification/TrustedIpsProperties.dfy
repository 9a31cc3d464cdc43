/**
 * CIDR matching is exact: addresses and entries are given by their syntax (four decimal octets;
 * eight hexadecimal groups, possibly with `::` for a run of zeros), prefixes are compared bit by
 * bit on that syntax, and the texts of all of them go through the code.
 */
module TrustedIpsProperties {
  import opened Collections
  import opened Bits
  import opened Text
  import opened TrustedIps

  predicate Numerals(parts: seq<string>, base: nat) {
    forall i :: 0 <= i < |parts| ==> IsNumeral(parts[i], base)
  }

  function Values(parts: seq<string>, base: nat): (r: seq<nat>)
    requires Numerals(parts, base)
    ensures |r| == |parts|
  {
    if parts == [] then [] else [ValueOf(parts[0], base)] + Values(parts[1..], base)
  }

  lemma {:induction false} ValuesAt(parts: seq<string>, base: nat, i: nat)
    requires Numerals(parts, base) && i < |parts|
    ensures Values(parts, base)[i] == ValueOf(parts[i], base)
  {
    if i > 0 {
      ValuesAt(parts[1..], base, i - 1);
    }
  }

  /** Four octets or eight groups of sixteen bits. */
  predicate Shape(groups: seq<nat>, g: nat) {
    (g == 8 && |groups| == 4) || (g == 16 && |groups| == 8)
  }

  function Span(g: nat): nat {
    if g == 8 then 32 else 128
  }

  /** Bit `i` of the groups, counted from the first. */
  function BitIn(groups: seq<nat>, g: nat, i: nat): nat
    requires Shape(groups, g) && i < Span(g)
  {
    if g == 8 then Bit(groups[i / 8], 7 - i % 8) else Bit(groups[i / 16], 15 - i % 16)
  }

  /** The first `n` bits are the same. */
  predicate SamePrefix(x: seq<nat>, y: seq<nat>, g: nat, n: nat)
    requires Shape(x, g) && Shape(y, g) && n <= Span(g)
  {
    forall i :: 0 <= i < n ==> BitIn(x, g, i) == BitIn(y, g, i)
  }

  predicate AllGroups(parts: seq<string>) {
    Numerals(parts, 16) && forall i :: 0 <= i < |parts| ==> |parts[i]| <= 4
  }

  predicate AllOctets(parts: seq<string>) {
    Numerals(parts, 10) && forall i :: 0 <= i < |parts| ==> ValueOf(parts[i], 10) <= 255
  }

  datatype Address =
    | V4(octets: seq<string>)
    | V6(groups: seq<string>)
    | V6Short(left: seq<string>, right: seq<string>)
  {
    predicate Valid() {
      match this
      case V4(octets) => |octets| == 4 && AllOctets(octets)
      case V6(groups) => |groups| == 8 && AllGroups(groups)
      case V6Short(left, right) => |left| + |right| <= 7 && AllGroups(left) && AllGroups(right)
    }

    function Show(): string {
      match this
      case V4(octets) => Join(octets, ".")
      case V6(groups) => Join(groups, ":")
      case V6Short(left, right) => Join(left, ":") + "::" + Join(right, ":")
    }

    function Version(): nat {
      if V4? then 4 else 6
    }

    function GroupWidth(): nat {
      if V4? then 8 else 16
    }

    function Width(): nat {
      Span(GroupWidth())
    }

    /** The groups of the address, most significant first, with the elided zeros in place. */
    function Groups(): (r: seq<nat>)
      requires Valid()
      ensures Shape(r, GroupWidth())
    {
      match this
      case V4(octets) => Values(octets, 10)
      case V6(groups) => Values(groups, 16)
      case V6Short(left, right) => Values(left, 16) + Copies(8 - |left| - |right|, 0) + Values(right, 16)
    }
  }

  datatype Entry = Entry(net: Address, bits: Option<string>) {
    predicate Valid() {
      net.Valid() && (bits.Some? ==> bits.value == "" || IsNumeral(bits.value, 10))
    }

    function Show(): string {
      net.Show() + if bits.Some? then "/" + bits.value else ""
    }

    /** The prefix length as written; without one, slash or no slash, the whole address counts. */
    function Written(): nat
      requires Valid()
    {
      if bits.Some? && bits.value != "" then ValueOf(bits.value, 10) else net.Width()
    }

    /** The number of leading bits the code compares. */
    function Compared(): (n: nat)
      requires Valid()
      ensures n <= net.Width()
    {
      if net.V4? then (if Written() == 0 then 0 else (Written() - 1) % 32 + 1)
      else if Written() <= 128 then Written()
      else 0
    }

    /** Same version, and equal up to the first `n` bits. */
    predicate Agrees(n: nat, a: Address)
      requires Valid() && a.Valid() && n <= net.Width()
    {
      a.Version() == net.Version() && SamePrefix(a.Groups(), net.Groups(), a.GroupWidth(), n)
    }
  }

  function Texts(entries: seq<Entry>): (r: seq<string>)
    ensures |r| == |entries|
  {
    seq(|entries|, i requires 0 <= i < |entries| => entries[i].Show())
  }

  // ---------------------------------------------------------------- digits of a number

  lemma {:induction false} HornerSnoc(acc: nat, values: seq<nat>, v: nat, radix: nat)
    ensures Horner(acc, values + [v], radix) == Horner(acc, values, radix) * radix + v
    decreases |values|
  {
    if values == [] {
      assert [v][1..] == [];
      assert [] + [v] == [v];
    } else {
      assert (values + [v])[1..] == values[1..] + [v];
      HornerSnoc(acc * radix + values[0], values[1..], v, radix);
    }
  }

  lemma HornerLast(values: seq<nat>, radix: nat)
    requires values != []
    ensures var n := |values| - 1;
            Horner(0, values, radix) == radix * Horner(0, values[..n], radix) + values[n]
  {
    var n := |values| - 1;
    assert values == values[..n] + [values[n]];
    HornerSnoc(0, values[..n], values[n], radix);
  }

  ghost predicate Below(values: seq<nat>, bound: nat) {
    forall i :: 0 <= i < |values| ==> values[i] < bound
  }

  lemma OneLess(g: nat, n: nat)
    requires n > 0
    ensures g * n == g + g * (n - 1)
  {
  }

  lemma RoomForOneMore(b: nat, rest: nat, v: nat, bound: nat)
    requires rest < bound && v < b
    ensures b * rest + v < b * bound
  {
    TimesPositive(b, bound - rest);
    Distribute(b, rest, bound - rest);
  }

  lemma {:induction false} HornerBound(values: seq<nat>, g: nat, w: nat)
    requires Below(values, Pow2(g)) && w == g * |values|
    ensures Horner(0, values, Pow2(g)) < Pow2(w)
    decreases |values|
  {
    if values != [] {
      var n := |values| - 1;
      OneLess(g, |values|);
      HornerBound(values[..n], g, w - g);
      HornerLast(values, Pow2(g));
      Pow2Sum(g, w - g);
      RoomForOneMore(Pow2(g), Horner(0, values[..n], Pow2(g)), values[n], Pow2(w - g));
    }
  }

  /** Dropping the groups after it leaves a group as the last digit. */
  lemma {:induction false} GroupAt(values: seq<nat>, g: nat, j: nat, k: nat)
    requires Below(values, Pow2(g)) && j < |values| && k == g * (|values| - 1 - j)
    ensures ShiftRight(Horner(0, values, Pow2(g)), k) % Pow2(g) == values[j]
    decreases |values|
  {
    var n := |values| - 1;
    var x, rest := Horner(0, values, Pow2(g)), Horner(0, values[..n], Pow2(g));
    HornerLast(values, Pow2(g));
    Quotient(x, Pow2(g), rest, values[n]);
    if j < n {
      OneLess(g, n - j);
      GroupAt(values[..n], g, j, k - g);
      ShiftRightDivides(x, g);
      ShiftTwice(x, g, k - g);
    } else {
      assert k == 0;
    }
  }

  /** A bit of the number is a bit of one group. */
  lemma BitOfNumber(values: seq<nat>, g: nat, j: nat, r: nat, k: nat)
    requires Below(values, Pow2(g)) && j < |values| && r < g && k == g * (|values| - 1 - j)
    ensures Bit(Horner(0, values, Pow2(g)), k + r) == Bit(values[j], r)
  {
    var x := Horner(0, values, Pow2(g));
    GroupAt(values, g, j, k);
    BitOfRemainder(ShiftRight(x, k), g, r);
    ShiftTwice(x, k, r);
  }

  // ---------------------------------------------------------------- reading an address

  lemma WordIsPow2()
    ensures Pow2(32) == WORD
  {
    assert Pow2(8) == 256;
    Pow2Sum(8, 8);
    Pow2Sum(16, 16);
  }

  lemma Wrap(x: int, q: int)
    ensures ToUint32(x + WORD * q) == ToUint32(x)
  {
  }

  lemma ToInt32Wraps(x: int) returns (q: int)
    ensures ToInt32(x) == x + WORD * q
  {
    q := if ToUint32(x) >= 0x8000_0000 then -(x / WORD) - 1 else -(x / WORD);
  }

  /** Wrapping to 32 bits at each step loses nothing that the last wrap would keep. */
  lemma OctetStep(acc: int, h: nat, n: nat)
    requires ToUint32(acc) == ToUint32(h)
    ensures ToUint32(ShiftLeft32(acc, 8) + n) == ToUint32(h * 256 + n)
  {
    assert Pow2(8) == 256;
    var q := ToInt32Wraps(acc);
    var q2 := ToInt32Wraps(ToInt32(acc) * 256);
    Wrap(acc * 256 + n, q * 256 + q2);
    Wrap(h * 256 + n, (acc / WORD - h / WORD) * 256);
  }

  lemma ReadsOctet(acc: int, octet: string)
    requires IsNumeral(octet, 10)
    ensures AddOctet(Some(acc), octet) == Some(ShiftLeft32(acc, 8) + ValueOf(octet, 10))
  {
  }

  lemma {:induction false} FoldIsHorner(acc: int, h: nat, parts: seq<string>)
    requires Numerals(parts, 10) && ToUint32(acc) == ToUint32(h)
    ensures var r := FoldOctets(Some(acc), parts);
            r.Some? && ToUint32(r.value) == ToUint32(Horner(h, Values(parts, 10), 256))
    decreases |parts|
  {
    hide ValueOf, ToUint32, ShiftLeft32, AddOctet, IsDigit, Horner;
    if parts == [] {
      HornerNone(h, 256);
    } else {
      var n := ValueOf(parts[0], 10);
      ReadsOctet(acc, parts[0]);
      OctetStep(acc, h, n);
      var next := ShiftLeft32(acc, 8) + n;
      FoldIsHorner(next, h * 256 + n, parts[1..]);
      assert FoldOctets(Some(acc), parts) == FoldOctets(Some(next), parts[1..]);
      HornerCons(h, n, Values(parts[1..], 10), 256);
    }
  }

  lemma HornerNone(acc: nat, radix: nat)
    ensures Horner(acc, [], radix) == acc
  {
  }

  lemma HornerCons(acc: nat, v: nat, values: seq<nat>, radix: nat)
    ensures Horner(acc, [v] + values, radix) == Horner(acc * radix + v, values, radix)
  {
    assert ([v] + values)[1..] == values;
  }

  /** What the groups of an address denote, read as one number. */
  ghost function Number(a: Address): nat
    requires a.Valid()
  {
    NumberOf(a.Groups(), a.GroupWidth())
  }

  lemma ValuesBelow(parts: seq<string>, base: nat, bound: nat)
    requires Numerals(parts, base) && forall i :: 0 <= i < |parts| ==> ValueOf(parts[i], base) < bound
    ensures Below(Values(parts, base), bound)
  {
    forall i | 0 <= i < |parts| ensures Values(parts, base)[i] < bound {
      ValuesAt(parts, base, i);
    }
  }

  lemma HexBelow(parts: seq<string>)
    requires AllGroups(parts)
    ensures Below(Values(parts, 16), Pow2(16))
  {
    assert Pow2(8) == 256 && Power(16, 2) == 256 && Power(16, 4) == 16 * (16 * Power(16, 2));
    Pow2Sum(8, 8);
    forall i | 0 <= i < |parts| ensures ValueOf(parts[i], 16) < Pow2(16) {
      ValueBound(parts[i], 16, 4);
    }
    ValuesBelow(parts, 16, Pow2(16));
  }

  lemma GroupsFit(a: Address)
    requires a.Valid()
    ensures Below(a.Groups(), Pow2(a.GroupWidth()))
  {
    match a
    case V4(octets) =>
      assert Pow2(8) == 256;
      ValuesBelow(octets, 10, 256);
    case V6(groups) =>
      HexBelow(groups);
    case V6Short(left, right) =>
      HexBelow(left);
      HexBelow(right);
  }

  lemma NumberFits(a: Address)
    requires a.Valid()
    ensures Number(a) < Pow2(a.Width())
  {
    GroupsFit(a);
    HornerFits(a.Groups(), a.GroupWidth());
  }

  lemma HornerFits(groups: seq<nat>, g: nat)
    requires Shape(groups, g) && Below(groups, Pow2(g))
    ensures Horner(0, groups, Pow2(g)) < Pow2(Span(g))
  {
    HornerBound(groups, g, Span(g));
  }

  lemma PiecesLack(parts: seq<string>, base: nat, c: char)
    requires Numerals(parts, base) && DigitValue(c) == -1
    ensures forall p :: p in parts ==> p != "" && Lacks(p, c)
  {
    forall p | p in parts ensures p != "" && Lacks(p, c) {
      NumeralLacks(p, base, c);
    }
  }

  /** Reading a dotted quad gives the number of its four octets. */
  lemma ReadsV4(a: Address)
    requires a.Valid() && a.V4?
    ensures IPv4ToLong(a.Show()) == Number(a)
  {
    PiecesLack(a.octets, 10, '.');
    SplitJoin(a.octets, '.');
    assert Pow2(8) == 256;
    WordIsPow2();
    FoldIsHorner(0, 0, a.octets);
    NumberFits(a);
  }

  lemma {:induction false} ReadsGroups(parts: seq<string>)
    requires Numerals(parts, 16)
    ensures GroupValues(parts) == Some(Values(parts, 16))
  {
    if parts != [] {
      DigitsOfNumeral(parts[0], 16);
      ReadsGroups(parts[1..]);
    }
  }

  lemma ReadsFull(parts: seq<string>)
    requires Numerals(parts, 16) && parts != []
    ensures GroupValues(Split(Join(parts, ":"), ":")) == Some(Values(parts, 16))
  {
    PiecesLack(parts, 16, ':');
    SplitJoin(parts, ':');
    ReadsGroups(parts);
  }

  lemma SideBySide(parts: seq<string>)
    requires Numerals(parts, 16)
    ensures var text := Join(parts, ":");
            && NoDouble(text, ':')
            && (parts == [] <==> text == "")
            && (parts != [] ==> text[|text| - 1] != ':' && Split(text, ":") == parts)
  {
    PiecesLack(parts, 16, ':');
    JoinNoDouble(parts, ':');
    if parts != [] {
      SplitJoin(parts, ':');
    }
  }

  function Expanded(left: seq<string>, right: seq<string>): seq<string>
    requires |left| + |right| <= 7
  {
    left + Copies(8 - |left| - |right|, "0") + right
  }

  lemma ExpandsSides(text: string, l: string, r: string, left: seq<string>, right: seq<string>)
    requires |left| + |right| <= 7 && Split(text, "::") == [l, r]
    requires left == (if l != "" then Split(l, ":") else [])
    requires right == (if r != "" then Split(r, ":") else [])
    ensures ExpandIPv6(text) == Some(Join(Expanded(left, right), ":"))
  {
  }

  /** Expanding `::` always yields eight groups: those on the left, zeros, those on the right. */
  lemma ExpandsToEight(left: seq<string>, right: seq<string>)
    requires |left| + |right| <= 7 && Numerals(left, 16) && Numerals(right, 16)
    ensures var text := Join(left, ":") + "::" + Join(right, ":");
            && Includes(text, "::")
            && ExpandIPv6(text) == Some(Join(Expanded(left, right), ":"))
            && |Expanded(left, right)| == 8
  {
    SideBySide(left);
    SideBySide(right);
    var l, r := Join(left, ":"), Join(right, ":");
    SplitAtDouble(l, ':', r);
    ExpandsSides(l + "::" + r, l, r, left, right);
  }

  lemma {:induction false} ValuesConcat(left: seq<string>, right: seq<string>, base: nat)
    requires Numerals(left, base) && Numerals(right, base)
    ensures Numerals(left + right, base)
    ensures Values(left + right, base) == Values(left, base) + Values(right, base)
  {
    hide ValueOf, IsDigit;
    if left == [] {
      assert left + right == right;
    } else {
      ValuesConcat(left[1..], right, base);
      assert (left + right)[1..] == left[1..] + right;
      assert [ValueOf(left[0], base)] + (Values(left[1..], base) + Values(right, base))
          == [ValueOf(left[0], base)] + Values(left[1..], base) + Values(right, base);
    }
  }

  lemma ZeroNumeral()
    ensures IsNumeral("0", 16) && ValueOf("0", 16) == 0
  {
  }

  lemma {:induction false} ValuesOfCopies(n: nat, part: string, v: nat)
    requires IsNumeral(part, 16) && ValueOf(part, 16) == v
    ensures Numerals(Copies(n, part), 16) && Values(Copies(n, part), 16) == Copies(n, v)
  {
    if n > 0 {
      ValuesOfCopies(n - 1, part, v);
      assert Copies(n, part)[0] == part && Copies(n, part)[1..] == Copies(n - 1, part);
    }
  }

  lemma FilledValues(left: seq<string>, right: seq<string>, n: nat, zero: string)
    requires Numerals(left, 16) && Numerals(right, 16) && IsNumeral(zero, 16) && ValueOf(zero, 16) == 0
    ensures var filled := left + Copies(n, zero) + right;
            && Numerals(filled, 16)
            && Values(filled, 16) == Values(left, 16) + Copies(n, 0) + Values(right, 16)
  {
    ValuesOfCopies(n, zero, 0);
    ValuesConcat(left, Copies(n, zero), 16);
    ValuesConcat(left + Copies(n, zero), right, 16);
  }

  lemma ReadsFilled(left: seq<string>, right: seq<string>, n: nat, zero: string)
    requires Numerals(left, 16) && Numerals(right, 16) && IsNumeral(zero, 16) && ValueOf(zero, 16) == 0 && n > 0
    ensures GroupValues(Split(Join(left + Copies(n, zero) + right, ":"), ":"))
         == Some(Values(left, 16) + Copies(n, 0) + Values(right, 16))
  {
    FilledValues(left, right, n, zero);
    ReadsFull(left + Copies(n, zero) + right);
  }

  lemma ReadsZeros(left: seq<string>, right: seq<string>, n: nat)
    requires Numerals(left, 16) && Numerals(right, 16) && n > 0
    ensures GroupValues(Split(Join(left + Copies(n, "0") + right, ":"), ":"))
         == Some(Values(left, 16) + Copies(n, 0) + Values(right, 16))
  {
    ZeroNumeral();
    ReadsFilled(left, right, n, "0");
  }

  lemma ReadsShort(left: seq<string>, right: seq<string>)
    requires |left| + |right| <= 7 && Numerals(left, 16) && Numerals(right, 16)
    ensures IPv6ToBigInt(Join(left, ":") + "::" + Join(right, ":"))
         == Some(Horner(0, Values(left, 16) + Copies(8 - |left| - |right|, 0) + Values(right, 16), Pow2(16)))
  {
    ExpandsToEight(left, right);
    ReadsZeros(left, right, 8 - |left| - |right|);
  }

  lemma ReadsLong(groups: seq<string>)
    requires Numerals(groups, 16) && groups != []
    ensures IPv6ToBigInt(Join(groups, ":")) == Some(Horner(0, Values(groups, 16), Pow2(16)))
  {
    SideBySide(groups);
    SplitNoDouble(Join(groups, ":"), ':');
    ReadsFull(groups);
  }

  /** Reading a colon-separated address gives the number of its eight groups. */
  lemma ReadsV6(a: Address)
    requires a.Valid() && !a.V4?
    ensures IPv6ToBigInt(a.Show()) == Some(Number(a))
  {
    hide IPv6ToBigInt, Horner, Values;
    match a
    case V6(groups) => ReadsLong(groups);
    case V6Short(left, right) => ReadsShort(left, right);
  }

  // ---------------------------------------------------------------- masks

  /** The 32-bit mask of a nonzero length is ones followed by zeros; lengths past 32 wrap around. */
  lemma Mask4IsHigh(n: nat, e: nat)
    requires n > 0 && e == (n - 1) % 32 + 1
    ensures Mask4(Some(n)) == WORD - Pow2(32 - e)
  {
    hide Pow2, ToInt32, ToUint32;
    ShiftCount(n, e);
    HalfWord(32 - e);
    WordOfOnes();
    assert ShiftLeft32(0xffff_ffff, 32 - n) == ToInt32(-1 * Pow2(32 - e)) == ToInt32(0 - Pow2(32 - e));
    HighWord(Pow2(32 - e));
  }

  lemma HalfWord(k: nat)
    requires k < 32
    ensures Pow2(k) <= WORD / 2
  {
    WordIsPow2();
    Pow2Grows(k, 31);
    assert Pow2(32) == 2 * Pow2(31);
  }

  lemma ShiftCount(n: nat, e: nat)
    requires n > 0 && e == (n - 1) % 32 + 1
    ensures (32 - n) % 32 == 32 - e
  {
  }

  lemma WordOfOnes()
    ensures ToInt32(0xffff_ffff) == -1
  {
  }

  /** The word of a small negative number. */
  lemma HighWord(p: nat)
    requires 0 < p <= WORD / 2
    ensures ToUint32(ToInt32(0 - p)) == WORD - p
  {
    assert ToUint32(0 - p) == WORD - p;
  }

  /** The big-integer mask of a length is ones followed by zeros; lengths past the width mask everything. */
  lemma Mask6IsHigh(n: nat, width: nat)
    ensures n <= width ==> Pow2(width - n) <= Pow2(width) && Mask6(n, width) == Pow2(width) - Pow2(width - n)
    ensures n > width ==> Mask6(n, width) == 0 - Pow2(width)
  {
    if n <= width {
      Pow2Grows(width - n, width);
      XorMasks(width - n, width, Pow2(width - n) - 1, Pow2(width) - 1);
    }
  }

  lemma SmallWord(x: nat)
    requires x < WORD
    ensures ToUint32(x) == x
  {
  }

  lemma Cleared4(x: nat, e: nat, k: nat)
    requires x < WORD && e <= 32 && k == 32 - e
    ensures ShiftLeft(ShiftRight(x, k), k) < WORD
    ensures And32(x, WORD - Pow2(k)) == ToInt32(ShiftLeft(ShiftRight(x, k), k))
  {
    WordIsPow2();
    Pow2Grows(k, 32);
    AndHighMask(x, e, k, WORD - Pow2(k));
    SmallWord(x);
    SmallWord(WORD - Pow2(k));
    ShiftBack(x, k);
  }

  lemma SameSignedWord(c: nat, d: nat)
    requires c < WORD && d < WORD
    ensures ToInt32(c) == ToInt32(d) <==> c == d
  {
  }

  /** Masking two 32-bit words and comparing them as signed words compares what is left of them after the shift. */
  lemma Masked4(x: nat, y: nat, e: nat, k: nat)
    requires x < WORD && y < WORD && e <= 32 && k == 32 - e
    ensures And32(x, WORD - Pow2(k)) == And32(y, WORD - Pow2(k)) <==> ShiftRight(x, k) == ShiftRight(y, k)
  {
    Cleared4(x, e, k);
    Cleared4(y, e, k);
    SameSignedWord(ShiftLeft(ShiftRight(x, k), k), ShiftLeft(ShiftRight(y, k), k));
    ShiftLeftInjective(ShiftRight(x, k), ShiftRight(y, k), k);
  }

  lemma Masked6(x: nat, y: nat, n: nat, k: nat, mask: nat)
    requires x < Pow2(n + k) && y < Pow2(n + k) && mask == Pow2(n + k) - Pow2(k)
    ensures AndBig(x, mask) == AndBig(y, mask) <==> ShiftRight(x, k) == ShiftRight(y, k)
  {
    AndHighMask(x, n, k, mask);
    AndHighMask(y, n, k, mask);
    ShiftLeftInjective(ShiftRight(x, k), ShiftRight(y, k), k);
  }

  lemma MaskedAway(x: nat, width: nat)
    requires x < Pow2(width)
    ensures AndBig(x, 0 - Pow2(width)) == 0
  {
    AllOnes(x, width);
  }

  // ---------------------------------------------------------------- prefixes

  ghost predicate Wellformed(x: seq<nat>, g: nat) {
    Shape(x, g) && Below(x, Pow2(g))
  }

  ghost function NumberOf(x: seq<nat>, g: nat): nat {
    Horner(0, x, Pow2(g))
  }

  lemma BitOfGroups(x: seq<nat>, g: nat, i: nat, k: nat)
    requires Wellformed(x, g) && i < Span(g) && k == Span(g) - 1 - i
    ensures Bit(NumberOf(x, g), k) == BitIn(x, g, i)
  {
    if g == 8 {
      BitOfNumber(x, 8, i / 8, 7 - i % 8, 8 * (3 - i / 8));
    } else {
      BitOfNumber(x, 16, i / 16, 15 - i % 16, 16 * (7 - i / 16));
    }
  }

  ghost predicate SameBit(m: nat, n: nat, i: nat) {
    Bit(m, i) == Bit(n, i)
  }

  lemma SameBitEitherWay(x: seq<nat>, y: seq<nat>, g: nat, i: nat, k: nat)
    requires Wellformed(x, g) && Wellformed(y, g) && i < Span(g) && k == Span(g) - 1 - i
    ensures BitIn(x, g, i) == BitIn(y, g, i) <==> SameBit(NumberOf(x, g), NumberOf(y, g), k)
  {
    BitOfGroups(x, g, i, k);
    BitOfGroups(y, g, i, k);
  }

  lemma SamePrefixIffSameHighBits(x: seq<nat>, y: seq<nat>, g: nat, n: nat)
    requires Wellformed(x, g) && Wellformed(y, g) && n <= Span(g)
    ensures SamePrefix(x, y, g, n)
       <==> forall k :: Span(g) - n <= k < Span(g) ==> SameBit(NumberOf(x, g), NumberOf(y, g), k)
  {
    forall i | 0 <= i < n
      ensures BitIn(x, g, i) == BitIn(y, g, i) <==> SameBit(NumberOf(x, g), NumberOf(y, g), Span(g) - 1 - i)
    {
      SameBitEitherWay(x, y, g, i, Span(g) - 1 - i);
    }
    if SamePrefix(x, y, g, n) {
      forall k | Span(g) - n <= k < Span(g) ensures SameBit(NumberOf(x, g), NumberOf(y, g), k) {
        SameBitEitherWay(x, y, g, Span(g) - 1 - k, k);
      }
    }
  }

  lemma SameShiftIffHighBits(p: nat, q: nat, k: nat, w: nat)
    requires k <= w && p < Pow2(w) && q < Pow2(w)
    ensures ShiftRight(p, k) == ShiftRight(q, k) <==> forall i :: k <= i < w ==> SameBit(p, q, i)
  {
    SameQuotientIffSameBits(p, q, k, w);
    assert forall i :: k <= i < w ==> (SameBit(p, q, i) <==> Bit(p, i) == Bit(q, i));
  }

  lemma SamePrefixIffSameShift(x: seq<nat>, y: seq<nat>, g: nat, n: nat)
    requires Wellformed(x, g) && Wellformed(y, g) && n <= Span(g)
    ensures SamePrefix(x, y, g, n)
       <==> ShiftRight(NumberOf(x, g), Span(g) - n) == ShiftRight(NumberOf(y, g), Span(g) - n)
  {
    HornerFits(x, g);
    HornerFits(y, g);
    SamePrefixIffSameHighBits(x, y, g, n);
    SameShiftIffHighBits(NumberOf(x, g), NumberOf(y, g), Span(g) - n, Span(g));
  }

  /** Two addresses share their first n bits exactly when dividing by 2^(width - n) makes them equal. */
  lemma SamePrefixIffSameQuotient(x: seq<nat>, y: seq<nat>, g: nat, n: nat)
    requires Wellformed(x, g) && Wellformed(y, g) && n <= Span(g)
    ensures SamePrefix(x, y, g, n)
       <==> NumberOf(x, g) / Pow2(Span(g) - n) == NumberOf(y, g) / Pow2(Span(g) - n)
  {
    SamePrefixIffSameShift(x, y, g, n);
    ShiftRightDivides(NumberOf(x, g), Span(g) - n);
    ShiftRightDivides(NumberOf(y, g), Span(g) - n);
  }

  // ---------------------------------------------------------------- reading an entry

  lemma JoinsLack(parts: seq<string>, base: nat, sep: char, c: char)
    requires Numerals(parts, base) && DigitValue(c) == -1 && c != sep
    ensures Lacks(Join(parts, [sep]), c)
  {
    PiecesLack(parts, base, c);
    JoinLacks(parts, sep, c);
  }

  lemma ShownLacks(a: Address, c: char)
    requires a.Valid() && DigitValue(c) == -1 && c != ':' && (a.V4? ==> c != '.')
    ensures Lacks(a.Show(), c)
  {
    match a
    case V4(octets) => JoinsLack(octets, 10, '.', c);
    case V6(groups) => JoinsLack(groups, 16, ':', c);
    case V6Short(left, right) =>
      JoinsLack(left, 16, ':', c);
      JoinsLack(right, 16, ':', c);
  }

  lemma ReadsEntry(e: Entry)
    requires e.Valid()
    ensures Split(e.Show(), "/")[0] == e.net.Show()
    ensures BitsText(e.Show()) == if e.bits == Some("") then None else e.bits
    ensures e.bits.Some? && e.bits.value != "" ==> ParseInt(e.bits.value, 10) == Some(e.Written())
  {
    ShownLacks(e.net, '/');
    match e.bits
    case None =>
      assert e.Show() == e.net.Show();
      SplitWhole(e.net.Show(), '/');
    case Some(text) =>
      SplitFirst(e.net.Show(), '/', text);
      if text != "" {
        NumeralLacks(text, 10, '/');
      }
      SplitWhole(text, '/');
      assert e.Show() == e.net.Show() + ['/'] + text;
      DigitsOfNumeral(text, 10);
  }

  lemma ShowsDot(e: Entry)
    requires e.Valid() && e.net.V4?
    ensures Includes(e.Show(), ".")
  {
    SplitMore(e.Show(), '.', |e.net.octets[0]|);
  }

  lemma ShowsColon(e: Entry)
    requires e.Valid() && !e.net.V4?
    ensures !Includes(e.Show(), ".") && Includes(e.Show(), ":")
  {
    ShownLacks(e.net, '.');
    if e.bits.Some? && e.bits.value != "" {
      NumeralLacks(e.bits.value, 10, '.');
    }
    SplitWhole(e.Show(), '.');
    var i := if e.net.V6? then |e.net.groups[0]| else |Join(e.net.left, ":")|;
    SplitMore(e.Show(), ':', i);
  }

  lemma ReadsRange4(e: Entry)
    requires e.Valid() && e.net.V4?
    ensures ParseIPv4CIDR(e.Show())
         == Range(And32(Number(e.net), Mask4(Some(e.Written()))), Mask4(Some(e.Written())))
  {
    ReadsEntry(e);
    ReadsV4(e.net);
  }

  lemma ReadsRange6(e: Entry)
    requires e.Valid() && !e.net.V4?
    ensures ParseIPv6CIDR(e.Show())
         == Some(Range(AndBig(Number(e.net), Mask6(e.Written(), 128)), Mask6(e.Written(), 128)))
  {
    ReadsEntry(e);
    ReadsV6(e.net);
  }

  // ---------------------------------------------------------------- matching

  lemma Compares4(x: seq<nat>, y: seq<nat>, n: nat, c: nat)
    requires Wellformed(x, 8) && Wellformed(y, 8) && c == if n == 0 then 0 else (n - 1) % 32 + 1
    ensures And32(NumberOf(x, 8), Mask4(Some(n))) == And32(NumberOf(y, 8), Mask4(Some(n)))
       <==> SamePrefix(x, y, 8, c)
  {
    hide And32, Mask4, SamePrefix, Horner;
    HornerFits(x, 8);
    HornerFits(y, 8);
    MaskedWords(NumberOf(x, 8), NumberOf(y, 8), n, c, Span(8));
    SamePrefixIffSameShift(x, y, 8, c);
  }

  lemma NothingMasked(p: nat, q: nat, w: nat)
    requires p < Pow2(w) && q < Pow2(w)
    ensures And32(p, Mask4(Some(0))) == And32(q, Mask4(Some(0))) && ShiftRight(p, w) == ShiftRight(q, w)
  {
    hide ShiftRight, Pow2;
    ShiftOut(p, w);
    ShiftOut(q, w);
  }

  lemma MaskedWords(p: nat, q: nat, n: nat, c: nat, w: nat)
    requires w == 32 && p < Pow2(w) && q < Pow2(w) && c == if n == 0 then 0 else (n - 1) % 32 + 1
    ensures And32(p, Mask4(Some(n))) == And32(q, Mask4(Some(n))) <==> ShiftRight(p, w - c) == ShiftRight(q, w - c)
  {
    hide And32, Mask4, ShiftRight, Pow2;
    if n > 0 {
      WordIsPow2();
      Mask4IsHigh(n, c);
      Masked4(p, q, c, w - c);
    } else {
      NothingMasked(p, q, w);
    }
  }

  lemma Compares6(x: seq<nat>, y: seq<nat>, n: nat)
    requires Wellformed(x, 16) && Wellformed(y, 16)
    ensures AndBig(NumberOf(x, 16), Mask6(n, 128)) == AndBig(NumberOf(y, 16), Mask6(n, 128))
       <==> SamePrefix(x, y, 16, if n <= 128 then n else 0)
  {
    hide AndBig, Mask6, SamePrefix, Horner;
    HornerFits(x, 16);
    HornerFits(y, 16);
    MaskedBigs(NumberOf(x, 16), NumberOf(y, 16), n, Span(16));
    SamePrefixIffSameShift(x, y, 16, if n <= 128 then n else 0);
  }

  lemma MaskedBigs(p: nat, q: nat, n: nat, w: nat)
    requires p < Pow2(w) && q < Pow2(w)
    ensures var c := if n <= w then n else 0;
            AndBig(p, Mask6(n, w)) == AndBig(q, Mask6(n, w)) <==> ShiftRight(p, w - c) == ShiftRight(q, w - c)
  {
    Mask6IsHigh(n, w);
    if n <= w {
      Masked6(p, q, n, w - n, Mask6(n, w));
    } else {
      MaskedAway(p, w);
      MaskedAway(q, w);
      ShiftOut(p, w);
      ShiftOut(q, w);
    }
  }

  /** A dotted-quad entry matches exactly the addresses that share the bits it compares. */
  lemma Matching4(e: Entry, a: Address)
    requires e.Valid() && a.Valid() && e.net.V4? && a.V4?
    ensures Matches4(ParseIPv4CIDR(e.Show()), Number(a)) <==> e.Agrees(e.Compared(), a)
  {
    ReadsRange4(e);
    GroupsFit(a);
    GroupsFit(e.net);
    Compares4(a.Groups(), e.net.Groups(), e.Written(), e.Compared());
  }

  lemma Matching6(e: Entry, a: Address)
    requires e.Valid() && a.Valid() && !e.net.V4? && !a.V4?
    ensures var r := ParseIPv6CIDR(e.Show());
            r.Some? && (Matches6(r.value, Number(a)) <==> e.Agrees(e.Compared(), a))
  {
    ReadsRange6(e);
    GroupsFit(a);
    GroupsFit(e.net);
    Compares6(a.Groups(), e.net.Groups(), e.Written());
  }

  ghost predicate SomeMatches4(v4: seq<Range>, ip: nat) {
    exists r :: r in v4 && Matches4(r, ip)
  }

  ghost predicate SomeMatches6(v6: seq<Range>, ip: nat) {
    exists r :: r in v6 && Matches6(r, ip)
  }

  ghost predicate AllValid(entries: seq<Entry>) {
    forall e :: e in entries ==> e.Valid()
  }

  /** Some entry of the same version compares equal. */
  ghost predicate Covered(entries: seq<Entry>, a: Address)
    requires AllValid(entries) && a.Valid()
  {
    exists e :: e in entries && e.Agrees(e.Compared(), a)
  }

  lemma CoveredSnoc(entries: seq<Entry>, e: Entry, a: Address)
    requires AllValid(entries) && e.Valid() && a.Valid()
    ensures AllValid(entries + [e])
    ensures Covered(entries + [e], a) <==> Covered(entries, a) || e.Agrees(e.Compared(), a)
  {
    assert forall x :: x in entries + [e] <==> x in entries || x == e;
  }

  lemma {:induction false} RangesCover(entries: seq<Entry>, a: Address)
    requires AllValid(entries) && a.Valid()
    ensures var r := RangesOf(Texts(entries));
            && r.Some?
            && (a.V4? ==> (SomeMatches4(r.value.v4, Number(a)) <==> Covered(entries, a)))
            && (!a.V4? ==> (SomeMatches6(r.value.v6, Number(a)) <==> Covered(entries, a)))
  {
    if entries != [] {
      hide Covered, Number, SomeMatches4, SomeMatches6;
      var n := |entries| - 1;
      var e := entries[n];
      assert Texts(entries)[..n] == Texts(entries[..n]) && entries == entries[..n] + [e];
      RangesCover(entries[..n], a);
      CoveredSnoc(entries[..n], e, a);
      AddsRange(RangesOf(Texts(entries[..n])).value, e, a);
    }
  }

  lemma AddsRange(ranges: Ranges, e: Entry, a: Address)
    requires e.Valid() && a.Valid()
    ensures var r := WithEntry(ranges, e.Show());
            && r.Some?
            && (a.V4? ==> (SomeMatches4(r.value.v4, Number(a))
                      <==> SomeMatches4(ranges.v4, Number(a)) || e.Agrees(e.Compared(), a)))
            && (!a.V4? ==> (SomeMatches6(r.value.v6, Number(a))
                       <==> SomeMatches6(ranges.v6, Number(a)) || e.Agrees(e.Compared(), a)))
  {
    if e.net.V4? {
      ShowsDot(e);
      var added := ParseIPv4CIDR(e.Show());
      assert forall x :: x in ranges.v4 + [added] <==> x in ranges.v4 || x == added;
      if a.V4? {
        Matching4(e, a);
      }
    } else {
      ShowsColon(e);
      ReadsRange6(e);
      var added := ParseIPv6CIDR(e.Show()).value;
      assert forall x :: x in ranges.v6 + [added] <==> x in ranges.v6 || x == added;
      if !a.V4? {
        Matching6(e, a);
      }
    }
  }

  // ---------------------------------------------------------------- the main results

  lemma Verdict4(ranges: Ranges, addr: string, ip: nat)
    requires IPv4ToLong(addr) == ip
    ensures Verdict(ranges, addr, 4) == Some(SomeMatches4(ranges.v4, ip))
  {
  }

  lemma Verdict6(ranges: Ranges, addr: string, ip: nat)
    requires IPv6ToBigInt(addr) == Some(ip)
    ensures Verdict(ranges, addr, 6) == Some(SomeMatches6(ranges.v6, ip))
  {
  }

  /** Whatever the prefix lengths, an address is trusted exactly when an entry agrees on the bits the code compares. */
  lemma TrustedIffCovered(entries: seq<Entry>, a: Address)
    requires AllValid(entries) && a.Valid()
    ensures var r := RangesOf(Texts(entries));
            r.Some? && Verdict(r.value, a.Show(), a.Version()) == Some(Covered(entries, a))
  {
    RangesCover(entries, a);
    var ranges := RangesOf(Texts(entries)).value;
    if a.V4? {
      ReadsV4(a);
      Verdict4(ranges, a.Show(), Number(a));
    } else {
      ReadsV6(a);
      Verdict6(ranges, a.Show(), Number(a));
    }
  }

  /** The address lies in the block that the entry writes. */
  ghost predicate InBlock(e: Entry, a: Address)
    requires e.Valid() && a.Valid()
  {
    e.Written() <= e.net.Width() && e.Agrees(e.Written(), a)
  }

  /** With prefix lengths within the width, trusted means: the address lies in the block of some entry. */
  lemma TrustedIffInSomeBlock(entries: seq<Entry>, a: Address)
    requires AllValid(entries) && a.Valid()
    requires forall e :: e in entries ==> e.Written() <= e.net.Width()
    ensures var r := RangesOf(Texts(entries));
            && r.Some?
            && Verdict(r.value, a.Show(), a.Version()) == Some(exists e :: e in entries && InBlock(e, a))
  {
    TrustedIffCovered(entries, a);
    forall e | e in entries ensures e.Agrees(e.Compared(), a) <==> InBlock(e, a) {
      ComparedIsWrittenIff(e);
    }
  }

  lemma ComparedIsWrittenIff(e: Entry)
    requires e.Valid()
    ensures e.Compared() == e.Written() <==> e.Written() <= e.net.Width()
  {
  }

  /** What the program makes of one entry and one address. */
  function VerdictOf(e: Entry, a: Address): Option<bool>
    requires e.Valid() && a.Valid()
  {
    var ranges := RangesOf([e.Show()]);
    if ranges.None? then None else Verdict(ranges.value, a.Show(), a.Version())
  }

  lemma VerdictIsCovered(e: Entry, a: Address)
    requires e.Valid() && a.Valid()
    ensures VerdictOf(e, a) == Some(a.Version() == e.net.Version() && e.Agrees(e.Compared(), a))
  {
    TrustedIffCovered([e], a);
    assert Texts([e]) == [e.Show()] && e in [e];
  }

  /** The program, given this entry alone, trusts exactly the addresses of the block that the entry writes. */
  ghost predicate TrustsItsBlock(e: Entry)
    requires e.Valid()
  {
    forall a: Address :: a.Valid() && a.Version() == e.net.Version() ==> VerdictOf(e, a) == Some(InBlock(e, a))
  }

  /** An entry trusts exactly its block if and only if its prefix length is at most the width. */
  lemma EntryTrustsItsBlockIff(e: Entry)
    requires e.Valid()
    ensures TrustsItsBlock(e) <==> e.Written() <= e.net.Width()
  {
    hide VerdictOf;
    ComparedIsWrittenIff(e);
    forall a: Address | a.Valid()
      ensures VerdictOf(e, a) == Some(a.Version() == e.net.Version() && e.Agrees(e.Compared(), a))
    {
      VerdictIsCovered(e, a);
    }
    if TrustsItsBlock(e) {
      assert e.Agrees(e.Compared(), e.net);
      assert InBlock(e, e.net);
    }
  }

  lemma OverlongLengths(net: Address)
    requires net.Valid()
    ensures Entry(net, Some("33")).Valid() && Entry(net, Some("33")).Written() == 33
    ensures Entry(net, Some("129")).Valid() && Entry(net, Some("129")).Written() == 129
  {
    assert ValueOf("3", 10) == 3 && "33"[..1] == "3";
    assert ValueOf("12", 10) == 12 && "129"[..2] == "12";
  }

  /** `/129` trusts every colon-separated address; `/33` after a dotted quad compares a single bit. */
  lemma OverlongPrefixTrustsTooMuch(net: Address, a: Address)
    requires net.Valid() && a.Valid() && net.Version() == a.Version()
    ensures var e := Entry(net, Some(if a.V4? then "33" else "129"));
            e.Valid() && !InBlock(e, a)
            && VerdictOf(e, a) == Some(a.V4? ==> SamePrefix(a.Groups(), net.Groups(), 8, 1))
  {
    hide VerdictOf;
    OverlongLengths(net);
    var e := Entry(net, Some(if a.V4? then "33" else "129"));
    assert e.Compared() == if a.V4? then 1 else 0;
    VerdictIsCovered(e, a);
  }
}
