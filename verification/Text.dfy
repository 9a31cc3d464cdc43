/** Splitting and joining text, and reading numbers from digits. */
module Text {
  import opened Collections

  // ---------------------------------------------------------------- split and join

  /** The pieces of `s` between occurrences of `sep`, leftmost occurrences first. */
  function Split(s: string, sep: string): (r: seq<string>)
    requires sep != ""
    ensures r != []
    decreases |s|
  {
    if |s| < |sep| then [s]
    else if sep <= s then [""] + Split(s[|sep|..], sep)
    else
      var rest := Split(s[1..], sep);
      [[s[0]] + rest[0]] + rest[1..]
  }

  function Join(parts: seq<string>, sep: string): string {
    if parts == [] then ""
    else if |parts| == 1 then parts[0]
    else parts[0] + sep + Join(parts[1..], sep)
  }

  predicate Includes(s: string, sub: string)
    requires sub != ""
  {
    |Split(s, sub)| > 1
  }

  ghost predicate Lacks(s: string, c: char) {
    forall i :: 0 <= i < |s| ==> s[i] != c
  }

  /** A text without the separator is one piece. */
  lemma {:induction false} SplitWhole(s: string, sep: char)
    requires Lacks(s, sep)
    ensures Split(s, [sep]) == [s]
    decreases |s|
  {
    if s != "" {
      assert Lacks(s[1..], sep);
      SplitWhole(s[1..], sep);
      assert s[0] != sep && !([sep] <= s);
      assert [s[0]] + s[1..] == s;
    }
  }

  /** The first piece ends at the first separator. */
  lemma {:induction false} SplitFirst(first: string, sep: char, rest: string)
    requires Lacks(first, sep)
    ensures Split(first + [sep] + rest, [sep]) == [first] + Split(rest, [sep])
    decreases |first|
  {
    var s := first + [sep] + rest;
    if first == "" {
      assert [sep] <= s && s[1..] == rest;
    } else {
      assert s[0] == first[0] && s[1..] == first[1..] + [sep] + rest;
      assert Lacks(first[1..], sep);
      SplitFirst(first[1..], sep, rest);
      assert !([sep] <= s);
      assert [first[0]] + first[1..] == first;
    }
  }

  /** Splitting at the separator undoes joining with it. */
  lemma {:induction false} SplitJoin(parts: seq<string>, sep: char)
    requires parts != [] && forall p :: p in parts ==> Lacks(p, sep)
    ensures Split(Join(parts, [sep]), [sep]) == parts
  {
    if |parts| == 1 {
      SplitWhole(parts[0], sep);
    } else {
      assert forall p :: p in parts[1..] ==> p in parts;
      SplitJoin(parts[1..], sep);
      SplitFirst(parts[0], sep, Join(parts[1..], [sep]));
      assert [parts[0]] + parts[1..] == parts;
    }
  }

  // ---------------------------------------------------------------- numbers

  /** The value of a digit, or -1 for any other character. */
  function DigitValue(c: char): int {
    if '0' <= c <= '9' then c as int - '0' as int
    else if 'a' <= c <= 'f' then c as int - 'a' as int + 10
    else if 'A' <= c <= 'F' then c as int - 'A' as int + 10
    else -1
  }

  predicate IsDigit(c: char, base: nat) {
    0 <= DigitValue(c) < base
  }

  predicate IsNumeral(s: string, base: nat) {
    s != "" && forall i :: 0 <= i < |s| ==> IsDigit(s[i], base)
  }

  /** One more digit at the end. */
  function AppendDigit(v: nat, base: nat, d: nat): nat {
    v * base + d
  }

  /** The number that the digits of `s` denote. */
  function ValueOf(s: string, base: nat): (v: nat)
    requires forall i :: 0 <= i < |s| ==> IsDigit(s[i], base)
  {
    if s == "" then 0
    else
      assert IsDigit(s[|s| - 1], base);
      AppendDigit(ValueOf(s[..|s| - 1], base), base, DigitValue(s[|s| - 1]))
  }

  /** The longest prefix of digits. */
  function Digits(s: string, base: nat): (r: string)
    ensures forall i :: 0 <= i < |r| ==> IsDigit(r[i], base)
  {
    if s == "" || !IsDigit(s[0], base) then "" else [s[0]] + Digits(s[1..], base)
  }

  lemma {:induction false} DigitsOfNumeral(s: string, base: nat)
    requires forall i :: 0 <= i < |s| ==> IsDigit(s[i], base)
    ensures Digits(s, base) == s
  {
    if s != "" {
      DigitsOfNumeral(s[1..], base);
    }
  }

  /** The leading digits of `s`, or nothing when there are none. Signs and blanks are not read. */
  function ParseInt(s: string, base: nat): Option<nat> {
    var digits := Digits(s, base);
    if digits == "" then None else Some(ValueOf(digits, base))
  }

  /** The decimal number `s` denotes as a whole; the empty text denotes 0. */
  function ToNumber(s: string): Option<nat> {
    if s == "" then Some(0) else if IsNumeral(s, 10) then Some(ValueOf(s, 10)) else None
  }

  lemma {:induction false} ValueBound(s: string, base: nat, n: nat)
    requires base > 0 && |s| <= n && forall i :: 0 <= i < |s| ==> IsDigit(s[i], base)
    ensures ValueOf(s, base) < Power(base, n)
    decreases n
  {
    if s != "" {
      ValueBound(s[..|s| - 1], base, n - 1);
      ScaleUp(ValueOf(s[..|s| - 1], base), Power(base, n - 1), base, DigitValue(s[|s| - 1]));
    } else {
      PowerPositive(base, n);
    }
  }

  function Power(base: nat, n: nat): nat {
    if n == 0 then 1 else base * Power(base, n - 1)
  }

  lemma {:induction false} PowerPositive(base: nat, n: nat)
    requires base > 0
    ensures Power(base, n) > 0
  {
    if n > 0 {
      PowerPositive(base, n - 1);
    }
  }

  lemma ScaleUp(v: nat, bound: nat, base: nat, d: int)
    requires v < bound && 0 <= d < base
    ensures v * base + d < base * bound
  {
    assert v + 1 <= bound;
    assert (v + 1) * base <= bound * base;
    assert (v + 1) * base == v * base + base;
  }

  // ---------------------------------------------------------------- the double colon

  /** No two separators in a row. */
  ghost predicate NoDouble(s: string, c: char) {
    forall i, j :: 0 <= i && j == i + 1 < |s| ==> !(s[i] == c && s[j] == c)
  }

  lemma {:induction false} SplitNoDouble(s: string, c: char)
    requires NoDouble(s, c)
    ensures Split(s, [c, c]) == [s]
    decreases |s|
  {
    if |s| >= 2 {
      assert NoDouble(s[1..], c) by {
        assert forall i, j :: 0 <= i && j == i + 1 < |s[1..]| ==> s[1..][i] == s[i + 1] && s[1..][j] == s[j + 1];
      }
      SplitNoDouble(s[1..], c);
      assert !([c, c] <= s) by {
        assert !(s[0] == c && s[1] == c);
      }
      assert [s[0]] + s[1..] == s;
    }
  }

  /** A double separator after a text that does not end in one splits there. */
  lemma {:induction false} SplitAtDouble(left: string, c: char, right: string)
    requires NoDouble(left, c) && (left != "" ==> left[|left| - 1] != c) && NoDouble(right, c)
    ensures Split(left + [c, c] + right, [c, c]) == [left, right]
    decreases |left|
  {
    var s := left + [c, c] + right;
    if left == "" {
      assert [c, c] <= s && s[2..] == right;
      SplitNoDouble(right, c);
    } else {
      assert s[1..] == left[1..] + [c, c] + right;
      assert NoDouble(left[1..], c) by {
        assert forall i, j :: 0 <= i && j == i + 1 < |left[1..]| ==>
                                left[1..][i] == left[i + 1] && left[1..][j] == left[j + 1];
      }
      SplitAtDouble(left[1..], c, right);
      assert !([c, c] <= s) by {
        assert s[0] == left[0];
        if |left| > 1 {
          assert s[1] == left[1];
        }
      }
      assert [left[0]] + left[1..] == left;
    }
  }

  /** Joined pieces that are nonempty and lack the separator have no two separators in a row and none at either end. */
  lemma {:induction false} JoinNoDouble(parts: seq<string>, c: char)
    requires forall p :: p in parts ==> p != "" && Lacks(p, c)
    ensures NoDouble(Join(parts, [c]), c)
    ensures parts != [] ==>
              && Join(parts, [c]) != "" && Join(parts, [c])[0] != c
              && Join(parts, [c])[|Join(parts, [c])| - 1] != c
  {
    if |parts| > 1 {
      assert forall p :: p in parts[1..] ==> p in parts;
      JoinNoDouble(parts[1..], c);
      var first, rest := parts[0], Join(parts[1..], [c]);
      assert first in parts;
      assert Join(parts, [c]) == first + [c] + rest;
      GlueNoDouble(first, c, rest);
    } else if |parts| == 1 {
      assert parts[0] in parts;
    }
  }

  lemma GlueNoDouble(first: string, c: char, rest: string)
    requires first != "" && Lacks(first, c) && rest != "" && rest[0] != c && NoDouble(rest, c)
    ensures var s := first + [c] + rest; NoDouble(s, c) && s[0] != c && s[|s| - 1] == rest[|rest| - 1]
  {
    var s, n := first + [c] + rest, |first|;
    forall i, j | 0 <= i && j == i + 1 < |s| ensures !(s[i] == c && s[j] == c) {
      if i < n {
        assert s[i] == first[i];
      } else if i == n {
        assert s[j] == rest[0];
      } else {
        assert s[i] == rest[i - n - 1] && s[j] == rest[j - n - 1];
      }
    }
  }

  /** A text that contains the separator has more than one piece. */
  lemma {:induction false} SplitMore(s: string, sep: char, i: nat)
    requires i < |s| && s[i] == sep
    ensures |Split(s, [sep])| > 1
    decreases |s|
  {
    if s[0] == sep {
      assert [sep] <= s;
    } else {
      SplitMore(s[1..], sep, i - 1);
      assert !([sep] <= s);
    }
  }

  lemma {:induction false} JoinLacks(parts: seq<string>, sep: char, c: char)
    requires sep != c && forall p :: p in parts ==> Lacks(p, c)
    ensures Lacks(Join(parts, [sep]), c)
  {
    if parts != [] {
      assert parts[0] in parts && forall p :: p in parts[1..] ==> p in parts;
      JoinLacks(parts[1..], sep, c);
    }
  }

  lemma NumeralLacks(s: string, base: nat, c: char)
    requires IsNumeral(s, base) && DigitValue(c) == -1
    ensures Lacks(s, c)
  {
    forall i | 0 <= i < |s| ensures s[i] != c {
      assert IsDigit(s[i], base);
    }
  }
}
