/**
 * Text helpers shared by every component: positional numerals (Python `str`/`int`,
 * Java `Integer.toString`, `%08X`), joining and splitting, and the code-point order
 * in which Python compares strings.
 */
module Text {
  import opened Results

  // ---------------------------------------------------------------- numerals

  /** The digit character for `d` (upper-case letters from ten on). */
  function DigitChar(d: nat): char
    requires d < 16
  {
    if d < 10 then ('0' as int + d) as char else ('A' as int + (d - 10)) as char
  }

  /** The value of a digit character, or 16 when `c` is not one. */
  function DigitValue(c: char): nat {
    if '0' <= c <= '9' then c as int - '0' as int
    else if 'A' <= c <= 'F' then c as int - 'A' as int + 10
    else 16
  }

  predicate IsDigits(s: string, base: nat) {
    forall i :: 0 <= i < |s| ==> DigitValue(s[i]) < base
  }

  /** The numeral of `n` in `base`, most significant digit first, without leading zeros. */
  function Numeral(n: nat, base: nat): (s: string)
    requires 2 <= base <= 16
    ensures 1 <= |s|
    ensures IsDigits(s, base)
    ensures |s| > 1 ==> s[0] != '0'
    decreases n
  {
    if n < base then [DigitChar(n)]
    else
      DivideByBase(n, base);
      Numeral(n / base, base) + [DigitChar(n % base)]
  }

  lemma DivideByBase(n: nat, base: nat)
    requires 2 <= base <= n
    ensures 1 <= n / base < n
    ensures n % base < base
    ensures n == n / base * base + n % base
  {
  }

  /** The number a string of digits denotes in `base`. */
  function NumeralValue(s: string, base: nat): nat
    requires IsDigits(s, base)
  {
    if s == [] then 0 else NumeralValue(s[..|s| - 1], base) * base + DigitValue(s[|s| - 1])
  }

  /** Reading a numeral back gives the number it was written from. */
  lemma {:induction false} NumeralRoundTrip(n: nat, base: nat)
    requires 2 <= base <= 16
    ensures NumeralValue(Numeral(n, base), base) == n
    decreases n
  {
    var s := Numeral(n, base);
    if n >= base {
      DivideByBase(n, base);
      NumeralRoundTrip(n / base, base);
      assert s[..|s| - 1] == Numeral(n / base, base);
    }
  }

  /** Decimal text of a natural number (Python `str`, Java `Integer.toString`). */
  function Decimal(n: nat): string {
    Numeral(n, 10)
  }

  /** Decimal text of an integer, with a leading '-' when negative. */
  function IntText(i: int): string {
    if i < 0 then "-" + Decimal(-i) else Decimal(i)
  }

  /** A non-empty run of ASCII decimal digits, read as a number. */
  function ParseNat(s: string): Option<nat> {
    if |s| > 0 && IsDigits(s, 10) then Some(NumeralValue(s, 10)) else None
  }

  /**
   * Python `int(s)` on an optional sign followed by ASCII decimal digits; `None` is
   * the ValueError raised for anything else.
   */
  function ParseInt(s: string): (r: Option<int>)
    ensures r.Some? ==> 0 < |s|
  {
    if |s| > 0 && (s[0] == '-' || s[0] == '+') then
      match ParseNat(s[1..])
      case Some(n) => var v: int := n; Some(if s[0] == '-' then -v else v)
      case None => None
    else
      match ParseNat(s)
      case Some(n) => Some(n)
      case None => None
  }

  /** `int(str(i)) == i`: the integer parser reads back what `IntText` writes. */
  lemma IntTextRoundTrip(i: int)
    ensures ParseInt(IntText(i)) == Some(i)
  {
    DecimalReadsBack(if i < 0 then -i else i);
    if i < 0 {
      assert IntText(i)[1..] == Decimal(-i);
    }
  }

  /** A decimal numeral is a run of digits that reads back as its number and starts with no sign. */
  lemma DecimalReadsBack(n: nat)
    ensures ParseNat(Decimal(n)) == Some(n)
    ensures Decimal(n)[0] != '-' && Decimal(n)[0] != '+'
  {
    NumeralRoundTrip(n, 10);
    assert DigitValue(Decimal(n)[0]) < 10;
  }

  /** `s` preceded by enough '0's to be at least `width` characters long. */
  function ZeroPad(s: string, width: nat): (r: string)
    ensures |r| == if |s| < width then width else |s|
    ensures r[|r| - |s|..] == s
    ensures forall i :: 0 <= i < |r| - |s| ==> r[i] == '0'
  {
    if |s| < width then Repeat('0', width - |s|) + s else s
  }

  function Repeat(c: char, n: nat): (r: string)
    ensures |r| == n && forall i :: 0 <= i < n ==> r[i] == c
  {
    if n == 0 then [] else [c] + Repeat(c, n - 1)
  }

  /** Python `format(i, '08X')`: upper-case hex, zero-padded to 8, a '-' taking one place. */
  function PyHex08(i: int): string {
    if i < 0 then "-" + ZeroPad(Numeral(-i, 16), 7) else ZeroPad(Numeral(i, 16), 8)
  }

  /** Java `String.format("%08X", i)` for an `int`: the two's-complement 32-bit pattern. */
  function JavaHex08(i: int): (r: string)
    ensures |r| == 8
    ensures IsDigits(r, 16) && NumeralValue(r, 16) == i % 0x1_0000_0000
  {
    var u := i % 0x1_0000_0000;
    HexWidthBound(u, 8);
    var digits := Numeral(u, 16);
    var r := ZeroPad(digits, 8);
    NumeralRoundTrip(u, 16);
    ZeroPrefixValue(r[..|r| - |digits|], digits, 16);
    assert r == r[..|r| - |digits|] + digits;
    r
  }

  /** Leading zero digits do not change the value of a numeral. */
  lemma {:induction false} ZeroPrefixValue(zeros: string, s: string, base: nat)
    requires 2 <= base && IsDigits(s, base)
    requires forall i :: 0 <= i < |zeros| ==> zeros[i] == '0'
    ensures IsDigits(zeros + s, base) && NumeralValue(zeros + s, base) == NumeralValue(s, base)
    decreases |s|
  {
    var whole := zeros + s;
    assert forall i :: 0 <= i < |whole| ==> whole[i] == if i < |zeros| then zeros[i] else s[i - |zeros|];
    if s == [] {
      assert whole == zeros;
      ZerosValue(zeros, base);
    } else {
      var init := s[..|s| - 1];
      assert whole[..|whole| - 1] == zeros + init;
      ZeroPrefixValue(zeros, init, base);
    }
  }

  /** A numeral of zeros only is worth 0. */
  lemma {:induction false} ZerosValue(zeros: string, base: nat)
    requires 2 <= base
    requires forall i :: 0 <= i < |zeros| ==> zeros[i] == '0'
    ensures IsDigits(zeros, base) && NumeralValue(zeros, base) == 0
    decreases |zeros|
  {
    if zeros != [] {
      ZerosValue(zeros[..|zeros| - 1], base);
    }
  }

  /** A number below 16^k needs at most k hex digits. */
  lemma {:induction false} HexWidthBound(n: nat, k: nat)
    requires n < Pow16(k)
    requires k >= 1
    ensures |Numeral(n, 16)| <= k
    decreases k
  {
    if n >= 16 {
      assert n / 16 < Pow16(k - 1);
      HexWidthBound(n / 16, k - 1);
    }
  }

  function Pow16(k: nat): nat {
    if k == 0 then 1 else 16 * Pow16(k - 1)
  }

  /** Both `%08X` renderings agree on every value a Java `int` can hold without its sign bit. */
  lemma HexRenderingsAgree(i: int)
    requires 0 <= i < 0x8000_0000
    ensures PyHex08(i) == JavaHex08(i)
  {
    assert i % 0x1_0000_0000 == i;
  }

  // ---------------------------------------------------------------- join and split

  /** `sep.join(parts)`. */
  function Join(parts: seq<string>, sep: string): string {
    if |parts| == 0 then ""
    else if |parts| == 1 then parts[0]
    else parts[0] + sep + Join(parts[1..], sep)
  }

  /** Appending one part to a join adds the separator only when something came before. */
  lemma {:induction false} JoinSnoc(parts: seq<string>, x: string, sep: string)
    ensures Join(parts + [x], sep) == if parts == [] then x else Join(parts, sep) + sep + x
    decreases |parts|
  {
    if |parts| == 1 {
      assert parts + [x] == [parts[0], x];
    } else if |parts| > 1 {
      JoinSnoc(parts[1..], x, sep);
      assert (parts + [x])[1..] == parts[1..] + [x];
    }
  }

  /** Python `s.split(c)`: the pieces between occurrences of `c`; never empty. */
  function Split(s: string, c: char): (parts: seq<string>)
    ensures 1 <= |parts|
    ensures forall i :: 0 <= i < |parts| ==> c !in parts[i]
  {
    if |s| == 0 then [""]
    else
      var rest := Split(s[1..], c);
      if s[0] == c then [""] + rest else [[s[0]] + rest[0]] + rest[1..]
  }

  /** A piece without the separator splits to itself. */
  lemma {:induction false} SplitNone(a: string, c: char)
    requires c !in a
    ensures Split(a, c) == [a]
    decreases |a|
  {
    if |a| > 0 {
      SplitNone(a[1..], c);
      assert [a[0]] + a[1..] == a;
    }
  }

  /** Text holding the separator splits into at least two pieces. */
  lemma {:induction false} SplitAtSeparator(s: string, c: char)
    requires c in s
    ensures |Split(s, c)| >= 2
    decreases |s|
  {
    if s[0] != c {
      assert c in s[1..];
      SplitAtSeparator(s[1..], c);
    }
  }

  /** Splitting at the first separator peels off the piece before it. */
  lemma {:induction false} SplitFirst(a: string, c: char, b: string)
    requires c !in a
    ensures Split(a + [c] + b, c) == [a] + Split(b, c)
    decreases |a|
  {
    if |a| == 0 {
      assert a + [c] + b == [c] + b;
      assert ([c] + b)[1..] == b;
    } else {
      var s := a + [c] + b;
      assert s[1..] == a[1..] + [c] + b;
      SplitFirst(a[1..], c, b);
      assert [a[0]] + a[1..] == a;
    }
  }

  /**
   * Splitting a join whose separator starts with `c` gives back the parts, each after
   * the first still carrying the rest of the separator in front.
   */
  lemma {:induction false} SplitJoin(parts: seq<string>, c: char, rest: string)
    requires 1 <= |parts|
    requires c !in rest
    requires forall i :: 0 <= i < |parts| ==> c !in parts[i]
    ensures Split(Join(parts, [c] + rest), c)
         == [parts[0]] + seq(|parts| - 1, i requires 0 <= i < |parts| - 1 => rest + parts[i + 1])
    decreases |parts|
  {
    if |parts| == 1 {
      SplitNone(parts[0], c);
    } else {
      var tail := Join(parts[1..], [c] + rest);
      assert Join(parts, [c] + rest) == parts[0] + [c] + (rest + tail);
      SplitFirst(parts[0], c, rest + tail);
      SplitJoin(parts[1..], c, rest);
      SplitPrefix(rest, c, tail);
    }
  }

  /** Text without the separator glues onto the first piece of a split. */
  lemma {:induction false} SplitPrefix(a: string, c: char, b: string)
    requires c !in a
    ensures Split(a + b, c) == [a + Split(b, c)[0]] + Split(b, c)[1..]
    decreases |a|
  {
    if |a| > 0 {
      assert (a + b)[1..] == a[1..] + b;
      SplitPrefix(a[1..], c, b);
      assert [a[0]] + (a[1..] + Split(b, c)[0]) == a + Split(b, c)[0];
    } else {
      assert a + b == b;
      assert a + Split(b, c)[0] == Split(b, c)[0];
      assert Split(b, c) == [Split(b, c)[0]] + Split(b, c)[1..];
    }
  }

  /** Drops leading spaces (the part of YAML's whitespace handling the survey keys use). */
  function TrimStart(s: string): (r: string)
    ensures |r| <= |s| && r == s[|s| - |r|..]
    ensures |r| > 0 ==> r[0] != ' '
  {
    if |s| > 0 && s[0] == ' ' then TrimStart(s[1..]) else s
  }

  // ---------------------------------------------------------------- string order

  /** Python's `a < b` on strings: lexicographic by code point, a proper prefix first. */
  predicate Below(a: string, b: string)
    decreases |a|
  {
    if |a| == 0 then |b| > 0
    else if |b| == 0 then false
    else if a[0] != b[0] then a[0] < b[0]
    else Below(a[1..], b[1..])
  }

  predicate AtMost(a: string, b: string) {
    a == b || Below(a, b)
  }

  lemma {:induction false} BelowIrreflexive(a: string)
    ensures !Below(a, a)
    decreases |a|
  {
    if |a| > 0 {
      BelowIrreflexive(a[1..]);
    }
  }

  lemma {:induction false} BelowTransitive(a: string, b: string, c: string)
    requires Below(a, b) && Below(b, c)
    ensures Below(a, c)
    decreases |a|
  {
    if |a| > 0 && |b| > 0 && |c| > 0 && a[0] == b[0] == c[0] {
      BelowTransitive(a[1..], b[1..], c[1..]);
    }
  }

  /** Any two different strings are ordered one way or the other. */
  lemma {:induction false} BelowTotal(a: string, b: string)
    requires a != b
    ensures Below(a, b) || Below(b, a)
    decreases |a|
  {
    if |a| > 0 && |b| > 0 && a[0] == b[0] {
      assert a == [a[0]] + a[1..] && b == [b[0]] + b[1..];
      BelowTotal(a[1..], b[1..]);
    }
  }

  lemma AtMostTransitive(a: string, b: string, c: string)
    requires AtMost(a, b) && AtMost(b, c)
    ensures AtMost(a, c)
  {
    if a != b && b != c {
      BelowTransitive(a, b, c);
    }
  }

  predicate Sorted(s: seq<string>) {
    forall i, j :: 0 <= i < j < |s| ==> AtMost(s[i], s[j])
  }

  predicate StrictlySorted(s: seq<string>) {
    forall i, j :: 0 <= i < j < |s| ==> Below(s[i], s[j])
  }

  /** Places `x` in front of the first element of `s` that is not below it. */
  function Insert(s: seq<string>, x: string): (r: seq<string>)
    ensures |r| == |s| + 1
    ensures multiset(r) == multiset(s) + multiset{x}
    ensures Sorted(s) ==> Sorted(r)
    ensures StrictlySorted(s) && x !in s ==> StrictlySorted(r)
  {
    if s == [] || !Below(s[0], x) then
      InsertFrontKeepsOrder(s, x);
      [x] + s
    else
      var r := [s[0]] + Insert(s[1..], x);
      assert s == [s[0]] + s[1..];
      InsertBehindKeepsOrder(s, x, Insert(s[1..], x));
      r
  }

  lemma InsertFrontKeepsOrder(s: seq<string>, x: string)
    requires s == [] || !Below(s[0], x)
    ensures Sorted(s) ==> Sorted([x] + s)
    ensures StrictlySorted(s) && x !in s ==> StrictlySorted([x] + s)
  {
    if s != [] {
      if x != s[0] {
        BelowTotal(x, s[0]);
      }
      if Sorted(s) {
        forall j | 0 < j < |s| + 1 ensures AtMost(x, ([x] + s)[j]) {
          AtMostTransitive(x, s[0], s[j - 1]);
        }
      }
      if StrictlySorted(s) && x !in s {
        forall j | 0 < j < |s| + 1 ensures Below(x, ([x] + s)[j]) {
          if j > 1 {
            BelowTransitive(x, s[0], s[j - 1]);
          }
        }
      }
    }
  }

  lemma InsertBehindKeepsOrder(s: seq<string>, x: string, tail: seq<string>)
    requires s != [] && Below(s[0], x)
    requires multiset(tail) == multiset(s[1..]) + multiset{x}
    requires Sorted(s[1..]) ==> Sorted(tail)
    requires StrictlySorted(s[1..]) && x !in s[1..] ==> StrictlySorted(tail)
    ensures Sorted(s) ==> Sorted([s[0]] + tail)
    ensures StrictlySorted(s) && x !in s ==> StrictlySorted([s[0]] + tail)
  {
    var r := [s[0]] + tail;
    // every element behind the head came from the rest of `s`, or is `x`
    forall j | 0 <= j < |tail| ensures tail[j] == x || exists k :: 1 <= k < |s| && s[k] == tail[j] {
      assert tail[j] in multiset(tail);
      if tail[j] != x {
        assert tail[j] in multiset(s[1..]);
        var k :| 0 <= k < |s[1..]| && s[1..][k] == tail[j];
        assert s[k + 1] == tail[j];
      }
    }
    if Sorted(s) {
      assert Sorted(s[1..]);
      forall i, j | 0 <= i < j < |r| ensures AtMost(r[i], r[j]) {
        if i == 0 {
          if tail[j - 1] != x {
            var k :| 1 <= k < |s| && s[k] == tail[j - 1];
          }
        }
      }
    }
    if StrictlySorted(s) && x !in s {
      assert StrictlySorted(s[1..]);
      forall i, j | 0 <= i < j < |r| ensures Below(r[i], r[j]) {
        if i == 0 {
          if tail[j - 1] != x {
            var k :| 1 <= k < |s| && s[k] == tail[j - 1];
          }
        }
      }
    }
  }

  /** Python `sorted(xs)` on strings: insertion sort, ascending. */
  function SortStrings(xs: seq<string>): (r: seq<string>)
    ensures |r| == |xs|
    ensures multiset(r) == multiset(xs)
    ensures Sorted(r)
  {
    if xs == [] then []
    else
      assert xs == [xs[0]] + xs[1..];
      Insert(SortStrings(xs[1..]), xs[0])
  }
}
