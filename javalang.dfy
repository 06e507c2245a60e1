/**
  The pieces of Java's language and standard library semantics that the
  modelled code relies on: 32-bit `int` arithmetic, the shift operators,
  the decimal `toString` of the integral boxes, and `String.split("\\|")`.
 */
module JavaLang {

  import opened Wrappers

  // ---------------------------------------------------------------------
  // 32-bit two's-complement integers
  // ---------------------------------------------------------------------

  const TWO_32: int := 0x1_0000_0000
  const INT_MIN: int := -0x8000_0000
  const INT_MAX: int := 0x7FFF_FFFF

  type int8 = x: int | -0x80 <= x < 0x80
  type int16 = x: int | -0x8000 <= x < 0x8000
  type int32 = x: int | INT_MIN <= x <= INT_MAX
  type int64 = x: int | -0x8000_0000_0000_0000 <= x < 0x8000_0000_0000_0000

  /** 2 to the power n. */
  function Pow2(n: nat): (r: nat)
    ensures r >= 1
  {
    if n == 0 then 1 else 2 * Pow2(n - 1)
  }

  /** The Java `int` that a mathematical integer wraps around to. */
  function Wrap32(x: int): (r: int32)
    ensures (r - x) % TWO_32 == 0
    ensures INT_MIN <= x <= INT_MAX ==> r == x
  {
    var m := x % TWO_32;
    if m <= INT_MAX then m else m - TWO_32
  }

  /** Java's `1 << n` on `int`: only the low five bits of the count are used. */
  function ShiftLeftOne(n: int): (r: int32)
    ensures 0 <= n < 31 ==> r == Pow2(n)
    ensures n % 32 == 31 ==> r == INT_MIN
  {
    Pow2Below31(n % 32);
    Wrap32(Pow2(n % 32))
  }

  lemma Pow2Below31(n: nat)
    ensures n < 31 ==> Pow2(n) <= INT_MAX
    ensures n == 31 ==> Pow2(n) == 0x8000_0000
  {
    assert Pow2(8) == 0x100;
    Pow2Add(8, 8);
    Pow2Add(16, 8);
    Pow2Add(24, 7);
    assert Pow2(7) == 0x80;
    if n < 31 {
      Pow2Monotone(n, 30);
    }
  }

  lemma {:induction false} Pow2Add(m: nat, n: nat)
    ensures Pow2(m + n) == Pow2(m) * Pow2(n)
  {
    if n > 0 {
      Pow2Add(m, n - 1);
    }
  }

  lemma {:induction false} Pow2Monotone(m: nat, n: nat)
    requires m <= n
    ensures Pow2(m) <= Pow2(n)
  {
    if m < n {
      Pow2Monotone(m, n - 1);
    }
  }

  /** Java's arithmetic `x >> 4` on `int`, which rounds toward negative infinity. */
  function ShiftRight4(x: int): (r: int)
    ensures 16 * r <= x < 16 * r + 16
  {
    x / 16
  }

  // ---------------------------------------------------------------------
  // Byte/Short/Integer/Long.toString: decimal text
  // ---------------------------------------------------------------------

  predicate IsDigit(c: char) {
    '0' <= c <= '9'
  }

  predicate AllDigits(s: string) {
    forall i :: 0 <= i < |s| ==> IsDigit(s[i])
  }

  function DigitChar(d: nat): (c: char)
    requires d < 10
    ensures IsDigit(c)
  {
    ['0', '1', '2', '3', '4', '5', '6', '7', '8', '9'][d]
  }

  function DigitValue(c: char): (d: nat)
    requires IsDigit(c)
    ensures d < 10
  {
    (c as int) - ('0' as int)
  }

  /** The decimal digits of n, with no leading zero. */
  function Digits(n: nat): (s: string)
    ensures |s| >= 1 && AllDigits(s)
    ensures |s| > 1 ==> s[0] != '0'
  {
    if n < 10 then [DigitChar(n)] else Digits(n / 10) + [DigitChar(n % 10)]
  }

  /** What Java's `toString` of a byte, short, int or long returns. */
  function Decimal(n: int): (s: string)
    ensures |s| >= 1 && '|' !in s
  {
    if n < 0 then "-" + Digits(-n) else Digits(n)
  }

  /** Reads a string of decimal digits back; the inverse of Digits. */
  function ParseDigits(s: string): nat
    requires AllDigits(s)
  {
    if s == [] then 0 else 10 * ParseDigits(s[..|s| - 1]) + DigitValue(s[|s| - 1])
  }

  /** Reads an optionally negated decimal numeral back. */
  function ParseDecimal(s: string): (r: Option<int>)
  {
    if |s| >= 2 && s[0] == '-' && AllDigits(s[1..]) then Some(0 - ParseDigits(s[1..]) as int)
    else if |s| >= 1 && AllDigits(s) then Some(ParseDigits(s))
    else None
  }

  lemma {:induction false} DigitsRoundTrip(n: nat)
    ensures ParseDigits(Digits(n)) == n
  {
    if n >= 10 {
      DigitsRoundTrip(n / 10);
      var s := Digits(n);
      assert s[..|s| - 1] == Digits(n / 10);
      assert DigitValue(DigitChar(n % 10)) == n % 10;
    } else {
      assert DigitValue(DigitChar(n)) == n;
    }
  }

  /** Decimal text determines the number: it reads back to the same value. */
  lemma DecimalRoundTrip(n: int)
    ensures ParseDecimal(Decimal(n)) == Some(n)
  {
    if n < 0 {
      var d := Digits(-n);
      DigitsRoundTrip(-n);
      var s := Decimal(n);
      assert s == "-" + d;
      assert s[0] == '-' && s[1..] == d && AllDigits(d);
      assert ParseDecimal(s) == Some(0 - ParseDigits(d) as int);
    } else {
      DigitsRoundTrip(n);
      assert Decimal(n) == Digits(n);
    }
  }

  /** Distinct numbers have distinct decimal texts. */
  lemma DecimalInjective(m: int, n: int)
    requires Decimal(m) == Decimal(n)
    ensures m == n
  {
    DecimalRoundTrip(m);
    DecimalRoundTrip(n);
  }

  // ---------------------------------------------------------------------
  // String.split("\\|")
  // ---------------------------------------------------------------------

  /** Splits s at every '|', keeping every piece, the empty ones included. */
  function SplitAll(s: string): (r: seq<string>)
    ensures |r| >= 1
    ensures forall i :: 0 <= i < |r| ==> '|' !in r[i]
  {
    if s == [] then [""]
    else if s[0] == '|' then [""] + SplitAll(s[1..])
    else
      var t := SplitAll(s[1..]);
      [[s[0]] + t[0]] + t[1..]
  }

  /** Glues pieces back together with '|' between them. */
  function Join(pieces: seq<string>): string
    requires |pieces| >= 1
  {
    if |pieces| == 1 then pieces[0] else pieces[0] + "|" + Join(pieces[1..])
  }

  /** Splitting at every separator loses nothing: joining gives s back. */
  lemma {:induction false} SplitAllJoin(s: string)
    ensures Join(SplitAll(s)) == s
  {
    if s != [] {
      SplitAllJoin(s[1..]);
      var t := SplitAll(s[1..]);
      if s[0] != '|' {
        if |t| == 1 {
          assert SplitAll(s) == [[s[0]] + t[0]];
        } else {
          assert SplitAll(s)[1..] == t[1..];
          assert Join(t) == t[0] + "|" + Join(t[1..]);
        }
      } else {
        assert SplitAll(s)[1..] == t;
      }
    }
  }

  /** Joining '|'-free pieces and splitting again gives the same pieces. */
  lemma {:induction false} JoinSplitAll(pieces: seq<string>)
    requires |pieces| >= 1
    requires forall i :: 0 <= i < |pieces| ==> '|' !in pieces[i]
    ensures SplitAll(Join(pieces)) == pieces
  {
    if |pieces| == 1 {
      NoSeparator(pieces[0]);
    } else {
      JoinSplitAll(pieces[1..]);
      PrefixSplit(pieces[0], Join(pieces[1..]));
    }
  }

  lemma {:induction false} NoSeparator(s: string)
    requires '|' !in s
    ensures SplitAll(s) == [s]
  {
    if s != [] {
      NoSeparator(s[1..]);
      assert [s[0]] + s[1..] == s;
    }
  }

  lemma {:induction false} PrefixSplit(a: string, rest: string)
    requires '|' !in a
    ensures SplitAll(a + "|" + rest) == [a] + SplitAll(rest)
  {
    if a == [] {
      assert ("" + "|" + rest)[1..] == rest;
    } else {
      PrefixSplit(a[1..], rest);
      var s := a + "|" + rest;
      assert s[0] == a[0] && s[0] != '|';
      assert s[1..] == a[1..] + "|" + rest;
      assert [a[0]] + a[1..] == a;
    }
  }

  /** Java's split drops the empty strings at the end of the result. */
  function DropTrailingEmpty(p: seq<string>): (r: seq<string>)
    ensures r <= p
    ensures r == [] || r[|r| - 1] != ""
    ensures forall i :: |r| <= i < |p| ==> p[i] == ""
  {
    if p == [] then []
    else if p[|p| - 1] == "" then DropTrailingEmpty(p[..|p| - 1])
    else p
  }

  /**
    `s.split("\\|")` in Java: a string with no separator comes back whole
    (the empty string included); otherwise the pieces between separators,
    without the empty ones at the end.
   */
  function JavaSplit(s: string): (r: seq<string>)
  {
    if '|' !in s then [s] else DropTrailingEmpty(SplitAll(s))
  }

  /** A non-empty alternative survives Java's split exactly when it is a piece. */
  lemma JavaSplitNonEmpty(s: string, v: string)
    requires v != ""
    ensures v in JavaSplit(s) <==> v in SplitAll(s)
  {
    if '|' !in s {
      NoSeparator(s);
    }
  }
}
