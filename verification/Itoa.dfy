/** itoa (t2tunnel/rawpacketconn.go): decimal digits written backwards into a 20-byte buffer. */
module Itoa {

  /** d times 10^k. */
  function Scale(d: nat, k: nat): nat
    decreases k
  {
    if k == 0 then d else Scale(10 * d, k - 1)
  }

  predicate Digits(s: string) { forall i | 0 <= i < |s| :: '0' <= s[i] <= '9' }

  function DigitOf(c: char): (d: nat)
    requires '0' <= c <= '9'
  {
    c as int - '0' as int
  }

  /** The number a string of digits denotes. */
  function Value(s: string): nat
    requires Digits(s)
  {
    if s == [] then 0 else Scale(DigitOf(s[0]), |s| - 1) + Value(s[1..])
  }

  datatype Parsed = Number(n: int) | Malformed

  function Signed(neg: bool, v: int): int { if neg then -v else v }

  /** Decimal parsing of an optional minus sign and at least one digit. */
  function ParseInt(s: string): Parsed {
    var digits := if s != [] && s[0] == '-' then s[1..] else s;
    if digits == [] || !Digits(digits) then Malformed
    else Number(Signed(|digits| < |s|, Value(digits)))
  }

  predicate NoLeadingZero(s: string) {
    var digits := if s != [] && s[0] == '-' then s[1..] else s;
    digits != [] && (digits[0] == '0' ==> s == "0")
  }

  const MIN_INT64 := -0x8000_0000_0000_0000
  const MAX_INT64 := 0x7fff_ffff_ffff_ffff

  /** Go's -n on a 64-bit int: the least value is its own negation. */
  function Negate(n: int): int { if n == MIN_INT64 then n else -n }

  lemma {:induction false} ScaleAdds(x: nat, y: nat, k: nat)
    ensures Scale(x + y, k) == Scale(x, k) + Scale(y, k)
    decreases k
  {
    if k > 0 {
      ScaleAdds(10 * x, 10 * y, k - 1);
    }
  }

  lemma {:induction false} ScaleGrows(c: nat, d: nat, j: nat, k: nat)
    requires 0 < c <= d && j <= k
    ensures Scale(c, j) <= Scale(d, k)
    decreases k
  {
    if j > 0 {
      ScaleGrows(10 * c, 10 * d, j - 1, k - 1);
    } else if k > 0 {
      ScaleGrows(c, 10 * d, 0, k - 1);
    }
  }

  lemma NineteenDigits()
    ensures Scale(1, 19) > MAX_INT64
  {
    assert Scale(1, 19) == Scale(1_0000, 15) == Scale(1_0000_0000, 11) == Scale(1_0000_0000_0000, 7)
        == Scale(1_0000_0000_0000_0000, 3) == Scale(1000_0000_0000_0000_0000, 0);
  }

  /** Peeling the last digit off m, with k digits already written. */
  lemma PeelDigit(m: nat, k: nat)
    ensures Scale(m, k) == Scale(m / 10, k + 1) + Scale(m % 10, k)
  {
    ScaleAdds(10 * (m / 10), m % 10, k);
  }

  /** A digit in front of a string of digits. */
  lemma ValueCons(d: char, s: string)
    requires '0' <= d <= '9' && Digits(s)
    ensures Digits([d] + s)
    ensures Value([d] + s) == Scale(DigitOf(d), |s|) + Value(s)
  {
    var t := [d] + s;
    assert t[0] == d && |t| - 1 == |s| && t[1..] == s;
  }

  lemma ZeroParses()
    ensures ParseInt("0") == Number(0)
  {
  }

  /** Of abs, the digits in s have been written and m is left; the last digit written is not a leading zero. */
  predicate Written(abs: int, m: int, s: string) {
    && 0 <= m && 0 < abs <= MAX_INT64
    && Digits(s) && abs == Scale(m, |s|) + Value(s)
    && (m == 0 ==> s != [] && s[0] != '0')
  }

  /** As long as digits are left there is room for one more and the sign in 20 bytes. */
  lemma RoomLeft(abs: int, m: int, s: string)
    requires Written(abs, m, s) && m > 0
    ensures |s| < 19
  {
    if |s| >= 19 {
      NineteenDigits();
      ScaleGrows(1, m, 19, |s|);
    }
  }

  function LastDigit(m: nat): (d: char)
    ensures '0' <= d <= '9' && DigitOf(d) == m % 10
  {
    '0' + (m % 10) as char
  }

  lemma WriteDigit(abs: int, m: int, s: string)
    requires Written(abs, m, s) && m > 0
    ensures Written(abs, m / 10, [LastDigit(m)] + s)
  {
    PeelDigit(m, |s|);
    ValueCons(LastDigit(m), s);
  }

  lemma {:induction false} ScaleOfZero(k: nat)
    ensures Scale(0, k) == 0
  {
    if k > 0 {
      ScaleOfZero(k - 1);
    }
  }

  lemma AllWritten(abs: int, s: string)
    requires Written(abs, 0, s)
    ensures Value(s) == abs
  {
    ScaleOfZero(|s|);
  }

  lemma ParseOfDigits(s: string, digits: string, neg: bool)
    requires digits != [] && Digits(digits) && s == if neg then "-" + digits else digits
    ensures ParseInt(s) == Number(Signed(neg, Value(digits)))
  {
  }

  lemma AllPrinted(n: int, abs: int, digits: string, s: string)
    requires Written(abs, 0, digits) && n == Signed(n < 0, abs) && s == if n < 0 then "-" + digits else digits
    ensures ParseInt(s) == Number(n) && NoLeadingZero(s)
  {
    AllWritten(abs, digits);
    ParseOfDigits(s, digits, n < 0);
    assert digits == if n < 0 then s[1..] else s;
  }

  /** For every 64-bit n, itoa(n) parses back to n, and has no leading zero, except for the least one: there
      negation wraps around, the loop does not run, and itoa prints a bare minus sign. */
  method Itoa(n: int) returns (s: string)
    requires MIN_INT64 <= n <= MAX_INT64
    ensures ParseInt(s) == Number(n) <==> n != MIN_INT64
    ensures n != MIN_INT64 ==> NoLeadingZero(s)
    ensures n == MIN_INT64 ==> s == "-"
  {
    if n == 0 {
      ZeroParses();
      return "0";
    }
    var neg := n < 0;
    var m := n;
    if neg {
      m := Negate(m);
    }
    ghost var abs := m;
    var buf := new char[20];
    var i := buf.Length;
    ghost var digits := buf[20..];
    while m > 0
      invariant 1 <= i <= buf.Length && digits == buf[i..]
      invariant if n == MIN_INT64 then m == n && i == 20 else Written(abs, m, digits)
    {
      RoomLeft(abs, m, digits);
      WriteDigit(abs, m, digits);
      i := i - 1;
      buf[i] := LastDigit(m);
      digits := [LastDigit(m)] + digits;
      assert digits == buf[i..];
      m := m / 10;
    }
    if neg {
      i := i - 1;
      buf[i] := '-';
      assert buf[i..] == "-" + digits;
    }
    s := buf[i..];
    if n != MIN_INT64 {
      AllPrinted(n, abs, digits, s);
    }
  }
}
