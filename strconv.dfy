/**
 * Go's `strconv.Atoi` as the exporter uses it, on a 64-bit platform, with
 * its error discarded: a syntax error reads as 0 and a range error as the
 * saturated value Go returns with it. `Itoa` is not called by the
 * exporter; it is the partner of the round-trip lemma.
 */
module Strconv {
  import Strings

  const MaxInt64: int := 0x7FFF_FFFF_FFFF_FFFF
  const MinInt64: int := -0x8000_0000_0000_0000

  predicate InInt64(n: int)
  {
    MinInt64 <= n <= MaxInt64
  }

  predicate IsDigit(c: char)
  {
    '0' <= c <= '9'
  }

  predicate AllDigits(s: string)
  {
    forall i :: 0 <= i < |s| ==> IsDigit(s[i])
  }

  /** The value of a string of decimal digits, most significant first. */
  function DigitsValue(s: string): nat
    requires AllDigits(s)
  {
    if s == [] then 0
    else DigitsValue(s[..|s| - 1]) * 10 + (s[|s| - 1] as int - '0' as int)
  }

  predicate HasSign(s: string)
  {
    |s| > 0 && (s[0] == '+' || s[0] == '-')
  }

  /** The text after an optional leading sign. */
  function Magnitude(s: string): string
  {
    if HasSign(s) then s[1..] else s
  }

  /** What `Atoi` accepts: an optional sign followed by at least one digit
      (no white space, no underscores, no other base). */
  predicate IsDecimal(s: string)
  {
    Magnitude(s) != [] && AllDigits(Magnitude(s))
  }

  predicate IsNegative(s: string)
  {
    HasSign(s) && s[0] == '-'
  }

  /** An out-of-range value saturates at the nearest int64 bound, as
      `strconv.ParseInt` reports it alongside its range error. */
  function Clamp(n: int): (r: int)
    ensures InInt64(r)
    ensures InInt64(n) ==> r == n
    ensures n > MaxInt64 ==> r == MaxInt64
    ensures n < MinInt64 ==> r == MinInt64
  {
    if n > MaxInt64 then MaxInt64 else if n < MinInt64 then MinInt64 else n
  }

  const MaxUint64: int := 0xFFFF_FFFF_FFFF_FFFF

  /** The number of decimal digits `s` starts with. */
  function DigitRun(s: string): (k: nat)
    ensures k <= |s| && AllDigits(s[..k])
    ensures k < |s| ==> !IsDigit(s[k])
  {
    if s == [] || !IsDigit(s[0]) then 0
    else
      var k := 1 + DigitRun(s[1..]);
      assert s[..k] == [s[0]] + s[1..][..k - 1];
      k
  }

  /** How the digit loop of `strconv.ParseUint` ends. */
  datatype Scan = SyntaxError | RangeError | Parsed(value: nat)

  /** The base-10 digit loop of `ParseUint`, resumed after the first `i`
      characters of `m` (digits whose value still fits in a uint64): a
      non-digit is a syntax error, and a digit that takes the value past
      2^64 - 1 is a range error, whatever characters follow it. */
  function ScanDigits(m: string, i: nat): Scan
    requires i <= |m| && AllDigits(m[..i]) && DigitsValue(m[..i]) <= MaxUint64
    decreases |m| - i
  {
    if i == |m| then Parsed(DigitsValue(m[..i]))
    else if !IsDigit(m[i]) then SyntaxError
    else
      assert m[..i + 1][..i] == m[..i];
      if DigitsValue(m[..i + 1]) > MaxUint64 then RangeError
      else ScanDigits(m, i + 1)
  }

  /** A longer run of digits is worth at least as much. */
  lemma {:induction false} DigitsValueGrows(m: string, i: nat, j: nat)
    requires i <= j <= |m| && AllDigits(m[..j])
    ensures AllDigits(m[..i]) && DigitsValue(m[..i]) <= DigitsValue(m[..j])
    decreases j - i
  {
    assert forall x :: 0 <= x < i ==> m[..i][x] == m[..j][x];
    if i < j {
      assert m[..j][..j - 1] == m[..j - 1];
      DigitsValueGrows(m, i, j - 1);
    }
  }

  /** The loop's outcome is decided by the leading digit run: a range error
      when its value exceeds 2^64 - 1, otherwise a syntax error when
      anything follows it, otherwise its value. */
  lemma {:induction false} ScanDigitsOutcome(m: string, i: nat)
    requires i <= |m| && AllDigits(m[..i]) && DigitsValue(m[..i]) <= MaxUint64
    requires i <= DigitRun(m)
    ensures var k := DigitRun(m);
      ScanDigits(m, i) ==
        if DigitsValue(m[..k]) > MaxUint64 then RangeError
        else if k < |m| then SyntaxError
        else Parsed(DigitsValue(m))
    decreases |m| - i
  {
    var k := DigitRun(m);
    if i == |m| {
      assert m[..i] == m;
    } else if !IsDigit(m[i]) {
    } else {
      assert i < k;
      assert m[..i + 1][..i] == m[..i];
      assert AllDigits(m[..i + 1]) by {
        assert forall x :: 0 <= x < i + 1 ==> m[..i + 1][x] == m[..k][x];
      }
      if DigitsValue(m[..i + 1]) > MaxUint64 {
        DigitsValueGrows(m, i + 1, k);
      } else {
        ScanDigitsOutcome(m, i + 1);
      }
    }
  }

  /** `v` with the sign of `s`. */
  function Signed(s: string, v: nat): int
  {
    if IsNegative(s) then -(v as int) else v
  }

  /** The value of the digits right after the sign, up to the first
      non-digit. */
  function LeadingValue(s: string): nat
  {
    var m := Magnitude(s);
    DigitsValue(m[..DigitRun(m)])
  }

  /** `n, _ := strconv.Atoi(s)` on a 64-bit platform. After an optional
      sign, the digits are read left to right as `ParseUint` does; the
      first of these events decides the result: a non-digit gives 0, a
      value past 2^64 - 1 saturates at the int64 bound of the sign. A
      complete value saturates the same way when it is out of the int64
      range. (Go's shortcut for strings under 19 bytes cannot overflow and
      gives the same results.) */
  function Atoi(s: string): (r: int)
    ensures InInt64(r)
    ensures IsDecimal(s) ==> r == Clamp(Signed(s, DigitsValue(Magnitude(s))))
    ensures !IsDecimal(s) && LeadingValue(s) <= MaxUint64 ==> r == 0
    ensures !IsDecimal(s) && LeadingValue(s) > MaxUint64 ==> r == if IsNegative(s) then MinInt64 else MaxInt64
  {
    var m := Magnitude(s);
    if m == [] then 0
    else
      assert m[..0] == [];
      assert DigitRun(m) == |m| ==> m[..DigitRun(m)] == m;
      ScanDigitsOutcome(m, 0);
      match ScanDigits(m, 0)
      case SyntaxError => 0
      case RangeError => if IsNegative(s) then MinInt64 else MaxInt64
      case Parsed(v) => Clamp(Signed(s, v))
  }

  /** One more digit: ten times the value so far plus that digit. */
  lemma DigitsValueStep(m: string, j: nat)
    requires 0 < j <= |m| && AllDigits(m[..j])
    ensures AllDigits(m[..j - 1])
    ensures DigitsValue(m[..j]) == DigitsValue(m[..j - 1]) * 10 + (m[j - 1] as int - '0' as int)
  {
    assert m[..j][..j - 1] == m[..j - 1];
  }

  /** The digit run `w` followed by a non-digit: */
  lemma {:induction false} DigitRunOf(w: string, rest: string)
    requires AllDigits(w)
    requires rest == [] || !IsDigit(rest[0])
    ensures DigitRun(w + rest) == |w|
  {
    if w != [] {
      assert (w + rest)[1..] == w[1..] + rest;
      DigitRunOf(w[1..], rest);
    }
  }

  /** Digits followed by a non-digit: the syntax error after them reads as
      0 unless their value already overflowed a uint64, in which case the
      result saturates at the bound of the sign. */
  lemma AtoiOfDigitsThenJunk(s: string, w: string, c: char)
    requires s == w + [c] || s == ['-'] + w + [c]
    requires w != [] && AllDigits(w) && !IsDigit(c)
    ensures Atoi(s) ==
      if DigitsValue(w) <= MaxUint64 then 0
      else if s[0] == '-' then MinInt64 else MaxInt64
  {
    var m := w + [c];
    if s == m {
      assert !HasSign(s) by {
        assert s[0] == w[0];
      }
    } else {
      assert s[1..] == m;
    }
    assert Magnitude(s) == m;
    DigitRunOf(w, [c]);
    assert m[..|w|] == w;
    assert !AllDigits(m) by {
      assert m[|w|] == c;
    }
  }

  /** The decimal digits of `n` followed by a letter (for 2^64, the text
      "18446744073709551616x"): the letter makes it a syntax error, but a
      value past 2^64 - 1 is reported first and saturates. */
  lemma AtoiOverflowBeforeSyntaxError(n: nat, c: char)
    requires !IsDigit(c)
    ensures Atoi(NatDigits(n) + [c]) == if n <= MaxUint64 then 0 else MaxInt64
    ensures Atoi(['-'] + NatDigits(n) + [c]) == if n <= MaxUint64 then 0 else MinInt64
  {
    AtoiOfDigitsThenJunk(NatDigits(n) + [c], NatDigits(n), c);
    AtoiOfDigitsThenJunk(['-'] + NatDigits(n) + [c], NatDigits(n), c);
  }

  function DigitChar(d: nat): (c: char)
    requires d < 10
    ensures IsDigit(c) && c as int - '0' as int == d
  {
    (d + '0' as int) as char
  }

  /** The shortest decimal digits of `n`. */
  function NatDigits(n: nat): (r: string)
    ensures r != [] && AllDigits(r)
    ensures DigitsValue(r) == n
  {
    if n < 10 then [DigitChar(n)]
    else
      var r := NatDigits(n / 10) + [DigitChar(n % 10)];
      assert r[..|r| - 1] == NatDigits(n / 10);
      r
  }

  /** Go's `strconv.Itoa`. */
  function Itoa(n: int): (r: string)
    ensures IsDecimal(r)
    ensures Strings.IsField(r)
  {
    var r := if n < 0 then "-" + NatDigits(-n) else NatDigits(n);
    assert forall i :: 0 <= i < |r| ==> r[i] == '-' || IsDigit(r[i]);
    r
  }

  /** Round trip: `Atoi` reads back every int64 that `Itoa` writes. */
  lemma AtoiOfItoa(n: int)
    requires InInt64(n)
    ensures Atoi(Itoa(n)) == n
  {
    if n < 0 {
      assert Magnitude(Itoa(n)) == NatDigits(-n);
    } else {
      assert Magnitude(Itoa(n)) == NatDigits(n);
    }
  }
}
