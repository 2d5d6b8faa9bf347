/**
 * The byte-level text operations the parser relies on: `str::split_once`
 * and the `u16` parser of the standard library. A line is the sequence of
 * its UTF-8 bytes; each byte is named by the character with the same code,
 * so the ASCII keywords and delimiters of the format read as text.
 */
module Text {
  import opened Wrappers

  type Byte = c: char | c as int < 256 witness ' '

  const SPACE: Byte := ' '
  const HASH: Byte := '#'
  const NEWLINE: Byte := '\n'

  type U16 = n: nat | n < 0x1_0000

  predicate IsAscii(b: Byte) { b as int < 0x80 }

  /** A UTF-8 continuation byte: slicing a string just before it splits a character. */
  predicate IsContinuation(b: Byte) { 0x80 <= b as int < 0xC0 }

  /** Index of the first byte of `s` that is one of `delimiters`. */
  function FindAny(s: seq<Byte>, delimiters: set<Byte>): (r: Option<nat>)
    ensures r.None? <==> forall k :: 0 <= k < |s| ==> s[k] !in delimiters
    ensures r.Some? ==> r.value < |s| && s[r.value] in delimiters
    ensures r.Some? ==> forall k :: 0 <= k < r.value ==> s[k] !in delimiters
  {
    if s == [] then None
    else if s[0] in delimiters then Some(0)
    else match FindAny(s[1..], delimiters)
      case None => None
      case Some(i) => Some(i + 1)
  }

  /**
   * `s.split_once(pattern)` where the pattern is a set of ASCII characters:
   * the text before the first delimiter and the text after it.
   */
  function SplitOnce(s: seq<Byte>, delimiters: set<Byte>): (r: Option<(seq<Byte>, seq<Byte>)>)
    ensures r.None? <==> forall k :: 0 <= k < |s| ==> s[k] !in delimiters
    ensures r.Some? ==>
      var (before, after) := r.value;
      && |before| < |s|
      && s == before + [s[|before|]] + after
      && s[|before|] in delimiters
      && forall k :: 0 <= k < |before| ==> before[k] !in delimiters
  {
    match FindAny(s, delimiters)
    case None => None
    case Some(i) => Some((s[..i], s[i + 1..]))
  }

  /** Splitting at the first delimiter recovers the two sides it was placed between. */
  lemma SplitOnceAt(x: seq<Byte>, d: Byte, y: seq<Byte>, delimiters: set<Byte>)
    requires d in delimiters
    requires forall k :: 0 <= k < |x| ==> x[k] !in delimiters
    ensures SplitOnce(x + [d] + y, delimiters) == Some((x, y))
  {
    var s := x + [d] + y;
    assert s[|x|] == d;
    var r := SplitOnce(s, delimiters);
    assert r.Some?;
    var (before, after) := r.value;
    assert before == s[..|x|] == x;
    assert after == s[|x| + 1..] == y;
  }

  /** `std::num::IntErrorKind`, restricted to what an unsigned parse can report. */
  datatype IntErrorKind = Empty | InvalidDigit | PosOverflow

  predicate IsDigit(b: Byte) { '0' <= b <= '9' }

  function DigitValue(b: Byte): nat
    requires IsDigit(b)
  {
    b as int - '0' as int
  }

  /**
   * `<u16 as FromStr>::from_str`: an optional leading '+', then decimal
   * digits read left to right; the first non-digit or the first digit that
   * takes the value past 65535 ends the parse with that error.
   */
  function ParseU16(s: seq<Byte>): (r: Result<U16, IntErrorKind>)
    ensures r == Err(Empty) <==> s == []
    ensures r.Ok? ==>
      && |s| > DigitsStart(s)
      && DigitsFrom(s, DigitsStart(s))
      && r.value == ValueOf(s[DigitsStart(s)..])
    ensures |s| > DigitsStart(s) && DigitsFrom(s, DigitsStart(s)) ==>
      r == if ValueOf(s[DigitsStart(s)..]) < 0x1_0000 then Ok(ValueOf(s[DigitsStart(s)..])) else Err(PosOverflow)
    ensures r == Err(InvalidDigit) <==> s == ['+'] || (s != [] && AccumulateDigits(0, s[DigitsStart(s)..]) == Err(InvalidDigit))
  {
    if s == [] then Err(Empty)
    else if s == ['+'] || s == ['-'] then Err(InvalidDigit)
    else if s[0] == '+' then AccumulateDigits(0, s[1..])
    else AccumulateDigits(0, s)
  }

  /** Where the digits of a `u16` text start: after a leading '+', if there is one. */
  function DigitsStart(s: seq<Byte>): (start: nat)
    ensures start <= |s|
    ensures start == 1 <==> s != [] && s[0] == '+'
  {
    if s != [] && s[0] == '+' then 1 else 0
  }

  /** Every byte of `s` from index `from` on is a decimal digit. */
  predicate DigitsFrom(s: seq<Byte>, from: nat)
  {
    forall k :: from <= k < |s| ==> IsDigit(s[k])
  }

  /** The value of a run of decimal digits read left to right after `acc`. */
  function ValueFrom(acc: nat, digits: seq<Byte>): (v: nat)
    requires DigitsFrom(digits, 0)
    decreases |digits|
    ensures v >= acc
    ensures digits != [] && acc > 0 ==> v >= 10 * acc
  {
    if digits == [] then acc
    else ValueFrom(acc * 10 + DigitValue(digits[0]), digits[1..])
  }

  /** The value of a run of decimal digits. */
  function ValueOf(digits: seq<Byte>): nat
    requires DigitsFrom(digits, 0)
  {
    ValueFrom(0, digits)
  }

  /** The digit loop of `from_str_radix`, with the value read so far in `acc`. */
  function AccumulateDigits(acc: U16, digits: seq<Byte>): (r: Result<U16, IntErrorKind>)
    decreases |digits|
    ensures r.Ok? ==> DigitsFrom(digits, 0)
    ensures r != Err(Empty)
    ensures DigitsFrom(digits, 0) ==>
      r == if ValueFrom(acc, digits) < 0x1_0000 then Ok(ValueFrom(acc, digits)) else Err(PosOverflow)
  {
    if digits == [] then Ok(acc)
    else if !IsDigit(digits[0]) then Err(InvalidDigit)
    else
      var v := acc * 10 + DigitValue(digits[0]);
      if v >= 0x1_0000 then Err(PosOverflow) else AccumulateDigits(v, digits[1..])
  }

  /** Reading `x + y` is reading `x`, then carrying on with `y` from its value. */
  lemma {:induction false} AccumulateConcat(acc: U16, x: seq<Byte>, y: seq<Byte>)
    decreases |x|
    ensures AccumulateDigits(acc, x + y) ==
      match AccumulateDigits(acc, x)
      case Ok(v) => AccumulateDigits(v, y)
      case Err(e) => Err(e)
  {
    if x != [] {
      assert (x + y)[0] == x[0];
      assert (x + y)[1..] == x[1..] + y;
      if IsDigit(x[0]) {
        var v := acc * 10 + DigitValue(x[0]);
        if v < 0x1_0000 {
          AccumulateConcat(v, x[1..], y);
        }
      }
    } else {
      assert x + y == y;
    }
  }

  /** The decimal digits of `n`, most significant first, without leading zeros. */
  function Decimal(n: nat): (s: seq<Byte>)
    ensures |s| > 0 && DigitsFrom(s, 0)
  {
    var d := ('0' as int + n % 10) as char;
    if n < 10 then [d] else Decimal(n / 10) + [d]
  }

  /** Every `u16` written in decimal parses back to itself. */
  lemma ParseDecimal(n: U16)
    ensures ParseU16(Decimal(n)) == Ok(n)
  {
    ValueOfDecimal(n);
    var s := Decimal(n);
    assert s[0] != '+' by { assert IsDigit(s[0]); }
  }

  /** Reading `x + y` as digits is reading `x`, then carrying on with `y` from its value. */
  lemma {:induction false} ValueConcat(acc: nat, x: seq<Byte>, y: seq<Byte>)
    requires DigitsFrom(x, 0) && DigitsFrom(y, 0)
    decreases |x|
    ensures DigitsFrom(x + y, 0)
    ensures ValueFrom(acc, x + y) == ValueFrom(ValueFrom(acc, x), y)
  {
    assert forall k :: 0 <= k < |x + y| ==> (x + y)[k] == if k < |x| then x[k] else y[k - |x|];
    if x != [] {
      assert (x + y)[1..] == x[1..] + y;
      ValueConcat(acc * 10 + DigitValue(x[0]), x[1..], y);
    } else {
      assert x + y == y;
    }
  }

  /** The decimal digits of any `n`, however large, have the value `n`. */
  lemma {:induction false} ValueOfDecimal(n: nat)
    ensures ValueOf(Decimal(n)) == n
  {
    var d := ('0' as int + n % 10) as char;
    assert [d][1..] == [];
    if n >= 10 {
      ValueOfDecimal(n / 10);
      ValueConcat(0, Decimal(n / 10), [d]);
      assert ValueFrom(n / 10, [d]) == ValueFrom(n / 10 * 10 + n % 10, []);
    } else {
      assert ValueOf(Decimal(n)) == ValueFrom(n, []);
    }
  }

  /** `n` zero digits. */
  function Zeros(n: nat): (s: seq<Byte>)
    ensures |s| == n && DigitsFrom(s, 0)
    ensures forall k :: 0 <= k < n ==> s[k] == '0'
  {
    if n == 0 then [] else ['0'] + Zeros(n - 1)
  }

  lemma {:induction false} ValueOfZeros(n: nat)
    ensures ValueOf(Zeros(n)) == 0
  {
    if n > 0 {
      assert Zeros(n)[1..] == Zeros(n - 1);
      ValueOfZeros(n - 1);
    }
  }

  /** Leading zeros and a leading '+' do not change the value read: "007" and "+7" read as 7. */
  lemma ParsePadded(n: U16, zeros: nat)
    ensures ParseU16(Zeros(zeros) + Decimal(n)) == Ok(n)
    ensures ParseU16(['+'] + Zeros(zeros) + Decimal(n)) == Ok(n)
  {
    var s := Zeros(zeros) + Decimal(n);
    ValueConcat(0, Zeros(zeros), Decimal(n));
    ValueOfZeros(zeros);
    ValueOfDecimal(n);
    assert s[0] != '+' by { assert IsDigit(s[0]); }
    var t := ['+'] + s;
    assert t == ['+'] + Zeros(zeros) + Decimal(n);
    assert t[1..] == s;
    assert DigitsFrom(t, 1) by {
      forall k | 1 <= k < |t| ensures IsDigit(t[k]) { assert t[k] == s[k - 1]; }
    }
  }

  /** A decimal number past 65535 is refused as a positive overflow: "65536" reads as `PosOverflow`. */
  lemma ParseWide(n: nat)
    requires n >= 0x1_0000
    ensures ParseU16(Decimal(n)) == Err(PosOverflow)
  {
    ValueOfDecimal(n);
    var s := Decimal(n);
    assert s[0] != '+' by { assert IsDigit(s[0]); }
  }

  /** A non-digit after digits worth less than 65536 is refused as an invalid digit. */
  lemma FirstNonDigit(x: seq<Byte>, c: Byte, y: seq<Byte>)
    requires DigitsFrom(x, 0) && ValueOf(x) < 0x1_0000
    requires !IsDigit(c)
    ensures AccumulateDigits(0, x + [c] + y) == Err(InvalidDigit)
  {
    AccumulateConcat(0, x, [c] + y);
    assert x + [c] + y == x + ([c] + y);
  }
}
