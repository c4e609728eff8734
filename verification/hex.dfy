/**
 * Hexadecimal text as the pool reads and writes it: Go's
 * `strconv.ParseUint(s, 16, 64)`, `strings.Replace(s, "0x", "", -1)`,
 * and the `%x` / `%#018x` formatting of a big.Int.
 */
module Hex {
  import U = Uint64

  predicate IsDigit(c: char) {
    '0' <= c <= '9' || 'a' <= c <= 'f' || 'A' <= c <= 'F'
  }

  predicate IsHex(s: string) {
    forall i :: 0 <= i < |s| ==> IsDigit(s[i])
  }

  function DigitValue(c: char): (d: nat)
    requires IsDigit(c)
    ensures d < 16
  {
    if '0' <= c <= '9' then c as int - '0' as int
    else if 'a' <= c <= 'f' then c as int - 'a' as int + 10
    else c as int - 'A' as int + 10
  }

  /** The lower-case digit for `d`, as `%x` prints it. */
  function LowerDigit(d: nat): (c: char)
    requires d < 16
    ensures IsDigit(c) && DigitValue(c) == d
  {
    if d < 10 then ('0' as int + d) as char else ('a' as int + d - 10) as char
  }

  /** Big-endian value of the digits of `s`, continuing from the value `acc` already read. */
  function ValueFrom(s: string, acc: nat): nat
    requires IsHex(s)
    decreases |s|
  {
    if s == [] then acc else ValueFrom(s[1..], acc * 16 + DigitValue(s[0]))
  }

  /** The number that the hex digits `s` denote (unbounded, like a big.Int). */
  function Value(s: string): nat
    requires IsHex(s)
  {
    ValueFrom(s, 0)
  }

  function Pow16(k: nat): (p: nat)
    ensures p >= 1
  {
    if k == 0 then 1 else 16 * Pow16(k - 1)
  }

  /** Go's cut-off in ParseUint: at or above it, one more digit overflows 64 bits. */
  const Cutoff: int := U.MaxValue / 16 + 1

  /**
   * The digit loop of Go's `strconv.ParseUint(s, 16, 64)`, continuing from `n`:
   * a character that is not a hex digit yields 0 (syntax error), a digit that
   * would overflow yields the largest uint64 (range error), whichever comes first.
   */
  function ParseDigits(s: string, n: U.U64): U.U64
    decreases |s|
  {
    if s == [] then n
    else if !IsDigit(s[0]) then 0
    else if n >= Cutoff then U.MaxValue
    else ParseDigits(s[1..], n * 16 + DigitValue(s[0]))
  }

  /** The value that `strconv.ParseUint(s, 16, 64)` returns, its error discarded. */
  function ParseUint(s: string): U.U64 {
    if s == [] then 0 else ParseDigits(s, 0)
  }

  /** `strings.Replace(s, "0x", "", -1)`: every non-overlapping "0x", left to right, removed. */
  function StripAll0x(s: string): (r: string)
    ensures |r| <= |s|
    decreases |s|
  {
    if |s| < 2 then s
    else if s[..2] == "0x" then StripAll0x(s[2..])
    else [s[0]] + StripAll0x(s[1..])
  }

  /** `%x` of a non-negative big.Int: lower-case digits, no leading zeros ("0" for zero). */
  function LowerHex(n: nat): (r: string)
    ensures 1 <= |r| && IsHex(r)
    decreases n
  {
    if n < 16 then [LowerDigit(n)] else LowerHex(n / 16) + [LowerDigit(n % 16)]
  }

  function Zeros(k: nat): (r: string)
    ensures |r| == k && forall i :: 0 <= i < k ==> r[i] == '0'
  {
    if k == 0 then [] else Zeros(k - 1) + ['0']
  }

  /** `fmt.Sprintf("%#018x", n)[2:]`: the digits of `n` zero-padded on the left to 16. */
  function Padded16(n: nat): (r: string)
    ensures IsHex(r) && |r| >= 16
  {
    var digits := LowerHex(n);
    if |digits| < 16 then Zeros(16 - |digits|) + digits else digits
  }

  // ---------------------------------------------------------------- lemmas

  lemma {:induction false} ValueFromAtLeast(s: string, acc: nat)
    requires IsHex(s)
    ensures ValueFrom(s, acc) >= acc
    ensures s != [] ==> ValueFrom(s, acc) >= acc * 16
    decreases |s|
  {
    if s != [] {
      ValueFromAtLeast(s[1..], acc * 16 + DigitValue(s[0]));
    }
  }

  /** On digit strings whose value fits in 64 bits, ParseUint reads exactly that value. */
  lemma {:induction false} ParseDigitsExact(s: string, n: U.U64)
    requires IsHex(s) && ValueFrom(s, n) < U.Modulus
    ensures ParseDigits(s, n) == ValueFrom(s, n)
    decreases |s|
  {
    if s != [] {
      ValueFromAtLeast(s, n);
      ValueFromAtLeast(s[1..], n * 16 + DigitValue(s[0]));
      ParseDigitsExact(s[1..], n * 16 + DigitValue(s[0]));
    }
  }

  lemma ParseUintExact(s: string)
    requires s != [] && IsHex(s) && Value(s) < U.Modulus
    ensures ParseUint(s) == Value(s)
  {
    ParseDigitsExact(s, 0);
  }

  /** A string with no 'x' in it is left as it is by StripAll0x. */
  lemma {:induction false} StripAll0xNoX(s: string)
    requires forall i :: 0 <= i < |s| ==> s[i] != 'x'
    ensures StripAll0x(s) == s
    decreases |s|
  {
    if |s| >= 2 {
      assert s[..2] != "0x" by { assert s[1] != 'x'; }
      StripAll0xNoX(s[1..]);
    }
  }

  /** The height field of a work reply, "0x" followed by hex digits, parses to those digits' value. */
  lemma ParsePrefixedHex(digits: string)
    requires digits != [] && IsHex(digits) && Value(digits) < U.Modulus
    ensures ParseUint(StripAll0x("0x" + digits)) == Value(digits)
  {
    var s := "0x" + digits;
    assert s[..2] == "0x" && s[2..] == digits;
    forall i | 0 <= i < |digits| ensures digits[i] != 'x' {
      assert IsDigit(digits[i]);
    }
    StripAll0xNoX(digits);
    ParseUintExact(digits);
  }

  lemma {:induction false} ValueFromAppend(s: string, c: char, acc: nat)
    requires IsHex(s) && IsDigit(c)
    ensures IsHex(s + [c]) && ValueFrom(s + [c], acc) == ValueFrom(s, acc) * 16 + DigitValue(c)
    decreases |s|
  {
    if s == [] {
      assert [c][1..] == [];
    } else {
      assert (s + [c])[1..] == s[1..] + [c];
      ValueFromAppend(s[1..], c, acc * 16 + DigitValue(s[0]));
    }
  }

  lemma {:induction false} ValueFromZeros(k: nat, s: string)
    requires IsHex(s)
    ensures IsHex(Zeros(k) + s) && ValueFrom(Zeros(k) + s, 0) == ValueFrom(s, 0)
    decreases k
  {
    if k > 0 {
      assert (Zeros(k) + s)[1..] == Zeros(k - 1) + s by {
        assert Zeros(k) == ['0'] + Zeros(k - 1) by { ZerosCons(k); }
      }
      var t := Zeros(k) + s;
      assert t[0] == '0' && DigitValue('0') == 0;
      ValueFromZeros(k - 1, s);
      assert ValueFrom(t, 0) == ValueFrom(t[1..], 0);
    } else {
      assert Zeros(k) + s == s;
    }
  }

  lemma {:induction false} ZerosCons(k: nat)
    requires k > 0
    ensures Zeros(k) == ['0'] + Zeros(k - 1)
  {
  }

  /** `%x` then reading the digits back gives the number. */
  lemma {:induction false} LowerHexValue(n: nat)
    ensures Value(LowerHex(n)) == n
    decreases n
  {
    if n >= 16 {
      assert LowerHex(n) == LowerHex(n / 16) + [LowerDigit(n % 16)];
      LowerHexValue(n / 16);
      ValueFromAppend(LowerHex(n / 16), LowerDigit(n % 16), 0);
      var high := LowerHex(n / 16);
      assert ValueFrom(high, 0) == n / 16;
      assert ValueFrom(LowerHex(n), 0) == (n / 16) * 16 + n % 16;
    }
  }

  lemma {:induction false} LowerHexLength(n: nat, k: nat)
    requires 1 <= k && n < Pow16(k)
    ensures |LowerHex(n)| <= k
    decreases n
  {
    if n >= 16 {
      LowerHexLength(n / 16, k - 1);
    }
  }

  lemma {:induction false} Pow16Add(a: nat, b: nat)
    ensures Pow16(a + b) == Pow16(a) * Pow16(b)
    decreases a
  {
    if a > 0 {
      Pow16Add(a - 1, b);
    }
  }

  /**
   * A 64-bit nonce printed with `%#018x` (prefix dropped) is exactly sixteen
   * digits, and those digits denote the nonce.
   */
  lemma Padded16Nonce(n: nat)
    requires n < U.Modulus
    ensures |Padded16(n)| == 16 && Value(Padded16(n)) == n
  {
    assert Pow16(4) == 0x1_0000;
    assert Pow16(8) == 0x1_0000_0000 by { Pow16Add(4, 4); }
    assert Pow16(16) == U.Modulus by { Pow16Add(8, 8); }
    LowerHexLength(n, 16);
    LowerHexValue(n);
    ValueFromZeros(16 - |LowerHex(n)|, LowerHex(n));
  }
}
