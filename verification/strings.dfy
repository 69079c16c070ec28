/** The three Python string operations the ledger relies on: `str()` of an
    integer (used for `creator_id` and `nonce` when hashing), `"0" * n`
    (the difficulty target) and `str.startswith` (the proof-of-work test). */
module Strings {

  /** The character of a decimal digit. */
  function DigitChar(d: nat): (c: char)
    requires d < 10
    ensures '0' <= c <= '9'
  {
    ('0' as int + d) as char
  }

  /** The value of a decimal digit character. */
  function DigitValue(c: char): (d: nat)
    requires IsDigit(c)
    ensures d < 10
  {
    c as int - '0' as int
  }

  predicate IsDigit(c: char) {
    '0' <= c <= '9'
  }

  /** Python's `str(n)` for n >= 0: the decimal digits, most significant first,
      without leading zeros. */
  function NatStr(n: nat): (s: string)
    ensures |s| >= 1
    ensures forall i :: 0 <= i < |s| ==> IsDigit(s[i])
    decreases n
  {
    if n < 10 then [DigitChar(n)] else NatStr(n / 10) + [DigitChar(n % 10)]
  }

  /** Python's `str(i)` for an `int`: a minus sign before the digits of a
      negative number. */
  function IntStr(i: int): (s: string)
    ensures |s| >= 1
    ensures (s[0] == '-') <==> i < 0
  {
    if i < 0 then "-" + NatStr(-i) else NatStr(i)
  }

  /** Reads back a string of decimal digits. */
  function ParseNat(s: string): nat
    requires forall i :: 0 <= i < |s| ==> IsDigit(s[i])
  {
    if s == [] then 0 else 10 * ParseNat(s[..|s| - 1]) + DigitValue(s[|s| - 1])
  }

  /** Reads back what `IntStr` writes. */
  function ParseInt(s: string): int
    requires |s| >= 1
    requires s[0] == '-' ==> forall i :: 1 <= i < |s| ==> IsDigit(s[i])
    requires s[0] != '-' ==> forall i :: 0 <= i < |s| ==> IsDigit(s[i])
  {
    if s[0] == '-' then -(ParseNat(s[1..]) as int) else ParseNat(s)
  }

  lemma {:induction false} ParseNatStr(n: nat)
    ensures ParseNat(NatStr(n)) == n
    decreases n
  {
    if n >= 10 {
      var s := NatStr(n);
      assert s[..|s| - 1] == NatStr(n / 10);
      ParseNatStr(n / 10);
    }
  }

  /** `str()` of an integer can be read back, so it is injective. */
  lemma IntStrRoundTrip(i: int)
    ensures ParseInt(IntStr(i)) == i
  {
    if i < 0 {
      assert IntStr(i)[1..] == NatStr(-i);
      ParseNatStr(-i);
    } else {
      ParseNatStr(i);
    }
  }

  lemma IntStrInjective(i: int, j: int)
    ensures IntStr(i) == IntStr(j) <==> i == j
  {
    if IntStr(i) == IntStr(j) {
      IntStrRoundTrip(i);
      IntStrRoundTrip(j);
    }
  }

  /** Python's `"0" * n`: the empty string when n <= 0. */
  function Zeros(n: int): (z: string)
    ensures |z| == if n > 0 then n else 0
    ensures forall i :: 0 <= i < |z| ==> z[i] == '0'
  {
    if n <= 0 then "" else seq(n, _ => '0')
  }

  /** Python's `s.startswith(prefix)`. */
  predicate StartsWith(s: string, prefix: string) {
    |prefix| <= |s| && s[..|prefix|] == prefix
  }

  /** The length of the run of `'0'` characters at the start of `s`. */
  function LeadingZeros(s: string): (k: nat)
    ensures k <= |s|
    ensures forall i :: 0 <= i < k ==> s[i] == '0'
    ensures k < |s| ==> s[k] != '0'
  {
    if s != [] && s[0] == '0' then 1 + LeadingZeros(s[1..]) else 0
  }

  /** The meaning of the difficulty test: `s.startswith("0" * n)` holds
      exactly when `s` opens with at least n zero characters. */
  lemma StartsWithZerosIff(s: string, n: int)
    ensures StartsWith(s, Zeros(n)) <==> n <= LeadingZeros(s)
  {
  }
}
