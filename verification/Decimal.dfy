/** Decimal printing and parsing of integers, as strconv does it. */
module Decimal {
  import opened Wrappers
  import opened Text

  predicate IsDigit(c: char) { '0' <= c <= '9' }

  predicate AllDigits(s: string) {
    forall i :: 0 <= i < |s| ==> IsDigit(s[i])
  }

  function Digit(d: nat): (c: char)
    requires d < 10
    ensures IsDigit(c) && c as int - '0' as int == d
  {
    ('0' as int + d) as char
  }

  /** strconv.FormatUint in base 10. */
  function PrintNat(n: nat): (s: string)
    ensures s != "" && AllDigits(s)
  {
    if n < 10 then [Digit(n)] else PrintNat(n / 10) + [Digit(n % 10)]
  }

  /** strconv.FormatInt in base 10. */
  function PrintInt(n: int): string {
    if n < 0 then "-" + PrintNat(-n) else PrintNat(n)
  }

  function ParseDigits(s: string): nat
    requires AllDigits(s)
  {
    if s == "" then 0
    else 10 * ParseDigits(s[..|s| - 1]) + (s[|s| - 1] as int - '0' as int)
  }

  const MIN_INT64 := -0x8000_0000_0000_0000
  const MAX_INT64 := 0x7fff_ffff_ffff_ffff
  const MAX_UINT32 := 0xffff_ffff

  /** strconv.Atoi with a 64-bit int: an optional sign, at least one digit, in range. */
  function Atoi(s: string): Option<int> {
    var body := if s != "" && (s[0] == '-' || s[0] == '+') then s[1..] else s;
    if body == "" || !AllDigits(body) then None
    else
      var magnitude: int := ParseDigits(body);
      var n := if s[0] == '-' then -magnitude else magnitude;
      if MIN_INT64 <= n <= MAX_INT64 then Some(n) else None
  }

  lemma {:induction false} PrintThenParseNat(n: nat)
    ensures ParseDigits(PrintNat(n)) == n
  {
    if n < 10 {
      assert PrintNat(n)[..0] == "";
    } else {
      PrintThenParseNat(n / 10);
      assert PrintNat(n)[..|PrintNat(n)| - 1] == PrintNat(n / 10);
    }
  }

  /** Printing is inverted by parsing over the whole 64-bit range, so it is injective. */
  lemma PrintThenAtoi(n: int)
    requires MIN_INT64 <= n <= MAX_INT64
    ensures Atoi(PrintInt(n)) == Some(n)
  {
    if n < 0 {
      PrintThenParseNat(-n);
      assert PrintInt(n)[1..] == PrintNat(-n);
    } else {
      PrintThenParseNat(n);
      assert IsDigit(PrintNat(n)[0]);
    }
  }

  lemma PrintedIsPlain(n: int)
    ensures Plain(PrintInt(n)) && PrintInt(n) != "" && '\n' !in PrintInt(n)
  {
    var digits := PrintNat(if n < 0 then -n else n);
    assert forall i :: 0 <= i < |digits| ==> IsDigit(digits[i]);
    assert PrintInt(n) == digits || PrintInt(n) == "-" + digits;
  }
}
