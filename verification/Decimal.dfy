/** Decimal printing and reading of natural numbers. */
module Decimal {
  import opened Common

  predicate IsDigit(c: char) { '0' <= c <= '9' }

  predicate AllDigits(s: string) { forall i :: 0 <= i < |s| ==> IsDigit(s[i]) }

  function Digit(d: nat): (c: char)
    requires d < 10
    ensures IsDigit(c)
  {
    '0' + d as char
  }

  function DigitValue(c: char): nat
    requires IsDigit(c)
  {
    (c - '0') as nat
  }

  function Show(n: nat): string {
    if n < 10 then [Digit(n)] else Show(n / 10) + [Digit(n % 10)]
  }

  function Value(s: string): nat
    requires AllDigits(s)
  {
    if s == "" then 0 else Value(s[..|s| - 1]) * 10 + DigitValue(s[|s| - 1])
  }

  /** Reading a printed number gives the number back. */
  lemma {:induction false} ShowReadsBack(n: nat)
    ensures Show(n) != "" && AllDigits(Show(n)) && Value(Show(n)) == n
  {
    if n < 10 {
      assert Show(n)[..0] == "";
    } else {
      ShowReadsBack(n / 10);
      assert Show(n)[..|Show(n)| - 1] == Show(n / 10);
    }
  }

  /** Zero-padded to at least `width` characters. */
  function Pad(n: nat, width: nat): string {
    Zeros(if |Show(n)| < width then width - |Show(n)| else 0) + Show(n)
  }

  function Zeros(k: nat): string { if k == 0 then "" else Zeros(k - 1) + "0" }

  lemma {:induction false} ZerosAddNothing(k: nat, s: string)
    requires AllDigits(s)
    ensures AllDigits(Zeros(k) + s) && Value(Zeros(k) + s) == Value(s)
    decreases k
  {
    if k == 0 {
      assert Zeros(0) + s == s;
    } else {
      assert Zeros(k) + s == Zeros(k - 1) + ("0" + s);
      LeadingZero(s);
      ZerosAddNothing(k - 1, "0" + s);
    }
  }

  lemma {:induction false} LeadingZero(s: string)
    requires AllDigits(s)
    ensures AllDigits("0" + s) && Value("0" + s) == Value(s)
  {
    if s == "" {
      assert ("0" + s)[..0] == "";
    } else {
      LeadingZero(s[..|s| - 1]);
      assert ("0" + s)[..|s|] == "0" + s[..|s| - 1];
    }
  }

  lemma PadReadsBack(n: nat, width: nat)
    ensures AllDigits(Pad(n, width)) && Value(Pad(n, width)) == n
  {
    ShowReadsBack(n);
    ZerosAddNothing(if |Show(n)| < width then width - |Show(n)| else 0, Show(n));
  }

  const U64_LIMIT: nat := 0x1_0000_0000_0000_0000

  /** `str::parse::<u64>`: an optional plus sign, at least one digit, and no overflow. */
  function ParseU64(s: string): Option<nat> {
    var digits := if s != "" && s[0] == '+' then s[1..] else s;
    if digits == "" || !AllDigits(digits) || Value(digits) >= U64_LIMIT then None else Some(Value(digits))
  }

  /** Exactly the digit strings below the limit, with or without a plus sign, are read, as the number they
      stand for. */
  lemma ParseU64Iff(s: string, n: nat)
    ensures ParseU64(s) == Some(n) <==>
              n < 0x1_0000_0000_0000_0000
              && exists d :: (s == d || s == "+" + d) && d != "" && AllDigits(d) && Value(d) == n
  {
    var digits := if s != "" && s[0] == '+' then s[1..] else s;
    if ParseU64(s) == Some(n) {
      assert s == digits || s == "+" + digits;
    }
    if d :| (s == d || s == "+" + d) && d != "" && AllDigits(d) && Value(d) == n {
      assert IsDigit(d[0]);
      assert s == "+" + d ==> s[0] == '+' && s[1..] == d;
      assert digits == d;
    }
  }

  lemma ParseUndoesShow(n: nat)
    requires n < U64_LIMIT
    ensures ParseU64(Show(n)) == Some(n)
  {
    ShowReadsBack(n);
    assert IsDigit(Show(n)[0]);
  }
}
