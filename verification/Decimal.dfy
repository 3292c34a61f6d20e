/** Decimal numerals: strconv.Itoa and strconv.Atoi on digit strings. */
module Decimal {

  predicate IsDigit(c: char) { '0' <= c <= '9' }

  predicate AllDigits(s: string) {
    forall i :: 0 <= i < |s| ==> IsDigit(s[i])
  }

  function DigitChar(d: nat): (c: char)
    requires d < 10
    ensures IsDigit(c) && DigitValue(c) == d
  {
    '0' + d as char
  }

  function DigitValue(c: char): nat
    requires IsDigit(c)
  {
    (c - '0') as nat
  }

  function Digits(n: nat): (s: string)
    ensures s != [] && AllDigits(s)
  {
    if n < 10 then [DigitChar(n)] else Digits(n / 10) + [DigitChar(n % 10)]
  }

  function Itoa(n: int): string {
    if n < 0 then "-" + Digits(-n) else Digits(n)
  }

  function Atoi(s: string): nat
    requires AllDigits(s)
  {
    if s == [] then 0 else Atoi(s[..|s| - 1]) * 10 + DigitValue(s[|s| - 1])
  }

  lemma {:induction false} AtoiDigits(n: nat)
    ensures Atoi(Digits(n)) == n
  {
    if n >= 10 {
      AtoiDigits(n / 10);
      assert Digits(n)[..|Digits(n)| - 1] == Digits(n / 10);
    }
  }

  /** Reading back a printed number that is not negative. */
  lemma AtoiItoa(n: nat)
    ensures AllDigits(Itoa(n)) && Atoi(Itoa(n)) == n
  {
    AtoiDigits(n);
  }

  function Zeros(k: nat): string { seq(k, _ => '0') }

  /** The text consists of the decimal digits of n, possibly behind zeros. */
  ghost predicate Spells(text: string, n: nat) {
    exists k: nat :: text == Zeros(k) + Itoa(n)
  }

  lemma {:induction false} AtoiBehindZeros(k: nat, digits: string)
    requires AllDigits(digits)
    ensures AllDigits(Zeros(k) + digits) && Atoi(Zeros(k) + digits) == Atoi(digits)
    decreases k + |digits|
  {
    var s := Zeros(k) + digits;
    if digits != [] {
      assert s[..|s| - 1] == Zeros(k) + digits[..|digits| - 1];
      AtoiBehindZeros(k, digits[..|digits| - 1]);
    } else if k > 0 {
      assert s[..|s| - 1] == Zeros(k - 1) + [];
      AtoiBehindZeros(k - 1, []);
    }
  }

  lemma OneMoreDigit(m: nat, d: nat)
    requires d < 10
    ensures Digits(10 * m + d) == (if m == 0 then "" else Digits(m)) + [DigitChar(d)]
  {
    assert (10 * m + d) / 10 == m && (10 * m + d) % 10 == d;
  }

  lemma DigitIsItsValue(c: char)
    requires IsDigit(c)
    ensures DigitChar(DigitValue(c)) == c
  {
    var d := DigitChar(DigitValue(c));
    assert d as int == c as int;
  }

  lemma AtoiLast(s: string)
    requires s != "" && AllDigits(s)
    ensures Atoi(s) == 10 * Atoi(s[..|s| - 1]) + DigitValue(s[|s| - 1])
    ensures s == s[..|s| - 1] + [DigitChar(DigitValue(s[|s| - 1]))]
  {
    var init, last := s[..|s| - 1], s[|s| - 1];
    DigitIsItsValue(last);
    assert s == init + [last];
  }

  /** One more digit behind the text of m, which may begin with zeros. */
  lemma TextGrows(k: nat, m: nat, d: nat) returns (k': nat)
    requires d < 10
    ensures (Zeros(k) + Digits(m)) + [DigitChar(d)] == Zeros(k') + Digits(10 * m + d)
  {
    OneMoreDigit(m, d);
    k' := if m == 0 then k + 1 else k;
    if m == 0 {
      assert Digits(m) == "0";
    }
  }

  lemma {:induction false} DigitsOfAtoi(s: string) returns (k: nat)
    requires s != "" && AllDigits(s)
    ensures s == Zeros(k) + Digits(Atoi(s))
  {
    var init, d := s[..|s| - 1], DigitValue(s[|s| - 1]);
    AtoiLast(s);
    OneMoreDigit(0, d);
    if init == "" {
      k := 0;
    } else {
      k := DigitsOfAtoi(init);
      k := TextGrows(k, Atoi(init), d);
    }
  }

  /** A text is read as n exactly when it consists of the digits of n, behind zeros or not. */
  lemma NumberMeaning(s: string, n: nat)
    ensures s != "" && AllDigits(s) && Atoi(s) == n <==> Spells(s, n)
  {
    if s != "" && AllDigits(s) {
      var k := DigitsOfAtoi(s);
    }
    if k: nat :| s == Zeros(k) + Itoa(n) {
      AtoiDigits(n);
      AtoiBehindZeros(k, Itoa(n));
    }
  }

  /** A number below 10^k has at most k digits. */
  lemma {:induction false} DigitsLength(n: nat, k: nat)
    requires k > 0 && n < Power10(k)
    ensures |Digits(n)| <= k
  {
    if n >= 10 {
      assert k > 1;
      DigitsLength(n / 10, k - 1);
    }
  }

  function Power10(k: nat): nat {
    if k == 0 then 1 else 10 * Power10(k - 1)
  }

  lemma PortLength(n: nat)
    requires n <= 65535
    ensures 1 <= |Itoa(n)| <= 5 && AllDigits(Itoa(n))
  {
    assert Power10(5) == 10 * (10 * (10 * (10 * 10)));
    DigitsLength(n, 5);
  }
}
