/** Decimal integer parsing and rendering, as strconv.Atoi and strconv.Itoa
    behave on values that fit in a machine word. */
module Strconv {

  predicate IsDigit(c: char) { '0' <= c <= '9' }

  predicate AllDigits(s: string) { forall i :: 0 <= i < |s| ==> IsDigit(s[i]) }

  function DigitValue(c: char): (d: nat)
    requires IsDigit(c)
    ensures d < 10
  {
    (c as int - '0' as int) as nat
  }

  function DigitChar(d: nat): (c: char)
    requires d < 10
    ensures IsDigit(c) && DigitValue(c) == d
  {
    ('0' as int + d) as char
  }

  /** The value of a string of decimal digits, most significant first. */
  function DigitsValue(s: string): nat
    requires AllDigits(s)
  {
    if s == [] then 0 else 10 * DigitsValue(s[..|s| - 1]) + DigitValue(s[|s| - 1])
  }

  /** The shortest decimal digit string of a natural number. */
  function NatToDigits(n: nat): (s: string)
    ensures |s| > 0 && AllDigits(s)
    ensures |s| > 1 ==> s[0] != '0'
  {
    if n < 10 then [DigitChar(n)] else NatToDigits(n / 10) + [DigitChar(n % 10)]
  }

  /** strconv.Itoa: the canonical decimal form of an integer. */
  function Itoa(n: int): (s: string)
    ensures |s| > 0
    ensures n < 0 <==> s[0] == '-'
    ensures ':' !in s
  {
    if n < 0 then "-" + NatToDigits(-n) else NatToDigits(n)
  }

  /** strconv.Atoi with its error result discarded: an optional sign and
      one or more digits give their value, anything else gives 0. */
  function Atoi(s: string): (r: int)
    ensures r < 0 ==> |s| > 1 && s[0] == '-'
    ensures r > 0 ==> |s| > 0 && s[0] != '-'
  {
    var signed := |s| > 0 && (s[0] == '+' || s[0] == '-');
    var body := if signed then s[1..] else s;
    if |body| == 0 || !AllDigits(body) then 0
    else if signed && s[0] == '-' then -(DigitsValue(body) as int)
    else DigitsValue(body)
  }

  /** What Atoi accepts: an optional '+' or '-' and one or more digits. */
  predicate Numeral(s: string) {
    var body := if |s| > 0 && (s[0] == '+' || s[0] == '-') then s[1..] else s;
    |body| > 0 && AllDigits(body)
  }

  /** Anything else parses as 0. */
  lemma AtoiNonNumeral(s: string)
    requires !Numeral(s)
    ensures Atoi(s) == 0
  {
  }

  /** A string that Itoa can produce: "0", or an optional '-' followed by
      digits without a leading zero. */
  predicate Canonical(s: string) {
    s == "0" ||
    (|s| > 0 && var body := if s[0] == '-' then s[1..] else s;
     |body| > 0 && AllDigits(body) && body[0] != '0')
  }

  lemma {:induction false} DigitsValueOfNatToDigits(n: nat)
    ensures DigitsValue(NatToDigits(n)) == n
  {
    var s := NatToDigits(n);
    if n >= 10 {
      DigitsValueOfNatToDigits(n / 10);
      assert s[..|s| - 1] == NatToDigits(n / 10);
    }
  }

  lemma {:induction false} DigitsValuePositive(s: string)
    requires |s| > 0 && AllDigits(s) && s[0] != '0'
    ensures DigitsValue(s) > 0
  {
    if |s| > 1 {
      DigitsValuePositive(s[..|s| - 1]);
    }
  }

  lemma {:induction false} NatToDigitsOfDigitsValue(s: string)
    requires |s| > 0 && AllDigits(s) && (|s| > 1 ==> s[0] != '0')
    ensures NatToDigits(DigitsValue(s)) == s
  {
    if |s| > 1 {
      var init := s[..|s| - 1];
      DigitsValuePositive(init);
      NatToDigitsOfDigitsValue(init);
      assert s == init + [s[|s| - 1]];
    }
  }

  /** Parsing what Itoa renders gives back the integer. */
  lemma AtoiItoa(n: int)
    ensures Atoi(Itoa(n)) == n
  {
    var m: nat := if n < 0 then -n else n;
    DigitsValueOfNatToDigits(m);
    if n < 0 {
      assert Itoa(n)[1..] == NatToDigits(m);
    }
  }

  /** Itoa renders every integer in canonical form. */
  lemma ItoaCanonical(n: int)
    ensures Canonical(Itoa(n))
  {
    if n < 0 {
      assert Itoa(n)[1..] == NatToDigits(-n);
    }
  }

  /** Rendering what Atoi parses gives back exactly the canonical strings:
      Itoa(Atoi(s)) == s holds if and only if s is canonical. */
  lemma ItoaAtoi(s: string)
    ensures Itoa(Atoi(s)) == s <==> Canonical(s)
  {
    if s == "0" {
      assert DigitsValue(s) == DigitsValue(s[..0]) * 10 + 0;
    } else if Canonical(s) && s[0] == '-' {
      NegativeRoundTrip(s);
    } else if Canonical(s) {
      NonNegativeRoundTrip(s);
    } else {
      ItoaCanonical(Atoi(s));
    }
  }

  lemma NegativeRoundTrip(s: string)
    requires |s| > 1 && s[0] == '-'
    requires AllDigits(s[1..]) && s[1] != '0'
    ensures Itoa(Atoi(s)) == s
  {
    var body := s[1..];
    NatToDigitsOfDigitsValue(body);
    DigitsValuePositive(body);
    assert Atoi(s) == -(DigitsValue(body) as int);
    assert s == "-" + body;
  }

  lemma NonNegativeRoundTrip(s: string)
    requires |s| > 0 && AllDigits(s) && s[0] != '0'
    ensures Itoa(Atoi(s)) == s
  {
    NatToDigitsOfDigitsValue(s);
    assert s[0] != '+' && s[0] != '-';
    assert Atoi(s) == DigitsValue(s);
  }

  /** Itoa is injective, so distinct lengths give distinct key suffixes. */
  lemma ItoaInjective(m: int, n: int)
    requires Itoa(m) == Itoa(n)
    ensures m == n
  {
    AtoiItoa(m);
    AtoiItoa(n);
  }
}
