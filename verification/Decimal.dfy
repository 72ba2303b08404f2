/**
 * Base-10 text of machine integers, as strconv prints and parses it: slice
 * indices and int64 fields go through it. Signs and leading zeros are accepted
 * by the parser although the printer never writes them.
 */
module Decimal {
  import opened Options
  import opened Arithmetic

  const INT64_MIN: int := -0x8000_0000_0000_0000
  const INT64_MAX: int := 0x7FFF_FFFF_FFFF_FFFF

  predicate InInt64(n: int) {
    INT64_MIN <= n <= INT64_MAX
  }

  predicate IsDigit(c: char) {
    '0' <= c <= '9'
  }

  predicate AllDigits(s: string) {
    forall i :: 0 <= i < |s| ==> IsDigit(s[i])
  }

  function Digit(d: nat): (c: char)
    requires d < 10
    ensures IsDigit(c) && c as int - '0' as int == d
  {
    ('0' as int + d) as char
  }

  /** The canonical decimal text of a natural number. */
  function Itoa(n: nat): (s: string)
    ensures s != "" && AllDigits(s)
    decreases n
  {
    if n < 10 then [Digit(n)] else Itoa(n / 10) + [Digit(n % 10)]
  }

  /** The value of a run of digits; leading zeros are harmless. */
  function Natural(s: string): nat
    requires AllDigits(s)
  {
    if s == "" then 0
    else Natural(s[..|s| - 1]) * 10 + (s[|s| - 1] as int - '0' as int)
  }

  function FormatInt(n: int): string {
    if n < 0 then "-" + Itoa(-n) else Itoa(n)
  }

  /** ParseInt(s, 10, 64), and Atoi on a 64-bit platform: an optional sign, then digits, then a range check. */
  function ParseInt64(s: string): (r: Option<int>)
    ensures r.Some? ==> InInt64(r.value)
  {
    var signed := s != "" && (s[0] == '-' || s[0] == '+');
    var body := if signed then s[1..] else s;
    if body == "" || !AllDigits(body) then None
    else
      var n: int := if signed && s[0] == '-' then 0 - Natural(body) else Natural(body);
      if InInt64(n) then Some(n) else None
  }

  lemma {:induction false} NaturalOfItoa(n: nat)
    ensures Natural(Itoa(n)) == n
    decreases n
  {
    if n >= 10 {
      NaturalOfItoa(n / 10);
      assert Itoa(n)[..|Itoa(n)| - 1] == Itoa(n / 10);
    }
  }

  /** Printing then parsing is the identity on the whole int64 range. */
  lemma ParseOfFormat(n: int)
    requires InInt64(n)
    ensures ParseInt64(FormatInt(n)) == Some(n)
  {
    var digits := Itoa(if n < 0 then -n else n);
    NaturalOfItoa(if n < 0 then -n else n);
    assert IsDigit(digits[0]);
    assert n < 0 ==> FormatInt(n)[0] == '-' && FormatInt(n)[1..] == digits;
    assert n >= 0 ==> FormatInt(n) == digits;
  }

  /** Different indices never print the same text. */
  lemma ItoaInjective(i: nat, j: nat)
    requires Itoa(i) == Itoa(j)
    ensures i == j
  {
    NaturalOfItoa(i);
    NaturalOfItoa(j);
  }

  // ---- What the texts are ----

  function Pow10(n: nat): (p: nat)
    ensures p > 0
  {
    if n == 0 then 1 else 10 * Pow10(n - 1)
  }

  /** The character at distance i from the end is the digit of the i-th power of ten. */
  lemma {:induction false} ItoaDigit(n: nat, i: nat)
    requires i < |Itoa(n)|
    ensures Itoa(n)[|Itoa(n)| - 1 - i] as int - '0' as int == n / Pow10(i) % 10
    decreases n
  {
    if i == 0 {
      assert Pow10(0) == 1;
    } else {
      ItoaDigit(n / 10, i - 1);
      DivideTwice(n, Pow10(i - 1));
    }
  }

  lemma DivideTwice(n: nat, p: nat)
    requires p > 0
    ensures n / 10 / p == n / (10 * p)
  {
    var q := n / 10 / p;
    assert n / 10 == q * p + n / 10 % p;
    assert n == 10 * (q * p + n / 10 % p) + n % 10;
    assert 10 * (q * p) == q * (10 * p);
    DivisionIs(n, q, 10 * p, 10 * (n / 10 % p) + n % 10);
  }

  /** As many characters as the number needs and no more: the text never begins with a zero, unless it is "0". */
  lemma {:induction false} ItoaSize(n: nat)
    ensures n < Pow10(|Itoa(n)|)
    ensures if n == 0 then Itoa(n) == "0" else Pow10(|Itoa(n)| - 1) <= n && Itoa(n)[0] != '0'
    decreases n
  {
    if n < 10 {
      assert Pow10(1) == 10 * Pow10(0) && Pow10(0) == 1;
    } else {
      ItoaSize(n / 10);
      var k := |Itoa(n / 10)|;
      assert Pow10(k + 1) == 10 * Pow10(k) && Pow10(k) == 10 * Pow10(k - 1);
    }
  }

  /** A printed int64 is "0", or starts with a digit from 1 to 9, behind a minus exactly when it is negative. */
  lemma FormatIsCanonical(n: int)
    ensures n == 0 ==> FormatInt(n) == "0"
    ensures n > 0 ==> '1' <= FormatInt(n)[0] <= '9'
    ensures n < 0 ==> |FormatInt(n)| > 1 && FormatInt(n)[0] == '-' && '1' <= FormatInt(n)[1] <= '9'
  {
    ItoaSize(if n < 0 then -n else n);
  }

  lemma SomeTexts()
    ensures Itoa(0) == "0" && Itoa(5) == "5" && Itoa(10) == "10" && Itoa(365) == "365"
    ensures FormatInt(5) == "5" && FormatInt(-120) == "-120"
  {
    assert Itoa(12) == Itoa(1) + "2" && Itoa(36) == Itoa(3) + "6";
    assert Itoa(10) == "10" && Itoa(365) == Itoa(36) + "5" && Itoa(120) == Itoa(12) + "0";
    assert "-" + "120" == "-120";
  }

  // ---- Which texts are accepted ----

  function Noughts(k: nat): (s: string)
    ensures |s| == k && forall i :: 0 <= i < k ==> s[i] == '0'
  {
    if k == 0 then "" else "0" + Noughts(k - 1)
  }

  lemma {:induction false} LeadingNoughts(k: nat, s: string)
    requires AllDigits(s)
    ensures AllDigits(Noughts(k) + s) && Natural(Noughts(k) + s) == Natural(s)
    decreases |s|, k
  {
    var t := Noughts(k) + s;
    if s == "" {
      assert t == Noughts(k);
      if k > 0 {
        LeadingNoughts(k - 1, "");
        assert Noughts(k - 1) + "" == Noughts(k - 1);
        assert t[..|t| - 1] == Noughts(k - 1);
      }
    } else {
      LeadingNoughts(k, s[..|s| - 1]);
      assert t[..|t| - 1] == Noughts(k) + s[..|s| - 1];
    }
  }

  /** Every run of digits is some zeros and a printed number. */
  lemma {:induction false} DigitsArePrinted(s: string) returns (k: nat)
    requires s != "" && AllDigits(s)
    ensures s == Noughts(k) + Itoa(Natural(s))
    decreases |s|
  {
    if |s| == 1 {
      k := 0;
      assert s[..0] == "";
    } else {
      var init, d := s[..|s| - 1], s[|s| - 1] as int - '0' as int;
      k := DigitsArePrinted(init);
      assert s == init + [s[|s| - 1]];
      if Natural(init) == 0 {
        assert Itoa(0) == "0" && Noughts(k) + "0" == Noughts(k + 1);
        assert s == Noughts(k + 1) + Itoa(d);
        k := k + 1;
      } else {
        assert Natural(s) / 10 == Natural(init) && Natural(s) % 10 == d;
      }
    }
  }

  datatype Sign = Bare | Plus | Minus

  function SignText(sign: Sign): string {
    match sign case Bare => "" case Plus => "+" case Minus => "-"
  }

  /** The text behind an optional sign decides, with the range. */
  lemma ParseSigned(sign: Sign, body: string)
    requires body != "" && AllDigits(body)
    ensures
      var v: int := if sign == Minus then -(Natural(body) as int) else Natural(body);
      ParseInt64(SignText(sign) + body) == if INT64_MIN <= v <= INT64_MAX then Some(v) else None
  {
    var s := SignText(sign) + body;
    assert IsDigit(body[0]);
    assert sign == Bare ==> s == body;
    assert sign != Bare ==> s[0] == SignText(sign)[0] && s[1..] == body;
  }

  /** A sign or none, any zeros, and a printed number are read as that number, unless it is out of range. */
  lemma ParseSpelled(sign: Sign, k: nat, n: nat)
    ensures
      var v: int := if sign == Minus then -(n as int) else n;
      ParseInt64(SignText(sign) + (Noughts(k) + Itoa(n)))
      == if -0x8000_0000_0000_0000 <= v <= 0x7FFF_FFFF_FFFF_FFFF then Some(v) else None
  {
    LeadingNoughts(k, Itoa(n));
    NaturalOfItoa(n);
    ParseSigned(sign, Noughts(k) + Itoa(n));
  }

  /** Nothing else is accepted. */
  lemma ParseOnlySpelled(s: string) returns (sign: Sign, k: nat, n: nat)
    requires ParseInt64(s).Some?
    ensures s == SignText(sign) + (Noughts(k) + Itoa(n))
  {
    var body;
    sign, body := SignAndBody(s);
    n := Natural(body);
    k := DigitsArePrinted(body);
  }

  lemma SignAndBody(s: string) returns (sign: Sign, body: string)
    requires ParseInt64(s).Some?
    ensures s == SignText(sign) + body && body != "" && AllDigits(body)
  {
    if s[0] == '-' || s[0] == '+' {
      sign, body := if s[0] == '-' then Minus else Plus, s[1..];
      assert s == [s[0]] + body && SignText(sign) == [s[0]];
    } else {
      sign, body := Bare, s;
      assert s == "" + s;
    }
  }
}
