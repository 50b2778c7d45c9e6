/** Decimal numerals: str(n) and int(text). */
module Decimal {

  predicate Digit(c: char) {
    '0' <= c <= '9'
  }

  /** One or more ASCII digits, leading zeros allowed. */
  predicate Numeral(s: string) {
    s != "" && forall i | 0 <= i < |s| :: Digit(s[i])
  }

  function Print(n: nat): (s: string)
    ensures Numeral(s)
  {
    var last := ['0' + (n % 10) as char];
    if n < 10 then last else Print(n / 10) + last
  }

  function Value(s: string): nat
    requires Numeral(s)
  {
    var last := (s[|s| - 1] - '0') as nat;
    if |s| == 1 then last else 10 * Value(s[..|s| - 1]) + last
  }

  function Pow10(k: nat): (p: nat)
    ensures p >= 1
  {
    if k == 0 then 1 else 10 * Pow10(k - 1)
  }

  lemma {:induction false} PrintValue(n: nat)
    ensures Value(Print(n)) == n
  {
    if n >= 10 {
      PrintValue(n / 10);
      assert Print(n)[..|Print(n)| - 1] == Print(n / 10);
    }
  }

  lemma {:induction false} PrintLength(n: nat, k: nat)
    requires k > 0 && n < Pow10(k)
    ensures |Print(n)| <= k
  {
    if n >= 10 {
      PrintLength(n / 10, k - 1);
    }
  }

  /** A numeral without a leading zero is the only one printed for its value. */
  lemma {:induction false} ValuePrint(s: string)
    requires Numeral(s) && (s[0] != '0' || |s| == 1)
    ensures Print(Value(s)) == s
    ensures Value(s) == 0 <==> s == "0"
  {
    hide Print, Value;
    if |s| == 1 {
      OneDigit(s);
    } else {
      var front, last := s[..|s| - 1], s[|s| - 1];
      ValuePrint(front);
      ValueSnoc(front, last);
      assert front != "0";
      assert s == front + [last];
      PrintSnoc(Value(front), last);
    }
  }

  lemma OneDigit(s: string)
    requires Numeral(s) && |s| == 1
    ensures Print(Value(s)) == s && (Value(s) == 0 <==> s == "0")
  {
  }

  lemma ValueSnoc(front: string, last: char)
    requires Numeral(front) && Digit(last)
    ensures Numeral(front + [last]) && Value(front + [last]) == 10 * Value(front) + (last - '0') as nat
  {
    assert (front + [last])[..|front|] == front;
  }

  lemma PrintSnoc(n: nat, last: char)
    requires n > 0 && Digit(last)
    ensures Print(10 * n + (last - '0') as nat) == Print(n) + [last]
  {
    var d := (last - '0') as nat;
    assert (10 * n + d) / 10 == n && (10 * n + d) % 10 == d;
  }
}
