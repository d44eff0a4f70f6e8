// Decimal numerals of natural numbers, as %d and std::to_string write them.
module Decimal {
  import opened Options

  predicate IsDigit(c: char) {
    '0' <= c <= '9'
  }

  function Digit(d: nat): (c: char)
    requires d < 10
    ensures IsDigit(c)
  {
    '0' + d as char
  }

  function Numeral(n: nat): (s: string)
    ensures s != [] && forall c :: c in s ==> IsDigit(c)
    ensures n < 10 <==> |s| == 1
  {
    if n < 10 then [Digit(n)] else Numeral(n / 10) + [Digit(n % 10)]
  }

  // What an integer initializer makes of a string: None unless it is a run of digits.
  function Parse(s: string): Option<nat> {
    if s == [] || exists c :: c in s && !IsDigit(c) then None else Some(ValueOf(s))
  }

  function DigitValue(c: char): nat
    requires IsDigit(c)
  {
    c as int - '0' as int
  }

  function ValueOf(s: string): nat
    requires forall c :: c in s ==> IsDigit(c)
  {
    if s == [] then 0 else
      assert s[|s| - 1] in s;
      10 * ValueOf(s[..|s| - 1]) + DigitValue(s[|s| - 1])
  }

  lemma {:induction false} ParseNumeral(n: nat)
    ensures Parse(Numeral(n)) == Some(n)
  {
    if n >= 10 {
      ParseNumeral(n / 10);
      assert Numeral(n)[..|Numeral(n)| - 1] == Numeral(n / 10);
    } else {
      assert Numeral(n)[..0] == [] && ValueOf([]) == 0;
    }
  }

  // A numeral is written in the ten digits, the last one first to be split off.
  lemma NumeralEnds(n: nat, d: nat)
    requires d < 10
    ensures Numeral(10 * n + d) == (if n == 0 then "" else Numeral(n)) + ["0123456789"[d]]
  {
    assert "0123456789"[d] == Digit(d);
    assert (10 * n + d) / 10 == n && (10 * n + d) % 10 == d;
  }

  // Zeros in front of a numeral do not change the number.
  lemma {:induction false} ZerosInFront(zeros: string, s: string, text: string)
    requires (forall k :: 0 <= k < |zeros| ==> zeros[k] == '0') && text == zeros + s
    ensures Parse(s).Some? ==> Parse(text) == Parse(s)
  {
    if Parse(s).Some? {
      forall c | c in text ensures IsDigit(c) {
        assert c in zeros || c in s;
      }
      ValueOfZeros(zeros, s, text);
    }
  }

  lemma {:induction false} ValueOfZeros(zeros: string, s: string, text: string)
    requires (forall k :: 0 <= k < |zeros| ==> zeros[k] == '0') && text == zeros + s
    requires (forall c :: c in s ==> IsDigit(c)) && forall c :: c in text ==> IsDigit(c)
    ensures ValueOf(text) == ValueOf(s)
    decreases |text|
  {
    if s != [] {
      assert text[..|text| - 1] == zeros + s[..|s| - 1];
      ValueOfZeros(zeros, s[..|s| - 1], text[..|text| - 1]);
    } else if text != [] {
      assert text == zeros && text[..|text| - 1] == zeros[..|zeros| - 1] + [];
      ValueOfZeros(zeros[..|zeros| - 1], [], text[..|text| - 1]);
    }
  }
}
