/**
 * Todo identifiers (src/model/mod.rs:17-48): a 16-bit unsigned number, parsed the way
 * Rust parses a `u16` and printed in decimal.
 */
module Ids {
  import opened Wrappers
  import opened Text

  const U16Limit: nat := 65536

  type u16 = x: int | 0 <= x < U16Limit

  /** 10 to the power `n`. */
  function Pow10(n: nat): (r: nat)
    ensures r >= 1
  {
    if n == 0 then 1 else 10 * Pow10(n - 1)
  }

  function DigitValue(c: char): nat
    requires IsDigit(c)
  {
    c as int - '0' as int
  }

  /** The digits after an optional leading '+', which `u16::from_str` accepts. */
  function Unsigned(s: string): string {
    if |s| > 0 && s[0] == '+' then s[1..] else s
  }

  /** What Rust's `u16` parsing accepts: an optional '+', at least one decimal digit, and
      a value that fits in 16 bits (leading zeros are allowed). */
  predicate IsU16Numeral(s: string) {
    var d := Unsigned(s);
    |d| > 0 && AllDigits(d) && DigitsValue(d) < U16Limit
  }

  /** The digit loop of `from_str_radix`: left to right, multiplying the accumulated value
      by ten and adding the digit, failing on a non-digit or on overflow. */
  function AccumulateDigits(d: string, acc: u16): (r: Option<u16>)
    decreases |d|
  {
    if |d| == 0 then Some(acc)
    else if !IsDigit(d[0]) then None
    else
      var v := acc * 10 + DigitValue(d[0]);
      if v >= U16Limit then None else AccumulateDigits(d[1..], v)
  }

  /** `u16::from_str`. */
  function ParseU16(s: string): (r: Option<u16>)
    ensures r.Some? <==> IsU16Numeral(s)
    ensures r.Some? ==> r.value == DigitsValue(Unsigned(s))
  {
    var d := Unsigned(s);
    AccumulateCorrect(d, 0);
    if |d| == 0 then None else AccumulateDigits(d, 0)
  }

  lemma {:induction false} DigitsValueCons(c: char, d: string)
    requires IsDigit(c) && AllDigits(d)
    ensures AllDigits([c] + d)
    ensures DigitsValue([c] + d) == DigitValue(c) * Pow10(|d|) + DigitsValue(d)
    decreases |d|
  {
    var s := [c] + d;
    if |d| > 0 {
      assert s[..|s| - 1] == [c] + d[..|d| - 1];
      DigitsValueCons(c, d[..|d| - 1]);
    } else {
      assert s[..0] == [];
    }
  }

  /** The digit loop computes the decimal value, and fails exactly when the value does not
      fit or a character is not a digit. */
  lemma {:induction false} AccumulateCorrect(d: string, acc: u16)
    ensures AccumulateDigits(d, acc).Some? <==>
              AllDigits(d) && acc * Pow10(|d|) + DigitsValue(d) < U16Limit
    ensures AccumulateDigits(d, acc).Some? ==>
              AccumulateDigits(d, acc).value == acc * Pow10(|d|) + DigitsValue(d)
    decreases |d|
  {
    if |d| > 0 {
      var rest := d[1..];
      assert d == [d[0]] + rest;
      if !IsDigit(d[0]) {
        assert !AllDigits(d);
      } else {
        var v := acc * 10 + DigitValue(d[0]);
        if v < U16Limit {
          AccumulateCorrect(rest, v);
        }
        if AllDigits(rest) {
          DigitsValueCons(d[0], rest);
          ShiftPlace(acc, DigitValue(d[0]), Pow10(|rest|), DigitsValue(rest));
        } else {
          assert !AllDigits(d) by {
            var i :| 0 <= i < |rest| && !IsDigit(rest[i]);
            assert d[i + 1] == rest[i];
          }
        }
      }
    }
  }

  /** Moving one digit from the value into the accumulator. */
  lemma ShiftPlace(acc: nat, c: nat, p: nat, x: nat)
    requires p >= 1
    ensures acc * (10 * p) + (c * p + x) == (acc * 10 + c) * p + x
    ensures (acc * 10 + c) * p + x >= acc * 10 + c
  {
    assert acc * (10 * p) == (acc * 10) * p;
    assert (acc * 10 + c) * p == (acc * 10) * p + c * p;
  }

  datatype ID = ID(value: u16) {

    /** `Display`: the decimal value. */
    function Display(): (s: string)
      ensures |s| > 0 && AllDigits(s) && DigitsValue(s) == value
    {
      NatToStringValue(value);
      NatToString(value)
    }

    /** `PartialEq`: two identifiers are equal iff their numbers are. */
    function Equals(other: ID): (b: bool)
      ensures b <==> this == other
    {
      value == other.value
    }
  }

  /** `ID::try_from(&str)`: the `u16` parse, or "invalid id: <input>". */
  function Parse(s: string): (r: Result<ID>)
    ensures r.Success? <==> IsU16Numeral(s)
    ensures r.Success? ==> r.value.value == DigitsValue(Unsigned(s))
    ensures r.Failure? ==> r.error == General("invalid id: " + s)
  {
    match ParseU16(s)
    case Some(v) => Success(ID(v))
    case None => Failure(General("invalid id: " + s))
  }

  /** Reading back a printed identifier gives the identifier. */
  lemma ParseDisplay(id: ID)
    ensures Parse(id.Display()) == Success(id)
  {
    var s := id.Display();
    assert IsDigit(s[0]);
    assert Unsigned(s) == s;
  }

  /** Printing a parsed identifier gives the input back exactly when it has no '+' and no
      superfluous leading zero. */
  lemma DisplayParse(s: string)
    requires Parse(s).Success?
    requires |s| > 0 && s[0] != '+' && (s[0] == '0' ==> |s| == 1)
    ensures Parse(s).value.Display() == s
  {
    var id := Parse(s).value;
    assert Unsigned(s) == s;
    CanonicalNumeral(s);
  }

  lemma {:induction false} CanonicalNumeral(s: string)
    requires |s| > 0 && AllDigits(s) && (s[0] == '0' ==> |s| == 1)
    ensures NatToString(DigitsValue(s)) == s
    decreases |s|
  {
    var n := DigitsValue(s);
    if |s| == 1 {
      assert s[..0] == [];
      assert DigitsValue(s[..0]) == 0;
      assert n == DigitValue(s[0]);
      assert [DigitChar(n)] == s;
    } else {
      var init := s[..|s| - 1];
      CanonicalNumeral(init);
      assert init[0] != '0';
      LeadingDigitBound(init);
      assert n / 10 == DigitsValue(init);
      assert n % 10 == DigitValue(s[|s| - 1]);
      assert init + [s[|s| - 1]] == s;
    }
  }

  /** A numeral without a leading zero has a positive value. */
  lemma LeadingDigitBound(s: string)
    requires |s| > 0 && AllDigits(s) && s[0] != '0'
    ensures DigitsValue(s) >= 1
  {
    DigitsValueCons(s[0], s[1..]);
    assert [s[0]] + s[1..] == s;
  }

  /** Concrete inputs: an explicit '+' and leading zeros are accepted. */
  lemma ParseExamples()
    ensures Parse("42") == Success(ID(42))
    ensures Parse("+7") == Success(ID(7))
    ensures Parse("007") == Success(ID(7))
  {
    assert DigitsValue("42") == 42;
    assert DigitsValue("7") == 7;
    assert DigitsValue("007") == 7 by {
      assert "007"[..2] == "00";
      assert "00"[..1] == "0";
      assert "007"[..2][..1] == "0";
    }
  }

  /** 65535 is the largest identifier; one more is rejected. */
  lemma ParseBoundary()
    ensures Parse("65535") == Success(ID(65535))
    ensures Parse("65536") == Failure(General("invalid id: 65536"))
  {
    ParseMax("65535");
    ParseTooLarge("65536");
  }

  lemma ParseMax(s: string)
    requires s == "65535"
    ensures Parse(s) == Success(ID(65535))
  {
    assert DigitsValue(s) == 65535 by {
      assert s[..1][..0] == [] && DigitsValue(s[..1]) == 6;
      assert s[..2][..1] == s[..1] && DigitsValue(s[..2]) == 65;
      assert s[..3][..2] == s[..2] && DigitsValue(s[..3]) == 655;
      assert s[..4][..3] == s[..3] && DigitsValue(s[..4]) == 6553;
      assert s[..4] == s[..|s| - 1];
    }
  }

  lemma ParseTooLarge(s: string)
    requires s == "65536"
    ensures Parse(s) == Failure(General("invalid id: " + s))
  {
    assert DigitsValue(s) == 65536 by {
      assert s[..1][..0] == [] && DigitsValue(s[..1]) == 6;
      assert s[..2][..1] == s[..1] && DigitsValue(s[..2]) == 65;
      assert s[..3][..2] == s[..2] && DigitsValue(s[..3]) == 655;
      assert s[..4][..3] == s[..3] && DigitsValue(s[..4]) == 6553;
      assert s[..4] == s[..|s| - 1];
    }
  }

  /** A minus sign, an empty string and a lone '+' are rejected. */
  lemma ParseRejects()
    ensures Parse("-1").Failure? && Parse("").Failure? && Parse("+").Failure?
  {
    assert !IsDigit("-1"[0]);
  }
}
