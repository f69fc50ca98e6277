/** Validation of the quantity typed into the submission form
    (`ShulkerModal.on_submit`, first step). */
module Validation {
  import opened Wrappers
  import opened Decimal

  /** The form's text field accepts at most this many characters. */
  const MaxLength: nat := 4

  /** Python's `int()` on the raw text, simplified to an optional '+' or '-'
      followed by one or more ASCII digits. */
  function ParseInt(text: string): (r: Option<int>)
    ensures r.Some? ==> |text| > 0
    ensures r.Some? && r.value < 0 ==> text[0] == '-'
    ensures r.Some? && text[0] == '-' ==> r.value <= 0
  {
    if |text| > 0 && (text[0] == '+' || text[0] == '-') then
      var digits := text[1..];
      if |digits| > 0 && AllDigits(digits) then
        var magnitude: int := DigitsValue(digits);
        Some(if text[0] == '-' then -magnitude else magnitude)
      else
        None
    else if |text| > 0 && AllDigits(text) then
      Some(DigitsValue(text))
    else
      None
  }

  /** The accepted quantity, or None when the handler must send its error reply:
      the text does not parse, or parses to a value of 0 or less. */
  function Validate(text: string): (r: Option<nat>)
    requires |text| <= MaxLength
    ensures r.Some? ==> 1 <= r.value <= 9999
    ensures r.Some? <==> ParseInt(text).Some? && ParseInt(text).value > 0
    ensures r.Some? ==> ParseInt(text) == Some(r.value as int)
  {
    match ParseInt(text)
    case None => None
    case Some(n) =>
      if n <= 0 then None
      else
        AcceptedBelowLimit(text);
        Some(n)
  }

  /** Within the length cap, a positive parse has at most four digits and so is at most 9999. */
  lemma AcceptedBelowLimit(text: string)
    requires |text| <= MaxLength
    requires ParseInt(text).Some? && ParseInt(text).value > 0
    ensures ParseInt(text).value <= 9999
  {
    if text[0] == '+' || text[0] == '-' {
      DigitsValueBound(text[1..]);
      assert Pow10(|text[1..]|) <= Pow10(3) by { Pow10Monotone(|text[1..]|, 3); }
    } else {
      DigitsValueBound(text);
      assert Pow10(|text|) <= Pow10(4) by { Pow10Monotone(|text|, 4); }
    }
  }

  lemma {:induction false} Pow10Monotone(i: nat, j: nat)
    requires i <= j
    ensures Pow10(i) <= Pow10(j)
  {
    if i < j {
      Pow10Monotone(i, j - 1);
    }
  }

  /** Parsing the text an f-string writes for any integer gives that integer back. */
  lemma ParseIntString(n: int)
    ensures ParseInt(IntString(n)) == Some(n)
  {
    if n < 0 {
      ParseNegativeString(-n);
    } else {
      ParseNatString(n);
    }
  }

  lemma ParseNatString(n: nat)
    ensures ParseInt(NatString(n)) == Some(n)
  {
    var s := NatString(n);
    assert IsDigit(s[0]);
    NatStringRoundTrip(n);
  }

  lemma ParseNegativeString(m: nat)
    requires m > 0
    ensures ParseInt("-" + NatString(m)) == Some(-(m as int))
  {
    var s := "-" + NatString(m);
    assert s[0] == '-' && s[1..] == NatString(m);
    NatStringRoundTrip(m);
  }

  /** Every quantity from 1 to 9999 can be typed into the form and is accepted as itself. */
  lemma ValidateAcceptsRange(n: nat)
    requires 1 <= n <= 9999
    ensures |NatString(n)| <= MaxLength
    ensures Validate(NatString(n)) == Some(n)
  {
    NatStringLength(n, 4);
    ParseIntString(n);
  }

  /** A leading '+' and leading zeros are accepted too; a '-' sign never is. */
  lemma ValidateSigns(text: string)
    requires |text| <= MaxLength
    ensures |text| > 0 && text[0] == '-' ==> Validate(text).None?
    ensures Validate("+7") == Some(7) && Validate("0042") == Some(42)
  {
    assert "+7"[1..] == "7";
    assert "0042"[..3] == "004" && "004"[..2] == "00" && "00"[..1] == "0";
  }

  /** Typical rejected inputs: zero, a negative number, letters, the empty text. */
  lemma ValidateRejects()
    ensures Validate("0").None? && Validate("-3").None?
    ensures Validate("abc").None? && Validate("").None?
  {
    assert !IsDigit("abc"[0]);
  }
}
