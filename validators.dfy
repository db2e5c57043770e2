/**
 * The password length validator: a password is accepted exactly when its
 * length lies within two bounds fixed at construction, and is otherwise
 * rejected with a message naming both bounds.
 */
module Validators {
  import opened Wrappers

  datatype PasswordLengthValidator = PasswordLengthValidator(minLength: int, maxLength: int)

  /** The validator built without arguments. */
  const DEFAULT_VALIDATOR: PasswordLengthValidator := PasswordLengthValidator(8, 128)

  /** Decimal digit `d` as a character. */
  function DigitChar(d: int): (c: char)
    requires 0 <= d < 10
    ensures '0' <= c <= '9' && c as int - '0' as int == d
  {
    (d + '0' as int) as char
  }

  /** The decimal text of `n`, as Python's `str` writes it: no leading zeros. */
  function NatToString(n: nat): (s: string)
    ensures |s| >= 1
    ensures forall i :: 0 <= i < |s| ==> '0' <= s[i] <= '9'
    ensures |s| > 1 ==> s[0] != '0'
    ensures n < 10 <==> |s| == 1
    decreases n
  {
    if n < 10 then [DigitChar(n)] else NatToString(n / 10) + [DigitChar(n % 10)]
  }

  /** The value of a string of decimal digits. */
  function DigitsValue(s: string): (n: nat)
    requires forall i :: 0 <= i < |s| ==> '0' <= s[i] <= '9'
    decreases |s|
  {
    if s == [] then 0 else DigitsValue(s[..|s| - 1]) * 10 + (s[|s| - 1] as int - '0' as int)
  }

  /** The decimal text reads back as the number written. */
  lemma {:induction false} NatToStringRoundTrip(n: nat)
    ensures DigitsValue(NatToString(n)) == n
    decreases n
  {
    var s := NatToString(n);
    if n >= 10 {
      NatToStringRoundTrip(n / 10);
      assert s[..|s| - 1] == NatToString(n / 10);
    }
  }

  /** Python's `str` of an int: a minus sign before the digits of a negative number. */
  function IntToString(i: int): (s: string)
    ensures i >= 0 ==> s == NatToString(i)
    ensures i < 0 ==> s == "-" + NatToString(-i)
    ensures |s| >= 1 && (s[0] == '-' <==> i < 0)
  {
    if i < 0 then "-" + NatToString(-i) else NatToString(i)
  }

  /** The value of an optionally signed string of decimal digits. */
  function SignedValue(s: string): int
    requires |s| >= 1
    requires forall i :: (if s[0] == '-' then 1 else 0) <= i < |s| ==> '0' <= s[i] <= '9'
  {
    if s[0] == '-' then -(DigitsValue(s[1..]) as int) else DigitsValue(s) as int
  }

  /** The text of any int, negative ones included, reads back as that int. */
  lemma IntToStringRoundTrip(i: int)
    ensures SignedValue(IntToString(i)) == i
  {
    if i < 0 {
      NatToStringRoundTrip(-i);
      SignedValueOfNegative(NatToString(-i));
    } else {
      NatToStringRoundTrip(i);
      SignedValueOfDigits(NatToString(i));
    }
  }

  lemma SignedValueOfNegative(digits: string)
    requires |digits| >= 1 && forall k :: 0 <= k < |digits| ==> '0' <= digits[k] <= '9'
    ensures SignedValue("-" + digits) == -(DigitsValue(digits) as int)
  {
    assert ("-" + digits)[1..] == digits;
  }

  lemma SignedValueOfDigits(digits: string)
    requires |digits| >= 1 && forall k :: 0 <= k < |digits| ==> '0' <= digits[k] <= '9'
    ensures SignedValue(digits) == DigitsValue(digits) as int
  {
  }

  /** The text of the validation error. */
  function Message(v: PasswordLengthValidator): string {
    "Password must be " + IntToString(v.minLength) + "-" + IntToString(v.maxLength) + " characters long."
  }

  /**
   * `__call__`: None when the password is accepted, else the message of the
   * ValidationError raised. Both bounds are inclusive.
   */
  function Validate(v: PasswordLengthValidator, value: string): (r: Option<string>)
    ensures r.None? <==> v.minLength <= |value| <= v.maxLength
    ensures r.Some? ==> r.value == Message(v)
  {
    var length := |value|;
    if length < v.minLength || length > v.maxLength then Some(Message(v)) else None
  }

  /** The default validator accepts passwords of 8 to 128 characters, both included. */
  lemma DefaultBounds(value: string)
    ensures DEFAULT_VALIDATOR.minLength == 8 && DEFAULT_VALIDATOR.maxLength == 128
    ensures Validate(DEFAULT_VALIDATOR, value).None? <==> 8 <= |value| <= 128
  {
  }

  /** The default validator's message. */
  lemma DefaultMessage()
    ensures Message(DEFAULT_VALIDATOR) == "Password must be 8-128 characters long."
  {
    assert IntToString(8) == "8";
    assert IntToString(128) == "128" by {
      assert NatToString(12) == "12" by {
        assert NatToString(1) == "1";
      }
    }
  }

  /** A message names the bounds: it reads back the lower bound that was configured. */
  lemma MessageNamesMinimum(v: PasswordLengthValidator)
    requires v.minLength >= 0
    ensures var digits := NatToString(v.minLength);
      && Message(v)[..17] == "Password must be "
      && Message(v)[17..17 + |digits|] == digits
      && DigitsValue(Message(v)[17..17 + |digits|]) == v.minLength
  {
    var prefix := "Password must be ";
    var digits := NatToString(v.minLength);
    var rest := "-" + IntToString(v.maxLength) + " characters long.";
    assert |prefix| == 17;
    assert Message(v) == prefix + (digits + rest);
    assert (prefix + (digits + rest))[17..17 + |digits|] == digits;
    NatToStringRoundTrip(v.minLength);
  }
}
