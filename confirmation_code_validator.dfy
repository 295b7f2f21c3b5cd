/**
 * The `IsConfirmationCode` decorator: a value is accepted when it is a string
 * that the pattern `^[0-9]{6}$` matches. Without the `m` flag `$` matches only
 * at the very end of input, so a trailing newline is refused.
 */
module ConfirmationCodeValidator {
  import opened Wrappers
  import opened ValidationMessage
  import opened JsValues
  import opened Regex

  const DefaultMessage := "Invalid confirmation code"

  /** `re.test(s)` for `^[0-9]{6}$`. */
  predicate IsConfirmationCode(s: string) {
    |s| == 6 && forall i :: 0 <= i < |s| ==> IsDigit(s[i])
  }

  /** The decorator's `validate`: `typeof value === "string" && re.test(value)`. */
  predicate Validate(v: JsValue) {
    IsString(v) && IsConfirmationCode(v.str)
  }

  /** The message class-validator reports for a field that fails. */
  function Failure(v: JsValue): (m: Option<string>)
    ensures m.None? <==> Validate(v)
    ensures m.Some? ==> m.value == "Invalid confirmation code"
  {
    Message(Validate(v), DefaultMessage)
  }

  // An independent description of the accepted strings: the numbers below a
  // million written with exactly six decimal digits, leading zeros included.

  function Pow10(k: nat): nat {
    if k == 0 then 1 else 10 * Pow10(k - 1)
  }

  function DigitChar(d: nat): (c: char)
    requires d < 10
    ensures IsDigit(c)
  {
    (('0' as int) + d) as char
  }

  function DigitValue(c: char): (d: nat)
    requires IsDigit(c)
    ensures d < 10 && DigitChar(d) == c
  {
    (c as int) - ('0' as int)
  }

  /** `n` in decimal, padded with zeros on the left to `width` digits. */
  function Padded(n: nat, width: nat): (s: string)
    ensures |s| == width
    ensures forall i :: 0 <= i < |s| ==> IsDigit(s[i])
  {
    if width == 0 then [] else Padded(n / 10, width - 1) + [DigitChar(n % 10)]
  }

  /** The number a string of decimal digits denotes. */
  function ValueOf(s: string): nat
    requires forall i :: 0 <= i < |s| ==> IsDigit(s[i])
  {
    if s == [] then 0 else 10 * ValueOf(s[..|s| - 1]) + DigitValue(s[|s| - 1])
  }

  lemma {:induction false} ValueOfPadded(n: nat, width: nat)
    requires n < Pow10(width)
    ensures ValueOf(Padded(n, width)) == n
  {
    if width > 0 {
      var q, d := n / 10, n % 10;
      var init := Padded(q, width - 1);
      var s := init + [DigitChar(d)];
      assert Padded(n, width) == s;
      assert s[..|s| - 1] == init;
      assert q < Pow10(width - 1);
      ValueOfPadded(q, width - 1);
      assert ValueOf(s) == 10 * q + d;
    }
  }

  lemma {:induction false} PaddedValueOf(s: string)
    requires forall i :: 0 <= i < |s| ==> IsDigit(s[i])
    ensures ValueOf(s) < Pow10(|s|)
    ensures Padded(ValueOf(s), |s|) == s
  {
    if s != [] {
      var init := s[..|s| - 1];
      PaddedValueOf(init);
      var d := DigitValue(s[|s| - 1]);
      assert (10 * ValueOf(init) + d) / 10 == ValueOf(init);
      assert (10 * ValueOf(init) + d) % 10 == d;
      assert s == init + [s[|s| - 1]];
    }
  }

  /** The accepted strings are exactly the six-digit renderings of 0 .. 999999:
      every accepted string is the rendering of the number it denotes, and
      every rendering is accepted and denotes its number. */
  lemma CodesAreSixDigitNumbers(s: string, n: nat)
    ensures IsConfirmationCode(s) ==> ValueOf(s) < 1000000 && Padded(ValueOf(s), 6) == s
    ensures n < 1000000 ==> IsConfirmationCode(Padded(n, 6)) && ValueOf(Padded(n, 6)) == n
  {
    assert Pow10(6) == 1000000;
    if IsConfirmationCode(s) {
      PaddedValueOf(s);
    }
    if n < 1000000 {
      ValueOfPadded(n, 6);
    }
  }

  /** Concrete cases: a letter among the digits, five or seven digits, and a
      trailing newline are refused; leading zeros are fine. */
  lemma Examples()
    ensures !IsConfirmationCode("12a456")
    ensures !IsConfirmationCode("12345")
    ensures !IsConfirmationCode("1234567")
    ensures !IsConfirmationCode("123456\n")
    ensures IsConfirmationCode("000000")
    ensures IsConfirmationCode("123456")
  {
    assert "12a456"[2] == 'a';
  }

  /** A value that is not a string is refused. */
  lemma NonStringRefused(v: JsValue)
    requires !IsString(v)
    ensures Failure(v) == Some("Invalid confirmation code")
  {
  }
}
