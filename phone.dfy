/** Phone numbers: trimming and the ITU-T E.164 format check (`^\+[1-9]\d{6,14}$`,
    matched against the whole string). */
module Phone {
  import opened Wrappers
  import opened PyStr

  /** `normalize(phone)`: `None` stays `None`, a string loses its surrounding
      whitespace. */
  function Normalize(phone: Option<string>): (r: Option<string>)
    ensures r.None? <==> phone.None?
    ensures r.Some? ==> IsStripped(r.value) && r.value == Strip(phone.value)
  {
    match phone
    case None => None
    case Some(p) => Some(Strip(p))
  }

  /** Normalizing twice is normalizing once. */
  lemma {:induction false} NormalizeIdempotent(phone: Option<string>)
    ensures Normalize(Normalize(phone)) == Normalize(phone)
  {
  }

  /** `validate_e164(phone)`: a plus sign, a first digit from 1 to 9 and then 6 to 14
      further decimal digits, and nothing else. */
  function ValidateE164(phone: string): (ok: bool)
    ensures ok ==> 8 <= |phone| <= 16 && phone[0] == '+' && phone[1] != '0'
    ensures ok ==> forall i | 1 <= i < |phone| :: IsDigit(phone[i]) && !IsSpace(phone[i])
  {
    && 8 <= |phone| <= 16
    && phone[0] == '+'
    && '1' <= phone[1] <= '9'
    && AllDigits(phone[2..])
  }

  /** An accepted number is already normalized. */
  lemma {:induction false} ValidIsStripped(phone: string)
    requires ValidateE164(phone)
    ensures Normalize(Some(phone)) == Some(phone)
  {
  }

  /** An accepted string is `"+"` and the decimal text of a number with 7 to 15 digits. */
  lemma {:induction false} ValidIsNumber(phone: string) returns (n: nat)
    requires ValidateE164(phone)
    ensures Pow10(6) <= n < Pow10(15) && phone == "+" + NatToDecimal(n)
  {
    var ds := phone[1..];
    AcceptedDigits(phone);
    n := DecimalValue(ds);
    DecimalValueBounds(ds);
    NatToDecimalOfDecimalValue(ds);
    Pow10Monotone(6, |ds| - 1);
    Pow10Monotone(|ds|, 15);
  }

  /** What follows the plus sign of an accepted string is 7 to 15 digits, the first not
      `0`. */
  lemma {:induction false} AcceptedDigits(phone: string)
    requires ValidateE164(phone)
    ensures var ds := phone[1..];
      && 7 <= |ds| <= 15 && AllDigits(ds) && ds[0] != '0' && phone == "+" + ds
  {
    var ds := phone[1..];
    forall i | 0 <= i < |ds| ensures IsDigit(ds[i]) {
      if i > 0 {
        assert ds[i] == phone[2..][i - 1];
      }
    }
    assert phone == [phone[0]] + ds;
  }

  /** The decimal text of a number with 7 to 15 digits, after `"+"`, is accepted. */
  lemma {:induction false} NumberIsValid(n: nat)
    requires Pow10(6) <= n < Pow10(15)
    ensures ValidateE164("+" + NatToDecimal(n))
  {
    var ds := NatToDecimal(n);
    var phone := "+" + ds;
    NatToDecimalLength(n);
    if |ds| < 7 {
      Pow10Monotone(|ds|, 6);
    }
    if |ds| > 15 {
      Pow10Monotone(15, |ds| - 1);
    }
    assert phone[1] == ds[0];
    assert phone[2..] == ds[1..];
  }

  /** The accepted strings are exactly `"+" + str(n)` for the numbers `n` with 7 to 15
      digits. */
  lemma {:induction false} E164Numbers(phone: string)
    ensures ValidateE164(phone) <==>
      exists n: nat :: Pow10(6) <= n < Pow10(15) && phone == "+" + NatToDecimal(n)
  {
    if ValidateE164(phone) {
      var n := ValidIsNumber(phone);
    }
    if exists n: nat :: Pow10(6) <= n < Pow10(15) && phone == "+" + NatToDecimal(n) {
      var n: nat :| Pow10(6) <= n < Pow10(15) && phone == "+" + NatToDecimal(n);
      NumberIsValid(n);
    }
  }
}
