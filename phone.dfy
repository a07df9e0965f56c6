/**
 Phone helpers: `normalizePhone` keeps the decimal digits of a string and
 `isLikelyPhoneNumber` accepts strings holding 7 to 15 of them.
 */
module Phone {
  import opened JsText

  predicate AllDigits(s: string) {
    forall i :: 0 <= i < |s| ==> IsDigit(s[i])
  }

  /** `phone.replace(/\D/g, '')`. */
  function NormalizePhone(phone: string): (r: string)
    ensures |r| <= |phone|
    ensures AllDigits(r)
    decreases |phone|
  {
    if phone == [] then []
    else (if IsDigit(phone[0]) then [phone[0]] else []) + NormalizePhone(phone[1..])
  }

  /** The positions of `s` that hold a digit. */
  ghost function DigitPositions(s: string): set<int> {
    set i | 0 <= i < |s| && IsDigit(s[i])
  }

  /** 7 to 15 digits, whatever else the text holds. */
  function IsLikelyPhoneNumber(text: string): bool {
    var digits := NormalizePhone(text);
    7 <= |digits| <= 15
  }

  /** Normalisation distributes over concatenation: the digits keep their order. */
  lemma {:induction false} NormalizePhoneAppend(a: string, b: string)
    ensures NormalizePhone(a + b) == NormalizePhone(a) + NormalizePhone(b)
    decreases |a|
  {
    if a == [] {
      assert a + b == b;
    } else {
      assert (a + b)[1..] == a[1..] + b;
      NormalizePhoneAppend(a[1..], b);
    }
  }

  /** A string of digits is its own normal form. */
  lemma {:induction false} NormalizeDigitsUnchanged(s: string)
    requires AllDigits(s)
    ensures NormalizePhone(s) == s
    decreases |s|
  {
    if s != [] {
      NormalizeDigitsUnchanged(s[1..]);
    }
  }

  /** A string with no digit normalises to the empty string. */
  lemma {:induction false} NormalizeNoDigits(s: string)
    requires forall i :: 0 <= i < |s| ==> !IsDigit(s[i])
    ensures NormalizePhone(s) == []
    decreases |s|
  {
    if s != [] {
      NormalizeNoDigits(s[1..]);
    }
  }

  lemma NormalizePhoneIdempotent(s: string)
    ensures NormalizePhone(NormalizePhone(s)) == NormalizePhone(s)
  {
    NormalizeDigitsUnchanged(NormalizePhone(s));
  }

  /** The normal form is exactly as long as the number of digit positions. */
  lemma {:induction false} NormalizedLengthCountsDigits(s: string)
    ensures |NormalizePhone(s)| == |DigitPositions(s)|
    decreases |s|
  {
    if s != [] {
      var n := |s| - 1;
      var init := s[..n];
      assert s == init + [s[n]];
      NormalizePhoneAppend(init, [s[n]]);
      NormalizedLengthCountsDigits(init);
      assert NormalizePhone([s[n]]) == (if IsDigit(s[n]) then [s[n]] else []);
      if IsDigit(s[n]) {
        assert DigitPositions(s) == DigitPositions(init) + {n};
        assert n !in DigitPositions(init);
      } else {
        assert DigitPositions(s) == DigitPositions(init);
      }
    }
  }

  /** `isLikelyPhoneNumber` is true iff the input holds between 7 and 15 digits. */
  lemma LikelyPhoneIffDigitCount(text: string)
    ensures IsLikelyPhoneNumber(text) <==> 7 <= |DigitPositions(text)| <= 15
  {
    NormalizedLengthCountsDigits(text);
  }

  /**
   On a string of digits the test is a length check: 6 digits are too few,
   7 and 15 are accepted, 16 are too many.
   */
  lemma LikelyPhoneOfDigits(digits: string)
    requires AllDigits(digits)
    ensures IsLikelyPhoneNumber(digits) <==> 7 <= |digits| <= 15
  {
    NormalizeDigitsUnchanged(digits);
  }
}
