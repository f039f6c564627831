/** `format_whatsapp_number`: a free-form phone number as Indonesian "62"-prefixed digits. */
module Phone {
  import opened Text

  /** The digits of `s` in order, `''.join(filter(str.isdigit, s))`. */
  function Digits(s: string): (r: string)
    ensures AllDigits(r)
    ensures |r| <= |s|
    ensures AllDigits(s) ==> r == s
  {
    if s == [] then []
    else if IsDigit(s[0]) then [s[0]] + Digits(s[1..])
    else Digits(s[1..])
  }

  /** The dialling code that every stored number starts with. */
  const CountryCode: string := "62"

  /**
   * An empty input stays empty; otherwise the digits are kept, a leading
   * trunk "0" becomes "62", and "62" is prepended when it is not already there.
   */
  function FormatWhatsappNumber(nomor: string): (r: string) {
    if nomor == "" then ""
    else
      var d := Digits(nomor);
      if StartsWith(d, "0") then CountryCode + d[1..]
      else if !StartsWith(d, CountryCode) then CountryCode + d
      else d
  }

  /** The empty number is kept empty; anything else becomes digits that start with "62". */
  lemma FormatShape(nomor: string)
    ensures nomor == "" ==> FormatWhatsappNumber(nomor) == ""
    ensures nomor != "" ==> AllDigits(FormatWhatsappNumber(nomor))
    ensures nomor != "" ==> StartsWith(FormatWhatsappNumber(nomor), CountryCode)
  {
  }

  /** A non-empty input without a single digit still yields the bare dialling code. */
  lemma FormatWithoutDigits(nomor: string)
    requires nomor != ""
    requires forall i :: 0 <= i < |nomor| ==> !IsDigit(nomor[i])
    ensures FormatWhatsappNumber(nomor) == CountryCode
  {
    NoDigits(nomor);
  }

  lemma {:induction false} NoDigits(s: string)
    requires forall i :: 0 <= i < |s| ==> !IsDigit(s[i])
    ensures Digits(s) == []
  {
    if s != [] {
      NoDigits(s[1..]);
    }
  }

  /** Formatting an already formatted number changes nothing. */
  lemma FormatIdempotent(nomor: string)
    ensures FormatWhatsappNumber(FormatWhatsappNumber(nomor)) == FormatWhatsappNumber(nomor)
  {
    var f := FormatWhatsappNumber(nomor);
    if nomor != "" {
      FormatShape(nomor);
      assert f[0] == '6';
    }
  }

  /** A trunk "0" in front of the digits is replaced by the dialling code. */
  lemma FormatTrunkRule(nomor: string)
    requires nomor != "" && |Digits(nomor)| > 0 && Digits(nomor)[0] == '0'
    ensures FormatWhatsappNumber(nomor) == CountryCode + Digits(nomor)[1..]
  {
    assert StartsWith(Digits(nomor), "0");
  }

  /** Digits that already start with "62" are kept as they are. */
  lemma FormatPrefixedRule(nomor: string)
    requires nomor != "" && |Digits(nomor)| >= 2 && Digits(nomor)[0] == '6' && Digits(nomor)[1] == '2'
    ensures FormatWhatsappNumber(nomor) == Digits(nomor)
  {
    var d := Digits(nomor);
    assert d[..1][0] == d[0];
    assert d[..2] == CountryCode;
  }

  /** Any other digits, none at all included, get the dialling code in front. */
  lemma FormatBareRule(nomor: string)
    requires nomor != ""
    requires !(|Digits(nomor)| > 0 && Digits(nomor)[0] == '0')
    requires !(|Digits(nomor)| >= 2 && Digits(nomor)[0] == '6' && Digits(nomor)[1] == '2')
    ensures FormatWhatsappNumber(nomor) == CountryCode + Digits(nomor)
  {
    var d := Digits(nomor);
    assert !StartsWith(d, "0") by {
      assert |d| >= 1 ==> d[..1][0] == d[0];
    }
    assert !StartsWith(d, CountryCode) by {
      assert |d| >= 2 ==> d[..2][0] == d[0] && d[..2][1] == d[1];
    }
  }

  lemma {:induction false} DigitsAppend(a: string, b: string)
    ensures Digits(a + b) == Digits(a) + Digits(b)
  {
    if a == [] {
      assert a + b == b;
    } else {
      assert (a + b)[1..] == a[1..] + b;
      DigitsAppend(a[1..], b);
    }
  }
}

/** The documented spellings of one number, worked through the three prefix rules. */
module PhoneExamples {
  import opened Text
  import opened Phone

  /** A local number with its trunk "0" gets the dialling code in place of the "0". */
  lemma FormatLocalExample(nomor: string)
    requires nomor == "0812"
    ensures FormatWhatsappNumber(nomor) == "62812"
  {
    assert AllDigits(nomor);
    assert Digits(nomor)[0] == '0';
    assert Digits(nomor)[1..] == "812";
    FormatTrunkRule(nomor);
  }

  /** A number without trunk "0" or dialling code gets the dialling code prepended. */
  lemma FormatBareExample(nomor: string)
    requires nomor == "812"
    ensures FormatWhatsappNumber(nomor) == "62812"
  {
    assert AllDigits(nomor);
    FormatBareRule(nomor);
  }

  /** A number that already carries the dialling code is kept as it is. */
  lemma FormatFullExample(nomor: string)
    requires nomor == "62812"
    ensures FormatWhatsappNumber(nomor) == "62812"
  {
    assert AllDigits(nomor);
    FormatPrefixedRule(nomor);
  }

  /** An international "+" is dropped before the prefix rule applies. */
  lemma FormatInternationalExample(nomor: string)
    requires nomor == "+62812"
    ensures FormatWhatsappNumber(nomor) == "62812"
  {
    var plus, digits := "+", "62812";
    assert nomor == plus + digits;
    NoDigits(plus);
    assert AllDigits(digits);
    DigitsAppend(plus, digits);
    FormatPrefixedRule(nomor);
  }
}
