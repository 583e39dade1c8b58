/**
 * Currency utilities: the fixed exchange-rate table, normalisation of currency codes,
 * conversion of an amount to Malaysian ringgit, and its "RM 1,234.50" rendering.
 */
module Currency {
  import opened Options
  import opened Text
  import opened Numbers

  /** Ringgit per unit of each currency the table knows. */
  const ExchangeRates: map<string, real> :=
    map["MYR" := 1.0, "RM" := 1.0, "AUD" := 3.18, "USD" := 4.67,
        "SGD" := 3.48, "CNY" := 0.65, "EUR" := 5.10, "GBP" := 5.95]

  /** Every rate in the table is positive. */
  lemma RatesArePositive(code: string)
    requires code in ExchangeRates
    ensures ExchangeRates[code] > 0.0
  {
  }

  /**
   * `normalize_currency_code`: a missing or empty code is ringgit; otherwise the code is
   * upper-cased and stripped, and "RM" becomes "MYR".
   */
  function NormalizeCurrencyCode(currency: Option<string>): (r: string)
    ensures r != "RM"
    ensures currency.None? || currency.value == [] ==> r == "MYR"
  {
    if currency.None? || currency.value == [] then "MYR"
    else
      var code := Strip(Upper(currency.value));
      if code == "RM" then "MYR" else code
  }

  /** A normalised code has no lower-case letters and no surrounding whitespace. */
  lemma NormalizedIsCanonical(currency: Option<string>)
    ensures IsUpperCased(NormalizeCurrencyCode(currency))
    ensures IsStripped(NormalizeCurrencyCode(currency))
  {
    if currency.Some? && currency.value != [] {
      UpperIsUpperCased(currency.value);
      StripKeepsUpperCased(Upper(currency.value));
      StripIsInnerSlice(Upper(currency.value));
    }
  }

  /** Normalising a non-empty normalised code changes nothing. */
  lemma NormalizeIdempotent(currency: Option<string>)
    requires NormalizeCurrencyCode(currency) != []
    ensures NormalizeCurrencyCode(Some(NormalizeCurrencyCode(currency))) == NormalizeCurrencyCode(currency)
  {
    var r := NormalizeCurrencyCode(currency);
    NormalizedIsCanonical(currency);
    UpperOfUpperCased(r);
    StripOfStripped(r);
  }

  /** A code of whitespace only normalises to "", which normalises to "MYR": not idempotent there. */
  lemma NormalizeWhitespaceOnly()
    ensures NormalizeCurrencyCode(Some(" ")) == ""
    ensures NormalizeCurrencyCode(Some(NormalizeCurrencyCode(Some(" ")))) == "MYR"
  {
    assert Upper(" ") == " " by {
      assert |Upper(" ")| == 1 && Upper(" ")[0] == ' ';
    }
    assert " "[1..] == [];
    assert TrimLeft(" ") == TrimLeft([]) == [];
    assert Strip(" ") == TrimRight([]) == [];
  }

  /** A code whose upper-cased form has no surrounding whitespace normalises to that form. */
  lemma NormalizeOfStrippedUpper(code: string)
    requires code != [] && IsStripped(Upper(code))
    ensures NormalizeCurrencyCode(Some(code)) == if Upper(code) == "RM" then "MYR" else Upper(code)
  {
    StripOfStripped(Upper(code));
  }

  /** Case and surrounding whitespace do not matter, and "rm" means ringgit. */
  lemma NormalizeRinggitSpelling()
    ensures NormalizeCurrencyCode(Some("rm")) == "MYR"
    ensures NormalizeCurrencyCode(Some("RM")) == "MYR"
    ensures NormalizeCurrencyCode(Some("myr")) == "MYR"
  {
    assert Upper("rm") == "RM" by {
      assert |Upper("rm")| == 2 && Upper("rm")[0] == 'R' && Upper("rm")[1] == 'M';
    }
    assert Upper("RM") == "RM" by {
      assert |Upper("RM")| == 2 && Upper("RM")[0] == 'R' && Upper("RM")[1] == 'M';
    }
    assert Upper("myr") == "MYR" by {
      assert |Upper("myr")| == 3 && Upper("myr")[0] == 'M' && Upper("myr")[1] == 'Y' && Upper("myr")[2] == 'R';
    }
    NormalizeOfStrippedUpper("rm");
    NormalizeOfStrippedUpper("RM");
    NormalizeOfStrippedUpper("myr");
  }

  /** The rate the table gives a code, `None` when the table does not know it. */
  function TableRate(code: string): (r: Option<real>)
    ensures r.Some? <==> code in ExchangeRates
    ensures r.Some? ==> r.value > 0.0 && r.value == ExchangeRates[code]
  {
    if code in ExchangeRates then Some(ExchangeRates[code]) else None
  }

  /**
   * The table branch of `get_live_exchange_rate`: the rate of the normalised source code.
   * The target currency does not take part.
   */
  function LiveExchangeRate(fromCurrency: Option<string>, toCurrency: string): (r: Option<real>)
    ensures r.Some? <==> NormalizeCurrencyCode(fromCurrency) in ExchangeRates
    ensures r.Some? ==> r.value == ExchangeRates[NormalizeCurrencyCode(fromCurrency)] && r.value > 0.0
  {
    TableRate(NormalizeCurrencyCode(fromCurrency))
  }

  /** `convert_to_myr` once the source code is normalised. */
  function ConvertCode(amount: real, code: string): (r: real)
    ensures r == amount * CodeFactor(code)
  {
    assert code == "MYR" ==> TableRate(code).value == 1.0;
    if amount == 0.0 then 0.0
    else if code == "MYR" then amount
    else match TableRate(code)
      case Some(rate) => amount * rate
      case None => amount
  }

  /**
   * `convert_to_myr`: zero stays zero; ringgit is returned unchanged; a known currency is
   * multiplied by its rate; an unknown one is returned unchanged (a 1:1 rate).
   */
  function ConvertToMyr(amount: real, fromCurrency: Option<string>): (r: real)
    ensures NormalizeCurrencyCode(fromCurrency) !in ExchangeRates ==> r == amount
  {
    ConvertCode(amount, NormalizeCurrencyCode(fromCurrency))
  }

  /**
   * The factor a code converts at: the rate `get_live_exchange_rate` finds for it, or 1 when it
   * finds none.
   */
  function CodeFactor(code: string): (f: real)
    ensures f > 0.0
    ensures TableRate(code).Some? ==> f == TableRate(code).value
    ensures TableRate(code).None? ==> f == 1.0
  {
    match TableRate(code)
    case Some(rate) => rate
    case None => 1.0
  }

  /** Conversion keeps the sign of the amount. */
  lemma ConvertKeepsSign(amount: real, code: string)
    ensures amount > 0.0 <==> ConvertCode(amount, code) > 0.0
    ensures amount == 0.0 <==> ConvertCode(amount, code) == 0.0
  {
  }

  /** Conversion preserves the order of amounts in the same currency. */
  lemma ConvertMonotone(a: real, b: real, code: string)
    requires a <= b
    ensures ConvertCode(a, code) <= ConvertCode(b, code)
  {
    var f := CodeFactor(code);
    assert b * f - a * f == (b - a) * f >= 0.0;
  }

  /** A currency worth at least a ringgit converts a positive amount to no less than itself; yuan to less. */
  lemma ConvertAgainstAmount(amount: real, code: string)
    requires amount > 0.0
    ensures CodeFactor(code) >= 1.0 ==> ConvertCode(amount, code) >= amount
    ensures code == "CNY" ==> ConvertCode(amount, code) < amount
  {
    var f := CodeFactor(code);
    assert f >= 1.0 ==> amount * f - amount == amount * (f - 1.0) >= 0.0;
    if code == "CNY" {
      assert f == 0.65;
    }
  }

  /** A converted amount is ringgit: converting it again as ringgit changes nothing. */
  lemma ConvertIdempotentInMyr(amount: real, code: string)
    ensures ConvertCode(ConvertCode(amount, code), "MYR") == ConvertCode(amount, code)
  {
  }

  /** `format_currency_myr`: "RM " and the amount with two decimals and comma groups. */
  function FormatCurrencyMyr(amount: real): (r: string)
    ensures StartsWith(r, "RM ")
  {
    var text := if amount == 0.0 then "0.00" else FormatFixed(amount, 2, true);
    assert ("RM " + text)[..3] == "RM ";
    "RM " + text
  }

  /** The special case for zero renders exactly what the general rendering would. */
  lemma FormatZeroIsGeneral()
    ensures FormatCurrencyMyr(0.0) == "RM " + FormatFixed(0.0, 2, true)
  {
    assert Scaled(0.0, 2) == 0 by {
      assert Unshift(0.0, 2) == 0.0;
    }
    assert NatToString(DropDigits(0, 2)) == "0";
    assert Group("0") == "0";
    assert PaddedDigits(0, 2) == "00";
  }

  /** The rendering of any amount: "RM " followed by the general fixed-point rendering. */
  lemma FormatCurrencyMyrIsFixed(amount: real)
    ensures FormatCurrencyMyr(amount) == "RM " + FormatFixed(amount, 2, true)
  {
    if amount == 0.0 {
      FormatZeroIsGeneral();
    }
  }

  /** Reading the digits and dots back out of a rendering gives the rendered (rounded) magnitude. */
  lemma FormatCurrencyMyrReadsBack(amount: real)
    ensures ParseMantissa(KeepDigitsAndDots(FormatCurrencyMyr(amount))).Some?
    ensures ParseMantissa(KeepDigitsAndDots(FormatCurrencyMyr(amount))).value == Rounded(amount, 2)
  {
    var fixed := FormatFixed(amount, 2, true);
    FormatCurrencyMyrIsFixed(amount);
    KeepDigitsAndDotsAppend("RM ", fixed);
    assert KeepDigitsAndDots("RM ") == [] by {
      assert "RM "[1..] == "M " && "M "[1..] == " " && " "[1..] == [];
    }
    assert [] + KeepDigitsAndDots(fixed) == KeepDigitsAndDots(fixed);
    FormatFixedReadsBack(amount, 2, true);
  }

  /** `to_rm`: convert, then render. */
  function ToRm(amount: real, currency: Option<string>): (r: string)
    ensures StartsWith(r, "RM ")
  {
    FormatCurrencyMyr(ConvertToMyr(amount, currency))
  }

  /** The amount `to_rm` shows reads back as the converted amount rounded to cents. */
  lemma ToRmReadsBack(amount: real, currency: Option<string>)
    ensures ParseMantissa(KeepDigitsAndDots(ToRm(amount, currency))).Some?
    ensures ParseMantissa(KeepDigitsAndDots(ToRm(amount, currency))).value == Rounded(ConvertToMyr(amount, currency), 2)
  {
    FormatCurrencyMyrReadsBack(ConvertToMyr(amount, currency));
  }

  /** For ringgit, `to_rm` is just the rendering. */
  lemma ToRmOfMyr(amount: real)
    ensures ToRm(amount, Some("MYR")) == FormatCurrencyMyr(amount)
  {
    ConvertMyrIsIdentity(amount);
  }

  /** A non-zero amount in a canonical code the table knows, other than ringgit, is multiplied by its rate. */
  lemma ConvertKnownCode(amount: real, code: string)
    requires amount != 0.0 && code != "MYR" && code in ExchangeRates
    requires IsUpperCased(code) && IsStripped(code) && code != "RM" && code != []
    ensures ConvertToMyr(amount, Some(code)) == amount * ExchangeRates[code]
  {
    UpperOfUpperCased(code);
    StripOfStripped(code);
  }

  /** An amount already in ringgit converts to itself. */
  lemma ConvertMyrIsIdentity(amount: real)
    ensures ConvertToMyr(amount, Some("MYR")) == amount
  {
    assert Upper("MYR") == "MYR";
    StripOfStripped("MYR");
    assert NormalizeCurrencyCode(Some("MYR")) == "MYR";
    assert ConvertCode(amount, "MYR") == amount;
  }
}
