/**
 * What every scraper shares: the dictionary a scrape returns, the first-match rule of selector
 * chains, price extraction from page text, and the page-fetch retry schedule.
 */
module ScraperBase {
  import opened Options
  import opened Text
  import opened Numbers
  import opened Values
  import opened Currency
  import opened Records

  /**
   * The dictionary a scraper returns: the price (`None` when the scraper found none), the
   * currency, availability, seller and quantity entries as looked up with `dict.get`, and the URL.
   */
  datatype ScrapedData = ScrapedData(
    price: Option<Dec>,
    currency: Field<string>,
    availability: Field<string>,
    seller: Field<string>,
    quantity: Field<Value>,
    productUrl: string)

  /** The fields every scraper is built with. */
  datatype ScraperConfig = ScraperConfig(platform: Platform, delay: nat)

  /** `BaseScraper.__init__`: the platform and the delay are kept as given. */
  function NewScraper(platform: Platform, delay: nat): (s: ScraperConfig)
    ensures s.platform == platform && s.delay == delay
  {
    ScraperConfig(platform, delay)
  }

  // ------------------------------------------------------- selector chains

  /** The position of the first selector that matched, `|found|` when none did. */
  function FirstPresentIndex(found: seq<Option<string>>): (i: nat)
    ensures i <= |found|
    ensures i < |found| ==> found[i].Some?
    ensures forall j :: 0 <= j < i ==> found[j].None?
  {
    if found == [] || found[0].Some? then 0
    else
      var rest := FirstPresentIndex(found[1..]);
      assert forall j :: 1 <= j < |found| ==> found[j] == found[1..][j - 1];
      rest + 1
  }

  /**
   * `find(a) or find(b) or ...`: the text of the first selector that matched. A matched element
   * is always truthy, even when its text is empty.
   */
  function FirstPresent(found: seq<Option<string>>): (r: Option<string>)
    ensures r.None? <==> forall i :: 0 <= i < |found| ==> found[i].None?
    ensures r.Some? ==> (exists i :: 0 <= i < |found| && found[i].Some? && found[i].value == r.value &&
                          forall j :: 0 <= j < i ==> found[j].None?)
  {
    var i := FirstPresentIndex(found);
    if i < |found| then found[i] else None
  }

  /** The lower-cased text of a stock element mentions "out of stock" or "sold out". */
  predicate SaysOutOfStock(text: string) {
    Contains(Lower(text), "out of stock") || Contains(Lower(text), "sold out")
  }

  /** Lower-casing distributes over concatenation. */
  lemma LowerAppend(a: string, b: string)
    ensures Lower(a + b) == Lower(a) + Lower(b)
  {
  }

  /** Text whose lower-cased form has `word` inside, at any place, contains it once lower-cased. */
  lemma LowerContainsWord(a: string, word: string, b: string)
    requires Lower(word) == word
    ensures Contains(Lower(a + word + b), word)
  {
    LowerAppend(a + word, b);
    LowerAppend(a, word);
    var w := Lower(a) + word + Lower(b);
    assert w[|a|..|a| + |word|] == word;
    assert OccursAt(w, word, |a|);
  }

  // ------------------------------------------------------- price extraction

  /** At least one character of `s` is a digit. */
  predicate HasDigit(s: string) {
    exists i :: 0 <= i < |s| && IsDigit(s[i])
  }

  /** No two characters of `s` are both '.'. */
  predicate AtMostOneDot(s: string) {
    forall i, j :: 0 <= i < j < |s| && s[i] == '.' ==> s[j] != '.'
  }

  /**
   * A string of digits and dots reads as a decimal exactly when it holds a digit and at most one dot.
   */
  lemma MantissaOfDigitsAndDots(s: string)
    requires forall i :: 0 <= i < |s| ==> IsDigitOrDot(s[i])
    ensures ParseMantissa(s).Some? <==> HasDigit(s) && AtMostOneDot(s)
  {
    match FindChar(s, '.')
    case None =>
      assert AllDigits(s);
      if s != [] {
        assert IsDigit(s[0]);
      }
    case Some(i) =>
      var whole, frac := s[..i], s[i + 1..];
      assert AllDigits(whole) by {
        forall j | 0 <= j < |whole| ensures IsDigit(whole[j]) {
          assert whole[j] == s[j] && s[j] != '.';
        }
      }
      assert forall j :: 0 <= j < |frac| ==> frac[j] == s[i + 1 + j];
      if AtMostOneDot(s) {
        assert AllDigits(frac) by {
          forall j | 0 <= j < |frac| ensures IsDigit(frac[j]) {
            assert s[i + 1 + j] != '.';
          }
        }
        if HasDigit(s) {
          var d :| 0 <= d < |s| && IsDigit(s[d]);
          assert d != i;
          assert |whole| + |frac| > 0;
        }
      } else {
        var a, b :| 0 <= a < b < |s| && s[a] == '.' && s[b] == '.';
        assert a >= i && b > i;
        assert frac[b - i - 1] == '.';
      }
  }

  /** The filter keeps a digit exactly when the text has one. */
  lemma {:induction false} KeepDigitsAndDotsHasDigit(s: string)
    ensures HasDigit(KeepDigitsAndDots(s)) <==> HasDigit(s)
    decreases |s|
  {
    if s != [] {
      KeepDigitsAndDotsHasDigit(s[1..]);
      var head := if IsDigitOrDot(s[0]) then [s[0]] else [];
      var rest := KeepDigitsAndDots(s[1..]);
      assert KeepDigitsAndDots(s) == head + rest;
      assert forall i :: 0 <= i < |rest| ==> (head + rest)[|head| + i] == rest[i];
      assert forall i :: 1 <= i < |s| ==> s[i] == s[1..][i - 1];
      if HasDigit(s) {
        var d :| 0 <= d < |s| && IsDigit(s[d]);
        if d == 0 {
          assert (head + rest)[0] == s[0];
        } else {
          assert IsDigit(s[1..][d - 1]);
        }
      }
      if HasDigit(head + rest) {
        var d :| 0 <= d < |head + rest| && IsDigit((head + rest)[d]);
        if d < |head| {
          assert IsDigit(s[0]);
        } else {
          assert IsDigit(rest[d - |head|]);
        }
      }
    }
  }

  /** The outcome of `extract_price`: no text, a value, or the decimal conversion error it does not catch. */
  datatype PriceText = NoText | Parsed(amount: real) | ConversionError

  /**
   * `BaseScraper.extract_price`: missing or empty text gives `None`; otherwise every character other
   * than a digit or '.' is dropped and the rest is read as a `Decimal`. A failed reading raises
   * `InvalidOperation`, which is not among the caught `ValueError` and `TypeError`.
   */
  function ExtractPrice(text: Option<string>): (r: PriceText)
    ensures r.NoText? <==> text.None? || text.value == []
    ensures r.Parsed? ==> r.amount >= 0.0
  {
    if text.None? || text.value == [] then NoText
    else
      var kept := KeepDigitsAndDots(text.value);
      ParseDecimalOfDigitsAndDots(kept);
      match ParseDecimal(kept)
      case Some(Fin(v)) => Parsed(v)
      case _ => ConversionError
  }

  /** On non-empty text, `extract_price` is the filtered text read as a plain decimal mantissa. */
  lemma ExtractPriceIsMantissa(text: string)
    requires text != []
    ensures ExtractPrice(Some(text)) ==
              match ParseMantissa(KeepDigitsAndDots(text))
              case None => ConversionError
              case Some(v) => Parsed(v)
  {
    ParseDecimalOfDigitsAndDots(KeepDigitsAndDots(text));
  }

  /**
   * Non-empty text fails to convert exactly when, once filtered, it has no digit or more than one
   * dot; otherwise the value is the filtered text read as a decimal.
   */
  lemma ExtractPriceOutcome(text: string)
    requires text != []
    ensures ExtractPrice(Some(text)).ConversionError? <==>
              !HasDigit(text) || !AtMostOneDot(KeepDigitsAndDots(text))
    ensures ExtractPrice(Some(text)).Parsed? ==>
              ParseMantissa(KeepDigitsAndDots(text)).Some? &&
              ExtractPrice(Some(text)).amount == ParseMantissa(KeepDigitsAndDots(text)).value
  {
    var kept := KeepDigitsAndDots(text);
    ExtractPriceIsMantissa(text);
    assert ExtractPrice(Some(text)).ConversionError? <==> ParseMantissa(kept).None?;
    MantissaOfDigitsAndDots(kept);
    KeepDigitsAndDotsHasDigit(text);
  }

  /** A ringgit rendering reads back as the rendered amount: "RM 1,299.00" gives 1299.00. */
  lemma ExtractPriceOfRinggitDisplay(amount: real)
    ensures ExtractPrice(Some(FormatCurrencyMyr(amount))) == Parsed(Rounded(amount, 2))
  {
    var shown := FormatCurrencyMyr(amount);
    assert |shown| >= 3;
    FormatCurrencyMyrReadsBack(amount);
    ExtractPriceIsMantissa(shown);
  }

  // ------------------------------------------------------- retry schedules

  /** The first attempt in `[k, n)` that succeeds, if any. */
  function FirstSuccess(ok: nat -> bool, k: nat, n: int): (r: Option<nat>)
    ensures r.Some? ==> k <= r.value < n && ok(r.value) && forall j :: k <= j < r.value ==> !ok(j)
    ensures r.None? ==> forall j :: k <= j < n ==> !ok(j)
    decreases n - k
  {
    if k >= n then None
    else if ok(k) then Some(k)
    else FirstSuccess(ok, k + 1, n)
  }

  /** Whether page load `k` rendered. */
  function Rendered(render: nat -> Option<string>): nat -> bool {
    (k: nat) => render(k).Some?
  }

  /**
   * The sleeps `get_page_html` performs from attempt `k` on: `delay` before every attempt, and
   * after a failed attempt that is not the last, `delay * (k + 1)` more.
   */
  function PageSleeps(delay: nat, render: nat -> Option<string>, k: nat, n: int): seq<nat>
    decreases n - k
  {
    if k >= n then []
    else if render(k).Some? then [delay]
    else if k < n - 1 then [delay, delay * (k + 1)] + PageSleeps(delay, render, k + 1, n)
    else [delay]
  }

  /** The first success is the first attempt, counted from `k`, that succeeds. */
  lemma {:induction false} FirstSuccessIs(ok: nat -> bool, k: nat, n: int, i: nat)
    requires k <= i < n && ok(i)
    requires forall j :: k <= j < i ==> !ok(j)
    ensures FirstSuccess(ok, k, n) == Some(i)
    decreases i - k
  {
    if k < i {
      FirstSuccessIs(ok, k + 1, n, i);
    }
  }

  /** With no success among the attempts from `k`, there is no first success. */
  lemma {:induction false} FirstSuccessNone(ok: nat -> bool, k: nat, n: int)
    requires forall j :: k <= j < n ==> !ok(j)
    ensures FirstSuccess(ok, k, n).None?
    decreases n - k
  {
    if k < n {
      FirstSuccessNone(ok, k + 1, n);
    }
  }

  /**
   * `BaseScraper.get_page_html`: at most `maxRetries` loads, the HTML of the first one that renders,
   * or `None` when none does. `render(k)` is what load `k` produces (`None` when it raises).
   */
  method GetPageHtml(delay: nat, maxRetries: int, render: nat -> Option<string>)
    returns (html: Option<string>, attempts: nat, sleeps: seq<nat>)
    ensures var first := FirstSuccess(Rendered(render), 0, maxRetries);
            (first.Some? ==> html == render(first.value) && attempts == first.value + 1) &&
            (first.None? ==> html.None? && attempts == if maxRetries > 0 then maxRetries else 0)
    ensures sleeps == PageSleeps(delay, render, 0, maxRetries)
  {
    html, attempts, sleeps := None, 0, [];
    var attempt := 0;
    while attempt < maxRetries
      invariant 0 <= attempt && attempts == attempt
      invariant maxRetries > 0 ==> attempt < maxRetries
      invariant maxRetries <= 0 ==> attempt == 0
      invariant forall j :: 0 <= j < attempt ==> render(j).None?
      invariant sleeps + PageSleeps(delay, render, attempt, maxRetries) == PageSleeps(delay, render, 0, maxRetries)
      decreases maxRetries - attempt
    {
      ghost var rest := PageSleeps(delay, render, attempt, maxRetries);
      var before := sleeps;
      sleeps := sleeps + [delay];
      attempts := attempts + 1;
      var page := render(attempt);
      if page.Some? {
        assert rest == [delay];
        html := page;
        FirstSuccessIs(Rendered(render), 0, maxRetries, attempt);
        return;
      }
      if attempt == maxRetries - 1 {
        assert rest == [delay];
        FirstSuccessNone(Rendered(render), 0, maxRetries);
        return;
      }
      var wait: nat := delay * (attempt + 1);
      assert rest == [delay, wait] + PageSleeps(delay, render, attempt + 1, maxRetries);
      sleeps := sleeps + [wait];
      assert sleeps + PageSleeps(delay, render, attempt + 1, maxRetries) == before + rest;
      attempt := attempt + 1;
    }
    FirstSuccessNone(Rendered(render), 0, maxRetries);
  }

  /** When every load fails, `get_page_html` sleeps twice per attempt but once after the last one. */
  lemma {:induction false} AllFailedSleeps(delay: nat, render: nat -> Option<string>, k: nat, n: int)
    requires k < n
    requires forall j :: k <= j < n ==> render(j).None?
    ensures |PageSleeps(delay, render, k, n)| == 2 * (n - k) - 1
    decreases n - k
  {
    if k < n - 1 {
      AllFailedSleeps(delay, render, k + 1, n);
    }
  }
}
