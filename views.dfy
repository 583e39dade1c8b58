/**
 * The product detail page: the price summary sentence it shows under the latest prices, and
 * the seven-day price history it groups by platform for the chart.
 */
module Views {
  import opened Options
  import opened Text
  import opened Numbers
  import opened Currency
  import opened Records
  import opened CoreModels
  import opened Products

  // ----------------------------------------------------------- the summary

  const NoDataText: string := "No price data available."
  const SavePrefix: string := "You can save approximately "
  const MinimalText: string := "Price difference is minimal"

  /** How far below the average the lowest price lies, in percent of the average; 0 unless the average is positive. */
  function SavingsPercent(average: real, lowestPrice: real): (pct: real)
    ensures average > 0.0 ==> pct * average == (average - lowestPrice) * 100.0
    ensures average > 0.0 ==> (pct > 10.0 <==> lowestPrice < 0.9 * average)
    ensures average <= 0.0 ==> pct == 0.0
  {
    if average > 0.0 then
      var pct := (average - lowestPrice) / average * 100.0;
      assert pct * average == (average - lowestPrice) * 100.0;
      assert pct > 10.0 <==> pct * average > 10.0 * average by {
        assert pct * average - 10.0 * average == (pct - 10.0) * average;
      }
      assert (average - lowestPrice) * 100.0 > 10.0 * average <==> lowestPrice < 0.9 * average;
      pct
    else 0.0
  }

  /**
   * The savings text: none unless there are several prices and a non-zero average; otherwise the
   * percentage, with one decimal, when it exceeds 10, and a note that the difference is minimal
   * when it does not.
   */
  function Savings(count: nat, average: Option<real>, lowestPrice: real): (s: string)
    ensures s == [] <==> !(count > 1 && average.Some? && average.value != 0.0)
    ensures s != [] ==> (StartsWith(s, SavePrefix) <==> SavingsPercent(average.value, lowestPrice) > 10.0)
    ensures s != [] && !StartsWith(s, SavePrefix) ==> s == MinimalText
  {
    if count > 1 && average.Some? && average.value != 0.0 then
      var pct := SavingsPercent(average.value, lowestPrice);
      if pct > 10.0 then
        assert (SavePrefix + FormatFixed(pct, 1, false) + "%")[..|SavePrefix|] == SavePrefix;
        SavePrefix + FormatFixed(pct, 1, false) + "%"
      else
        assert MinimalText[0] != SavePrefix[0];
        MinimalText
    else []
  }

  /** A stated percentage reads back, from its digits, as the percentage rounded to one decimal. */
  lemma SavingsReadsBack(count: nat, average: Option<real>, lowestPrice: real)
    requires StartsWith(Savings(count, average, lowestPrice), SavePrefix)
    ensures var s := Savings(count, average, lowestPrice);
            var number := s[|SavePrefix|..|s| - 1];
            s[|s| - 1] == '%' &&
            ParseMantissa(KeepDigitsAndDots(number)) == Some(Rounded(SavingsPercent(average.value, lowestPrice), 1))
  {
    var pct := SavingsPercent(average.value, lowestPrice);
    var t := FormatFixed(pct, 1, false);
    assert MinimalText[0] != SavePrefix[0];
    var s := SavePrefix + t + "%";
    assert s[|SavePrefix|..|s| - 1] == t;
    FormatFixedReadsBack(pct, 1, false);
  }

  /** The price as the summary shows it: "RM" or "$" in front for ringgit and dollars, else the code behind. */
  function PriceText(price: real, currency: string): (t: string)
    ensures currency == "MYR" ==> t == "RM" + FormatFixed(price, 2, false)
    ensures currency == "USD" ==> t == "$" + FormatFixed(price, 2, false)
    ensures currency != "MYR" && currency != "USD" ==> t == FormatFixed(price, 2, false) + " " + currency
  {
    if currency == "MYR" then "RM" + FormatFixed(price, 2, false)
    else if currency == "USD" then "$" + FormatFixed(price, 2, false)
    else FormatFixed(price, 2, false) + " " + currency
  }

  /** The sentence naming the lowest price and its platform. */
  function LowestSentence(lowest: PriceRecord): string {
    var currency := if lowest.currency != [] then lowest.currency else "MYR";
    "Current lowest price is " + PriceText(lowest.price, currency) + ", recommended to buy from " +
    Shown(lowest.platform.name) + "."
  }

  /** The sentence followed by the savings text, when there is one, as a sentence of its own. */
  function WithSavings(sentence: string, savings: string): string {
    if savings != [] then sentence + " " + savings + "." else sentence
  }

  /**
   * `generate_price_summary(product, latest_prices, lowest_price, average_price)`: the savings
   * percentage compares the lowest record's own price with the average, which is in ringgit.
   */
  function GeneratePriceSummary(latest: seq<PriceRecord>, lowest: Option<PriceRecord>, average: Option<real>): (r: string)
    ensures r == NoDataText <==> latest == [] || lowest.None?
    ensures latest != [] && lowest.Some? ==> StartsWith(r, LowestSentence(lowest.value))
  {
    if latest == [] || lowest.None? then NoDataText
    else
      var savings := Savings(|latest|, average, lowest.value.price);
      SentenceComesFirst(lowest.value, savings);
      WithSavings(LowestSentence(lowest.value), savings)
  }

  /** The summary with the lowest record's ringgit value compared with the ringgit average. */
  function GeneratePriceSummaryInMyr(latest: seq<PriceRecord>, lowest: Option<PriceRecord>, average: Option<real>): (r: string)
    ensures r == NoDataText <==> latest == [] || lowest.None?
    ensures latest != [] && lowest.Some? ==> StartsWith(r, LowestSentence(lowest.value))
  {
    if latest == [] || lowest.None? then NoDataText
    else
      var savings := Savings(|latest|, average, PriceInMyr(lowest.value));
      SentenceComesFirst(lowest.value, savings);
      WithSavings(LowestSentence(lowest.value), savings)
  }

  /** A summary built on the lowest-price sentence starts with it and is not the no-data text. */
  lemma SentenceComesFirst(lowest: PriceRecord, savings: string)
    ensures StartsWith(WithSavings(LowestSentence(lowest), savings), LowestSentence(lowest))
    ensures WithSavings(LowestSentence(lowest), savings) != NoDataText
  {
    var sentence := LowestSentence(lowest);
    var r := WithSavings(sentence, savings);
    assert sentence[0] == 'C' && NoDataText[0] == 'N';
    assert r[0] == sentence[0];
    assert r[..|sentence|] == sentence;
  }

  /** With a single latest price, or a zero average, the summary is the lowest-price sentence alone. */
  lemma NoSavingsSentence(latest: seq<PriceRecord>, lowest: PriceRecord, average: Option<real>)
    requires latest != []
    requires |latest| == 1 || average.None? || average.value == 0.0
    ensures GeneratePriceSummary(latest, Some(lowest), average) == LowestSentence(lowest)
  {
  }

  /**
   * With several latest prices and a non-zero average, the summary states the percentage when
   * the lowest price lies more than 10 % below the average, and calls the difference minimal
   * otherwise.
   */
  lemma SavingsThreshold(latest: seq<PriceRecord>, lowest: PriceRecord, average: real)
    requires |latest| > 1 && average != 0.0
    ensures var r := GeneratePriceSummary(latest, Some(lowest), Some(average));
            var savings := Savings(|latest|, Some(average), lowest.price);
            r == LowestSentence(lowest) + " " + savings + "." &&
            (StartsWith(savings, SavePrefix) <==> average > 0.0 && lowest.price < 0.9 * average) &&
            (!StartsWith(savings, SavePrefix) ==> savings == MinimalText)
  {
  }

  /** A record whose currency is "RM" is shown with the code behind the amount, not with the "RM" prefix. */
  lemma RinggitSpelledRm(price: real)
    ensures PriceText(price, "RM") == FormatFixed(price, 2, false) + " RM"
  {
  }

  /** When the lowest record is in ringgit, comparing its own price or its ringgit value gives the same summary. */
  lemma InMyrAgreesForRinggit(latest: seq<PriceRecord>, lowest: PriceRecord, average: Option<real>)
    requires NormalizeCurrencyCode(Some(lowest.currency)) == "MYR"
    ensures GeneratePriceSummaryInMyr(latest, Some(lowest), average) == GeneratePriceSummary(latest, Some(lowest), average)
  {
    assert PriceInMyr(lowest) == lowest.price;
  }

  /** Multiplying by a positive number keeps the sign. */
  lemma SignOfFactor(x: real, a: real)
    requires a > 0.0
    ensures x * a > 0.0 ==> x > 0.0
    ensures x * a >= 0.0 ==> x >= 0.0
  {
  }

  /** A lowest value that is positive and at most the average is less than 100 % below it. */
  lemma PercentInRange(average: real, lowestValue: real)
    requires 0.0 < lowestValue <= average
    ensures 0.0 <= SavingsPercent(average, lowestValue) < 100.0
  {
    var pct := SavingsPercent(average, lowestValue);
    SignOfFactor(pct, average);
    SignOfFactor(100.0 - pct, average);
    assert (100.0 - pct) * average == 100.0 * lowestValue;
  }

  /**
   * What the detail page passes in: the latest records, the lowest of them and their average.
   * Compared in ringgit, the percentage is never negative, and below 100 when prices are positive.
   */
  lemma InMyrPercentInRange(latest: seq<PriceRecord>)
    requires latest != []
    requires forall x :: x in latest ==> x.price > 0.0
    ensures 0.0 <= SavingsPercent(Average(latest).value, PriceInMyr(Lowest(latest).value)) < 100.0
  {
    AverageBetweenLowestAndHighest(latest);
    PercentInRange(Average(latest).value, PriceInMyr(Lowest(latest).value));
  }

  /**
   * A dollar price of 10 (46.70 ringgit) next to a ringgit price of 50: the lowest record is the
   * dollar one and the average is 48.35 ringgit. Compared as written (10 against 48.35) the
   * summary promises savings of about 79 %; compared in ringgit the difference is 3.4 %, which
   * is minimal.
   */
  lemma MixedCurrencyOverstatesSavings()
    ensures var usd := PriceRecord(1, Platform(1, Some("eBay"), Some("USD"), true, 0), 10.0, "USD", None, 0, "In Stock", None);
            var myr := PriceRecord(1, Platform(2, Some("Lazada"), Some("MYR"), true, 0), 50.0, "MYR", None, 0, "In Stock", None);
            var latest := [usd, myr];
            Lowest(latest) == Some(usd) && Average(latest) == Some(48.35) &&
            StartsWith(Savings(|latest|, Average(latest), usd.price), SavePrefix) &&
            Savings(|latest|, Average(latest), PriceInMyr(usd)) == MinimalText
  {
    var usd := PriceRecord(1, Platform(1, Some("eBay"), Some("USD"), true, 0), 10.0, "USD", None, 0, "In Stock", None);
    var myr := PriceRecord(1, Platform(2, Some("Lazada"), Some("MYR"), true, 0), 50.0, "MYR", None, 0, "In Stock", None);
    DollarInMyr(usd);
    ConvertMyrIsIdentity(50.0);
    LowestAndAverageOfPair(usd, myr);
    assert (46.7 + 50.0) / 2.0 == 48.35;
    ExampleSavingsTexts();
  }

  /** Ten dollars are 46.70 ringgit. */
  lemma DollarInMyr(r: PriceRecord)
    requires r.price == 10.0 && r.currency == "USD"
    ensures PriceInMyr(r) == 46.7
  {
    assert IsUpperCased("USD") && IsStripped("USD");
    assert "USD" != "MYR" && "USD" != "RM" by {
      assert "USD"[0] != "MYR"[0] && "USD"[0] != "RM"[0];
    }
    assert "USD" in ExchangeRates && ExchangeRates["USD"] == 4.67;
    ConvertKnownCode(10.0, "USD");
  }

  /** Of two records, the one of smaller ringgit value is the lowest, and the average is the mean of both. */
  lemma LowestAndAverageOfPair(a: PriceRecord, b: PriceRecord)
    requires PriceInMyr(a) < PriceInMyr(b)
    ensures Lowest([a, b]) == Some(a)
    ensures Average([a, b]) == Some((PriceInMyr(a) + PriceInMyr(b)) / 2.0)
  {
    LowestOfPair(a, b);
    AverageOfPair(a, b);
  }

  lemma LowestOfPair(a: PriceRecord, b: PriceRecord)
    requires PriceInMyr(a) < PriceInMyr(b)
    ensures Lowest([a, b]) == Some(a)
  {
    var keys := MyrPrices([a, b]);
    KeysOfPair(a, b);
    FirstOfPairIsLeast(keys[0], keys[1]);
    assert Lowest([a, b]) == Some([a, b][ArgMin(keys)]);
  }

  lemma AverageOfPair(a: PriceRecord, b: PriceRecord)
    ensures Average([a, b]) == Some((PriceInMyr(a) + PriceInMyr(b)) / 2.0)
  {
    var keys := MyrPrices([a, b]);
    KeysOfPair(a, b);
    SumOfPair(keys[0], keys[1]);
    assert Sum(keys) == keys[0] + keys[1];
  }

  lemma KeysOfPair(a: PriceRecord, b: PriceRecord)
    ensures MyrPrices([a, b]) == [PriceInMyr(a), PriceInMyr(b)]
  {
    var keys := MyrPrices([a, b]);
    assert keys[0] == PriceInMyr(a) && keys[1] == PriceInMyr(b);
  }

  /** The lesser of two keys, when it comes first, is where `min` stops. */
  lemma FirstOfPairIsLeast(x: real, y: real)
    requires x < y
    ensures ArgMin([x, y]) == 0
  {
  }

  lemma SumOfPair(x: real, y: real)
    ensures Sum([x, y]) == x + y
  {
    assert [x, y][..1] == [x] && [x][..0] == [];
    assert Sum([x]) == Sum([]) + x == x;
    assert Sum([x, y]) == Sum([x]) + y;
  }

  /** Against an average of 48.35, a price of 10 is a saving worth stating and one of 46.70 is not. */
  lemma ExampleSavingsTexts()
    ensures StartsWith(Savings(2, Some(48.35), 10.0), SavePrefix)
    ensures Savings(2, Some(48.35), 46.7) == MinimalText
  {
    assert 10.0 < 0.9 * 48.35;
    assert !(46.7 < 0.9 * 48.35);
  }

  // ------------------------------------------------------------- the chart

  /** The chart covers the seven days before now, in seconds. */
  const WeekSeconds: int := 7 * 86400

  /** Record `r` is of `product` and taken at or after `since`. */
  predicate InWindow(r: PriceRecord, product: nat, since: int) {
    r.product == product && r.scrapedAt >= since
  }

  /** `ProductPrice.objects.filter(product=product, scraped_at__gte=since)`, in saved order. */
  function Window(rows: seq<PriceRecord>, product: nat, since: int): (w: seq<PriceRecord>)
    ensures forall x :: x in w <==> x in rows && InWindow(x, product, since)
    ensures multiset(w) <= multiset(rows)
    decreases |rows|
  {
    if rows == [] then []
    else
      var rest := Window(rows[1..], product, since);
      assert rows == [rows[0]] + rows[1..];
      if InWindow(rows[0], product, since) then [rows[0]] + rest else rest
  }

  /** Ascending `scraped_at`. */
  predicate SortedByDate(s: seq<PriceRecord>) {
    forall i, j :: 0 <= i < j < |s| ==> s[i].scrapedAt <= s[j].scrapedAt
  }

  /** `r` placed into `s` after the leading records that are not newer than it. */
  function InsertByDate(r: PriceRecord, s: seq<PriceRecord>): (t: seq<PriceRecord>)
    ensures multiset(t) == multiset(s) + multiset{r}
    ensures forall x :: x in t <==> x in s || x == r
    decreases |s|
  {
    if s == [] then [r]
    else if r.scrapedAt < s[0].scrapedAt then [r] + s
    else
      assert s == [s[0]] + s[1..];
      [s[0]] + InsertByDate(r, s[1..])
  }

  /** The tail of a sorted sequence is sorted and not older than its head. */
  lemma SortedTail(s: seq<PriceRecord>)
    requires s != [] && SortedByDate(s)
    ensures SortedByDate(s[1..])
    ensures forall x :: x in s[1..] ==> s[0].scrapedAt <= x.scrapedAt
  {
    forall x | x in s[1..] ensures s[0].scrapedAt <= x.scrapedAt {
      var k :| 0 <= k < |s[1..]| && s[1..][k] == x;
      assert s[k + 1] == x;
    }
    forall i, j | 0 <= i < j < |s[1..]| ensures s[1..][i].scrapedAt <= s[1..][j].scrapedAt {
      assert s[1..][i] == s[i + 1] && s[1..][j] == s[j + 1];
    }
  }

  /** A record not newer than any record of a sorted sequence can head it. */
  lemma SortedCons(r: PriceRecord, s: seq<PriceRecord>)
    requires SortedByDate(s)
    requires forall x :: x in s ==> r.scrapedAt <= x.scrapedAt
    ensures SortedByDate([r] + s)
  {
    var t := [r] + s;
    forall i, j | 0 <= i < j < |t| ensures t[i].scrapedAt <= t[j].scrapedAt {
      assert t[j] == s[j - 1];
      if i > 0 {
        assert t[i] == s[i - 1];
      } else {
        assert s[j - 1] in s;
      }
    }
  }

  /** Inserting into a sorted sequence keeps it sorted. */
  lemma {:induction false} InsertKeepsSorted(r: PriceRecord, s: seq<PriceRecord>)
    requires SortedByDate(s)
    ensures SortedByDate(InsertByDate(r, s))
    decreases |s|
  {
    if s != [] {
      if r.scrapedAt < s[0].scrapedAt {
        SortedCons(r, s);
      } else {
        SortedTail(s);
        InsertKeepsSorted(r, s[1..]);
        SortedCons(s[0], InsertByDate(r, s[1..]));
      }
    }
  }

  /** `order_by('scraped_at')`: sorted by date, records of equal date kept in saved order. */
  function SortByDate(s: seq<PriceRecord>): (t: seq<PriceRecord>)
    ensures SortedByDate(t)
    ensures multiset(t) == multiset(s)
    decreases |s|
  {
    if s == [] then []
    else
      var n := |s| - 1;
      assert s == s[..n] + [s[n]];
      InsertKeepsSorted(s[n], SortByDate(s[..n]));
      InsertByDate(s[n], SortByDate(s[..n]))
  }

  /** The price history the chart draws on: the product's records of the last seven days, oldest first. */
  function PriceHistory(rows: seq<PriceRecord>, product: nat, now: int): (h: seq<PriceRecord>)
    ensures SortedByDate(h)
    ensures forall x :: x in h <==> x in rows && InWindow(x, product, now - WeekSeconds)
  {
    var w := Window(rows, product, now - WeekSeconds);
    var h := SortByDate(w);
    assert forall x :: x in h <==> x in multiset(h);
    h
  }

  /** `price_history.filter(platform=platform)`, keeping the history's order. */
  function OnPlatform(h: seq<PriceRecord>, platform: nat): (pp: seq<PriceRecord>)
    ensures forall x :: x in pp <==> x in h && x.platform.id == platform
    decreases |h|
  {
    if h == [] then []
    else
      assert h == [h[0]] + h[1..];
      var rest := OnPlatform(h[1..], platform);
      if h[0].platform.id == platform then [h[0]] + rest else rest
  }

  /** Filtering a sorted history by platform keeps it sorted. */
  lemma {:induction false} OnPlatformKeepsSorted(h: seq<PriceRecord>, platform: nat)
    requires SortedByDate(h)
    ensures SortedByDate(OnPlatform(h, platform))
    decreases |h|
  {
    if h != [] {
      SortedTail(h);
      OnPlatformKeepsSorted(h[1..], platform);
      if h[0].platform.id == platform {
        SortedCons(h[0], OnPlatform(h[1..], platform));
      }
    }
  }

  /** One platform's line of the chart: the dates and the prices of its records. */
  datatype Series = Series(dates: seq<int>, prices: seq<real>)

  function SeriesOf(pp: seq<PriceRecord>): (s: Series)
    ensures |s.dates| == |pp| && |s.prices| == |pp|
    ensures forall i :: 0 <= i < |pp| ==> s.dates[i] == pp[i].scrapedAt && s.prices[i] == pp[i].price
  {
    Series(seq(|pp|, i requires 0 <= i < |pp| => pp[i].scrapedAt), seq(|pp|, i requires 0 <= i < |pp| => pp[i].price))
  }

  /** The chart after `platforms`: a line, keyed by name, for each platform with records in the history. */
  function ChartOf(h: seq<PriceRecord>, platforms: seq<Platform>): map<Option<string>, Series>
    decreases |platforms|
  {
    if platforms == [] then map[]
    else
      var chart := ChartOf(h, platforms[..|platforms| - 1]);
      var p := platforms[|platforms| - 1];
      var pp := OnPlatform(h, p.id);
      if pp != [] then chart[p.name := SeriesOf(pp)] else chart
  }

  /**
   * The `chart_data` loop of `ProductDetailView.get_context_data`: for each active platform with
   * records in the seven-day history, its line under the platform's name.
   */
  method ChartData(rows: seq<PriceRecord>, product: nat, platforms: seq<Platform>, now: int)
    returns (chart: map<Option<string>, Series>)
    ensures chart == ChartOf(PriceHistory(rows, product, now), ActiveOnly(platforms, PlatformIsActive))
  {
    var history := PriceHistory(rows, product, now);
    var active := ActiveOnly(platforms, PlatformIsActive);
    chart := map[];
    var i := 0;
    while i < |active|
      invariant 0 <= i <= |active|
      invariant chart == ChartOf(history, active[..i])
    {
      ChartStep(history, active, i);
      var pp := OnPlatform(history, active[i].id);
      if pp != [] {
        chart := chart[active[i].name := SeriesOf(pp)];
      }
      i := i + 1;
    }
    assert active[..|active|] == active;
  }

  /** One more platform adds or replaces its line when it has records, and leaves the chart alone otherwise. */
  lemma ChartStep(h: seq<PriceRecord>, platforms: seq<Platform>, i: nat)
    requires i < |platforms|
    ensures var pp := OnPlatform(h, platforms[i].id);
            ChartOf(h, platforms[..i + 1]) ==
              if pp != [] then ChartOf(h, platforms[..i])[platforms[i].name := SeriesOf(pp)] else ChartOf(h, platforms[..i])
  {
    assert platforms[..i + 1][..i] == platforms[..i];
    assert platforms[..i + 1][i] == platforms[i];
  }

  /** Platform `p` has records in the history. */
  predicate HasRecords(h: seq<PriceRecord>, p: Platform) {
    OnPlatform(h, p.id) != []
  }

  /** The position of the last platform named `name` with records in the history, if any. */
  function LastWithRecords(h: seq<PriceRecord>, platforms: seq<Platform>, name: Option<string>): (k: Option<nat>)
    ensures k.Some? ==> k.value < |platforms| && platforms[k.value].name == name && HasRecords(h, platforms[k.value]) &&
                        forall j :: k.value < j < |platforms| && platforms[j].name == name ==> !HasRecords(h, platforms[j])
    ensures k.None? ==> forall j :: 0 <= j < |platforms| && platforms[j].name == name ==> !HasRecords(h, platforms[j])
    decreases |platforms|
  {
    if platforms == [] then None
    else
      var n := |platforms| - 1;
      assert forall j :: 0 <= j < n ==> platforms[..n][j] == platforms[j];
      if platforms[n].name == name && HasRecords(h, platforms[n]) then Some(n)
      else LastWithRecords(h, platforms[..n], name)
  }

  /**
   * A name is a key of the chart exactly when some platform of that name has records in the
   * history, and its line is that of the last such platform: a later platform of the same name
   * overwrites an earlier one.
   */
  lemma {:induction false} ChartLines(h: seq<PriceRecord>, platforms: seq<Platform>, name: Option<string>)
    ensures name in ChartOf(h, platforms) <==> LastWithRecords(h, platforms, name).Some?
    ensures name in ChartOf(h, platforms) ==>
              ChartOf(h, platforms)[name] == SeriesOf(OnPlatform(h, platforms[LastWithRecords(h, platforms, name).value].id))
    decreases |platforms|
  {
    if platforms != [] {
      var n := |platforms| - 1;
      var p := platforms[n];
      ChartLines(h, platforms[..n], name);
      var k := LastWithRecords(h, platforms[..n], name);
      var before := ChartOf(h, platforms[..n]);
      if p.name == name && HasRecords(h, p) {
        assert LastWithRecords(h, platforms, name) == Some(n);
        assert ChartOf(h, platforms) == before[name := SeriesOf(OnPlatform(h, p.id))];
      } else {
        assert LastWithRecords(h, platforms, name) == k;
        assert name in ChartOf(h, platforms) <==> name in before;
        if k.Some? {
          assert platforms[..n][k.value] == platforms[k.value];
          assert ChartOf(h, platforms)[name] == before[name];
        }
      }
    }
  }

  /** Every line of the chart has as many dates as prices, dates ascending and inside the seven days. */
  lemma ChartLinesAreWellFormed(rows: seq<PriceRecord>, product: nat, platforms: seq<Platform>, now: int, name: Option<string>)
    requires name in ChartOf(PriceHistory(rows, product, now), ActiveOnly(platforms, PlatformIsActive))
    ensures var line := ChartOf(PriceHistory(rows, product, now), ActiveOnly(platforms, PlatformIsActive))[name];
            |line.dates| == |line.prices| > 0 &&
            (forall i, j :: 0 <= i < j < |line.dates| ==> line.dates[i] <= line.dates[j]) &&
            (forall i :: 0 <= i < |line.dates| ==> now - WeekSeconds <= line.dates[i])
  {
    var h := PriceHistory(rows, product, now);
    var active := ActiveOnly(platforms, PlatformIsActive);
    ChartLines(h, active, name);
    var k := LastWithRecords(h, active, name).value;
    var pp := OnPlatform(h, active[k].id);
    OnPlatformKeepsSorted(h, active[k].id);
    forall i | 0 <= i < |pp| ensures now - WeekSeconds <= pp[i].scrapedAt {
      assert pp[i] in pp;
    }
  }

  /** A platform that has a line in the chart is active, and has a record of the product in the seven days. */
  lemma ChartKeyHasRecords(rows: seq<PriceRecord>, product: nat, platforms: seq<Platform>, now: int, name: Option<string>)
    requires name in ChartOf(PriceHistory(rows, product, now), ActiveOnly(platforms, PlatformIsActive))
    ensures exists p, r :: p in platforms && p.isActive && p.name == name &&
                           r in rows && r.platform.id == p.id && InWindow(r, product, now - WeekSeconds)
  {
    var h := PriceHistory(rows, product, now);
    var active := ActiveOnly(platforms, PlatformIsActive);
    ChartLines(h, active, name);
    var i := LastWithRecords(h, active, name).value;
    var r := OnPlatform(h, active[i].id)[0];
    assert r in OnPlatform(h, active[i].id);
    assert active[i] in active;
  }

  /** An active platform with a record of the product in the seven days has a line in the chart. */
  lemma RecordsGiveChartKey(rows: seq<PriceRecord>, product: nat, platforms: seq<Platform>, now: int,
                            p: Platform, r: PriceRecord)
    requires p in platforms && p.isActive
    requires r in rows && r.platform.id == p.id && InWindow(r, product, now - WeekSeconds)
    ensures p.name in ChartOf(PriceHistory(rows, product, now), ActiveOnly(platforms, PlatformIsActive))
  {
    var h := PriceHistory(rows, product, now);
    var active := ActiveOnly(platforms, PlatformIsActive);
    ChartLines(h, active, p.name);
    assert p in active;
    var i :| 0 <= i < |active| && active[i] == p;
    assert r in OnPlatform(h, p.id);
  }

  /** Exactly the active platforms with records of the product in the seven days appear in the chart. */
  lemma ChartKeysAreActivePlatforms(rows: seq<PriceRecord>, product: nat, platforms: seq<Platform>, now: int, name: Option<string>)
    ensures name in ChartOf(PriceHistory(rows, product, now), ActiveOnly(platforms, PlatformIsActive)) <==>
              exists p, r :: p in platforms && p.isActive && p.name == name &&
                             r in rows && r.platform.id == p.id && InWindow(r, product, now - WeekSeconds)
  {
    if name in ChartOf(PriceHistory(rows, product, now), ActiveOnly(platforms, PlatformIsActive)) {
      ChartKeyHasRecords(rows, product, platforms, now, name);
    }
    if exists p, r :: p in platforms && p.isActive && p.name == name &&
                      r in rows && r.platform.id == p.id && InWindow(r, product, now - WeekSeconds) {
      var p, r :| p in platforms && p.isActive && p.name == name &&
                  r in rows && r.platform.id == p.id && InWindow(r, product, now - WeekSeconds);
      RecordsGiveChartKey(rows, product, platforms, now, p, r);
    }
  }
}
