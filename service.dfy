/**
 * The scraper service: it picks a scraper for a platform, validates what the scraper returns,
 * retries with exponential backoff, stores the first valid price, and runs over every active
 * product and platform.
 */
module Service {
  import opened Options
  import opened Text
  import opened Numbers
  import opened Values
  import opened Records
  import opened ScraperBase
  import opened Vision
  import opened CoreModels
  import opened Products

  // ------------------------------------------------------- scraper choice

  /** The settings the service reads, and what configuring the vision model would do. */
  datatype Settings = Settings(useAiVision: bool, geminiApiKey: string, setup: SetupOutcome)

  /** A scraper instance: the vision scraper, or a selector-based one named by its table key. */
  datatype Scraper = VisionBased(vision: VisionScraper) | Traditional(key: string, config: ScraperConfig)

  /** What `get_scraper` does: a scraper, `None`, or an exception it lets through. */
  datatype Resolution = Resolved(scraper: Scraper) | NoScraper | ResolveRaised(message: string)

  /** The keys of the selector-based scrapers, in the order they are tried. */
  const TraditionalKeys: seq<string> := ["lazada", "ebay", "aliexpress"]

  /** The lower-cased platform name, "" without one. */
  function PlatformKey(platform: Platform): string {
    if platform.name.Some? && platform.name.value != [] then Lower(platform.name.value) else ""
  }

  /** The selector-based scraper for a platform: the first key its name contains. */
  function TableResolution(platform: Platform): (r: Resolution)
    ensures r.NoScraper? <==> forall j :: 0 <= j < |TraditionalKeys| ==> !Contains(PlatformKey(platform), TraditionalKeys[j])
    ensures r.Resolved? ==> r.scraper.Traditional? && r.scraper.key in TraditionalKeys &&
                            Contains(PlatformKey(platform), r.scraper.key) &&
                            r.scraper.config == NewScraper(platform, platform.scrapingDelay)
    ensures r.Resolved? ==> forall j, k :: 0 <= j < k < |TraditionalKeys| && TraditionalKeys[k] == r.scraper.key ==>
                              !Contains(PlatformKey(platform), TraditionalKeys[j])
    ensures !r.ResolveRaised?
  {
    var name := PlatformKey(platform);
    var config := NewScraper(platform, platform.scrapingDelay);
    assert TraditionalKeys[0] == "lazada" && TraditionalKeys[1] == "ebay" && TraditionalKeys[2] == "aliexpress";
    if Contains(name, "lazada") then Resolved(Traditional("lazada", config))
    else if Contains(name, "ebay") then Resolved(Traditional("ebay", config))
    else if Contains(name, "aliexpress") then Resolved(Traditional("aliexpress", config))
    else NoScraper
  }

  /** Whether the vision scraper is tried first. */
  predicate TriesVision(settings: Settings) {
    settings.useAiVision && settings.geminiApiKey != []
  }

  /**
   * `get_scraper`: the vision scraper when it is enabled and has a key, unless constructing it
   * raises `ValueError`, in which case the selector-based table is consulted; any other error
   * propagates.
   */
  function ResolveScraper(platform: Platform, settings: Settings): (r: Resolution)
    ensures !TriesVision(settings) ==> r == TableResolution(platform)
    ensures TriesVision(settings) && settings.setup.SetupOk? ==>
              r.Resolved? && r.scraper.VisionBased? && r.scraper.vision.apiKey == settings.geminiApiKey
    ensures TriesVision(settings) && settings.setup.SetupRaises? && settings.setup.isValueError ==>
              r == TableResolution(platform)
    ensures r.ResolveRaised? <==> TriesVision(settings) && settings.setup.SetupRaises? && !settings.setup.isValueError
  {
    if TriesVision(settings) then
      match NewVisionScraper(platform, platform.scrapingDelay, None, settings.geminiApiKey, settings.setup)
      case VisionReady(s) => Resolved(VisionBased(s))
      case VisionRaised(m) => ResolveRaised(m)
      case VisionValueError => TableResolution(platform)
    else TableResolution(platform)
  }

  /** `ScraperService.get_scraper`, with its loop over the scraper table. */
  method GetScraper(platform: Platform, settings: Settings) returns (r: Resolution)
    ensures r == ResolveScraper(platform, settings)
  {
    if TriesVision(settings) {
      var init := NewVisionScraper(platform, platform.scrapingDelay, None, settings.geminiApiKey, settings.setup);
      match init {
        case VisionReady(s) => return Resolved(VisionBased(s));
        case VisionRaised(m) => return ResolveRaised(m);
        case VisionValueError =>
      }
    }
    var name := PlatformKey(platform);
    var k := 0;
    while k < |TraditionalKeys|
      invariant 0 <= k <= |TraditionalKeys|
      invariant forall j :: 0 <= j < k ==> !Contains(name, TraditionalKeys[j])
    {
      if Contains(name, TraditionalKeys[k]) {
        return Resolved(Traditional(TraditionalKeys[k], NewScraper(platform, platform.scrapingDelay)));
      }
      k := k + 1;
    }
    return NoScraper;
  }

  /** A platform named after two keys gets the one listed first: "lazada" before "ebay". */
  lemma LazadaKeyComesFirst(platform: Platform, settings: Settings)
    requires !TriesVision(settings)
    requires Contains(PlatformKey(platform), "lazada")
    ensures ResolveScraper(platform, settings).Resolved?
    ensures ResolveScraper(platform, settings).scraper == Traditional("lazada", NewScraper(platform, platform.scrapingDelay))
  {
    assert TraditionalKeys[0] == "lazada";
  }

  /** A name containing "ebay" but not "lazada" gets the eBay scraper, even if it names "aliexpress" too. */
  lemma EBayKeyBeforeAliExpress(platform: Platform, settings: Settings)
    requires !TriesVision(settings)
    requires !Contains(PlatformKey(platform), "lazada") && Contains(PlatformKey(platform), "ebay")
    ensures ResolveScraper(platform, settings) == Resolved(Traditional("ebay", NewScraper(platform, platform.scrapingDelay)))
  {
    assert TraditionalKeys[0] == "lazada" && TraditionalKeys[1] == "ebay";
  }

  // ------------------------------------------------------------ validation

  /**
   * The bound `_validate_price_data` compares against: the double nearest 999999999.99, which a
   * `Decimal` is compared with exactly.
   */
  const MaxPrice: real := 999999999.9900000095367431640625

  /** Why scraped data is rejected, or `Valid`. */
  datatype Verdict = Valid | MissingPrice | NotANumber | NotPositive | TooLarge | BadCurrency

  /** `data.get('currency', platform.currency or 'MYR')` */
  function CurrencyOf(data: ScrapedData, platform: Platform): (c: Option<string>)
    ensures data.currency.Absent? ==> c == Some(DefaultCurrency(platform))
    ensures data.currency.Null? ==> c.None?
    ensures data.currency.Has? ==> c == Some(data.currency.value)
  {
    data.currency.GetOr(DefaultCurrency(platform))
  }

  /** A currency is accepted when it is present, non-empty and at most ten characters. */
  predicate AcceptedCurrency(c: Option<string>) {
    c.Some? && c.value != [] && |c.value| <= 10
  }

  /**
   * `_validate_price_data`: a price is required, must be a number (comparing a NaN raises
   * `InvalidOperation`), greater than zero and at most `MaxPrice`; then the currency must be
   * accepted. Overlong availability and seller texts only draw a warning.
   */
  function ValidatePriceData(data: ScrapedData, platform: Platform): (v: Verdict)
    ensures v == Valid <==> data.price.Some? && data.price.value.Fin? &&
                            0.0 < data.price.value.value <= MaxPrice && AcceptedCurrency(CurrencyOf(data, platform))
    ensures v == MissingPrice <==> data.price.None?
    ensures v == NotANumber <==> data.price == Some(NaN)
    ensures v == NotPositive <==> data.price.Some? && (data.price.value == Inf(false) ||
                                  (data.price.value.Fin? && data.price.value.value <= 0.0))
    ensures v == TooLarge <==> data.price.Some? && (data.price.value == Inf(true) ||
                               (data.price.value.Fin? && data.price.value.value > MaxPrice))
  {
    match data.price
    case None => MissingPrice
    case Some(NaN) => NotANumber
    case Some(Inf(positive)) => if !positive then NotPositive else TooLarge
    case Some(Fin(x)) =>
      if x <= 0.0 then NotPositive
      else if x > MaxPrice then TooLarge
      else if !AcceptedCurrency(CurrencyOf(data, platform)) then BadCurrency
      else Valid
  }

  /** Whole ringgit amounts up to a billion less one pass the price checks. */
  lemma WholeAmountsPass(n: nat)
    requires 0 < n <= 999999999
    ensures 0.0 < n as real <= MaxPrice
  {
  }

  // --------------------------------------------------------------- attempts

  /**
   * What one attempt stores: scraped data that passes validation becomes a record with the
   * validated currency, the "Unknown" and "" defaults for missing availability and seller, the
   * URL and the current time. An availability of `None` makes the insert fail (the column is
   * not nullable), which counts as a failed attempt.
   */
  function AttemptRecord(data: Option<ScrapedData>, product: nat, platform: Platform, url: string, now: int): (r: Option<PriceRecord>)
    ensures r.Some? <==> data.Some? && ValidatePriceData(data.value, platform) == Valid && !data.value.availability.Null?
    ensures r.Some? ==> r.value.product == product && r.value.platform == platform &&
                        r.value.productUrl == Some(url) && r.value.scrapedAt == now
    ensures r.Some? ==> Some(Fin(r.value.price)) == data.value.price && Some(r.value.currency) == CurrencyOf(data.value, platform)
    ensures r.Some? ==> Some(r.value.availability) == data.value.availability.GetOr("Unknown") &&
                        r.value.sellerName == data.value.seller.GetOr("")
  {
    if data.None? || ValidatePriceData(data.value, platform) != Valid || data.value.availability.Null? then None
    else
      var d := data.value;
      Some(PriceRecord(product, platform, d.price.value.value, CurrencyOf(d, platform).value, Some(url), now,
                       d.availability.GetOr("Unknown").value, d.seller.GetOr("")))
  }

  /** A stored record passes the model's own price and currency checks; only its availability may be too long. */
  lemma StoredRecordIsClean(data: Option<ScrapedData>, product: nat, platform: Platform, url: string, now: int)
    requires AttemptRecord(data, product, platform, url, now).Some?
    ensures var r := AttemptRecord(data, product, platform, url, now).value;
            Clean(r).None? || Clean(r) == Some(AvailabilityTooLong)
    ensures var r := AttemptRecord(data, product, platform, url, now).value;
            0.0 < r.price <= MaxPrice && r.currency != []
  {
  }

  /** A scraper reporting no availability never gets a record stored, however valid its price. */
  lemma NullAvailabilityFails(d: ScrapedData, product: nat, platform: Platform, url: string, now: int)
    requires d.availability.Null?
    ensures AttemptRecord(Some(d), product, platform, url, now).None?
  {
  }

  /** `2 ** k` */
  function Pow2(k: nat): (p: nat)
    ensures p >= 1
  {
    if k == 0 then 1 else 2 * Pow2(k - 1)
  }

  /** Whether attempt `k` stores a record. */
  function StoresAt(fetch: nat -> Option<ScrapedData>, product: nat, platform: Platform, url: string, now: int): nat -> bool {
    (k: nat) => AttemptRecord(fetch(k), product, platform, url, now).Some?
  }

  /** The waits from attempt `k` on: `2 ** k` seconds after every failed attempt but the last. */
  function BackoffWaits(ok: nat -> bool, k: nat, n: int): seq<nat>
    decreases n - k
  {
    if k >= n || ok(k) then []
    else if k < n - 1 then [Pow2(k)] + BackoffWaits(ok, k + 1, n)
    else []
  }

  /** When every attempt from `k` fails, the waits are `2 ** k`, `2 ** (k + 1)`, ... up to the one before the last attempt. */
  lemma {:induction false} AllFailedWaits(ok: nat -> bool, k: nat, n: int)
    requires k < n
    requires forall j :: k <= j < n ==> !ok(j)
    ensures |BackoffWaits(ok, k, n)| == n - k - 1
    ensures forall i :: 0 <= i < n - k - 1 ==> BackoffWaits(ok, k, n)[i] == Pow2(k + i)
    decreases n - k
  {
    if k < n - 1 {
      AllFailedWaits(ok, k + 1, n);
      var rest := BackoffWaits(ok, k + 1, n);
      assert BackoffWaits(ok, k, n) == [Pow2(k)] + rest;
      forall i | 0 < i < n - k - 1 ensures BackoffWaits(ok, k, n)[i] == Pow2(k + i) {
        assert BackoffWaits(ok, k, n)[i] == rest[i - 1];
      }
    }
  }

  /** The sum of a sequence of waits. */
  function Total(w: seq<nat>): nat {
    if w == [] then 0 else w[0] + Total(w[1..])
  }

  /** When all `n >= 1` attempts fail, the service waits `2 ** (n - 1) - 1` seconds in all. */
  lemma {:induction false} AllFailedTotalWait(ok: nat -> bool, k: nat, n: int)
    requires k < n
    requires forall j :: k <= j < n ==> !ok(j)
    ensures Total(BackoffWaits(ok, k, n)) + Pow2(k) == Pow2(n - 1)
    decreases n - k
  {
    if k < n - 1 {
      AllFailedTotalWait(ok, k + 1, n);
      assert BackoffWaits(ok, k, n) == [Pow2(k)] + BackoffWaits(ok, k + 1, n);
      assert ([Pow2(k)] + BackoffWaits(ok, k + 1, n))[1..] == BackoffWaits(ok, k + 1, n);
    }
  }

  // ------------------------------------------------------ one platform

  /** What `scrape_product_for_platform` produces: no price, a stored record, or an exception. */
  datatype PlatformResult = NoPrice | Price(record: PriceRecord) | Raised(message: string)

  /** `product_url` is present, non-empty and starts with "http". */
  predicate UrlAccepted(url: Option<string>) {
    url.Some? && url.value != [] && StartsWith(url.value, "http")
  }

  /** Whether the retry loop is reached: an active platform, an accepted URL and a scraper. */
  predicate ReachesRetries(platform: Platform, url: Option<string>, settings: Settings) {
    platform.isActive && UrlAccepted(url) && ResolveScraper(platform, settings).Resolved?
  }

  /**
   * `scrape_product_for_platform`: nothing for an inactive platform, a rejected URL or a platform
   * without a scraper; the scraper-construction error when one propagates; otherwise the record
   * of the first of `maxRetries` attempts that stores one. `fetch(k)` is what the chosen
   * scraper's `scrape_product` returns on attempt `k` (`None` also when it raises).
   */
  function PlatformOutcome(product: nat, platform: Platform, url: Option<string>, settings: Settings,
                           maxRetries: int, fetch: nat -> Option<ScrapedData>, now: int): (r: PlatformResult)
    ensures !platform.isActive || !UrlAccepted(url) ==> r == NoPrice
    ensures r.Raised? <==> platform.isActive && UrlAccepted(url) && ResolveScraper(platform, settings).ResolveRaised?
    ensures r.Price? ==> ReachesRetries(platform, url, settings) &&
                         exists k :: 0 <= k < maxRetries && AttemptRecord(fetch(k), product, platform, url.value, now) == Some(r.record)
    ensures ReachesRetries(platform, url, settings) ==>
              (r.Price? <==> exists k :: 0 <= k < maxRetries && StoresAt(fetch, product, platform, url.value, now)(k))
  {
    if !platform.isActive || !UrlAccepted(url) then NoPrice
    else match ResolveScraper(platform, settings)
      case NoScraper => NoPrice
      case ResolveRaised(m) => Raised(m)
      case Resolved(_) =>
        match FirstSuccess(StoresAt(fetch, product, platform, url.value, now), 0, maxRetries)
        case None => NoPrice
        case Some(k) => Price(AttemptRecord(fetch(k), product, platform, url.value, now).value)
  }

  /** The record stored for a platform is for that product, platform and URL, and passes validation. */
  lemma PlatformPriceIsValid(product: nat, platform: Platform, url: Option<string>, settings: Settings,
                             maxRetries: int, fetch: nat -> Option<ScrapedData>, now: int)
    requires PlatformOutcome(product, platform, url, settings, maxRetries, fetch, now).Price?
    ensures var r := PlatformOutcome(product, platform, url, settings, maxRetries, fetch, now).record;
            r.product == product && r.platform == platform && r.productUrl == url && r.scrapedAt == now &&
            0.0 < r.price <= MaxPrice && 0 < |r.currency| <= 10
  {
    var r := PlatformOutcome(product, platform, url, settings, maxRetries, fetch, now).record;
    var k :| 0 <= k < maxRetries && AttemptRecord(fetch(k), product, platform, url.value, now) == Some(r);
    StoredRecordIsClean(fetch(k), product, platform, url.value, now);
  }

  /**
   * The retry loop of `scrape_product_for_platform`: at most `maxRetries` calls of the scraper,
   * with a wait of `2 ** k` seconds after every failed attempt `k` but the last; the first
   * record that can be stored is saved to `table`.
   */
  method RetryAttempts(table: PriceTable, product: nat, platform: Platform, url: string,
                       maxRetries: int, fetch: nat -> Option<ScrapedData>, now: int)
    returns (record: Option<PriceRecord>, calls: nat, waits: seq<nat>)
    modifies table
    ensures var first := FirstSuccess(StoresAt(fetch, product, platform, url, now), 0, maxRetries);
            (first.Some? ==> record == AttemptRecord(fetch(first.value), product, platform, url, now) &&
                             calls == first.value + 1) &&
            (first.None? ==> record.None? && calls == if maxRetries > 0 then maxRetries else 0)
    ensures record.Some? ==> table.rows == old(table.rows) + [record.value]
    ensures record.None? ==> table.rows == old(table.rows)
    ensures waits == BackoffWaits(StoresAt(fetch, product, platform, url, now), 0, maxRetries)
  {
    calls, waits := 0, [];
    ghost var ok := StoresAt(fetch, product, platform, url, now);
    var attempt := 0;
    while attempt < maxRetries
      invariant 0 <= attempt && calls == attempt
      invariant maxRetries > 0 ==> attempt < maxRetries
      invariant maxRetries <= 0 ==> attempt == 0
      invariant forall j :: 0 <= j < attempt ==> !ok(j)
      invariant waits + BackoffWaits(ok, attempt, maxRetries) == BackoffWaits(ok, 0, maxRetries)
      invariant table.rows == old(table.rows)
      decreases maxRetries - attempt
    {
      calls := calls + 1;
      record := AttemptRecord(fetch(attempt), product, platform, url, now);
      assert ok(attempt) == record.Some?;
      if record.Some? {
        var _ := table.Save(record.value);
        FirstSuccessIs(ok, 0, maxRetries, attempt);
        assert BackoffWaits(ok, attempt, maxRetries) == [];
        return;
      }
      if attempt == maxRetries - 1 {
        FirstSuccessNone(ok, 0, maxRetries);
        return;
      }
      var wait := Pow2(attempt);
      ghost var later := BackoffWaits(ok, attempt + 1, maxRetries);
      assert BackoffWaits(ok, attempt, maxRetries) == [wait] + later;
      ghost var before := waits;
      waits := waits + [wait];
      assert waits + later == before + ([wait] + later);
      attempt := attempt + 1;
    }
    FirstSuccessNone(ok, 0, maxRetries);
    record := None;
  }

  /** `ScraperService.scrape_product_for_platform`: the checks, the scraper choice, then the retry loop. */
  method ScrapeProductForPlatform(table: PriceTable, product: nat, platform: Platform, url: Option<string>,
                                  settings: Settings, maxRetries: int, fetch: nat -> Option<ScrapedData>, now: int)
    returns (result: PlatformResult, calls: nat, waits: seq<nat>)
    modifies table
    ensures result == PlatformOutcome(product, platform, url, settings, maxRetries, fetch, now)
    ensures result.Price? ==> table.rows == old(table.rows) + [result.record]
    ensures !result.Price? ==> table.rows == old(table.rows)
    ensures !ReachesRetries(platform, url, settings) ==> calls == 0 && waits == []
    ensures ReachesRetries(platform, url, settings) ==>
              var first := FirstSuccess(StoresAt(fetch, product, platform, url.value, now), 0, maxRetries);
              (first.Some? ==> calls == first.value + 1) &&
              (first.None? ==> calls == if maxRetries > 0 then maxRetries else 0) &&
              waits == BackoffWaits(StoresAt(fetch, product, platform, url.value, now), 0, maxRetries)
  {
    calls, waits := 0, [];
    if !platform.isActive || !UrlAccepted(url) {
      return NoPrice, calls, waits;
    }
    var scraper := GetScraper(platform, settings);
    match scraper {
      case NoScraper => return NoPrice, calls, waits;
      case ResolveRaised(m) => return Raised(m), calls, waits;
      case Resolved(_) =>
    }
    var record;
    record, calls, waits := RetryAttempts(table, product, platform, url.value, maxRetries, fetch, now);
    result := if record.Some? then Price(record.value) else NoPrice;
  }

  // ----------------------------------------------------------- one product

  /** A product as the service sees it. */
  datatype ProductRef = ProductRef(id: nat, name: Option<string>, isActive: bool)

  /** Record `r` is of product `product` on platform `platform`. */
  predicate OfPair(r: PriceRecord, product: nat, platform: nat) {
    r.product == product && r.platform.id == platform
  }

  /**
   * `ProductPrice.objects.filter(product=..., platform=...).order_by('-scraped_at').first()`: the
   * newest record of the pair, the first saved among equally new ones.
   */
  function NewestOf(rows: seq<PriceRecord>, product: nat, platform: nat): (r: Option<PriceRecord>)
    ensures r.Some? ==> r.value in rows && OfPair(r.value, product, platform)
    ensures r.None? ==> forall i :: 0 <= i < |rows| ==> !OfPair(rows[i], product, platform)
    decreases |rows|
  {
    if rows == [] then None
    else
      var rest := NewestOf(rows[1..], product, platform);
      if OfPair(rows[0], product, platform) && (rest.None? || rest.value.scrapedAt <= rows[0].scrapedAt) then Some(rows[0])
      else rest
  }

  /** The newest record is a record of the pair, no other is newer, and it exists exactly when one does. */
  lemma {:induction false} NewestOfIsNewest(rows: seq<PriceRecord>, product: nat, platform: nat)
    ensures NewestOf(rows, product, platform).None? <==> forall x :: x in rows ==> !OfPair(x, product, platform)
    ensures NewestOf(rows, product, platform).Some? ==>
              var r := NewestOf(rows, product, platform).value;
              r in rows && OfPair(r, product, platform) &&
              forall x :: x in rows && OfPair(x, product, platform) ==> x.scrapedAt <= r.scrapedAt
    decreases |rows|
  {
    if rows != [] {
      NewestOfIsNewest(rows[1..], product, platform);
      assert forall x :: x in rows <==> x == rows[0] || x in rows[1..];
    }
  }

  /** Among equally new records of the pair, the one saved first is chosen. */
  lemma {:induction false} NewestOfPrefersEarlier(rows: seq<PriceRecord>, product: nat, platform: nat, i: nat)
    requires i < |rows| && OfPair(rows[i], product, platform)
    requires forall j :: 0 <= j < |rows| && OfPair(rows[j], product, platform) ==> rows[j].scrapedAt <= rows[i].scrapedAt
    requires forall j :: 0 <= j < i && OfPair(rows[j], product, platform) ==> rows[j].scrapedAt < rows[i].scrapedAt
    ensures NewestOf(rows, product, platform) == Some(rows[i])
    decreases |rows|
  {
    var tail := rows[1..];
    if i == 0 {
      NewestOfIsNewest(tail, product, platform);
      if NewestOf(tail, product, platform).Some? {
        var r := NewestOf(tail, product, platform).value;
        assert r in tail;
        var k :| 0 <= k < |tail| && tail[k] == r;
        assert rows[k + 1] == r;
      }
    } else {
      forall j | 0 <= j < |tail| && OfPair(tail[j], product, platform)
        ensures tail[j].scrapedAt <= tail[i - 1].scrapedAt
      {
        assert tail[j] == rows[j + 1];
      }
      NewestOfPrefersEarlier(tail, product, platform, i - 1);
    }
  }

  /** The URL `scrape_product` uses: that of the newest record of the pair, unless it is missing or empty. */
  function StoredUrl(rows: seq<PriceRecord>, product: nat, platform: nat): (u: Option<string>)
    ensures u.Some? ==> u.value != [] && NewestOf(rows, product, platform).Some? &&
                        u == NewestOf(rows, product, platform).value.productUrl
    ensures NewestOf(rows, product, platform).None? ==> u.None?
  {
    match NewestOf(rows, product, platform)
    case None => None
    case Some(r) => if r.productUrl.Some? && r.productUrl.value != [] then r.productUrl else None
  }

  /** The attempts of the scraper for `product` on `platform`. */
  function FetchFor(fetch: (nat, nat, nat) -> Option<ScrapedData>, product: nat, platform: nat): nat -> Option<ScrapedData> {
    (k: nat) => fetch(product, platform, k)
  }

  /** The table after a product's platforms, the records created, and the exception that ended the run, if any. */
  datatype ProductRun = ProductRun(rows: seq<PriceRecord>, created: seq<PriceRecord>, raised: Option<string>)

  /** A record made for `product` at time `now` with a validated price. */
  predicate MadeFor(r: PriceRecord, product: nat, now: int) {
    r.product == product && 0.0 < r.price <= MaxPrice && r.scrapedAt == now
  }

  /** One platform of the loop: skipped without a stored URL, else scraped with three attempts. */
  function PlatformStep(rows: seq<PriceRecord>, product: nat, p: Platform, settings: Settings,
                        fetch: (nat, nat, nat) -> Option<ScrapedData>, now: int): (r: PlatformResult)
    ensures r.Price? ==> MadeFor(r.record, product, now) && r.record.platform == p
    ensures StoredUrl(rows, product, p.id).None? ==> r == NoPrice
  {
    var url := StoredUrl(rows, product, p.id);
    if url.None? then NoPrice
    else
      var r := PlatformOutcome(product, p, url, settings, 3, FetchFor(fetch, product, p.id), now);
      if r.Price? then
        PlatformPriceIsValid(product, p, url, settings, 3, FetchFor(fetch, product, p.id), now);
        r
      else r
  }

  /** The platform step of the loop for one product, as a function of the table so far and the platform. */
  function StepOf(product: nat, settings: Settings, fetch: (nat, nat, nat) -> Option<ScrapedData>, now: int):
    (seq<PriceRecord>, Platform) -> PlatformResult
  {
    (rows: seq<PriceRecord>, p: Platform) => PlatformStep(rows, product, p, settings, fetch, now)
  }

  /**
   * The platform loop of `scrape_product` from `platforms[0]` on, each platform handled by `step`:
   * a stored record is appended to the table, an exception ends the loop at once.
   */
  function PlatformsFrom(rows: seq<PriceRecord>, platforms: seq<Platform>,
                         step: (seq<PriceRecord>, Platform) -> PlatformResult): (run: ProductRun)
    ensures run.rows == rows + run.created
    ensures |run.created| <= |platforms|
    decreases |platforms|
  {
    if platforms == [] then ProductRun(rows, [], None)
    else match step(rows, platforms[0])
      case NoPrice => PlatformsFrom(rows, platforms[1..], step)
      case Raised(m) => ProductRun(rows, [], Some(m))
      case Price(r) =>
        var after := PlatformsFrom(rows + [r], platforms[1..], step);
        assert (rows + [r]) + after.created == rows + ([r] + after.created);
        ProductRun(after.rows, [r] + after.created, after.raised)
  }

  /** Every record the platform loop creates is made for the product, on one of the platforms, with a valid price. */
  lemma {:induction false} PlatformsFromMadeFor(rows: seq<PriceRecord>, product: nat, platforms: seq<Platform>,
                                                settings: Settings, fetch: (nat, nat, nat) -> Option<ScrapedData>, now: int)
    ensures forall r :: r in PlatformsFrom(rows, platforms, StepOf(product, settings, fetch, now)).created ==>
              MadeFor(r, product, now) && r.platform in platforms
    decreases |platforms|
  {
    if platforms != [] {
      var step := StepOf(product, settings, fetch, now);
      var first := step(rows, platforms[0]);
      assert first == PlatformStep(rows, product, platforms[0], settings, fetch, now);
      match first
      case NoPrice =>
        PlatformsFromMadeFor(rows, product, platforms[1..], settings, fetch, now);
      case Raised(_) =>
      case Price(r) =>
        PlatformsFromMadeFor(rows + [r], product, platforms[1..], settings, fetch, now);
    }
  }

  /** `created[i]` is on platform `pos[i]` of `platforms`, and the positions strictly increase. */
  ghost predicate FromPositions(created: seq<PriceRecord>, platforms: seq<Platform>, pos: seq<nat>) {
    |pos| == |created| &&
    (forall i :: 0 <= i < |pos| ==> pos[i] < |platforms| && created[i].platform == platforms[pos[i]]) &&
    (forall i, j :: 0 <= i < j < |pos| ==> pos[i] < pos[j])
  }

  /** The positions one further along, for the same records against one more platform in front. */
  lemma ShiftPositions(created: seq<PriceRecord>, platforms: seq<Platform>, pos: seq<nat>) returns (shifted: seq<nat>)
    requires platforms != [] && FromPositions(created, platforms[1..], pos)
    ensures FromPositions(created, platforms, shifted)
    ensures forall i :: 0 <= i < |shifted| ==> shifted[i] > 0
  {
    shifted := seq(|pos|, i requires 0 <= i < |pos| => pos[i] + 1);
    forall i | 0 <= i < |shifted|
      ensures shifted[i] < |platforms| && created[i].platform == platforms[shifted[i]]
    {
      assert platforms[1..][pos[i]] == platforms[pos[i] + 1];
    }
  }

  /**
   * The platform loop creates its records in platform order, each from a later platform than the one
   * before: at most one record per platform.
   */
  lemma {:induction false} PlatformsFromInOrder(rows: seq<PriceRecord>, product: nat, platforms: seq<Platform>,
                                                settings: Settings, fetch: (nat, nat, nat) -> Option<ScrapedData>, now: int)
    ensures exists pos :: FromPositions(PlatformsFrom(rows, platforms, StepOf(product, settings, fetch, now)).created, platforms, pos)
    decreases |platforms|
  {
    var step := StepOf(product, settings, fetch, now);
    if platforms == [] {
      assert FromPositions(PlatformsFrom(rows, platforms, step).created, platforms, []);
    } else {
      var first := step(rows, platforms[0]);
      assert first == PlatformStep(rows, product, platforms[0], settings, fetch, now);
      match first
      case NoPrice =>
        PlatformsFromInOrder(rows, product, platforms[1..], settings, fetch, now);
        var created := PlatformsFrom(rows, platforms[1..], step).created;
        var pos: seq<nat> :| FromPositions(created, platforms[1..], pos);
        var shifted := ShiftPositions(created, platforms, pos);
        assert PlatformsFrom(rows, platforms, step).created == created;
      case Raised(_) =>
        assert FromPositions(PlatformsFrom(rows, platforms, step).created, platforms, []);
      case Price(r) =>
        PlatformsFromInOrder(rows + [r], product, platforms[1..], settings, fetch, now);
        var created := PlatformsFrom(rows + [r], platforms[1..], step).created;
        var pos: seq<nat> :| FromPositions(created, platforms[1..], pos);
        var shifted := ShiftPositions(created, platforms, pos);
        assert PlatformsFrom(rows, platforms, step).created == [r] + created;
        PrependPosition(r, created, platforms, shifted);
    }
  }

  /** A record of the first platform goes in front of records from later platforms. */
  lemma PrependPosition(r: PriceRecord, created: seq<PriceRecord>, platforms: seq<Platform>, shifted: seq<nat>)
    requires platforms != [] && r.platform == platforms[0]
    requires FromPositions(created, platforms, shifted) && forall i :: 0 <= i < |shifted| ==> shifted[i] > 0
    ensures FromPositions([r] + created, platforms, [0] + shifted)
  {
    var all, pos := [r] + created, [0] + shifted;
    forall i | 0 < i < |pos|
      ensures pos[i] < |platforms| && all[i].platform == platforms[pos[i]]
    {
      assert pos[i] == shifted[i - 1] && all[i] == created[i - 1];
    }
  }

  /** No two platforms share an id. */
  predicate DistinctIds(platforms: seq<Platform>) {
    forall a, b :: 0 <= a < b < |platforms| ==> platforms[a].id != platforms[b].id
  }

  /** No two records are on the same platform. */
  predicate OnePerPlatform(created: seq<PriceRecord>) {
    forall i, j :: 0 <= i < j < |created| ==> created[i].platform.id != created[j].platform.id
  }

  /** With pairwise distinct platform ids, no two records of the loop share a platform. */
  lemma PlatformsFromDistinct(rows: seq<PriceRecord>, product: nat, platforms: seq<Platform>,
                              settings: Settings, fetch: (nat, nat, nat) -> Option<ScrapedData>, now: int)
    requires DistinctIds(platforms)
    ensures OnePerPlatform(PlatformsFrom(rows, platforms, StepOf(product, settings, fetch, now)).created)
  {
    PlatformsFromInOrder(rows, product, platforms, settings, fetch, now);
    var created := PlatformsFrom(rows, platforms, StepOf(product, settings, fetch, now)).created;
    var pos: seq<nat> :| FromPositions(created, platforms, pos);
    forall i, j | 0 <= i < j < |created|
      ensures created[i].platform.id != created[j].platform.id
    {
      assert pos[i] < pos[j];
    }
  }

  /** `scrape_product`: nothing for an inactive product, else the loop over the active platforms. */
  function ProductOutcome(rows: seq<PriceRecord>, product: ProductRef, platforms: seq<Platform>, settings: Settings,
                          fetch: (nat, nat, nat) -> Option<ScrapedData>, now: int): (run: ProductRun)
    ensures !product.isActive ==> run == ProductRun(rows, [], None)
    ensures run.rows == rows + run.created
  {
    if !product.isActive then ProductRun(rows, [], None)
    else PlatformsFrom(rows, ActiveOnly(platforms, PlatformIsActive), StepOf(product.id, settings, fetch, now))
  }

  /** The records `scrape_product` creates are for the product, on active platforms, with valid prices. */
  lemma ProductOutcomeMadeFor(rows: seq<PriceRecord>, product: ProductRef, platforms: seq<Platform>, settings: Settings,
                              fetch: (nat, nat, nat) -> Option<ScrapedData>, now: int)
    ensures forall r :: r in ProductOutcome(rows, product, platforms, settings, fetch, now).created ==>
              MadeFor(r, product.id, now) && r.platform.isActive && r.platform in platforms
  {
    if product.isActive {
      PlatformsFromMadeFor(rows, product.id, ActiveOnly(platforms, PlatformIsActive), settings, fetch, now);
    }
  }

  /** With pairwise distinct platform ids, `scrape_product` creates at most one record per platform. */
  lemma ProductOutcomeDistinct(rows: seq<PriceRecord>, product: ProductRef, platforms: seq<Platform>, settings: Settings,
                               fetch: (nat, nat, nat) -> Option<ScrapedData>, now: int)
    requires DistinctIds(platforms)
    ensures OnePerPlatform(ProductOutcome(rows, product, platforms, settings, fetch, now).created)
  {
    if product.isActive {
      ActivePlatformsDistinct(platforms);
      PlatformsFromDistinct(rows, product.id, ActiveOnly(platforms, PlatformIsActive), settings, fetch, now);
    }
  }

  /** Filtering out inactive platforms keeps their ids distinct. */
  lemma ActivePlatformsDistinct(platforms: seq<Platform>)
    requires DistinctIds(platforms)
    ensures DistinctIds(ActiveOnly(platforms, PlatformIsActive))
  {
    var active := ActiveOnly(platforms, PlatformIsActive);
    ActiveOnlyKeepsDistinct(platforms, PlatformIsActive, (p: Platform) => p.id);
    assert forall a, b :: 0 <= a < b < |active| ==> active[a].id != active[b].id;
  }

  /** One platform of `scrape_product`: the URL lookup, then `scrape_product_for_platform` with three attempts. */
  method ScrapePlatform(table: PriceTable, product: nat, p: Platform, settings: Settings,
                        fetch: (nat, nat, nat) -> Option<ScrapedData>, now: int)
    returns (result: PlatformResult)
    modifies table
    ensures result == StepOf(product, settings, fetch, now)(old(table.rows), p)
    ensures result.Price? ==> table.rows == old(table.rows) + [result.record]
    ensures !result.Price? ==> table.rows == old(table.rows)
  {
    var url := StoredUrl(table.rows, product, p.id);
    if url.None? {
      return NoPrice;
    }
    var calls, waits;
    result, calls, waits := ScrapeProductForPlatform(table, product, p, url, settings, 3, FetchFor(fetch, product, p.id), now);
  }

  /** `ScraperService.scrape_product`, over the stored records in `table`. */
  method ScrapeProduct(table: PriceTable, product: ProductRef, platforms: seq<Platform>, settings: Settings,
                       fetch: (nat, nat, nat) -> Option<ScrapedData>, now: int)
    returns (created: seq<PriceRecord>, raised: Option<string>)
    modifies table
    ensures ProductRun(table.rows, created, raised) == ProductOutcome(old(table.rows), product, platforms, settings, fetch, now)
  {
    created, raised := [], None;
    if !product.isActive {
      return;
    }
    created, raised := ScrapePlatforms(table, product.id, ActiveOnly(platforms, PlatformIsActive), settings, fetch, now);
  }

  /** The `for platform in platforms` loop of `scrape_product`, over the active platforms. */
  method ScrapePlatforms(table: PriceTable, product: nat, active: seq<Platform>, settings: Settings,
                         fetch: (nat, nat, nat) -> Option<ScrapedData>, now: int)
    returns (created: seq<PriceRecord>, raised: Option<string>)
    modifies table
    ensures ProductRun(table.rows, created, raised) == PlatformsFrom(old(table.rows), active, StepOf(product, settings, fetch, now))
  {
    created, raised := [], None;
    ghost var step := StepOf(product, settings, fetch, now);
    ghost var whole := PlatformsFrom(table.rows, active, step);
    assert [] + whole.created == whole.created;
    assert active[0..] == active;
    var i := 0;
    while i < |active|
      invariant 0 <= i <= |active|
      invariant RunSoFar(whole, table.rows, active[i..], created, step)
    {
      ghost var rows0 := table.rows;
      var result := ScrapePlatform(table, product, active[i], settings, fetch, now);
      RunAdvances(whole, rows0, active[i..], created, step, result);
      assert active[i..][1..] == active[i + 1..];
      match result {
        case Raised(m) =>
          raised := Some(m);
          return;
        case Price(r) =>
          created := created + [r];
        case NoPrice =>
      }
      i := i + 1;
    }
    assert active[i..] == [];
  }

  /** The loop of `scrape_product` has created `created`, and `whole` is what the rest of it completes. */
  ghost predicate RunSoFar(whole: ProductRun, rows: seq<PriceRecord>, rest: seq<Platform>, created: seq<PriceRecord>,
                           step: (seq<PriceRecord>, Platform) -> PlatformResult)
  {
    var r := PlatformsFrom(rows, rest, step);
    whole == ProductRun(r.rows, created + r.created, r.raised)
  }

  /** One platform of the loop keeps `RunSoFar`, or ends the run with the platform's exception. */
  lemma RunAdvances(whole: ProductRun, rows: seq<PriceRecord>, rest: seq<Platform>, created: seq<PriceRecord>,
                    step: (seq<PriceRecord>, Platform) -> PlatformResult, result: PlatformResult)
    requires rest != [] && RunSoFar(whole, rows, rest, created, step)
    requires result == step(rows, rest[0])
    ensures result.Raised? ==> whole == ProductRun(rows, created, Some(result.message))
    ensures result.NoPrice? ==> RunSoFar(whole, rows, rest[1..], created, step)
    ensures result.Price? ==> RunSoFar(whole, rows + [result.record], rest[1..], created + [result.record], step)
  {
    PlatformsFromUnfold(rows, rest, step);
    if result.Price? {
      var after := PlatformsFrom(rows + [result.record], rest[1..], step);
      assert created + ([result.record] + after.created) == (created + [result.record]) + after.created;
    } else if result.Raised? {
      assert created + [] == created;
    }
  }

  /** The first platform of a non-empty list, then the rest. */
  lemma PlatformsFromUnfold(rows: seq<PriceRecord>, platforms: seq<Platform>,
                            step: (seq<PriceRecord>, Platform) -> PlatformResult)
    requires platforms != []
    ensures step(rows, platforms[0]).NoPrice? ==>
              PlatformsFrom(rows, platforms, step) == PlatformsFrom(rows, platforms[1..], step)
    ensures step(rows, platforms[0]).Raised? ==>
              PlatformsFrom(rows, platforms, step) == ProductRun(rows, [], Some(step(rows, platforms[0]).message))
    ensures step(rows, platforms[0]).Price? ==>
              var r := step(rows, platforms[0]).record;
              var after := PlatformsFrom(rows + [r], platforms[1..], step);
              PlatformsFrom(rows, platforms, step) == ProductRun(after.rows, [r] + after.created, after.raised)
  {
  }

  // ---------------------------------------------------------- all products

  /** The result dictionary of `scrape_all_products`. */
  datatype Summary = Summary(totalProducts: nat, scrapedProducts: nat, totalPrices: nat, errors: seq<string>)

  /** `ActiveOnly` keeps the products for which this holds. */
  predicate ProductIsActive(p: ProductRef) {
    p.isActive
  }

  /** The error entry for a product whose scrape raised. */
  function ErrorEntry(name: Option<string>, message: string): (e: string)
    ensures StartsWith(e, "Error scraping ")
  {
    var shown := Shown(name);
    assert ("Error scraping " + shown + ": " + message)[..15] == "Error scraping ";
    "Error scraping " + shown + ": " + message
  }

  /** The table and the counters of `scrape_all_products` so far. */
  datatype BatchRun = BatchRun(rows: seq<PriceRecord>, scraped: nat, prices: nat, errors: seq<string>)

  /** `scrape_product` for every product, as a function of the table so far and the product. */
  function ProductStepOf(platforms: seq<Platform>, settings: Settings, fetch: (nat, nat, nat) -> Option<ScrapedData>, now: int):
    (seq<PriceRecord>, ProductRef) -> ProductRun
  {
    (rows: seq<PriceRecord>, p: ProductRef) => ProductOutcome(rows, p, platforms, settings, fetch, now)
  }

  /**
   * The counters after one product: a product that raised adds an error entry (the records it
   * stored before raising stay in the table uncounted); one that yields records counts once and
   * adds its records to the total.
   */
  function Tally(b: BatchRun, product: ProductRef, run: ProductRun): (t: BatchRun)
    ensures t.rows == run.rows
    ensures run.raised.Some? ==> t == BatchRun(run.rows, b.scraped, b.prices, b.errors + [ErrorEntry(product.name, run.raised.value)])
    ensures run.raised.None? ==> t.errors == b.errors && t.prices == b.prices + |run.created| &&
                                 t.scraped == b.scraped + (if run.created == [] then 0 else 1)
  {
    if run.raised.Some? then BatchRun(run.rows, b.scraped, b.prices, b.errors + [ErrorEntry(product.name, run.raised.value)])
    else if run.created != [] then BatchRun(run.rows, b.scraped + 1, b.prices + |run.created|, b.errors)
    else BatchRun(run.rows, b.scraped, b.prices, b.errors)
  }

  /**
   * The product loop of `scrape_all_products` from `b` on, each product handled by `step`. The
   * loop counts each product at most once, as scraped or as an error, and a scraped product
   * adds at least one price.
   */
  function ProductsFrom(b: BatchRun, products: seq<ProductRef>,
                        step: (seq<PriceRecord>, ProductRef) -> ProductRun): (r: BatchRun)
    ensures (r.scraped - b.scraped) + (|r.errors| - |b.errors|) <= |products|
    ensures b.scraped <= r.scraped && r.scraped - b.scraped <= r.prices - b.prices
    ensures |b.errors| <= |r.errors| && r.errors[..|b.errors|] == b.errors
    decreases |products|
  {
    if products == [] then b
    else ProductsFrom(Tally(b, products[0], step(b.rows, products[0])), products[1..], step)
  }

  /**
   * Over `scrape_product`, the table only grows, the price total grows by at most the number of
   * records added, and by exactly that number while no product raises.
   */
  lemma {:induction false} ProductsFromRows(b: BatchRun, products: seq<ProductRef>, platforms: seq<Platform>,
                                            settings: Settings, fetch: (nat, nat, nat) -> Option<ScrapedData>, now: int)
    ensures var r := ProductsFrom(b, products, ProductStepOf(platforms, settings, fetch, now));
            |b.rows| <= |r.rows| && r.rows[..|b.rows|] == b.rows && r.prices - b.prices <= |r.rows| - |b.rows| &&
            (r.errors == b.errors ==> r.prices - b.prices == |r.rows| - |b.rows|)
    decreases |products|
  {
    if products != [] {
      var step := ProductStepOf(platforms, settings, fetch, now);
      var run := step(b.rows, products[0]);
      assert run == ProductOutcome(b.rows, products[0], platforms, settings, fetch, now);
      var t := Tally(b, products[0], run);
      ProductsFromRows(t, products[1..], platforms, settings, fetch, now);
      var r := ProductsFrom(t, products[1..], step);
      assert r.rows[..|b.rows|] == b.rows by {
        assert r.rows[..|t.rows|] == t.rows;
        assert t.rows[..|b.rows|] == b.rows;
      }
      if r.errors == b.errors {
        assert |t.errors| <= |r.errors|;
      }
    }
  }

  /** One product of `scrape_all_products`: `scrape_product` as `step` describes it. */
  method ScrapeOneProduct(table: PriceTable, product: ProductRef, platforms: seq<Platform>, settings: Settings,
                          fetch: (nat, nat, nat) -> Option<ScrapedData>, now: int,
                          ghost step: (seq<PriceRecord>, ProductRef) -> ProductRun)
    returns (run: ProductRun)
    modifies table
    ensures (forall rows: seq<PriceRecord>, p: ProductRef {:trigger ProductOutcome(rows, p, platforms, settings, fetch, now)} ::
               step(rows, p) == ProductOutcome(rows, p, platforms, settings, fetch, now)) ==>
            run == step(old(table.rows), product)
    ensures table.rows == run.rows
  {
    var created, raised := ScrapeProduct(table, product, platforms, settings, fetch, now);
    run := ProductRun(table.rows, created, raised);
  }

  /** The product loop of `scrape_all_products` over `active`, each product handled as `step` describes. */
  method ScrapeProducts(table: PriceTable, active: seq<ProductRef>, platforms: seq<Platform>, settings: Settings,
                        fetch: (nat, nat, nat) -> Option<ScrapedData>, now: int,
                        ghost step: (seq<PriceRecord>, ProductRef) -> ProductRun)
    returns (summary: Summary)
    requires forall rows: seq<PriceRecord>, p: ProductRef {:trigger ProductOutcome(rows, p, platforms, settings, fetch, now)} ::
               step(rows, p) == ProductOutcome(rows, p, platforms, settings, fetch, now)
    modifies table
    ensures var b := ProductsFrom(BatchRun(old(table.rows), 0, 0, []), active, step);
            table.rows == b.rows && summary == Summary(|active|, b.scraped, b.prices, b.errors)
  {
    ghost var whole := ProductsFrom(BatchRun(table.rows, 0, 0, []), active, step);
    summary := Summary(|active|, 0, 0, []);
    var i := 0;
    while i < |active|
      invariant 0 <= i <= |active|
      invariant summary.totalProducts == |active|
      invariant ProductsFrom(BatchRun(table.rows, summary.scrapedProducts, summary.totalPrices, summary.errors),
                             active[i..], step) == whole
    {
      ghost var before := BatchRun(table.rows, summary.scrapedProducts, summary.totalPrices, summary.errors);
      assert active[i..][1..] == active[i + 1..];
      assert ProductsFrom(before, active[i..], step)
          == ProductsFrom(Tally(before, active[i], step(before.rows, active[i])), active[i + 1..], step);
      var run := ScrapeOneProduct(table, active[i], platforms, settings, fetch, now, step);
      if run.raised.Some? {
        summary := summary.(errors := summary.errors + [ErrorEntry(active[i].name, run.raised.value)]);
      } else if run.created != [] {
        summary := summary.(scrapedProducts := summary.scrapedProducts + 1,
                            totalPrices := summary.totalPrices + |run.created|);
      }
      assert Tally(before, active[i], run) == BatchRun(table.rows, summary.scrapedProducts, summary.totalPrices, summary.errors);
      i := i + 1;
    }
  }

  /** `ScraperService.scrape_all_products` over the active products, in their stored order. */
  method ScrapeAllProducts(table: PriceTable, products: seq<ProductRef>, platforms: seq<Platform>, settings: Settings,
                           fetch: (nat, nat, nat) -> Option<ScrapedData>, now: int)
    returns (summary: Summary)
    modifies table
    ensures var active := ActiveOnly(products, ProductIsActive);
            var b := ProductsFrom(BatchRun(old(table.rows), 0, 0, []), active, ProductStepOf(platforms, settings, fetch, now));
            table.rows == b.rows && summary == Summary(|active|, b.scraped, b.prices, b.errors)
  {
    var active := ActiveOnly(products, ProductIsActive);
    summary := ScrapeProducts(table, active, platforms, settings, fetch, now, ProductStepOf(platforms, settings, fetch, now));
  }

  /** The summary's counters are bounded by the number of active products and the records added. */
  lemma SummaryBounds(rows: seq<PriceRecord>, products: seq<ProductRef>, platforms: seq<Platform>, settings: Settings,
                      fetch: (nat, nat, nat) -> Option<ScrapedData>, now: int)
    ensures var active := ActiveOnly(products, ProductIsActive);
            var b := ProductsFrom(BatchRun(rows, 0, 0, []), active, ProductStepOf(platforms, settings, fetch, now));
            b.scraped + |b.errors| <= |active| && b.scraped <= b.prices <= |b.rows| - |rows|
  {
    ProductsFromRows(BatchRun(rows, 0, 0, []), ActiveOnly(products, ProductIsActive), platforms, settings, fetch, now);
  }
}
