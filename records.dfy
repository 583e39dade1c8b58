/**
 * Platforms and price records: a platform's configuration, one observed price of a product on a
 * platform, its validation, its staleness, its ringgit displays, and the table that stores them.
 */
module Records {
  import opened Options
  import opened Text
  import opened Numbers
  import opened Currency

  /** An e-commerce platform. Its base URL and timestamps play no part in the core. */
  datatype Platform = Platform(
    id: nat,
    name: Option<string>,
    currency: Option<string>,
    isActive: bool,
    scrapingDelay: nat)

  /** `Platform.objects.filter(is_active=True)` keeps the platforms for which this holds. */
  predicate PlatformIsActive(p: Platform) {
    p.isActive
  }

  /** `platform.currency or 'MYR'`: the platform's currency unless it is missing or empty. */
  function DefaultCurrency(p: Platform): (c: string)
    ensures c != []
    ensures p.currency.Some? && p.currency.value != [] ==> c == p.currency.value
  {
    if p.currency.Some? && p.currency.value != [] then p.currency.value else "MYR"
  }

  /** One observed price of product `product` on `platform`, taken at `scrapedAt` (seconds). */
  datatype PriceRecord = PriceRecord(
    product: nat,
    platform: Platform,
    price: real,
    currency: string,
    productUrl: Option<string>,
    scrapedAt: int,
    availability: string,
    sellerName: Option<string>)

  /** The first problem `clean` reports. */
  datatype CleanError = PriceNotPositive | CurrencyTooLong | AvailabilityTooLong

  /** `ProductPrice.clean`: the price must be positive, then the currency and availability short enough. */
  function Clean(r: PriceRecord): (e: Option<CleanError>)
    ensures e.None? <==> r.price > 0.0 && |r.currency| <= 10 && |r.availability| <= 50
    ensures e == Some(PriceNotPositive) <==> r.price <= 0.0
    ensures e == Some(CurrencyTooLong) <==> r.price > 0.0 && |r.currency| > 10
  {
    if r.price <= 0.0 then Some(PriceNotPositive)
    else if r.currency != [] && |r.currency| > 10 then Some(CurrencyTooLong)
    else if r.availability != [] && |r.availability| > 50 then Some(AvailabilityTooLong)
    else None
  }

  /**
   * `is_stale(hours)`: a record never stamped is stale; otherwise it is stale when it was taken
   * before `hours` hours ago.
   */
  predicate IsStale(scrapedAt: Option<int>, now: int, hours: int): (stale: bool)
    ensures scrapedAt.None? ==> stale
    ensures scrapedAt.Some? && scrapedAt.value >= now - hours * 3600 ==> !stale
    ensures scrapedAt.Some? && hours >= 0 && scrapedAt.value < now - hours * 3600 ==> stale
  {
    scrapedAt.None? || scrapedAt.value < now - hours * 3600
  }

  /** A stale record stays stale as time passes. */
  lemma StaleStaysStale(scrapedAt: Option<int>, now: int, later: int, hours: int)
    requires IsStale(scrapedAt, now, hours) && now <= later
    ensures IsStale(scrapedAt, later, hours)
  {
  }

  /** A record stale under a wider window is stale under a narrower one. */
  lemma StaleUnderNarrowerWindow(scrapedAt: Option<int>, now: int, hours: int, fewer: int)
    requires IsStale(scrapedAt, now, hours) && fewer <= hours
    ensures IsStale(scrapedAt, now, fewer)
  {
  }

  /** A record taken at this very moment is fresh for any positive window. */
  lemma JustTakenIsFresh(now: int, hours: int)
    requires hours >= 0
    ensures !IsStale(Some(now), now, hours)
  {
  }

  /** `get_price_in_myr` */
  function PriceInMyr(r: PriceRecord): (m: real)
    ensures r.price > 0.0 <==> m > 0.0
  {
    ConvertKeepsSign(r.price, NormalizeCurrencyCode(Some(r.currency)));
    ConvertToMyr(r.price, Some(r.currency))
  }

  /** `get_price_display` */
  function PriceDisplay(r: PriceRecord): (d: string)
    ensures StartsWith(d, "RM ")
  {
    FormatCurrencyMyr(PriceInMyr(r))
  }

  /** The amount a price display shows reads back as the ringgit price rounded to cents. */
  lemma PriceDisplayReadsBack(r: PriceRecord)
    ensures ParseMantissa(KeepDigitsAndDots(PriceDisplay(r))).Some?
    ensures ParseMantissa(KeepDigitsAndDots(PriceDisplay(r))).value == Rounded(PriceInMyr(r), 2)
  {
    FormatCurrencyMyrReadsBack(PriceInMyr(r));
  }

  /** The parenthesised original currency and amount. */
  function OriginalSuffix(r: PriceRecord): (t: string)
    ensures StartsWith(t, " (" + r.currency + " ") && t[|t| - 1] == ')'
    ensures t[|r.currency| + 3..|t| - 1] == FormatFixed(r.price, 2, true)
  {
    " (" + r.currency + " " + FormatFixed(r.price, 2, true) + ")"
  }

  /** A display, extended by `tail` unless the normalised code is ringgit. */
  function WithOriginal(rm: string, code: string, tail: string): (d: string)
    requires tail != []
    ensures StartsWith(d, rm)
    ensures d == rm <==> code == "MYR"
    ensures code != "MYR" ==> d[|rm|..] == tail
  {
    if code == "MYR" then rm
    else
      assert (rm + tail)[..|rm|] == rm && |rm + tail| > |rm|;
      rm + tail
  }

  /**
   * `get_price_display_with_original`: the ringgit display, followed for a record not in ringgit
   * by the original currency and amount in parentheses.
   */
  function PriceDisplayWithOriginal(r: PriceRecord): (d: string)
    ensures StartsWith(d, PriceDisplay(r))
    ensures d == PriceDisplay(r) <==> NormalizeCurrencyCode(Some(r.currency)) == "MYR"
    ensures NormalizeCurrencyCode(Some(r.currency)) != "MYR" ==> d[|PriceDisplay(r)|..] == OriginalSuffix(r)
  {
    WithOriginal(PriceDisplay(r), NormalizeCurrencyCode(Some(r.currency)), OriginalSuffix(r))
  }

  /** The price records stored so far, in the order they were saved. */
  class PriceTable {
    var rows: seq<PriceRecord>

    constructor()
      ensures rows == []
    {
      rows := [];
    }

    /**
     * `ProductPrice.save`: validation runs first, but its error is only reported (logged), never
     * allowed to stop the save.
     */
    method Save(r: PriceRecord) returns (problem: Option<CleanError>)
      modifies this
      ensures rows == old(rows) + [r]
      ensures problem == Clean(r)
    {
      problem := Clean(r);
      rows := rows + [r];
    }
  }
}
