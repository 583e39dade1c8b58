/**
 * The eBay scraper: price and currency from the first JSON-LD block that has offers, else from
 * the first of three price selectors; the seller and availability from their elements.
 */
module EBay {
  import opened Options
  import opened Text
  import opened Numbers
  import opened Values
  import opened ScraperBase

  /** The `offers` entry of a JSON-LD block: not an object, or its `price` and `priceCurrency`. */
  datatype Offers = OffersNotObject | OffersObject(price: Value, currency: Field<string>)

  /**
   * A JSON-LD script as the loop sees it: without text (`json.loads(None)` raises `TypeError`,
   * which the loop does not catch), not JSON, JSON that is not an object with `offers`, or one with.
   */
  datatype LdScript = LdNoText | LdUnparseable | LdOther | LdWithOffers(offers: Offers)

  /** Where the JSON-LD loop ends: it raised, or it left a price and a currency (`None` for JSON `null`). */
  datatype LdResult = LdRaised | LdDone(price: Value, currency: Option<string>)

  /**
   * The JSON-LD loop from script `scripts[0]` on, with `price` and `currency` found so far: the
   * first object with `offers` ends it, and only an object `offers` changes the price and currency.
   */
  function LdScan(scripts: seq<LdScript>, price: Value, currency: Option<string>): LdResult
    decreases |scripts|
  {
    if scripts == [] then LdDone(price, currency)
    else match scripts[0]
      case LdNoText => LdRaised
      case LdUnparseable => LdScan(scripts[1..], price, currency)
      case LdOther => LdScan(scripts[1..], price, currency)
      case LdWithOffers(OffersNotObject) => LdDone(price, currency)
      case LdWithOffers(OffersObject(p, c)) => LdDone(p, c.GetOr("AUD"))
  }

  /** The JSON-LD loop of `eBayScraper.scrape_product`, from no price and currency "AUD". */
  method ScanJsonLd(scripts: seq<LdScript>) returns (result: LdResult)
    ensures result == LdScan(scripts, VNone, Some("AUD"))
  {
    var price, currency := VNone, Some("AUD");
    var i := 0;
    while i < |scripts|
      invariant 0 <= i <= |scripts|
      invariant price == VNone && currency == Some("AUD")
      invariant LdScan(scripts[i..], price, currency) == LdScan(scripts, VNone, Some("AUD"))
    {
      assert scripts[i..][1..] == scripts[i + 1..];
      match scripts[i] {
        case LdNoText =>
          return LdRaised;
        case LdUnparseable =>
        case LdOther =>
        case LdWithOffers(offers) =>
          if offers.OffersObject? {
            price := offers.price;
            currency := offers.currency.GetOr("AUD");
          }
          return LdDone(price, currency);
      }
      i := i + 1;
    }
    return LdDone(price, currency);
  }

  /** The scan stops at the first block with offers, skipping unparseable blocks and others before it. */
  lemma {:induction false} ScanStopsAtFirstOffers(pre: seq<LdScript>, offers: Offers, post: seq<LdScript>,
                                                  price: Value, currency: Option<string>)
    requires forall i :: 0 <= i < |pre| ==> pre[i].LdUnparseable? || pre[i].LdOther?
    ensures LdScan(pre + [LdWithOffers(offers)] + post, price, currency) ==
              if offers.OffersObject? then LdDone(offers.price, offers.currency.GetOr("AUD"))
              else LdDone(price, currency)
    decreases |pre|
  {
    if pre != [] {
      assert (pre + [LdWithOffers(offers)] + post)[1..] == pre[1..] + [LdWithOffers(offers)] + post;
      ScanStopsAtFirstOffers(pre[1..], offers, post, price, currency);
    } else {
      assert (pre + [LdWithOffers(offers)] + post)[0] == LdWithOffers(offers);
    }
  }

  /** The texts of the elements the selectors find, each list in the order the selectors are tried. */
  datatype EBayPage = EBayPage(
    ldScripts: seq<LdScript>,
    priceFound: seq<Option<string>>,
    sellerFound: seq<Option<string>>,
    availabilityFound: seq<Option<string>>)

  /** The seller is the stripped seller text, or "eBay Seller" without a seller element. */
  function EBaySeller(seller: Option<string>): (s: string)
    ensures seller.None? ==> s == "eBay Seller"
    ensures seller.Some? ==> s == Strip(seller.value)
  {
    if seller.Some? then Strip(seller.value) else "eBay Seller"
  }

  /** "available" or "in stock" is tested first, then "out of stock" or "sold out"; otherwise "Unknown". */
  predicate SaysAvailable(text: string) {
    Contains(Lower(text), "available") || Contains(Lower(text), "in stock")
  }

  /** Availability from the availability element's lower-cased text. */
  function EBayAvailability(element: Option<string>): (a: string)
    ensures a == "In Stock" || a == "Out of Stock" || a == "Unknown"
    ensures a == "In Stock" <==> element.Some? && SaysAvailable(element.value)
    ensures a == "Out of Stock" <==> element.Some? && !SaysAvailable(element.value) && SaysOutOfStock(element.value)
  {
    if element.None? then "Unknown"
    else if SaysAvailable(element.value) then "In Stock"
    else if SaysOutOfStock(element.value) then "Out of Stock"
    else "Unknown"
  }

  /** "Unavailable" contains "available", which is tested first: it counts as in stock. */
  lemma UnavailableCountsAsInStock(a: string, b: string)
    ensures EBayAvailability(Some(a + "unavailable" + b)) == "In Stock"
  {
    assert Lower("unavailable") == "unavailable";
    LowerContainsWord(a, "unavailable", b);
    UnavailableContainsAvailable(Lower(a + "unavailable" + b));
  }

  /** Wherever "unavailable" occurs, "available" occurs two characters on. */
  lemma UnavailableContainsAvailable(w: string)
    requires Contains(w, "unavailable")
    ensures Contains(w, "available")
  {
    var i: nat :| i <= |w| && OccursAt(w, "unavailable", i);
    assert w[i + 2..i + 11] == w[i..i + 11][2..];
    assert OccursAt(w, "available", i + 2);
  }

  /** The fallback price, read from the first price element, when the JSON-LD gave a falsy one. */
  function FallbackPrice(price: Value, priceFound: seq<Option<string>>): (r: Option<Value>)
    ensures Truthy(price) ==> r == Some(price)
    ensures !Truthy(price) && FirstPresent(priceFound).None? ==> r == Some(price)
    ensures !Truthy(price) && FirstPresent(priceFound).Some? ==>
              match ExtractPrice(Some(Strip(FirstPresent(priceFound).value)))
              case NoText => r == Some(VNone)
              case Parsed(v) => r == Some(VNum(Fin(v)))
              case ConversionError => r.None?
  {
    if Truthy(price) then Some(price)
    else
      var element := FirstPresent(priceFound);
      if element.None? then Some(price)
      else match ExtractPrice(Some(Strip(element.value)))
        case NoText => Some(VNone)
        case Parsed(v) => Some(VNum(Fin(v)))
        case ConversionError => None
  }

  /** The outcome once the JSON-LD loop has ended with `scan`. */
  function EBayFinish(url: string, scan: LdResult, page: EBayPage): (r: Option<ScrapedData>)
    ensures r.Some? ==> scan.LdDone? && r.value.productUrl == url
    ensures r.Some? ==> r.value.seller == Has(EBaySeller(FirstPresent(page.sellerFound)))
    ensures r.Some? ==> r.value.availability == Has(EBayAvailability(FirstPresent(page.availabilityFound)))
    ensures r.Some? ==> r.value.currency == (if scan.currency.Some? then Has(scan.currency.value) else Null)
    ensures r.Some? <==> scan.LdDone? && var f := FallbackPrice(scan.price, page.priceFound);
                         f.Some? && Truthy(f.value) && ToDecimal(f.value).Some?
    ensures r.Some? ==> r.value.price == ToDecimal(FallbackPrice(scan.price, page.priceFound).value)
  {
    if scan.LdRaised? then None
    else match FallbackPrice(scan.price, page.priceFound)
      case None => None
      case Some(price) =>
        if !Truthy(price) then None
        else match ToDecimal(price)
          case None => None
          case Some(d) =>
            Some(ScrapedData(Some(d), if scan.currency.Some? then Has(scan.currency.value) else Null,
                             Has(EBayAvailability(FirstPresent(page.availabilityFound))),
                             Has(EBaySeller(FirstPresent(page.sellerFound))), Absent, url))
  }

  /**
   * `eBayScraper.scrape_product` on fetched HTML `html` (`None` when the fetch failed): nothing
   * without HTML, when the loop or a conversion raises, or when no truthy price is found.
   */
  method EBayScrapeProduct(url: string, html: Option<string>, page: EBayPage) returns (data: Option<ScrapedData>)
    ensures html.None? || html.value == [] ==> data.None?
    ensures html.Some? && html.value != [] ==> data == EBayFinish(url, LdScan(page.ldScripts, VNone, Some("AUD")), page)
  {
    if html.None? || html.value == [] {
      return None;
    }
    var scan := ScanJsonLd(page.ldScripts);
    data := EBayFinish(url, scan, page);
  }

  /** A block whose offers give no currency leaves eBay Australia's default, "AUD". */
  lemma MissingCurrencyIsAud(url: string, page: EBayPage, price: Value)
    requires page.ldScripts == [LdWithOffers(OffersObject(price, Absent))]
    requires EBayFinish(url, LdScan(page.ldScripts, VNone, Some("AUD")), page).Some?
    ensures EBayFinish(url, LdScan(page.ldScripts, VNone, Some("AUD")), page).value.currency == Has("AUD")
  {
  }

  /** A price found only through the fallback selectors is positive. */
  lemma FallbackPriceIsPositive(url: string, scan: LdResult, page: EBayPage)
    requires scan.LdDone? && !Truthy(scan.price)
    requires EBayFinish(url, scan, page).Some?
    ensures EBayFinish(url, scan, page).value.price.value.Fin?
    ensures EBayFinish(url, scan, page).value.price.value.value > 0.0
  {
    var element := FirstPresent(page.priceFound);
    assert element.Some?;
    var e := ExtractPrice(Some(Strip(element.value)));
    assert e.Parsed?;
  }
}
