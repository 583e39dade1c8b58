/**
 * The Lazada scraper: the first of three price selectors, the page's stock and seller elements,
 * and a currency that is always ringgit.
 */
module Lazada {
  import opened Options
  import opened Text
  import opened Numbers
  import opened Values
  import opened Currency
  import opened ScraperBase

  /**
   * What the parsed page offers, as the texts of the elements the selectors find (`None` when a
   * selector finds nothing), each list in the order the selectors are tried.
   */
  datatype LazadaPage = LazadaPage(
    priceFound: seq<Option<string>>,
    currencyText: Option<string>,
    stockFound: seq<Option<string>>,
    sellerFound: seq<Option<string>>)

  /** Availability from the stock element: "Out of Stock" when it says so, "In Stock" otherwise. */
  function LazadaAvailability(stock: Option<string>): (a: string)
    ensures a == "In Stock" || a == "Out of Stock"
    ensures a == "Out of Stock" <==> stock.Some? && SaysOutOfStock(stock.value)
  {
    if stock.Some? && SaysOutOfStock(stock.value) then "Out of Stock" else "In Stock"
  }

  /** The seller is the stripped text of the seller element, or "" without one. */
  function LazadaSeller(seller: Option<string>): (s: string)
    ensures seller.None? ==> s == []
    ensures seller.Some? ==> s == Strip(seller.value)
  {
    if seller.Some? then Strip(seller.value) else ""
  }

  /**
   * `LazadaScraper.scrape_product` on fetched HTML `html` (`None` when the fetch failed): nothing
   * without HTML or without a price element, or when the price text raises; otherwise the price
   * read from the stripped text (`None` for empty text), with currency "MYR".
   */
  function LazadaScrape(url: string, html: Option<string>, page: LazadaPage): (r: Option<ScrapedData>)
    ensures r.None? <==> html.None? || html.value == [] || FirstPresent(page.priceFound).None? ||
                         ExtractPrice(Some(Strip(FirstPresent(page.priceFound).value))).ConversionError?
    ensures r.Some? ==> r.value.currency == Has("MYR") && r.value.productUrl == url
    ensures r.Some? ==> r.value.availability == Has(LazadaAvailability(FirstPresent(page.stockFound)))
    ensures r.Some? ==> r.value.seller == Has(LazadaSeller(FirstPresent(page.sellerFound)))
    ensures r.Some? ==> (r.value.price.None? <==> Strip(FirstPresent(page.priceFound).value) == [])
    ensures r.Some? && r.value.price.Some? ==>
              r.value.price.value.Fin? && r.value.price.value.value >= 0.0 &&
              ExtractPrice(Some(Strip(FirstPresent(page.priceFound).value))) == Parsed(r.value.price.value.value)
  {
    if html.None? || html.value == [] then None
    else
      var element := FirstPresent(page.priceFound);
      if element.None? then None
      else
        var price: Option<Dec> :=
          match ExtractPrice(Some(Strip(element.value)))
          case NoText => None
          case Parsed(v) => Some(Fin(v))
          case ConversionError => None;
        if ExtractPrice(Some(Strip(element.value))).ConversionError? then None
        else
          Some(ScrapedData(price, Has("MYR"), Has(LazadaAvailability(FirstPresent(page.stockFound))),
                           Has(LazadaSeller(FirstPresent(page.sellerFound))), Absent, url))
  }

  /** The currency element plays no part: any currency text gives the same result. */
  lemma CurrencyElementIsIgnored(url: string, html: Option<string>, page: LazadaPage, other: Option<string>)
    ensures LazadaScrape(url, html, page.(currencyText := other)) == LazadaScrape(url, html, page)
  {
  }

  /** A price element showing a ringgit display yields the displayed amount. */
  lemma PriceOfRinggitDisplay(url: string, html: string, page: LazadaPage, amount: real)
    requires html != []
    requires FirstPresent(page.priceFound).Some?
    requires Strip(FirstPresent(page.priceFound).value) == FormatCurrencyMyr(amount)
    ensures LazadaScrape(url, Some(html), page).Some?
    ensures LazadaScrape(url, Some(html), page).value.price == Some(Fin(Rounded(amount, 2)))
  {
    ExtractPriceOfRinggitDisplay(amount);
  }

  /** A stock element reading "Sold out", among other words, gives "Out of Stock". */
  lemma SoldOutIsOutOfStock(a: string, b: string)
    ensures LazadaAvailability(Some(a + "sold out" + b)) == "Out of Stock"
  {
    assert Lower("sold out") == "sold out";
    LowerContainsWord(a, "sold out", b);
  }
}
