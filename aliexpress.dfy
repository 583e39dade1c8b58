/**
 * The AliExpress scraper: price and currency from the first `window.runParams` script with a
 * price module, else from the first of three price selectors and the currency symbol in it; the
 * seller and availability from their elements.
 */
module AliExpress {
  import opened Options
  import opened Text
  import opened Numbers
  import opened Values
  import opened ScraperBase

  /**
   * `price_module.get(name, {})`: the entry missing (an empty dictionary stands in), present but
   * not an object (asking it for a key raises `AttributeError`), or an object with its `value`
   * (`VNone` when missing or `null`) and `currency` entries.
   */
  datatype Amount = AmountAbsent | AmountNotObject | AmountObject(value: Value, currency: Field<string>)

  /**
   * `data.get('priceModule', {})`: falsy (missing, `null`, empty), truthy but not an object, or an
   * object with its `minActivityAmount` and `minAmount` entries.
   */
  datatype PriceModule = ModuleFalsy | ModuleNotObject | ModuleObject(activity: Amount, minimum: Amount)

  /** What the `data: {...}` pattern and `json.loads` make of a script: no match, not JSON, or an object. */
  datatype Payload = NoMatch | Unparseable | Data(priceModule: PriceModule)

  /** A script element: its text (`None` when it has no single string) and what its text holds. */
  datatype AliScript = AliScript(text: Option<string>, payload: Payload)

  /** Only a script with text that mentions `window.runParams` is looked at. */
  predicate Considered(s: AliScript) {
    s.text.Some? && s.text.value != [] && Contains(s.text.value, "window.runParams")
  }

  /** `amount.get('value')`, `None` when it raises. */
  function AmountValue(a: Amount): (r: Option<Value>)
    ensures r.None? <==> a.AmountNotObject?
    ensures a.AmountAbsent? ==> r == Some(VNone)
    ensures a.AmountObject? ==> r == Some(a.value)
  {
    match a
    case AmountAbsent => Some(VNone)
    case AmountNotObject => None
    case AmountObject(v, _) => Some(v)
  }

  /** How one script leaves the loop: it goes on to the next script, or it breaks out. */
  datatype Step = Next(price: Value, currency: Option<string>) | Break(price: Value, currency: Option<string>)

  /** A script that is looked at and whose data holds a `priceModule` object. */
  predicate PriceModuleScript(s: AliScript) {
    Considered(s) && s.payload.Data? && s.payload.priceModule.ModuleObject?
  }

  /**
   * The price line raises `AttributeError`: `minActivityAmount` is not an object, or its value is
   * falsy and `minAmount` is not an object.
   */
  predicate PriceLineRaises(activity: Amount, minimum: Amount) {
    activity.AmountNotObject? || (!Truthy(AmountValue(activity).value) && minimum.AmountNotObject?)
  }

  /** `minActivityAmount.get('currency')`, `None` when missing, `null` or the entry is absent. */
  function ActivityCurrency(activity: Amount): (c: Option<string>)
    ensures c.Some? <==> activity.AmountObject? && activity.currency.Has?
  {
    if activity.AmountObject? && activity.currency.Has? then Some(activity.currency.value) else None
  }

  /** A currency text that is truthy in Python: present and non-empty. */
  predicate TruthyText(c: Option<string>) {
    c.Some? && c.value != []
  }

  /**
   * One pass of the runParams loop. The price is taken from `minActivityAmount`, or from
   * `minAmount` when that one is falsy; then the currency from `minActivityAmount`, or from
   * `minAmount` with "USD" as default. An `AttributeError` skips the rest of the script: raised
   * by the price line it changes nothing, raised by the currency line it leaves the new price.
   */
  function ScriptStep(s: AliScript, price: Value, currency: Option<string>): (r: Step)
    ensures !PriceModuleScript(s) ==> r == Next(price, currency)
    ensures r.Break? ==> PriceModuleScript(s)
    ensures PriceModuleScript(s) ==>
              var a, m := s.payload.priceModule.activity, s.payload.priceModule.minimum;
              PriceLineRaises(a, m) ==> r == Next(price, currency)
    ensures PriceModuleScript(s) ==>
              var a, m := s.payload.priceModule.activity, s.payload.priceModule.minimum;
              !PriceLineRaises(a, m) ==>
                r.price == (if Truthy(AmountValue(a).value) then AmountValue(a).value else AmountValue(m).value) &&
                (r.Next? <==> !TruthyText(ActivityCurrency(a)) && m.AmountNotObject?) &&
                (r.Next? ==> r.currency == currency) &&
                (r.Break? ==> r.currency == if TruthyText(ActivityCurrency(a)) then ActivityCurrency(a)
                                           else if m.AmountObject? then m.currency.GetOr("USD")
                                           else Some("USD"))
  {
    if !Considered(s) then Next(price, currency)
    else match s.payload
      case NoMatch => Next(price, currency)
      case Unparseable => Next(price, currency)
      case Data(ModuleFalsy) => Next(price, currency)
      case Data(ModuleNotObject) => Next(price, currency)
      case Data(ModuleObject(activity, minimum)) =>
        match AmountValue(activity)
        case None => Next(price, currency)
        case Some(first) =>
          var found := if Truthy(first) then Some(first) else AmountValue(minimum);
          if found.None? then Next(price, currency)
          else if TruthyText(ActivityCurrency(activity)) then Break(found.value, ActivityCurrency(activity))
          else match minimum
            case AmountAbsent => Break(found.value, Some("USD"))
            case AmountNotObject => Next(found.value, currency)
            case AmountObject(_, c) => Break(found.value, c.GetOr("USD"))
  }

  /** The runParams loop from `scripts[0]` on: the price and currency it ends with. */
  function RunParamsScan(scripts: seq<AliScript>, price: Value, currency: Option<string>): (Value, Option<string>)
    decreases |scripts|
  {
    if scripts == [] then (price, currency)
    else match ScriptStep(scripts[0], price, currency)
      case Break(p, c) => (p, c)
      case Next(p, c) => RunParamsScan(scripts[1..], p, c)
  }

  /** The runParams loop of `AliExpressScraper.scrape_product`, from no price and currency "USD". */
  method ScanRunParams(scripts: seq<AliScript>) returns (price: Value, currency: Option<string>)
    ensures (price, currency) == RunParamsScan(scripts, VNone, Some("USD"))
  {
    price, currency := VNone, Some("USD");
    var i := 0;
    while i < |scripts|
      invariant 0 <= i <= |scripts|
      invariant RunParamsScan(scripts[i..], price, currency) == RunParamsScan(scripts, VNone, Some("USD"))
    {
      assert scripts[i..][1..] == scripts[i + 1..];
      var step := ScriptStep(scripts[i], price, currency);
      price, currency := step.price, step.currency;
      if step.Break? {
        return;
      }
      i := i + 1;
    }
  }

  /**
   * The scan ends at the first script that breaks out, with the price and currency that script
   * sets, when every script before it goes on without changing anything.
   */
  lemma {:induction false} ScanStopsAtFirstBreak(pre: seq<AliScript>, s: AliScript, post: seq<AliScript>,
                                                 price: Value, currency: Option<string>)
    requires forall i :: 0 <= i < |pre| ==> ScriptStep(pre[i], price, currency) == Next(price, currency)
    requires ScriptStep(s, price, currency).Break?
    ensures RunParamsScan(pre + [s] + post, price, currency) ==
              (ScriptStep(s, price, currency).price, ScriptStep(s, price, currency).currency)
    decreases |pre|
  {
    if pre != [] {
      assert (pre + [s] + post)[0] == pre[0];
      assert (pre + [s] + post)[1..] == pre[1..] + [s] + post;
      ScanStopsAtFirstBreak(pre[1..], s, post, price, currency);
    } else {
      assert (pre + [s] + post)[0] == s;
    }
  }

  /** Scripts that are not looked at change nothing, however many precede the others. */
  lemma {:induction false} IgnoredScriptsAreSkipped(pre: seq<AliScript>, post: seq<AliScript>,
                                                    price: Value, currency: Option<string>)
    requires forall i :: 0 <= i < |pre| ==> !Considered(pre[i])
    ensures RunParamsScan(pre + post, price, currency) == RunParamsScan(post, price, currency)
    decreases |pre|
  {
    if pre != [] {
      assert (pre + post)[0] == pre[0];
      assert (pre + post)[1..] == pre[1..] + post;
      IgnoredScriptsAreSkipped(pre[1..], post, price, currency);
    } else {
      assert pre + post == post;
    }
  }

  /**
   * A failing currency lookup keeps the price it follows: a truthy activity price with no
   * activity currency and a `minAmount` that is not an object updates the price but not the
   * currency, and the loop goes on.
   */
  lemma CurrencyErrorKeepsNewPrice(text: string, v: Value, price: Value, currency: Option<string>)
    requires text != [] && Contains(text, "window.runParams") && Truthy(v)
    ensures ScriptStep(AliScript(Some(text), Data(ModuleObject(AmountObject(v, Absent), AmountNotObject))),
                       price, currency) == Next(v, currency)
  {
  }

  /** The euro sign as the page's UTF-8 bytes read as Windows-1252 text. */
  const EuroMarker: string := "\U{E2}\U{201A}\U{AC}"

  /** The currency the fallback price element's symbol shows: '$' wins over the euro marker. */
  function SymbolCurrency(text: string, currency: Option<string>): (c: Option<string>)
    ensures Contains(text, "$") ==> c == Some("USD")
    ensures !Contains(text, "$") && Contains(text, EuroMarker) ==> c == Some("EUR")
    ensures !Contains(text, "$") && !Contains(text, EuroMarker) ==> c == currency
  {
    if Contains(text, "$") then Some("USD")
    else if Contains(text, EuroMarker) then Some("EUR")
    else currency
  }

  /** The texts of the elements the selectors find, each list in the order the selectors are tried. */
  datatype AliPage = AliPage(
    scripts: seq<AliScript>,
    priceFound: seq<Option<string>>,
    sellerFound: seq<Option<string>>,
    stock: Option<string>)

  /** The seller is the stripped shop-name text, or "AliExpress Store" without one. */
  function AliSeller(seller: Option<string>): (s: string)
    ensures seller.None? ==> s == "AliExpress Store"
    ensures seller.Some? ==> s == Strip(seller.value)
  {
    if seller.Some? then Strip(seller.value) else "AliExpress Store"
  }

  /** The stock text mentions "only" and "left". */
  predicate SaysFewLeft(text: string) {
    Contains(Lower(text), "only") && Contains(Lower(text), "left")
  }

  /** Availability: "In Stock" unless the stock text says out of stock or, failing that, only a few left. */
  function AliAvailability(stock: Option<string>): (a: string)
    ensures a == "In Stock" || a == "Out of Stock" || a == "Limited Stock"
    ensures a == "Out of Stock" <==> stock.Some? && SaysOutOfStock(stock.value)
    ensures a == "Limited Stock" <==> stock.Some? && !SaysOutOfStock(stock.value) && SaysFewLeft(stock.value)
  {
    if stock.None? then "In Stock"
    else if SaysOutOfStock(stock.value) then "Out of Stock"
    else if SaysFewLeft(stock.value) then "Limited Stock"
    else "In Stock"
  }

  /** The price and currency after the fallback, `None` when reading the element's price raises. */
  function Fallback(price: Value, currency: Option<string>, priceFound: seq<Option<string>>): (r: Option<(Value, Option<string>)>)
    ensures Truthy(price) || FirstPresent(priceFound).None? ==> r == Some((price, currency))
    ensures !Truthy(price) && FirstPresent(priceFound).Some? ==>
              var text := FirstPresent(priceFound).value;
              match ExtractPrice(Some(Strip(text)))
              case NoText => r == Some((VNone, SymbolCurrency(text, currency)))
              case Parsed(v) => r == Some((VNum(Fin(v)), SymbolCurrency(text, currency)))
              case ConversionError => r.None?
  {
    if Truthy(price) then Some((price, currency))
    else
      var element := FirstPresent(priceFound);
      if element.None? then Some((price, currency))
      else match ExtractPrice(Some(Strip(element.value)))
        case NoText => Some((VNone, SymbolCurrency(element.value, currency)))
        case Parsed(v) => Some((VNum(Fin(v)), SymbolCurrency(element.value, currency)))
        case ConversionError => None
  }

  /** The outcome once the runParams loop has ended with `price` and `currency`. */
  function AliFinish(url: string, price: Value, currency: Option<string>, page: AliPage): (r: Option<ScrapedData>)
    ensures r.Some? ==> r.value.productUrl == url && r.value.price.Some?
    ensures r.Some? ==> r.value.seller == Has(AliSeller(FirstPresent(page.sellerFound)))
    ensures r.Some? ==> r.value.availability == Has(AliAvailability(page.stock))
    ensures var f := Fallback(price, currency, page.priceFound);
            r.Some? <==> f.Some? && Truthy(f.value.0) && ToDecimal(f.value.0).Some?
    ensures var f := Fallback(price, currency, page.priceFound);
            r.Some? ==> r.value.price == ToDecimal(f.value.0) &&
                        r.value.currency == (if f.value.1.Some? then Has(f.value.1.value) else Null)
  {
    match Fallback(price, currency, page.priceFound)
    case None => None
    case Some((p, c)) =>
      if !Truthy(p) then None
      else match ToDecimal(p)
        case None => None
        case Some(d) =>
          Some(ScrapedData(Some(d), if c.Some? then Has(c.value) else Null,
                           Has(AliAvailability(page.stock)), Has(AliSeller(FirstPresent(page.sellerFound))),
                           Absent, url))
  }

  /**
   * `AliExpressScraper.scrape_product` on fetched HTML `html` (`None` when the fetch failed): nothing
   * without HTML, when no truthy price is found, or when a conversion raises.
   */
  method AliScrapeProduct(url: string, html: Option<string>, page: AliPage) returns (data: Option<ScrapedData>)
    ensures html.None? || html.value == [] ==> data.None?
    ensures html.Some? && html.value != [] ==>
              data == AliFinish(url, RunParamsScan(page.scripts, VNone, Some("USD")).0,
                                RunParamsScan(page.scripts, VNone, Some("USD")).1, page)
  {
    if html.None? || html.value == [] {
      return None;
    }
    var price, currency := ScanRunParams(page.scripts);
    data := AliFinish(url, price, currency, page);
  }

  /** A page with neither runParams data nor a price element yields nothing. */
  lemma NoPriceAnywhere(url: string, page: AliPage)
    requires forall i :: 0 <= i < |page.scripts| ==> !Considered(page.scripts[i])
    requires FirstPresent(page.priceFound).None?
    ensures AliFinish(url, RunParamsScan(page.scripts, VNone, Some("USD")).0,
                      RunParamsScan(page.scripts, VNone, Some("USD")).1, page).None?
  {
    IgnoredScriptsAreSkipped(page.scripts, [], VNone, Some("USD"));
    assert page.scripts + [] == page.scripts;
  }

  /** Stock text saying "only 3 left" is limited stock. */
  lemma OnlyFewLeftIsLimited(a: string, b: string, c: string)
    requires !SaysOutOfStock(a + "only" + b + "left" + c)
    ensures AliAvailability(Some(a + "only" + b + "left" + c)) == "Limited Stock"
  {
    assert Lower("only") == "only" && Lower("left") == "left";
    LowerContainsWord(a, "only", b + "left" + c);
    assert a + "only" + (b + "left" + c) == a + "only" + b + "left" + c;
    LowerContainsWord(a + "only" + b, "left", c);
  }
}
