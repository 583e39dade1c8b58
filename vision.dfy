/**
 * The AI vision scraper: it needs an API key, screenshots the page (with language cookies for
 * Shopee), asks the model for a JSON reply, cuts the JSON out of any Markdown code fence, rejects
 * a reply without a usable price and fills in defaults for the other fields.
 */
module Vision {
  import opened Options
  import opened Text
  import opened Numbers
  import opened Values
  import opened Records
  import opened ScraperBase

  // ---------------------------------------------------------- construction

  /** What configuring the model library does: nothing goes wrong, or it raises. */
  datatype SetupOutcome = SetupOk | SetupRaises(isValueError: bool, message: string)

  /** A constructed vision scraper. */
  datatype VisionScraper = VisionScraper(config: ScraperConfig, apiKey: string)

  /** The outcome of `GeminiVisionScraper(...)`. */
  datatype VisionInit = VisionReady(scraper: VisionScraper) | VisionValueError | VisionRaised(message: string)

  /** `api_key or settings.GOOGLE_GEMINI_API_KEY` */
  function EffectiveKey(apiKey: Option<string>, settingsKey: string): (k: string)
    ensures apiKey.Some? && apiKey.value != [] ==> k == apiKey.value
    ensures apiKey.None? || apiKey.value == [] ==> k == settingsKey
  {
    if apiKey.Some? && apiKey.value != [] then apiKey.value else settingsKey
  }

  /**
   * `GeminiVisionScraper.__init__`: without a key from either place it raises `ValueError`; with
   * one, the library is configured, which may raise in turn.
   */
  function NewVisionScraper(platform: Platform, delay: nat, apiKey: Option<string>, settingsKey: string,
                            setup: SetupOutcome): (r: VisionInit)
    ensures EffectiveKey(apiKey, settingsKey) == [] ==> r.VisionValueError?
    ensures r.VisionReady? <==> EffectiveKey(apiKey, settingsKey) != [] && setup.SetupOk?
    ensures r.VisionReady? ==> r.scraper.apiKey == EffectiveKey(apiKey, settingsKey) &&
                               r.scraper.config == NewScraper(platform, delay)
    ensures r.VisionRaised? ==> setup.SetupRaises? && !setup.isValueError
  {
    var key := EffectiveKey(apiKey, settingsKey);
    if key == [] then VisionValueError
    else match setup
      case SetupOk => VisionReady(VisionScraper(NewScraper(platform, delay), key))
      case SetupRaises(isValueError, message) =>
        if isValueError then VisionValueError else VisionRaised(message)
  }

  // ------------------------------------------------------------ screenshots

  /** Whether the language cookies for Shopee are added before loading `url`. */
  predicate AddsShopeeCookies(url: string): (adds: bool)
    ensures Contains(url, "shopee") ==> adds
  {
    assert Lower("shopee") == "shopee";
    LowerKeepsWord(url, "shopee");
    Contains(Lower(url), "shopee")
  }

  /** A lower-case word found in a text is found in the text's lower-cased form. */
  lemma LowerKeepsWord(s: string, word: string)
    requires Lower(word) == word
    ensures Contains(s, word) ==> Contains(Lower(s), word)
  {
    if Contains(s, word) {
      var p: nat :| p <= |s| && OccursAt(s, word, p);
      forall k | 0 <= k < |word|
        ensures Lower(s)[p + k] == word[k]
      {
        assert s[p + k] == s[p..p + |word|][k];
      }
      assert Lower(s)[p..p + |word|] == word;
      assert OccursAt(Lower(s), word, p);
    }
  }

  /** The cookie rule ignores case: a URL and its upper-cased form are treated alike. */
  lemma ShopeeCookiesIgnoreCase(url: string)
    ensures AddsShopeeCookies(Upper(url)) == AddsShopeeCookies(url)
  {
    assert Lower(Upper(url)) == Lower(url);
  }

  /** Whether screenshot attempt `k` captured something. */
  function Captured(shot: nat -> Option<seq<bv8>>): nat -> bool {
    (k: nat) => shot(k).Some?
  }

  /** The sleeps `_take_screenshot` performs from attempt `k` on: `delay * (k + 1)` after each failure but the last. */
  function ShotSleeps(delay: nat, shot: nat -> Option<seq<bv8>>, k: nat, n: int): seq<nat>
    decreases n - k
  {
    if k >= n || shot(k).Some? then []
    else if k < n - 1 then [delay * (k + 1)] + ShotSleeps(delay, shot, k + 1, n)
    else []
  }

  /**
   * `_take_screenshot`: at most `maxRetries` attempts, the bytes of the first one that captures,
   * `None` when none does. `shot(k)` is what attempt `k` captures (`None` when it raises).
   */
  method TakeScreenshot(delay: nat, maxRetries: int, shot: nat -> Option<seq<bv8>>)
    returns (bytes: Option<seq<bv8>>, attempts: nat, sleeps: seq<nat>)
    ensures var first := FirstSuccess(Captured(shot), 0, maxRetries);
            (first.Some? ==> bytes == shot(first.value) && attempts == first.value + 1) &&
            (first.None? ==> bytes.None? && attempts == if maxRetries > 0 then maxRetries else 0)
    ensures sleeps == ShotSleeps(delay, shot, 0, maxRetries)
  {
    bytes, attempts, sleeps := None, 0, [];
    var attempt := 0;
    while attempt < maxRetries
      invariant 0 <= attempt && attempts == attempt
      invariant maxRetries > 0 ==> attempt < maxRetries
      invariant maxRetries <= 0 ==> attempt == 0
      invariant forall j :: 0 <= j < attempt ==> shot(j).None?
      invariant sleeps + ShotSleeps(delay, shot, attempt, maxRetries) == ShotSleeps(delay, shot, 0, maxRetries)
      decreases maxRetries - attempt
    {
      ghost var rest := ShotSleeps(delay, shot, attempt, maxRetries);
      attempts := attempts + 1;
      var captured := shot(attempt);
      if captured.Some? {
        assert rest == [];
        bytes := captured;
        FirstSuccessIs(Captured(shot), 0, maxRetries, attempt);
        return;
      }
      if attempt == maxRetries - 1 {
        assert rest == [];
        FirstSuccessNone(Captured(shot), 0, maxRetries);
        return;
      }
      var wait: nat := delay * (attempt + 1);
      assert rest == [wait] + ShotSleeps(delay, shot, attempt + 1, maxRetries);
      ghost var before := sleeps;
      sleeps := sleeps + [wait];
      assert sleeps + ShotSleeps(delay, shot, attempt + 1, maxRetries) == before + rest;
      attempt := attempt + 1;
    }
    FirstSuccessNone(Captured(shot), 0, maxRetries);
  }

  /** When every attempt fails, the waits are `delay`, `2 * delay`, ... : one fewer than the attempts. */
  lemma {:induction false} AllFailedShotSleeps(delay: nat, shot: nat -> Option<seq<bv8>>, k: nat, n: int)
    requires k < n
    requires forall j :: k <= j < n ==> shot(j).None?
    ensures |ShotSleeps(delay, shot, k, n)| == n - k - 1
    ensures forall i :: 0 <= i < n - k - 1 ==> ShotSleeps(delay, shot, k, n)[i] == delay * (k + i + 1)
    decreases n - k
  {
    if k < n - 1 {
      AllFailedShotSleeps(delay, shot, k + 1, n);
      var rest := ShotSleeps(delay, shot, k + 1, n);
      assert ShotSleeps(delay, shot, k, n) == [delay * (k + 1)] + rest;
      var whole := ShotSleeps(delay, shot, k, n);
      assert forall i :: 1 <= i < |whole| ==> whole[i] == rest[i - 1];
    }
  }

  // ---------------------------------------------------------------- fences

  /**
   * The JSON text inside a (stripped) reply: after a "```json" fence up to the next "```", else
   * between the first two "```" fences, else the reply itself.
   */
  function StripFences(t: string): (r: string)
    ensures !Contains(t, "```") ==> r == t
    ensures Contains(t, "```") ==> !Contains(r, "```")
  {
    if Contains(t, "```json") then
      JsonFenceIsFence(t);
      StrippedPieceHasNoFence(Split(t, "```json")[1]);
      Strip(Before(Split(t, "```json")[1], "```"))
    else if Contains(t, "```") then
      StrippedPieceHasNoFence(Split(t, "```")[1]);
      Strip(Before(Split(t, "```")[1], "```"))
    else t
  }

  /** A text with a "```json" fence has a "```" fence. */
  lemma JsonFenceIsFence(t: string)
    ensures Contains(t, "```json") ==> Contains(t, "```")
  {
    if !Contains(t, "```") {
      NoFenceNoJsonFence(t);
    }
  }

  /** `response.text.strip()` followed by the fence rule. */
  function JsonText(reply: string): (r: string)
    ensures !Contains(r, "```")
  {
    StripFences(Strip(reply))
  }

  /** What precedes the first fence of a piece, once stripped, holds no fence. */
  lemma StrippedPieceHasNoFence(piece: string)
    ensures !Contains(Strip(Before(piece, "```")), "```")
  {
    var inner := Before(piece, "```");
    StripIsInnerSlice(inner);
    var a, b :| 0 <= a <= b <= |inner| && Strip(inner) == inner[a..b];
    SliceOmits(inner, "```", a, b);
  }

  /** A reply without fences is parsed as it stands, once stripped. */
  lemma UnfencedReply(reply: string)
    requires !Contains(reply, "```")
    ensures JsonText(reply) == Strip(reply)
  {
    var t := Strip(reply);
    StripIsInnerSlice(reply);
    var a, b :| 0 <= a <= b <= |reply| && t == reply[a..b];
    SliceOmits(reply, "```", a, b);
    NoFenceNoJsonFence(t);
  }

  /** Text without "```" has no "```json" either. */
  lemma NoFenceNoJsonFence(t: string)
    requires !Contains(t, "```")
    ensures !Contains(t, "```json")
  {
    forall p: nat | p <= |t| ensures !OccursAt(t, "```json", p) {
      if p + 7 <= |t| {
        assert !OccursAt(t, "```", p);
        assert t[p..p + 7][..3] == t[p..p + 3];
        assert "```json"[..3] == "```";
      }
    }
  }

  /** The opening "```json" of a fenced reply is its first, and what follows it is the rest. */
  lemma OpeningJsonFence(body: string)
    ensures Contains("```json" + body + "```", "```json")
    ensures After("```json" + body + "```", "```json") == body + "```"
  {
    var t := "```json" + body + "```";
    assert t[..7] == "```json";
    AfterAt(t, "```json", 0);
  }

  /** A body without fences, closed by a fence, holds no "```json". */
  lemma NoJsonFenceInBody(body: string)
    requires !Contains(body, "```")
    ensures !Contains(body + "```", "```json")
  {
    var z := body + "```";
    forall p: nat | p <= |z| ensures !OccursAt(z, "```json", p) {
      if p + 7 <= |z| {
        assert !OccursAt(body, "```", p);
        assert z[p..p + 7][..3] == z[p..p + 3] == body[p..p + 3];
        assert "```json"[..3] == "```";
      }
    }
  }

  /** The closing fence of a body that does not end in a backtick is the first fence in it. */
  lemma ClosingFenceIsFirst(body: string)
    requires !Contains(body, "```")
    requires body == [] || body[|body| - 1] != '`'
    ensures Before(body + "```", "```") == body
  {
    var z := body + "```";
    assert z[|body|..|body| + 3] == "```";
    forall j: nat | j < |body| ensures !OccursAt(z, "```", j) {
      if j + 3 <= |body| {
        assert body[j..j + 3] == z[j..j + 3];
        assert !OccursAt(body, "```", j);
      } else {
        assert z[j..j + 3][|body| - 1 - j] == z[|body| - 1] == body[|body| - 1];
      }
    }
    BeforeAt(z, "```", |body|);
    assert z[..|body|] == body;
  }

  /** A fenced block starts and ends with a backtick, so stripping leaves it to the fence rule. */
  lemma FencedBlockIsStripped(body: string)
    ensures JsonText("```json" + body + "```") == StripFences("```json" + body + "```")
  {
    var t := "```json" + body + "```";
    assert IsStripped(t) by {
      assert t[0] == '`' && t[|t| - 1] == '`';
    }
    StripOfStripped(t);
    JsonTextOfStripped(t);
  }

  /** The fence rule applied to one fenced JSON block gives the block's body, stripped. */
  lemma StripFencesOfBlock(body: string)
    requires !Contains(body, "```")
    requires body == [] || body[|body| - 1] != '`'
    ensures StripFences("```json" + body + "```") == Strip(body)
  {
    var t := "```json" + body + "```";
    OpeningJsonFence(body);
    NoJsonFenceInBody(body);
    SplitSecond(t, "```json");
    BeforeAbsent(body + "```", "```json");
    ClosingFenceIsFirst(body);
  }

  /** A reply that is one fenced JSON block yields the block's body, stripped. */
  lemma FencedJsonReply(body: string)
    requires !Contains(body, "```")
    requires body == [] || body[|body| - 1] != '`'
    ensures JsonText("```json" + body + "```") == Strip(body)
  {
    FencedBlockIsStripped(body);
    StripFencesOfBlock(body);
  }

  /** A reply without surrounding whitespace goes straight to the fence rule. */
  lemma JsonTextOfStripped(t: string)
    requires Strip(t) == t
    ensures JsonText(t) == StripFences(t)
  {
  }

  // ------------------------------------------------------------- the reply

  /**
   * The decoded reply's entries, as `data.get(key)` sees them: a text entry missing or `null` is
   * `None`; price and quantity are any JSON value (`VNone` when missing or `null`).
   */
  datatype Reply = Reply(
    price: Value,
    currency: Option<string>,
    availability: Option<string>,
    seller: Option<string>,
    quantity: Value)

  /** What `json.loads` makes of the JSON text. */
  datatype Decoded = DecodeError | NotObject | Object(reply: Reply)

  /** The dictionary `_extract_price_with_ai` returns. */
  datatype AiReading = AiReading(price: Dec, currency: string, availability: string, seller: string, quantity: Value)

  /** A text entry that is present and non-empty (truthy). */
  predicate Given(text: Option<string>) {
    text.Some? && text.value != []
  }

  /**
   * What `_extract_price_with_ai` makes of the decoded JSON: nothing unless it is an object whose
   * price is truthy and reads as a decimal; otherwise the price as a `Decimal` and the other
   * entries with their defaults.
   */
  function ReadingOfDecoded(platform: Platform, decoded: Decoded): (r: Option<AiReading>)
    ensures r.Some? <==> decoded.Object? && Truthy(decoded.reply.price) && ToDecimal(decoded.reply.price).Some?
    ensures r.Some? ==> r.value.currency != [] && r.value.availability != []
    ensures r.Some? ==> r.value.quantity.VNone? || Truthy(r.value.quantity)
    ensures r.Some? && !Truthy(decoded.reply.quantity) ==> r.value.quantity == VNone
  {
    match decoded
    case DecodeError => None
    case NotObject => None
    case Object(d) =>
      if !Truthy(d.price) then None
      else match ToDecimal(d.price)
        case None => None
        case Some(price) =>
          Some(AiReading(
            price,
            if Given(d.currency) then d.currency.value else DefaultCurrency(platform),
            if Given(d.availability) then d.availability.value else "Unknown",
            if Given(d.seller) then d.seller.value else "",
            if Truthy(d.quantity) then d.quantity else VNone))
  }

  /**
   * What `_extract_price_with_ai` returns for model reply `replyText` (`None` when producing it
   * raised), with `decode` standing for `json.loads` applied to the JSON text cut out of it.
   */
  function AiReadingOf(platform: Platform, replyText: Option<string>, decode: string -> Decoded): (r: Option<AiReading>)
    ensures replyText.None? ==> r.None?
    ensures replyText.Some? ==> r == ReadingOfDecoded(platform, decode(JsonText(replyText.value)))
  {
    if replyText.None? then None else ReadingOfDecoded(platform, decode(JsonText(replyText.value)))
  }

  /**
   * `_extract_price_with_ai`, which fills the defaults into the decoded dictionary one entry at a
   * time.
   */
  method ExtractPriceWithAi(platform: Platform, replyText: Option<string>, decode: string -> Decoded)
    returns (reading: Option<AiReading>)
    ensures reading == AiReadingOf(platform, replyText, decode)
  {
    if replyText.None? {
      return None;
    }
    var decoded := decode(JsonText(replyText.value));
    if !decoded.Object? || !Truthy(decoded.reply.price) {
      return None;
    }
    var price := ToDecimal(decoded.reply.price);
    if price.None? {
      return None;
    }
    var data := FillDefaults(platform, decoded.reply);
    reading := Some(AiReading(price.value, data.currency.value, data.availability.value, data.seller.value, data.quantity));
  }

  /** The defaults `_extract_price_with_ai` puts in place of entries that are missing or falsy. */
  method FillDefaults(platform: Platform, given: Reply) returns (data: Reply)
    ensures data.price == given.price
    ensures data.currency == Some(if Given(given.currency) then given.currency.value else DefaultCurrency(platform))
    ensures data.availability == Some(if Given(given.availability) then given.availability.value else "Unknown")
    ensures data.seller == Some(if Given(given.seller) then given.seller.value else "")
    ensures data.quantity == if Truthy(given.quantity) then given.quantity else VNone
  {
    data := given;
    if !Given(data.currency) {
      data := data.(currency := Some(DefaultCurrency(platform)));
    }
    if !Given(data.availability) {
      data := data.(availability := Some("Unknown"));
    }
    if !Given(data.seller) {
      data := data.(seller := Some(""));
    }
    if !Truthy(data.quantity) {
      data := data.(quantity := VNone);
    }
  }


  /** Entries the reply gives (non-empty text, a truthy quantity) are kept as given. */
  lemma GivenEntriesAreKept(platform: Platform, d: Reply)
    requires ReadingOfDecoded(platform, Object(d)).Some?
    ensures var r := ReadingOfDecoded(platform, Object(d)).value;
            (Given(d.currency) ==> r.currency == d.currency.value) &&
            (Given(d.availability) ==> r.availability == d.availability.value) &&
            (Given(d.seller) ==> r.seller == d.seller.value) &&
            (Truthy(d.quantity) ==> r.quantity == d.quantity) &&
            r.price == ToDecimal(d.price).value
  {
  }

  /**
   * Each missing or falsy entry gets its own default, whatever the others are: the platform's
   * currency, "Unknown", "" and `None`.
   */
  lemma MissingEntriesGetDefaults(platform: Platform, d: Reply)
    requires ReadingOfDecoded(platform, Object(d)).Some?
    ensures var r := ReadingOfDecoded(platform, Object(d)).value;
            (!Given(d.currency) ==> r.currency == DefaultCurrency(platform)) &&
            (!Given(d.availability) ==> r.availability == "Unknown") &&
            (!Given(d.seller) ==> r.seller == "") &&
            (!Truthy(d.quantity) ==> r.quantity == VNone)
  {
  }

  /** There is no positivity check: a negative price is passed on. */
  lemma NegativePriceIsPassedOn(platform: Platform, d: Reply, v: real)
    requires v < 0.0 && d.price == VNum(Fin(v))
    ensures ReadingOfDecoded(platform, Object(d)).Some?
    ensures ReadingOfDecoded(platform, Object(d)).value.price == Fin(v)
  {
  }

  /** A zero or missing price is falsy and rejected. */
  lemma ZeroPriceIsRejected(platform: Platform, d: Reply)
    requires d.price == VNum(Fin(0.0)) || d.price == VNone
    ensures ReadingOfDecoded(platform, Object(d)).None?
  {
  }

  /** A price of `true` is truthy but is no decimal, so it is rejected too. */
  lemma BooleanPriceIsRejected(platform: Platform, d: Reply)
    requires d.price == VBool(true)
    ensures ReadingOfDecoded(platform, Object(d)).None?
  {
    KeywordsDoNotConvert(VBool(true));
  }

  // ----------------------------------------------------------------- scrape

  /** The scraped dictionary for a reading: every entry present, `quantity_available` `None` when absent. */
  function AsScraped(r: AiReading, url: string): (d: ScrapedData)
    ensures d.price == Some(r.price) && d.productUrl == url
    ensures d.currency == Has(r.currency) && d.availability == Has(r.availability) && d.seller == Has(r.seller)
    ensures d.quantity.Null? <==> r.quantity.VNone?
  {
    ScrapedData(Some(r.price), Has(r.currency), Has(r.availability), Has(r.seller),
                if r.quantity.VNone? then Null else Has(r.quantity), url)
  }

  /**
   * `GeminiVisionScraper.scrape_product`: a screenshot (two attempts), then the reading; nothing
   * when either fails, otherwise the reading with `product_url` set to the scraped URL.
   */
  method VisionScrapeProduct(scraper: VisionScraper, url: string, shot: nat -> Option<seq<bv8>>,
                             replyText: Option<string>, decode: string -> Decoded)
    returns (data: Option<ScrapedData>)
    ensures var first := FirstSuccess(Captured(shot), 0, 2);
            var reading := AiReadingOf(scraper.config.platform, replyText, decode);
            data.Some? <==> first.Some? && shot(first.value).value != [] && reading.Some?
    ensures data.Some? ==> data.value == AsScraped(AiReadingOf(scraper.config.platform, replyText, decode).value, url)
    ensures data.Some? ==> data.value.productUrl == url && data.value.price.Some?
  {
    var bytes, _, _ := TakeScreenshot(scraper.config.delay, 2, shot);
    if bytes.None? || bytes.value == [] {
      return None;
    }
    var reading := ExtractPriceWithAi(scraper.config.platform, replyText, decode);
    if reading.None? {
      return None;
    }
    data := Some(AsScraped(reading.value, url));
  }
}
