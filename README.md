# Price tracker core, modelled in Dafny

This project models the engine of a Django price tracker. The tracker follows products across e-commerce platforms: Lazada, eBay, AliExpress, and any other site a Gemini-vision scraper can read.

For each active product and platform, the engine does the following:
- It picks a scraper. The vision scraper comes first when it is enabled and has a key. Otherwise the first of `lazada`, `ebay` and `aliexpress` that the platform's lower-cased name contains is used.
- It scrapes the URL stored in the newest record of that product and platform, with up to three attempts. A failed attempt `k` that is not the last is followed by a wait of `2 ** k` seconds.
- It validates the scraped price and currency. Only then does it append a price record.
- A batch run over all active products returns a summary: products scraped, prices stored, and errors.

Reading side:
- A product's latest record per platform is the input.
- The lowest, highest and average prices are taken over those records after conversion to Malaysian ringgit (MYR).
- The product page shows a one-sentence price summary and a seven-day chart per platform.
- Amounts are shown as "RM 1,234.50".

How the model represents the system:
- Python's decimals are exact `real`s. A decimal that may be NaN or infinite is `Dec`.
- What a scraper returns is `ScrapedData`. A JSON dictionary key that can be missing or `None` is a `Field` (`Absent`, `Null` or `Has`).
- The database table of price records is `Records.PriceTable`, whose `rows` sequence the saving methods append to. The time is an integer number of seconds.
- Everything the engine gets from outside is a parameter:
  - `render`, `shot` and the `LazadaPage`, `EBayPage` and `AliPage` records for the browser, the screenshot and the HTML selector results;
  - `replyText` and `decode` for the vision model's reply and `json.loads`;
  - `fetch` for what a scraper returns on each attempt;
  - `slugify` for `slugify(unidecode(...))`;
  - `Settings` for the Django settings;
  - `now` for the clock.

  Sleeps are returned as the list of their durations.

Loops of the source are methods with loops. Each is proved against a function describing its result:
- `GetPageHtml`, `TakeScreenshot` and `RetryAttempts`: the retry loops.
- `ScanJsonLd` and `ScanRunParams`: the script scans.
- `LatestPrices`: the per-platform loop of `get_latest_prices`.
- `Product.Save`: the slug loop.
- `ScrapeProduct` and `ScrapeProducts`: the platform and product loops.
- `ChartData`: the chart loop.

The rest of the logic is functions with lemmas.

`ScrapeOneProduct` and `ScrapeProducts` take a ghost parameter `step`: the per-product outcome, fixed to `ProductOutcome` by a quantified precondition. `ScrapeAllProducts` supplies it as `ProductStepOf(...)`, so its own contract mentions no ghost parameter.

## Model

| member | source | states |
|---|---|---|
| CoreModels.ActiveOnly | ecommerce/core/abstract_models.py:11-12 | an element is kept exactly when it is in the rows and active; every kept element is active; no rows are added |
| CoreModels.ActiveOnlyIdempotent | ecommerce/core/abstract_models.py:11-12 | filtering the active rows again changes nothing |
| CoreModels.ActiveOnlyAllActive | ecommerce/core/abstract_models.py:11-12 | rows that are all active are returned unchanged, in order |
| CoreModels.ActiveOnlyKeepsDistinct | ecommerce/core/abstract_models.py:11-12 | rows with pairwise distinct keys keep pairwise distinct keys after filtering |
| CoreModels.MaxOf | ecommerce/core/abstract_models.py:88-89 | the order of the first row by descending `sort_order` is a stored value at least every stored value |
| CoreModels.NextSortOrder | ecommerce/core/abstract_models.py:86-92 | a non-zero order is kept; 0 on an empty table becomes 1; 0 otherwise becomes the maximum plus one, above every stored order |
| CoreModels.OrderableItem.Save | ecommerce/core/abstract_models.py:82-94 | the item's order becomes the order `NextSortOrder` gives, strictly above all stored orders when it was 0 |
| CoreUtils.RemovePrefix | ecommerce/core/utils.py:115-116 | with the prefix present, prefix plus result is the text; otherwise the text is returned |
| CoreUtils.RemoveEmptyPrefix | ecommerce/core/utils.py:115-116 | removing the empty prefix returns the text |
| CoreUtils.RemoveAddedPrefix | ecommerce/core/utils.py:115-116 | removing a prefix from prefix plus text gives the text back |
| CoreUtils.ImgExtension | ecommerce/core/utils.py:75-87 | the extension is always one of "JPEG", "PNG", "GIF" |
| CoreUtils.ImgExtensionOfLastSegment | ecommerce/core/utils.py:79-84 | only the segment after the last '.' decides the extension |
| CoreUtils.ImgExtensionCases | ecommerce/core/utils.py:79-84 | whatever the stem, "PNG" exactly when the last segment lower-cases to "png", "GIF" exactly for "gif", "JPEG" exactly for any other segment |
| CoreUtils.Protocol | ecommerce/core/utils.py:34-43 | "https" exactly when HTTPS is on, "http" exactly when it is off |
| Currency.RatesArePositive | ecommerce/apps/products/currency_utils.py:12-21 | every rate in the table is positive |
| Currency.NormalizeCurrencyCode | ecommerce/apps/products/currency_utils.py:34-43 | a missing or empty code is "MYR"; no code normalises to "RM" |
| Currency.NormalizedIsCanonical | ecommerce/apps/products/currency_utils.py:37 | a normalised code has no lower-case letter and no surrounding whitespace |
| Currency.NormalizeIdempotent | ecommerce/apps/products/currency_utils.py:34-43 | normalising a non-empty normalised code changes nothing |
| Currency.NormalizeWhitespaceOnly | ecommerce/apps/products/currency_utils.py:34-43 | a whitespace-only code normalises to "", which normalises to "MYR": idempotence fails only there |
| Currency.NormalizeRinggitSpelling | ecommerce/apps/products/currency_utils.py:37-41 | "rm", "RM" and "myr" all normalise to "MYR" |
| Currency.TableRate | ecommerce/apps/products/currency_utils.py:68 | a rate is found exactly for the codes in the table, and it is that code's positive rate |
| Currency.LiveExchangeRate | ecommerce/apps/products/currency_utils.py:127-128 | a rate comes back exactly when the normalised source code is in the table, and it is that code's positive rate |
| Currency.CodeFactor | ecommerce/apps/products/currency_utils.py:67-72 | the factor of a known code is its rate, of an unknown code 1, and always positive |
| Currency.ConvertCode | ecommerce/apps/products/currency_utils.py:57-79 | conversion multiplies the amount by the code's rate, by 1 for ringgit or a code the table does not know; so 0 stays 0 |
| Currency.ConvertToMyr | ecommerce/apps/products/currency_utils.py:57-79 | an amount whose normalised code the table does not know is returned unchanged, a 1:1 rate |
| Currency.ConvertKnownCode | ecommerce/apps/products/currency_utils.py:57-79 | a non-zero amount in a canonical code the table knows, other than ringgit, is multiplied by that code's rate |
| Currency.ConvertKeepsSign | ecommerce/apps/products/currency_utils.py:57-79 | conversion keeps an amount positive, zero or negative |
| Currency.ConvertMonotone | ecommerce/apps/products/currency_utils.py:75 | conversion keeps the order of two amounts of the same currency |
| Currency.ConvertAgainstAmount | ecommerce/apps/products/currency_utils.py:12-21 | a positive amount does not shrink under a rate of at least 1, and shrinks for CNY |
| Currency.ConvertIdempotentInMyr | ecommerce/apps/products/currency_utils.py:64-65 | converting a converted amount again as ringgit changes nothing |
| Currency.ConvertMyrIsIdentity | ecommerce/apps/products/currency_utils.py:61-65 | an amount in "MYR" converts to itself |
| Currency.FormatCurrencyMyr | ecommerce/apps/products/currency_utils.py:92-100 | the rendering starts with "RM " |
| Currency.FormatZeroIsGeneral | ecommerce/apps/products/currency_utils.py:92-93 | the special "RM 0.00" for zero is what the general rendering gives |
| Currency.FormatCurrencyMyrIsFixed | ecommerce/apps/products/currency_utils.py:92-100 | every amount renders as "RM " and its two-decimal, comma-grouped text |
| Currency.FormatCurrencyMyrReadsBack | ecommerce/apps/products/currency_utils.py:95-100 | the digits and dot of the rendering read back as the amount's magnitude rounded half-even to cents |
| Currency.ToRm | ecommerce/apps/products/currency_utils.py:132-135 | the shorthand's text starts with "RM " |
| Currency.ToRmReadsBack | ecommerce/apps/products/currency_utils.py:132-135 | the shorthand shows the converted amount rounded to cents |
| Currency.ToRmOfMyr | ecommerce/apps/products/currency_utils.py:132-135 | for "MYR" the shorthand is the rendering of the amount itself |
| Numbers.KeepDigitsAndDots | ecommerce/apps/products/scrapers/base_scraper.py:58 | only digits and dots remain, and nothing is added |
| Numbers.KeepDigitsAndDotsUngroups | ecommerce/apps/products/scrapers/base_scraper.py:58 | removing the non-digits from comma-grouped digits gives the digits back |
| Numbers.ParseMantissa | ecommerce/apps/products/scrapers/base_scraper.py:60 | digits and dots read as a decimal are never negative |
| Numbers.ParseDecimalOfDigitsAndDots | ecommerce/apps/products/scrapers/base_scraper.py:60 | on a string of digits and dots, `Decimal` reads exactly the plain decimal number |
| Numbers.RoundHalfEven | ecommerce/apps/products/currency_utils.py:98 | the rounded value is within a half of the true one, and a tie goes to the even neighbour |
| Numbers.RoundedIsClose | ecommerce/apps/products/currency_utils.py:98 | the displayed magnitude is within half a unit in the last place of the true magnitude |
| Numbers.FormatFixedReadsBack | ecommerce/apps/products/currency_utils.py:98 | a fixed-point rendering, grouped or not, reads back as the rounded magnitude |
| Values.WordDoesNotConvert | ecommerce/apps/products/scraper_service.py:239-249 | text starting with a letter that spells no special value is not a decimal |
| Values.KeywordsDoNotConvert | ecommerce/apps/products/scraper_service.py:240 | `Decimal(str(v))` fails for `None`, `True` and `False` |
| Records.DefaultCurrency | ecommerce/apps/products/scraper_service.py:120 | the platform's currency when it is set and non-empty, else "MYR"; never empty |
| Records.Clean | ecommerce/apps/products/models.py:219-233 | no problem exactly for a positive price, a currency of at most 10 and availability of at most 50 characters; the price is checked first |
| Records.IsStale | ecommerce/apps/products/models.py:212-217 | a record never stamped is stale; a stamped record is fresh when taken at or after `now - hours*3600` and stale when taken before it (both directions) |
| Records.StaleStaysStale | ecommerce/apps/products/models.py:212-217 | a stale record stays stale as time passes |
| Records.StaleUnderNarrowerWindow | ecommerce/apps/products/models.py:212-217 | stale under a window of more hours implies stale under fewer |
| Records.JustTakenIsFresh | ecommerce/apps/products/models.py:214-217 | a record stamped now is not stale for any window |
| Records.PriceInMyr | ecommerce/apps/products/models.py:185-188 | the ringgit value is positive exactly when the price is |
| Records.PriceDisplay | ecommerce/apps/products/models.py:190-194 | the display starts with "RM " |
| Records.PriceDisplayReadsBack | ecommerce/apps/products/models.py:190-194 | the display shows the ringgit value rounded to cents |
| Records.OriginalSuffix | ecommerce/apps/products/models.py:209-210 | " (", the record's own currency, a space, then the price with two decimals and thousands separators, and a closing ")" |
| Records.WithOriginal | ecommerce/apps/products/models.py:204-210 | the RM display is kept as a prefix and extended exactly when the code is not "MYR" |
| Records.PriceDisplayWithOriginal | ecommerce/apps/products/models.py:196-210 | the RM display alone exactly when the normalised currency is "MYR"; otherwise followed by " (<currency> <price>)" |
| Records.PriceTable.Save | ecommerce/apps/products/models.py:235-246 | the record is appended whatever validation says, and the first validation problem is reported |
| Products.CandidatesDistinct | ecommerce/apps/products/models.py:119-124 | different attempts of the slug loop try different slugs |
| Products.FreeSlugFrom | ecommerce/apps/products/models.py:119-124 | the loop ends on a slug not taken, the first free candidate from where it starts |
| Products.FreeSlug | ecommerce/apps/products/models.py:119-126 | the slug chosen is not taken, and every earlier candidate is taken |
| Products.FreeBaseIsKept | ecommerce/apps/products/models.py:119-122 | a free base slug is used as it is |
| Products.UniqueFreeSlug | ecommerce/apps/products/models.py:119-126 | the first free candidate is the chosen slug: `base-k` for the smallest free k |
| Products.FreeSlugFromAny | ecommerce/apps/products/models.py:119-124 | resuming the loop after taken candidates gives the same slug |
| Products.Product.Save | ecommerce/apps/products/models.py:113-128 | an existing slug is kept; without a name nothing changes; otherwise the slug becomes the first free candidate |
| Products.ProductRows | ecommerce/apps/products/models.py:66 | a product's records are exactly the rows of that product |
| Products.PlatformIds | ecommerce/apps/products/models.py:66-68 | the groups are the platforms having records, each once |
| Products.NewestDate | ecommerce/apps/products/models.py:66-68 | a platform's latest date exists exactly when it has records, and it is the largest date it has |
| Products.FirstAt | ecommerce/apps/products/models.py:72-75 | a record found has the platform and date asked for; none is found only when no such record exists |
| Products.LatestDates | ecommerce/apps/products/models.py:66-68 | one (platform, latest date) pair per platform, in group order |
| Products.Collect | ecommerce/apps/products/models.py:70-77 | no more records than groups, each one of the product's records |
| Products.CollectOnePerGroup | ecommerce/apps/products/models.py:70-77 | exactly one record for each group that has one and none for a group without: the first record at the group's platform and date, in group order |
| Products.LatestView | ecommerce/apps/products/models.py:62-79 | every latest record is one of the table's records of the product |
| Products.LatestPrices | ecommerce/apps/products/models.py:62-79 | the loop returns the latest view of the product's records |
| Products.CollectGroups | ecommerce/apps/products/models.py:70-77 | the loop over the annotated groups returns, in group order, the first record of each group that has one |
| Products.CollectAllFound | ecommerce/apps/products/models.py:70-79 | when every group has a record, one is collected per group, in order |
| Products.GroupsAllFound | ecommerce/apps/products/models.py:71-77 | every (platform, latest date) group has a record |
| Products.LatestAligned | ecommerce/apps/products/models.py:62-79 | the i-th latest record belongs to the i-th platform and carries its latest date |
| Products.LatestOnePerPlatform | ecommerce/apps/products/models.py:62-79 | no two latest records share a platform |
| Products.LatestIsNewest | ecommerce/apps/products/models.py:62-79 | each latest record is the product's and no record of its platform is newer |
| Products.LatestCoversPlatforms | ecommerce/apps/products/models.py:62-79 | every platform with a record of the product has a latest record |
| Products.MyrPrices | ecommerce/apps/products/models.py:108 | one ringgit value per latest record, in order |
| Products.ArgMin | ecommerce/apps/products/models.py:88 | the position of a least value, the first one among ties |
| Products.ArgMax | ecommerce/apps/products/models.py:98 | the position of a greatest value, the first one among ties |
| Products.Lowest | ecommerce/apps/products/models.py:81-89 | none exactly for no records; otherwise a member whose ringgit value is at most every member's, the first such member: every earlier one is dearer |
| Products.Highest | ecommerce/apps/products/models.py:91-99 | none exactly for no records; otherwise a member whose ringgit value is at least every member's, the first such member: every earlier one is cheaper |
| Products.TieGoesToFirst | ecommerce/apps/products/models.py:81-99 | of two records of equal ringgit value, both the lowest and the highest is the first |
| Products.Average | ecommerce/apps/products/models.py:101-111 | none exactly without latest records; otherwise the mean of their ringgit values |
| Products.Mean | ecommerce/apps/products/models.py:101-111 | the mean multiplied back by the count gives the total |
| Products.AverageBetweenLowestAndHighest | ecommerce/apps/products/models.py:101-111 | the average lies between the lowest and the highest ringgit values |
| ScraperBase.NewScraper | ecommerce/apps/products/scrapers/base_scraper.py:17-26 | the scraper keeps the platform and delay it is given |
| ScraperBase.FirstPresent | ecommerce/apps/products/scrapers/lazada_scraper.py:28-30 | the text of the first selector that matched; none exactly when none matched |
| ScraperBase.MantissaOfDigitsAndDots | ecommerce/apps/products/scrapers/base_scraper.py:58-60 | digits and dots read as a decimal exactly when there is a digit and at most one dot |
| ScraperBase.KeepDigitsAndDotsHasDigit | ecommerce/apps/products/scrapers/base_scraper.py:58 | removing non-digits keeps every digit |
| ScraperBase.ExtractPrice | ecommerce/apps/products/scrapers/base_scraper.py:52-63 | no price exactly for missing or empty text; a price read is never negative |
| ScraperBase.ExtractPriceOutcome | ecommerce/apps/products/scrapers/base_scraper.py:58-63 | the conversion error that escapes happens exactly without a digit or with several dots; otherwise the price is the digits-and-dots number |
| ScraperBase.ExtractPriceOfRinggitDisplay | ecommerce/apps/products/scrapers/base_scraper.py:55-60 | an "RM 1,299.00" rendering is read back as its rounded amount |
| ScraperBase.FirstSuccess | ecommerce/apps/products/scrapers/base_scraper.py:76-95 | the first successful attempt below the limit, and none exactly when all fail |
| ScraperBase.GetPageHtml | ecommerce/apps/products/scrapers/base_scraper.py:76-105 | the HTML of the first attempt that renders, after that many attempts; none after all attempts fail; and the sleeps `PageSleeps` lists |
| ScraperBase.AllFailedSleeps | ecommerce/apps/products/scrapers/base_scraper.py:76-105 | when every one of n attempts fails there are 2n-1 sleeps |
| Vision.EffectiveKey | ecommerce/apps/products/scrapers/gemini_vision_scraper.py:30 | the key given, when non-empty, else the settings key |
| Vision.NewVisionScraper | ecommerce/apps/products/scrapers/gemini_vision_scraper.py:25-42 | `ValueError` without a key; ready exactly with a key and a working client, keeping key, platform and delay |
| Vision.ShopeeCookiesIgnoreCase | ecommerce/apps/products/scrapers/gemini_vision_scraper.py:103 | the cookie rule treats a URL and its upper-cased form alike |
| Vision.AddsShopeeCookies | ecommerce/apps/products/scrapers/gemini_vision_scraper.py:103 | a URL containing "shopee" gets the language cookies, whatever the case of the rest |
| Vision.TakeScreenshot | ecommerce/apps/products/scrapers/gemini_vision_scraper.py:91-142 | the bytes of the first successful attempt, or none after all attempts, with the sleeps `ShotSleeps` lists |
| Vision.AllFailedShotSleeps | ecommerce/apps/products/scrapers/gemini_vision_scraper.py:134-142 | when all attempts fail, attempt k is followed by a sleep of delay·(k+1), except the last |
| Vision.StripFences | ecommerce/apps/products/scrapers/gemini_vision_scraper.py:215-219 | a text without "```" is returned as it is; from a text with one the result holds no "```" |
| Vision.JsonText | ecommerce/apps/products/scrapers/gemini_vision_scraper.py:211-219 | whatever the reply, the text handed to the JSON parser holds no "```" |
| Vision.UnfencedReply | ecommerce/apps/products/scrapers/gemini_vision_scraper.py:211-215 | a reply without fences is parsed as stripped |
| Vision.StripFencesOfBlock | ecommerce/apps/products/scrapers/gemini_vision_scraper.py:216-217 | a "```json" block yields its stripped body |
| Vision.FencedJsonReply | ecommerce/apps/products/scrapers/gemini_vision_scraper.py:211-217 | a reply that is a "```json" block is parsed as its stripped body |
| Vision.ReadingOfDecoded | ecommerce/apps/products/scrapers/gemini_vision_scraper.py:232-257 | a reading exactly for an object with a truthy price that converts to a decimal; currency and availability never empty; the quantity is None or truthy, and a falsy given quantity becomes None |
| Vision.ExtractPriceWithAi | ecommerce/apps/products/scrapers/gemini_vision_scraper.py:144-281 | the reading of the fence-stripped reply text, none without a reply |
| Vision.GivenEntriesAreKept | ecommerce/apps/products/scrapers/gemini_vision_scraper.py:246-254 | non-empty entries and a truthy quantity are kept, and the price is its decimal |
| Vision.MissingEntriesGetDefaults | ecommerce/apps/products/scrapers/gemini_vision_scraper.py:246-254 | each missing or empty entry separately becomes the platform currency (or "MYR"), "Unknown" or "", and a falsy quantity becomes None, whatever the other entries are |
| Vision.FillDefaults | ecommerce/apps/products/scrapers/gemini_vision_scraper.py:246-254 | the price is untouched; each text entry is kept when non-empty, else its default; the quantity is kept when truthy, else None |
| Vision.NegativePriceIsPassedOn | ecommerce/apps/products/scrapers/gemini_vision_scraper.py:232-244 | a negative price is not rejected |
| Vision.ZeroPriceIsRejected | ecommerce/apps/products/scrapers/gemini_vision_scraper.py:232-236 | a zero or null price gives no reading |
| Vision.BooleanPriceIsRejected | ecommerce/apps/products/scrapers/gemini_vision_scraper.py:238-244 | a price of `true` fails the decimal conversion |
| Vision.AsScraped | ecommerce/apps/products/scrapers/gemini_vision_scraper.py:70-71 | the scraped data carries the reading's entries and the product URL |
| Vision.VisionScrapeProduct | ecommerce/apps/products/scrapers/gemini_vision_scraper.py:44-78 | data exactly when a non-empty screenshot is taken and a reading is found; then it is the reading with the URL |
| Lazada.LazadaAvailability | ecommerce/apps/products/scrapers/lazada_scraper.py:47-53 | "Out of Stock" exactly when the stock text says out of stock or sold out, else "In Stock" |
| Lazada.LazadaSeller | ecommerce/apps/products/scrapers/lazada_scraper.py:56-60 | the stripped seller text, else "" |
| Lazada.LazadaScrape | ecommerce/apps/products/scrapers/lazada_scraper.py:14-72 | none exactly without HTML, without a price element or on a conversion error; otherwise currency "MYR", the URL, the availability and seller rules, and the extracted price, which may be missing |
| Lazada.CurrencyElementIsIgnored | ecommerce/apps/products/scrapers/lazada_scraper.py:42-44 | the currency element has no effect on the result |
| Lazada.PriceOfRinggitDisplay | ecommerce/apps/products/scrapers/lazada_scraper.py:39-40 | a price element showing "RM 1,234.50" gives that amount |
| Lazada.SoldOutIsOutOfStock | ecommerce/apps/products/scrapers/lazada_scraper.py:51-53 | stock text containing "sold out" is out of stock |
| EBay.ScanJsonLd | ecommerce/apps/products/scrapers/eBay_scraper.py:26-41 | the loop returns the scan `LdScan` describes, starting from no price and "AUD" |
| EBay.ScanStopsAtFirstOffers | ecommerce/apps/products/scrapers/eBay_scraper.py:30-41 | unparseable and offer-less scripts are skipped; the first with offers ends the scan and sets price and currency only when the offers are an object |
| EBay.EBaySeller | ecommerce/apps/products/scrapers/eBay_scraper.py:59-63 | the stripped seller text, else "eBay Seller" |
| EBay.EBayAvailability | ecommerce/apps/products/scrapers/eBay_scraper.py:66-74 | "In Stock" exactly when the text says available or in stock; "Out of Stock" exactly when it does not but says out of stock or sold out; else "Unknown" |
| EBay.UnavailableCountsAsInStock | ecommerce/apps/products/scrapers/eBay_scraper.py:71-72 | text containing "unavailable" is classified "In Stock" |
| EBay.FallbackPrice | ecommerce/apps/products/scrapers/eBay_scraper.py:44-52 | a truthy price is kept; otherwise the first price element is parsed, and a conversion error ends the scrape |
| EBay.EBayFinish | ecommerce/apps/products/scrapers/eBay_scraper.py:54-82 | data exactly after a completed scan whose price, or else the page's, is truthy and converts; it carries the URL, the seller and availability rules, that price as a decimal and the scan's currency (null when none) |
| EBay.EBayScrapeProduct | ecommerce/apps/products/scrapers/eBay_scraper.py:12-86 | none without HTML; otherwise the result of the scan and the fallback |
| EBay.MissingCurrencyIsAud | ecommerce/apps/products/scrapers/eBay_scraper.py:36-38 | offers without a currency give "AUD" |
| EBay.FallbackPriceIsPositive | ecommerce/apps/products/scrapers/eBay_scraper.py:44-56 | a price taken from the page is a positive number |
| AliExpress.AmountValue | ecommerce/apps/products/scrapers/aliexpress_scraper.py:42-45 | a missing amount gives None, an object its value, and a non-object raises |
| AliExpress.ScriptStep | ecommerce/apps/products/scrapers/aliexpress_scraper.py:31-49 | a script without runParams, parsed data or a price module changes nothing; with a price module, a raising price line changes nothing; otherwise the price is the activity value when truthy, else the minimum value, and the loop ends with the truthy activity currency, else the minimum's currency (default "USD"); only when the currency line raises (no truthy activity currency and a minimum that is not an object) does the loop go on, keeping that price and the old currency |
| AliExpress.ScanStopsAtFirstBreak | ecommerce/apps/products/scrapers/aliexpress_scraper.py:30-49 | after scripts that change nothing, the first script that ends the loop fixes the scan's price and currency, whatever follows |
| AliExpress.ScanRunParams | ecommerce/apps/products/scrapers/aliexpress_scraper.py:25-49 | the loop returns the scan `RunParamsScan` describes, starting from no price and "USD" |
| AliExpress.IgnoredScriptsAreSkipped | ecommerce/apps/products/scrapers/aliexpress_scraper.py:31 | scripts that do not mention runParams do not affect the scan |
| AliExpress.CurrencyErrorKeepsNewPrice | ecommerce/apps/products/scrapers/aliexpress_scraper.py:42-49 | an error while reading the currency keeps the price already read and does not end the loop |
| AliExpress.SymbolCurrency | ecommerce/apps/products/scrapers/aliexpress_scraper.py:61-65 | '$' gives "USD" before the euro marker gives "EUR"; otherwise the currency is unchanged |
| AliExpress.AliSeller | ecommerce/apps/products/scrapers/aliexpress_scraper.py:72-76 | the stripped shop text, else "AliExpress Store" |
| AliExpress.AliAvailability | ecommerce/apps/products/scrapers/aliexpress_scraper.py:79-86 | "Out of Stock" exactly for out of stock or sold out, "Limited Stock" exactly for "only" and "left" otherwise, else "In Stock" |
| AliExpress.Fallback | ecommerce/apps/products/scrapers/aliexpress_scraper.py:52-65 | a truthy price is kept; otherwise the first price element is parsed and its symbols set the currency |
| AliExpress.AliFinish | ecommerce/apps/products/scrapers/aliexpress_scraper.py:67-94 | data exactly when the scan or fallback price is truthy and converts; it carries the URL, that price as a decimal, the currency (null when none), and the seller and availability rules |
| AliExpress.AliScrapeProduct | ecommerce/apps/products/scrapers/aliexpress_scraper.py:12-98 | none without HTML; otherwise the result of the scan and the fallback |
| AliExpress.NoPriceAnywhere | ecommerce/apps/products/scrapers/aliexpress_scraper.py:67-69 | with no runParams script and no price element there is no data |
| AliExpress.OnlyFewLeftIsLimited | ecommerce/apps/products/scrapers/aliexpress_scraper.py:85-86 | "only … left" without out-of-stock words is "Limited Stock" |
| Service.TableResolution | ecommerce/apps/products/scraper_service.py:53-61 | no scraper exactly when the lower-cased name contains no key; otherwise the selector scraper of the first key, in the order lazada, ebay, aliexpress, that the name contains, with the platform's delay |
| Service.ResolveScraper | ecommerce/apps/products/scraper_service.py:40-61 | with the vision scraper off or without a key the table decides; a working vision client is used; `ValueError` falls back to the table; any other error propagates |
| Service.GetScraper | ecommerce/apps/products/scraper_service.py:28-61 | the table loop returns the resolution `ResolveScraper` describes |
| Service.LazadaKeyComesFirst | ecommerce/apps/products/scraper_service.py:20-24 | a name containing "lazada" gets the Lazada scraper, whatever else it contains |
| Service.EBayKeyBeforeAliExpress | ecommerce/apps/products/scraper_service.py:20-24 | a name containing "ebay" and not "lazada" gets the eBay scraper, even when it contains "aliexpress" |
| Service.CurrencyOf | ecommerce/apps/products/scraper_service.py:252 | a missing currency key gives the platform default, a null one no currency |
| Service.ValidatePriceData | ecommerce/apps/products/scraper_service.py:214-271 | valid exactly for a finite price in (0, 999999999.99] with a non-empty currency of at most 10 characters; each rejection names its reason |
| Service.WholeAmountsPass | ecommerce/apps/products/scraper_service.py:244 | every whole amount from 1 to 999999999 is within bounds |
| Service.AttemptRecord | ecommerce/apps/products/scraper_service.py:96-125 | a record exactly for valid data with non-null availability, carrying the product, platform, URL, time, price, currency and the defaults "Unknown" and "" |
| Service.StoredRecordIsClean | ecommerce/apps/products/scraper_service.py:105-125 | a stored record has a price in bounds and a currency, so `clean` can only object to its availability's length |
| Service.NullAvailabilityFails | ecommerce/apps/products/scraper_service.py:116-125 | an availability of `None` stores nothing |
| Service.AllFailedWaits | ecommerce/apps/products/scraper_service.py:91-143 | when all attempts fail the waits are 1, 2, 4, … seconds, one fewer than the attempts |
| Service.AllFailedTotalWait | ecommerce/apps/products/scraper_service.py:98-101 | n failed attempts wait 2^(n-1) - 1 seconds in all |
| Service.PlatformOutcome | ecommerce/apps/products/scraper_service.py:64-143 | nothing for an inactive platform or a rejected URL; an error only when scraper construction raises; once the retries are reached, a price exactly when some attempt stores one |
| Service.PlatformPriceIsValid | ecommerce/apps/products/scraper_service.py:105-131 | a stored price is for that product, platform, URL and time, in bounds, with a currency of 1 to 10 characters |
| Service.RetryAttempts | ecommerce/apps/products/scraper_service.py:90-143 | the record of the first attempt that stores one, after that many calls; all attempts otherwise; the table grows by that record alone; the waits `BackoffWaits` lists |
| Service.ScrapeProductForPlatform | ecommerce/apps/products/scraper_service.py:64-143 | the outcome `PlatformOutcome` describes; no calls and no waits before the retry loop; the table grows only by the stored record |
| Service.NewestOf | ecommerce/apps/products/scraper_service.py:167-170 | a record found is one of the rows and of the pair; none is found only when no row is of the pair |
| Service.NewestOfIsNewest | ecommerce/apps/products/scraper_service.py:167-170 | the newest record of the pair, none exactly when the pair has no record |
| Service.NewestOfPrefersEarlier | ecommerce/apps/products/scraper_service.py:167-170 | among equally new records the first saved is taken |
| Service.StoredUrl | ecommerce/apps/products/scraper_service.py:167-176 | a URL only from the newest record of the pair, and never empty |
| Service.PlatformStep | ecommerce/apps/products/scraper_service.py:163-180 | a platform without a stored URL is skipped; a created record is for the product, platform and time with a price in bounds |
| Service.PlatformsFrom | ecommerce/apps/products/scraper_service.py:160-182 | the table grows exactly by the records created, no more of them than platforms |
| Service.PlatformsFromInOrder | ecommerce/apps/products/scraper_service.py:160-182 | each created record is on a platform of the loop, and the platforms of successive records lie at strictly increasing positions: at most one record per platform |
| Service.PlatformsFromDistinct | ecommerce/apps/products/scraper_service.py:160-182 | over platforms with distinct ids no two created records share a platform |
| Service.PlatformsFromMadeFor | ecommerce/apps/products/scraper_service.py:160-182 | every created record is for the product and time, in bounds, on one of the platforms |
| Service.ProductOutcome | ecommerce/apps/products/scraper_service.py:146-182 | an inactive product creates nothing; the table grows exactly by the created records |
| Service.ProductOutcomeMadeFor | ecommerce/apps/products/scraper_service.py:156-182 | every created record is for the product, on an active platform it was given |
| Service.ProductOutcomeDistinct | ecommerce/apps/products/scraper_service.py:146-182 | over platforms with distinct ids `scrape_product` creates at most one record per platform |
| Service.ScrapePlatform | ecommerce/apps/products/scraper_service.py:163-180 | one platform of the loop, appending its record when it stores one |
| Service.ScrapeProduct | ecommerce/apps/products/scraper_service.py:146-182 | the loop ends in the state and result `ProductOutcome` describes |
| Service.ScrapePlatforms | ecommerce/apps/products/scraper_service.py:161-180 | the loop over the active platforms leaves the table and returns the records and exception that `PlatformsFrom` describes, stopping at the first exception |
| Service.ErrorEntry | ecommerce/apps/products/scraper_service.py:207 | an error entry starts with "Error scraping " |
| Service.Tally | ecommerce/apps/products/scraper_service.py:201-209 | an error adds an entry and nothing else; otherwise a product with records counts once and adds its records |
| Service.ProductsFrom | ecommerce/apps/products/scraper_service.py:200-209 | each product counts at most once, as scraped or as an error; a scraped product adds a price; earlier errors are kept as a prefix |
| Service.ProductsFromRows | ecommerce/apps/products/scraper_service.py:200-209 | the table only grows; the prices counted never exceed the records added, and equal them when nothing raised |
| Service.ScrapeOneProduct | ecommerce/apps/products/scraper_service.py:202 | one product of the loop, as the product outcome describes |
| Service.ScrapeProducts | ecommerce/apps/products/scraper_service.py:193-211 | the loop ends with the table and summary `ProductsFrom` describes |
| Service.ScrapeAllProducts | ecommerce/apps/products/scraper_service.py:185-211 | the batch over the active products ends with the table and summary `ProductsFrom` describes |
| Service.SummaryBounds | ecommerce/apps/products/scraper_service.py:185-211 | scraped plus errors is at most the number of active products, and scraped ≤ prices ≤ records added |
| Views.SavingsPercent | ecommerce/apps/pages/views.py:145-146 | with a positive average, percent · average = (average - lowest) · 100, and above 10 exactly when lowest < 0.9 · average; 0 otherwise |
| Views.Savings | ecommerce/apps/pages/views.py:144-153 | empty exactly without several records and a non-zero average; the saving text exactly above 10 %; "Price difference is minimal" otherwise |
| Views.SavingsReadsBack | ecommerce/apps/pages/views.py:149 | the saving text ends in '%' and shows the percentage rounded to one decimal |
| Views.PriceText | ecommerce/apps/pages/views.py:155-161 | "RM" before the price for "MYR", "$" for "USD", the price then the code otherwise |
| Views.GeneratePriceSummary | ecommerce/apps/pages/views.py:137-168 | "No price data available." exactly without records or a lowest record; otherwise the summary starts with the lowest-price sentence |
| Views.GeneratePriceSummaryInMyr | ecommerce/apps/pages/views.py:137-168 | the same structure for the summary that compares the lowest record's ringgit value |
| Views.NoSavingsSentence | ecommerce/apps/pages/views.py:144-168 | with one record or no average the summary is the lowest-price sentence alone |
| Views.SavingsThreshold | ecommerce/apps/pages/views.py:144-166 | with several records and an average, the savings sentence follows, and it claims a saving exactly when the raw lowest price is below 90 % of a positive average |
| Views.RinggitSpelledRm | ecommerce/apps/pages/views.py:156-161 | a currency spelled "RM" is not recognised: the price comes first, then " RM" |
| Views.InMyrAgreesForRinggit | ecommerce/apps/pages/views.py:144-146 | when the lowest record is in ringgit the corrected summary equals the one as written |
| Views.PercentInRange | ecommerce/apps/pages/views.py:145-146 | a lowest value in (0, average] gives a percentage in [0, 100) |
| Views.InMyrPercentInRange | ecommerce/apps/pages/views.py:144-146 | computed in ringgit over positive latest prices, the percentage lies in [0, 100) |
| Views.MixedCurrencyOverstatesSavings | ecommerce/apps/pages/views.py:144-151 | records of 10 USD and 50 MYR: the summary as written claims a saving, the ringgit comparison says the difference is minimal |
| Views.Window | ecommerce/apps/pages/views.py:88-91 | exactly the product's records from the cut-off on, drawn from the table |
| Views.InsertByDate | ecommerce/apps/pages/views.py:91 | insertion adds the record and keeps all others |
| Views.InsertKeepsSorted | ecommerce/apps/pages/views.py:91 | insertion keeps the records in date order |
| Views.SortByDate | ecommerce/apps/pages/views.py:91 | the result is in date order and a permutation of its input |
| Views.PriceHistory | ecommerce/apps/pages/views.py:87-91 | the product's records of the last seven days, in date order, no others |
| Views.OnPlatform | ecommerce/apps/pages/views.py:98 | exactly the history's records of the platform |
| Views.OnPlatformKeepsSorted | ecommerce/apps/pages/views.py:98 | a platform's part of the history keeps its date order |
| Views.SeriesOf | ecommerce/apps/pages/views.py:100-103 | one date and one price per record, in order |
| Views.ChartData | ecommerce/apps/pages/views.py:94-103 | the chart built over the active platforms is the one `ChartOf` describes |
| Views.LastWithRecords | ecommerce/apps/pages/views.py:97-103 | the last platform with the name that has records, and no later one has |
| Views.ChartLines | ecommerce/apps/pages/views.py:94-103 | a name has a line exactly when some platform with it has records; the line is the last such platform's series |
| Views.ChartLinesAreWellFormed | ecommerce/apps/pages/views.py:87-103 | a line has as many dates as prices, at least one, ascending and within the seven days |
| Views.ChartKeyHasRecords | ecommerce/apps/pages/views.py:95-103 | a name in the chart belongs to an active platform with a record of the product in the window |
| Views.RecordsGiveChartKey | ecommerce/apps/pages/views.py:95-103 | an active platform with a record of the product in the window has a line |
| Views.ChartKeysAreActivePlatforms | ecommerce/apps/pages/views.py:95-103 | a name is in the chart exactly when an active platform with that name has a record of the product in the window |

## Left out

- The browser (Playwright), screenshots and cookies, BeautifulSoup selectors, the AliExpress `runParams` regular expression, `json.loads` and the Gemini API are outside the model. Their results are parameters: `render`, `shot`, the page records, `decode` and `replyText`. The Shopee cookie rule is modelled only as the predicate deciding it.
- An exception raised inside a scraper's `scrape_product` becomes `None` in `fetch`. The service treats a raise and a `None` result alike.
- `time.sleep` is not performed; each loop returns the durations it would sleep.
- `timezone.now()` is the parameter `now`. Datetimes are integer seconds.
- The chart's `strftime` date text and `float(p.price)` are not modelled: dates stay integers and prices exact.
- Floating point is not modelled:
  - `float()` in the savings percentage is exact rational arithmetic.
  - Its `.1f` text is the exact value rounded half-even.
  - The bound 999999999.99 is the exact value of that binary double, since `Decimal` compares with a float exactly.
- Decimal context precision (28 digits) is not modelled; sums, products and quotients are exact.
- `Decimal` text with an exponent (`1e3`) or with underscores is not read as a number; the model rejects it.
- Python's `lower`, `upper` and `strip` are modelled on ASCII letters and ASCII whitespace only.
- `slugify(unidecode(...))` is the uninterpreted parameter `slugify`.
- The database is a sequence of records. Other details are not modelled:
  - `DecimalField(max_digits=10, decimal_places=2)` quantisation;
  - the `CharField` length limits;
  - every column constraint except availability's NOT NULL, whose failure the retry loop treats like any other exception.
- Query ordering follows a few fixed choices:
  - Platforms and products arrive as given sequences, in their query order.
  - The `values('platform')` groups of `get_latest_prices` are in order of first appearance.
  - Among records of equal date, the first saved is the one `.first()` returns.
- The price summary's chart data is not serialised; `json.dumps` and `mark_safe` are left out. A chart key is the platform's name as `Option<string>`, with `None` for a missing name.
- The cache branch of `get_live_exchange_rate`, the Gemini model-name fallback and the debugging file are left out, as is all logging.
- CoreModels.NextSortOrder: does not model the 32767 limit of `PositiveSmallIntegerField`, because the database type is outside the model.
- Records.Clean: models the checks in `clean` itself, not the field validators `full_clean` also runs (URL syntax, lengths), because their errors, like this method's, are only logged.
- Currency.FormatCurrencyMyr: states only the "RM " prefix itself; the digits are stated by `Currency.FormatCurrencyMyrIsFixed` and `Currency.FormatCurrencyMyrReadsBack`.
- Digits are ASCII digits only. The pattern `[^\d.]` of `extract_price` (ecommerce/apps/products/scrapers/base_scraper.py:58) keeps every Unicode decimal digit, and `Decimal` reads them, so "RM ٣" gives 3 in Python; in the model `Numbers.IsDigit` drops '٣' and the text does not convert.
- Text entries of scraped data are strings or missing or null (`Field<string>`). JSON numbers, lists or objects in the eBay `priceCurrency`, the AliExpress `runParams` currency or the vision reply's currency, availability and seller cannot be represented. In Python, `len(5)` at ecommerce/apps/products/scraper_service.py:252 raises `TypeError`, which lines 269-271 turn into a rejection, and a short list passes the length check.
- The scheduler, the management commands, the admin classes, the home and list views, and the helpers for hashing, random strings, file names, thumbnails, referrers and locale formatting are not part of this model.

## Findings

| source | as written | input that shows it | evidently intended | confidence | as-written member | corrected member |
|---|---|---|---|---|---|---|
| ecommerce/apps/pages/views.py:144-146 | the savings percentage compares the lowest record's raw price with the average, which is in ringgit | latest records of 10 USD and 50 MYR: the lowest is the USD record (46.70 RM), the average is 48.35 RM, and 10 against 48.35 claims a saving of about 79.3 % | compare the lowest record's ringgit value with the ringgit average, so the difference is minimal (about 3.4 %) | high for the arithmetic, not executed | Views.MixedCurrencyOverstatesSavings | Views.InMyrPercentInRange |
