# snowboard-monitor in Dafny

This project models two pieces of snowboard-monitor and proves properties about them.

- **The scraper** (`GitHubSnowboardScraper`):
  - brand detection;
  - price extraction, from the `$`-token scan to the truncated discount;
  - assembly of one product record from a product container;
  - the per-page loop, which skips containers that raise;
  - the loop over listing pages, which stops at the first failing or empty page.
- **The home page of the WeChat mini-program**:
  - its statistics;
  - the first page of products;
  - paging with `loadMore`;
  - the keyword and brand filters.

## Modules

- `Common` (common.dfy): `Option`, `Result` and the exceptions the scraper can raise (`ZeroDivisionError`, `AttributeError`).
- `Text` (text.dfy):
  - ASCII lower-casing;
  - the substring test, used for Python's `in` and JavaScript's `includes`;
  - decimal digit strings and their values.
- `Brands` (brands.dfy): `detect_brand`. It is a first-match search through the ordered list of fourteen brands, with the sentinel "其他品牌".
- `Prices` (prices.dfy): `extract_prices`, in four steps:
  1. the scan `\$([\d,]+\.?\d*)`, modelled as a greedy scanner over the text;
  2. the filter on the comma- and dot-stripped token;
  3. the comma-free parse to an exact value;
  4. the min/max rule, with the discount taken as the percentage by which the minimum falls below the maximum, truncated and written with "%".
  Two or more prices that are all zero raise `ZeroDivisionError`.
- `PriceExamples` (price_examples.dfy): worked examples, including the sale listing "Burton Custom X Snowboard $899.99 $999.99".
- `Scraper` (scraper.dfy):
  - a container is its optional heading, optional `<img>` and full text;
  - `extract_product_info` is a function from a container to a record or a raised exception;
  - `parse_products_page` and `scrape_all_products` are methods with loops, proved against specification functions.
  - A listing page fetch is a function from page number to "raised" or a response (status and containers).
- `IndexPage` (index_page.dfy): the page's `data` is a class. Each handler is a method that updates its fields the way `setData` does.

Three behaviours of the source are reproduced, not fixed:

- `loadMore` slices the next page from the unfiltered `allProducts`, even after a filter. `IndexPage.FilterThenLoadMore` shows a product of another brand appearing under a brand filter.
- `processData` does not reset `currentPage`. After a pull-down refresh that follows paging, the next `loadMore` skips products. `IndexPage.RefreshThenLoadMore` shows this.
- `processData` puts the raw data-file products into `displayedProducts`. The other handlers put the mapped entries there. `IndexPage.Card` keeps the two kinds apart.

Behaviours of the code worth noting:

- the discount is truncated (`int(...)`), not rounded, and is a string with "%";
- prices are neither deduplicated nor capped, and zero prices are kept;
- records are not deduplicated across pages;
- the name comes only from the h1–h4 heading;
- there is no category or URL logic, because the two methods the scraper calls for them do not exist (see Findings).

## Model

| member | source | states |
|---|---|---|
| Brands.DetectBrand | src/scraper.py:106-114 | The result is the sentinel "其他品牌" or one of the fourteen listed brands. `DetectBrandIsFirstMatch` and `DetectBrandSentinel` state which one. |
| Brands.FirstMention | src/scraper.py:111-113 | Returns the index of the first brand in the list that the name mentions, case-insensitively; no earlier brand is mentioned. Returns None exactly when no brand is mentioned. |
| Brands.DetectBrandIsFirstMatch | src/scraper.py:108-113 | A result other than the sentinel is the first listed brand whose lower-cased form occurs in the lower-cased name. |
| Brands.DetectBrandSentinel | src/scraper.py:111-114 | The sentinel is returned exactly when no listed brand occurs in the name. Any other result is a member of the brand list. |
| Brands.DetectBrandIgnoresCase | src/scraper.py:112 | Lower-casing the name first never changes the detected brand. |
| Brands.NoLettersNoBrand | src/scraper.py:108-114 | A name without ASCII letters gets the sentinel. |
| Brands.BurtonRideIsBurton | src/scraper.py:108-113 | "Burton Ride" mentions two brands and gives "Burton". |
| Brands.RideBurtonIsBurton | src/scraper.py:108-113 | "Ride Burton" also gives "Burton": list order breaks ties, not position in the name. |
| Text.ContainsIffOccurs | src/scraper.py:112 | The substring test holds exactly when the needle occurs at some index of the text. |
| Text.DigitsOfNat | src/scraper.py:125 | The decimal text of a whole number reads back as that number, as in the f-string of the discount. |
| Prices.Tokens | src/scraper.py:118 | No contract; the definition is the model of `re.findall` with this pattern. At each `$` followed by a digit or comma it captures the longest match of the group and resumes right after it; elsewhere it moves on by one character. `TokensAreCaptures`, `TokensSkipPlainText` and `TokensOfListing` state its properties. |
| Prices.TokensAreCaptures | src/scraper.py:118 | Every scanned token matches the group `[\d,]+\.?\d*`. |
| Prices.CaptureLenOfCapture | src/scraper.py:118 | When a capture is followed by a character that cannot extend it, the greedy match takes exactly that capture. |
| Prices.TokensSkipPlainText | src/scraper.py:118 | Text without `$` yields no token and does not disturb the scan of what follows. |
| Prices.TokensOfListing | src/scraper.py:118 | Round trip: captures written after `$` signs and separated by non-extending text are scanned back exactly, in order. |
| Prices.Remove | src/scraper.py:119 | `replace(c, '')` leaves no `c`. |
| Prices.Kept | src/scraper.py:119 | No contract; the definition is the filter: once its commas and dots are removed, the token is a non-empty ASCII digit string. `CommasIgnored`, `CaptureValue` and `WholeDollarsParse` state which tokens it keeps. |
| Prices.Stripped | src/scraper.py:119 | No contract; the definition is the token with its commas and dots removed, as the filter sees it. |
| Prices.ParsePrice | src/scraper.py:119 | The parsed value of a token is never negative. Its exact value is stated by `NumeralParses`, `CaptureValue` and `WholeDollarsParse`. |
| Prices.CaptureValue | src/scraper.py:118-119 | Every token the scan can capture is split into its integer digits (commas dropped) and its fraction digits. The filter keeps it exactly when one of the two is non-empty, and it parses to the exact decimal value they form. |
| Prices.DigitTokenValue | src/scraper.py:119 | A token that is a digit string once its commas are removed is kept exactly when a digit remains, and parses to the value of those digits. |
| Prices.WholeDollarsParse | src/scraper.py:119 | A non-empty digit string, a whole-dollar token, passes the filter and parses to the value of its digits. |
| Prices.CommasIgnored | src/scraper.py:119 | A comma anywhere in a token changes neither whether the filter keeps it nor its parsed value. |
| Prices.NumeralParses | src/scraper.py:119 | A token `whole.frac` made of digits passes the filter and parses to its exact decimal value. |
| Prices.DecimalValueOfNumeral | src/scraper.py:119 | The value of `whole.frac` is whole plus frac scaled by its number of digits. |
| Prices.ParsePriceOfCents | src/scraper.py:119 | Round trip: a dollar amount written `D.CC` parses back to that amount. |
| Prices.ParseKept | src/scraper.py:119 | There are at most as many values as tokens, and every value is non-negative. `ParseKeptMembership` and `ParseKeptOfConcat` state which values appear and in what order. |
| Prices.KeptValue | src/scraper.py:119 | One token contributes at most one value, and contributes a value exactly when the filter keeps the token and the token parses to that value. |
| Prices.ParseKeptMembership | src/scraper.py:119 | A value is among the parsed values exactly when some kept token parses to it. |
| Prices.ParseKeptOfConcat | src/scraper.py:119 | Token order is kept: the values of two token lists placed together are those of the first list, then those of the second. |
| Prices.ListingValues | src/scraper.py:118-119 | The values of a listing text are the parsed kept captures written after its `$` signs, in order. |
| Prices.SeqMin | src/scraper.py:123 | The result is one of the values and is at most every value. |
| Prices.SeqMax | src/scraper.py:124 | The result is one of the values and is at least every value. |
| Prices.DiscountPercent | src/scraper.py:125 | The discount is the truncation of the exact percentage: at most it and more than it minus one. It lies in 0..100. |
| Prices.PriceRule | src/scraper.py:121-130 | No value gives three Nones. One value gives it as current, with no original or discount. With two or more values, the call fails exactly when all are zero, and the failure is ZeroDivisionError. Otherwise current is a listed value at most every value, original is a listed value at least every value, and discount is the truncated percentage followed by "%". |
| Prices.ExtractPrices | src/scraper.py:116-130 | The only exception it raises is `ZeroDivisionError`. Its definition applies the min/max rule (`PriceRule`) to the kept values of the scanned tokens. |
| Prices.CurrentAtMostOriginal | src/scraper.py:121-126 | Whenever there is an original price there is a current one, and it is at most the original. |
| Prices.EqualPricesNoDiscount | src/scraper.py:121-126 | Duplicates are not collapsed: equal positive prices give that price as both current and original, with "0%". |
| PriceExamples.ThousandsSeparator | src/scraper.py:118-119 | `$1,299.99` yields the single value 1299.99. |
| PriceExamples.BareCommaDropped | src/scraper.py:118-119 | `$,` is captured, then dropped by the filter. |
| PriceExamples.WholeDollarPrice | src/scraper.py:118-119 | `$450` yields the single value 450. |
| PriceExamples.LeadingCommaFraction | src/scraper.py:119 | The capturable token `,.5` passes the filter and parses to 0.5. |
| PriceExamples.SaleListing | src/scraper.py:116-126 | "Burton Custom X Snowboard $899.99 $999.99" gives current 899.99, original 999.99 and "10%". |
| Scraper.NameOf | src/scraper.py:80-81 | No contract; the definition is the model: the heading's stripped text, or "未知产品" when there is no heading. |
| Scraper.ImageUrlOf | src/scraper.py:90-91 | No contract; the definition is the model: "" without an `<img>`, otherwise the tag's `src`, absent when the tag has none. |
| Scraper.GenerateId | src/scraper.py:132-136 | No contract; the definition is the model: the digest of the brand and the name joined by "_". `IdDependsOnNameOnly` states what follows from it. |
| Scraper.ExtractProductInfo | src/scraper.py:77-104 | A record comes back exactly when the prices, the product URL and the category do not raise. Its name is the heading text or "未知产品", and its brand is detected from the name. Its id is the digest of brand and name, its image URL is "" without an img, and its prices are those of the container text. |
| Scraper.IdDependsOnNameOnly | src/scraper.py:84-94 | Two containers with the same heading get the same id and brand, whatever their prices, image or other text. |
| Scraper.NoHeadingIsUnbranded | src/scraper.py:80-84 | Without a heading, the record is named "未知产品" and gets the sentinel brand, even when its text names a brand. |
| Scraper.UnknownProductIsUnbranded | src/scraper.py:81-84 | The default name mentions no listed brand. |
| Scraper.PageRecords | src/scraper.py:66-75 | No contract; the definition is the model: the records of the containers that do not raise, in container order. `PageRecordsMembership`, `PageRecordsOfConcat` and `PageEmptyIffAllRaise` state its properties. |
| Scraper.Contribution | src/scraper.py:67-73 | One container adds at most one record: the record it extracts to, or nothing when extraction raises. |
| Scraper.ParseProductsPage | src/scraper.py:58-75 | The loop returns the page's records: one per container that does not raise, in container order. |
| Scraper.PageRecordsMembership | src/scraper.py:66-75 | A record is on the page exactly when some container extracts to it. |
| Scraper.PageRecordsOfConcat | src/scraper.py:66-75 | The records of two container runs placed together are those of the first run, then those of the second. |
| Scraper.PageEmptyIffAllRaise | src/scraper.py:66-75 | A page gives no record exactly when every container raises. |
| Scraper.ScrapeAllProducts | src/scraper.py:24-56 | The loop returns the records of pages 1, 2, ... up to, but not including, the first page that raises, answers other than 200, or yields no record. |
| Scraper.Collected | src/scraper.py:31-56 | No contract; the definition is the model: the records of the pages from `page` on, in page order, up to the first page that stops the loop. `CollectedStep` and `CollectedUpToFirstStop` state its properties. |
| Scraper.CollectedStep | src/scraper.py:44-50 | A page that does not stop the loop contributes its records ahead of those of the pages after it. |
| Scraper.CollectedUpToFirstStop | src/scraper.py:31-56 | The result is the in-order concatenation of the pages before the first stopping page. |
| Scraper.AsWrittenPagesAreEmpty | src/scraper.py:66-75 | As written, every container raises at the missing `extract_product_url`, so every page is empty. |
| Scraper.AsWrittenScrapeIsEmpty | src/scraper.py:44-46 | As written, page 1 always stops the loop and a run collects no product. |
| Scraper.WorkingHooksAssemble | src/scraper.py:93-104 | When the two methods exist and the prices parse, the record is assembled and carries the URL and category they return. |
| IndexPage.ToEntry | weapp/pages/index/index.js:71-83 | No contract; the definition is the model: the copied fields, with `image` set to the local image's URL under `BaseUrl` when `local_image` is truthy, and to `image_url` otherwise. |
| IndexPage.BrandSet | weapp/pages/index/index.js:68 | A brand is in the set exactly when some product has it. |
| IndexPage.BrandCountBounds | weapp/pages/index/index.js:68 | The distinct-brand count is 0 for no product, and otherwise between 1 and the number of products. |
| IndexPage.StatsOf | weapp/pages/index/index.js:66-70 | No contract; the definition is the model: each figure comes from the metadata when it is truthy, and otherwise is counted from the products or set to "未知". `StatsFallback` states the fallback. |
| IndexPage.StatsFallback | weapp/pages/index/index.js:62-69 | Without a truthy metadata value, the total is the number of products and the brand count is the distinct-brand count (0, or 1 up to the total). The update time is then "未知". |
| IndexPage.Slice | weapp/pages/index/index.js:84 | The slice has the clamped length, and its items are those of the list from `start` on. |
| IndexPage.SliceAdjacent | weapp/pages/index/index.js:93-99 | Adjacent slices join into the slice that spans both. |
| IndexPage.KeywordFilter | weapp/pages/index/index.js:133-136 | An entry is kept exactly when its lower-cased name or brand contains the keyword. |
| IndexPage.BrandFilter | weapp/pages/index/index.js:141 | An entry is kept exactly when its brand equals the selected brand. |
| IndexPage.Filtered | weapp/pages/index/index.js:128-142 | No contract; the definition is the model of the two filter stages. `FilteredIsMatching` proves it equal to the one-pass filter `Matching`. |
| IndexPage.Matching | weapp/pages/index/index.js:128-142 | An entry is kept exactly when it passes both tests, where an empty keyword or an empty brand lets every entry through. |
| IndexPage.FilteredIsMatching | weapp/pages/index/index.js:128-142 | The source's two filter stages give exactly the entries that pass both tests, in their original order. |
| IndexPage.MatchingOfConcat | weapp/pages/index/index.js:128-142 | Filtering keeps order: the matches of two lists placed together are those of the first list, then those of the second. |
| IndexPage.MatchingKeepsPassing | weapp/pages/index/index.js:128-142 | A list whose every entry passes is kept whole. |
| IndexPage.FirstPagePasses | weapp/pages/index/index.js:144-145 | Every card of the first filtered page shows an entry that passes both filters. |
| IndexPage.IndexPage.constructor | weapp/pages/index/index.js:2-17 | The initial page data, with the initial `loading` true, `currentPage` 1 and `hasMore` true. |
| IndexPage.IndexPage.ProcessData | weapp/pages/index/index.js:61-87 | The statistics are set from the metadata or counted from the products, and the entries are built from the products. The first ten raw products are shown, and `hasMore` holds exactly when there are more than ten. `currentPage`, the filters and `loading` are unchanged. When `currentPage` was 1, the shown cards are the leading page. |
| IndexPage.IndexPage.LoadData | weapp/pages/index/index.js:34-58 | A 200 reply is processed. Any other reply, or a failed request, leaves the list as it was. `loading` ends false. |
| IndexPage.IndexPage.LoadMore | weapp/pages/index/index.js:90-106 | The method does nothing while loading or when `hasMore` is false. When the next unfiltered page is non-empty, it appends that page, increments `currentPage`, and sets `hasMore` to whether the list goes on. Otherwise it only clears `hasMore`. It keeps "shows the leading pages" and never shows more than `currentPage` pages. |
| IndexPage.IndexPage.FilterProducts | weapp/pages/index/index.js:128-149 | The first ten filtered entries are shown, `currentPage` becomes 1, and `hasMore` holds exactly when more than ten entries pass. Every shown card passes both filters. |
| IndexPage.IndexPage.OnSearchInput | weapp/pages/index/index.js:109-113 | The keyword is stored lower-cased, then the list is filtered. |
| IndexPage.IndexPage.OnBrandFilter | weapp/pages/index/index.js:116-119 | The brand is stored as given, then the list is filtered. |
| IndexPage.FilterThenLoadMore | weapp/pages/index/index.js:93-95 | With eleven products of one brand followed by one of another, filtering on the first brand and then loading more shows the other brand's product. |
| IndexPage.RefreshThenLoadMore | weapp/pages/index/index.js:84-100 | A refresh after one `loadMore`, followed by another `loadMore`, shows product 21 right after the first ten. |

## Left out

- Network access is not modelled. This covers `requests.get` with its timeout, the page URLs (src/scraper.py:34-40) and `wx.request`. A page fetch is a function from page number to an outcome, and a data-file request is a `Reply` parameter.
- Logging, `os.makedirs`, `save_data`, `main`, `datetime.now()` and the `scraped_at` field are I/O or clock values, so they are not modelled.
- HTML parsing with BeautifulSoup is not modelled, including the selection of product `div`s (src/scraper.py:60-64). A container is given by its heading text, its first `<img>` and its full text.
- The md5 digest of `generate_id` is an uninterpreted function (`Hooks.digest`). The model states only which string it is applied to.
- `extract_product_url` and `detect_category` are not defined by `GitHubSnowboardScraper`, which has no base class to inherit them from. They are uninterpreted functions that may raise, and `AsWrittenHooks` makes them raise as the source does.
- Prices are exact reals. Float rounding in `float()` and in the discount division is not modelled. Where a float result falls just below a whole percent, Python's `int()` can give one less than the exact truncation modelled here.
- Prices.ExtractPrices: does not model float overflow. In the source, a token whose value exceeds about 1.8e308 parses to `inf`. When two or more values are kept and the largest is `inf`, the discount at src/scraper.py:125 takes `int` of `nan`, and the resulting `ValueError` makes `parse_products_page` skip the container. The model reads the token as an exact real, keeps the container and computes a discount.
- Python's `\d`, `isdigit()` and `lower()` and JavaScript's `toLowerCase()` accept Unicode. The model handles ASCII digits and ASCII letters only.
- Scraper.ScrapeAllProducts: requires a page that stops the loop to exist. On a site where no page stops it, the source never terminates, and the model does not cover that case.
- `sortProducts` and `onSortChange` are not modelled: they rely on `parseFloat`, `localeCompare` and the engine's sort. The `sortBy` field is kept and left unchanged.
- `viewProduct`, `copyPriceInfo`, `wx.showToast` and `wx.stopPullDownRefresh` are clipboard and UI calls, so they are not modelled.
- `onLoad` and `onPullDownRefresh` only call `loadData`, and `onReachBottom` only calls `loadMore`. These are `LoadData` and `LoadMore`.
- IndexPage.IndexPage.LoadData: runs the whole request in one step. The window in which `loading` is true while the reply is pending is not modelled, so events that arrive during it are not modelled either.
- Data-file fields are typed. A `null` name or brand would make the JavaScript filter throw; the model's records always hold strings, so it does not capture that.
- weapp/pages/snowboards/snowboards.js, weapp/app.js (except `baseUrl`), weapp/utils/api.js and src/generate_html.py are UI glue, storage or templating without decision logic.

## Findings

| source | as written | input that shows it | evidently intended | confidence | as-written member | corrected member |
|---|---|---|---|---|---|---|
| src/scraper.py:101-102 | `extract_product_info` calls `self.extract_product_url` and `self.detect_category`, but the class defines neither, so every call raises `AttributeError`. `parse_products_page` swallows it for every container, and page 1 ends the run with no product. | Any listing page, e.g. one container with heading "Burton Custom" and text "$899.99 $999.99" | Both methods exist and return the product URL and category, and each container with parsable prices yields its record | not executed | Scraper.AsWrittenScrapeIsEmpty | Scraper.WorkingHooksAssemble |
