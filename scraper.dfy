/** Record assembly and the page loops of the scraper (`GitHubSnowboardScraper`). */
module Scraper {
  import opened Common
  import opened Text
  import opened Brands
  import opened Prices

  /** The name used when a container has no h1-h4 heading ("unknown product"). */
  const UnknownProduct: string := "未知产品"

  /** An `<img>` element; `src` is absent when the tag has no such attribute. */
  datatype ImageTag = ImageTag(src: Option<string>)

  /** A product container of the listing page, seen through what the scraper reads of it:
    * the stripped text of its first h1-h4 heading, its first `<img>`, and its full text. */
  datatype Container = Container(heading: Option<string>, image: Option<ImageTag>, text: string)

  /** A scraped product record (`scraped_at` is not modelled). */
  datatype Product = Product(
    id: string,
    brand: string,
    name: string,
    currentPrice: Option<real>,
    originalPrice: Option<real>,
    discount: Option<string>,
    imageUrl: Option<string>,
    productUrl: string,
    category: string)

  /** What the scraper calls but this model does not interpret: the md5 digest of
    * `generate_id` (first eight hex digits) and the two methods `extract_product_url` and
    * `detect_category`, each of which may raise. */
  datatype Hooks = Hooks(
    digest: string -> string,
    productUrl: Container -> Result<string, Raised>,
    category: string -> Result<string, Raised>)

  /** `extract_product_url` and `detect_category` are not defined on the scraper class, so
    * calling either raises `AttributeError`. */
  function AsWrittenHooks(digest: string -> string): Hooks
  {
    Hooks(digest,
          c => Failure(AttributeError("extract_product_url")),
          n => Failure(AttributeError("detect_category")))
  }

  /** The name of a container: its heading text, else the "unknown product" default. */
  function NameOf(c: Container): string
  {
    match c.heading
    case Some(h) => h
    case None => UnknownProduct
  }

  /** `image_url`: "" without an `<img>`, else the tag's `src` (None when it has none). */
  function ImageUrlOf(c: Container): Option<string>
  {
    match c.image
    case None => Some("")
    case Some(tag) => tag.src
  }

  /** `generate_id`: the digest of the brand and the name joined by an underscore. */
  function GenerateId(hooks: Hooks, brand: string, name: string): string
  {
    hooks.digest(brand + "_" + name)
  }

  /** `extract_product_info`: assembles one record, or raises. */
  function ExtractProductInfo(c: Container, hooks: Hooks): (r: Result<Product, Raised>)
    ensures r.Success? <==>
      ExtractPrices(c.text).Success? && hooks.productUrl(c).Success? && hooks.category(NameOf(c)).Success?
    ensures r.Success? ==>
      && r.value.name == NameOf(c)
      && r.value.brand == DetectBrand(r.value.name)
      && r.value.id == GenerateId(hooks, r.value.brand, r.value.name)
      && r.value.imageUrl == ImageUrlOf(c)
      && var prices := ExtractPrices(c.text).value;
      && r.value.currentPrice == prices.current
      && r.value.originalPrice == prices.original
      && r.value.discount == prices.discount
  {
    var name := NameOf(c);
    var brand := DetectBrand(name);
    match ExtractPrices(c.text)
    case Failure(e) => Failure(e)
    case Success(prices) =>
      var imageUrl := ImageUrlOf(c);
      var id := GenerateId(hooks, brand, name);
      match hooks.productUrl(c)
      case Failure(e) => Failure(e)
      case Success(url) =>
        match hooks.category(name)
        case Failure(e) => Failure(e)
        case Success(category) =>
          Success(Product(id, brand, name, prices.current, prices.original, prices.discount,
                          imageUrl, url, category))
  }

  /** The id depends on the heading only: never on the prices, the image or the rest of the text. */
  lemma IdDependsOnNameOnly(c1: Container, c2: Container, hooks: Hooks)
    requires c1.heading == c2.heading
    requires ExtractProductInfo(c1, hooks).Success? && ExtractProductInfo(c2, hooks).Success?
    ensures ExtractProductInfo(c1, hooks).value.id == ExtractProductInfo(c2, hooks).value.id
    ensures ExtractProductInfo(c1, hooks).value.brand == ExtractProductInfo(c2, hooks).value.brand
  {
  }

  /** Without a heading the record is named "unknown product" and gets the "other brand"
    * sentinel, whatever brand its text mentions. */
  lemma NoHeadingIsUnbranded(c: Container, hooks: Hooks)
    requires c.heading.None? && ExtractProductInfo(c, hooks).Success?
    ensures ExtractProductInfo(c, hooks).value.name == UnknownProduct
    ensures ExtractProductInfo(c, hooks).value.brand == OtherBrand
  {
    UnknownProductIsUnbranded();
  }

  lemma UnknownProductIsUnbranded()
    ensures DetectBrand(UnknownProduct) == OtherBrand
  {
    NoLettersNoBrand(UnknownProduct);
  }

  // ---------------------------------------------------------------------------
  // `parse_products_page`
  // ---------------------------------------------------------------------------

  /** The records of the containers whose extraction did not raise, in container order. */
  function PageRecords(items: seq<Container>, hooks: Hooks): seq<Product>
  {
    if items == [] then []
    else PageRecords(items[..|items| - 1], hooks) + Contribution(items[|items| - 1], hooks)
  }

  /** What one container adds to the page: its record, or nothing when extraction raises. */
  function Contribution(c: Container, hooks: Hooks): (r: seq<Product>)
    ensures |r| <= 1
    ensures forall p :: p in r <==> Extracts(c, hooks, p)
  {
    match ExtractProductInfo(c, hooks)
    case Success(p) => [p]
    case Failure(_) => []
  }

  /** `parse_products_page`: extract every container, skipping the ones that raise
    * (every record dict is truthy, so none is dropped for being empty). */
  method ParseProductsPage(items: seq<Container>, hooks: Hooks) returns (products: seq<Product>)
    ensures products == PageRecords(items, hooks)
  {
    products := [];
    var i := 0;
    while i < |items|
      invariant 0 <= i <= |items|
      invariant products == PageRecords(items[..i], hooks)
    {
      assert items[..i + 1][..i] == items[..i];
      var r := ExtractProductInfo(items[i], hooks);
      if r.Success? {
        products := products + [r.value];
      }
      i := i + 1;
    }
    assert items[..|items|] == items;
  }

  /** A container raises or contributes its record. */
  predicate Extracts(c: Container, hooks: Hooks, p: Product)
  {
    ExtractProductInfo(c, hooks) == Success(p)
  }

  /** A record is on the page exactly when some container extracts to it. */
  lemma {:induction false} PageRecordsMembership(items: seq<Container>, hooks: Hooks, p: Product)
    ensures p in PageRecords(items, hooks) <==> exists i :: 0 <= i < |items| && Extracts(items[i], hooks, p)
  {
    if items != [] {
      var init := items[..|items| - 1];
      PageRecordsMembership(init, hooks, p);
      if exists i :: 0 <= i < |items| && Extracts(items[i], hooks, p) {
        var i :| 0 <= i < |items| && Extracts(items[i], hooks, p);
        if i < |items| - 1 {
          assert init[i] == items[i];
        }
      }
      if exists i :: 0 <= i < |init| && Extracts(init[i], hooks, p) {
        var i :| 0 <= i < |init| && Extracts(init[i], hooks, p);
        assert items[i] == init[i];
      }
    }
  }

  /** Pages split anywhere assemble in order: the records of `a + b` are those of `a`, then those of `b`. */
  lemma {:induction false} PageRecordsOfConcat(a: seq<Container>, b: seq<Container>, hooks: Hooks)
    ensures PageRecords(a + b, hooks) == PageRecords(a, hooks) + PageRecords(b, hooks)
    decreases |b|
  {
    if b == [] {
      assert a + b == a;
    } else {
      var b' := b[..|b| - 1];
      assert (a + b)[..|a + b| - 1] == a + b';
      assert (a + b)[|a + b| - 1] == b[|b| - 1];
      PageRecordsOfConcat(a, b', hooks);
    }
  }

  /** A page gives no record exactly when every one of its containers raises. */
  lemma PageEmptyIffAllRaise(items: seq<Container>, hooks: Hooks)
    ensures PageRecords(items, hooks) == [] <==>
      forall i :: 0 <= i < |items| ==> ExtractProductInfo(items[i], hooks).Failure?
  {
    if PageRecords(items, hooks) != [] {
      var p := PageRecords(items, hooks)[0];
      PageRecordsMembership(items, hooks, p);
    } else {
      forall i | 0 <= i < |items| ensures ExtractProductInfo(items[i], hooks).Failure? {
        if ExtractProductInfo(items[i], hooks).Success? {
          PageRecordsMembership(items, hooks, ExtractProductInfo(items[i], hooks).value);
        }
      }
    }
  }

  // ---------------------------------------------------------------------------
  // `scrape_all_products`
  // ---------------------------------------------------------------------------

  /** The outcome of `requests.get` for one listing page: it raised, or it answered with a
    * status code and the page's product containers. */
  datatype PageFetch = FetchRaised | Response(status: int, items: seq<Container>)

  /** `parse_products_page` with the given hooks, as a function of the page's containers. */
  function PageParser(hooks: Hooks): seq<Container> -> seq<Product>
  {
    items => PageRecords(items, hooks)
  }

  /** The page loop stops at a page that raised, answered other than 200, or gave no record. */
  predicate Stops(f: PageFetch, parse: seq<Container> -> seq<Product>)
  {
    f.FetchRaised? || f.status != 200 || parse(f.items) == []
  }

  /** The records of pages `page, page + 1, ...` up to the first page that stops the loop;
    * `lastPage` is some page known to stop it. */
  function Collected(fetch: nat -> PageFetch, parse: seq<Container> -> seq<Product>, page: nat, lastPage: nat): seq<Product>
    requires 1 <= page <= lastPage && Stops(fetch(lastPage), parse)
    decreases lastPage - page
  {
    if Stops(fetch(page), parse) then []
    else parse(fetch(page).items) + Collected(fetch, parse, page + 1, lastPage)
  }

  /** `scrape_all_products`: page 1, 2, ... until a page stops the loop. The source loops
    * for ever on a site that never stops it; `lastPage` names a page that does. */
  method ScrapeAllProducts(fetch: nat -> PageFetch, hooks: Hooks, ghost lastPage: nat)
    returns (allProducts: seq<Product>)
    requires 1 <= lastPage && Stops(fetch(lastPage), PageParser(hooks))
    ensures allProducts == Collected(fetch, PageParser(hooks), 1, lastPage)
  {
    ghost var parse := PageParser(hooks);
    allProducts := [];
    var page := 1;
    while true
      invariant 1 <= page <= lastPage
      invariant allProducts + Collected(fetch, parse, page, lastPage) == Collected(fetch, parse, 1, lastPage)
      decreases lastPage - page
    {
      var response := fetch(page);
      if response.FetchRaised? {
        break;
      }
      if response.status != 200 {
        break;
      }
      var products := ParseProductsPage(response.items, hooks);
      assert products == parse(response.items);
      if products == [] {
        break;
      }
      CollectedStep(fetch, parse, page, lastPage);
      assert (allProducts + products) + Collected(fetch, parse, page + 1, lastPage)
          == allProducts + Collected(fetch, parse, page, lastPage);
      allProducts := allProducts + products;
      page := page + 1;
    }
  }

  /** One turn of the page loop. */
  lemma CollectedStep(fetch: nat -> PageFetch, parse: seq<Container> -> seq<Product>, page: nat, lastPage: nat)
    requires 1 <= page <= lastPage && Stops(fetch(lastPage), parse)
    requires !Stops(fetch(page), parse)
    ensures page + 1 <= lastPage
    ensures Collected(fetch, parse, page, lastPage) == parse(fetch(page).items) + Collected(fetch, parse, page + 1, lastPage)
  {
  }

  /** The records of pages `first` .. `limit - 1`, concatenated in page order. */
  function Harvest(fetch: nat -> PageFetch, parse: seq<Container> -> seq<Product>, first: nat, limit: nat): seq<Product>
    requires first <= limit
    requires forall q :: first <= q < limit ==> fetch(q).Response?
    decreases limit - first
  {
    if first == limit then []
    else parse(fetch(first).items) + Harvest(fetch, parse, first + 1, limit)
  }

  /** The result is the in-order concatenation of the pages before the first page that stops the loop. */
  lemma {:induction false} CollectedUpToFirstStop(fetch: nat -> PageFetch, parse: seq<Container> -> seq<Product>, page: nat, stop: nat, lastPage: nat)
    requires 1 <= page <= stop && Stops(fetch(stop), parse)
    requires forall q :: page <= q < stop ==> fetch(q).Response? && !Stops(fetch(q), parse)
    requires stop <= lastPage && Stops(fetch(lastPage), parse)
    ensures Collected(fetch, parse, page, lastPage) == Harvest(fetch, parse, page, stop)
    decreases stop - page
  {
    if page < stop {
      CollectedUpToFirstStop(fetch, parse, page + 1, stop, lastPage);
    }
  }

  /** Which stopping page the termination argument names makes no difference. */
  lemma {:induction false} CollectedIgnoresBound(fetch: nat -> PageFetch, parse: seq<Container> -> seq<Product>, page: nat, last1: nat, last2: nat)
    requires 1 <= page <= last1 && Stops(fetch(last1), parse)
    requires page <= last2 && Stops(fetch(last2), parse)
    ensures Collected(fetch, parse, page, last1) == Collected(fetch, parse, page, last2)
    decreases last1 - page
  {
    if !Stops(fetch(page), parse) {
      CollectedIgnoresBound(fetch, parse, page + 1, last1, last2);
    }
  }

  // ---------------------------------------------------------------------------
  // The scraper as written
  // ---------------------------------------------------------------------------

  /** As written, every container raises (on the missing `extract_product_url`, or on the
    * division when its prices are all zero), so every page is empty. */
  lemma AsWrittenPagesAreEmpty(items: seq<Container>, digest: string -> string)
    ensures PageRecords(items, AsWrittenHooks(digest)) == []
  {
    var hooks := AsWrittenHooks(digest);
    forall i | 0 <= i < |items| ensures ExtractProductInfo(items[i], hooks).Failure? {
      assert hooks.productUrl(items[i]).Failure?;
    }
    PageEmptyIffAllRaise(items, hooks);
  }

  /** As written, a run collects nothing: page 1 stops the loop whatever the site answers. */
  lemma AsWrittenScrapeIsEmpty(fetch: nat -> PageFetch, digest: string -> string)
    ensures Stops(fetch(1), PageParser(AsWrittenHooks(digest)))
    ensures Collected(fetch, PageParser(AsWrittenHooks(digest)), 1, 1) == []
  {
    if fetch(1).Response? {
      AsWrittenPagesAreEmpty(fetch(1).items, digest);
    }
  }

  /** With both methods present, a container whose prices parse yields its record, carrying
    * what the two methods return. */
  lemma WorkingHooksAssemble(c: Container, hooks: Hooks, url: string, category: string)
    requires ExtractPrices(c.text).Success?
    requires hooks.productUrl(c) == Success(url) && hooks.category(NameOf(c)) == Success(category)
    ensures ExtractProductInfo(c, hooks).Success?
    ensures ExtractProductInfo(c, hooks).value.productUrl == url
    ensures ExtractProductInfo(c, hooks).value.category == category
  {
  }
}
