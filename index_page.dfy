/** The home page of the mini-program: the product list with its statistics,
  * paging by `loadMore`, and the keyword and brand filters. The page's `data`
  * becomes the fields of a class; each `setData` call is a field update. */
module IndexPage {
  import opened Common
  import opened Text

  /** `globalData.baseUrl` of the app. */
  const BaseUrl: string := "https://waljj123.github.io/snowboard-monitor"

  /** `pageSize` of the page data, which no handler changes. */
  const PageSize: nat := 10

  /** `lastUpdated` shown when the metadata has none. */
  const UnknownTime: string := "未知"

  // ---------------------------------------------------------------------------
  // The data file and the records the page builds from it
  // ---------------------------------------------------------------------------

  /** A product as it stands in `web/data.json`; an absent or `null` field is `None`. */
  datatype RawProduct = RawProduct(
    id: string,
    brand: string,
    name: string,
    currentPrice: Option<real>,
    originalPrice: Option<real>,
    discount: Option<string>,
    category: string,
    localImage: Option<string>,
    imageUrl: Option<string>,
    productUrl: string)

  /** An `allProducts` entry: the copied fields, with the two image fields merged into `image`. */
  datatype Entry = Entry(
    id: string,
    brand: string,
    name: string,
    currentPrice: Option<real>,
    originalPrice: Option<real>,
    discount: Option<string>,
    category: string,
    image: Option<string>,
    productUrl: string)

  /** The `metadata` object of the data file; a missing object has every field `None`. */
  datatype Metadata = Metadata(totalProducts: Option<int>, uniqueBrands: Option<int>, lastUpdated: Option<string>)

  /** The parsed body of the data file. */
  datatype Payload = Payload(products: Option<seq<RawProduct>>, metadata: Option<Metadata>)

  /** The outcome of the request for the data file. */
  datatype Reply = Failed | Replied(statusCode: int, data: Payload)

  datatype Stats = Stats(total: int, brands: int, lastUpdated: string)

  /** A `displayedProducts` item: `processData` shows raw products, the other handlers entries. */
  datatype Card = Raw(product: RawProduct) | Shown(entry: Entry)

  /** JavaScript truthiness: `undefined`, `null` and `0` are falsy. */
  predicate TruthyNumber(v: Option<int>)
  {
    v.Some? && v.value != 0
  }

  /** JavaScript truthiness: `undefined`, `null` and `''` are falsy. */
  predicate TruthyText(v: Option<string>)
  {
    v.Some? && v.value != ""
  }

  /** The payload's product list, or the empty list when the field is missing (an array, even an empty one, is truthy). */
  function ProductsOf(data: Payload): seq<RawProduct>
  {
    match data.products
    case Some(ps) => ps
    case None => []
  }

  /** The payload's metadata, or an object with every field missing when it has none. */
  function MetadataOf(data: Payload): Metadata
  {
    match data.metadata
    case Some(m) => m
    case None => Metadata(None, None, None)
  }

  /** The entry built for one product: the local image under the site's image
    * folder when `local_image` is truthy, `image_url` otherwise. */
  function ToEntry(p: RawProduct): Entry
  {
    Entry(p.id, p.brand, p.name, p.currentPrice, p.originalPrice, p.discount, p.category,
      if TruthyText(p.localImage) then Some(BaseUrl + "/web/images/" + p.localImage.value) else p.imageUrl,
      p.productUrl)
  }

  function Entries(ps: seq<RawProduct>): (es: seq<Entry>)
    ensures |es| == |ps|
  {
    seq(|ps|, i requires 0 <= i < |ps| => ToEntry(ps[i]))
  }

  function RawCards(ps: seq<RawProduct>): (cs: seq<Card>)
    ensures |cs| == |ps|
  {
    seq(|ps|, i requires 0 <= i < |ps| => Raw(ps[i]))
  }

  function EntryCards(es: seq<Entry>): (cs: seq<Card>)
    ensures |cs| == |es|
  {
    seq(|es|, i requires 0 <= i < |es| => Shown(es[i]))
  }

  /** The card stands for the entry: it is the entry, or the raw product the entry was built from. */
  predicate Depicts(c: Card, e: Entry)
  {
    match c
    case Raw(p) => ToEntry(p) == e
    case Shown(x) => x == e
  }

  // ---------------------------------------------------------------------------
  // Statistics
  // ---------------------------------------------------------------------------

  /** The set of brands the products carry, each counted once. */
  function BrandSet(ps: seq<RawProduct>): (r: set<string>)
    ensures forall b :: b in r <==> exists i :: 0 <= i < |ps| && ps[i].brand == b
  {
    if ps == [] then {}
    else
      var r := {ps[0].brand} + BrandSet(ps[1..]);
      assert forall i :: 1 <= i < |ps| ==> ps[1..][i - 1] == ps[i];
      r
  }

  /** The number of distinct brands is 0 for no product and otherwise between 1 and the number of products. */
  lemma {:induction false} BrandCountBounds(ps: seq<RawProduct>)
    ensures ps == [] ==> |BrandSet(ps)| == 0
    ensures ps != [] ==> 1 <= |BrandSet(ps)| <= |ps|
  {
    if ps != [] {
      assert ps[0].brand in BrandSet(ps);
      BrandCountBounds(ps[1..]);
    }
  }

  /** The statistics `processData` shows. */
  function StatsOf(products: seq<RawProduct>, metadata: Metadata): Stats
  {
    Stats(
      if TruthyNumber(metadata.totalProducts) then metadata.totalProducts.value else |products|,
      if TruthyNumber(metadata.uniqueBrands) then metadata.uniqueBrands.value else |BrandSet(products)|,
      if TruthyText(metadata.lastUpdated) then metadata.lastUpdated.value else UnknownTime)
  }

  /** Without usable metadata the statistics are counted from the products themselves:
    * the total is their number and the brand count lies between 1 and that number
    * (0 for no product); the update time is then unknown. */
  lemma StatsFallback(products: seq<RawProduct>, metadata: Metadata)
    ensures !TruthyNumber(metadata.totalProducts) ==> StatsOf(products, metadata).total == |products|
    ensures !TruthyNumber(metadata.uniqueBrands) && products == [] ==> StatsOf(products, metadata).brands == 0
    ensures !TruthyNumber(metadata.uniqueBrands) && products != [] ==>
      1 <= StatsOf(products, metadata).brands <= |products|
    ensures !TruthyText(metadata.lastUpdated) ==> StatsOf(products, metadata).lastUpdated == UnknownTime
  {
    BrandCountBounds(products);
  }

  // ---------------------------------------------------------------------------
  // Slices and filters
  // ---------------------------------------------------------------------------

  /** `s.slice(start, end)` for non-negative bounds: the bounds are clamped to the length. */
  function Slice<T>(s: seq<T>, start: nat, end: nat): (r: seq<T>)
    ensures |r| == if start < end && start < |s| then Min(end, |s|) - start else 0
    ensures forall i :: 0 <= i < |r| ==> r[i] == s[start + i]
  {
    if start < end && start < |s| then s[start..Min(end, |s|)] else []
  }

  /** Adjacent slices join into one. */
  lemma SliceAdjacent<T>(s: seq<T>, start: nat, mid: nat, end: nat)
    requires start <= mid <= end
    ensures Slice(s, start, mid) + Slice(s, mid, end) == Slice(s, start, end)
  {
    var a, b, c := Slice(s, start, mid), Slice(s, mid, end), Slice(s, start, end);
    assert |a + b| == |c|;
    forall i | 0 <= i < |c| ensures (a + b)[i] == c[i] {
      if i >= |a| {
        assert (a + b)[i] == b[i - |a|];
      }
    }
  }

  /** The keyword test: the lower-cased name or brand contains the keyword. */
  predicate KeywordMatch(e: Entry, keyword: string)
  {
    Contains(Lower(e.name), keyword) || Contains(Lower(e.brand), keyword)
  }

  /** The entries that pass the keyword test, in their original order. */
  function KeywordFilter(s: seq<Entry>, keyword: string): (r: seq<Entry>)
    ensures |r| <= |s|
    ensures forall e :: e in r <==> e in s && KeywordMatch(e, keyword)
  {
    if s == [] then []
    else (if KeywordMatch(s[0], keyword) then [s[0]] else []) + KeywordFilter(s[1..], keyword)
  }

  /** The entries whose brand equals the given one exactly, in their original order. */
  function BrandFilter(s: seq<Entry>, brand: string): (r: seq<Entry>)
    ensures |r| <= |s|
    ensures forall e :: e in r <==> e in s && e.brand == brand
  {
    if s == [] then []
    else (if s[0].brand == brand then [s[0]] else []) + BrandFilter(s[1..], brand)
  }

  /** `filterProducts`'s list: the keyword stage when there is a keyword, then the brand stage when there is a brand. */
  function Filtered(all: seq<Entry>, keyword: string, brand: string): seq<Entry>
  {
    var afterKeyword := if keyword != "" then KeywordFilter(all, keyword) else all;
    if brand != "" then BrandFilter(afterKeyword, brand) else afterKeyword
  }

  /** An entry passes both filters; an empty keyword or brand lets every entry through. */
  predicate Passes(e: Entry, keyword: string, brand: string)
  {
    (keyword == "" || KeywordMatch(e, keyword)) && (brand == "" || e.brand == brand)
  }

  /** The entries that pass both filters, in their original order, in one pass. */
  function Matching(s: seq<Entry>, keyword: string, brand: string): (r: seq<Entry>)
    ensures |r| <= |s|
    ensures forall e :: e in r <==> e in s && Passes(e, keyword, brand)
  {
    if s == [] then []
    else (if Passes(s[0], keyword, brand) then [s[0]] else []) + Matching(s[1..], keyword, brand)
  }

  /** The two filter stages together keep exactly the entries that pass both tests, in order. */
  lemma {:induction false} FilteredIsMatching(s: seq<Entry>, keyword: string, brand: string)
    ensures Filtered(s, keyword, brand) == Matching(s, keyword, brand)
  {
    if s != [] {
      FilteredIsMatching(s[1..], keyword, brand);
      var x, rest := s[0], s[1..];
      var k := if keyword != "" then KeywordFilter(s, keyword) else s;
      var kRest := if keyword != "" then KeywordFilter(rest, keyword) else rest;
      var head: seq<Entry> := if keyword == "" || KeywordMatch(x, keyword) then [x] else [];
      assert k == head + kRest;
      if brand != "" && head != [] {
        assert k[0] == x;
        assert k[1..] == kRest;
      } else if brand != "" {
        assert k == kRest;
      }
    }
  }

  /** Filtering keeps the original order: the matches of `a + b` are those of `a`, then those of `b`. */
  lemma {:induction false} MatchingOfConcat(a: seq<Entry>, b: seq<Entry>, keyword: string, brand: string)
    ensures Matching(a + b, keyword, brand) == Matching(a, keyword, brand) + Matching(b, keyword, brand)
  {
    if a == [] {
      assert a + b == b;
    } else {
      assert (a + b)[0] == a[0];
      assert (a + b)[1..] == a[1..] + b;
      MatchingOfConcat(a[1..], b, keyword, brand);
    }
  }

  /** A list whose every entry passes is kept whole. */
  lemma {:induction false} MatchingKeepsPassing(s: seq<Entry>, keyword: string, brand: string)
    requires forall i :: 0 <= i < |s| ==> Passes(s[i], keyword, brand)
    ensures Matching(s, keyword, brand) == s
  {
    if s != [] {
      MatchingKeepsPassing(s[1..], keyword, brand);
    }
  }

  /** Every card of the first filtered page shows an entry that passes both filters. */
  lemma FirstPagePasses(s: seq<Entry>, keyword: string, brand: string)
    ensures forall c :: c in EntryCards(Slice(Filtered(s, keyword, brand), 0, PageSize)) ==>
      c.Shown? && Passes(c.entry, keyword, brand)
  {
    var filtered := Filtered(s, keyword, brand);
    var cards := EntryCards(Slice(filtered, 0, PageSize));
    FilteredIsMatching(s, keyword, brand);
    forall c | c in cards ensures c.Shown? && Passes(c.entry, keyword, brand) {
      var i :| 0 <= i < |cards| && cards[i] == c;
      assert filtered[i] in filtered;
    }
  }

  // ---------------------------------------------------------------------------
  // The page
  // ---------------------------------------------------------------------------

  class IndexPage {
    var stats: Stats
    var allProducts: seq<Entry>
    var displayedProducts: seq<Card>
    var loading: bool
    var searchKeyword: string
    var filterBrand: string
    var sortBy: string
    var currentPage: int
    var hasMore: bool

    /** Pages are counted from 1, and no more than `currentPage` pages are ever shown. */
    ghost predicate Valid()
      reads this
    {
      currentPage >= 1 && |displayedProducts| <= currentPage * PageSize
    }

    /** The shown cards are the first `currentPage` pages of `allProducts`. */
    ghost predicate ShowsLeadingPages()
      reads this
      requires Valid()
    {
      var shown := Slice(allProducts, 0, currentPage * PageSize);
      |displayedProducts| == |shown| && forall i :: 0 <= i < |shown| ==> Depicts(displayedProducts[i], shown[i])
    }

    /** What `processData(data)` leaves in the list fields. */
    ghost predicate Processed(data: Payload)
      reads this
    {
      var products := ProductsOf(data);
      && stats == StatsOf(products, MetadataOf(data))
      && allProducts == Entries(products)
      && displayedProducts == RawCards(Slice(products, 0, PageSize))
      && hasMore == (|products| > PageSize)
    }

    /** What `filterProducts` leaves in the list fields. */
    ghost predicate ShowsFilter()
      reads this
    {
      var filtered := Filtered(allProducts, searchKeyword, filterBrand);
      && displayedProducts == EntryCards(Slice(filtered, 0, PageSize))
      && currentPage == 1
      && hasMore == (|filtered| > PageSize)
    }

    /** The initial page data. */
    constructor ()
      ensures Valid()
      ensures stats == Stats(0, 0, "") && allProducts == [] && displayedProducts == []
      ensures loading && searchKeyword == "" && filterBrand == "" && sortBy == "name"
      ensures currentPage == 1 && hasMore
    {
      stats := Stats(0, 0, "");
      allProducts := [];
      displayedProducts := [];
      loading := true;
      searchKeyword := "";
      filterBrand := "";
      sortBy := "name";
      currentPage := 1;
      hasMore := true;
    }

    /** `processData`: statistics, the entries, and the first page of RAW products.
      * `currentPage` and the filters are left as they were. */
    method ProcessData(data: Payload)
      requires Valid()
      modifies this
      ensures Valid() && Processed(data)
      ensures currentPage == old(currentPage) && loading == old(loading)
      ensures searchKeyword == old(searchKeyword) && filterBrand == old(filterBrand) && sortBy == old(sortBy)
      ensures old(currentPage) == 1 ==> ShowsLeadingPages()
    {
      var products := ProductsOf(data);
      var metadata := MetadataOf(data);
      stats := StatsOf(products, metadata);
      allProducts := Entries(products);
      displayedProducts := RawCards(Slice(products, 0, PageSize));
      hasMore := |products| > PageSize;
    }

    /** `loadData` with the request's outcome given: a reply with status 200 is
      * processed, anything else leaves the list as it was; `loading` ends false. */
    method LoadData(reply: Reply)
      requires Valid()
      modifies this
      ensures Valid() && !loading
      ensures reply.Replied? && reply.statusCode == 200 ==> Processed(reply.data)
      ensures !(reply.Replied? && reply.statusCode == 200) ==>
        && stats == old(stats) && allProducts == old(allProducts)
        && displayedProducts == old(displayedProducts) && hasMore == old(hasMore)
      ensures currentPage == old(currentPage)
      ensures searchKeyword == old(searchKeyword) && filterBrand == old(filterBrand) && sortBy == old(sortBy)
    {
      loading := true;
      if reply.Replied? && reply.statusCode == 200 {
        ProcessData(reply.data);
      }
      loading := false;
    }

    /** `loadMore`: nothing while loading or when there is no more; otherwise the
      * next page of the UNFILTERED `allProducts` is appended, or, when that page is
      * empty, `hasMore` is cleared. */
    method LoadMore()
      requires Valid()
      modifies this
      ensures Valid()
      ensures old(loading) || !old(hasMore) ==> unchanged(this)
      ensures !old(loading) && old(hasMore) ==>
        var start := old(currentPage) * PageSize;
        var more := Slice(allProducts, start, start + PageSize);
        if more != [] then
          && displayedProducts == old(displayedProducts) + EntryCards(more)
          && currentPage == old(currentPage) + 1
          && hasMore == (start + PageSize < |allProducts|)
        else
          displayedProducts == old(displayedProducts) && currentPage == old(currentPage) && !hasMore
      ensures stats == old(stats) && allProducts == old(allProducts) && loading == old(loading)
      ensures searchKeyword == old(searchKeyword) && filterBrand == old(filterBrand) && sortBy == old(sortBy)
      ensures old(ShowsLeadingPages()) ==> ShowsLeadingPages()
    {
      if loading || !hasMore {
        return;
      }
      var start := currentPage * PageSize;
      var end := start + PageSize;
      var more := Slice(allProducts, start, end);
      if |more| > 0 {
        ghost var leading := old(ShowsLeadingPages());
        displayedProducts := displayedProducts + EntryCards(more);
        currentPage := currentPage + 1;
        hasMore := end < |allProducts|;
        if leading {
          SliceAdjacent(allProducts, 0, start, end);
          var shown := Slice(allProducts, 0, end);
          var before := old(displayedProducts);
          forall i | 0 <= i < |shown| ensures Depicts(displayedProducts[i], shown[i]) {
            if i >= |before| {
              assert displayedProducts[i] == Shown(more[i - |before|]);
            }
          }
        }
      } else {
        hasMore := false;
      }
    }

    /** `filterProducts`: the first page of the entries that pass the keyword and
      * brand filters, from page 1. */
    method FilterProducts()
      requires Valid()
      modifies this
      ensures Valid() && ShowsFilter()
      ensures forall c :: c in displayedProducts ==> c.Shown? && Passes(c.entry, searchKeyword, filterBrand)
      ensures stats == old(stats) && allProducts == old(allProducts) && loading == old(loading)
      ensures searchKeyword == old(searchKeyword) && filterBrand == old(filterBrand) && sortBy == old(sortBy)
    {
      var filtered := Filtered(allProducts, searchKeyword, filterBrand);
      displayedProducts := EntryCards(Slice(filtered, 0, PageSize));
      currentPage := 1;
      hasMore := |filtered| > PageSize;
      FirstPagePasses(allProducts, searchKeyword, filterBrand);
    }

    /** `onSearchInput`: the keyword is stored lower-cased, then the list is filtered. */
    method OnSearchInput(value: string)
      requires Valid()
      modifies this
      ensures Valid() && searchKeyword == Lower(value) && ShowsFilter()
      ensures stats == old(stats) && allProducts == old(allProducts) && loading == old(loading)
      ensures filterBrand == old(filterBrand) && sortBy == old(sortBy)
    {
      searchKeyword := Lower(value);
      FilterProducts();
    }

    /** `onBrandFilter`: the brand is stored as given, then the list is filtered. */
    method OnBrandFilter(value: string)
      requires Valid()
      modifies this
      ensures Valid() && filterBrand == value && ShowsFilter()
      ensures stats == old(stats) && allProducts == old(allProducts) && loading == old(loading)
      ensures searchKeyword == old(searchKeyword) && sortBy == old(sortBy)
    {
      filterBrand := value;
      FilterProducts();
    }
  }

  /** Eleven products of one brand followed by one of another: after filtering on
    * the first brand, one `loadMore` shows the other brand's product, because the
    * next page is sliced from the unfiltered list. */
  method FilterThenLoadMore(a: RawProduct, b: RawProduct) returns (page: IndexPage)
    requires a.brand != "" && b.brand != a.brand
    ensures page.filterBrand == a.brand
    ensures Shown(ToEntry(b)) in page.displayedProducts
  {
    var products := seq(11, _ => a) + [b];
    page := new IndexPage();
    page.LoadData(Replied(200, Payload(Some(products), None)));
    ghost var all := page.allProducts;
    page.OnBrandFilter(a.brand);
    OneBrandFiltered(a, b, all);
    page.LoadMore();
    assert Slice(all, 10, 20)[1] == ToEntry(b);
    assert page.displayedProducts[11] == Shown(ToEntry(b));
  }

  /** The list of the scenario above, filtered on the first brand, keeps its first eleven entries. */
  lemma OneBrandFiltered(a: RawProduct, b: RawProduct, all: seq<Entry>)
    requires a.brand != "" && b.brand != a.brand
    requires all == Entries(seq(11, _ => a) + [b])
    ensures |all| == 12 && all[11] == ToEntry(b)
    ensures |Filtered(all, "", a.brand)| == 11
  {
    FilteredIsMatching(all, "", a.brand);
    assert all == all[..11] + [ToEntry(b)];
    MatchingOfConcat(all[..11], [ToEntry(b)], "", a.brand);
    MatchingKeepsPassing(all[..11], "", a.brand);
    assert Matching([ToEntry(b)], "", a.brand) == [];
  }

  /** A pull-down refresh after one `loadMore` keeps `currentPage` at 2, so the next
    * `loadMore` appends the third page right after the first: products 11 to 20 are
    * not shown. */
  method RefreshThenLoadMore(products: seq<RawProduct>) returns (page: IndexPage)
    requires |products| > 20
    ensures page.currentPage == 3
    ensures |page.displayedProducts| > 10 && page.displayedProducts[10] == Shown(ToEntry(products[20]))
  {
    var reply := Replied(200, Payload(Some(products), None));
    page := new IndexPage();
    page.LoadData(reply);
    page.LoadMore();
    page.LoadData(reply);
    page.LoadMore();
    assert Slice(page.allProducts, 20, 30)[0] == ToEntry(products[20]);
  }
}
