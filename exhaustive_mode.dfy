/**
 * lib/exhaustiveMode.js: fetch the whole beer catalog of the store at most
 * once per day, cache it in the store, and choose among the beers not used
 * yet. Dates are day numbers; the day the cache file was last modified is
 * an input, since the storage module offers no way to ask for it.
 */
module ExhaustiveMode {
  import opened Base
  import opened Random
  import opened Catalog
  import opened Json
  import opened Storage
  import opened BeerUtil

  /** The configured name of the catalog cache file (`config.storage_beers`). */
  const BeersFile: string := "beers"

  /**
   * The catalog service as `fetchBeers` sees it: the response to the first
   * page request, and the products of each later page. Later responses are
   * taken as successful, because their error argument is never examined.
   */
  datatype Pages = Pages(first: PageResponse, later: int -> seq<Product>)

  // ---------------------------------------------------------------- fetchBeers

  /** The beers of pages 2..last, page after page. */
  function LaterBeers(later: int -> seq<Product>, last: int): seq<Product>
    decreases last
  {
    if last < 2 then [] else LaterBeers(later, last - 1) + Beers(later(last))
  }

  /** What `fetchBeers` calls back with. */
  function FetchOutcome(pages: Pages): Result<seq<Product>> {
    match pages.first
    case TransportFailure(e) => Err(e)
    case MissingBody => Err(NoBody)
    case UnparseableBody => Err(Malformed)
    case Page(results, total) => Ok(Beers(results) + LaterBeers(pages.later, total))
  }

  /** The page numbers `fetchBeers` requests, in order. */
  function PagesRequested(first: PageResponse): seq<int> {
    if first.Page? && first.totalPages > 1 then seq(first.totalPages, i => i + 1) else [1]
  }

  /**
   * `fetchBeers`: request page 1, read the page count from its pager, then
   * request pages 2, 3, ... up to that count, keeping only the Beer items.
   */
  method FetchBeers(pages: Pages) returns (r: Result<seq<Product>>, ghost requested: seq<int>)
    ensures r == FetchOutcome(pages)
    ensures requested == PagesRequested(pages.first)
    ensures pages.first.TransportFailure? ==> r == Err(pages.first.error)
    ensures pages.first.MissingBody? ==> r == Err(NoBody)
  {
    var beers: seq<Product> := [];
    var pageNum := 1;
    var totalPages := 0;
    requested := [1];
    match pages.first {
      case TransportFailure(e) =>
        r := Err(e);
      case MissingBody =>
        r := Err(NoBody);
      case UnparseableBody =>
        r := Err(Malformed);
      case Page(results, total) =>
        totalPages := total;
        beers := beers + Beers(results);
        assert seq(1, i => i + 1) == [1];
        // the first callback asks for page 2 only when there is one; each later
        // callback asks for the next page while pageNum < totalPages
        while pageNum < totalPages
          invariant if totalPages > 1 then 1 <= pageNum <= totalPages else pageNum == 1
          invariant beers == Beers(results) + LaterBeers(pages.later, pageNum)
          invariant requested == seq(pageNum, i => i + 1)
        {
          pageNum := pageNum + 1;
          requested := requested + [pageNum];
          beers := beers + Beers(pages.later(pageNum));
        }
        assert totalPages > 1 ==> pageNum == totalPages;
        assert totalPages <= 1 ==> LaterBeers(pages.later, totalPages) == [] == LaterBeers(pages.later, pageNum);
        r := Ok(beers);
    }
  }

  lemma {:induction false} LaterBeersMembers(later: int -> seq<Product>, last: int, p: Product)
    ensures p in LaterBeers(later, last) <==> IsBeer(p) && exists n :: 2 <= n <= last && p in later(n)
    decreases last
  {
    if last >= 2 {
      LaterBeersMembers(later, last - 1, p);
      if p in later(last) && IsBeer(p) {
        assert p in Beers(later(last));
      }
      if exists n :: 2 <= n <= last && p in later(n) {
        var n :| 2 <= n <= last && p in later(n);
        if n < last {
          assert exists m :: 2 <= m <= last - 1 && p in later(m);
        }
      }
    }
  }

  /**
   * The fetched catalog holds exactly the Beer items of pages 1..total_pages:
   * no product of another category, and none of the beers left behind.
   */
  lemma FetchedAreExactlyTheBeers(pages: Pages, p: Product)
    requires FetchOutcome(pages).Ok?
    ensures p in FetchOutcome(pages).value <==>
      IsBeer(p) && (p in pages.first.results
                    || exists n :: 2 <= n <= pages.first.totalPages && p in pages.later(n))
  {
    LaterBeersMembers(pages.later, pages.first.totalPages, p);
  }

  // ---------------------------------------------------------------- the cache

  /** `loadBeersFromCache`'s decision over the read: unparseable contents read as an empty catalog. */
  function CachedCatalog(read: Result<string>): Result<seq<Product>> {
    match read
    case Err(e) => Err(e)
    case Ok(data) =>
      match DecodeProducts(data)
      case None => Ok([])
      case Some(ps) => Ok(ps)
  }

  /** `m.isBefore(today)`: the cache was last modified before today's midnight. */
  predicate IsStale(lastModified: int, today: int) {
    lastModified < today
  }

  /** `getBeers` goes to the catalog service: the cache is stale, or it reads as empty. */
  predicate Refreshes(cache: Result<string>, lastModified: int, today: int) {
    IsStale(lastModified, today) || CachedCatalog(cache) == Ok([])
  }

  /** What `getBeers` calls back with. */
  function CatalogOutcome(pages: Pages, cache: Result<string>, lastModified: int, today: int): Result<seq<Product>> {
    if IsStale(lastModified, today) then FetchOutcome(pages)
    else match CachedCatalog(cache)
      case Err(e) => Err(e)
      case Ok(beers) => if |beers| == 0 then FetchOutcome(pages) else Ok(beers)
  }

  /** The files after `getBeers`: a successful fetch is appended to the cache file. */
  function AfterGetBeers(files: map<string, string>, unavailable: set<string>,
                         pages: Pages, lastModified: int, today: int): map<string, string>
  {
    var cache := ReadFile(files, unavailable, BeersFile);
    if Refreshes(cache, lastModified, today) && FetchOutcome(pages).Ok? && BeersFile !in unavailable
    then Appended(files, BeersFile, EncodeProducts(FetchOutcome(pages).value))
    else files
  }

  /** `loadBeersFromCache`. */
  method LoadBeersFromCache(store: BlobStore) returns (r: Result<seq<Product>>)
    ensures r == CachedCatalog(store.Reading(BeersFile))
    ensures r.Err? <==> store.Reading(BeersFile).Err?
  {
    var data := store.Read(BeersFile);
    r := CachedCatalog(data);
  }

  /**
   * `cacheBeers`: append the catalog's JSON to the cache file. It is called
   * without a callback; the model follows Node before version 10, where the
   * write goes ahead and only a refused write fails, leaving the files as
   * they were.
   */
  method CacheBeers(store: BlobStore, beers: seq<Product>)
    modifies store
    ensures store.files == if BeersFile in store.unavailable then old(store.files)
                           else Appended(old(store.files), BeersFile, EncodeProducts(beers))
  {
    var _ := store.Store(BeersFile, EncodeProducts(beers));
  }

  /**
   * `getBeers`: a stale cache is not read at all and the catalog is fetched;
   * otherwise the cache is read and served unless it reads as empty, in which
   * case the catalog is fetched. A fetched catalog is cached; an error is
   * reported and caches nothing.
   */
  method GetBeers(store: BlobStore, pages: Pages, lastModified: int, today: int)
    returns (r: Result<seq<Product>>, ghost fetched: bool)
    modifies store
    ensures r == CatalogOutcome(pages, old(store.Reading(BeersFile)), lastModified, today)
    ensures fetched == Refreshes(old(store.Reading(BeersFile)), lastModified, today)
    ensures store.files == AfterGetBeers(old(store.files), store.unavailable, pages, lastModified, today)
  {
    fetched := false;
    if lastModified < today {
      fetched := true;
      var beers, _ := FetchBeers(pages);
      if beers.Ok? {
        CacheBeers(store, beers.value);
      }
      r := beers;
    } else {
      var cached := LoadBeersFromCache(store);
      if cached.Err? {
        r := cached;
      } else if |cached.value| == 0 {
        fetched := true;
        var beers, _ := FetchBeers(pages);
        if beers.Ok? {
          CacheBeers(store, beers.value);
        }
        r := beers;
      } else {
        r := cached;
      }
    }
  }

  /** A stale cache is never consulted: whatever the cache holds, the outcome is the fetch's. */
  lemma StaleCacheIsNotConsulted(pages: Pages, cache: Result<string>, lastModified: int, today: int)
    requires lastModified < today
    ensures CatalogOutcome(pages, cache, lastModified, today) == FetchOutcome(pages)
    ensures Refreshes(cache, lastModified, today)
  {
  }

  /** A fresh cache that reads as a non-empty catalog is served unchanged, with no fetch. */
  lemma FreshCacheIsServed(pages: Pages, data: string, lastModified: int, today: int)
    requires lastModified >= today
    requires DecodeProducts(data).Some? && |DecodeProducts(data).value| > 0
    ensures CatalogOutcome(pages, Ok(data), lastModified, today) == Ok(DecodeProducts(data).value)
    ensures !Refreshes(Ok(data), lastModified, today)
  {
  }

  /** A fresh cache that is empty or unparseable triggers a fetch. */
  lemma EmptyCacheIsRefetched(pages: Pages, data: string, lastModified: int, today: int)
    requires lastModified >= today
    requires DecodeProducts(data) == None || DecodeProducts(data) == Some([])
    ensures CatalogOutcome(pages, Ok(data), lastModified, today) == FetchOutcome(pages)
    ensures Refreshes(Ok(data), lastModified, today)
  {
  }

  /** A fetch on an empty or missing cache file is read back from the cache as the same catalog. */
  lemma CachedCatalogReadsBack(files: map<string, string>, unavailable: set<string>,
                               pages: Pages, lastModified: int, today: int)
    requires BeersFile !in unavailable && ContentsOf(files, BeersFile) == ""
    requires FetchOutcome(pages).Ok?
    requires IsStale(lastModified, today)
    ensures CachedCatalog(ReadFile(AfterGetBeers(files, unavailable, pages, lastModified, today), unavailable, BeersFile))
      == FetchOutcome(pages)
  {
    var ps := FetchOutcome(pages).value;
    var doc := EncodeProducts(ps);
    assert Refreshes(ReadFile(files, unavailable, BeersFile), lastModified, today);
    var after := AfterGetBeers(files, unavailable, pages, lastModified, today);
    assert after == Appended(files, BeersFile, doc);
    assert after[BeersFile] == doc + "\n" by {
      assert "" + doc + "\n" == doc + "\n";
    }
    assert ReadFile(after, unavailable, BeersFile) == Ok(doc + "\n");
    EncodeProductsRoundTrip(ps, "\n");
  }

  /**
   * Because `store` appends, caching a catalog over a cache file that already
   * holds one leaves two documents in it: the cache then reads as empty, and
   * every later request fetches the whole catalog again.
   */
  lemma SecondCacheWriteReadsEmpty(files: map<string, string>, unavailable: set<string>,
                                   pages: Pages, lastModified: int, today: int)
    requires BeersFile !in unavailable && BeersFile in files
    requires DecodeProducts(files[BeersFile]).Some?
    requires FetchOutcome(pages).Ok? && IsStale(lastModified, today)
    ensures var after := AfterGetBeers(files, unavailable, pages, lastModified, today);
      CachedCatalog(ReadFile(after, unavailable, BeersFile)) == Ok([])
      && forall modified: int, day: int :: Refreshes(ReadFile(after, unavailable, BeersFile), modified, day)
  {
    var doc := EncodeProducts(FetchOutcome(pages).value);
    assert !AllWhitespace(doc + "\n") by {
      assert (doc + "\n")[0] == '[';
    }
    AppendAfterProducts(files[BeersFile], doc + "\n");
    assert files[BeersFile] + doc + "\n" == files[BeersFile] + (doc + "\n");
  }

  // ---------------------------------------------------------------- getNextBeer

  /**
   * `getNextBeer`: get the catalog, read the used ids, remove every used
   * product from the catalog array, and let `chooseBeer` pick from the rest.
   */
  method GetNextBeer(store: BlobStore, pages: Pages, lastModified: int, today: int, stock: Inventory, rng: Rng)
    returns (r: Result<Option<Product>>)
    modifies store, rng
    ensures var catalog := CatalogOutcome(pages, old(store.Reading(BeersFile)), lastModified, today);
      var used := UsedIn(old(store.files), store.unavailable);
      var cached := AfterGetBeers(old(store.files), store.unavailable, pages, lastModified, today);
      && (catalog.Err? ==> r == Err(catalog.error) && rng.drawn == old(rng.drawn) && store.files == cached)
      && (catalog.Ok? && used.Err? ==> r == Err(used.error) && rng.drawn == old(rng.drawn) && store.files == cached)
      && (catalog.Ok? && used.Ok? ==>
            var d := Select(WithoutIds(catalog.value, used.value), stock, rng.source, old(rng.drawn));
            rng.drawn == d.drawn && Committed(d.pick, r, cached, store.files, store.unavailable))
    ensures r.Ok? && r.value.Some? ==>
      var catalog := CatalogOutcome(pages, old(store.Reading(BeersFile)), lastModified, today);
      var used := UsedIn(old(store.files), store.unavailable);
      && catalog.Ok? && used.Ok?
      && r.value.value in catalog.value && r.value.value.id !in used.value
      && CheckInventory(stock, r.value.value.id) == Ok(true)
  {
    ghost var files0 := store.files;
    var beers, _ := GetBeers(store, pages, lastModified, today);
    if beers.Err? {
      return Err(beers.error);
    }
    assert ReadFile(store.files, store.unavailable, UsedBeersFile) == ReadFile(files0, store.unavailable, UsedBeersFile);
    var used := GetUsedBeers(store);
    if used.Err? {
      return Err(used.error);
    }
    var pool := new ProductList(beers.value);
    pool.RemoveUsed(used.value);
    SelectProperties(pool.items, stock, rng.source, rng.drawn);
    r := ChooseBeer(pool, store, stock, rng);
  }
}
