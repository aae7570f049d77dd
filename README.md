# beerXprt selection engine in Dafny

beerXprt picks a random beer from the catalog of one LCBO store. It is meant
never to suggest the same beer twice and never to suggest one the store has
run out of; the second holds, while the first fails as written once the history
file holds two documents (see "Behaviour as written that the model keeps").
This project models its selection engine:

- `lib/storage.js`: a flat-file blob store. `Storage.BlobStore` keeps the files as a map and the names the
  file system refuses as a fixed set. It models `store` (append), `clear`, `read` and `readLines`, together with
  JavaScript's `trim` and `split`.
- `lib/beerUtil.js`: the history of used beers kept as a JSON array in the `used_beers` file, and `chooseBeer`.
  `chooseBeer` keeps drawing a random beer from the pool until one is in stock, dropping each out-of-stock draw
  from the pool. The chosen beer is saved to the history.
- `lib/exhaustiveMode.js`: fetch every page of the product catalog, meant to happen at most once per day (as
  written, once the cache holds two catalogs every request fetches again; see "Behaviour as written that the model
  keeps"), keeping the items whose primary category is `Beer`. The result is cached in the `beers` file. Used beers are removed and `chooseBeer`
  picks from the rest.
- `lib/efficientMode.js`: learn the page count from page 1, then sample random pages. A failure is counted after
  each page that offers nothing to pick (no beers, all of them already used, or `chooseBeer` found none in stock), and sampling stops once
  the count reaches the page count.

`Math.random` is a stream of reals in [0, 1) consumed by `Random.Rng`. An index is `floor(r * n)` of the exact
product (the rounding of the source's double product is under "## Left out"). The LCBO inventory service is a function from product id to a quantity or an error, and a quantity of 0
means out of stock. Catalog pages are values of `Catalog.PageResponse`. JSON is a concrete codec for arrays of
strings (`Json.EncodeStrings`/`Json.DecodeStrings`). Products are stored as flattened (id, name, category)
triples.

Each callback chain becomes a method. Each method is proved against a function that states the outcome
(`BeerUtil.Select`, `ExhaustiveMode.CatalogOutcome`, `EfficientMode.Sample`), and the properties are proved as
lemmas about those functions. The sampler's retry chain `EfficientMode.Sample` takes the handling of one page as a
parameter (`EfficientMode.PageSteps`): its bounds hold whatever a page does, and `EfficientMode.Steps` supplies the
handling the source performs.

### Behaviour as written that the model keeps

- `store` appends. So `saveUsedBeer` adds a second JSON document to a history file that already holds one. The
  file then no longer parses, and `getUsedBeers` reads it as an empty history (`BeerUtil.SaveOverHistoryForgetsIt`,
  `BeerUtil.TwoSavesReadAsNoHistory`). The catalog cache behaves the same way (`ExhaustiveMode.SecondCacheWriteReadsEmpty`).
- `fetchBeers` never examines the error argument of a later page. Later pages are therefore modelled as always
  delivering a product list.
- The efficient sampler requests page `floor(r * total_pages)`, which lies in 0 .. total_pages - 1. The
  exhaustive fetch numbers pages 1 .. total_pages. The model keeps the sampler's numbering.

## Model

| member | source | states |
|---|---|---|
| Base.Filter | lib/exhaustiveMode.js:121-123 | `_.filter`/`_.remove` keep exactly the items satisfying the predicate, never grow the array, and shrink it when any item fails |
| Random.RandomIndex | lib/beerUtil.js:75 | `Math.floor(Math.random() * n)` is an index into an array of length n |
| Random.Rng.Next | lib/beerUtil.js:75 | one call of `Math.random()` delivers the next value of the stream, in [0, 1), and advances it by one |
| Random.ScaledIsProduct | lib/beerUtil.js:75 | the n-fold sum of r, as which `r * n` is modelled, is the product r * n |
| Random.EveryIndexReachable | lib/beerUtil.js:75 | every index of the array can be drawn |
| Catalog.CheckInventory | lib/lcboUtil.js:22-39 | the inventory check fails exactly when the lookup fails, and reports out of stock exactly when the quantity is 0 |
| Catalog.RemoveOneMore | lib/exhaustiveMode.js:200-207 | removing the used ids one at a time, as the loop over `usedData` does, removes exactly the products whose id is used |
| Catalog.ProductList.RemoveId | lib/beerUtil.js:98-103 | `_.remove` of one id removes every product with that id in place and keeps all others |
| Catalog.ProductList.RemoveUsed | lib/exhaustiveMode.js:200-207 | after the loop the pool holds exactly the products whose id is not in the used list |
| Json.EncodeStrings | lib/beerUtil.js:30-34 | `JSON.stringify` of an id list is an array document, starting with `[` |
| Json.DecodeStrings | lib/beerUtil.js:55 | `JSON.parse` of a blank file gives no document |
| Json.EncodeProducts | lib/exhaustiveMode.js:159 | `JSON.stringify` of a catalog is an array document, starting with `[` |
| Json.DecodeProducts | lib/exhaustiveMode.js:174 | a decoded catalog is the decoded strings regrouped into triples, losing none of them |
| Json.FlattenUnflatten | lib/exhaustiveMode.js:174 | regrouping strings into triples loses nothing: flattening the triples gives the strings back |
| Json.EncodeStringsRoundTrip | lib/beerUtil.js:30-61 | parsing the stored JSON of an id list, with the trailing newline, gives that list back |
| Json.AppendAfterDocument | lib/storage.js:16-18 | appending anything but whitespace after a JSON document makes the file unparseable |
| Json.EncodeProductsRoundTrip | lib/exhaustiveMode.js:158-182 | a cached catalog parses back to the same products |
| Json.AppendAfterProducts | lib/exhaustiveMode.js:158-182 | a second catalog appended to the cache makes it unparseable |
| Json.BlankIsNoDocument | lib/beerUtil.js:53-60 | an empty or blank file is not a JSON document, so it reads as an empty history |
| Storage.Trim | lib/storage.js:49 | `trim` never lengthens the string and leaves no white space at either end |
| Storage.Split | lib/storage.js:49 | `split('\n')` gives at least one piece, none holding the separator |
| Storage.Join | lib/storage.js:49 | a join starts with the first piece and is at least one character longer than it per further piece |
| Storage.JoinHasSeparators | lib/storage.js:49 | a join holds the separator at least once per further piece |
| Storage.Lines | lib/storage.js:49 | `data.trim().split('\n')` gives at least one newline-free line, and the lines joined with newlines are the trimmed data |
| Storage.TrimCutsOnlyWhitespace | lib/storage.js:49 | `trim` removes only leading and trailing whitespace and leaves neither behind |
| Storage.TrimIdempotent | lib/storage.js:49 | trimming twice is trimming once |
| Storage.JoinSplit | lib/storage.js:49 | joining the pieces of `split('\n')` with newlines restores the string |
| Storage.SplitJoin | lib/storage.js:49 | splitting a newline-join of newline-free lines gives the lines back |
| Storage.BlobStore.Store | lib/storage.js:16-18 | `store` appends the string and a newline to the file, creating it if absent; a refused file is an error and nothing changes |
| Storage.BlobStore.Clear | lib/storage.js:25-27 | `clear` leaves the file empty; a refused file is an error and nothing changes |
| Storage.BlobStore.Read | lib/storage.js:34-36 | `read` gives the file's contents, or an error for a missing or refused file |
| Storage.BlobStore.ReadLines | lib/storage.js:43-52 | `readLines` passes a read error on; otherwise at least one line, none containing a newline, joining back to the trimmed contents |
| BeerUtil.GetUsedBeers | lib/beerUtil.js:43-63 | a read error is passed on; contents that do not parse give an empty history; otherwise the parsed list |
| BeerUtil.SaveUsedBeer | lib/beerUtil.js:26-37 | the used file gets the JSON of the history plus the id appended, or of just the id when the read fails |
| BeerUtil.DeleteAllUsed | lib/beerUtil.js:115-117 | after clearing, the history reads as empty |
| BeerUtil.UsedDocumentAppendsId | lib/beerUtil.js:26-37 | the saved document parses to the prior history with the id at its end |
| BeerUtil.SaveOnEmptyHistory | lib/beerUtil.js:26-37 | saving onto an empty or missing history file yields a history of exactly that id |
| BeerUtil.SaveOverHistoryForgetsIt | lib/beerUtil.js:26-37 | saving onto a history that parses makes the history read as empty |
| BeerUtil.TwoSavesReadAsNoHistory | lib/beerUtil.js:26-37 | two saves from an empty file leave a history that reads as empty |
| BeerUtil.Select | lib/beerUtil.js:70-109 | the recursion consumes one random value per attempt, at most one per pool item |
| BeerUtil.SelectProperties | lib/beerUtil.js:70-109 | a chosen beer was in the pool and is in stock; "no beer" exactly when every pool item is out of stock, leaving an empty pool; an inventory error comes from a pool item; the pool only shrinks; a non-empty pool consumes at least one draw |
| BeerUtil.ChooseBeer | lib/beerUtil.js:70-109 | the loop follows `Select`: same pick, same draws, out-of-stock items removed from the array, and the chosen id saved, a save error being the result |
| BeerUtil.OutOfStockIsSkipped | lib/beerUtil.js:96-104 | with one beer out of stock and one in stock, the in-stock one is chosen whatever the draws |
| ExhaustiveMode.FetchBeers | lib/exhaustiveMode.js:79-151 | the first page's error or missing body is the error; otherwise the beers of pages 1 .. total_pages in page order, requesting each page once |
| ExhaustiveMode.LaterBeersMembers | lib/exhaustiveMode.js:136-150 | the later pages contribute exactly their Beer items |
| ExhaustiveMode.FetchedAreExactlyTheBeers | lib/exhaustiveMode.js:112-150 | a fetched catalog holds exactly the Beer items of all pages |
| ExhaustiveMode.LoadBeersFromCache | lib/exhaustiveMode.js:166-182 | a read error is passed on; an unparseable cache reads as an empty catalog |
| ExhaustiveMode.CacheBeers | lib/exhaustiveMode.js:158-160 | the catalog's JSON is appended to the cache file, or nothing changes when the file is refused |
| ExhaustiveMode.GetBeers | lib/exhaustiveMode.js:28-72 | stale cache: fetch; fresh cache: serve it unless it reads empty, then fetch; a successful fetch is cached |
| ExhaustiveMode.StaleCacheIsNotConsulted | lib/exhaustiveMode.js:34-45 | a cache older than today never decides the outcome |
| ExhaustiveMode.FreshCacheIsServed | lib/exhaustiveMode.js:46-68 | a fresh non-empty cache is served without fetching |
| ExhaustiveMode.EmptyCacheIsRefetched | lib/exhaustiveMode.js:53-65 | a fresh cache that reads empty triggers a fetch |
| ExhaustiveMode.CachedCatalogReadsBack | lib/exhaustiveMode.js:158-182 | a catalog cached into an empty file reads back unchanged |
| ExhaustiveMode.SecondCacheWriteReadsEmpty | lib/exhaustiveMode.js:158-182 | caching over an existing catalog makes the cache read empty, so it is fetched again |
| ExhaustiveMode.GetNextBeer | lib/exhaustiveMode.js:188-215 | catalog and history errors are passed on; otherwise `chooseBeer` over the catalog minus used ids; a chosen beer is in the catalog, unused and in stock |
| EfficientMode.PageStep | lib/efficientMode.js:78-128 | handling a page never gives random values back |
| EfficientMode.PageStepProperties | lib/efficientMode.js:78-128 | a page that does not parse, holds no beers or meets a history read error consumes no random value, as `chooseBeer` is not reached; a page with nothing to pick is a parsed page; a beer picked from a page is a Beer on that page, unused and in stock |
| EfficientMode.PageStepsPickFresh | lib/efficientMode.js:78-128 | the step of every catalog page picks only such fresh beers |
| EfficientMode.Ending | lib/efficientMode.js:94-118 | a page that ends the chain ends it with an error or a beer, never with "no beer" |
| EfficientMode.Sample | lib/efficientMode.js:70-129 | the retry chain never lowers the failure count |
| EfficientMode.Turn | lib/efficientMode.js:76-128 | one turn below the bound never lowers the failure count |
| EfficientMode.SampleBounds | lib/efficientMode.js:70-129 | sampled page numbers lie in 0 .. total - 1; one sample per failure plus the final page; "no beer" exactly when the count reaches the page count, which it never overshoots |
| EfficientMode.SamplePicksFresh | lib/efficientMode.js:76-128 | when every page step picks fresh beers, a beer the chain picks is a fresh pick from a page numbered 0 .. total - 1 |
| EfficientMode.SamplePicksFreshBeer | lib/efficientMode.js:70-129 | a beer the sampler picks is a Beer from one of the pages, not used before and in stock |
| EfficientMode.StopsAtBound | lib/efficientMode.js:71-74 | with the count at the bound, nothing is sampled and no beer is reported |
| EfficientMode.StopsWhenNothingToPick | lib/efficientMode.js:70-89 | when no page has anything to pick, the chain reports no beer with the count at the bound, after total - failCount samples |
| EfficientMode.SamplerStopsWhenPagesHaveNoBeer | lib/efficientMode.js:70-89 | when no page has beers, sampling reports no beer after exactly total - failCount samples |
| EfficientMode.EfficientSampler.TryPage | lib/efficientMode.js:78-128 | one page handled as `PageStep` says: same draws, a retry exactly when nothing was picked, and otherwise the outcome reported and a picked beer saved |
| EfficientMode.EfficientSampler.Attempt | lib/efficientMode.js:76-128 | one turn as `Turn` says: a failed page leaves the store unchanged and the rest of the chain starts from the next count; otherwise the chain ends with this page |
| EfficientMode.EfficientSampler.ChooseBeerFromRandomPage | lib/efficientMode.js:70-129 | the retry loop follows `Sample`: same outcome, failure count, sampled pages and draws |
| EfficientMode.EfficientSampler.GetNextBeer | lib/efficientMode.js:28-63 | a transport error is passed on, an unparseable page 1 is a parse error; otherwise the counter is reset and sampling runs from 0 |
| EfficientMode.ChainAsWritten | lib/efficientMode.js:70-89 | as written, with every page failing, each activation requests a page, and "no beer" is reported from activation total_pages + 2 on, once per activation |
| EfficientMode.ThreeBeerlessPagesAsWritten | lib/efficientMode.js:71-88 | three beerless pages: as written no answer after four samples, two answers after six; as intended one answer after three |

## Left out

- Asynchrony: each callback chain runs to completion as one method. Interleaved requests are not modelled, including two requests sharing the module-level `failCount`.
- `fileExists` (lib/storage.js:59-67): the core never calls it; its only use in `getUsedBeers` is commented out.
- `getLastModifiedDate`: `getBeers` calls `storage.getLastModifiedDate` (lib/exhaustiveMode.js:31), which `lib/storage.js` does not define, so as written every `getBeers`, and with it every exhaustive `getNextBeer`, throws a TypeError there before any cache read or fetch. The model takes the cache's last-modified day as an input of `ExhaustiveMode.GetBeers` instead, the evidently intended behaviour. `moment` dates are whole day numbers.
- Random.RandomIndex: `Math.random() * n` is a rounded double product in the source, and rounding can carry it up to the next integer (n = 7 and r just below 4/7 on the 2^-52 grid gives index 4 where the exact product floors to 3); the model floors the exact real product, so that rounding is not modelled.
- JSON: the codec handles arrays of strings, escaping only `"`, `\`, newline, carriage return and tab. The decoder accepts exactly the encoder's output between JSON white space: it rejects other valid JSON (white space inside the array, other escapes such as `\u0041`, `\/`, `\b` and `\f`, values other than arrays of strings), so a history file holding `[ "a" ]` reads as an empty history where the source reads `["a"]`; and it accepts raw control characters inside a literal, which `JSON.parse` refuses. Products keep only `id`, `name` and `primary_category`. Ids are strings, so the loose `==` between a numeric id and a stored string is not modelled.
- The file system: errors are a fixed set of refused file names; the storage directory prefix and the encoding are not modelled.
- The inventory service answers the same for a product throughout a request. Request URLs, headers, the configuration values and the API key are not modelled.
- ExhaustiveMode.CacheBeers: `getBeers` calls `cacheBeers(beers)` without a callback (lib/exhaustiveMode.js:41, 61), so `store` hands `fs.appendFile` an undefined callback. The model follows Node before version 10, where the write goes ahead and only a refused write fails, as an uncaught exception after the response; the model leaves the files unchanged then and the exception is not modelled. From Node 10 on, calling `fs.appendFile` without a callback throws a TypeError on every call, before `callback(null, beers)` runs, so every fetch would end in that exception and the catalog would never be delivered; that is not modelled.
- ExhaustiveMode.FetchBeers: an unparseable first page throws out of the callback in the source; the model reports `Malformed`. A later page that fails to parse (also an uncaught throw) is not modelled.
- EfficientMode.EfficientSampler.ChooseBeerFromRandomPage: models the retry chain as intended, not as written; the two differences are under Findings.
- `console.log`, the Express routes and the browser code are outside the engine.

## Findings

| source | as written | input that shows it | evidently intended | confidence | as-written member | corrected member |
|---|---|---|---|---|---|---|
| lib/efficientMode.js:71-74 | the stop branch calls back with no beer but does not return, so another page is requested and the chain goes on | total_pages = 3 and no page holds beers: six activations request six pages and answer the same request twice | return after reporting no beer | not executed; high | EfficientMode.ThreeBeerlessPagesAsWritten | EfficientMode.SamplerStopsWhenPagesHaveNoBeer |
| lib/efficientMode.js:87-88 | `failCount++` runs after the recursive call, so each bound check misses the latest failure | total_pages = 3 and no page holds beers: the first "no beer" comes only after four pages are sampled | count the failure before retrying, stopping after total_pages failures | not executed; high | EfficientMode.ChainAsWritten | EfficientMode.EfficientSampler.ChooseBeerFromRandomPage |
