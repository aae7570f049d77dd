/**
 * lib/beerUtil.js: the used-set tracker (a JSON array of chosen ids kept in
 * one file of the store) and the selection engine `chooseBeer`, which draws
 * from a pool until the inventory service confirms a product in stock.
 */
module BeerUtil {
  import opened Base
  import opened Random
  import opened Catalog
  import opened Json
  import opened Storage

  /** The configured name of the used-beers file (`config.storage_used_beers`). */
  const UsedBeersFile: string := "used_beers"

  // ---------------------------------------------------------------- used-set tracker

  /** `getUsedBeers`'s decision over the read: errors pass through, unparseable contents count as no history. */
  function UsedBeersOf(read: Result<string>): Result<seq<string>> {
    match read
    case Err(e) => Err(e)
    case Ok(data) =>
      match DecodeStrings(data)
      case None => Ok([])
      case Some(ids) => Ok(ids)
  }

  /** The history the tracker reports for the given state of the store. */
  function UsedIn(files: map<string, string>, unavailable: set<string>): Result<seq<string>> {
    UsedBeersOf(ReadFile(files, unavailable, UsedBeersFile))
  }

  /** The document `saveUsedBeer` writes: `[id]` when the read failed, else the read list with `id` pushed. */
  function UsedDocument(prior: Result<seq<string>>, id: string): string {
    EncodeStrings(if prior.Err? then [id] else prior.value + [id])
  }

  /** The files after `saveUsedBeer(id)`: the document appended to the used-beers file. */
  function SavedFiles(files: map<string, string>, unavailable: set<string>, id: string): map<string, string> {
    if UsedBeersFile in unavailable then files
    else Appended(files, UsedBeersFile, UsedDocument(UsedIn(files, unavailable), id))
  }

  /** `getUsedBeers`: a read error is an error; contents JSON.parse rejects read as []; otherwise the decoded list. */
  method GetUsedBeers(store: BlobStore) returns (r: Result<seq<string>>)
    ensures r == UsedIn(store.files, store.unavailable)
    ensures r.Err? <==> store.Reading(UsedBeersFile).Err?
    ensures store.Reading(UsedBeersFile).Ok? ==>
      r.value == (match DecodeStrings(store.files[UsedBeersFile]) case None => [] case Some(ids) => ids)
  {
    var data := store.Read(UsedBeersFile);
    r := UsedBeersOf(data);
  }

  /** `saveUsedBeer`: read the list, push `id` (or start `[id]` when the read failed) and store it. */
  method SaveUsedBeer(store: BlobStore, id: string) returns (err: Option<Error>)
    modifies store
    ensures store.files == SavedFiles(old(store.files), store.unavailable, id)
    ensures err == if UsedBeersFile in store.unavailable then Some(FileUnavailable(UsedBeersFile)) else None
  {
    var prior := GetUsedBeers(store);
    if prior.Err? {
      // the read failed: override with a fresh single-element list
      err := store.Store(UsedBeersFile, EncodeStrings([id]));
    } else {
      err := store.Store(UsedBeersFile, EncodeStrings(prior.value + [id]));
    }
  }

  /** `deleteAllUsed`: empty the used-beers file, after which the tracker reports no history. */
  method DeleteAllUsed(store: BlobStore) returns (err: Option<Error>)
    modifies store
    ensures UsedBeersFile in store.unavailable ==> err.Some? && store.files == old(store.files)
    ensures UsedBeersFile !in store.unavailable ==>
      err == None && store.files == old(store.files)[UsedBeersFile := ""]
      && UsedIn(store.files, store.unavailable) == Ok([])
  {
    err := store.Clear(UsedBeersFile);
    BlankIsNoDocument("");
  }

  /** The written document holds the history that was read, followed by the new id. */
  lemma UsedDocumentAppendsId(prior: Result<seq<string>>, id: string)
    ensures DecodeStrings(UsedDocument(prior, id) + "\n")
      == Some(if prior.Ok? then prior.value + [id] else [id])
  {
    EncodeStringsRoundTrip(if prior.Err? then [id] else prior.value + [id], "\n");
  }

  /** On an empty or missing used-beers file, a save is read back as the one-element history `[id]`. */
  lemma SaveOnEmptyHistory(files: map<string, string>, unavailable: set<string>, id: string)
    requires UsedBeersFile !in unavailable
    requires ContentsOf(files, UsedBeersFile) == ""
    ensures UsedIn(SavedFiles(files, unavailable, id), unavailable) == Ok([id])
  {
    BlankIsNoDocument("");
    var prior := UsedIn(files, unavailable);
    assert prior.Ok? ==> prior.value == [] && prior.value + [id] == [id];
    var doc := UsedDocument(prior, id);
    UsedDocumentAppendsId(prior, id);
    var after := SavedFiles(files, unavailable, id);
    assert after[UsedBeersFile] == "" + doc + "\n" == doc + "\n";
    assert ReadFile(after, unavailable, UsedBeersFile) == Ok(doc + "\n");
  }

  /**
   * Because `store` appends, a save on a file that already holds a history
   * leaves two JSON documents in it, and the tracker then reads no history
   * at all: the previously used ids, and the new one, are forgotten.
   */
  lemma SaveOverHistoryForgetsIt(files: map<string, string>, unavailable: set<string>, id: string)
    requires UsedBeersFile !in unavailable && UsedBeersFile in files
    requires DecodeStrings(files[UsedBeersFile]).Some?
    ensures UsedIn(SavedFiles(files, unavailable, id), unavailable) == Ok([])
  {
    var data := files[UsedBeersFile];
    var doc := UsedDocument(UsedIn(files, unavailable), id);
    var after := SavedFiles(files, unavailable, id);
    assert after[UsedBeersFile] == data + doc + "\n" == data + (doc + "\n");
    assert !AllWhitespace(doc + "\n") by {
      assert (doc + "\n")[0] == '[';
    }
    AppendAfterDocument(data, doc + "\n");
    assert ReadFile(after, unavailable, UsedBeersFile) == Ok(data + (doc + "\n"));
  }

  /** Two saves starting from an empty history read back as no history, not as `[first, second]`. */
  lemma TwoSavesReadAsNoHistory(files: map<string, string>, unavailable: set<string>, first: string, second: string)
    requires UsedBeersFile !in unavailable
    requires ContentsOf(files, UsedBeersFile) == ""
    ensures UsedIn(SavedFiles(SavedFiles(files, unavailable, first), unavailable, second), unavailable) == Ok([])
  {
    SaveOnEmptyHistory(files, unavailable, first);
    var once := SavedFiles(files, unavailable, first);
    UsedDocumentAppendsId(UsedIn(files, unavailable), first);
    BlankIsNoDocument("");
    SaveOverHistoryForgetsIt(once, unavailable, second);
  }

  // ---------------------------------------------------------------- selection engine

  /** What the draw-and-check loop of `chooseBeer` ends with, before any save. */
  datatype Pick = InventoryFailed(error: Error) | NoneInStock | InStock(beer: Product)

  /** The loop's outcome, the pool it leaves behind and the number of random values consumed so far. */
  datatype Draw = Draw(pick: Pick, pool: seq<Product>, drawn: nat)

  /**
   * The draw-and-check loop of `chooseBeer`: draw `pool[floor(r * |pool|)]`
   * with the next random value r, ask the inventory service about it, and on
   * "out of stock" drop every item with that id and draw again.
   */
  function Select(pool: seq<Product>, stock: Inventory, source: nat -> Unit, drawn: nat): (d: Draw)
    ensures drawn <= d.drawn <= drawn + |pool|
    decreases |pool|
  {
    if |pool| == 0 then Draw(NoneInStock, pool, drawn)
    else
      var chosen := pool[RandomIndex(source(drawn), |pool|)];
      match CheckInventory(stock, chosen.id)
      case Err(e) => Draw(InventoryFailed(e), pool, drawn + 1)
      case Ok(inStock) =>
        if inStock then Draw(InStock(chosen), pool, drawn + 1)
        else
          assert chosen in pool && !IdOtherThan(chosen.id)(chosen);
          Select(WithoutId(pool, chosen.id), stock, source, drawn + 1)
  }

  /**
   * What `chooseBeer` promises: a chosen beer comes from the pool and is in
   * stock; "no beer" exactly when every item of the pool is out of stock,
   * leaving the pool empty; an inventory error is the error of some item of
   * the pool; the pool only loses items; and every attempt consumes one draw.
   */
  lemma {:induction false} SelectProperties(pool: seq<Product>, stock: Inventory, source: nat -> Unit, drawn: nat)
    ensures var d := Select(pool, stock, source, drawn);
      && (d.pick.InStock? ==>
            d.pick.beer in d.pool && d.pick.beer in pool && CheckInventory(stock, d.pick.beer.id) == Ok(true))
      && (d.pick.InventoryFailed? ==> exists p :: p in pool && CheckInventory(stock, p.id) == Err(d.pick.error))
      && (d.pick.NoneInStock? <==> forall p :: p in pool ==> CheckInventory(stock, p.id) == Ok(false))
      && (d.pick.NoneInStock? ==> d.pool == [])
      && (forall p :: p in d.pool ==> p in pool)
      && (|pool| > 0 ==> drawn < d.drawn)
    decreases |pool|
  {
    if |pool| > 0 {
      var chosen := pool[RandomIndex(source(drawn), |pool|)];
      if CheckInventory(stock, chosen.id) == Ok(false) {
        var rest := WithoutId(pool, chosen.id);
        assert chosen in pool && !IdOtherThan(chosen.id)(chosen);
        SelectProperties(rest, stock, source, drawn + 1);
        forall p | p in pool && p !in rest
          ensures CheckInventory(stock, p.id) == Ok(false)
        {
          assert p.id == chosen.id;
        }
      }
    }
  }

  /** How `chooseBeer` reports a pick and what it leaves in the store. */
  predicate Committed(pick: Pick, r: Result<Option<Product>>,
                      before: map<string, string>, after: map<string, string>, unavailable: set<string>)
  {
    match pick
    case InventoryFailed(e) => r == Err(e) && after == before
    case NoneInStock => r == Ok(None) && after == before
    case InStock(p) =>
      && after == SavedFiles(before, unavailable, p.id)
      && r == if UsedBeersFile in unavailable then Err(FileUnavailable(UsedBeersFile)) else Ok(Some(p))
  }

  /**
   * `chooseBeer`: an empty pool yields no beer; an inventory error or a save
   * error is reported; a product in stock is recorded as used and returned;
   * a product out of stock is removed from the caller's array with every
   * item sharing its id, and the draw is repeated.
   */
  method ChooseBeer(beers: ProductList, store: BlobStore, stock: Inventory, rng: Rng)
    returns (r: Result<Option<Product>>)
    modifies beers, store, rng
    ensures var d := Select(old(beers.items), stock, rng.source, old(rng.drawn));
      && rng.drawn == d.drawn && beers.items == d.pool
      && Committed(d.pick, r, old(store.files), store.files, store.unavailable)
  {
    ghost var goal := Select(beers.items, stock, rng.source, rng.drawn);
    while |beers.items| > 0
      invariant Select(beers.items, stock, rng.source, rng.drawn) == goal
      invariant store.files == old(store.files)
      decreases |beers.items|
    {
      ghost var before := beers.items;
      var x := rng.Next();
      var chosen := beers.items[RandomIndex(x, |beers.items|)];
      var inInventory := CheckInventory(stock, chosen.id);
      match inInventory {
        case Err(e) =>
          assert goal == Draw(InventoryFailed(e), before, rng.drawn);
          return Err(e);
        case Ok(inStock) =>
          if inStock {
            assert goal == Draw(InStock(chosen), before, rng.drawn);
            var saveErr := SaveUsedBeer(store, chosen.id);
            if saveErr.Some? {
              return Err(saveErr.value);
            }
            return Ok(Some(chosen));
          }
          assert chosen in beers.items && !IdOtherThan(chosen.id)(chosen);
          beers.RemoveId(chosen.id);
      }
    }
    assert goal == Draw(NoneInStock, [], rng.drawn);
    return Ok(None);
  }

  /** Out of stock items are skipped: from [A out of stock, B in stock] the engine ends with B, whatever it draws. */
  lemma OutOfStockIsSkipped(a: Product, b: Product, stock: Inventory, source: nat -> Unit, drawn: nat)
    requires a.id != b.id
    requires CheckInventory(stock, a.id) == Ok(false) && CheckInventory(stock, b.id) == Ok(true)
    ensures Select([a, b], stock, source, drawn).pick == InStock(b)
  {
    var d := Select([a, b], stock, source, drawn);
    SelectProperties([a, b], stock, source, drawn);
    assert d.pick.InStock? by {
      assert !(CheckInventory(stock, b.id) == Ok(false));
    }
    assert d.pick.beer in [a, b];
  }
}
