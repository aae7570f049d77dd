/**
 * lib/efficientMode.js: instead of the whole catalog, sample random pages of
 * it; from a page with beers, drop the used ones and let `chooseBeer` pick;
 * after a page with nothing to pick, count a failure and sample another page,
 * until the failure counter reaches the page count.
 *
 * The sampler is modelled as the source evidently intends it: the stop branch
 * ends the request, and a failure is counted before the bound is checked
 * again. The source as written does neither; `ActivationAsWritten` below
 * models that retry chain and the lemmas after it show the consequences.
 */
module EfficientMode {
  import opened Base
  import opened Random
  import opened Catalog
  import opened Storage
  import opened BeerUtil

  /** The catalog service as the sampler sees it: the first page, and any page by number. */
  datatype RandomPages = RandomPages(first: PageResponse, page: int -> PageResponse)

  /** How one request of the sampler ends, before the chosen beer is saved. */
  datatype SampleOutcome = SampleFailed(error: Error) | NoBeerLeft | Picked(beer: Product)

  /** The outcome, the failure count reached, the page numbers sampled and the random values consumed. */
  datatype Sampling = Sampling(outcome: SampleOutcome, failCount: nat, sampled: seq<int>, drawn: nat)

  /** What one sampled page leaves, with the random values consumed: an error, a picked beer, or nothing to pick. */
  datatype Step = PageFailed(error: Error, drawn: nat) | PagePicked(beer: Product, drawn: nat) | NothingToPick(drawn: nat)

  /** The step to take on page number n after d random values: how the sampler sees the catalog. */
  type PageSteps = (int, nat) -> Step

  /**
   * One sampled page: a body that does not parse is an error; a page
   * without beers has nothing to pick; from a page with beers the used ones
   * are removed and `chooseBeer` picks, its error being the request's error
   * and its "no beer" nothing to pick.
   */
  function PageStep(response: PageResponse, used: Result<seq<string>>, stock: Inventory,
                    source: nat -> Unit, drawn: nat): (t: Step)
    ensures drawn <= t.drawn
  {
    if !response.Page? then PageFailed(Malformed, drawn)
    else
      var beers := Beers(response.results);
      if |beers| == 0 then NothingToPick(drawn)
      else
        match used
        case Err(e) => PageFailed(e, drawn)
        case Ok(ids) =>
          var d := Select(WithoutIds(beers, ids), stock, source, drawn);
          match d.pick
          case InventoryFailed(e) => PageFailed(e, d.drawn)
          case NoneInStock => NothingToPick(d.drawn)
          case InStock(p) => PagePicked(p, d.drawn)
  }

  /** `PageStep` on every page of the catalog. */
  function Steps(pages: int -> PageResponse, used: Result<seq<string>>, stock: Inventory,
                 source: nat -> Unit): PageSteps
  {
    (n: int, d: nat) => PageStep(pages(n), used, stock, source, d)
  }

  /** A beer picked from `response` is a Beer on that page, not used before and in stock. */
  predicate FreshPick(p: Product, response: PageResponse, used: Result<seq<string>>, stock: Inventory) {
    && IsBeer(p) && used.Ok? && p.id !in used.value && CheckInventory(stock, p.id) == Ok(true)
    && response.Page? && p in response.results
  }

  /** Every beer `step` picks on page number n is a fresh pick from `pages(n)`. */
  ghost predicate PicksFresh(step: PageSteps, pages: int -> PageResponse, used: Result<seq<string>>, stock: Inventory) {
    forall n: int, d: nat :: step(n, d).PagePicked? ==> FreshPick(step(n, d).beer, pages(n), used, stock)
  }

  /** A page with nothing to pick is a parsed page; a beer picked from a page is a fresh pick from it. */
  lemma PageStepProperties(response: PageResponse, used: Result<seq<string>>, stock: Inventory,
                           source: nat -> Unit, drawn: nat)
    ensures var t := PageStep(response, used, stock, source, drawn);
      && ((!response.Page? || |Beers(response.results)| == 0 || used.Err?) ==> t.drawn == drawn)
      && (t.NothingToPick? ==> response.Page?)
      && (t.PagePicked? ==> FreshPick(t.beer, response, used, stock))
  {
    if response.Page? && |Beers(response.results)| > 0 && used.Ok? {
      var pool := WithoutIds(Beers(response.results), used.value);
      SelectProperties(pool, stock, source, drawn);
      var d := Select(pool, stock, source, drawn);
      if d.pick.InStock? {
        assert d.pick.beer in pool && d.pick.beer in Beers(response.results);
      }
    }
  }

  /** The catalog's page steps pick only fresh beers. */
  lemma PageStepsPickFresh(pages: int -> PageResponse, used: Result<seq<string>>, stock: Inventory,
                           source: nat -> Unit)
    ensures PicksFresh(Steps(pages, used, stock, source), pages, used, stock)
  {
    forall n: int, d: nat
      ensures Steps(pages, used, stock, source)(n, d).PagePicked? ==>
        FreshPick(Steps(pages, used, stock, source)(n, d).beer, pages(n), used, stock)
    {
      PageStepProperties(pages(n), used, stock, source, d);
    }
  }

  /** The sampling outcome a step that picked or failed ends the chain with. */
  function Ending(t: Step): (o: SampleOutcome)
    requires !t.NothingToPick?
    ensures !o.NoBeerLeft?
  {
    if t.PageFailed? then SampleFailed(t.error) else Picked(t.beer)
  }

  /**
   * `chooseBeerFromRandomPage` from failure count `failCount` on: stop once
   * the count reaches `total`; otherwise sample page floor(r * total) and
   * take its step, counting a failure and sampling again when the page had
   * nothing to pick.
   */
  function Sample(total: int, failCount: nat, step: PageSteps, source: nat -> Unit, drawn: nat): (s: Sampling)
    ensures failCount <= s.failCount
    decreases total - failCount, 1
  {
    if failCount >= total then Sampling(NoBeerLeft, failCount, [], drawn)
    else Turn(total, failCount, step, source, drawn)
  }

  /** One turn below the bound: sample a page, take its step, and after a page with nothing to pick start over. */
  function Turn(total: int, failCount: nat, step: PageSteps, source: nat -> Unit, drawn: nat): (s: Sampling)
    requires failCount < total
    ensures failCount <= s.failCount
    decreases total - failCount, 0
  {
    var n := RandomIndex(source(drawn), total as nat);
    var t := step(n, drawn + 1);
    if t.NothingToPick? then Retry(n, Sample(total, failCount + 1, step, source, t.drawn))
    else Sampling(Ending(t), failCount, [n], t.drawn)
  }

  /** When every step picks fresh beers, so does the sampler, from one of the pages it may sample. */
  lemma {:induction false} SamplePicksFresh(total: int, failCount: nat, step: PageSteps, source: nat -> Unit,
      drawn: nat, pages: int -> PageResponse, used: Result<seq<string>>, stock: Inventory)
    requires PicksFresh(step, pages, used, stock)
    ensures var s := Sample(total, failCount, step, source, drawn);
      s.outcome.Picked? ==> exists n :: 0 <= n < total && FreshPick(s.outcome.beer, pages(n), used, stock)
    decreases total - failCount
  {
    if failCount < total {
      var n := RandomIndex(source(drawn), total as nat);
      var t := step(n, drawn + 1);
      var s := Sample(total, failCount, step, source, drawn);
      assert s == Turn(total, failCount, step, source, drawn);
      if t.NothingToPick? {
        var rest := Sample(total, failCount + 1, step, source, t.drawn);
        SamplePicksFresh(total, failCount + 1, step, source, t.drawn, pages, used, stock);
        assert s == Retry(n, rest);
      } else {
        assert s == Sampling(Ending(t), failCount, [n], t.drawn);
        if t.PagePicked? {
          assert FreshPick(t.beer, pages(n), used, stock);
        }
      }
    }
  }

  /**
   * A beer the sampler picks is a Beer from one of the pages, not used
   * before and in stock.
   */
  lemma SamplePicksFreshBeer(total: int, failCount: nat, pages: int -> PageResponse,
      used: Result<seq<string>>, stock: Inventory, source: nat -> Unit, drawn: nat)
    ensures var s := Sample(total, failCount, Steps(pages, used, stock, source), source, drawn);
      s.outcome.Picked? ==>
        && IsBeer(s.outcome.beer) && used.Ok? && s.outcome.beer.id !in used.value
        && CheckInventory(stock, s.outcome.beer.id) == Ok(true)
        && exists n :: 0 <= n < total && pages(n).Page? && s.outcome.beer in pages(n).results
  {
    PageStepsPickFresh(pages, used, stock, source);
    SamplePicksFresh(total, failCount, Steps(pages, used, stock, source), source, drawn, pages, used, stock);
  }

  /**
   * The sampler's bounds: every sampled page number is below the page count;
   * one page is sampled per failure, plus the page that ends the chain; and
   * "no beer" is reported exactly when the failure count reaches the page
   * count, never overshooting it.
   */
  lemma {:induction false} SampleBounds(total: int, failCount: nat, step: PageSteps, source: nat -> Unit, drawn: nat)
    ensures var s := Sample(total, failCount, step, source, drawn);
      && (forall i :: 0 <= i < |s.sampled| ==> 0 <= s.sampled[i] < total)
      && |s.sampled| <= s.failCount - failCount + 1
      && (s.outcome.NoBeerLeft? ==> |s.sampled| == s.failCount - failCount)
      && (s.outcome.NoBeerLeft? <==> s.failCount >= total)
      && (failCount < total ==> s.failCount <= total)
    decreases total - failCount
  {
    if failCount < total {
      var n := RandomIndex(source(drawn), total as nat);
      var t := step(n, drawn + 1);
      var s := Sample(total, failCount, step, source, drawn);
      assert s == Turn(total, failCount, step, source, drawn);
      if t.NothingToPick? {
        var rest := Sample(total, failCount + 1, step, source, t.drawn);
        SampleBounds(total, failCount + 1, step, source, t.drawn);
        assert s == Retry(n, rest);
        assert s.sampled == [n] + rest.sampled;
      } else {
        assert s == Sampling(Ending(t), failCount, [n], t.drawn);
      }
    }
  }

  /** The sampling that follows page `n` with nothing to pick. */
  function Retry(n: int, rest: Sampling): Sampling {
    Prefixed([n], rest)
  }

  /** A sampling with the page numbers `ns` sampled before it. */
  function Prefixed(ns: seq<int>, s: Sampling): Sampling {
    s.(sampled := ns + s.sampled)
  }

  lemma PrefixedRetry(ns: seq<int>, n: int, s: Sampling)
    ensures Prefixed(ns, Retry(n, s)) == Prefixed(ns + [n], s)
  {
    assert ns + ([n] + s.sampled) == ns + [n] + s.sampled;
  }

  /** How the request reports a sampling outcome and what it leaves in the store. */
  predicate Reported(outcome: SampleOutcome, r: Result<Option<Product>>,
                     before: map<string, string>, after: map<string, string>, unavailable: set<string>)
  {
    match outcome
    case SampleFailed(e) => r == Err(e) && after == before
    case NoBeerLeft => r == Ok(None) && after == before
    case Picked(p) =>
      && after == SavedFiles(before, unavailable, p.id)
      && r == if UsedBeersFile in unavailable then Err(FileUnavailable(UsedBeersFile)) else Ok(Some(p))
  }

  /** Once the failure count reaches the page count the sampler stops, having sampled nothing more. */
  lemma StopsAtBound(total: int, failCount: nat, step: PageSteps, source: nat -> Unit, drawn: nat)
    requires failCount >= total
    ensures Sample(total, failCount, step, source, drawn) == Sampling(NoBeerLeft, failCount, [], drawn)
  {
  }

  /**
   * When no page has anything to pick, the sampler reports no beer after
   * exactly one pass's worth of samples, `total` of them from a reset counter.
   */
  lemma {:induction false} StopsWhenNothingToPick(total: int, failCount: nat, step: PageSteps,
      source: nat -> Unit, drawn: nat)
    requires forall n: int, d: nat :: 0 <= n < total ==> step(n, d).NothingToPick?
    requires failCount <= total
    ensures var s := Sample(total, failCount, step, source, drawn);
      s.outcome == NoBeerLeft && s.failCount == total && |s.sampled| == total - failCount
    decreases total - failCount
  {
    if failCount < total {
      var n := RandomIndex(source(drawn), total as nat);
      var t := step(n, drawn + 1);
      assert t.NothingToPick?;
      StopsWhenNothingToPick(total, failCount + 1, step, source, t.drawn);
    }
  }

  /** When no page has beers, every sampled page has nothing to pick and the sampler stops at the bound. */
  lemma SamplerStopsWhenPagesHaveNoBeer(total: int, failCount: nat, pages: int -> PageResponse,
      used: Result<seq<string>>, stock: Inventory, source: nat -> Unit, drawn: nat)
    requires forall n :: 0 <= n < total ==> pages(n).Page? && |Beers(pages(n).results)| == 0
    requires failCount <= total
    ensures var s := Sample(total, failCount, Steps(pages, used, stock, source), source, drawn);
      s.outcome == NoBeerLeft && s.failCount == total && |s.sampled| == total - failCount
  {
    StopsWhenNothingToPick(total, failCount, Steps(pages, used, stock, source), source, drawn);
  }

  /** The sampler with its failure counter, a module-level variable in the source. */
  class EfficientSampler {
    var failCount: nat

    constructor ()
      ensures failCount == 0
    {
      failCount := 0;
    }

    /** One pass of `chooseBeerFromRandomPage` over a page already requested. */
    method TryPage(response: PageResponse, store: BlobStore, stock: Inventory, rng: Rng)
      returns (r: Result<Option<Product>>, failed: bool)
      modifies store, rng
      ensures var t := PageStep(response, UsedIn(old(store.files), store.unavailable), stock, rng.source, old(rng.drawn));
        && rng.drawn == t.drawn && (failed <==> t.NothingToPick?)
        && (failed ==> store.files == old(store.files))
        && (!failed ==> Reported(Ending(t), r, old(store.files), store.files, store.unavailable))
    {
      if !response.Page? {
        // JSON.parse of the body throws, and the catch reports it
        r, failed := Err(Malformed), false;
        return;
      }
      var beers := Beers(response.results);
      if |beers| == 0 {
        // no beers on this page
        r, failed := Ok(None), true;
        return;
      }
      var used := GetUsedBeers(store);
      if used.Err? {
        r, failed := Err(used.error), false;
        return;
      }
      var pool := new ProductList(beers);
      pool.RemoveUsed(used.value);
      var chosen := ChooseBeer(pool, store, stock, rng);
      failed := chosen.Ok? && chosen.value.None?;
      r := chosen;
    }

    /** One turn of `chooseBeerFromRandomPage` below the bound: draw a page number and handle that page. */
    method Attempt(totalPages: int, pages: int -> PageResponse, store: BlobStore, stock: Inventory, rng: Rng)
      returns (r: Result<Option<Product>>, failed: bool, n: int)
      requires failCount < totalPages
      modifies store, rng
      ensures var step := Steps(pages, UsedIn(old(store.files), store.unavailable), stock, rng.source);
        var s := Turn(totalPages, failCount, step, rng.source, old(rng.drawn));
        && (failed ==>
              && store.files == old(store.files)
              && s == Retry(n, Sample(totalPages, failCount + 1, step, rng.source, rng.drawn)))
        && (!failed ==>
              && s == Sampling(s.outcome, failCount, [n], rng.drawn)
              && Reported(s.outcome, r, old(store.files), store.files, store.unavailable))
    {
      var x := rng.Next();
      n := RandomIndex(x, totalPages as nat);
      r, failed := TryPage(pages(n), store, stock, rng);
    }

    /** `chooseBeerFromRandomPage`'s retry chain, run as a loop from the current failure count. */
    method ChooseBeerFromRandomPage(totalPages: int, pages: int -> PageResponse, store: BlobStore,
                                    stock: Inventory, rng: Rng)
      returns (r: Result<Option<Product>>, ghost sampled: seq<int>)
      modifies this, store, rng
      ensures var step := Steps(pages, UsedIn(old(store.files), store.unavailable), stock, rng.source);
        var s := Sample(totalPages, old(failCount), step, rng.source, old(rng.drawn));
        && failCount == s.failCount && sampled == s.sampled && rng.drawn == s.drawn
        && Reported(s.outcome, r, old(store.files), store.files, store.unavailable)
    {
      ghost var step := Steps(pages, UsedIn(store.files, store.unavailable), stock, rng.source);
      ghost var goal := Sample(totalPages, failCount, step, rng.source, rng.drawn);
      sampled := [];
      while true
        invariant store.files == old(store.files)
        invariant goal == Prefixed(sampled, Sample(totalPages, failCount, step, rng.source, rng.drawn))
        decreases totalPages - failCount
      {
        if failCount >= totalPages {
          // time to stop: the source calls back here but does not return
          assert sampled + [] == sampled;
          r := Ok(None);
          return;
        }
        ghost var now := Sample(totalPages, failCount, step, rng.source, rng.drawn);
        assert now == Turn(totalPages, failCount, step, rng.source, rng.drawn);
        var failed, n;
        r, failed, n := Attempt(totalPages, pages, store, stock, rng);
        if failed {
          // nothing picked from this page: count a failure, try another page
          PrefixedRetry(sampled, n, Sample(totalPages, failCount + 1, step, rng.source, rng.drawn));
          sampled := sampled + [n];
          failCount := failCount + 1;
          continue;
        }
        sampled := sampled + [n];
        return;
      }
    }

    /**
     * `getNextBeer`: request page 1 to learn the page count; a transport error
     * is reported as it is, a body JSON.parse rejects as the parse error;
     * otherwise reset the failure counter and sample pages.
     */
    method GetNextBeer(pages: RandomPages, store: BlobStore, stock: Inventory, rng: Rng)
      returns (r: Result<Option<Product>>, ghost sampled: seq<int>)
      modifies this, store, rng
      ensures !pages.first.Page? ==>
        && r == (if pages.first.TransportFailure? then Err(pages.first.error) else Err(Malformed))
        && sampled == [] && failCount == old(failCount)
        && store.files == old(store.files) && rng.drawn == old(rng.drawn)
      ensures pages.first.Page? ==>
        var step := Steps(pages.page, UsedIn(old(store.files), store.unavailable), stock, rng.source);
        var s := Sample(pages.first.totalPages, 0, step, rng.source, old(rng.drawn));
        && failCount == s.failCount && sampled == s.sampled && rng.drawn == s.drawn
        && Reported(s.outcome, r, old(store.files), store.files, store.unavailable)
    {
      match pages.first {
        case TransportFailure(e) =>
          r, sampled := Err(e), [];
        case MissingBody =>
          r, sampled := Err(Malformed), [];
        case UnparseableBody =>
          r, sampled := Err(Malformed), [];
        case Page(_, totalPages) =>
          failCount := 0;
          r, sampled := ChooseBeerFromRandomPage(totalPages, pages.page, store, stock, rng);
      }
    }
  }

  // ---------------------------------------------------------------- the retry chain as written

  /**
   * The as-written retry chain when every sampled page fails, observed at
   * the bound check of an activation: the failure count that check sees,
   * whether it is the chain's first activation, how many times "no beer" has
   * been reported so far and how many pages have been requested.
   */
  datatype Chain = Chain(failCount: nat, first: bool, stopReports: nat, pagesRequested: nat)

  /**
   * One activation as written: the bound check calls back with no beer but
   * does not return, so a page is requested in any case. The page fails, and
   * the activation calls itself before its own `failCount++` runs, so the
   * next check sees the previous activation's increment only.
   */
  function ActivationAsWritten(total: int, c: Chain): Chain {
    Chain(if c.first then c.failCount else c.failCount + 1,
          false,
          c.stopReports + (if c.failCount >= total then 1 else 0),
          c.pagesRequested + 1)
  }

  /** The chain after `n` activations, starting from the counter reset by `getNextBeer`. */
  function RunAsWritten(total: int, n: nat): Chain {
    if n == 0 then Chain(0, true, 0, 0) else ActivationAsWritten(total, RunAsWritten(total, n - 1))
  }

  /**
   * As written, the chain never ends while pages fail: every activation
   * requests a page, and from the bound on each of them reports "no beer"
   * again. With page count `total` >= 1 the first report comes only after
   * `total + 1` pages, one more than the bound allows.
   */
  lemma {:induction false} ChainAsWritten(total: int, n: nat)
    ensures RunAsWritten(total, n).pagesRequested == n
    ensures RunAsWritten(total, n).failCount == if n == 0 then 0 else n - 1
    ensures RunAsWritten(total, n).stopReports
      == if total <= 0 then n else if n <= total + 1 then 0 else n - total - 1
  {
    if n > 0 {
      ChainAsWritten(total, n - 1);
    }
  }

  /**
   * Three pages, none with beers: as written, four pages are sampled before
   * the first "no beer", the chain requests a fifth and a sixth page, and the
   * request is answered twice; as intended, three samples and one answer.
   */
  lemma ThreeBeerlessPagesAsWritten(pages: int -> PageResponse, used: Result<seq<string>>,
                                    stock: Inventory, source: nat -> Unit)
    requires forall n :: 0 <= n < 3 ==> pages(n).Page? && |Beers(pages(n).results)| == 0
    ensures RunAsWritten(3, 4).stopReports == 0
    ensures RunAsWritten(3, 6).stopReports == 2 && RunAsWritten(3, 6).pagesRequested == 6
    ensures |Sample(3, 0, Steps(pages, used, stock, source), source, 0).sampled| == 3
  {
    ChainAsWritten(3, 4);
    ChainAsWritten(3, 6);
    SamplerStopsWhenPagesHaveNoBeer(3, 0, pages, used, stock, source, 0);
  }
}
