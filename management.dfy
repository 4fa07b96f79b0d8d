/**
 * `ManagementHelper.run` of `management/management.py`: the category crawl, the
 * upsert of its stubs, the selection of the records not parsed yet, and the
 * chunk loop that parses them and writes them back, then the CSV rows. The
 * functions here say what one chunk and the whole loop do to the store; the
 * class's methods do it step by step and are proved to match them.
 */
module Management {
  import opened Wrappers
  import opened Records
  import opened Html
  import opened Download
  import opened Crawling
  import opened Storage
  import opened CsvRows
  import opened Dresslily

  /** `self.domain`. */
  const ShopDomain: string := "https://www.dresslily.com"

  /** `self.chunk_size`. */
  const ChunkSize: nat := 300

  // ----- chunks ---------------------------------------------------------------

  /**
   * `chunkify(xs, n)` (its source is not part of this model): consecutive
   * slices of `n` items, the last one shorter.
   */
  function Chunkify<T>(xs: seq<T>, n: nat): seq<seq<T>>
    requires n > 0
    decreases |xs|
  {
    if xs == [] then []
    else if |xs| <= n then [xs]
    else [xs[..n]] + Chunkify(xs[n..], n)
  }

  /** The chunks put back together are the list, and each holds between one and `n` items. */
  lemma {:induction false} ChunkifySpec<T>(xs: seq<T>, n: nat)
    requires n > 0
    ensures Flatten(Chunkify(xs, n)) == xs
    ensures forall i :: 0 <= i < |Chunkify(xs, n)| ==> 0 < |Chunkify(xs, n)[i]| <= n
    decreases |xs|
  {
    if xs == [] {
    } else if |xs| <= n {
      FlattenCons(xs, []);
    } else {
      ChunkifySpec(xs[n..], n);
      FlattenCons(xs[..n], Chunkify(xs[n..], n));
      assert xs[..n] + xs[n..] == xs;
    }
  }

  // ----- one chunk ---------------------------------------------------------------

  /** What a chunk step or the chunk loop leaves: the store, the exception raised if any, and the URLs requested. */
  datatype Stage = Stage(store: Store, error: Option<Error>, fetched: seq<string>)

  /** The two per-member steps of a chunk, as what each leaves of a product dict. */
  datatype Steps = Steps(detail: Fields -> Update, review: (int, Fields) -> Update)

  /** `parse_single_product` and `parse_product_reviews` over the shop. */
  function ShopSteps(site: Site, markup: Markup, domain: string): Steps
  {
    Steps((f: Fields) => Detail(site, markup, f), (id: int, f: Fields) => WithReviews(site, markup, domain, id, f))
  }

  /**
   * `steps` are the parser's two operations over the shop. The facts are only
   * drawn where a parser result is in view.
   */
  ghost predicate Drives(steps: Steps, site: Site, markup: Markup, domain: string)
  {
    && (forall f {:trigger Detail(site, markup, f)} :: steps.detail(f) == Detail(site, markup, f))
    && (forall id, f {:trigger WithReviews(site, markup, domain, id, f)} ::
          steps.review(id, f) == WithReviews(site, markup, domain, id, f))
  }

  /** `pool.map(parse_single_product, chunk)`: every member's detail step. */
  function DetailAll(steps: Steps, chunk: seq<Doc>): seq<Update>
  {
    seq(|chunk|, i requires 0 <= i < |chunk| => steps.detail(chunk[i].fields))
  }

  /** `pool.map(parse_product_reviews, chunk)`: every member's review step. */
  function ReviewAll(steps: Steps, chunk: seq<Doc>): seq<Update>
  {
    seq(|chunk|, i requires 0 <= i < |chunk| => steps.review(chunk[i].id, chunk[i].fields))
  }

  /** The members as the steps left them, in place. */
  function Applied(chunk: seq<Doc>, us: seq<Update>): seq<Doc>
    requires |us| == |chunk|
  {
    seq(|chunk|, i requires 0 <= i < |chunk| => Doc(chunk[i].id, us[i].fields))
  }

  /** The URLs the steps requested, member after member. */
  function Requested(us: seq<Update>): seq<string>
  {
    if us == [] then [] else Requested(us[..|us| - 1]) + us[|us| - 1].fetched
  }

  /** The exception `pool.map` raises once every member has run: the first in member order. */
  function FirstError(us: seq<Update>): Option<Error>
  {
    if us == [] then None
    else
      var e := FirstError(us[..|us| - 1]);
      if e.Some? then e else us[|us| - 1].error
  }

  /** No exception is raised exactly when no member raised; otherwise it is the first member's that did. */
  lemma {:induction false} FirstErrorSpec(us: seq<Update>)
    ensures FirstError(us).None? <==> forall i :: 0 <= i < |us| ==> us[i].error.None?
    ensures FirstError(us).Some? ==> exists i :: (0 <= i < |us| && us[i].error == FirstError(us) &&
      forall j :: 0 <= j < i ==> us[j].error.None?)
  {
    if us != [] {
      var init := us[..|us| - 1];
      FirstErrorSpec(init);
      assert forall i :: 0 <= i < |init| ==> init[i] == us[i];
      if FirstError(init).Some? {
        var i :| 0 <= i < |init| && init[i].error == FirstError(init) && forall j :: 0 <= j < i ==> init[j].error.None?;
        assert us[i] == init[i];
      }
    }
  }

  /**
   * One iteration of the chunk loop: the detail step on every member, the upsert
   * of the members, the review step on the same (already updated) members, and
   * their upsert. An exception after a `pool.map` ends the run before the upsert
   * that would follow it.
   */
  function ChunkStep(steps: Steps, store: Store, chunk: seq<Doc>): Stage
  {
    var ds := DetailAll(steps, chunk);
    var parsed := Applied(chunk, ds);
    if FirstError(ds).Some? then Stage(store, FirstError(ds), Requested(ds))
    else
      var stored := UpsertAll(store, parsed);
      var rs := ReviewAll(steps, parsed);
      var reviewed := Applied(parsed, rs);
      if FirstError(rs).Some? then Stage(stored, FirstError(rs), Requested(ds) + Requested(rs))
      else Stage(UpsertAll(stored, reviewed), None, Requested(ds) + Requested(rs))
  }

  /** The chunks in turn, until one raises. */
  function ChunkLoop(steps: Steps, store: Store, chunks: seq<seq<Doc>>): Stage
  {
    if chunks == [] then Stage(store, None, [])
    else
      var prev := ChunkLoop(steps, store, chunks[..|chunks| - 1]);
      if prev.error.Some? then prev
      else
        var st := ChunkStep(steps, prev.store, chunks[|chunks| - 1]);
        Stage(st.store, st.error, prev.fetched + st.fetched)
  }

  // ----- properties of the chunk loop -------------------------------------------

  /**
   * After a chunk completes, each member is stored with `rating`, `product_info`
   * and `reviews`: the second upsert carries the detail step's fields as well, so
   * the unparsed query of a later run does not select the member again.
   */
  lemma ChunkStepCompletes(steps: Steps, site: Site, markup: Markup, domain: string, store: Store, chunk: seq<Doc>, j: int)
    requires Drives(steps, site, markup, domain)
    requires 0 <= j < |chunk|
    requires ChunkStep(steps, store, chunk).error.None?
    ensures var after := ChunkStep(steps, store, chunk).store;
      && chunk[j].id in after
      && "rating" in after[chunk[j].id] && "product_info" in after[chunk[j].id] && "reviews" in after[chunk[j].id]
      && !LacksReviews(after[chunk[j].id])
  {
    var ds := DetailAll(steps, chunk);
    var parsed := Applied(chunk, ds);
    FirstErrorSpec(ds);
    var stored := UpsertAll(store, parsed);
    var rs := ReviewAll(steps, parsed);
    var reviewed := Applied(parsed, rs);
    FirstErrorSpec(rs);
    assert ds[j] == Detail(site, markup, chunk[j].fields) && ds[j].error.None?;
    assert rs[j] == WithReviews(site, markup, domain, chunk[j].id, parsed[j].fields) && rs[j].error.None?;
    DetailAssigns(site, markup, chunk[j].fields);
    WithReviewsAssigns(site, markup, domain, chunk[j].id, parsed[j].fields);
    assert reviewed[j].id == chunk[j].id;
    PostedFieldStored(stored, reviewed, j, "rating");
    PostedFieldStored(stored, reviewed, j, "product_info");
    PostedFieldStored(stored, reviewed, j, "reviews");
  }

  /** A chunk step never removes a record or a field. */
  lemma ChunkStepGrows(steps: Steps, store: Store, chunk: seq<Doc>, id: int, k: string)
    requires id in store && k in store[id]
    ensures var after := ChunkStep(steps, store, chunk).store;
      id in after && k in after[id]
  {
    var ds := DetailAll(steps, chunk);
    var parsed := Applied(chunk, ds);
    var stored := UpsertAll(store, parsed);
    UpsertAllGrows(store, parsed, id, k);
    UpsertAllGrows(stored, Applied(parsed, ReviewAll(steps, parsed)), id, k);
  }

  /** The chunk loop never removes a record or a field. */
  lemma {:induction false} ChunkLoopGrows(steps: Steps, store: Store, chunks: seq<seq<Doc>>, id: int, k: string)
    requires id in store && k in store[id]
    ensures var after := ChunkLoop(steps, store, chunks).store;
      id in after && k in after[id]
  {
    if chunks != [] {
      var init := chunks[..|chunks| - 1];
      ChunkLoopGrows(steps, store, init, id, k);
      var prev := ChunkLoop(steps, store, init);
      if prev.error.None? {
        ChunkStepGrows(steps, prev.store, chunks[|chunks| - 1], id, k);
      }
    }
  }

  /** A chunk loop that raises nothing leaves every member of every chunk parsed. */
  lemma {:induction false} ChunkLoopCompletes(steps: Steps, site: Site, markup: Markup, domain: string, store: Store, chunks: seq<seq<Doc>>, i: int, j: int)
    requires Drives(steps, site, markup, domain)
    requires 0 <= i < |chunks| && 0 <= j < |chunks[i]|
    requires ChunkLoop(steps, store, chunks).error.None?
    ensures var after := ChunkLoop(steps, store, chunks).store;
      chunks[i][j].id in after && "reviews" in after[chunks[i][j].id]
  {
    var init := chunks[..|chunks| - 1];
    var prev := ChunkLoop(steps, store, init);
    var last := chunks[|chunks| - 1];
    if i == |chunks| - 1 {
      ChunkStepCompletes(steps, site, markup, domain, prev.store, last, j);
    } else {
      assert init[i] == chunks[i];
      ChunkLoopCompletes(steps, site, markup, domain, store, init, i, j);
      ChunkStepGrows(steps, prev.store, last, chunks[i][j].id, "reviews");
    }
  }

  /** One more chunk after a prefix that raised nothing. */
  lemma ChunkLoopSnoc(steps: Steps, store: Store, chunks: seq<seq<Doc>>, i: int)
    requires 0 <= i < |chunks|
    requires ChunkLoop(steps, store, chunks[..i]).error.None?
    ensures var prev := ChunkLoop(steps, store, chunks[..i]);
      var st := ChunkStep(steps, prev.store, chunks[i]);
      ChunkLoop(steps, store, chunks[..i + 1]) == Stage(st.store, st.error, prev.fetched + st.fetched)
  {
    assert chunks[..i + 1][..i] == chunks[..i];
  }

  /** Once a chunk raises, the loop ends there: later chunks change nothing and request nothing. */
  lemma {:induction false} ChunkLoopStops(steps: Steps, store: Store, chunks: seq<seq<Doc>>, k: int)
    requires 0 <= k <= |chunks|
    requires ChunkLoop(steps, store, chunks[..k]).error.Some?
    ensures ChunkLoop(steps, store, chunks) == ChunkLoop(steps, store, chunks[..k])
    decreases |chunks| - k
  {
    if k < |chunks| {
      TakeSnoc(chunks, k);
      assert chunks[..k + 1][..k] == chunks[..k];
      ChunkLoopStops(steps, store, chunks, k + 1);
    } else {
      TakeAll(chunks);
    }
  }

  /**
   * What a run that gets past the category crawl does: every stored record that
   * lacked `reviews` is in some chunk, so when no chunk raises every stored
   * record ends with `reviews`, and records that already had it keep it.
   */
  lemma RunCompletes(steps: Steps, site: Site, markup: Markup, domain: string, stocked: Store, selected: seq<Doc>, id: int)
    requires Drives(steps, site, markup, domain)
    requires Answers(selected, stocked, LacksReviews, Some({"url"}))
    requires ChunkLoop(steps, stocked, Chunkify(selected, ChunkSize)).error.None?
    requires id in stocked
    ensures var after := ChunkLoop(steps, stocked, Chunkify(selected, ChunkSize)).store;
      id in after && "reviews" in after[id]
  {
    var chunks := Chunkify(selected, ChunkSize);
    if "reviews" in stocked[id] {
      ChunkLoopGrows(steps, stocked, chunks, id, "reviews");
    } else {
      assert id in Matching(stocked, LacksReviews);
      var n :| 0 <= n < |selected| && selected[n].id == id;
      ChunkifySpec(selected, ChunkSize);
      var i, j := FlattenIndex(chunks, n);
      ChunkLoopCompletes(steps, site, markup, domain, stocked, chunks, i, j);
    }
  }

  /** Item `n` of the concatenated chunks is item `j` of some chunk `i`. */
  lemma {:induction false} FlattenIndex<T>(xss: seq<seq<T>>, n: int) returns (i: int, j: int)
    requires 0 <= n < |Flatten(xss)|
    ensures 0 <= i < |xss| && 0 <= j < |xss[i]| && xss[i][j] == Flatten(xss)[n]
  {
    var init := xss[..|xss| - 1];
    var last := xss[|xss| - 1];
    assert Flatten(xss) == Flatten(init) + last;
    if n < |Flatten(init)| {
      i, j := FlattenIndex(init, n);
      assert init[i] == xss[i];
    } else {
      i, j := |xss| - 1, n - |Flatten(init)|;
    }
  }

  // ----- the helper ----------------------------------------------------------------

  /** The CSV tables a run builds. */
  datatype Tables = Tables(products: seq<ProductRow>, reviews: seq<ReviewRow>)

  /** `ManagementHelper`: the store, the shared downloader and the two scrapers. */
  class ManagementHelper {
    const store: MongoStore
    const downloader: Downloader
    const markup: Markup
    const domain: string
    const chunkSize: nat
    const scraper: DresslilyScraper
    const parser: DresslilyParser
    /** What the parser's two operations do to one member. */
    ghost const steps: Steps

    /** The scrapers share the helper's downloader, domain and page reader. */
    ghost predicate Wired()
    {
      && scraper.downloader == downloader && scraper.domain == domain && scraper.markup == markup
      && parser.downloader == downloader && parser.domain == domain && parser.markup == markup
      && chunkSize == ChunkSize
      && Drives(steps, downloader.site, markup, domain)
    }

    constructor (store: MongoStore, downloader: Downloader, markup: Markup)
      ensures this.store == store && this.downloader == downloader && this.markup == markup
      ensures domain == ShopDomain && Wired()
    {
      this.store := store;
      this.downloader := downloader;
      this.markup := markup;
      domain := ShopDomain;
      chunkSize := ChunkSize;
      scraper := new DresslilyScraper(downloader, ShopDomain, markup);
      parser := new DresslilyParser(downloader, ShopDomain, markup);
      steps := ShopSteps(downloader.site, markup, ShopDomain);
    }

    /**
     * `run`: crawl the category, upsert the stubs, select the records without
     * `reviews`, process them chunk by chunk, then build the two tables (an
     * exception anywhere ends the run with it). `selected`, `rated` and
     * `reviewed` are the answers the three `find` calls gave, in whatever order
     * they came.
     */
    method Run() returns (r: Result<Tables, Error>, ghost selected: seq<Doc>, ghost rated: seq<Doc>, ghost reviewed: seq<Doc>)
      requires Wired()
      modifies store, downloader
      ensures var crawl := CategoryCrawl(downloader.site, markup, domain);
        && (crawl.result.Failure? ==>
              r == Failure(crawl.result.error) && store.records == old(store.records) &&
              downloader.requests == old(downloader.requests) + crawl.fetched)
        && (crawl.result.Success? ==>
              var stocked := UpsertAll(old(store.records), crawl.result.value);
              var loop := ChunkLoop(steps, stocked, Chunkify(selected, ChunkSize));
              && Answers(selected, stocked, LacksReviews, Some({"url"}))
              && store.records == loop.store
              && downloader.requests == old(downloader.requests) + crawl.fetched + loop.fetched
              && (loop.error.Some? ==> r == Failure(loop.error.value))
              && (loop.error.None? ==>
                    && Answers(rated, loop.store, HasRating, None)
                    && (ProductRows(rated).Failure? ==> r == Failure(ProductRows(rated).error))
                    && (ProductRows(rated).Success? ==>
                          && Answers(reviewed, loop.store, HasReviews, Some({"reviews"}))
                          && r == Success(Tables(ProductRows(rated).value, ReviewRows(reviewed))))))
    {
      selected, rated, reviewed := [], [], [];
      var scraped := scraper.ScrapeProducts();
      if scraped.Failure? {
        return Failure(scraped.error), selected, rated, reviewed;
      }
      store.AddProducts(scraped.value);
      ghost var stocked := store.records;
      ghost var mark := downloader.requests;
      var notParsed := store.Find(LacksReviews, Some({"url"}));
      selected := notParsed;
      var chunks := Chunkify(notParsed, chunkSize);
      var err := ProcessChunks(chunks);
      AppendAssoc(old(downloader.requests), CategoryCrawl(downloader.site, markup, domain).fetched,
        ChunkLoop(steps, stocked, chunks).fetched);
      if err.Some? {
        return Failure(err.value), selected, rated, reviewed;
      }
      var parsedProducts := store.Find(HasRating, None);
      rated := parsedProducts;
      var products := BuildProductRows(parsedProducts);
      if products.Failure? {
        return Failure(products.error), selected, rated, reviewed;
      }
      var withReviews := store.Find(HasReviews, Some({"reviews"}));
      reviewed := withReviews;
      ReviewedAnswers(withReviews, store.records);
      var reviews := BuildReviewRows(withReviews);
      r := Success(Tables(products.value, reviews));
    }

    /** `for n, chunk in enumerate(chunks)`: the chunks in turn, until one raises. */
    method ProcessChunks(chunks: seq<seq<Doc>>) returns (err: Option<Error>)
      requires Wired()
      modifies store, downloader
      ensures var loop := ChunkLoop(steps, old(store.records), chunks);
        store.records == loop.store && err == loop.error &&
        downloader.requests == old(downloader.requests) + loop.fetched
    {
      ghost var start := store.records;
      var i := 0;
      while i < |chunks|
        invariant 0 <= i <= |chunks|
        invariant var loop := ChunkLoop(steps, start, chunks[..i]);
          store.records == loop.store && loop.error.None? &&
          downloader.requests == old(downloader.requests) + loop.fetched
      {
        ghost var prev := ChunkLoop(steps, start, chunks[..i]);
        var e := ProcessChunk(chunks[i]);
        ChunkLoopSnoc(steps, start, chunks, i);
        AppendAssoc(old(downloader.requests), prev.fetched, ChunkStep(steps, prev.store, chunks[i]).fetched);
        if e.Some? {
          ChunkLoopStops(steps, start, chunks, i + 1);
          return e;
        }
        i := i + 1;
      }
      TakeAll(chunks);
      err := None;
    }

    /** `chunkify`'s product dicts, one fresh object per member (they come new out of `find`). */
    method MakeDicts(chunk: seq<Doc>) returns (dicts: seq<ProductDict>)
      ensures |dicts| == |chunk| && Separate(dicts)
      ensures forall i :: 0 <= i < |dicts| ==> fresh(dicts[i]) && dicts[i].id == chunk[i].id && dicts[i].fields == chunk[i].fields
    {
      dicts := [];
      var i := 0;
      while i < |chunk|
        invariant 0 <= i <= |chunk| && |dicts| == i && Separate(dicts)
        invariant forall j :: 0 <= j < i ==> fresh(dicts[j]) && dicts[j].id == chunk[j].id && dicts[j].fields == chunk[j].fields
      {
        var p := new ProductDict(chunk[i]);
        dicts := dicts + [p];
        i := i + 1;
      }
    }

    /**
     * One chunk: the detail step on every member, `add_products` of the members,
     * the review step on the same dicts, `add_products` again.
     */
    method ProcessChunk(chunk: seq<Doc>) returns (err: Option<Error>)
      requires Wired()
      modifies store, downloader
      ensures var st := ChunkStep(steps, old(store.records), chunk);
        store.records == st.store && err == st.error &&
        downloader.requests == old(downloader.requests) + st.fetched
    {
      ghost var ds := DetailAll(steps, chunk);
      ghost var parsed := Applied(chunk, ds);
      ghost var rs := ReviewAll(steps, parsed);
      ghost var st := ChunkStep(steps, store.records, chunk);
      ghost var start := downloader.requests;
      var dicts := MakeDicts(chunk);
      var e1 := DetailStep(dicts, chunk);
      if e1.Some? {
        assert st == Stage(old(store.records), e1, Requested(ds));
        return e1;
      }
      var parsedChunk := Snapshots(dicts);
      SnapshotsApplied(dicts, chunk, ds);
      store.AddProducts(parsedChunk);
      var e2 := ReviewStep(dicts, parsed);
      AppendAssoc(start, Requested(ds), Requested(rs));
      if e2.Some? {
        assert st == Stage(store.records, e2, Requested(ds) + Requested(rs));
        return e2;
      }
      var reviewedChunk := Snapshots(dicts);
      SnapshotsApplied(dicts, parsed, rs);
      store.AddProducts(reviewedChunk);
      err := None;
    }

    /** Member `i` of the detail step: its update, and the exception and requests so far. */
    method DetailAt(dicts: seq<ProductDict>, ghost docs: seq<Doc>, ghost us: seq<Update>, i: int, err: Option<Error>, ghost start: seq<string>)
      returns (err': Option<Error>)
      requires Wired() && 0 <= i < |dicts| == |docs| && us == DetailAll(steps, docs)
      requires dicts[i].id == docs[i].id && dicts[i].fields == docs[i].fields
      requires err == FirstError(us[..i]) && downloader.requests == start + Requested(us[..i])
      modifies dicts[i], downloader
      ensures dicts[i].fields == us[i].fields
      ensures err' == FirstError(us[..i + 1]) && downloader.requests == start + Requested(us[..i + 1])
    {
      var e := parser.ParseSingleProduct(dicts[i]);
      StepSnoc(us, i);
      AppendAssoc(start, Requested(us[..i]), us[i].fetched);
      err' := if err.None? then e else err;
    }

    /** Member `i` of the review step: its update, and the exception and requests so far. */
    method ReviewAt(dicts: seq<ProductDict>, ghost docs: seq<Doc>, ghost us: seq<Update>, i: int, err: Option<Error>, ghost start: seq<string>)
      returns (err': Option<Error>)
      requires Wired() && 0 <= i < |dicts| == |docs| && us == ReviewAll(steps, docs)
      requires dicts[i].id == docs[i].id && dicts[i].fields == docs[i].fields
      requires err == FirstError(us[..i]) && downloader.requests == start + Requested(us[..i])
      modifies dicts[i], downloader
      ensures dicts[i].fields == us[i].fields
      ensures err' == FirstError(us[..i + 1]) && downloader.requests == start + Requested(us[..i + 1])
    {
      var e := parser.ParseProductReviews(dicts[i]);
      StepSnoc(us, i);
      AppendAssoc(start, Requested(us[..i]), us[i].fetched);
      err' := if err.None? then e else err;
    }

    /** `pool.map(self.dresslily_parser.parse_single_product, chunk)`: every member, in place. */
    method DetailStep(dicts: seq<ProductDict>, ghost docs: seq<Doc>) returns (err: Option<Error>)
      requires Wired() && Separate(dicts) && |docs| == |dicts|
      requires forall j :: 0 <= j < |dicts| ==> dicts[j].id == docs[j].id && dicts[j].fields == docs[j].fields
      modifies downloader, dicts
      ensures var us := DetailAll(steps, docs);
        && (forall j :: 0 <= j < |dicts| ==> dicts[j].fields == us[j].fields)
        && err == FirstError(us) && downloader.requests == old(downloader.requests) + Requested(us)
    {
      ghost var us := DetailAll(steps, docs);
      err := None;
      var i := 0;
      while i < |dicts|
        invariant 0 <= i <= |dicts|
        invariant forall j :: 0 <= j < i ==> dicts[j].fields == us[j].fields
        invariant forall j :: i <= j < |dicts| ==> dicts[j].fields == docs[j].fields
        invariant err == FirstError(us[..i])
        invariant downloader.requests == old(downloader.requests) + Requested(us[..i])
      {
        err := DetailAt(dicts, docs, us, i, err, old(downloader.requests));
        i := i + 1;
      }
      TakeAll(us);
    }

    /** `pool.map(self.dresslily_parser.parse_product_reviews, chunk)`: every member, in place. */
    method ReviewStep(dicts: seq<ProductDict>, ghost docs: seq<Doc>) returns (err: Option<Error>)
      requires Wired() && Separate(dicts) && |docs| == |dicts|
      requires forall j :: 0 <= j < |dicts| ==> dicts[j].id == docs[j].id && dicts[j].fields == docs[j].fields
      modifies downloader, dicts
      ensures var us := ReviewAll(steps, docs);
        && (forall j :: 0 <= j < |dicts| ==> dicts[j].fields == us[j].fields)
        && err == FirstError(us) && downloader.requests == old(downloader.requests) + Requested(us)
    {
      ghost var us := ReviewAll(steps, docs);
      err := None;
      var i := 0;
      while i < |dicts|
        invariant 0 <= i <= |dicts|
        invariant forall j :: 0 <= j < i ==> dicts[j].fields == us[j].fields
        invariant forall j :: i <= j < |dicts| ==> dicts[j].fields == docs[j].fields
        invariant err == FirstError(us[..i])
        invariant downloader.requests == old(downloader.requests) + Requested(us[..i])
      {
        err := ReviewAt(dicts, docs, us, i, err, old(downloader.requests));
        i := i + 1;
      }
      TakeAll(us);
    }
  }

  /** One more member run: its requests follow the earlier ones, and its error counts only if none came before. */
  lemma StepSnoc(us: seq<Update>, i: int)
    requires 0 <= i < |us|
    ensures Requested(us[..i + 1]) == Requested(us[..i]) + us[i].fetched
    ensures FirstError(us[..i + 1]) == if FirstError(us[..i]).Some? then FirstError(us[..i]) else us[i].error
  {
    assert us[..i + 1][..i] == us[..i];
  }

  /** Different members are different dicts. */
  predicate Separate(dicts: seq<ProductDict>)
  {
    forall i, j :: 0 <= i < j < |dicts| ==> dicts[i] != dicts[j]
  }

  /** The dicts as the list of values `add_products` reads. */
  function Snapshots(dicts: seq<ProductDict>): (docs: seq<Doc>)
    reads dicts
    ensures |docs| == |dicts|
  {
    if dicts == [] then [] else Snapshots(dicts[..|dicts| - 1]) + [dicts[|dicts| - 1].Snapshot()]
  }

  /** The snapshot of each dict is its id and its fields. */
  lemma {:induction false} SnapshotsAt(dicts: seq<ProductDict>, i: int)
    requires 0 <= i < |dicts|
    ensures Snapshots(dicts)[i] == Doc(dicts[i].id, dicts[i].fields)
  {
    if i < |dicts| - 1 {
      assert dicts[..|dicts| - 1][i] == dicts[i];
      SnapshotsAt(dicts[..|dicts| - 1], i);
    }
  }

  /** Dicts whose fields are the steps' results snapshot to the steps applied to the old snapshots. */
  lemma SnapshotsApplied(dicts: seq<ProductDict>, docs: seq<Doc>, us: seq<Update>)
    requires |docs| == |dicts| == |us|
    requires forall j :: 0 <= j < |dicts| ==> dicts[j].id == docs[j].id && dicts[j].fields == us[j].fields
    ensures Snapshots(dicts) == Applied(docs, us)
  {
    forall j | 0 <= j < |dicts| ensures Snapshots(dicts)[j] == Applied(docs, us)[j] {
      SnapshotsAt(dicts, j);
    }
  }

  /** Every record the reviews query returns holds its review list. */
  lemma ReviewedAnswers(found: seq<Doc>, store: Store)
    requires Answers(found, store, HasReviews, Some({"reviews"}))
    ensures forall i :: 0 <= i < |found| ==> Reviewed(found[i])
  {
    forall i | 0 <= i < |found| ensures Reviewed(found[i]) {
      assert found[i].id in Matching(store, HasReviews);
    }
  }
}
