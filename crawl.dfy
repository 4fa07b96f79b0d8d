/**
 * What the two pagination drivers of the Dresslily scrapers and the two
 * per-product parsers compute, given what each URL yields: the value returned
 * (or the exception raised) and the URLs requested, in order.
 */
module Crawling {
  import opened Wrappers
  import opened Records
  import opened Text
  import opened Numbers
  import opened Html
  import opened Extractors
  import opened Download

  /** A computation that requests pages: what it returns or raises, and the URLs it asked for. */
  datatype Traced<T> = Traced(result: Result<T, Error>, fetched: seq<string>)

  /** Python's `not body` for a response. */
  predicate Falsy(body: Option<string>)
  {
    body.None? || body.value == ""
  }

  /** `hoodie_page_url.format(page)`. */
  function CategoryUrl(domain: string, page: int): string
  {
    domain + "/hoodies-c-181-page-" + IntToString(page) + ".html"
  }

  /** `review_pattern.format(product_id, page)`. */
  function ReviewUrl(domain: string, id: int, page: int): string
  {
    domain + "/m-review-a-view_review-goods_id-" + IntToString(id) + "-page-" + IntToString(page) + ".htm"
  }

  /** The number of pages in `range(2, n + 1)`. */
  function LaterCount(n: int): nat
  {
    if n >= 2 then n - 1 else 0
  }

  /** The category links of pages 2..n. */
  function CategoryLinks(domain: string, n: int): seq<string>
  {
    seq(LaterCount(n), i => CategoryUrl(domain, i + 2))
  }

  /** The review links of pages 2..n of one product. */
  function ReviewLinks(domain: string, id: int, n: int): seq<string>
  {
    seq(LaterCount(n), i => ReviewUrl(domain, id, i + 2))
  }

  /** `reduce(lambda first, second: first + second, pages)`: raises on no pages. */
  function Concat<T>(pages: seq<seq<T>>): Result<seq<T>, Error>
  {
    if pages == [] then Failure(EmptyReduce) else Success(Flatten(pages))
  }

  // ----- category crawl ----------------------------------------------------

  /** `get_link_products`: BeautifulSoup raises on a missing body. */
  function PageProducts(site: Site, markup: Markup, link: string): Result<seq<Doc>, Error>
  {
    if site(link).None? then Failure(NullBody)
    else Success(ScrapeCategoryPage(markup.category(site(link).value).products))
  }

  /** `pool.map(get_link_products, links)`: every link is requested. */
  function PageResults(site: Site, markup: Markup, links: seq<string>): seq<Result<seq<Doc>, Error>>
  {
    seq(|links|, i requires 0 <= i < |links| => PageProducts(site, markup, links[i]))
  }

  /**
   * The pages 2..N of the category crawl: every link is requested, the first
   * failing page's exception is raised, and otherwise the pages' products are
   * concatenated.
   */
  function FanOut(site: Site, markup: Markup, links: seq<string>): Result<seq<Doc>, Error>
  {
    var later := Collect(PageResults(site, markup, links));
    if later.Failure? then Failure(later.error) else Concat(later.value)
  }

  /** `scrape_products`. */
  function CategoryCrawl(site: Site, markup: Markup, domain: string): Traced<seq<Doc>>
  {
    var url1 := CategoryUrl(domain, 1);
    var body := site(url1);
    if Falsy(body) then Traced(Success([]), [url1])
    else
      var page := markup.category(body.value);
      var first := ScrapeCategoryPage(page.products);
      var n := PagesCount(page.pager);
      if n.None? || n.value == 0 then Traced(Success(first), [url1])
      else
        var links := CategoryLinks(domain, n.value);
        var rest := FanOut(site, markup, links);
        Traced(if rest.Failure? then Failure(rest.error) else Success(first + rest.value), [url1] + links)
  }

  // ----- review crawl ------------------------------------------------------

  /** `list(map(parse_single_review, reviews))`: the first review that raises aborts. */
  function ParseReviews(reviews: seq<ReviewFragment>): Result<seq<Review>, Error>
  {
    Collect(seq(|reviews|, i requires 0 <= i < |reviews| => ParseSingleReview(reviews[i])))
  }

  /**
   * `scrape_review_page`. Its filter `if review` keeps every review, since a
   * parsed review is a non-empty dict.
   */
  function ReviewPageReviews(site: Site, markup: Markup, link: string): Result<seq<Review>, Error>
  {
    if site(link).None? then Failure(NullBody)
    else ParseReviews(markup.review(site(link).value).reviews)
  }

  function ReviewPageResults(site: Site, markup: Markup, links: seq<string>): seq<Result<seq<Review>, Error>>
  {
    seq(|links|, i requires 0 <= i < |links| => ReviewPageReviews(site, markup, links[i]))
  }

  /**
   * `list(map(scrape_review_page, links))` with the builtin lazy `map`: pages
   * are requested one after another and the first that raises ends the crawl.
   */
  function ReviewPages(site: Site, markup: Markup, links: seq<string>): Traced<seq<seq<Review>>>
  {
    var rs := ReviewPageResults(site, markup, links);
    var k := FirstFailure(rs);
    if k < |links| then Traced(Failure(rs[k].error), links[..k + 1])
    else Traced(Success(Values(rs)), links)
  }

  /** The page loop after the first i pages parsed and page i raised. */
  lemma ReviewPagesFailAt(site: Site, markup: Markup, links: seq<string>, i: int)
    requires 0 <= i < |links|
    requires forall j :: 0 <= j < i ==> ReviewPageResults(site, markup, links)[j].Success?
    requires ReviewPageResults(site, markup, links)[i].Failure?
    ensures ReviewPages(site, markup, links) ==
      Traced(Failure(ReviewPageResults(site, markup, links)[i].error), links[..i + 1])
  {
    assert FirstFailure(ReviewPageResults(site, markup, links)) == i;
  }

  /** The page loop after every page parsed. */
  lemma ReviewPagesAllParse(site: Site, markup: Markup, links: seq<string>)
    requires forall j :: 0 <= j < |links| ==> ReviewPageResults(site, markup, links)[j].Success?
    ensures ReviewPages(site, markup, links) ==
      Traced(Success(Values(ReviewPageResults(site, markup, links))), links)
  {
    assert FirstFailure(ReviewPageResults(site, markup, links)) == |links|;
  }

  /** `get_product_reviews`. */
  function ReviewCrawl(site: Site, markup: Markup, domain: string, id: int): Traced<seq<Review>>
  {
    var url1 := ReviewUrl(domain, id, 1);
    var body := site(url1);
    if Falsy(body) then Traced(Success([]), [url1])
    else
      var page := markup.review(body.value);
      var first := ParseReviews(page.reviews);
      if first.Failure? then Traced(first, [url1])
      else
        var n := PagesCount(page.pager);
        if n.None? || n.value == 0 then Traced(first, [url1])
        else
          var later := ReviewPages(site, markup, ReviewLinks(domain, id, n.value));
          var rest := if later.result.Failure? then Failure(later.result.error) else Concat(later.result.value);
          Traced(if rest.Failure? then Failure(rest.error) else Success(first.value + rest.value), [url1] + later.fetched)
  }

  // ----- per-product parsers -----------------------------------------------

  /**
   * What an operation that updates a product dict in place leaves behind: the
   * dict's fields afterwards, the exception raised if any, and the URLs requested.
   */
  datatype Update = Update(fields: Fields, error: Option<Error>, fetched: seq<string>)

  /** The stored form of `get_product_rating`'s result. */
  function RatingValue(rating: Option<Float>): Value
  {
    if rating.None? then VNull else VFloat(rating.value)
  }

  /**
   * `parse_single_product`: fetch the product's `url`, then assign `rating`
   * and then `product_info`. An exception in the second leaves the first in place.
   */
  function Detail(site: Site, markup: Markup, fields: Fields): Update
  {
    if "url" !in fields || !fields["url"].VStr? then Update(fields, Some(MissingKey("url")), [])
    else
      var url := fields["url"].s;
      var body := site(url);
      if body.None? then Update(fields, Some(NullBody), [url])
      else
        var page := markup.detail(body.value);
        var rating := ProductRating(page.rating);
        if rating.Failure? then Update(fields, Some(rating.error), [url])
        else
          var rated := fields["rating" := RatingValue(rating.value)];
          var info := ProductInfo(page);
          if info.Failure? then Update(rated, Some(info.error), [url])
          else Update(rated["product_info" := VStr(info.value)], None, [url])
  }

  /** `parse_product_reviews`: assign `reviews` from the crawl of the product's review pages. */
  function WithReviews(site: Site, markup: Markup, domain: string, id: int, fields: Fields): Update
  {
    var c := ReviewCrawl(site, markup, domain, id);
    if c.result.Failure? then Update(fields, Some(c.result.error), c.fetched)
    else Update(fields["reviews" := VReviews(c.result.value)], None, c.fetched)
  }

  // ----- properties of the crawls -------------------------------------------

  /** Different category pages have different URLs. */
  lemma CategoryUrlInjective(domain: string, j: int, k: int)
    requires CategoryUrl(domain, j) == CategoryUrl(domain, k)
    ensures j == k
  {
    var p := domain + "/hoodies-c-181-page-";
    var a, b := IntToString(j), IntToString(k);
    var s := CategoryUrl(domain, j);
    assert s == p + a + ".html" && s == p + b + ".html";
    assert |a| == |b|;
    assert a == s[|p|..|p| + |a|];
    assert b == s[|p|..|p| + |b|];
    IntToStringInjective(j, k);
  }

  /** Different review pages of one product have different URLs. */
  lemma ReviewUrlInjective(domain: string, id: int, j: int, k: int)
    requires ReviewUrl(domain, id, j) == ReviewUrl(domain, id, k)
    ensures j == k
  {
    var p := domain + "/m-review-a-view_review-goods_id-" + IntToString(id) + "-page-";
    var a, b := IntToString(j), IntToString(k);
    var s := ReviewUrl(domain, id, j);
    assert s == p + a + ".htm" && s == p + b + ".htm";
    assert |a| == |b|;
    assert a == s[|p|..|p| + |a|];
    assert b == s[|p|..|p| + |b|];
    IntToStringInjective(j, k);
  }

  /** The first category page as parsed, when its body is non-empty. */
  function FirstCategoryPage(site: Site, markup: Markup, domain: string): CategoryPage
    requires !Falsy(site(CategoryUrl(domain, 1)))
  {
    markup.category(site(CategoryUrl(domain, 1)).value)
  }

  /**
   * An empty first page ends the crawl with no products; a first page without a
   * page count (or with 0) gives just its own products. Either way nothing
   * else is requested.
   */
  lemma CategoryCrawlEarlyStops(site: Site, markup: Markup, domain: string)
    ensures var c := CategoryCrawl(site, markup, domain);
      Falsy(site(CategoryUrl(domain, 1))) ==> c == Traced(Success([]), [CategoryUrl(domain, 1)])
    ensures var c := CategoryCrawl(site, markup, domain);
      !Falsy(site(CategoryUrl(domain, 1))) &&
      PagesCount(FirstCategoryPage(site, markup, domain).pager) in {None, Some(0)} ==>
        c == Traced(Success(ScrapeCategoryPage(FirstCategoryPage(site, markup, domain).products)), [CategoryUrl(domain, 1)])
  {
  }

  /**
   * With a page count N ≠ 0 the crawl requests pages 1..max(N, 1) in order,
   * each exactly once.
   */
  lemma CategoryCrawlRequests(site: Site, markup: Markup, domain: string, n: int)
    requires !Falsy(site(CategoryUrl(domain, 1)))
    requires PagesCount(FirstCategoryPage(site, markup, domain).pager) == Some(n) && n != 0
    ensures var c := CategoryCrawl(site, markup, domain);
      |c.fetched| == (if n >= 1 then n else 1) &&
      (forall k :: 0 <= k < |c.fetched| ==> c.fetched[k] == CategoryUrl(domain, k + 1)) &&
      (forall i, j :: 0 <= i < j < |c.fetched| ==> c.fetched[i] != c.fetched[j])
  {
    CategoryCrawlFetched(site, markup, domain, n);
    CategoryPagesInOrder(domain, n);
  }

  lemma CategoryCrawlFetched(site: Site, markup: Markup, domain: string, n: int)
    requires !Falsy(site(CategoryUrl(domain, 1)))
    requires PagesCount(FirstCategoryPage(site, markup, domain).pager) == Some(n) && n != 0
    ensures CategoryCrawl(site, markup, domain).fetched == [CategoryUrl(domain, 1)] + CategoryLinks(domain, n)
  {
  }

  /** Page 1 followed by the links of pages 2..n names pages 1..max(n, 1), each once. */
  lemma CategoryPagesInOrder(domain: string, n: int)
    ensures var u := [CategoryUrl(domain, 1)] + CategoryLinks(domain, n);
      |u| == (if n >= 1 then n else 1) &&
      (forall k :: 0 <= k < |u| ==> u[k] == CategoryUrl(domain, k + 1)) &&
      (forall i, j :: 0 <= i < j < |u| ==> u[i] != u[j])
  {
    var links := CategoryLinks(domain, n);
    var u := [CategoryUrl(domain, 1)] + links;
    forall k | 0 <= k < |u| ensures u[k] == CategoryUrl(domain, k + 1) {
      if k > 0 {
        assert u[k] == links[k - 1];
      }
    }
    forall i, j | 0 <= i < j < |u| ensures u[i] != u[j] {
      if u[i] == u[j] {
        CategoryUrlInjective(domain, i + 1, j + 1);
      }
    }
  }

  /** The products of category page k, when it has a body. */
  function CategoryPages(site: Site, markup: Markup, domain: string, n: nat): (pages: seq<seq<Doc>>)
    requires forall k :: 1 <= k <= n ==> site(CategoryUrl(domain, k)).Some?
    ensures |pages| == n
  {
    seq(n, i requires 0 <= i < n => ScrapeCategoryPage(markup.category(site(CategoryUrl(domain, i + 1)).value).products))
  }

  /** When every later page has a body, the fan-out concatenates their products. */
  lemma FanOutConcatenates(site: Site, markup: Markup, domain: string, n: int)
    requires n >= 2
    requires forall k :: 1 <= k <= n ==> site(CategoryUrl(domain, k)).Some?
    ensures var pages := CategoryPages(site, markup, domain, n);
      FanOut(site, markup, CategoryLinks(domain, n)) == Success(Flatten(pages[1..]))
  {
    var pages := CategoryPages(site, markup, domain, n);
    var links := CategoryLinks(domain, n);
    var rs := PageResults(site, markup, links);
    forall i | 0 <= i < |rs| ensures rs[i] == Success(pages[i + 1]) {
      assert links[i] == CategoryUrl(domain, i + 2);
    }
    var later := Collect(rs);
    assert later.value == pages[1..];
  }

  /**
   * When every page 1..N (N ≥ 2) has a body, the crawl returns page 1's products,
   * then page 2's, …, then page N's.
   */
  lemma CategoryCrawlConcatenates(site: Site, markup: Markup, domain: string, n: int)
    requires n >= 2
    requires forall k :: 1 <= k <= n ==> site(CategoryUrl(domain, k)).Some?
    requires site(CategoryUrl(domain, 1)).value != ""
    requires PagesCount(FirstCategoryPage(site, markup, domain).pager) == Some(n)
    ensures CategoryCrawl(site, markup, domain).result == Success(Flatten(CategoryPages(site, markup, domain, n)))
  {
    var pages := CategoryPages(site, markup, domain, n);
    FanOutConcatenates(site, markup, domain, n);
    assert pages[0] == ScrapeCategoryPage(FirstCategoryPage(site, markup, domain).products);
    CategoryCrawlOfPages(site, markup, domain, n, Flatten(pages[1..]));
    FlattenHead(pages);
  }

  /** The category crawl once the later pages have all been scraped. */
  lemma CategoryCrawlOfPages(site: Site, markup: Markup, domain: string, n: int, rest: seq<Doc>)
    requires n >= 2
    requires !Falsy(site(CategoryUrl(domain, 1)))
    requires PagesCount(FirstCategoryPage(site, markup, domain).pager) == Some(n)
    requires FanOut(site, markup, CategoryLinks(domain, n)) == Success(rest)
    ensures CategoryCrawl(site, markup, domain).result ==
      Success(ScrapeCategoryPage(FirstCategoryPage(site, markup, domain).products) + rest)
  {
  }

  /**
   * A later page without a body makes the crawl raise, after every page has
   * been requested (`pool.map` runs all pages before raising).
   */
  lemma CategoryCrawlMissingPage(site: Site, markup: Markup, domain: string, n: int, k: int)
    requires !Falsy(site(CategoryUrl(domain, 1)))
    requires PagesCount(FirstCategoryPage(site, markup, domain).pager) == Some(n)
    requires 2 <= k <= n && site(CategoryUrl(domain, k)).None?
    ensures var c := CategoryCrawl(site, markup, domain);
      c.result == Failure(NullBody) && |c.fetched| == n
  {
    var links := CategoryLinks(domain, n);
    var rs := PageResults(site, markup, links);
    assert links[k - 2] == CategoryUrl(domain, k);
    assert rs[k - 2].Failure?;
    var later := Collect(rs);
    assert later.Failure?;
    var j :| 0 <= j < |rs| && rs[j] == Failure(later.error);
  }

  /**
   * A page count of 1 (or a negative one) leaves `reduce` with no pages: the
   * crawl raises `EmptyReduce` without any further request.
   */
  lemma CategoryCrawlSinglePage(site: Site, markup: Markup, domain: string, n: int)
    requires !Falsy(site(CategoryUrl(domain, 1)))
    requires PagesCount(FirstCategoryPage(site, markup, domain).pager) == Some(n) && n != 0 && n < 2
    ensures CategoryCrawl(site, markup, domain) == Traced(Failure(EmptyReduce), [CategoryUrl(domain, 1)])
  {
    var rs := PageResults(site, markup, CategoryLinks(domain, n));
    assert rs == [];
    assert Collect(rs) == Success([]);
  }

  /** The first review page as parsed, when its body is non-empty. */
  function FirstReviewPage(site: Site, markup: Markup, domain: string, id: int): ReviewPage
    requires !Falsy(site(ReviewUrl(domain, id, 1)))
  {
    markup.review(site(ReviewUrl(domain, id, 1)).value)
  }

  /**
   * No first review page gives no reviews; a first page without a page count
   * gives exactly its own reviews. Either way nothing else is requested.
   */
  lemma ReviewCrawlEarlyStops(site: Site, markup: Markup, domain: string, id: int)
    ensures var c := ReviewCrawl(site, markup, domain, id);
      Falsy(site(ReviewUrl(domain, id, 1))) ==> c == Traced(Success([]), [ReviewUrl(domain, id, 1)])
    ensures var c := ReviewCrawl(site, markup, domain, id);
      !Falsy(site(ReviewUrl(domain, id, 1))) &&
      PagesCount(FirstReviewPage(site, markup, domain, id).pager) in {None, Some(0)} ==>
        c == Traced(ParseReviews(FirstReviewPage(site, markup, domain, id).reviews), [ReviewUrl(domain, id, 1)])
  {
  }

  /**
   * A review page count of 1 (or a negative one) leaves `reduce` with no pages:
   * the crawl raises `EmptyReduce` after requesting page 1 only.
   */
  lemma ReviewCrawlSinglePage(site: Site, markup: Markup, domain: string, id: int, n: int)
    requires !Falsy(site(ReviewUrl(domain, id, 1)))
    requires ParseReviews(FirstReviewPage(site, markup, domain, id).reviews).Success?
    requires PagesCount(FirstReviewPage(site, markup, domain, id).pager) == Some(n) && n != 0 && n < 2
    ensures ReviewCrawl(site, markup, domain, id) == Traced(Failure(EmptyReduce), [ReviewUrl(domain, id, 1)])
  {
    assert ReviewLinks(domain, id, n) == [];
    assert ReviewPageResults(site, markup, []) == [];
  }

  /**
   * A first review page whose reviews raise ends the crawl with that exception
   * before the pager is read: only page 1 is requested.
   */
  lemma ReviewCrawlFirstPageRaises(site: Site, markup: Markup, domain: string, id: int)
    requires !Falsy(site(ReviewUrl(domain, id, 1)))
    requires ParseReviews(FirstReviewPage(site, markup, domain, id).reviews).Failure?
    ensures ReviewCrawl(site, markup, domain, id) ==
      Traced(ParseReviews(FirstReviewPage(site, markup, domain, id).reviews), [ReviewUrl(domain, id, 1)])
  {
  }

  /** The review pages 1..n of a product, when each parses. */
  function ReviewPagesOf(site: Site, markup: Markup, domain: string, id: int, n: nat): (pages: seq<seq<Review>>)
    requires forall k :: 1 <= k <= n ==> ReviewPageReviews(site, markup, ReviewUrl(domain, id, k)).Success?
    ensures |pages| == n
  {
    seq(n, i requires 0 <= i < n => ReviewPageReviews(site, markup, ReviewUrl(domain, id, i + 1)).value)
  }

  /** When every later review page parses, all are requested and their reviews kept in order. */
  lemma ReviewPagesComplete(site: Site, markup: Markup, domain: string, id: int, n: int)
    requires n >= 2
    requires forall k :: 1 <= k <= n ==> ReviewPageReviews(site, markup, ReviewUrl(domain, id, k)).Success?
    ensures var pages := ReviewPagesOf(site, markup, domain, id, n);
      ReviewPages(site, markup, ReviewLinks(domain, id, n)) == Traced(Success(pages[1..]), ReviewLinks(domain, id, n))
  {
    var pages := ReviewPagesOf(site, markup, domain, id, n);
    var links := ReviewLinks(domain, id, n);
    var rs := ReviewPageResults(site, markup, links);
    forall i | 0 <= i < |rs| ensures rs[i] == Success(pages[i + 1]) {
      assert links[i] == ReviewUrl(domain, id, i + 2);
    }
    assert Values(rs) == pages[1..];
  }

  /**
   * When every review page 1..N (N ≥ 2) parses, the crawl requests each of
   * them once, in order, and returns their reviews in page order.
   */
  lemma ReviewCrawlConcatenates(site: Site, markup: Markup, domain: string, id: int, n: int)
    requires n >= 2
    requires !Falsy(site(ReviewUrl(domain, id, 1)))
    requires PagesCount(FirstReviewPage(site, markup, domain, id).pager) == Some(n)
    requires forall k :: 1 <= k <= n ==> ReviewPageReviews(site, markup, ReviewUrl(domain, id, k)).Success?
    ensures var c := ReviewCrawl(site, markup, domain, id);
      c.result == Success(Flatten(ReviewPagesOf(site, markup, domain, id, n))) &&
      c.fetched == seq(n, k => ReviewUrl(domain, id, k + 1))
  {
    var pages := ReviewPagesOf(site, markup, domain, id, n);
    ReviewPagesComplete(site, markup, domain, id, n);
    assert ParseReviews(FirstReviewPage(site, markup, domain, id).reviews) == Success(pages[0]) by {
      assert ParseReviews(FirstReviewPage(site, markup, domain, id).reviews) ==
        ReviewPageReviews(site, markup, ReviewUrl(domain, id, 1));
    }
    ReviewCrawlOfPages(site, markup, domain, id, n, pages[0], pages[1..]);
    FlattenHead(pages);
    ReviewLinksAll(domain, id, n);
  }

  lemma FlattenHead<T>(xss: seq<seq<T>>)
    requires xss != []
    ensures xss[0] + Flatten(xss[1..]) == Flatten(xss)
  {
    FlattenCons(xss[0], xss[1..]);
    assert [xss[0]] + xss[1..] == xss;
  }

  /** Page 1 followed by the links of pages 2..n are the links of pages 1..n. */
  lemma ReviewLinksAll(domain: string, id: int, n: int)
    requires n >= 1
    ensures [ReviewUrl(domain, id, 1)] + ReviewLinks(domain, id, n) == seq(n, k => ReviewUrl(domain, id, k + 1))
  {
    var links := ReviewLinks(domain, id, n);
    ReviewLinksPrefix(domain, id, n, n);
    assert links[..n - 1] == links;
  }

  /** The review crawl once page 1 and the later pages have all parsed. */
  lemma ReviewCrawlOfPages(site: Site, markup: Markup, domain: string, id: int, n: int,
                           first: seq<Review>, later: seq<seq<Review>>)
    requires n >= 2
    requires !Falsy(site(ReviewUrl(domain, id, 1)))
    requires ParseReviews(FirstReviewPage(site, markup, domain, id).reviews) == Success(first)
    requires PagesCount(FirstReviewPage(site, markup, domain, id).pager) == Some(n)
    requires ReviewPages(site, markup, ReviewLinks(domain, id, n)) == Traced(Success(later), ReviewLinks(domain, id, n))
    requires later != []
    ensures ReviewCrawl(site, markup, domain, id) ==
      Traced(Success(first + Flatten(later)), [ReviewUrl(domain, id, 1)] + ReviewLinks(domain, id, n))
  {
  }

  /** Later review page k being the first that raises stops the page loop right after it. */
  lemma ReviewPagesStop(site: Site, markup: Markup, domain: string, id: int, n: int, k: int)
    requires 2 <= k <= n
    requires forall j :: 2 <= j < k ==> ReviewPageReviews(site, markup, ReviewUrl(domain, id, j)).Success?
    requires ReviewPageReviews(site, markup, ReviewUrl(domain, id, k)).Failure?
    ensures var links := ReviewLinks(domain, id, n);
      ReviewPages(site, markup, links) ==
        Traced(Failure(ReviewPageReviews(site, markup, ReviewUrl(domain, id, k)).error), links[..k - 1])
  {
    var links := ReviewLinks(domain, id, n);
    var rs := ReviewPageResults(site, markup, links);
    forall i | 0 <= i < k - 1 ensures rs[i] == ReviewPageReviews(site, markup, ReviewUrl(domain, id, i + 2)) {
      assert links[i] == ReviewUrl(domain, id, i + 2);
    }
    ReviewPagesFailAt(site, markup, links, k - 2);
  }

  /**
   * Review page k (2 ≤ k ≤ N) being the first that raises ends the crawl with its
   * exception, after requesting pages 1..k and no more.
   */
  lemma ReviewCrawlStopsAt(site: Site, markup: Markup, domain: string, id: int, n: int, k: int)
    requires !Falsy(site(ReviewUrl(domain, id, 1)))
    requires ParseReviews(FirstReviewPage(site, markup, domain, id).reviews).Success?
    requires PagesCount(FirstReviewPage(site, markup, domain, id).pager) == Some(n)
    requires 2 <= k <= n
    requires forall j :: 2 <= j < k ==> ReviewPageReviews(site, markup, ReviewUrl(domain, id, j)).Success?
    requires ReviewPageReviews(site, markup, ReviewUrl(domain, id, k)).Failure?
    ensures var c := ReviewCrawl(site, markup, domain, id);
      c.result == Failure(ReviewPageReviews(site, markup, ReviewUrl(domain, id, k)).error) &&
      c.fetched == seq(k, j => ReviewUrl(domain, id, j + 1))
  {
    var links := ReviewLinks(domain, id, n);
    ReviewPagesStop(site, markup, domain, id, n, k);
    var c := ReviewCrawl(site, markup, domain, id);
    assert c.fetched == [ReviewUrl(domain, id, 1)] + links[..k - 1];
    ReviewLinksPrefix(domain, id, n, k);
  }

  /** Page 1 followed by the later links up to page k are the links of pages 1..k. */
  lemma ReviewLinksPrefix(domain: string, id: int, n: int, k: int)
    requires 1 <= k <= n
    ensures [ReviewUrl(domain, id, 1)] + ReviewLinks(domain, id, n)[..k - 1] == seq(k, j => ReviewUrl(domain, id, j + 1))
  {
    var got := [ReviewUrl(domain, id, 1)] + ReviewLinks(domain, id, n)[..k - 1];
    var want := seq(k, j => ReviewUrl(domain, id, j + 1));
    assert |got| == k;
    forall i | 0 <= i < k ensures got[i] == want[i] {
      assert want[i] == ReviewUrl(domain, id, i + 1);
      if i > 0 {
        var later := ReviewLinks(domain, id, n);
        assert got[i] == later[i - 1];
        assert later[i - 1] == ReviewUrl(domain, id, (i - 1) + 2);
      }
    }
    assert got == want;
  }

  /**
   * `parse_single_product` only ever assigns `rating` and `product_info`, and
   * assigns both exactly when it returns.
   */
  lemma DetailAssigns(site: Site, markup: Markup, fields: Fields)
    ensures var u := Detail(site, markup, fields);
      && (forall k :: k in fields && k != "rating" && k != "product_info" ==> k in u.fields && u.fields[k] == fields[k])
      && u.fields.Keys <= fields.Keys + {"rating", "product_info"}
      && (u.error.None? ==> u.fields.Keys == fields.Keys + {"rating", "product_info"})
      && (u.error.None? ==>
            "url" in fields && fields["url"].VStr? && site(fields["url"].s).Some? &&
            var page := markup.detail(site(fields["url"].s).value);
            ProductRating(page.rating).Success? && ProductInfo(page).Success? &&
            u.fields["rating"] == RatingValue(ProductRating(page.rating).value) &&
            u.fields["product_info"] == VStr(ProductInfo(page).value))
      && |u.fetched| <= 1
  {
  }

  /** `parse_product_reviews` sets only the `reviews` key, and sets it exactly when it returns. */
  lemma WithReviewsAssigns(site: Site, markup: Markup, domain: string, id: int, fields: Fields)
    ensures var u := WithReviews(site, markup, domain, id, fields);
      && (forall k :: k in fields && k != "reviews" ==> k in u.fields && u.fields[k] == fields[k])
      && (u.error.None? <==> ReviewCrawl(site, markup, domain, id).result.Success?)
      && (u.error.None? ==>
            u.fields.Keys == fields.Keys + {"reviews"} &&
            u.fields["reviews"] == VReviews(ReviewCrawl(site, markup, domain, id).result.value))
      && (u.error.Some? ==> u.fields == fields)
  {
  }
}
