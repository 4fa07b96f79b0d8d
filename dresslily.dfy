/**
 * The two scraper classes of `scrapers/dresslily.py` as objects over the shared
 * downloader. Each method does what the source does step by step and is proved
 * to return (or raise) what the crawl functions of `Crawling` say, after
 * requesting exactly the URLs those functions list.
 */
module Dresslily {
  import opened Wrappers
  import opened Records
  import opened Html
  import opened Extractors
  import opened Download
  import opened Crawling

  /** A product dict a parser updates in place; its `_id` never changes. */
  class ProductDict {
    const id: int
    var fields: Fields

    constructor (d: Doc)
      ensures id == d.id && fields == d.fields
    {
      id := d.id;
      fields := d.fields;
    }

    /** The dict as a value, as `add_products` reads it. */
    function Snapshot(): (d: Doc)
      reads this
      ensures d.id == id && d.fields == fields
    {
      Doc(id, fields)
    }
  }

  /** `DresslilyScraper`: the category crawl. */
  class DresslilyScraper {
    const downloader: Downloader
    const domain: string
    /** How BeautifulSoup reads a body: the parser is not modelled. */
    const markup: Markup

    constructor (downloader: Downloader, domain: string, markup: Markup)
      ensures this.downloader == downloader && this.domain == domain && this.markup == markup
    {
      this.downloader := downloader;
      this.domain := domain;
      this.markup := markup;
    }

    /** `get_link_products`: one request, then the page's products. */
    method GetLinkProducts(link: string) returns (r: Result<seq<Doc>, Error>)
      modifies downloader
      ensures r == PageProducts(downloader.site, markup, link)
      ensures downloader.requests == old(downloader.requests) + [link]
    {
      var body := downloader.Get(link);
      if body.None? {
        return Failure(NullBody);
      }
      var page := markup.category(body.value);
      r := Success(ScrapeCategoryPage(page.products));
    }

    /**
     * `scrape_products`: page 1, then pages 2..N through `pool.map` (read as a
     * map that runs every page and then raises the first failure in page
     * order), then the `reduce` of their product lists.
     */
    method ScrapeProducts() returns (r: Result<seq<Doc>, Error>)
      modifies downloader
      ensures r == CategoryCrawl(downloader.site, markup, domain).result
      ensures downloader.requests == old(downloader.requests) + CategoryCrawl(downloader.site, markup, domain).fetched
    {
      ghost var before := downloader.requests;
      ghost var c := CategoryCrawl(downloader.site, markup, domain);
      var all: seq<Doc> := [];
      var url1 := CategoryUrl(domain, 1);
      var body := downloader.Get(url1);
      if Falsy(body) {
        assert c.fetched == [url1];
        return Success(all);
      }
      var page := markup.category(body.value);
      all := all + ScrapeCategoryPage(page.products);
      assert all == ScrapeCategoryPage(page.products);
      var n := PagesCount(page.pager);
      if n.None? || n.value == 0 {
        assert c.fetched == [url1];
        return Success(all);
      }
      var links := CategoryLinks(domain, n.value);
      var results := GetPages(links);
      assert c.fetched == [url1] + links;
      AppendAssoc(before, [url1], links);
      var later := Collect(results);
      if later.Failure? {
        return Failure(later.error);
      }
      if later.value == [] {
        return Failure(EmptyReduce);
      }
      all := all + Flatten(later.value);
      r := Success(all);
    }

    /** `pool.map(self.get_link_products, pages_links)`: every page is requested, in order. */
    method GetPages(links: seq<string>) returns (results: seq<Result<seq<Doc>, Error>>)
      modifies downloader
      ensures results == PageResults(downloader.site, markup, links)
      ensures downloader.requests == old(downloader.requests) + links
    {
      results := [];
      var i := 0;
      while i < |links|
        invariant 0 <= i <= |links| && |results| == i
        invariant forall j :: 0 <= j < i ==> results[j] == PageProducts(downloader.site, markup, links[j])
        invariant downloader.requests == old(downloader.requests) + links[..i]
      {
        var res := GetLinkProducts(links[i]);
        results := results + [res];
        TakeSnoc(links, i);
        i := i + 1;
      }
      TakeAll(links);
    }
  }

  /** `DresslilyParser`: the product page and review crawl of one product. */
  class DresslilyParser {
    const downloader: Downloader
    const domain: string
    const markup: Markup

    constructor (downloader: Downloader, domain: string, markup: Markup)
      ensures this.downloader == downloader && this.domain == domain && this.markup == markup
    {
      this.downloader := downloader;
      this.domain := domain;
      this.markup := markup;
    }

    /**
     * `parse_single_product`: fetch the product page and assign `rating`, then
     * `product_info`, to the dict itself. An exception in the second step leaves
     * the first assignment in place.
     */
    method ParseSingleProduct(p: ProductDict) returns (err: Option<Error>)
      modifies p, downloader
      ensures var u := Detail(downloader.site, markup, old(p.fields));
        p.fields == u.fields && err == u.error &&
        downloader.requests == old(downloader.requests) + u.fetched
    {
      if "url" !in p.fields || !p.fields["url"].VStr? {
        return Some(MissingKey("url"));
      }
      var body := downloader.Get(p.fields["url"].s);
      if body.None? {
        return Some(NullBody);
      }
      var page := markup.detail(body.value);
      var rating := ProductRating(page.rating);
      if rating.Failure? {
        return Some(rating.error);
      }
      p.fields := p.fields["rating" := RatingValue(rating.value)];
      var info := GetProductInfo(page);
      if info.Failure? {
        return Some(info.error);
      }
      p.fields := p.fields["product_info" := VStr(info.value)];
      err := None;
    }

    /** `scrape_review_page`: one request, then the page's reviews. */
    method ScrapeReviewPage(link: string) returns (r: Result<seq<Review>, Error>)
      modifies downloader
      ensures r == ReviewPageReviews(downloader.site, markup, link)
      ensures downloader.requests == old(downloader.requests) + [link]
    {
      var body := downloader.Get(link);
      if body.None? {
        return Failure(NullBody);
      }
      var page := markup.review(body.value);
      r := ParseReviews(page.reviews);
    }

    /**
     * `get_product_reviews`: page 1, then pages 2..N one after another (the
     * builtin lazy `map`), stopping at the first page that raises.
     */
    method GetProductReviews(id: int) returns (r: Result<seq<Review>, Error>)
      modifies downloader
      ensures r == ReviewCrawl(downloader.site, markup, domain, id).result
      ensures downloader.requests == old(downloader.requests) + ReviewCrawl(downloader.site, markup, domain, id).fetched
    {
      ghost var before := downloader.requests;
      ghost var c := ReviewCrawl(downloader.site, markup, domain, id);
      var url1 := ReviewUrl(domain, id, 1);
      var body := downloader.Get(url1);
      if Falsy(body) {
        assert c.fetched == [url1];
        return Success([]);
      }
      var page := markup.review(body.value);
      var first := ParseReviews(page.reviews);
      if first.Failure? {
        assert c.fetched == [url1];
        return first;
      }
      var all := first.value;
      var n := PagesCount(page.pager);
      if n.None? || n.value == 0 {
        assert c.fetched == [url1];
        return Success(all);
      }
      var links := ReviewLinks(domain, id, n.value);
      ghost var pages := ReviewPages(downloader.site, markup, links);
      var later := ScrapeReviewPages(links);
      assert c.fetched == [url1] + pages.fetched;
      AppendAssoc(before, [url1], pages.fetched);
      if later.Failure? {
        return Failure(later.error);
      }
      if later.value == [] {
        return Failure(EmptyReduce);
      }
      r := Success(all + Flatten(later.value));
    }

    /** `list(map(self.scrape_review_page, pages_links))`: the pages in turn, until one raises. */
    method ScrapeReviewPages(links: seq<string>) returns (r: Result<seq<seq<Review>>, Error>)
      modifies downloader
      ensures r == ReviewPages(downloader.site, markup, links).result
      ensures downloader.requests == old(downloader.requests) + ReviewPages(downloader.site, markup, links).fetched
    {
      ghost var rs := ReviewPageResults(downloader.site, markup, links);
      var pages: seq<seq<Review>> := [];
      var i := 0;
      while i < |links|
        invariant 0 <= i <= |links| && |pages| == i
        invariant forall j :: 0 <= j < i ==> rs[j] == Success(pages[j])
        invariant downloader.requests == old(downloader.requests) + links[..i]
      {
        var res := ScrapeReviewPage(links[i]);
        TakeSnoc(links, i);
        assert rs[i] == res;
        if res.Failure? {
          ReviewPagesFailAt(downloader.site, markup, links, i);
          return Failure(res.error);
        }
        pages := pages + [res.value];
        i := i + 1;
      }
      TakeAll(links);
      ReviewPagesAllParse(downloader.site, markup, links);
      assert pages == Values(rs);
      r := Success(pages);
    }

    /** `parse_product_reviews`: assign the crawled reviews to the dict's `reviews`. */
    method ParseProductReviews(p: ProductDict) returns (err: Option<Error>)
      modifies p, downloader
      ensures var u := WithReviews(downloader.site, markup, domain, p.id, old(p.fields));
        p.fields == u.fields && err == u.error &&
        downloader.requests == old(downloader.requests) + u.fetched
    {
      var rs := GetProductReviews(p.id);
      if rs.Failure? {
        return Some(rs.error);
      }
      p.fields := p.fields["reviews" := VReviews(rs.value)];
      err := None;
    }
  }
}
