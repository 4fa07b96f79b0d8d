/**
 * The parts of the Dresslily pages that the extractors look at, as BeautifulSoup
 * would present them. Each field records what one `find`/`find_all` call of the
 * scraper returns; `None` stands for the element (or attribute) being absent, so
 * that dereferencing it raises.
 */
module Html {
  import opened Wrappers
  import opened Records

  /** The first `<a>` of a product card; `href` is its attribute, if present. */
  datatype Anchor = Anchor(href: Option<string>)

  /**
   * The two prices of a product card (`data-orgp` of the market and sale price
   * spans, as floats) and the percentage `round(100 * (orig - sale) / orig)`.
   */
  datatype Prices = Prices(original: Float, discounted: Float, discount: int)

  /** One `div.js-good … category-good` of a category page. */
  datatype ProductFragment = ProductFragment(
    anchor: Option<Anchor>,        // product.a
    nameLink: Option<string>,      // text of a.goods-name-link
    prices: Option<Prices>)        // None when a span is absent, not a number, or the original price is 0

  /** The texts of the `<li>` items of `div.site-pager`, when that block exists. */
  type Pager = Option<seq<string>>

  datatype CategoryPage = CategoryPage(products: seq<ProductFragment>, pager: Pager)

  /** One `div.reviewlist clearfix` of a review page. */
  datatype ReviewFragment = ReviewFragment(
    icons: seq<set<string>>,       // the class lists of its <i> elements
    time: Option<Float>,           // span.reviewtime read by strptime('%b,%d %Y %H:%M:%S').timestamp()
    text: Option<string>,          // text of p.reviewcon
    spans: seq<string>)            // the strings of its <span> elements, in document order

  datatype ReviewPage = ReviewPage(reviews: seq<ReviewFragment>, pager: Pager)

  /** `span.review-avg-rate` of a product page: absent, or present with a text `float` reads or not. */
  datatype RatingSpan = NoRatingSpan | RatingSpan(value: Option<Float>)

  /**
   * A `<strong>` label of the `div.xxkkk20` product-info block with the node two
   * steps after it (`label.next.next`): its string, or `None` when that node is
   * missing or is not a string.
   */
  datatype InfoLabel = InfoLabel(text: string, following: Option<string>)

  datatype DetailPage = DetailPage(rating: RatingSpan, infoBlock: Option<seq<InfoLabel>>)

  /** How the three kinds of page body parse. */
  datatype Markup = Markup(
    category: string -> CategoryPage,
    review: string -> ReviewPage,
    detail: string -> DetailPage)
}
