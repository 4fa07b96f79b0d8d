/**
 * The static extractors of `DresslilyScraper` and `DresslilyParser`: what each one
 * reads out of a parsed page, and the errors it raises.
 */
module Extractors {
  import opened Wrappers
  import opened Records
  import opened Text
  import opened Numbers
  import opened Html
  import opened OrderedDict

  // ----- pagination --------------------------------------------------------

  /**
   * `get_pages_count`: the integer written in the last-but-one pager item.
   * `None` when the pager block is absent, has fewer than two items, or that
   * item is not an integer (every such exception is caught).
   */
  function PagesCount(pager: Pager): Option<int>
  {
    if pager.None? || |pager.value| < 2 then None
    else ParseInt(pager.value[|pager.value| - 2])
  }

  /** A pager `… N, next` reports N pages. */
  lemma PagesCountOfPager(items: seq<string>, n: int, next: string)
    ensures PagesCount(Some(items + [IntToString(n), next])) == Some(n)
  {
    var li := items + [IntToString(n), next];
    assert li[|li| - 2] == IntToString(n);
    ParseIntOfIntToString(n);
  }

  /** A last-but-one item without digits (an ellipsis, an arrow) reports nothing. */
  lemma PagesCountOfText(items: seq<string>, text: string, next: string)
    requires forall i :: 0 <= i < |text| ==> !IsDigit(text[i])
    ensures PagesCount(Some(items + [text, next])) == None
  {
    var li := items + [text, next];
    assert li[|li| - 2] == text;
    ParseIntWithoutDigits(text);
  }

  // ----- product cards -----------------------------------------------------

  /** `product.a['href']`, `None` when the card has no link or the link no href. */
  function Href(f: ProductFragment): Option<string>
  {
    if f.anchor.None? then None else f.anchor.value.href
  }

  /** The id in a product link: `int(href.split('product')[-1].replace('.html', ''))`. */
  function HrefId(href: string): Option<int>
  {
    var pieces := Split(href, "product");
    ParseInt(RemoveAll(pieces[|pieces| - 1], ".html"))
  }

  /** A link `….../<name>-product<id>.html` yields its id, whatever comes before. */
  lemma HrefIdOfProductLink(prefix: string, n: int)
    ensures HrefId(prefix + "product" + IntToString(n) + ".html") == Some(n)
  {
    var digits := IntToString(n);
    var t := digits + ".html";
    assert forall i :: 0 <= i < |t| ==> t[i] != 'p' by {
      forall i | 0 <= i < |t| ensures t[i] != 'p' {
        if i < |digits| {
          assert t[i] == digits[i];
        } else {
          assert t[i] == ".html"[i - |digits|];
        }
      }
    }
    NoHeadCharNoOccurrence(t, "product");
    assert prefix + "product" + digits + ".html" == prefix + "product" + t;
    SplitLastPiece(prefix, "product", t);
    assert forall i :: 0 <= i < |digits| ==> digits[i] != '.';
    RemoveAllTrailing(digits, ".html");
    ParseIntOfIntToString(n);
  }

  /** `get_product_id`; `None` where it raises. */
  function ProductId(f: ProductFragment): (r: Option<int>)
    ensures r.Some? ==> Href(f).Some?
  {
    if Href(f).None? then None else HrefId(Href(f).value)
  }

  /** The keys `scrape_single_product` fills besides `_id`. */
  const CardKeys: set<string> := {"url", "name", "original_price", "discount_price", "discount"}

  /**
   * `scrape_single_product`: the primary attributes of one card, or `None` when any
   * extractor raises.
   */
  function ScrapeSingleProduct(f: ProductFragment): (r: Option<Doc>)
    ensures r.Some? <==> ProductId(f).Some? && f.nameLink.Some? && f.prices.Some?
    ensures r.Some? ==> r.value.id == ProductId(f).value && r.value.fields.Keys == CardKeys
  {
    var id := ProductId(f);
    if id.None? || f.nameLink.None? || f.prices.None? then None
    else
      Some(Doc(id.value, CardFields(Href(f).value, f.nameLink.value, f.prices.value)))
  }

  /** The fields of a scraped card. */
  function CardFields(url: string, name: string, p: Prices): (fields: Fields)
    ensures fields.Keys == CardKeys
  {
    map[
      "url" := VStr(url),
      "name" := VStr(name),
      "original_price" := VFloat(p.original),
      "discount_price" := VFloat(p.discounted),
      "discount" := VInt(p.discount)]
  }

  /** A complete card with a product link gives the id in the link and the link as url. */
  lemma ScrapeSingleProductOfCard(prefix: string, n: int, name: string, p: Prices)
    ensures var href := prefix + "product" + IntToString(n) + ".html";
      var r := ScrapeSingleProduct(ProductFragment(Some(Anchor(Some(href))), Some(name), Some(p)));
      r.Some? && r.value.id == n &&
      r.value.fields["url"] == VStr(href) && r.value.fields["name"] == VStr(name) &&
      r.value.fields["original_price"] == VFloat(p.original) &&
      r.value.fields["discount_price"] == VFloat(p.discounted) &&
      r.value.fields["discount"] == VInt(p.discount)
  {
    var href := prefix + "product" + IntToString(n) + ".html";
    var f := ProductFragment(Some(Anchor(Some(href))), Some(name), Some(p));
    HrefIdOfProductLink(prefix, n);
    assert Href(f) == Some(href);
    assert ProductId(f) == Some(n);
    assert ScrapeSingleProduct(f) == Some(Doc(n, CardFields(href, name, p)));
  }

  /** `map(scrape_single_product, products)`. */
  function ScrapeCards(products: seq<ProductFragment>): (r: seq<Option<Doc>>)
    ensures |r| == |products| && forall i :: 0 <= i < |products| ==> r[i] == ScrapeSingleProduct(products[i])
  {
    seq(|products|, i requires 0 <= i < |products| => ScrapeSingleProduct(products[i]))
  }

  /** `scrape_category_page`: the products of the cards that scrape, in page order. */
  function ScrapeCategoryPage(products: seq<ProductFragment>): seq<Doc>
  {
    Present(ScrapeCards(products))
  }

  /** Scraping a page is scraping its cards one after another. */
  lemma ScrapeCategoryPageAppend(a: seq<ProductFragment>, b: seq<ProductFragment>)
    ensures ScrapeCategoryPage(a + b) == ScrapeCategoryPage(a) + ScrapeCategoryPage(b)
  {
    assert ScrapeCards(a + b) == ScrapeCards(a) + ScrapeCards(b);
    PresentAppend(ScrapeCards(a), ScrapeCards(b));
  }

  /** A card that does not scrape contributes nothing. */
  lemma ScrapeCategoryPageSkips(a: seq<ProductFragment>, f: ProductFragment, b: seq<ProductFragment>)
    requires ScrapeSingleProduct(f).None?
    ensures ScrapeCategoryPage(a + [f] + b) == ScrapeCategoryPage(a) + ScrapeCategoryPage(b)
  {
    ScrapeCategoryPageAppend(a + [f], b);
    ScrapeCategoryPageAppend(a, [f]);
    var none: seq<Option<Doc>> := [None];
    assert ScrapeCards([f]) == none;
    assert Present(none) == [];
  }

  /**
   * No card is lost exactly when every card scrapes, and then each card's
   * product sits at its card's position.
   */
  lemma ScrapeCategoryPageComplete(products: seq<ProductFragment>)
    ensures |ScrapeCategoryPage(products)| <= |products|
    ensures |ScrapeCategoryPage(products)| == |products| <==>
      forall i :: 0 <= i < |products| ==> ScrapeSingleProduct(products[i]).Some?
    ensures |ScrapeCategoryPage(products)| == |products| ==>
      forall i :: 0 <= i < |products| ==> ScrapeCategoryPage(products)[i] == ScrapeSingleProduct(products[i]).value
  {
    PresentComplete(ScrapeCards(products));
    if |ScrapeCategoryPage(products)| == |products| {
      PresentAll(ScrapeCards(products));
    }
  }

  // ----- reviews -----------------------------------------------------------

  /** The class that marks a filled star. */
  const StarClass := "icon-star-black"

  /** `get_review_rating`: how many `<i>` elements carry the filled-star class. */
  function StarCount(icons: seq<set<string>>): (n: nat)
    ensures n <= |icons|
  {
    if icons == [] then 0
    else StarCount(icons[..|icons| - 1]) + (if StarClass in icons[|icons| - 1] then 1 else 0)
  }

  /** The positions of the filled stars. */
  function Stars(icons: seq<set<string>>): set<int>
  {
    set i | 0 <= i < |icons| && StarClass in icons[i]
  }

  lemma {:induction false} StarCountIsStars(icons: seq<set<string>>)
    ensures StarCount(icons) == |Stars(icons)|
  {
    if icons != [] {
      var n := |icons| - 1;
      var init := icons[..n];
      StarCountIsStars(init);
      assert forall i :: 0 <= i < n ==> init[i] == icons[i];
      if StarClass in icons[n] {
        assert Stars(icons) == Stars(init) + {n};
      } else {
        assert Stars(icons) == Stars(init);
      }
    }
  }

  const SizeLabel := "Size:"
  const ColorLabel := "Color:"

  /** The position of the first span beginning with `caption`, or the number of spans. */
  function FirstWith(spans: seq<string>, caption: string): (k: nat)
    ensures k <= |spans|
    ensures forall j :: 0 <= j < k ==> !StartsWith(spans[j], caption)
    ensures k < |spans| ==> StartsWith(spans[k], caption)
  {
    if spans == [] || StartsWith(spans[0], caption) then 0 else 1 + FirstWith(spans[1..], caption)
  }

  /**
   * `get_review_size` / `get_review_color`: the first span whose string begins
   * with `caption`, with every occurrence of `caption` removed and stripped;
   * `None` when no span begins with it.
   */
  function LabelValue(spans: seq<string>, caption: string): (r: Option<string>)
    requires |caption| > 0
    ensures r.None? <==> forall i :: 0 <= i < |spans| ==> !StartsWith(spans[i], caption)
    ensures r.Some? ==> Stripped(r.value)
  {
    var k := FirstWith(spans, caption);
    if k == |spans| then None
    else
      StripSpec(RemoveAll(spans[k], caption));
      Some(Strip(RemoveAll(spans[k], caption)))
  }

  /** A span `caption + v` after spans without the caption gives `v.strip()`. */
  lemma LabelValueOfSpan(before: seq<string>, caption: string, v: string, after: seq<string>)
    requires |caption| > 0 && !Occurs(v, caption)
    requires forall i :: 0 <= i < |before| ==> !StartsWith(before[i], caption)
    ensures LabelValue(before + [caption + v] + after, caption) == Some(Strip(v))
  {
    var spans := before + [caption + v] + after;
    var k := |before|;
    assert spans[k] == caption + v;
    assert (caption + v)[..|caption|] == caption;
    RemoveAllLeading(caption, v);
    assert forall j :: 0 <= j < k ==> spans[j] == before[j];
    assert FirstWith(spans, caption) == k;
  }

  /**
   * `parse_single_review`: a review with all five keys, or the exception that the
   * missing time (or a time in another format) or the missing text raises, in
   * that order.
   */
  function ParseSingleReview(f: ReviewFragment): Result<Review, Error>
  {
    if f.time.None? then Failure(BadTimestamp)
    else if f.text.None? then Failure(MissingElement)
    else Success(Review(
      StarCount(f.icons), f.time.value, f.text.value,
      LabelValue(f.spans, SizeLabel), LabelValue(f.spans, ColorLabel)))
  }

  /**
   * A review parses exactly when it has a time and a text; its rating is the
   * number of black-star icons and its size and colour come from the labelled spans.
   */
  lemma ParseSingleReviewSpec(f: ReviewFragment)
    ensures var r := ParseSingleReview(f);
      && (r.Success? <==> f.time.Some? && f.text.Some?)
      && (r.Failure? ==> r.error == (if f.time.None? then BadTimestamp else MissingElement))
      && (r.Success? ==>
        && r.value.rating == |Stars(f.icons)|
        && r.value.timestamp == f.time.value && r.value.text == f.text.value
        && r.value.size == LabelValue(f.spans, SizeLabel) && r.value.color == LabelValue(f.spans, ColorLabel))
  {
    StarCountIsStars(f.icons);
  }

  /** A review without Size and Color spans still parses, with both left `None`. */
  lemma ParseReviewWithoutLabels(f: ReviewFragment)
    requires f.time.Some? && f.text.Some?
    requires forall i :: 0 <= i < |f.spans| ==> !StartsWith(f.spans[i], SizeLabel) && !StartsWith(f.spans[i], ColorLabel)
    ensures var r := ParseSingleReview(f);
      r.Success? && r.value.size.None? && r.value.color.None? && r.value.rating <= |f.icons|
  {
    StarCountIsStars(f.icons);
  }

  // ----- product page ------------------------------------------------------

  /**
   * `get_product_rating`: no rating span gives `None`; a span whose text is not
   * a number raises (only the missing span is caught).
   */
  function ProductRating(span: RatingSpan): (r: Result<Option<Float>, Error>)
    ensures r.Success? && r.value.None? <==> span.NoRatingSpan?
    ensures r.Failure? <==> span.RatingSpan? && span.value.None?
    ensures r.Success? && r.value.Some? ==> span == RatingSpan(r.value)
  {
    match span
    case NoRatingSpan => Success(None)
    case RatingSpan(v) => if v.None? then Failure(BadNumber) else Success(v)
  }

  /** The product-info key of a caption: its text with the colons removed, stripped. */
  function InfoKey(caption: string): string
  {
    Strip(RemoveAll(caption, ":"))
  }

  /** A key holds no colon and no surrounding whitespace. */
  lemma InfoKeyClean(caption: string)
    ensures ':' !in InfoKey(caption) && Stripped(InfoKey(caption))
  {
    RemoveAllChar(caption, ':');
    var t := RemoveAll(caption, ":");
    assert ':' !in t by { assert ":" == [':']; }
    StripWithout(t, ':');
    StripSpec(t);
  }

  /** Whether every caption of the block has a following sibling to read the value from. */
  predicate AllFollowed(labels: seq<InfoLabel>)
  {
    forall i :: 0 <= i < |labels| ==> labels[i].following.Some?
  }

  /** The item the loop of `get_product_info` assigns for one caption. */
  function InfoItem(caption: InfoLabel): (string, string)
    requires caption.following.Some?
  {
    (InfoKey(caption.text), Strip(caption.following.value))
  }

  lemma AllFollowedSnoc(labels: seq<InfoLabel>)
    requires labels != []
    ensures AllFollowed(labels) <==>
      AllFollowed(labels[..|labels| - 1]) && labels[|labels| - 1].following.Some?
  {
    var init := labels[..|labels| - 1];
    assert forall i :: 0 <= i < |init| ==> init[i] == labels[i];
  }

  /** The items the loop of `get_product_info` assigns, or the exception of the first caption without a value. */
  function InfoItems(labels: seq<InfoLabel>): Result<seq<(string, string)>, Error>
  {
    if labels == [] then Success([])
    else
      var init := InfoItems(labels[..|labels| - 1]);
      var last := labels[|labels| - 1];
      if init.Failure? then init
      else if last.following.None? then Failure(MissingElement)
      else Success(init.value + [InfoItem(last)])
  }

  /** The loop succeeds exactly when every caption has a value, and then yields one item per caption. */
  lemma {:induction false} InfoItemsSpec(labels: seq<InfoLabel>)
    ensures InfoItems(labels).Success? <==> AllFollowed(labels)
    ensures InfoItems(labels).Failure? ==> InfoItems(labels).error == MissingElement
    ensures InfoItems(labels).Success? ==> |InfoItems(labels).value| == |labels|
  {
    if labels != [] {
      var init := labels[..|labels| - 1];
      InfoItemsSpec(init);
      AllFollowedSnoc(labels);
    }
  }

  /** The item of each caption sits at the caption's position. */
  lemma {:induction false} InfoItemsAt(labels: seq<InfoLabel>, i: int)
    requires InfoItems(labels).Success? && 0 <= i < |labels|
    ensures labels[i].following.Some? && |InfoItems(labels).value| == |labels|
    ensures InfoItems(labels).value[i] == InfoItem(labels[i])
  {
    var init := labels[..|labels| - 1];
    var last := labels[|labels| - 1];
    assert InfoItems(init).Success? && last.following.Some?;
    var v := InfoItems(init).value;
    assert InfoItems(labels).value == v + [InfoItem(last)];
    InfoItemsSpec(init);
    if i < |init| {
      InfoItemsAt(init, i);
      assert init[i] == labels[i];
      assert (v + [InfoItem(last)])[i] == v[i];
    }
  }

  /** `f'{k}:{v}'`. */
  function Entry(item: (string, string)): string
  {
    item.0 + ":" + item.1
  }

  /** `';'.join(f'{k}:{v}' for k, v in d.items())`. */
  function Render(d: Dict): string
  {
    Join(seq(|d|, i requires 0 <= i < |d| => Entry(d[i])), ";")
  }

  /** `get_product_info`: the product-info block rendered as `key:value` pairs joined by `;`. */
  function ProductInfo(page: DetailPage): Result<string, Error>
  {
    if page.infoBlock.None? then Failure(MissingElement)
    else
      var items := InfoItems(page.infoBlock.value);
      if items.Failure? then Failure(items.error) else Success(Render(FromItems(items.value)))
  }

  /** The imperative loop of `get_product_info`, filling the dict label by label. */
  method GetProductInfo(page: DetailPage) returns (r: Result<string, Error>)
    ensures r == ProductInfo(page)
  {
    if page.infoBlock.None? {
      return Failure(MissingElement);
    }
    var labels := page.infoBlock.value;
    var info: Dict := [];
    var i := 0;
    assert labels[..0] == [];
    while i < |labels|
      invariant 0 <= i <= |labels|
      invariant InfoItems(labels[..i]).Success?
      invariant info == FromItems(InfoItems(labels[..i]).value)
    {
      var item := labels[i];
      InfoItemsStep(labels, i);
      if item.following.None? {
        InfoItemsFailurePropagates(labels, i + 1);
        InfoItemsSpec(labels);
        return Failure(MissingElement);
      }
      FromItemsSnoc(InfoItems(labels[..i]).value, InfoItem(item).0, InfoItem(item).1);
      info := Put(info, InfoItem(item).0, InfoItem(item).1);
      i := i + 1;
    }
    assert labels[..i] == labels;
    r := Success(Render(info));
  }

  /** One label more: the loop either raises on it or assigns its item. */
  lemma InfoItemsStep(labels: seq<InfoLabel>, i: int)
    requires 0 <= i < |labels| && InfoItems(labels[..i]).Success?
    ensures labels[i].following.None? ==> InfoItems(labels[..i + 1]).Failure?
    ensures labels[i].following.Some? ==>
      InfoItems(labels[..i + 1]) == Success(InfoItems(labels[..i]).value + [InfoItem(labels[i])])
  {
    assert labels[..i + 1][..i] == labels[..i];
  }

  /** Once a label fails, so does every longer prefix of the block. */
  lemma InfoItemsFailurePropagates(labels: seq<InfoLabel>, k: int)
    requires 0 <= k <= |labels| && InfoItems(labels[..k]).Failure?
    ensures InfoItems(labels).Failure?
  {
    InfoItemsSpec(labels[..k]);
    InfoItemsSpec(labels);
    var i :| 0 <= i < k && labels[..k][i].following.None?;
    assert labels[i].following.None?;
  }

  /** The keys the loop assigns are the keys of the labels. */
  lemma InfoItemsKeys(labels: seq<InfoLabel>)
    requires AllFollowed(labels)
    ensures InfoItems(labels).Success?
    ensures forall k :: k in Keys(InfoItems(labels).value) <==> exists i :: 0 <= i < |labels| && InfoKey(labels[i].text) == k
  {
    InfoItemsSpec(labels);
    var items := InfoItems(labels).value;
    var ks := Keys(items);
    forall i | 0 <= i < |labels| ensures ks[i] == InfoKey(labels[i].text) {
      InfoItemsAt(labels, i);
      assert ks[i] == items[i].0;
    }
  }

  /**
   * The rendered info lists each key once (a block without labels renders as
   * ""), holds exactly the keys of the labels, and gives each key the value of
   * its last label.
   */
  lemma ProductInfoOfBlock(page: DetailPage)
    requires page.infoBlock.Some?
    requires AllFollowed(page.infoBlock.value)
    ensures InfoItems(page.infoBlock.value).Success?
    ensures var labels := page.infoBlock.value;
      var items := InfoItems(labels).value;
      var d := FromItems(items);
      && ProductInfo(page) == Success(Render(d))
      && (labels == [] ==> Render(d) == "")
      && Distinct(Keys(d))
      && (forall k :: k in Keys(d) <==> exists i :: 0 <= i < |labels| && InfoKey(labels[i].text) == k)
      && (forall k :: Get(d, k) == LastValue(items, k))
  {
    var labels := page.infoBlock.value;
    InfoItemsSpec(labels);
    var items := InfoItems(labels).value;
    var d := FromItems(items);
    FromItemsDistinct(items);
    InfoItemsKeys(labels);
    forall k ensures k in Keys(d) <==> k in Keys(items) {
      FromItemsKeys(items, k);
    }
    forall k ensures Get(d, k) == LastValue(items, k) {
      FromItemsGet(items, k);
    }
  }

  /** A repeated key keeps the position of its first label. */
  lemma ProductInfoKeyOrder(labels: seq<InfoLabel>, i: int, j: int)
    requires InfoItems(labels).Success?
    requires 0 <= i < j < |FromItems(InfoItems(labels).value)|
    ensures var items := InfoItems(labels).value;
      var ks := Keys(FromItems(items));
      ks[i] in Keys(items) && ks[j] in Keys(items) &&
      FirstIndex(Keys(items), ks[i]) < FirstIndex(Keys(items), ks[j])
  {
    FromItemsOrder(InfoItems(labels).value, i, j);
  }

  /** The rendered info splits back on `;` into one `key:value` entry per key. */
  lemma RenderSplits(d: Dict)
    requires |d| > 0
    requires forall i :: 0 <= i < |d| ==> ';' !in d[i].0 && ';' !in d[i].1
    ensures Split(Render(d), ";") == seq(|d|, i requires 0 <= i < |d| => Entry(d[i]))
  {
    var entries := seq(|d|, i requires 0 <= i < |d| => Entry(d[i]));
    forall i | 0 <= i < |entries| ensures ';' !in entries[i] {
      assert entries[i] == d[i].0 + ":" + d[i].1;
    }
    assert ";" == [';'];
    SplitJoinChar(entries, ';');
  }

  /** Each entry splits on its first `:` into its key, since keys hold no colon. */
  lemma EntryKey(caption: string, v: string)
    ensures Split(Entry((InfoKey(caption), v)), ":")[0] == InfoKey(caption)
  {
    var k := InfoKey(caption);
    InfoKeyClean(caption);
    assert ":" == [':'];
    assert Entry((k, v)) == k + [':'] + v;
    SplitAfterPiece(k, ':', v);
  }
}
