# Dresslily hoodie crawler: a Dafny model

The crawler walks the hoodie category of dresslily.com. It does four things:

1. It scrapes the product cards of every category page and then upserts them as stub records into a MongoDB collection.
2. It selects the stored records that have no `reviews` yet.
3. It processes those records in chunks of 300. For each chunk it:
   - fetches every member's product page and assigns its `rating` and `product_info`;
   - upserts the chunk;
   - crawls every member's review pages and assigns its `reviews`;
   - upserts the chunk again.
4. It builds the rows of a products CSV and of a reviews CSV from the collection.

This project models that core and proves what each part computes:

- **Extraction** (`Extractors`): reading values out of parsed pages. This covers the page count of the pager, the product id in a card's link, a card's primary attributes, the star count, the `Size:`/`Color:` labels, the product rating, and the `key:value;…` product-info string.
- **Python text and integer behaviour** (`Text`, `Numbers`, `OrderedDict`): `strip`, `split`, `replace`, `join`, `int()`, `str()`, and the insertion order of a `dict`.
- **The crawls** (`Crawling`, `Dresslily`):
  - the category crawl and the review crawl, as functions that give the result or the exception raised, together with the URLs requested in order;
  - the two per-product parsers, as functions that give what they leave in the product dict;
  - the scraper and parser classes, whose methods do the same step by step over a shared `Downloader` object and are proved equal to those functions.
- **The collection** (`Storage`): `add_products`'s ordered `$set` upserts, as a class over a map from `_id` to fields, and `find` with a query and a projection.
- **The run** (`Management`, `CsvRows`): `run`'s chunk loop as state-changing methods, proved equal to a function of the old store, and the two CSV row builders as loops, proved equal to row functions.

Parsed HTML is abstract. `Html.Markup` says how a page body parses into the elements the scraper looks at, and a missing element is `None`. The downloader is a function from URL to an optional body, plus a log of requests. Exceptions become values of `Records.Error`: a method returns the exception its Python counterpart raises, and a function returns a `Result`.

Where the code and its documentation differ, the model follows the code:

- A later category page or review page without a body makes the crawl raise instead of contributing nothing, because `BeautifulSoup(None)` raises.
- A page count of 1, or a negative one, makes `reduce` run over an empty list, and the crawl raises.
- `get_product_rating` catches only a missing rating span. A span whose text is not a number raises.

## Model

| member | source | states |
|---|---|---|
| Extractors.PagesCountOfPager | scrapers/dresslily.py:43-54 | a pager whose last-but-one item is the text of an integer N reports N pages |
| Extractors.PagesCountOfText | scrapers/dresslily.py:43-54 | a last-but-one pager item with no digit reports no page count: the exception is caught, not raised |
| Extractors.HrefIdOfProductLink | scrapers/dresslily.py:65 | a link ending `product<N>.html` yields id N whatever comes before it, including earlier occurrences of `product` |
| Extractors.ProductId | scrapers/dresslily.py:65 | an id is only ever read from a card that has a link with an `href` |
| Extractors.ScrapeSingleProduct | scrapers/dresslily.py:111-123 | a card gives a product exactly when its id, name and prices can all be read; the product then carries that id and exactly the keys `url`, `name`, `original_price`, `discount_price`, `discount` |
| Extractors.CardFields | scrapers/dresslily.py:114-118 | a scraped card's fields are exactly the five primary keys |
| Extractors.ScrapeSingleProductOfCard | scrapers/dresslily.py:111-119 | a complete card whose link ends `product<N>.html` gives id N, the link itself as `url`, and its name and prices under their keys |
| Extractors.ScrapeCategoryPageAppend | scrapers/dresslily.py:146-148 | scraping two runs of cards one after the other gives the two runs' products one after the other |
| Extractors.ScrapeCategoryPageSkips | scrapers/dresslily.py:147 | a card whose extraction fails contributes nothing and does not affect the cards around it |
| Extractors.ScrapeCategoryPageComplete | scrapers/dresslily.py:147 | a page never gives more products than it has cards; it loses none exactly when every card scrapes, and then product i comes from card i |
| Extractors.StarCount | scrapers/dresslily.py:328 | the rating is at most the number of `<i>` icons |
| Extractors.StarCountIsStars | scrapers/dresslily.py:328 | the rating is the number of icons that carry the `icon-star-black` class |
| Extractors.FirstWith | scrapers/dresslily.py:359 | the span chosen is the first whose text begins with the caption; none before it does |
| Extractors.LabelValue | scrapers/dresslily.py:358-379 | size and colour are `None` exactly when no span begins with the caption; otherwise the value has no surrounding whitespace |
| Extractors.LabelValueOfSpan | scrapers/dresslily.py:359 | a span `Size:` + v, with no earlier span starting with the caption, gives `v.strip()` |
| Extractors.ParseSingleReviewSpec | scrapers/dresslily.py:311-317 | a review parses exactly when it has a time and a text (else it raises, the time first); it always has the five keys, with rating = the number of filled stars and size and colour from the labelled spans |
| Extractors.ParseReviewWithoutLabels | scrapers/dresslily.py:311-317 | a review without size and colour spans still parses, with both `None` |
| Extractors.ProductRating | scrapers/dresslily.py:230-235 | no rating span gives `None`; a span whose text `float` cannot read raises; otherwise the span's value |
| Extractors.InfoKeyClean | scrapers/dresslily.py:220 | a product-info key holds no colon and no surrounding whitespace |
| Extractors.InfoItemsSpec | scrapers/dresslily.py:219-220 | the label loop succeeds exactly when every label has a following text, and then gives one item per label; otherwise it raises |
| Extractors.InfoItemsAt | scrapers/dresslily.py:219-220 | the item of label i is its cleaned key and its stripped following text |
| Extractors.GetProductInfo | scrapers/dresslily.py:216-222 | the dict-filling loop returns exactly the rendering of the dict built from the labels, or the exception of a missing block or value |
| Extractors.InfoItemsKeys | scrapers/dresslily.py:219-220 | the keys the loop assigns are exactly the labels' keys |
| Extractors.ProductInfoOfBlock | scrapers/dresslily.py:216-222 | the info string renders a dict with each key once, holding exactly the labels' keys, each with the value of its last label; no labels render as `""` |
| Extractors.ProductInfoKeyOrder | scrapers/dresslily.py:219-221 | keys appear in the order of their first label, even when a key repeats |
| Extractors.RenderSplits | scrapers/dresslily.py:221 | when no key or value holds `;`, the info string splits on `;` back into one `key:value` entry per key, in order |
| Extractors.EntryKey | scrapers/dresslily.py:220-221 | each entry's text before its first `:` is its key |
| Crawling.CategoryUrlInjective | scrapers/dresslily.py:17 | different category page numbers give different URLs |
| Crawling.ReviewUrlInjective | scrapers/dresslily.py:190 | different review page numbers of one product give different URLs |
| Crawling.CategoryCrawlEarlyStops | scrapers/dresslily.py:158-170 | an empty first page gives `[]`, and a first page with no page count (or 0) gives just its own products; either way only page 1 is requested |
| Crawling.CategoryCrawlRequests | scrapers/dresslily.py:158-175 | with a page count N ≠ 0 the crawl requests pages 1..max(N, 1) in order, each exactly once |
| Crawling.CategoryCrawlFetched | scrapers/dresslily.py:173-175 | the requests are page 1 followed by the links of pages 2..N |
| Crawling.CategoryPagesInOrder | scrapers/dresslily.py:173 | page 1 followed by pages 2..N names pages 1..N in order, with no URL twice |
| Crawling.FanOutConcatenates | scrapers/dresslily.py:173-177 | when pages 2..N all have bodies, the fan-out returns their products concatenated in page order |
| Crawling.CategoryCrawlConcatenates | scrapers/dresslily.py:156-183 | when pages 1..N (N ≥ 2) all have bodies, the crawl returns page 1's products, then page 2's, …, then page N's |
| Crawling.CategoryCrawlOfPages | scrapers/dresslily.py:164-183 | page 1's products come first, followed by the fan-out's |
| Crawling.CategoryCrawlMissingPage | scrapers/dresslily.py:173-177 | a later page without a body makes the crawl raise, after all N pages have been requested (the sequential reading of `pool.map`) |
| Crawling.CategoryCrawlSinglePage | scrapers/dresslily.py:173-177 | a page count of 1 (or a negative one) raises in `reduce`, with only page 1 requested |
| Crawling.ReviewCrawlEarlyStops | scrapers/dresslily.py:256-268 | no first review page gives `[]`, and a first page with no page count gives exactly its own reviews; either way only page 1 is requested |
| Crawling.ReviewCrawlSinglePage | scrapers/dresslily.py:265-273 | a review page count of 1 (or a negative one) raises in `reduce`, with only page 1 requested |
| Crawling.ReviewCrawlFirstPageRaises | scrapers/dresslily.py:256-263 | a first review page whose reviews raise ends the crawl with that exception before the pager is read, with only page 1 requested |
| Crawling.ReviewPagesFailAt | scrapers/dresslily.py:272 | the lazy `map` stops at the first page that raises, raising its exception after requesting the pages up to it |
| Crawling.ReviewPagesAllParse | scrapers/dresslily.py:272 | when every page parses, every page is requested and their reviews are kept |
| Crawling.ReviewPagesComplete | scrapers/dresslily.py:270-272 | when pages 2..N parse, each is requested once, in order, and their reviews come back in page order |
| Crawling.ReviewCrawlConcatenates | scrapers/dresslily.py:254-275 | when review pages 1..N (N ≥ 2) all parse, the crawl requests each of them once, in order, and returns their reviews in page order |
| Crawling.ReviewCrawlOfPages | scrapers/dresslily.py:263-275 | page 1's reviews come first, followed by the later pages' |
| Crawling.ReviewPagesStop | scrapers/dresslily.py:272 | a first failing page k among pages 2..N ends the page loop with its exception after requesting pages 2..k |
| Crawling.ReviewCrawlStopsAt | scrapers/dresslily.py:254-275 | a first failing review page k ends the crawl with its exception, after requesting pages 1..k and no later page |
| Crawling.DetailAssigns | scrapers/dresslily.py:200-205 | `parse_single_product` assigns only `rating` and `product_info`, both when it returns, with the product page's rating and product-info string; it requests at most one page |
| Crawling.WithReviewsAssigns | scrapers/dresslily.py:243-244 | `parse_product_reviews` assigns only `reviews`, exactly when the review crawl succeeds, with the crawl's reviews; on an exception the dict is unchanged |
| Dresslily.DresslilyScraper.GetLinkProducts | scrapers/dresslily.py:133-136 | one request; a missing body raises; otherwise the page's products |
| Dresslily.DresslilyScraper.GetPages | scrapers/dresslily.py:175 | every link is requested, in order, and gives its page's result |
| Dresslily.DresslilyScraper.ScrapeProducts | scrapers/dresslily.py:156-183 | returns (or raises) what the category crawl gives, having requested exactly its URLs |
| Dresslily.DresslilyParser.ParseSingleProduct | scrapers/dresslily.py:200-205 | the dict afterwards, the exception and the requests are those of the detail step on the dict's old fields |
| Dresslily.DresslilyParser.ScrapeReviewPage | scrapers/dresslily.py:285-289 | one request; a missing body raises; otherwise every review of the page is kept, or the first review that raises does |
| Dresslily.DresslilyParser.ScrapeReviewPages | scrapers/dresslily.py:272 | the pages are taken in turn until one raises, as the page-loop function says |
| Dresslily.DresslilyParser.GetProductReviews | scrapers/dresslily.py:254-275 | returns (or raises) what the review crawl gives, having requested exactly its URLs |
| Dresslily.DresslilyParser.ParseProductReviews | scrapers/dresslily.py:243-244 | the dict afterwards, the exception and the requests are those of the review step on the dict |
| Storage.UpsertMerges | storage/mongodb_storage.py:26 | one upsert makes the id present without a second record; the post's fields take its values, the document's other fields and all other documents are unchanged |
| Storage.UpsertAllKeys | storage/mongodb_storage.py:26-28 | after a batch the stored ids are the old ones plus the batch's |
| Storage.UpsertAllOthers | storage/mongodb_storage.py:26-28 | documents whose id is not in the batch are unchanged, and no such id appears |
| Storage.UpsertAllField | storage/mongodb_storage.py:26-28 | a field ends with the value of the last post for that id that names it; if no post names it, it keeps its stored value |
| Storage.LastSetSpec | storage/mongodb_storage.py:26-28 | the winning value is that of the last post for the id that carries the field |
| Storage.PostedFieldStored | storage/mongodb_storage.py:26-28 | every field a post carries is present in the stored document afterwards |
| Storage.UpsertAllGrows | storage/mongodb_storage.py:26-28 | upserting never removes a document or a field |
| Storage.UpsertAllIdempotent | storage/mongodb_storage.py:26-28 | sending the same batch twice leaves the collection as sending it once |
| Storage.MongoStore.AddProducts | storage/mongodb_storage.py:24-28 | the collection becomes the posts' upserts applied in list order; an empty batch leaves it unchanged |
| Storage.Shown | management/management.py:43-44 | with a projection, exactly the stored fields it lists, with their values; without one, the whole document |
| Storage.MongoStore.Find | management/management.py:43-44 | returns every matching document exactly once, projected, and nothing else |
| Management.ChunkifySpec | management/management.py:48 | the chunks put back together are the selected list, and each holds 1 to 300 records |
| Management.FirstErrorSpec | management/management.py:51 | after `pool.map` nothing is raised exactly when no member raised; otherwise the first member's (in list order) is raised |
| Management.ChunkStepCompletes | management/management.py:49-58 | after a chunk completes, each member is stored with `rating`, `product_info` and `reviews`, because the second upsert carries the detail fields too |
| Management.ChunkStepGrows | management/management.py:51-58 | a chunk never removes a record or a field |
| Management.ChunkLoopGrows | management/management.py:49-59 | the chunk loop never removes a record or a field |
| Management.ChunkLoopCompletes | management/management.py:49-59 | when no chunk raises, every member of every chunk ends with `reviews` |
| Management.ChunkLoopStops | management/management.py:49-59 | once a chunk raises, the loop ends: later chunks change nothing and request nothing |
| Management.RunCompletes | management/management.py:40-59 | when the loop raises nothing, every stored record ends with `reviews`, so a later run selects none of them |
| Management.ManagementHelper.constructor | management/management.py:26-30 | the helper uses the shop's domain and chunks of 300, and its scrapers share its downloader |
| Management.ManagementHelper.Run | management/management.py:33-67 | crawl failure: the run raises with the store unchanged. Otherwise: stubs upserted; the records lacking `reviews` selected, projected to `url`; the chunk loop's store and requests; its exception, or the two tables of what the last two queries return |
| Management.ManagementHelper.ProcessChunks | management/management.py:49-59 | the chunks are processed in turn until one raises, as the chunk-loop function says |
| Management.ManagementHelper.ProcessChunk | management/management.py:51-58 | one chunk does the detail step, an upsert, the review step on the updated dicts and a second upsert, or stops after an exception |
| Management.ManagementHelper.DetailStep | management/management.py:51 | every member's dict is updated in place by the detail step, with the requests made member after member and the first member's exception (the sequential reading of `pool.map`) |
| Management.ManagementHelper.ReviewStep | management/management.py:56 | every member's dict is updated in place by the review step, with the requests made member after member and the first member's exception (the sequential reading of `pool.map`) |
| Management.ReviewedAnswers | management/management.py:89-92 | every record the reviews query returns holds a review list |
| CsvRows.FirstMissingSpec | management/management.py:75-82 | the first missing key is named with every earlier key present; none when all are present |
| CsvRows.ProductRowOfSpec | management/management.py:74-83 | a record gives a row exactly when it has all seven fields; the row carries its id and those fields renamed; otherwise a `KeyError` at the first missing field |
| CsvRows.ProductRowsSpec | management/management.py:71-83 | one row per record, in order, with the record's id, exactly when every record has the fields; otherwise some record's `KeyError` |
| CsvRows.BuildProductRows | management/management.py:72-83 | the loop builds the products rows, or stops at the first record that raises |
| CsvRows.ReviewRowsCount | management/management.py:89-100 | there are as many review rows as stored reviews |
| CsvRows.ReviewRowsAppend | management/management.py:91-100 | the rows of later records follow all the rows of earlier ones |
| CsvRows.ReviewRowsOfRecord | management/management.py:91-100 | the rows of record i sit, in review order and tagged with its id, right after the rows of the records before it |
| CsvRows.BuildReviewRows | management/management.py:90-100 | the nested loop builds exactly the review rows |
| Records.CollectSpec | scrapers/dresslily.py:175 | a list of results succeeds exactly when every item does, keeping their values in order; otherwise some item's exception is raised |
| Records.PresentComplete | scrapers/dresslily.py:147 | the truthiness filter drops nothing exactly when every item is present |
| Records.FlattenLength | scrapers/dresslily.py:177 | the `reduce` concatenation is as long as all the lists together |
| Text.StripSpec | scrapers/dresslily.py:220 | `strip()` leaves no whitespace at either end and never lengthens the text |
| Text.StripPadded | scrapers/dresslily.py:220 | `strip()` removes exactly the surrounding whitespace |
| Text.StripIdempotent | scrapers/dresslily.py:220 | stripping twice is stripping once |
| Text.JoinSplit | scrapers/dresslily.py:65 | `sep.join(s.split(sep)) == s` |
| Text.SplitLastPiece | scrapers/dresslily.py:65 | the last piece of a split is the text after the last separator |
| Text.RemoveAllIsJoinOfSplit | scrapers/dresslily.py:65 | `s.replace(p, '')` is `''.join(s.split(p))` |
| Text.RemoveAllChar | scrapers/dresslily.py:220 | removing `:` leaves no colon |
| Text.RemoveAllTrailing | scrapers/dresslily.py:65 | removing `.html` from `<digits>.html` leaves the digits |
| Text.RemoveAllLeading | scrapers/dresslily.py:359 | removing the caption from `caption + v` leaves v when v does not contain the caption |
| Text.SplitJoinChar | scrapers/dresslily.py:221 | joining on a character no part holds and splitting again gives the parts back |
| Numbers.ParseIntOfIntToString | scrapers/dresslily.py:48 | `int(str(i)) == i` for every integer |
| Numbers.IntToStringInjective | scrapers/dresslily.py:173 | different page numbers format differently |
| Numbers.ParseIntWithoutDigits | scrapers/dresslily.py:48 | a text without any digit is not an integer |
| OrderedDict.PutKeys | scrapers/dresslily.py:220 | assigning a present key keeps its place; a new key goes last |
| OrderedDict.GetPut | scrapers/dresslily.py:220 | after `d[k] = v`, `k` maps to v and other keys are unchanged |
| OrderedDict.FromItemsDistinct | scrapers/dresslily.py:219-220 | the dict holds each key once |
| OrderedDict.FromItemsKeys | scrapers/dresslily.py:219-220 | its keys are exactly the assigned keys |
| OrderedDict.FromItemsGet | scrapers/dresslily.py:219-220 | each key holds the value of its last assignment |
| OrderedDict.FromItemsOrder | scrapers/dresslily.py:219-221 | keys keep the order of their first assignment |

## Left out

- HTTP: the downloader's proxies, retries and user agents are not modelled. `Download.Site` gives the body each URL finally yields.
- HTML: BeautifulSoup, lxml and CSS-class matching are a foreign library. `Html.Markup` gives, per body, the elements the extractors read.
- Concurrency: each `ThreadPool.map` is read as a sequential map in which every item runs, and then the first exception in list order is raised. `ThreadPool.map` actually hands items to its workers in batches of `ceil(len / (4 * pool size))`, runs each batch as a plain `map` that stops at the batch's first exception, and re-raises the first exception to complete. With a raising item, the model therefore does not capture that the rest of its batch is skipped, nor which exception completes first. The interleaving of requests between threads is not modelled either, and neither are the pool sizes.
- Crawling.CategoryCrawlMissingPage: "all N pages requested" holds for the sequential reading of `pool.map`. With `ThreadPool(50)` the batches have one page each only up to N = 201; beyond that, the pages after a missing page in its batch are not requested.
- Management.ManagementHelper.DetailStep: on a raising member, the model updates and requests every other member. With a chunk of 300 on a pool of 50, `pool.map` runs batches of 2, so the raising member's batch partner after it is neither updated nor requested. The store, the raised exception and the CSV rows do not depend on this, because the run stops before the next upsert.
- Management.ManagementHelper.ReviewStep: the same batch reading as DetailStep applies; on a raising member, the dicts and requests of the later members of its batch are not what the model states.
- Floating point: prices, the rounded discount, the product rating and review timestamps are opaque `Float` values read from the page and passed through. `get_prices` is not modelled beyond "readable or not", because its `float()` parsing and banker's rounding are floating point.
- `get_review_timestamp`: `strptime` with a locale month name and `.timestamp()` in local time are not modelled. A review time is either present as a float or raises.
- Extractors.ParseSingleReviewSpec: a missing time span (an `AttributeError`) and a time in another format (a `ValueError`) both appear as `BadTimestamp`. The exception type is not distinguished.
- Numbers: `int()` of the page count and the product id accepts ASCII digits only. The Unicode digits Python also accepts are left out.
- Crawling.Detail: a `url` that is missing, or is not a string, is reported as `MissingKey("url")`. What the downloader would do with a non-string URL is not modelled.
- `chunkify` (its source is not part of this model) is taken to yield consecutive slices of 300, the last one shorter.
- Storage.MongoStore.Find: returns the matching documents in any order; the order MongoDB uses is not modelled.
- The MongoDB connection and configuration, `gc`, logging, pandas' `DataFrame`/`to_csv` writes and the command line are I/O and not modelled. The model stops at the CSV rows.
