/**
 * The rows `make_products_csv_file` and `make_reviews_csv_file` of
 * `management/management.py` build from the stored records before pandas writes
 * them. Each builder is a loop over the records `find` returned, proved to build
 * what the row functions here define.
 */
module CsvRows {
  import opened Wrappers
  import opened Records
  import opened Storage

  /** A products CSV row: `productId`, `productUrl`, `name`, `discount`, `discountedPrice`, `originalPrice`, `rating`, `productInfo`. */
  datatype ProductRow = ProductRow(
    productId: int,
    productUrl: Value,
    name: Value,
    discount: Value,
    discountedPrice: Value,
    originalPrice: Value,
    rating: Value,
    productInfo: Value)

  /** A reviews CSV row: `productId`, `rating`, `timestamp`, `text`, `size`, `color`. */
  datatype ReviewRow = ReviewRow(
    productId: int,
    rating: nat,
    timestamp: Float,
    text: string,
    size: Option<string>,
    color: Option<string>)

  /** The stored fields a product row reads, in the order it reads them. */
  const ProductKeys: seq<string> := ["url", "name", "discount", "discount_price", "original_price", "rating", "product_info"]

  /** The first of `keys` that `fields` lacks, if any. */
  function FirstMissing(fields: Fields, keys: seq<string>): Option<string>
  {
    if keys == [] then None
    else if keys[0] !in fields then Some(keys[0])
    else FirstMissing(fields, keys[1..])
  }

  /** `FirstMissing` names a missing key with every key before it present, and is `None` when all are present. */
  lemma {:induction false} FirstMissingSpec(fields: Fields, keys: seq<string>)
    ensures var m := FirstMissing(fields, keys);
      && (m.None? <==> forall i :: 0 <= i < |keys| ==> keys[i] in fields)
      && (m.Some? ==> exists i :: (0 <= i < |keys| && keys[i] == m.value && m.value !in fields &&
            forall j :: 0 <= j < i ==> keys[j] in fields))
  {
    if keys != [] && keys[0] in fields {
      FirstMissingSpec(fields, keys[1..]);
      var m := FirstMissing(fields, keys[1..]);
      if m.Some? {
        var i :| 0 <= i < |keys[1..]| && keys[1..][i] == m.value && m.value !in fields &&
          forall j :: 0 <= j < i ==> keys[1..][j] in fields;
        assert keys[i + 1] == m.value;
        assert forall j :: 1 <= j < i + 1 ==> keys[j] == keys[1..][j - 1];
      }
    }
  }

  /** The loop body of `make_products_csv_file`: a `KeyError` at the first field the record lacks. */
  function ProductRowOf(d: Doc): Result<ProductRow, Error>
  {
    var f := d.fields;
    if "url" !in f then Failure(MissingKey("url"))
    else if "name" !in f then Failure(MissingKey("name"))
    else if "discount" !in f then Failure(MissingKey("discount"))
    else if "discount_price" !in f then Failure(MissingKey("discount_price"))
    else if "original_price" !in f then Failure(MissingKey("original_price"))
    else if "rating" !in f then Failure(MissingKey("rating"))
    else if "product_info" !in f then Failure(MissingKey("product_info"))
    else Success(ProductRow(d.id, f["url"], f["name"], f["discount"], f["discount_price"],
                            f["original_price"], f["rating"], f["product_info"]))
  }

  /**
   * A record gives a row exactly when it has every field of `ProductKeys`; the
   * row carries the record's id and those fields under their new names.
   * Otherwise the error names the first field missing in reading order.
   */
  lemma ProductRowOfSpec(d: Doc)
    ensures var r := ProductRowOf(d);
      var m := FirstMissing(d.fields, ProductKeys);
      && (r.Success? <==> m.None?)
      && (r.Failure? ==> r.error == MissingKey(m.value))
      && (r.Success? ==> r.value == ProductRow(d.id, d.fields["url"], d.fields["name"], d.fields["discount"],
            d.fields["discount_price"], d.fields["original_price"], d.fields["rating"], d.fields["product_info"]))
  {
    FirstMissingSpec(d.fields, ProductKeys);
    var ks := ProductKeys;
    assert ks[0] == "url" && ks[1] == "name" && ks[2] == "discount" && ks[3] == "discount_price";
    assert ks[4] == "original_price" && ks[5] == "rating" && ks[6] == "product_info";
  }

  /** The products CSV rows, or the `KeyError` of the first record that lacks a field. */
  function ProductRows(docs: seq<Doc>): Result<seq<ProductRow>, Error>
  {
    Collect(seq(|docs|, i requires 0 <= i < |docs| => ProductRowOf(docs[i])))
  }

  /** One row per record, in order, exactly when every record has all the fields. */
  lemma ProductRowsSpec(docs: seq<Doc>)
    ensures var r := ProductRows(docs);
      && (r.Success? <==> forall i :: 0 <= i < |docs| ==> FirstMissing(docs[i].fields, ProductKeys).None?)
      && (r.Success? ==> |r.value| == |docs| && forall i :: 0 <= i < |docs| ==> r.value[i].productId == docs[i].id)
      && (r.Failure? ==> exists i :: 0 <= i < |docs| && ProductRowOf(docs[i]) == Failure(r.error))
  {
    var rs := seq(|docs|, i requires 0 <= i < |docs| => ProductRowOf(docs[i]));
    CollectSpec(rs);
    forall i | 0 <= i < |docs| ensures rs[i].Success? <==> FirstMissing(docs[i].fields, ProductKeys).None? {
      ProductRowOfSpec(docs[i]);
    }
  }

  /** `make_products_csv_file`'s loop: it stops at the first record that raises. */
  method BuildProductRows(products: seq<Doc>) returns (r: Result<seq<ProductRow>, Error>)
    ensures r == ProductRows(products)
  {
    ghost var rs := seq(|products|, i requires 0 <= i < |products| => ProductRowOf(products[i]));
    var rows: seq<ProductRow> := [];
    var i := 0;
    while i < |products|
      invariant 0 <= i <= |products| && |rows| == i
      invariant forall j :: 0 <= j < i ==> rs[j] == Success(rows[j])
    {
      var row := ProductRowOf(products[i]);
      if row.Failure? {
        assert FirstFailure(rs) == i by {
          FirstFailureAt(rs, i);
        }
        return Failure(row.error);
      }
      rows := rows + [row.value];
      i := i + 1;
    }
    assert FirstFailure(rs) == |rs| by {
      FirstFailureAt(rs, |rs|);
    }
    assert rows == Values(rs);
    r := Success(rows);
  }

  /** The first failure is at `k` when everything before `k` succeeded and `k` failed (or is the end). */
  lemma {:induction false} FirstFailureAt<T>(rs: seq<Result<T, Error>>, k: nat)
    requires k <= |rs|
    requires forall j :: 0 <= j < k ==> rs[j].Success?
    requires k < |rs| ==> rs[k].Failure?
    ensures FirstFailure(rs) == k
  {
    if k > 0 {
      assert forall j :: 0 <= j < k - 1 ==> rs[1..][j] == rs[j + 1];
      FirstFailureAt(rs[1..], k - 1);
    }
  }

  /** A record whose `reviews` holds a list, as every record the reviews query matches does. */
  predicate Reviewed(d: Doc)
  {
    "reviews" in d.fields && d.fields["reviews"].VReviews?
  }

  /** The stored reviews of a record; a record without a list has none. */
  function ReviewsOf(d: Doc): seq<Review>
  {
    if Reviewed(d) then d.fields["reviews"].reviews else []
  }

  /** The rows of one record: one per review, in order, tagged with the record's id. */
  function RowsOf(d: Doc): seq<ReviewRow>
  {
    var vs := ReviewsOf(d);
    seq(|vs|, j requires 0 <= j < |vs| => RowOf(d.id, vs[j]))
  }

  /** The row of one review of record `id`. */
  function RowOf(id: int, v: Review): ReviewRow
  {
    ReviewRow(id, v.rating, v.timestamp, v.text, v.size, v.color)
  }

  /** The reviews CSV rows: the records' rows one record after another. */
  function ReviewRows(docs: seq<Doc>): seq<ReviewRow>
  {
    if docs == [] then [] else ReviewRows(docs[..|docs| - 1]) + RowsOf(docs[|docs| - 1])
  }

  /** The number of reviews the records hold. */
  function ReviewCount(docs: seq<Doc>): nat
  {
    if docs == [] then 0 else ReviewCount(docs[..|docs| - 1]) + |ReviewsOf(docs[|docs| - 1])|
  }

  /** There are as many review rows as stored reviews. */
  lemma {:induction false} ReviewRowsCount(docs: seq<Doc>)
    ensures |ReviewRows(docs)| == ReviewCount(docs)
  {
    if docs != [] {
      ReviewRowsCount(docs[..|docs| - 1]);
    }
  }

  /** The rows of later records follow all the rows of the earlier ones. */
  lemma {:induction false} ReviewRowsAppend(docs: seq<Doc>, more: seq<Doc>)
    ensures ReviewRows(docs + more) == ReviewRows(docs) + ReviewRows(more)
    decreases |more|
  {
    var all := docs + more;
    if more == [] {
      assert all == docs;
    } else {
      var init, last := more[..|more| - 1], more[|more| - 1];
      assert all[..|all| - 1] == docs + init;
      assert all[|all| - 1] == last;
      var tail := RowsOf(last);
      assert ReviewRows(all) == ReviewRows(docs + init) + tail;
      assert ReviewRows(more) == ReviewRows(init) + tail;
      ReviewRowsAppend(docs, init);
      AppendAssoc(ReviewRows(docs), ReviewRows(init), tail);
    }
  }

  /**
   * The rows of record `i` sit, in review order, right after the rows of the
   * records before it.
   */
  lemma ReviewRowsOfRecord(docs: seq<Doc>, i: int)
    requires 0 <= i < |docs|
    ensures var start := ReviewCount(docs[..i]);
      start + |ReviewsOf(docs[i])| <= |ReviewRows(docs)| &&
      ReviewRows(docs)[start..start + |ReviewsOf(docs[i])|] == RowsOf(docs[i])
  {
    var before := docs[..i + 1];
    assert docs == before + docs[i + 1..];
    assert before[..i] == docs[..i];
    ReviewRowsAppend(before, docs[i + 1..]);
    ReviewRowsCount(docs[..i]);
    var head := ReviewRows(docs[..i]);
    assert ReviewRows(before) == head + RowsOf(docs[i]);
    assert ReviewRows(docs) == head + RowsOf(docs[i]) + ReviewRows(docs[i + 1..]);
  }

  /** `make_reviews_csv_file`'s nested loop. */
  method BuildReviewRows(docs: seq<Doc>) returns (rows: seq<ReviewRow>)
    requires forall i :: 0 <= i < |docs| ==> Reviewed(docs[i])
    ensures rows == ReviewRows(docs)
  {
    rows := [];
    var i := 0;
    while i < |docs|
      invariant 0 <= i <= |docs|
      invariant rows == ReviewRows(docs[..i])
    {
      var d := docs[i];
      var vs := d.fields["reviews"].reviews;
      assert vs == ReviewsOf(d);
      ghost var start := rows;
      var j := 0;
      while j < |vs|
        invariant 0 <= j <= |vs|
        invariant rows == start + RowsOf(d)[..j]
      {
        TakeSnoc(RowsOf(d), j);
        AppendAssoc(start, RowsOf(d)[..j], [RowsOf(d)[j]]);
        rows := rows + [RowOf(d.id, vs[j])];
        j := j + 1;
      }
      TakeAll(RowsOf(d));
      assert docs[..i + 1][..i] == docs[..i];
      i := i + 1;
    }
    TakeAll(docs);
  }
}
