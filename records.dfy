/**
 * The values the crawler stores: product dictionaries as they travel between the
 * scraper, the parser and the MongoDB collection, and the review records embedded
 * in them.
 */
module Records {
  import opened Wrappers

  /** A Python float, kept as its IEEE-754 bit pattern and passed through unchanged. */
  datatype Float = Float(bits: bv64)

  /** A parsed review: the five keys `parse_single_review` always produces. */
  datatype Review = Review(
    rating: nat,
    timestamp: Float,
    text: string,
    size: Option<string>,
    color: Option<string>)

  /** A field value of a stored product document. */
  datatype Value =
    | VInt(i: int)
    | VStr(s: string)
    | VFloat(f: Float)
    | VNull
    | VReviews(reviews: seq<Review>)

  type Fields = map<string, Value>

  /**
   * A product dictionary. Every product dictionary of this system carries `_id`
   * (the stubs are built with it and every query projects it), so the id is kept
   * apart from the other keys.
   */
  datatype Doc = Doc(id: int, fields: Fields)

  /** The exceptions the core can raise, by cause. */
  datatype Error =
    | NullBody          // BeautifulSoup(None): the downloader gave no body
    | MissingElement    // an element the extractor dereferences is absent
    | BadNumber         // float() of a rating text failed
    | BadTimestamp      // the review time is absent or does not match its format
    | MissingKey(key: string)
    | EmptyReduce       // functools.reduce over an empty list without an initial value

  lemma AppendAssoc<T>(a: seq<T>, b: seq<T>, c: seq<T>)
    ensures a + b + c == a + (b + c)
  {
  }

  lemma TakeSnoc<T>(s: seq<T>, i: int)
    requires 0 <= i < |s|
    ensures s[..i + 1] == s[..i] + [s[i]]
  {
  }

  lemma TakeAll<T>(s: seq<T>)
    ensures s[..|s|] == s
  {
  }

  /** The ids of a batch of documents. */
  function Ids(docs: seq<Doc>): (r: set<int>)
    ensures forall i :: 0 <= i < |docs| ==> docs[i].id in r
    ensures forall id :: id in r ==> exists i :: 0 <= i < |docs| && docs[i].id == id
  {
    set i | 0 <= i < |docs| :: docs[i].id
  }

  /** The list concatenation `reduce(lambda a, b: a + b, xs)` computes, for a non-empty list. */
  function Flatten<T>(xss: seq<seq<T>>): seq<T>
  {
    if xss == [] then [] else Flatten(xss[..|xss| - 1]) + xss[|xss| - 1]
  }

  /** The sum of the lengths of the lists. */
  function TotalLength<T>(xss: seq<seq<T>>): nat
  {
    if xss == [] then 0 else TotalLength(xss[..|xss| - 1]) + |xss[|xss| - 1]|
  }

  lemma {:induction false} FlattenLength<T>(xss: seq<seq<T>>)
    ensures |Flatten(xss)| == TotalLength(xss)
  {
    if xss != [] {
      FlattenLength(xss[..|xss| - 1]);
    }
  }

  lemma {:induction false} FlattenCons<T>(xs: seq<T>, xss: seq<seq<T>>)
    ensures Flatten([xs] + xss) == xs + Flatten(xss)
    decreases |xss|
  {
    if xss != [] {
      var all := [xs] + xss;
      assert all[..|all| - 1] == [xs] + xss[..|xss| - 1];
      FlattenCons(xs, xss[..|xss| - 1]);
    }
  }

  lemma {:induction false} FlattenAppend<T>(xss: seq<seq<T>>, yss: seq<seq<T>>)
    ensures Flatten(xss + yss) == Flatten(xss) + Flatten(yss)
    decreases |yss|
  {
    if yss == [] {
      assert xss + yss == xss;
    } else {
      assert (xss + yss)[..|xss + yss| - 1] == xss + yss[..|yss| - 1];
      FlattenAppend(xss, yss[..|yss| - 1]);
    }
  }

  /** Index of the first failure in a list of results, or its length when all succeeded. */
  function FirstFailure<T>(rs: seq<Result<T, Error>>): (k: nat)
    ensures k <= |rs|
    ensures forall j :: 0 <= j < k ==> rs[j].Success?
    ensures k < |rs| ==> rs[k].Failure?
  {
    if rs == [] then 0
    else if rs[0].Failure? then 0
    else 1 + FirstFailure(rs[1..])
  }

  /** The values of a list of results that all succeeded. */
  function Values<T>(rs: seq<Result<T, Error>>): (vs: seq<T>)
    requires forall j :: 0 <= j < |rs| ==> rs[j].Success?
    ensures |vs| == |rs|
    ensures forall j :: 0 <= j < |rs| ==> vs[j] == rs[j].value
  {
    seq(|rs|, j requires 0 <= j < |rs| => rs[j].value)
  }

  /**
   * What a list of per-item results gives back to its caller once every item has
   * run: the values, in input order, or the first failure, which is raised.
   */
  function Collect<T>(rs: seq<Result<T, Error>>): Result<seq<T>, Error>
  {
    var k := FirstFailure(rs);
    if k == |rs| then Success(Values(rs)) else Failure(rs[k].error)
  }

  /** All items succeed exactly when the list succeeds, with their values in order; else some item's error is raised. */
  lemma CollectSpec<T>(rs: seq<Result<T, Error>>)
    ensures var r := Collect(rs);
      && (r.Success? <==> forall j :: 0 <= j < |rs| ==> rs[j].Success?)
      && (r.Success? ==> |r.value| == |rs| && forall j :: 0 <= j < |rs| ==> r.value[j] == rs[j].value)
      && (r.Failure? ==> exists j :: 0 <= j < |rs| && rs[j] == Failure(r.error))
  {
  }

  /** `[x for x in xs if x]` over optional values: the present ones, in order. */
  function Present<T>(xs: seq<Option<T>>): (r: seq<T>)
    ensures |r| <= |xs|
  {
    if xs == [] then []
    else Present(xs[..|xs| - 1]) + (if xs[|xs| - 1].Some? then [xs[|xs| - 1].value] else [])
  }

  lemma {:induction false} PresentAppend<T>(xs: seq<Option<T>>, ys: seq<Option<T>>)
    ensures Present(xs + ys) == Present(xs) + Present(ys)
    decreases |ys|
  {
    if ys == [] {
      assert xs + ys == xs;
    } else {
      assert (xs + ys)[..|xs + ys| - 1] == xs + ys[..|ys| - 1];
      PresentAppend(xs, ys[..|ys| - 1]);
    }
  }

  /** Nothing is dropped exactly when every value is present. */
  lemma {:induction false} PresentComplete<T>(xs: seq<Option<T>>)
    ensures |Present(xs)| == |xs| <==> forall i :: 0 <= i < |xs| ==> xs[i].Some?
  {
    if xs != [] {
      var n := |xs| - 1;
      PresentComplete(xs[..n]);
      assert forall i :: 0 <= i < n ==> xs[..n][i] == xs[i];
    }
  }

  /** When every value is present, each one keeps its position. */
  lemma {:induction false} PresentAll<T>(xs: seq<Option<T>>)
    requires forall i :: 0 <= i < |xs| ==> xs[i].Some?
    ensures |Present(xs)| == |xs|
    ensures forall i :: 0 <= i < |xs| ==> Present(xs)[i] == xs[i].value
  {
    if xs != [] {
      var n := |xs| - 1;
      assert forall i :: 0 <= i < n ==> xs[..n][i] == xs[i];
      PresentAll(xs[..n]);
    }
  }
}
