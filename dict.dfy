/**
 * A Python `dict` as the list of its items in insertion order: assigning to a
 * present key replaces its value in place, assigning to a new key appends it.
 */
module OrderedDict {
  import opened Wrappers

  type Dict = seq<(string, string)>

  function Keys(d: Dict): (ks: seq<string>)
    ensures |ks| == |d|
    ensures forall i :: 0 <= i < |d| ==> ks[i] == d[i].0
  {
    if d == [] then [] else [d[0].0] + Keys(d[1..])
  }

  predicate Distinct(ks: seq<string>)
  {
    forall i, j :: 0 <= i < j < |ks| ==> ks[i] != ks[j]
  }

  /** `d.get(k)`. */
  function Get(d: Dict, k: string): Option<string>
  {
    if d == [] then None else if d[0].0 == k then Some(d[0].1) else Get(d[1..], k)
  }

  /** `d[k] = v`. */
  function Put(d: Dict, k: string, v: string): (r: Dict)
  {
    if d == [] then [(k, v)]
    else if d[0].0 == k then [(k, v)] + d[1..]
    else [d[0]] + Put(d[1..], k, v)
  }

  /** A present key keeps its place; a new one goes last. */
  lemma {:induction false} PutKeys(d: Dict, k: string, v: string)
    ensures Keys(Put(d, k, v)) == if k in Keys(d) then Keys(d) else Keys(d) + [k]
  {
    if d != [] && d[0].0 != k {
      var rest := Put(d[1..], k, v);
      PutKeys(d[1..], k, v);
      assert ([d[0]] + rest)[1..] == rest;
      assert k in Keys(d) <==> k in Keys(d[1..]);
    }
  }

  lemma {:induction false} GetPut(d: Dict, k: string, v: string, k': string)
    ensures Get(Put(d, k, v), k') == if k' == k then Some(v) else Get(d, k')
  {
    if d != [] && d[0].0 != k {
      GetPut(d[1..], k, v, k');
    }
  }

  /** The dict built by assigning the items one after another, as `for k, v in items: d[k] = v`. */
  function FromItems(items: seq<(string, string)>): Dict
  {
    if items == [] then [] else Put(FromItems(items[..|items| - 1]), items[|items| - 1].0, items[|items| - 1].1)
  }

  lemma FromItemsSnoc(items: seq<(string, string)>, k: string, v: string)
    ensures FromItems(items + [(k, v)]) == Put(FromItems(items), k, v)
  {
    assert (items + [(k, v)])[..|items|] == items;
  }

  /** The value the last item with key `k` carries, if any. */
  function LastValue(items: seq<(string, string)>, k: string): (r: Option<string>)
    ensures r.None? <==> forall i :: 0 <= i < |items| ==> items[i].0 != k
    ensures r.Some? ==> exists i :: 0 <= i < |items| && items[i] == (k, r.value) &&
                          forall j :: i < j < |items| ==> items[j].0 != k
  {
    if items == [] then None
    else if items[|items| - 1].0 == k then Some(items[|items| - 1].1)
    else LastValue(items[..|items| - 1], k)
  }

  /** The position of the first occurrence of `x`. */
  function FirstIndex(xs: seq<string>, x: string): (i: nat)
    requires x in xs
    ensures i < |xs| && xs[i] == x && x !in xs[..i]
  {
    if xs[0] == x then 0 else 1 + FirstIndex(xs[1..], x)
  }

  /** Each key is held once. */
  lemma {:induction false} FromItemsDistinct(items: seq<(string, string)>)
    ensures Distinct(Keys(FromItems(items)))
  {
    if items != [] {
      FromItemsDistinct(items[..|items| - 1]);
      PutKeys(FromItems(items[..|items| - 1]), items[|items| - 1].0, items[|items| - 1].1);
    }
  }

  lemma {:induction false} KeysSnoc(d: Dict, x: (string, string))
    ensures Keys(d + [x]) == Keys(d) + [x.0]
  {
    if d != [] {
      assert (d + [x])[1..] == d[1..] + [x];
      KeysSnoc(d[1..], x);
    }
  }

  /** Splitting off the last item: one more assignment, one more key. */
  lemma ItemsSnoc(items: seq<(string, string)>)
    requires items != []
    ensures var init, last := items[..|items| - 1], items[|items| - 1];
      FromItems(items) == Put(FromItems(init), last.0, last.1) &&
      Keys(items) == Keys(init) + [last.0]
  {
    var init, last := items[..|items| - 1], items[|items| - 1];
    KeysSnoc(init, last);
    assert init + [last] == items;
  }

  /** The keys are exactly the keys of the items. */
  lemma {:induction false} FromItemsKeys(items: seq<(string, string)>, k: string)
    ensures k in Keys(FromItems(items)) <==> k in Keys(items)
  {
    if items != [] {
      var init := items[..|items| - 1];
      var last := items[|items| - 1];
      FromItemsKeys(init, k);
      PutKeys(FromItems(init), last.0, last.1);
      ItemsSnoc(items);
    }
  }

  /** A repeated key takes the value of its last assignment. */
  lemma {:induction false} FromItemsGet(items: seq<(string, string)>, k: string)
    ensures Get(FromItems(items), k) == LastValue(items, k)
  {
    if items != [] {
      var init := items[..|items| - 1];
      FromItemsGet(init, k);
      GetPut(FromItems(init), items[|items| - 1].0, items[|items| - 1].1, k);
    }
  }

  lemma {:induction false} FirstIndexPrefix(xs: seq<string>, y: string, x: string)
    requires x in xs
    ensures x in xs + [y] && FirstIndex(xs + [y], x) == FirstIndex(xs, x)
  {
    if xs[0] != x {
      assert (xs + [y])[1..] == xs[1..] + [y];
      FirstIndexPrefix(xs[1..], y, x);
    }
  }

  lemma FirstIndexNew(xs: seq<string>, y: string)
    requires y !in xs
    ensures y in xs + [y] && FirstIndex(xs + [y], y) == |xs|
  {
    var k := FirstIndex(xs + [y], y);
    if k < |xs| {
      assert false;
    }
  }

  /** The keys keep the order of their first assignment. */
  lemma {:induction false} FromItemsOrder(items: seq<(string, string)>, i: int, j: int)
    requires 0 <= i < j < |FromItems(items)|
    ensures var ks := Keys(FromItems(items));
      ks[i] in Keys(items) && ks[j] in Keys(items) &&
      FirstIndex(Keys(items), ks[i]) < FirstIndex(Keys(items), ks[j])
    decreases |items|, 1
  {
    var init := items[..|items| - 1];
    var last := items[|items| - 1];
    var d := FromItems(init);
    PutKeys(d, last.0, last.1);
    ItemsSnoc(items);
    if j < |d| {
      FromItemsOrderInit(items, i, j);
    } else {
      FromItemsOrderLast(items, i, j);
    }
  }

  /** Two keys already present before the last item keep their order. */
  lemma {:induction false} FromItemsOrderInit(items: seq<(string, string)>, i: int, j: int)
    requires items != [] && 0 <= i < j < |FromItems(items[..|items| - 1])|
    ensures j < |FromItems(items)|
    ensures var ks := Keys(FromItems(items));
      ks[i] in Keys(items) && ks[j] in Keys(items) &&
      FirstIndex(Keys(items), ks[i]) < FirstIndex(Keys(items), ks[j])
    decreases |items|, 0
  {
    var init := items[..|items| - 1];
    var last := items[|items| - 1];
    var d := FromItems(init);
    PutKeys(d, last.0, last.1);
    ItemsSnoc(items);
    var ks := Keys(FromItems(items));
    assert ks[i] == Keys(d)[i] && ks[j] == Keys(d)[j];
    FromItemsOrder(init, i, j);
    FirstIndexPrefix(Keys(init), last.0, ks[i]);
    FirstIndexPrefix(Keys(init), last.0, ks[j]);
  }

  /** A key the last item appends comes after every earlier key. */
  lemma FromItemsOrderLast(items: seq<(string, string)>, i: int, j: int)
    requires items != [] && 0 <= i < j < |FromItems(items)|
    requires j >= |FromItems(items[..|items| - 1])|
    ensures var ks := Keys(FromItems(items));
      ks[i] in Keys(items) && ks[j] in Keys(items) &&
      FirstIndex(Keys(items), ks[i]) < FirstIndex(Keys(items), ks[j])
  {
    var init := items[..|items| - 1];
    var last := items[|items| - 1];
    var d := FromItems(init);
    PutKeys(d, last.0, last.1);
    ItemsSnoc(items);
    var kd := Keys(d);
    FromItemsKeys(init, last.0);
    FromItemsKeys(init, kd[i]);
    AppendedKeyIsLast(Keys(FromItems(items)), kd, Keys(init), last.0, i, j);
  }

  lemma AppendedKeyIsLast(ks: seq<string>, kd: seq<string>, ki: seq<string>, y: string, i: int, j: int)
    requires ks == kd + [y] && 0 <= i < |kd| == j
    requires kd[i] in ki && y !in ki
    ensures ks[i] in ki + [y] && ks[j] in ki + [y]
    ensures FirstIndex(ki + [y], ks[i]) < FirstIndex(ki + [y], ks[j])
  {
    FirstIndexBeforeNew(ki, y, kd[i]);
  }

  lemma FirstIndexBeforeNew(xs: seq<string>, y: string, x: string)
    requires x in xs && y !in xs
    ensures x in xs + [y] && y in xs + [y]
    ensures FirstIndex(xs + [y], x) < FirstIndex(xs + [y], y)
  {
    FirstIndexPrefix(xs, y, x);
    FirstIndexNew(xs, y);
  }
}
