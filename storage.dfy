/**
 * The product collection of `storage/mongodb_storage.py`. The collection is a map
 * from `_id` to the document's other fields; `add_products` sends one
 * `UpdateOne({'_id': id}, {'$set': post}, upsert=True)` per post in a single
 * ordered bulk write. Under MongoDB's `$set` and `upsert` rules each update
 * creates the document when the id is new and otherwise overwrites exactly the
 * fields the post names.
 */
module Storage {
  import opened Wrappers
  import opened Records

  type Store = map<int, Fields>

  /** The fields a document had before an update: none when it is new. */
  function Stored(store: Store, id: int): Fields
  {
    if id in store then store[id] else map[]
  }

  /** One `$set` upsert of `post`. */
  function Upsert(store: Store, post: Doc): Store
  {
    store[post.id := Stored(store, post.id) + post.fields]
  }

  /** The posts applied in list order, as the ordered bulk write does. */
  function UpsertAll(store: Store, posts: seq<Doc>): Store
  {
    if posts == [] then store
    else Upsert(UpsertAll(store, posts[..|posts| - 1]), posts[|posts| - 1])
  }

  /** The value the last post for `id` that names field `k` gives it, if any post does. */
  function LastSet(posts: seq<Doc>, id: int, k: string): Option<Value>
  {
    if posts == [] then None
    else
      var p := posts[|posts| - 1];
      if p.id == id && k in p.fields then Some(p.fields[k]) else LastSet(posts[..|posts| - 1], id, k)
  }

  /**
   * One upsert: the id is present afterwards (and was not added twice), every
   * field of the post takes the post's value, every other field of the stored
   * document keeps its value, and the other documents are untouched.
   */
  lemma UpsertMerges(store: Store, post: Doc)
    ensures var r := Upsert(store, post);
      && r.Keys == store.Keys + {post.id}
      && (post.id in store ==> |r.Keys| == |store.Keys|)
      && (forall id :: id in store && id != post.id ==> r[id] == store[id])
      && r[post.id].Keys == Stored(store, post.id).Keys + post.fields.Keys
      && (forall k :: k in post.fields ==> r[post.id][k] == post.fields[k])
      && (forall k :: k in Stored(store, post.id) && k !in post.fields ==> r[post.id][k] == store[post.id][k])
  {
    if post.id in store {
      assert store.Keys + {post.id} == store.Keys;
    }
  }

  /** After a batch, the stored ids are the old ones and the batch's. */
  lemma {:induction false} UpsertAllKeys(store: Store, posts: seq<Doc>)
    ensures UpsertAll(store, posts).Keys == store.Keys + Ids(posts)
  {
    if posts != [] {
      var init := posts[..|posts| - 1];
      UpsertAllKeys(store, init);
      assert posts == init + [posts[|posts| - 1]];
      IdsSnoc(init, posts[|posts| - 1]);
    }
  }

  lemma IdsSnoc(docs: seq<Doc>, d: Doc)
    ensures Ids(docs + [d]) == Ids(docs) + {d.id}
  {
    var all := docs + [d];
    forall id | id in Ids(all) ensures id in Ids(docs) + {d.id} {
      var i :| 0 <= i < |all| && all[i].id == id;
      if i < |docs| {
        assert docs[i] == all[i];
      }
    }
    forall id | id in Ids(docs) ensures id in Ids(all) {
      var i :| 0 <= i < |docs| && docs[i].id == id;
      assert all[i] == docs[i];
    }
    assert all[|docs|] == d;
  }

  /** Documents whose id is not in the batch are unchanged. */
  lemma {:induction false} UpsertAllOthers(store: Store, posts: seq<Doc>, id: int)
    requires forall i :: 0 <= i < |posts| ==> posts[i].id != id
    ensures id in UpsertAll(store, posts) <==> id in store
    ensures id in store ==> UpsertAll(store, posts)[id] == store[id]
  {
    if posts != [] {
      var init := posts[..|posts| - 1];
      assert forall i :: 0 <= i < |init| ==> init[i] == posts[i];
      UpsertAllOthers(store, init, id);
    }
  }

  /**
   * After a batch, field `k` of document `id` is the value the last post for
   * `id` naming `k` carries; when no post names it, it is what was stored, and
   * it is absent when neither has it.
   */
  lemma {:induction false} UpsertAllField(store: Store, posts: seq<Doc>, id: int, k: string)
    requires id in UpsertAll(store, posts)
    ensures var r := UpsertAll(store, posts)[id];
      && (k in r <==> LastSet(posts, id, k).Some? || k in Stored(store, id))
      && (k in r ==> r[k] == if LastSet(posts, id, k).Some? then LastSet(posts, id, k).value else store[id][k])
  {
    if posts == [] {
    } else {
      var init := posts[..|posts| - 1];
      var p := posts[|posts| - 1];
      var before := UpsertAll(store, init);
      UpsertMerges(before, p);
      if id in before {
        UpsertAllField(store, init, id, k);
      } else {
        assert id == p.id;
        UpsertAllNew(store, init, id, k);
      }
    }
  }

  /** A document the batch has not reached yet is as it was stored. */
  lemma UpsertAllNew(store: Store, posts: seq<Doc>, id: int, k: string)
    requires id !in UpsertAll(store, posts)
    ensures id !in store && LastSet(posts, id, k).None?
  {
    UpsertAllKeys(store, posts);
    assert forall i :: 0 <= i < |posts| ==> posts[i].id != id;
    LastSetSpec(posts, id, k);
  }

  /** `LastSet` names the last post for `id` carrying `k`, and is `None` when no post carries it. */
  lemma {:induction false} LastSetSpec(posts: seq<Doc>, id: int, k: string)
    ensures var v := LastSet(posts, id, k);
      && (v.None? <==> forall i :: 0 <= i < |posts| ==> !(posts[i].id == id && k in posts[i].fields))
      && (v.Some? ==> exists i :: (0 <= i < |posts| && posts[i].id == id && k in posts[i].fields &&
            posts[i].fields[k] == v.value &&
            forall j :: i < j < |posts| ==> !(posts[j].id == id && k in posts[j].fields)))
  {
    if posts != [] {
      var init := posts[..|posts| - 1];
      LastSetSpec(init, id, k);
      assert forall i :: 0 <= i < |init| ==> init[i] == posts[i];
      var p := posts[|posts| - 1];
      if !(p.id == id && k in p.fields) && LastSet(init, id, k).Some? {
        var i :| 0 <= i < |init| && init[i].id == id && k in init[i].fields &&
          init[i].fields[k] == LastSet(init, id, k).value &&
          forall j :: i < j < |init| ==> !(init[j].id == id && k in init[j].fields);
        assert posts[i] == init[i];
      }
    }
  }

  /** A post for `id` that carries `k` leaves `k` in the stored document. */
  lemma PostedFieldStored(store: Store, posts: seq<Doc>, i: int, k: string)
    requires 0 <= i < |posts| && k in posts[i].fields
    ensures posts[i].id in UpsertAll(store, posts) && k in UpsertAll(store, posts)[posts[i].id]
  {
    var id := posts[i].id;
    UpsertAllKeys(store, posts);
    assert id in Ids(posts);
    LastSetSpec(posts, id, k);
    UpsertAllField(store, posts, id, k);
  }

  /** Upserting never removes a document or a field. */
  lemma UpsertAllGrows(store: Store, posts: seq<Doc>, id: int, k: string)
    requires id in store && k in store[id]
    ensures id in UpsertAll(store, posts) && k in UpsertAll(store, posts)[id]
  {
    UpsertAllKeys(store, posts);
    UpsertAllField(store, posts, id, k);
  }

  /** Sending the same batch twice leaves the collection as sending it once. */
  lemma UpsertAllIdempotent(store: Store, posts: seq<Doc>)
    ensures UpsertAll(UpsertAll(store, posts), posts) == UpsertAll(store, posts)
  {
    var once := UpsertAll(store, posts);
    var twice := UpsertAll(once, posts);
    UpsertAllKeys(store, posts);
    UpsertAllKeys(once, posts);
    assert twice.Keys == once.Keys;
    forall id | id in once ensures twice[id] == once[id] {
      forall k ensures (k in twice[id] <==> k in once[id]) && (k in once[id] ==> twice[id][k] == once[id][k]) {
        UpsertAllField(store, posts, id, k);
        UpsertAllField(once, posts, id, k);
      }
    }
  }

  /** A MongoDB projection: `_id` and the listed fields, or every field when there is none. */
  function Shown(fields: Fields, projection: Option<set<string>>): (r: Fields)
    ensures r.Keys <= fields.Keys
    ensures forall k :: k in r ==> r[k] == fields[k]
    ensures projection.Some? ==> forall k :: k in fields && k in projection.value ==> k in r
    ensures projection.Some? ==> r.Keys == fields.Keys * projection.value
    ensures projection.None? ==> r == fields
  {
    if projection.None? then fields
    else map k | k in fields && k in projection.value :: fields[k]
  }

  /** `{'reviews': {'$exists': False}}`. */
  predicate LacksReviews(fields: Fields)
  {
    "reviews" !in fields
  }

  /** `{'rating': {'$exists': True}}`: present even when it holds `None`. */
  predicate HasRating(fields: Fields)
  {
    "rating" in fields
  }

  /**
   * `{'reviews': {'$gt': []}}`: by MongoDB's comparison order an array is
   * greater than `[]` exactly when it is non-empty, and only arrays compare
   * with arrays.
   */
  predicate HasReviews(fields: Fields)
  {
    "reviews" in fields && fields["reviews"].VReviews? && |fields["reviews"].reviews| > 0
  }

  /** `found` lists documents of `selected` once each, projected. */
  ghost predicate Listed(found: seq<Doc>, store: Store, selected: set<int>, projection: Option<set<string>>)
  {
    && (forall i, j :: 0 <= i < j < |found| ==> found[i].id != found[j].id)
    && (forall i :: 0 <= i < |found| ==>
          found[i].id in selected && found[i].id in store && found[i].fields == Shown(store[found[i].id], projection))
  }

  lemma ListedSnoc(found: seq<Doc>, store: Store, selected: set<int>, projection: Option<set<string>>, todo: set<int>, next: int)
    requires Listed(found, store, selected, projection) && Ids(found) == selected - todo
    requires todo <= selected <= store.Keys && next in todo
    ensures var more := found + [Doc(next, Shown(store[next], projection))];
      Listed(more, store, selected, projection) && Ids(more) == selected - (todo - {next})
  {
    var d := Doc(next, Shown(store[next], projection));
    IdsSnoc(found, d);
    var more := found + [d];
    forall i, j | 0 <= i < j < |more| ensures more[i].id != more[j].id {
      if j < |found| {
        assert more[i] == found[i] && more[j] == found[j];
      } else {
        assert more[i] == found[i];
        assert found[i].id in Ids(found);
      }
    }
    forall i | 0 <= i < |more|
      ensures more[i].id in selected && more[i].id in store && more[i].fields == Shown(store[more[i].id], projection)
    {
      if i < |found| {
        assert more[i] == found[i];
      }
    }
  }

  /** The ids of the stored documents a query matches. */
  function Matching(store: Store, matches: Fields -> bool): set<int>
  {
    set id | id in store && matches(store[id])
  }

  /** `found` is what `find` may return: every matching document once, projected, in some order. */
  ghost predicate Answers(found: seq<Doc>, store: Store, matches: Fields -> bool, projection: Option<set<string>>)
  {
    Listed(found, store, Matching(store, matches), projection) && Ids(found) == Matching(store, matches)
  }

  /** A non-empty set has a member. */
  lemma HasMember(s: set<int>)
    requires s != {}
    ensures exists x :: x in s
  {
    if forall x :: x !in s {
      assert false;
    }
  }

  /** The collection, with the documents it already holds from earlier runs. */
  class MongoStore {
    var records: Store

    constructor (records: Store)
      ensures this.records == records
    {
      this.records := records;
    }

    /** `add_products`: the posts' upserts in one ordered bulk write; an empty batch sends nothing. */
    method AddProducts(posts: seq<Doc>)
      modifies this
      ensures records == UpsertAll(old(records), posts)
    {
      if posts == [] {
        return;
      }
      var i := 0;
      while i < |posts|
        invariant 0 <= i <= |posts|
        invariant records == UpsertAll(old(records), posts[..i])
      {
        assert posts[..i + 1][..i] == posts[..i];
        records := Upsert(records, posts[i]);
        i := i + 1;
      }
      TakeAll(posts);
    }

    /**
     * `find(query, projection)`: every matching document once, projected. The
     * order MongoDB returns them in is not modelled: any order may come back.
     */
    method Find(matches: Fields -> bool, projection: Option<set<string>>) returns (found: seq<Doc>)
      ensures Answers(found, records, matches, projection)
    {
      var todo := Matching(records, matches);
      ghost var selected := todo;
      found := [];
      while todo != {}
        invariant todo <= selected
        invariant Listed(found, records, selected, projection) && Ids(found) == selected - todo
        decreases |todo|
      {
        HasMember(todo);
        var next :| next in todo;
        ListedSnoc(found, records, selected, projection, todo, next);
        found := found + [Doc(next, Shown(records[next], projection))];
        todo := todo - {next};
      }
    }
  }
}
