/**
 * The `events` collection: `insert_one` appends a document, and
 * `find({}, {'_id': 0}).sort("_id", -1).limit(n)` reads the newest `n`
 * records without their `_id`.  The store-generated `_id` is modelled as a
 * counter that increases with every insertion.
 */
module Store {
  import opened Normalizer

  /** A stored document: the record and the `_id` the store gave it. */
  datatype Document = Document(id: nat, record: Record)

  /** `_id`s follow insertion order. */
  predicate IdsIncreasing(docs: seq<Document>)
  {
    forall i, j :: 0 <= i < j < |docs| ==> docs[i].id < docs[j].id
  }

  function Min(a: nat, b: nat): nat
  {
    if a < b then a else b
  }

  function Reverse<T>(s: seq<T>): (r: seq<T>)
    ensures |r| == |s|
  {
    if s == [] then [] else Reverse(s[1..]) + [s[0]]
  }

  lemma {:induction false} ReverseAt<T>(s: seq<T>, k: nat)
    requires k < |s|
    ensures Reverse(s)[k] == s[|s| - 1 - k]
  {
    if k < |s| - 1 {
      ReverseAt(s[1..], k);
    }
  }

  /** How many of `n` documents `limit(limit)` returns: MongoDB reads a limit of 0 as "no limit". */
  function PageSize(limit: nat, n: nat): (p: nat)
    ensures p <= n && (limit == 0 ==> p == n)
    ensures limit > 0 ==> p <= limit && (p == limit || p == n)
  {
    if limit == 0 then n else Min(limit, n)
  }

  /** The newest `limit` documents (all of them for 0), newest first. */
  function Newest(docs: seq<Document>, limit: nat): (page: seq<Document>)
    ensures |page| == PageSize(limit, |docs|)
    ensures docs != [] ==> page != [] && page[0] == docs[|docs| - 1]
  {
    var tail := docs[|docs| - PageSize(limit, |docs|)..];
    assert tail != [] ==> Reverse(tail)[0] == tail[|tail| - 1] by {
      if tail != [] {
        ReverseAt(tail, 0);
      }
    }
    Reverse(tail)
  }

  /** The projection `{'_id': 0}`: the records without their `_id`. */
  function WithoutIds(docs: seq<Document>): (rs: seq<Record>)
    ensures |rs| == |docs|
    ensures forall k :: 0 <= k < |docs| ==> rs[k] == docs[k].record
  {
    seq(|docs|, k requires 0 <= k < |docs| => docs[k].record)
  }

  /**
   * The page holds `min(limit, n)` documents (all `n` for a limit of 0): the
   * last one inserted first, then backwards.
   */
  lemma NewestAt(docs: seq<Document>, limit: nat)
    ensures |Newest(docs, limit)| == PageSize(limit, |docs|)
    ensures forall k :: 0 <= k < |Newest(docs, limit)| ==> Newest(docs, limit)[k] == docs[|docs| - 1 - k]
  {
    var tail := docs[|docs| - PageSize(limit, |docs|)..];
    forall k | 0 <= k < |tail| ensures Reverse(tail)[k] == docs[|docs| - 1 - k] {
      ReverseAt(tail, k);
    }
  }

  /**
   * What `sort("_id", -1).limit(limit)` promises, when ids follow insertion
   * order: ids strictly decrease along the page, the page comes from the
   * store, and every stored document left off the page has a smaller id than
   * every document on the page.
   */
  lemma NewestIsTopById(docs: seq<Document>, limit: nat)
    requires IdsIncreasing(docs)
    ensures var page := Newest(docs, limit);
      && |page| == PageSize(limit, |docs|)
      && (forall i, j :: 0 <= i < j < |page| ==> page[i].id > page[j].id)
      && (forall i :: 0 <= i < |page| ==> page[i] in docs)
      && (forall i, j :: 0 <= i < |page| && 0 <= j < |docs| && docs[j] !in page ==> docs[j].id < page[i].id)
  {
    var page := Newest(docs, limit);
    NewestAt(docs, limit);
    forall i, j | 0 <= i < |page| && 0 <= j < |docs| && docs[j] !in page
      ensures docs[j].id < page[i].id
    {
      assert j >= |docs| - |page| ==> page[|docs| - 1 - j] == docs[j];
    }
  }

  /**
   * A new document heads the page; the previous page follows, cut to the
   * limit.
   */
  lemma NewestAfterInsert(docs: seq<Document>, d: Document, limit: nat)
    ensures Newest(docs + [d], limit) == ([d] + Newest(docs, limit))[..PageSize(limit, |docs| + 1)]
  {
    var s := docs + [d];
    var expected := ([d] + Newest(docs, limit))[..PageSize(limit, |s|)];
    NewestAt(s, limit);
    NewestAt(docs, limit);
    assert |Newest(s, limit)| == |expected|;
    forall k | 0 <= k < |Newest(s, limit)|
      ensures Newest(s, limit)[k] == expected[k]
    {
      if k > 0 {
        assert s[|s| - 1 - k] == docs[|docs| - 1 - (k - 1)];
      }
    }
  }

  /**
   * The records of the page are the last `min(limit, n)` stored records (all
   * of them for a limit of 0), newest first.
   */
  lemma NewestRecords(docs: seq<Document>, limit: nat)
    ensures WithoutIds(Newest(docs, limit)) == Reverse(WithoutIds(docs))[..PageSize(limit, |docs|)]
  {
    var page := Newest(docs, limit);
    NewestAt(docs, limit);
    var all := WithoutIds(docs);
    forall k | 0 <= k < PageSize(limit, |docs|)
      ensures WithoutIds(page)[k] == Reverse(all)[k]
    {
      ReverseAt(all, k);
    }
  }

  /** The `events` collection. */
  class EventStore {
    var docs: seq<Document>
    var nextId: nat

    ghost predicate Valid()
      reads this
    {
      IdsIncreasing(docs) && forall i :: 0 <= i < |docs| ==> docs[i].id < nextId
    }

    /** The stored records in insertion order. */
    function Records(): seq<Record>
      reads this
    {
      WithoutIds(docs)
    }

    constructor ()
      ensures Valid() && docs == []
    {
      docs := [];
      nextId := 0;
    }

    /**
     * `insert_one(record)`: stores the record under a fresh, larger `_id`, or,
     * when the store fails (`fails`), stores nothing.
     */
    method Insert(record: Record, fails: bool) returns (ok: bool)
      requires Valid()
      modifies this
      ensures Valid()
      ensures ok == !fails
      ensures ok ==> docs == old(docs) + [Document(old(nextId), record)]
      ensures ok ==> Records() == old(Records()) + [record]
      ensures !ok ==> docs == old(docs) && nextId == old(nextId)
    {
      if fails {
        return false;
      }
      docs := docs + [Document(nextId, record)];
      nextId := nextId + 1;
      ok := true;
    }

    /**
     * `list(find({}, {'_id': 0}).sort("_id", -1).limit(limit))`: walks the
     * documents from the newest back, keeping at most `limit` (every one for a
     * limit of 0), without `_id`.
     */
    method Recent(limit: nat) returns (page: seq<Record>)
      ensures page == WithoutIds(Newest(docs, limit))
    {
      page := [];
      var i := |docs|;
      while i > 0 && (limit == 0 || |page| < limit)
        invariant 0 <= i <= |docs|
        invariant |page| == |docs| - i
        invariant limit > 0 ==> |page| <= limit
        invariant page == WithoutIds(Reverse(docs[i..]))
      {
        i := i - 1;
        assert docs[i..][1..] == docs[i + 1..];
        page := page + [docs[i].record];
      }
      assert i == |docs| - PageSize(limit, |docs|);
    }
  }
}
