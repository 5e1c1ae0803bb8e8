/** The collection operations the route handlers rely on, over a sequence of
    documents in insertion order, each identified by `key`. */
module Documents {
  import opened Wrappers
  import opened ObjectIds

  /** A `createdAt` or `updatedAt` value kept by Mongoose's timestamps
      option, counted from the epoch; only the order of values matters. */
  type Timestamp = int

  ghost predicate UniqueKeys<T>(docs: seq<T>, key: T -> ObjectId) {
    forall i, j :: 0 <= i < j < |docs| ==> key(docs[i]) != key(docs[j])
  }

  /** The position of the document with id `id`, if there is one. */
  function IndexOf<T>(docs: seq<T>, key: T -> ObjectId, id: ObjectId): (r: Option<nat>)
    ensures r.Some? ==> r.value < |docs| && key(docs[r.value]) == id
    ensures r.None? <==> forall d :: d in docs ==> key(d) != id
  {
    if docs == [] then None
    else if key(docs[0]) == id then Some(0)
    else
      var r := IndexOf(docs[1..], key, id);
      assert forall d :: d in docs ==> d == docs[0] || d in docs[1..];
      if r.Some? then Some(r.value + 1) else None
  }

  /** `Model.findById(id)`: the document with that id, or null. */
  function FindById<T>(docs: seq<T>, key: T -> ObjectId, id: ObjectId): (r: Option<T>)
    ensures r.Some? <==> exists d :: d in docs && key(d) == id
    ensures r.Some? ==> r.value in docs && key(r.value) == id
  {
    var i := IndexOf(docs, key, id);
    if i.Some? then Some(docs[i.value]) else None
  }

  /** `Model.findByIdAndDelete(id)`: the collection without that document;
      every other document stays, in order. */
  function Without<T(!new)>(docs: seq<T>, key: T -> ObjectId, id: ObjectId): (r: seq<T>)
    ensures forall d :: d in r <==> d in docs && key(d) != id
    ensures (forall d :: d in docs ==> key(d) != id) ==> r == docs
    ensures |r| <= |docs|
  {
    if docs == [] then []
    else
      var rest := Without(docs[1..], key, id);
      assert forall d :: d in docs <==> d == docs[0] || d in docs[1..];
      if key(docs[0]) == id then rest else [docs[0]] + rest
  }

  /** Putting a document in front of documents whose ids differ from its own
      keeps the ids unique. */
  lemma ConsUnique<T>(d: T, docs: seq<T>, key: T -> ObjectId)
    requires UniqueKeys(docs, key)
    requires forall e :: e in docs ==> key(e) != key(d)
    ensures UniqueKeys([d] + docs, key)
  {
    var r := [d] + docs;
    forall i, j | 0 <= i < j < |r| ensures key(r[i]) != key(r[j]) {
      if i == 0 {
        assert r[j] in docs;
      } else {
        assert r[i] == docs[i - 1] && r[j] == docs[j - 1];
      }
    }
  }

  /** Removing a document keeps the ids unique, and removes exactly one
      document when the id is present. */
  lemma {:induction false} WithoutUnique<T(!new)>(docs: seq<T>, key: T -> ObjectId, id: ObjectId)
    requires UniqueKeys(docs, key)
    ensures UniqueKeys(Without(docs, key, id), key)
    ensures IndexOf(docs, key, id).Some? ==> |Without(docs, key, id)| == |docs| - 1
  {
    if docs != [] {
      assert UniqueKeys(docs[1..], key);
      WithoutUnique(docs[1..], key, id);
      var rest := Without(docs[1..], key, id);
      if key(docs[0]) == id {
        assert forall d :: d in docs[1..] ==> key(d) != id;
      } else {
        forall d | d in rest ensures key(d) != key(docs[0]) {
          var k :| 0 <= k < |docs[1..]| && docs[1..][k] == d;
          assert docs[k + 1] == d;
        }
        ConsUnique(docs[0], rest, key);
      }
    }
  }

  /** Replacing a document by one with the same id keeps the ids unique. */
  lemma ReplaceUnique<T>(docs: seq<T>, key: T -> ObjectId, i: nat, d: T)
    requires UniqueKeys(docs, key) && i < |docs| && key(d) == key(docs[i])
    ensures UniqueKeys(docs[i := d], key)
  {
    var r := docs[i := d];
    forall a, b | 0 <= a < b < |r| ensures key(r[a]) != key(r[b]) {
      assert key(r[a]) == key(docs[a]) && key(r[b]) == key(docs[b]);
    }
  }

  /** Appending a document with a fresh id keeps the ids unique. */
  lemma AppendUnique<T>(docs: seq<T>, key: T -> ObjectId, d: T)
    requires UniqueKeys(docs, key)
    requires forall e :: e in docs ==> key(e) != key(d)
    ensures UniqueKeys(docs + [d], key)
  {
    var r := docs + [d];
    forall a, b | 0 <= a < b < |r| ensures key(r[a]) != key(r[b]) {
      assert r[a] == docs[a];
      if b < |docs| { assert r[b] == docs[b]; } else { assert docs[a] in docs; }
    }
  }
}
