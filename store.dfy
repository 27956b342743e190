/** One database collection: documents keyed by their `_id` text, remembered in insertion
    order (the order `find()` returns them in), with the single-document operations the
    routes call: `insert_one`, `find_one`, `update_one` with `$set`, `delete_one`, and the
    sorted, limited `find`. `Table` is the value of a collection; `Collection` is the
    collection the handlers change in place. */
module Store {
  import opened Common
  import opened Docs

  /** The document is stored under `id`: its `_id` is that text. */
  predicate KeyedBy(d: Doc, id: string) {
    "_id" in d && d["_id"] == VStr(id)
  }

  /** The id text of a document that has a string `_id`. */
  function IdOf(d: Doc): (id: string)
    ensures "_id" in d && d["_id"].VStr? ==> KeyedBy(d, id)
  {
    if "_id" in d && d["_id"].VStr? then d["_id"].s else ""
  }

  predicate Distinct(ids: seq<string>) {
    forall i, j :: 0 <= i < j < |ids| ==> ids[i] != ids[j]
  }

  /** `ids` with `x` removed. */
  function Without(ids: seq<string>, x: string): (r: seq<string>)
    ensures forall y :: y in r <==> y in ids && y != x
    ensures Distinct(ids) ==> Distinct(r)
    ensures x !in ids ==> r == ids
  {
    if |ids| == 0 then []
    else if ids[0] == x then Without(ids[1..], x)
    else
      var rest := Without(ids[1..], x);
      assert Distinct(ids) ==> ids[0] !in ids[1..];
      [ids[0]] + rest
  }

  /** The contents of a collection: the ids in insertion order and the documents by id. */
  datatype Table = Table(ids: seq<string>, docs: map<string, Doc>)

  const Empty := Table([], map[])

  ghost predicate WellFormed(t: Table) {
    && Distinct(t.ids)
    && (forall k :: k in t.docs <==> k in t.ids)
    && (forall k :: k in t.docs ==> KeyedBy(t.docs[k], k))
  }

  /** `find()`: every document, in insertion order. */
  function Rows(t: Table): (r: seq<Doc>)
    requires WellFormed(t)
    ensures |r| == |t.ids|
    ensures forall i :: 0 <= i < |t.ids| ==> r[i] == t.docs[t.ids[i]]
  {
    seq(|t.ids|, i requires 0 <= i < |t.ids| => t.docs[t.ids[i]])
  }

  /** `insert_one(d)`: `d` is stored under its id, after every earlier document. */
  function Insert(t: Table, d: Doc): Table {
    Table(t.ids + [IdOf(d)], t.docs[IdOf(d) := d])
  }

  /** `update_one({"_id": id}, {"$set": update})`: no effect when nothing matches. */
  function SetOne(t: Table, id: string, update: Doc): Table {
    if id in t.docs then Table(t.ids, t.docs[id := SetFields(t.docs[id], update)]) else t
  }

  /** `delete_one({"_id": id})`: no effect when nothing matches. */
  function Remove(t: Table, id: string): Table {
    Table(Without(t.ids, id), t.docs - {id})
  }

  /** Consecutive `insert_one` calls, one per document, in order. */
  function InsertMany(t: Table, ds: seq<Doc>): Table
    decreases |ds|
  {
    if |ds| == 0 then t else InsertMany(Insert(t, ds[0]), ds[1..])
  }

  /** Inserting a document with a new string id keeps the table well formed, appends the
      document to the rows and leaves every other document as it was. */
  lemma InsertSpec(t: Table, d: Doc)
    requires WellFormed(t)
    requires "_id" in d && d["_id"].VStr? && IdOf(d) !in t.docs
    ensures WellFormed(Insert(t, d))
    ensures Rows(Insert(t, d)) == Rows(t) + [d]
    ensures forall k :: k in t.docs ==> Insert(t, d).docs[k] == t.docs[k]
  {
    var u := Insert(t, d);
    assert forall i :: 0 <= i < |t.ids| ==> u.ids[i] == t.ids[i];
  }

  /** Documents with string ids that are pairwise distinct. */
  predicate SeedsKeyed(ds: seq<Doc>) {
    && (forall i :: 0 <= i < |ds| ==> "_id" in ds[i] && ds[i]["_id"].VStr?)
    && (forall i, j :: 0 <= i < j < |ds| ==> IdOf(ds[i]) != IdOf(ds[j]))
  }

  /** The documents after the first still have distinct string ids, none of them the first's. */
  lemma SeedsTail(ds: seq<Doc>)
    requires SeedsKeyed(ds) && |ds| > 0
    ensures SeedsKeyed(ds[1..])
    ensures forall i :: 0 <= i < |ds[1..]| ==> IdOf(ds[1..][i]) != IdOf(ds[0])
  {
    var rest := ds[1..];
    forall i, j | 0 <= i < j < |rest| ensures IdOf(rest[i]) != IdOf(rest[j]) {
      assert rest[i] == ds[i + 1] && rest[j] == ds[j + 1];
    }
    forall i | 0 <= i < |rest| ensures IdOf(rest[i]) != IdOf(ds[0]) {
      assert rest[i] == ds[i + 1];
    }
  }

  /** A default record: its id, its `order` and its other fields. */
  datatype Seed = Seed(id: string, order: int, fields: Doc)

  /** The stored form of a default record. */
  function SeedDoc(s: Seed): (d: Doc)
    ensures KeyedBy(d, s.id) && IdOf(d) == s.id && OrderKey(d) == s.order
    ensures forall k :: k != "_id" && k != "order" ==> (k in d <==> k in s.fields)
    ensures forall k :: k in s.fields && k != "_id" && k != "order" ==> d[k] == s.fields[k]
  {
    s.fields["order" := VInt(s.order)]["_id" := VStr(s.id)]
  }

  function SeedDocs(seeds: seq<Seed>): (ds: seq<Doc>)
    ensures |ds| == |seeds|
    ensures forall i :: 0 <= i < |seeds| ==> ds[i] == SeedDoc(seeds[i])
  {
    seq(|seeds|, i requires 0 <= i < |seeds| => SeedDoc(seeds[i]))
  }

  /** Default records with pairwise distinct ids, listed in non-decreasing `order`. */
  predicate SeedsValid(seeds: seq<Seed>) {
    && (forall i, j :: 0 <= i < j < |seeds| ==> seeds[i].id != seeds[j].id)
    && (forall i, j :: 0 <= i < j < |seeds| ==> seeds[i].order <= seeds[j].order)
  }

  /** Default records numbered in list order: the `i`th has id `ids[i]`, `order` `i + 1`
      and the fields `fields[i]`. */
  function Numbered(ids: seq<string>, fields: seq<Doc>): (seeds: seq<Seed>)
    requires |ids| == |fields|
    ensures |seeds| == |ids|
    ensures forall i :: 0 <= i < |ids| ==> seeds[i] == Seed(ids[i], i + 1, fields[i])
    ensures Distinct(ids) ==> SeedsValid(seeds)
  {
    seq(|ids|, i requires 0 <= i < |ids| => Seed(ids[i], i + 1, fields[i]))
  }

  lemma SeedDocsKeyed(seeds: seq<Seed>)
    requires SeedsValid(seeds)
    ensures SeedsKeyed(SeedDocs(seeds)) && SortedBy(SeedDocs(seeds), OrderKey)
  {
  }

  /** Inserting documents with fresh, distinct ids one by one keeps the table well formed
      and appends them to the rows, in order. */
  lemma {:induction false} InsertManySpec(t: Table, ds: seq<Doc>)
    requires WellFormed(t) && SeedsKeyed(ds)
    requires forall i :: 0 <= i < |ds| ==> IdOf(ds[i]) !in t.docs
    ensures WellFormed(InsertMany(t, ds))
    ensures Rows(InsertMany(t, ds)) == Rows(t) + ds
    decreases |ds|
  {
    if |ds| > 0 {
      var u := InsertFirst(t, ds);
      InsertManySpec(u, ds[1..]);
      assert ds == [ds[0]] + ds[1..];
    }
  }

  /** One step of `InsertManySpec`: after the first insertion the rest are still fresh. */
  lemma InsertFirst(t: Table, ds: seq<Doc>) returns (u: Table)
    requires WellFormed(t) && SeedsKeyed(ds) && |ds| > 0
    requires forall i :: 0 <= i < |ds| ==> IdOf(ds[i]) !in t.docs
    ensures u == Insert(t, ds[0]) && InsertMany(t, ds) == InsertMany(u, ds[1..])
    ensures WellFormed(u) && SeedsKeyed(ds[1..]) && Rows(u) == Rows(t) + [ds[0]]
    ensures forall i :: 0 <= i < |ds[1..]| ==> IdOf(ds[1..][i]) !in u.docs
  {
    InsertSpec(t, ds[0]);
    u := Insert(t, ds[0]);
    SeedsTail(ds);
    forall i | 0 <= i < |ds[1..]| ensures IdOf(ds[1..][i]) !in u.docs {
      assert ds[1..][i] == ds[i + 1];
    }
  }

  /** `$set` on a stored document keeps the table well formed, keeps the insertion order
      and changes no other document. */
  lemma SetOneSpec(t: Table, id: string, update: Doc)
    requires WellFormed(t) && "_id" !in update
    ensures WellFormed(SetOne(t, id, update))
    ensures SetOne(t, id, update).ids == t.ids
    ensures forall k :: k in t.docs && k != id ==> SetOne(t, id, update).docs[k] == t.docs[k]
  {
  }

  /** Deleting keeps the table well formed and leaves the other documents in their order. */
  lemma RemoveSpec(t: Table, id: string)
    requires WellFormed(t)
    ensures WellFormed(Remove(t, id))
    ensures id !in Remove(t, id).docs
    ensures forall k :: k in t.docs && k != id ==> k in Remove(t, id).docs && Remove(t, id).docs[k] == t.docs[k]
  {
  }

  class Collection {
    /** The ids in insertion order. */
    var ids: seq<string>
    /** The stored documents by id. */
    var docs: map<string, Doc>

    function Value(): Table
      reads this
    {
      Table(ids, docs)
    }

    ghost predicate Valid()
      reads this
    {
      WellFormed(Value())
    }

    /** An empty collection. */
    constructor ()
      ensures Valid() && Value() == Empty
    {
      ids := [];
      docs := map[];
    }

    /** `find_one({"_id": id})`. */
    method FindOne(id: string) returns (d: Option<Doc>)
      ensures d.Some? <==> id in docs
      ensures d.Some? ==> d.value == docs[id]
    {
      if id in docs {
        d := Some(docs[id]);
      } else {
        d := None;
      }
    }

    /** `find_one({})`: the first document in insertion order, if any. */
    method FindFirst() returns (d: Option<Doc>)
      requires Valid()
      ensures d.None? <==> |ids| == 0
      ensures d.Some? ==> d.value == Rows(Value())[0]
    {
      if |ids| == 0 {
        d := None;
      } else {
        assert ids[0] in docs;
        d := Some(docs[ids[0]]);
      }
    }

    /** `insert_one(d)` of a document whose string `_id` is new. */
    method InsertOne(d: Doc)
      requires Valid()
      requires "_id" in d && d["_id"].VStr? && IdOf(d) !in docs
      modifies this
      ensures Valid()
      ensures Value() == Insert(old(Value()), d)
    {
      InsertSpec(Value(), d);
      ids := ids + [IdOf(d)];
      docs := docs[IdOf(d) := d];
    }

    /** `update_one({"_id": id}, {"$set": update})`; the result is `matched_count == 1`. */
    method UpdateOne(id: string, update: Doc) returns (matched: bool)
      requires Valid()
      requires "_id" !in update
      modifies this
      ensures Valid()
      ensures matched <==> id in old(docs)
      ensures Value() == SetOne(old(Value()), id, update)
    {
      SetOneSpec(Value(), id, update);
      matched := id in docs;
      if matched {
        docs := docs[id := SetFields(docs[id], update)];
      }
    }

    /** `delete_one({"_id": id})`; the result is `deleted_count == 1`. */
    method DeleteOne(id: string) returns (deleted: bool)
      requires Valid()
      modifies this
      ensures Valid()
      ensures deleted <==> id in old(docs)
      ensures Value() == Remove(old(Value()), id)
    {
      RemoveSpec(Value(), id);
      deleted := id in docs;
      ids := Without(ids, id);
      docs := docs - {id};
    }

    /** `find().sort(key).to_list(limit)`. */
    method FindSorted(key: Doc -> int, limit: nat) returns (items: seq<Doc>)
      requires Valid()
      ensures items == SortedPrefix(Rows(Value()), key, limit)
    {
      items := SortedPrefix(Rows(Value()), key, limit);
    }

    /** `find().to_list(limit)`. */
    method FindAll(limit: nat) returns (items: seq<Doc>)
      requires Valid()
      ensures items == Take(Rows(Value()), limit)
    {
      items := Take(Rows(Value()), limit);
    }

    /** The seeding loop of a list endpoint: `for d in defaults: insert_one(d)`, on a
        collection holding none of their ids. */
    method InsertAll(defaults: seq<Doc>)
      requires Valid() && SeedsKeyed(defaults)
      requires forall i :: 0 <= i < |defaults| ==> IdOf(defaults[i]) !in docs
      modifies this
      ensures Valid()
      ensures Value() == InsertMany(old(Value()), defaults)
    {
      var i := 0;
      while i < |defaults|
        invariant 0 <= i <= |defaults|
        invariant Valid()
        invariant InsertMany(old(Value()), defaults) == InsertMany(Value(), defaults[i..])
        invariant forall j :: i <= j < |defaults| ==> IdOf(defaults[j]) !in docs
      {
        assert defaults[i..][1..] == defaults[i + 1..];
        InsertOne(defaults[i]);
        i := i + 1;
      }
    }
  }
}
