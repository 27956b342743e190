/** Documents as the routes store and return them: dictionaries from field names to
    values, the `$set` merge, `to_response`, and the ordering used by the list endpoints. */
module Docs {
  import opened Common
  import Text

  /** A JSON/BSON value as a request carries it or a collection stores it. */
  datatype Value =
    | VNull                  // JSON null, Python None
    | VStr(s: string)
    | VInt(i: int)
    | VStrs(items: seq<string>)   // a list of strings (programme bullet points)
    | VTime(t: int)          // a datetime, as a reading of the server clock
    | VNumber(text: string)  // a JSON float (the donation amount), kept uninterpreted

  /** A document: a dictionary from field names to values. */
  type Doc = map<string, Value>

  /** Python's `str()` of an id value. */
  function IdText(v: Value): (s: string)
    ensures v.VStr? ==> s == v.s
  {
    match v
    case VStr(s) => s
    case VInt(i) => Text.IntToDecimal(i)
    case _ => ""
  }

  /** The body of `to_response`: `_id` moves to `id` as a string; every other key stays. */
  function Renamed(d: Doc): (r: Doc)
    ensures "_id" !in r
    ensures "id" in r <==> "_id" in d || "id" in d
    ensures "_id" in d ==> r["id"] == VStr(IdText(d["_id"]))
    ensures "_id" !in d ==> r == d
    ensures forall k :: k != "id" && k != "_id" ==> (k in r <==> k in d)
    ensures forall k :: k in d && k != "id" && k != "_id" ==> r[k] == d[k]
  {
    if "_id" in d then (d - {"_id"})["id" := VStr(IdText(d["_id"]))] else d
  }

  /** `to_response`, defined once for the leadership, programs, events and gallery routes. */
  function ToResponse(doc: Option<Doc>): (r: Option<Doc>)
    ensures r.None? <==> doc.None?
    ensures doc.Some? ==> r.value == Renamed(doc.value)
  {
    match doc
    case None => None
    case Some(d) => Some(Renamed(d))
  }

  /** `[to_response(item) for item in items]`. */
  function RenamedAll(items: seq<Doc>): (r: seq<Doc>)
    ensures |r| == |items|
    ensures forall i :: 0 <= i < |r| ==> r[i] == Renamed(items[i])
  {
    seq(|items|, i requires 0 <= i < |items| => Renamed(items[i]))
  }

  /** Mongo's `{"$set": update}` applied to a document: the keys of `update` take its
      values, every other key of `d` keeps its value. */
  function SetFields(d: Doc, update: Doc): (r: Doc)
    ensures r.Keys == d.Keys + update.Keys
    ensures forall k :: k in update ==> r[k] == update[k]
    ensures forall k :: k in d && k !in update ==> r[k] == d[k]
  {
    d + update
  }

  /** The integer under `name`; 0 when it is absent. */
  function IntField(d: Doc, name: string): int {
    if name in d && d[name].VInt? then d[name].i else 0
  }

  /** The datetime under `name`; 0 when it is absent. */
  function TimeField(d: Doc, name: string): int {
    if name in d && d[name].VTime? then d[name].t else 0
  }

  /** `doc.get(name, "")` for a string field. */
  function StrField(d: Doc, name: string): string {
    if name in d && d[name].VStr? then d[name].s else ""
  }

  predicate HasInt(d: Doc, name: string) {
    name in d && d[name].VInt?
  }

  predicate HasStr(d: Doc, name: string) {
    name in d && d[name].VStr?
  }

  /** The sort key of `sort("order", 1)`. */
  function OrderKey(d: Doc): int {
    IntField(d, "order")
  }

  /** The sort key of `sort("created_at", -1)`: newest first is ascending on the negation. */
  function NewestFirstKey(d: Doc): int {
    -TimeField(d, "created_at")
  }

  predicate SortedBy<T>(s: seq<T>, key: T -> int) {
    forall i, j :: 0 <= i < j < |s| ==> key(s[i]) <= key(s[j])
  }

  /** Inserts `x` before the first element whose key is not smaller. */
  function InsertBy<T>(x: T, s: seq<T>, key: T -> int): (r: seq<T>)
    ensures |r| == |s| + 1
    ensures multiset(r) == multiset(s) + multiset{x}
  {
    if |s| == 0 then [x]
    else if key(x) <= key(s[0]) then [x] + s
    else
      assert s == [s[0]] + s[1..];
      [s[0]] + InsertBy(x, s[1..], key)
  }

  /** Inserting into a key-ordered sequence keeps it key-ordered, and the first element
      afterwards is the smaller of `x` and the old first one. */
  lemma {:induction false} InsertSorted<T>(x: T, s: seq<T>, key: T -> int)
    requires SortedBy(s, key)
    ensures SortedBy(InsertBy(x, s, key), key)
    ensures |s| > 0 ==> key(InsertBy(x, s, key)[0]) == if key(x) <= key(s[0]) then key(x) else key(s[0])
    decreases |s|
  {
    if |s| > 0 && key(x) > key(s[0]) {
      var rest := s[1..];
      SortedTail(s, key);
      InsertSorted(x, rest, key);
      var tail := InsertBy(x, rest, key);
      assert key(s[0]) <= key(tail[0]) by {
        if |rest| > 0 {
          assert rest[0] == s[1];
        }
      }
      SortedCons(s[0], tail, key);
    }
  }

  /** The tail of a key-ordered sequence is key-ordered. */
  lemma SortedTail<T>(s: seq<T>, key: T -> int)
    requires SortedBy(s, key) && |s| > 0
    ensures SortedBy(s[1..], key)
  {
    var rest := s[1..];
    forall i, j | 0 <= i < j < |rest| ensures key(rest[i]) <= key(rest[j]) {
      assert rest[i] == s[i + 1] && rest[j] == s[j + 1];
    }
  }

  /** An element no larger than the head of a key-ordered sequence can go in front. */
  lemma SortedCons<T>(x: T, s: seq<T>, key: T -> int)
    requires SortedBy(s, key) && (|s| > 0 ==> key(x) <= key(s[0]))
    ensures SortedBy([x] + s, key)
  {
    var r := [x] + s;
    forall i, j | 0 <= i < j < |r| ensures key(r[i]) <= key(r[j]) {
      assert r[j] == s[j - 1];
      if i > 0 {
        assert r[i] == s[i - 1];
      } else if j > 1 {
        assert key(s[0]) <= key(s[j - 1]);
      }
    }
  }

  /** A stable sort by `key`: the order of the database's `sort`, with ties kept in
      insertion order. */
  function SortBy<T>(s: seq<T>, key: T -> int): (r: seq<T>)
    ensures |r| == |s|
    ensures multiset(r) == multiset(s)
    ensures SortedBy(r, key)
  {
    if |s| == 0 then []
    else
      assert s == [s[0]] + s[1..];
      var sortedTail := SortBy(s[1..], key);
      InsertSorted(s[0], sortedTail, key);
      InsertBy(s[0], sortedTail, key)
  }

  /** Sorting a sequence that is already in key order leaves it as it is. */
  lemma {:induction false} SortSorted<T>(s: seq<T>, key: T -> int)
    requires SortedBy(s, key)
    ensures SortBy(s, key) == s
    decreases |s|
  {
    if |s| > 0 {
      var tail := s[1..];
      SortedTail(s, key);
      SortSorted(tail, key);
      if |tail| > 0 {
        assert tail[0] == s[1];
        assert key(s[0]) <= key(tail[0]);
      }
      assert SortBy(s, key) == InsertBy(s[0], tail, key);
      assert s == [s[0]] + tail;
    }
  }

  /** `to_list(n)`: at most the first `n` elements. */
  function Take<T>(s: seq<T>, n: nat): (r: seq<T>)
    ensures |r| == if |s| <= n then |s| else n
    ensures r == s[..|r|]
  {
    if |s| <= n then s else s[..n]
  }

  /** What `find().sort(key).to_list(limit)` returns over the documents in insertion order:
      the `limit` documents of least key (all of them when there are no more), each as
      often as it is stored, in key order. */
  function SortedPrefix(natural: seq<Doc>, key: Doc -> int, limit: nat): (r: seq<Doc>)
    ensures |r| == if |natural| <= limit then |natural| else limit
    ensures SortedBy(r, key)
    ensures forall d :: d in r ==> d in natural
    ensures multiset(r) <= multiset(natural)
    ensures |natural| <= limit ==> multiset(r) == multiset(natural)
    ensures forall d, e :: d in natural && d !in r && e in r ==> key(e) <= key(d)
  {
    var m := if |natural| <= limit then |natural| else limit;
    SortedPrefixProps(natural, key, m);
    SortBy(natural, key)[..m]
  }

  /** The properties of `SortedPrefix` for the first `m` sorted documents. */
  lemma SortedPrefixProps(natural: seq<Doc>, key: Doc -> int, m: nat)
    requires m <= |natural|
    ensures var r := SortBy(natural, key)[..m];
      && SortedBy(r, key)
      && (forall d :: d in r ==> d in natural)
      && multiset(r) <= multiset(natural)
      && (m == |natural| ==> multiset(r) == multiset(natural))
      && (forall d, e :: d in natural && d !in r && e in r ==> key(e) <= key(d))
  {
    var sorted := SortBy(natural, key);
    PrefixCounts(natural, sorted, m);
    PrefixSorted(sorted, m, key);
    PrefixLeast(natural, sorted, m, key);
  }

  /** A prefix of a permutation of `natural` holds each element at most as often as
      `natural`, and as often when it is the whole. */
  lemma PrefixCounts<T>(natural: seq<T>, sorted: seq<T>, m: nat)
    requires multiset(sorted) == multiset(natural) && m <= |sorted|
    ensures multiset(sorted[..m]) <= multiset(natural)
    ensures forall d :: d in sorted[..m] ==> d in natural
    ensures m == |sorted| ==> multiset(sorted[..m]) == multiset(natural)
  {
    assert sorted == sorted[..m] + sorted[m..];
    forall d | d in sorted[..m] ensures d in natural {
      assert d in multiset(sorted[..m]);
      assert d in multiset(natural);
    }
  }

  /** A prefix of a key-ordered sequence is key-ordered. */
  lemma PrefixSorted<T>(sorted: seq<T>, m: nat, key: T -> int)
    requires SortedBy(sorted, key) && m <= |sorted|
    ensures SortedBy(sorted[..m], key)
  {
  }

  /** In a key-ordered permutation of `natural`, an element left out of a prefix has a key
      no smaller than any element of the prefix. */
  lemma PrefixLeast<T>(natural: seq<T>, sorted: seq<T>, m: nat, key: T -> int)
    requires multiset(sorted) == multiset(natural) && SortedBy(sorted, key) && m <= |sorted|
    ensures forall d, e :: d in natural && d !in sorted[..m] && e in sorted[..m] ==> key(e) <= key(d)
  {
    var r := sorted[..m];
    forall d, e | d in natural && d !in r && e in r ensures key(e) <= key(d) {
      assert d in multiset(sorted);
      var j :| 0 <= j < |sorted| && sorted[j] == d;
      var i :| 0 <= i < m && r[i] == e;
      assert forall n :: 0 <= n < m ==> r[n] == sorted[n];
    }
  }

  /** An element whose key is strictly below every other element's comes first after
      sorting, and so heads every non-empty prefix. */
  lemma SortedFirst<T>(s: seq<T>, key: T -> int, x: T)
    requires x in s
    requires forall y :: y in s && y != x ==> key(x) < key(y)
    ensures |SortBy(s, key)| > 0 && SortBy(s, key)[0] == x
  {
    var r := SortBy(s, key);
    assert x in multiset(r);
    var j :| 0 <= j < |r| && r[j] == x;
    assert r[0] in multiset(s);
  }

  /** No element occurs twice. */
  predicate NoRepeats<T(==)>(s: seq<T>) {
    forall i, j :: 0 <= i < j < |s| ==> s[i] != s[j]
  }

  /** A sequence counted within one without repeats has none either. */
  lemma NoRepeatsWithin<T>(a: seq<T>, b: seq<T>)
    requires multiset(a) <= multiset(b) && NoRepeats(b)
    ensures NoRepeats(a)
  {
    forall i, j | 0 <= i < j < |a| ensures a[i] != a[j] {
      if a[i] == a[j] {
        RepeatCount(a, i, j);
        OnceCount(b, a[i]);
        assert false;
      }
    }
  }

  /** An element at two positions is counted at least twice. */
  lemma RepeatCount<T>(a: seq<T>, i: nat, j: nat)
    requires i < j < |a| && a[i] == a[j]
    ensures multiset(a)[a[i]] >= 2
  {
    assert a == a[..j] + a[j..];
    assert a[..j][i] == a[i];
    assert a[j..][0] == a[i];
  }

  /** Without repeats, every element is counted at most once. */
  lemma {:induction false} OnceCount<T>(b: seq<T>, x: T)
    requires NoRepeats(b)
    ensures multiset(b)[x] <= 1
    decreases |b|
  {
    if |b| > 0 {
      var tail := b[1..];
      assert b == [b[0]] + tail;
      assert NoRepeats(tail) by {
        forall i, j | 0 <= i < j < |tail| ensures tail[i] != tail[j] {
          assert tail[i] == b[i + 1] && tail[j] == b[j + 1];
        }
      }
      OnceCount(tail, x);
      if x == b[0] {
        forall i | 0 <= i < |tail| ensures tail[i] != x {
          assert tail[i] == b[i + 1];
        }
        assert x !in tail;
      }
    }
  }
}
