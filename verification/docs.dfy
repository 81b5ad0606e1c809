/** The generic document operations the handlers share: lookup by id, the
    `update_one` + `modified_count == 0` test, soft-delete, the sorted and
    capped list query, and the reorder loop. */
module Docs {
  import opened Wrappers
  import opened Lists
  import opened Ordering
  import opened Store

  /** The `{"archived": False}` query filter. */
  predicate IsLive<B>(d: Doc<B>) {
    !d.archived
  }

  ghost predicate DistinctIds<B>(s: seq<Doc<B>>) {
    forall i, j :: 0 <= i < j < |s| ==> s[i].id != s[j].id
  }

  function Ids<B>(s: seq<Doc<B>>): set<Id> {
    set i | 0 <= i < |s| :: s[i].id
  }

  /** The document `find_one({"id": id})` returns. */
  function IndexOfId<B>(s: seq<Doc<B>>, id: Id): (r: Option<nat>)
    ensures r.Some? ==> r.value < |s| && s[r.value].id == id
    ensures r.Some? ==> forall j :: 0 <= j < r.value ==> s[j].id != id
    ensures r.None? <==> id !in Ids(s)
  {
    FirstIndex(s, (d: Doc<B>) => d.id == id)
  }

  /** With distinct ids the document at `i` is the one its id finds. */
  lemma IndexOfDistinct<B>(s: seq<Doc<B>>, i: nat)
    requires DistinctIds(s)
    requires i < |s|
    ensures IndexOfId(s, s[i].id) == Some(i)
  {
    var r := IndexOfId(s, s[i].id);
    assert s[i].id in Ids(s);
  }

  /** Appending documents does not change which one an existing id finds. */
  lemma IndexOfIdExtend<B>(s: seq<Doc<B>>, t: seq<Doc<B>>, id: Id)
    requires id in Ids(s)
    ensures IndexOfId(s + t, id) == IndexOfId(s, id)
  {
    var k := IndexOfId(s, id).value;
    assert (s + t)[k] == s[k];
    assert id in Ids(s + t);
    var v := IndexOfId(s + t, id).value;
    assert v <= k;
    assert (s + t)[v] == s[v];
  }

  /** A query over documents with distinct ids returns documents with distinct ids. */
  lemma {:induction false} FilterKeepsDistinct<B(!new)>(s: seq<Doc<B>>, p: Doc<B> -> bool)
    requires DistinctIds(s)
    ensures DistinctIds(Filter(s, p))
  {
    if |s| > 0 {
      var tail := s[1..];
      TailDistinct(s);
      FilterKeepsDistinct(tail, p);
      var rest := Filter(tail, p);
      if p(s[0]) {
        forall i | 0 <= i < |rest| ensures rest[i].id != s[0].id {
          FilterMember(tail, p, rest[i]);
          HeadIdNotInTail(s, rest[i]);
        }
        ConsDistinct(s[0], rest);
      }
    }
  }

  lemma TailDistinct<B>(s: seq<Doc<B>>)
    requires |s| > 0 && DistinctIds(s)
    ensures DistinctIds(s[1..])
  {
    var tail := s[1..];
    forall i, j | 0 <= i < j < |tail| ensures tail[i].id != tail[j].id {
      assert tail[i] == s[i + 1] && tail[j] == s[j + 1];
    }
  }

  lemma HeadIdNotInTail<B>(s: seq<Doc<B>>, d: Doc<B>)
    requires |s| > 0 && DistinctIds(s)
    requires d in s[1..]
    ensures d.id != s[0].id
  {
    var k :| 0 <= k < |s[1..]| && s[1..][k] == d;
    assert s[k + 1] == d;
  }

  lemma ConsDistinct<B>(h: Doc<B>, rest: seq<Doc<B>>)
    requires DistinctIds(rest)
    requires forall i :: 0 <= i < |rest| ==> rest[i].id != h.id
    ensures DistinctIds([h] + rest)
  {
    var r := [h] + rest;
    forall i, j | 0 <= i < j < |r| ensures r[i].id != r[j].id {
      assert r[j] == rest[j - 1];
      if i > 0 { assert r[i] == rest[i - 1]; }
    }
  }

  /** A write that keeps every position's id keeps the id set and its distinctness. */
  lemma SameIds<B>(s: seq<Doc<B>>, s': seq<Doc<B>>)
    requires |s'| == |s|
    requires forall i :: 0 <= i < |s| ==> s'[i].id == s[i].id
    ensures Ids(s') == Ids(s)
    ensures DistinctIds(s) ==> DistinctIds(s')
  {
    forall x | x in Ids(s) ensures x in Ids(s') {
      var i :| 0 <= i < |s| && s[i].id == x;
      assert s'[i].id == x;
    }
  }

  /** A write that keeps every position's id does not change which document an id finds. */
  lemma IndexOfSameIds<B>(s: seq<Doc<B>>, s': seq<Doc<B>>, id: Id)
    requires |s'| == |s|
    requires forall i :: 0 <= i < |s| ==> s'[i].id == s[i].id
    ensures IndexOfId(s', id) == IndexOfId(s, id)
  {
    SameIds(s, s');
    var a := IndexOfId(s, id);
    var b := IndexOfId(s', id);
    if a.Some? {
      assert b.value <= a.value by { assert s'[a.value].id == id; }
      assert a.value <= b.value by { assert s[b.value].id == id; }
    }
  }

  /** `update_one({"id": id}, {"$set": ...})` followed by the server's
      `if result.modified_count == 0: raise 404`. `None` means the handler
      fails: no document has the id, or the patch leaves the first one equal
      to what it was. */
  function UpdateOne<B(==)>(s: seq<Doc<B>>, id: Id, patch: Doc<B> -> Doc<B>): (r: Option<seq<Doc<B>>>)
    ensures r.None? <==>
      (IndexOfId(s, id).None? || patch(s[IndexOfId(s, id).value]) == s[IndexOfId(s, id).value])
    ensures r.Some? ==>
      var k := IndexOfId(s, id).value;
      && |r.value| == |s|
      && r.value[k] == patch(s[k])
      && r.value[k] != s[k]
      && (forall j :: 0 <= j < |s| && j != k ==> r.value[j] == s[j])
  {
    match IndexOfId(s, id)
    case None => None
    case Some(k) =>
      var d := patch(s[k]);
      if d == s[k] then None else Some(s[k := d])
  }

  /** The soft-delete patch `{"$set": {"archived": True}}`. */
  function MarkArchived<B>(d: Doc<B>): Doc<B> {
    d.(archived := true)
  }

  /** A list query: the documents `keep` selects, sorted by `key`, at most
      `LIST_LIMIT` of them. When more match, the ones left out come no earlier
      in the order than any returned. */
  function Listing<T(!new)>(s: seq<T>, keep: T -> bool, key: T -> SortKey): (r: seq<T>)
    ensures |r| == Min(|Filter(s, keep)|, LIST_LIMIT)
    ensures Sorted(r, key)
    ensures forall i :: 0 <= i < |r| ==> keep(r[i]) && r[i] in s
    ensures multiset(r) <= multiset(Filter(s, keep))
    ensures |Filter(s, keep)| <= LIST_LIMIT ==>
      forall x :: multiset(r)[x] == if keep(x) then multiset(s)[x] else 0
    ensures forall x, i :: x in s && keep(x) && x !in r && 0 <= i < |r| ==> KeyLe(key(r[i]), key(x))
  {
    var r := Take(Sort(Filter(s, keep), key), LIST_LIMIT);
    ListingFacts(s, keep, key);
    r
  }

  lemma ListingFacts<T(!new)>(s: seq<T>, keep: T -> bool, key: T -> SortKey)
    ensures var f := Filter(s, keep);
      var r := Take(Sort(f, key), LIST_LIMIT);
      && Sorted(r, key)
      && (forall i :: 0 <= i < |r| ==> keep(r[i]) && r[i] in s)
      && multiset(r) <= multiset(f)
      && (|f| <= LIST_LIMIT ==> multiset(r) == multiset(f))
      && (forall x, i :: x in s && keep(x) && x !in r && 0 <= i < |r| ==> KeyLe(key(r[i]), key(x)))
  {
    var f := Filter(s, keep);
    var t := Sort(f, key);
    var r := Take(t, LIST_LIMIT);
    PrefixOfSorted(t, |r|, key);
    forall i | 0 <= i < |r|
      ensures keep(r[i]) && r[i] in s
    {
      assert r[i] in multiset(t);
      assert r[i] in multiset(f);
      var m :| 0 <= m < |f| && f[m] == r[i];
      assert multiset(f)[r[i]] > 0;
    }
    forall x | x in s && keep(x)
      ensures x in t
    {
      assert multiset(f)[x] == multiset(s)[x];
      assert x in multiset(t);
    }
  }

  lemma PrefixOfSorted<T>(t: seq<T>, k: nat, key: T -> SortKey)
    requires Sorted(t, key)
    requires k <= |t|
    ensures multiset(t[..k]) <= multiset(t)
    ensures Sorted(t[..k], key)
    ensures forall x, i :: x in t && x !in t[..k] && 0 <= i < k ==> KeyLe(key(t[i]), key(x))
  {
    assert t == t[..k] + t[k..];
    forall x, i | x in t && x !in t[..k] && 0 <= i < k
      ensures KeyLe(key(t[i]), key(x))
    {
      var j :| 0 <= j < |t| && t[j] == x;
      assert forall m :: 0 <= m < k ==> t[..k][m] == t[m];
      assert j >= k;
    }
  }

  /** One element of a `/reorder` request body. */
  datatype OrderItem = OrderItem(id: Id, orderNumber: int)

  /** The `order_number` the last item naming `id` asks for. */
  function LastOrder(items: seq<OrderItem>, id: Id): Option<int> {
    if |items| == 0 then None
    else
      match LastOrder(items[1..], id)
      case Some(n) => Some(n)
      case None => if items[0].id == id then Some(items[0].orderNumber) else None
  }

  /** One `update_one` of the reorder loop; its `modified_count` is ignored. */
  function SetOrderOf<B>(s: seq<Doc<B>>, id: Id, n: int, setOrder: (B, int) -> B): (r: seq<Doc<B>>)
    ensures |r| == |s|
    ensures forall i :: 0 <= i < |s| ==>
      r[i].id == s[i].id && r[i].archived == s[i].archived && r[i].createdAt == s[i].createdAt
    ensures forall i :: 0 <= i < |s| && s[i].id != id ==> r[i] == s[i]
    ensures DistinctIds(s) ==>
      forall i :: 0 <= i < |s| && s[i].id == id ==> r[i] == s[i].(body := setOrder(s[i].body, n))
  {
    match IndexOfId(s, id)
    case None => s
    case Some(k) =>
      var r := s[k := s[k].(body := setOrder(s[k].body, n))];
      assert DistinctIds(s) ==> forall i :: 0 <= i < |s| && s[i].id == id ==> i == k;
      r
  }

  /** The reorder handlers' loop over the request body, in order. */
  function Reorder<B>(s: seq<Doc<B>>, items: seq<OrderItem>, setOrder: (B, int) -> B): (r: seq<Doc<B>>)
    ensures |r| == |s|
    ensures forall i :: 0 <= i < |s| ==>
      r[i].id == s[i].id && r[i].archived == s[i].archived && r[i].createdAt == s[i].createdAt
    ensures forall i :: 0 <= i < |s| && LastOrder(items, s[i].id).None? ==> r[i] == s[i]
    decreases |items|
  {
    if |items| == 0 then s
    else Reorder(SetOrderOf(s, items[0].id, items[0].orderNumber, setOrder), items[1..], setOrder)
  }

  ghost predicate Overwrites<B(!new)>(setOrder: (B, int) -> B) {
    forall b, m, n :: setOrder(setOrder(b, m), n) == setOrder(b, n)
  }

  /** After a reorder, every document the body names has the order the LAST
      item naming it asked for, and nothing else about it has changed. */
  lemma {:induction false} ReorderAppliesLast<B(!new)>(s: seq<Doc<B>>, items: seq<OrderItem>, setOrder: (B, int) -> B, i: nat)
    requires DistinctIds(s)
    requires Overwrites(setOrder)
    requires i < |s|
    requires LastOrder(items, s[i].id).Some?
    ensures Reorder(s, items, setOrder)[i] == s[i].(body := setOrder(s[i].body, LastOrder(items, s[i].id).value))
    decreases |items|
  {
    var s1 := SetOrderOf(s, items[0].id, items[0].orderNumber, setOrder);
    assert DistinctIds(s1);
    assert s1[i].id == s[i].id;
    if LastOrder(items[1..], s[i].id).Some? {
      ReorderAppliesLast(s1, items[1..], setOrder, i);
    } else {
      assert items[0].id == s[i].id;
    }
  }

  lemma ReorderAppliesLastAll<B(!new)>(s: seq<Doc<B>>, items: seq<OrderItem>, setOrder: (B, int) -> B)
    requires Overwrites(setOrder)
    ensures DistinctIds(s) ==>
      forall i :: 0 <= i < |s| && LastOrder(items, s[i].id).Some? ==>
        Reorder(s, items, setOrder)[i] == s[i].(body := setOrder(s[i].body, LastOrder(items, s[i].id).value))
  {
    if DistinctIds(s) {
      forall i | 0 <= i < |s| && LastOrder(items, s[i].id).Some?
        ensures Reorder(s, items, setOrder)[i] == s[i].(body := setOrder(s[i].body, LastOrder(items, s[i].id).value))
      {
        ReorderAppliesLast(s, items, setOrder, i);
      }
    }
  }

  /** `r` is what a public list query returns for `s`: live documents of `s`,
      all of them (with their multiplicities) when they fit in the cap. */
  ghost predicate ListsLive<B(!new)>(s: seq<Doc<B>>, r: seq<Doc<B>>) {
    && (forall i :: 0 <= i < |r| ==> !r[i].archived && r[i] in s)
    && |r| == Min(|Filter(s, IsLive)|, LIST_LIMIT)
    && (|Filter(s, IsLive)| <= LIST_LIMIT ==>
          forall d :: multiset(r)[d] == if !d.archived then multiset(s)[d] else 0)
  }

  lemma LiveListing<B(!new)>(s: seq<Doc<B>>, key: Doc<B> -> SortKey)
    ensures ListsLive(s, Listing(s, IsLive, key))
  {
    var r := Listing(s, IsLive, key);
    assert forall i :: 0 <= i < |r| ==> IsLive(r[i]);
  }
}
