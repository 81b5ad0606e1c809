/** The `.sort(field, direction)` of the server's list queries. A sort key is
    either an integer field sorted ascending (`order_number`, direction 1) or a
    string field sorted descending (`created_at`, `date`, direction -1); MongoDB
    compares strings by their code points, as `StrLe` does. */
module Ordering {

  datatype SortKey = Ascending(n: int) | Descending(s: string)

  /** Lexicographic order on strings, a prefix coming first. */
  predicate StrLe(a: string, b: string)
    decreases |a|
  {
    |a| == 0 || (|b| > 0 && (a[0] < b[0] || (a[0] == b[0] && StrLe(a[1..], b[1..]))))
  }

  /** `a` may come before `b` in the result. Keys of different kinds never meet
      in one query; ascending keys are put first so that the order is total. */
  predicate KeyLe(a: SortKey, b: SortKey) {
    match (a, b)
    case (Ascending(x), Ascending(y)) => x <= y
    case (Descending(x), Descending(y)) => StrLe(y, x)
    case (Ascending(_), Descending(_)) => true
    case (Descending(_), Ascending(_)) => false
  }

  lemma {:induction false} StrLeTotal(a: string, b: string)
    ensures StrLe(a, b) || StrLe(b, a)
    decreases |a|
  {
    if |a| > 0 && |b| > 0 && a[0] == b[0] {
      StrLeTotal(a[1..], b[1..]);
    }
  }

  lemma {:induction false} StrLeTrans(a: string, b: string, c: string)
    requires StrLe(a, b) && StrLe(b, c)
    ensures StrLe(a, c)
    decreases |a|
  {
    if |a| > 0 && a[0] == b[0] && b[0] == c[0] {
      StrLeTrans(a[1..], b[1..], c[1..]);
    }
  }

  lemma KeyLeTotal(a: SortKey, b: SortKey)
    ensures KeyLe(a, b) || KeyLe(b, a)
  {
    if a.Descending? && b.Descending? {
      StrLeTotal(a.s, b.s);
    }
  }

  lemma KeyLeTrans(a: SortKey, b: SortKey, c: SortKey)
    requires KeyLe(a, b) && KeyLe(b, c)
    ensures KeyLe(a, c)
  {
    if a.Descending? && b.Descending? && c.Descending? {
      StrLeTrans(c.s, b.s, a.s);
    }
  }

  ghost predicate Sorted<T>(s: seq<T>, key: T -> SortKey) {
    forall i, j :: 0 <= i < j < |s| ==> KeyLe(key(s[i]), key(s[j]))
  }

  /** Puts `x` before the first element it may precede. */
  function Insert<T>(x: T, s: seq<T>, key: T -> SortKey): (r: seq<T>)
    ensures |r| == |s| + 1
    ensures multiset(r) == multiset(s) + multiset{x}
  {
    if |s| == 0 then [x]
    else if KeyLe(key(x), key(s[0])) then [x] + s
    else
      assert s == [s[0]] + s[1..];
      [s[0]] + Insert(x, s[1..], key)
  }

  lemma {:induction false} InsertKeepsSorted<T>(x: T, s: seq<T>, key: T -> SortKey)
    requires Sorted(s, key)
    ensures Sorted(Insert(x, s, key), key)
    decreases |s|
  {
    if |s| == 0 {
    } else if KeyLe(key(x), key(s[0])) {
      var r := [x] + s;
      forall i, j | 0 <= i < j < |r|
        ensures KeyLe(key(r[i]), key(r[j]))
      {
        if i == 0 && j > 1 {
          KeyLeTrans(key(x), key(s[0]), key(s[j - 1]));
        }
      }
    } else {
      KeyLeTotal(key(x), key(s[0]));
      var t := Insert(x, s[1..], key);
      InsertKeepsSorted(x, s[1..], key);
      var r := [s[0]] + t;
      forall i, j | 0 <= i < j < |r|
        ensures KeyLe(key(r[i]), key(r[j]))
      {
        if i == 0 {
          var y := t[j - 1];
          assert y in multiset(t);
          if y != x {
            assert y in multiset(s[1..]);
            var k :| 0 <= k < |s[1..]| && s[1..][k] == y;
            assert s[k + 1] == y;
          }
        }
      }
    }
  }

  /** Insertion sort: a sorted permutation of `s`. */
  function Sort<T>(s: seq<T>, key: T -> SortKey): (r: seq<T>)
    ensures |r| == |s|
    ensures multiset(r) == multiset(s)
    ensures Sorted(r, key)
  {
    if |s| == 0 then []
    else
      assert s == [s[0]] + s[1..];
      var t := Sort(s[1..], key);
      InsertKeepsSorted(s[0], t, key);
      Insert(s[0], t, key)
  }
}
