/**
  `Array.prototype.sort` with a comparator that puts larger keys first. The language requires
  the sort to be stable, which fixes the result.
 */
module Sorting {

  /** Every element with a key below `x`'s comes after `x`; ties keep their order. */
  function Insert<T>(x: T, sorted: seq<T>, key: T -> real): seq<T> {
    if sorted == [] || key(x) > key(sorted[0]) then [x] + sorted
    else [sorted[0]] + Insert(x, sorted[1..], key)
  }

  function SortDescending<T>(items: seq<T>, key: T -> real): seq<T> {
    if items == [] then []
    else Insert(items[|items| - 1], SortDescending(items[..|items| - 1], key), key)
  }

  ghost predicate Descending<T>(items: seq<T>, key: T -> real) {
    forall i, j :: 0 <= i < j < |items| ==> key(items[i]) >= key(items[j])
  }

  lemma {:induction false} InsertContents<T>(x: T, sorted: seq<T>, key: T -> real)
    ensures multiset(Insert(x, sorted, key)) == multiset(sorted) + multiset{x}
  {
    if sorted == [] || key(x) > key(sorted[0]) {
    } else {
      InsertContents(x, sorted[1..], key);
      assert sorted == [sorted[0]] + sorted[1..];
    }
  }

  lemma InsertMembers<T>(x: T, sorted: seq<T>, key: T -> real)
    ensures forall o :: o in Insert(x, sorted, key) ==> o == x || o in sorted
  {
    InsertContents(x, sorted, key);
    assert forall o :: o in Insert(x, sorted, key) <==> o in multiset(sorted) + multiset{x};
  }

  lemma {:induction false} InsertKeeps<T>(x: T, sorted: seq<T>, key: T -> real)
    requires Descending(sorted, key)
    ensures Descending(Insert(x, sorted, key), key)
  {
    if sorted == [] || key(x) > key(sorted[0]) {
    } else {
      var rest := Insert(x, sorted[1..], key);
      InsertKeeps(x, sorted[1..], key);
      InsertMembers(x, sorted[1..], key);
      forall j | 0 <= j < |rest| ensures key(sorted[0]) >= key(rest[j]) {
        assert rest[j] in rest;
      }
    }
  }

  lemma {:induction false} SortSorts<T>(items: seq<T>, key: T -> real)
    ensures multiset(SortDescending(items, key)) == multiset(items)
    ensures Descending(SortDescending(items, key), key)
  {
    if items != [] {
      var n := |items| - 1;
      SortSorts(items[..n], key);
      InsertContents(items[n], SortDescending(items[..n], key), key);
      InsertKeeps(items[n], SortDescending(items[..n], key), key);
      assert items == items[..n] + [items[n]];
    }
  }

  /** The elements with key `v`, in order. */
  ghost function Where<T>(items: seq<T>, key: T -> real, v: real): seq<T> {
    if items == [] then []
    else Where(items[..|items| - 1], key, v) + if key(items[|items| - 1]) == v then [items[|items| - 1]] else []
  }

  lemma {:induction false} WhereCons<T>(x: T, rest: seq<T>, key: T -> real, v: real)
    ensures Where([x] + rest, key, v) == (if key(x) == v then [x] else []) + Where(rest, key, v)
  {
    if rest == [] {
      assert [x] + rest == [x] && [x][..0] == [];
      assert Where([x], key, v) == Where([], key, v) + if key(x) == v then [x] else [];
    } else {
      var n := |rest| - 1;
      assert ([x] + rest)[..|rest|] == [x] + rest[..n];
      WhereCons(x, rest[..n], key, v);
    }
  }

  lemma {:induction false} WhereNone<T>(items: seq<T>, key: T -> real, v: real)
    requires forall i :: 0 <= i < |items| ==> key(items[i]) < v
    ensures Where(items, key, v) == []
  {
    if items != [] {
      WhereNone(items[..|items| - 1], key, v);
    }
  }

  lemma {:induction false} InsertLast<T>(x: T, sorted: seq<T>, key: T -> real, v: real)
    requires Descending(sorted, key)
    ensures Where(Insert(x, sorted, key), key, v) == Where(sorted, key, v) + if key(x) == v then [x] else []
  {
    if sorted == [] || key(x) > key(sorted[0]) {
      WhereCons(x, sorted, key, v);
      if key(x) == v {
        WhereNone(sorted, key, v);
      }
    } else {
      InsertLast(x, sorted[1..], key, v);
      WhereCons(sorted[0], sorted[1..], key, v);
      WhereCons(sorted[0], Insert(x, sorted[1..], key), key, v);
      assert sorted == [sorted[0]] + sorted[1..];
    }
  }

  /** Elements with the same key keep their order. */
  lemma {:induction false} SortIsStable<T>(items: seq<T>, key: T -> real, v: real)
    ensures Where(SortDescending(items, key), key, v) == Where(items, key, v)
  {
    if items != [] {
      var n := |items| - 1;
      SortSorts(items[..n], key);
      SortIsStable(items[..n], key, v);
      InsertLast(items[n], SortDescending(items[..n], key), key, v);
    }
  }

  ghost function SumOf<T>(items: seq<T>, f: T -> real): real {
    if items == [] then 0.0 else f(items[0]) + SumOf(items[1..], f)
  }

  lemma {:induction false} SumOfSnoc<T>(items: seq<T>, x: T, f: T -> real)
    ensures SumOf(items + [x], f) == SumOf(items, f) + f(x)
  {
    if items == [] {
      assert items + [x] == [x];
    } else {
      assert (items + [x])[1..] == items[1..] + [x];
      SumOfSnoc(items[1..], x, f);
    }
  }

  lemma {:induction false} InsertSum<T>(x: T, sorted: seq<T>, key: T -> real, f: T -> real)
    ensures SumOf(Insert(x, sorted, key), f) == SumOf(sorted, f) + f(x)
  {
    if sorted == [] || key(x) > key(sorted[0]) {
      assert ([x] + sorted)[1..] == sorted;
    } else {
      InsertSum(x, sorted[1..], key, f);
    }
  }

  lemma {:induction false} SortKeepsSum<T>(items: seq<T>, key: T -> real, f: T -> real)
    ensures SumOf(SortDescending(items, key), f) == SumOf(items, f)
  {
    if items != [] {
      var n := |items| - 1;
      SortKeepsSum(items[..n], key, f);
      InsertSum(items[n], SortDescending(items[..n], key), key, f);
      SumOfSnoc(items[..n], items[n], f);
      assert items == items[..n] + [items[n]];
    }
  }
}
