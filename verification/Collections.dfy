/**
  Shared vocabulary: optional values, and the insertion-ordered dictionary that stands for a
  JavaScript `Map` (or a plain object used as one).
 */
module Collections {

  datatype Option<+T> = None | Some(value: T)

  function Min(a: nat, b: nat): nat {
    if a < b then a else b
  }

  ghost predicate Distinct<T>(items: seq<T>) {
    forall i, j :: 0 <= i < j < |items| ==> items[i] != items[j]
  }

  predicate StartsWith(s: string, p: string) {
    |p| <= |s| && s[..|p|] == p
  }

  predicate EndsWith(s: string, p: string) {
    |p| <= |s| && s[|s| - |p|..] == p
  }

  lemma SubbagSize<T>(a: multiset<T>, b: multiset<T>)
    requires a <= b
    ensures |a| <= |b|
  {
    assert b == a + (b - a);
  }

  lemma SubsetSize<T>(a: set<T>, b: set<T>)
    requires a <= b
    ensures |a| <= |b|
  {
    SubbagSize(multiset(a), multiset(b));
  }

  /** `order` lists the keys as iteration yields them; `at` is what a lookup answers.
      Overwriting a key keeps its place; deleting and setting it again moves it to the end. */
  datatype Dict<K(!new), V> = Dict(order: seq<K>, at: map<K, V>) {

    ghost predicate Valid() {
      && Distinct(order)
      && (forall k :: k in order <==> k in at)
    }
  }

  /** What a loop over `items` leaves in its accumulator. */
  function Fold<S, T>(step: (S, T) -> S, start: S, items: seq<T>): S {
    if items == [] then start
    else step(Fold(step, start, items[..|items| - 1]), items[|items| - 1])
  }

  lemma FoldSnoc<S, T>(step: (S, T) -> S, start: S, items: seq<T>, x: T)
    ensures Fold(step, start, items + [x]) == step(Fold(step, start, items), x)
  {
    assert (items + [x])[..|items|] == items;
  }

  /** One more round of a loop over `items`. */
  lemma TakeNext<T>(items: seq<T>, i: nat)
    requires i < |items|
    ensures items[..i + 1] == items[..i] + [items[i]]
  {
  }

  /** One more `out.push(batch[i])`. */
  lemma PushNext<T>(out: seq<T>, batch: seq<T>, i: nat)
    requires i < |batch|
    ensures out + batch[..i] + [batch[i]] == out + batch[..i + 1]
  {
    assert batch[..i + 1] == batch[..i] + [batch[i]];
  }

  function EmptyDict<K(!new), V>(): Dict<K, V> {
    Dict([], map[])
  }

  /** `m.set(k, v)`. */
  function Put<K(==,!new), V>(m: Dict<K, V>, k: K, v: V): (r: Dict<K, V>)
    ensures m.Valid() ==> r.Valid()
    ensures |r.order| == |m.order| + if k in m.at then 0 else 1
  {
    var r := Dict(if k in m.at then m.order else m.order + [k], m.at[k := v]);
    assert m.Valid() ==> forall x :: x in r.order <==> x in r.at by {
      assert forall x :: x in m.order + [k] <==> x in m.order || x == k;
    }
    r
  }

  function Without<K(==,!new)>(s: seq<K>, k: K): (r: seq<K>)
    ensures forall x :: x in r <==> x in s && x != k
    ensures k !in s ==> r == s
  {
    if s == [] then [] else if s[0] == k then Without(s[1..], k) else [s[0]] + Without(s[1..], k)
  }

  /** `m.delete(k)`. */
  function Remove<K(==,!new), V>(m: Dict<K, V>, k: K): Dict<K, V> {
    Dict(Without(m.order, k), m.at - {k})
  }

  lemma {:induction false} WithoutDistinct<K(!new)>(s: seq<K>, k: K)
    requires Distinct(s)
    ensures Distinct(Without(s, k))
    ensures |Without(s, k)| == |s| - if k in s then 1 else 0
  {
    if s != [] {
      assert s == [s[0]] + s[1..];
      var rest := Without(s[1..], k);
      WithoutDistinct(s[1..], k);
      forall j | 0 <= j < |rest| ensures rest[j] != s[0] {
        assert rest[j] in rest;
      }
    }
  }

  lemma RemoveValid<K(!new), V>(m: Dict<K, V>, k: K)
    requires m.Valid()
    ensures Remove(m, k).Valid()
    ensures |Remove(m, k).order| == |m.order| - if k in m.at then 1 else 0
  {
    WithoutDistinct(m.order, k);
  }

  /** Adds `f` up over the entries, in iteration order. */
  ghost function Total<K, V>(order: seq<K>, at: map<K, V>, f: V -> real): real
    requires forall k :: k in order ==> k in at
  {
    if order == [] then 0.0
    else
      assert order[0] in order;
      f(at[order[0]]) + Total(order[1..], at, f)
  }

  ghost function DictTotal<K(!new), V>(m: Dict<K, V>, f: V -> real): real
    requires m.Valid()
  {
    Total(m.order, m.at, f)
  }

  lemma {:induction false} TotalFrame<K(!new), V>(order: seq<K>, a: map<K, V>, b: map<K, V>, f: V -> real)
    requires forall k :: k in order ==> k in a && k in b && a[k] == b[k]
    ensures Total(order, a, f) == Total(order, b, f)
  {
    if order != [] {
      assert order[0] in order;
      TotalFrame(order[1..], a, b, f);
    }
  }

  lemma {:induction false} TotalAppend<K(!new), V>(order: seq<K>, k: K, at: map<K, V>, f: V -> real)
    requires k in at && forall x :: x in order ==> x in at
    ensures Total(order + [k], at, f) == Total(order, at, f) + f(at[k])
  {
    if order == [] {
      assert order + [k] == [k];
    } else {
      assert order[0] in order;
      assert (order + [k])[1..] == order[1..] + [k];
      TotalAppend(order[1..], k, at, f);
    }
  }

  lemma {:induction false} TotalOverwrite<K(!new), V>(order: seq<K>, at: map<K, V>, k: K, v: V, f: V -> real)
    requires Distinct(order)
    requires forall x :: x in order ==> x in at
    requires k in order
    ensures Total(order, at[k := v], f) == Total(order, at, f) - f(at[k]) + f(v)
  {
    assert order == [order[0]] + order[1..];
    if order[0] == k {
      assert k !in order[1..];
      TotalFrame(order[1..], at, at[k := v], f);
    } else {
      TotalOverwrite(order[1..], at, k, v, f);
    }
  }

  /** Setting one key moves the total by exactly the difference at that key. */
  lemma DictTotalPut<K(!new), V>(m: Dict<K, V>, k: K, v: V, f: V -> real)
    requires m.Valid()
    ensures DictTotal(Put(m, k, v), f)
         == DictTotal(m, f) + f(v) - if k in m.at then f(m.at[k]) else 0.0
  {
    if k in m.at {
      TotalOverwrite(m.order, m.at, k, v, f);
    } else {
      TotalAppend(m.order, k, m.at[k := v], f);
      TotalFrame(m.order, m.at, m.at[k := v], f);
    }
  }
}
