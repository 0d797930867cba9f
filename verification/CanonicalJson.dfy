/**
  `sortKeysDeep` of scripts/build-openapi.ts: the recursive key sort that makes the emitted
  document independent of the order in which its objects were written.
 */
module CanonicalJson {
  import opened Collections

  datatype Scalar = Null | Bool(b: bool) | Number(n: real) | Text(s: string)

  /** An object lists its members in enumeration order. */
  datatype Json = Leaf(scalar: Scalar) | Arr(items: seq<Json>) | Obj(entries: seq<(string, Json)>)

  /** Assigning to this member sets the prototype of the object instead of adding a member. */
  const PROTO := "__proto__"

  function Lookup(entries: seq<(string, Json)>, key: string): (r: Option<Json>)
    ensures r.Some? ==> exists i :: 0 <= i < |entries| && entries[i] == (key, r.value)
  {
    if entries == [] then None
    else if entries[0].0 == key then Some(entries[0].1)
    else
      var r := Lookup(entries[1..], key);
      assert r.Some? ==> exists i :: 0 <= i < |entries[1..]| && entries[i + 1] == entries[1..][i] == (key, r.value);
      r
  }

  function KeysOf(entries: seq<(string, Json)>): (keys: seq<string>)
    ensures |keys| == |entries|
    ensures forall k :: k in keys <==> Lookup(entries, k).Some?
  {
    if entries == [] then []
    else
      var rest := KeysOf(entries[1..]);
      assert forall k :: k in [entries[0].0] + rest <==> k == entries[0].0 || k in rest;
      [entries[0].0] + rest
  }

  /** No object names a member twice, at any depth. */
  ghost predicate WellFormed(v: Json) {
    match v
    case Leaf(_) => true
    case Arr(items) => forall i :: 0 <= i < |items| ==> WellFormed(items[i])
    case Obj(entries) =>
      && Distinct(KeysOf(entries))
      && forall i :: 0 <= i < |entries| ==> WellFormed(entries[i].1)
  }

  /** Equal but for the order of members and the members named in `ignored`, at every depth. */
  ghost predicate Alike(a: Json, b: Json, ignored: set<string>)
    decreases a
  {
    match a
    case Leaf(s) => b == Leaf(s)
    case Arr(items) =>
      && b.Arr? && |items| == |b.items|
      && (forall i :: 0 <= i < |items| ==> Alike(items[i], b.items[i], ignored))
    case Obj(entries) =>
      && b.Obj?
      && forall k :: k !in ignored ==>
        var x, y := Lookup(entries, k), Lookup(b.entries, k);
        x.Some? == y.Some? && (x.Some? ==> Alike(x.value, y.value, ignored))
  }

  /** No member anywhere in the value is named `__proto__`. */
  ghost predicate ProtoFree(v: Json) {
    match v
    case Leaf(_) => true
    case Arr(items) => forall i :: 0 <= i < |items| ==> ProtoFree(items[i])
    case Obj(entries) =>
      && Lookup(entries, PROTO).None?
      && forall i :: 0 <= i < |entries| ==> ProtoFree(entries[i].1)
  }

  // ---- sorting the keys ---------------------------------------------------------------------

  /** Code unit by code unit, as `Array.prototype.sort` compares strings. */
  predicate Less(a: string, b: string) {
    b != [] && (a == [] || a[0] < b[0] || (a[0] == b[0] && Less(a[1..], b[1..])))
  }

  lemma {:induction false} LessIsTotal(a: string, b: string)
    ensures a == b || Less(a, b) || Less(b, a)
    ensures !(Less(a, b) && Less(b, a)) && !Less(a, a)
  {
    if a != [] && b != [] && a[0] == b[0] {
      LessIsTotal(a[1..], b[1..]);
      assert a == [a[0]] + a[1..] && b == [b[0]] + b[1..];
    }
    if a != [] {
      LessIsTotal(a[1..], a[1..]);
    }
  }

  lemma {:induction false} LessTrans(a: string, b: string, c: string)
    requires Less(a, b) && Less(b, c)
    ensures Less(a, c)
  {
    if a != [] && a[0] == b[0] && b[0] == c[0] {
      LessTrans(a[1..], b[1..], c[1..]);
    }
  }

  /** Where two keys first differ, the smaller code unit comes first; and a beginning comes before the
      whole. */
  lemma {:induction false} LessExactlyWhen(a: string, b: string, n: nat)
    requires n <= |a| && n <= |b| && a[..n] == b[..n]
    requires n < |a| && n < |b| ==> a[n] != b[n]
    ensures Less(a, b) <==> n < |b| && (n == |a| || a[n] < b[n])
  {
    if n > 0 {
      assert a[0] == a[..n][0] == b[..n][0] == b[0];
      assert a[1..][..n - 1] == a[..n][1..] == b[..n][1..] == b[1..][..n - 1];
      LessExactlyWhen(a[1..], b[1..], n - 1);
    }
  }

  function InsertKey(k: string, sorted: seq<string>): (r: seq<string>)
    ensures |r| == |sorted| + 1
    ensures forall x :: x in r <==> x == k || x in sorted
  {
    if sorted == [] || Less(k, sorted[0]) then [k] + sorted
    else
      var rest := InsertKey(k, sorted[1..]);
      assert sorted == [sorted[0]] + sorted[1..];
      assert forall x :: x in [sorted[0]] + rest <==> x == sorted[0] || x in rest;
      [sorted[0]] + rest
  }

  function SortKeys(keys: seq<string>): (r: seq<string>)
    ensures |r| == |keys|
    ensures forall x :: x in r <==> x in keys
  {
    if keys == [] then []
    else
      assert keys == [keys[0]] + keys[1..];
      InsertKey(keys[0], SortKeys(keys[1..]))
  }

  ghost predicate Increasing(keys: seq<string>) {
    forall i, j :: 0 <= i < j < |keys| ==> Less(keys[i], keys[j])
  }

  lemma {:induction false} InsertKeyIncreasing(k: string, sorted: seq<string>)
    requires Increasing(sorted) && k !in sorted
    ensures Increasing(InsertKey(k, sorted))
  {
    if sorted == [] {
    } else if Less(k, sorted[0]) {
      forall j | 0 < j < |sorted| ensures Less(k, sorted[j]) {
        LessTrans(k, sorted[0], sorted[j]);
      }
    } else {
      LessIsTotal(k, sorted[0]);
      InsertKeyIncreasing(k, sorted[1..]);
      var rest := InsertKey(k, sorted[1..]);
      forall j | 0 <= j < |rest| ensures Less(sorted[0], rest[j]) {
        assert rest[j] in rest;
      }
    }
  }

  lemma {:induction false} SortKeysIncreasing(keys: seq<string>)
    requires Distinct(keys)
    ensures Increasing(SortKeys(keys))
  {
    if keys != [] {
      SortKeysIncreasing(keys[1..]);
      assert keys[0] !in keys[1..];
      InsertKeyIncreasing(keys[0], SortKeys(keys[1..]));
    }
  }

  lemma HeadIsIn(keys: seq<string>)
    ensures keys != [] ==> keys[0] in keys
  {
  }

  /** A set of keys can be written in increasing order in one way only. */
  lemma {:induction false} OneIncreasingOrder(a: seq<string>, b: seq<string>)
    requires Increasing(a) && Increasing(b)
    requires forall k :: k in a <==> k in b
    ensures a == b
  {
    if a == [] {
      HeadIsIn(b);
    } else {
      assert a[0] in b && b != [];
      assert b[0] in a;
      assert a == [a[0]] + a[1..] && b == [b[0]] + b[1..];
      LessIsTotal(a[0], b[0]);
      assert a[0] == b[0];
      FirstIsAlone(a);
      FirstIsAlone(b);
      forall k ensures k in a[1..] <==> k in b[1..] {
        assert k in a <==> k in b;
      }
      OneIncreasingOrder(a[1..], b[1..]);
    }
  }

  lemma FirstIsAlone(keys: seq<string>)
    requires Increasing(keys) && keys != []
    ensures forall k :: k in keys[1..] <==> k in keys && k != keys[0]
  {
    LessIsTotal(keys[0], keys[0]);
    assert keys == [keys[0]] + keys[1..];
    assert forall j :: 0 <= j < |keys[1..]| ==> Less(keys[0], keys[1..][j]);
  }

  // ---- the transformation -------------------------------------------------------------------

  /** `sortKeysDeep`. */
  function Sort(v: Json): (r: Json)
    decreases v, if v.Obj? then |v.entries| + 1 else 0
  {
    match v
    case Leaf(_) => v
    case Arr(items) => Arr(seq(|items|, i requires 0 <= i < |items| => Sort(items[i])))
    case Obj(entries) => Obj(SortMembers(v, SortKeys(KeysOf(entries))))
  }

  /** The members of the object `v` named by `keys`, in that order, each sorted inside. */
  function SortMembers(v: Json, keys: seq<string>): seq<(string, Json)>
    requires v.Obj? && |keys| <= |v.entries|
    requires forall k :: k in keys ==> Lookup(v.entries, k).Some?
    decreases v, |keys|
  {
    if keys == [] then []
    else
      var k := keys[|keys| - 1];
      assert k in keys;
      var before := SortMembers(v, keys[..|keys| - 1]);
      if k == PROTO then before else before + [(k, Sort(Lookup(v.entries, k).value))]
  }

  /** Every member but `__proto__` is found again, sorted inside; that one is lost. */
  lemma {:induction false} MembersFound(v: Json, keys: seq<string>, k: string)
    requires v.Obj? && |keys| <= |v.entries| && Distinct(keys)
    requires forall x :: x in keys ==> Lookup(v.entries, x).Some?
    ensures Lookup(SortMembers(v, keys), k)
         == if k in keys && k != PROTO then Some(Sort(Lookup(v.entries, k).value)) else None
  {
    if keys != [] {
      var n := |keys| - 1;
      var last := keys[n];
      MembersFound(v, keys[..n], k);
      assert keys == keys[..n] + [last];
      if last != PROTO {
        LookupSnoc(SortMembers(v, keys[..n]), (last, Sort(Lookup(v.entries, last).value)), k);
      }
    }
  }

  lemma {:induction false} LookupSnoc(entries: seq<(string, Json)>, e: (string, Json), k: string)
    ensures Lookup(entries + [e], k)
         == if Lookup(entries, k).Some? then Lookup(entries, k) else if e.0 == k then Some(e.1) else None
  {
    if entries == [] {
      assert entries + [e] == [e];
    } else {
      assert (entries + [e])[1..] == entries[1..] + [e];
      LookupSnoc(entries[1..], e, k);
    }
  }

  lemma SortFinds(v: Json, k: string)
    requires v.Obj? && WellFormed(v)
    ensures Lookup(Sort(v).entries, k)
         == if Lookup(v.entries, k).Some? && k != PROTO then Some(Sort(Lookup(v.entries, k).value)) else None
  {
    var keys := SortKeys(KeysOf(v.entries));
    SortKeysIncreasing(KeysOf(v.entries));
    forall i, j | 0 <= i < j < |keys| ensures keys[i] != keys[j] {
      LessIsTotal(keys[i], keys[j]);
    }
    MembersFound(v, keys, k);
  }

  lemma {:induction false} MembersIncreasing(v: Json, keys: seq<string>)
    requires v.Obj? && |keys| <= |v.entries| && Increasing(keys)
    requires forall x :: x in keys ==> Lookup(v.entries, x).Some?
    ensures var names := KeysOf(SortMembers(v, keys)); Increasing(names) && forall k :: k in names ==> k in keys
  {
    if keys != [] {
      var n := |keys| - 1;
      MembersIncreasing(v, keys[..n]);
      assert keys == keys[..n] + [keys[n]];
      if keys[n] != PROTO {
        var before := SortMembers(v, keys[..n]);
        KeysOfSnoc(before, (keys[n], Sort(Lookup(v.entries, keys[n]).value)));
        forall j | 0 <= j < |KeysOf(before)| ensures Less(KeysOf(before)[j], keys[n]) {
          assert KeysOf(before)[j] in keys[..n];
        }
      }
    }
  }

  lemma {:induction false} KeysOfSnoc(entries: seq<(string, Json)>, e: (string, Json))
    ensures KeysOf(entries + [e]) == KeysOf(entries) + [e.0]
  {
    if entries == [] {
      assert entries + [e] == [e];
    } else {
      assert (entries + [e])[1..] == entries[1..] + [e];
      KeysOfSnoc(entries[1..], e);
    }
  }

  lemma {:induction false} KeyAt(entries: seq<(string, Json)>, i: nat)
    requires i < |entries| && Distinct(KeysOf(entries))
    ensures KeysOf(entries)[i] == entries[i].0
    ensures Lookup(entries, entries[i].0) == Some(entries[i].1)
  {
    if i > 0 {
      var keys := KeysOf(entries);
      assert keys == [entries[0].0] + KeysOf(entries[1..]);
      assert KeysOf(entries[1..]) == keys[1..];
      KeyAt(entries[1..], i - 1);
      assert keys[0] != keys[i];
    }
  }

  /** With its keys in increasing order, an object is fixed by what its lookups answer. */
  lemma LookupsDetermine(a: seq<(string, Json)>, b: seq<(string, Json)>)
    requires Increasing(KeysOf(a)) && Increasing(KeysOf(b))
    requires forall k :: Lookup(a, k) == Lookup(b, k)
    ensures a == b
  {
    OneIncreasingOrder(KeysOf(a), KeysOf(b));
    IncreasingDistinct(KeysOf(a));
    IncreasingDistinct(KeysOf(b));
    forall i | 0 <= i < |a| ensures a[i] == b[i] {
      KeyAt(a, i);
      KeyAt(b, i);
    }
  }

  lemma IncreasingDistinct(keys: seq<string>)
    requires Increasing(keys)
    ensures Distinct(keys)
  {
    forall i, j | 0 <= i < j < |keys| ensures keys[i] != keys[j] {
      LessIsTotal(keys[i], keys[j]);
    }
  }

  lemma SortedKeys(v: Json)
    requires v.Obj? && WellFormed(v)
    ensures Increasing(KeysOf(Sort(v).entries))
  {
    SortKeysIncreasing(KeysOf(v.entries));
    MembersIncreasing(v, SortKeys(KeysOf(v.entries)));
  }

  // ---- what the transformation is for -------------------------------------------------------

  ghost predicate MemberAlike(a: Json, b: Json, k: string, ignored: set<string>)
    requires a.Obj? && b.Obj?
  {
    k !in ignored ==>
      var x, y := Lookup(a.entries, k), Lookup(b.entries, k);
      x.Some? == y.Some? && (x.Some? ==> Alike(x.value, y.value, ignored))
  }

  lemma AlikeByMembers(a: Json, b: Json, ignored: set<string>)
    requires a.Obj? && b.Obj?
    ensures Alike(a, b, ignored) <==> forall k :: MemberAlike(a, b, k, ignored)
  {
    if Alike(a, b, ignored) {
      forall k ensures MemberAlike(a, b, k, ignored) {
      }
    }
    if forall k :: MemberAlike(a, b, k, ignored) {
      forall k | k !in ignored
        ensures var x, y := Lookup(a.entries, k), Lookup(b.entries, k);
          x.Some? == y.Some? && (x.Some? ==> Alike(x.value, y.value, ignored))
      {
        assert MemberAlike(a, b, k, ignored);
      }
    }
  }

  /** The canonical form: two values have identical outputs exactly when they are equal up to the
      order of keys at every depth (and the members that cannot be assigned). */
  lemma {:induction false} SortIsCanonical(a: Json, b: Json)
    requires WellFormed(a) && WellFormed(b)
    ensures Sort(a) == Sort(b) <==> Alike(a, b, {PROTO})
    decreases a
  {
    match a
    case Leaf(_) =>
    case Arr(items) =>
      if b.Arr? && |items| == |b.items| {
        forall i | 0 <= i < |items|
          ensures Sort(items[i]) == Sort(b.items[i]) <==> Alike(items[i], b.items[i], {PROTO})
        {
          SortIsCanonical(items[i], b.items[i]);
        }
        assert forall i :: 0 <= i < |items| ==>
          Sort(a).items[i] == Sort(items[i]) && Sort(b).items[i] == Sort(b.items[i]);
      }
    case Obj(entries) =>
      if b.Obj? {
        SortedKeys(a);
        SortedKeys(b);
        forall k ensures MemberAlike(a, b, k, {PROTO}) <==> Lookup(Sort(a).entries, k) == Lookup(Sort(b).entries, k) {
          SortFinds(a, k);
          SortFinds(b, k);
          if Lookup(entries, k).Some? && Lookup(b.entries, k).Some? {
            SortIsCanonical(Lookup(entries, k).value, Lookup(b.entries, k).value);
          }
        }
        AlikeByMembers(a, b, {PROTO});
        if forall k :: MemberAlike(a, b, k, {PROTO}) {
          LookupsDetermine(Sort(a).entries, Sort(b).entries);
        }
      }
  }

  lemma {:induction false} SortWellFormed(v: Json)
    requires WellFormed(v)
    ensures WellFormed(Sort(v)) && ProtoFree(Sort(v))
    decreases v
  {
    match v
    case Leaf(_) =>
    case Arr(items) =>
      forall i | 0 <= i < |items| ensures WellFormed(Sort(items[i])) && ProtoFree(Sort(items[i])) {
        SortWellFormed(items[i]);
      }
    case Obj(entries) =>
      var out := Sort(v).entries;
      SortedKeys(v);
      IncreasingDistinct(KeysOf(out));
      SortFinds(v, PROTO);
      forall i | 0 <= i < |out| ensures WellFormed(out[i].1) && ProtoFree(out[i].1) {
        KeyAt(out, i);
        SortFinds(v, out[i].0);
        SortWellFormed(Lookup(entries, out[i].0).value);
      }
  }

  /** The output is equal to the input up to key order exactly when no `__proto__` member was there
      to lose: then every lookup answers as before and every array keeps its order. */
  lemma {:induction false} SortPreservesExactlyWhen(v: Json)
    requires WellFormed(v)
    ensures Alike(v, Sort(v), {}) <==> ProtoFree(v)
    decreases v
  {
    match v
    case Leaf(_) =>
    case Arr(items) =>
      forall i | 0 <= i < |items| ensures Alike(items[i], Sort(v).items[i], {}) <==> ProtoFree(items[i]) {
        SortPreservesExactlyWhen(items[i]);
      }
    case Obj(entries) =>
      forall k ensures MemberAlike(v, Sort(v), k, {}) <==> MemberFree(entries, k) {
        SortFinds(v, k);
        if Lookup(entries, k).Some? {
          SortPreservesExactlyWhen(Lookup(entries, k).value);
        }
      }
      AlikeByMembers(v, Sort(v), {});
      FreeByMembers(entries);
  }

  ghost predicate MemberFree(entries: seq<(string, Json)>, k: string) {
    Lookup(entries, k).Some? ==> k != PROTO && ProtoFree(Lookup(entries, k).value)
  }

  lemma FreeByMembers(entries: seq<(string, Json)>)
    requires Distinct(KeysOf(entries))
    ensures ProtoFree(Obj(entries)) <==> forall k :: MemberFree(entries, k)
  {
    if forall k :: MemberFree(entries, k) {
      assert MemberFree(entries, PROTO);
      forall i | 0 <= i < |entries| ensures ProtoFree(entries[i].1) {
        KeyAt(entries, i);
        assert MemberFree(entries, entries[i].0);
      }
    }
  }

  lemma {:induction false} OutputIsAlike(v: Json)
    requires WellFormed(v)
    ensures Alike(Sort(v), v, {PROTO})
    decreases v
  {
    match v
    case Leaf(_) =>
    case Arr(items) =>
      forall i | 0 <= i < |items| ensures Alike(Sort(v).items[i], items[i], {PROTO}) {
        OutputIsAlike(items[i]);
      }
    case Obj(entries) =>
      forall k ensures MemberAlike(Sort(v), v, k, {PROTO}) {
        SortFinds(v, k);
        if Lookup(entries, k).Some? {
          OutputIsAlike(Lookup(entries, k).value);
        }
      }
      AlikeByMembers(Sort(v), v, {PROTO});
  }

  /** Sorting what is sorted changes nothing. */
  lemma SortIsIdempotent(v: Json)
    requires WellFormed(v)
    ensures Sort(Sort(v)) == Sort(v)
  {
    SortWellFormed(v);
    OutputIsAlike(v);
    SortIsCanonical(Sort(v), v);
  }

  /** For values without `__proto__` members, nothing is ignored in the comparison. */
  lemma {:induction false} NothingIgnored(a: Json, b: Json)
    requires ProtoFree(a) && ProtoFree(b)
    ensures Alike(a, b, {PROTO}) <==> Alike(a, b, {})
    decreases a
  {
    match a
    case Leaf(_) =>
    case Arr(items) =>
      if b.Arr? && |items| == |b.items| {
        forall i | 0 <= i < |items| ensures Alike(items[i], b.items[i], {PROTO}) <==> Alike(items[i], b.items[i], {}) {
          NothingIgnored(items[i], b.items[i]);
        }
      }
    case Obj(entries) =>
      if b.Obj? {
        forall k | Lookup(entries, k).Some? && Lookup(b.entries, k).Some?
          ensures Alike(Lookup(entries, k).value, Lookup(b.entries, k).value, {PROTO})
             <==> Alike(Lookup(entries, k).value, Lookup(b.entries, k).value, {})
        {
          NothingIgnored(Lookup(entries, k).value, Lookup(b.entries, k).value);
        }
      }
  }

  /** The promise of byte-determinism, without exceptions: same output exactly when the same value
      up to key order. */
  lemma SameOutputExactlyWhenAlike(a: Json, b: Json)
    requires WellFormed(a) && WellFormed(b) && ProtoFree(a) && ProtoFree(b)
    ensures Sort(a) == Sort(b) <==> Alike(a, b, {})
  {
    SortIsCanonical(a, b);
    NothingIgnored(a, b);
  }

  /** An input that is not preserved. */
  lemma ProtoIsLost()
    ensures var v := Obj([(PROTO, Leaf(Bool(true)))]);
      WellFormed(v) && Sort(v) == Obj([]) && !Alike(v, Sort(v), {})
  {
    var v := Obj([(PROTO, Leaf(Bool(true)))]);
    assert WellFormed(v) by {
      assert KeysOf(v.entries) == [PROTO] + KeysOf([]);
    }
    SortFinds(v, PROTO);
    SortedKeys(v);
    forall k ensures Lookup(Sort(v).entries, k) == Lookup([], k) {
      SortFinds(v, k);
    }
    LookupsDetermine(Sort(v).entries, []);
    assert Lookup(v.entries, PROTO).Some?;
  }

  /** The recursion as written: arrays mapped, an object rebuilt key by key in sorted order. */
  method SortKeysDeep(value: Json) returns (r: Json)
    ensures r == Sort(value)
    decreases value, 1
  {
    match value {
      case Leaf(_) =>
        r := value;
      case Arr(items) =>
        var out: seq<Json> := [];
        for i := 0 to |items|
          invariant |out| == i && forall j :: 0 <= j < i ==> out[j] == Sort(items[j])
        {
          var item := SortKeysDeep(items[i]);
          out := out + [item];
        }
        r := Arr(out);
      case Obj(entries) =>
        var out := RebuildSorted(value, SortKeys(KeysOf(entries)));
        r := Obj(out);
    }
  }

  method RebuildSorted(value: Json, keys: seq<string>) returns (out: seq<(string, Json)>)
    requires value.Obj? && |keys| <= |value.entries|
    requires forall k :: k in keys ==> Lookup(value.entries, k).Some?
    ensures out == SortMembers(value, keys)
    decreases value, 0
  {
    out := [];
    for i := 0 to |keys|
      invariant out == SortMembers(value, keys[..i])
    {
      TakeNext(keys, i);
      var key := keys[i];
      assert key in keys;
      var member := SortKeysDeep(Lookup(value.entries, key).value);
      if key != PROTO {
        out := out + [(key, member)];
      }
    }
    assert keys[..|keys|] == keys;
  }
}
