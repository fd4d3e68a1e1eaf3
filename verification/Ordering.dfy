/** Python's tuple and string comparison, and what sorting by a totally ordered key guarantees. */
module Ordering {
  import opened Prelude

  // ----- lexicographic order -----

  predicate LexLess(a: seq<int>, b: seq<int>) {
    if b == [] then false
    else if a == [] then true
    else a[0] < b[0] || (a[0] == b[0] && LexLess(a[1..], b[1..]))
  }

  lemma {:induction false} LexIrreflexive(a: seq<int>)
    ensures !LexLess(a, a)
  {
    if a != [] {
      LexIrreflexive(a[1..]);
    }
  }

  lemma {:induction false} LexTransitive(a: seq<int>, b: seq<int>, c: seq<int>)
    requires LexLess(a, b) && LexLess(b, c)
    ensures LexLess(a, c)
  {
    if a != [] && a[0] == b[0] && b[0] == c[0] {
      LexTransitive(a[1..], b[1..], c[1..]);
    }
  }

  lemma {:induction false} LexTotal(a: seq<int>, b: seq<int>)
    ensures LexLess(a, b) || a == b || LexLess(b, a)
  {
    if a != [] && b != [] && a[0] == b[0] {
      LexTotal(a[1..], b[1..]);
      assert a == [a[0]] + a[1..] && b == [b[0]] + b[1..];
    }
  }

  /** Strings compare by code point. */
  function Codes(s: string): seq<int> {
    seq(|s|, i requires 0 <= i < |s| => s[i] as int)
  }

  lemma CodesInjective(s: string, t: string)
    requires Codes(s) == Codes(t)
    ensures s == t
  {
    assert |s| == |Codes(s)| == |Codes(t)| == |t|;
    forall i | 0 <= i < |s|
      ensures s[i] == t[i]
    {
      assert Codes(s)[i] == Codes(t)[i];
    }
  }

  predicate StringLess(a: string, b: string) {
    LexLess(Codes(a), Codes(b))
  }

  /** A sort key: some numbers, then two ids that break every tie. */
  datatype Key = Key(nums: seq<int>, goalId: string, taskId: string)

  predicate KeyLess(a: Key, b: Key) {
    LexLess(a.nums, b.nums)
    || (a.nums == b.nums && (StringLess(a.goalId, b.goalId)
                             || (a.goalId == b.goalId && StringLess(a.taskId, b.taskId))))
  }

  lemma KeyIrreflexive(a: Key)
    ensures !KeyLess(a, a)
  {
    LexIrreflexive(a.nums);
    LexIrreflexive(Codes(a.goalId));
    LexIrreflexive(Codes(a.taskId));
  }

  lemma KeyTransitive(a: Key, b: Key, c: Key)
    requires KeyLess(a, b) && KeyLess(b, c)
    ensures KeyLess(a, c)
  {
    if LexLess(a.nums, b.nums) && LexLess(b.nums, c.nums) {
      LexTransitive(a.nums, b.nums, c.nums);
    }
    if StringLess(a.goalId, b.goalId) && StringLess(b.goalId, c.goalId) {
      LexTransitive(Codes(a.goalId), Codes(b.goalId), Codes(c.goalId));
    }
    if StringLess(a.taskId, b.taskId) && StringLess(b.taskId, c.taskId) {
      LexTransitive(Codes(a.taskId), Codes(b.taskId), Codes(c.taskId));
    }
  }

  lemma KeyTotal(a: Key, b: Key)
    ensures KeyLess(a, b) || a == b || KeyLess(b, a)
  {
    LexTotal(a.nums, b.nums);
    LexTotal(Codes(a.goalId), Codes(b.goalId));
    LexTotal(Codes(a.taskId), Codes(b.taskId));
    if Codes(a.goalId) == Codes(b.goalId) {
      CodesInjective(a.goalId, b.goalId);
    }
    if Codes(a.taskId) == Codes(b.taskId) {
      CodesInjective(a.taskId, b.taskId);
    }
  }

  lemma KeyAsymmetric(a: Key, b: Key)
    requires KeyLess(a, b)
    ensures !KeyLess(b, a)
  {
    if KeyLess(b, a) {
      KeyTransitive(a, b, a);
      KeyIrreflexive(a);
    }
  }

  predicate KeyAtMost(a: Key, b: Key) {
    !KeyLess(b, a)
  }

  lemma AtMostTransitive(a: Key, b: Key, c: Key)
    requires KeyAtMost(a, b) && KeyAtMost(b, c)
    ensures KeyAtMost(a, c)
  {
    KeyTotal(a, b);
    KeyTotal(b, c);
    KeyIrreflexive(a);
    if KeyLess(c, a) {
      if KeyLess(a, b) {
        KeyTransitive(c, a, b);
      }
    }
  }

  // ----- sorting -----

  datatype Keyed<T> = Keyed(key: Key, value: T)

  /** Inserts before equal keys, so sorting from the back is stable. */
  function Insert<T>(x: Keyed<T>, xs: seq<Keyed<T>>): seq<Keyed<T>> {
    if xs == [] then [x]
    else if KeyAtMost(x.key, xs[0].key) then [x] + xs
    else [xs[0]] + Insert(x, xs[1..])
  }

  /** sorted(xs, key=...) */
  function Sort<T>(xs: seq<Keyed<T>>): seq<Keyed<T>> {
    if xs == [] then [] else Insert(xs[0], Sort(xs[1..]))
  }

  ghost predicate Sorted<T>(xs: seq<Keyed<T>>) {
    forall i, j :: 0 <= i < j < |xs| ==> KeyAtMost(xs[i].key, xs[j].key)
  }

  ghost predicate DistinctKeys<T>(xs: seq<Keyed<T>>) {
    forall i, j :: 0 <= i < j < |xs| ==> xs[i].key != xs[j].key
  }

  lemma {:induction false} InsertKeeps<T>(x: Keyed<T>, xs: seq<Keyed<T>>)
    requires Sorted(xs)
    ensures Sorted(Insert(x, xs)) && multiset(Insert(x, xs)) == multiset(xs) + multiset{x}
  {
    if xs == [] {
      return;
    }
    assert xs == [xs[0]] + xs[1..];
    if KeyAtMost(x.key, xs[0].key) {
      forall j | 0 <= j < |xs|
        ensures KeyAtMost(x.key, xs[j].key)
      {
        if j > 0 { AtMostTransitive(x.key, xs[0].key, xs[j].key); }
      }
    } else {
      InsertKeeps(x, xs[1..]);
      var rest := Insert(x, xs[1..]);
      forall j | 0 <= j < |rest|
        ensures KeyAtMost(xs[0].key, rest[j].key)
      {
        KeyTotal(xs[0].key, x.key);
        KeyIrreflexive(xs[0].key);
        assert rest[j] in multiset(rest);
        if rest[j] != x {
          assert rest[j] in multiset(xs[1..]);
          assert rest[j] in xs[1..];
        } else if KeyLess(x.key, xs[0].key) {
          KeyTransitive(x.key, xs[0].key, x.key);
          KeyIrreflexive(x.key);
        }
      }
    }
  }

  lemma {:induction false} SortSorts<T>(xs: seq<Keyed<T>>)
    ensures Sorted(Sort(xs)) && multiset(Sort(xs)) == multiset(xs)
  {
    if xs != [] {
      SortSorts(xs[1..]);
      InsertKeeps(xs[0], Sort(xs[1..]));
      assert xs == [xs[0]] + xs[1..];
    }
  }

  /** Two sorted sequences of the same distinctly keyed elements are equal. */
  lemma {:induction false} SortedUnique<T>(a: seq<Keyed<T>>, b: seq<Keyed<T>>)
    requires Sorted(a) && Sorted(b) && multiset(a) == multiset(b) && DistinctKeys(a)
    ensures a == b
  {
    if a == [] {
      assert |multiset(b)| == 0;
      return;
    }
    SameHead(a, b);
    SameTails(a, b);
    assert Sorted(a[1..]) && Sorted(b[1..]) && DistinctKeys(a[1..]);
    SortedUnique(a[1..], b[1..]);
    assert a == [a[0]] + a[1..] && b == [b[0]] + b[1..];
  }

  lemma SameTails<T>(a: seq<T>, b: seq<T>)
    requires multiset(a) == multiset(b) && |a| == |b| > 0 && a[0] == b[0]
    ensures multiset(a[1..]) == multiset(b[1..])
  {
    assert a == [a[0]] + a[1..] && b == [b[0]] + b[1..];
    assert multiset(a[1..]) == multiset(a) - multiset{a[0]};
    assert multiset(b[1..]) == multiset(b) - multiset{a[0]};
  }

  lemma SameHead<T>(a: seq<Keyed<T>>, b: seq<Keyed<T>>)
    requires Sorted(a) && Sorted(b) && multiset(a) == multiset(b) && DistinctKeys(a) && a != []
    ensures |b| == |a| && b[0] == a[0]
  {
    assert |b| == |multiset(b)| == |multiset(a)| == |a|;
    assert b[0] in multiset(a) && a[0] in multiset(b);
    var i :| 0 <= i < |a| && a[i] == b[0];
    var j :| 0 <= j < |b| && b[j] == a[0];
    KeyTotal(a[0].key, b[0].key);
  }

  lemma OccursTwice<T>(xs: seq<T>, i: nat, j: nat)
    requires i < j < |xs|
    ensures xs[i] == xs[j] ==> multiset(xs)[xs[j]] >= 2
  {
    assert xs == xs[..j] + [xs[j]] + xs[j + 1..];
    assert xs[i] in xs[..j];
  }

  lemma OccursOnce<T>(xs: seq<Keyed<T>>, k: nat)
    requires DistinctKeys(xs) && k < |xs|
    ensures multiset(xs)[xs[k]] == 1
  {
    assert xs == xs[..k] + [xs[k]] + xs[k + 1..];
    assert xs[k] !in xs[..k] && xs[k] !in xs[k + 1..];
  }

  lemma DistinctPermuted<T>(a: seq<Keyed<T>>, b: seq<Keyed<T>>)
    requires multiset(a) == multiset(b) && DistinctKeys(a)
    ensures DistinctKeys(b)
  {
    forall i, j | 0 <= i < j < |b|
      ensures b[i].key != b[j].key
    {
      if b[i].key == b[j].key {
        assert b[i] in multiset(a) && b[j] in multiset(a);
        var k :| 0 <= k < |a| && a[k] == b[i];
        var l :| 0 <= l < |a| && a[l] == b[j];
        OccursTwice(b, i, j);
        OccursOnce(a, k);
      }
    }
  }

  /** Sorting forgets the order of its input when keys are distinct. */
  lemma SortPermuted<T>(a: seq<Keyed<T>>, b: seq<Keyed<T>>)
    requires multiset(a) == multiset(b) && DistinctKeys(a)
    ensures Sort(a) == Sort(b)
  {
    SortSorts(a);
    SortSorts(b);
    DistinctPermuted(a, Sort(a));
    SortedUnique(Sort(a), Sort(b));
  }

  // ----- the part of a sorted sequence up to a key -----

  function UpTo<T>(xs: seq<Keyed<T>>, k: Key): seq<Keyed<T>> {
    if xs == [] then []
    else (if KeyAtMost(xs[0].key, k) then [xs[0]] else []) + UpTo(xs[1..], k)
  }

  lemma {:induction false} UpToNone<T>(xs: seq<Keyed<T>>, k: Key)
    requires forall i :: 0 <= i < |xs| ==> !KeyAtMost(xs[i].key, k)
    ensures UpTo(xs, k) == []
  {
    if xs != [] {
      UpToNone(xs[1..], k);
    }
  }

  /** In a sorted sequence the elements up to a key are a prefix. */
  lemma {:induction false} UpToIsPrefix<T>(xs: seq<Keyed<T>>, k: Key)
    requires Sorted(xs)
    ensures UpTo(xs, k) <= xs
  {
    if xs == [] {
      return;
    }
    if KeyAtMost(xs[0].key, k) {
      UpToIsPrefix(xs[1..], k);
      assert xs == [xs[0]] + xs[1..];
    } else {
      forall i | 0 <= i < |xs|
        ensures !KeyAtMost(xs[i].key, k)
      {
        if i > 0 && KeyAtMost(xs[i].key, k) {
          AtMostTransitive(xs[0].key, xs[i].key, k);
        }
      }
      UpToNone(xs, k);
    }
  }

  lemma {:induction false} UpToInsert<T>(x: Keyed<T>, xs: seq<Keyed<T>>, k: Key)
    requires Sorted(xs)
    ensures UpTo(Insert(x, xs), k) == if KeyAtMost(x.key, k) then Insert(x, UpTo(xs, k)) else UpTo(xs, k)
  {
    if xs == [] {
      return;
    }
    if KeyAtMost(x.key, xs[0].key) {
      assert ([x] + xs)[1..] == xs;
      if KeyAtMost(x.key, k) && !KeyAtMost(xs[0].key, k) {
        UpToIsPrefix(xs, k);
      }
    } else {
      UpToInsert(x, xs[1..], k);
      assert ([xs[0]] + Insert(x, xs[1..]))[1..] == Insert(x, xs[1..]);
      if KeyAtMost(x.key, k) {
        KeyAsymmetric(xs[0].key, x.key);
        if !KeyAtMost(xs[0].key, k) {
          AtMostTransitive(xs[0].key, x.key, k);
        }
        assert ([xs[0]] + UpTo(xs[1..], k))[1..] == UpTo(xs[1..], k);
      }
    }
  }

  /** Cutting at a key and sorting commute. */
  lemma {:induction false} UpToSort<T>(xs: seq<Keyed<T>>, k: Key)
    ensures UpTo(Sort(xs), k) == Sort(UpTo(xs, k))
  {
    if xs != [] {
      UpToSort(xs[1..], k);
      SortSorts(xs[1..]);
      UpToInsert(xs[0], Sort(xs[1..]), k);
      var rest := UpTo(xs[1..], k);
      if KeyAtMost(xs[0].key, k) {
        assert ([xs[0]] + rest)[1..] == rest;
      } else {
        assert [] + rest == rest;
      }
    }
  }

  // ----- mapping and adding, independent of order -----

  function Map<A, B>(f: A -> B, xs: seq<A>): (ys: seq<B>)
    ensures |ys| == |xs| && forall i :: 0 <= i < |xs| ==> ys[i] == f(xs[i])
  {
    seq(|xs|, i requires 0 <= i < |xs| => f(xs[i]))
  }

  function Sum(xs: seq<int>): int {
    if xs == [] then 0 else xs[0] + Sum(xs[1..])
  }

  lemma {:induction false} SumConcat(a: seq<int>, b: seq<int>)
    ensures Sum(a + b) == Sum(a) + Sum(b)
  {
    if a == [] {
      assert a + b == b;
    } else {
      assert (a + b)[1..] == a[1..] + b;
      SumConcat(a[1..], b);
    }
  }

  lemma RemoveAt<T>(xs: seq<T>, i: nat)
    requires i < |xs|
    ensures multiset(xs[..i] + xs[i + 1..]) == multiset(xs) - multiset{xs[i]}
  {
    assert xs == xs[..i] + ([xs[i]] + xs[i + 1..]);
    assert multiset(xs) == multiset(xs[..i]) + (multiset{xs[i]} + multiset(xs[i + 1..]));
  }

  /** An occurrence of the first element of `a` in a permutation `b` of it, and what is left of `b`. */
  lemma Occurrence<T>(a: seq<T>, b: seq<T>) returns (i: nat)
    requires multiset(a) == multiset(b) && a != []
    ensures i < |b| && b[i] == a[0] && multiset(b[..i] + b[i + 1..]) == multiset(a[1..])
  {
    assert a == [a[0]] + a[1..];
    assert a[0] in multiset(b);
    i :| 0 <= i < |b| && b[i] == a[0];
    RemoveAt(b, i);
    RemoveAt(a, 0);
    assert a[..0] + a[1..] == a[1..];
  }

  lemma PutBack<T>(a: multiset<T>, b: multiset<T>, x: T)
    requires x in a && x in b && a - multiset{x} == b - multiset{x}
    ensures a == b
  {
    assert a == (a - multiset{x}) + multiset{x};
    assert b == (b - multiset{x}) + multiset{x};
  }

  lemma {:induction false} MapPermuted<A, B>(f: A -> B, a: seq<A>, b: seq<A>)
    requires multiset(a) == multiset(b)
    ensures multiset(Map(f, a)) == multiset(Map(f, b))
  {
    if a == [] {
      assert |b| == |multiset(b)| == 0;
      return;
    }
    var i := Occurrence(a, b);
    var b' := b[..i] + b[i + 1..];
    MapPermuted(f, a[1..], b');
    RemoveAt(Map(f, a), 0);
    RemoveAt(Map(f, b), i);
    assert Map(f, a)[0] == f(a[0]) && Map(f, b)[i] == f(a[0]);
    assert Map(f, a)[..0] + Map(f, a)[1..] == Map(f, a[1..]);
    assert Map(f, b)[..i] + Map(f, b)[i + 1..] == Map(f, b');
    PutBack(multiset(Map(f, a)), multiset(Map(f, b)), f(a[0]));
  }

  lemma {:induction false} SumPermuted(a: seq<int>, b: seq<int>)
    requires multiset(a) == multiset(b)
    ensures Sum(a) == Sum(b)
  {
    if a == [] {
      assert |b| == |multiset(b)| == 0;
      return;
    }
    var i := Occurrence(a, b);
    assert b == b[..i] + ([b[i]] + b[i + 1..]);
    SumPermuted(a[1..], b[..i] + b[i + 1..]);
    SumConcat(b[..i], [b[i]] + b[i + 1..]);
    SumConcat(b[..i], b[i + 1..]);
  }
}
