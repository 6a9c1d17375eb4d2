/** Folds over sequences shared by the other modules: filtering, counting and summing. */
module Seqs {

  function Filter<T(!new)>(s: seq<T>, p: T -> bool): (r: seq<T>)
    ensures forall x :: x in r <==> x in s && p(x)
  {
    if s == [] then []
    else
      var r := Filter(s[..|s| - 1], p);
      assert forall x :: x in s <==> x in s[..|s| - 1] || x == s[|s| - 1];
      if p(s[|s| - 1]) then r + [s[|s| - 1]] else r
  }

  function Count<T(!new)>(s: seq<T>, p: T -> bool): nat {
    if s == [] then 0
    else Count(s[..|s| - 1], p) + if p(s[|s| - 1]) then 1 else 0
  }

  function Sum(n: nat, f: int -> int): int {
    if n == 0 then 0 else Sum(n - 1, f) + f(n - 1)
  }

  /** Said of the multiset, so that permuting keeps it by definition. */
  ghost predicate NoDuplicates<T(!new)>(s: seq<T>) {
    forall x :: multiset(s)[x] <= 1
  }

  lemma {:induction false} Distinct<T(!new)>(s: seq<T>, i: nat, j: nat)
    requires NoDuplicates(s) && i < |s| && j < |s| && i != j
    ensures s[i] != s[j]
  {
    var lo, hi := if i < j then i else j, if i < j then j else i;
    assert s == s[..hi] + [s[hi]] + s[hi + 1..];
    assert s[lo] in s[..hi];
    assert multiset(s)[s[lo]] == multiset(s[..hi])[s[lo]] + multiset([s[hi]])[s[lo]] + multiset(s[hi + 1..])[s[lo]];
  }

  lemma {:induction false} DifferentEach<T(!new)>(s: seq<T>)
    requires forall i, j :: 0 <= i < j < |s| ==> s[i] != s[j]
    ensures NoDuplicates(s)
  {
    if s != [] {
      var init := s[..|s| - 1];
      DifferentEach(init);
      assert s == init + [s[|s| - 1]];
      assert s[|s| - 1] !in init;
    }
  }

  /** Two tables that agree, row by row, on what a query selects give the query the same answer. */
  lemma {:induction false} FilterCongruence<T(!new)>(s: seq<T>, t: seq<T>, p: T -> bool)
    requires |s| == |t|
    requires forall i :: 0 <= i < |s| ==> p(s[i]) == p(t[i]) && (p(s[i]) ==> s[i] == t[i])
    ensures Filter(s, p) == Filter(t, p)
  {
    if s != [] {
      FilterCongruence(s[..|s| - 1], t[..|t| - 1], p);
    }
  }

  lemma {:induction false} FilterAppend<T(!new)>(s: seq<T>, t: seq<T>, p: T -> bool)
    ensures Filter(s + t, p) == Filter(s, p) + Filter(t, p)
  {
    if t == [] {
      assert s + t == s;
    } else {
      assert (s + t)[..|s + t| - 1] == s + t[..|t| - 1];
      FilterAppend(s, t[..|t| - 1], p);
    }
  }

  lemma {:induction false} FilterNone<T(!new)>(s: seq<T>, p: T -> bool)
    requires forall i :: 0 <= i < |s| ==> !p(s[i])
    ensures Filter(s, p) == []
  {
    if s != [] { FilterNone(s[..|s| - 1], p); }
  }

  lemma {:induction false} FilterAll<T(!new)>(s: seq<T>, p: T -> bool)
    requires forall i :: 0 <= i < |s| ==> p(s[i])
    ensures Filter(s, p) == s
  {
    if s != [] {
      FilterAll(s[..|s| - 1], p);
      assert s == s[..|s| - 1] + [s[|s| - 1]];
    }
  }

  /** Selecting twice is selecting once by both conditions. */
  lemma {:induction false} FilterTwice<T(!new)>(s: seq<T>, p: T -> bool, q: T -> bool, pq: T -> bool)
    requires forall i :: 0 <= i < |s| ==> pq(s[i]) == (p(s[i]) && q(s[i]))
    ensures Filter(Filter(s, p), q) == Filter(s, pq)
  {
    if s != [] {
      var init, x := s[..|s| - 1], s[|s| - 1];
      FilterTwice(init, p, q, pq);
      if p(x) {
        var r := Filter(init, p);
        assert (r + [x])[..|r + [x]| - 1] == r;
      }
    }
  }

  /** Filtering commutes with a row-by-row update that the query cannot see. */
  lemma {:induction false} FilterMap<T(!new)>(s: seq<T>, t: seq<T>, p: T -> bool, f: T -> T)
    requires |s| == |t|
    requires forall i :: 0 <= i < |s| ==> t[i] == f(s[i]) && p(s[i]) == p(t[i])
    ensures |Filter(t, p)| == |Filter(s, p)|
    ensures forall i :: 0 <= i < |Filter(s, p)| ==> Filter(t, p)[i] == f(Filter(s, p)[i])
  {
    if s != [] { FilterMap(s[..|s| - 1], t[..|t| - 1], p, f); }
  }

  lemma {:induction false} FilterMultiset<T(!new)>(s: seq<T>, p: T -> bool, x: T)
    ensures multiset(Filter(s, p))[x] == if p(x) then multiset(s)[x] else 0
  {
    if s != [] {
      FilterMultiset(s[..|s| - 1], p, x);
      assert s == s[..|s| - 1] + [s[|s| - 1]];
    }
  }

  lemma {:induction false} FilterPermutation<T(!new)>(s: seq<T>, t: seq<T>, p: T -> bool)
    requires multiset(s) == multiset(t)
    ensures multiset(Filter(s, p)) == multiset(Filter(t, p))
  {
    forall x ensures multiset(Filter(s, p))[x] == multiset(Filter(t, p))[x] {
      FilterMultiset(s, p, x);
      FilterMultiset(t, p, x);
    }
  }

  lemma {:induction false} FilterPrefix<T(!new)>(s: seq<T>, i: nat, p: T -> bool)
    requires i < |s|
    ensures Filter(s[..i + 1], p) == Filter(s[..i], p) + if p(s[i]) then [s[i]] else []
  {
    assert s[..i + 1][..i] == s[..i];
  }

  lemma {:induction false} CountAppend<T(!new)>(s: seq<T>, t: seq<T>, p: T -> bool)
    ensures Count(s + t, p) == Count(s, p) + Count(t, p)
  {
    if t == [] {
      assert s + t == s;
    } else {
      assert (s + t)[..|s + t| - 1] == s + t[..|t| - 1];
      CountAppend(s, t[..|t| - 1], p);
    }
  }

  lemma {:induction false} CountPair<T(!new)>(s: seq<T>, x: T, y: T, p: T -> bool)
    ensures Count(s + [x, y], p) == Count(s, p) + (if p(x) then 1 else 0) + if p(y) then 1 else 0
  {
    assert (s + [x, y])[..|s| + 1] == s + [x];
    assert (s + [x])[..|s|] == s;
  }

  lemma {:induction false} CountCongruence<T(!new), U(!new)>(s: seq<T>, t: seq<U>, p: T -> bool, q: U -> bool)
    requires |s| == |t|
    requires forall i :: 0 <= i < |s| ==> p(s[i]) == q(t[i])
    ensures Count(s, p) == Count(t, q)
  {
    if s != [] { CountCongruence(s[..|s| - 1], t[..|t| - 1], p, q); }
  }

  lemma {:induction false} CountNone<T(!new)>(s: seq<T>, p: T -> bool)
    requires forall i :: 0 <= i < |s| ==> !p(s[i])
    ensures Count(s, p) == 0
  {
    if s != [] { CountNone(s[..|s| - 1], p); }
  }

  /** A condition met at exactly one position is counted once. */
  lemma {:induction false} CountUnique<T(!new)>(s: seq<T>, p: T -> bool, k: nat)
    requires k < |s| && p(s[k])
    requires forall i :: 0 <= i < |s| && p(s[i]) ==> i == k
    ensures Count(s, p) == 1
  {
    if k == |s| - 1 {
      CountNone(s[..k], p);
    } else {
      CountUnique(s[..|s| - 1], p, k);
    }
  }

  /** And the other way round. */
  lemma {:induction false} CountedOnce<T(!new)>(s: seq<T>, p: T -> bool, i: nat, j: nat)
    requires i < |s| && j < |s| && p(s[i]) && p(s[j]) && Count(s, p) <= 1
    ensures i == j
  {
    var init := s[..|s| - 1];
    if i < |init| && j < |init| {
      CountedOnce(init, p, i, j);
    } else if i != j {
      CountPositive(init, p, if i < j then i else j);
    }
  }

  lemma {:induction false} CountPositive<T(!new)>(s: seq<T>, p: T -> bool, i: nat)
    requires i < |s| && p(s[i])
    ensures Count(s, p) > 0
  {
    if i < |s| - 1 { CountPositive(s[..|s| - 1], p, i); }
  }

  /** Disjoint conditions count separately. */
  lemma {:induction false} CountSplit<T(!new)>(s: seq<T>, p: T -> bool, q: T -> bool, pq: T -> bool)
    requires forall i :: 0 <= i < |s| ==> pq(s[i]) == (p(s[i]) || q(s[i])) && !(p(s[i]) && q(s[i]))
    ensures Count(s, pq) == Count(s, p) + Count(s, q)
  {
    if s != [] { CountSplit(s[..|s| - 1], p, q, pq); }
  }

  lemma {:induction false} SumCongruence(n: nat, f: int -> int, g: int -> int)
    requires forall i :: 0 <= i < n ==> f(i) == g(i)
    ensures Sum(n, f) == Sum(n, g)
  {
    if n > 0 { SumCongruence(n - 1, f, g); }
  }

  lemma {:induction false} SumAdd(n: nat, f: int -> int, g: int -> int, h: int -> int)
    requires forall i :: 0 <= i < n ==> h(i) == f(i) + g(i)
    ensures Sum(n, h) == Sum(n, f) + Sum(n, g)
  {
    if n > 0 { SumAdd(n - 1, f, g, h); }
  }

  /** A sum with a single nonzero term. */
  lemma {:induction false} SumSingle(n: nat, f: int -> int, k: nat)
    requires k < n
    requires forall i :: 0 <= i < n && i != k ==> f(i) == 0
    ensures Sum(n, f) == f(k)
  {
    if k == n - 1 {
      SumCongruence(n - 1, f, _ => 0);
      SumZero(n - 1);
    } else {
      SumSingle(n - 1, f, k);
    }
  }

  lemma {:induction false} SumZero(n: nat)
    ensures Sum(n, _ => 0) == 0
  {
    if n > 0 { SumZero(n - 1); }
    SumCongruence(n, _ => 0, _ => 0);
  }

  function Flatten<T>(ss: seq<seq<T>>): seq<T> {
    if ss == [] then [] else Flatten(ss[..|ss| - 1]) + ss[|ss| - 1]
  }

  /** What one part holds c times and the others never, the whole holds c times. */
  lemma {:induction false} CountFlattenIn<T(!new)>(ss: seq<seq<T>>, p: T -> bool, k: nat, c: nat)
    requires forall j :: 0 <= j < |ss| ==> Count(ss[j], p) == if j == k then c else 0
    ensures Count(Flatten(ss), p) == if k < |ss| then c else 0
  {
    if ss != [] {
      CountFlattenIn(ss[..|ss| - 1], p, k, c);
      CountAppend(Flatten(ss[..|ss| - 1]), ss[|ss| - 1], p);
    }
  }

  lemma {:induction false} CountFlattenOnes<T(!new)>(ss: seq<seq<T>>, p: T -> bool)
    requires forall j :: 0 <= j < |ss| ==> Count(ss[j], p) == 1
    ensures Count(Flatten(ss), p) == |ss|
  {
    if ss != [] {
      CountFlattenOnes(ss[..|ss| - 1], p);
      CountAppend(Flatten(ss[..|ss| - 1]), ss[|ss| - 1], p);
    }
  }

  lemma {:induction false} InFlatten<T>(ss: seq<seq<T>>, x: T)
    requires x in Flatten(ss)
    ensures exists j :: 0 <= j < |ss| && x in ss[j]
  {
    if ss != [] && x !in ss[|ss| - 1] {
      InFlatten(ss[..|ss| - 1], x);
      var j :| 0 <= j < |ss| - 1 && x in ss[..|ss| - 1][j];
      assert x in ss[j];
    }
  }

  // ----- folds that do not depend on the order

  function Fold<A, T>(s: seq<T>, step: (A, T) -> A, start: A): A {
    if s == [] then start else step(Fold(s[..|s| - 1], step, start), s[|s| - 1])
  }

  ghost predicate Commutes<A(!new), T(!new)>(step: (A, T) -> A) {
    forall a, x, y :: step(step(a, x), y) == step(step(a, y), x)
  }

  lemma {:induction false} FoldPull<A(!new), T(!new)>(s: seq<T>, step: (A, T) -> A, start: A, i: nat)
    requires Commutes(step) && i < |s|
    ensures Fold(s, step, start) == step(Fold(s[..i] + s[i + 1..], step, start), s[i])
  {
    var rest := s[..i] + s[i + 1..];
    if i < |s| - 1 {
      var init, last := s[..|s| - 1], s[|s| - 1];
      assert init[..i] + init[i + 1..] == rest[..|rest| - 1];
      FoldPull(init, step, start, i);
      assert rest[|rest| - 1] == last;
    } else {
      assert rest == s[..i];
    }
  }

  lemma {:induction false} RemoveAt<T>(s: seq<T>, i: nat)
    requires i < |s|
    ensures multiset(s) == multiset(s[..i] + s[i + 1..]) + multiset{s[i]}
  {
    assert s == s[..i] + [s[i]] + s[i + 1..];
  }

  lemma {:induction false} FoldPermutation<A(!new), T(!new)>(s: seq<T>, t: seq<T>, step: (A, T) -> A, start: A)
    requires Commutes(step) && multiset(s) == multiset(t)
    ensures Fold(s, step, start) == Fold(t, step, start)
    decreases |s|
  {
    if s == [] {
      assert |multiset(t)| == 0;
    } else {
      var last := s[|s| - 1];
      var i := FindLast(s, t);
      var rest := t[..i] + t[i + 1..];
      FoldPermutation(s[..|s| - 1], rest, step, start);
      FoldPull(t, step, start, i);
    }
  }

  lemma {:induction false} FindLast<T>(s: seq<T>, t: seq<T>) returns (i: nat)
    requires s != [] && multiset(s) == multiset(t)
    ensures i < |t| && t[i] == s[|s| - 1]
    ensures multiset(s[..|s| - 1]) == multiset(t[..i] + t[i + 1..])
  {
    var init, last := s[..|s| - 1], s[|s| - 1];
    assert s == init + [last];
    assert last in multiset(t);
    i :| 0 <= i < |t| && t[i] == last;
    RemoveAt(t, i);
    assert multiset(init) == multiset(s) - multiset{last};
    assert multiset(t[..i] + t[i + 1..]) == multiset(t) - multiset{last};
  }

  /** The sum of f over a list. */
  function Total<T>(s: seq<T>, f: T -> int): int {
    if s == [] then 0 else Total(s[..|s| - 1], f) + f(s[|s| - 1])
  }

  lemma {:induction false} TotalIsFold<T(!new)>(s: seq<T>, f: T -> int)
    ensures Total(s, f) == Fold(s, (a: int, x: T) => a + f(x), 0)
  {
    if s != [] {
      TotalIsFold(s[..|s| - 1], f);
      var step := (a: int, x: T) => a + f(x);
      assert Fold(s, step, 0) == step(Fold(s[..|s| - 1], step, 0), s[|s| - 1]);
    }
  }

  lemma {:induction false} TotalPermutation<T(!new)>(s: seq<T>, t: seq<T>, f: T -> int)
    requires multiset(s) == multiset(t)
    ensures Total(s, f) == Total(t, f)
  {
    var step := (a: int, x: T) => a + f(x);
    FoldPermutation(s, t, step, 0);
    TotalIsFold(s, f);
    TotalIsFold(t, f);
  }

  lemma {:induction false} TotalCongruence<T(!new), U(!new)>(s: seq<T>, t: seq<U>, f: T -> int, g: U -> int)
    requires |s| == |t|
    requires forall i :: 0 <= i < |s| ==> f(s[i]) == g(t[i])
    ensures Total(s, f) == Total(t, g)
  {
    if s != [] { TotalCongruence(s[..|s| - 1], t[..|t| - 1], f, g); }
  }

  lemma {:induction false} TotalAdd<T(!new)>(s: seq<T>, f: T -> int, g: T -> int, h: T -> int)
    requires forall x :: h(x) == f(x) + g(x)
    ensures Total(s, h) == Total(s, f) + Total(s, g)
  {
    if s != [] { TotalAdd(s[..|s| - 1], f, g, h); }
  }

  lemma {:induction false} TotalZero<T(!new)>(s: seq<T>, f: T -> int)
    requires forall i :: 0 <= i < |s| ==> f(s[i]) == 0
    ensures Total(s, f) == 0
  {
    if s != [] { TotalZero(s[..|s| - 1], f); }
  }

  lemma {:induction false} TotalAppend<T(!new)>(s: seq<T>, t: seq<T>, f: T -> int)
    ensures Total(s + t, f) == Total(s, f) + Total(t, f)
  {
    if t == [] {
      assert s + t == s;
    } else {
      assert (s + t)[..|s + t| - 1] == s + t[..|t| - 1];
      TotalAppend(s, t[..|t| - 1], f);
    }
  }

  lemma {:induction false} TotalScale<T(!new)>(s: seq<T>, c: int, f: T -> int, h: T -> int)
    requires forall x :: h(x) == c * f(x)
    ensures Total(s, h) == c * Total(s, f)
  {
    if s != [] { TotalScale(s[..|s| - 1], c, f, h); }
  }

  lemma {:induction false} CountFilter<T(!new)>(s: seq<T>, p: T -> bool, q: T -> bool, pq: T -> bool)
    requires forall x :: pq(x) == (p(x) && q(x))
    ensures Count(Filter(s, p), q) == Count(s, pq)
  {
    if s != [] {
      var init, x := s[..|s| - 1], s[|s| - 1];
      CountFilter(init, p, q, pq);
      if p(x) {
        var r := Filter(init, p);
        assert (r + [x])[..|r|] == r;
      }
    }
  }

  lemma {:induction false} CountAll<T(!new)>(s: seq<T>, p: T -> bool)
    requires forall i :: 0 <= i < |s| ==> p(s[i])
    ensures Count(s, p) == |s|
  {
    if s != [] { CountAll(s[..|s| - 1], p); }
  }

  lemma {:induction false} CountAtMost<T(!new)>(s: seq<T>, p: T -> bool)
    ensures Count(s, p) <= |s|
  {
    if s != [] { CountAtMost(s[..|s| - 1], p); }
  }

  /** The sum of a real-valued f over a list. */
  function RealTotal<T>(s: seq<T>, f: T -> real): real {
    if s == [] then 0.0 else RealTotal(s[..|s| - 1], f) + f(s[|s| - 1])
  }

  lemma {:induction false} RealTotalIsFold<T(!new)>(s: seq<T>, f: T -> real)
    ensures RealTotal(s, f) == Fold(s, (a: real, x: T) => a + f(x), 0.0)
  {
    if s != [] {
      RealTotalIsFold(s[..|s| - 1], f);
      var step := (a: real, x: T) => a + f(x);
      assert Fold(s, step, 0.0) == step(Fold(s[..|s| - 1], step, 0.0), s[|s| - 1]);
    }
  }

  lemma {:induction false} RealTotalPermutation<T(!new)>(s: seq<T>, t: seq<T>, f: T -> real)
    requires multiset(s) == multiset(t)
    ensures RealTotal(s, f) == RealTotal(t, f)
  {
    var step := (a: real, x: T) => a + f(x);
    FoldPermutation(s, t, step, 0.0);
    RealTotalIsFold(s, f);
    RealTotalIsFold(t, f);
  }

  /** Summing fractions over one denominator. */
  lemma {:induction false} RealTotalFractions<T(!new), U(!new)>(s: seq<T>, t: seq<U>, f: T -> real, g: U -> int,
                                                d: real)
    requires |s| == |t| && d != 0.0
    requires forall i :: 0 <= i < |s| ==> f(s[i]) == g(t[i]) as real / d
    ensures RealTotal(s, f) == Total(t, g) as real / d
  {
    if s != [] {
      RealTotalFractions(s[..|s| - 1], t[..|t| - 1], f, g, d);
    }
  }

}
