/** Counting and filtering over sequences, and sums over finite sets: the vocabulary in which the
    counters of the evaluators, the categories of a rendered map, the bands of the risk model and the
    totals of the benchmark are specified. Sequences are taken apart at their end, as the loops that
    build them up do; a sum over a set does not depend on the order of its elements. */
module Counting {

  function CountIf<T>(xs: seq<T>, p: T -> bool): nat {
    if xs == [] then 0
    else CountIf(xs[..|xs| - 1], p) + if p(xs[|xs| - 1]) then 1 else 0
  }

  function Filter<T>(xs: seq<T>, p: T -> bool): seq<T> {
    if xs == [] then []
    else Filter(xs[..|xs| - 1], p) + if p(xs[|xs| - 1]) then [xs[|xs| - 1]] else []
  }

  function Repeat<T>(x: T, n: nat): seq<T> {
    seq(n, _ => x)
  }

  lemma RepeatSnoc<T>(x: T, n: nat)
    ensures Repeat(x, n + 1) == Repeat(x, n) + [x]
  {
  }

  lemma PrefixSnoc<T>(xs: seq<T>, i: nat)
    requires i < |xs|
    ensures xs[..i + 1] == xs[..i] + [xs[i]] && xs[..i + 1][..|xs[..i + 1]| - 1] == xs[..i]
  {
  }

  lemma CountSnoc<T>(xs: seq<T>, x: T, p: T -> bool)
    ensures CountIf(xs + [x], p) == CountIf(xs, p) + if p(x) then 1 else 0
  {
    assert (xs + [x])[..|xs|] == xs;
  }

  lemma FilterSnoc<T>(xs: seq<T>, x: T, p: T -> bool)
    ensures Filter(xs + [x], p) == Filter(xs, p) + if p(x) then [x] else []
  {
    assert (xs + [x])[..|xs|] == xs;
  }

  lemma {:induction false} CountConcat<T>(xs: seq<T>, ys: seq<T>, p: T -> bool)
    ensures CountIf(xs + ys, p) == CountIf(xs, p) + CountIf(ys, p)
    decreases |ys|
  {
    if ys == [] {
      assert xs + ys == xs;
    } else {
      var init := ys[..|ys| - 1];
      assert (xs + ys)[..|xs + ys| - 1] == xs + init;
      CountConcat(xs, init, p);
    }
  }

  lemma {:induction false} CountRepeat<T>(x: T, n: nat, p: T -> bool)
    ensures CountIf(Repeat(x, n), p) == if p(x) then n else 0
    decreases n
  {
    if n > 0 {
      assert Repeat(x, n) == Repeat(x, n - 1) + [x];
      CountSnoc(Repeat(x, n - 1), x, p);
      CountRepeat(x, n - 1, p);
    }
  }

  lemma {:induction false} FilterMember<T>(xs: seq<T>, p: T -> bool)
    ensures forall x :: x in Filter(xs, p) <==> x in xs && p(x)
    ensures |Filter(xs, p)| == CountIf(xs, p)
    decreases |xs|
  {
    if xs != [] {
      FilterMember(xs[..|xs| - 1], p);
      assert xs == xs[..|xs| - 1] + [xs[|xs| - 1]];
    }
  }

  lemma FilterNonEmpty<T>(xs: seq<T>, p: T -> bool)
    ensures Filter(xs, p) != [] <==> exists x :: x in xs && p(x)
  {
    FilterMember(xs, p);
    if Filter(xs, p) != [] { assert Filter(xs, p)[0] in Filter(xs, p); }
  }

  lemma {:induction false} FilterTwice<T(!new)>(xs: seq<T>, p: T -> bool, q: T -> bool, both: T -> bool)
    requires forall x :: both(x) <==> p(x) && q(x)
    ensures Filter(Filter(xs, p), q) == Filter(xs, both)
    decreases |xs|
  {
    if xs != [] {
      var init, last := xs[..|xs| - 1], xs[|xs| - 1];
      FilterTwice(init, p, q, both);
      if p(last) {
        assert Filter(xs, p) == Filter(init, p) + [last];
        FilterSnoc(Filter(init, p), last, q);
      } else {
        assert Filter(xs, p) == Filter(init, p);
      }
    }
  }

  /** Counts agree where the predicates do. */
  lemma {:induction false} CountAgree<T>(xs: seq<T>, p: T -> bool, q: T -> bool)
    requires forall x :: x in xs ==> p(x) == q(x)
    ensures CountIf(xs, p) == CountIf(xs, q)
    decreases |xs|
  {
    if xs != [] { CountAgree(xs[..|xs| - 1], p, q); }
  }

  lemma {:induction false} CountWeaker<T>(xs: seq<T>, p: T -> bool, q: T -> bool)
    requires forall x :: x in xs && p(x) ==> q(x)
    ensures CountIf(xs, p) <= CountIf(xs, q)
    decreases |xs|
  {
    if xs != [] { CountWeaker(xs[..|xs| - 1], p, q); }
  }

  /** A predicate that is the disjoint union of two others counts as their sum. */
  lemma {:induction false} CountSplit<T>(xs: seq<T>, p: T -> bool, q: T -> bool, r: T -> bool)
    requires forall x :: x in xs ==> (p(x) <==> q(x) || r(x)) && !(q(x) && r(x))
    ensures CountIf(xs, p) == CountIf(xs, q) + CountIf(xs, r)
    decreases |xs|
  {
    if xs != [] { CountSplit(xs[..|xs| - 1], p, q, r); }
  }

  lemma {:induction false} CountAll<T>(xs: seq<T>, p: T -> bool)
    requires forall x :: x in xs ==> p(x)
    ensures CountIf(xs, p) == |xs|
    decreases |xs|
  {
    if xs != [] { CountAll(xs[..|xs| - 1], p); }
  }

  lemma {:induction false} CountNone<T>(xs: seq<T>, p: T -> bool)
    requires forall x :: x in xs ==> !p(x)
    ensures CountIf(xs, p) == 0
    decreases |xs|
  {
    if xs != [] { CountNone(xs[..|xs| - 1], p); }
  }

  /** Counting does not depend on the order. */
  lemma {:induction false} CountPermutation<T>(xs: seq<T>, ys: seq<T>, p: T -> bool)
    requires multiset(xs) == multiset(ys)
    ensures CountIf(xs, p) == CountIf(ys, p)
    decreases |xs|
  {
    if xs == [] {
      assert |ys| == |multiset(ys)| == 0;
    } else {
      var init, last := xs[..|xs| - 1], xs[|xs| - 1];
      assert xs == init + [last];
      assert last in multiset(ys);
      var i :| 0 <= i < |ys| && ys[i] == last;
      TakeOut(xs, ys, i);
      CountPermutation(init, ys[..i] + ys[i + 1..], p);
      CountConcat(ys[..i] + [last], ys[i + 1..], p);
      CountSnoc(ys[..i], last, p);
      CountConcat(ys[..i], ys[i + 1..], p);
    }
  }

  /** Taking the last element of one permutation out of the other leaves permutations. */
  lemma TakeOut<T>(a: seq<T>, b: seq<T>, i: nat)
    requires a != [] && i < |b| && b[i] == a[|a| - 1] && multiset(a) == multiset(b)
    ensures multiset(a[..|a| - 1]) == multiset(b[..i] + b[i + 1..])
    ensures b == (b[..i] + [b[i]]) + b[i + 1..]
  {
    var init, front, back := a[..|a| - 1], b[..i], b[i + 1..];
    var rest := front + back;
    assert a == init + [b[i]];
    assert b == (front + [b[i]]) + back;
    assert multiset(a) == multiset(init) + multiset([b[i]]);
    assert multiset(b) == multiset(front + [b[i]]) + multiset(back);
    assert multiset(rest) == multiset(front) + multiset(back);
    assert multiset(b) == multiset(rest) + multiset([b[i]]);
    assert multiset(init) == multiset(a) - multiset([b[i]]);
    assert multiset(rest) == multiset(b) - multiset([b[i]]);
  }

  ghost function SumOver<K(!new)>(keys: set<K>, f: K -> int): int {
    if keys == {} then 0
    else var k :| k in keys; f(k) + SumOver(keys - {k}, f)
  }

  lemma {:induction false} SumOverRemove<K(!new)>(keys: set<K>, f: K -> int, k: K)
    requires k in keys
    ensures SumOver(keys, f) == f(k) + SumOver(keys - {k}, f)
    decreases |keys|
  {
    var picked :| picked in keys && SumOver(keys, f) == f(picked) + SumOver(keys - {picked}, f);
    if picked != k {
      SumOverRemove(keys - {picked}, f, k);
      SumOverRemove(keys - {k}, f, picked);
      assert keys - {picked} - {k} == keys - {k} - {picked};
    }
  }

  lemma {:induction false} SumOverAgree<K(!new)>(keys: set<K>, f: K -> int, g: K -> int)
    requires forall k :: k in keys ==> f(k) == g(k)
    ensures SumOver(keys, f) == SumOver(keys, g)
    decreases |keys|
  {
    if keys != {} {
      var k :| k in keys;
      SumOverRemove(keys, f, k);
      SumOverRemove(keys, g, k);
      SumOverAgree(keys - {k}, f, g);
    }
  }

  lemma {:induction false} SumOverPlus<K(!new)>(keys: set<K>, f: K -> int, g: K -> int, h: K -> int)
    requires forall k :: k in keys ==> h(k) == f(k) + g(k)
    ensures SumOver(keys, h) == SumOver(keys, f) + SumOver(keys, g)
    decreases |keys|
  {
    if keys != {} {
      var k :| k in keys;
      SumOverRemove(keys, f, k);
      SumOverRemove(keys, g, k);
      SumOverRemove(keys, h, k);
      SumOverPlus(keys - {k}, f, g, h);
    }
  }

  lemma {:induction false} SumOverZero<K(!new)>(keys: set<K>, f: K -> int)
    requires forall k :: k in keys ==> f(k) == 0
    ensures SumOver(keys, f) == 0
    decreases |keys|
  {
    if keys != {} {
      var k :| k in keys;
      SumOverRemove(keys, f, k);
      SumOverZero(keys - {k}, f);
    }
  }

  /** Summing a family over a larger set adds nothing where the family is zero. */
  lemma {:induction false} SumOverExtend<K(!new)>(keys: set<K>, more: set<K>, f: K -> int)
    requires keys <= more && forall k :: k in more - keys ==> f(k) == 0
    ensures SumOver(more, f) == SumOver(keys, f)
    decreases |more|
  {
    if more - keys == {} {
      assert more == keys;
    } else {
      var k :| k in more - keys;
      SumOverRemove(more, f, k);
      SumOverExtend(keys, more - {k}, f);
    }
  }

  lemma SumOverSingle<K(!new)>(keys: set<K>, f: K -> int, k: K)
    requires k in keys && forall j :: j in keys && j != k ==> f(j) == 0
    ensures SumOver(keys, f) == f(k)
  {
    SumOverRemove(keys, f, k);
    SumOverZero(keys - {k}, f);
  }

  lemma SumOverOneMore<K(!new)>(keys: set<K>, f: K -> int, k: K)
    requires k !in keys
    ensures SumOver(keys + {k}, f) == SumOver(keys, f) + f(k)
  {
    SumOverRemove(keys + {k}, f, k);
    assert keys + {k} - {k} == keys;
  }

  function InClassWeight<K, C(==)>(classOf: K -> C, c: C, w: K -> int): K -> int {
    k => if classOf(k) == c then w(k) else 0
  }

  ghost function ClassTotals<K(!new), C>(keys: set<K>, classOf: K -> C, w: K -> int): C -> int {
    c => SumOver(keys, InClassWeight(classOf, c, w))
  }

  function InClassOf<K, C(==)>(classOf: K -> C, w: K -> int, k: K): C -> int {
    c => InClassWeight(classOf, c, w)(k)
  }

  lemma ClassTotalsOneMore<K(!new), C(!new)>(keys: set<K>, classOf: K -> C, w: K -> int, k: K)
    requires k in keys
    ensures forall c :: ClassTotals(keys, classOf, w)(c) == ClassTotals(keys - {k}, classOf, w)(c) + InClassOf(classOf, w, k)(c)
  {
    forall c ensures ClassTotals(keys, classOf, w)(c) == ClassTotals(keys - {k}, classOf, w)(c) + InClassOf(classOf, w, k)(c) {
      SumOverRemove(keys, InClassWeight(classOf, c, w), k);
    }
  }

  /** Adding up class totals is adding up everything. */
  lemma {:induction false} SumByClass<K(!new), C(!new)>(keys: set<K>, classes: set<C>, classOf: K -> C, w: K -> int)
    requires forall k :: k in keys ==> classOf(k) in classes
    ensures SumOver(classes, ClassTotals(keys, classOf, w)) == SumOver(keys, w)
    decreases |keys|
  {
    if keys == {} {
      SumOverZero(classes, ClassTotals(keys, classOf, w));
    } else {
      var k :| k in keys;
      var rest, here := keys - {k}, InClassOf(classOf, w, k);
      SumByClass(rest, classes, classOf, w);
      ClassTotalsOneMore(keys, classOf, w, k);
      SumOverPlus(classes, ClassTotals(rest, classOf, w), here, ClassTotals(keys, classOf, w));
      SumOverSingle(classes, here, classOf(k));
      SumOverRemove(keys, w, k);
    }
  }

  function ClassCount<T, K(==)>(xs: seq<T>, key: T -> K, p: T -> bool): K -> int {
    k => CountIf(xs, InClass(key, k, p))
  }

  function InClass<T, K(==)>(key: T -> K, k: K, p: T -> bool): T -> bool {
    x => key(x) == k && p(x)
  }

  /** Counting class by class and adding up is counting once. */
  lemma {:induction false} CountByKey<T, K(!new)>(xs: seq<T>, keys: set<K>, key: T -> K, p: T -> bool)
    requires forall x :: x in xs && p(x) ==> key(x) in keys
    ensures SumOver(keys, ClassCount(xs, key, p)) == CountIf(xs, p)
    decreases |xs|
  {
    if xs == [] {
      SumOverZero(keys, ClassCount(xs, key, p));
    } else {
      var init, last := xs[..|xs| - 1], xs[|xs| - 1];
      CountByKey(init, keys, key, p);
      var here := k => if key(last) == k && p(last) then 1 else 0;
      SumOverPlus(keys, ClassCount(init, key, p), here, ClassCount(xs, key, p));
      if p(last) {
        SumOverRemove(keys, here, key(last));
        SumOverZero(keys - {key(last)}, here);
      } else {
        SumOverZero(keys, here);
      }
    }
  }

  lemma {:induction false} CountSome<T>(xs: seq<T>, x: T, p: T -> bool)
    requires x in xs && p(x)
    ensures CountIf(xs, p) >= 1
    decreases |xs|
  {
    if xs[|xs| - 1] != x { CountSome(xs[..|xs| - 1], x, p); }
  }
}
