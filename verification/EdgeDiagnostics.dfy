/** The two diagnostics of evaluate_edges (scripts/sot_evaluator.py) beside its exact recall: the share of
    identities found at any line, and the share of positives that the old matcher of three tiers accepts.
    How they compare with the exact recall, and that they too are indifferent to order. Recalls are
    compared by cross-multiplication. */
module EdgeDiagnostics {
  import opened Arithmetic
  import opened Counting
  import opened EdgeOracle
  import opened EdgeEvaluation

  /** Groups with a database edge of their identity, at whatever line. */
  function Identities(pos: seq<EdgeTruth>, db: seq<DbEdge>): nat {
    CountIf(KeysInOrder(pos), k => InDb(db, k))
  }

  function Loose(pos: seq<EdgeTruth>, db: seq<DbEdge>): nat {
    CountIf(pos, (t: EdgeTruth) => LooseHit(db, t))
  }

  /** Exact recall, a share of the positives, is at most identity recall, a share of the groups. */
  predicate IdentityRecallIsHigher(truths: seq<EdgeTruth>, db: seq<DbEdge>) {
    var pos := Of(truths, StaticPositive);
    TruePositives(truths, db) * |KeysInOrder(pos)| <= Identities(pos, db) * |pos|
  }

  /** Some database edge can hit the group. */
  predicate Hittable(pos: seq<EdgeTruth>, k: Key) {
    exists t :: t in pos && t.key == k && t.line.Some?
  }

  /** The group has no more positives than the average group. */
  predicate NotAboveAverage(pos: seq<EdgeTruth>, k: Key) {
    |WithKey(pos, k)| * |KeysInOrder(pos)| <= |pos|
  }

  // ---- When the identity recall is the higher one -----------------------------------------------

  lemma {:induction false} ShareOfGroups(pos: seq<EdgeTruth>, db: seq<DbEdge>, order: seq<Key>, n: nat)
    requires Distinct(order)
    requires forall k :: k in order && GroupHit(pos, db, k) ==> |WithKey(pos, k)| * n <= |pos|
    ensures Covered(pos, order, Hit(pos, db)) * n <= CountIf(order, k => InDb(db, k)) * |pos|
    decreases |order|
  {
    if order == [] {
      CountNone(pos, (t: EdgeTruth) => t.key in order && Hit(pos, db)(t.key));
    } else {
      var init, k := order[..|order| - 1], order[|order| - 1];
      assert order == init + [k];
      ShareOfGroups(pos, db, init, n);
      OneMoreGroup(pos, init, k, Hit(pos, db));
      LastWithMeaning(db, k);
      var more := if GroupHit(pos, db, k) then |WithKey(pos, k)| else 0;
      OneMoreShare(Covered(pos, init, Hit(pos, db)), more, n, CountIf(init, k => InDb(db, k)), |pos|);
    }
  }

  lemma SmallGroupsSuffice(truths: seq<EdgeTruth>, db: seq<DbEdge>)
    requires var pos := Of(truths, StaticPositive);
             forall k :: k in KeysInOrder(pos) && Hittable(pos, k) ==> NotAboveAverage(pos, k)
    ensures IdentityRecallIsHigher(truths, db)
  {
    var pos := Of(truths, StaticPositive);
    var order := KeysInOrder(pos);
    KeysAreDistinct(pos);
    EveryGroup(pos, db, order);
    forall k | k in order && GroupHit(pos, db, k) ensures |WithKey(pos, k)| * |order| <= |pos| {
      assert Hittable(pos, k);
      assert NotAboveAverage(pos, k);
    }
    ShareOfGroups(pos, db, order, |order|);
  }

  /** Finding one group alone scores its share of the positives, and one group of all groups. */
  lemma OneGroupAlone(truths: seq<EdgeTruth>, t: EdgeTruth)
    requires t in Of(truths, StaticPositive) && t.line.Some?
    ensures var pos, db := Of(truths, StaticPositive), [DbEdge(t.key, t.line)];
            TruePositives(truths, db) == |WithKey(pos, t.key)| && Identities(pos, db) == 1
  {
    var pos, e := Of(truths, StaticPositive), DbEdge(t.key, t.line);
    var db := [e];
    assert e in db;
    forall k ensures (InDb(db, k) <==> k == t.key) && (GroupHit(pos, db, k) <==> k == t.key) {
      assert LastWith(db, k) == if k == t.key then Some(e) else LastWith(db[..0], k);
    }
    CountAgree(pos, (x: EdgeTruth) => GroupHit(pos, db, x.key), (x: EdgeTruth) => x.key == t.key);
    FilterMember(pos, (x: EdgeTruth) => x.key == t.key);
    KeysAreDistinct(pos);
    CountAgree(KeysInOrder(pos), k => InDb(db, k), Is(t.key));
    assert HasKey(pos, t.key);
    CountOnce(KeysInOrder(pos), t.key);
  }

  function Is<T(==)>(x: T): T -> bool {
    y => y == x
  }

  lemma {:induction false} CountOnce<T>(xs: seq<T>, x: T)
    requires Distinct(xs)
    ensures CountIf(xs, Is(x)) == if x in xs then 1 else 0
    decreases |xs|
  {
    if xs != [] {
      var init, last := xs[..|xs| - 1], xs[|xs| - 1];
      assert xs == init + [last];
      CountOnce(init, x);
    }
  }

  /** Whatever the extractor finds, identity recall is at least the exact recall if and only if no group
      that can be hit has more positives than the average group. */
  lemma IdentityRecallIsHigherIff(truths: seq<EdgeTruth>)
    ensures var pos := Of(truths, StaticPositive);
            (forall db :: IdentityRecallIsHigher(truths, db))
            <==> forall k :: k in KeysInOrder(pos) && Hittable(pos, k) ==> NotAboveAverage(pos, k)
  {
    var pos := Of(truths, StaticPositive);
    if forall k :: k in KeysInOrder(pos) && Hittable(pos, k) ==> NotAboveAverage(pos, k) {
      forall db ensures IdentityRecallIsHigher(truths, db) { SmallGroupsSuffice(truths, db); }
    }
    if forall db :: IdentityRecallIsHigher(truths, db) {
      forall k | k in KeysInOrder(pos) && Hittable(pos, k) ensures NotAboveAverage(pos, k) {
        var t :| t in pos && t.key == k && t.line.Some?;
        OneGroupAlone(truths, t);
        assert IdentityRecallIsHigher(truths, [DbEdge(k, t.line)]);
      }
    }
  }

  // ---- What holds of every report -----------------------------------------------------------------

  /** No more groups are identified than there are; all of them are iff every positive is in the
      database by identity; a perfect exact recall makes both diagnostics perfect; and the loose count
      is never below the true positives. */
  lemma DiagnosticsBounded(truths: seq<EdgeTruth>, db: seq<DbEdge>)
    ensures var pos := Of(truths, StaticPositive);
            var groups := |KeysInOrder(pos)|;
            && Identities(pos, db) <= groups
            && (Identities(pos, db) == groups <==> forall t: EdgeTruth :: t in pos ==> InDb(db, t.key))
            && TruePositives(truths, db) <= Loose(pos, db) <= |pos|
            && (TruePositives(truths, db) == |pos| ==> Identities(pos, db) == groups && Loose(pos, db) == |pos|)
  {
    var pos := Of(truths, StaticPositive);
    var order, known := KeysInOrder(pos), k => InDb(db, k);
    MatchersNested(truths, db);
    KeysAreDistinct(pos);
    CountIsFull(order, known);
    CountIsFull(pos, (t: EdgeTruth) => LooseHit(db, t));
    CountIsFull(pos, (t: EdgeTruth) => InDb(db, t.key));
    assert (forall k :: k in order ==> InDb(db, k)) <==> forall t: EdgeTruth :: t in pos ==> InDb(db, t.key) by {
      if forall k :: k in order ==> InDb(db, k) {
        forall t: EdgeTruth | t in pos ensures InDb(db, t.key) { assert HasKey(pos, t.key); }
      }
    }
  }

  lemma {:induction false} CountIsFull<T>(xs: seq<T>, p: T -> bool)
    ensures CountIf(xs, p) <= |xs| && (CountIf(xs, p) == |xs| <==> forall x :: x in xs ==> p(x))
    decreases |xs|
  {
    if xs != [] {
      assert xs == xs[..|xs| - 1] + [xs[|xs| - 1]];
      CountIsFull(xs[..|xs| - 1], p);
    }
  }

  /** The diagnostics, too, are the same for any order of the truths and of the edges. */
  lemma DiagnosticsIgnoreOrder(truths: seq<EdgeTruth>, truths': seq<EdgeTruth>, db: seq<DbEdge>, db': seq<DbEdge>)
    requires multiset(truths) == multiset(truths') && multiset(db) == multiset(db')
    ensures var pos, pos' := Of(truths, StaticPositive), Of(truths', StaticPositive);
            && |KeysInOrder(pos)| == |KeysInOrder(pos')| && Identities(pos, db) == Identities(pos', db')
            && Loose(pos, db) == Loose(pos', db')
  {
    var pos, pos' := Of(truths, StaticPositive), Of(truths', StaticPositive);
    var order, order' := KeysInOrder(pos), KeysInOrder(pos');
    FilterPermutation(truths, truths', StaticPositive);
    SameElements(pos, pos');
    SameElements(db, db');
    KeysAreDistinct(pos);
    KeysAreDistinct(pos');
    forall k ensures HasKey(pos, k) == HasKey(pos', k) {}
    DistinctPermutation(order, order');
    assert |multiset(order)| == |order| && |multiset(order')| == |order'|;
    forall k ensures InDb(db, k) == InDb(db', k) {}
    CountPermutation(order, order', k => InDb(db, k));
    CountAgree(order', k => InDb(db, k), k => InDb(db', k));
    forall t: EdgeTruth ensures LooseHit(db, t) == LooseHit(db', t) {}
    CountPermutation(pos, pos', (t: EdgeTruth) => LooseHit(db, t));
    CountAgree(pos', (t: EdgeTruth) => LooseHit(db, t), (t: EdgeTruth) => LooseHit(db', t));
  }

  lemma DistinctPermutation<T>(xs: seq<T>, ys: seq<T>)
    requires Distinct(xs) && Distinct(ys) && forall x :: x in xs <==> x in ys
    ensures multiset(xs) == multiset(ys)
  {
    DistinctMultiset(xs);
    DistinctMultiset(ys);
  }

  lemma {:induction false} DistinctMultiset<T>(xs: seq<T>)
    requires Distinct(xs)
    ensures forall x :: multiset(xs)[x] == if x in xs then 1 else 0
    decreases |xs|
  {
    if xs != [] {
      var init, last := xs[..|xs| - 1], xs[|xs| - 1];
      assert xs == init + [last];
      DistinctMultiset(init);
    }
  }

  // ---- A report in which the order is reversed -------------------------------------------------

  const TWICE := Key("a.py", "f", "calls", "g", "b.py")

  const ONCE := Key("a.py", "f", "calls", "h", "b.py")

  const THREE_CALLS := [
    EdgeTruth(TWICE, Some(1), "python", StaticPositive), EdgeTruth(TWICE, Some(2), "python", StaticPositive),
    EdgeTruth(ONCE, Some(3), "python", StaticPositive)]

  lemma ThreePositives()
    ensures Of(THREE_CALLS, StaticPositive) == THREE_CALLS
  {
    EveryOne(THREE_CALLS, (t: EdgeTruth) => t.polarity == StaticPositive);
  }

  lemma {:induction false} EveryOne<T>(xs: seq<T>, p: T -> bool)
    requires forall x :: x in xs ==> p(x)
    ensures Filter(xs, p) == xs
    decreases |xs|
  {
    if xs != [] {
      var init := xs[..|xs| - 1];
      assert xs == init + [xs[|xs| - 1]];
      EveryOne(init, p);
    }
  }

  lemma TwoUnderOneKey()
    ensures |WithKey(THREE_CALLS, TWICE)| == 2
  {
    var same := (t: EdgeTruth) => t.key == TWICE;
    var two := THREE_CALLS[..2];
    assert THREE_CALLS == two + [THREE_CALLS[2]];
    FilterSnoc(two, THREE_CALLS[2], same);
    EveryOne(two, same);
  }

  lemma KeysSnoc(pos: seq<EdgeTruth>, t: EdgeTruth)
    ensures KeysInOrder(pos + [t])
            == if t.key in KeysInOrder(pos) then KeysInOrder(pos) else KeysInOrder(pos) + [t.key]
  {
    assert (pos + [t])[..|pos|] == pos;
  }

  lemma TwoKeys()
    ensures |KeysInOrder(THREE_CALLS)| == 2
  {
    var a, b, c := THREE_CALLS[0], THREE_CALLS[1], THREE_CALLS[2];
    KeysSnoc([], a);
    KeysSnoc([] + [a], b);
    KeysSnoc([] + [a] + [b], c);
    assert THREE_CALLS == [] + [a] + [b] + [c];
  }

  /** Two of three positives found, but one of two groups: the exact recall is the higher one. */
  lemma ExactRecallCanBeHigher()
    ensures var db := [DbEdge(TWICE, Some(1))];
            var pos := Of(THREE_CALLS, StaticPositive);
            && TruePositives(THREE_CALLS, db) == 2 && |pos| == 3
            && Identities(pos, db) == 1 && |KeysInOrder(pos)| == 2
            && !IdentityRecallIsHigher(THREE_CALLS, db)
  {
    ThreePositives();
    TwoUnderOneKey();
    TwoKeys();
    OneGroupAlone(THREE_CALLS, THREE_CALLS[0]);
  }
}
