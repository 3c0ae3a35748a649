/** Where evaluate_edges attributes what it counts, in plain terms. */
module EdgeSlots {
  import opened Counting
  import opened EdgeOracle
  import opened EdgeEvaluation

  // The slots of a language and a relation, the reason given for a miss, and the confusion list.

  // ---- Slots --------------------------------------------------------------------------------

  type Bucket = (string, string)

  predicate FiledUnder(t: EdgeTruth, b: Bucket) {
    t.language == b.0 && t.key.relation == b.1
  }

  /** The first positive of that identity is of the language and the relation. */
  predicate GroupFiledUnder(pos: seq<EdgeTruth>, k: Key, b: Bucket) {
    exists i :: 0 <= i < |pos| && pos[i].key == k && FiledUnder(pos[i], b) && forall j :: 0 <= j < i ==> pos[j].key != k
  }

  function HitUnder(pos: seq<EdgeTruth>, db: seq<DbEdge>, b: Bucket, hit: bool): Key -> bool {
    k => GroupBucket(pos, k) == b && GroupHit(pos, db, k) == hit
  }

  function KindOfHit(hit: bool): Kind {
    if hit then Tp else Fn
  }

  lemma PositiveHitsSnoc(pos: seq<EdgeTruth>, db: seq<DbEdge>, init: seq<Key>, k: Key, b: Bucket, hit: bool)
    ensures Hits(PositiveLog(pos, db, init + [k]), b, KindOfHit(hit))
            == Hits(PositiveLog(pos, db, init), b, KindOfHit(hit)) + if HitUnder(pos, db, b, hit)(k) then |WithKey(pos, k)| else 0
  {
    var e, n := Event(GroupBucket(pos, k), if GroupHit(pos, db, k) then Tp else Fn), |WithKey(pos, k)|;
    var kind := KindOfHit(hit);
    assert (init + [k])[..|init|] == init;
    CountConcat(PositiveLog(pos, db, init), Repeat(e, n), (x: Event) => x.bucket == b && x.kind == kind);
    CountRepeat(e, n, (x: Event) => x.bucket == b && x.kind == kind);
  }

  lemma {:induction false} PositiveHits(pos: seq<EdgeTruth>, db: seq<DbEdge>, order: seq<Key>, b: Bucket, hit: bool)
    requires Distinct(order)
    ensures Hits(PositiveLog(pos, db, order), b, KindOfHit(hit)) == Covered(pos, order, HitUnder(pos, db, b, hit))
    decreases |order|
  {
    if order == [] {
      CountNone(pos, (t: EdgeTruth) => t.key in order && HitUnder(pos, db, b, hit)(t.key));
    } else {
      var init, k := order[..|order| - 1], order[|order| - 1];
      assert order == init + [k];
      PositiveHits(pos, db, init, b, hit);
      PositiveHitsSnoc(pos, db, init, k, b, hit);
      OneMoreGroup(pos, init, k, HitUnder(pos, db, b, hit));
    }
  }

  lemma {:induction false} PositivesLogNoOther(pos: seq<EdgeTruth>, db: seq<DbEdge>, order: seq<Key>, b: Bucket, kind: Kind)
    requires !kind.Tp? && !kind.Fn?
    ensures Hits(PositiveLog(pos, db, order), b, kind) == 0
  {
    PositivesOnly(pos, db, order, kind);
    HitsBelowKinds(PositiveLog(pos, db, order), b, kind);
  }

  lemma HitsBelowKinds(log: seq<Event>, b: Bucket, kind: Kind)
    ensures Hits(log, b, kind) <= Kinds(log, kind)
  {
    CountWeaker(log, (e: Event) => e.bucket == b && e.kind == kind, (e: Event) => e.kind == kind);
  }

  lemma {:induction false} NegativeHits(neg: seq<EdgeTruth>, db: seq<DbEdge>, b: Bucket)
    ensures Hits(NegativeLog(neg, db), b, FpNegative) == CountIf(neg, (t: EdgeTruth) => FiledUnder(t, b) && InDb(db, t.key))
    ensures Hits(NegativeLog(neg, db), b, Tn) == CountIf(neg, (t: EdgeTruth) => FiledUnder(t, b) && !InDb(db, t.key))
    decreases |neg|
  {
    if neg != [] {
      var init, t := neg[..|neg| - 1], neg[|neg| - 1];
      NegativeHits(init, db, b);
      var e := Event((t.language, t.key.relation), if InDb(db, t.key) then FpNegative else Tn);
      CountSnoc(NegativeLog(init, db), e, (x: Event) => x.bucket == b && x.kind == FpNegative);
      CountSnoc(NegativeLog(init, db), e, (x: Event) => x.bucket == b && x.kind == Tn);
    }
  }

  lemma {:induction false} UnexpectedHits(truths: seq<EdgeTruth>, db: seq<DbEdge>, seen: seq<DbEdge>, languageOf: string -> string, b: Bucket)
    ensures Hits(UnexpectedLog(truths, db, seen, languageOf), b, FpUnexpected)
            == CountIf(seen, (e: DbEdge) => (languageOf(e.key.path), "calls") == b && IsUnexpected(truths, db, e))
    decreases |seen|
  {
    if seen != [] {
      var init, e := seen[..|seen| - 1], seen[|seen| - 1];
      UnexpectedHits(truths, db, init, languageOf, b);
      if IsUnexpected(truths, db, e) {
        var ev := Event((languageOf(e.key.path), "calls"), FpUnexpected);
        CountSnoc(UnexpectedLog(truths, db, init, languageOf), ev, (x: Event) => x.bucket == b && x.kind == FpUnexpected);
      } else {
        assert UnexpectedLog(truths, db, seen, languageOf) == UnexpectedLog(truths, db, init, languageOf);
      }
    }
  }

  /** A filtered sequence begins with the first element that qualifies. */
  lemma {:induction false} FilterBegins<T>(xs: seq<T>, p: T -> bool, i: nat)
    requires i < |xs| && p(xs[i]) && forall j :: 0 <= j < i ==> !p(xs[j])
    ensures Filter(xs, p) != [] && Filter(xs, p)[0] == xs[i]
    decreases |xs|
  {
    var init := xs[..|xs| - 1];
    if i < |init| {
      FilterBegins(init, p, i);
    } else {
      NoneQualifies(init, p);
    }
  }

  lemma {:induction false} NoneQualifies<T>(xs: seq<T>, p: T -> bool)
    requires forall j :: 0 <= j < |xs| ==> !p(xs[j])
    ensures Filter(xs, p) == []
    decreases |xs|
  {
    if xs != [] { NoneQualifies(xs[..|xs| - 1], p); }
  }

  /** A key that occurs has a first occurrence. */
  lemma {:induction false} FirstPositive(pos: seq<EdgeTruth>, k: Key, n: nat) returns (i: nat)
    requires n < |pos| && pos[n].key == k
    ensures i < |pos| && pos[i].key == k && forall j :: 0 <= j < i ==> pos[j].key != k
    decreases n
  {
    if j :| 0 <= j < n && pos[j].key == k {
      i := FirstPositive(pos, k, j);
    } else {
      i := n;
    }
  }

  lemma BucketOfMember(pos: seq<EdgeTruth>, t: EdgeTruth, b: Bucket)
    requires t in pos
    ensures GroupBucket(pos, t.key) == b <==> GroupFiledUnder(pos, t.key, b)
  {
    var n :| 0 <= n < |pos| && pos[n] == t;
    var i := FirstPositive(pos, t.key, n);
    FilterBegins(pos, (u: EdgeTruth) => u.key == t.key, i);
    assert WithKey(pos, t.key)[0] == pos[i];
    if GroupFiledUnder(pos, t.key, b) {
      var m :| 0 <= m < |pos| && pos[m].key == t.key && FiledUnder(pos[m], b) && forall j :: 0 <= j < m ==> pos[j].key != t.key;
      assert m == i;
    }
  }

  lemma PositivesUnder(pos: seq<EdgeTruth>, db: seq<DbEdge>, b: Bucket, hit: bool)
    ensures Covered(pos, KeysInOrder(pos), HitUnder(pos, db, b, hit))
            == CountIf(pos, (t: EdgeTruth) => GroupFiledUnder(pos, t.key, b) && GroupHit(pos, db, t.key) == hit)
  {
    var order, h := KeysInOrder(pos), HitUnder(pos, db, b, hit);
    KeysAreDistinct(pos);
    forall t: EdgeTruth | t in pos
      ensures (t.key in order && h(t.key)) == (GroupFiledUnder(pos, t.key, b) && GroupHit(pos, db, t.key) == hit)
    {
      assert HasKey(pos, t.key);
      BucketOfMember(pos, t, b);
    }
    CountAgree(pos, (t: EdgeTruth) => t.key in order && h(t.key),
               (t: EdgeTruth) => GroupFiledUnder(pos, t.key, b) && GroupHit(pos, db, t.key) == hit);
  }

  lemma HitsOfLogs(a: seq<Event>, b: seq<Event>, c: seq<Event>, bucket: Bucket, kind: Kind)
    ensures Hits(a + b + c, bucket, kind) == Hits(a, bucket, kind) + Hits(b, bucket, kind) + Hits(c, bucket, kind)
  {
    CountConcat(a + b, c, (e: Event) => e.bucket == bucket && e.kind == kind);
    CountConcat(a, b, (e: Event) => e.bucket == bucket && e.kind == kind);
  }

  lemma NoOtherHits(truths: seq<EdgeTruth>, db: seq<DbEdge>, languageOf: string -> string, b: Bucket)
    ensures var neg := NegativeLog(Of(truths, StaticNegative), db);
            Hits(neg, b, Tp) == 0 && Hits(neg, b, Fn) == 0 && Hits(neg, b, FpUnexpected) == 0
    ensures var un := UnexpectedLog(truths, db, db, languageOf);
            Hits(un, b, Tp) == 0 && Hits(un, b, Fn) == 0 && Hits(un, b, FpNegative) == 0 && Hits(un, b, Tn) == 0
  {
    var neg, un := NegativeLog(Of(truths, StaticNegative), db), UnexpectedLog(truths, db, db, languageOf);
    NegativeLogCounts(Of(truths, StaticNegative), db);
    UnexpectedLogCounts(truths, db, db, languageOf);
    forall kind ensures Hits(neg, b, kind) <= Kinds(neg, kind) && Hits(un, b, kind) <= Kinds(un, kind) {
      HitsBelowKinds(neg, b, kind);
      HitsBelowKinds(un, b, kind);
    }
  }

  /** Each slot holds the hits and misses of the positives of its language and relation, where one identity
      has the language of its first positive; the negatives of them that are in the database or not; and,
      under calls, the unexpected edges of files in that language. */
  lemma SlotsAttribute(truths: seq<EdgeTruth>, db: seq<DbEdge>, languageOf: string -> string, b: Bucket)
    ensures var pos, neg := Of(truths, StaticPositive), Of(truths, StaticNegative);
            var slot := SlotOf(FullLog(truths, db, languageOf), b);
            && slot.tp == CountIf(pos, (t: EdgeTruth) => GroupFiledUnder(pos, t.key, b) && GroupHit(pos, db, t.key) == true)
            && slot.fn == CountIf(pos, (t: EdgeTruth) => GroupFiledUnder(pos, t.key, b) && GroupHit(pos, db, t.key) == false)
            && slot.tn == CountIf(neg, (t: EdgeTruth) => FiledUnder(t, b) && !InDb(db, t.key))
            && slot.fp == CountIf(neg, (t: EdgeTruth) => FiledUnder(t, b) && InDb(db, t.key))
                          + CountIf(db, (e: DbEdge) => (languageOf(e.key.path), "calls") == b && CountsAgainst(truths, db, e.key))
  {
    var pos, neg := Of(truths, StaticPositive), Of(truths, StaticNegative);
    var order := KeysInOrder(pos);
    var p, n, u := PositiveLog(pos, db, order), NegativeLog(neg, db), UnexpectedLog(truths, db, db, languageOf);
    forall kind { HitsOfLogs(p, n, u, b, kind); }
    NoOtherHits(truths, db, languageOf, b);
    PositivesLogNoOther(pos, db, order, b, FpNegative);
    PositivesLogNoOther(pos, db, order, b, FpUnexpected);
    PositivesLogNoOther(pos, db, order, b, Tn);
    KeysAreDistinct(pos);
    PositiveHits(pos, db, order, b, true);
    PositiveHits(pos, db, order, b, false);
    PositivesUnder(pos, db, b, true);
    PositivesUnder(pos, db, b, false);
    NegativeHits(neg, db, b);
    UnexpectedHits(truths, db, db, languageOf, b);
    UnexpectedUnder(truths, db, languageOf, b);
  }

  lemma UnexpectedUnder(truths: seq<EdgeTruth>, db: seq<DbEdge>, languageOf: string -> string, b: Bucket)
    ensures CountIf(db, (e: DbEdge) => (languageOf(e.key.path), "calls") == b && IsUnexpected(truths, db, e))
            == CountIf(db, (e: DbEdge) => (languageOf(e.key.path), "calls") == b && CountsAgainst(truths, db, e.key))
  {
    forall e: DbEdge | e in db ensures IsUnexpected(truths, db, e) <==> CountsAgainst(truths, db, e.key) {
      IsUnexpectedIff(truths, db, e);
    }
    CountAgree(db, (e: DbEdge) => (languageOf(e.key.path), "calls") == b && IsUnexpected(truths, db, e),
               (e: DbEdge) => (languageOf(e.key.path), "calls") == b && CountsAgainst(truths, db, e.key));
  }

  // ---- Reasons ------------------------------------------------------------------------------

  /** An edge from the same place, under the same relation, to a target of the same last name. */
  predicate Collides(k: Key, e: Key) {
    e.path == k.path && e.src == k.src && e.relation == k.relation && Bare(e.dst) == Bare(k.dst)
  }

  /** Each reason given for a miss, in terms of the rows there are. */
  lemma ReasonsMean(db: seq<DbEdge>, pending: seq<PendingEdge>, k: Key)
    ensures var own, why := (exists e :: e in db && e.key == k), Why(db, pending, k);
            var here := exists e :: e in db && Collides(k, e.key) && e.key.dstPath == k.dstPath;
            var elsewhere := exists e :: e in db && Collides(k, e.key);
            var renamed := exists e :: e in db && e.key.relation != k.relation && e.key == k.(relation := e.key.relation);
            var waiting := exists p :: p in pending && p.path == k.path && p.src == k.src && Bare(p.dstSymbol) == Bare(k.dst);
            && (why == SpanMismatch <==> own)
            && (why == IdentityUnqualified <==> !own && here)
            && (why == WrongTarget <==> !own && elsewhere && !here)
            && (why == WrongRelation <==> !own && !elsewhere && renamed)
            && (why == PendingUnresolved <==> !own && !elsewhere && !renamed && waiting)
            && (why == EdgeAbsent <==> !own && !elsewhere && !renamed && !waiting)
  {
    forall e: DbEdge ensures SameBare(SourceOf(k), k.dst, e) <==> Collides(k, e.key) {}
    forall e: DbEdge ensures OtherRelation(k, e) <==> e.key.relation != k.relation && e.key == k.(relation := e.key.relation) {}
    forall p: PendingEdge ensures AwaitsTarget(k, p) <==> p.path == k.path && p.src == k.src && Bare(p.dstSymbol) == Bare(k.dst) {}
  }

  /** A dynamic truth counts as claimed when the database has its identity, as misresolved when it has not
      but some edge collides with it, and else as unclaimed. */
  lemma DynamicCountsMean(truths: seq<EdgeTruth>, db: seq<DbEdge>)
    ensures var dynamic := Of(truths, DynamicPositive);
            && ExactClaims(truths, db) == CountIf(dynamic, (t: EdgeTruth) => exists e :: e in db && e.key == t.key)
            && Misresolutions(truths, db) == CountIf(dynamic, (t: EdgeTruth) =>
                 (forall e :: e in db ==> e.key != t.key) && exists e :: e in db && Collides(t.key, e.key))
            && Unclaimed(truths, db) == CountIf(dynamic, (t: EdgeTruth) =>
                 forall e :: e in db ==> e.key != t.key && !Collides(t.key, e.key))
  {
    var dynamic := Of(truths, DynamicPositive);
    forall t: EdgeTruth, e: DbEdge ensures SameBare(SourceOf(t.key), t.key.dst, e) <==> Collides(t.key, e.key) {}
    CountAgree(dynamic, (t: EdgeTruth) => InDb(db, t.key), (t: EdgeTruth) => exists e :: e in db && e.key == t.key);
    CountAgree(dynamic, (t: EdgeTruth) => ClaimedElsewhere(db, t), (t: EdgeTruth) =>
      (forall e :: e in db ==> e.key != t.key) && exists e :: e in db && Collides(t.key, e.key));
    CountAgree(dynamic, (t: EdgeTruth) => !InDb(db, t.key) && !ClaimedElsewhere(db, t), (t: EdgeTruth) =>
      forall e :: e in db ==> e.key != t.key && !Collides(t.key, e.key));
  }

  // ---- Entries of the confusion list ------------------------------------------------------------

  /** The first row in the database that collides with the identity. */
  predicate FirstColliding(db: seq<DbEdge>, k: Key, e: DbEdge) {
    exists i :: 0 <= i < |db| && db[i] == e && Collides(k, e.key) && forall j :: 0 <= j < i ==> !Collides(k, db[j].key)
  }

  predicate NoRowOf(db: seq<DbEdge>, k: Key) {
    forall e :: e in db ==> e.key != k
  }

  /** What an entry of the list claims. */
  ghost predicate Entry(truths: seq<EdgeTruth>, db: seq<DbEdge>, pending: seq<PendingEdge>, c: Confusion) {
    match c
    case Missed(t, reason) =>
      t in truths && t.polarity == StaticPositive && !GroupHit(Of(truths, StaticPositive), db, t.key) && reason == Why(db, pending, t.key)
    case FalseHit(t, line) =>
      t in truths && t.polarity == StaticNegative && exists i :: Latest(db, i, t.key) && db[i].line == line
    case Unexpected(e) => e in db && CountsAgainst(truths, db, e.key)
    case Misresolved(t, claimed) =>
      t in truths && t.polarity == DynamicPositive && NoRowOf(db, t.key) && FirstColliding(db, t.key, claimed)
  }

  lemma {:induction false} MissingEntries(members: seq<EdgeTruth>, reason: Reason, c: Confusion)
    ensures c in Missing(members, reason) <==> c.Missed? && c.truth in members && c.reason == reason
    decreases |members|
  {
    if members != [] {
      var init, last := members[..|members| - 1], members[|members| - 1];
      assert members == init + [last];
      MissingEntries(init, reason, c);
    }
  }

  lemma {:induction false} MissEntries(pos: seq<EdgeTruth>, db: seq<DbEdge>, pending: seq<PendingEdge>, order: seq<Key>, c: Confusion)
    ensures c in Misses(pos, db, pending, order)
            <==> c.Missed? && c.truth in pos && c.truth.key in order && !GroupHit(pos, db, c.truth.key)
                 && c.reason == Why(db, pending, c.truth.key)
    decreases |order|
  {
    if order != [] {
      var init, k := order[..|order| - 1], order[|order| - 1];
      assert order == init + [k];
      MissEntries(pos, db, pending, init, c);
      MissingEntries(WithKey(pos, k), Why(db, pending, k), c);
      FilterMember(pos, (t: EdgeTruth) => t.key == k);
    }
  }

  lemma {:induction false} FalseHitEntries(neg: seq<EdgeTruth>, db: seq<DbEdge>, c: Confusion)
    ensures c in FalseHits(neg, db)
            <==> c.FalseHit? && c.truth in neg && LastWith(db, c.truth.key).Some? && LastWith(db, c.truth.key).value.line == c.dbLine
    decreases |neg|
  {
    if neg != [] {
      var init, last := neg[..|neg| - 1], neg[|neg| - 1];
      assert neg == init + [last];
      FalseHitEntries(init, db, c);
    }
  }

  lemma {:induction false} UnexpectedEntries(truths: seq<EdgeTruth>, db: seq<DbEdge>, seen: seq<DbEdge>, c: Confusion)
    ensures c in UnexpectedList(truths, db, seen) <==> c.Unexpected? && c.edge in seen && IsUnexpected(truths, db, c.edge)
    decreases |seen|
  {
    if seen != [] {
      var init, last := seen[..|seen| - 1], seen[|seen| - 1];
      assert seen == init + [last];
      UnexpectedEntries(truths, db, init, c);
    }
  }

  lemma {:induction false} MisresolvedEntries(dynamic: seq<EdgeTruth>, db: seq<DbEdge>, c: Confusion)
    ensures c in MisresolvedList(dynamic, db)
            <==> c.Misresolved? && c.truth in dynamic && !InDb(db, c.truth.key)
                 && Collisions(db, c.truth.key) != [] && c.claimed == Collisions(db, c.truth.key)[0]
    decreases |dynamic|
  {
    if dynamic != [] {
      var init, last := dynamic[..|dynamic| - 1], dynamic[|dynamic| - 1];
      assert dynamic == init + [last];
      MisresolvedEntries(init, db, c);
    }
  }

  lemma LatestLine(db: seq<DbEdge>, k: Key, line: Option<int>)
    ensures LastWith(db, k).Some? && LastWith(db, k).value.line == line <==> exists i :: Latest(db, i, k) && db[i].line == line
  {
    LastWithMeaning(db, k);
    if LastWith(db, k).Some? { HasLatest(db, k); }
    forall i | Latest(db, i, k) ensures LastWith(db, k) == Some(db[i]) { LatestRowCounts(db, k, i); }
  }

  lemma {:induction false} FirstCollision(db: seq<DbEdge>, k: Key, n: nat) returns (i: nat)
    requires n < |db| && Collides(k, db[n].key)
    ensures i < |db| && FirstColliding(db, k, db[i]) && Collisions(db, k) != [] && Collisions(db, k)[0] == db[i]
    decreases n
  {
    if j :| 0 <= j < n && Collides(k, db[j].key) {
      i := FirstCollision(db, k, j);
    } else {
      i := n;
      FilterBegins(db, (e: DbEdge) => SameBare(SourceOf(k), k.dst, e), n);
    }
  }

  lemma ClaimIsFirst(db: seq<DbEdge>, k: Key, e: DbEdge)
    ensures Collisions(db, k) != [] && e == Collisions(db, k)[0] <==> FirstColliding(db, k, e)
  {
    CollisionsMeaning(db, k);
    if FirstColliding(db, k, e) {
      var n :| 0 <= n < |db| && db[n] == e && Collides(k, e.key) && forall j :: 0 <= j < n ==> !Collides(k, db[j].key);
      FilterBegins(db, (x: DbEdge) => SameBare(SourceOf(k), k.dst, x), n);
    }
    if Collisions(db, k) != [] {
      var x :| x in db && SameBare(SourceOf(k), k.dst, x);
      var n :| 0 <= n < |db| && db[n] == x;
      var i := FirstCollision(db, k, n);
    }
  }

  lemma MissedMeans(truths: seq<EdgeTruth>, db: seq<DbEdge>, pending: seq<PendingEdge>, c: Confusion)
    ensures c in Misses(Of(truths, StaticPositive), db, pending, KeysInOrder(Of(truths, StaticPositive)))
            <==> c.Missed? && Entry(truths, db, pending, c)
  {
    var pos := Of(truths, StaticPositive);
    MissEntries(pos, db, pending, KeysInOrder(pos), c);
    FilterMember(truths, (t: EdgeTruth) => t.polarity == StaticPositive);
    KeysAreDistinct(pos);
    if c.Missed? && c.truth in pos { assert HasKey(pos, c.truth.key); }
  }

  lemma FalseHitMeans(truths: seq<EdgeTruth>, db: seq<DbEdge>, pending: seq<PendingEdge>, c: Confusion)
    ensures c in FalseHits(Of(truths, StaticNegative), db) <==> c.FalseHit? && Entry(truths, db, pending, c)
  {
    FalseHitEntries(Of(truths, StaticNegative), db, c);
    FilterMember(truths, (t: EdgeTruth) => t.polarity == StaticNegative);
    if c.FalseHit? { LatestLine(db, c.truth.key, c.dbLine); }
  }

  lemma UnexpectedMeans(truths: seq<EdgeTruth>, db: seq<DbEdge>, pending: seq<PendingEdge>, c: Confusion)
    ensures c in UnexpectedList(truths, db, db) <==> c.Unexpected? && Entry(truths, db, pending, c)
  {
    UnexpectedEntries(truths, db, db, c);
    if c.Unexpected? && c.edge in db { IsUnexpectedIff(truths, db, c.edge); }
  }

  lemma MisresolvedMeans(truths: seq<EdgeTruth>, db: seq<DbEdge>, pending: seq<PendingEdge>, c: Confusion)
    ensures c in MisresolvedList(Of(truths, DynamicPositive), db) <==> c.Misresolved? && Entry(truths, db, pending, c)
  {
    MisresolvedEntries(Of(truths, DynamicPositive), db, c);
    FilterMember(truths, (t: EdgeTruth) => t.polarity == DynamicPositive);
    if c.Misresolved? { ClaimIsFirst(db, c.truth.key, c.claimed); }
  }

  /** The confusion list names, under the right heading, exactly what went wrong: every positive whose
      identity was not hit, with the reason; every negative that is in the database, with the line of its
      latest row; every edge that counts against the extractor; and every dynamic truth without a row
      of its own, with the first row that collides with it. */
  lemma ConfusionMeans(truths: seq<EdgeTruth>, db: seq<DbEdge>, pending: seq<PendingEdge>, c: Confusion)
    ensures c in FullConfusion(truths, db, pending) <==> Entry(truths, db, pending, c)
  {
    MissedMeans(truths, db, pending, c);
    FalseHitMeans(truths, db, pending, c);
    UnexpectedMeans(truths, db, pending, c);
    MisresolvedMeans(truths, db, pending, c);
  }
}
