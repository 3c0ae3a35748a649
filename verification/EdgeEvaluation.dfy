/** evaluate_edges as an imperative pass. */
module EdgeEvaluation {
  import opened Counting
  import opened EdgeOracle

  // One index over the database edges, then positives group by group, negatives, unexpected edges and dynamic
  // claims (scripts/sot_evaluator.py), with counters, per-bucket slots and a confusion list updated in
  // place.

  datatype Kind = Tp | Fn | FpNegative | FpUnexpected | Tn

  /** One update of the counters: a bucket is a language and a relation. */
  datatype Event = Event(bucket: (string, string), kind: Kind)

  datatype Slot = Slot(tp: nat, fp: nat, fn: nat, tn: nat)

  function Kinds(log: seq<Event>, kind: Kind): nat {
    CountIf(log, (e: Event) => e.kind == kind)
  }

  function Hits(log: seq<Event>, bucket: (string, string), kind: Kind): nat {
    CountIf(log, (e: Event) => e.bucket == bucket && e.kind == kind)
  }

  function SlotOf(log: seq<Event>, bucket: (string, string)): Slot {
    Slot(Hits(log, bucket, Tp), Hits(log, bucket, FpNegative) + Hits(log, bucket, FpUnexpected),
         Hits(log, bucket, Fn), Hits(log, bucket, Tn))
  }

  /** Per bucket and in total, the slots carry the same hits. */
  lemma BucketsSumToTotals(log: seq<Event>, buckets: set<(string, string)>, kind: Kind)
    requires forall e :: e in log ==> e.bucket in buckets
    ensures SumOver(buckets, b => Hits(log, b, kind)) == Kinds(log, kind)
  {
    var p, key := (e: Event) => e.kind == kind, (e: Event) => e.bucket;
    CountByKey(log, buckets, key, p);
    forall b ensures ClassCount(log, key, p)(b) == Hits(log, b, kind) {
      CountAgree(log, InClass(key, b, p), (e: Event) => e.bucket == b && e.kind == kind);
    }
    SumOverAgree(buckets, ClassCount(log, key, p), b => Hits(log, b, kind));
  }

  // ---- What the pass logs, in order -----------------------------------------------------

  function WithKey(pos: seq<EdgeTruth>, k: Key): seq<EdgeTruth> {
    Filter(pos, (t: EdgeTruth) => t.key == k)
  }

  /** A group is filed under the language of its first member. */
  function GroupBucket(pos: seq<EdgeTruth>, k: Key): (string, string) {
    (if WithKey(pos, k) == [] then "" else WithKey(pos, k)[0].language, k.relation)
  }

  function PositiveLog(pos: seq<EdgeTruth>, db: seq<DbEdge>, order: seq<Key>): seq<Event> {
    if order == [] then []
    else
      var k := order[|order| - 1];
      PositiveLog(pos, db, order[..|order| - 1])
      + Repeat(Event(GroupBucket(pos, k), if GroupHit(pos, db, k) then Tp else Fn), |WithKey(pos, k)|)
  }

  function NegativeLog(neg: seq<EdgeTruth>, db: seq<DbEdge>): seq<Event> {
    if neg == [] then []
    else
      var t := neg[|neg| - 1];
      NegativeLog(neg[..|neg| - 1], db)
      + [Event((t.language, t.key.relation), if InDb(db, t.key) then FpNegative else Tn)]
  }

  function UnexpectedLog(truths: seq<EdgeTruth>, db: seq<DbEdge>, seen: seq<DbEdge>, languageOf: string -> string): seq<Event> {
    if seen == [] then []
    else
      var e := seen[|seen| - 1];
      UnexpectedLog(truths, db, seen[..|seen| - 1], languageOf)
      + if IsUnexpected(truths, db, e) then [Event((languageOf(e.key.path), "calls"), FpUnexpected)] else []
  }

  /** The first rule that explains why a group was not hit. */
  function Why(db: seq<DbEdge>, pending: seq<PendingEdge>, k: Key): Reason {
    if InDb(db, k) then SpanMismatch
    else if exists e :: e in db && SameBare(SourceOf(k), k.dst, e) && e.key.dstPath == k.dstPath then IdentityUnqualified
    else if exists e :: e in db && SameBare(SourceOf(k), k.dst, e) then WrongTarget
    else if exists e :: e in db && OtherRelation(k, e) then WrongRelation
    else if exists p :: p in pending && AwaitsTarget(k, p) then PendingUnresolved
    else EdgeAbsent
  }

  predicate OtherRelation(k: Key, e: DbEdge) {
    e.key.path == k.path && e.key.src == k.src && e.key.dst == k.dst && e.key.dstPath == k.dstPath
    && e.key.relation != k.relation
  }

  predicate AwaitsTarget(k: Key, p: PendingEdge) {
    p.path == k.path && p.src == k.src && Bare(p.dstSymbol) == Bare(k.dst)
  }

  function Hit(pos: seq<EdgeTruth>, db: seq<DbEdge>): Key -> bool {
    k => GroupHit(pos, db, k)
  }

  function Miss(pos: seq<EdgeTruth>, db: seq<DbEdge>): Key -> bool {
    k => !GroupHit(pos, db, k)
  }

  /** How many positives are in one of the groups and satisfy h. */
  function Covered(pos: seq<EdgeTruth>, order: seq<Key>, h: Key -> bool): nat {
    CountIf(pos, (t: EdgeTruth) => t.key in order && h(t.key))
  }

  lemma OneMoreGroup(pos: seq<EdgeTruth>, order: seq<Key>, k: Key, h: Key -> bool)
    requires k !in order
    ensures Covered(pos, order + [k], h) == Covered(pos, order, h) + if h(k) then |WithKey(pos, k)| else 0
  {
    var p, q, r := (t: EdgeTruth) => t.key in order + [k] && h(t.key), (t: EdgeTruth) => t.key in order && h(t.key),
                   (t: EdgeTruth) => t.key == k && h(k);
    CountSplit(pos, p, q, r);
    FilterMember(pos, (t: EdgeTruth) => t.key == k);
    if h(k) {
      CountAgree(pos, r, (t: EdgeTruth) => t.key == k);
    } else {
      CountNone(pos, r);
    }
  }

  lemma EveryGroup(pos: seq<EdgeTruth>, db: seq<DbEdge>, order: seq<Key>)
    requires forall t: EdgeTruth :: t in pos ==> t.key in order
    ensures Covered(pos, order, Hit(pos, db)) == CountIf(pos, (t: EdgeTruth) => GroupHit(pos, db, t.key))
    ensures Covered(pos, order, Miss(pos, db)) == CountIf(pos, (t: EdgeTruth) => !GroupHit(pos, db, t.key))
  {
    var hit, miss := Hit(pos, db), Miss(pos, db);
    forall t: EdgeTruth ensures hit(t.key) == GroupHit(pos, db, t.key) && miss(t.key) == !GroupHit(pos, db, t.key) {}
    CountAgree(pos, (t: EdgeTruth) => t.key in order && hit(t.key), (t: EdgeTruth) => GroupHit(pos, db, t.key));
    CountAgree(pos, (t: EdgeTruth) => t.key in order && miss(t.key), (t: EdgeTruth) => !GroupHit(pos, db, t.key));
  }

  ghost predicate Distinct<T>(xs: seq<T>) {
    forall i, j :: 0 <= i < j < |xs| ==> xs[i] != xs[j]
  }

  lemma PositiveLogSnoc(pos: seq<EdgeTruth>, db: seq<DbEdge>, init: seq<Key>, k: Key, kind: Kind)
    ensures Kinds(PositiveLog(pos, db, init + [k]), kind)
            == Kinds(PositiveLog(pos, db, init), kind)
               + if kind == (if GroupHit(pos, db, k) then Tp else Fn) then |WithKey(pos, k)| else 0
  {
    var e, n := Event(GroupBucket(pos, k), if GroupHit(pos, db, k) then Tp else Fn), |WithKey(pos, k)|;
    assert (init + [k])[..|init|] == init;
    CountConcat(PositiveLog(pos, db, init), Repeat(e, n), (e: Event) => e.kind == kind);
    CountRepeat(e, n, (e: Event) => e.kind == kind);
  }

  lemma PositiveLogCounts(pos: seq<EdgeTruth>, db: seq<DbEdge>, order: seq<Key>)
    requires Distinct(order)
    ensures var log := PositiveLog(pos, db, order);
            && Kinds(log, Tp) == Covered(pos, order, Hit(pos, db)) && Kinds(log, Fn) == Covered(pos, order, Miss(pos, db))
            && Kinds(log, FpNegative) == 0 && Kinds(log, FpUnexpected) == 0 && Kinds(log, Tn) == 0
  {
    PositivesOnly(pos, db, order, FpNegative);
    PositivesOnly(pos, db, order, FpUnexpected);
    PositivesOnly(pos, db, order, Tn);
    HitsAndMisses(pos, db, order);
  }

  lemma {:induction false} PositivesOnly(pos: seq<EdgeTruth>, db: seq<DbEdge>, order: seq<Key>, kind: Kind)
    requires !kind.Tp? && !kind.Fn?
    ensures Kinds(PositiveLog(pos, db, order), kind) == 0
    decreases |order|
  {
    if order != [] {
      var init, k := order[..|order| - 1], order[|order| - 1];
      assert order == init + [k];
      PositivesOnly(pos, db, init, kind);
      PositiveLogSnoc(pos, db, init, k, kind);
    }
  }

  lemma {:induction false} HitsAndMisses(pos: seq<EdgeTruth>, db: seq<DbEdge>, order: seq<Key>)
    requires Distinct(order)
    ensures Kinds(PositiveLog(pos, db, order), Tp) == Covered(pos, order, Hit(pos, db))
    ensures Kinds(PositiveLog(pos, db, order), Fn) == Covered(pos, order, Miss(pos, db))
    decreases |order|
  {
    if order == [] {
      CountNone(pos, (t: EdgeTruth) => t.key in order && Hit(pos, db)(t.key));
      CountNone(pos, (t: EdgeTruth) => t.key in order && Miss(pos, db)(t.key));
    } else {
      var init, k := order[..|order| - 1], order[|order| - 1];
      assert order == init + [k];
      HitsAndMisses(pos, db, init);
      PositiveLogSnoc(pos, db, init, k, Tp);
      PositiveLogSnoc(pos, db, init, k, Fn);
      OneMoreGroup(pos, init, k, Hit(pos, db));
      OneMoreGroup(pos, init, k, Miss(pos, db));
    }
  }

  lemma {:induction false} NegativeLogCounts(neg: seq<EdgeTruth>, db: seq<DbEdge>)
    ensures var log := NegativeLog(neg, db);
            && Kinds(log, FpNegative) == CountIf(neg, (t: EdgeTruth) => InDb(db, t.key))
            && Kinds(log, Tn) == CountIf(neg, (t: EdgeTruth) => !InDb(db, t.key))
            && Kinds(log, Tp) == 0 && Kinds(log, Fn) == 0 && Kinds(log, FpUnexpected) == 0
    decreases |neg|
  {
    if neg != [] {
      var init, t := neg[..|neg| - 1], neg[|neg| - 1];
      NegativeLogCounts(init, db);
      var e := Event((t.language, t.key.relation), if InDb(db, t.key) then FpNegative else Tn);
      forall kind ensures Kinds(NegativeLog(neg, db), kind) == Kinds(NegativeLog(init, db), kind) + if e.kind == kind then 1 else 0 {
        CountSnoc(NegativeLog(init, db), e, (e: Event) => e.kind == kind);
      }
    }
  }

  lemma {:induction false} UnexpectedLogCounts(truths: seq<EdgeTruth>, db: seq<DbEdge>, seen: seq<DbEdge>, languageOf: string -> string)
    ensures var log := UnexpectedLog(truths, db, seen, languageOf);
            && Kinds(log, FpUnexpected) == CountIf(seen, (e: DbEdge) => IsUnexpected(truths, db, e))
            && Kinds(log, Tp) == 0 && Kinds(log, Fn) == 0 && Kinds(log, FpNegative) == 0 && Kinds(log, Tn) == 0
    decreases |seen|
  {
    if seen != [] {
      var init, e := seen[..|seen| - 1], seen[|seen| - 1];
      UnexpectedLogCounts(truths, db, init, languageOf);
      if IsUnexpected(truths, db, e) {
        var ev := Event((languageOf(e.key.path), "calls"), FpUnexpected);
        forall kind ensures Kinds(UnexpectedLog(truths, db, seen, languageOf), kind)
                            == Kinds(UnexpectedLog(truths, db, init, languageOf), kind) + if ev.kind == kind then 1 else 0 {
          CountSnoc(UnexpectedLog(truths, db, init, languageOf), ev, (e: Event) => e.kind == kind);
        }
      } else {
        assert UnexpectedLog(truths, db, seen, languageOf) == UnexpectedLog(truths, db, init, languageOf);
      }
    }
  }

  // ---- The confusion list ------------------------------------------------------------------

  function Missing(members: seq<EdgeTruth>, reason: Reason): seq<Confusion> {
    if members == [] then []
    else Missing(members[..|members| - 1], reason) + [Missed(members[|members| - 1], reason)]
  }

  function Misses(pos: seq<EdgeTruth>, db: seq<DbEdge>, pending: seq<PendingEdge>, order: seq<Key>): seq<Confusion> {
    if order == [] then []
    else
      var k := order[|order| - 1];
      Misses(pos, db, pending, order[..|order| - 1])
      + if GroupHit(pos, db, k) then [] else Missing(WithKey(pos, k), Why(db, pending, k))
  }

  function FalseHits(neg: seq<EdgeTruth>, db: seq<DbEdge>): seq<Confusion> {
    if neg == [] then []
    else
      var t := neg[|neg| - 1];
      FalseHits(neg[..|neg| - 1], db)
      + match LastWith(db, t.key) { case None => [] case Some(row) => [FalseHit(t, row.line)] }
  }

  function UnexpectedList(truths: seq<EdgeTruth>, db: seq<DbEdge>, seen: seq<DbEdge>): seq<Confusion> {
    if seen == [] then []
    else
      var e := seen[|seen| - 1];
      UnexpectedList(truths, db, seen[..|seen| - 1]) + if IsUnexpected(truths, db, e) then [Unexpected(e)] else []
  }

  /** Edges from the same source, under the same relation, to a target of the same bare name. */
  function Collisions(db: seq<DbEdge>, k: Key): seq<DbEdge> {
    Filter(db, (e: DbEdge) => SameBare(SourceOf(k), k.dst, e))
  }

  function MisresolvedList(dynamic: seq<EdgeTruth>, db: seq<DbEdge>): seq<Confusion> {
    if dynamic == [] then []
    else
      var t := dynamic[|dynamic| - 1];
      MisresolvedList(dynamic[..|dynamic| - 1], db)
      + if InDb(db, t.key) || Collisions(db, t.key) == [] then [] else [Misresolved(t, Collisions(db, t.key)[0])]
  }

  lemma CollisionsMeaning(db: seq<DbEdge>, k: Key)
    ensures Collisions(db, k) != [] <==> exists e :: e in db && SameBare(SourceOf(k), k.dst, e)
  {
    var found := Collisions(db, k);
    FilterMember(db, (e: DbEdge) => SameBare(SourceOf(k), k.dst, e));
    if found != [] { assert found[0] in found; }
  }

  lemma {:induction false} MissesLength(pos: seq<EdgeTruth>, db: seq<DbEdge>, pending: seq<PendingEdge>, order: seq<Key>)
    ensures |Misses(pos, db, pending, order)| == Kinds(PositiveLog(pos, db, order), Fn)
    decreases |order|
  {
    if order != [] {
      var init, k := order[..|order| - 1], order[|order| - 1];
      MissesLength(pos, db, pending, init);
      MissingLength(WithKey(pos, k), Why(db, pending, k));
      var e, n := Event(GroupBucket(pos, k), if GroupHit(pos, db, k) then Tp else Fn), |WithKey(pos, k)|;
      CountConcat(PositiveLog(pos, db, init), Repeat(e, n), (e: Event) => e.kind == Fn);
      CountRepeat(e, n, (e: Event) => e.kind == Fn);
    }
  }

  lemma {:induction false} MissingLength(members: seq<EdgeTruth>, reason: Reason)
    ensures |Missing(members, reason)| == |members|
    decreases |members|
  {
    if members != [] { MissingLength(members[..|members| - 1], reason); }
  }

  lemma {:induction false} FalseHitsLength(neg: seq<EdgeTruth>, db: seq<DbEdge>)
    ensures |FalseHits(neg, db)| == CountIf(neg, (t: EdgeTruth) => InDb(db, t.key))
    decreases |neg|
  {
    if neg != [] {
      FalseHitsLength(neg[..|neg| - 1], db);
      LastWithMeaning(db, neg[|neg| - 1].key);
    }
  }

  lemma {:induction false} UnexpectedLength(truths: seq<EdgeTruth>, db: seq<DbEdge>, seen: seq<DbEdge>)
    ensures |UnexpectedList(truths, db, seen)| == CountIf(seen, (e: DbEdge) => IsUnexpected(truths, db, e))
    decreases |seen|
  {
    if seen != [] { UnexpectedLength(truths, db, seen[..|seen| - 1]); }
  }

  lemma {:induction false} MisresolvedLength(dynamic: seq<EdgeTruth>, db: seq<DbEdge>)
    ensures |MisresolvedList(dynamic, db)| == CountIf(dynamic, (t: EdgeTruth) => ClaimedElsewhere(db, t))
    decreases |dynamic|
  {
    if dynamic != [] {
      MisresolvedLength(dynamic[..|dynamic| - 1], db);
      CollisionsMeaning(db, dynamic[|dynamic| - 1].key);
    }
  }

  // ---- The pass ---------------------------------------------------------------------------

  /** The database edges of one source, in order. */
  function EdgesFrom(db: seq<DbEdge>, s: Source): seq<DbEdge> {
    Filter(db, (e: DbEdge) => e.From() == s)
  }

  lemma EdgesFromSnoc(db: seq<DbEdge>, e: DbEdge, s: Source)
    ensures EdgesFrom(db + [e], s) == EdgesFrom(db, s) + if e.From() == s then [e] else []
  {
    FilterSnoc(db, e, (x: DbEdge) => x.From() == s);
  }

  ghost predicate IndexOf(db: seq<DbEdge>, index: map<Key, DbEdge>, bySource: map<Source, seq<DbEdge>>) {
    && (forall k :: k in index <==> LastWith(db, k).Some?)
    && (forall k :: k in index ==> LastWith(db, k) == Some(index[k]))
    && (forall s: Source :: (if s in bySource then bySource[s] else []) == EdgesFrom(db, s))
  }

  ghost predicate GroupsOf(pos: seq<EdgeTruth>, order: seq<Key>, groups: map<Key, seq<EdgeTruth>>) {
    && Distinct(order) && (forall k :: k in order <==> k in groups)
    && (forall k :: k in groups <==> HasKey(pos, k))
    && (forall k :: k in groups ==> groups[k] == WithKey(pos, k) && groups[k] != [])
  }

  /** Keys some unhit, row-less group of `keys` consumed as its own under-qualified form. */
  ghost predicate ExplainedBy(keys: seq<Key>, db: seq<DbEdge>, k: Key) {
    InDb(db, k) && exists g :: g in keys && UnderQualifies(db, g, k)
  }

  ghost predicate UnderQualifies(db: seq<DbEdge>, g: Key, k: Key) {
    !InDb(db, g) && SourceOf(k) == SourceOf(g) && Bare(k.dst) == Bare(g.dst) && k.dstPath == g.dstPath
  }

  /** The collision list of one key, from the per-source index. */
  method FindCollisions(ghost db: seq<DbEdge>, bySource: map<Source, seq<DbEdge>>, k: Key) returns (found: seq<DbEdge>)
    requires forall s: Source :: (if s in bySource then bySource[s] else []) == EdgesFrom(db, s)
    ensures found == Collisions(db, k)
  {
    var source := SourceOf(k);
    var candidates := if source in bySource then bySource[source] else [];
    found := Filter(candidates, (e: DbEdge) => Bare(e.key.dst) == Bare(k.dst));
    FilterTwice(db, (e: DbEdge) => e.From() == source, (e: DbEdge) => Bare(e.key.dst) == Bare(k.dst),
                (e: DbEdge) => SameBare(SourceOf(k), k.dst, e));
  }

  lemma SameFileMeaning(db: seq<DbEdge>, k: Key, sameFile: seq<DbEdge>)
    requires !InDb(db, k) && sameFile == Filter(Collisions(db, k), (e: DbEdge) => e.key.dstPath == k.dstPath)
    ensures forall e :: e in sameFile <==> e in db && UnderQualifies(db, k, e.key)
    ensures sameFile != [] <==> exists e :: e in db && SameBare(SourceOf(k), k.dst, e) && e.key.dstPath == k.dstPath
    ensures Collisions(db, k) != [] <==> exists e :: e in db && SameBare(SourceOf(k), k.dst, e)
  {
    FilterMember(db, (e: DbEdge) => SameBare(SourceOf(k), k.dst, e));
    FilterMember(Collisions(db, k), (e: DbEdge) => e.key.dstPath == k.dstPath);
    FilterNonEmpty(Collisions(db, k), (e: DbEdge) => e.key.dstPath == k.dstPath);
    CollisionsMeaning(db, k);
  }

  lemma ExplainedSnoc(db: seq<DbEdge>, groups: seq<Key>, g: Key)
    ensures forall k :: ExplainedBy(groups + [g], db, k)
                        <==> ExplainedBy(groups, db, k) || (InDb(db, k) && UnderQualifies(db, g, k))
  {
    forall k | ExplainedBy(groups, db, k) ensures ExplainedBy(groups + [g], db, k) {
      var h :| h in groups && UnderQualifies(db, h, k);
      assert h in groups + [g];
    }
    forall k | InDb(db, k) && UnderQualifies(db, g, k) ensures ExplainedBy(groups + [g], db, k) {
      assert g in groups + [g];
    }
  }

  /** The rules of evaluate_edges for a group that was not hit, in their order. */
  method Diagnose(db: seq<DbEdge>, pending: seq<PendingEdge>, index: map<Key, DbEdge>, bySource: map<Source, seq<DbEdge>>, k: Key)
    returns (reason: Reason, sameFile: seq<DbEdge>)
    requires IndexOf(db, index, bySource)
    ensures reason == Why(db, pending, k)
    ensures forall e :: e in sameFile <==> e in db && UnderQualifies(db, k, e.key)
  {
    LastWithMeaning(db, k);
    sameFile := [];
    if k in index {
      return SpanMismatch, [];
    }
    var collisions := FindCollisions(db, bySource, k);
    sameFile := Filter(collisions, (e: DbEdge) => e.key.dstPath == k.dstPath);
    SameFileMeaning(db, k, sameFile);
    if collisions != [] {
      return if sameFile != [] then IdentityUnqualified else WrongTarget, sameFile;
    }
    var otherRelation := Filter(db, (e: DbEdge) => OtherRelation(k, e));
    FilterNonEmpty(db, (e: DbEdge) => OtherRelation(k, e));
    if otherRelation != [] {
      return WrongRelation, [];
    }
    var waiting := Filter(pending, (p: PendingEdge) => AwaitsTarget(k, p));
    FilterNonEmpty(pending, (p: PendingEdge) => AwaitsTarget(k, p));
    return if waiting != [] then PendingUnresolved else EdgeAbsent, [];
  }

  lemma LastWithSnoc(db: seq<DbEdge>, e: DbEdge, k: Key)
    ensures LastWith(db + [e], k) == if e.key == k then Some(e) else LastWith(db, k)
  {
    assert (db + [e])[..|db|] == db;
  }

  lemma IndexSnoc(db: seq<DbEdge>, e: DbEdge, index: map<Key, DbEdge>, bySource: map<Source, seq<DbEdge>>)
    requires IndexOf(db, index, bySource)
    ensures IndexOf(db + [e], index[e.key := e],
                    bySource[e.From() := (if e.From() in bySource then bySource[e.From()] else []) + [e]])
  {
    forall k { LastWithSnoc(db, e, k); }
    BySourceSnoc(db, e, bySource);
  }

  lemma BySourceSnoc(db: seq<DbEdge>, e: DbEdge, bySource: map<Source, seq<DbEdge>>)
    requires forall s: Source :: (if s in bySource then bySource[s] else []) == EdgesFrom(db, s)
    ensures var more := bySource[e.From() := (if e.From() in bySource then bySource[e.From()] else []) + [e]];
            forall s: Source :: (if s in more then more[s] else []) == EdgesFrom(db + [e], s)
  {
    forall s: Source { EdgesFromSnoc(db, e, s); }
  }

  method IndexEdges(db: seq<DbEdge>) returns (index: map<Key, DbEdge>, bySource: map<Source, seq<DbEdge>>)
    ensures IndexOf(db, index, bySource)
  {
    index, bySource := map[], map[];
    for i := 0 to |db|
      invariant IndexOf(db[..i], index, bySource)
    {
      var e := db[i];
      PrefixSnoc(db, i);
      IndexSnoc(db[..i], e, index, bySource);
      index := index[e.key := e];
      bySource := bySource[e.From() := (if e.From() in bySource then bySource[e.From()] else []) + [e]];
    }
    assert db[..|db|] == db;
  }

  /** The group keys, by first appearance. */
  function KeysInOrder(pos: seq<EdgeTruth>): seq<Key> {
    if pos == [] then []
    else
      var before, k := KeysInOrder(pos[..|pos| - 1]), pos[|pos| - 1].key;
      if k in before then before else before + [k]
  }

  lemma {:induction false} KeysAreDistinct(pos: seq<EdgeTruth>)
    ensures Distinct(KeysInOrder(pos)) && forall k :: k in KeysInOrder(pos) <==> HasKey(pos, k)
    decreases |pos|
  {
    if pos != [] {
      var init, last := pos[..|pos| - 1], pos[|pos| - 1];
      KeysAreDistinct(init);
      assert pos == init + [last];
      forall k ensures HasKey(pos, k) <==> HasKey(init, k) || k == last.key { assert last in pos; }
    }
  }

  method GroupByKey(pos: seq<EdgeTruth>) returns (order: seq<Key>, groups: map<Key, seq<EdgeTruth>>)
    ensures GroupsOf(pos, order, groups) && order == KeysInOrder(pos)
  {
    order, groups := [], map[];
    for i := 0 to |pos|
      invariant order == KeysInOrder(pos[..i])
      invariant forall k :: k in order <==> k in groups
      invariant forall k :: k in groups ==> groups[k] != [] && groups[k] == WithKey(pos[..i], k)
      invariant forall k :: k !in groups ==> WithKey(pos[..i], k) == []
    {
      var t := pos[i];
      PrefixSnoc(pos, i);
      forall k ensures WithKey(pos[..i + 1], k) == WithKey(pos[..i], k) + if t.key == k then [t] else [] {
        FilterSnoc(pos[..i], t, (t: EdgeTruth) => t.key == k);
      }
      if t.key !in groups {
        order := order + [t.key];
      }
      groups := groups[t.key := (if t.key in groups then groups[t.key] else []) + [t]];
    }
    assert pos[..|pos|] == pos;
    KeysAreDistinct(pos);
  }

  datatype DynamicCounts = DynamicCounts(total: nat, exact: nat, sameBareOther: nat, unclaimed: nat)

  lemma LogSnoc(log: seq<Event>, ev: Event)
    ensures forall b: (string, string) ::
              SlotOf(log + [ev], b) == if ev.bucket == b then AddTo(SlotOf(log, b), ev) else SlotOf(log, b)
  {
    forall b: (string, string), kind
      ensures Hits(log + [ev], b, kind) == Hits(log, b, kind) + if ev == Event(b, kind) then 1 else 0
    {
      CountSnoc(log, ev, (e: Event) => e.bucket == b && e.kind == kind);
    }
  }

  lemma KindsBumped(log: seq<Event>, ev: Event)
    ensures forall kind :: Kinds(log + [ev], kind) == Kinds(log, kind) + if ev.kind == kind then 1 else 0
  {
    forall kind ensures Kinds(log + [ev], kind) == Kinds(log, kind) + if ev.kind == kind then 1 else 0 {
      CountSnoc(log, ev, (e: Event) => e.kind == kind);
    }
  }

  function AddTo(slot: Slot, ev: Event): Slot {
    match ev.kind
      case Tp => slot.(tp := slot.tp + 1)
      case Fn => slot.(fn := slot.fn + 1)
      case Tn => slot.(tn := slot.tn + 1)
      case FpNegative => slot.(fp := slot.fp + 1)
      case FpUnexpected => slot.(fp := slot.fp + 1)
  }

  function SlotAt(slots: map<(string, string), Slot>, b: (string, string)): Slot {
    if b in slots then slots[b] else Slot(0, 0, 0, 0)
  }

  /** The counters and slots the pass keeps. */
  datatype Board = Board(tp: nat, fp: nat, fn: nat, tn: nat, fpNegative: nat, fpUnexpected: nat,
                         slots: map<(string, string), Slot>)

  /** The counters are those of the log, in total and bucket by bucket. The body is only looked at
      where the log is mentioned as Opened; the scoring loops have no use for it. */
  ghost predicate Tallied(board: Board, log: seq<Event>) {
    forall l {:trigger Opened(l)} :: Opened(l) && l == log ==> Faithful(board, l)
  }

  ghost predicate Opened(log: seq<Event>) {
    true
  }

  ghost predicate Faithful(board: Board, log: seq<Event>) {
    && board.tp == Kinds(log, Tp) && board.fn == Kinds(log, Fn) && board.tn == Kinds(log, Tn)
    && board.fpNegative == Kinds(log, FpNegative) && board.fpUnexpected == Kinds(log, FpUnexpected)
    && board.fp == board.fpNegative + board.fpUnexpected
    && forall b: (string, string) :: SlotOf(log, b) == SlotAt(board.slots, b)
  }

  function Bumped(board: Board, ev: Event): Board {
    var slots := board.slots[ev.bucket := AddTo(SlotAt(board.slots, ev.bucket), ev)];
    match ev.kind
    case Tp => board.(tp := board.tp + 1, slots := slots)
    case Fn => board.(fn := board.fn + 1, slots := slots)
    case Tn => board.(tn := board.tn + 1, slots := slots)
    case FpNegative => board.(fp := board.fp + 1, fpNegative := board.fpNegative + 1, slots := slots)
    case FpUnexpected => board.(fp := board.fp + 1, fpUnexpected := board.fpUnexpected + 1, slots := slots)
  }

  lemma TalliedBump(board: Board, log: seq<Event>, ev: Event)
    requires Tallied(board, log)
    ensures Tallied(Bumped(board, ev), log + [ev])
  {
    assert Opened(log);
    LogSnoc(log, ev);
    KindsBumped(log, ev);
  }

  /** What was appended to `a + b` was appended to `b`. */
  lemma Extended<T>(a: seq<T>, b: seq<T>, now: seq<T>, later: seq<T>)
    requires now == a + b && now <= later
    ensures later == a + (b + later[|now|..])
  {
  }

  lemma ScoredSnoc(pos: seq<EdgeTruth>, db: seq<DbEdge>, pending: seq<PendingEdge>, order: seq<Key>, i: nat)
    requires i < |order|
    ensures order[..i + 1] == order[..i] + [order[i]]
    ensures var k := order[i];
            && PositiveLog(pos, db, order[..i + 1])
               == PositiveLog(pos, db, order[..i])
                  + Repeat(Event(GroupBucket(pos, k), if GroupHit(pos, db, k) then Tp else Fn), |WithKey(pos, k)|)
            && Misses(pos, db, pending, order[..i + 1])
               == Misses(pos, db, pending, order[..i])
                  + if GroupHit(pos, db, k) then [] else Missing(WithKey(pos, k), Why(db, pending, k))
  {
    PrefixSnoc(order, i);
  }

  lemma HitMeaning(pos: seq<EdgeTruth>, db: seq<DbEdge>, k: Key)
    ensures var row, members := LastWith(db, k), WithKey(pos, k);
            GroupHit(pos, db, k) <==>
            row.Some? && row.value.line.Some? && row.value.line in set t | t in members :: t.line
    ensures LastWith(db, k).Some? <==> InDb(db, k)
  {
    LastWithMeaning(db, k);
    FilterMember(pos, (t: EdgeTruth) => t.key == k);
    var row, members := LastWith(db, k), WithKey(pos, k);
    if row.Some? && row.value.line in set t | t in members :: t.line {
      var t :| t in members && t.line == row.value.line;
      assert t in pos && t.key == k;
    }
  }

  lemma ExplainedByGroups(pos: seq<EdgeTruth>, db: seq<DbEdge>, order: seq<Key>)
    requires forall k :: k in order <==> HasKey(pos, k)
    ensures forall k :: ExplainedBy(order, db, k) <==> Explained(pos, db, k)
  {
    forall k ensures ExplainedBy(order, db, k) <==> Explained(pos, db, k) {
      if ExplainedBy(order, db, k) {
        var g :| g in order && UnderQualifies(db, g, k);
        var t :| t in pos && t.key == g;
        assert Explains(db, t, k);
      }
      if Explained(pos, db, k) {
        var t :| t in pos && Explains(db, t, k);
        assert t.key in order && UnderQualifies(db, t.key, k);
      }
    }
  }

  ghost predicate DynamicTallied(done: seq<EdgeTruth>, db: seq<DbEdge>, counts: DynamicCounts) {
    && counts.exact == CountIf(done, (t: EdgeTruth) => InDb(db, t.key))
    && counts.sameBareOther == CountIf(done, (t: EdgeTruth) => ClaimedElsewhere(db, t))
    && counts.unclaimed == CountIf(done, (t: EdgeTruth) => !InDb(db, t.key) && !ClaimedElsewhere(db, t))
  }

  lemma DynamicTalliedSnoc(done: seq<EdgeTruth>, db: seq<DbEdge>, t: EdgeTruth, counts: DynamicCounts)
    requires DynamicTallied(done, db, counts)
    ensures DynamicTallied(done + [t], db,
              if InDb(db, t.key) then counts.(exact := counts.exact + 1)
              else if Collisions(db, t.key) != [] then counts.(sameBareOther := counts.sameBareOther + 1)
              else counts.(unclaimed := counts.unclaimed + 1))
  {
    CollisionsMeaning(db, t.key);
    CountSnoc(done, t, (t: EdgeTruth) => InDb(db, t.key));
    CountSnoc(done, t, (t: EdgeTruth) => ClaimedElsewhere(db, t));
    CountSnoc(done, t, (t: EdgeTruth) => !InDb(db, t.key) && !ClaimedElsewhere(db, t));
  }

  class Scoreboard {
    var tp: nat
    var fp: nat
    var fn: nat
    var tn: nat
    var fpNegative: nat
    var fpUnexpected: nat
    var slots: map<(string, string), Slot>
    var confusion: seq<Confusion>
    ghost var log: seq<Event>

    function Tally(): Board
      reads this
    {
      Board(tp, fp, fn, tn, fpNegative, fpUnexpected, slots)
    }

    /** Globals and slots are two readings of one log of updates. */
    ghost predicate Valid()
      reads this
    {
      Tallied(Tally(), log)
    }

    constructor ()
      ensures Valid() && log == [] && confusion == []
    {
      tp, fp, fn, tn, fpNegative, fpUnexpected := 0, 0, 0, 0, 0, 0;
      slots, confusion, log := map[], [], [];
    }

    /** One more hit in the slot of its language and relation, and in the global counter beside it. */
    method Bump(bucket: (string, string), kind: Kind)
      requires Valid()
      modifies `tp, `fp, `fn, `tn, `fpNegative, `fpUnexpected, `slots, `log
      ensures Valid() && log == old(log) + [Event(bucket, kind)]
      ensures Tally() == Bumped(old(Tally()), Event(bucket, kind))
    {
      TalliedBump(Tally(), log, Event(bucket, kind));
      var slot := SlotAt(slots, bucket);
      match kind {
        case Tp => tp, slot := tp + 1, slot.(tp := slot.tp + 1);
        case Fn => fn, slot := fn + 1, slot.(fn := slot.fn + 1);
        case Tn => tn, slot := tn + 1, slot.(tn := slot.tn + 1);
        case FpNegative => fp, fpNegative, slot := fp + 1, fpNegative + 1, slot.(fp := slot.fp + 1);
        case FpUnexpected => fp, fpUnexpected, slot := fp + 1, fpUnexpected + 1, slot.(fp := slot.fp + 1);
      }
      slots := slots[bucket := slot];
      log := log + [Event(bucket, kind)];
    }

    method ScorePositives(pos: seq<EdgeTruth>, db: seq<DbEdge>, pending: seq<PendingEdge>, index: map<Key, DbEdge>,
                          bySource: map<Source, seq<DbEdge>>, order: seq<Key>, groups: map<Key, seq<EdgeTruth>>)
      returns (explained: set<Key>)
      requires Valid() && IndexOf(db, index, bySource) && GroupsOf(pos, order, groups)
      modifies this
      ensures Valid() && log == old(log) + PositiveLog(pos, db, order)
      ensures confusion == old(confusion) + Misses(pos, db, pending, order)
      ensures forall k :: k in explained <==> ExplainedBy(order, db, k)
    {
      explained := {};
      for i := 0 to |order|
        invariant Valid() && log == old(log) + PositiveLog(pos, db, order[..i])
        invariant confusion == old(confusion) + Misses(pos, db, pending, order[..i])
        invariant forall k :: k in explained <==> ExplainedBy(order[..i], db, k)
      {
        var k := order[i];
        ghost var logged, missed := PositiveLog(pos, db, order[..i]), Misses(pos, db, pending, order[..i]);
        ghost var hits, misses := log, confusion;
        var consumed := ScorePositive(pos, db, pending, index, bySource, k, groups[k]);
        ScoredSnoc(pos, db, pending, order, i);
        Extended(old(log), logged, hits, log);
        Extended(old(confusion), missed, misses, confusion);
        ExplainedSnoc(db, order[..i], k);
        explained := explained + consumed;
      }
      assert order[..|order|] == order;
    }

    method ScorePositive(pos: seq<EdgeTruth>, db: seq<DbEdge>, pending: seq<PendingEdge>, index: map<Key, DbEdge>,
                         bySource: map<Source, seq<DbEdge>>, k: Key, members: seq<EdgeTruth>)
      returns (consumed: set<Key>)
      requires Valid() && IndexOf(db, index, bySource) && members == WithKey(pos, k) && members != []
      modifies this
      ensures Valid()
      ensures log == old(log) + Repeat(Event(GroupBucket(pos, k), if GroupHit(pos, db, k) then Tp else Fn), |WithKey(pos, k)|)
      ensures confusion == old(confusion) + if GroupHit(pos, db, k) then [] else Missing(WithKey(pos, k), Why(db, pending, k))
      ensures forall g :: g in consumed <==> InDb(db, g) && UnderQualifies(db, k, g)
    {
      var lines := set t | t in members :: t.line;
      var hit := k in index && index[k].line.Some? && index[k].line in lines;
      HitMeaning(pos, db, k);
      var reason, sameFile := Diagnose(db, pending, index, bySource, k);
      consumed := set e | e in sameFile :: e.key;
      ScoreGroup(members, (members[0].language, k.relation), hit, reason);
    }

    method ScoreGroup(members: seq<EdgeTruth>, bucket: (string, string), hit: bool, reason: Reason)
      requires Valid()
      modifies this
      ensures Valid() && log == old(log) + Repeat(Event(bucket, if hit then Tp else Fn), |members|)
      ensures confusion == old(confusion) + if hit then [] else Missing(members, reason)
    {
      for i := 0 to |members|
        invariant Valid() && log == old(log) + Repeat(Event(bucket, if hit then Tp else Fn), i)
        invariant confusion == old(confusion) + if hit then [] else Missing(members[..i], reason)
      {
        RepeatSnoc(Event(bucket, if hit then Tp else Fn), i);
        assert members[..i + 1] == members[..i] + [members[i]];
        assert members[..i + 1][..i] == members[..i];
        if hit {
          Bump(bucket, Tp);
        } else {
          Bump(bucket, Fn);
          confusion := confusion + [Missed(members[i], reason)];
        }
      }
      assert members[..|members|] == members;
    }

    method ScoreNegatives(neg: seq<EdgeTruth>, db: seq<DbEdge>, index: map<Key, DbEdge>) returns (matched: set<Key>)
      requires Valid() && (forall k :: k in index <==> LastWith(db, k).Some?)
      requires forall k :: k in index ==> LastWith(db, k) == Some(index[k])
      modifies this
      ensures Valid() && log == old(log) + NegativeLog(neg, db)
      ensures confusion == old(confusion) + FalseHits(neg, db)
      ensures forall k :: k in matched <==> HasKey(neg, k) && InDb(db, k)
    {
      matched := {};
      for i := 0 to |neg|
        invariant Valid() && log == old(log) + NegativeLog(neg[..i], db)
        invariant confusion == old(confusion) + FalseHits(neg[..i], db)
        invariant forall k :: k in matched <==> HasKey(neg[..i], k) && InDb(db, k)
      {
        PrefixSnoc(neg, i);
        LastWithMeaning(db, neg[i].key);
        ghost var logged, listed, logs, lists := NegativeLog(neg[..i], db), FalseHits(neg[..i], db), log, confusion;
        var hit := ScoreNegative(neg[i], db, index);
        Extended(old(log), logged, logs, log);
        Extended(old(confusion), listed, lists, confusion);
        if hit {
          matched := matched + {neg[i].key};
        }
      }
      assert neg[..|neg|] == neg;
    }

    method ScoreNegative(t: EdgeTruth, ghost db: seq<DbEdge>, index: map<Key, DbEdge>) returns (hit: bool)
      requires Valid() && (forall k :: k in index <==> LastWith(db, k).Some?)
      requires forall k :: k in index ==> LastWith(db, k) == Some(index[k])
      modifies this
      ensures Valid() && (hit <==> InDb(db, t.key))
      ensures log == old(log) + [Event((t.language, t.key.relation), if hit then FpNegative else Tn)]
      ensures confusion == old(confusion) + match LastWith(db, t.key) { case None => [] case Some(row) => [FalseHit(t, row.line)] }
    {
      LastWithMeaning(db, t.key);
      hit := t.key in index;
      Bump((t.language, t.key.relation), if hit then FpNegative else Tn);
      if hit {
        confusion := confusion + [FalseHit(t, index[t.key].line)];
      }
    }

    method ScoreUnexpected(truths: seq<EdgeTruth>, db: seq<DbEdge>, positives: set<Key>, matched: set<Key>,
                           explained: set<Key>, languageOf: string -> string)
      requires Valid()
      requires forall k :: k in positives <==> HasKey(Of(truths, StaticPositive), k)
      requires forall k :: k in matched <==> HasKey(Of(truths, StaticNegative), k) && InDb(db, k)
      requires forall k :: k in explained <==> Explained(Of(truths, StaticPositive), db, k)
      modifies this
      ensures Valid() && log == old(log) + UnexpectedLog(truths, db, db, languageOf)
      ensures confusion == old(confusion) + UnexpectedList(truths, db, db)
    {
      var pos, dynamic := Of(truths, StaticPositive), Of(truths, DynamicPositive);
      var coveredSources := set t | t in pos :: (t.key.path, t.key.src);
      var dynamicKeys := set t | t in dynamic :: t.key;
      for i := 0 to |db|
        invariant Valid() && log == old(log) + UnexpectedLog(truths, db, db[..i], languageOf)
        invariant confusion == old(confusion) + UnexpectedList(truths, db, db[..i])
      {
        var e := db[i];
        PrefixSnoc(db, i);
        ghost var logged, listed := UnexpectedLog(truths, db, db[..i], languageOf), UnexpectedList(truths, db, db[..i]);
        ghost var logs, lists := log, confusion;
        var skipped := e.key.relation != "calls" || (e.key.path, e.key.src) !in coveredSources
                       || e.key in positives || e.key in matched || e.key in dynamicKeys || e.key in explained;
        assert !skipped == IsUnexpected(truths, db, e);
        ScoreEdge(e, skipped, languageOf);
        Extended(old(log), logged, logs, log);
        Extended(old(confusion), listed, lists, confusion);
      }
      assert db[..|db|] == db;
    }

    method ScoreEdge(e: DbEdge, skipped: bool, languageOf: string -> string)
      requires Valid()
      modifies this
      ensures Valid()
      ensures log == old(log) + if skipped then [] else [Event((languageOf(e.key.path), "calls"), FpUnexpected)]
      ensures confusion == old(confusion) + if skipped then [] else [Unexpected(e)]
    {
      if !skipped {
        Bump((languageOf(e.key.path), "calls"), FpUnexpected);
        confusion := confusion + [Unexpected(e)];
      }
    }

    method ScoreDynamic(dynamic: seq<EdgeTruth>, db: seq<DbEdge>, index: map<Key, DbEdge>, bySource: map<Source, seq<DbEdge>>)
      returns (counts: DynamicCounts)
      requires Valid() && IndexOf(db, index, bySource)
      modifies `confusion
      ensures Valid()
      ensures counts.total == |dynamic|
      ensures counts.exact == CountIf(dynamic, (t: EdgeTruth) => InDb(db, t.key))
      ensures counts.sameBareOther == CountIf(dynamic, (t: EdgeTruth) => ClaimedElsewhere(db, t))
      ensures counts.unclaimed == CountIf(dynamic, (t: EdgeTruth) => !InDb(db, t.key) && !ClaimedElsewhere(db, t))
      ensures confusion == old(confusion) + MisresolvedList(dynamic, db)
    {
      counts := DynamicCounts(|dynamic|, 0, 0, 0);
      for i := 0 to |dynamic|
        invariant Valid() && counts.total == |dynamic|
        invariant DynamicTallied(dynamic[..i], db, counts)
        invariant confusion == old(confusion) + MisresolvedList(dynamic[..i], db)
      {
        var t := dynamic[i];
        PrefixSnoc(dynamic, i);
        DynamicTalliedSnoc(dynamic[..i], db, t, counts);
        var collisions := FindCollisions(db, bySource, t.key);
        LastWithMeaning(db, t.key);
        if t.key in index {
          counts := counts.(exact := counts.exact + 1);
        } else if collisions != [] {
          counts := counts.(sameBareOther := counts.sameBareOther + 1);
          confusion := confusion + [Misresolved(t, collisions[0])];
        } else {
          counts := counts.(unclaimed := counts.unclaimed + 1);
        }
      }
      assert dynamic[..|dynamic|] == dynamic;
    }
  }

  // ---- The report -----------------------------------------------------------------------

  datatype Report = Report(board: Board, statics: nat, negatives: nat, dynamic: DynamicCounts,
                           groups: nat, identityGroups: nat, looseHits: nat, confusion: seq<Confusion>)

  /** The pre-v2 matcher: full/full, full/bare, bare/bare. */
  method LegacyLooseMatch(pos: seq<EdgeTruth>, db: seq<DbEdge>) returns (hits: nat)
    ensures hits == CountIf(pos, (t: EdgeTruth) => LooseHit(db, t))
  {
    var confirmed := set e | e in db :: (e.From(), e.key.dst);
    assert forall path, src, dst, relation ::
        (Source(path, src, relation), dst) in confirmed <==> Confirmed(db, path, src, dst, relation);
    hits := 0;
    for i := 0 to |pos|
      invariant hits == CountIf(pos[..i], (t: EdgeTruth) => LooseHit(db, t))
    {
      var k := pos[i].key;
      PrefixSnoc(pos, i);
      if (Source(k.path, k.src, k.relation), k.dst) in confirmed {
        hits := hits + 1;
      } else if (Source(k.path, k.src, k.relation), Bare(k.dst)) in confirmed {
        hits := hits + 1;
      } else if (Source(k.path, Bare(k.src), k.relation), Bare(k.dst)) in confirmed {
        hits := hits + 1;
      }
    }
    assert pos[..|pos|] == pos;
  }

  lemma LogTotals(truths: seq<EdgeTruth>, db: seq<DbEdge>, order: seq<Key>, languageOf: string -> string)
    requires Distinct(order) && forall k :: k in order <==> HasKey(Of(truths, StaticPositive), k)
    ensures var pos, neg := Of(truths, StaticPositive), Of(truths, StaticNegative);
            var log := PositiveLog(pos, db, order) + NegativeLog(neg, db) + UnexpectedLog(truths, db, db, languageOf);
            && Kinds(log, Tp) == TruePositives(truths, db) && Kinds(log, Fn) == FalseNegatives(truths, db)
            && Kinds(log, FpNegative) == NegativeMatches(truths, db) && Kinds(log, Tn) == TrueNegatives(truths, db)
            && Kinds(log, FpUnexpected) == UnexpectedEdges(truths, db)
  {
    var pos, neg := Of(truths, StaticPositive), Of(truths, StaticNegative);
    var a, b, c := PositiveLog(pos, db, order), NegativeLog(neg, db), UnexpectedLog(truths, db, db, languageOf);
    PositiveLogCounts(pos, db, order);
    NegativeLogCounts(neg, db);
    UnexpectedLogCounts(truths, db, db, languageOf);
    EveryGroup(pos, db, order);
    forall kind ensures Kinds(a + b + c, kind) == Kinds(a, kind) + Kinds(b, kind) + Kinds(c, kind) {
      CountConcat(a + b, c, (e: Event) => e.kind == kind);
      CountConcat(a, b, (e: Event) => e.kind == kind);
    }
  }

  /** The slots of a faithful board add up to its globals, over every bucket it mentions. */
  lemma SlotsSumToGlobals(board: Board, log: seq<Event>)
    requires Tallied(board, log)
    ensures SumOver(board.slots.Keys, b => SlotAt(board.slots, b).tp) == board.tp
    ensures SumOver(board.slots.Keys, b => SlotAt(board.slots, b).fn) == board.fn
    ensures SumOver(board.slots.Keys, b => SlotAt(board.slots, b).tn) == board.tn
    ensures SumOver(board.slots.Keys, b => SlotAt(board.slots, b).fp) == board.fp
  {
    assert Opened(log);
    var keys := board.slots.Keys;
    forall e | e in log ensures e.bucket in keys {
      CountSome(log, e, (x: Event) => x.bucket == e.bucket && x.kind == e.kind);
      assert Hits(log, e.bucket, e.kind) >= 1;
      assert SlotOf(log, e.bucket) == SlotAt(board.slots, e.bucket);
    }
    forall kind ensures SumOver(keys, b => Hits(log, b, kind)) == Kinds(log, kind) { BucketsSumToTotals(log, keys, kind); }
    SumOverAgree(keys, b => SlotAt(board.slots, b).tp, b => Hits(log, b, Tp));
    SumOverAgree(keys, b => SlotAt(board.slots, b).fn, b => Hits(log, b, Fn));
    SumOverAgree(keys, b => SlotAt(board.slots, b).tn, b => Hits(log, b, Tn));
    SumOverPlus(keys, b => Hits(log, b, FpNegative), b => Hits(log, b, FpUnexpected), b => SlotAt(board.slots, b).fp);
  }

  function FullLog(truths: seq<EdgeTruth>, db: seq<DbEdge>, languageOf: string -> string): seq<Event> {
    var pos := Of(truths, StaticPositive);
    PositiveLog(pos, db, KeysInOrder(pos)) + NegativeLog(Of(truths, StaticNegative), db)
    + UnexpectedLog(truths, db, db, languageOf)
  }

  function FullConfusion(truths: seq<EdgeTruth>, db: seq<DbEdge>, pending: seq<PendingEdge>): seq<Confusion> {
    var pos := Of(truths, StaticPositive);
    Misses(pos, db, pending, KeysInOrder(pos)) + FalseHits(Of(truths, StaticNegative), db)
    + UnexpectedList(truths, db, db) + MisresolvedList(Of(truths, DynamicPositive), db)
  }

  /** Everything counted against the extractor is also listed, once. */
  lemma ConfusionListsEveryError(truths: seq<EdgeTruth>, db: seq<DbEdge>, pending: seq<PendingEdge>)
    ensures |FullConfusion(truths, db, pending)|
            == FalseNegatives(truths, db) + NegativeMatches(truths, db) + UnexpectedEdges(truths, db) + Misresolutions(truths, db)
  {
    var pos, order := Of(truths, StaticPositive), KeysInOrder(Of(truths, StaticPositive));
    KeysAreDistinct(pos);
    MissesLength(pos, db, pending, order);
    PositiveLogCounts(pos, db, order);
    EveryGroup(pos, db, order);
    FalseHitsLength(Of(truths, StaticNegative), db);
    UnexpectedLength(truths, db, db);
    MisresolvedLength(Of(truths, DynamicPositive), db);
  }

  /** A report is right when its counters are the specified counts, its slots attribute them to
      their buckets and add up to them, and its confusion list names every error once. */
  ghost predicate Right(truths: seq<EdgeTruth>, db: seq<DbEdge>, pending: seq<PendingEdge>, languageOf: string -> string, r: Report) {
    && r.board.tp == TruePositives(truths, db) && r.board.fn == FalseNegatives(truths, db)
    && r.board.fpNegative == NegativeMatches(truths, db) && r.board.fpUnexpected == UnexpectedEdges(truths, db)
    && r.board.tn == TrueNegatives(truths, db) && r.board.fp == r.board.fpNegative + r.board.fpUnexpected
    && (forall b: (string, string) :: SlotAt(r.board.slots, b) == SlotOf(FullLog(truths, db, languageOf), b))
    && SumOver(r.board.slots.Keys, b => SlotAt(r.board.slots, b).tp) == r.board.tp
    && SumOver(r.board.slots.Keys, b => SlotAt(r.board.slots, b).fn) == r.board.fn
    && SumOver(r.board.slots.Keys, b => SlotAt(r.board.slots, b).tn) == r.board.tn
    && SumOver(r.board.slots.Keys, b => SlotAt(r.board.slots, b).fp) == r.board.fp
    && r.confusion == FullConfusion(truths, db, pending)
    && |r.confusion| == r.board.fn + r.board.fp + r.dynamic.sameBareOther
  }

  lemma FaithfulIsRight(truths: seq<EdgeTruth>, db: seq<DbEdge>, pending: seq<PendingEdge>, languageOf: string -> string,
                        groups: map<Key, seq<EdgeTruth>>, r: Report)
    requires GroupsOf(Of(truths, StaticPositive), KeysInOrder(Of(truths, StaticPositive)), groups)
    requires Tallied(r.board, FullLog(truths, db, languageOf))
    requires r.confusion == FullConfusion(truths, db, pending)
    requires r.dynamic.sameBareOther == Misresolutions(truths, db)
    ensures Right(truths, db, pending, languageOf, r)
  {
    var log := FullLog(truths, db, languageOf);
    assert Opened(log);
    LogTotals(truths, db, KeysInOrder(Of(truths, StaticPositive)), languageOf);
    SlotsSumToGlobals(r.board, log);
    ConfusionListsEveryError(truths, db, pending);
  }

  /** Exact evaluation of the database edges against the ground truth. */
  method EvaluateEdges(truths: seq<EdgeTruth>, db: seq<DbEdge>, pending: seq<PendingEdge>, languageOf: string -> string)
    returns (r: Report)
    ensures Right(truths, db, pending, languageOf, r)
    ensures r.board.fpUnexpected == CountIf(db, (e: DbEdge) => CountsAgainst(truths, db, e.key))
    ensures r.statics == |Of(truths, StaticPositive)| && r.negatives == |Of(truths, StaticNegative)|
    ensures r.dynamic == DynamicCounts(|Of(truths, DynamicPositive)|, ExactClaims(truths, db),
                                       Misresolutions(truths, db), Unclaimed(truths, db))
    ensures r.groups == |KeysInOrder(Of(truths, StaticPositive))|
    ensures r.identityGroups == CountIf(KeysInOrder(Of(truths, StaticPositive)), k => InDb(db, k))
    ensures r.looseHits == CountIf(Of(truths, StaticPositive), (t: EdgeTruth) => LooseHit(db, t))
  {
    var pos, neg, dynamic := Of(truths, StaticPositive), Of(truths, StaticNegative), Of(truths, DynamicPositive);
    var index, bySource := IndexEdges(db);
    var order, groups := GroupByKey(pos);
    var score, counts := ScoreAll(truths, db, pending, index, bySource, order, groups, languageOf);
    var identity := CountIdentities(db, index, order);
    var loose := LegacyLooseMatch(pos, db);
    r := Report(score.Tally(), |pos|, |neg|, counts, |order|, identity, loose, score.confusion);
    UnexpectedEdgesAre(truths, db);
    FaithfulIsRight(truths, db, pending, languageOf, groups, r);
  }

  method ScoreAll(truths: seq<EdgeTruth>, db: seq<DbEdge>, pending: seq<PendingEdge>, index: map<Key, DbEdge>,
                  bySource: map<Source, seq<DbEdge>>, order: seq<Key>, groups: map<Key, seq<EdgeTruth>>, languageOf: string -> string)
    returns (score: Scoreboard, counts: DynamicCounts)
    requires IndexOf(db, index, bySource)
    requires GroupsOf(Of(truths, StaticPositive), order, groups) && order == KeysInOrder(Of(truths, StaticPositive))
    ensures Tallied(score.Tally(), FullLog(truths, db, languageOf)) && score.confusion == FullConfusion(truths, db, pending)
    ensures counts == DynamicCounts(|Of(truths, DynamicPositive)|, ExactClaims(truths, db),
                                    Misresolutions(truths, db), Unclaimed(truths, db))
  {
    var pos := Of(truths, StaticPositive);
    score := new Scoreboard();
    var explained := score.ScorePositives(pos, db, pending, index, bySource, order, groups);
    StartsEmpty(score.log, PositiveLog(pos, db, order));
    StartsEmpty(score.confusion, Misses(pos, db, pending, order));
    ExplainedByGroups(pos, db, order);
    var matched := score.ScoreNegatives(Of(truths, StaticNegative), db, index);
    score.ScoreUnexpected(truths, db, groups.Keys, matched, explained, languageOf);
    assert score.log == FullLog(truths, db, languageOf);
    counts := score.ScoreDynamic(Of(truths, DynamicPositive), db, index, bySource);
  }

  lemma StartsEmpty<T>(now: seq<T>, added: seq<T>)
    requires now == [] + added
    ensures now == added
  {
  }

  method CountIdentities(ghost db: seq<DbEdge>, index: map<Key, DbEdge>, order: seq<Key>) returns (n: nat)
    requires forall k :: k in index <==> LastWith(db, k).Some?
    ensures n == CountIf(order, k => InDb(db, k))
  {
    n := 0;
    for i := 0 to |order|
      invariant n == CountIf(order[..i], k => InDb(db, k))
    {
      PrefixSnoc(order, i);
      LastWithMeaning(db, order[i]);
      if order[i] in index {
        n := n + 1;
      }
    }
    assert order[..|order|] == order;
  }
}
