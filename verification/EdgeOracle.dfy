/** The exact edge oracle of scripts/sot_evaluator.py. */
module EdgeOracle {
  import opened Counting

  // What evaluate_edges and its diagnostic companion _legacy_loose_match count. Messages and rounded ratios
  // are left to the reader of the report; every integer it carries is specified here.

  datatype Option<T> = None | Some(value: T)

  datatype Polarity = StaticPositive | StaticNegative | DynamicPositive

  datatype Key = Key(path: string, src: string, relation: string, dst: string, dstPath: string)

  datatype Source = Source(path: string, src: string, relation: string)

  datatype EdgeTruth = EdgeTruth(key: Key, line: Option<int>, language: string, polarity: Polarity)

  datatype DbEdge = DbEdge(key: Key, line: Option<int>)
  {
    function From(): Source {
      SourceOf(key)
    }
  }

  datatype PendingEdge = PendingEdge(path: string, src: string, dstSymbol: string)

  datatype Reason =
    | EdgeAbsent | SpanMismatch | IdentityUnqualified | WrongTarget | WrongRelation | PendingUnresolved

  datatype Confusion =
    | Missed(truth: EdgeTruth, reason: Reason)
    | FalseHit(truth: EdgeTruth, dbLine: Option<int>)
    | Unexpected(edge: DbEdge)
    | Misresolved(truth: EdgeTruth, claimed: DbEdge)

  function SourceOf(key: Key): Source {
    Source(key.path, key.src, key.relation)
  }

  /** The last dot-separated part of a symbol. */
  function Bare(symbol: string): string {
    if symbol == [] then []
    else if symbol[|symbol| - 1] == '.' then []
    else Bare(symbol[..|symbol| - 1]) + [symbol[|symbol| - 1]]
  }

  // ---- What the counters mean ---------------------------------------------------------

  /** db_index: a later edge with the same identity replaces an earlier one. */
  function LastWith(db: seq<DbEdge>, k: Key): Option<DbEdge> {
    if db == [] then None
    else if db[|db| - 1].key == k then Some(db[|db| - 1])
    else LastWith(db[..|db| - 1], k)
  }

  predicate InDb(db: seq<DbEdge>, k: Key) {
    exists e :: e in db && e.key == k
  }

  function Of(truths: seq<EdgeTruth>, polarity: Polarity): seq<EdgeTruth> {
    Filter(truths, (t: EdgeTruth) => t.polarity == polarity)
  }

  predicate HasKey(truths: seq<EdgeTruth>, k: Key) {
    exists t :: t in truths && t.key == k
  }

  /** A group of positives is hit when the indexed edge sits on one of the group's true lines. */
  predicate GroupHit(pos: seq<EdgeTruth>, db: seq<DbEdge>, k: Key) {
    var row := LastWith(db, k);
    row.Some? && row.value.line.Some? && exists t :: t in pos && t.key == k && t.line == row.value.line
  }

  predicate SameBare(source: Source, dst: string, e: DbEdge) {
    e.From() == source && Bare(e.key.dst) == Bare(dst)
  }

  /** The under-qualified form of a true edge: right file, right bare name, no exact row. */
  predicate Explains(db: seq<DbEdge>, t: EdgeTruth, k: Key) {
    && !InDb(db, t.key)
    && SourceOf(k) == SourceOf(t.key) && Bare(k.dst) == Bare(t.key.dst) && k.dstPath == t.key.dstPath
  }

  predicate Explained(pos: seq<EdgeTruth>, db: seq<DbEdge>, k: Key) {
    InDb(db, k) && exists t :: t in pos && Explains(db, t, k)
  }

  predicate CoveredSource(pos: seq<EdgeTruth>, path: string, src: string) {
    exists t :: t in pos && t.key.path == path && t.key.src == src
  }

  /** A resolved call from a source the ground truth covers, which nothing in it accounts for. */
  predicate IsUnexpected(truths: seq<EdgeTruth>, db: seq<DbEdge>, e: DbEdge) {
    var pos := Of(truths, StaticPositive);
    && e.key.relation == "calls"
    && CoveredSource(pos, e.key.path, e.key.src)
    && !HasKey(pos, e.key)
    && !(HasKey(Of(truths, StaticNegative), e.key) && InDb(db, e.key))
    && !HasKey(Of(truths, DynamicPositive), e.key)
    && !Explained(pos, db, e.key)
  }

  function TruePositives(truths: seq<EdgeTruth>, db: seq<DbEdge>): nat {
    var pos := Of(truths, StaticPositive);
    CountIf(pos, (t: EdgeTruth) => GroupHit(pos, db, t.key))
  }

  function FalseNegatives(truths: seq<EdgeTruth>, db: seq<DbEdge>): nat {
    var pos := Of(truths, StaticPositive);
    CountIf(pos, (t: EdgeTruth) => !GroupHit(pos, db, t.key))
  }

  function NegativeMatches(truths: seq<EdgeTruth>, db: seq<DbEdge>): nat {
    CountIf(Of(truths, StaticNegative), (t: EdgeTruth) => InDb(db, t.key))
  }

  function TrueNegatives(truths: seq<EdgeTruth>, db: seq<DbEdge>): nat {
    CountIf(Of(truths, StaticNegative), (t: EdgeTruth) => !InDb(db, t.key))
  }

  function UnexpectedEdges(truths: seq<EdgeTruth>, db: seq<DbEdge>): nat {
    CountIf(db, (e: DbEdge) => IsUnexpected(truths, db, e))
  }

  predicate ClaimedElsewhere(db: seq<DbEdge>, t: EdgeTruth) {
    !InDb(db, t.key) && exists e :: e in db && SameBare(SourceOf(t.key), t.key.dst, e)
  }

  function ExactClaims(truths: seq<EdgeTruth>, db: seq<DbEdge>): nat {
    CountIf(Of(truths, DynamicPositive), (t: EdgeTruth) => InDb(db, t.key))
  }

  function Misresolutions(truths: seq<EdgeTruth>, db: seq<DbEdge>): nat {
    CountIf(Of(truths, DynamicPositive), (t: EdgeTruth) => ClaimedElsewhere(db, t))
  }

  function Unclaimed(truths: seq<EdgeTruth>, db: seq<DbEdge>): nat {
    CountIf(Of(truths, DynamicPositive), (t: EdgeTruth) => !InDb(db, t.key) && !ClaimedElsewhere(db, t))
  }

  /** Any of the three tiers of the old matcher. */
  predicate LooseHit(db: seq<DbEdge>, t: EdgeTruth) {
    || Confirmed(db, t.key.path, t.key.src, t.key.dst, t.key.relation)
    || Confirmed(db, t.key.path, t.key.src, Bare(t.key.dst), t.key.relation)
    || Confirmed(db, t.key.path, Bare(t.key.src), Bare(t.key.dst), t.key.relation)
  }

  predicate Confirmed(db: seq<DbEdge>, path: string, src: string, dst: string, relation: string) {
    exists e :: e in db && e.From() == Source(path, src, relation) && e.key.dst == dst
  }

  // ---- Laws of the counters -----------------------------------------------------------

  lemma {:induction false} LastWithMeaning(db: seq<DbEdge>, k: Key)
    ensures LastWith(db, k).Some? <==> InDb(db, k)
    ensures LastWith(db, k).Some? ==> LastWith(db, k).value in db && LastWith(db, k).value.key == k
    decreases |db|
  {
    if db != [] {
      var init, last := db[..|db| - 1], db[|db| - 1];
      assert db == init + [last];
      LastWithMeaning(init, k);
    }
  }

  /** The row that stands at position i is the latest of its identity. */
  predicate Latest(db: seq<DbEdge>, i: int, k: Key) {
    0 <= i < |db| && db[i].key == k && forall j :: i < j < |db| ==> db[j].key != k
  }

  /** Of several rows of one identity the latest counts, and only that. */
  lemma {:induction false} LatestRowCounts(db: seq<DbEdge>, k: Key, i: int)
    requires Latest(db, i, k)
    ensures LastWith(db, k) == Some(db[i])
    decreases |db|
  {
    if i < |db| - 1 {
      assert Latest(db[..|db| - 1], i, k);
      LatestRowCounts(db[..|db| - 1], k, i);
    }
  }

  lemma {:induction false} HasLatest(db: seq<DbEdge>, k: Key)
    requires InDb(db, k)
    ensures exists i :: Latest(db, i, k)
    decreases |db|
  {
    var init, last := db[..|db| - 1], db[|db| - 1];
    assert db == init + [last];
    if last.key == k {
      assert Latest(db, |db| - 1, k);
    } else {
      HasLatest(init, k);
      var i :| Latest(init, i, k);
      assert Latest(db, i, k);
    }
  }

  /** A positive counts as found exactly when the latest row of its identity has a line, and that is the
      line of some positive of the identity. */
  lemma FoundIff(pos: seq<EdgeTruth>, db: seq<DbEdge>, k: Key)
    ensures GroupHit(pos, db, k)
            <==> exists i, t :: Latest(db, i, k) && db[i].line.Some? && t in pos && t.key == k && t.line == db[i].line
  {
    LastWithMeaning(db, k);
    if InDb(db, k) {
      HasLatest(db, k);
      var i :| Latest(db, i, k);
      LatestRowCounts(db, k, i);
    }
    forall i | Latest(db, i, k) ensures LastWith(db, k) == Some(db[i]) { LatestRowCounts(db, k, i); }
  }

  predicate UniqueKeys(db: seq<DbEdge>) {
    forall i, j :: 0 <= i < j < |db| ==> db[i].key != db[j].key
  }

  /** The exact six-part contract, when the database holds an identity at most once: a positive
      counts as found iff some edge has its identity and lies on a true line of that identity. */
  lemma ExactContract(pos: seq<EdgeTruth>, db: seq<DbEdge>, k: Key)
    requires UniqueKeys(db)
    ensures GroupHit(pos, db, k) <==>
            exists e, t :: e in db && t in pos && e.key == k && t.key == k && e.line.Some? && e.line == t.line
  {
    LastWithMeaning(db, k);
    forall e | e in db && e.key == k ensures LastWith(db, k) == Some(e) {
      var last := LastWith(db, k).value;
      assert last == e by {
        var i :| 0 <= i < |db| && db[i] == e;
        var j :| 0 <= j < |db| && db[j] == last;
      }
    }
  }

  /** Nothing is lost and nothing counted twice. */
  lemma Conservation(truths: seq<EdgeTruth>, db: seq<DbEdge>)
    ensures TruePositives(truths, db) + FalseNegatives(truths, db) == |Of(truths, StaticPositive)|
    ensures NegativeMatches(truths, db) + TrueNegatives(truths, db) == |Of(truths, StaticNegative)|
    ensures ExactClaims(truths, db) + Misresolutions(truths, db) + Unclaimed(truths, db)
            == |Of(truths, DynamicPositive)|
    ensures |Of(truths, StaticPositive)| + |Of(truths, StaticNegative)| + |Of(truths, DynamicPositive)| == |truths|
  {
    var pos, neg, dyn := Of(truths, StaticPositive), Of(truths, StaticNegative), Of(truths, DynamicPositive);
    CountAll(pos, (t: EdgeTruth) => true);
    CountSplit(pos, (t: EdgeTruth) => true, (t: EdgeTruth) => GroupHit(pos, db, t.key),
               (t: EdgeTruth) => !GroupHit(pos, db, t.key));
    CountAll(neg, (t: EdgeTruth) => true);
    CountSplit(neg, (t: EdgeTruth) => true, (t: EdgeTruth) => InDb(db, t.key), (t: EdgeTruth) => !InDb(db, t.key));
    CountAll(dyn, (t: EdgeTruth) => true);
    CountSplit(dyn, (t: EdgeTruth) => true, (t: EdgeTruth) => InDb(db, t.key), (t: EdgeTruth) => !InDb(db, t.key));
    CountSplit(dyn, (t: EdgeTruth) => !InDb(db, t.key), (t: EdgeTruth) => ClaimedElsewhere(db, t),
               (t: EdgeTruth) => !InDb(db, t.key) && !ClaimedElsewhere(db, t));
    PolaritiesPartition(truths);
  }

  lemma PolaritiesPartition(truths: seq<EdgeTruth>)
    ensures |Of(truths, StaticPositive)| + |Of(truths, StaticNegative)| + |Of(truths, DynamicPositive)| == |truths|
  {
    var p, n, d := (t: EdgeTruth) => t.polarity == StaticPositive, (t: EdgeTruth) => t.polarity == StaticNegative,
                   (t: EdgeTruth) => t.polarity == DynamicPositive;
    var rest := (t: EdgeTruth) => t.polarity != StaticPositive;
    FilterMember(truths, p);
    FilterMember(truths, n);
    FilterMember(truths, d);
    CountAll(truths, (t: EdgeTruth) => true);
    CountSplit(truths, (t: EdgeTruth) => true, p, rest);
    CountSplit(truths, rest, n, d);
  }

  /** Padding the database cannot buy recall: an extra edge whose identity is not a static positive,
      wherever it is inserted, leaves true positives and false negatives alone and changes the
      false positives through itself only. */
  lemma ExtraEdgeCannotInflate(truths: seq<EdgeTruth>, before: seq<DbEdge>, extra: DbEdge, rest: seq<DbEdge>)
    requires !HasKey(Of(truths, StaticPositive), extra.key)
    ensures var db, more := before + rest, before + [extra] + rest;
            && TruePositives(truths, more) == TruePositives(truths, db)
            && FalseNegatives(truths, more) == FalseNegatives(truths, db)
            && UnexpectedEdges(truths, more)
               == UnexpectedEdges(truths, db) + (if IsUnexpected(truths, more, extra) then 1 else 0)
            && NegativeMatches(truths, more) == NegativeMatches(truths, db)
               + (if InDb(db, extra.key) then 0
                  else CountIf(Of(truths, StaticNegative), (t: EdgeTruth) => t.key == extra.key))
  {
    var db, more := before + rest, before + [extra] + rest;
    var pos, neg := Of(truths, StaticPositive), Of(truths, StaticNegative);
    assert forall e :: e in more <==> e in db || e == extra;
    forall t | t in pos ensures GroupHit(pos, more, t.key) == GroupHit(pos, db, t.key) && InDb(more, t.key) == InDb(db, t.key) {
      assert t.key != extra.key;
      LastWithInsert(before, extra, rest, t.key);
    }
    CountAgree(pos, (t: EdgeTruth) => GroupHit(pos, more, t.key), (t: EdgeTruth) => GroupHit(pos, db, t.key));
    CountAgree(pos, (t: EdgeTruth) => !GroupHit(pos, more, t.key), (t: EdgeTruth) => !GroupHit(pos, db, t.key));
    forall e | e in db ensures IsUnexpected(truths, more, e) == IsUnexpected(truths, db, e) {
      assert InDb(db, e.key) && InDb(more, e.key);
      assert forall t :: t in pos ==> Explains(more, t, e.key) == Explains(db, t, e.key);
    }
    var p, q := (e: DbEdge) => IsUnexpected(truths, more, e), (e: DbEdge) => IsUnexpected(truths, db, e);
    CountConcat(before + [extra], rest, p);
    CountSnoc(before, extra, p);
    CountConcat(before, rest, q);
    CountAgree(before, p, q);
    CountAgree(rest, p, q);
    assert forall k :: InDb(more, k) <==> InDb(db, k) || k == extra.key;
    if InDb(db, extra.key) {
      CountAgree(neg, (t: EdgeTruth) => InDb(more, t.key), (t: EdgeTruth) => InDb(db, t.key));
    } else {
      CountSplit(neg, (t: EdgeTruth) => InDb(more, t.key), (t: EdgeTruth) => InDb(db, t.key),
                 (t: EdgeTruth) => t.key == extra.key);
    }
  }

  /** What an extra edge does to the unexpected ones, in plain terms. A call adds one iff the ground truth
      has a static positive of the same file and source symbol, no truth of any polarity has its identity,
      and no positive without a row of its own, from the same source, relation and target file, ends in the
      same name; an edge under any other relation changes nothing. */
  lemma ExtraEdgeIsUnexpectedIff(truths: seq<EdgeTruth>, before: seq<DbEdge>, extra: DbEdge, rest: seq<DbEdge>)
    requires extra.key.relation == "calls" ==> forall t :: t in truths && t.polarity.StaticPositive? ==> t.key != extra.key
    ensures UnexpectedEdges(truths, before + [extra] + rest)
            == UnexpectedEdges(truths, before + rest) + if CountsAgainst(truths, before + rest, extra.key) then 1 else 0
  {
    if extra.key.relation == "calls" {
      if HasKey(Of(truths, StaticPositive), extra.key) {
        OfMembers(truths, StaticPositive);
      }
      ExtraEdgeCannotInflate(truths, before, extra, rest);
      CountsAgainstMeaning(truths, before, extra, rest);
    } else {
      OtherRelationsDoNotCount(truths, before, extra, rest);
    }
  }

  predicate CountsAgainst(truths: seq<EdgeTruth>, db: seq<DbEdge>, k: Key) {
    && k.relation == "calls"
    && (exists t :: t in truths && t.polarity == StaticPositive && t.key.path == k.path && t.key.src == k.src)
    && (forall t :: t in truths ==> t.key != k)
    && !exists t :: t in truths && t.polarity == StaticPositive && UnderQualified(db, t.key, k)
  }

  /** k is the form of g that a missing qualification leaves, and g itself is in no row. */
  predicate UnderQualified(db: seq<DbEdge>, g: Key, k: Key) {
    && (forall e :: e in db ==> e.key != g)
    && g.path == k.path && g.src == k.src && g.relation == k.relation && g.dstPath == k.dstPath
    && Bare(g.dst) == Bare(k.dst)
  }

  /** The bare name is what follows the last dot, or all of a name without dots. */
  lemma {:induction false} BareIsLastPart(symbol: string)
    ensures '.' !in Bare(symbol)
    ensures symbol == Bare(symbol) || exists front :: symbol == front + "." + Bare(symbol)
    decreases |symbol|
  {
    if symbol != "" {
      var init, last := symbol[..|symbol| - 1], symbol[|symbol| - 1];
      assert symbol == init + [last];
      if last == '.' {
        assert symbol == init + "." + Bare(symbol);
      } else {
        BareIsLastPart(init);
        if init != Bare(init) {
          var front :| init == front + "." + Bare(init);
          assert symbol == front + "." + Bare(symbol);
        }
      }
    }
  }

  lemma CountsAgainstMeaning(truths: seq<EdgeTruth>, before: seq<DbEdge>, extra: DbEdge, rest: seq<DbEdge>)
    requires extra.key.relation == "calls" && !HasKey(Of(truths, StaticPositive), extra.key)
    ensures IsUnexpected(truths, before + [extra] + rest, extra) <==> CountsAgainst(truths, before + rest, extra.key)
  {
    var more, k := before + [extra] + rest, extra.key;
    OfMembers(truths, StaticPositive);
    assert extra in more;
    assert InDb(more, k);
    assert (forall t :: t in truths ==> t.key != k)
      <==> !HasKey(Of(truths, StaticPositive), k) && !HasKey(Of(truths, StaticNegative), k) && !HasKey(Of(truths, DynamicPositive), k) by {
      KeysByPolarity(truths, k);
    }
    forall t | t in Of(truths, StaticPositive)
      ensures Explains(more, t, k) <==> UnderQualified(before + rest, t.key, k)
    {
      assert t.key != k;
      InsertedKeys(before, extra, rest, t.key);
    }
  }

  /** The unexpected edges are exactly those that count against the extractor. */
  lemma UnexpectedEdgesAre(truths: seq<EdgeTruth>, db: seq<DbEdge>)
    ensures UnexpectedEdges(truths, db) == CountIf(db, (e: DbEdge) => CountsAgainst(truths, db, e.key))
  {
    forall e: DbEdge | e in db ensures IsUnexpected(truths, db, e) <==> CountsAgainst(truths, db, e.key) {
      IsUnexpectedIff(truths, db, e);
    }
    CountAgree(db, (e: DbEdge) => IsUnexpected(truths, db, e), (e: DbEdge) => CountsAgainst(truths, db, e.key));
  }

  lemma IsUnexpectedIff(truths: seq<EdgeTruth>, db: seq<DbEdge>, e: DbEdge)
    requires e in db
    ensures IsUnexpected(truths, db, e) <==> CountsAgainst(truths, db, e.key)
  {
    OfMembers(truths, StaticPositive);
    KeysByPolarity(truths, e.key);
    assert InDb(db, e.key);
    forall t | t in Of(truths, StaticPositive) ensures Explains(db, t, e.key) <==> UnderQualified(db, t.key, e.key) {}
  }

  lemma InsertedKeys(before: seq<DbEdge>, extra: DbEdge, rest: seq<DbEdge>, k: Key)
    requires k != extra.key
    ensures InDb(before + [extra] + rest, k) <==> exists e :: e in before + rest && e.key == k
  {
    var more := before + [extra] + rest;
    forall e ensures e in more <==> e in before + rest || e == extra {}
  }

  lemma OfMembers(truths: seq<EdgeTruth>, polarity: Polarity)
    ensures forall t :: t in Of(truths, polarity) <==> t in truths && t.polarity == polarity
  {
    FilterMember(truths, (t: EdgeTruth) => t.polarity == polarity);
  }

  lemma KeysByPolarity(truths: seq<EdgeTruth>, k: Key)
    ensures (exists t :: t in truths && t.key == k)
            <==> HasKey(Of(truths, StaticPositive), k) || HasKey(Of(truths, StaticNegative), k) || HasKey(Of(truths, DynamicPositive), k)
  {
    OfMembers(truths, StaticPositive);
    OfMembers(truths, StaticNegative);
    OfMembers(truths, DynamicPositive);
    if t :| t in truths && t.key == k {
      assert t in Of(truths, t.polarity);
    }
  }

  lemma OtherRelationsDoNotCount(truths: seq<EdgeTruth>, before: seq<DbEdge>, extra: DbEdge, rest: seq<DbEdge>)
    requires extra.key.relation != "calls"
    ensures UnexpectedEdges(truths, before + [extra] + rest) == UnexpectedEdges(truths, before + rest)
  {
    var db, more := before + rest, before + [extra] + rest;
    var p, q := (e: DbEdge) => IsUnexpected(truths, db, e), (e: DbEdge) => IsUnexpected(truths, more, e);
    forall e: DbEdge ensures IsUnexpected(truths, db, e) == IsUnexpected(truths, more, e) {
      if e.key.relation == "calls" {
        InsertedKeys(before, extra, rest, e.key);
        forall t: EdgeTruth ensures Explains(db, t, e.key) == Explains(more, t, e.key) {
          if t.key != extra.key { InsertedKeys(before, extra, rest, t.key); }
        }
      }
    }
    CountConcat(before + [extra], rest, q);
    CountSnoc(before, extra, q);
    CountConcat(before, rest, q);
    CountAgree(db, p, q);
  }

  /** The three tiers of the loose matcher, in terms of edges. */
  lemma LooseHitIff(db: seq<DbEdge>, t: EdgeTruth)
    ensures LooseHit(db, t) <==> exists e :: e in db && LooselyIs(e.key, t.key)
  {
    forall e: DbEdge | e in db && LooselyIs(e.key, t.key) ensures LooseHit(db, t) {
      assert Confirmed(db, e.key.path, e.key.src, e.key.dst, e.key.relation);
    }
  }

  /** Same file and relation, and symbols that agree in full, in the bare target, or in both bare names. */
  predicate LooselyIs(k: Key, true_: Key) {
    && k.path == true_.path && k.relation == true_.relation
    && (|| (k.src == true_.src && k.dst == true_.dst)
        || (k.src == true_.src && k.dst == Bare(true_.dst))
        || (k.src == Bare(true_.src) && k.dst == Bare(true_.dst)))
  }

  lemma {:induction false} LastWithInsert(before: seq<DbEdge>, extra: DbEdge, rest: seq<DbEdge>, k: Key)
    requires k != extra.key
    ensures LastWith(before + [extra] + rest, k) == LastWith(before + rest, k)
    decreases |rest|
  {
    if rest == [] {
      assert before + [extra] + rest == before + [extra] && before + rest == before;
      assert (before + [extra])[..|before|] == before;
    } else {
      var init := rest[..|rest| - 1];
      assert (before + [extra] + rest)[..|before + [extra] + rest| - 1] == before + [extra] + init;
      assert (before + rest)[..|before + rest| - 1] == before + init;
      LastWithInsert(before, extra, init, k);
    }
  }

  /** With unique identities no counter depends on the order of the truths or of the edges. */
  lemma OrderDoesNotMatter(truths: seq<EdgeTruth>, truths': seq<EdgeTruth>, db: seq<DbEdge>, db': seq<DbEdge>)
    requires multiset(truths) == multiset(truths') && multiset(db) == multiset(db') && UniqueKeys(db)
    ensures TruePositives(truths, db) == TruePositives(truths', db')
    ensures FalseNegatives(truths, db) == FalseNegatives(truths', db')
    ensures NegativeMatches(truths, db) == NegativeMatches(truths', db')
    ensures TrueNegatives(truths, db) == TrueNegatives(truths', db')
    ensures UnexpectedEdges(truths, db) == UnexpectedEdges(truths', db')
    ensures ExactClaims(truths, db) == ExactClaims(truths', db')
    ensures Misresolutions(truths, db) == Misresolutions(truths', db')
    ensures Unclaimed(truths, db) == Unclaimed(truths', db')
  {
    TruthOrderDoesNotMatter(truths, truths', db, db');
    EdgeOrderDoesNotMatter(truths, truths', db, db');
    ClassSizes(truths, truths');
    Conservation(truths, db);
    Conservation(truths', db');
  }

  lemma ClassSizes(truths: seq<EdgeTruth>, truths': seq<EdgeTruth>)
    requires multiset(truths) == multiset(truths')
    ensures forall polarity :: |Of(truths, polarity)| == |Of(truths', polarity)|
  {
    forall polarity ensures |Of(truths, polarity)| == |Of(truths', polarity)| {
      FilterPermutation(truths, truths', polarity);
      assert |multiset(Of(truths, polarity))| == |Of(truths, polarity)|;
      assert |multiset(Of(truths', polarity))| == |Of(truths', polarity)|;
    }
  }

  lemma TruthOrderDoesNotMatter(truths: seq<EdgeTruth>, truths': seq<EdgeTruth>, db: seq<DbEdge>, db': seq<DbEdge>)
    requires multiset(truths) == multiset(truths') && multiset(db) == multiset(db') && UniqueKeys(db)
    ensures TruePositives(truths, db) == TruePositives(truths', db')
    ensures FalseNegatives(truths, db) == FalseNegatives(truths', db')
    ensures NegativeMatches(truths, db) == NegativeMatches(truths', db')
    ensures ExactClaims(truths, db) == ExactClaims(truths', db')
    ensures Misresolutions(truths, db) == Misresolutions(truths', db')
  {
    FilterPermutation(truths, truths', StaticPositive);
    FilterPermutation(truths, truths', StaticNegative);
    FilterPermutation(truths, truths', DynamicPositive);
    var pos, pos' := Of(truths, StaticPositive), Of(truths', StaticPositive);
    var neg, neg' := Of(truths, StaticNegative), Of(truths', StaticNegative);
    var dyn, dyn' := Of(truths, DynamicPositive), Of(truths', DynamicPositive);
    SameElements(db, db');
    SameElements(pos, pos');
    SameElements(neg, neg');
    SameElements(dyn, dyn');
    UniqueKeysPermutation(db, db');
    forall k ensures GroupHit(pos, db, k) == GroupHit(pos', db', k) {
      ExactContract(pos, db, k);
      ExactContract(pos', db', k);
    }
    forall k ensures InDb(db, k) == InDb(db', k) {}
    CountPermutation(pos, pos', (t: EdgeTruth) => GroupHit(pos, db, t.key));
    CountAgree(pos', (t: EdgeTruth) => GroupHit(pos, db, t.key), (t: EdgeTruth) => GroupHit(pos', db', t.key));
    CountPermutation(pos, pos', (t: EdgeTruth) => !GroupHit(pos, db, t.key));
    CountAgree(pos', (t: EdgeTruth) => !GroupHit(pos, db, t.key), (t: EdgeTruth) => !GroupHit(pos', db', t.key));
    CountPermutation(neg, neg', (t: EdgeTruth) => InDb(db, t.key));
    CountAgree(neg', (t: EdgeTruth) => InDb(db, t.key), (t: EdgeTruth) => InDb(db', t.key));
    CountPermutation(dyn, dyn', (t: EdgeTruth) => InDb(db, t.key));
    CountAgree(dyn', (t: EdgeTruth) => InDb(db, t.key), (t: EdgeTruth) => InDb(db', t.key));
    CountPermutation(dyn, dyn', (t: EdgeTruth) => ClaimedElsewhere(db, t));
    CountAgree(dyn', (t: EdgeTruth) => ClaimedElsewhere(db, t), (t: EdgeTruth) => ClaimedElsewhere(db', t));
  }

  lemma EdgeOrderDoesNotMatter(truths: seq<EdgeTruth>, truths': seq<EdgeTruth>, db: seq<DbEdge>, db': seq<DbEdge>)
    requires multiset(truths) == multiset(truths') && multiset(db) == multiset(db')
    ensures UnexpectedEdges(truths, db) == UnexpectedEdges(truths', db')
  {
    FilterPermutation(truths, truths', StaticPositive);
    FilterPermutation(truths, truths', StaticNegative);
    FilterPermutation(truths, truths', DynamicPositive);
    SameElements(db, db');
    SameElements(Of(truths, StaticPositive), Of(truths', StaticPositive));
    SameElements(Of(truths, StaticNegative), Of(truths', StaticNegative));
    SameElements(Of(truths, DynamicPositive), Of(truths', DynamicPositive));
    forall k ensures InDb(db, k) == InDb(db', k) {}
    forall e ensures IsUnexpected(truths, db, e) == IsUnexpected(truths', db', e) {
      assert forall t :: Explains(db, t, e.key) == Explains(db', t, e.key);
    }
    CountPermutation(db, db', (e: DbEdge) => IsUnexpected(truths, db, e));
    CountAgree(db', (e: DbEdge) => IsUnexpected(truths, db, e), (e: DbEdge) => IsUnexpected(truths', db', e));
  }

  lemma SameElements<T>(xs: seq<T>, ys: seq<T>)
    requires multiset(xs) == multiset(ys)
    ensures forall x :: x in xs <==> x in ys
  {
    forall x ensures x in xs <==> x in ys {
      assert x in xs <==> x in multiset(xs);
      assert x in ys <==> x in multiset(ys);
    }
  }

  lemma FilterPermutation(truths: seq<EdgeTruth>, truths': seq<EdgeTruth>, polarity: Polarity)
    requires multiset(truths) == multiset(truths')
    ensures multiset(Of(truths, polarity)) == multiset(Of(truths', polarity))
  {
    FilterMultiset(truths, polarity);
    FilterMultiset(truths', polarity);
  }

  lemma {:induction false} FilterMultiset(truths: seq<EdgeTruth>, polarity: Polarity)
    ensures forall t :: multiset(Of(truths, polarity))[t] == if t.polarity == polarity then multiset(truths)[t] else 0
    decreases |truths|
  {
    if truths != [] {
      FilterMultiset(truths[..|truths| - 1], polarity);
      assert truths == truths[..|truths| - 1] + [truths[|truths| - 1]];
    }
  }

  lemma UniqueKeysPermutation(db: seq<DbEdge>, db': seq<DbEdge>)
    requires multiset(db) == multiset(db') && UniqueKeys(db)
    ensures UniqueKeys(db')
  {
    forall i, j | 0 <= i < j < |db'| ensures db'[i].key != db'[j].key {
      var k := db'[i].key;
      var p := (e: DbEdge) => e.key == k;
      UniqueKeysCountOnce(db, k);
      CountPermutation(db, db', p);
      if db'[j].key == k {
        var front, back := db'[..i + 1], db'[i + 1..];
        assert db' == front + back;
        CountConcat(front, back, p);
        assert front[i] == db'[i];
        CountSome(front, db'[i], p);
        assert back[j - i - 1] == db'[j];
        CountSome(back, db'[j], p);
      }
    }
  }

  lemma {:induction false} UniqueKeysCountOnce(db: seq<DbEdge>, k: Key)
    requires UniqueKeys(db)
    ensures CountIf(db, (e: DbEdge) => e.key == k) <= 1
    decreases |db|
  {
    if db != [] {
      var init := db[..|db| - 1];
      UniqueKeysCountOnce(init, k);
      if db[|db| - 1].key == k { CountNone(init, (e: DbEdge) => e.key == k); }
    }
  }

  /** Among the positives exact matches are identity matches, and identity matches are matches of the old
      loose matcher. The loose recall is a share of the positives, like the exact one, and so never below
      it; the identity recall of the report is a share of the groups, see EdgeDiagnostics. */
  lemma MatchersNested(truths: seq<EdgeTruth>, db: seq<DbEdge>)
    ensures var pos := Of(truths, StaticPositive);
            TruePositives(truths, db) <= CountIf(pos, (t: EdgeTruth) => InDb(db, t.key))
                                      <= CountIf(pos, (t: EdgeTruth) => LooseHit(db, t))
    ensures forall t :: t in Of(truths, StaticPositive) && GroupHit(Of(truths, StaticPositive), db, t.key) ==> InDb(db, t.key)
    ensures forall t: EdgeTruth :: InDb(db, t.key) ==> LooseHit(db, t)
  {
    var pos := Of(truths, StaticPositive);
    forall t: EdgeTruth ensures GroupHit(pos, db, t.key) ==> InDb(db, t.key) { LastWithMeaning(db, t.key); }
    CountWeaker(pos, (t: EdgeTruth) => GroupHit(pos, db, t.key), (t: EdgeTruth) => InDb(db, t.key));
    CountWeaker(pos, (t: EdgeTruth) => InDb(db, t.key), (t: EdgeTruth) => LooseHit(db, t));
  }
}
