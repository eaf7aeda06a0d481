/** Time-bounded retrieval: a store keyed by record id, a ranked search that
    never looks past its reference instant, and the newest record per source. */
module ContextStore {
  import opened Wrappers
  import opened Order

  datatype ContextRecord = ContextRecord(
    recordId: string,
    runId: string,
    eventTime: int,
    sourceType: string,
    region: Option<string>,
    content: string,
    contentHash: string)

  datatype RetrievalQuery = RetrievalQuery(
    queryText: string,
    asOf: int,
    limit: int,
    runId: Option<string>,
    region: Option<string>,
    sourceTypes: seq<string>)

  /** The content hash and the tokenizer, both arbitrary functions of the text. */
  datatype Text = Text(hash: string -> string, tokens: string -> set<string>)

  // ---- matching and ranking

  predicate Matches(r: ContextRecord, q: RetrievalQuery) {
    && r.eventTime <= q.asOf
    && (q.runId.Some? ==> r.runId == q.runId.value)
    && (q.region.Some? ==> r.region == None || r.region == q.region)
    && (q.sourceTypes != [] ==> r.sourceType in q.sourceTypes)
  }

  /** The share of query tokens found in the content. */
  function Score(text: Text, r: ContextRecord, q: RetrievalQuery): real {
    var wanted := text.tokens(q.queryText);
    |wanted * text.tokens(r.content)| as real / (if |wanted| > 1 then |wanted| else 1) as real
  }

  /** Higher score first, then newer, then the smaller id. */
  predicate Before(text: Text, q: RetrievalQuery, a: ContextRecord, b: ContextRecord) {
    || Score(text, a, q) > Score(text, b, q)
    || (Score(text, a, q) == Score(text, b, q)
        && (|| a.eventTime > b.eventTime
            || (a.eventTime == b.eventTime && StringLess(a.recordId, b.recordId))))
  }

  /** Records of one store: at most one per id. */
  ghost predicate OnePerId(records: set<ContextRecord>) {
    forall a, b :: a in records && b in records && a.recordId == b.recordId ==> a == b
  }

  lemma BeforeIsStrict(text: Text, q: RetrievalQuery)
    ensures forall a, b :: Before(text, q, a, b) ==> !Before(text, q, b, a)
    ensures forall a, b, c :: Before(text, q, a, b) && Before(text, q, b, c) ==> Before(text, q, a, c)
  {
    StringLessIsStrictTotal();
  }

  lemma BeforeIsTotal(text: Text, q: RetrievalQuery, records: set<ContextRecord>)
    requires OnePerId(records)
    ensures forall a, b :: a in records && b in records && a != b ==> Before(text, q, a, b) || Before(text, q, b, a)
  {
    StringLessIsStrictTotal();
  }

  /** `found` lists the best min(limit, matches) of the records that match, best
      first: matching records only, each before the next, and every matching
      record left out comes after all of them. */
  ghost predicate IsTop(text: Text, q: RetrievalQuery, records: set<ContextRecord>, found: seq<ContextRecord>) {
    && (forall i :: 0 <= i < |found| ==> found[i] in records && Matches(found[i], q))
    && (forall i, j :: 0 <= i < j < |found| ==> Before(text, q, found[i], found[j]))
    && (forall r :: r in records && Matches(r, q) && r !in found
          ==> && |found| == (if q.limit < 1 then 0 else q.limit)
              && forall i :: 0 <= i < |found| ==> Before(text, q, found[i], r))
    && |found| <= (if q.limit < 1 then 0 else q.limit)
  }

  // ---- the store

  class InMemoryContextStore {
    const text: Text
    var records: map<string, ContextRecord>

    constructor (text: Text)
      ensures this.text == text && records == map[] && Valid()
    {
      this.text, records := text, map[];
    }

    ghost predicate Valid()
      reads this
    {
      forall id :: id in records ==> records[id].recordId == id
    }

    function All(): set<ContextRecord>
      reads this
    {
      records.Values
    }

    /** Store the records in order, a later one replacing an earlier one of the
        same id; stops at the first record with an invalid content hash. */
    method Upsert(batch: seq<ContextRecord>) returns (ok: bool)
      requires Valid()
      modifies this`records
      ensures Valid()
      ensures ok <==> forall i :: 0 <= i < |batch| ==> batch[i].contentHash == text.hash(batch[i].content)
      ensures records == Stored(old(records), Accepted(text, batch))
      ensures ok ==> Accepted(text, batch) == batch
    {
      for i := 0 to |batch|
        invariant Valid()
        invariant forall k :: 0 <= k < i ==> batch[k].contentHash == text.hash(batch[k].content)
        invariant records == Stored(old(records), batch[..i])
      {
        var r := batch[i];
        assert batch[..i + 1][..i] == batch[..i];
        if r.contentHash != text.hash(r.content) {
          AcceptedStops(text, batch, i);
          return false;
        }
        records := records[r.recordId := r];
      }
      assert batch[..|batch|] == batch;
      AcceptedAll(text, batch);
      return true;
    }

    method Search(q: RetrievalQuery) returns (found: seq<ContextRecord>)
      requires Valid()
      ensures IsTop(text, q, All(), found)
    {
      if q.limit < 1 {
        return [];
      }
      var sorted: seq<ContextRecord> := [];
      var ids := records.Keys;
      while ids != {}
        invariant ids <= records.Keys
        invariant forall r :: r in sorted
                    <==> exists id :: id in records && id !in ids && r == records[id] && Matches(r, q)
        invariant forall i, j :: 0 <= i < j < |sorted| ==> Before(text, q, sorted[i], sorted[j])
        decreases |ids|
      {
        var id :| id in ids;
        var r := records[id];
        if Matches(r, q) {
          assert r !in sorted;
          sorted := Place(r, q, sorted);
        }
        ids := ids - {id};
      }
      assert forall r :: r in sorted <==> r in All() && Matches(r, q);
      found := if |sorted| <= q.limit then sorted else sorted[..q.limit];
    }

    /** Put a match where the sort puts it. */
    method Place(r: ContextRecord, q: RetrievalQuery, sorted: seq<ContextRecord>) returns (placed: seq<ContextRecord>)
      requires Valid() && r in All() && r !in sorted
      requires forall x :: x in sorted ==> x in All()
      requires forall i, j :: 0 <= i < j < |sorted| ==> Before(text, q, sorted[i], sorted[j])
      ensures forall x :: x in placed <==> x == r || x in sorted
      ensures forall i, j :: 0 <= i < j < |placed| ==> Before(text, q, placed[i], placed[j])
    {
      var k := 0;
      while k < |sorted| && Before(text, q, sorted[k], r)
        invariant 0 <= k <= |sorted|
        invariant forall i :: 0 <= i < k ==> Before(text, q, sorted[i], r)
      {
        k := k + 1;
      }
      if k < |sorted| {
        assert sorted[k] in sorted;
        BeforeIsTotal(text, q, All());
      }
      PlacedInOrder(text, q, sorted, k, r);
      placed := sorted[..k] + [r] + sorted[k..];
    }
  }

  lemma PlacedInOrder(text: Text, q: RetrievalQuery, sorted: seq<ContextRecord>, k: nat, r: ContextRecord)
    requires k <= |sorted|
    requires forall i, j :: 0 <= i < j < |sorted| ==> Before(text, q, sorted[i], sorted[j])
    requires forall i :: 0 <= i < k ==> Before(text, q, sorted[i], r)
    requires k < |sorted| ==> Before(text, q, r, sorted[k])
    ensures var placed := sorted[..k] + [r] + sorted[k..];
            && (forall x :: x in placed <==> x == r || x in sorted)
            && (forall i, j :: 0 <= i < j < |placed| ==> Before(text, q, placed[i], placed[j]))
  {
    BeforeIsStrict(text, q);
    assert sorted == sorted[..k] + sorted[k..];
    forall j | k <= j < |sorted| ensures Before(text, q, r, sorted[j]) {
      assert j == k || Before(text, q, sorted[k], sorted[j]);
    }
  }

  /** The records of a batch before the first invalid hash. */
  function Accepted(text: Text, batch: seq<ContextRecord>): seq<ContextRecord> {
    if batch == [] then []
    else if batch[0].contentHash != text.hash(batch[0].content) then []
    else [batch[0]] + Accepted(text, batch[1..])
  }

  lemma {:induction false} AcceptedStops(text: Text, batch: seq<ContextRecord>, i: nat)
    requires i < |batch|
    requires forall k :: 0 <= k < i ==> batch[k].contentHash == text.hash(batch[k].content)
    requires batch[i].contentHash != text.hash(batch[i].content)
    ensures Accepted(text, batch) == batch[..i]
  {
    if i > 0 {
      AcceptedStops(text, batch[1..], i - 1);
      assert batch[..i] == [batch[0]] + batch[1..][..i - 1];
    }
  }

  lemma {:induction false} AcceptedAll(text: Text, batch: seq<ContextRecord>)
    requires forall k :: 0 <= k < |batch| ==> batch[k].contentHash == text.hash(batch[k].content)
    ensures Accepted(text, batch) == batch
  {
    if batch != [] {
      AcceptedAll(text, batch[1..]);
    }
  }

  /** Storing records one after the other. */
  function Stored(records: map<string, ContextRecord>, batch: seq<ContextRecord>): map<string, ContextRecord> {
    if batch == [] then records
    else Stored(records, batch[..|batch| - 1])[batch[|batch| - 1].recordId := batch[|batch| - 1]]
  }

  // ---- what a search returns

  ghost function Matching(q: RetrievalQuery, records: set<ContextRecord>): set<ContextRecord> {
    set r | r in records && Matches(r, q)
  }

  lemma {:induction false} DistinctSize<T>(s: seq<T>)
    requires Distinct(s)
    ensures |set x | x in s| == |s|
  {
    if s != [] {
      var front, last := s[..|s| - 1], s[|s| - 1];
      DistinctSize(front);
      assert (set x | x in s) == (set x | x in front) + {last};
    }
  }

  lemma SubsetSize<T>(a: set<T>, b: set<T>)
    requires a <= b
    ensures |a| <= |b|
    ensures a != b ==> |a| < |b|
  {
    assert b == a + (b - a);
  }

  lemma TopDistinct(text: Text, q: RetrievalQuery, records: set<ContextRecord>, found: seq<ContextRecord>)
    requires IsTop(text, q, records, found)
    ensures Distinct(found)
    ensures |set x | x in found| == |found|
    ensures (set x | x in found) <= Matching(q, records)
  {
    BeforeIsStrict(text, q);
    forall i, j | 0 <= i < j < |found| ensures found[i] != found[j] {
      assert Before(text, q, found[i], found[j]);
    }
    DistinctSize(found);
  }

  /** Exactly min(limit, matches) records are returned. */
  lemma TopSize(text: Text, q: RetrievalQuery, records: set<ContextRecord>, found: seq<ContextRecord>)
    requires IsTop(text, q, records, found)
    ensures var limit := if q.limit < 1 then 0 else q.limit;
            |found| == if limit < |Matching(q, records)| then limit else |Matching(q, records)|
  {
    TopDistinct(text, q, records, found);
    SubsetSize((set x | x in found), Matching(q, records));
    if (set x | x in found) != Matching(q, records) {
      var r :| r in Matching(q, records) && r !in found;
    }
  }

  /** The result is determined by the set of records and the query, so neither
      insertion order nor anything else about the store can change it. */
  lemma TopIsUnique(text: Text, q: RetrievalQuery, records: set<ContextRecord>, a: seq<ContextRecord>,
                    b: seq<ContextRecord>)
    requires OnePerId(records)
    requires IsTop(text, q, records, a) && IsTop(text, q, records, b)
    ensures a == b
  {
    TopSize(text, q, records, a);
    TopSize(text, q, records, b);
    PrefixesAgree(text, q, records, a, b, |a|);
    assert a[..|a|] == a && b[..|a|] == b;
  }

  lemma {:induction false} PrefixesAgree(text: Text, q: RetrievalQuery, records: set<ContextRecord>,
                                         a: seq<ContextRecord>, b: seq<ContextRecord>, n: nat)
    requires OnePerId(records)
    requires IsTop(text, q, records, a) && IsTop(text, q, records, b)
    requires n <= |a| && n <= |b|
    ensures a[..n] == b[..n]
  {
    if n > 0 {
      PrefixesAgree(text, q, records, a, b, n - 1);
      BeforeIsStrict(text, q);
      if a[n - 1] != b[n - 1] {
        NotBeforeItsPlace(text, q, records, a, b, n - 1);
        NotBeforeItsPlace(text, q, records, b, a, n - 1);
      }
      assert a[..n] == a[..n - 1] + [a[n - 1]] && b[..n] == b[..n - 1] + [b[n - 1]];
    }
  }

  /** Where two results first differ, each one's choice would precede the other's. */
  lemma NotBeforeItsPlace(text: Text, q: RetrievalQuery, records: set<ContextRecord>, a: seq<ContextRecord>,
                          b: seq<ContextRecord>, i: nat)
    requires IsTop(text, q, records, a) && IsTop(text, q, records, b)
    requires i < |a| && i < |b| && a[..i] == b[..i] && a[i] != b[i]
    ensures Before(text, q, b[i], a[i])
  {
    BeforeIsStrict(text, q);
    forall k | 0 <= k < i ensures b[k] != a[i] {
      assert b[k] == b[..i][k] == a[..i][k] == a[k];
      assert Before(text, q, a[k], a[i]);
    }
  }

  /** No look-ahead: every result is visible at the reference instant, and
      records of later events stored under fresh ids do not change the result. */
  lemma NoLookAhead(text: Text, q: RetrievalQuery, records: set<ContextRecord>, future: set<ContextRecord>,
                    found: seq<ContextRecord>, found': seq<ContextRecord>)
    requires OnePerId(records + future)
    requires forall r :: r in future ==> r.eventTime > q.asOf
    requires IsTop(text, q, records, found) && IsTop(text, q, records + future, found')
    ensures forall r :: r in found' ==> r.eventTime <= q.asOf
    ensures found' == found
  {
    assert IsTop(text, q, records + future, found);
    TopIsUnique(text, q, records + future, found, found');
  }

  // ---- what a search returns, by field

  /** How many of the query's tokens a record's content has. */
  function Overlap(text: Text, r: ContextRecord, q: RetrievalQuery): nat {
    |text.tokens(q.queryText) * text.tokens(r.content)|
  }

  /** Scores compare as overlaps do. */
  lemma ScoreIsByOverlap(text: Text, q: RetrievalQuery, a: ContextRecord, b: ContextRecord)
    ensures Score(text, a, q) > Score(text, b, q) <==> Overlap(text, a, q) > Overlap(text, b, q)
  {
    var wanted := |text.tokens(q.queryText)|;
    var total: real := (if wanted > 1 then wanted else 1) as real;
    DivideCompares(Overlap(text, a, q), Overlap(text, b, q), total);
  }

  lemma DivideCompares(x: nat, y: nat, total: real)
    requires total > 0.0
    ensures x as real / total > y as real / total <==> x > y
  {
    var u, v := x as real / total, y as real / total;
    assert u * total == x as real && v * total == y as real;
    if u > v {
      assert (u - v) * total > 0.0;
    } else {
      assert (v - u) * total >= 0.0;
    }
  }

  /** The filters and the ranking of a search, by field. A result is a record of the
      store, of an event no later than the reference instant, of the run asked for,
      of the region asked for or of none, and of a source type asked for; any other
      such record is left out only when the limit is reached. Results come by
      falling overlap, then by falling event time, then by rising id. */
  lemma FoundByField(text: Text, q: RetrievalQuery, records: set<ContextRecord>, found: seq<ContextRecord>,
                     r: ContextRecord)
    requires IsTop(text, q, records, found)
    ensures var fits := && r in records && r.eventTime <= q.asOf
                        && (q.runId.None? || r.runId == q.runId.value)
                        && (q.region.None? || r.region.None? || r.region.value == q.region.value)
                        && (|q.sourceTypes| == 0 || r.sourceType in q.sourceTypes);
            && (r in found ==> fits)
            && (fits && |found| < q.limit ==> r in found)
    ensures forall i, j :: 0 <= i < j < |found| ==>
              var a, b := found[i], found[j];
              || Overlap(text, a, q) > Overlap(text, b, q)
              || (Overlap(text, a, q) == Overlap(text, b, q)
                  && (|| a.eventTime > b.eventTime
                      || (a.eventTime == b.eventTime && StringLess(a.recordId, b.recordId))))
  {
    forall i, j | 0 <= i < j < |found|
      ensures Score(text, found[i], q) > Score(text, found[j], q)
              <==> Overlap(text, found[i], q) > Overlap(text, found[j], q)
      ensures Score(text, found[j], q) > Score(text, found[i], q)
              <==> Overlap(text, found[j], q) > Overlap(text, found[i], q)
    {
      ScoreIsByOverlap(text, q, found[i], found[j]);
      ScoreIsByOverlap(text, q, found[j], found[i]);
    }
  }

  // ---- insertion order

  lemma {:induction false} StoredMeaning(batch: seq<ContextRecord>)
    requires forall i, j :: 0 <= i < j < |batch| ==> batch[i].recordId != batch[j].recordId
    ensures forall id :: id in Stored(map[], batch) <==> exists r :: r in batch && r.recordId == id
    ensures forall r :: r in batch ==> Stored(map[], batch)[r.recordId] == r
  {
    if batch != [] {
      var front, last := batch[..|batch| - 1], batch[|batch| - 1];
      StoredMeaning(front);
      assert batch == front + [last];
      assert forall r :: r in batch <==> r in front || r == last;
    }
  }

  /** Under an id the batch has, the store has the batch's last record of that id. */
  lemma {:induction false} StoredIsLatest(records: map<string, ContextRecord>, batch: seq<ContextRecord>, i: nat)
    requires i < |batch| && forall j :: i < j < |batch| ==> batch[j].recordId != batch[i].recordId
    ensures batch[i].recordId in Stored(records, batch)
    ensures Stored(records, batch)[batch[i].recordId] == batch[i]
  {
    if i < |batch| - 1 {
      StoredIsLatest(records, batch[..|batch| - 1], i);
    }
  }

  /** Under any other id it has what was there before. */
  lemma {:induction false} StoredKeeps(records: map<string, ContextRecord>, batch: seq<ContextRecord>, id: string)
    requires forall i :: 0 <= i < |batch| ==> batch[i].recordId != id
    ensures id in Stored(records, batch) <==> id in records
    ensures id in records ==> Stored(records, batch)[id] == records[id]
  {
    if batch != [] {
      StoredKeeps(records, batch[..|batch| - 1], id);
    }
  }

  /** Upserting records with distinct ids in any order gives the same store. */
  lemma {:induction false} InsertionOrderIsIrrelevant(a: seq<ContextRecord>, b: seq<ContextRecord>)
    requires forall i, j :: 0 <= i < j < |a| ==> a[i].recordId != a[j].recordId
    requires forall i, j :: 0 <= i < j < |b| ==> b[i].recordId != b[j].recordId
    requires forall r :: r in a <==> r in b
    ensures Stored(map[], a) == Stored(map[], b)
  {
    StoredMeaning(a);
    StoredMeaning(b);
    assert forall id :: id in Stored(map[], a) <==> id in Stored(map[], b);
    forall id | id in Stored(map[], a) ensures Stored(map[], a)[id] == Stored(map[], b)[id] {
      var r :| r in a && r.recordId == id;
    }
  }

  // ---- later events

  /** Storing records under fresh ids keeps what was there and adds only them. */
  lemma {:induction false} StoredFresh(records: map<string, ContextRecord>, batch: seq<ContextRecord>)
    requires forall r :: r in batch ==> r.recordId !in records
    ensures forall id :: id in records ==> id in Stored(records, batch) && Stored(records, batch)[id] == records[id]
    ensures forall id :: id in Stored(records, batch) && id !in records ==>
              Stored(records, batch)[id] in batch && Stored(records, batch)[id].recordId == id
  {
    if batch != [] {
      var front, last := batch[..|batch| - 1], batch[|batch| - 1];
      assert batch == front + [last];
      StoredFresh(records, front);
    }
  }

  /** Upserting events after the reference instant under fresh ids does not change
      what a search returns, in any order and with any repetition among them. */
  lemma UpsertNoLookAhead(text: Text, q: RetrievalQuery, records: map<string, ContextRecord>, batch: seq<ContextRecord>,
                          found: seq<ContextRecord>, found': seq<ContextRecord>)
    requires forall id :: id in records ==> records[id].recordId == id
    requires forall r :: r in batch ==> r.recordId !in records && r.eventTime > q.asOf
    requires IsTop(text, q, records.Values, found) && IsTop(text, q, Stored(records, batch).Values, found')
    ensures found' == found
    ensures forall r :: r in found' ==> r.eventTime <= q.asOf
  {
    StoredFresh(records, batch);
    var stored := Stored(records, batch);
    var future := set id | id in stored && id !in records :: stored[id];
    assert stored.Values == records.Values + future;
    NoLookAhead(text, q, records.Values, future, found, found');
  }

  // ---- rank

  /** The matching records ranked before `x`. */
  ghost function Ahead(text: Text, q: RetrievalQuery, records: set<ContextRecord>,
                       x: ContextRecord): set<ContextRecord> {
    set r | r in records && Matches(r, q) && Before(text, q, r, x)
  }

  lemma AheadOfFound(text: Text, q: RetrievalQuery, records: set<ContextRecord>, found: seq<ContextRecord>, i: nat)
    requires IsTop(text, q, records, found) && i < |found|
    ensures |Ahead(text, q, records, found[i])| <= i
  {
    BeforeIsStrict(text, q);
    TopDistinct(text, q, records, found);
    var earlier := set r | r in found[..i];
    DistinctSize(found[..i]);
    forall r | r in Ahead(text, q, records, found[i]) ensures r in earlier {
      if r in found {
        var j :| 0 <= j < |found| && found[j] == r;
        assert j < i ==> found[..i][j] == r;
      }
    }
    SubsetSize(Ahead(text, q, records, found[i]), earlier);
  }

  /** A matching record is returned exactly when fewer than `limit` records rank before it. */
  lemma FoundIffRanked(text: Text, q: RetrievalQuery, records: set<ContextRecord>, found: seq<ContextRecord>,
                       x: ContextRecord)
    requires q.limit >= 1
    requires IsTop(text, q, records, found)
    requires x in records && Matches(x, q)
    ensures x in found <==> |Ahead(text, q, records, x)| < q.limit
  {
    if x in found {
      var i :| 0 <= i < |found| && found[i] == x;
      AheadOfFound(text, q, records, found, i);
    } else {
      TopDistinct(text, q, records, found);
      SubsetSize((set r | r in found), Ahead(text, q, records, x));
    }
  }

  // ---- the newest record per source

  function SourceQuery(sourceType: string, asOf: int, runId: Option<string>, depth: int): RetrievalQuery {
    RetrievalQuery(sourceType, asOf, depth, runId, None, [sourceType])
  }

  /** `max(candidates, key=(event_time, record_id))`. */
  predicate NewerOrSame(a: ContextRecord, b: ContextRecord) {
    a.eventTime > b.eventTime || (a.eventTime == b.eventTime && !StringLess(a.recordId, b.recordId))
  }

  /** `pick` is the newest of what the search found; nothing found, nothing picked. */
  ghost predicate PickedFrom(found: seq<ContextRecord>, pick: Option<ContextRecord>) {
    && (pick.None? <==> found == [])
    && (pick.Some? ==> pick.value in found && forall r :: r in found ==> NewerOrSame(pick.value, r))
  }

  function Somes(picks: seq<Option<ContextRecord>>): seq<ContextRecord> {
    if picks == [] then []
    else
      var front := Somes(picks[..|picks| - 1]);
      if picks[|picks| - 1].Some? then front + [picks[|picks| - 1].value] else front
  }

  /** The picks that are there, in order. */
  lemma {:induction false} SomesInOrder(a: seq<Option<ContextRecord>>, b: seq<Option<ContextRecord>>)
    ensures Somes(a + b) == Somes(a) + Somes(b)
  {
    if b == [] {
      assert a + b == a;
    } else {
      SomesInOrder(a, b[..|b| - 1]);
      assert (a + b)[..|a + b| - 1] == a + b[..|b| - 1];
    }
  }

  ghost predicate PickFor(text: Text, records: set<ContextRecord>, q: RetrievalQuery, pick: Option<ContextRecord>) {
    exists found :: IsTop(text, q, records, found) && PickedFrom(found, pick)
  }

  /** One pick per source type, each from the search that type gets. */
  ghost predicate PicksFor(text: Text, records: set<ContextRecord>, sourceTypes: seq<string>, asOf: int,
                           runId: Option<string>, depth: int, picks: seq<Option<ContextRecord>>)
  {
    && |picks| == |sourceTypes|
    && forall i :: 0 <= i < |picks| ==> PickFor(text, records, SourceQuery(sourceTypes[i], asOf, runId, depth),
                                                picks[i])
  }

  /** `selected` lists one pick per source type that has any visible record, in order. */
  ghost predicate LatestFor(text: Text, records: set<ContextRecord>, sourceTypes: seq<string>, asOf: int,
                            runId: Option<string>, depth: int, selected: seq<ContextRecord>)
  {
    exists picks :: PicksFor(text, records, sourceTypes, asOf, runId, depth, picks) && selected == Somes(picks)
  }

  class ContextRetriever {
    const store: InMemoryContextStore

    constructor (store: InMemoryContextStore)
      ensures this.store == store
    {
      this.store := store;
    }

    method NewestOf(found: seq<ContextRecord>) returns (pick: Option<ContextRecord>)
      ensures PickedFrom(found, pick)
      ensures pick.Some? ==>
                && pick.value in found
                && forall r :: r in found ==>
                     || pick.value.eventTime > r.eventTime
                     || (pick.value.eventTime == r.eventTime
                         && (r.recordId == pick.value.recordId || StringLess(r.recordId, pick.value.recordId)))
    {
      StringLessIsStrictTotal();
      if found == [] {
        return None;
      }
      var best := found[0];
      for i := 1 to |found|
        invariant best in found[..i]
        invariant forall r :: r in found[..i] ==> NewerOrSame(best, r)
      {
        assert found[..i + 1] == found[..i] + [found[i]];
        if !NewerOrSame(best, found[i]) {
          best := found[i];
        }
      }
      assert found[..|found|] == found;
      return Some(best);
    }

    method LatestPerSource(sourceTypes: seq<string>, asOf: int, runId: Option<string>, depth: int)
      returns (selected: seq<ContextRecord>)
      requires store.Valid()
      ensures LatestFor(store.text, store.All(), sourceTypes, asOf, runId, depth, selected)
    {
      selected := [];
      ghost var picks: seq<Option<ContextRecord>> := [];
      ghost var records := store.All();
      for i := 0 to |sourceTypes|
        invariant PicksFor(store.text, records, sourceTypes[..i], asOf, runId, depth, picks)
        invariant selected == Somes(picks)
      {
        var found := store.Search(SourceQuery(sourceTypes[i], asOf, runId, depth));
        var pick := NewestOf(found);
        OnePickMore(store.text, records, sourceTypes[..i], asOf, runId, depth, picks, sourceTypes[i], found, pick);
        assert sourceTypes[..i + 1] == sourceTypes[..i] + [sourceTypes[i]];
        picks := picks + [pick];
        if pick.Some? {
          selected := selected + [pick.value];
        }
      }
      assert sourceTypes[..|sourceTypes|] == sourceTypes;
    }
  }

  lemma OnePickMore(text: Text, records: set<ContextRecord>, sourceTypes: seq<string>, asOf: int,
                    runId: Option<string>, depth: int,
                    picks: seq<Option<ContextRecord>>, sourceType: string, found: seq<ContextRecord>,
                    pick: Option<ContextRecord>)
    requires PicksFor(text, records, sourceTypes, asOf, runId, depth, picks)
    requires IsTop(text, SourceQuery(sourceType, asOf, runId, depth), records, found) && PickedFrom(found, pick)
    ensures PicksFor(text, records, sourceTypes + [sourceType], asOf, runId, depth, picks + [pick])
    ensures Somes(picks + [pick]) == Somes(picks) + if pick.Some? then [pick.value] else []
  {
    assert PickFor(text, records, SourceQuery(sourceType, asOf, runId, depth), pick);
    assert (picks + [pick])[..|picks|] == picks;
  }

  /** The pick for a source type is a visible record of that type and run, and there
      is none exactly when no such record is visible. */
  lemma PickIsOfItsType(text: Text, records: set<ContextRecord>, sourceType: string, asOf: int, runId: Option<string>,
                        depth: int, pick: Option<ContextRecord>)
    requires depth >= 1
    requires PickFor(text, records, SourceQuery(sourceType, asOf, runId, depth), pick)
    ensures pick.Some? ==>
              && pick.value in records && pick.value.sourceType == sourceType && pick.value.eventTime <= asOf
              && (runId.Some? ==> pick.value.runId == runId.value)
    ensures pick.None? <==> forall r :: r in records && r.sourceType == sourceType && r.eventTime <= asOf ==>
                              runId.Some? && r.runId != runId.value
  {
    var q := SourceQuery(sourceType, asOf, runId, depth);
    var found :| IsTop(text, q, records, found) && PickedFrom(found, pick);
    assert found == [] || found[0] in found;
    forall r ensures r in found ==> r in records && Matches(r, q) {
    }
  }

  /** `x` is a newest visible record, the best ranked one of that instant. */
  ghost predicate BestNewest(text: Text, q: RetrievalQuery, records: set<ContextRecord>, x: ContextRecord) {
    && x in records && Matches(x, q)
    && (forall r :: r in records && Matches(r, q) ==> r.eventTime <= x.eventTime)
    && (forall r :: r in records && Matches(r, q) && r.eventTime == x.eventTime && r != x ==> Before(text, q, x, r))
  }

  /** Exactly when the pick is newest: the pick carries the newest visible event
      time if and only if fewer than `depth` visible records score strictly
      higher than the best newest one. */
  lemma PickIsNewestIff(text: Text, q: RetrievalQuery, records: set<ContextRecord>, found: seq<ContextRecord>,
                        pick: Option<ContextRecord>, x: ContextRecord)
    requires OnePerId(records) && q.limit >= 1
    requires IsTop(text, q, records, found) && PickedFrom(found, pick)
    requires BestNewest(text, q, records, x)
    ensures pick.Some?
    ensures Ahead(text, q, records, x) == set r | r in records && Matches(r, q) && Score(text, r, q) > Score(text, x, q)
    ensures pick.value.eventTime == x.eventTime <==> |Ahead(text, q, records, x)| < q.limit
  {
    BeforeIsStrict(text, q);
    FoundIffRanked(text, q, records, found, x);
    forall r | r in found && x !in found ensures r.eventTime != x.eventTime {
      assert Before(text, q, r, x);
    }
  }

  /** So the pick is a newest visible record whenever at most `depth` are
      visible, or all of them score the same. */
  lemma PickIsNewest(text: Text, q: RetrievalQuery, records: set<ContextRecord>, found: seq<ContextRecord>,
                     pick: Option<ContextRecord>,
                     x: ContextRecord)
    requires OnePerId(records) && q.limit >= 1
    requires IsTop(text, q, records, found) && PickedFrom(found, pick)
    requires BestNewest(text, q, records, x)
    requires || |Matching(q, records)| <= q.limit
             || (forall r :: r in Matching(q, records) ==> Score(text, r, q) == Score(text, x, q))
    ensures pick.Some? && pick.value.eventTime == x.eventTime
  {
    PickIsNewestIff(text, q, records, found, pick, x);
    var ahead := Ahead(text, q, records, x);
    if |Matching(q, records)| <= q.limit {
      assert x in Matching(q, records) && x !in ahead;
      SubsetSize(ahead, Matching(q, records));
    } else {
      assert ahead == {};
    }
  }
}
