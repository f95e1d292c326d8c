/**
 * The map from device id to thermostat record held by the API object
 * (index.js:36, 70-84). A JavaScript `Map` iterates its keys in the order they
 * were first inserted, so the model keeps that order next to the map.
 */
module DeviceCache {
  import opened Wrappers
  import opened Thermostats

  datatype Cache = Cache(records: map<string, Thermostat>, order: seq<string>) {

    /**
     * Representation invariant: `order` lists every key exactly once, and each
     * record is stored under its own id.
     */
    predicate Valid() {
      && (forall i, j :: 0 <= i < j < |order| ==> order[i] != order[j])
      && (forall i :: 0 <= i < |order| ==> order[i] in records)
      && (forall k :: k in records ==> k in order)
      && (forall k :: k in records ==> records[k].id == k)
    }
  }

  /** `new Map()`. */
  function Empty(): (c: Cache)
    ensures c.Valid()
    ensures |c.records| == 0 && |c.order| == 0
  {
    Cache(map[], [])
  }

  /** The ids mentioned by a batch of parsed entries. */
  function Ids(b: seq<ParsedEntry>): set<string> {
    set i | 0 <= i < |b| :: b[i].id
  }

  lemma IdsSnoc(b: seq<ParsedEntry>)
    requires 0 < |b|
    ensures Ids(b) == Ids(b[..|b| - 1]) + {b[|b| - 1].id}
  {
    var p := b[..|b| - 1];
    forall x | x in Ids(b)
      ensures x in Ids(p) + {b[|b| - 1].id}
    {
      var i :| 0 <= i < |b| && b[i].id == x;
      if i < |b| - 1 {
        assert p[i].id == x;
      }
    }
    forall x | x in Ids(p)
      ensures x in Ids(b)
    {
      var i :| 0 <= i < |p| && p[i].id == x;
      assert b[i].id == x;
    }
  }

  /**
   * One iteration of the refresh callback (index.js:71-80): look the id up,
   * create and insert a record if it is unknown, then overwrite four fields.
   */
  function Upsert(c: Cache, e: ParsedEntry): (r: Cache)
    requires c.Valid()
    ensures r.Valid()
    ensures r.records.Keys == c.records.Keys + {e.id}
    ensures r.records[e.id] == Describes(e)
    ensures forall k :: k in c.records && k != e.id ==> r.records[k] == c.records[k]
    ensures e.id in c.records ==> r.order == c.order
    ensures e.id !in c.records ==> r.order == c.order + [e.id]
  {
    if e.id in c.records then
      Cache(c.records[e.id := Overwrite(c.records[e.id], e)], c.order)
    else
      Cache(c.records[e.id := Overwrite(NewThermostat(e.id), e)], c.order + [e.id])
  }

  /** The whole `.each` pass of a refresh over a parsed batch, first entry first. */
  function ApplyBatch(c: Cache, b: seq<ParsedEntry>): (r: Cache)
    requires c.Valid()
    ensures r.Valid()
    ensures r.records.Keys == c.records.Keys + Ids(b)
    decreases |b|
  {
    if |b| == 0 then c
    else
      IdsSnoc(b);
      Upsert(ApplyBatch(c, b[..|b| - 1]), b[|b| - 1])
  }

  /** The last entry of the batch that mentions `k`, if any. */
  function LastEntryFor(b: seq<ParsedEntry>, k: string): (r: Option<ParsedEntry>)
    ensures r.Some? ==> r.value.id == k && r.value in b
    ensures r.None? <==> k !in Ids(b)
    decreases |b|
  {
    if |b| == 0 then None
    else if b[|b| - 1].id == k then Some(b[|b| - 1])
    else
      IdsSnoc(b);
      var r := LastEntryFor(b[..|b| - 1], k);
      assert r.Some? ==> r.value in b[..|b| - 1];
      r
  }

  /**
   * Index of the first entry of the batch that mentions `k`: the moment the
   * refresh first sights that id.
   */
  function FirstIndex(b: seq<ParsedEntry>, k: string): (i: nat)
    requires k in Ids(b)
    ensures i < |b| && b[i].id == k
    ensures forall j :: 0 <= j < i ==> b[j].id != k
    decreases |b|
  {
    IdsSnoc(b);
    if k in Ids(b[..|b| - 1]) then FirstIndex(b[..|b| - 1], k) else |b| - 1
  }

  /** The records of a cache, in the order `Map.prototype.values()` visits them. */
  function Values(c: Cache): (vs: seq<Thermostat>)
    requires c.Valid()
    ensures |vs| == |c.order|
    ensures forall i :: 0 <= i < |vs| ==> vs[i].id == c.order[i] && vs[i] in c.records.Values
  {
    seq(|c.order|, i requires 0 <= i < |c.order| => c.records[c.order[i]])
  }

  /**
   * `values()` yields each cached record exactly once, in insertion order of
   * their ids.
   */
  lemma ValuesListEachRecordOnce(c: Cache)
    requires c.Valid()
    ensures forall i, j :: 0 <= i < j < |Values(c)| ==> Values(c)[i].id != Values(c)[j].id
    ensures forall k :: k in c.records ==> exists i :: 0 <= i < |Values(c)| && Values(c)[i] == c.records[k]
  {
    var vs := Values(c);
    forall k | k in c.records
      ensures exists i :: 0 <= i < |vs| && vs[i] == c.records[k]
    {
      var i :| 0 <= i < |c.order| && c.order[i] == k;
      assert vs[i] == c.records[k];
    }
  }

  /**
   * The cache after a batch, described key by key: a key mentioned by the
   * batch holds the record its LAST entry describes; any other key keeps the
   * record it had.
   */
  lemma {:induction false} ApplyBatchRecords(c: Cache, b: seq<ParsedEntry>, k: string)
    requires c.Valid()
    ensures k in ApplyBatch(c, b).records <==> k in c.records || k in Ids(b)
    ensures LastEntryFor(b, k).Some? ==> ApplyBatch(c, b).records[k] == Describes(LastEntryFor(b, k).value)
    ensures k !in Ids(b) && k in c.records ==> ApplyBatch(c, b).records[k] == c.records[k]
    decreases |b|
  {
    if |b| > 0 {
      IdsSnoc(b);
      ApplyBatchRecords(c, b[..|b| - 1], k);
    }
  }

  /**
   * When an id repeats within one batch the later entry wins: an entry with no
   * later entry for its id is what the cache holds afterwards.
   */
  lemma {:induction false} LaterEntryWins(c: Cache, b: seq<ParsedEntry>, i: int)
    requires c.Valid()
    requires 0 <= i < |b|
    requires forall j :: i < j < |b| ==> b[j].id != b[i].id
    ensures ApplyBatch(c, b).records[b[i].id] == Describes(b[i])
  {
    LastEntryIsLast(b, i);
    ApplyBatchRecords(c, b, b[i].id);
  }

  lemma {:induction false} LastEntryIsLast(b: seq<ParsedEntry>, i: int)
    requires 0 <= i < |b|
    requires forall j :: i < j < |b| ==> b[j].id != b[i].id
    ensures LastEntryFor(b, b[i].id) == Some(b[i])
    decreases |b|
  {
    if i < |b| - 1 {
      var p := b[..|b| - 1];
      assert forall j :: i < j < |p| ==> p[j].id != p[i].id;
      LastEntryIsLast(p, i);
      assert p[i] == b[i];
    }
  }

  /**
   * A refresh never deletes: every key known before is still present, and a
   * key the batch does not mention keeps its record unchanged.
   */
  lemma CacheNeverShrinks(c: Cache, b: seq<ParsedEntry>)
    requires c.Valid()
    ensures c.records.Keys <= ApplyBatch(c, b).records.Keys
    ensures forall k :: k in c.records && k !in Ids(b) ==> ApplyBatch(c, b).records[k] == c.records[k]
  {
    forall k | k in c.records && k !in Ids(b)
      ensures ApplyBatch(c, b).records[k] == c.records[k]
    {
      ApplyBatchRecords(c, b, k);
    }
  }

  /** A batch that mentions only known ids creates nothing and keeps the order. */
  lemma {:induction false} KnownIdsKeepOrder(c: Cache, b: seq<ParsedEntry>)
    requires c.Valid()
    requires Ids(b) <= c.records.Keys
    ensures ApplyBatch(c, b).order == c.order
    decreases |b|
  {
    if |b| > 0 {
      IdsSnoc(b);
      KnownIdsKeepOrder(c, b[..|b| - 1]);
    }
  }

  /**
   * Insertion order: the ids known before keep their places, and after them
   * come exactly the new ids of the batch, each once, in order of first
   * sighting.
   */
  lemma {:induction false} ApplyBatchOrder(c: Cache, b: seq<ParsedEntry>)
    requires c.Valid()
    ensures |c.order| <= |ApplyBatch(c, b).order|
    ensures ApplyBatch(c, b).order[..|c.order|] == c.order
    ensures forall p :: |c.order| <= p < |ApplyBatch(c, b).order| ==>
      ApplyBatch(c, b).order[p] in Ids(b) && ApplyBatch(c, b).order[p] !in c.records
    ensures forall p, q :: |c.order| <= p < q < |ApplyBatch(c, b).order| ==>
      FirstIndex(b, ApplyBatch(c, b).order[p]) < FirstIndex(b, ApplyBatch(c, b).order[q])
    decreases |b|
  {
    if |b| > 0 {
      var p := b[..|b| - 1];
      var e := b[|b| - 1];
      IdsSnoc(b);
      ApplyBatchOrder(c, p);
      var mid := ApplyBatch(c, p);
      var r := ApplyBatch(c, b);
      assert r == Upsert(mid, e);
      forall x | x in Ids(p)
        ensures FirstIndex(b, x) == FirstIndex(p, x)
      {
      }
      if e.id !in mid.records {
        assert r.order == mid.order + [e.id];
        assert e.id !in Ids(p);
        assert FirstIndex(b, e.id) == |b| - 1;
        assert r.order[..|c.order|] == mid.order[..|c.order|];
      }
    }
  }

  /** Applying the same batch twice gives the same cache as applying it once. */
  lemma BatchIdempotent(c: Cache, b: seq<ParsedEntry>)
    requires c.Valid()
    ensures ApplyBatch(ApplyBatch(c, b), b) == ApplyBatch(c, b)
  {
    var once := ApplyBatch(c, b);
    var twice := ApplyBatch(once, b);
    KnownIdsKeepOrder(once, b);
    forall k | k in once.records
      ensures twice.records[k] == once.records[k]
    {
      ApplyBatchRecords(c, b, k);
      ApplyBatchRecords(once, b, k);
    }
    assert twice.records == once.records;
  }
}
