/**
 The ingestion pipeline: chunk, embed, replace. The vector store and the embedding client are classes
 whose calls may fail at any time; a failing store call may have done any part of its work.
 */
module Ingestion {
  import opened Common
  import Chunker

  type Vector = seq<real>

  datatype Metadata = Metadata(source: string, index: nat)

  datatype Record = Record(embedding: Vector, document: string, metadata: Metadata)

  type Store = map<string, Record>

  datatype RawDoc = RawDoc(source: string, text: string)

  datatype Error = BadChunking | EmbedFailed | BadVectorCount | StoreFailed

  /* ---------- record ids ---------- */

  function Digits(n: nat): string {
    if n < 10 then [('0' as int + n) as char] else Digits(n / 10) + [('0' as int + n % 10) as char]
  }

  function ChunkId(source: string, index: nat): string {
    source + "#" + Digits(index)
  }

  lemma {:induction false} DigitsAreDigits(n: nat)
    ensures Digits(n) != "" && forall i :: 0 <= i < |Digits(n)| ==> '0' <= Digits(n)[i] <= '9'
  {
    if n >= 10 {
      DigitsAreDigits(n / 10);
    }
  }

  lemma {:induction false} DigitsInjective(m: nat, n: nat)
    requires Digits(m) == Digits(n)
    ensures m == n
  {
    DigitsAreDigits(m / 10);
    DigitsAreDigits(n / 10);
    var d, e := Digits(m), Digits(n);
    assert d[|d| - 1] == ('0' as int + m % 10) as char;
    assert e[|e| - 1] == ('0' as int + n % 10) as char;
    if m >= 10 && n >= 10 {
      assert d[..|d| - 1] == Digits(m / 10);
      assert e[..|e| - 1] == Digits(n / 10);
      DigitsInjective(m / 10, n / 10);
    }
  }

  /** The number a text of decimal digits stands for. */
  function Decimal(d: string): int {
    if d == "" then 0 else Decimal(d[..|d| - 1]) * 10 + (d[|d| - 1] as int - '0' as int)
  }

  /** An id is the source, the separator, and the index in decimal without leading zeros. */
  lemma {:induction false} ChunkIdIs(source: string, index: nat)
    ensures var d := Digits(index);
            && ChunkId(source, index) == source + "#" + d
            && d != "" && (forall i :: 0 <= i < |d| ==> '0' <= d[i] <= '9')
            && Decimal(d) == index && (index > 0 ==> d[0] != '0')
    decreases index
  {
    DigitsAreDigits(index);
    if index >= 10 {
      ChunkIdIs(source, index / 10);
      assert Digits(index)[..|Digits(index)| - 1] == Digits(index / 10);
    } else {
      assert Digits(index)[..0] == "";
    }
  }

  /** An id determines its source and index, even when the source contains the separator. */
  lemma ChunkIdInjective(s: string, i: nat, t: string, j: nat)
    requires ChunkId(s, i) == ChunkId(t, j)
    ensures s == t && i == j
  {
    DigitsAreDigits(i);
    DigitsAreDigits(j);
    var id := ChunkId(s, i);
    assert id[|s|] == '#' && id[|t|] == '#';
    assert forall k :: |s| < k < |id| ==> id[k] == Digits(i)[k - |s| - 1];
    assert forall k :: |t| < k < |id| ==> id[k] == Digits(j)[k - |t| - 1];
    assert |s| == |t|;
    assert s == id[..|s|] == t;
    assert Digits(i) == id[|s| + 1..] == Digits(j);
    DigitsInjective(i, j);
  }

  /* ---------- stores as values ---------- */

  function WithoutSource(store: Store, source: string): Store {
    map id | id in store && store[id].metadata.source != source :: store[id]
  }

  /** What the store holds for one source. */
  function PartOf(store: Store, source: string): Store {
    map id | id in store && store[id].metadata.source == source :: store[id]
  }

  /** Every record lies under the id made of its own source and index. */
  ghost predicate WellFormed(store: Store) {
    forall id :: id in store ==> id == ChunkId(store[id].metadata.source, store[id].metadata.index)
  }

  /** The record of chunk `i` of a document; `embed` is what the client computes for a text. */
  function ChunkRecord(embed: string -> Vector, source: string, texts: seq<string>, i: nat): Record
    requires i < |texts|
  {
    Record(embed(texts[i]), texts[i], Metadata(source, i))
  }

  /** The records of chunks `lo` up to `hi`. */
  function ChunkRecords(embed: string -> Vector, source: string, texts: seq<string>, lo: nat, hi: nat): Store
    requires lo <= hi <= |texts|
    decreases hi
  {
    if lo == hi then map[]
    else ChunkRecords(embed, source, texts, lo, hi - 1)[ChunkId(source, hi - 1) := ChunkRecord(embed, source, texts, hi - 1)]
  }

  lemma {:induction false} ChunkRecordAt(embed: string -> Vector, source: string, texts: seq<string>, lo: nat, hi: nat, i: nat)
    requires lo <= i < hi <= |texts|
    ensures ChunkId(source, i) in ChunkRecords(embed, source, texts, lo, hi)
    ensures ChunkRecords(embed, source, texts, lo, hi)[ChunkId(source, i)] == ChunkRecord(embed, source, texts, i)
    decreases hi
  {
    if i < hi - 1 {
      ChunkRecordAt(embed, source, texts, lo, hi - 1, i);
      if ChunkId(source, i) == ChunkId(source, hi - 1) {
        ChunkIdInjective(source, i, source, hi - 1);
      }
    }
  }

  /** Every id in the records is the id of one of the chunks. */
  lemma {:induction false} ChunkRecordIds(embed: string -> Vector, source: string, texts: seq<string>, lo: nat, hi: nat)
    requires lo <= hi <= |texts|
    ensures forall id :: id in ChunkRecords(embed, source, texts, lo, hi) ==> IsChunkId(source, lo, hi, id)
    decreases hi
  {
    if lo < hi {
      ChunkRecordIds(embed, source, texts, lo, hi - 1);
      var before := ChunkRecords(embed, source, texts, lo, hi - 1);
      forall id | id in ChunkRecords(embed, source, texts, lo, hi) ensures IsChunkId(source, lo, hi, id) {
        if id in before {
          var i :| lo <= i < hi - 1 && id == ChunkId(source, i);
          assert lo <= i < hi && id == ChunkId(source, i);
        } else {
          assert id == ChunkId(source, hi - 1);
        }
      }
    }
  }

  ghost predicate IsChunkId(source: string, lo: nat, hi: nat, id: string) {
    exists i :: lo <= i < hi && id == ChunkId(source, i)
  }

  lemma {:induction false} ChunkRecordCount(embed: string -> Vector, source: string, texts: seq<string>, lo: nat, hi: nat)
    requires lo <= hi <= |texts|
    ensures |ChunkRecords(embed, source, texts, lo, hi)| == hi - lo
    decreases hi
  {
    if lo < hi {
      ChunkRecordCount(embed, source, texts, lo, hi - 1);
      ChunkRecordIds(embed, source, texts, lo, hi - 1);
      if ChunkId(source, hi - 1) in ChunkRecords(embed, source, texts, lo, hi - 1) {
        var i :| lo <= i < hi - 1 && ChunkId(source, hi - 1) == ChunkId(source, i);
        ChunkIdInjective(source, hi - 1, source, i);
      }
    }
  }

  lemma ChunkRecordsAre(embed: string -> Vector, source: string, texts: seq<string>, lo: nat, hi: nat)
    requires lo <= hi <= |texts|
    ensures WellFormed(ChunkRecords(embed, source, texts, lo, hi))
    ensures forall i :: lo <= i < hi ==>
              ChunkId(source, i) in ChunkRecords(embed, source, texts, lo, hi)
              && ChunkRecords(embed, source, texts, lo, hi)[ChunkId(source, i)] == ChunkRecord(embed, source, texts, i)
    ensures forall id :: id in ChunkRecords(embed, source, texts, lo, hi) ==>
              exists i :: lo <= i < hi && id == ChunkId(source, i)
    ensures |ChunkRecords(embed, source, texts, lo, hi)| == hi - lo
  {
    hide ChunkRecords;
    forall i | lo <= i < hi
      ensures ChunkId(source, i) in ChunkRecords(embed, source, texts, lo, hi)
      ensures ChunkRecords(embed, source, texts, lo, hi)[ChunkId(source, i)] == ChunkRecord(embed, source, texts, i)
    {
      ChunkRecordAt(embed, source, texts, lo, hi, i);
    }
    ChunkRecordIds(embed, source, texts, lo, hi);
    ChunkRecordCount(embed, source, texts, lo, hi);
    forall id | id in ChunkRecords(embed, source, texts, lo, hi)
      ensures exists i :: lo <= i < hi && id == ChunkId(source, i)
    {
      assert IsChunkId(source, lo, hi, id);
    }
  }

  lemma {:induction false} ChunkRecordsAppend(embed: string -> Vector, source: string, texts: seq<string>, lo: nat, mid: nat, hi: nat)
    requires lo <= mid <= hi <= |texts|
    ensures ChunkRecords(embed, source, texts, lo, mid) + ChunkRecords(embed, source, texts, mid, hi)
            == ChunkRecords(embed, source, texts, lo, hi)
    decreases hi
  {
    if mid < hi {
      ChunkRecordsAppend(embed, source, texts, lo, mid, hi - 1);
    }
  }

  /* ---------- batches ---------- */

  datatype PreparedBatch = PreparedBatch(
    ids: seq<string>,
    embeddings: seq<Vector>,
    documents: seq<string>,
    metadatas: seq<Metadata>
  )

  predicate BatchOk(b: PreparedBatch) {
    |b.ids| == |b.embeddings| == |b.documents| == |b.metadatas|
  }

  /** The records a batch stands for, the first `k` of them. */
  function BatchRecords(b: PreparedBatch, k: nat): Store
    requires BatchOk(b) && k <= |b.ids|
  {
    if k == 0 then map[]
    else BatchRecords(b, k - 1)[b.ids[k - 1] := Record(b.embeddings[k - 1], b.documents[k - 1], b.metadatas[k - 1])]
  }

  function VectorsOf(embed: string -> Vector, texts: seq<string>): seq<Vector> {
    seq(|texts|, i requires 0 <= i < |texts| => embed(texts[i]))
  }

  function Min(a: nat, b: nat): nat {
    if a <= b then a else b
  }

  /** The batch of chunks `start` up to `stop`, ids and metadata counted from the start of the document. */
  function BatchOf(embed: string -> Vector, source: string, texts: seq<string>, start: nat, stop: nat): PreparedBatch
    requires start <= stop <= |texts|
  {
    PreparedBatch(
      seq(stop - start, offset requires 0 <= offset < stop - start => ChunkId(source, start + offset)),
      VectorsOf(embed, texts[start..stop]),
      texts[start..stop],
      seq(stop - start, offset requires 0 <= offset < stop - start => Metadata(source, start + offset)))
  }

  /** All batches of a document from chunk `start` on. */
  function Batches(embed: string -> Vector, source: string, texts: seq<string>, size: nat, start: nat): seq<PreparedBatch>
    requires 1 <= size && start <= |texts|
    decreases |texts| - start
  {
    if start == |texts| then []
    else
      var stop := Min(start + size, |texts|);
      [BatchOf(embed, source, texts, start, stop)] + Batches(embed, source, texts, size, stop)
  }

  ghost predicate AllBatchesOk(batches: seq<PreparedBatch>) {
    forall k :: 0 <= k < |batches| ==> BatchOk(batches[k])
  }

  /** The store's records after upserting the batches in order, starting from nothing. */
  function AllRecords(batches: seq<PreparedBatch>): Store
    requires AllBatchesOk(batches)
  {
    if batches == [] then map[]
    else BatchRecords(batches[0], |batches[0].ids|) + AllRecords(batches[1..])
  }

  lemma {:induction false} BatchOfIs(embed: string -> Vector, source: string, texts: seq<string>, start: nat, stop: nat, k: nat)
    requires start <= stop <= |texts| && k <= stop - start
    ensures BatchOk(BatchOf(embed, source, texts, start, stop))
    ensures BatchRecords(BatchOf(embed, source, texts, start, stop), k) == ChunkRecords(embed, source, texts, start, start + k)
  {
    if k > 0 {
      BatchOfIs(embed, source, texts, start, stop, k - 1);
    }
  }

  /** The first chunk not covered by the first `k` batches from `start` on. */
  function BatchesEnd(n: nat, size: nat, start: nat, k: nat): nat
    requires 1 <= size && start <= n
    decreases k
  {
    if k == 0 then start else BatchesEnd(n, size, Min(start + size, n), k - 1)
  }

  lemma {:induction false} BatchesEndIs(n: nat, size: nat, start: nat, k: nat)
    requires 1 <= size && start <= n
    ensures start <= BatchesEnd(n, size, start, k) <= n
    decreases k
  {
    if k > 0 {
      BatchesEndIs(n, size, Min(start + size, n), k - 1);
    }
  }

  lemma {:induction false} BatchesAreOk(embed: string -> Vector, source: string, texts: seq<string>, size: nat, start: nat)
    requires 1 <= size && start <= |texts|
    ensures AllBatchesOk(Batches(embed, source, texts, size, start))
    ensures BatchesEnd(|texts|, size, start, |Batches(embed, source, texts, size, start)|) == |texts|
    decreases |texts| - start
  {
    if start < |texts| {
      BatchesAreOk(embed, source, texts, size, Min(start + size, |texts|));
    }
  }

  /** The first `k` batches hold exactly the records of the chunks they cover: batching changes nothing. */
  lemma {:induction false} BatchPrefixRecords(embed: string -> Vector, source: string, texts: seq<string>, size: nat, start: nat, k: nat)
    requires 1 <= size && start <= |texts| && k <= |Batches(embed, source, texts, size, start)|
    requires AllBatchesOk(Batches(embed, source, texts, size, start)[..k])
    ensures start <= BatchesEnd(|texts|, size, start, k) <= |texts|
    ensures AllRecords(Batches(embed, source, texts, size, start)[..k])
            == ChunkRecords(embed, source, texts, start, BatchesEnd(|texts|, size, start, k))
    decreases k
  {
    hide Batches, BatchOf, AllRecords, ChunkRecords, BatchRecords;
    BatchesEndIs(|texts|, size, start, k);
    if k == 0 {
      NoRecords(embed, source, texts, start);
    } else {
      NextBatch(embed, source, texts, size, start);
      var stop := Min(start + size, |texts|);
      var first, rest := BatchOf(embed, source, texts, start, stop), Batches(embed, source, texts, size, stop);
      BatchesEndIs(|texts|, size, stop, k - 1);
      BatchesAreOk(embed, source, texts, size, stop);
      BatchPrefixRecords(embed, source, texts, size, stop, k - 1);
      BatchOfIs(embed, source, texts, start, stop, stop - start);
      ChunkRecordsAppend(embed, source, texts, start, stop, BatchesEnd(|texts|, size, start, k));
      AllRecordsCons(first, rest, k);
    }
  }

  lemma NoRecords(embed: string -> Vector, source: string, texts: seq<string>, start: nat)
    requires start <= |texts|
    ensures AllRecords([]) == ChunkRecords(embed, source, texts, start, start)
  {
  }

  lemma NextBatch(embed: string -> Vector, source: string, texts: seq<string>, size: nat, start: nat)
    requires 1 <= size && start <= |texts| && Batches(embed, source, texts, size, start) != []
    ensures var stop := Min(start + size, |texts|);
            && start < stop && |BatchOf(embed, source, texts, start, stop).ids| == stop - start
            && Batches(embed, source, texts, size, start)
               == [BatchOf(embed, source, texts, start, stop)] + Batches(embed, source, texts, size, stop)
  {
  }

  lemma AllRecordsCons(first: PreparedBatch, rest: seq<PreparedBatch>, k: nat)
    requires BatchOk(first) && 0 < k <= |rest| + 1 && AllBatchesOk(rest[..k - 1])
    ensures AllBatchesOk(([first] + rest)[..k])
    ensures AllRecords(([first] + rest)[..k]) == BatchRecords(first, |first.ids|) + AllRecords(rest[..k - 1])
  {
    assert ([first] + rest)[..k] == [first] + rest[..k - 1];
    assert ([first] + rest[..k - 1])[1..] == rest[..k - 1];
  }

  /** Batch `k` covers the chunks from where the batches before it end to where it ends itself. */
  lemma {:induction false} BatchAt(embed: string -> Vector, source: string, texts: seq<string>, size: nat, start: nat, k: nat)
    requires 1 <= size && start <= |texts| && k < |Batches(embed, source, texts, size, start)|
    ensures BatchesEnd(|texts|, size, start, k) <= BatchesEnd(|texts|, size, start, k + 1) <= |texts|
    ensures Batches(embed, source, texts, size, start)[k]
            == BatchOf(embed, source, texts, BatchesEnd(|texts|, size, start, k), BatchesEnd(|texts|, size, start, k + 1))
    decreases k
  {
    if k > 0 {
      BatchAt(embed, source, texts, size, Min(start + size, |texts|), k - 1);
    }
  }

  /** The store after upserting the first `k` batches. */
  function AfterBatches(store: Store, batches: seq<PreparedBatch>, k: nat): Store
    requires AllBatchesOk(batches) && k <= |batches|
  {
    store + AllRecords(batches[..k])
  }

  lemma {:induction false} AllRecordsSnoc(batches: seq<PreparedBatch>, k: nat)
    requires AllBatchesOk(batches) && k < |batches|
    ensures AllRecords(batches[..k + 1]) == AllRecords(batches[..k]) + BatchRecords(batches[k], |batches[k].ids|)
  {
    hide BatchRecords;
    assert batches[..k + 1][1..] == batches[1..][..k];
    if k > 0 {
      assert batches[..k][1..] == batches[1..][..k - 1];
      AllRecordsSnoc(batches[1..], k - 1);
      MapsAssociate(BatchRecords(batches[0], |batches[0].ids|), AllRecords(batches[1..][..k - 1]),
                    BatchRecords(batches[k], |batches[k].ids|));
    }
  }

  lemma MapsAssociate(a: Store, b: Store, c: Store)
    ensures a + (b + c) == (a + b) + c
  {
  }

  lemma AfterNone(store: Store, batches: seq<PreparedBatch>)
    requires AllBatchesOk(batches)
    ensures AfterBatches(store, batches, 0) == store
  {
  }

  lemma AfterOneMore(store: Store, batches: seq<PreparedBatch>, k: nat)
    requires AllBatchesOk(batches) && k < |batches|
    ensures AfterBatches(store, batches, k + 1) == AfterBatches(store, batches, k) + BatchRecords(batches[k], |batches[k].ids|)
  {
    AllRecordsSnoc(batches, k);
  }

  /* ---------- what a failing store call may have done ---------- */

  /** Some records of the source are gone, everything else is untouched. */
  predicate PartlyDeleted(before: Store, source: string, after: Store) {
    && (forall id :: id in after ==> id in before && after[id] == before[id])
    && (forall id :: id in before && id !in after ==> before[id].metadata.source == source)
  }

  /** Some records of the batch are in, everything else is untouched. */
  predicate PartlyUpserted(before: Store, added: Store, after: Store) {
    && (forall id :: id in before ==> id in after)
    && (forall id :: id in after ==> (id in before && after[id] == before[id]) || (id in added && after[id] == added[id]))
  }

  /** How a call of the store or the embedding client came back; only the client can answer with too many or too few. */
  datatype Call = Answered | Raised | Miscounted

  /** The calls of `now` that `before` does not have yet were all answered. */
  ghost predicate AllAnswered(before: seq<Call>, now: seq<Call>) {
    before <= now && forall k :: |before| <= k < |now| ==> now[k] == Answered
  }

  /** All but the last of the new calls were answered, and that one came back as `bad`. */
  ghost predicate LastFailed(before: seq<Call>, now: seq<Call>, bad: Call) {
    before < now && AllAnswered(before, now[..|now| - 1]) && now[|now| - 1] == bad
  }

  class VectorStore {
    var records: Store
    ghost var calls: seq<Call>     // how the calls so far came back

    constructor (records: Store)
      ensures this.records == records && calls == []
    {
      this.records := records;
      calls := [];
    }

    method DeleteBySource(source: string) returns (r: Result<nat, Error>)
      modifies this
      ensures r.Success? ==> records == WithoutSource(old(records), source) && r.value == |PartOf(old(records), source)|
      ensures r.Failure? ==> r.error == StoreFailed && PartlyDeleted(old(records), source, records)
      ensures calls == old(calls) + [if r.Success? then Answered else Raised]
    {
      if * {
        assert PartlyDeleted(records, source, records);
        var left: Store :| PartlyDeleted(records, source, left);
        records := left;
        calls := calls + [Raised];
        return Failure(StoreFailed);
      }
      var removed := |PartOf(records, source)|;
      records := WithoutSource(records, source);
      calls := calls + [Answered];
      return Success(removed);
    }

    method Upsert(batch: PreparedBatch) returns (r: Result<nat, Error>)
      requires BatchOk(batch)
      modifies this
      ensures r.Success? ==> records == old(records) + BatchRecords(batch, |batch.ids|)
      ensures r.Failure? ==> r.error == StoreFailed && PartlyUpserted(old(records), BatchRecords(batch, |batch.ids|), records)
      ensures calls == old(calls) + [if r.Success? then Answered else Raised]
    {
      if * {
        assert PartlyUpserted(records, BatchRecords(batch, |batch.ids|), records);
        var left: Store :| PartlyUpserted(records, BatchRecords(batch, |batch.ids|), left);
        records := left;
        calls := calls + [Raised];
        return Failure(StoreFailed);
      }
      records := records + BatchRecords(batch, |batch.ids|);
      calls := calls + [Answered];
      return Success(|batch.ids|);
    }
  }

  class EmbeddingClient {
    const embed: string -> Vector
    ghost var calls: seq<Call>

    constructor (embed: string -> Vector)
      ensures this.embed == embed && calls == []
    {
      this.embed := embed;
      calls := [];
    }

    /** May fail, or answer with the wrong number of vectors; a full answer is in input order. */
    method EmbedBatch(texts: seq<string>) returns (r: Result<seq<Vector>, Error>)
      modifies this
      ensures r.Failure? ==> r.error == EmbedFailed
      ensures r.Success? && |r.value| == |texts| ==> r.value == VectorsOf(embed, texts)
      ensures calls == old(calls) + [if r.Failure? then Raised else if |r.value| != |texts| then Miscounted else Answered]
    {
      if * {
        calls := calls + [Raised];
        return Failure(EmbedFailed);
      } else if * {
        calls := calls + [Miscounted];
        return Success(VectorsOf(embed, texts) + [[]]);
      }
      calls := calls + [Answered];
      return Success(VectorsOf(embed, texts));
    }
  }

  /* ---------- the pipeline ---------- */

  /** The store after replacing one document. */
  function IngestDoc(embed: string -> Vector, store: Store, doc: RawDoc, size: nat, overlap: nat): Store
    requires Chunker.WindowOptions(size, overlap)
  {
    var texts := Chunker.Chunks(doc.text, size, overlap);
    WithoutSource(store, doc.source) + ChunkRecords(embed, doc.source, texts, 0, |texts|)
  }

  /** The store after replacing all documents in order. */
  function IngestAll(embed: string -> Vector, store: Store, docs: seq<RawDoc>, size: nat, overlap: nat): Store
    requires Chunker.WindowOptions(size, overlap)
  {
    if docs == [] then store
    else IngestDoc(embed, IngestAll(embed, store, docs[..|docs| - 1], size, overlap), docs[|docs| - 1], size, overlap)
  }

  /**
   What replacing a source may leave behind when a store call fails: part of the old records, or all of
   the first `k` new batches and part of the next one.
   */
  ghost predicate Interrupted(before: Store, source: string, batches: seq<PreparedBatch>, after: Store)
    requires AllBatchesOk(batches)
  {
    || PartlyDeleted(before, source, after)
    || exists k :: 0 <= k < |batches| && InterruptedAt(before, source, batches, k, after)
  }

  ghost predicate InterruptedAt(before: Store, source: string, batches: seq<PreparedBatch>, k: nat, after: Store)
    requires AllBatchesOk(batches) && k < |batches|
  {
    PartlyUpserted(AfterBatches(WithoutSource(before, source), batches, k), BatchRecords(batches[k], |batches[k].ids|), after)
  }

  datatype IngestReport = IngestReport(documents: nat, chunks: nat, batches: nat, deletedSources: nat)

  datatype DocCounts = DocCounts(chunks: nat, batches: nat, removed: nat)

  /** What replacing one document counts: its chunks and batches, and the vectors it removed. */
  function CountsOf(embed: string -> Vector, store: Store, doc: RawDoc, size: nat, overlap: nat, batchSize: nat): DocCounts
    requires Chunker.WindowOptions(size, overlap) && 1 <= batchSize
  {
    var texts := Chunker.Chunks(doc.text, size, overlap);
    DocCounts(|texts|, |Batches(embed, doc.source, texts, batchSize, 0)|, |PartOf(store, doc.source)|)
  }

  /** A document counts as a deletion only when the store held vectors for its source. */
  function AddCounts(r: IngestReport, c: DocCounts): IngestReport {
    IngestReport(r.documents + 1, r.chunks + c.chunks, r.batches + c.batches,
                 r.deletedSources + if c.removed > 0 then 1 else 0)
  }

  function ReportOf(embed: string -> Vector, store: Store, docs: seq<RawDoc>, size: nat, overlap: nat, batchSize: nat): IngestReport
    requires Chunker.WindowOptions(size, overlap) && 1 <= batchSize
  {
    if docs == [] then IngestReport(0, 0, 0, 0)
    else
      var rest, doc := docs[..|docs| - 1], docs[|docs| - 1];
      AddCounts(ReportOf(embed, store, rest, size, overlap, batchSize),
                CountsOf(embed, IngestAll(embed, store, rest, size, overlap), doc, size, overlap, batchSize))
  }

  /** The store a failing store call may leave while one document is replaced. */
  ghost predicate DocInterrupted(embed: string -> Vector, before: Store, doc: RawDoc, size: nat, overlap: nat,
                                 batchSize: nat, after: Store)
    requires Chunker.WindowOptions(size, overlap) && 1 <= batchSize
  {
    var batches := Batches(embed, doc.source, Chunker.Chunks(doc.text, size, overlap), batchSize, 0);
    AllBatchesOk(batches) && Interrupted(before, doc.source, batches, after)
  }

  /** A run that failed at document `i`: an embedding failure has not touched that document's source. */
  ghost predicate FailedAt(embed: string -> Vector, before: Store, docs: seq<RawDoc>, size: nat, overlap: nat,
                           batchSize: nat, i: nat, error: Error, after: Store)
    requires Chunker.WindowOptions(size, overlap) && 1 <= batchSize && i < |docs|
  {
    var reached := IngestAll(embed, before, docs[..i], size, overlap);
    if error == StoreFailed then DocInterrupted(embed, reached, docs[i], size, overlap, batchSize, after)
    else after == reached
  }

  ghost predicate FailedRun(embed: string -> Vector, before: Store, docs: seq<RawDoc>, size: nat, overlap: nat,
                            batchSize: nat, error: Error, after: Store)
    requires Chunker.WindowOptions(size, overlap) && 1 <= batchSize
  {
    exists i :: 0 <= i < |docs| && FailedAt(embed, before, docs, size, overlap, batchSize, i, error, after)
  }

  /** Which call an error comes from: the last one made, and no other has failed. */
  ghost predicate FailedBy(error: Error, embedBefore: seq<Call>, embedNow: seq<Call>, storeBefore: seq<Call>, storeNow: seq<Call>) {
    match error
    case BadChunking => embedNow == embedBefore && storeNow == storeBefore
    case EmbedFailed => LastFailed(embedBefore, embedNow, Raised) && AllAnswered(storeBefore, storeNow)
    case BadVectorCount => LastFailed(embedBefore, embedNow, Miscounted) && AllAnswered(storeBefore, storeNow)
    case StoreFailed => AllAnswered(embedBefore, embedNow) && LastFailed(storeBefore, storeNow, Raised)
  }

  lemma AnsweredThenFailed(before: seq<Call>, mid: seq<Call>, now: seq<Call>, bad: Call)
    requires AllAnswered(before, mid) && LastFailed(mid, now, bad) && bad != Answered
    ensures LastFailed(before, now, bad) && !AllAnswered(before, now)
  {
    assert now[..|now| - 1][..|before|] == before;
    forall k | |before| <= k < |now| - 1 ensures now[k] == Answered {
      if k < |mid| {
        assert now[k] == mid[k];
      } else {
        assert now[..|now| - 1][k] == now[k];
      }
    }
    assert now[..|before|] == now[..|now| - 1][..|before|];
    assert now[|now| - 1] != Answered;
  }

  lemma AnsweredTwice(before: seq<Call>, mid: seq<Call>, now: seq<Call>)
    requires AllAnswered(before, mid) && AllAnswered(mid, now)
    ensures AllAnswered(before, now)
  {
    forall k | |before| <= k < |now| ensures now[k] == Answered {
      if k < |mid| {
        assert now[k] == mid[k];
      }
    }
  }

  /** After calls that were all answered, an error comes from the last call just the same. */
  lemma FailsLater(error: Error, e0: seq<Call>, e1: seq<Call>, e2: seq<Call>, s0: seq<Call>, s1: seq<Call>, s2: seq<Call>)
    requires AllAnswered(e0, e1) && AllAnswered(s0, s1) && FailedBy(error, e1, e2, s1, s2) && error != BadChunking
    ensures FailedBy(error, e0, e2, s0, s2) && !(AllAnswered(e0, e2) && AllAnswered(s0, s2))
  {
    hide AllAnswered, LastFailed;
    match error
    case EmbedFailed => AnsweredThenFailed(e0, e1, e2, Raised); AnsweredTwice(s0, s1, s2);
    case BadVectorCount => AnsweredThenFailed(e0, e1, e2, Miscounted); AnsweredTwice(s0, s1, s2);
    case StoreFailed => AnsweredTwice(e0, e1, e2); AnsweredThenFailed(s0, s1, s2, Raised);
  }

  lemma NoCallYet(calls: seq<Call>)
    ensures AllAnswered(calls, calls)
  {
  }

  lemma OneMoreCall(before: seq<Call>, now: seq<Call>, call: Call)
    requires AllAnswered(before, now)
    ensures call == Answered ==> AllAnswered(before, now + [call])
    ensures LastFailed(before, now + [call], call)
  {
    assert (now + [call])[..|now + [call]| - 1] == now;
  }

  class IngestionPipeline {
    const embeddings: EmbeddingClient
    const vectorStore: VectorStore
    const chunkWords: int
    const chunkOverlap: int
    const batchSize: nat

    constructor (embeddings: EmbeddingClient, vectorStore: VectorStore, chunkWords: int, chunkOverlap: int, batchSize: int)
      ensures this.embeddings == embeddings && this.vectorStore == vectorStore
      ensures this.chunkWords == chunkWords && this.chunkOverlap == chunkOverlap
      ensures 1 <= this.batchSize && (1 <= batchSize ==> this.batchSize == batchSize)
    {
      this.embeddings := embeddings;
      this.vectorStore := vectorStore;
      this.chunkWords := chunkWords;
      this.chunkOverlap := chunkOverlap;
      this.batchSize := if batchSize < 1 then 1 else batchSize;
    }

    /** Embed all chunks of a document. The store is not touched, and it goes wrong only if a call of the client does. */
    method EmbedDocument(source: string, texts: seq<string>) returns (r: Result<seq<PreparedBatch>, Error>)
      requires 1 <= batchSize
      modifies embeddings
      ensures r.Success? ==> r.value == Batches(embeddings.embed, source, texts, batchSize, 0)
      ensures r.Failure? ==> r.error == EmbedFailed || r.error == BadVectorCount
      ensures r.Success? ==> AllAnswered(old(embeddings.calls), embeddings.calls)
                             && |embeddings.calls| == |old(embeddings.calls)| + |r.value|
      ensures r.Failure? ==>
                LastFailed(old(embeddings.calls), embeddings.calls, if r.error == EmbedFailed then Raised else Miscounted)
    {
      ghost var before := embeddings.calls;
      var batches: seq<PreparedBatch> := [];
      var start := 0;
      while start < |texts|
        invariant start <= |texts|
        invariant batches + Batches(embeddings.embed, source, texts, batchSize, start)
               == Batches(embeddings.embed, source, texts, batchSize, 0)
        invariant AllAnswered(before, embeddings.calls) && |embeddings.calls| == |before| + |batches|
      {
        var stop := Min(start + batchSize, |texts|);
        var batch := texts[start..stop];
        ghost var so := embeddings.calls;
        var vectors := embeddings.EmbedBatch(batch);
        if vectors.Failure? {
          OneMoreCall(before, so, Raised);
          return Failure(EmbedFailed);
        }
        if |vectors.value| != |batch| {
          OneMoreCall(before, so, Miscounted);
          return Failure(BadVectorCount);
        }
        var prepared := PreparedBatch(
          seq(|batch|, offset requires 0 <= offset < |batch| => ChunkId(source, start + offset)),
          vectors.value,
          batch,
          seq(|batch|, offset requires 0 <= offset < |batch| => Metadata(source, start + offset)));
        assert prepared == BatchOf(embeddings.embed, source, texts, start, stop);
        assert batches + Batches(embeddings.embed, source, texts, batchSize, start)
            == (batches + [prepared]) + Batches(embeddings.embed, source, texts, batchSize, stop);
        OneMoreCall(before, so, Answered);
        batches := batches + [prepared];
        start := stop;
      }
      return Success(batches);
    }

    /** Delete first, then upsert batch by batch. */
    method ReplaceSource(source: string, batches: seq<PreparedBatch>) returns (r: Result<nat, Error>)
      requires AllBatchesOk(batches)
      modifies vectorStore
      ensures r.Success? ==> vectorStore.records == AfterBatches(WithoutSource(old(vectorStore.records), source), batches, |batches|)
                             && r.value == |PartOf(old(vectorStore.records), source)|
      ensures r.Failure? ==> r.error == StoreFailed
                             && Interrupted(old(vectorStore.records), source, batches, vectorStore.records)
      ensures r.Success? ==> AllAnswered(old(vectorStore.calls), vectorStore.calls)
                             && |vectorStore.calls| == |old(vectorStore.calls)| + 1 + |batches|
      ensures r.Failure? ==> LastFailed(old(vectorStore.calls), vectorStore.calls, Raised)
    {
      hide BatchRecords, AllRecords, AfterBatches, PartlyUpserted, PartlyDeleted, WithoutSource, PartOf, AllAnswered, LastFailed;
      ghost var before := vectorStore.records;
      ghost var earlier := vectorStore.calls;
      NoCallYet(earlier);
      r := vectorStore.DeleteBySource(source);
      OneMoreCall(earlier, earlier, if r.Success? then Answered else Raised);
      if r.Failure? {
        return;
      }
      ghost var purged := vectorStore.records;
      AfterNone(purged, batches);
      var i := 0;
      while i < |batches|
        invariant 0 <= i <= |batches|
        invariant vectorStore.records == AfterBatches(purged, batches, i)
        invariant AllAnswered(earlier, vectorStore.calls) && |vectorStore.calls| == |earlier| + 1 + i
      {
        ghost var so := vectorStore.calls;
        var landed := vectorStore.Upsert(batches[i]);
        OneMoreCall(earlier, so, if landed.Success? then Answered else Raised);
        if landed.Failure? {
          assert InterruptedAt(before, source, batches, i, vectorStore.records);
          return Failure(StoreFailed);
        }
        AfterOneMore(purged, batches, i);
        i := i + 1;
      }
    }

    /** One turn of the loop over documents: chunk, embed everything, then replace. */
    method IngestDocument(doc: RawDoc) returns (r: Result<DocCounts, Error>)
      requires 1 <= batchSize
      modifies vectorStore, embeddings
      ensures r.Success? <==>
                && 1 <= chunkWords && 0 <= chunkOverlap < chunkWords
                && AllAnswered(old(embeddings.calls), embeddings.calls) && AllAnswered(old(vectorStore.calls), vectorStore.calls)
      ensures r.Failure? ==> FailedBy(r.error, old(embeddings.calls), embeddings.calls, old(vectorStore.calls), vectorStore.calls)
      ensures r.Success? ==>
                (&& Chunker.WindowOptions(chunkWords, chunkOverlap)
                 && vectorStore.records == IngestDoc(embeddings.embed, old(vectorStore.records), doc, chunkWords, chunkOverlap)
                 && r.value == CountsOf(embeddings.embed, old(vectorStore.records), doc, chunkWords, chunkOverlap, batchSize))
      ensures r.Failure? && r.error != StoreFailed ==> vectorStore.records == old(vectorStore.records)
      ensures r.Failure? ==> (r.error == BadChunking <==> !Chunker.WindowOptions(chunkWords, chunkOverlap))
      ensures r == Failure(StoreFailed) ==>
                DocInterrupted(embeddings.embed, old(vectorStore.records), doc, chunkWords, chunkOverlap, batchSize, vectorStore.records)
    {
      var texts := Chunker.ChunkText(doc.text, chunkWords, chunkOverlap);
      if texts.Failure? {
        return Failure(BadChunking);
      }
      var prepared: Result<seq<PreparedBatch>, Error> := Success([]);
      if texts.value != [] {
        prepared := EmbedDocument(doc.source, texts.value);
      }
      if prepared.Failure? {
        return Failure(prepared.error);
      }
      var batches := prepared.value;
      BatchesAreOk(embeddings.embed, doc.source, texts.value, batchSize, 0);
      var removed := ReplaceSource(doc.source, batches);
      if removed.Failure? {
        return Failure(StoreFailed);
      }
      assert batches[..|batches|] == batches;
      BatchPrefixRecords(embeddings.embed, doc.source, texts.value, batchSize, 0, |batches|);
      return Success(DocCounts(|texts.value|, |batches|, removed.value));
    }

    /** Ingest documents in order; on failure the ones before it are complete and the ones after it untouched. */
    method IngestDocuments(docs: seq<RawDoc>) returns (r: Result<IngestReport, Error>)
      requires 1 <= batchSize
      modifies vectorStore, embeddings
      ensures r.Success? <==>
                && (docs == [] || (1 <= chunkWords && 0 <= chunkOverlap < chunkWords))
                && AllAnswered(old(embeddings.calls), embeddings.calls) && AllAnswered(old(vectorStore.calls), vectorStore.calls)
      ensures r.Failure? ==> FailedBy(r.error, old(embeddings.calls), embeddings.calls, old(vectorStore.calls), vectorStore.calls)
      ensures r.Success? && docs != [] ==>
                (&& Chunker.WindowOptions(chunkWords, chunkOverlap)
                 && vectorStore.records == IngestAll(embeddings.embed, old(vectorStore.records), docs, chunkWords, chunkOverlap)
                 && r.value == ReportOf(embeddings.embed, old(vectorStore.records), docs, chunkWords, chunkOverlap, batchSize))
      ensures r.Success? && docs == [] ==> vectorStore.records == old(vectorStore.records) && r.value == IngestReport(0, 0, 0, 0)
      ensures r == Failure(BadChunking) ==>
                vectorStore.records == old(vectorStore.records) && !Chunker.WindowOptions(chunkWords, chunkOverlap)
      ensures r.Failure? && r.error != BadChunking ==>
                (&& Chunker.WindowOptions(chunkWords, chunkOverlap)
                 && FailedRun(embeddings.embed, old(vectorStore.records), docs, chunkWords, chunkOverlap, batchSize,
                              r.error, vectorStore.records))
    {
      hide IngestDoc, CountsOf, AddCounts, DocInterrupted;
      ghost var before := vectorStore.records;
      ghost var embedded, stored := embeddings.calls, vectorStore.calls;
      var report := IngestReport(0, 0, 0, 0);
      for i := 0 to |docs|
        invariant AllAnswered(embedded, embeddings.calls) && AllAnswered(stored, vectorStore.calls)
        invariant i == 0 ==> embeddings.calls == embedded && vectorStore.calls == stored
        invariant i > 0 ==> Chunker.WindowOptions(chunkWords, chunkOverlap)
        invariant i == 0 ==> vectorStore.records == before && report == IngestReport(0, 0, 0, 0)
        invariant Chunker.WindowOptions(chunkWords, chunkOverlap) ==>
                    vectorStore.records == IngestAll(embeddings.embed, before, docs[..i], chunkWords, chunkOverlap)
        invariant Chunker.WindowOptions(chunkWords, chunkOverlap) ==>
                    report == ReportOf(embeddings.embed, before, docs[..i], chunkWords, chunkOverlap, batchSize)
      {
        ghost var soFar := (embeddings.calls, vectorStore.calls);
        var counts := IngestDocument(docs[i]);
        if counts.Failure? {
          if counts.error != BadChunking {
            FailsLater(counts.error, embedded, soFar.0, embeddings.calls, stored, soFar.1, vectorStore.calls);
          }
          assert counts.error != BadChunking ==>
            FailedAt(embeddings.embed, before, docs, chunkWords, chunkOverlap, batchSize, i, counts.error, vectorStore.records);
          return Failure(counts.error);
        }
        AnsweredTwice(embedded, soFar.0, embeddings.calls);
        AnsweredTwice(stored, soFar.1, vectorStore.calls);
        assert docs[..i + 1][..i] == docs[..i];
        report := AddCounts(report, counts.value);
      }
      assert docs[..|docs|] == docs;
      r := Success(report);
    }
  }

}
