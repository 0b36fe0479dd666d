/** What the ingestion pipeline guarantees about the store, whatever fails and wherever. */
module IngestionGuarantees {
  import opened Common
  import opened Ingestion
  import Chunker

  /** Nothing of another source is touched, and nothing of this one but what `part` says. */
  lemma ReplacedParts(store: Store, source: string, added: Store, s: string)
    requires WellFormed(store) && WellFormed(added)
    requires forall id :: id in added ==> added[id].metadata.source == source
    ensures WellFormed(WithoutSource(store, source) + added)
    ensures PartOf(WithoutSource(store, source) + added, s) == if s == source then added else PartOf(store, s)
  {
    var after := WithoutSource(store, source) + added;
    forall id | id in added && id in store && store[id].metadata.source != source ensures false {
      ChunkIdInjective(store[id].metadata.source, store[id].metadata.index, source, added[id].metadata.index);
    }
    assert forall id :: id in PartOf(after, s) <==> id in if s == source then added else PartOf(store, s);
  }

  lemma ChunkRecordsSource(embed: string -> Vector, source: string, texts: seq<string>, lo: nat, hi: nat)
    requires lo <= hi <= |texts|
    ensures WellFormed(ChunkRecords(embed, source, texts, lo, hi))
    ensures forall id :: id in ChunkRecords(embed, source, texts, lo, hi) ==>
              ChunkRecords(embed, source, texts, lo, hi)[id].metadata.source == source
  {
    ChunkRecordsAre(embed, source, texts, lo, hi);
  }

  function ChunksOf(doc: RawDoc, size: nat, overlap: nat): seq<string>
    requires Chunker.WindowOptions(size, overlap)
  {
    Chunker.Chunks(doc.text, size, overlap)
  }

  /** The complete, current records of a document. */
  function Current(embed: string -> Vector, doc: RawDoc, size: nat, overlap: nat): Store
    requires Chunker.WindowOptions(size, overlap)
  {
    ChunkRecords(embed, doc.source, ChunksOf(doc, size, overlap), 0, |ChunksOf(doc, size, overlap)|)
  }

  lemma DocReplaced(embed: string -> Vector, store: Store, doc: RawDoc, size: nat, overlap: nat, s: string)
    requires Chunker.WindowOptions(size, overlap) && WellFormed(store)
    ensures WellFormed(IngestDoc(embed, store, doc, size, overlap))
    ensures PartOf(IngestDoc(embed, store, doc, size, overlap), s)
            == if s == doc.source then Current(embed, doc, size, overlap) else PartOf(store, s)
  {
    var texts := ChunksOf(doc, size, overlap);
    ChunkRecordsSource(embed, doc.source, texts, 0, |texts|);
    ReplacedParts(store, doc.source, Current(embed, doc, size, overlap), s);
  }

  /** The last document in `docs` for a source, if any: later documents replace earlier ones. */
  function LastFor(docs: seq<RawDoc>, s: string): Option<RawDoc> {
    if docs == [] then None
    else if docs[|docs| - 1].source == s then Some(docs[|docs| - 1])
    else LastFor(docs[..|docs| - 1], s)
  }

  /**
   A complete run, from any well-formed store: every ingested source holds exactly its current chunks under
   ids `source#0` to `source#(n-1)`, every other source is untouched.
   */
  lemma {:induction false} RunReplacesExactly(embed: string -> Vector, store: Store, docs: seq<RawDoc>, size: nat, overlap: nat, s: string)
    requires Chunker.WindowOptions(size, overlap) && WellFormed(store)
    ensures WellFormed(IngestAll(embed, store, docs, size, overlap))
    ensures PartOf(IngestAll(embed, store, docs, size, overlap), s)
            == match LastFor(docs, s)
               case Some(doc) => Current(embed, doc, size, overlap)
               case None => PartOf(store, s)
  {
    if docs != [] {
      var rest := docs[..|docs| - 1];
      RunReplacesExactly(embed, store, rest, size, overlap, s);
      DocReplaced(embed, IngestAll(embed, store, rest, size, overlap), docs[|docs| - 1], size, overlap, s);
    }
  }

  /** The ids and contents of a document's records, chunk by chunk. */
  lemma CurrentIs(embed: string -> Vector, doc: RawDoc, size: nat, overlap: nat)
    requires Chunker.WindowOptions(size, overlap)
    ensures var texts, part := ChunksOf(doc, size, overlap), Current(embed, doc, size, overlap);
            && |part| == |texts|
            && forall i :: 0 <= i < |texts| ==>
                 ChunkId(doc.source, i) in part
                 && part[ChunkId(doc.source, i)] == Record(embed(texts[i]), texts[i], Metadata(doc.source, i))
  {
    ChunkRecordsAre(embed, doc.source, ChunksOf(doc, size, overlap), 0, |ChunksOf(doc, size, overlap)|);
  }

  /** Stores that agree source by source are equal. */
  lemma SamePartsSameStore(a: Store, b: Store)
    requires forall s: string :: PartOf(a, s) == PartOf(b, s)
    ensures a == b
  {
    forall id ensures id in a <==> id in b {
      if id in a {
        assert id in PartOf(a, a[id].metadata.source);
        assert id in PartOf(b, a[id].metadata.source);
      }
      if id in b {
        assert id in PartOf(b, b[id].metadata.source);
        assert id in PartOf(a, b[id].metadata.source);
      }
    }
    forall id | id in a ensures a[id] == b[id] {
      assert PartOf(a, a[id].metadata.source)[id] == PartOf(b, a[id].metadata.source)[id];
    }
  }

  /** Two stores that differ only in sources about to be ingested end up the same. */
  lemma RunForgetsTheOld(embed: string -> Vector, a: Store, b: Store, docs: seq<RawDoc>, size: nat, overlap: nat)
    requires Chunker.WindowOptions(size, overlap) && WellFormed(a) && WellFormed(b)
    requires forall s: string :: LastFor(docs, s) == None ==> PartOf(a, s) == PartOf(b, s)
    ensures IngestAll(embed, a, docs, size, overlap) == IngestAll(embed, b, docs, size, overlap)
  {
    forall s: string
      ensures PartOf(IngestAll(embed, a, docs, size, overlap), s) == PartOf(IngestAll(embed, b, docs, size, overlap), s)
    {
      RunReplacesExactly(embed, a, docs, size, overlap, s);
      RunReplacesExactly(embed, b, docs, size, overlap, s);
    }
    SamePartsSameStore(IngestAll(embed, a, docs, size, overlap), IngestAll(embed, b, docs, size, overlap));
  }

  /* ---------- failures ---------- */

  ghost predicate Within(part: Store, whole: Store) {
    forall id :: id in part ==> id in whole && part[id] == whole[id]
  }

  lemma PartlyDeletedParts(before: Store, source: string, after: Store, s: string)
    requires WellFormed(before) && PartlyDeleted(before, source, after)
    ensures WellFormed(after)
    ensures Within(PartOf(after, s), PartOf(before, s))
    ensures s != source ==> PartOf(after, s) == PartOf(before, s)
  {
  }

  lemma PartlyUpsertedParts(before: Store, source: string, added: Store, after: Store, s: string)
    requires WellFormed(before) && WellFormed(added) && PartlyUpserted(before, added, after)
    requires forall id :: id in added ==> added[id].metadata.source == source
    ensures WellFormed(after)
    ensures s != source ==> PartOf(after, s) == PartOf(before, s)
    ensures forall id :: id in PartOf(before, source) ==> id in PartOf(after, source)
    ensures forall id :: id in PartOf(after, source) ==>
              (id in PartOf(before, source) && after[id] == before[id]) || (id in added && after[id] == added[id])
  {
    forall id | id in added && id in before && before[id].metadata.source != source ensures false {
      ChunkIdInjective(before[id].metadata.source, before[id].metadata.index, source, added[id].metadata.index);
    }
    assert s != source ==> forall id :: id in PartOf(after, s) <==> id in PartOf(before, s);
  }

  lemma ChunkRecordsWithin(embed: string -> Vector, source: string, texts: seq<string>, lo: nat, m: nat, m': nat)
    requires lo <= m <= m' <= |texts|
    ensures Within(ChunkRecords(embed, source, texts, lo, m), ChunkRecords(embed, source, texts, 0, m'))
  {
    ChunkRecordsAre(embed, source, texts, lo, m);
    ChunkRecordsAre(embed, source, texts, 0, m');
    var part, whole := ChunkRecords(embed, source, texts, lo, m), ChunkRecords(embed, source, texts, 0, m');
    forall id | id in part ensures id in whole && part[id] == whole[id] {
      var i :| lo <= i < m && id == ChunkId(source, i);
      assert part[ChunkId(source, i)] == ChunkRecord(embed, source, texts, i) == whole[ChunkId(source, i)];
    }
  }

  /** The records of a document's first `m` chunks. */
  function FirstChunks(embed: string -> Vector, doc: RawDoc, size: nat, overlap: nat, m: nat): Store
    requires Chunker.WindowOptions(size, overlap) && m <= |ChunksOf(doc, size, overlap)|
  {
    ChunkRecords(embed, doc.source, ChunksOf(doc, size, overlap), 0, m)
  }

  /**
   What a source holds when replacing it was cut short: nothing but old records, or nothing but new ones:
   all of the first `k` batches and at most some of the next. Never a mix of old and new.
   */
  ghost predicate OldOrNew(embed: string -> Vector, before: Store, doc: RawDoc, size: nat, overlap: nat, batchSize: nat, after: Store)
    requires Chunker.WindowOptions(size, overlap) && 1 <= batchSize
  {
    || Within(PartOf(after, doc.source), PartOf(before, doc.source))
    || exists k: nat :: BatchesInAndPartOfNext(embed, doc, size, overlap, batchSize, k, after)
  }

  ghost predicate BatchesInAndPartOfNext(embed: string -> Vector, doc: RawDoc, size: nat, overlap: nat, batchSize: nat,
                                         k: nat, after: Store)
    requires Chunker.WindowOptions(size, overlap) && 1 <= batchSize
  {
    var n := |ChunksOf(doc, size, overlap)|;
    && BatchesEnd(n, batchSize, 0, k) <= BatchesEnd(n, batchSize, 0, k + 1) <= n
    && Within(FirstChunks(embed, doc, size, overlap, BatchesEnd(n, batchSize, 0, k)), PartOf(after, doc.source))
    && Within(PartOf(after, doc.source), FirstChunks(embed, doc, size, overlap, BatchesEnd(n, batchSize, 0, k + 1)))
  }

  lemma UpsertCutShort(embed: string -> Vector, before: Store, doc: RawDoc, size: nat, overlap: nat, batchSize: nat,
                       k: nat, after: Store, s: string)
    requires Chunker.WindowOptions(size, overlap) && 1 <= batchSize && WellFormed(before)
    requires k < |Batches(embed, doc.source, ChunksOf(doc, size, overlap), batchSize, 0)|
    requires AllBatchesOk(Batches(embed, doc.source, ChunksOf(doc, size, overlap), batchSize, 0))
    requires InterruptedAt(before, doc.source, Batches(embed, doc.source, ChunksOf(doc, size, overlap), batchSize, 0), k, after)
    ensures WellFormed(after)
    ensures s != doc.source ==> PartOf(after, s) == PartOf(before, s)
    ensures OldOrNew(embed, before, doc, size, overlap, batchSize, after)
  {
    hide ChunkRecords, Batches, BatchRecords, AllRecords, PartlyUpserted, Within, PartOf, WellFormed;
    var texts := ChunksOf(doc, size, overlap);
    var batches := Batches(embed, doc.source, texts, batchSize, 0);
    var m, m' := BatchesEnd(|texts|, batchSize, 0, k), BatchesEnd(|texts|, batchSize, 0, k + 1);
    BatchPrefixRecords(embed, doc.source, texts, batchSize, 0, k);
    BatchAt(embed, doc.source, texts, batchSize, 0, k);
    BatchOfIs(embed, doc.source, texts, m, m', m' - m);
    CutShort(embed, before, doc.source, texts, m, m', after, s);
    assert BatchesInAndPartOfNext(embed, doc, size, overlap, batchSize, k, after);
  }

  /** All of the chunks before `m` and some of those up to `m'` are in. */
  lemma CutShort(embed: string -> Vector, before: Store, source: string, texts: seq<string>, m: nat, m': nat, after: Store, s: string)
    requires m <= m' <= |texts| && WellFormed(before)
    requires PartlyUpserted(WithoutSource(before, source) + ChunkRecords(embed, source, texts, 0, m),
                            ChunkRecords(embed, source, texts, m, m'), after)
    ensures WellFormed(after)
    ensures s != source ==> PartOf(after, s) == PartOf(before, s)
    ensures Within(ChunkRecords(embed, source, texts, 0, m), PartOf(after, source))
    ensures Within(PartOf(after, source), ChunkRecords(embed, source, texts, 0, m'))
  {
    var first, added := ChunkRecords(embed, source, texts, 0, m), ChunkRecords(embed, source, texts, m, m');
    ChunkRecordsSource(embed, source, texts, 0, m);
    ChunkRecordsSource(embed, source, texts, m, m');
    ReplacedParts(before, source, first, s);
    ReplacedParts(before, source, first, source);
    var reached := WithoutSource(before, source) + first;
    PartlyUpsertedParts(reached, source, added, after, s);
    PartlyUpsertedParts(reached, source, added, after, source);
    ChunkRecordsWithin(embed, source, texts, 0, m, m');
    ChunkRecordsWithin(embed, source, texts, m, m', m');
  }

  /** A failure while replacing a document: the store stays sound and only that document's source is affected. */
  lemma InterruptionIsContained(embed: string -> Vector, before: Store, doc: RawDoc, size: nat, overlap: nat,
                                batchSize: nat, after: Store, s: string)
    requires Chunker.WindowOptions(size, overlap) && 1 <= batchSize && WellFormed(before)
    requires DocInterrupted(embed, before, doc, size, overlap, batchSize, after)
    ensures WellFormed(after)
    ensures s != doc.source ==> PartOf(after, s) == PartOf(before, s)
    ensures OldOrNew(embed, before, doc, size, overlap, batchSize, after)
  {
    var batches := Batches(embed, doc.source, ChunksOf(doc, size, overlap), batchSize, 0);
    if PartlyDeleted(before, doc.source, after) {
      PartlyDeletedParts(before, doc.source, after, s);
      PartlyDeletedParts(before, doc.source, after, doc.source);
    } else {
      var k :| 0 <= k < |batches| && InterruptedAt(before, doc.source, batches, k, after);
      UpsertCutShort(embed, before, doc, size, overlap, batchSize, k, after, s);
    }
  }

  /**
   Crash safety of a whole run: when it fails, some document is the one it failed at. Sources of the
   documents before it are complete, sources of later ones are as they were, its own source holds only old
   records or only new ones, and is exactly as it was when the failure was an embedding failure.
   */
  lemma FailedRunIsContained(embed: string -> Vector, before: Store, docs: seq<RawDoc>, size: nat, overlap: nat,
                             batchSize: nat, error: Error, after: Store) returns (i: nat)
    requires Chunker.WindowOptions(size, overlap) && 1 <= batchSize && WellFormed(before)
    requires FailedRun(embed, before, docs, size, overlap, batchSize, error, after)
    ensures i < |docs| && WellFormed(after)
    ensures forall s: string :: s != docs[i].source ==>
              PartOf(after, s) == match LastFor(docs[..i], s)
                                  case Some(doc) => Current(embed, doc, size, overlap)
                                  case None => PartOf(before, s)
    ensures var reached := IngestAll(embed, before, docs[..i], size, overlap);
            if error == StoreFailed then OldOrNew(embed, reached, docs[i], size, overlap, batchSize, after) else after == reached
  {
    i :| 0 <= i < |docs| && FailedAt(embed, before, docs, size, overlap, batchSize, i, error, after);
    var reached := IngestAll(embed, before, docs[..i], size, overlap);
    forall s: string
      ensures WellFormed(after)
      ensures s != docs[i].source ==>
                PartOf(after, s) == match LastFor(docs[..i], s)
                                    case Some(doc) => Current(embed, doc, size, overlap)
                                    case None => PartOf(before, s)
    {
      RunReplacesExactly(embed, before, docs[..i], size, overlap, s);
      if error == StoreFailed {
        InterruptionIsContained(embed, reached, docs[i], size, overlap, batchSize, after, s);
      }
    }
    RunReplacesExactly(embed, before, docs[..i], size, overlap, docs[i].source);
    if error == StoreFailed {
      InterruptionIsContained(embed, reached, docs[i], size, overlap, batchSize, after, docs[i].source);
    }
  }

  lemma {:induction false} LastForPrefix(docs: seq<RawDoc>, i: nat, s: string)
    requires i <= |docs| && LastFor(docs, s) == None
    ensures LastFor(docs[..i], s) == None
    ensures forall j :: 0 <= j < |docs| ==> docs[j].source != s
  {
    if docs != [] {
      var rest := docs[..|docs| - 1];
      LastForPrefix(rest, if i == |docs| then |rest| else i, s);
      assert forall j :: 0 <= j < |rest| ==> rest[j] == docs[j];
      if i == |docs| {
        assert docs[..i] == docs;
      } else {
        assert rest[..i] == docs[..i];
      }
    }
  }

  /**
   Re-ingestion converges: after a run that failed anywhere and left whatever it left, running again to
   completion reaches exactly the store a run that never failed would have reached.
   */
  lemma RetryRepairs(embed: string -> Vector, before: Store, docs: seq<RawDoc>, size: nat, overlap: nat,
                     batchSize: nat, error: Error, after: Store)
    requires Chunker.WindowOptions(size, overlap) && 1 <= batchSize && WellFormed(before)
    requires FailedRun(embed, before, docs, size, overlap, batchSize, error, after)
    ensures IngestAll(embed, after, docs, size, overlap) == IngestAll(embed, before, docs, size, overlap)
  {
    var i := FailedRunIsContained(embed, before, docs, size, overlap, batchSize, error, after);
    forall s: string | LastFor(docs, s) == None ensures PartOf(after, s) == PartOf(before, s) {
      LastForPrefix(docs, i, s);
    }
    RunForgetsTheOld(embed, after, before, docs, size, overlap);
  }

  /** Ingesting the same documents again changes nothing. */
  lemma IngestIsIdempotent(embed: string -> Vector, before: Store, docs: seq<RawDoc>, size: nat, overlap: nat)
    requires Chunker.WindowOptions(size, overlap) && WellFormed(before)
    ensures var after := IngestAll(embed, before, docs, size, overlap);
            WellFormed(after) && IngestAll(embed, after, docs, size, overlap) == after
  {
    var after := IngestAll(embed, before, docs, size, overlap);
    RunReplacesExactly(embed, before, docs, size, overlap, "");
    forall s: string | LastFor(docs, s) == None ensures PartOf(after, s) == PartOf(before, s) {
      RunReplacesExactly(embed, before, docs, size, overlap, s);
    }
    RunForgetsTheOld(embed, after, before, docs, size, overlap);
  }

  /* ---------- the counts of a completed run ---------- */

  /** A document takes the least number of batches that hold its chunks. */
  lemma {:induction false} BatchCount(embed: string -> Vector, source: string, texts: seq<string>, size: nat, start: nat)
    requires 1 <= size && start <= |texts|
    ensures var count := |Batches(embed, source, texts, size, start)|;
            && |texts| - start <= count * size
            && (count > 0 ==> (count - 1) * size < |texts| - start)
            && (count == 0 <==> start == |texts|)
    decreases |texts| - start
  {
    if start < |texts| {
      var stop := Min(start + size, |texts|);
      BatchCount(embed, source, texts, size, stop);
      var rest := |Batches(embed, source, texts, size, stop)|;
      assert (rest + 1) * size == rest * size + size;
      if rest > 0 {
        assert rest * size == (rest - 1) * size + size;
      }
    }
  }

  ghost predicate DistinctSources(docs: seq<RawDoc>) {
    forall i, j :: 0 <= i < j < |docs| ==> docs[i].source != docs[j].source
  }

  function ChunkTotal(docs: seq<RawDoc>, size: nat, overlap: nat): nat
    requires Chunker.WindowOptions(size, overlap)
  {
    if docs == [] then 0 else |ChunksOf(docs[0], size, overlap)| + ChunkTotal(docs[1..], size, overlap)
  }

  /** How many batches hold `n` chunks when every one but the last is full. */
  function BatchesFor(n: nat, size: nat): nat
    requires 1 <= size
    decreases n
  {
    if n == 0 then 0 else if n <= size then 1 else 1 + BatchesFor(n - size, size)
  }

  function BatchTotal(docs: seq<RawDoc>, size: nat, overlap: nat, batchSize: nat): nat
    requires Chunker.WindowOptions(size, overlap) && 1 <= batchSize
  {
    if docs == [] then 0
    else BatchesFor(|ChunksOf(docs[0], size, overlap)|, batchSize) + BatchTotal(docs[1..], size, overlap, batchSize)
  }

  lemma {:induction false} BatchesOfDoc(embed: string -> Vector, source: string, texts: seq<string>, size: nat, start: nat)
    requires 1 <= size && start <= |texts|
    ensures |Batches(embed, source, texts, size, start)| == BatchesFor(|texts| - start, size)
    decreases |texts| - start
  {
    if start < |texts| {
      BatchesOfDoc(embed, source, texts, size, Min(start + size, |texts|));
    }
  }

  lemma {:induction false} BatchTotalSnoc(docs: seq<RawDoc>, doc: RawDoc, size: nat, overlap: nat, batchSize: nat)
    requires Chunker.WindowOptions(size, overlap) && 1 <= batchSize
    ensures BatchTotal(docs + [doc], size, overlap, batchSize)
         == BatchTotal(docs, size, overlap, batchSize) + BatchesFor(|ChunksOf(doc, size, overlap)|, batchSize)
  {
    if docs == [] {
      assert docs + [doc] == [doc] && [doc][1..] == [];
    } else {
      assert (docs + [doc])[1..] == docs[1..] + [doc];
      BatchTotalSnoc(docs[1..], doc, size, overlap, batchSize);
    }
  }

  /** How many of the documents' sources the store holds vectors for. */
  function HeldSources(store: Store, docs: seq<RawDoc>): nat {
    if docs == [] then 0 else (if PartOf(store, docs[0].source) != map[] then 1 else 0) + HeldSources(store, docs[1..])
  }

  lemma {:induction false} TotalsSnoc(store: Store, docs: seq<RawDoc>, doc: RawDoc, size: nat, overlap: nat)
    requires Chunker.WindowOptions(size, overlap)
    ensures ChunkTotal(docs + [doc], size, overlap) == ChunkTotal(docs, size, overlap) + |ChunksOf(doc, size, overlap)|
    ensures HeldSources(store, docs + [doc])
         == HeldSources(store, docs) + if PartOf(store, doc.source) != map[] then 1 else 0
  {
    if docs == [] {
      assert docs + [doc] == [doc] && [doc][1..] == [];
    } else {
      assert (docs + [doc])[1..] == docs[1..] + [doc];
      TotalsSnoc(store, docs[1..], doc, size, overlap);
    }
  }

  lemma {:induction false} NotIngested(docs: seq<RawDoc>, s: string)
    requires forall i :: 0 <= i < |docs| ==> docs[i].source != s
    ensures LastFor(docs, s) == None
  {
    if docs != [] {
      NotIngested(docs[..|docs| - 1], s);
    }
  }

  /**
   The report of a run over distinct sources: all documents, all chunks, each document's chunks in batches rounded up,
   and exactly the sources the store held.
   */
  lemma {:induction false} ReportIs(embed: string -> Vector, store: Store, docs: seq<RawDoc>, size: nat, overlap: nat, batchSize: nat)
    requires Chunker.WindowOptions(size, overlap) && 1 <= batchSize && WellFormed(store) && DistinctSources(docs)
    ensures var report := ReportOf(embed, store, docs, size, overlap, batchSize);
            && report.documents == |docs|
            && report.chunks == ChunkTotal(docs, size, overlap)
            && report.batches == BatchTotal(docs, size, overlap, batchSize)
            && report.deletedSources == HeldSources(store, docs)
  {
    if docs != [] {
      var n := |docs| - 1;
      var rest, doc := docs[..n], docs[n];
      assert docs == rest + [doc];
      ReportIs(embed, store, rest, size, overlap, batchSize);
      TotalsSnoc(store, rest, doc, size, overlap);
      BatchTotalSnoc(rest, doc, size, overlap, batchSize);
      BatchesOfDoc(embed, doc.source, ChunksOf(doc, size, overlap), batchSize, 0);
      NotIngested(rest, doc.source);
      RunReplacesExactly(embed, store, rest, size, overlap, doc.source);
    }
  }

  lemma {:induction false} NothingHeld(store: Store, docs: seq<RawDoc>)
    requires forall i :: 0 <= i < |docs| ==> PartOf(store, docs[i].source) == map[]
    ensures HeldSources(store, docs) == 0
  {
    if docs != [] {
      NothingHeld(store, docs[1..]);
    }
  }

  /** A first-time run reports no deletion. */
  lemma FirstRunDeletesNothing(embed: string -> Vector, store: Store, docs: seq<RawDoc>, size: nat, overlap: nat, batchSize: nat)
    requires Chunker.WindowOptions(size, overlap) && 1 <= batchSize && WellFormed(store) && DistinctSources(docs)
    requires forall i :: 0 <= i < |docs| ==> PartOf(store, docs[i].source) == map[]
    ensures ReportOf(embed, store, docs, size, overlap, batchSize).deletedSources == 0
  {
    NothingHeld(store, docs);
    ReportIs(embed, store, docs, size, overlap, batchSize);
  }
}
