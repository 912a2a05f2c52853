/**
 * The request handler of the `process-document` function: it loads a
 * document, marks it `processing`, chunks its content, embeds and stores the
 * chunks batch by batch with a pause between batches, and marks the document
 * `completed`, or `failed` from its catch block.
 *
 * The embedding service, the store's acceptance of an insert and the pause
 * are the environment: the embedder is an oracle that may fail for a given
 * chunk, the store's answer to the insert of batch `b` is `insertOk(b)`, and
 * the pauses are counted.
 */
module Ingest {
  import opened Common
  import opened Chunker
  import opened Batching

  /** A document id; the empty string stands for a missing or falsy `documentId`. */
  type DocId = string

  /** An embedding, stored as it comes back from the service. */
  type Vector = seq<real>

  /** The embedding oracle: the answer to the request for chunk `k` with content `c`; `None` is a failed request. */
  type Embedder = (nat, string) -> Option<Vector>

  /** `processing_status` of a `documents` row. */
  datatype Status = Pending | Processing | Completed | Failed

  /** A `documents` row: its content and its status. */
  datatype Document = Document(content: string, status: Status)

  /** The `metadata` column of a `document_chunks` row. */
  datatype Metadata = Metadata(chunkSize: nat, position: nat, totalChunks: nat)

  /** A `document_chunks` row. */
  datatype ChunkRow = ChunkRow(documentId: DocId, chunkIndex: nat, content: string,
                               embedding: Vector, metadata: Metadata)

  /** One status update sent to the `documents` table, in the order sent. */
  datatype StatusWrite = StatusWrite(id: DocId, status: Status)

  /** The reasons a request ends in the catch block. */
  datatype Error =
    | MalformedBody       // `req.json()` rejects the body
    | MissingDocumentId   // 'Document ID is required'
    | MissingApiKey       // 'OpenAI API key not configured'
    | MissingAuthHeader   // 'No authorization header'
    | DocumentNotFound    // 'Document not found'
    | EmbeddingFailed     // 'Failed to generate embedding'
    | StoreFailed         // 'Failed to store document chunks'

  /** The first batch that went wrong, by ordinal, and why. */
  datatype BatchFailure = BatchFailure(batch: nat, cause: Error)

  /** The request body: unreadable JSON, or the `documentId` it carries ("" when missing or falsy). */
  datatype Body = Unparseable | Parsed(documentId: DocId)

  /**
   * The parts of the environment the handler checks before it starts: the API
   * key, the Authorization header, and whether the `.single()` read of the
   * document (lines 89-93) comes back without an error for a row that exists
   * (a transport or permission error makes it fail).
   */
  datatype Env = Env(hasApiKey: bool, hasAuthHeader: bool, loadOk: bool)

  /** The response: `{success: true, chunks_created}`, or status 500 with the error. */
  datatype Response = Success(chunksCreated: nat) | Failure(error: Error)

  /** `batchSize` of the batch loop. */
  const BatchSize: nat := 10

  // ---------------------------------------------------------------------------
  // Rows

  /** The row built for one chunk inside `batch.map` (index.ts lines 118-128). */
  function MakeRow(docId: DocId, index: nat, chunk: string, total: nat, v: Vector): ChunkRow
  {
    ChunkRow(docId, index, chunk, v, Metadata(|chunk|, index, total))
  }

  /** Every chunk in `[lo, hi)` is embedded successfully. */
  predicate EmbedsAll(chunks: seq<string>, embed: Embedder, lo: nat, hi: nat)
    requires lo <= hi <= |chunks|
  {
    forall k :: lo <= k < hi ==> embed(k, chunks[k]).Some?
  }

  /** The row of chunk `k`, with the embedding the oracle returned for it. */
  function RowFor(docId: DocId, chunks: seq<string>, embed: Embedder, k: nat): ChunkRow
    requires k < |chunks| && embed(k, chunks[k]).Some?
  {
    MakeRow(docId, k, chunks[k], |chunks|, embed(k, chunks[k]).value)
  }

  /** The rows of chunks `lo` to `hi - 1`, in order. */
  function RowsBetween(docId: DocId, chunks: seq<string>, embed: Embedder, lo: nat, hi: nat): seq<ChunkRow>
    requires lo <= hi <= |chunks| && EmbedsAll(chunks, embed, lo, hi)
    decreases hi - lo
  {
    if lo == hi then [] else RowsBetween(docId, chunks, embed, lo, hi - 1) + [RowFor(docId, chunks, embed, hi - 1)]
  }

  /** Row `k - lo` of `RowsBetween(lo, hi)` is the row of chunk `k`. */
  lemma {:induction false} RowsBetweenAt(docId: DocId, chunks: seq<string>, embed: Embedder, lo: nat, hi: nat)
    requires lo <= hi <= |chunks| && EmbedsAll(chunks, embed, lo, hi)
    ensures |RowsBetween(docId, chunks, embed, lo, hi)| == hi - lo
    ensures forall k :: lo <= k < hi ==>
      RowsBetween(docId, chunks, embed, lo, hi)[k - lo] == RowFor(docId, chunks, embed, k)
    decreases hi - lo
  {
    if lo < hi {
      RowsBetweenAt(docId, chunks, embed, lo, hi - 1);
    }
  }

  /** The rows of two adjacent ranges, one after the other, are the rows of the joined range. */
  lemma {:induction false} RowsBetweenConcat(docId: DocId, chunks: seq<string>, embed: Embedder,
                                             lo: nat, mid: nat, hi: nat)
    requires lo <= mid <= hi <= |chunks| && EmbedsAll(chunks, embed, lo, hi)
    ensures RowsBetween(docId, chunks, embed, lo, mid) + RowsBetween(docId, chunks, embed, mid, hi)
         == RowsBetween(docId, chunks, embed, lo, hi)
    decreases hi - mid
  {
    if mid < hi {
      RowsBetweenConcat(docId, chunks, embed, lo, mid, hi - 1);
    }
  }

  /**
   * The rows of a whole chunk list: one per chunk, with `chunk_index` running
   * through 0..N-1 in source order, each carrying its chunk's content,
   * `position = chunk_index`, `total_chunks = N` and `chunk_size` = the length
   * of its content.
   */
  lemma {:induction false} RowsContiguous(docId: DocId, chunks: seq<string>, embed: Embedder)
    requires EmbedsAll(chunks, embed, 0, |chunks|)
    ensures var rows := RowsBetween(docId, chunks, embed, 0, |chunks|);
      |rows| == |chunks|
      && forall k :: 0 <= k < |rows| ==>
           rows[k].documentId == docId && rows[k].chunkIndex == k && rows[k].content == chunks[k]
           && rows[k].metadata == Metadata(|chunks[k]|, k, |chunks|)
           && rows[k].embedding == embed(k, chunks[k]).value
  {
    var rows := RowsBetween(docId, chunks, embed, 0, |chunks|);
    RowsBetweenAt(docId, chunks, embed, 0, |chunks|);
    forall k | 0 <= k < |rows|
      ensures rows[k].documentId == docId && rows[k].chunkIndex == k && rows[k].content == chunks[k]
      ensures rows[k].metadata == Metadata(|chunks[k]|, k, |chunks|)
      ensures rows[k].embedding == embed(k, chunks[k]).value
    {
      assert rows[k - 0] == RowFor(docId, chunks, embed, k);
    }
  }

  // ---------------------------------------------------------------------------
  // Batches and their failures

  /**
   * The embedding calls of one batch (`batch.map` and `Promise.all`, lines
   * 114-135). Every chunk of the batch is sent; the batch yields its rows only
   * when every embedding succeeds.
   */
  method EmbedBatch(docId: DocId, chunks: seq<string>, i: nat, batch: seq<string>, embed: Embedder)
    returns (rows: Option<seq<ChunkRow>>)
    requires i + |batch| <= |chunks| && batch == chunks[i..i + |batch|]
    ensures rows.Some? <==> EmbedsAll(chunks, embed, i, i + |batch|)
    ensures rows.Some? ==> rows.value == RowsBetween(docId, chunks, embed, i, i + |batch|)
  {
    var built: seq<ChunkRow> := [];
    var ok := true;
    for index := 0 to |batch|
      invariant ok <==> EmbedsAll(chunks, embed, i, i + index)
      invariant ok ==> built == RowsBetween(docId, chunks, embed, i, i + index)
    {
      assert batch[index] == chunks[i + index];
      var e := embed(i + index, batch[index]);
      if ok && e.Some? {
        built := built + [MakeRow(docId, i + index, batch[index], |chunks|, e.value)];
      } else {
        ok := false;
      }
    }
    rows := if ok then Some(built) else None;
  }

  /** Start of batch `b` in the chunk list. */
  function BatchStart(b: nat): nat {
    b * BatchSize
  }

  /** End of batch `b` in a list of `n` chunks. */
  function BatchEnd(b: nat, n: nat): nat {
    Min(b * BatchSize + BatchSize, n)
  }

  /**
   * What goes wrong with batch `b`, if anything: one of its embeddings fails
   * (and then nothing is inserted), or the store rejects its rows.
   */
  function BatchOutcome(chunks: seq<string>, embed: Embedder, insertOk: nat -> bool, b: nat): Option<Error>
    requires BatchStart(b) < |chunks|
  {
    if !EmbedsAll(chunks, embed, BatchStart(b), BatchEnd(b, |chunks|)) then Some(EmbeddingFailed)
    else if !insertOk(b) then Some(StoreFailed)
    else None
  }

  /** The first batch from `b` on that goes wrong, if any. */
  function FirstFailureFrom(chunks: seq<string>, embed: Embedder, insertOk: nat -> bool, b: nat)
    : (f: Option<BatchFailure>)
    ensures f.None? ==>
      forall c :: b <= c && BatchStart(c) < |chunks| ==> BatchOutcome(chunks, embed, insertOk, c).None?
    ensures f.Some? ==>
      b <= f.value.batch && BatchStart(f.value.batch) < |chunks|
      && BatchOutcome(chunks, embed, insertOk, f.value.batch) == Some(f.value.cause)
      && forall c :: b <= c < f.value.batch ==> BatchOutcome(chunks, embed, insertOk, c).None?
    decreases |chunks| - BatchStart(b)
  {
    if BatchStart(b) >= |chunks| then None
    else
      match BatchOutcome(chunks, embed, insertOk, b)
      case Some(e) => Some(BatchFailure(b, e))
      case None => FirstFailureFrom(chunks, embed, insertOk, b + 1)
  }

  /** The first batch that goes wrong, if any. */
  function FirstFailure(chunks: seq<string>, embed: Embedder, insertOk: nat -> bool): Option<BatchFailure> {
    FirstFailureFrom(chunks, embed, insertOk, 0)
  }

  /**
   * The loop's batch `b` is the `b`-th of `Batches(chunks, batchSize)`, and
   * there are `ceil(N / batchSize)` of them, so a run that completes pauses
   * `ceil(N / batchSize) - 1` times.
   */
  lemma {:induction false} LoopBatches(chunks: seq<string>, b: nat)
    ensures |Batches(chunks, BatchSize)| == (|chunks| + BatchSize - 1) / BatchSize
    ensures BatchStart(b) < |chunks| <==> b < |Batches(chunks, BatchSize)|
    ensures BatchStart(b) < |chunks| ==>
      Batches(chunks, BatchSize)[b] == chunks[BatchStart(b)..BatchEnd(b, |chunks|)]
  {
    BatchCount(chunks, BatchSize);
    if b < |Batches(chunks, BatchSize)| {
      BatchAt(chunks, BatchSize, b);
    }
  }

  /** When no batch goes wrong, every chunk was embedded. */
  lemma {:induction false} NoFailureEmbedsAll(chunks: seq<string>, embed: Embedder, insertOk: nat -> bool)
    requires FirstFailure(chunks, embed, insertOk).None?
    ensures EmbedsAll(chunks, embed, 0, |chunks|)
  {
    forall k | 0 <= k < |chunks| ensures embed(k, chunks[k]).Some? {
      var c := k / BatchSize;
      assert BatchStart(c) <= k < BatchEnd(c, |chunks|);
      assert BatchOutcome(chunks, embed, insertOk, c).None?;
    }
  }

  /** When batch `b` is the first to go wrong, every chunk before it was embedded. */
  lemma {:induction false} FailureEmbedsBefore(chunks: seq<string>, embed: Embedder, insertOk: nat -> bool)
    requires FirstFailure(chunks, embed, insertOk).Some?
    ensures var b := FirstFailure(chunks, embed, insertOk).value.batch;
      BatchStart(b) < |chunks| && EmbedsAll(chunks, embed, 0, BatchStart(b))
  {
    var b := FirstFailure(chunks, embed, insertOk).value.batch;
    forall k | 0 <= k < BatchStart(b) ensures embed(k, chunks[k]).Some? {
      var c := k / BatchSize;
      assert BatchStart(c) <= k < BatchEnd(c, |chunks|);
      assert BatchOutcome(chunks, embed, insertOk, c).None?;
    }
  }

  // ---------------------------------------------------------------------------
  // The store

  /**
   * The `documents` table after `update({ processing_status: s }).eq('id', id)`:
   * the row with that id, if there is one, gets status `s`; nothing else changes.
   */
  function SetStatus(docs: map<DocId, Document>, id: DocId, s: Status): (d: map<DocId, Document>)
    ensures d.Keys == docs.Keys
    ensures forall k :: k in docs ==> d[k] == if k == id then docs[k].(status := s) else docs[k]
  {
    if id in docs then docs[id := docs[id].(status := s)] else docs
  }

  /** Updating the status of a present row replaces that row's status, and a second update overrides the first. */
  lemma {:induction false} SetStatusPresent(docs: map<DocId, Document>, id: DocId, s: Status, t: Status)
    requires id in docs
    ensures SetStatus(docs, id, s) == docs[id := docs[id].(status := s)]
    ensures SetStatus(SetStatus(docs, id, s), id, t) == docs[id := docs[id].(status := t)]
  {
    assert docs[id := docs[id].(status := s)][id := docs[id].(status := t)] == docs[id := docs[id].(status := t)];
  }

  /**
   * The two tables the handler writes: `documents` (content and status per
   * id) and `document_chunks` (rows in insertion order). `statusLog` records
   * every status update sent, in order, whether or not a row matched.
   */
  class Store {
    var documents: map<DocId, Document>
    var chunkRows: seq<ChunkRow>
    var statusLog: seq<StatusWrite>

    constructor (documents: map<DocId, Document>)
      ensures this.documents == documents && chunkRows == [] && statusLog == []
    {
      this.documents := documents;
      chunkRows := [];
      statusLog := [];
    }

    /** A status update (index.ts lines 100-103, 154-157, 180-183). */
    method UpdateStatus(id: DocId, s: Status)
      modifies this`documents, this`statusLog
      ensures documents == SetStatus(old(documents), id, s)
      ensures statusLog == old(statusLog) + [StatusWrite(id, s)]
    {
      documents := SetStatus(documents, id, s);
      statusLog := statusLog + [StatusWrite(id, s)];
    }

    /** The catch block's update (lines 174-183): mark `target` failed when there is one. */
    method MarkFailed(target: Option<DocId>)
      modifies this`documents, this`statusLog
      ensures documents == if target.Some? then SetStatus(old(documents), target.value, Failed) else old(documents)
      ensures statusLog == old(statusLog) + if target.Some? then [StatusWrite(target.value, Failed)] else []
    {
      if target.Some? {
        UpdateStatus(target.value, Failed);
      }
    }

    /**
     * `insert(processedChunks)` into `document_chunks` (lines 138-140): the
     * rows are appended when the store accepts them; otherwise nothing changes.
     */
    method Insert(rows: seq<ChunkRow>, accepted: bool) returns (ok: bool)
      modifies this`chunkRows
      ensures ok == accepted
      ensures chunkRows == if accepted then old(chunkRows) + rows else old(chunkRows)
    {
      ok := accepted;
      if accepted {
        chunkRows := chunkRows + rows;
      }
    }

    /**
     * One round of the batch loop (lines 112-145): take batch `b`, embed each
     * of its chunks, and, if all succeed, insert its rows. On a failure the
     * store is left as it was. `sent` counts the embedding requests: one per
     * chunk of the batch, whatever their answers.
     */
    method PersistBatch(docId: DocId, chunks: seq<string>, b: nat, embed: Embedder, insertOk: nat -> bool)
      returns (outcome: Option<Error>, sent: nat)
      requires BatchStart(b) < |chunks|
      modifies this`chunkRows
      ensures outcome == BatchOutcome(chunks, embed, insertOk, b)
      ensures sent == BatchEnd(b, |chunks|) - BatchStart(b)
      ensures outcome.None? ==>
        EmbedsAll(chunks, embed, BatchStart(b), BatchEnd(b, |chunks|))
        && chunkRows == old(chunkRows)
                        + RowsBetween(docId, chunks, embed, BatchStart(b), BatchEnd(b, |chunks|))
      ensures outcome.Some? ==> chunkRows == old(chunkRows)
    {
      var i := BatchStart(b);
      var batch := chunks[i..Min(i + BatchSize, |chunks|)];
      var rows := EmbedBatch(docId, chunks, i, batch, embed);
      sent := |batch|;
      if rows.None? {
        return Some(EmbeddingFailed), sent;
      }
      var stored := Insert(rows.value, insertOk(b));
      if !stored {
        return Some(StoreFailed), sent;
      }
      outcome := None;
    }

    /**
     * The batch loop (lines 109-151): batch after batch, embed every chunk of
     * the batch, insert the batch's rows, and pause before the next batch if
     * there is one. The first failure ends the loop; the rows of the batches
     * before it stay in the store. `waits` counts the pauses and `calls` the
     * embedding requests sent.
     */
    method PersistChunks(docId: DocId, chunks: seq<string>, embed: Embedder, insertOk: nat -> bool)
      returns (failure: Option<BatchFailure>, waits: nat, calls: nat)
      modifies this`chunkRows
      ensures failure == FirstFailure(chunks, embed, insertOk)
      ensures failure.None? ==>
        EmbedsAll(chunks, embed, 0, |chunks|)
        && chunkRows == old(chunkRows) + RowsBetween(docId, chunks, embed, 0, |chunks|)
        && calls == |chunks|
        && waits == if chunks == [] then 0 else |Batches(chunks, BatchSize)| - 1
      ensures failure.Some? ==>
        var b := failure.value.batch;
        BatchStart(b) < |chunks| && EmbedsAll(chunks, embed, 0, BatchStart(b))
        && chunkRows == old(chunkRows) + RowsBetween(docId, chunks, embed, 0, BatchStart(b))
        && calls == BatchEnd(b, |chunks|)
        && waits == b
    {
      var n := |chunks|;
      var i: nat := 0;
      var b: nat := 0;  // ordinal of the current batch, i / batchSize
      failure, waits, calls := None, 0, 0;
      while i < n
        invariant i == BatchStart(b)
        invariant b == 0 || BatchStart(b - 1) < n
        invariant FirstFailure(chunks, embed, insertOk) == FirstFailureFrom(chunks, embed, insertOk, b)
        invariant EmbedsAll(chunks, embed, 0, Min(i, n))
        invariant chunkRows == old(chunkRows) + RowsBetween(docId, chunks, embed, 0, Min(i, n))
        invariant calls == Min(i, n)
        invariant waits == if b == 0 then 0 else if i < n then b else b - 1
        decreases n - i
      {
        ghost var before := chunkRows;
        var outcome, sent := PersistBatch(docId, chunks, b, embed, insertOk);
        calls := calls + sent;
        if outcome.Some? {
          failure := Some(BatchFailure(b, outcome.value));
          BatchFailed(docId, chunks, embed, insertOk, old(chunkRows), i, b, outcome.value);
          return;
        }
        var nextI := i + BatchSize;
        var nextB := b + 1;
        BatchDone(docId, chunks, embed, insertOk, old(chunkRows), i, b, before, chunkRows, nextI, nextB);
        if nextI < n {
          waits := waits + 1;
        }
        i, b := nextI, nextB;
      }
      if n > 0 {
        BatchCount(chunks, BatchSize);
      }
    }

    /**
     * The work on a loaded document (lines 99-160): mark it `processing`,
     * chunk its content, run the batch loop, and mark it `completed` when no
     * batch went wrong. On a failing batch the document is left `processing`
     * and the failure is handed to the catch block.
     */
    method Process(id: DocId, embed: Embedder, insertOk: nat -> bool)
      returns (chunks: seq<string>, failure: Option<BatchFailure>, waits: nat, calls: nat)
      requires id in documents
      modifies this`documents, this`statusLog, this`chunkRows
      ensures chunks == Chunks(old(documents)[id].content, ChunkSize, ChunkOverlap)
      ensures failure == FirstFailure(chunks, embed, insertOk)
      ensures statusLog == old(statusLog) + [StatusWrite(id, Processing)]
                           + (if failure.None? then [StatusWrite(id, Completed)] else [])
      ensures documents
           == old(documents)[id := old(documents)[id].(status := if failure.None? then Completed else Processing)]
      ensures failure.None? ==>
        EmbedsAll(chunks, embed, 0, |chunks|)
        && chunkRows == old(chunkRows) + RowsBetween(id, chunks, embed, 0, |chunks|)
        && calls == |chunks|
        && waits == if chunks == [] then 0 else |Batches(chunks, BatchSize)| - 1
      ensures failure.Some? ==>
        var b := failure.value.batch;
        BatchStart(b) < |chunks| && EmbedsAll(chunks, embed, 0, BatchStart(b))
        && chunkRows == old(chunkRows) + RowsBetween(id, chunks, embed, 0, BatchStart(b))
        && calls == BatchEnd(b, |chunks|)
        && waits == b
    {
      var document := documents[id];
      UpdateStatus(id, Processing);
      chunks := ChunkText(document.content, ChunkSize, ChunkOverlap);
      failure, waits, calls := PersistChunks(id, chunks, embed, insertOk);
      SetStatusPresent(old(documents), id, Processing, Completed);
      if failure.None? {
        UpdateStatus(id, Completed);
      }
    }
  }

  /**
   * A batch that goes through moves the loop on to the next one: the first
   * failure, if any, is still ahead, and the rows stored and the requests
   * sent now reach the end of the batch.
   */
  lemma {:induction false} BatchDone(docId: DocId, chunks: seq<string>, embed: Embedder, insertOk: nat -> bool,
                                     base: seq<ChunkRow>, i: nat, b: nat, before: seq<ChunkRow>, after: seq<ChunkRow>,
                                     nextI: nat, nextB: nat)
    requires i == BatchStart(b) && i < |chunks|
    requires nextI == i + BatchSize && nextB == b + 1
    requires FirstFailure(chunks, embed, insertOk) == FirstFailureFrom(chunks, embed, insertOk, b)
    requires BatchOutcome(chunks, embed, insertOk, b).None?
    requires EmbedsAll(chunks, embed, 0, Min(i, |chunks|))
    requires EmbedsAll(chunks, embed, BatchStart(b), BatchEnd(b, |chunks|))
    requires before == base + RowsBetween(docId, chunks, embed, 0, Min(i, |chunks|))
    requires after == before + RowsBetween(docId, chunks, embed, BatchStart(b), BatchEnd(b, |chunks|))
    ensures nextI == BatchStart(nextB)
    ensures FirstFailure(chunks, embed, insertOk) == FirstFailureFrom(chunks, embed, insertOk, nextB)
    ensures EmbedsAll(chunks, embed, 0, Min(nextI, |chunks|))
    ensures after == base + RowsBetween(docId, chunks, embed, 0, Min(nextI, |chunks|))
    ensures Min(nextI, |chunks|) == Min(i, |chunks|) + (BatchEnd(b, |chunks|) - BatchStart(b))
  {
    var n := |chunks|;
    assert Min(i, n) == i;
    assert Min(nextI, n) == BatchEnd(b, n);
    RowsBetweenConcat(docId, chunks, embed, 0, i, BatchEnd(b, n));
  }

  /**
   * A batch that goes wrong ends the loop with the batch as the first
   * failure, the rows of the batches before it stored, and requests sent up
   * to the end of the batch.
   */
  lemma {:induction false} BatchFailed(docId: DocId, chunks: seq<string>, embed: Embedder, insertOk: nat -> bool,
                                       base: seq<ChunkRow>, i: nat, b: nat, cause: Error)
    requires i == BatchStart(b) && i < |chunks|
    requires FirstFailure(chunks, embed, insertOk) == FirstFailureFrom(chunks, embed, insertOk, b)
    requires BatchOutcome(chunks, embed, insertOk, b) == Some(cause)
    requires EmbedsAll(chunks, embed, 0, Min(i, |chunks|))
    ensures FirstFailure(chunks, embed, insertOk) == Some(BatchFailure(b, cause))
    ensures EmbedsAll(chunks, embed, 0, BatchStart(b))
    ensures base + RowsBetween(docId, chunks, embed, 0, Min(i, |chunks|))
         == base + RowsBetween(docId, chunks, embed, 0, BatchStart(b))
    ensures Min(i, |chunks|) + (BatchEnd(b, |chunks|) - BatchStart(b)) == BatchEnd(b, |chunks|)
  {
    assert Min(i, |chunks|) == i;
  }

  // ---------------------------------------------------------------------------
  // The handler

  /**
   * The id the catch block marks `failed`, as intended: the request's
   * `documentId`, when it is there.
   */
  function CatchTarget(body: Body): Option<DocId>
  {
    if body.Parsed? && body.documentId != "" then Some(body.documentId) else None
  }

  /**
   * The id the catch block marks `failed`, as written (lines 172-184): it
   * re-reads the body with `req.clone().json()`. `Request.clone()` throws a
   * TypeError once the body has been read (the Fetch standard's "clone" of a
   * Request with an unusable body), the inner catch swallows it, and no status
   * is written. Every way into the catch block passes `req.json()` at line
   * 61, so the body has always been read by then.
   */
  function CatchTargetAsWritten(body: Body): Option<DocId> {
    None
  }

  /**
   * The checks of lines 61-97, in order; the first that fails is the error
   * the try block throws before anything is written.
   */
  function PreCheck(body: Body, env: Env, docs: map<DocId, Document>): (e: Option<Error>)
    ensures e.None? <==> body.Parsed? && body.documentId != "" && env.hasApiKey && env.hasAuthHeader
                         && env.loadOk && body.documentId in docs
    ensures e.Some? ==> e.value != EmbeddingFailed && e.value != StoreFailed
  {
    if body.Unparseable? then Some(MalformedBody)
    else if body.documentId == "" then Some(MissingDocumentId)
    else if !env.hasApiKey then Some(MissingApiKey)
    else if !env.hasAuthHeader then Some(MissingAuthHeader)
    else if !env.loadOk || body.documentId !in docs then Some(DocumentNotFound)
    else None
  }

  /**
   * The request handler (index.ts lines 55-196), with the catch block as
   * intended (see `CatchTarget` and `HandleAsWritten`). A request without a
   * `documentId` writes no status; a request that fails before the document
   * is loaded, or whose document cannot be read, gets one `failed` update; a
   * loaded document is marked `processing`, and then `completed` with
   * `chunks_created = N`, or `failed` with the rows of the batches before the
   * failing one left in `document_chunks`.
   */
  method Handle(store: Store, body: Body, env: Env, embed: Embedder, insertOk: nat -> bool)
    returns (resp: Response, waits: nat, calls: nat)
    modifies store
    ensures !(body.Parsed? && body.documentId != "") ==>
      resp == Failure(if body.Unparseable? then MalformedBody else MissingDocumentId)
      && store.statusLog == old(store.statusLog)
      && store.documents == old(store.documents)
      && store.chunkRows == old(store.chunkRows)
      && waits == 0 && calls == 0
    ensures body.Parsed? && body.documentId != ""
            && !(env.hasApiKey && env.hasAuthHeader && env.loadOk && body.documentId in old(store.documents)) ==>
      resp == Failure(if !env.hasApiKey then MissingApiKey
                      else if !env.hasAuthHeader then MissingAuthHeader
                      else DocumentNotFound)
      && store.statusLog == old(store.statusLog) + [StatusWrite(body.documentId, Failed)]
      && store.documents == SetStatus(old(store.documents), body.documentId, Failed)
      && store.chunkRows == old(store.chunkRows)
      && waits == 0 && calls == 0
    ensures body.Parsed? && body.documentId != ""
            && env.hasApiKey && env.hasAuthHeader && env.loadOk && body.documentId in old(store.documents) ==>
      var id := body.documentId;
      var doc := old(store.documents)[id];
      var chunks := Chunks(doc.content, ChunkSize, ChunkOverlap);
      var f := FirstFailure(chunks, embed, insertOk);
      var final := if f.None? then Completed else Failed;
      store.statusLog == old(store.statusLog) + [StatusWrite(id, Processing), StatusWrite(id, final)]
      && store.documents == old(store.documents)[id := doc.(status := final)]
      && (f.None? ==>
            resp == Success(|chunks|)
            && EmbedsAll(chunks, embed, 0, |chunks|)
            && store.chunkRows == old(store.chunkRows) + RowsBetween(id, chunks, embed, 0, |chunks|)
            && calls == |chunks|
            && waits == if chunks == [] then 0 else |Batches(chunks, BatchSize)| - 1)
      && (f.Some? ==>
            resp == Failure(f.value.cause)
            && BatchStart(f.value.batch) < |chunks|
            && EmbedsAll(chunks, embed, 0, BatchStart(f.value.batch))
            && store.chunkRows == old(store.chunkRows)
                                  + RowsBetween(id, chunks, embed, 0, BatchStart(f.value.batch))
            && calls == BatchEnd(f.value.batch, |chunks|)
            && waits == f.value.batch)
  {
    waits, calls := 0, 0;
    var error := PreCheck(body, env, store.documents);
    if error.None? {
      var chunks, failure;
      chunks, failure, waits, calls := store.Process(body.documentId, embed, insertOk);
      if failure.None? {
        resp := Success(|chunks|);
        return;
      }
      SetStatusPresent(old(store.documents), body.documentId, Processing, Failed);
      error := Some(failure.value.cause);
    }
    // The catch block.
    store.MarkFailed(CatchTarget(body));
    resp := Failure(error.value);
  }

  /**
   * The request handler as written: every way into the catch block passes
   * line 61, which reads the body, so the catch block's `req.clone()` throws
   * and no `failed` update is ever sent. A request whose checks fail writes
   * nothing, and a document whose batch fails is left `processing`.
   */
  method HandleAsWritten(store: Store, body: Body, env: Env, embed: Embedder, insertOk: nat -> bool)
    returns (resp: Response, waits: nat, calls: nat)
    modifies store
    ensures |old(store.statusLog)| <= |store.statusLog|
    ensures forall w :: w in store.statusLog[|old(store.statusLog)|..] ==> w.status != Failed
    ensures PreCheck(body, env, old(store.documents)).Some? ==>
      resp == Failure(PreCheck(body, env, old(store.documents)).value)
      && store.statusLog == old(store.statusLog)
      && store.documents == old(store.documents)
      && store.chunkRows == old(store.chunkRows)
      && waits == 0 && calls == 0
    ensures PreCheck(body, env, old(store.documents)).None? ==>
      var id := body.documentId;
      var doc := old(store.documents)[id];
      var chunks := Chunks(doc.content, ChunkSize, ChunkOverlap);
      var f := FirstFailure(chunks, embed, insertOk);
      var final := if f.None? then Completed else Processing;
      store.statusLog == old(store.statusLog) + [StatusWrite(id, Processing)]
                         + (if f.None? then [StatusWrite(id, Completed)] else [])
      && store.documents == old(store.documents)[id := doc.(status := final)]
      && resp == (if f.None? then Success(|chunks|) else Failure(f.value.cause))
      && (f.None? ==>
            EmbedsAll(chunks, embed, 0, |chunks|)
            && store.chunkRows == old(store.chunkRows) + RowsBetween(id, chunks, embed, 0, |chunks|))
      && (f.Some? ==>
            BatchStart(f.value.batch) < |chunks|
            && EmbedsAll(chunks, embed, 0, BatchStart(f.value.batch))
            && store.chunkRows == old(store.chunkRows)
                                  + RowsBetween(id, chunks, embed, 0, BatchStart(f.value.batch)))
  {
    waits, calls := 0, 0;
    var error := PreCheck(body, env, store.documents);
    if error.None? {
      var chunks, failure;
      chunks, failure, waits, calls := store.Process(body.documentId, embed, insertOk);
      if failure.None? {
        resp := Success(|chunks|);
        return;
      }
      error := Some(failure.value.cause);
    }
    // The catch block: the body was read at line 61.
    store.MarkFailed(CatchTargetAsWritten(body));
    resp := Failure(error.value);
  }
}
