# Document ingestion (`process-document`) in Dafny

This project models the document-ingestion function of a retrieval-augmented
chat application. The function receives a `documentId`, loads the document,
marks it `processing`, splits its text into overlapping chunks, asks an
embedding service for a vector per chunk, stores the chunks ten at a time in
`document_chunks` with a one-second pause between batches, and marks the
document `completed`. On any error its catch block is meant to mark the
document `failed`. As written it never does: it re-reads a request body that
has already been read (see "## Findings"). `Ingest.HandleAsWritten` models
the handler as written, and `Ingest.Handle` models it with the catch block as
intended.

The model has four modules:

- `Common`: `Option` and `Min`.
- `Chunker`: `String.prototype.trim`, the windows the chunker walks, the
  chunker itself (`ChunkText`, an imperative loop proved equal to the
  specification `Chunks`), and the properties of its output.
- `Batching`: the slicing of the chunk list into consecutive batches.
- `Ingest`: rows, the first failing batch, the `Store` class (the `documents`
  and `document_chunks` tables, with the batch loop `PersistChunks`), and the
  request handler, as written (`HandleAsWritten`) and as intended (`Handle`).

The environment is made abstract:

- The embedding service is an oracle `embed(k, chunk)` that returns a vector or fails.
- The store's answer to the insert of batch `b` is `insertOk(b)`.
- The pauses between batches are counted in `waits`.
- The embedding requests sent are counted in `calls`.
- `Store.statusLog` records every status update in the order it was sent.

## Model

| member | source | states |
|---|---|---|
| `Chunker.TrimStartSpec` | supabase/functions/process-document/index.ts:21-22 | trimming the start drops a blank prefix and keeps the rest, which does not start with whitespace |
| `Chunker.TrimEndSpec` | supabase/functions/process-document/index.ts:21-22 | trimming the end drops a blank suffix and keeps the rest, which does not end with whitespace |
| `Chunker.TrimBounds` | supabase/functions/process-document/index.ts:21-22 | `chunk.trim()` is no longer than the chunk and is empty exactly when the chunk is all whitespace, so `if (chunk.trim())` drops exactly the blank windows |
| `Chunker.TrimPiece` | supabase/functions/process-document/index.ts:21-22 | the trimmed chunk is a contiguous piece of the window; what is dropped on either side is whitespace; a non-empty result starts and ends with non-whitespace |
| `Chunker.TrimNoWhitespace` | supabase/functions/process-document/index.ts:21-22 | trimming text without whitespace changes nothing |
| `Chunker.WindowsFrom` | supabase/functions/process-document/index.ts:17-27 | every window the loop visits lies inside the text |
| `Chunker.WindowsFromBounds` | supabase/functions/process-document/index.ts:17-27 | every window the loop visits is `[start, min(start+chunkSize, n))`, non-empty, inside the text, at or after the starting point |
| `Chunker.Windows` | supabase/functions/process-document/index.ts:15-27 | the windows of a text all lie within it |
| `Chunker.WindowsFromShape` | supabase/functions/process-document/index.ts:17-27 | from a start inside the text, the first window begins there, each next window begins exactly `chunkSize - overlap` later, only the last reaches the end, and it does |
| `Chunker.WindowsShape` | supabase/functions/process-document/index.ts:15-27 | no windows for empty text; otherwise the first starts at 0, starts strictly increase by `chunkSize - overlap`, and the last window ends at the end of the text |
| `Chunker.WindowsFromCover` | supabase/functions/process-document/index.ts:17-27 | every position of the text lies in some window |
| `Chunker.Windows2300` | supabase/functions/process-document/index.ts:10-27 | 2300 characters with 1000/200 give the windows [0,1000), [800,1800), [1600,2300) |
| `Chunker.ChunksFromWindows` | supabase/functions/process-document/index.ts:17-26 | the chunks the loop collects from a start on are the trimmed, non-blank contents of the windows it visits from there, in order |
| `Chunker.ChunksFromStep` | supabase/functions/process-document/index.ts:17-26 | one loop round that does not reach the end of the text: the window's chunk if its trim is non-empty, then the chunks from `end - overlap` |
| `Chunker.ChunkTextNext` | supabase/functions/process-document/index.ts:17-26 | a round that does not reach the end keeps "chunks collected, then chunks still to come, is the whole result" with the start moved to `end - overlap` |
| `Chunker.ChunkTextLast` | supabase/functions/process-document/index.ts:17-26 | the round whose window reaches the end of the text (`break` at line 25) leaves exactly the whole result collected |
| `Chunker.ChunkText` | supabase/functions/process-document/index.ts:13-30 | the while loop returns exactly `Chunks(text, chunkSize, overlap)`; it terminates when `0 <= overlap < chunkSize` |
| `Chunker.ChunksOfSound` | supabase/functions/process-document/index.ts:17-23 | each kept chunk is non-empty and the trim of one of the windows; there are no more chunks than windows |
| `Chunker.ChunkSound` | supabase/functions/process-document/index.ts:17-23 | every chunk returned is non-empty, at most `chunkSize` long, and the trim of one of the windows |
| `Chunker.ChunksOfEmpty` | supabase/functions/process-document/index.ts:19-23 | no chunks come out of a list of windows exactly when every window is blank |
| `Chunker.BlankWindows` | supabase/functions/process-document/index.ts:17-23 | every window of an all-whitespace text is blank |
| `Chunker.NonBlankWindow` | supabase/functions/process-document/index.ts:17-23 | a non-whitespace character makes the window that covers it non-blank |
| `Chunker.NoChunksIffBlank` | supabase/functions/process-document/index.ts:17-23 | the chunker returns no chunks exactly when the text is empty or all whitespace |
| `Chunker.Chunks2300` | supabase/functions/process-document/index.ts:10-27 | a 2300-character text without whitespace gives exactly three chunks, the windows [0,1000), [800,1800), [1600,2300) |
| `Batching.Batches` | supabase/functions/process-document/index.ts:110-112 | every batch holds between 1 and `batchSize` chunks |
| `Batching.FlattenBatches` | supabase/functions/process-document/index.ts:111-112 | the batches concatenated in order are exactly the chunk list: nothing skipped, nothing repeated |
| `Batching.BatchCount` | supabase/functions/process-document/index.ts:111 | there are `ceil(N / batchSize)` batches |
| `Batching.BatchAt` | supabase/functions/process-document/index.ts:111-112 | batch `b` is `chunks.slice(b*batchSize, b*batchSize + batchSize)` |
| `Ingest.LoopBatches` | supabase/functions/process-document/index.ts:110-112 | the loop's batch `b` is the `b`-th batch and there are `ceil(N/10)` batches |
| `Ingest.RowsBetweenAt` | supabase/functions/process-document/index.ts:114-128 | row `k - lo` of the rows for chunks `[lo, hi)` is the row of chunk `k` |
| `Ingest.RowsBetweenConcat` | supabase/functions/process-document/index.ts:111-140 | the rows of consecutive batches, inserted one after the other, are the rows of the joined range |
| `Ingest.RowsContiguous` | supabase/functions/process-document/index.ts:114-128 | the rows of all chunks have `chunk_index` 0..N-1 in source order, matching content, `position = chunk_index`, `total_chunks = N`, `chunk_size = |content|` |
| `Ingest.EmbedBatch` | supabase/functions/process-document/index.ts:114-135 | a batch yields rows exactly when every one of its embeddings succeeds, and then yields the rows of its chunks in order |
| `Ingest.FirstFailureFrom` | supabase/functions/process-document/index.ts:111-145 | the result is the first batch whose embedding or insert fails, or none when no batch fails |
| `Ingest.NoFailureEmbedsAll` | supabase/functions/process-document/index.ts:111-145 | if no batch fails, every chunk was embedded |
| `Ingest.FailureEmbedsBefore` | supabase/functions/process-document/index.ts:129-145 | if batch `b` fails first, every chunk before it was embedded |
| `Ingest.SetStatus` | supabase/functions/process-document/index.ts:100-103 | a status update changes only the status of the row with that id, if there is one |
| `Ingest.Store.UpdateStatus` | supabase/functions/process-document/index.ts:100-103 | the matching `documents` row gets the new status and the update is appended to the log |
| `Ingest.Store.Insert` | supabase/functions/process-document/index.ts:138-145 | the rows are appended when the store accepts them; otherwise nothing changes and the caller sees the error |
| `Ingest.Store.PersistBatch` | supabase/functions/process-document/index.ts:112-145 | one batch: its outcome is the specified batch outcome; on success its rows are appended, on failure the store is unchanged; one request per chunk is sent |
| `Ingest.Store.PersistChunks` | supabase/functions/process-document/index.ts:109-151 | on success every row is appended in order, `calls = N` and `waits = ceil(N/10) - 1`; on a failure in batch `b` the rows of batches 0..b-1 stay (no rollback), no later batch is started, and `waits = b` |
| `Ingest.BatchDone` | supabase/functions/process-document/index.ts:111-150 | a batch that goes through moves the loop to the next batch: the first failure is still ahead, and the stored rows and the requests sent reach the end of the batch |
| `Ingest.BatchFailed` | supabase/functions/process-document/index.ts:129-145 | a batch that goes wrong is the first failure; only the rows of the earlier batches are stored, and requests were sent up to the end of the batch |
| `Ingest.SetStatusPresent` | supabase/functions/process-document/index.ts:100-103 | updating the status of an existing document replaces its status, and a later update overrides an earlier one |
| `Ingest.Store.Process` | supabase/functions/process-document/index.ts:99-160 | a loaded document is marked `processing`, its content is chunked, and the batch loop runs; it is marked `completed` only when no batch fails, and otherwise is left `processing` with the rows of the earlier batches stored |
| `Ingest.PreCheck` | supabase/functions/process-document/index.ts:61-97 | the checks before any write: no error exactly when the body parses, carries a `documentId`, the API key and the Authorization header are there, and the document is read without error; a failed check is never an embedding or store error |
| `Ingest.Store.MarkFailed` | supabase/functions/process-document/index.ts:174-183 | the catch block's update: with a target id, that row's status becomes `failed` and one `failed` update is logged; without one, nothing changes |
| `Ingest.HandleAsWritten` | supabase/functions/process-document/index.ts:55-196 | the handler as written: it never sends a `failed` update. A failed check writes nothing at all. A loaded document is marked `processing`, then `completed`, or left `processing` when a batch fails, with the rows of the earlier batches stored |
| `Ingest.Handle` | supabase/functions/process-document/index.ts:55-196 | with the catch block as intended (see "## Findings"). A body that cannot be parsed or has no `documentId`: no status write. With a `documentId`, a missing API key, a missing Authorization header, a missing document or a failed read of the document: exactly one `failed` write and no `processing`. A loaded document: writes `processing`, then `completed` with `chunks_created = N` and all rows, or `failed` with only the earlier batches' rows |

## Findings

| source | as written | input that shows it | evidently intended | confidence | as-written member | corrected member |
|---|---|---|---|---|---|---|
| supabase/functions/process-document/index.ts:172-173 | the catch block reads `documentId` again through `req.clone().json()`, but line 61 has already read the body. The Fetch standard's `Request.clone()` throws a TypeError on a used body. The inner catch swallows it, so the `failed` update is never sent. | a request `{"documentId": "d1"}` for an existing document `d1` whose first embedding request fails: `d1` is left `processing` | mark `d1` `failed` from the catch block, using the id read at line 61 | medium, not executed; relies on the runtime's `Request.clone()` following the Fetch standard | `Ingest.HandleAsWritten` | `Ingest.Handle` |

## Left out

- `generateEmbedding` (index.ts:32-53) is not modelled as an HTTP call. It is the oracle `embed`, which may fail for any chunk. The float vectors and the `[${embedding.join(',')}]` formatting of line 122 are not modelled either: a `Vector` is stored as returned.
- `Promise.all` (line 135) is modelled as a sequential loop over the batch. Every request of the batch is still sent and the batch fails if any fails. Concurrency and the order in which answers arrive are not modelled.
- The `setTimeout` pause (line 149) is a counter, not time.
- Supabase client construction, `Deno.env`, the CORS/OPTIONS branch, the JSON `Response` plumbing and the `console.log`/`console.error` logging (lines 86, 107, 130, 143, 159, 169, 186) are not modelled. The presence of the API key and of the Authorization header, and whether the `.single()` read of an existing document (lines 89-93) returns an error, are three booleans (`Env`). The response is `Success(chunksCreated)` or `Failure(error)`, with an error kind in place of the message text.
- Status updates whose store call fails: the source ignores the result of `update(...)` at lines 100-103, 154-157 and 180-183. The model applies every status update it sends. The catch block's update (lines 175-183) runs on a client built without the request's Authorization header. The model does not distinguish clients, so row-level permissions that would reject that update are not modelled.
- A `documents` row whose `content` is not a string is not modelled; content is always a string.
- `documentId` is modelled as a string, with `""` for any missing or falsy value.
- Strings are Dafny character sequences; JavaScript lengths count UTF-16 code units. Trim uses the ECMAScript whitespace and line-terminator set.
- `Chunker.ChunkText`: requires `0 <= overlap < chunkSize`, which the source does not check. With `overlap >= chunkSize`, the source's loop on a long text never advances. The only caller passes the constants 1000 and 200 (lines 10-11), which satisfy it.
- The model follows the code in these points. With the catch block as intended (`Handle`), a missing or unreadable document still gets a best-effort `failed` update; as written (`HandleAsWritten`), no `failed` update is sent at all. Batches are inserted one at a time, so rows of earlier batches survive a later failure. `processing` is written whatever the document's previous status was.
- supabase/functions/chat/index.ts and the React components and hooks under src/ are not part of this model. They are network clients and UI.
