# policy-ai-assistant retrieval core, in Dafny

This project models the deterministic core of the policy assistant's engine
(`backend/app/engine.py`). That core does four things:

- It splits an uploaded document's text into overlapping fixed-width chunks (`_chunk`).
- It maps a company id to the stem of that tenant's index file (`_index_path`).
- It indexes a document (`create_index`). The upload gets one block of integer ids. The block starts at the tenant index's `ntotal` as it was before any write. Those ids key both the metadata records and the vectors added to the tenant's FAISS index.
- It assembles the context of a chat turn (`ChatEngine.chat`). It searches the tenant's index, looks each returned id up under the tenant's own company id, joins the texts found in rank order, and collects the distinct source file names and a confidence score.

The state is an immutable `Store`. It holds one index per sanitised stem, as a sequence of (id, vector) entries, and one metadata collection shared by all tenants. The collection is a sequence of records `{vecId, companyId, filename, text}`, keyed by the raw company id.

Six collaborators are function-typed fields of a `Services` value. The entry points `CreateIndex`, `Retrieve` and `Chat` take it as a parameter, and each upload of a sequence carries its own (`Indexing.Request`), since a re-upload overwrites the saved file and the remote embedder may answer differently each time; the pure steps beneath them (`IndexDocument`, `Commit`, `Found`, `FindOne`) take the values the services returned:

- file existence;
- text extraction;
- the embedder;
- the index search;
- the generator;
- `str.isalnum`.

Modules:

- `Strings`: `str.join`, `os.path.basename`, and the decimal rendering of a count.
- `Chunker`: `_chunk`.
- `Sanitize`: the stem built by `_index_path`.
- `Store`: the state, the services, `find_one` and the invariants.
- `Indexing`: `create_index`.
- `ChatEngine`: retrieval and `chat`.
- `Scenario`: the `acme` upload and question worked end to end.

Two behaviours of the code are easy to misread:

- **Chunk count.** The loop emits one chunk for every start below `n`, which is `ceil(n / step)` chunks for a nonempty text, not `ceil(max(0, n - overlap) / step)`. A 950-character text therefore gets a second chunk, `text[900:]`, that lies wholly inside the first (`Chunker.ShortTailIsRedundant`).
- **Confidence score.** The score is not 0 when nothing matches. The code takes the first returned slot's score whenever the index file exists. That includes an empty slot and a slot whose id has no record for this tenant (`ChatEngine.RetrieveScore`). Two company ids can sanitise to the same stem. A tenant that uploaded nothing itself can then get an empty context and no sources, yet a score computed from another tenant's vectors (`ChatEngine.NoRecordsScoreOnly`).

## Model

| member | source | states |
|---|---|---|
| Strings.Join | backend/app/engine.py:225 | `"\n\n".join`: the empty list gives the empty string; otherwise the length is the parts' total plus one separator between each pair, and the result starts with the first part |
| Strings.JoinAppend | backend/app/engine.py:225 | joining one more part appends exactly one separator and that part |
| Strings.Basename | backend/app/engine.py:156 | the stored file name contains no `/`, is a suffix of the path, and is preceded by a `/` when it is shorter than the path |
| Strings.BasenameOfBareName | backend/app/engine.py:156 | a path without `/` is its own file name |
| Strings.DecimalDigits | backend/app/engine.py:191 | the count in the success message is a nonempty string of decimal digits with no leading zero |
| Strings.DecimalRoundTrip | backend/app/engine.py:191 | reading the rendered count back gives the count |
| Chunker.CeilDivIsCeiling | backend/app/engine.py:80-84 | the number of loop iterations is the ceiling of length over step: the last start is before the end and one more step reaches it |
| Chunker.ChunksFrom | backend/app/engine.py:79-85 | the loop from a given start emits one chunk per start below the end, each nonempty and at most `chunk_size` long |
| Chunker.ChunksFromWindow | backend/app/engine.py:81-84 | chunk `i` of the loop from `start` is the clamped slice at `start` plus `i` steps |
| Chunker.OffsetIsProduct | backend/app/engine.py:84 | advancing `start` by `step` `i` times reaches `i * step` |
| Chunker.Chunk | backend/app/engine.py:78-85 | `ceil(len / step)` chunks; no chunks exactly when the text is empty; every chunk nonempty and at most `chunk_size` long |
| Chunker.ChunkIsWindow | backend/app/engine.py:81-84 | chunk `i` is `text[i*step : min(i*step + chunk_size, len)]` |
| Chunker.ChunkReconstructs | backend/app/engine.py:80-84 | with `0 <= overlap < chunk_size`, the first `step` characters of every chunk but the last, then the last chunk, concatenate back to the text |
| Chunker.ConsecutiveChunksOverlap | backend/app/engine.py:82-84 | a full-length chunk ends with exactly the `overlap` characters its successor begins with |
| Chunker.DefaultSplitOf1500 | backend/app/engine.py:78-85 | with the defaults 1000/100, a 1500-character text gives exactly `[0:1000)` and `[900:1500)` |
| Chunker.ShortTailIsRedundant | backend/app/engine.py:80-84 | with the defaults, a 950-character text gives the whole text and then `text[900:]` |
| Sanitize.Stem | backend/app/engine.py:32-34 | the stem has the company id's length, keeps every alphanumeric character in place, puts `_` for every other one, and holds only alphanumerics and `_` |
| Sanitize.StemFixedPoint | backend/app/engine.py:34 | a company id is its own stem exactly when it consists of alphanumerics and `_` |
| Sanitize.StemIdempotent | backend/app/engine.py:34 | sanitising a stem again leaves it unchanged |
| Sanitize.StemCollision | backend/app/engine.py:34 | two company ids share an index file exactly when they have equal length and differ only where both characters are non-alphanumeric |
| Sanitize.StemNotInjective | backend/app/engine.py:34 | `a-b` and `a.b` are different ids with the one stem `a_b` |
| Store.NextId | backend/app/engine.py:159-164 | the first id of the next block is the tenant index's `ntotal`, or 0 without an index file; when every index's ids are `0 .. ntotal-1`, every id already in the tenant's index lies below it |
| Store.FindOne | backend/app/engine.py:220 | `find_one` gives nothing exactly when no record matches id and company; otherwise it gives a matching record with no matching record before it |
| Store.FindOneFirst | backend/app/engine.py:220 | when record `k` matches and none before it does, `find_one` returns record `k` |
| Indexing.SizeZeroIffEmptyRows | backend/app/engine.py:147 | the embedding's `size` is 0 exactly when it has no rows or only rows of width 0 |
| Indexing.IndexDocument | backend/app/engine.py:136-191 | no chunks: the empty-file message, store unchanged; rows of different widths: `_embed` raises, store unchanged; `size` 0: the embedding-failed message, store unchanged; vectors of another width than the existing index: the records are inserted, then `add_with_ids` raises; a vector count other than the chunk count: the same; otherwise both writes of one block and the message reporting the chunk count |
| Indexing.CreateIndex | backend/app/engine.py:132-191 | a missing file raises with the store unchanged; a file without text returns the empty-file message with the store unchanged; otherwise the file's chunks and their embedding are indexed under the tenant's stem and the path's base name |
| Indexing.AddVectors | backend/app/engine.py:177-189 | the vector write leaves the records alone, and the only index file it can create is the tenant's |
| Indexing.AddVectorsAppends | backend/app/engine.py:177-189 | the vector write leaves every other index alone; an existing index keeps its dimension and its entries as a prefix; a new index takes the width of the first vector; `ntotal` grows by the number of vectors, and vector `i` is added under id `firstId + i` |
| Indexing.CommitRecordBlock | backend/app/engine.py:155-174 | the insert keeps the old records as a prefix and appends one record per chunk, with ids `s .. s+n-1`, the caller's company id, the file name and the chunk text, in chunk order |
| Indexing.CommitIndexBlock | backend/app/engine.py:159-189 | the vector add keeps the old entries as a prefix, puts vector `i` under id `s+i`, the id of the record holding chunk `i`, and `ntotal` grows by `n` |
| Indexing.IndexDocumentAllocatesBlock | backend/app/engine.py:159-191 | an accepted upload reports `n`, its new ids are `[s, s+n)` in both the collection and the index, `ntotal` grows by `n`, and vector `i` sits under the id of the record holding chunk `i` |
| Indexing.SuccessMessageReportsCount | backend/app/engine.py:191 | the success message starts with its fixed prefix, the count can be read back from it, and it differs from both early-exit messages |
| Indexing.IndexDocumentIsAppendOnly | backend/app/engine.py:136-191 | on every outcome of indexing an existing file the old records stay a prefix, every existing index keeps its entries as a prefix, and only the tenant's stem can be touched or created |
| Indexing.CreateIndexIsAppendOnly | backend/app/engine.py:150-189 | on every outcome the old records stay a prefix, every existing index keeps its entries as a prefix, and no stem other than the tenant's is touched or created |
| Indexing.CommitKeepsDense | backend/app/engine.py:159-189 | if every index's ids are `0 .. ntotal-1`, they still are after a commit |
| Indexing.IndexDocumentKeepsDense | backend/app/engine.py:136-191 | every outcome of an upload keeps every index's ids equal to `0 .. ntotal-1`: the early exits and the failed adds touch no index |
| Indexing.CreateIndexKeepsDense | backend/app/engine.py:132-191 | sequential indexing keeps every index's ids equal to `0 .. ntotal-1`, whatever the outcome |
| Indexing.IndexDocumentKeepsShaped | backend/app/engine.py:177-188 | every vector of every index keeps the index's dimension: a new index takes the vectors' width, and `add_with_ids` lets no other width in |
| Indexing.CreateIndexKeepsShaped | backend/app/engine.py:132-191 | sequential indexing keeps every vector at its index's dimension, whatever the outcome |
| Indexing.IndexAllKeepsInvariants | backend/app/engine.py:132-191 | a dense, uniformly shaped store stays so through any sequence of uploads handled one after another, each with its own file contents and embedder answers |
| Indexing.ReachableStoresAreConsistent | backend/app/engine.py:159-189 | every store reached from the empty store by sequential uploads, whatever the services answer at each upload, has dense ids and uniformly shaped vectors, so no id is handed out twice within one index file |
| Indexing.CommitTwice | backend/app/engine.py:152-189 | indexing the same file twice for a tenant appends two record blocks, the second numbered straight after the first, and `ntotal` grows by `2n`: nothing is replaced or deduplicated |
| Indexing.ReindexedBlocksAreFresh | backend/app/engine.py:159-174 | the two record blocks of a re-index share no id, and on a dense store neither shares an id with a vector already in the tenant's index |
| Indexing.CommitKeepsJoined | backend/app/engine.py:164-189 | if every vector of a tenant's index has a record for that tenant, a commit keeps this for the uploading tenant and for every tenant with a different stem |
| Indexing.IndexDocumentKeepsJoined | backend/app/engine.py:136-191 | on every outcome, including the records a rejected add leaves behind, the index-to-record join survives for the uploading tenant and for every tenant with a different stem |
| Indexing.OrphansShadowNextUpload | backend/app/engine.py:159-189 | after an add that raised, the next accepted upload for the tenant reuses the orphaned records' ids, and `find_one` for the first of them returns the orphaned chunk, not the one whose vector the index now holds |
| Indexing.CreateIndexKeepsJoined | backend/app/engine.py:132-191 | on every outcome of an upload, the index-to-record join survives for the uploading tenant and for every tenant with a different stem |
| ChatEngine.Lookup | backend/app/engine.py:219-220 | an empty slot finds nothing; a found record is in the collection and matches the id and the engine's company id; an id with a matching record always finds one |
| ChatEngine.Found | backend/app/engine.py:218-223 | at most one record per slot, each in the collection and belonging to the engine's tenant |
| ChatEngine.FoundMembership | backend/app/engine.py:218-223 | a record is found exactly when some slot of the result looks it up |
| ChatEngine.FoundAppend | backend/app/engine.py:218-223 | one more slot appends its record, if any, at the end, so found records keep the search's rank order |
| ChatEngine.FoundComplete | backend/app/engine.py:218-223 | with the index joined to the tenant's records and every slot empty or an id of that index, exactly one record is found per non-empty slot |
| ChatEngine.Texts | backend/app/engine.py:222 | one text per found record |
| ChatEngine.Sources | backend/app/engine.py:223 | no more distinct file names than found records |
| ChatEngine.SourcesMembership | backend/app/engine.py:223 | a file name is a source exactly when some found record carries it |
| ChatEngine.SourcesAppend | backend/app/engine.py:223 | one more found record adds exactly its file name to the sources |
| ChatEngine.Retrieve | backend/app/engine.py:201-225 | without an index file: empty context, no sources, score 0; otherwise the texts, sources and score are those of the records found for the search result, the context is the separator-join of the texts, there are no more sources than texts, and every text and source comes from a record of the engine's own company |
| ChatEngine.RetrieveBounded | backend/app/engine.py:210-223 | no more texts than the search returned slots, so at most 3 when the search honours its `k` |
| ChatEngine.RetrieveScore | backend/app/engine.py:214 | with an index file, the score is the first slot's score, or 0 when the result is empty, and it does not depend on the records |
| ChatEngine.RetrieveComplete | backend/app/engine.py:210-223 | with a joined index and a well-formed search result, the context has one text per id the search returned |
| ChatEngine.TopRecordLeadsContext | backend/app/engine.py:217-225 | when the first slot finds a record, its text starts the context and its file name is a source |
| ChatEngine.ContextInRankOrder | backend/app/engine.py:222-225 | each further found record extends the context by the separator and its text |
| ChatEngine.CollectFound | backend/app/engine.py:217-223 | the loop as written (skip `-1`, `find_one` for the tenant, append the text, add the file name) yields exactly the found texts and sources |
| ChatEngine.NoRecordsScoreOnly | backend/app/engine.py:206-225 | a tenant with an index file but no records of its own gets no texts, an empty context and no sources, yet the first slot's score |
| ChatEngine.Chat | backend/app/engine.py:201-259 | without an index file the answer is the generator's reply to an empty context, with no sources and score 0; with one, it is the generator's reply to the `"\n\n"`-join of the found texts, the file names of the found records, and the first slot's score; every source belongs to a record of the engine's company |
| ChatEngine.SharedIndexStaysIsolated | backend/app/engine.py:220 | a file name carried only by other tenants' records is never a source, even when those tenants share this tenant's index file |
| Scenario.AcmeUpload | backend/app/engine.py:132-191 | `acme` uploading 1500 characters into an empty store gets "2 chunks" back, records with ids 0 and 1 holding `[0:1000)` and `[900:1500)`, and index ids `[0, 1]` |
| Scenario.AcmeAsks | backend/app/engine.py:201-259 | after that upload, a search ranking ids 1, 0 and an empty slot gives the context `text[900:]`, blank line, `text[:1000]`, the one source `handbook.txt`, and the first slot's score |

## Left out

- Text extraction (`_read_text_file`, backend/app/engine.py:42-76) is the `readText` service. It is a thin wrapper over PDF, DOCX and plain-file readers that returns `""` on any failure.
- Embedding (`_embed`, backend/app/engine.py:88-129) is the `embed` service, which returns the matrix after the squeeze and reshape of lines 114-121: a list of rows, where an empty answer is one row of width 0. Its L2 normalisation and provider calls are floating-point work over a foreign API. Of the exceptions it re-raises, only the one numpy raises for rows of different widths is modelled, and only in `create_index`, as `MalformedEmbedding` before any write.
- FAISS similarity ranking is the `search` service. Index file I/O is the `indexes` map of the store. Inner-product ordering is not modelled, so neither is the self-similarity of a chunk with itself.
- The prompt wording and the generation call (backend/app/engine.py:227-253) are the `generate` service. It receives the context and the question.
- The `sources` list order (backend/app/engine.py:257): `list(set)` has no specified order, so sources are a set.
- The directory join and the `.index` suffix of `_index_path` (backend/app/engine.py:35) are not modelled. Index files are keyed by the stem.
- Chunker.Chunk: requires `0 < chunk_size` and `overlap < chunk_size`. With `chunk_size <= 0`, Python's negative slice ends come into play. The engine only calls the chunker with 1000 and 100.
- The MongoDB client, configuration, the module-load API-key check, logging and `print` are left out. These are environment and I/O.
- The HTTP routes, the upload copy and the error formatting are left out. They are request/response glue.
- Concurrent uploads for one tenant, and a crash between the metadata insert and the index write, are not modelled. The model is sequential, which is what the code relies on without enforcing it.
- Indexing.CommitTwice: the reindexing property is stated for two commits. A successful `create_index` is exactly one commit (`Indexing.CreateIndex`), so it is not restated over two nested `create_index` calls.
- ChatEngine.Chat: the exceptions of `chat` are not modelled; `Retrieve` and `Chat` always return a value, and the `embed`, `search` and `generate` services are taken as total. The model therefore does not show that a provider error in `_embed([question])` (backend/app/engine.py:208) or in the generation call (backend/app/engine.py:253) propagates, nor that FAISS's `search` asserts the query's width equals the index's dimension (backend/app/engine.py:210), which a (1, 0) query from an answer with no embedding fails (backend/app/engine.py:107, 120-121).
- Store.FindOne: MongoDB's `find_one` without a sort returns a matching document in natural order, which the model takes to be insertion order. This matters once a rejected add has left records without vectors: their ids are reused by the next upload (`Indexing.OrphansShadowNextUpload`), and which of the two records `find_one` returns then depends on that order.
- Strings.Basename: models POSIX `os.path.basename`, splitting on `/` only. The Windows variant, which also splits on `\` and drive letters, is not modelled.
- Numbers are unbounded integers. The `int64` ids do not wrap within any reachable store size.
