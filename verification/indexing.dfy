/** The indexing pipeline, `create_index(file_path, company_id)`, as a
    transition of the store. It reads and chunks the file, embeds all chunks
    in one call, takes the first id of the new block from the tenant index's
    `ntotal` before writing anything, inserts one metadata record per chunk and
    adds the vectors to the index under the same ids. */
module Indexing {
  import opened Strings
  import opened Store
  import Chunker

  const EmptyFileMessage := "File was empty or could not be read."
  const EmbeddingFailedMessage := "Failed to generate embeddings."
  const SuccessPrefix := "Successfully indexed "
  const SuccessSuffix := " text chunks."

  function SuccessMessage(count: nat): string
  {
    SuccessPrefix + DecimalDigits(count) + SuccessSuffix
  }

  /** The exceptions `create_index` raises rather than returns:
      - `FileNotFound`: the upload's path does not exist;
      - `MalformedEmbedding`: the embedder's rows differ in length, so numpy
        cannot build a matrix from them and `_embed` re-raises;
      - `DimensionMismatch`: FAISS's `add_with_ids` asserts that the vectors'
        width is the index's dimension `d`;
      - `IdCountMismatch`: it then asserts one id per vector. */
  datatype IndexError = FileNotFound(path: string) | MalformedEmbedding | DimensionMismatch | IdCountMismatch

  datatype IndexOutcome = Returned(message: string) | Raised(error: IndexError)

  datatype Transition = Transition(store: Store, outcome: IndexOutcome)

  /** The chunks of an uploaded file, with the call site's defaults. */
  function DocumentChunks(env: Services, filePath: string): seq<string>
  {
    Chunker.Chunk(env.readText(filePath), Chunker.DefaultChunkSize, Chunker.DefaultOverlap)
  }

  /** numpy's `size` of the embedding matrix: the number of numbers in it. */
  function Size(vecs: seq<Vector>): nat
  {
    if |vecs| == 0 then 0 else |vecs[0]| + Size(vecs[1..])
  }

  /** The embedding is empty exactly when it has no rows or only empty rows,
      which is how an answer without embeddings reaches `create_index`: an
      empty list becomes a matrix of one row of width 0. */
  lemma {:induction false} SizeZeroIffEmptyRows(vecs: seq<Vector>)
    ensures Size(vecs) == 0 <==> forall i :: 0 <= i < |vecs| ==> vecs[i] == []
  {
    if |vecs| > 0 {
      SizeZeroIffEmptyRows(vecs[1..]);
      assert forall i :: 1 <= i < |vecs| ==> vecs[i] == vecs[1..][i - 1];
    }
  }

  /** All rows have one width, as a numpy matrix does. */
  predicate Rectangular(vecs: seq<Vector>)
  {
    forall i, j :: 0 <= i < |vecs| && 0 <= j < |vecs| ==> |vecs[i]| == |vecs[j]|
  }

  /** The vectors have the dimension of the tenant's existing index; a new
      index is created with their own width. */
  predicate FitsIndex(store: Store, stem: string, vecs: seq<Vector>)
  {
    stem in store.indexes ==> forall i :: 0 <= i < |vecs| ==> |vecs[i]| == store.indexes[stem].dim
  }

  /** The metadata documents for a block of chunks whose ids start at `firstId`. */
  function NewRecords(firstId: nat, companyId: string, filename: string, chunks: seq<string>): seq<Record>
  {
    seq(|chunks|, i requires 0 <= i < |chunks| => Record(firstId + i, companyId, filename, chunks[i]))
  }

  /** The vectors of a block, tagged with the ids starting at `firstId`. */
  function NewEntries(firstId: nat, vecs: seq<Vector>): seq<Entry>
  {
    seq(|vecs|, i requires 0 <= i < |vecs| => Entry(firstId + i, vecs[i]))
  }

  function IdRange(lo: int, n: nat): seq<int>
  {
    seq(n, i requires 0 <= i < n => lo + i)
  }

  function VecIds(records: seq<Record>): seq<int>
  {
    seq(|records|, i requires 0 <= i < |records| => records[i].vecId)
  }

  /** `coll.insert_many(docs)` for a block of chunks whose ids start at `firstId`. */
  function InsertRecords(store: Store, firstId: nat, companyId: string, filename: string, chunks: seq<string>): Store
  {
    store.(records := store.records + NewRecords(firstId, companyId, filename, chunks))
  }

  /** `add_with_ids` on the index read from disk, or on a fresh one of the
      vectors' width when there is no file, followed by `write_index`. */
  function AddVectors(store: Store, stem: string, firstId: nat, vecs: seq<Vector>): (after: Store)
    ensures after.records == store.records
    ensures after.indexes.Keys == store.indexes.Keys + {stem}
  {
    var idx := if stem in store.indexes then store.indexes[stem]
               else Index(if |vecs| > 0 then |vecs[0]| else 0, []);
    store.(indexes := store.indexes[stem := idx.(entries := idx.entries + NewEntries(firstId, vecs))])
  }

  /** The vector write leaves every other index alone; an existing index
      keeps its dimension and its vectors as a prefix, a new one takes the
      width of the first vector; `ntotal` grows by the number of vectors, and
      vector `i` is added under id `firstId + i`. */
  lemma AddVectorsAppends(store: Store, stem: string, firstId: nat, vecs: seq<Vector>)
    ensures var after := AddVectors(store, stem, firstId, vecs);
            && (forall s :: s in store.indexes && s != stem ==> after.indexes[s] == store.indexes[s])
            && (stem in store.indexes ==>
                  && after.indexes[stem].dim == store.indexes[stem].dim
                  && store.indexes[stem].entries <= after.indexes[stem].entries)
            && (stem !in store.indexes && |vecs| > 0 ==> after.indexes[stem].dim == |vecs[0]|)
            && after.indexes[stem].NTotal() == NextId(store, stem) + |vecs|
            && (forall i :: 0 <= i < |vecs| ==>
                  after.indexes[stem].entries[NextId(store, stem) + i] == Entry(firstId + i, vecs[i]))
  {
  }

  /** The two writes of a successful upload. The first id is taken from the
      index before either write, and the one block of ids serves both. */
  function Commit(store: Store, stem: string, companyId: string, filename: string,
                  chunks: seq<string>, vecs: seq<Vector>): Store
  {
    var firstId := NextId(store, stem);
    AddVectors(InsertRecords(store, firstId, companyId, filename, chunks), stem, firstId, vecs)
  }

  /** The document has chunks and the embedder returned a nonempty matrix:
      from here on the records get written. */
  predicate Embedded(chunks: seq<string>, vecs: seq<Vector>)
  {
    chunks != [] && Rectangular(vecs) && Size(vecs) > 0
  }

  /** Both FAISS assertions hold, so the upload is committed. */
  predicate Accepted(store: Store, stem: string, chunks: seq<string>, vecs: seq<Vector>)
  {
    Embedded(chunks, vecs) && FitsIndex(store, stem, vecs) && |vecs| == |chunks|
  }

  /** `create_index` once the file is known to exist, given its chunks, their
      embedding, the tenant's stem and the file name. Empty text and an empty
      embedding return before anything is written, and so does the error
      `_embed` raises. When FAISS's `add_with_ids` rejects the vectors, the
      records are already inserted. */
  function IndexDocument(store: Store, stem: string, companyId: string, filename: string,
                         chunks: seq<string>, vecs: seq<Vector>): (t: Transition)
    ensures chunks == [] ==> t == Transition(store, Returned(EmptyFileMessage))
    ensures (chunks != [] && !Rectangular(vecs)) ==> t == Transition(store, Raised(MalformedEmbedding))
    ensures (chunks != [] && forall i :: 0 <= i < |vecs| ==> vecs[i] == []) ==>
              t == Transition(store, Returned(EmbeddingFailedMessage))
    ensures (Embedded(chunks, vecs) && !FitsIndex(store, stem, vecs)) ==>
              t == Transition(InsertRecords(store, NextId(store, stem), companyId, filename, chunks),
                                  Raised(DimensionMismatch))
    ensures (Embedded(chunks, vecs) && FitsIndex(store, stem, vecs) && |vecs| != |chunks|) ==>
              t == Transition(InsertRecords(store, NextId(store, stem), companyId, filename, chunks),
                                  Raised(IdCountMismatch))
    ensures Accepted(store, stem, chunks, vecs) ==>
              t == Transition(Commit(store, stem, companyId, filename, chunks, vecs),
                                  Returned(SuccessMessage(|chunks|)))
  {
    SizeZeroIffEmptyRows(vecs);
    if |chunks| == 0 then
      Transition(store, Returned(EmptyFileMessage))
    else if !Rectangular(vecs) then
      Transition(store, Raised(MalformedEmbedding))
    else if Size(vecs) == 0 then
      Transition(store, Returned(EmbeddingFailedMessage))
    else
      var firstId := NextId(store, stem);
      var inserted := InsertRecords(store, firstId, companyId, filename, chunks);
      if !FitsIndex(store, stem, vecs) then
        Transition(inserted, Raised(DimensionMismatch))
      else if |vecs| != |chunks| then
        Transition(inserted, Raised(IdCountMismatch))
      else
        Transition(AddVectors(inserted, stem, firstId, vecs), Returned(SuccessMessage(|chunks|)))
  }

  /** `create_index(file_path, company_id)`: a missing file raises before
      anything else; a file without text returns the empty-file message;
      otherwise the document is indexed under the tenant's stem and the
      file's base name. */
  function CreateIndex(env: Services, store: Store, filePath: string, companyId: string): (t: Transition)
    ensures !env.fileExists(filePath) ==> t == Transition(store, Raised(FileNotFound(filePath)))
    ensures (env.fileExists(filePath) && env.readText(filePath) == "") ==>
              t == Transition(store, Returned(EmptyFileMessage))
    ensures env.fileExists(filePath) ==>
              var chunks := DocumentChunks(env, filePath);
              t == IndexDocument(store, TenantStem(env, companyId), companyId, Basename(filePath), chunks, env.embed(chunks))
  {
    if !env.fileExists(filePath) then
      Transition(store, Raised(FileNotFound(filePath)))
    else
      var chunks := DocumentChunks(env, filePath);
      IndexDocument(store, TenantStem(env, companyId), companyId, Basename(filePath), chunks, env.embed(chunks))
  }

  /** The metadata half of a commit: one record per chunk, in chunk order,
      numbered from the index's `ntotal` before the write (0 without an index
      file), each with the caller's company id and file name. */
  lemma CommitRecordBlock(store: Store, stem: string, companyId: string, filename: string,
                          chunks: seq<string>, vecs: seq<Vector>)
    ensures var after := Commit(store, stem, companyId, filename, chunks, vecs);
            var added := after.records[|store.records|..];
            && store.records <= after.records
            && VecIds(added) == IdRange(NextId(store, stem), |chunks|)
            && (forall i :: 0 <= i < |added| ==>
                  added[i].companyId == companyId && added[i].filename == filename && added[i].text == chunks[i])
  {
  }

  /** An index whose entries from `firstId` on are the block `vecs`, tagged
      with consecutive ids, lists those ids from `firstId` on. */
  lemma BlockIds(idx: Index, firstId: nat, vecs: seq<Vector>)
    requires |idx.entries| == firstId + |vecs|
    requires forall i :: 0 <= i < |vecs| ==> idx.entries[firstId + i] == Entry(firstId + i, vecs[i])
    ensures idx.Ids()[firstId..] == IdRange(firstId, |vecs|)
  {
    forall i | 0 <= i < |vecs|
      ensures idx.Ids()[firstId..][i] == firstId + i
    {
      assert idx.entries[firstId + i] == Entry(firstId + i, vecs[i]);
    }
  }

  /** The records of a block carry consecutive ids. */
  lemma NewRecordIds(firstId: nat, companyId: string, filename: string, chunks: seq<string>)
    ensures VecIds(NewRecords(firstId, companyId, filename, chunks)) == IdRange(firstId, |chunks|)
  {
  }

  /** The vector half of a commit: the index keeps its old vectors, gains
      vector `i` under id `firstId + i`, which is the id of the record holding
      chunk `i`, and its `ntotal` grows by the block size. */
  lemma CommitIndexBlock(store: Store, stem: string, companyId: string, filename: string,
                         chunks: seq<string>, vecs: seq<Vector>)
    requires |vecs| == |chunks|
    ensures var firstId := NextId(store, stem);
            var after := Commit(store, stem, companyId, filename, chunks, vecs);
            && stem in after.indexes
            && NextId(after, stem) == firstId + |chunks|
            && (stem in store.indexes ==> store.indexes[stem].entries <= after.indexes[stem].entries)
            && (forall i :: 0 <= i < |vecs| ==> after.indexes[stem].entries[firstId + i] == Entry(firstId + i, vecs[i]))
            && after.indexes[stem].Ids()[firstId..] == IdRange(firstId, |chunks|)
            && after.indexes[stem].Ids()[firstId..] == VecIds(after.records[|store.records|..])
  {
    var firstId := NextId(store, stem);
    var inserted := InsertRecords(store, firstId, companyId, filename, chunks);
    assert inserted.indexes == store.indexes;
    var after := Commit(store, stem, companyId, filename, chunks, vecs);
    AddVectorsAppends(inserted, stem, firstId, vecs);
    BlockIds(after.indexes[stem], firstId, vecs);
    NewRecordIds(firstId, companyId, filename, chunks);
    assert after.records == store.records + NewRecords(firstId, companyId, filename, chunks);
    assert after.records[|store.records|..] == NewRecords(firstId, companyId, filename, chunks);
  }

  /** An accepted upload of `n` chunks reports `n`, and its new ids are
      `firstId .. firstId + n - 1` in both the collection and the index, with
      vector `i` and chunk `i` under the same id. */
  lemma IndexDocumentAllocatesBlock(store: Store, stem: string, companyId: string, filename: string,
                                    chunks: seq<string>, vecs: seq<Vector>)
    requires Accepted(store, stem, chunks, vecs)
    ensures var t := IndexDocument(store, stem, companyId, filename, chunks, vecs);
            var firstId := NextId(store, stem);
            var added := t.store.records[|store.records|..];
            && t.outcome == Returned(SuccessMessage(|chunks|))
            && NextId(t.store, stem) == firstId + |chunks|
            && VecIds(added) == IdRange(firstId, |chunks|)
            && t.store.indexes[stem].Ids()[firstId..] == IdRange(firstId, |chunks|)
            && (forall i :: 0 <= i < |chunks| ==>
                  t.store.indexes[stem].entries[firstId + i] == Entry(added[i].vecId, vecs[i])
                  && added[i].text == chunks[i])
  {
    CommitRecordBlock(store, stem, companyId, filename, chunks, vecs);
    CommitIndexBlock(store, stem, companyId, filename, chunks, vecs);
  }

  /** The success message reports the chunk count, and the three messages
      cannot be mistaken for one another. */
  lemma SuccessMessageReportsCount(count: nat)
    ensures var m := SuccessMessage(count);
            && |m| > |SuccessPrefix| + |SuccessSuffix|
            && m[..|SuccessPrefix|] == SuccessPrefix
            && DecimalValue(m[|SuccessPrefix|..|m| - |SuccessSuffix|]) == count
            && m != EmptyFileMessage && m != EmbeddingFailedMessage
    ensures EmptyFileMessage != EmbeddingFailedMessage
  {
    var m := SuccessMessage(count);
    assert m[|SuccessPrefix|..|m| - |SuccessSuffix|] == DecimalDigits(count);
    DecimalRoundTrip(count);
    assert m[0] == 'S' && EmptyFileMessage[0] == 'F' && EmbeddingFailedMessage[0] == 'F';
    assert EmptyFileMessage[1] != EmbeddingFailedMessage[1];
  }

  /** Whatever the outcome, nothing already written changes: old records stay
      a prefix of the collection, every existing index keeps its vectors as a
      prefix, and no index other than the tenant's stem is touched. */
  lemma IndexDocumentIsAppendOnly(store: Store, stem: string, companyId: string, filename: string,
                                  chunks: seq<string>, vecs: seq<Vector>)
    ensures var t := IndexDocument(store, stem, companyId, filename, chunks, vecs);
            && store.records <= t.store.records
            && store.indexes.Keys <= t.store.indexes.Keys <= store.indexes.Keys + {stem}
            && (forall s :: s in store.indexes ==> store.indexes[s].entries <= t.store.indexes[s].entries)
            && (forall s :: s in store.indexes && s != stem ==> t.store.indexes[s] == store.indexes[s])
  {
  }

  lemma CreateIndexIsAppendOnly(env: Services, store: Store, filePath: string, companyId: string)
    ensures var t := CreateIndex(env, store, filePath, companyId);
            var stem := TenantStem(env, companyId);
            && store.records <= t.store.records
            && store.indexes.Keys <= t.store.indexes.Keys <= store.indexes.Keys + {stem}
            && (forall s :: s in store.indexes ==> store.indexes[s].entries <= t.store.indexes[s].entries)
            && (forall s :: s in store.indexes && s != stem ==> t.store.indexes[s] == store.indexes[s])
  {
    if env.fileExists(filePath) {
      var chunks := DocumentChunks(env, filePath);
      IndexDocumentIsAppendOnly(store, TenantStem(env, companyId), companyId, Basename(filePath), chunks, env.embed(chunks));
    }
  }

  /** A commit keeps the ids of every index exactly `0 .. ntotal - 1`. */
  lemma CommitKeepsDense(store: Store, stem: string, companyId: string, filename: string,
                         chunks: seq<string>, vecs: seq<Vector>)
    requires AllDense(store)
    ensures AllDense(Commit(store, stem, companyId, filename, chunks, vecs))
  {
  }

  /** Any upload, whatever its outcome, keeps the ids of every index exactly
      `0 .. ntotal - 1`: the paths that stop early touch no index. */
  lemma IndexDocumentKeepsDense(store: Store, stem: string, companyId: string, filename: string,
                                chunks: seq<string>, vecs: seq<Vector>)
    requires AllDense(store)
    ensures AllDense(IndexDocument(store, stem, companyId, filename, chunks, vecs).store)
  {
    CommitKeepsDense(store, stem, companyId, filename, chunks, vecs);
  }

  /** Sequential indexing keeps every index's ids exactly `0 .. ntotal - 1`. */
  lemma CreateIndexKeepsDense(env: Services, store: Store, filePath: string, companyId: string)
    requires AllDense(store)
    ensures AllDense(CreateIndex(env, store, filePath, companyId).store)
  {
    if env.fileExists(filePath) {
      var chunks := DocumentChunks(env, filePath);
      IndexDocumentKeepsDense(store, TenantStem(env, companyId), companyId, Basename(filePath), chunks, env.embed(chunks));
    }
  }

  /** An accepted upload keeps every vector at its index's dimension: the
      assertion in `add_with_ids` never lets a vector of another width in. */
  lemma IndexDocumentKeepsShaped(store: Store, stem: string, companyId: string, filename: string,
                                 chunks: seq<string>, vecs: seq<Vector>)
    requires AllShaped(store)
    ensures AllShaped(IndexDocument(store, stem, companyId, filename, chunks, vecs).store)
  {
    if Accepted(store, stem, chunks, vecs) {
      var after := Commit(store, stem, companyId, filename, chunks, vecs);
      var idx := after.indexes[stem];
      forall e | e in idx.entries
        ensures |e.vec| == idx.dim
      {
        var before := if stem in store.indexes then store.indexes[stem].entries else [];
        var block := NewEntries(NextId(store, stem), vecs);
        assert idx.entries == before + block;
        if e !in before {
          var k :| 0 <= k < |block| && block[k] == e;
          assert e.vec == vecs[k];
        }
      }
    }
  }

  lemma CreateIndexKeepsShaped(env: Services, store: Store, filePath: string, companyId: string)
    requires AllShaped(store)
    ensures AllShaped(CreateIndex(env, store, filePath, companyId).store)
  {
    if env.fileExists(filePath) {
      var chunks := DocumentChunks(env, filePath);
      IndexDocumentKeepsShaped(store, TenantStem(env, companyId), companyId, Basename(filePath), chunks, env.embed(chunks));
    }
  }

  /** One upload, as the routes layer passes it on, together with what the
      services answer at that moment: an upload saved under a name already
      used overwrites the earlier file, and the embedder is a remote service
      whose answers may change from one upload to the next. */
  datatype Request = Request(env: Services, filePath: string, companyId: string)

  /** Uploads handled one after another. */
  function IndexAll(store: Store, requests: seq<Request>): Store
    decreases |requests|
  {
    if |requests| == 0 then store
    else
      var req := requests[0];
      IndexAll(CreateIndex(req.env, store, req.filePath, req.companyId).store, requests[1..])
  }

  /** Sequential uploads, each seeing its own file contents and embeddings,
      keep every index's ids exactly `0 .. ntotal - 1` and every vector at
      its index's dimension. */
  lemma {:induction false} IndexAllKeepsInvariants(store: Store, requests: seq<Request>)
    requires AllDense(store) && AllShaped(store)
    ensures AllDense(IndexAll(store, requests)) && AllShaped(IndexAll(store, requests))
    decreases |requests|
  {
    if |requests| > 0 {
      var req := requests[0];
      CreateIndexKeepsDense(req.env, store, req.filePath, req.companyId);
      CreateIndexKeepsShaped(req.env, store, req.filePath, req.companyId);
      IndexAllKeepsInvariants(CreateIndex(req.env, store, req.filePath, req.companyId).store, requests[1..]);
    }
  }

  /** Every store reached from the empty one by sequential uploads has dense
      ids and uniformly shaped vectors in every index, so no id is handed out
      twice within one index file. */
  lemma ReachableStoresAreConsistent(requests: seq<Request>)
    ensures AllDense(IndexAll(EmptyStore, requests)) && AllShaped(IndexAll(EmptyStore, requests))
  {
    IndexAllKeepsInvariants(EmptyStore, requests);
  }

  /** Indexing the same file twice for one tenant commits the same chunks
      twice (an accepted upload is exactly one commit): both blocks are
      appended, the second numbered straight after the first, and nothing is
      replaced or deduplicated. */
  lemma CommitTwice(store: Store, stem: string, companyId: string, filename: string,
                    chunks: seq<string>, vecs: seq<Vector>)
    requires |vecs| == |chunks|
    ensures var s1 := Commit(store, stem, companyId, filename, chunks, vecs);
            var s2 := Commit(s1, stem, companyId, filename, chunks, vecs);
            var firstId := NextId(store, stem);
            && s2.records == store.records
                             + NewRecords(firstId, companyId, filename, chunks)
                             + NewRecords(firstId + |chunks|, companyId, filename, chunks)
            && NextId(s2, stem) == firstId + 2 * |chunks|
  {
  }

  /** Two record blocks numbered one straight after the other share no id,
      and neither has an id below the first block's first id. */
  lemma {:induction false} AdjacentBlocksDisjoint(first: seq<Record>, second: seq<Record>, firstId: nat)
    requires forall i :: 0 <= i < |first| ==> first[i].vecId == firstId + i
    requires forall i :: 0 <= i < |second| ==> second[i].vecId == firstId + |first| + i
    ensures forall r1, r2 :: r1 in first && r2 in second ==> r1.vecId != r2.vecId
    ensures forall r :: r in first + second ==> firstId <= r.vecId
  {
    forall r1, r2 | r1 in first && r2 in second
      ensures r1.vecId != r2.vecId
    {
      var i :| 0 <= i < |first| && first[i] == r1;
      var j :| 0 <= j < |second| && second[j] == r2;
    }
    forall r | r in first + second
      ensures firstId <= r.vecId
    {
      var i :| 0 <= i < |first + second| && (first + second)[i] == r;
      if i >= |first| {
        assert r == second[i - |first|];
      }
    }
  }

  /** The two blocks a re-index appends share no id with each other, and on
      a dense store none with a vector already in the tenant's index. */
  lemma ReindexedBlocksAreFresh(store: Store, stem: string, companyId: string, filename: string,
                                chunks: seq<string>, vecs: seq<Vector>)
    requires |vecs| == |chunks|
    ensures var s1 := Commit(store, stem, companyId, filename, chunks, vecs);
            var s2 := Commit(s1, stem, companyId, filename, chunks, vecs);
            var first := s2.records[|store.records|..|s1.records|];
            var second := s2.records[|s1.records|..];
            && |first| == |second| == |chunks|
            && (forall r1, r2 :: r1 in first && r2 in second ==> r1.vecId != r2.vecId)
            && (AllDense(store) && stem in store.indexes ==>
                  forall e, r :: e in store.indexes[stem].entries && r in first + second ==> e.id != r.vecId)
  {
    CommitTwice(store, stem, companyId, filename, chunks, vecs);
    var s1 := Commit(store, stem, companyId, filename, chunks, vecs);
    var s2 := Commit(s1, stem, companyId, filename, chunks, vecs);
    var firstId := NextId(store, stem);
    var blockA := NewRecords(firstId, companyId, filename, chunks);
    var blockB := NewRecords(firstId + |chunks|, companyId, filename, chunks);
    assert s2.records == store.records + blockA + blockB;
    assert |s1.records| == |store.records| + |chunks|;
    assert s2.records[|store.records|..|s1.records|] == blockA;
    assert s2.records[|s1.records|..] == blockB;
    AdjacentBlocksDisjoint(blockA, blockB, firstId);
  }

  /** A block of vectors whose every id is carried by a record of the tenant
      in a block of records keeps the join. */
  lemma {:induction false} BlockJoined(block: seq<Entry>, docs: seq<Record>, records: seq<Record>, companyId: string)
    requires |block| == |docs|
    requires forall k :: 0 <= k < |block| ==> Matches(docs[k], block[k].id, companyId)
    requires forall r :: r in docs ==> r in records
    ensures forall e :: e in block ==> exists r :: r in records && Matches(r, e.id, companyId)
  {
    forall e | e in block
      ensures exists r :: r in records && Matches(r, e.id, companyId)
    {
      var k :| 0 <= k < |block| && block[k] == e;
      assert docs[k] in docs;
    }
  }

  /** The join survives when the records only grow and every vector is an
      old one of the tenant's index or carried by the new records. */
  lemma {:induction false} JoinedByExtension(store: Store, after: Store, stem: string, companyId: string, block: seq<Entry>)
    requires Joined(store, stem, companyId)
    requires store.records <= after.records
    requires forall e :: e in block ==> exists r :: r in after.records && Matches(r, e.id, companyId)
    requires stem in after.indexes ==>
               after.indexes[stem].entries == (if stem in store.indexes then store.indexes[stem].entries else []) + block
    ensures Joined(after, stem, companyId)
  {
    if stem in after.indexes {
      var before := if stem in store.indexes then store.indexes[stem].entries else [];
      forall e | e in after.indexes[stem].entries
        ensures exists r :: r in after.records && Matches(r, e.id, companyId)
      {
        if e in before {
          var r :| r in store.records && Matches(r, e.id, companyId);
          var i :| 0 <= i < |store.records| && store.records[i] == r;
          assert after.records[i] == r;
        }
      }
    }
  }

  /** A commit keeps the join between the two stores for its own tenant and
      for every tenant whose stem differs. */
  lemma CommitKeepsJoined(store: Store, stem: string, companyId: string, filename: string,
                          chunks: seq<string>, vecs: seq<Vector>, otherStem: string, other: string)
    requires |vecs| == |chunks|
    requires (otherStem == stem && other == companyId) || otherStem != stem
    requires Joined(store, otherStem, other)
    ensures Joined(Commit(store, stem, companyId, filename, chunks, vecs), otherStem, other)
  {
    var firstId := NextId(store, stem);
    var after := Commit(store, stem, companyId, filename, chunks, vecs);
    var docs := NewRecords(firstId, companyId, filename, chunks);
    assert after.records == store.records + docs;
    if otherStem == stem {
      var block := NewEntries(firstId, vecs);
      BlockJoined(block, docs, after.records, other);
      JoinedByExtension(store, after, otherStem, other, block);
    } else {
      JoinedByExtension(store, after, otherStem, other, []);
    }
  }

  /** On every outcome an upload keeps the join for the uploading tenant and
      for every tenant whose stem differs: the paths that write records
      without vectors only add records. */
  lemma IndexDocumentKeepsJoined(store: Store, stem: string, companyId: string, filename: string,
                                 chunks: seq<string>, vecs: seq<Vector>, otherStem: string, other: string)
    requires (otherStem == stem && other == companyId) || otherStem != stem
    requires Joined(store, otherStem, other)
    ensures Joined(IndexDocument(store, stem, companyId, filename, chunks, vecs).store, otherStem, other)
  {
    var t := IndexDocument(store, stem, companyId, filename, chunks, vecs);
    if Accepted(store, stem, chunks, vecs) {
      CommitKeepsJoined(store, stem, companyId, filename, chunks, vecs, otherStem, other);
    } else if Embedded(chunks, vecs) {
      if otherStem in t.store.indexes {
        forall e | e in t.store.indexes[otherStem].entries
          ensures exists r :: r in t.store.records && Matches(r, e.id, other)
        {
          var r :| r in store.records && Matches(r, e.id, other);
          assert r in t.store.records;
        }
      }
    }
  }

  lemma CreateIndexKeepsJoined(env: Services, store: Store, filePath: string, companyId: string, other: string)
    requires other == companyId || TenantStem(env, other) != TenantStem(env, companyId)
    requires Joined(store, TenantStem(env, other), other)
    ensures Joined(CreateIndex(env, store, filePath, companyId).store, TenantStem(env, other), other)
  {
    if env.fileExists(filePath) {
      var chunks := DocumentChunks(env, filePath);
      IndexDocumentKeepsJoined(store, TenantStem(env, companyId), companyId, Basename(filePath), chunks, env.embed(chunks),
                               TenantStem(env, other), other);
    }
  }

  /** A rejected upload leaves its records behind without vectors, and the
      next accepted upload for the tenant reuses their ids: `find_one` then
      returns the left-over record, not the chunk the index now holds. */
  lemma OrphansShadowNextUpload(store: Store, stem: string, companyId: string, filename: string,
                                chunks: seq<string>, vecs: seq<Vector>,
                                nextFilename: string, nextChunks: seq<string>, nextVecs: seq<Vector>)
    requires Embedded(chunks, vecs) && !Accepted(store, stem, chunks, vecs)
    requires Accepted(store, stem, nextChunks, nextVecs)
    requires forall r :: r in store.records ==> !Matches(r, NextId(store, stem), companyId)
    ensures var s1 := IndexDocument(store, stem, companyId, filename, chunks, vecs).store;
            var s2 := IndexDocument(s1, stem, companyId, nextFilename, nextChunks, nextVecs).store;
            var id := NextId(store, stem);
            && s2.indexes[stem].entries[id] == Entry(id, nextVecs[0])
            && FindOne(s2.records, id, companyId) == Some(Record(id, companyId, filename, chunks[0]))
            && (chunks[0] != nextChunks[0] ==> FindOne(s2.records, id, companyId).value.text != nextChunks[0])
  {
    var id := NextId(store, stem);
    var s1 := InsertRecords(store, id, companyId, filename, chunks);
    assert IndexDocument(store, stem, companyId, filename, chunks, vecs).store == s1;
    assert s1.indexes == store.indexes;
    assert NextId(s1, stem) == id;
    assert Accepted(s1, stem, nextChunks, nextVecs);
    var s2 := Commit(s1, stem, companyId, nextFilename, nextChunks, nextVecs);
    CommitIndexBlock(s1, stem, companyId, nextFilename, nextChunks, nextVecs);
    var k := |store.records|;
    assert s2.records[k] == Record(id, companyId, filename, chunks[0]);
    forall j | 0 <= j < k
      ensures !Matches(s2.records[j], id, companyId)
    {
      assert s2.records[j] == store.records[j];
    }
    FindOneFirst(s2.records, k, id, companyId);
  }
}
