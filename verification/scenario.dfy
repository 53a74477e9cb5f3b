/** A worked session: the tenant `acme` uploads a 1500-character handbook
    into an empty store and then asks a question. The services are fixed
    stand-ins: every text embeds to the same vector and the index answers
    every query with the ids 1 and 0 and one empty slot. */
module Scenario {
  import opened Strings
  import opened Store
  import opened Chunker
  import Sanitize
  import opened Indexing
  import opened ChatEngine

  const Handbook: string := seq(1500, i => 'x')
  const UploadPath: string := "handbook.txt"
  const Acme: string := "acme"

  predicate AsciiAlnum(c: char)
  {
    ('a' <= c <= 'z') || ('A' <= c <= 'Z') || ('0' <= c <= '9')
  }

  const Answer: string := "answer"

  const Env: Services := Services(
    p => p == UploadPath,
    p => if p == UploadPath then Handbook else "",
    texts => seq(|texts|, i => [1.0]),
    (idx, q, k) => [Hit(0.9, 1), Hit(0.5, 0), Hit(0.0, NoMatch)],
    (context, question) => Answer,
    AsciiAlnum)

  lemma AcmeStem()
    ensures Sanitize.Stem(AsciiAlnum, Acme) == Acme
  {
  }

  /** The handbook's two windows. */
  const HandbookChunks: seq<string> := [Handbook[..1000], Handbook[900..]]

  lemma HandbookIsChunkedInTwo()
    ensures DocumentChunks(Env, UploadPath) == HandbookChunks
    ensures Env.embed(HandbookChunks) == [[1.0], [1.0]]
  {
    assert Env.readText(UploadPath) == Handbook;
    DefaultSplitOf1500(Handbook);
  }

  /** The embedding is a 2 x 1 matrix, one row per chunk, so a fresh index
      of dimension 1 takes it. */
  lemma HandbookIsAccepted()
    ensures Accepted(EmptyStore, Acme, HandbookChunks, [[1.0], [1.0]])
  {
    assert Size([[1.0], [1.0]]) == 2;
  }

  lemma AcmeNames()
    ensures TenantStem(Env, Acme) == Acme
    ensures Basename(UploadPath) == UploadPath
  {
    AcmeStem();
    assert forall i :: 0 <= i < |UploadPath| ==> UploadPath[i] != '/';
    BasenameOfBareName(UploadPath);
  }

  /** The first commit into an empty store numbers its records and vectors
      from 0. */
  lemma FirstCommit()
    ensures var after := Commit(EmptyStore, Acme, Acme, UploadPath, HandbookChunks, [[1.0], [1.0]]);
            && after.records == [Record(0, Acme, UploadPath, Handbook[..1000]),
                                 Record(1, Acme, UploadPath, Handbook[900..])]
            && Acme in after.indexes
            && after.indexes[Acme].Ids() == [0, 1]
  {
  }

  /** The upload reports two chunks and stores them under ids 0 and 1 in
      both the collection and the index. */
  lemma AcmeUpload()
    ensures var t := CreateIndex(Env, EmptyStore, UploadPath, Acme);
            && t.outcome == Returned(SuccessMessage(2))
            && t.store.records == [Record(0, Acme, UploadPath, Handbook[..1000]),
                                   Record(1, Acme, UploadPath, Handbook[900..])]
            && Acme in t.store.indexes
            && t.store.indexes[Acme].Ids() == [0, 1]
  {
    HandbookIsChunkedInTwo();
    HandbookIsAccepted();
    AcmeNames();
    FirstCommit();
  }

  /** The store after the upload. */
  function AfterUpload(): Store
  {
    CreateIndex(Env, EmptyStore, UploadPath, Acme).store
  }

  const CannedHits: seq<Hit> := [Hit(0.9, 1), Hit(0.5, 0), Hit(0.0, NoMatch)]

  /** Looking the canned result up in two records of `acme` with ids 0 and 1. */
  lemma CannedHitsFind(first: Record, second: Record)
    requires first.vecId == 0 && second.vecId == 1
    requires first.companyId == Acme && second.companyId == Acme
    ensures Found([first, second], CannedHits, Acme) == [second, first]
  {
    var records := [first, second];
    assert records[1..] == [second];
    assert FindOne(records[1..], 1, Acme) == Some(second);
    assert Lookup(records, CannedHits[0], Acme) == Some(second);
    assert Lookup(records, CannedHits[1], Acme) == Some(first);
    assert CannedHits[1..] == [Hit(0.5, 0), Hit(0.0, NoMatch)];
    assert CannedHits[1..][1..] == [Hit(0.0, NoMatch)];
    assert Found(records, [Hit(0.0, NoMatch)], Acme) == [];
    assert Found(records, CannedHits[1..], Acme) == [first];
  }

  lemma TextsOfTwo(a: Record, b: Record)
    ensures Texts([a, b]) == [a.text, b.text]
  {
  }

  lemma JoinOfTwo(a: string, b: string, sep: string)
    ensures Join([a, b], sep) == a + sep + b
  {
  }

  /** `acme`'s index file is its own stem, and the canned search answers. */
  lemma AcmeSearch(store: Store, question: string)
    requires Acme in store.indexes
    ensures TenantStem(Env, Acme) in store.indexes
    ensures SearchHits(Env, store, Acme, question) == CannedHits
  {
    AcmeStem();
  }

  /** Retrieval for `acme`, under any services whose search gives the canned
      result, from a store holding exactly two records of one file with ids
      0 and 1. */
  lemma RetrieveFromTwo(env: Services, store: Store, question: string, first: Record, second: Record)
    requires TenantStem(env, Acme) in store.indexes
    requires SearchHits(env, store, Acme, question) == CannedHits
    requires store.records == [first, second]
    requires first.vecId == 0 && second.vecId == 1
    requires first.companyId == Acme && second.companyId == Acme
    requires first.filename == UploadPath && second.filename == UploadPath
    ensures Retrieve(env, store, Acme, question)
         == Retrieval([second.text, first.text], second.text + "\n\n" + first.text, {UploadPath}, 0.9)
  {
    var found := Found(store.records, SearchHits(env, store, Acme, question), Acme);
    CannedHitsFind(first, second);
    assert found == [second, first];
    TextsOfTwo(second, first);
    assert Sources(found) == {UploadPath};
    JoinOfTwo(second.text, first.text, ContextSeparator);
  }

  const FirstRecord: Record := Record(0, Acme, UploadPath, Handbook[..1000])
  const SecondRecord: Record := Record(1, Acme, UploadPath, Handbook[900..])

  /** Retrieval for `acme` from any store holding exactly the two uploaded
      records and an index file under its stem. */
  lemma RetrieveFromUploaded(store: Store, question: string)
    requires store.records == [FirstRecord, SecondRecord]
    requires Acme in store.indexes
    ensures Retrieve(Env, store, Acme, question)
         == Retrieval([Handbook[900..], Handbook[..1000]], Handbook[900..] + "\n\n" + Handbook[..1000], {UploadPath}, 0.9)
  {
    AcmeSearch(store, question);
    RetrieveFromTwo(Env, store, question, FirstRecord, SecondRecord);
  }

  /** The index ranks id 1 first, so the later window leads the context; the
      empty third slot is skipped; both chunks come from one file, which is
      the one source; the score is the first slot's. */
  lemma AcmeAsks(question: string)
    ensures var r := Retrieve(Env, AfterUpload(), Acme, question);
            && r.texts == [Handbook[900..], Handbook[..1000]]
            && r.context == Handbook[900..] + "\n\n" + Handbook[..1000]
            && Chat(Env, AfterUpload(), Acme, question) == ChatResponse(Answer, {UploadPath}, 0.9)
  {
    AcmeUpload();
    RetrieveFromUploaded(AfterUpload(), question);
  }
}
