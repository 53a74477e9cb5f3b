/** The retrieval half of a chat turn: the tenant's index is searched for the
    question, each returned id is looked up in the metadata collection under
    the tenant's own company id, and the texts found are joined, in rank
    order, into the context handed to the generator. */
module ChatEngine {
  import opened Strings
  import opened Store

  /** How many neighbours one question asks the index for. */
  const TopK: nat := 3

  /** What separates two found texts in the context. */
  const ContextSeparator: string := "\n\n"

  /** One slot of the search result, looked up: nothing for an empty slot
      (`-1`), otherwise the first record of this tenant with that id, if any. */
  function Lookup(records: seq<Record>, h: Hit, companyId: string): (found: Option<Record>)
    ensures h.id == NoMatch ==> found == None
    ensures found.Some? ==> found.value in records && Matches(found.value, h.id, companyId)
    ensures (h.id != NoMatch && exists r :: r in records && Matches(r, h.id, companyId)) ==> found.Some?
  {
    if h.id == NoMatch then None else FindOne(records, h.id, companyId)
  }

  /** The records the loop over the search result finds, in rank order. */
  function Found(records: seq<Record>, hits: seq<Hit>, companyId: string): (found: seq<Record>)
    ensures |found| <= |hits|
    ensures forall r :: r in found ==> r in records && r.companyId == companyId
  {
    if |hits| == 0 then []
    else
      var rest := Found(records, hits[1..], companyId);
      match Lookup(records, hits[0], companyId)
      case None => rest
      case Some(r) => [r] + rest
  }

  /** A record is found exactly when some slot of the search result looks it up. */
  lemma {:induction false} FoundMembership(records: seq<Record>, hits: seq<Hit>, companyId: string, r: Record)
    ensures r in Found(records, hits, companyId)
        <==> exists k :: 0 <= k < |hits| && Lookup(records, hits[k], companyId) == Some(r)
    decreases |hits|
  {
    if |hits| > 0 {
      FoundMembership(records, hits[1..], companyId, r);
      assert forall k :: 1 <= k < |hits| ==> hits[k] == hits[1..][k - 1];
      if exists k :: 0 <= k < |hits| && Lookup(records, hits[k], companyId) == Some(r) {
        var k :| 0 <= k < |hits| && Lookup(records, hits[k], companyId) == Some(r);
        if k > 0 {
          assert Lookup(records, hits[1..][k - 1], companyId) == Some(r);
        }
      }
    }
  }

  /** Looking up one more slot appends its record, if any, at the end: the
      found records keep the search result's rank order. */
  lemma {:induction false} FoundAppend(records: seq<Record>, hits: seq<Hit>, h: Hit, companyId: string)
    ensures Found(records, hits + [h], companyId)
         == Found(records, hits, companyId)
            + (match Lookup(records, h, companyId) case None => [] case Some(r) => [r])
    decreases |hits|
  {
    if |hits| > 0 {
      assert (hits + [h])[1..] == hits[1..] + [h];
      FoundAppend(records, hits[1..], h, companyId);
    } else {
      assert ([h])[1..] == [];
    }
  }

  /** The number of slots that hold an id. */
  function CountIds(hits: seq<Hit>): (n: nat)
    ensures n <= |hits|
  {
    if |hits| == 0 then 0
    else (if hits[0].id == NoMatch then 0 else 1) + CountIds(hits[1..])
  }

  /** Every slot is empty or holds an id of a vector in the index, which is
      what a search over that index returns. */
  predicate HitsFrom(idx: Index, hits: seq<Hit>)
  {
    forall k :: 0 <= k < |hits| ==> hits[k].id == NoMatch || hits[k].id in idx.Ids()
  }

  /** When every vector of the tenant's index has a record for the tenant,
      only empty slots are skipped: one record is found per id returned. */
  lemma {:induction false} FoundComplete(store: Store, stem: string, companyId: string, hits: seq<Hit>)
    requires stem in store.indexes
    requires Joined(store, stem, companyId)
    requires HitsFrom(store.indexes[stem], hits)
    ensures |Found(store.records, hits, companyId)| == CountIds(hits)
    decreases |hits|
  {
    if |hits| > 0 {
      var idx := store.indexes[stem];
      assert HitsFrom(idx, hits[1..]) by {
        forall k | 0 <= k < |hits[1..]|
          ensures hits[1..][k].id == NoMatch || hits[1..][k].id in idx.Ids()
        {
          assert hits[1..][k] == hits[k + 1];
        }
      }
      FoundComplete(store, stem, companyId, hits[1..]);
      if hits[0].id != NoMatch {
        assert hits[0].id in idx.Ids();
        var j :| 0 <= j < |idx.entries| && idx.Ids()[j] == hits[0].id;
        assert idx.entries[j] in idx.entries;
        assert Lookup(store.records, hits[0], companyId).Some?;
      }
    }
  }

  /** The `found_chunks` list: the text of each found record. */
  function Texts(found: seq<Record>): (texts: seq<string>)
    ensures |texts| == |found|
  {
    seq(|found|, i requires 0 <= i < |found| => found[i].text)
  }

  /** The `sources` set: the file names of the found records. */
  function Sources(found: seq<Record>): (sources: set<string>)
    ensures |sources| <= |found|
  {
    if |found| == 0 then {} else {found[0].filename} + Sources(found[1..])
  }

  /** A file name is a source exactly when some found record carries it. */
  lemma {:induction false} SourcesMembership(found: seq<Record>, name: string)
    ensures name in Sources(found) <==> exists k :: 0 <= k < |found| && found[k].filename == name
    decreases |found|
  {
    if |found| > 0 {
      SourcesMembership(found[1..], name);
      assert forall k :: 1 <= k < |found| ==> found[k] == found[1..][k - 1];
      if exists k :: 0 <= k < |found| && found[k].filename == name {
        var k :| 0 <= k < |found| && found[k].filename == name;
        if k > 0 {
          assert found[1..][k - 1].filename == name;
        }
      }
    }
  }

  /** The result of the retrieval step: the found texts, the context built
      from them, the distinct source file names and the confidence score. */
  datatype Retrieval = Retrieval(texts: seq<string>, context: string, sources: set<string>, score: real)

  /** Empty context, no sources, score 0: what a tenant without an index gets. */
  const NoRetrieval := Retrieval([], "", {}, 0.0)

  /** The confidence score: the first slot's score, whether or not that slot
      resolved to a record, or 0 when the search returned nothing. */
  function Score(hits: seq<Hit>): real
  {
    if |hits| > 0 then hits[0].score else 0.0
  }

  /** The hits the tenant's index returns for the question. */
  function SearchHits(env: Services, store: Store, companyId: string, question: string): seq<Hit>
    requires TenantStem(env, companyId) in store.indexes
  {
    env.search(store.indexes[TenantStem(env, companyId)], env.embed([question]), TopK)
  }

  /** The search step of `ChatEngine.chat` for the question. */
  function Retrieve(env: Services, store: Store, companyId: string, question: string): (r: Retrieval)
    ensures TenantStem(env, companyId) !in store.indexes ==> r == NoRetrieval
    ensures TenantStem(env, companyId) in store.indexes ==>
              var hits := SearchHits(env, store, companyId, question);
              var found := Found(store.records, hits, companyId);
              r.texts == Texts(found) && r.sources == Sources(found) && r.score == Score(hits)
    ensures r.context == Join(r.texts, ContextSeparator)
    ensures |r.sources| <= |r.texts|
    ensures forall t :: t in r.texts ==>
              exists rec :: rec in store.records && rec.companyId == companyId && rec.text == t
    ensures forall name :: name in r.sources ==>
              exists rec :: rec in store.records && rec.companyId == companyId && rec.filename == name
  {
    var stem := TenantStem(env, companyId);
    if stem !in store.indexes then NoRetrieval
    else
      var hits := env.search(store.indexes[stem], env.embed([question]), TopK);
      var found := Found(store.records, hits, companyId);
      assert forall name :: name in Sources(found) ==>
               exists rec :: rec in store.records && rec.companyId == companyId && rec.filename == name by {
        forall name | name in Sources(found)
          ensures exists rec :: rec in store.records && rec.companyId == companyId && rec.filename == name
        {
          SourcesMembership(found, name);
          var k :| 0 <= k < |found| && found[k].filename == name;
          assert found[k] in found;
        }
      }
      assert forall t :: t in Texts(found) ==>
               exists rec :: rec in store.records && rec.companyId == companyId && rec.text == t by {
        forall t | t in Texts(found)
          ensures exists rec :: rec in store.records && rec.companyId == companyId && rec.text == t
        {
          var k :| 0 <= k < |found| && Texts(found)[k] == t;
          assert found[k] in found;
        }
      }
      Retrieval(Texts(found), Join(Texts(found), ContextSeparator), Sources(found), Score(hits))
  }

  /** With an index, the score is the first slot's, even when that slot is
      empty or has no record, and depends on no record at all. */
  lemma RetrieveScore(env: Services, store: Store, companyId: string, question: string, records: seq<Record>)
    requires TenantStem(env, companyId) in store.indexes
    ensures var hits := SearchHits(env, store, companyId, question);
            && Retrieve(env, store, companyId, question).score == (if |hits| > 0 then hits[0].score else 0.0)
            && Retrieve(env, store.(records := records), companyId, question).score
               == Retrieve(env, store, companyId, question).score
  {
  }

  /** With a joined store and a search result drawn from the tenant's index,
      exactly one text per returned id. */
  lemma RetrieveComplete(env: Services, store: Store, companyId: string, question: string)
    requires TenantStem(env, companyId) in store.indexes
    requires Joined(store, TenantStem(env, companyId), companyId)
    requires HitsFrom(store.indexes[TenantStem(env, companyId)], SearchHits(env, store, companyId, question))
    ensures |Retrieve(env, store, companyId, question).texts| == CountIds(SearchHits(env, store, companyId, question))
  {
    FoundComplete(store, TenantStem(env, companyId), companyId, SearchHits(env, store, companyId, question));
  }

  /** Retrieval never yields more texts than the search returned slots, so a
      search that honours its `TopK` argument gives at most `TopK` texts. */
  lemma RetrieveBounded(env: Services, store: Store, companyId: string, question: string)
    requires TenantStem(env, companyId) in store.indexes
    ensures |Retrieve(env, store, companyId, question).texts| <= |SearchHits(env, store, companyId, question)|
    ensures |SearchHits(env, store, companyId, question)| <= TopK ==> |Retrieve(env, store, companyId, question).texts| <= TopK
  {
  }

  /** The best-ranked record found leads the context and is a source. */
  lemma TopRecordLeadsContext(env: Services, store: Store, companyId: string, question: string, rec: Record)
    requires TenantStem(env, companyId) in store.indexes
    requires |SearchHits(env, store, companyId, question)| > 0
    requires Lookup(store.records, SearchHits(env, store, companyId, question)[0], companyId) == Some(rec)
    ensures var r := Retrieve(env, store, companyId, question);
            && r.context[..|rec.text|] == rec.text
            && rec.filename in r.sources
  {
  }

  /** Adding one more found text extends the context by the separator and
      that text, so the context lists the texts in rank order. */
  lemma ContextInRankOrder(records: seq<Record>, hits: seq<Hit>, h: Hit, companyId: string, rec: Record)
    requires Lookup(records, h, companyId) == Some(rec)
    requires Found(records, hits, companyId) != []
    ensures Join(Texts(Found(records, hits + [h], companyId)), ContextSeparator)
         == Join(Texts(Found(records, hits, companyId)), ContextSeparator) + ContextSeparator + rec.text
  {
    var found := Found(records, hits, companyId);
    FoundAppend(records, hits, h, companyId);
    assert Texts(found + [rec]) == Texts(found) + [rec.text];
    JoinAppend(Texts(found), ContextSeparator, rec.text);
  }

  /** The loop of `ChatEngine.chat` over the returned ids, as written: skip an
      empty slot, look the id up for this tenant, and on a hit append its
      text and add its file name. */
  method CollectFound(records: seq<Record>, hits: seq<Hit>, companyId: string)
    returns (texts: seq<string>, sources: set<string>)
    ensures texts == Texts(Found(records, hits, companyId))
    ensures sources == Sources(Found(records, hits, companyId))
  {
    texts, sources := [], {};
    var i := 0;
    while i < |hits|
      invariant 0 <= i <= |hits|
      invariant texts == Texts(Found(records, hits[..i], companyId))
      invariant sources == Sources(Found(records, hits[..i], companyId))
    {
      FoundPrefixStep(records, hits, i, companyId);
      if hits[i].id != NoMatch {
        var doc := FindOne(records, hits[i].id, companyId);
        if doc.Some? {
          TextsAppend(Found(records, hits[..i], companyId), doc.value);
          SourcesAppend(Found(records, hits[..i], companyId), doc.value);
          texts := texts + [doc.value.text];
          sources := sources + {doc.value.filename};
        }
      }
      i := i + 1;
    }
    assert hits[..i] == hits;
  }

  /** The records found in one more slot of the result. */
  lemma FoundPrefixStep(records: seq<Record>, hits: seq<Hit>, i: nat, companyId: string)
    requires i < |hits|
    ensures Found(records, hits[..i + 1], companyId)
         == Found(records, hits[..i], companyId)
            + (match Lookup(records, hits[i], companyId) case None => [] case Some(r) => [r])
    ensures Lookup(records, hits[i], companyId).None? ==>
              Found(records, hits[..i + 1], companyId) == Found(records, hits[..i], companyId)
  {
    assert hits[..i + 1] == hits[..i] + [hits[i]];
    FoundAppend(records, hits[..i], hits[i], companyId);
  }

  lemma TextsAppend(found: seq<Record>, rec: Record)
    ensures Texts(found + [rec]) == Texts(found) + [rec.text]
  {
  }

  /** One more found record adds its file name to the sources. */
  lemma {:induction false} SourcesAppend(found: seq<Record>, rec: Record)
    ensures Sources(found + [rec]) == Sources(found) + {rec.filename}
    decreases |found|
  {
    if |found| > 0 {
      assert (found + [rec])[1..] == found[1..] + [rec];
      SourcesAppend(found[1..], rec);
    } else {
      assert ([rec])[1..] == [];
    }
  }

  /** A tenant with an index file but no records of its own, such as one
      whose id sanitises to another tenant's stem, gets no context and no
      sources, yet still the score of the index's best vector. */
  lemma NoRecordsScoreOnly(env: Services, store: Store, companyId: string, question: string)
    requires TenantStem(env, companyId) in store.indexes
    requires forall rec :: rec in store.records ==> rec.companyId != companyId
    ensures Retrieve(env, store, companyId, question)
         == Retrieval([], "", {}, Score(SearchHits(env, store, companyId, question)))
  {
  }

  /** What `chat` returns: the generated answer, the source file names and
      the score. */
  datatype ChatResponse = ChatResponse(response: string, sources: set<string>, score: real)

  /** `ChatEngine(companyId).chat(question)`. The answer is whatever the
      generation service makes of the context and the question. */
  function Chat(env: Services, store: Store, companyId: string, question: string): (resp: ChatResponse)
    ensures (TenantStem(env, companyId) !in store.indexes)
              ==> resp == ChatResponse(env.generate("", question), {}, 0.0)
    ensures TenantStem(env, companyId) in store.indexes ==>
              var hits := SearchHits(env, store, companyId, question);
              var found := Found(store.records, hits, companyId);
              resp == ChatResponse(env.generate(Join(Texts(found), ContextSeparator), question), Sources(found), Score(hits))
    ensures forall name :: name in resp.sources ==>
              exists rec :: rec in store.records && rec.companyId == companyId && rec.filename == name
  {
    var r := Retrieve(env, store, companyId, question);
    ChatResponse(env.generate(r.context, question), r.sources, r.score)
  }

  /** Tenants whose ids sanitise to the same stem share one index file, yet a
      file name that only other tenants uploaded is never a source of this
      tenant's answer. */
  lemma SharedIndexStaysIsolated(env: Services, store: Store, companyId: string, question: string, name: string)
    requires forall rec :: rec in store.records && rec.filename == name ==> rec.companyId != companyId
    ensures name !in Chat(env, store, companyId, question).sources
  {
  }
}
