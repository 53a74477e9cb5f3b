/** The state the engine keeps between requests, and the services it calls.

    - One vector index per sanitised tenant stem (an `IndexIDMap` over a flat
      inner-product index, persisted as `<stem>.index`): the vectors added so
      far, each tagged with the integer id it was added with. `ntotal` is the
      number of vectors in it.
    - One metadata collection shared by all tenants: records
      `{vec_id, company_id, filename, text}` in insertion order, keyed by the
      raw company id, not by the stem.

    Vectors are never inspected by the engine, so their contents stay
    abstract. */
module Store {
  import Sanitize

  datatype Option<T> = None | Some(value: T)

  type Vector = seq<real>

  /** A vector together with the id it was added with. */
  datatype Entry = Entry(id: int, vec: Vector)

  /** One tenant's vector index file: FAISS's dimension `d`, fixed when the
      index is created, and the vectors added so far. */
  datatype Index = Index(dim: nat, entries: seq<Entry>)
  {
    /** FAISS's `ntotal`: the number of vectors stored. */
    function NTotal(): nat
    {
      |entries|
    }

    function Ids(): seq<int>
    {
      seq(|entries|, i requires 0 <= i < |entries| => entries[i].id)
    }
  }

  /** One document of the metadata collection. */
  datatype Record = Record(vecId: int, companyId: string, filename: string, text: string)

  /** One slot of a search result: a similarity score and the id of the
      vector it belongs to, or `NoMatch` when the slot is empty. */
  datatype Hit = Hit(score: real, id: int)

  /** The id FAISS reports for an empty result slot. */
  const NoMatch: int := -1

  /** Index files keyed by stem, and the metadata collection. */
  datatype Store = Store(indexes: map<string, Index>, records: seq<Record>)

  const EmptyStore := Store(map[], [])

  /** The collaborators the engine calls and this model does not look into:
      - `fileExists`: `os.path.exists` on an uploaded file's path;
      - `readText`: `_read_text_file`, which returns `""` for unreadable or
        unsupported files;
      - `embed`: `_embed`, the matrix the provider's answer becomes, as a
        list of rows; nothing forces one row per text or equal widths: numpy
        rejects unequal widths and FAISS a row count other than the ids';
      - `search`: `index.search(queries, k)` for the first query, in rank order;
      - `generate`: the generation service, given the assembled context and
        the question;
      - `isAlnum`: Python's `str.isalnum` on one character. */
  datatype Services = Services(
    fileExists: string -> bool,
    readText: string -> string,
    embed: seq<string> -> seq<Vector>,
    search: (Index, seq<Vector>, nat) -> seq<Hit>,
    generate: (string, string) -> string,
    isAlnum: char -> bool)

  /** The stem of the tenant's index file: `_index_path` sanitises the
      company id with the service's `isalnum`. */
  function TenantStem(env: Services, companyId: string): string
  {
    Sanitize.Stem(env.isAlnum, companyId)
  }

  /** The first id of the next block for a stem: the index's `ntotal`, or 0
      when there is no index file yet. When the ids are `0 .. ntotal - 1`,
      that id is fresh: every id already in the index lies below it. */
  function NextId(store: Store, stem: string): (next: nat)
    ensures stem !in store.indexes ==> next == 0
    ensures stem in store.indexes ==> next == store.indexes[stem].NTotal()
    ensures AllDense(store) && stem in store.indexes ==>
              forall e :: e in store.indexes[stem].entries ==> 0 <= e.id < next
  {
    if stem in store.indexes then
      var entries := store.indexes[stem].entries;
      assert AllDense(store) ==> forall e :: e in entries ==> 0 <= e.id < |entries| by {
        if AllDense(store) {
          forall e | e in entries
            ensures 0 <= e.id < |entries|
          {
            var k :| 0 <= k < |entries| && entries[k] == e;
          }
        }
      }
      |entries|
    else 0
  }

  /** The ids of an index are exactly `0 .. ntotal - 1`, in order. */
  predicate Dense(idx: Index)
  {
    forall i :: 0 <= i < |idx.entries| ==> idx.entries[i].id == i
  }

  predicate AllDense(store: Store)
  {
    forall stem :: stem in store.indexes ==> Dense(store.indexes[stem])
  }

  /** The query `{"vec_id": vecId, "company_id": companyId}`. */
  predicate Matches(r: Record, vecId: int, companyId: string)
  {
    r.vecId == vecId && r.companyId == companyId
  }

  /** `find_one`: the first record, in insertion order, that matches. */
  function FindOne(records: seq<Record>, vecId: int, companyId: string): (found: Option<Record>)
    ensures found.None? <==> forall k :: 0 <= k < |records| ==> !Matches(records[k], vecId, companyId)
    ensures found.Some? ==>
              exists k :: 0 <= k < |records| && records[k] == found.value && Matches(found.value, vecId, companyId)
                          && forall j :: 0 <= j < k ==> !Matches(records[j], vecId, companyId)
  {
    if |records| == 0 then None
    else if Matches(records[0], vecId, companyId) then Some(records[0])
    else
      var rest := FindOne(records[1..], vecId, companyId);
      assert forall k :: 1 <= k < |records| ==> records[k] == records[1..][k - 1];
      rest
  }

  /** Every vector of the index has the index's dimension. */
  predicate Shaped(idx: Index)
  {
    forall e :: e in idx.entries ==> |e.vec| == idx.dim
  }

  predicate AllShaped(store: Store)
  {
    forall stem :: stem in store.indexes ==> Shaped(store.indexes[stem])
  }

  /** `find_one` returns the earliest match: a match with none before it is
      what it finds, whatever follows. */
  lemma FindOneFirst(records: seq<Record>, k: nat, vecId: int, companyId: string)
    requires k < |records| && Matches(records[k], vecId, companyId)
    requires forall j :: 0 <= j < k ==> !Matches(records[j], vecId, companyId)
    ensures FindOne(records, vecId, companyId) == Some(records[k])
  {
    var found := FindOne(records, vecId, companyId);
    var k' :| 0 <= k' < |records| && records[k'] == found.value && Matches(found.value, vecId, companyId)
              && forall j :: 0 <= j < k' ==> !Matches(records[j], vecId, companyId);
  }

  /** Every vector of the tenant's index has a metadata record for that
      tenant: no search hit on it can come back empty. */
  predicate Joined(store: Store, stem: string, companyId: string)
  {
    stem in store.indexes ==>
      forall e :: e in store.indexes[stem].entries ==>
        exists r :: r in store.records && Matches(r, e.id, companyId)
  }
}
