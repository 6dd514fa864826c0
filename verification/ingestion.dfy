/**
 * `process_corpus`: rebuild the `research_documents` collection, then add
 * the corpus to it batch by batch under the global ids `doc_<k>`. The
 * vector store is an in-memory map from id to (embedding, document); the
 * sentence encoder and `json.dumps` are parameters of the run.
 */
module Ingestion {
  import opened Text
  import opened Values

  type Vector = seq<real>

  /** A corpus entry: a JSON object. */
  type Document = map<string, Json>

  datatype Record = Record(embedding: Vector, document: string)

  /** Why the store refuses an `add`. */
  datatype AddError = EmptyIds | LengthMismatch | DuplicateId | DimensionMismatch

  predicate Distinct(ids: seq<string>) {
    forall p, q :: 0 <= p < q < |ids| ==> ids[p] != ids[q]
  }

  /**
   * The store's checks on an `add`, in order; `dimension` is the
   * collection's, fixed by its first successful `add`.
   */
  function AddCheck(dimension: Option<nat>, ids: seq<string>, embeddings: seq<Vector>, documents: seq<string>)
    : (r: Option<AddError>)
    ensures r.None? ==> ids != [] && |embeddings| == |ids| && |documents| == |ids| && Distinct(ids)
  {
    if ids == [] then Some(EmptyIds)
    else if |embeddings| != |ids| || |documents| != |ids| then Some(LengthMismatch)
    else if !Distinct(ids) then Some(DuplicateId)
    else if exists k :: 0 <= k < |embeddings| && |embeddings[k]| != ExpectedDimension(dimension, embeddings[0])
    then Some(DimensionMismatch)
    else None
  }

  /** The collection's dimension, or that of the first vector of its first `add`. */
  function ExpectedDimension(dimension: Option<nat>, first: Vector): nat {
    if dimension.Some? then dimension.value else |first|
  }

  /** The first `k` entries of an accepted `add`; an id already stored keeps its record. */
  function Insert(stored: map<string, Record>, ids: seq<string>, embeddings: seq<Vector>, documents: seq<string>, k: nat)
    : map<string, Record>
    requires k <= |ids| && k <= |embeddings| && k <= |documents|
  {
    if k == 0 then stored
    else
      var before := Insert(stored, ids, embeddings, documents, k - 1);
      if ids[k - 1] in before then before
      else before[ids[k - 1] := Record(embeddings[k - 1], documents[k - 1])]
  }

  /**
   * Adding ids that are new and pairwise distinct keeps every stored
   * record and stores the j-th embedding and document under the j-th id.
   */
  lemma {:induction false} InsertFreshKeys(stored: map<string, Record>, ids: seq<string>, embeddings: seq<Vector>,
                                           documents: seq<string>, k: nat)
    requires k <= |ids| && k <= |embeddings| && k <= |documents|
    requires forall j :: 0 <= j < k ==> ids[j] !in stored
    ensures Insert(stored, ids, embeddings, documents, k).Keys == stored.Keys + set j | 0 <= j < k :: ids[j]
  {
    if k > 0 {
      InsertFreshKeys(stored, ids, embeddings, documents, k - 1);
      assert (set j | 0 <= j < k :: ids[j]) == (set j | 0 <= j < k - 1 :: ids[j]) + {ids[k - 1]};
    }
  }

  lemma {:induction false} InsertFreshValues(stored: map<string, Record>, ids: seq<string>, embeddings: seq<Vector>,
                                             documents: seq<string>, k: nat)
    requires k <= |ids| && k <= |embeddings| && k <= |documents|
    requires Distinct(ids)
    requires forall j :: 0 <= j < k ==> ids[j] !in stored
    ensures forall key :: key in stored ==>
      (key in Insert(stored, ids, embeddings, documents, k)
       && Insert(stored, ids, embeddings, documents, k)[key] == stored[key])
    ensures forall j :: 0 <= j < k ==>
      (ids[j] in Insert(stored, ids, embeddings, documents, k)
       && Insert(stored, ids, embeddings, documents, k)[ids[j]] == Record(embeddings[j], documents[j]))
  {
    if k > 0 {
      var before := Insert(stored, ids, embeddings, documents, k - 1);
      assert ids[k - 1] !in before by {
        InsertFreshKeys(stored, ids, embeddings, documents, k - 1);
      }
      InsertFreshValues(stored, ids, embeddings, documents, k - 1);
    }
  }

  /** A ChromaDB collection. */
  class Collection {
    const name: string
    var dimension: Option<nat>
    var records: map<string, Record>

    /**
     * Every record's embedding has the collection's dimension, which is
     * unset only while the collection is empty.
     */
    ghost predicate Valid()
      reads this
    {
      && (dimension.None? ==> records == map[])
      && forall id :: id in records ==> dimension.Some? && |records[id].embedding| == dimension.value
    }

    constructor (name: string)
      ensures this.name == name && dimension == None && records == map[]
      ensures Valid()
    {
      this.name := name;
      dimension := None;
      records := map[];
    }

    /** `collection.count()`. */
    function Count(): (n: nat)
      reads this
      ensures n == |records.Keys|
    {
      |records|
    }

    /** `collection.add(ids, embeddings, documents)`: all or nothing. */
    method Add(ids: seq<string>, embeddings: seq<Vector>, documents: seq<string>) returns (error: Option<AddError>)
      requires Valid()
      modifies this
      ensures Valid()
      ensures error == AddCheck(old(dimension), ids, embeddings, documents)
      ensures error.Some? ==> records == old(records) && dimension == old(dimension)
      ensures error.None? ==>
        && records == Insert(old(records), ids, embeddings, documents, |ids|)
        && dimension == Some(|embeddings[0]|)
        && (old(dimension).Some? ==> dimension == old(dimension))
    {
      error := AddCheck(dimension, ids, embeddings, documents);
      if error.None? {
        ghost var d := ExpectedDimension(dimension, embeddings[0]);
        for k := 0 to |ids|
          invariant records == Insert(old(records), ids, embeddings, documents, k)
          invariant forall id :: id in records ==> |records[id].embedding| == d
        {
          if ids[k] !in records {
            records := records[ids[k] := Record(embeddings[k], documents[k])];
          }
        }
        dimension := Some(|embeddings[0]|);
      }
    }
  }

  /** A ChromaDB client: its collections by name. */
  class Client {
    var collections: map<string, Collection>

    constructor ()
      ensures collections == map[]
    {
      collections := map[];
    }

    /** `get_collection(name)`; `None` where the library raises. */
    method GetCollection(name: string) returns (c: Option<Collection>)
      ensures name in collections <==> c.Some?
      ensures c.Some? ==> c.value == collections[name]
    {
      c := if name in collections then Some(collections[name]) else None;
    }

    method DeleteCollection(name: string)
      requires name in collections
      modifies this
      ensures collections == old(collections) - {name}
    {
      collections := collections - {name};
    }

    method CreateCollection(name: string) returns (c: Collection)
      requires name !in collections
      modifies this
      ensures fresh(c) && c.name == name && c.dimension == None && c.records == map[]
      ensures c.Valid()
      ensures collections == old(collections)[name := c]
    {
      c := new Collection(name);
      collections := collections[name := c];
    }
  }

  const CollectionName := "research_documents"

  /** The batch size a run uses when its caller names none. */
  const DefaultBatchSize := 32

  /** The id of the k-th document of the corpus. */
  function DocId(k: nat): string {
    "doc_" + NatToString(k)
  }

  /** An id scheme that gives different positions different ids. */
  ghost predicate Injective(id: nat -> string) {
    forall a: nat, b: nat :: id(a) == id(b) ==> a == b
  }

  /** `doc_<k>` is such a scheme: the decimal numeral determines `k`. */
  lemma DocIdInjective()
    ensures Injective(DocId)
  {
    forall a: nat, b: nat | DocId(a) == DocId(b) ensures a == b {
      var prefix := "doc_";
      assert NatToString(a) == DocId(a)[|prefix|..];
      assert NatToString(b) == DocId(b)[|prefix|..];
      NatToStringInjective(a, b);
    }
  }

  /** The ids of positions `s` to `s + m - 1`, in order. */
  function Ids(id: nat -> string, s: nat, m: nat): seq<string> {
    seq(m, j requires 0 <= j < m => id(s + j))
  }

  /** The ids of positions `0` to `m - 1`. */
  function IdSet(id: nat -> string, m: nat): set<string> {
    set k: nat | k < m :: id(k)
  }

  lemma {:induction false} IdSetCount(id: nat -> string, m: nat)
    requires Injective(id)
    ensures |IdSet(id, m)| == m
  {
    if m > 0 {
      IdSetCount(id, m - 1);
      assert IdSet(id, m) == IdSet(id, m - 1) + {id(m - 1)} by {
        forall x | x in IdSet(id, m) ensures x in IdSet(id, m - 1) + {id(m - 1)} {
          var k: nat :| k < m && id(k) == x;
          if k < m - 1 {
            assert x in IdSet(id, m - 1);
          }
        }
      }
      assert id(m - 1) !in IdSet(id, m - 1);
    }
  }

  /**
   * One run of `process_corpus`; `encode` answers `None` where the model
   * raises, and `id` names the document at each position of the corpus
   * (`DocId` in the run itself).
   */
  datatype Job = Job(
    corpus: seq<Document>,
    encode: seq<Json> -> Option<seq<Vector>>,
    dumps: Document -> string,
    id: nat -> string,
    size: nat)

  /** `doc.get('text', '')`. */
  function TextOf(doc: Document): Json {
    Get(doc, "text", Str(""))
  }

  /**
   * Where batch `b` starts: the b-th offset `range(0, n, batch_size)` visits,
   * clamped to the corpus as a slice bound is (see `BatchStartOffset`).
   */
  function BatchStart(job: Job, b: nat): (s: nat)
    ensures s <= |job.corpus|
  {
    if b == 0 then 0
    else
      var previous := BatchStart(job, b - 1);
      if previous + job.size < |job.corpus| then previous + job.size else |job.corpus|
  }

  lemma {:induction false} StartMono(job: Job, a: nat, c: nat)
    requires a <= c
    ensures BatchStart(job, a) <= BatchStart(job, c)
  {
    if a < c {
      StartMono(job, a, c - 1);
    }
  }

  /** The clamped start is `b * batch_size`, the offset Python computes. */
  lemma {:induction false} BatchStartOffset(job: Job, b: nat)
    ensures BatchStart(job, b) == if b * job.size < |job.corpus| then b * job.size else |job.corpus|
  {
    if b > 0 {
      BatchStartOffset(job, b - 1);
      assert b * job.size == (b - 1) * job.size + job.size;
    }
  }

  /** `corpus[i:i+batch_size]` for `i = b * batch_size`. */
  function Batch(job: Job, b: nat): seq<Document> {
    var s := BatchStart(job, b);
    job.corpus[s..if s + job.size < |job.corpus| then s + job.size else |job.corpus|]
  }

  /** Batch `b` ends where batch `b + 1` starts. */
  lemma BatchEnd(job: Job, b: nat)
    ensures BatchStart(job, b) + |Batch(job, b)| == BatchStart(job, b + 1)
    ensures Batch(job, b) == job.corpus[BatchStart(job, b)..BatchStart(job, b + 1)]
  {
  }

  function Texts(batch: seq<Document>): seq<Json> {
    seq(|batch|, j requires 0 <= j < |batch| => TextOf(batch[j]))
  }

  function Dumps(batch: seq<Document>, dumps: Document -> string): seq<string> {
    seq(|batch|, j requires 0 <= j < |batch| => dumps(batch[j]))
  }

  /** The embeddings of batch `b`. */
  function Vectors(job: Job, b: nat): Option<seq<Vector>> {
    job.encode(Texts(Batch(job, b)))
  }

  /** The dimension of the collection before batch `b`: none before the first, then that of the first vector. */
  function DimensionBefore(job: Job, b: nat): Option<nat> {
    if b == 0 then None
    else match Vectors(job, 0)
      case Some(vs) => if vs != [] then Some(|vs[0]|) else None
      case None => None
  }

  datatype Failure = EncodeFailed | AddFailed(error: AddError)

  /** How batch `b` fails once the batches before it are stored, if it does. */
  function BatchFailure(job: Job, b: nat): (r: Option<Failure>)
    ensures r.None? ==> Vectors(job, b).Some? && |Vectors(job, b).value| == |Batch(job, b)|
  {
    var batch := Batch(job, b);
    match Vectors(job, b)
    case None => Some(EncodeFailed)
    case Some(vs) =>
      match AddCheck(DimensionBefore(job, b), Ids(job.id, BatchStart(job, b), |batch|), vs, Dumps(batch, job.dumps))
      case Some(e) => Some(AddFailed(e))
      case None => None
  }

  predicate AllAdded(job: Job, b: nat) {
    forall c :: 0 <= c < b ==> BatchFailure(job, c).None?
  }

  /** `b` batches are exactly those `range(0, n, batch_size)` visits. */
  predicate Covers(job: Job, b: nat) {
    BatchStart(job, b) == |job.corpus| && (b == 0 || BatchStart(job, b - 1) < |job.corpus|)
  }

  /** The id of the j-th document of batch `c`. */
  function Key(job: Job, c: nat, j: nat): string {
    job.id(BatchStart(job, c) + j)
  }

  /**
   * The record of the j-th document of batch `c`: the j-th vector the
   * encoder returned for the batch (empty if it returned none) and the
   * document's JSON text.
   */
  function Entry(job: Job, c: nat, j: nat): Record
    requires j < |Batch(job, c)|
  {
    var vs := Vectors(job, c);
    Record(if vs.Some? && j < |vs.value| then vs.value[j] else [], job.dumps(Batch(job, c)[j]))
  }

  /** A document without a `text` field is embedded as the empty string. */
  lemma MissingText(doc: Document)
    requires "text" !in doc
    ensures TextOf(doc) == Str("")
  {
  }

  /** The batches, concatenated in order. */
  function Concat(job: Job, b: nat): seq<Document> {
    if b == 0 then [] else Concat(job, b - 1) + Batch(job, b - 1)
  }

  /** The first `b` batches are, in order, the corpus up to where batch `b` starts. */
  lemma {:induction false} BatchesConcat(job: Job, b: nat)
    ensures Concat(job, b) == job.corpus[..BatchStart(job, b)]
  {
    if b > 0 {
      BatchesConcat(job, b - 1);
      StartMono(job, b - 1, b);
      assert job.corpus[..BatchStart(job, b - 1)] + Batch(job, b - 1) == job.corpus[..BatchStart(job, b)];
    }
  }

  /**
   * The batches `range(0, n, batch_size)` visits cover the corpus exactly
   * once and in order; each holds between one and `batch_size` documents,
   * and only the last may hold fewer than `batch_size`.
   */
  lemma BatchesPartition(job: Job, b: nat, c: nat)
    requires job.size > 0 && Covers(job, b) && c < b
    ensures Concat(job, b) == job.corpus
    ensures 1 <= |Batch(job, c)| <= job.size
    ensures c + 1 < b ==> |Batch(job, c)| == job.size
  {
    BatchesConcat(job, b);
    StartMono(job, c, b - 1);
    if c + 1 < b {
      StartMono(job, c + 1, b - 1);
    }
  }

  /** The batch, among the first `b`, that a document before batch `b` falls in. */
  lemma {:induction false} BatchContaining(job: Job, b: nat, k: nat) returns (c: nat)
    requires k < BatchStart(job, b)
    ensures c < b && BatchStart(job, c) <= k < BatchStart(job, c + 1)
  {
    if k < BatchStart(job, b - 1) {
      c := BatchContaining(job, b - 1, k);
    } else {
      c := b - 1;
    }
  }

  /** Each document before where batch `b` starts lies in exactly one of the first `b` batches. */
  lemma BatchOf(job: Job, b: nat, k: nat) returns (c: nat)
    requires k < BatchStart(job, b)
    ensures c < b && BatchStart(job, c) <= k < BatchStart(job, c + 1)
    ensures forall d: nat :: d < b && BatchStart(job, d) <= k < BatchStart(job, d + 1) ==> d == c
  {
    c := BatchContaining(job, b, k);
    forall d: nat | d < b && BatchStart(job, d) <= k < BatchStart(job, d + 1)
      ensures d == c
    {
      if d < c {
        StartMono(job, d + 1, c);
      } else if d > c {
        StartMono(job, c + 1, d);
      }
    }
  }

  /** An injective scheme gives the positions of a range pairwise distinct ids. */
  lemma IdsDistinct(id: nat -> string, s: nat, m: nat)
    requires Injective(id)
    ensures Distinct(Ids(id, s, m))
  {
  }

  /** None of them is among the ids of the positions before the range. */
  lemma IdsFresh(id: nat -> string, stored: map<string, Record>, s: nat, m: nat)
    requires Injective(id) && stored.Keys == IdSet(id, s)
    ensures forall j :: 0 <= j < m ==> Ids(id, s, m)[j] !in stored
  {
  }

  /** Adding the range to a store that holds the ids before it leaves it holding the ids up to its end. */
  lemma KeysAfterBatch(id: nat -> string, stored: map<string, Record>, s: nat, m: nat, vs: seq<Vector>, docs: seq<string>)
    requires Injective(id) && stored.Keys == IdSet(id, s) && m <= |vs| && m <= |docs|
    ensures Insert(stored, Ids(id, s, m), vs, docs, m).Keys == IdSet(id, s + m)
  {
    IdsFresh(id, stored, s, m);
    InsertFreshKeys(stored, Ids(id, s, m), vs, docs, m);
    IdSetSplit(id, s, m);
  }

  /** The ids up to `s + m` are those up to `s` and those of the range from `s`. */
  lemma IdSetSplit(id: nat -> string, s: nat, m: nat)
    ensures IdSet(id, s + m) == IdSet(id, s) + set j | 0 <= j < m :: Ids(id, s, m)[j]
  {
    var ids := Ids(id, s, m);
    var added := set j | 0 <= j < m :: ids[j];
    forall x | x in IdSet(id, s + m) ensures x in IdSet(id, s) || x in added {
      var k: nat :| k < s + m && id(k) == x;
      if k >= s {
        assert ids[k - s] == x;
      }
    }
    forall x | x in added ensures x in IdSet(id, s + m) {
      var j :| 0 <= j < m && ids[j] == x;
      assert id(s + j) == x;
    }
  }

  /** One batch added to the store, in terms of the maps alone. */
  lemma BatchStep(id: nat -> string, stored: map<string, Record>, s: nat, m: nat, vs: seq<Vector>,
                  docs: seq<string>, next: map<string, Record>)
    requires Injective(id) && stored.Keys == IdSet(id, s) && m <= |vs| && m <= |docs|
    requires next == Insert(stored, Ids(id, s, m), vs, docs, m)
    ensures next.Keys == IdSet(id, s + m)
    ensures forall key :: key in stored ==> key in next && next[key] == stored[key]
    ensures forall j :: 0 <= j < m ==> Ids(id, s, m)[j] in next && next[Ids(id, s, m)[j]] == Record(vs[j], docs[j])
  {
    KeysAfterBatch(id, stored, s, m, vs, docs);
    IdsDistinct(id, s, m);
    IdsFresh(id, stored, s, m);
    InsertFreshValues(stored, Ids(id, s, m), vs, docs, m);
  }

  /** The records of the first `b` batches: under the id of the j-th document of each batch `c`, its entry. */
  predicate Entries(job: Job, b: nat, records: map<string, Record>) {
    forall c: nat, j: nat :: c < b && j < |Batch(job, c)| ==>
      Key(job, c, j) in records && records[Key(job, c, j)] == Entry(job, c, j)
  }

  /**
   * What the collection holds once the first `b` batches are added: the
   * ids of the documents before where batch `b` starts, and under each of
   * them the entry of that document.
   */
  predicate Holds(job: Job, b: nat, records: map<string, Record>) {
    records.Keys == IdSet(job.id, BatchStart(job, b)) && Entries(job, b, records)
  }

  /** The records of the batches before `b` survive in a map that keeps every record of `records`. */
  lemma EntriesKept(job: Job, b: nat, records: map<string, Record>, next: map<string, Record>)
    requires Entries(job, b, records)
    requires forall key :: key in records ==> key in next && next[key] == records[key]
    ensures forall c: nat, j: nat :: c < b && j < |Batch(job, c)| ==>
      Key(job, c, j) in next && next[Key(job, c, j)] == Entry(job, c, j)
  {
  }

  /** The records of batch `b` as the store stores them when it accepts the batch. */
  lemma EntriesAdded(job: Job, b: nat, vs: seq<Vector>, next: map<string, Record>)
    requires Vectors(job, b) == Some(vs) && |vs| == |Batch(job, b)|
    requires forall j :: 0 <= j < |Batch(job, b)| ==>
      var key := Ids(job.id, BatchStart(job, b), |Batch(job, b)|)[j];
      key in next && next[key] == Record(vs[j], Dumps(Batch(job, b), job.dumps)[j])
    ensures forall j: nat :: j < |Batch(job, b)| ==>
      Key(job, b, j) in next && next[Key(job, b, j)] == Entry(job, b, j)
  {
    forall j: nat | j < |Batch(job, b)|
      ensures Key(job, b, j) in next && next[Key(job, b, j)] == Entry(job, b, j)
    {
      var v, doc := vs[j], Dumps(Batch(job, b), job.dumps)[j];
      assert Ids(job.id, BatchStart(job, b), |Batch(job, b)|)[j] == Key(job, b, j);
      assert Key(job, b, j) in next && next[Key(job, b, j)] == Record(v, doc);
    }
  }

  lemma EntriesJoin(job: Job, b: nat, next: map<string, Record>)
    requires forall c: nat, j: nat :: c < b && j < |Batch(job, c)| ==>
      Key(job, c, j) in next && next[Key(job, c, j)] == Entry(job, c, j)
    requires forall j: nat :: j < |Batch(job, b)| ==>
      Key(job, b, j) in next && next[Key(job, b, j)] == Entry(job, b, j)
    ensures Entries(job, b + 1, next)
  {
  }

  /** Batch `b`, stored as the store stores an accepted batch, extends what the first `b` batches put there. */
  lemma HoldsStep(job: Job, b: nat, records: map<string, Record>, vs: seq<Vector>, next: map<string, Record>)
    requires Holds(job, b, records)
    requires Vectors(job, b) == Some(vs) && |vs| == |Batch(job, b)|
    requires next.Keys == IdSet(job.id, BatchStart(job, b) + |Batch(job, b)|)
    requires forall key :: key in records ==> key in next && next[key] == records[key]
    requires forall j :: 0 <= j < |Batch(job, b)| ==>
      var key := Ids(job.id, BatchStart(job, b), |Batch(job, b)|)[j];
      key in next && next[key] == Record(vs[j], Dumps(Batch(job, b), job.dumps)[j])
    ensures Holds(job, b + 1, next)
  {
    assert next.Keys == IdSet(job.id, BatchStart(job, b + 1)) by {
      BatchEnd(job, b);
    }
    assert Entries(job, b + 1, next) by {
      EntriesKept(job, b, records, next);
      EntriesAdded(job, b, vs, next);
      EntriesJoin(job, b, next);
    }
  }

  /** The collection between batches: what the batches so far put there, and the dimension the first fixed. */
  predicate Progress(job: Job, b: nat, records: map<string, Record>, dimension: Option<nat>) {
    AllAdded(job, b) && Holds(job, b, records) && dimension == DimensionBefore(job, b)
  }

  /** A batch that passes the store's checks moves the run on by one batch. */
  lemma AddedStep(job: Job, b: nat, vs: seq<Vector>, records: map<string, Record>, dimension: Option<nat>,
                  next: map<string, Record>)
    requires Injective(job.id) && Progress(job, b, records, dimension)
    requires Vectors(job, b) == Some(vs)
    requires AddCheck(dimension, Ids(job.id, BatchStart(job, b), |Batch(job, b)|), vs, Dumps(Batch(job, b), job.dumps)) == None
    requires next == Insert(records, Ids(job.id, BatchStart(job, b), |Batch(job, b)|), vs,
                            Dumps(Batch(job, b), job.dumps), |Batch(job, b)|)
    ensures Progress(job, b + 1, next, Some(|vs[0]|))
  {
    assert AllAdded(job, b + 1) by {
      assert BatchFailure(job, b).None?;
    }
    assert Holds(job, b + 1, next) by {
      assert |vs| == |Batch(job, b)|;
      BatchStep(job.id, records, BatchStart(job, b), |Batch(job, b)|, vs, Dumps(Batch(job, b), job.dumps), next);
      HoldsStep(job, b, records, vs, next);
    }
    assert DimensionBefore(job, b + 1) == Some(|vs[0]|) by {
      if b > 0 {
        assert BatchFailure(job, 0).None?;
        assert dimension.Some?;
        assert |vs[0]| == ExpectedDimension(dimension, vs[0]);
      }
    }
  }

  /** The collection holds exactly as many records as documents were visited. */
  lemma HoldsCount(job: Job, b: nat, records: map<string, Record>)
    requires Injective(job.id) && Holds(job, b, records)
    ensures |records| == BatchStart(job, b)
  {
    IdSetCount(job.id, BatchStart(job, b));
    assert |records| == |records.Keys|;
  }

  /** The record under the id of position `k` is the entry of that document in the batch it fell in. */
  lemma HoldsPosition(job: Job, b: nat, records: map<string, Record>, k: nat) returns (c: nat, j: nat)
    requires Holds(job, b, records) && k < BatchStart(job, b)
    ensures c < b && j < |Batch(job, c)| && Batch(job, c)[j] == job.corpus[k]
    ensures job.id(k) in records && records[job.id(k)] == Entry(job, c, j)
  {
    c := BatchOf(job, b, k);
    j := k - BatchStart(job, c);
    BatchEnd(job, c);
    assert Key(job, c, j) == job.id(k);
  }

  /** The document stored under the id of position `k` is the JSON text of the k-th corpus entry. */
  lemma HoldsDocument(job: Job, b: nat, records: map<string, Record>, k: nat)
    requires Holds(job, b, records) && k < BatchStart(job, b)
    ensures job.id(k) in records && records[job.id(k)].document == job.dumps(job.corpus[k])
  {
    var c, j := HoldsPosition(job, b, records, k);
  }

  /** An encoder that embeds every text list, each text into a vector of the same dimension. */
  ghost predicate WellBehaved(encode: seq<Json> -> Option<seq<Vector>>, d: nat) {
    forall texts :: encode(texts).Some? && |encode(texts).value| == |texts|
      && forall k :: 0 <= k < |texts| ==> |encode(texts).value[k]| == d
  }

  /** The store accepts distinct ids with as many vectors, all of the collection's dimension. */
  lemma AddAccepts(dimension: Option<nat>, ids: seq<string>, vs: seq<Vector>, docs: seq<string>, d: nat)
    requires ids != [] && |vs| == |ids| && |docs| == |ids| && Distinct(ids)
    requires forall k :: 0 <= k < |vs| ==> |vs[k]| == d
    requires dimension == None || dimension == Some(d)
    ensures AddCheck(dimension, ids, vs, docs) == None
  {
    assert ExpectedDimension(dimension, vs[0]) == d;
  }

  /** With such an encoder no batch fails, so every run with a positive batch size ends `Indexed`. */
  lemma NoFailure(job: Job, d: nat, c: nat)
    requires Injective(job.id) && job.size > 0 && WellBehaved(job.encode, d)
    requires BatchStart(job, c) < |job.corpus|
    ensures BatchFailure(job, c).None?
  {
    var batch := Batch(job, c);
    var s := BatchStart(job, c);
    var vs := Vectors(job, c).value;
    assert |vs| == |batch| > 0;
    IdsDistinct(job.id, s, |batch|);
    if c > 0 {
      StartMono(job, 0, c);
      assert |Batch(job, 0)| > 0;
    }
    AddAccepts(DimensionBefore(job, c), Ids(job.id, s, |batch|), vs, Dumps(batch, job.dumps), d);
  }

  /**
   * With an encoder that embeds each text on its own, the record of every
   * document depends on the document alone, not on the batch it fell in.
   */
  lemma Pointwise(job: Job, f: Json -> Vector, b: nat, records: map<string, Record>, k: nat)
    requires forall texts :: job.encode(texts) == Some(seq(|texts|, i requires 0 <= i < |texts| => f(texts[i])))
    requires Holds(job, b, records) && k < BatchStart(job, b)
    ensures job.id(k) in records
    ensures records[job.id(k)] == Record(f(TextOf(job.corpus[k])), job.dumps(job.corpus[k]))
  {
    var c, j := HoldsPosition(job, b, records, k);
    assert Texts(Batch(job, c))[j] == TextOf(job.corpus[k]);
  }

  /**
   * So, for such an encoder, the batch size does not matter: two complete
   * runs over the same corpus with different positive batch sizes store
   * the same records.
   */
  lemma BatchSizeInvariance(job: Job, size: nat, f: Json -> Vector, b: nat, b': nat,
                            records: map<string, Record>, records': map<string, Record>)
    requires forall texts :: job.encode(texts) == Some(seq(|texts|, i requires 0 <= i < |texts| => f(texts[i])))
    requires Covers(job, b) && Holds(job, b, records)
    requires Covers(job.(size := size), b') && Holds(job.(size := size), b', records')
    ensures records == records'
  {
    var other := job.(size := size);
    forall key | key in records ensures records[key] == records'[key] {
      var k: nat :| k < |job.corpus| && job.id(k) == key;
      Pointwise(job, f, b, records, k);
      Pointwise(other, f, b', records', k);
    }
  }

  datatype Outcome =
    | Indexed(batches: nat)
    | RangeError
    | Failed(batch: nat, failure: Failure)

  /**
   * One pass of the loop body: slice batch `b`, embed its texts, and add
   * it under the ids of its positions with the documents' JSON text.
   */
  method AddBatch(collection: Collection, corpus: seq<Document>, encode: seq<Json> -> Option<seq<Vector>>,
                  dumps: Document -> string, id: nat -> string, batchSize: nat, b: nat, start: nat)
    returns (failure: Option<Failure>)
    requires Injective(id)
    requires start == BatchStart(Job(corpus, encode, dumps, id, batchSize), b) < |corpus|
    requires Progress(Job(corpus, encode, dumps, id, batchSize), b, collection.records, collection.dimension)
    requires collection.Valid()
    modifies collection
    ensures collection.Valid()
    ensures failure == BatchFailure(Job(corpus, encode, dumps, id, batchSize), b)
    ensures failure.Some? ==> collection.records == old(collection.records)
    ensures failure.Some? ==> collection.dimension == old(collection.dimension)
    ensures failure.None? ==>
      Progress(Job(corpus, encode, dumps, id, batchSize), b + 1, collection.records, collection.dimension)
  {
    ghost var job := Job(corpus, encode, dumps, id, batchSize);
    ghost var before, dimension := collection.records, collection.dimension;
    var end := if start + batchSize < |corpus| then start + batchSize else |corpus|;
    var batch := corpus[start..end];
    assert batch == Batch(job, b);
    var ids := Ids(id, start, |batch|);
    var embeddings := encode(Texts(batch));
    if embeddings.None? {
      return Some(EncodeFailed);
    }
    var documents := Dumps(batch, dumps);
    var error := collection.Add(ids, embeddings.value, documents);
    if error.Some? {
      return Some(AddFailed(error.value));
    }
    AddedStep(job, b, embeddings.value, before, dimension, collection.records);
    failure := None;
  }

  /** The loop over `range(0, n, batch_size)` for a positive batch size, into an empty collection. */
  method AddBatches(collection: Collection, corpus: seq<Document>, encode: seq<Json> -> Option<seq<Vector>>,
                    dumps: Document -> string, id: nat -> string, batchSize: nat)
    returns (outcome: Outcome)
    requires Injective(id) && batchSize > 0
    requires collection.records == map[] && collection.dimension == None
    modifies collection
    ensures collection.Valid()
    ensures !outcome.RangeError?
    ensures outcome.Indexed? ==>
      var job := Job(corpus, encode, dumps, id, batchSize);
      Covers(job, outcome.batches) && AllAdded(job, outcome.batches)
      && Holds(job, outcome.batches, collection.records)
    ensures outcome.Failed? ==>
      var job := Job(corpus, encode, dumps, id, batchSize);
      BatchStart(job, outcome.batch) < |corpus| && AllAdded(job, outcome.batch)
      && BatchFailure(job, outcome.batch) == Some(outcome.failure)
      && Holds(job, outcome.batch, collection.records)
  {
    var n := |corpus|;
    ghost var job := Job(corpus, encode, dumps, id, batchSize);
    var i, b := 0, 0;
    while i < n
      invariant BatchStart(job, b) == if i < n then i else n
      invariant b == 0 || BatchStart(job, b - 1) < n
      invariant Progress(job, b, collection.records, collection.dimension)
      invariant collection.Valid()
      decreases n - i
    {
      var failure := AddBatch(collection, corpus, encode, dumps, id, batchSize, b, i);
      if failure.Some? {
        assert BatchStart(job, b) < n && BatchFailure(job, b) == Some(failure.value);
        return Failed(b, failure.value);
      }
      i, b := i + batchSize, b + 1;
    }
    outcome := Indexed(b);
  }

  /**
   * The run: whatever was there, the collection is recreated empty; a zero
   * batch size then makes `range` raise, a negative one visits no batch.
   * Otherwise batch after batch is embedded and added under the ids
   * `doc_<k>` until one fails or the corpus is exhausted.
   */
  method ProcessCorpus(client: Client, corpus: seq<Document>, encode: seq<Json> -> Option<seq<Vector>>,
                       dumps: Document -> string, batchSize: int := DefaultBatchSize)
    returns (collection: Collection, outcome: Outcome)
    modifies client
    ensures fresh(collection) && collection.name == CollectionName
    ensures client.collections == old(client.collections)[CollectionName := collection]
    ensures collection.Valid()
    ensures batchSize == 0 ==> outcome == RangeError && collection.records == map[]
    ensures batchSize < 0 ==> outcome == Indexed(0) && collection.records == map[]
    ensures batchSize > 0 ==> !outcome.RangeError?
    ensures batchSize > 0 && outcome.Indexed? ==>
      var job := Job(corpus, encode, dumps, DocId, batchSize);
      Covers(job, outcome.batches) && AllAdded(job, outcome.batches)
      && Holds(job, outcome.batches, collection.records)
    ensures batchSize > 0 && outcome.Failed? ==>
      var job := Job(corpus, encode, dumps, DocId, batchSize);
      BatchStart(job, outcome.batch) < |corpus| && AllAdded(job, outcome.batch)
      && BatchFailure(job, outcome.batch) == Some(outcome.failure)
      && Holds(job, outcome.batch, collection.records)
  {
    var existing := client.GetCollection(CollectionName);
    if existing.Some? {
      client.DeleteCollection(CollectionName);
    }
    collection := client.CreateCollection(CollectionName);
    if batchSize == 0 {
      outcome := RangeError;
      return;
    }
    if batchSize < 0 {
      outcome := Indexed(0);
      return;
    }
    DocIdInjective();
    outcome := AddBatches(collection, corpus, encode, dumps, DocId, batchSize);
  }

  /**
   * The call `main` makes, with the default batch size: the collection is
   * recreated and the corpus is indexed in batches of 32 until one fails
   * or the corpus is exhausted.
   */
  method IndexCorpus(client: Client, corpus: seq<Document>, encode: seq<Json> -> Option<seq<Vector>>,
                     dumps: Document -> string)
    returns (collection: Collection, outcome: Outcome)
    modifies client
    ensures fresh(collection) && collection.name == CollectionName && collection.Valid()
    ensures !outcome.RangeError?
    ensures outcome.Indexed? ==>
      var job := Job(corpus, encode, dumps, DocId, DefaultBatchSize);
      Covers(job, outcome.batches) && AllAdded(job, outcome.batches)
      && Holds(job, outcome.batches, collection.records)
    ensures outcome.Failed? ==>
      var job := Job(corpus, encode, dumps, DocId, DefaultBatchSize);
      BatchStart(job, outcome.batch) < |corpus| && AllAdded(job, outcome.batch)
      && BatchFailure(job, outcome.batch) == Some(outcome.failure)
      && Holds(job, outcome.batch, collection.records)
  {
    collection, outcome := ProcessCorpus(client, corpus, encode, dumps);
  }
}
