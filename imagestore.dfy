/**
 * The image store object: a table name, a per-instance cache of collection
 * handles, and the search entry points. The vector store behind it is a
 * stub that records every call it receives; what it answers, like the
 * image embedder and the captioner, comes from an oracle.
 */
module ImageStore {
  import opened Results
  import opened Db
  import opened Ingestion
  import opened ResultFormat
  import opened Embeddings

  const DefaultTableName: string := "image_search"
  const DefaultBatchSize: int := 320

  /** A collection handle, as `get_or_create_collection` returns it. */
  datatype Collection = Collection(name: string)

  /** A call the store receives. */
  datatype StoreCall =
    | GetOrCreate(name: string)
    | UpsertCall(collection: string, batch: Upsert)
    | QueryCall(collection: string, embedding: seq<real>, nResults: int)
    | GetCall(collection: string, contains: string, limit: int)
    | HybridCall(collection: string, contains: string, embedding: seq<real>, recall: int, nResults: int)

  /** The parallel lists of a store answer, with the nested query lists already unpacked. */
  datatype Answer = Answer(ids: seq<string>, metadatas: seq<Meta>, documents: seq<string>, distances: seq<real>)

  /**
   * What the code cannot see: `embed_img` (a vector, or the error it
   * raises), the captioner and the store's answer to each call.
   */
  datatype Oracles = Oracles(embed: string -> Result<seq<real>, EmbedError>, caption: string -> string, answer: StoreCall -> Answer)

  /** Why a search raises: `embed_img` raised, or the threshold filter compared a `None` distance. */
  datatype StoreError = EmbedFailed(embedError: EmbedError) | ThresholdFailed(filterError: SearchError)

  /** `table_name or default`: a missing or empty name selects the default. */
  function TableOr(tableName: Option<string>, default: string): string {
    if tableName.Some? && tableName.value != "" then tableName.value else default
  }

  /** The number of `get_or_create_collection` calls for `name` in a call log. */
  function CreateCount(calls: seq<StoreCall>, name: string): nat {
    if |calls| == 0 then 0
    else CreateCount(calls[..|calls| - 1], name) + (if calls[|calls| - 1] == GetOrCreate(name) then 1 else 0)
  }

  lemma {:induction false} CreateCountAppend(a: seq<StoreCall>, b: seq<StoreCall>, name: string)
    ensures CreateCount(a + b, name) == CreateCount(a, name) + CreateCount(b, name)
    decreases |b|
  {
    if |b| == 0 {
      assert a + b == a;
    } else {
      assert (a + b)[..|a + b| - 1] == a + b[..|b| - 1];
      CreateCountAppend(a, b[..|b| - 1], name);
    }
  }

  /** The calls `_get_collection(name)` adds: a creation only on a cache miss. */
  function CreateIfMissing(collections: map<string, Collection>, name: string): seq<StoreCall> {
    if name in collections then [] else [GetOrCreate(name)]
  }

  /** The upsert calls of a batched ingestion into `name`. */
  function UpsertCalls(name: string, upserts: seq<Upsert>): (r: seq<StoreCall>)
    ensures |r| == |upserts| && forall i :: 0 <= i < |r| ==> r[i] == UpsertCall(name, upserts[i])
  {
    if |upserts| == 0 then [] else [UpsertCall(name, upserts[0])] + UpsertCalls(name, upserts[1..])
  }

  lemma {:induction false} UpsertCallsCreateNothing(name: string, upserts: seq<Upsert>, n: string)
    ensures CreateCount(UpsertCalls(name, upserts), n) == 0
    decreases |upserts|
  {
    if |upserts| > 0 {
      var r := UpsertCalls(name, upserts);
      assert r[..|r| - 1] == UpsertCalls(name, upserts[..|upserts| - 1]);
      UpsertCallsCreateNothing(name, upserts[..|upserts| - 1], n);
    }
  }

  // What each search entry point asks the store and returns

  /** The calls of an optional query: none when the code raised before sending it. */
  function Sent(query: Option<StoreCall>): seq<StoreCall> {
    if query.Some? then [query.value] else []
  }

  /** The k-NN query `search` sends, unless `embed_img` raises first. */
  function SearchQuery(name: string, imagePath: string, limit: int, o: Oracles): Option<StoreCall> {
    match o.embed(imagePath)
    case Ok(v) => Some(QueryCall(name, v, limit))
    case Err(_) => None
  }

  function SearchOutcome(name: string, imagePath: string, limit: int, o: Oracles): Result<seq<SearchResult>, EmbedError> {
    match o.embed(imagePath)
    case Err(e) => Err(e)
    case Ok(v) =>
      var a := o.answer(QueryCall(name, v, limit));
      Ok(QueryRows(a.ids, a.metadatas, a.documents, a.distances))
  }

  function TextOutcome(name: string, queryText: string, limit: int, o: Oracles): seq<SearchResult> {
    var a := o.answer(GetCall(name, queryText, limit));
    GetRows(a.ids, a.metadatas, a.documents)
  }

  /** The fused query: the caption as a `$contains` filter and the embedding as a k-NN query, `5 * limit` each, `limit` overall. */
  function FusedCall(name: string, caption: string, embedding: seq<real>, limit: int): StoreCall {
    HybridCall(name, caption, embedding, limit * 5, limit)
  }

  /** The one store query `hybrid_search` sends, if any; the weight only selects which. */
  function HybridQuery(name: string, imagePath: string, limit: int, weight: real, o: Oracles): Option<StoreCall> {
    if weight == 1.0 then SearchQuery(name, imagePath, limit, o)
    else if weight == 0.0 then Some(GetCall(name, o.caption(imagePath), limit))
    else
      match o.embed(imagePath)
      case Ok(v) => Some(FusedCall(name, o.caption(imagePath), v, limit))
      case Err(_) => None
  }

  /** The threshold filter's type error as a search error. */
  function Filtered(r: Result<seq<SearchResult>, SearchError>): Result<seq<SearchResult>, StoreError> {
    match r
    case Ok(rows) => Ok(rows)
    case Err(e) => Err(ThresholdFailed(e))
  }

  /** What `hybrid_search` returns, by branch. */
  function HybridOutcome(name: string, imagePath: string, limit: int, weight: real, threshold: Option<real>, o: Oracles)
    : Result<seq<SearchResult>, StoreError>
  {
    if weight == 1.0 then
      match SearchOutcome(name, imagePath, limit, o)
      case Err(e) => Err(EmbedFailed(e))
      case Ok(all) => Filtered(VectorThreshold(all, threshold))
    else if weight == 0.0 then Ok(Nulled(TextOutcome(name, o.caption(imagePath), limit, o)))
    else
      match o.embed(imagePath)
      case Err(e) => Err(EmbedFailed(e))
      case Ok(v) =>
        var a := o.answer(FusedCall(name, o.caption(imagePath), v, limit));
        Ok(HybridThreshold(QueryRows(a.ids, a.metadatas, a.documents, a.distances), threshold))
  }

  /** Any weight other than 1.0 and 0.0 sends the same query and returns the same results: there is no weighted fusion. */
  lemma WeightOnlySelectsBranch(name: string, imagePath: string, limit: int, w1: real, w2: real, threshold: Option<real>, o: Oracles)
    requires w1 != 1.0 && w1 != 0.0 && w2 != 1.0 && w2 != 0.0
    ensures HybridQuery(name, imagePath, limit, w1, o) == HybridQuery(name, imagePath, limit, w2, o)
    ensures HybridOutcome(name, imagePath, limit, w1, threshold, o) == HybridOutcome(name, imagePath, limit, w2, threshold, o)
  {
  }

  /**
   * When `embed_img` raises, `search` and every branch of `hybrid_search`
   * that embeds raise the same error and send no query; the text branch
   * does not embed and is unaffected.
   */
  lemma EmbedFailureRaises(name: string, imagePath: string, limit: int, weight: real, threshold: Option<real>, o: Oracles)
    requires o.embed(imagePath).Err?
    ensures SearchQuery(name, imagePath, limit, o) == None
    ensures SearchOutcome(name, imagePath, limit, o) == Err(o.embed(imagePath).error)
    ensures weight != 0.0 ==> HybridQuery(name, imagePath, limit, weight, o) == None
    ensures weight != 0.0 ==> HybridOutcome(name, imagePath, limit, weight, threshold, o) == Err(EmbedFailed(o.embed(imagePath).error))
    ensures weight == 0.0 ==> HybridOutcome(name, imagePath, limit, weight, threshold, o).Ok?
  {
  }

  /** The fused branch sends a query exactly when the image embeds; it recalls five times the limit per channel and asks for `limit` results. */
  lemma FusedRecall(name: string, imagePath: string, limit: int, weight: real, o: Oracles)
    requires weight != 1.0 && weight != 0.0
    ensures var q := HybridQuery(name, imagePath, limit, weight, o);
      (q.Some? <==> o.embed(imagePath).Ok?) &&
      (q.Some? ==> (q.value.HybridCall? && q.value.recall == 5 * limit && q.value.nResults == limit &&
                    q.value.contains == o.caption(imagePath) && q.value.embedding == o.embed(imagePath).value))
  {
  }

  /**
   * Weight 1.0: `search`'s error if it raised; otherwise the vector results,
   * unchanged without a threshold, or those within it in their order, or a
   * type error on a missing distance.
   */
  lemma VectorBranch(name: string, imagePath: string, limit: int, threshold: Option<real>, o: Oracles)
    ensures var s := SearchOutcome(name, imagePath, limit, o);
      var r := HybridOutcome(name, imagePath, limit, 1.0, threshold, o);
      (s.Err? ==> r == Err(EmbedFailed(s.error))) &&
      (s.Ok? ==>
        (threshold.None? ==> r == Ok(s.value)) &&
        (r.Err? ==> r.error == ThresholdFailed(TypeError)) &&
        (r.Ok? ==> (IsSubsequence(r.value, s.value) &&
                    (forall x :: x in r.value <==> x in s.value && (threshold.None? || x.distance.value <= threshold.value)) &&
                    forall x :: multiset(r.value)[x] ==
                      if threshold.None? || Passes(x, false, threshold.value) then multiset(s.value)[x] else 0)))
  {
    var s := SearchOutcome(name, imagePath, limit, o);
    if s.Ok? {
      if threshold.Some? {
        KeepIsSubsequence(s.value, false, threshold.value);
      } else {
        IsSubsequenceRefl(s.value);
      }
    }
  }

  /** Weight 0.0: the text results on the image's caption, every distance `None`. */
  lemma TextBranch(name: string, imagePath: string, limit: int, threshold: Option<real>, o: Oracles)
    ensures var text := TextOutcome(name, o.caption(imagePath), limit, o);
      var r := HybridOutcome(name, imagePath, limit, 0.0, threshold, o);
      r.Ok? && |r.value| == |text| &&
      forall i :: 0 <= i < |text| ==> r.value[i] == text[i] && r.value[i].distance == None
  {
  }

  /** Other weights, when the image embeds: the fused results, those with no distance or one within the threshold, in their order. */
  lemma FusedBranch(name: string, imagePath: string, limit: int, weight: real, threshold: Option<real>, o: Oracles)
    requires weight != 1.0 && weight != 0.0
    ensures o.embed(imagePath).Ok? ==>
      var a := o.answer(FusedCall(name, o.caption(imagePath), o.embed(imagePath).value, limit));
      var all := QueryRows(a.ids, a.metadatas, a.documents, a.distances);
      var r := HybridOutcome(name, imagePath, limit, weight, threshold, o);
      r.Ok? && IsSubsequence(r.value, all) &&
      (forall x :: x in r.value <==> x in all && (threshold.None? || x.distance.None? || x.distance.value <= threshold.value)) &&
      forall x :: multiset(r.value)[x] == if threshold.None? || Passes(x, true, threshold.value) then multiset(all)[x] else 0
  {
    if o.embed(imagePath).Ok? {
      var a := o.answer(FusedCall(name, o.caption(imagePath), o.embed(imagePath).value, limit));
      var all := QueryRows(a.ids, a.metadatas, a.documents, a.distances);
      if threshold.Some? {
        KeepIsSubsequence(all, true, threshold.value);
      } else {
        IsSubsequenceRefl(all);
      }
    }
  }

  lemma {:induction false} IsSubsequenceRefl(s: seq<SearchResult>)
    ensures IsSubsequence(s, s)
    decreases |s|
  {
    if |s| > 0 {
      IsSubsequenceRefl(s[1..]);
    }
  }

  lemma UpdateTwice(m: map<string, Collection>, k: string, v: Collection)
    ensures m[k := v][k := v] == m[k := v]
  {
  }

  /** `OBImageStore` */
  class ImageStore {
    const tableName: string
    /** `_collections`: the cached handles, by collection name. */
    var collections: map<string, Collection>
    /** Every call the store has received from this instance, in order. */
    var calls: seq<StoreCall>

    /** Each cached name was created exactly once, and no other name was created. */
    ghost predicate Valid()
      reads this
    {
      (forall n :: n in collections ==> collections[n] == Collection(n)) &&
      (forall n :: CreateCount(calls, n) == if n in collections then 1 else 0)
    }

    constructor(tableName: string := DefaultTableName)
      ensures Valid()
      ensures this.tableName == tableName && collections == map[] && calls == []
    {
      this.tableName := tableName;
      collections := map[];
      calls := [];
    }

    /** `_get_collection(name)` */
    method GetCollection(name: string) returns (c: Collection)
      requires Valid()
      modifies this
      ensures Valid()
      ensures c == Collection(name)
      ensures collections == old(collections)[name := c]
      ensures calls == old(calls) + CreateIfMissing(old(collections), name)
    {
      if name !in collections {
        forall n ensures CreateCount(calls + [GetOrCreate(name)], n) == CreateCount(calls, n) + (if n == name then 1 else 0) {
          CreateCountAppend(calls, [GetOrCreate(name)], n);
          assert [GetOrCreate(name)][..0] == [];
        }
        calls := calls + [GetOrCreate(name)];
        collections := collections[name := Collection(name)];
      } else {
        assert calls + [] == calls;
      }
      c := collections[name];
    }

    /** `_insert_batches(name, rows, batch_size)`, driven to its end; `failed` says the row iterator raised after `rows`. */
    method InsertBatches(name: string, rows: seq<ImageData>, batchSize: int, failed: bool) returns (events: seq<Event>)
      requires Valid()
      modifies this
      ensures Valid()
      ensures events == Trace(rows, batchSize, failed)
      ensures collections == old(collections)[name := Collection(name)]
      ensures calls == old(calls) + CreateIfMissing(old(collections), name) + UpsertCalls(name, Upserts(events))
    {
      var _ := GetCollection(name);
      events := Ingestion.InsertBatches(rows, batchSize, failed);
      var upserts := UpsertCalls(name, Upserts(events));
      forall n ensures CreateCount(calls + upserts, n) == CreateCount(calls, n) {
        CreateCountAppend(calls, upserts, n);
        UpsertCallsCreateNothing(name, Upserts(events), n);
      }
      calls := calls + upserts;
    }

    /** `load_image_dir(dir_path, batch_size, table_name)`; `rows` are the images `load_imgs(dir_path)` yields. */
    method LoadImageDir(rows: seq<ImageData>, failed: bool, batchSize: int := DefaultBatchSize, tableName: Option<string> := None)
      returns (events: seq<Event>)
      requires Valid()
      modifies this
      ensures Valid()
      ensures events == Trace(rows, batchSize, failed)
      ensures collections == old(collections)[TableOr(tableName, this.tableName) := Collection(TableOr(tableName, this.tableName))]
      ensures calls == old(calls) + CreateIfMissing(old(collections), TableOr(tableName, this.tableName)) +
        UpsertCalls(TableOr(tableName, this.tableName), Upserts(events))
    {
      var name := if tableName.Some? && tableName.value != "" then tableName.value else this.tableName;
      assert name == TableOr(tableName, this.tableName);
      UpdateTwice(collections, name, Collection(name));
      var _ := GetCollection(name);
      ghost var afterCreate := calls;
      assert CreateIfMissing(collections, name) == [];
      events := InsertBatches(name, rows, batchSize, failed);
      assert calls == afterCreate + [] + UpsertCalls(name, Upserts(events));
      assert afterCreate + [] == afterCreate;
    }

    /**
     * `search(image_path, limit, table_name)`: the collection is fetched
     * before `embed_img`, so it is created even when the embed raises.
     */
    method Search(imagePath: string, o: Oracles, limit: int := 10, tableName: Option<string> := None)
      returns (r: Result<seq<SearchResult>, EmbedError>)
      requires Valid()
      modifies this
      ensures Valid()
      ensures var name := TableOr(tableName, this.tableName);
        r == SearchOutcome(name, imagePath, limit, o) &&
        collections == old(collections)[name := Collection(name)] &&
        calls == old(calls) + CreateIfMissing(old(collections), name) + Sent(SearchQuery(name, imagePath, limit, o))
    {
      var name := if tableName.Some? && tableName.value != "" then tableName.value else this.tableName;
      var _ := GetCollection(name);
      var embedding := o.embed(imagePath);
      if embedding.Err? {
        assert calls + [] == calls;
        return Err(embedding.error);
      }
      var call := QueryCall(name, embedding.value, limit);
      LogQuery(call);
      var a := o.answer(call);
      var results := FormatQueryResults(a.ids, a.metadatas, a.documents, a.distances);
      r := Ok(results);
    }

    /** `text_search(query_text, limit, table_name)`: the store's `$contains` match on the captions. */
    method TextSearch(queryText: string, o: Oracles, limit: int := 50, tableName: Option<string> := None)
      returns (results: seq<SearchResult>)
      requires Valid()
      modifies this
      ensures Valid()
      ensures var name := TableOr(tableName, this.tableName);
        results == TextOutcome(name, queryText, limit, o) &&
        collections == old(collections)[name := Collection(name)] &&
        calls == old(calls) + CreateIfMissing(old(collections), name) + [GetCall(name, queryText, limit)]
    {
      var name := if tableName.Some? && tableName.value != "" then tableName.value else this.tableName;
      var _ := GetCollection(name);
      var call := GetCall(name, queryText, limit);
      LogQuery(call);
      var a := o.answer(call);
      results := FormatGetResults(a.ids, a.metadatas, a.documents);
    }

    /**
     * `hybrid_search(image_path, limit, vector_weight, distance_threshold)` on
     * the store's own table. The fused branch embeds before it fetches the
     * collection, so an embed that raises there leaves the store untouched.
     */
    method HybridSearch(imagePath: string, o: Oracles, limit: int := 10, vectorWeight: real := 0.7, threshold: Option<real> := None)
      returns (r: Result<seq<SearchResult>, StoreError>)
      requires Valid()
      modifies this
      ensures Valid()
      ensures r == HybridOutcome(tableName, imagePath, limit, vectorWeight, threshold, o)
      ensures vectorWeight != 1.0 && vectorWeight != 0.0 && o.embed(imagePath).Err? ==>
        collections == old(collections) && calls == old(calls)
      ensures vectorWeight == 1.0 || vectorWeight == 0.0 || o.embed(imagePath).Ok? ==>
        collections == old(collections)[tableName := Collection(tableName)] &&
        calls == old(calls) + CreateIfMissing(old(collections), tableName) + Sent(HybridQuery(tableName, imagePath, limit, vectorWeight, o))
    {
      if vectorWeight == 1.0 {
        var results := Search(imagePath, o, limit);
        if results.Err? {
          return Err(EmbedFailed(results.error));
        }
        r := Filtered(VectorThreshold(results.value, threshold));
        return;
      }
      if vectorWeight == 0.0 {
        var caption := o.caption(imagePath);
        var results := TextSearch(caption, o, limit);
        results := NullDistances(results);
        r := Ok(results);
        return;
      }
      var embedding := o.embed(imagePath);
      if embedding.Err? {
        return Err(EmbedFailed(embedding.error));
      }
      var caption := o.caption(imagePath);
      var _ := GetCollection(tableName);
      var call := HybridCall(tableName, caption, embedding.value, limit * 5, limit);
      LogQuery(call);
      var a := o.answer(call);
      var formatted := FormatQueryResults(a.ids, a.metadatas, a.documents, a.distances);
      r := Ok(HybridThreshold(formatted, threshold));
    }

    /** Sends a query (anything but a creation) to the store. */
    method LogQuery(call: StoreCall)
      requires Valid() && !call.GetOrCreate?
      modifies this
      ensures Valid()
      ensures collections == old(collections) && calls == old(calls) + [call]
    {
      forall n ensures CreateCount(calls + [call], n) == CreateCount(calls, n) {
        assert (calls + [call])[..|calls|] == calls;
      }
      calls := calls + [call];
    }
  }

  /** A valid store has created each collection at most once. */
  lemma CreatedAtMostOnce(store: ImageStore, name: string)
    requires store.Valid()
    ensures CreateCount(store.calls, name) <= 1
    ensures CreateCount(store.calls, name) == 1 <==> name in store.collections
  {
  }
}
