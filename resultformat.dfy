/**
 * The result normalisers of the image store and the distance-threshold
 * filters of `hybrid_search`. The store answers with parallel lists (ids,
 * metadata dictionaries, caption documents and, for nearest-neighbour
 * queries, distances); every answer row becomes one result record of a
 * fixed shape.
 */
module ResultFormat {
  import opened Results
  import opened Db
  import opened CompositeId
  import opened Ingestion

  /** One entry of a search result: the dictionary with keys `file_name`, `file_path`, `caption` and `distance`. */
  datatype SearchResult = SearchResult(fileName: string, filePath: string, caption: string, distance: Option<real>)

  /** `meta.get(key, "")` */
  function MetaGet(meta: Meta, key: string): string {
    if key in meta then meta[key] else ""
  }

  /** `metadatas[i] if i < len(metadatas) else {}` */
  function MetaAt(metadatas: seq<Meta>, i: nat): Meta {
    if i < |metadatas| then metadatas[i] else map[]
  }

  /** `documents[i] if i < len(documents) else ""` */
  function DocAt(documents: seq<string>, i: nat): string {
    if i < |documents| then documents[i] else ""
  }

  /** `distances[i] if i < len(distances) else None` */
  function DistAt(distances: seq<real>, i: nat): Option<real> {
    if i < |distances| then Some(distances[i]) else None
  }

  /**
   * One answer row as a result record. The name and path come from the
   * metadata unless both are empty; only then is the id split.
   */
  function Normalize(id: string, meta: Meta, caption: string, distance: Option<real>): (r: SearchResult)
    ensures r.caption == caption && r.distance == distance
    ensures MetaGet(meta, "file_name") != "" || MetaGet(meta, "file_path") != "" ==>
      r.fileName == MetaGet(meta, "file_name") && r.filePath == MetaGet(meta, "file_path")
    ensures MetaGet(meta, "file_name") == "" && MetaGet(meta, "file_path") == "" ==>
      (r.fileName, r.filePath) == SplitCompositeId(id)
  {
    var fileName, filePath := MetaGet(meta, "file_name"), MetaGet(meta, "file_path");
    if fileName == "" && filePath == "" then
      var parts := SplitCompositeId(id);
      SearchResult(parts.0, parts.1, caption, distance)
    else
      SearchResult(fileName, filePath, caption, distance)
  }

  /** The records `_format_query_results` builds: one per id, in id order. */
  function QueryRows(ids: seq<string>, metadatas: seq<Meta>, documents: seq<string>, distances: seq<real>): seq<SearchResult> {
    seq(|ids|, i requires 0 <= i < |ids| => Normalize(ids[i], MetaAt(metadatas, i), DocAt(documents, i), DistAt(distances, i)))
  }

  /** The records `_format_get_results` builds: the query records of an answer without distances. */
  function GetRows(ids: seq<string>, metadatas: seq<Meta>, documents: seq<string>): seq<SearchResult> {
    QueryRows(ids, metadatas, documents, [])
  }

  /** `_format_query_results(ids, metadatas, documents, distances)` */
  method FormatQueryResults(ids: seq<string>, metadatas: seq<Meta>, documents: seq<string>, distances: seq<real>)
    returns (results: seq<SearchResult>)
    ensures |results| == |ids|
    ensures forall i :: 0 <= i < |ids| ==>
      results[i] == Normalize(ids[i], MetaAt(metadatas, i), DocAt(documents, i), DistAt(distances, i))
    ensures results == QueryRows(ids, metadatas, documents, distances)
  {
    results := [];
    for i := 0 to |ids|
      invariant |results| == i
      invariant forall j :: 0 <= j < i ==>
        results[j] == Normalize(ids[j], MetaAt(metadatas, j), DocAt(documents, j), DistAt(distances, j))
    {
      var meta := if i < |metadatas| then metadatas[i] else map[];
      var fileName := if "file_name" in meta then meta["file_name"] else "";
      var filePath := if "file_path" in meta then meta["file_path"] else "";
      if fileName == "" && filePath == "" {
        var parts := SplitCompositeId(ids[i]);
        fileName, filePath := parts.0, parts.1;
      }
      var caption := if i < |documents| then documents[i] else "";
      var distance := if i < |distances| then Some(distances[i]) else None;
      results := results + [SearchResult(fileName, filePath, caption, distance)];
    }
  }

  /** `_format_get_results(ids, metadatas, documents)` */
  method FormatGetResults(ids: seq<string>, metadatas: seq<Meta>, documents: seq<string>) returns (results: seq<SearchResult>)
    ensures |results| == |ids|
    ensures forall i :: 0 <= i < |ids| ==> results[i] == Normalize(ids[i], MetaAt(metadatas, i), DocAt(documents, i), None)
    ensures results == GetRows(ids, metadatas, documents)
  {
    results := [];
    for i := 0 to |ids|
      invariant |results| == i
      invariant forall j :: 0 <= j < i ==> results[j] == Normalize(ids[j], MetaAt(metadatas, j), DocAt(documents, j), None)
    {
      var meta := if i < |metadatas| then metadatas[i] else map[];
      var fileName := if "file_name" in meta then meta["file_name"] else "";
      var filePath := if "file_path" in meta then meta["file_path"] else "";
      if fileName == "" && filePath == "" {
        var parts := SplitCompositeId(ids[i]);
        fileName, filePath := parts.0, parts.1;
      }
      var caption := if i < |documents| then documents[i] else "";
      results := results + [SearchResult(fileName, filePath, caption, None)];
    }
  }

  /** Get results never carry a distance. */
  lemma GetRowsHaveNoDistance(ids: seq<string>, metadatas: seq<Meta>, documents: seq<string>)
    ensures forall r :: r in GetRows(ids, metadatas, documents) ==> r.distance == None
  {
  }

  /**
   * Rows written by `_insert_batches` come back as they went in: the metadata
   * holds the name and path (and when both are empty the id splits to two
   * empty strings), the document is the caption.
   */
  lemma IngestedRowsRoundTrip(rows: seq<ImageData>, distances: seq<real>)
    ensures var u := BatchOf(rows);
      var out := QueryRows(u.ids, u.metadatas, u.documents, distances);
      |out| == |rows| &&
      forall i :: 0 <= i < |rows| ==>
        out[i].fileName == rows[i].fileName && out[i].filePath == rows[i].filePath &&
        out[i].caption == rows[i].caption && out[i].distance == DistAt(distances, i)
  {
    var u := BatchOf(rows);
    forall i | 0 <= i < |rows|
      ensures Normalize(u.ids[i], MetaAt(u.metadatas, i), DocAt(u.documents, i), DistAt(distances, i)).fileName == rows[i].fileName
      ensures Normalize(u.ids[i], MetaAt(u.metadatas, i), DocAt(u.documents, i), DistAt(distances, i)).filePath == rows[i].filePath
    {
      var m := MetaOf(rows[i]);
      assert MetaGet(m, "file_name") == rows[i].fileName && MetaGet(m, "file_path") == rows[i].filePath;
      if rows[i].fileName == "" && rows[i].filePath == "" {
        SplitMake("", "");
      }
    }
  }

  /** With the metadata missing, a `|`-free name and its path are still recovered from the id alone. */
  lemma FallbackRecoversKey(fileName: string, filePath: string, caption: string, distance: Option<real>)
    requires Sep !in fileName
    ensures var r := Normalize(MakeCompositeId(fileName, filePath), map[], caption, distance);
      r.fileName == fileName && r.filePath == filePath
  {
    SplitMake(fileName, filePath);
  }

  // The threshold filters of hybrid_search

  /** What a threshold comparison `distance <= t` would raise in Python when the distance is `None`. */
  datatype SearchError = TypeError

  /** Whether a record passes a threshold `t`; a `None` distance passes only when `nullPasses`. */
  predicate Passes(r: SearchResult, nullPasses: bool, t: real) {
    match r.distance
    case None => nullPasses
    case Some(d) => d <= t
  }

  /** The records that pass, in their original order, each as often as it occurs. */
  function Keep(results: seq<SearchResult>, nullPasses: bool, t: real): (kept: seq<SearchResult>)
    ensures |kept| <= |results|
    ensures forall r :: r in kept <==> r in results && Passes(r, nullPasses, t)
    ensures forall r :: multiset(kept)[r] == if Passes(r, nullPasses, t) then multiset(results)[r] else 0
  {
    if |results| == 0 then []
    else
      assert results == [results[0]] + results[1..];
      (if Passes(results[0], nullPasses, t) then [results[0]] else []) + Keep(results[1..], nullPasses, t)
  }

  /** `sub` is `s` with some entries dropped and the rest in order. */
  predicate IsSubsequence(sub: seq<SearchResult>, s: seq<SearchResult>)
    decreases |s|
  {
    if |sub| == 0 then true
    else if |s| == 0 then false
    else (sub[0] == s[0] && IsSubsequence(sub[1..], s[1..])) || IsSubsequence(sub, s[1..])
  }

  /** Filtering keeps the surviving records in their original order. */
  lemma {:induction false} KeepIsSubsequence(results: seq<SearchResult>, nullPasses: bool, t: real)
    ensures IsSubsequence(Keep(results, nullPasses, t), results)
    decreases |results|
  {
    if |results| > 0 {
      var rest := Keep(results[1..], nullPasses, t);
      KeepIsSubsequence(results[1..], nullPasses, t);
      if Passes(results[0], nullPasses, t) {
        assert Keep(results, nullPasses, t) == [results[0]] + rest;
        assert ([results[0]] + rest)[1..] == rest;
      } else {
        assert Keep(results, nullPasses, t) == rest;
      }
    }
  }

  /** When every record passes, nothing is dropped. */
  lemma {:induction false} KeepAll(results: seq<SearchResult>, nullPasses: bool, t: real)
    requires forall i :: 0 <= i < |results| ==> Passes(results[i], nullPasses, t)
    ensures Keep(results, nullPasses, t) == results
    decreases |results|
  {
    if |results| > 0 {
      KeepAll(results[1..], nullPasses, t);
      assert [results[0]] + results[1..] == results;
    }
  }

  /**
   * The weight-1.0 filter `[r for r in results if r.get("distance", 0) <= t]`:
   * every record has a `distance` key, so a `None` distance makes the
   * comparison raise.
   */
  function VectorThreshold(results: seq<SearchResult>, threshold: Option<real>): (r: Result<seq<SearchResult>, SearchError>)
    ensures threshold.None? ==> r == Ok(results)
    ensures threshold.Some? ==> (r.Err? <==> exists i :: 0 <= i < |results| && results[i].distance.None?)
    ensures r.Ok? && threshold.Some? ==> r.value == Keep(results, false, threshold.value)
  {
    match threshold
    case None => Ok(results)
    case Some(t) =>
      if exists i :: 0 <= i < |results| && results[i].distance.None? then Err(TypeError)
      else Ok(Keep(results, false, t))
  }

  /** The filter of the fused branch, which lets a `None` distance through. */
  function HybridThreshold(results: seq<SearchResult>, threshold: Option<real>): (r: seq<SearchResult>)
    ensures threshold.None? ==> r == results
    ensures threshold.Some? ==> forall x :: x in r <==> x in results && (x.distance.None? || x.distance.value <= threshold.value)
    ensures threshold.Some? ==> IsSubsequence(r, results)
    ensures threshold.Some? ==> forall x :: multiset(r)[x] == if Passes(x, true, threshold.value) then multiset(results)[x] else 0
  {
    match threshold
    case None => results
    case Some(t) =>
      KeepIsSubsequence(results, true, t);
      Keep(results, true, t)
  }

  /** The records with every distance set to `None`. */
  function Nulled(results: seq<SearchResult>): seq<SearchResult> {
    seq(|results|, i requires 0 <= i < |results| => results[i].(distance := None))
  }

  /** The weight-0.0 loop `for r in results: r["distance"] = None`. */
  method NullDistances(results: seq<SearchResult>) returns (nulled: seq<SearchResult>)
    ensures |nulled| == |results|
    ensures forall i :: 0 <= i < |results| ==> nulled[i] == results[i].(distance := None)
    ensures nulled == Nulled(results)
  {
    nulled := results;
    for i := 0 to |results|
      invariant |nulled| == |results|
      invariant forall j :: 0 <= j < i ==> nulled[j] == results[j].(distance := None)
      invariant forall j :: i <= j < |results| ==> nulled[j] == results[j]
    {
      nulled := nulled[i := nulled[i].(distance := None)];
    }
  }

  /** Nulling the distances of get results changes nothing: they are already `None`. */
  lemma NullingGetRowsIsIdentity(ids: seq<string>, metadatas: seq<Meta>, documents: seq<string>)
    ensures var rows := GetRows(ids, metadatas, documents);
      forall i :: 0 <= i < |rows| ==> rows[i].(distance := None) == rows[i]
  {
  }
}
