/**
 * The batched ingestion generator `_insert_batches` of the image store: the
 * rows it reads are appended to four parallel batch lists, one tick is
 * yielded per row, every full batch is upserted and the batch emptied, and a
 * non-empty remainder is flushed once the rows are exhausted.
 *
 * A run is described by its trace: the ticks it yields and the upserts it
 * sends to the collection, in order.
 */
module Ingestion {
  import opened Db
  import opened CompositeId

  /** The metadata dictionary stored with each row. */
  type Meta = map<string, string>

  function MetaOf(img: ImageData): Meta {
    map["file_name" := img.fileName, "file_path" := img.filePath]
  }

  /** The four lists one `collection.upsert` call sends. */
  datatype Upsert = Upsert(ids: seq<string>, embeddings: seq<seq<real>>, metadatas: seq<Meta>, documents: seq<string>)

  /** What a run does, step by step: a `yield`, or an upsert of one batch. */
  datatype Event = Tick | Upserted(batch: Upsert)

  /** The batch lists after appending one row (src/common/image_store.py:73-79). */
  function AppendRow(u: Upsert, img: ImageData): Upsert {
    Upsert(u.ids + [MakeCompositeId(img.fileName, img.filePath)], u.embeddings + [img.embedding],
           u.metadatas + [MetaOf(img)], u.documents + [img.caption])
  }

  /** The batch lists after appending `rows`, one at a time, to empty lists. */
  function BatchOf(rows: seq<ImageData>): (u: Upsert)
    ensures |u.ids| == |rows| && |u.embeddings| == |rows| && |u.metadatas| == |rows| && |u.documents| == |rows|
    ensures forall i :: 0 <= i < |rows| ==>
      u.ids[i] == MakeCompositeId(rows[i].fileName, rows[i].filePath) && u.embeddings[i] == rows[i].embedding &&
      u.metadatas[i] == MetaOf(rows[i]) && u.documents[i] == rows[i].caption
  {
    if |rows| == 0 then Upsert([], [], [], []) else AppendRow(BatchOf(rows[..|rows| - 1]), rows[|rows| - 1])
  }

  /** The upserts of consecutive runs of rows concatenate to the upsert of all of them. */
  lemma BatchOfAppend(a: seq<ImageData>, b: seq<ImageData>)
    ensures BatchOf(a + b).ids == BatchOf(a).ids + BatchOf(b).ids
  {
    var l, r, s := BatchOf(a).ids, BatchOf(b).ids, BatchOf(a + b).ids;
    assert forall i :: 0 <= i < |s| ==> s[i] == (l + r)[i] by {
      forall i | 0 <= i < |s| ensures s[i] == (l + r)[i] {
        if i < |a| {
          assert (a + b)[i] == a[i];
        } else {
          assert (a + b)[i] == b[i - |a|];
        }
      }
    }
  }

  /** The batches that fill up to `batchSize` rows; none when `batchSize` is not positive, since the length test never holds. */
  function FullBatches(rows: seq<ImageData>, batchSize: int): seq<seq<ImageData>>
    decreases |rows|
  {
    if batchSize <= 0 || |rows| < batchSize then []
    else [rows[..batchSize]] + FullBatches(rows[batchSize..], batchSize)
  }

  /** The rows still in the batch lists when the rows run out. */
  function Remainder(rows: seq<ImageData>, batchSize: int): seq<ImageData>
    decreases |rows|
  {
    if batchSize <= 0 || |rows| < batchSize then rows
    else Remainder(rows[batchSize..], batchSize)
  }

  /** Every batch that `_insert_batches` upserts after a run that reads all rows. */
  function Batches(rows: seq<ImageData>, batchSize: int): seq<seq<ImageData>> {
    var rest := Remainder(rows, batchSize);
    FullBatches(rows, batchSize) + (if |rest| > 0 then [rest] else [])
  }

  function Ticks(n: nat): (r: seq<Event>)
    ensures |r| == n && forall i :: 0 <= i < n ==> r[i] == Tick
  {
    if n == 0 then [] else Ticks(n - 1) + [Tick]
  }

  /** The events of consecutive batches: a tick per row, then that batch's upsert. */
  function Render(batches: seq<seq<ImageData>>): seq<Event> {
    if |batches| == 0 then []
    else Ticks(|batches[0]|) + [Upserted(BatchOf(batches[0]))] + Render(batches[1..])
  }

  /**
   * The trace of a run over `rows`. When `failed`, reading the next row raised
   * after `rows` had been read: the exception leaves the loop, so the
   * remainder is never flushed (src/common/image_store.py:72-102).
   */
  function Trace(rows: seq<ImageData>, batchSize: int, failed: bool): seq<Event> {
    var rest := Remainder(rows, batchSize);
    Render(FullBatches(rows, batchSize)) + Ticks(|rest|) + (if !failed && |rest| > 0 then [Upserted(BatchOf(rest))] else [])
  }

  // Reading the trace

  function TickCount(events: seq<Event>): nat {
    if |events| == 0 then 0 else (if events[0].Tick? then 1 else 0) + TickCount(events[1..])
  }

  function Upserts(events: seq<Event>): seq<Upsert> {
    if |events| == 0 then [] else (if events[0].Upserted? then [events[0].batch] else []) + Upserts(events[1..])
  }

  /** The number of rows the upserts among `events` carry. */
  function UpsertedRows(events: seq<Event>): nat {
    if |events| == 0 then 0 else (if events[0].Upserted? then |events[0].batch.ids| else 0) + UpsertedRows(events[1..])
  }

  function AllIds(us: seq<Upsert>): seq<string> {
    if |us| == 0 then [] else us[0].ids + AllIds(us[1..])
  }

  function BatchesOf(batches: seq<seq<ImageData>>): (us: seq<Upsert>)
    ensures |us| == |batches| && forall i :: 0 <= i < |batches| ==> us[i] == BatchOf(batches[i])
  {
    if |batches| == 0 then [] else [BatchOf(batches[0])] + BatchesOf(batches[1..])
  }

  function Flatten(batches: seq<seq<ImageData>>): seq<ImageData> {
    if |batches| == 0 then [] else batches[0] + Flatten(batches[1..])
  }

  // The batching arithmetic

  /** The full batches and the remainder cut `rows` without loss, reordering or duplication. */
  lemma {:induction false} FlattenFullBatches(rows: seq<ImageData>, batchSize: int)
    ensures Flatten(FullBatches(rows, batchSize)) + Remainder(rows, batchSize) == rows
    decreases |rows|
  {
    if batchSize > 0 && |rows| >= batchSize {
      FlattenFullBatches(rows[batchSize..], batchSize);
      assert rows == rows[..batchSize] + rows[batchSize..];
    }
  }

  lemma {:induction false} FlattenAppend(a: seq<seq<ImageData>>, b: seq<seq<ImageData>>)
    ensures Flatten(a + b) == Flatten(a) + Flatten(b)
    decreases |a|
  {
    if |a| > 0 {
      assert (a + b)[1..] == a[1..] + b;
      FlattenAppend(a[1..], b);
    } else {
      assert a + b == b;
    }
  }

  /** The batches upserted by a complete run hold exactly the rows, in order. */
  lemma FlattenBatches(rows: seq<ImageData>, batchSize: int)
    ensures Flatten(Batches(rows, batchSize)) == rows
  {
    var rest := Remainder(rows, batchSize);
    FlattenFullBatches(rows, batchSize);
    FlattenAppend(FullBatches(rows, batchSize), if |rest| > 0 then [rest] else []);
    if |rest| > 0 {
      assert Flatten([rest]) == rest + Flatten([]);
    }
  }

  /** With a positive batch size, `rows` makes `N div B` full batches of exactly `B` rows and a remainder of `N mod B` rows. */
  lemma {:induction false} BatchSizes(rows: seq<ImageData>, batchSize: int)
    requires batchSize >= 1
    ensures |FullBatches(rows, batchSize)| == |rows| / batchSize
    ensures forall i :: 0 <= i < |FullBatches(rows, batchSize)| ==> |FullBatches(rows, batchSize)[i]| == batchSize
    ensures |Remainder(rows, batchSize)| == |rows| % batchSize
    decreases |rows|
  {
    if |rows| >= batchSize {
      var rest := rows[batchSize..];
      BatchSizes(rest, batchSize);
      DivModStep(|rows|, batchSize);
      var fb := FullBatches(rows, batchSize);
      assert fb == [rows[..batchSize]] + FullBatches(rest, batchSize);
      assert forall i :: 1 <= i < |fb| ==> fb[i] == FullBatches(rest, batchSize)[i - 1];
    }
  }

  lemma DivModStep(n: nat, b: int)
    requires b >= 1 && n >= b
    ensures n / b == (n - b) / b + 1 && n % b == (n - b) % b
  {
    var q, r := (n - b) / b, (n - b) % b;
    assert n == (q + 1) * b + r;
    DivUnique(n, b, q + 1, r);
  }

  /** Euclidean division is determined by the quotient-remainder equation. */
  lemma DivUnique(n: int, b: int, q: int, r: int)
    requires b >= 1 && 0 <= r < b && n == q * b + r
    ensures n / b == q && n % b == r
  {
    var q', r' := n / b, n % b;
    assert (q' - q) * b == r - r';
    if q' > q {
      MulAtLeast(q' - q, b);
    } else if q' < q {
      MulAtLeast(q - q', b);
    }
  }

  lemma MulAtLeast(d: int, b: int)
    requires d >= 1 && b >= 1
    ensures d * b >= b
  {
    assert d * b == (d - 1) * b + b;
  }

  /** Without a positive batch size nothing fills up: every row stays in the one remainder. */
  lemma NoFullBatchesWithoutSize(rows: seq<ImageData>, batchSize: int)
    requires batchSize <= 0
    ensures FullBatches(rows, batchSize) == [] && Remainder(rows, batchSize) == rows
  {
  }

  /** Reading one more row either completes the pending batch or adds the row to it. */
  lemma {:induction false} StepBatches(rows: seq<ImageData>, img: ImageData, batchSize: int)
    ensures var rest := Remainder(rows, batchSize);
      if |rest + [img]| == batchSize then
        FullBatches(rows + [img], batchSize) == FullBatches(rows, batchSize) + [rest + [img]] &&
        Remainder(rows + [img], batchSize) == []
      else
        FullBatches(rows + [img], batchSize) == FullBatches(rows, batchSize) &&
        Remainder(rows + [img], batchSize) == rest + [img]
    decreases |rows|
  {
    if batchSize > 0 && |rows| >= batchSize {
      assert (rows + [img])[batchSize..] == rows[batchSize..] + [img];
      assert (rows + [img])[..batchSize] == rows[..batchSize];
      StepBatches(rows[batchSize..], img, batchSize);
    } else if batchSize > 0 && |rows| + 1 == batchSize {
      assert (rows + [img])[..batchSize] == rows + [img];
      assert (rows + [img])[batchSize..] == [];
    }
  }

  lemma {:induction false} RenderAppend(batches: seq<seq<ImageData>>, b: seq<ImageData>)
    ensures Render(batches + [b]) == Render(batches) + Ticks(|b|) + [Upserted(BatchOf(b))]
    decreases |batches|
  {
    if |batches| == 0 {
      assert [] + [b] == [b];
    } else {
      assert (batches + [b])[1..] == batches[1..] + [b];
      RenderAppend(batches[1..], b);
    }
  }

  lemma TicksSnoc(prefix: seq<Event>, n: nat)
    ensures prefix + Ticks(n) + [Tick] == prefix + Ticks(n + 1)
  {
  }

  /** The events of a run over `rows` so far, and the pending rows, after it reads `img`. */
  lemma ReadRow(rows: seq<ImageData>, img: ImageData, batchSize: int, events: seq<Event>)
    requires events == Render(FullBatches(rows, batchSize)) + Ticks(|Remainder(rows, batchSize)|)
    ensures var pending := Remainder(rows, batchSize) + [img];
      var next := Render(FullBatches(rows + [img], batchSize)) + Ticks(|Remainder(rows + [img], batchSize)|);
      if |pending| == batchSize then
        Remainder(rows + [img], batchSize) == [] && events + [Tick] + [Upserted(BatchOf(pending))] == next
      else
        Remainder(rows + [img], batchSize) == pending && events + [Tick] == next
  {
    var done, pending := FullBatches(rows, batchSize), Remainder(rows, batchSize);
    StepBatches(rows, img, batchSize);
    TicksSnoc(Render(done), |pending|);
    if |pending + [img]| == batchSize {
      RenderAppend(done, pending + [img]);
      assert Render(done + [pending + [img]]) + Ticks(0) == Render(done + [pending + [img]]);
    }
  }

  lemma TakeOneMore(rows: seq<ImageData>, i: nat)
    requires i < |rows|
    ensures rows[..i + 1] == rows[..i] + [rows[i]]
  {
  }

  lemma BatchOfSnoc(rows: seq<ImageData>, img: ImageData)
    ensures BatchOf(rows + [img]) == AppendRow(BatchOf(rows), img)
  {
    assert (rows + [img])[..|rows|] == rows;
  }

  /**
   * `_insert_batches(collection_name, rows, batch_size)` with the collection
   * already in hand; `failed` says the row iterator raised after `rows`.
   * The events returned are the ticks it yields and the upserts it sends.
   */
  method InsertBatches(rows: seq<ImageData>, batchSize: int, failed: bool) returns (events: seq<Event>)
    ensures events == Trace(rows, batchSize, failed)
  {
    var batchIds: seq<string> := [];
    var batchEmbeddings: seq<seq<real>> := [];
    var batchMetadatas: seq<Meta> := [];
    var batchDocuments: seq<string> := [];
    events := [];
    var i := 0;
    while i < |rows|
      invariant 0 <= i <= |rows|
      invariant Upsert(batchIds, batchEmbeddings, batchMetadatas, batchDocuments) == BatchOf(Remainder(rows[..i], batchSize))
      invariant events == Render(FullBatches(rows[..i], batchSize)) + Ticks(|Remainder(rows[..i], batchSize)|)
    {
      var img := rows[i];
      TakeOneMore(rows, i);
      ReadRow(rows[..i], img, batchSize, events);
      BatchOfSnoc(Remainder(rows[..i], batchSize), img);
      batchIds := batchIds + [MakeCompositeId(img.fileName, img.filePath)];
      batchEmbeddings := batchEmbeddings + [img.embedding];
      batchMetadatas := batchMetadatas + [MetaOf(img)];
      batchDocuments := batchDocuments + [img.caption];
      events := events + [Tick];
      ghost var pending := Remainder(rows[..i], batchSize) + [img];
      assert Upsert(batchIds, batchEmbeddings, batchMetadatas, batchDocuments) == BatchOf(pending);
      assert |batchIds| == |pending|;
      if |batchIds| == batchSize {
        events := events + [Upserted(Upsert(batchIds, batchEmbeddings, batchMetadatas, batchDocuments))];
        batchIds, batchEmbeddings, batchMetadatas, batchDocuments := [], [], [], [];
      }
      i := i + 1;
    }
    assert rows[..i] == rows;
    if !failed && |batchIds| > 0 {
      events := events + [Upserted(Upsert(batchIds, batchEmbeddings, batchMetadatas, batchDocuments))];
    }
  }

  // What the trace says

  lemma {:induction false} TickCountAppend(a: seq<Event>, b: seq<Event>)
    ensures TickCount(a + b) == TickCount(a) + TickCount(b)
    ensures Upserts(a + b) == Upserts(a) + Upserts(b)
    ensures UpsertedRows(a + b) == UpsertedRows(a) + UpsertedRows(b)
    decreases |a|
  {
    if |a| == 0 {
      assert a + b == b;
    } else {
      assert (a + b)[1..] == a[1..] + b;
      TickCountAppend(a[1..], b);
    }
  }

  lemma {:induction false} TicksCounts(n: nat)
    ensures TickCount(Ticks(n)) == n && Upserts(Ticks(n)) == [] && UpsertedRows(Ticks(n)) == 0
  {
    if n > 0 {
      TicksCounts(n - 1);
      TickCountAppend(Ticks(n - 1), [Tick]);
    }
  }

  lemma {:induction false} RenderCounts(batches: seq<seq<ImageData>>)
    ensures TickCount(Render(batches)) == |Flatten(batches)|
    ensures UpsertedRows(Render(batches)) == |Flatten(batches)|
    ensures Upserts(Render(batches)) == BatchesOf(batches)
  {
    if |batches| > 0 {
      var b := batches[0];
      RenderCounts(batches[1..]);
      TicksCounts(|b|);
      TickCountAppend(Ticks(|b|), [Upserted(BatchOf(b))]);
      TickCountAppend(Ticks(|b|) + [Upserted(BatchOf(b))], Render(batches[1..]));
    }
  }

  /** A run yields exactly one tick per row it reads, whether or not it fails afterwards. */
  lemma OneTickPerRow(rows: seq<ImageData>, batchSize: int, failed: bool)
    ensures TickCount(Trace(rows, batchSize, failed)) == |rows|
  {
    var rest := Remainder(rows, batchSize);
    var fb := FullBatches(rows, batchSize);
    var flush: seq<Event> := if !failed && |rest| > 0 then [Upserted(BatchOf(rest))] else [];
    RenderCounts(fb);
    TicksCounts(|rest|);
    TickCountAppend(Render(fb), Ticks(|rest|));
    TickCountAppend(Render(fb) + Ticks(|rest|), flush);
    FlattenFullBatches(rows, batchSize);
  }

  /** Before the final flush a run has upserted exactly its full batches. */
  lemma UpsertsBeforeFlush(rows: seq<ImageData>, batchSize: int)
    ensures Upserts(Render(FullBatches(rows, batchSize)) + Ticks(|Remainder(rows, batchSize)|)) == BatchesOf(FullBatches(rows, batchSize))
  {
    var fb := FullBatches(rows, batchSize);
    RenderCounts(fb);
    TicksCounts(|Remainder(rows, batchSize)|);
    TickCountAppend(Render(fb), Ticks(|Remainder(rows, batchSize)|));
  }

  lemma BatchesOfSnoc(batches: seq<seq<ImageData>>, b: seq<ImageData>)
    ensures BatchesOf(batches + [b]) == BatchesOf(batches) + [BatchOf(b)]
  {
  }

  /** A complete run upserts exactly the batches of `rows`; a failed one only the full batches. */
  lemma TraceUpserts(rows: seq<ImageData>, batchSize: int)
    ensures Upserts(Trace(rows, batchSize, false)) == BatchesOf(Batches(rows, batchSize))
    ensures Upserts(Trace(rows, batchSize, true)) == BatchesOf(FullBatches(rows, batchSize))
  {
    var rest := Remainder(rows, batchSize);
    var fb := FullBatches(rows, batchSize);
    var before := Render(fb) + Ticks(|rest|);
    UpsertsBeforeFlush(rows, batchSize);
    assert Trace(rows, batchSize, true) == before + [];
    TickCountAppend(before, []);
    if |rest| > 0 {
      TickCountAppend(before, [Upserted(BatchOf(rest))]);
      assert Upserts([Upserted(BatchOf(rest))]) == [BatchOf(rest)];
      BatchesOfSnoc(fb, rest);
    } else {
      assert Batches(rows, batchSize) == fb;
    }
  }

  /** An empty input upserts nothing. */
  lemma NoRowsNoUpsert(batchSize: int, failed: bool)
    ensures Upserts(Trace([], batchSize, failed)) == []
  {
    TraceUpserts([], batchSize);
  }

  /** With a positive batch size, a complete run makes `N div B` upserts of `B` rows, plus one of `N mod B` rows when that is not zero. */
  lemma UpsertCounts(rows: seq<ImageData>, batchSize: int)
    requires batchSize >= 1
    ensures var us := Upserts(Trace(rows, batchSize, false));
      var full := |rows| / batchSize;
      |us| == full + (if |rows| % batchSize == 0 then 0 else 1) &&
      (forall i :: 0 <= i < full ==> |us[i].ids| == batchSize) &&
      (|rows| % batchSize != 0 ==> |us[full].ids| == |rows| % batchSize)
  {
    TraceUpserts(rows, batchSize);
    BatchSizes(rows, batchSize);
  }

  lemma {:induction false} AllIdsBatches(batches: seq<seq<ImageData>>)
    ensures AllIds(BatchesOf(batches)) == BatchOf(Flatten(batches)).ids
  {
    if |batches| > 0 {
      AllIdsBatches(batches[1..]);
      BatchOfAppend(batches[0], Flatten(batches[1..]));
      assert BatchesOf(batches)[1..] == BatchesOf(batches[1..]);
    }
  }

  /** The ids of all upserts of a complete run are the composite ids of the rows, in input order, none lost or repeated. */
  lemma UpsertedIdsAreRowIds(rows: seq<ImageData>, batchSize: int)
    ensures AllIds(Upserts(Trace(rows, batchSize, false))) == BatchOf(rows).ids
  {
    TraceUpserts(rows, batchSize);
    AllIdsBatches(Batches(rows, batchSize));
    FlattenBatches(rows, batchSize);
  }

  /**
   * Ticks come before the upsert of their row: at every point of a run at
   * least as many ticks as upserted rows have been seen, and with a positive
   * batch size at most `B` more.
   */
  lemma TicksLeadUpserts(rows: seq<ImageData>, batchSize: int, failed: bool, k: nat)
    requires k <= |Trace(rows, batchSize, failed)|
    ensures UpsertedRows(Trace(rows, batchSize, failed)[..k]) <= TickCount(Trace(rows, batchSize, failed)[..k])
    ensures batchSize >= 1 ==> TickCount(Trace(rows, batchSize, failed)[..k]) <= UpsertedRows(Trace(rows, batchSize, failed)[..k]) + batchSize
  {
    var rest := Remainder(rows, batchSize);
    var flushed := !failed && |rest| > 0;
    var bs := Emitted(rows, batchSize, failed);
    var bound: nat := if batchSize >= 1 then batchSize else 0;
    if batchSize >= 1 {
      EmittedBound(rows, batchSize, failed);
    }
    forall j | 0 <= j <= |Render(bs)|
      ensures UpsertedRows(Render(bs)[..j]) <= TickCount(Render(bs)[..j])
      ensures bound > 0 ==> TickCount(Render(bs)[..j]) <= UpsertedRows(Render(bs)[..j]) + bound
    {
      RenderPrefix(bs, bound, j);
    }
    RenderPrefix(bs, bound, |Render(bs)|);
    assert Render(bs)[..|Render(bs)|] == Render(bs);
    TraceRender(rows, batchSize, failed);
    if batchSize >= 1 {
      BatchSizes(rows, batchSize);
    }
    PendingTicks(Render(bs), |rest|, k, bound, flushed);
  }

  /** The batches a run upserts: the full ones, then the remainder when it is flushed. */
  function Emitted(rows: seq<ImageData>, batchSize: int, failed: bool): seq<seq<ImageData>> {
    var rest := Remainder(rows, batchSize);
    FullBatches(rows, batchSize) + (if !failed && |rest| > 0 then [rest] else [])
  }

  /** A trace is the rendering of the emitted batches, followed by the ticks of an unflushed remainder. */
  lemma TraceRender(rows: seq<ImageData>, batchSize: int, failed: bool)
    ensures var rest := Remainder(rows, batchSize);
      Trace(rows, batchSize, failed) ==
        if !failed && |rest| > 0 then Render(Emitted(rows, batchSize, failed))
        else Render(Emitted(rows, batchSize, failed)) + Ticks(|rest|)
  {
    var rest := Remainder(rows, batchSize);
    var fb := FullBatches(rows, batchSize);
    if !failed && |rest| > 0 {
      assert Emitted(rows, batchSize, failed) == fb + [rest];
      RenderAppend(fb, rest);
    } else {
      assert Emitted(rows, batchSize, failed) == fb + [];
      assert fb + [] == fb;
      assert Trace(rows, batchSize, failed) == Render(fb) + Ticks(|rest|) + [];
    }
  }

  /** With a positive batch size no emitted batch is larger than it. */
  lemma EmittedBound(rows: seq<ImageData>, batchSize: int, failed: bool)
    requires batchSize >= 1
    ensures forall i :: 0 <= i < |Emitted(rows, batchSize, failed)| ==> |Emitted(rows, batchSize, failed)[i]| <= batchSize
  {
    var fb := FullBatches(rows, batchSize);
    var bs := Emitted(rows, batchSize, failed);
    BatchSizes(rows, batchSize);
    forall i | 0 <= i < |bs| ensures |bs[i]| <= batchSize {
      if i < |fb| {
        assert bs[i] == fb[i];
      }
    }
  }

  /** Within the events of batches of at most `bound` rows (any size when `bound` is 0), ticks lead upserted rows. */
  lemma {:induction false} RenderPrefix(batches: seq<seq<ImageData>>, bound: nat, k: nat)
    requires k <= |Render(batches)|
    requires bound > 0 ==> forall i :: 0 <= i < |batches| ==> |batches[i]| <= bound
    ensures UpsertedRows(Render(batches)[..k]) <= TickCount(Render(batches)[..k])
    ensures bound > 0 ==> TickCount(Render(batches)[..k]) <= UpsertedRows(Render(batches)[..k]) + bound
    ensures k == |Render(batches)| ==> UpsertedRows(Render(batches)[..k]) == TickCount(Render(batches)[..k])
    decreases |batches|
  {
    if |batches| > 0 {
      var b := batches[0];
      var head := Ticks(|b|) + [Upserted(BatchOf(b))];
      var r := Render(batches);
      assert r == head + Render(batches[1..]);
      TicksCounts(|b|);
      if k <= |b| {
        assert r[..k] == Ticks(k);
        TicksCounts(k);
      } else {
        assert forall i :: 0 <= i < |batches[1..]| ==> batches[1..][i] == batches[i + 1];
        RenderPrefix(batches[1..], bound, k - |head|);
        assert r[..k] == head + Render(batches[1..])[..k - |head|];
        TickCountAppend(head, Render(batches[1..])[..k - |head|]);
        TickCountAppend(Ticks(|b|), [Upserted(BatchOf(b))]);
      }
    } else {
      assert Render(batches)[..k] == [];
    }
  }

  /** Appending pending ticks (at most `bound` of them) keeps ticks ahead of upserted rows by at most `bound`. */
  lemma PendingTicks(done: seq<Event>, pending: nat, k: nat, bound: nat, flushed: bool)
    requires forall j :: 0 <= j <= |done| ==> UpsertedRows(done[..j]) <= TickCount(done[..j])
    requires forall j :: 0 <= j <= |done| ==> bound > 0 ==> TickCount(done[..j]) <= UpsertedRows(done[..j]) + bound
    requires UpsertedRows(done) == TickCount(done)
    requires bound > 0 && !flushed ==> pending < bound
    requires k <= |if flushed then done else done + Ticks(pending)|
    ensures var t := if flushed then done else done + Ticks(pending);
      UpsertedRows(t[..k]) <= TickCount(t[..k]) && (bound > 0 ==> TickCount(t[..k]) <= UpsertedRows(t[..k]) + bound)
  {
    if !flushed && k > |done| {
      var t := done + Ticks(pending);
      assert t[..k] == done + Ticks(k - |done|);
      assert done[..|done|] == done;
      TickCountAppend(done, Ticks(k - |done|));
      TicksCounts(k - |done|);
    } else if !flushed {
      assert (done + Ticks(pending))[..k] == done[..k];
    }
  }
}
