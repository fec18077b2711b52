# image-search, modelled in Dafny

This project models the core of ob-labs/image-search. That repository stores image embeddings in an OceanBase/seekdb vector collection and searches them by image, by caption text or by a hybrid of both. The project models these parts:

- **The image store** (`src/common/image_store.py`):
  - the `file_name|file_path` composite-id codec;
  - the per-instance collection cache;
  - the batched ingestion generator;
  - the two result formatters;
  - the branch rules of `hybrid_search`.

  The vector store, the embedder and the captioner are oracles. The store object records every call it makes to the vector store in a call log, so "created at most once" and "which request was sent" become statements about that log.
- **The scanners and loaders** (`src/common/embeddings.py`, `backend/image_search/embeddings.py`):
  - the root filter (`MACOSX` and a non-printable first character) and the file filter (hidden files, extension allowlist);
  - `scan`, `count`, `load_amount` and `load_imgs` over a directory walk, where the walk is given as a sequence of `(root, files)` entries;
  - the lazy Towhee-then-CLIP state machine of `EmbeddingEngine`.

  The backend loader uses a suffix test instead of `splitext`. A lemma shows that for plain file names it accepts exactly the files the scanner accepts, and that it visits the same paths in the same order.
- **The static mounts of both FastAPI apps** (`src/backend/app.py`, `backend/bootstrap/app.py`): `replace_path` and the rewrite loop of `search_image`. They are one class, because the two apps share this code. `StaticFiles` raises for a directory that does not exist; the number is recorded before the mount, so such a directory stays numbered without a mount.
- **The frontend translation** (`src/frontend/i18n.py`): language selection, the `TODO:` fallback and positional `{}` formatting. `str.format` is modelled for `{}`, `{{` and `}}`. The keys of the table are an enumeration, and `KeyByName` maps each key string to its key. Each language's table is a total `match` over the keys, so the three tables define the same keys by construction. The entries with `{}` fields are written as the concatenation of short pieces, so that their fields can be counted.
- **The logger setup** (`src/common/logger.py`): the configure-once flag and the logger-name rule.

Modules:

| module | what it holds |
|---|---|
| `Results` | `Option` and `Result` |
| `Text` | string helpers (prefix, suffix, substring, ASCII lowering, `rfind`) and decimal rendering of naturals |
| `Paths` | `os.path.join`, `basename` and `dirname` for POSIX paths |
| `StrFormat` | the `str.format` subset |
| `Db` | the `ImageData` record |
| `CompositeId` | the composite-id codec |
| `Ingestion` | `_insert_batches`, as an event trace |
| `ResultFormat` | the formatters and the threshold filters |
| `ImageStore` | the store class |
| `Embeddings` | scanner, engine and `load_imgs` |
| `BackendEmbeddings` | the bootstrap loaders |
| `StaticMounts` | the mount table |
| `I18n`, `I18nFields` | the translation tables and the facts about their placeholders |
| `Logger` | the logger setup |

Ingestion is modelled as a trace of events. There is one `Tick` per yielded row and one `Upserted(batch)` per `collection.upsert`. A `failed` flag says whether the row stream raised after its last row. The `_insert_batches` loop is proved to produce `Trace(rows, batchSize, failed)`, and the batching facts are then proved about `Trace`.

## Model

| member | source | states |
|---|---|---|
| CompositeId.MakeCompositeId | src/common/image_store.py:20-25 | the id is the file name, one `\|`, then the file path, position by position |
| CompositeId.SplitCompositeId | src/common/image_store.py:28-31 | an id without `\|` splits to `(id, "")`; otherwise the first part has no `\|` and the parts rejoined around one `\|` give the id back |
| CompositeId.SplitMake | src/common/image_store.py:20-31 | for a file name without `\|`, splitting a made id returns exactly `(file_name, file_path)`, even when the path contains `\|` |
| CompositeId.MakeSplit | src/common/image_store.py:23-31 | an id that contains `\|` is rebuilt exactly from its split |
| CompositeId.MakeInjective | src/common/image_store.py:23-25 | two keys whose file names lack `\|` get the same id only if they are the same key |
| CompositeId.NameWithSepCollides | src/common/image_store.py:23-31 | a file name containing `\|` breaks injectivity: `("a\|b","c")` and `("a","b\|c")` share an id, and the split returns the second |
| Ingestion.Trace | src/common/image_store.py:60-102 | the events of a run: the ticks and upserts of the full batches, the ticks of the remainder, and its flush unless the stream raised; its meaning is stated by `Ingestion.TraceUpserts`, `OneTickPerRow`, `UpsertCounts` and `TicksLeadUpserts` |
| Ingestion.BatchOf | src/common/image_store.py:72-79 | the four upsert lists have one entry per row and agree index by index: id, embedding, `{file_name, file_path}` metadata, caption |
| Ingestion.InsertBatches | src/common/image_store.py:60-102 | the generator loop emits exactly `Trace(rows, batchSize, failed)`: a tick per row, an upsert whenever the batch reaches `batch_size`, and a final upsert of a non-empty remainder unless the stream raised |
| Ingestion.OneTickPerRow | src/common/image_store.py:72-80 | the trace holds exactly one tick per row, whatever the batch size and whether or not the stream raised |
| Ingestion.TicksLeadUpserts | src/common/image_store.py:72-81 | in every prefix of the trace, the rows upserted never exceed the ticks yielded, so each row's tick precedes its upsert; with `batch_size` ≥ 1, at most `batch_size` ticked rows are ever pending |
| Ingestion.UpsertCounts | src/common/image_store.py:81-102 | with B ≥ 1 and N rows there are `N div B` upserts of exactly B rows, then one of `N mod B` rows only if that is non-zero |
| Ingestion.NoRowsNoUpsert | src/common/image_store.py:95 | no rows means no upsert at all |
| Ingestion.UpsertedIdsAreRowIds | src/common/image_store.py:73-101 | the ids of all upserts, concatenated, are the composite ids of the rows in input order, with nothing lost or duplicated |
| Ingestion.TraceUpserts | src/common/image_store.py:81-101 | the upserts are the batches of the rows; when the stream raises, only the full batches are upserted |
| Ingestion.BatchSizes | src/common/image_store.py:81 | the full batches number `N div B`, each holds exactly B rows, and `N mod B` rows remain |
| Ingestion.FlattenBatches | src/common/image_store.py:72-101 | the batches, concatenated, are the rows in order |
| Ingestion.NoFullBatchesWithoutSize | src/common/image_store.py:81 | with `batch_size` ≤ 0, `len(batch_ids) == batch_size` never holds, so all rows wait for the final flush |
| ResultFormat.Normalize | src/common/image_store.py:304-317 | caption and distance are passed through; the metadata name and path are used unless both are empty, and only then the id is split |
| ResultFormat.FormatQueryResults | src/common/image_store.py:294-319 | one entry per id in id order, each the normalised row, with `""` for a missing document and `None` for a missing distance |
| ResultFormat.FormatGetResults | src/common/image_store.py:321-344 | one entry per id in id order, each the normalised row with distance `None` |
| ResultFormat.GetRowsHaveNoDistance | src/common/image_store.py:341 | no get-result carries a distance |
| ResultFormat.IngestedRowsRoundTrip | src/common/image_store.py:73-79 | formatting what a batch upserted recovers every row's name, path and caption, in order |
| ResultFormat.FallbackRecoversKey | src/common/image_store.py:307-308 | with no metadata, the fallback split of a composite id recovers the key |
| ResultFormat.Keep | src/common/image_store.py:226-228 | the kept rows are exactly the rows that pass, each as many times as it occurs in the input, and there are no more of them than rows |
| ResultFormat.KeepIsSubsequence | src/common/image_store.py:226-228 | filtering keeps the rows in their original order |
| ResultFormat.KeepAll | src/common/image_store.py:226-228 | when every row passes, the filter returns the list unchanged |
| ResultFormat.VectorThreshold | src/common/image_store.py:225-228 | with no threshold the results are unchanged; with one, a `None` distance raises `TypeError`, and otherwise exactly the rows with distance ≤ threshold are kept |
| ResultFormat.HybridThreshold | src/common/image_store.py:276-280 | with no threshold the results are unchanged; with one, the kept rows are a subsequence of the input in its order, and a row stays iff its distance is `None` or ≤ the threshold, as many times as it occurs |
| ResultFormat.NullDistances | src/common/image_store.py:238-239 | every row is kept, in order, with its distance set to `None` |
| ResultFormat.NullingGetRowsIsIdentity | src/common/image_store.py:237-241 | nulling the distances of get-results changes nothing |
| ImageStore.ImageStore.constructor | src/common/image_store.py:42-50 | the table name defaults to `image_search`, and the cache and the call log start empty |
| ImageStore.ImageStore.GetCollection | src/common/image_store.py:52-58 | returns the collection of that name, calls `get_or_create_collection` only when the name is not cached, and caches it |
| ImageStore.ImageStore.InsertBatches | src/common/image_store.py:60-102 | fetches the collection, then sends exactly one upsert call per upsert event of the trace, in order |
| ImageStore.ImageStore.LoadImageDir | src/common/image_store.py:111-131 | uses the given table or the store's own, makes sure the collection exists before inserting, then behaves as `_insert_batches` with the batch size (default 320) |
| ImageStore.ImageStore.Search | src/common/image_store.py:137-164 | fetches (and on a miss creates) the collection first; then, if `embed_img` raises, returns its error with no query sent, and otherwise sends one query with the embedding and `limit` (default 10) and returns the formatted query rows |
| ImageStore.ImageStore.TextSearch | src/common/image_store.py:166-198 | sends one `$contains` get with `limit` (default 50) and returns the formatted get rows |
| ImageStore.ImageStore.HybridSearch | src/common/image_store.py:200-288 | returns `HybridOutcome` for the weight and threshold; in the fused branch an embed that raises leaves the cache and the call log unchanged, since it comes before `_get_collection`; otherwise the collection is fetched and exactly the query of that branch is logged, if one was sent |
| ImageStore.CreatedAtMostOnce | src/common/image_store.py:52-58 | in any reachable store, `get_or_create_collection` was called at most once per name, and once exactly for the cached names |
| ImageStore.VectorBranch | src/common/image_store.py:222-230 | weight 1.0 raises what `search` raises; otherwise it returns the vector-search results, unchanged with no threshold, else filtered to distance ≤ threshold in order, each passing row as often as it was returned, with `TypeError` the only error of the filter |
| ImageStore.TextBranch | src/common/image_store.py:232-241 | weight 0.0 returns the text-search results on the image's caption, each with distance `None` |
| ImageStore.FusedBranch | src/common/image_store.py:243-288 | any other weight, when the image embeds, returns the fused query's rows in order, keeping a row iff its distance is `None` or ≤ the threshold, as often as the query returned it |
| ImageStore.FusedRecall | src/common/image_store.py:246-266 | the fused query is sent iff the image embeds; it uses the caption and the embedding, recalls `5 × limit` per channel and returns `limit` |
| ImageStore.WeightOnlySelectsBranch | src/common/image_store.py:222-288 | any two weights other than 1.0 and 0.0 send the same query and give the same result, so the weight has no further effect |
| ImageStore.EmbedFailureRaises | src/common/image_store.py:146-251 | when `embed_img` raises, `search` and the weight-1.0 and fused branches raise the same error and send no query; the weight-0.0 branch does not embed and succeeds |
| Embeddings.IsValidDirectory | src/common/embeddings.py:273-279 | `_is_valid_directory`; what it accepts is stated by `Embeddings.ValidDirectoryIff` and `Embeddings.LaterNonAsciiAccepted` |
| Embeddings.ValidDirectoryIff | src/common/embeddings.py:273-279 | a root is scanned iff `MACOSX` occurs nowhere in it and its first character (if any) is printable ASCII |
| Embeddings.LaterNonAsciiAccepted | src/common/embeddings.py:33 | the pattern anchors only at the start: `/img/été` is scanned and `été/img` is not |
| Embeddings.SplitExt | src/common/embeddings.py:285 | `splitext` splits a path into a stem and an extension that rejoin to it; the extension is empty or one `.` followed by no `.` or `/` |
| Embeddings.IsValidImageFile | src/common/embeddings.py:281-286 | `_is_valid_image_file`: not hidden, lowered `splitext` extension in the allowlist; `Embeddings.ExtOfPlainName` and `BackendEmbeddings.SuffixTestMatchesExtension` state what that extension is |
| Embeddings.ExtOfPlainName | src/common/embeddings.py:281-286 | for a plain, non-hidden file name, the extension is empty when it has no `.`, and is otherwise everything from the last `.` |
| Embeddings.Scan | src/common/embeddings.py:258-271 | the paths yielded are exactly `ScanPaths`: for each accepted root in walk order, the joined path of each accepted file |
| Embeddings.ScanFiles | src/common/embeddings.py:269-271 | the inner loop yields exactly `AcceptedIn`: the joined path of each accepted file of the root, in order |
| Embeddings.ScanMembership | src/common/embeddings.py:258-271 | a path is yielded iff it is the join of an accepted file under an accepted root of the walk |
| Embeddings.ScanAppend | src/common/embeddings.py:265 | scanning two walks one after the other yields the two scans concatenated |
| Embeddings.SkippedRootYieldsNothing | src/common/embeddings.py:266-267 | a rejected root adds nothing to the scan |
| Embeddings.Count | src/common/embeddings.py:252-256 | the count equals the number of paths `scan` yields |
| Embeddings.LoadAmount | src/common/embeddings.py:392-402 | `load_amount` counts the scan with the default extensions |
| Embeddings.ScannedPathEndsInFileName | src/common/embeddings.py:271 | the basename of a scanned path is the file name it was joined from |
| Embeddings.EmbeddingEngine.constructor | src/common/embeddings.py:56-67 | an engine starts with nothing loaded and Towhee not yet tried |
| Embeddings.EmbeddingEngine.Embed | src/common/embeddings.py:73-128 | returns the result and leaves the state that `EmbedStep` gives: the Towhee vector if Towhee is available, has a pipe and yields one (a missing pipe, a `None` or a raise in `_embed_with_towhee` all fall through), else the CLIP path |
| Embeddings.EmbeddingEngine.IsTowheeAvailable | src/common/embeddings.py:97-101 | initialises Towhee only when availability is still unknown, then reports it |
| Embeddings.EmbeddingEngine.InitTowhee | src/common/embeddings.py:103-111 | a raise marks Towhee unavailable; otherwise it is available, with the pipe that was built |
| Embeddings.EmbeddingEngine.EnsureClipLoaded | src/common/embeddings.py:134-144 | a loaded model is kept; otherwise the model is loaded once and then the processor, and a load that cannot complete raises |
| Embeddings.EmbeddingEngine.EmbedWithClip | src/common/embeddings.py:146-166 | reads the image first, then loads CLIP, and raises if either half is missing |
| Embeddings.EmbedStep | src/common/embeddings.py:73-91 | `embed` on the engine's fields; `Embeddings.TowheePreferred`, `FallsBackToClip`, `UnreadableImageRaises` and `EmbedStepConsistent` state what it does |
| Embeddings.ClipStep | src/common/embeddings.py:146-166 | `_embed_with_clip` on the engine's fields: read the image, load the model and processor once; `Embeddings.HalfLoadedClipStaysBroken` and `UnreadableImageRaises` state its error cases |
| Embeddings.EmbedStepConsistent | src/common/embeddings.py:97-144 | after any embed, availability is known and never returns to unknown; Towhee is initialised at most once and the CLIP model loaded at most once |
| Embeddings.FreshIsConsistent | src/common/embeddings.py:63-67 | a new engine's fields are in a reachable combination |
| Embeddings.TowheePreferred | src/common/embeddings.py:86-89 | when Towhee is available and yields a vector, that vector is returned and nothing else changes |
| Embeddings.FallsBackToClip | src/common/embeddings.py:86-91 | when Towhee is unavailable or yields nothing, `embed` is the CLIP path |
| Embeddings.UnreadableImageRaises | src/common/embeddings.py:154-158 | on the CLIP path, an unreadable image raises `ValueError` before any model is loaded |
| Embeddings.HalfLoadedClipStaysBroken | src/common/embeddings.py:134-158 | a model loaded without its processor is never reloaded, so every later CLIP embed raises `RuntimeError` |
| Embeddings.LoadFromShape | src/common/embeddings.py:405-426 | `load_imgs` yields at most one record per scanned path, in order, all of them unless an embed raised; each record's file name is the basename of its path, its caption is the captioner's, and its embedding is the vector `engine.embed` returned for that path in the engine state left by the paths before it |
| Embeddings.LoadFromEmbeddings | src/common/embeddings.py:418-425 | record `i` carries the vector the engine returned for path `i`, after embedding paths `0..i-1` in turn; a stop means the next path's embed raised; the final engine state is the one after every path embedded, the failing one included |
| Embeddings.LoadImgs | src/common/embeddings.py:405-426 | the generator loop over the scan yields `LoadFrom` of the scanned paths and leaves the engine in the state `LoadFrom` gives |
| BackendEmbeddings.LoadAmount | backend/image_search/embeddings.py:40-60 | `total` grows by one per accepted file under an accepted root, and is what it returns |
| BackendEmbeddings.LoadImgs | backend/image_search/embeddings.py:63-89 | the same filters give exactly as many records as `load_amount` counts; each is named by its file and located at the joined path, in walk order |
| BackendEmbeddings.IsImageName | backend/image_search/embeddings.py:55-58 | the backend filter: not hidden, and the case-folded name ends with `.jpg`, `.jpeg` or `.png`; `BackendEmbeddings.SuffixTestMatchesExtension` proves it agrees with the scanner's filter |
| BackendEmbeddings.SuffixTestMatchesExtension | backend/image_search/embeddings.py:37-58 | for a plain file name, the non-hidden plus lowered-suffix test accepts exactly the files the scanner's `splitext` test accepts |
| BackendEmbeddings.BackendScansLikeScanner | backend/image_search/embeddings.py:67-83 | over the same walk, the backend loader visits exactly the paths the scanner yields, in the same order |
| StaticMounts.PrefixInjective | src/backend/app.py:64-71 | different numbers give different mount routes and different URL prefixes |
| StaticMounts.MountTable.constructor | src/backend/app.py:45 | the table of mounted directories starts empty |
| StaticMounts.MountTable.ReplacePath | src/backend/app.py:55-71 | a known directory changes nothing and gives its prefix `/images/<n>/`; a new one gets number `len(image_dirs) + 1` first, then one mount at `/images/<n>` named `static_<n>` if the directory exists, and otherwise no mount and `DirectoryMissing` (`RuntimeError`); existing entries are kept |
| StaticMounts.MountTable.RewritePaths | src/backend/app.py:103-106 | every result keeps all fields but `file_path`, which becomes the URL prefix of its directory plus its basename; a missing new directory stops the loop at that result, with the earlier ones rewritten and the rest untouched; numbers and mounts already made are kept; the directories numbered are exactly the new parent directories of the results visited, in order of first appearance, each once, mounted iff they exist, so the one at the stop stays unmounted and nothing else changes |
| StaticMounts.NewDirsFresh | src/backend/app.py:55-71 | the directories a run of the loop numbers are distinct and none was numbered before it |
| StaticMounts.NumbersAreOneToN | backend/bootstrap/app.py:56-57 | the numbers of n mounted directories lie in 1..n, are distinct, and use every value in 1..n |
| StaticMounts.DistinctDirectoriesDistinctPrefixes | backend/bootstrap/app.py:56-65 | two different mounted directories are served under different prefixes |
| StaticMounts.MountsMatchNumbers | src/backend/app.py:62-68 | every mount serves a numbered directory at its number, and a numbered directory has a mount iff it existed when first seen: a numbering whose mount raised is never mounted later |
| I18n.SelectLanguage | src/frontend/i18n.py:140-143 | the language is `UI_LANG` when that is `en`, `zh` or `ja`, and `zh` otherwise |
| I18n.Lookup | src/frontend/i18n.py:151-152 | `tr[lang].get(key, "TODO: " + key)`; `I18n.LookupKnownKey` and `TranslateMissingKey` state both cases |
| I18n.LookupKnownKey | src/frontend/i18n.py:151-152 | a key of the table is looked up in the selected language's table |
| I18n.Translate | src/frontend/i18n.py:146-152 | `t(key, *args)`: formats only when args are given; `I18n.TranslateKnownKey`, `TranslateMissingKey` and `I18nFields.TranslateWithArgs` state its results |
| I18n.TranslateKnownKey | src/frontend/i18n.py:146-152 | without args, a key of the table translates to its entry in the selected language, braces and all |
| I18n.TranslateMissingKey | src/frontend/i18n.py:152 | a missing key without args translates to `"TODO: " + key` |
| I18nFields.FieldCountsAgree | src/frontend/i18n.py:36-132 | each of `image_base_not_exist`, `images_loading_progress`, `image_no` and `table_not_exist` is a `{}` template with the same number of fields in every language: two for the progress message, one for the others |
| I18nFields.LookupFields | src/frontend/i18n.py:151 | in every language, the string `t` looks up for one of those keys is a template with that key's number of fields |
| I18nFields.TranslateWithArgs | src/frontend/i18n.py:146-151 | with args, `t` on one of those keys succeeds in every language iff there are at least as many args as fields, and otherwise raises `IndexError` |
| I18nFields.ProgressMessage | src/frontend/i18n.py:38-151 | in English, `images_loading_progress` with `3` and `10` gives `Loading images... (Finished 3 / 10)` |
| StrFormat.FormatTemplateSucceeds | src/frontend/i18n.py:151 | a `{}` template formats without error iff there are at least as many args as fields; otherwise it raises `IndexError` |
| StrFormat.FormatPlainText | src/frontend/i18n.py:151 | text without braces is returned unchanged whatever the args |
| StrFormat.FormatFills | src/frontend/i18n.py:151 | a template cut into text and `{}` pieces formats to the text with the args filled in, in order |
| Logger.LoggerName | src/common/logger.py:49-60 | the name `get_logger` resolves to; `Logger.LoggerNameUnderBase`, `LoggerNameIdempotent` and `PrefixTestIsPlain` state the rule |
| Logger.LoggerNameUnderBase | src/common/logger.py:53-60 | every resolved name starts with `image-search`; a non-empty name is kept iff it already starts with it, and otherwise becomes `image-search.` + name |
| Logger.LoggerNameIdempotent | src/common/logger.py:57-60 | resolving a resolved name changes nothing |
| Logger.PrefixTestIsPlain | src/common/logger.py:53-60 | `image-searchX` is kept, `api` becomes `image-search.api`, and `""` gives the base logger |
| Logger.Registry.ConfigureBaseLogger | src/common/logger.py:24-46 | the first call sets the base logger to INFO, stops its propagation and attaches the console and file handlers; later calls change nothing |
| Logger.Registry.GetLogger | src/common/logger.py:49-65 | configures the base logger, so it has exactly its two handlers; an empty or missing name returns the base logger; any other name resolves as above and that logger is set to INFO with `propagate = True` |
| Paths.JoinBasename | backend/image_search/embeddings.py:83-87 | the basename of a root joined with a plain file name is that file name |
| Paths.JoinDirname | src/backend/app.py:104-105 | the directory of a root (without a trailing `/`) joined with a plain file name is that root |

## Left out

- I/O is not modelled:
  - the directory walk is an input sequence of `(root, files)` entries;
  - `cv2.imread` is a `readable` oracle;
  - the vector-store client, Towhee, CLIP and the OpenAI captioner are oracles;
  - the log file path and the console are not modelled.
- ML inference, and the floating-point L2 normalisation of embeddings: embeddings are opaque `seq<real>` values returned by oracles.
- `caption_img` and `embed_text` are not modelled. Captions come from an oracle function.
- The vector store itself (upsert, query, get, `$contains`, RRF ranking) is not modelled. The store object only records the calls it makes, and an oracle answers them.
- `hybrid_search` results are taken as already unpacked from the nested lists that `results.get(..., [[]])[0]` returns.
- `os.path.abspath` is taken as the identity: roots and result paths are assumed absolute and normalised.
- `str.lower` and `str.casefold` lower ASCII letters only.
- `str.format`: only `{}`, `{{` and `}}` are modelled. Named and indexed fields and format specs become a format error in the model. No table entry uses them.
- Generator laziness is not modelled. `load_image_dir` and `_insert_batches` are modelled as running to completion or to the raise. When `failed` is set, the stream raised after its last row, and no other exception point is modelled.
- tqdm, `warnings.warn` and all log messages are not modelled.
- In the store, `embed_img` is an oracle from a path to a vector or the error it raises. The default engine behind it is modelled in `Embeddings`, but its state is not carried between the store's calls.
- `Embeddings.Backends`: whether Towhee or CLIP loads, and what each yields for a path, is fixed per call. Transient failures that vary between calls with the same arguments are not modelled.
- `BackendEmbeddings.LoadImgs`: the module-level Towhee pipeline of the bootstrap backend is a total embedding function, so its import-time failure and per-image errors are not modelled.
- `I18nFields.FieldCountsAgree`: stated for the four keys whose entries carry `{}` fields. The other entries are not proved free of braces, so `t` with args on them is not covered; `I18nFields.TranslateWithArgs` has the same restriction.
- `ResultFormat.NullDistances` and the formatters return new sequences. The source mutates the result dicts in place and appends to a list; aliasing of those dicts is not modelled.
- The bootstrap app's `image_search.image_store` module is not part of this model. Its results are taken to have the same shape as `src/common`'s.
- `StaticMounts.MountTable.RewritePaths`: results are `SearchResult` values in an array. A search result's `file_path` is a string, and `abspath` is the identity.
- The Streamlit UIs, archive extraction, `src/common/db.py` beyond the `ImageData` record, and CLI and connection glue are not part of the core modelled here.
- Concurrency: the code has no threads or locks, so none is modelled.
