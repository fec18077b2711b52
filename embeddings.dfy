/**
 * The image scanner, the image loaders built on it, and the lazy
 * initialisation and fallback logic of the embedding engine.
 *
 * A directory walk is given as the sequence of `(root, files)` pairs that
 * `os.walk` would produce, in its order. What the models compute, whether an
 * image file can be read and what the captioner answers come from oracles.
 */
module Embeddings {
  import opened Results
  import opened Text
  import opened Paths
  import opened Db

  const SupportedImageExtensions: set<string> := {".jpg", ".jpeg", ".png"}
  const DefaultClipModel: string := "openai/clip-vit-base-patch16"

  // The scanner's filters

  /** `_is_valid_directory(path)`: no `MACOSX` anywhere, and `[^ -~]` does not match at the start (`re.match` anchors there only). */
  predicate IsValidDirectory(path: string) {
    !Contains(path, "MACOSX") && !(|path| > 0 && !IsPrintableAscii(path[0]))
  }

  /** A root is scanned exactly when `MACOSX` occurs at no index and its first character, if any, is printable ASCII. */
  lemma ValidDirectoryIff(path: string)
    ensures IsValidDirectory(path) <==>
      (forall i :: !OccursAt(path, "MACOSX", i)) && (|path| == 0 || IsPrintableAscii(path[0]))
  {
    ContainsIffOccurs(path, "MACOSX");
  }

  /** A string without the first character of `sub` does not contain `sub`. */
  lemma {:induction false} MissingFirstCharNotContained(s: string, sub: string)
    requires |sub| > 0 && sub[0] !in s
    ensures !Contains(s, sub)
    decreases |s|
  {
    if |s| > 0 {
      assert s[1..][..] == s[1..];
      assert forall c :: c in s[1..] ==> c in s;
      MissingFirstCharNotContained(s[1..], sub);
    }
  }

  /** Only the first character is checked: a later non-ASCII character does not skip the root. */
  lemma LaterNonAsciiAccepted()
    ensures IsValidDirectory("/img/été")
    ensures !IsValidDirectory("été/img")
  {
    var p := "/img/été";
    assert 'M' !in p;
    MissingFirstCharNotContained(p, "MACOSX");
  }

  /** `posixpath.splitext(p)`: the extension is the text from the last `.` of the last component, unless only dots precede it there. */
  function SplitExt(p: string): (r: (string, string))
    ensures r.0 + r.1 == p
    ensures r.1 == "" || (r.1[0] == '.' && '.' !in r.1[1..] && '/' !in r.1)
  {
    var sepIndex: int := match LastIndexOf(p, '/') case None => -1 case Some(i) => i;
    match LastIndexOf(p, '.')
    case None => (p, "")
    case Some(dot) =>
      if dot > sepIndex && exists k :: sepIndex + 1 <= k < dot && p[k] != '.' then
        assert p[..dot] + p[dot..] == p;
        (p[..dot], p[dot..])
      else (p, "")
  }

  function Ext(p: string): string {
    SplitExt(p).1
  }

  /** `_is_valid_image_file(filename)`: not hidden, and the lowered extension is one of `extensions`. */
  predicate IsValidImageFile(fileName: string, extensions: set<string>) {
    !StartsWith(fileName, ".") && Lower(Ext(fileName)) in extensions
  }

  /** For a plain file name that is not hidden, the extension is the text from its last `.`, or empty. */
  lemma ExtOfPlainName(name: string)
    requires '/' !in name && !StartsWith(name, ".")
    ensures '.' !in name ==> Ext(name) == ""
    ensures '.' in name ==> Ext(name) == name[LastIndexOf(name, '.').value..]
  {
    if '.' in name {
      var dot := LastIndexOf(name, '.').value;
      assert name[..1] == [name[0]];
      assert dot > 0;
      assert 0 <= 0 < dot && name[0] != '.';
    }
  }

  // Scanning a walk

  /** One `(root, dirs, files)` triple of `os.walk`; the sub-directories only matter through the later triples. */
  datatype WalkEntry = WalkEntry(root: string, files: seq<string>)

  /** The joined paths of the accepted files among `files`, in order. */
  function AcceptedIn(root: string, files: seq<string>, extensions: set<string>): seq<string> {
    if |files| == 0 then []
    else
      var last := files[|files| - 1];
      AcceptedIn(root, files[..|files| - 1], extensions) + (if IsValidImageFile(last, extensions) then [Join(root, last)] else [])
  }

  /** What one walk entry contributes to a scan: nothing when its root is skipped. */
  function EntryPaths(e: WalkEntry, extensions: set<string>): seq<string> {
    if IsValidDirectory(e.root) then AcceptedIn(e.root, e.files, extensions) else []
  }

  /** The paths `scan()` yields, in walk order (absolute paths are taken as already normalised). */
  function ScanPaths(walk: seq<WalkEntry>, extensions: set<string>): seq<string> {
    if |walk| == 0 then [] else ScanPaths(walk[..|walk| - 1], extensions) + EntryPaths(walk[|walk| - 1], extensions)
  }

  /** A path among the accepted ones comes from an accepted file. */
  lemma {:induction false} AcceptedInSource(root: string, files: seq<string>, extensions: set<string>, p: string)
    returns (j: nat)
    requires p in AcceptedIn(root, files, extensions)
    ensures j < |files| && IsValidImageFile(files[j], extensions) && p == Join(root, files[j])
    decreases |files|
  {
    var init, last := files[..|files| - 1], files[|files| - 1];
    if p in AcceptedIn(root, init, extensions) {
      j := AcceptedInSource(root, init, extensions, p);
      assert files[j] == init[j];
    } else {
      j := |files| - 1;
    }
  }

  /** Every accepted file contributes its joined path. */
  lemma {:induction false} AcceptedInComplete(root: string, files: seq<string>, extensions: set<string>, j: nat)
    requires j < |files| && IsValidImageFile(files[j], extensions)
    ensures Join(root, files[j]) in AcceptedIn(root, files, extensions)
    decreases |files|
  {
    var init := files[..|files| - 1];
    if j < |init| {
      assert init[j] == files[j];
      AcceptedInComplete(root, init, extensions, j);
    }
  }

  /** A scanned path comes from an accepted file under an accepted root. */
  lemma {:induction false} ScanSource(walk: seq<WalkEntry>, extensions: set<string>, p: string) returns (i: nat, j: nat)
    requires p in ScanPaths(walk, extensions)
    ensures i < |walk| && j < |walk[i].files| && IsValidDirectory(walk[i].root) &&
      IsValidImageFile(walk[i].files[j], extensions) && p == Join(walk[i].root, walk[i].files[j])
    decreases |walk|
  {
    var init, e := walk[..|walk| - 1], walk[|walk| - 1];
    if p in ScanPaths(init, extensions) {
      i, j := ScanSource(init, extensions, p);
      assert walk[i] == init[i];
    } else {
      i := |walk| - 1;
      j := AcceptedInSource(e.root, e.files, extensions, p);
    }
  }

  /** Every accepted file under an accepted root is scanned. */
  lemma {:induction false} ScanComplete(walk: seq<WalkEntry>, extensions: set<string>, i: nat, j: nat)
    requires i < |walk| && j < |walk[i].files| && IsValidDirectory(walk[i].root) && IsValidImageFile(walk[i].files[j], extensions)
    ensures Join(walk[i].root, walk[i].files[j]) in ScanPaths(walk, extensions)
    decreases |walk|
  {
    var init := walk[..|walk| - 1];
    if i < |init| {
      assert init[i] == walk[i];
      ScanComplete(init, extensions, i, j);
    } else {
      AcceptedInComplete(walk[i].root, walk[i].files, extensions, j);
    }
  }

  /** A path is scanned exactly when it joins an accepted file to the root of an accepted walk entry. */
  lemma ScanMembership(walk: seq<WalkEntry>, extensions: set<string>, p: string)
    ensures p in ScanPaths(walk, extensions) <==>
      exists i, j :: 0 <= i < |walk| && 0 <= j < |walk[i].files| && IsValidDirectory(walk[i].root) &&
        IsValidImageFile(walk[i].files[j], extensions) && p == Join(walk[i].root, walk[i].files[j])
  {
    if p in ScanPaths(walk, extensions) {
      var i, j := ScanSource(walk, extensions, p);
    }
    if exists i, j :: 0 <= i < |walk| && 0 <= j < |walk[i].files| && IsValidDirectory(walk[i].root) &&
        IsValidImageFile(walk[i].files[j], extensions) && p == Join(walk[i].root, walk[i].files[j]) {
      var i, j :| 0 <= i < |walk| && 0 <= j < |walk[i].files| && IsValidDirectory(walk[i].root) &&
        IsValidImageFile(walk[i].files[j], extensions) && p == Join(walk[i].root, walk[i].files[j]);
      ScanComplete(walk, extensions, i, j);
    }
  }

  /** Dropping the last entry of `a + b`, for a non-empty `b`, drops the last entry of `b`. */
  lemma DropLastOfConcat(a: seq<WalkEntry>, b: seq<WalkEntry>)
    requires |b| > 0
    ensures (a + b)[..|a + b| - 1] == a + b[..|b| - 1] && (a + b)[|a + b| - 1] == b[|b| - 1]
  {
  }

  /** Scanning two stretches of a walk yields the first stretch's paths, then the second's. */
  lemma {:induction false} ScanAppend(a: seq<WalkEntry>, b: seq<WalkEntry>, extensions: set<string>)
    ensures ScanPaths(a + b, extensions) == ScanPaths(a, extensions) + ScanPaths(b, extensions)
    decreases |b|
  {
    if |b| == 0 {
      assert a + b == a;
    } else {
      var init, e := b[..|b| - 1], b[|b| - 1];
      DropLastOfConcat(a, b);
      ScanAppend(a, init, extensions);
      calc {
        ScanPaths(a + b, extensions);
        ScanPaths(a + init, extensions) + EntryPaths(e, extensions);
        (ScanPaths(a, extensions) + ScanPaths(init, extensions)) + EntryPaths(e, extensions);
        ScanPaths(a, extensions) + (ScanPaths(init, extensions) + EntryPaths(e, extensions));
      }
    }
  }

  /** A skipped root contributes nothing, whatever its files. */
  lemma SkippedRootYieldsNothing(walk: seq<WalkEntry>, e: WalkEntry, extensions: set<string>)
    requires !IsValidDirectory(e.root)
    ensures ScanPaths(walk + [e], extensions) == ScanPaths(walk, extensions)
  {
    assert (walk + [e])[..|walk|] == walk;
    assert ScanPaths(walk + [e], extensions) == ScanPaths(walk, extensions) + [];
  }

  /** Reading walk entry `i` adds its accepted paths, or nothing when its root is skipped. */
  lemma ScanStep(walk: seq<WalkEntry>, i: nat, extensions: set<string>)
    requires i < |walk|
    ensures IsValidDirectory(walk[i].root) ==>
      ScanPaths(walk[..i + 1], extensions) == ScanPaths(walk[..i], extensions) + AcceptedIn(walk[i].root, walk[i].files, extensions)
    ensures !IsValidDirectory(walk[i].root) ==> ScanPaths(walk[..i + 1], extensions) == ScanPaths(walk[..i], extensions)
  {
    assert walk[..i + 1][..i] == walk[..i];
    assert ScanPaths(walk[..i], extensions) + [] == ScanPaths(walk[..i], extensions);
  }

  /** Reading file `j` adds its joined path when it is accepted. */
  lemma AcceptedStep(root: string, files: seq<string>, j: nat, extensions: set<string>)
    requires j < |files|
    ensures AcceptedIn(root, files[..j + 1], extensions) ==
      AcceptedIn(root, files[..j], extensions) + (if IsValidImageFile(files[j], extensions) then [Join(root, files[j])] else [])
  {
    assert files[..j + 1][..j] == files[..j];
  }

  /** `ImageScanner(directory, extensions).scan()` over the walk of `directory`. */
  method Scan(walk: seq<WalkEntry>, extensions: set<string>) returns (paths: seq<string>)
    ensures paths == ScanPaths(walk, extensions)
  {
    paths := [];
    for i := 0 to |walk|
      invariant paths == ScanPaths(walk[..i], extensions)
    {
      ScanStep(walk, i, extensions);
      var e := walk[i];
      if !IsValidDirectory(e.root) {
        continue;
      }
      var found := ScanFiles(e.root, e.files, extensions);
      paths := paths + found;
    }
    assert walk[..|walk|] == walk;
  }

  /** The inner loop of `scan()` over the files of an accepted root. */
  method ScanFiles(root: string, files: seq<string>, extensions: set<string>) returns (found: seq<string>)
    ensures found == AcceptedIn(root, files, extensions)
  {
    found := [];
    for j := 0 to |files|
      invariant found == AcceptedIn(root, files[..j], extensions)
    {
      AcceptedStep(root, files, j, extensions);
      if IsValidImageFile(files[j], extensions) {
        found := found + [Join(root, files[j])];
      } else {
        assert found + [] == found;
      }
    }
    assert files[..|files|] == files;
  }

  /** `ImageScanner(directory, extensions).count()`: one for every path `scan()` yields. */
  method Count(walk: seq<WalkEntry>, extensions: set<string>) returns (total: nat)
    ensures total == |ScanPaths(walk, extensions)|
  {
    var paths := Scan(walk, extensions);
    total := 0;
    for k := 0 to |paths|
      invariant total == k
    {
      total := total + 1;
    }
  }

  /** `load_amount(dir_path)` */
  method LoadAmount(walk: seq<WalkEntry>) returns (total: nat)
    ensures total == |ScanPaths(walk, SupportedImageExtensions)|
  {
    total := Count(walk, SupportedImageExtensions);
  }

  /** The scanned path of a plain file name ends in that name. */
  lemma ScannedPathEndsInFileName(root: string, name: string)
    requires '/' !in name
    ensures Basename(Join(root, name)) == name
  {
    JoinBasename(root, name);
  }

  // The embedding engine

  /** Why `embed` raises: an unreadable image (`ValueError`), a model that fails to load, or a half-loaded CLIP (`RuntimeError`). */
  datatype EmbedError = ImageUnreadable | ModelLoadFailed | ClipNotLoaded

  /**
   * What the engine cannot see: whether building the Towhee pipeline raises
   * or yields no pipeline, what the pipeline yields for a path (`None` also
   * for a raise), whether an image can be read, whether the CLIP model and
   * processor load, and the CLIP embedding of a path.
   */
  datatype Backends = Backends(
    towheeInitRaises: bool, towheePipeIsNone: bool, towheeEmbed: string -> Option<seq<real>>,
    readable: string -> bool, clipModelLoads: bool, clipProcessorLoads: bool, clipEmbed: string -> seq<real>)

  /**
   * The engine's fields, with two counters: how often Towhee initialisation
   * was attempted and how often a CLIP model was loaded.
   */
  datatype EngineState = EngineState(
    towheeAvailable: Option<bool>, hasPipe: bool, hasModel: bool, hasProcessor: bool,
    towheeInits: nat, modelLoads: nat)

  const FreshEngine: EngineState := EngineState(None, false, false, false, 0, 0)

  /** `_init_towhee()`: on a raise the pipe is left as it was. */
  function AfterInitTowhee(s: EngineState, b: Backends): EngineState {
    if b.towheeInitRaises then s.(towheeAvailable := Some(false), towheeInits := s.towheeInits + 1)
    else s.(towheeAvailable := Some(true), hasPipe := !b.towheePipeIsNone, towheeInits := s.towheeInits + 1)
  }

  /** The state after `_is_towhee_available()`. */
  function AfterAvailabilityCheck(s: EngineState, b: Backends): EngineState {
    if s.towheeAvailable.None? then AfterInitTowhee(s, b) else s
  }

  /** `_embed_with_towhee(path)` */
  function TowheeResult(s: EngineState, path: string, b: Backends): Option<seq<real>> {
    if s.hasPipe then b.towheeEmbed(path) else None
  }

  /** `_embed_with_clip(path)`: the image is read first, then the model loaded if it is not yet. */
  function ClipStep(s: EngineState, path: string, b: Backends): (Result<seq<real>, EmbedError>, EngineState) {
    if !b.readable(path) then (Err(ImageUnreadable), s)
    else if s.hasModel then (if s.hasProcessor then Ok(b.clipEmbed(path)) else Err(ClipNotLoaded), s)
    else if !b.clipModelLoads then (Err(ModelLoadFailed), s)
    else
      var loaded := s.(hasModel := true, modelLoads := s.modelLoads + 1);
      if b.clipProcessorLoads then (Ok(b.clipEmbed(path)), loaded.(hasProcessor := true))
      else (Err(ModelLoadFailed), loaded)
  }

  /** `embed(path)`: the Towhee vector when there is one, CLIP otherwise. */
  function EmbedStep(s: EngineState, path: string, b: Backends): (Result<seq<real>, EmbedError>, EngineState) {
    var checked := AfterAvailabilityCheck(s, b);
    if checked.towheeAvailable == Some(true) && TowheeResult(checked, path, b).Some? then
      (Ok(TowheeResult(checked, path, b).value), checked)
    else ClipStep(checked, path, b)
  }

  /** The engine's fields stay in their reachable combinations. */
  predicate Consistent(s: EngineState) {
    (s.towheeAvailable.None? <==> s.towheeInits == 0) && s.towheeInits <= 1 &&
    (s.hasModel <==> s.modelLoads == 1) && s.modelLoads <= 1 &&
    (s.hasPipe ==> s.towheeAvailable == Some(true)) && (s.hasProcessor ==> s.hasModel)
  }

  lemma FreshIsConsistent()
    ensures Consistent(FreshEngine)
  {
  }

  /**
   * Every call keeps the engine consistent: Towhee initialisation is tried
   * at most once, its availability never returns to unknown, and the CLIP
   * model is loaded at most once.
   */
  lemma EmbedStepConsistent(s: EngineState, path: string, b: Backends)
    requires Consistent(s)
    ensures var s' := EmbedStep(s, path, b).1;
      Consistent(s') && s'.towheeAvailable.Some? &&
      (s.towheeAvailable.Some? ==> s'.towheeAvailable == s.towheeAvailable && s'.towheeInits == s.towheeInits) &&
      (s.hasModel ==> s'.modelLoads == s.modelLoads)
  {
  }

  /** With a ready pipeline that answers, the Towhee vector is returned and nothing else happens. */
  lemma TowheePreferred(s: EngineState, path: string, b: Backends, v: seq<real>)
    requires s.towheeAvailable == Some(true) && s.hasPipe && b.towheeEmbed(path) == Some(v)
    ensures EmbedStep(s, path, b) == (Ok(v), s)
  {
  }

  /** When Towhee is unavailable or yields nothing (also when it raised), the result is CLIP's. */
  lemma FallsBackToClip(s: EngineState, path: string, b: Backends)
    requires var c := AfterAvailabilityCheck(s, b); c.towheeAvailable != Some(true) || TowheeResult(c, path, b).None?
    ensures EmbedStep(s, path, b) == ClipStep(AfterAvailabilityCheck(s, b), path, b)
  {
  }

  /** An unreadable image raises before any CLIP loading, in whatever state. */
  lemma UnreadableImageRaises(s: EngineState, path: string, b: Backends)
    requires !b.readable(path)
    requires var c := AfterAvailabilityCheck(s, b); c.towheeAvailable != Some(true) || TowheeResult(c, path, b).None?
    ensures EmbedStep(s, path, b) == (Err(ImageUnreadable), AfterAvailabilityCheck(s, b))
  {
  }

  /** Once the model loaded but the processor did not, every later CLIP call raises without retrying the load. */
  lemma HalfLoadedClipStaysBroken(s: EngineState, path: string, b: Backends)
    requires s.hasModel && !s.hasProcessor && b.readable(path)
    ensures ClipStep(s, path, b) == (Err(ClipNotLoaded), s)
  {
  }

  /** `EmbeddingEngine`: models are initialised lazily on the first `embed`. */
  class EmbeddingEngine {
    const clipModelName: string
    var towheeAvailable: Option<bool>
    var hasTowheePipe: bool
    var hasClipModel: bool
    var hasClipProcessor: bool
    ghost var towheeInits: nat
    ghost var modelLoads: nat

    ghost function State(): EngineState
      reads this
    {
      EngineState(towheeAvailable, hasTowheePipe, hasClipModel, hasClipProcessor, towheeInits, modelLoads)
    }

    constructor(clipModelName: string := DefaultClipModel)
      ensures this.clipModelName == clipModelName && State() == FreshEngine
    {
      this.clipModelName := clipModelName;
      towheeAvailable := None;
      hasTowheePipe := false;
      hasClipModel := false;
      hasClipProcessor := false;
      towheeInits := 0;
      modelLoads := 0;
    }

    /** `embed(image_path)`, with `_embed_with_towhee`: no pipe, a `None` result or a raise all give `None`. */
    method Embed(path: string, b: Backends) returns (r: Result<seq<real>, EmbedError>)
      modifies this
      ensures (r, State()) == EmbedStep(old(State()), path, b)
    {
      var available := IsTowheeAvailable(b);
      if available {
        var e := if hasTowheePipe then b.towheeEmbed(path) else None;
        if e.Some? {
          return Ok(e.value);
        }
      }
      r := EmbedWithClip(path, b);
    }

    /** `_is_towhee_available()` */
    method IsTowheeAvailable(b: Backends) returns (available: bool)
      modifies this
      ensures State() == AfterAvailabilityCheck(old(State()), b)
      ensures available == (towheeAvailable == Some(true))
    {
      if towheeAvailable.None? {
        InitTowhee(b);
      }
      available := towheeAvailable == Some(true);
    }

    /** `_init_towhee()` */
    method InitTowhee(b: Backends)
      modifies this
      ensures State() == AfterInitTowhee(old(State()), b)
    {
      towheeInits := towheeInits + 1;
      if b.towheeInitRaises {
        towheeAvailable := Some(false);
        return;
      }
      hasTowheePipe := !b.towheePipeIsNone;
      towheeAvailable := Some(true);
    }

    /** `_ensure_clip_loaded()`; `Some` is the error it raises. */
    method EnsureClipLoaded(b: Backends) returns (raised: Option<EmbedError>)
      modifies this
      ensures old(hasClipModel) ==> raised == None && State() == old(State())
      ensures !old(hasClipModel) && !b.clipModelLoads ==> raised == Some(ModelLoadFailed) && State() == old(State())
      ensures !old(hasClipModel) && b.clipModelLoads ==>
        State() == old(State()).(hasModel := true, modelLoads := old(modelLoads) + 1, hasProcessor := b.clipProcessorLoads || old(hasClipProcessor)) &&
        raised == (if b.clipProcessorLoads then None else Some(ModelLoadFailed))
    {
      if hasClipModel {
        return None;
      }
      if !b.clipModelLoads {
        return Some(ModelLoadFailed);
      }
      hasClipModel := true;
      modelLoads := modelLoads + 1;
      if !b.clipProcessorLoads {
        return Some(ModelLoadFailed);
      }
      hasClipProcessor := true;
      raised := None;
    }

    /** `_embed_with_clip(image_path)` */
    method EmbedWithClip(path: string, b: Backends) returns (r: Result<seq<real>, EmbedError>)
      modifies this
      ensures (r, State()) == ClipStep(old(State()), path, b)
    {
      if !b.readable(path) {
        return Err(ImageUnreadable);
      }
      var raised := EnsureClipLoaded(b);
      if raised.Some? {
        return Err(raised.value);
      }
      if !hasClipProcessor || !hasClipModel {
        return Err(ClipNotLoaded);
      }
      r := Ok(b.clipEmbed(path));
    }
  }

  // load_imgs

  /** The record `load_imgs` yields for a scanned path. */
  function Record(path: string, caption: string, embedding: seq<real>): ImageData {
    ImageData(Basename(path), path, caption, embedding)
  }

  /**
   * The records `load_imgs` yields for `paths` from engine state `s`, whether
   * an `embed` raised (which ends the generator), and the engine's final state.
   */
  function LoadFrom(s: EngineState, paths: seq<string>, b: Backends, caption: string -> string): (seq<ImageData>, bool, EngineState)
    decreases |paths|
  {
    if |paths| == 0 then ([], false, s)
    else
      var (r, s1) := EmbedStep(s, paths[0], b);
      if r.Err? then ([], true, s1)
      else
        var (rest, failed, s2) := LoadFrom(s1, paths[1..], b, caption);
        ([Record(paths[0], caption(paths[0]), r.value)] + rest, failed, s2)
  }

  /** The engine state after embedding the first `i` paths, from state `s`. */
  function StateAfter(s: EngineState, paths: seq<string>, b: Backends, i: nat): EngineState
    requires i <= |paths|
    decreases i
  {
    if i == 0 then s else StateAfter(EmbedStep(s, paths[0], b).1, paths[1..], b, i - 1)
  }

  /**
   * Each record carries the vector `embed` returned for its path, in the
   * engine state the earlier paths left; when the generator stopped, the
   * `embed` of the next path raised; the engine ends in the state after the
   * last `embed` call.
   */
  lemma {:induction false} LoadFromEmbeddings(s: EngineState, paths: seq<string>, b: Backends, caption: string -> string)
    ensures var (rows, failed, s') := LoadFrom(s, paths, b, caption);
      |rows| <= |paths| && (failed ==> |rows| < |paths|) &&
      (forall i :: 0 <= i < |rows| ==> EmbedStep(StateAfter(s, paths, b, i), paths[i], b).0 == Ok(rows[i].embedding)) &&
      (failed ==> EmbedStep(StateAfter(s, paths, b, |rows|), paths[|rows|], b).0.Err?) &&
      s' == StateAfter(s, paths, b, if failed then |rows| + 1 else |rows|)
    decreases |paths|
  {
    if |paths| > 0 {
      var (r, s1) := EmbedStep(s, paths[0], b);
      if r.Ok? {
        LoadFromEmbeddings(s1, paths[1..], b, caption);
        var t := LoadFrom(s1, paths[1..], b, caption);
        var rows := [Record(paths[0], caption(paths[0]), r.value)] + t.0;
        assert LoadFrom(s, paths, b, caption) == (rows, t.1, t.2);
        EmbeddedCons(s, paths, b, rows[0], t.0);
        if t.1 {
          StateAfterCons(s, paths, b, |rows|);
          StateAfterCons(s, paths, b, |rows| + 1);
          assert paths[1..][|t.0|] == paths[|rows|];
          assert t.2 == StateAfter(s1, paths[1..], b, |t.0| + 1);
        } else {
          StateAfterCons(s, paths, b, |rows|);
          assert t.2 == StateAfter(s1, paths[1..], b, |t.0|);
        }
      } else {
        StateAfterCons(s, paths, b, 1);
      }
    }
  }

  /** A first record carrying the first `embed` result, followed by records embedded from the next state, are embedded from `s`. */
  lemma EmbeddedCons(s: EngineState, paths: seq<string>, b: Backends, first: ImageData, rest: seq<ImageData>)
    requires |rest| < |paths| && EmbedStep(s, paths[0], b).0 == Ok(first.embedding)
    requires forall i :: 0 <= i < |rest| ==>
      EmbedStep(StateAfter(EmbedStep(s, paths[0], b).1, paths[1..], b, i), paths[1..][i], b).0 == Ok(rest[i].embedding)
    ensures var rows := [first] + rest;
      forall i :: 0 <= i < |rows| ==> EmbedStep(StateAfter(s, paths, b, i), paths[i], b).0 == Ok(rows[i].embedding)
  {
    var rows := [first] + rest;
    forall i | 1 <= i < |rows|
      ensures EmbedStep(StateAfter(s, paths, b, i), paths[i], b).0 == Ok(rows[i].embedding)
    {
      StateAfterCons(s, paths, b, i);
      assert rows[i] == rest[i - 1] && paths[1..][i - 1] == paths[i];
    }
  }

  /** Embedding `i > 0` paths is embedding the first, then the other `i - 1`. */
  lemma StateAfterCons(s: EngineState, paths: seq<string>, b: Backends, i: nat)
    requires 0 < i <= |paths|
    ensures StateAfter(s, paths, b, i) == StateAfter(EmbedStep(s, paths[0], b).1, paths[1..], b, i - 1)
  {
  }

  /** `r` is the record for `path`: located at it, named by its base name, with its caption. */
  predicate RecordFor(r: ImageData, path: string, caption: string -> string) {
    r.filePath == path && r.fileName == Basename(path) && r.caption == caption(path)
  }

  /**
   * One record per path, in order, each named by the base name of its path
   * and carrying the vector `embed` returned for it; all of them unless an
   * `embed` raised, and the engine stays consistent.
   */
  lemma {:induction false} LoadFromShape(s: EngineState, paths: seq<string>, b: Backends, caption: string -> string)
    requires Consistent(s)
    ensures var (rows, failed, s') := LoadFrom(s, paths, b, caption);
      |rows| <= |paths| && (!failed <==> |rows| == |paths|) && Consistent(s') &&
      (forall i :: 0 <= i < |rows| ==> RecordFor(rows[i], paths[i], caption)) &&
      forall i :: 0 <= i < |rows| ==> EmbedStep(StateAfter(s, paths, b, i), paths[i], b).0 == Ok(rows[i].embedding)
    decreases |paths|
  {
    LoadFromEmbeddings(s, paths, b, caption);
    if |paths| > 0 {
      EmbedStepConsistent(s, paths[0], b);
      var (r, s1) := EmbedStep(s, paths[0], b);
      if r.Ok? {
        LoadFromShape(s1, paths[1..], b, caption);
        var t := LoadFrom(s1, paths[1..], b, caption);
        assert LoadFrom(s, paths, b, caption) == ([Record(paths[0], caption(paths[0]), r.value)] + t.0, t.1, t.2);
        RecordsForCons(paths, caption, r.value, t.0);
      }
    }
  }

  /** The record of `paths[0]` followed by records for `paths[1..]` are records for `paths`. */
  lemma RecordsForCons(paths: seq<string>, caption: string -> string, v: seq<real>, rest: seq<ImageData>)
    requires 0 < |paths| && |rest| < |paths|
    requires forall i :: 0 <= i < |rest| ==> RecordFor(rest[i], paths[1..][i], caption)
    ensures var rows := [Record(paths[0], caption(paths[0]), v)] + rest;
      forall i :: 0 <= i < |rows| ==> RecordFor(rows[i], paths[i], caption)
  {
    var rows := [Record(paths[0], caption(paths[0]), v)] + rest;
    forall i | 1 <= i < |rows| ensures RecordFor(rows[i], paths[i], caption) {
      assert rows[i] == rest[i - 1] && paths[1..][i - 1] == paths[i];
    }
  }

  /** One step of `LoadFrom` at position `i` of `paths`. */
  lemma LoadFromStep(s: EngineState, paths: seq<string>, i: nat, b: Backends, caption: string -> string,
                      r: Result<seq<real>, EmbedError>, s1: EngineState)
    requires i < |paths| && (r, s1) == EmbedStep(s, paths[i], b)
    ensures LoadFrom(s, paths[i..], b, caption) ==
        if r.Err? then ([], true, s1)
        else
          var t := LoadFrom(s1, paths[i + 1..], b, caption);
          ([Record(paths[i], caption(paths[i]), r.value)] + t.0, t.1, t.2)
  {
    assert paths[i..][0] == paths[i] && paths[i..][1..] == paths[i + 1..];
  }

  /** `load_imgs(dir_path)` over the walk of `dir_path`, with the default engine; `failed` says an `embed` raised. */
  method LoadImgs(engine: EmbeddingEngine, walk: seq<WalkEntry>, b: Backends, caption: string -> string)
    returns (rows: seq<ImageData>, failed: bool)
    modifies engine
    ensures (rows, failed, engine.State()) == LoadFrom(old(engine.State()), ScanPaths(walk, SupportedImageExtensions), b, caption)
  {
    var paths := Scan(walk, SupportedImageExtensions);
    ghost var target := LoadFrom(engine.State(), paths, b, caption);
    assert paths[0..] == paths;
    assert [] + target.0 == target.0;
    rows, failed := [], false;
    for i := 0 to |paths|
      invariant var t := LoadFrom(engine.State(), paths[i..], b, caption); target == (rows + t.0, t.1, t.2)
    {
      ghost var si := engine.State();
      var r := engine.Embed(paths[i], b);
      LoadFromStep(si, paths, i, b, caption, r, engine.State());
      if r.Err? {
        assert rows + [] == rows;
        return rows, true;
      }
      ghost var t := LoadFrom(engine.State(), paths[i + 1..], b, caption);
      assert rows + ([Record(paths[i], caption(paths[i]), r.value)] + t.0) == rows + [Record(paths[i], caption(paths[i]), r.value)] + t.0;
      rows := rows + [Record(paths[i], caption(paths[i]), r.value)];
      assert target == (rows + t.0, t.1, t.2);
    }
    assert paths[|paths|..] == [];
    assert rows + [] == rows;
  }
}
