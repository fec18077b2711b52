/**
 * The loaders of the bootstrap backend: the same directory filters as the
 * scanner, written as two loops over the walk, one counting and one
 * yielding records. Here a file is accepted by a suffix test on its
 * case-folded name rather than by its extension.
 */
module BackendEmbeddings {
  import opened Results
  import opened Text
  import opened Paths
  import opened Embeddings

  const SupportedImgTypes: seq<string> := [".jpg", ".jpeg", ".png"]

  /** The record the backend loader yields; it carries no caption. */
  datatype BackendImage = BackendImage(fileName: string, filePath: string, embedding: seq<real>)

  /** Not hidden, and the case-folded name ends with one of the supported types. */
  predicate IsImageName(f: string) {
    !StartsWith(f, ".") && exists k :: 0 <= k < |SupportedImgTypes| && EndsWith(Lower(f), SupportedImgTypes[k])
  }

  /** The `(root, file)` pairs both loops accept, in walk order. */
  function AcceptedFiles(walk: seq<WalkEntry>): seq<(string, string)> {
    if |walk| == 0 then []
    else
      var e := walk[|walk| - 1];
      AcceptedFiles(walk[..|walk| - 1]) + (if IsValidDirectory(e.root) then AcceptedNames(e.root, e.files) else [])
  }

  function AcceptedNames(root: string, files: seq<string>): seq<(string, string)> {
    if |files| == 0 then []
    else
      var f := files[|files| - 1];
      AcceptedNames(root, files[..|files| - 1]) + (if IsImageName(f) then [(root, f)] else [])
  }

  /** Reading one more walk entry adds the names it accepts, or nothing when its root is skipped. */
  lemma FilesStep(walk: seq<WalkEntry>, i: nat)
    requires i < |walk|
    ensures IsValidDirectory(walk[i].root) ==>
      AcceptedFiles(walk[..i + 1]) == AcceptedFiles(walk[..i]) + AcceptedNames(walk[i].root, walk[i].files)
    ensures !IsValidDirectory(walk[i].root) ==> AcceptedFiles(walk[..i + 1]) == AcceptedFiles(walk[..i])
  {
    assert walk[..i + 1][..i] == walk[..i];
    assert AcceptedFiles(walk[..i]) + [] == AcceptedFiles(walk[..i]);
  }

  /** Reading one more file name adds its pair exactly when the name is accepted. */
  lemma NamesStep(root: string, files: seq<string>, j: nat)
    requires j < |files|
    ensures IsImageName(files[j]) ==> AcceptedNames(root, files[..j + 1]) == AcceptedNames(root, files[..j]) + [(root, files[j])]
    ensures !IsImageName(files[j]) ==> AcceptedNames(root, files[..j + 1]) == AcceptedNames(root, files[..j])
  {
    assert files[..j + 1][..j] == files[..j];
    assert AcceptedNames(root, files[..j]) + [] == AcceptedNames(root, files[..j]);
  }

  /** `load_amount(dir_path)`: one more for every accepted file under an accepted root. */
  method LoadAmount(walk: seq<WalkEntry>) returns (total: nat)
    ensures total == |AcceptedFiles(walk)|
  {
    total := 0;
    for i := 0 to |walk|
      invariant total == |AcceptedFiles(walk[..i])|
    {
      FilesStep(walk, i);
      var e := walk[i];
      if !IsValidDirectory(e.root) {
        continue;
      }
      for j := 0 to |e.files|
        invariant total == |AcceptedFiles(walk[..i])| + |AcceptedNames(e.root, e.files[..j])|
      {
        NamesStep(e.root, e.files, j);
        var f := e.files[j];
        if StartsWith(f, ".") {
          continue;
        }
        if !(exists k :: 0 <= k < |SupportedImgTypes| && EndsWith(Lower(f), SupportedImgTypes[k])) {
          continue;
        }
        total := total + 1;
      }
      assert e.files[..|e.files|] == e.files;
    }
    assert walk[..|walk|] == walk;
  }

  /** The record yielded for an accepted `(root, file)` pair. */
  function BackendRecord(accepted: (string, string), embed: string -> seq<real>): BackendImage {
    var path := Join(accepted.0, accepted.1);
    BackendImage(accepted.1, path, embed(path))
  }

  /** `records` holds one record per accepted pair, in order. */
  predicate RecordsFor(records: seq<BackendImage>, accepted: seq<(string, string)>, embed: string -> seq<real>) {
    |records| == |accepted| && forall n :: 0 <= n < |records| ==> records[n] == BackendRecord(accepted[n], embed)
  }

  lemma RecordsSnoc(records: seq<BackendImage>, before: seq<(string, string)>, names: seq<(string, string)>,
                    a: (string, string), embed: string -> seq<real>)
    requires RecordsFor(records, before + names, embed)
    ensures RecordsFor(records + [BackendRecord(a, embed)], before + (names + [a]), embed)
  {
    assert before + (names + [a]) == (before + names) + [a];
  }

  /**
   * `load_imgs(dir_path)`: the same filters as `load_amount`, so exactly as
   * many records as it counts, one per accepted file in walk order, named by
   * the file and located at its joined path.
   */
  method LoadImgs(walk: seq<WalkEntry>, embed: string -> seq<real>) returns (records: seq<BackendImage>)
    ensures |records| == |AcceptedFiles(walk)|
    ensures forall i :: 0 <= i < |records| ==> records[i] == BackendRecord(AcceptedFiles(walk)[i], embed)
  {
    records := [];
    for i := 0 to |walk|
      invariant RecordsFor(records, AcceptedFiles(walk[..i]), embed)
    {
      FilesStep(walk, i);
      var e := walk[i];
      if !IsValidDirectory(e.root) {
        continue;
      }
      ghost var before := AcceptedFiles(walk[..i]);
      assert before + AcceptedNames(e.root, e.files[..0]) == before;
      for j := 0 to |e.files|
        invariant RecordsFor(records, before + AcceptedNames(e.root, e.files[..j]), embed)
      {
        NamesStep(e.root, e.files, j);
        var f := e.files[j];
        if StartsWith(f, ".") {
          continue;
        }
        if !(exists k :: 0 <= k < |SupportedImgTypes| && EndsWith(Lower(f), SupportedImgTypes[k])) {
          continue;
        }
        RecordsSnoc(records, before, AcceptedNames(e.root, e.files[..j]), (e.root, f), embed);
        var filePath := Join(e.root, f);
        records := records + [BackendImage(f, filePath, embed(filePath))];
      }
      assert e.files[..|e.files|] == e.files;
    }
    assert walk[..|walk|] == walk;
  }

  // The suffix test agrees with the scanner's extension test

  /** A lowered name ending in a `.`-led suffix without further dots has its last `.` where that suffix starts. */
  lemma EndsWithExtension(n: string, e: string)
    requires |e| > 0 && e[0] == '.' && '.' !in e[1..] && EndsWith(Lower(n), e)
    ensures '.' in n && LastIndexOf(n, '.').value == |n| - |e|
  {
    var k := |n| - |e|;
    assert Lower(n)[k] == e[0];
    NoDotAfter(n, e);
    DotsBeforeLast(n, k);
  }

  /** No `.` follows the start of such a suffix. */
  lemma NoDotAfter(n: string, e: string)
    requires |e| > 0 && '.' !in e[1..] && EndsWith(Lower(n), e)
    ensures forall i :: |n| - |e| < i < |n| ==> n[i] != '.'
  {
    var k := |n| - |e|;
    forall i | k < i < |n| ensures n[i] != '.' {
      assert Lower(n)[i] == e[i - k] == e[1..][i - k - 1];
    }
  }

  /** A `.` at index `k` is at or before the last one. */
  lemma DotsBeforeLast(n: string, k: nat)
    requires k < |n| && n[k] == '.'
    ensures '.' in n && LastIndexOf(n, '.').value >= k
  {
  }

  /** Every supported type is a `.` followed by letters. */
  lemma ImgTypesAreExtensions(k: nat)
    requires k < |SupportedImgTypes|
    ensures var e := SupportedImgTypes[k]; |e| > 0 && e[0] == '.' && '.' !in e[1..] && e in SupportedImageExtensions
  {
  }

  /** A name the suffix test accepts has one of the supported extensions. */
  lemma SuffixGivesExtension(n: string)
    requires '/' !in n && IsImageName(n)
    ensures IsValidImageFile(n, SupportedImageExtensions)
  {
    ExtOfPlainName(n);
    var k :| 0 <= k < |SupportedImgTypes| && EndsWith(Lower(n), SupportedImgTypes[k]);
    var e := SupportedImgTypes[k];
    ImgTypesAreExtensions(k);
    EndsWithExtension(n, e);
    LowerSuffix(n, |n| - |e|);
  }

  /** A name with one of the supported extensions passes the suffix test. */
  lemma ExtensionGivesSuffix(n: string)
    requires '/' !in n && IsValidImageFile(n, SupportedImageExtensions)
    ensures IsImageName(n)
  {
    ExtOfPlainName(n);
    var e := Lower(Ext(n));
    assert '.' in n by {
      assert Lower("") == "";
    }
    var d := LastIndexOf(n, '.').value;
    LowerSuffix(n, d);
    assert EndsWith(Lower(n), e);
    var k: nat := if e == ".jpg" then 0 else if e == ".jpeg" then 1 else 2;
    assert SupportedImgTypes[k] == e;
  }

  /** For a plain file name both loaders accept the same files. */
  lemma SuffixTestMatchesExtension(n: string)
    requires '/' !in n
    ensures IsImageName(n) <==> IsValidImageFile(n, SupportedImageExtensions)
  {
    if IsImageName(n) {
      SuffixGivesExtension(n);
    }
    if IsValidImageFile(n, SupportedImageExtensions) {
      ExtensionGivesSuffix(n);
    }
  }

  /** The paths of accepted `(root, file)` pairs. */
  function JoinedPaths(accepted: seq<(string, string)>): (paths: seq<string>)
    ensures |paths| == |accepted| && forall i :: 0 <= i < |accepted| ==> paths[i] == Join(accepted[i].0, accepted[i].1)
  {
    seq(|accepted|, i requires 0 <= i < |accepted| => Join(accepted[i].0, accepted[i].1))
  }

  lemma JoinedPathsAppend(a: seq<(string, string)>, b: seq<(string, string)>)
    ensures JoinedPaths(a + b) == JoinedPaths(a) + JoinedPaths(b)
  {
    assert forall i :: 0 <= i < |a + b| ==> (a + b)[i] == if i < |a| then a[i] else b[i - |a|];
  }

  lemma {:induction false} NamesLikeScanner(root: string, files: seq<string>)
    requires forall j :: 0 <= j < |files| ==> '/' !in files[j]
    ensures JoinedPaths(AcceptedNames(root, files)) == AcceptedIn(root, files, SupportedImageExtensions)
    decreases |files|
  {
    if |files| > 0 {
      var init, f := files[..|files| - 1], files[|files| - 1];
      NamesLikeScanner(root, init);
      SuffixTestMatchesExtension(f);
      JoinedPathsAppend(AcceptedNames(root, init), if IsImageName(f) then [(root, f)] else []);
    }
  }

  /** Plain file names: no `/`, as `os.walk` lists them. */
  predicate PlainNames(walk: seq<WalkEntry>) {
    forall i, j :: 0 <= i < |walk| && 0 <= j < |walk[i].files| ==> '/' !in walk[i].files[j]
  }

  /** Over the same walk, the backend loaders visit exactly the paths the scanner yields, in the same order. */
  lemma {:induction false} BackendScansLikeScanner(walk: seq<WalkEntry>)
    requires PlainNames(walk)
    ensures JoinedPaths(AcceptedFiles(walk)) == ScanPaths(walk, SupportedImageExtensions)
    decreases |walk|
  {
    if |walk| > 0 {
      var init, e := walk[..|walk| - 1], walk[|walk| - 1];
      assert PlainNames(init) by {
        forall i, j | 0 <= i < |init| && 0 <= j < |init[i].files| ensures '/' !in init[i].files[j] {
          assert init[i] == walk[i];
        }
      }
      BackendScansLikeScanner(init);
      if IsValidDirectory(e.root) {
        assert forall j :: 0 <= j < |e.files| ==> '/' !in e.files[j] by {
          assert e == walk[|walk| - 1];
        }
        NamesLikeScanner(e.root, e.files);
      }
      JoinedPathsAppend(AcceptedFiles(init), if IsValidDirectory(e.root) then AcceptedNames(e.root, e.files) else []);
    }
  }
}
