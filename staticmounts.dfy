/**
 * The static-file mounts of the two web apps: each image directory that
 * appears in a search result is mounted once under `/images/<n>`, numbered
 * in order of first appearance, and the result paths are rewritten to URLs
 * under that prefix. Both apps share this code.
 */
module StaticMounts {
  import opened Results
  import opened Text
  import opened Paths
  import opened ResultFormat

  /** One `app.mount(route, StaticFiles(directory=...), name=...)` call. */
  datatype Mount = Mount(route: string, directory: string, name: string)

  function Route(n: nat): string {
    "/images/" + NatToString(n)
  }

  /** The URL prefix `replace_path` returns for the directory numbered `n`. */
  function Prefix(n: nat): string {
    Route(n) + "/"
  }

  function MountOf(directory: string, n: nat): Mount {
    Mount(Route(n), directory, "static_" + NatToString(n))
  }

  /** Different numbers give different prefixes, so distinct directories never share URLs. */
  lemma PrefixInjective(m: nat, n: nat)
    requires m != n
    ensures Prefix(m) != Prefix(n) && Route(m) != Route(n)
  {
    NatToStringInjective(m, n);
    assert Route(m)[8..] == NatToString(m) && Route(n)[8..] == NatToString(n);
    assert Prefix(m)[..|Prefix(m)| - 1] == Route(m) && Prefix(n)[..|Prefix(n)| - 1] == Route(n);
  }

  /** Every directory numbered in `a` keeps its number in `b`. */
  predicate Extends(a: map<string, nat>, b: map<string, nat>) {
    forall d :: d in a ==> d in b && b[d] == a[d]
  }

  /** `r` is `r0` with its path replaced by the URL of its file under its directory's mount. */
  predicate Rewritten(r0: SearchResult, r: SearchResult, dirs: map<string, nat>) {
    Dirname(r0.filePath) in dirs && r == r0.(filePath := Prefix(dirs[Dirname(r0.filePath)]) + Basename(r0.filePath))
  }

  lemma ExtendsTrans(a: map<string, nat>, b: map<string, nat>, c: map<string, nat>)
    requires Extends(a, b) && Extends(b, c)
    ensures Extends(a, c)
  {
  }

  /** The mounts made so far are never undone. */
  predicate IsPrefix(a: seq<Mount>, b: seq<Mount>) {
    |a| <= |b| && b[..|a|] == a
  }

  lemma PrefixTrans(a: seq<Mount>, b: seq<Mount>, c: seq<Mount>)
    requires IsPrefix(a, b) && IsPrefix(b, c)
    ensures IsPrefix(a, c)
  {
    assert c[..|a|] == c[..|b|][..|a|];
  }

  /** The first `n` results of `s0` are rewritten in `s`, the rest are as they were. */
  predicate RewrittenUpTo(s0: seq<SearchResult>, s: seq<SearchResult>, n: nat, dirs: map<string, nat>) {
    |s0| == |s| && n <= |s| &&
    (forall j {:trigger s[j]} :: 0 <= j < n ==> Rewritten(s0[j], s[j], dirs)) &&
    (forall j {:trigger s[j]} :: n <= j < |s| ==> s[j] == s0[j])
  }

  /** Rewriting one more result, under a table that extends the old one, rewrites one more. */
  lemma RewriteStep(s0: seq<SearchResult>, s: seq<SearchResult>, n: nat, a: map<string, nat>, b: map<string, nat>, r: SearchResult)
    requires RewrittenUpTo(s0, s, n, a) && n < |s| && Extends(a, b) && Rewritten(s[n], r, b)
    ensures RewrittenUpTo(s0, s[n := r], n + 1, b)
  {
    forall j | 0 <= j < n ensures Rewritten(s0[j], s[j], b) {
      assert Rewritten(s0[j], s[j], a);
    }
  }

  /** The results rewritten under a table stay rewritten under a table that extends it. */
  lemma RewrittenExtends(s0: seq<SearchResult>, s: seq<SearchResult>, n: nat, a: map<string, nat>, b: map<string, nat>)
    requires RewrittenUpTo(s0, s, n, a) && Extends(a, b)
    ensures RewrittenUpTo(s0, s, n, b)
  {
    forall j | 0 <= j < n ensures Rewritten(s0[j], s[j], b) {
      assert Rewritten(s0[j], s[j], a);
    }
  }

  /** No directory appears twice in `order`. */
  predicate Distinct(order: seq<string>) {
    |order| == 0 || (order[|order| - 1] !in order[..|order| - 1] && Distinct(order[..|order| - 1]))
  }

  /** The numbers of the directories in `order`: the `k`-th to appear has number `k + 1`. */
  function NumberDirs(order: seq<string>): map<string, nat> {
    if |order| == 0 then map[] else NumberDirs(order[..|order| - 1])[order[|order| - 1] := |order|]
  }

  /**
   * The mounts made for the directories in `order`: the `k`-th directory is
   * mounted at number `k + 1` when `mounted[k]`, that is, when its directory
   * existed the first time it was seen.
   */
  function MountsOf(order: seq<string>, mounted: seq<bool>): seq<Mount>
    requires |mounted| == |order|
  {
    if |order| == 0 then []
    else
      var n := |order|;
      MountsOf(order[..n - 1], mounted[..n - 1]) + (if mounted[n - 1] then [MountOf(order[n - 1], n)] else [])
  }

  /**
   * `dirs` numbers the directories in `order`, each appearing once, and
   * `mounts` are the mounts of those that were mounted.
   */
  ghost predicate Numbered(order: seq<string>, mounted: seq<bool>, dirs: map<string, nat>, mounts: seq<Mount>) {
    Distinct(order) && |mounted| == |order| && dirs == NumberDirs(order) && mounts == MountsOf(order, mounted)
  }

  /** The numbered directories are exactly those in `order`. */
  lemma {:induction false} NumberDirsKeys(order: seq<string>)
    ensures forall d :: d in NumberDirs(order) <==> d in order
    decreases |order|
  {
    if |order| > 0 {
      var init := order[..|order| - 1];
      NumberDirsKeys(init);
      assert order == init + [order[|order| - 1]];
    }
  }

  /** Distinct directories get one number each. */
  lemma {:induction false} NumberDirsSize(order: seq<string>)
    requires Distinct(order)
    ensures |NumberDirs(order)| == |order|
    decreases |order|
  {
    if |order| > 0 {
      var init := order[..|order| - 1];
      NumberDirsSize(init);
      NumberDirsKeys(init);
    }
  }

  /** The `k`-th distinct directory has number `k + 1`. */
  lemma {:induction false} NumberDirsValues(order: seq<string>)
    requires Distinct(order)
    ensures forall k :: 0 <= k < |order| ==> order[k] in NumberDirs(order)
    ensures forall k :: 0 <= k < |order| ==> NumberDirs(order)[order[k]] == k + 1
    decreases |order|
  {
    if |order| > 0 {
      var init := order[..|order| - 1];
      NumberDirsValues(init);
      NumberDirsKeys(order);
      forall k | 0 <= k < |order| - 1
        ensures NumberDirs(order)[order[k]] == k + 1
      {
        assert order[k] == init[k] && init[k] in init;
      }
    }
  }

  /** Every mount serves a directory of `order`. */
  lemma {:induction false} MountDirectoriesNumbered(order: seq<string>, mounted: seq<bool>)
    requires |mounted| == |order|
    ensures forall m :: m in MountsOf(order, mounted) ==> m.directory in order
    decreases |order|
  {
    if |order| > 0 {
      var n := |order|;
      var init := order[..n - 1];
      MountDirectoriesNumbered(init, mounted[..n - 1]);
      assert order == init + [order[n - 1]];
    }
  }

  /** Each mount serves a numbered directory, at that directory's number. */
  lemma {:induction false} MountsAtTheirNumbers(order: seq<string>, mounted: seq<bool>)
    requires Distinct(order) && |mounted| == |order|
    ensures forall m :: m in MountsOf(order, mounted) ==>
      m.directory in NumberDirs(order) && m == MountOf(m.directory, NumberDirs(order)[m.directory])
    decreases |order|
  {
    if |order| > 0 {
      var n := |order|;
      var init, last := order[..n - 1], order[n - 1];
      MountsAtTheirNumbers(init, mounted[..n - 1]);
      MountDirectoriesNumbered(init, mounted[..n - 1]);
      NumberDirsKeys(init);
    }
  }

  /** The `k`-th directory has a mount exactly when it was mounted. */
  lemma {:induction false} MountedIff(order: seq<string>, mounted: seq<bool>)
    requires Distinct(order) && |mounted| == |order|
    ensures forall k :: 0 <= k < |order| ==> (MountOf(order[k], k + 1) in MountsOf(order, mounted) <==> mounted[k])
    decreases |order|
  {
    if |order| > 0 {
      var n := |order|;
      var init, last := order[..n - 1], order[n - 1];
      MountedIff(init, mounted[..n - 1]);
      MountDirectoriesNumbered(init, mounted[..n - 1]);
      forall k | 0 <= k < n
        ensures MountOf(order[k], k + 1) in MountsOf(order, mounted) <==> mounted[k]
      {
        if k < n - 1 {
          assert order[k] == init[k] && init[k] in init && mounted[k] == mounted[..n - 1][k];
        }
      }
    }
  }

  /**
   * Numbering a new directory `|dirs| + 1` keeps the numbering, whether its
   * mount is made (`ok`) or raised.
   */
  lemma AddDirectory(order: seq<string>, mounted: seq<bool>, dirs: map<string, nat>, mounts: seq<Mount>, path: string, ok: bool)
    requires Numbered(order, mounted, dirs, mounts) && path !in dirs
    ensures Numbered(order + [path], mounted + [ok], dirs[path := |dirs| + 1],
      mounts + (if ok then [MountOf(path, |dirs| + 1)] else []))
    ensures Extends(dirs, dirs[path := |dirs| + 1])
  {
    NumberDirsKeys(order);
    NumberDirsSize(order);
    var o, f := order + [path], mounted + [ok];
    assert o[..|o| - 1] == order && o[|o| - 1] == path;
    assert f[..|f| - 1] == mounted && f[|f| - 1] == ok;
  }

  /**
   * The parent directories of the first `n` paths in `s` that are not in
   * `known`, in order of first appearance, each once: the directories a
   * rewrite of those results numbers.
   */
  function NewDirs(known: set<string>, s: seq<SearchResult>, n: nat): seq<string>
    requires n <= |s|
    decreases n
  {
    if n == 0 then []
    else
      var init, d := NewDirs(known, s, n - 1), Dirname(s[n - 1].filePath);
      if d in known || d in init then init else init + [d]
  }

  /** No directory is numbered twice, and none that the table already knew. */
  lemma {:induction false} NewDirsFresh(known: set<string>, s: seq<SearchResult>, n: nat)
    requires n <= |s|
    ensures Distinct(NewDirs(known, s, n))
    ensures forall d :: d in NewDirs(known, s, n) ==> d !in known
    decreases n
  {
    if n > 0 {
      NewDirsFresh(known, s, n - 1);
      var init, d := NewDirs(known, s, n - 1), Dirname(s[n - 1].filePath);
      if !(d in known || d in init) {
        assert (init + [d])[..|init|] == init;
      }
    }
  }

  /**
   * `table[k]` is the list of directories new among the first `k` results
   * of `s`, and `flags[k]` says whether each of them exists, for every `k`.
   */
  ghost predicate IsNewDirsTable(known: set<string>, s: seq<SearchResult>, dirExists: string -> bool,
                                 table: seq<seq<string>>, flags: seq<seq<bool>>) {
    |table| == |flags| == |s| + 1 &&
    forall k {:trigger NewDirs(known, s, k)} :: 0 <= k <= |s| ==>
      table[k] == NewDirs(known, s, k) && flags[k] == ExistsFlags(NewDirs(known, s, k), dirExists)
  }

  lemma NewDirsTableExists(known: set<string>, s: seq<SearchResult>, dirExists: string -> bool)
    ensures exists table, flags :: IsNewDirsTable(known, s, dirExists, table, flags)
  {
    var table := seq(|s| + 1, k requires 0 <= k <= |s| => NewDirs(known, s, k));
    var flags := seq(|s| + 1, k requires 0 <= k <= |s| => ExistsFlags(NewDirs(known, s, k), dirExists));
    assert IsNewDirsTable(known, s, dirExists, table, flags);
  }

  /** Whether each of `dirs` exists, in order. */
  function ExistsFlags(dirs: seq<string>, dirExists: string -> bool): seq<bool> {
    if |dirs| == 0 then [] else ExistsFlags(dirs[..|dirs| - 1], dirExists) + [dirExists(dirs[|dirs| - 1])]
  }

  lemma ExistsFlagsSnoc(dirs: seq<string>, d: string, dirExists: string -> bool)
    ensures ExistsFlags(dirs + [d], dirExists) == ExistsFlags(dirs, dirExists) + [dirExists(d)]
  {
    assert (dirs + [d])[..|dirs|] == dirs;
  }

  /** Why `app.mount` raises: `StaticFiles` rejects a directory that does not exist (`RuntimeError`). */
  datatype MountError = DirectoryMissing

  /** The module-level `image_dirs` dictionary together with the mounts made so far. */
  class MountTable {
    var imageDirs: map<string, nat>
    var mounts: seq<Mount>
    /** The numbered directories in order of first appearance. */
    ghost var order: seq<string>
    /** Whether each of them was mounted: false where `StaticFiles` raised. */
    ghost var mounted: seq<bool>

    /** The `k`-th directory to appear has number `k + 1`; the mounts are those of the directories that existed. */
    ghost predicate Valid()
      reads this
    {
      Numbered(order, mounted, imageDirs, mounts)
    }

    constructor()
      ensures Valid() && imageDirs == map[] && mounts == []
    {
      imageDirs := map[];
      mounts := [];
      order := [];
      mounted := [];
    }

    /**
     * `replace_path(path)`; `dirExists` says which directories exist. The
     * number is recorded before the mount, so a missing directory stays
     * numbered without a mount, and later calls return its prefix.
     */
    method ReplacePath(path: string, dirExists: string -> bool) returns (r: Result<string, MountError>)
      requires Valid()
      modifies this
      ensures Valid()
      ensures path in old(imageDirs) ==> imageDirs == old(imageDirs) && mounts == old(mounts)
      ensures path !in old(imageDirs) ==>
        var n := |old(imageDirs)| + 1;
        imageDirs == old(imageDirs)[path := n] &&
        mounts == old(mounts) + (if dirExists(path) then [MountOf(path, n)] else [])
      ensures path in imageDirs
      ensures r.Err? <==> path !in old(imageDirs) && !dirExists(path)
      ensures r.Err? ==> r.error == DirectoryMissing
      ensures r.Ok? ==> r.value == Prefix(imageDirs[path])
      ensures Extends(old(imageDirs), imageDirs) && IsPrefix(old(mounts), mounts)
      ensures order == old(order) + (if path in old(imageDirs) then [] else [path])
      ensures mounted == old(mounted) + (if path in old(imageDirs) then [] else [dirExists(path)])
    {
      if path !in imageDirs {
        var n := |imageDirs| + 1;
        var ok := dirExists(path);
        AddDirectory(order, mounted, imageDirs, mounts, path, ok);
        imageDirs := imageDirs[path := n];
        order, mounted := order + [path], mounted + [ok];
        if !ok {
          assert mounts + [] == mounts;
          return Err(DirectoryMissing);
        }
        mounts := mounts + [MountOf(path, n)];
      } else {
        assert order + [] == order && mounted + [] == mounted;
      }
      r := Ok("/images/" + NatToString(imageDirs[path]) + "/");
    }

    /** The body of the rewrite loop for one result. */
    method RewriteOne(r: SearchResult, dirExists: string -> bool) returns (rewritten: Result<SearchResult, MountError>)
      requires Valid()
      modifies this
      ensures Valid()
      ensures Extends(old(imageDirs), imageDirs) && IsPrefix(old(mounts), mounts)
      ensures Dirname(r.filePath) in imageDirs
      ensures rewritten.Err? <==> Dirname(r.filePath) !in old(imageDirs) && !dirExists(Dirname(r.filePath))
      ensures rewritten.Ok? ==> Rewritten(r, rewritten.value, imageDirs)
      ensures var d := Dirname(r.filePath);
        order == old(order) + (if d in old(imageDirs) then [] else [d]) &&
        mounted == old(mounted) + (if d in old(imageDirs) then [] else [dirExists(d)])
    {
      var filePath := r.filePath;
      var dst := Dirname(filePath);
      var prefix := ReplacePath(dst, dirExists);
      if prefix.Err? {
        return Err(prefix.error);
      }
      rewritten := Ok(r.(filePath := prefix.value + Basename(filePath)));
    }

    /**
     * One turn of the rewrite loop over `res`: rewrites result `i` in place,
     * or reports that mounting its directory raised.
     */
    method RewriteAt(res: array<SearchResult>, i: nat, dirExists: string -> bool,
                     ghost before: seq<SearchResult>, ghost known: set<string>, ghost order0: seq<string>, ghost mounted0: seq<bool>,
                     ghost dirs0: map<string, nat>, ghost mounts0: seq<Mount>,
                     ghost table: seq<seq<string>>, ghost flags: seq<seq<bool>>)
      returns (ok: bool)
      requires Valid() && i < res.Length && (forall x :: x in known <==> x in order0)
      requires Extends(dirs0, imageDirs) && IsPrefix(mounts0, mounts)
      requires RewrittenUpTo(before, res[..], i, imageDirs)
      requires IsNewDirsTable(known, before, dirExists, table, flags)
      requires order == order0 + table[i] && mounted == mounted0 + flags[i]
      modifies this, res
      ensures Valid()
      ensures Extends(dirs0, imageDirs) && IsPrefix(mounts0, mounts)
      ensures order == order0 + table[i + 1] && mounted == mounted0 + flags[i + 1]
      ensures ok ==> RewrittenUpTo(before, res[..], i + 1, imageDirs)
      ensures !ok ==> RewrittenUpTo(before, res[..], i, imageDirs)
      ensures !ok ==> var d := Dirname(before[i].filePath); d !in dirs0 && d in imageDirs && !dirExists(d)
    {
      ghost var dirs, ms, current, o0, m0 := imageDirs, mounts, res[..], order, mounted;
      var r := RewriteOne(res[i], dirExists);
      PrefixTrans(mounts0, ms, mounts);
      ExtendsTrans(dirs0, dirs, imageDirs);
      assert table[i] == NewDirs(known, before, i) && table[i + 1] == NewDirs(known, before, i + 1);
      assert flags[i] == ExistsFlags(table[i], dirExists) && flags[i + 1] == ExistsFlags(table[i + 1], dirExists);
      TracksStep(order0, mounted0, known, before, i, dirExists, dirs, o0, m0, order, mounted);
      if r.Err? {
        RewrittenExtends(before, current, i, dirs, imageDirs);
        assert current[i] == before[i];
        return false;
      }
      res[i] := r.value;
      assert res[..] == current[i := r.value];
      RewriteStep(before, current, i, dirs, imageDirs, r.value);
      ok := true;
    }

    /**
     * The rewrite loop of `search_image`: each result's path becomes a URL
     * under its directory's mount. `stoppedAt` is the index whose mount
     * raised, which ends the loop with the later results untouched. The
     * directories numbered are exactly the new ones among the results
     * visited, in order of first appearance.
     */
    method RewritePaths(res: array<SearchResult>, dirExists: string -> bool) returns (stoppedAt: Option<nat>)
      requires Valid()
      modifies this, res
      ensures Valid()
      ensures Extends(old(imageDirs), imageDirs) && IsPrefix(old(mounts), mounts)
      ensures stoppedAt.None? ==> RewrittenUpTo(old(res[..]), res[..], res.Length, imageDirs)
      ensures stoppedAt.Some? ==>
        var k := stoppedAt.value;
        k < res.Length && RewrittenUpTo(old(res[..]), res[..], k, imageDirs) &&
        var d := Dirname(old(res[k]).filePath);
        d !in old(imageDirs) && d in imageDirs && !dirExists(d)
      ensures var n := if stoppedAt.Some? then stoppedAt.value + 1 else res.Length;
        n <= res.Length &&
        var added := NewDirs(old(imageDirs).Keys, old(res[..]), n);
        order == old(order) + added && mounted == old(mounted) + ExistsFlags(added, dirExists)
    {
      ghost var before, known := res[..], imageDirs.Keys;
      NewDirsTableExists(known, before, dirExists);
      ghost var table, flags :| IsNewDirsTable(known, before, dirExists, table, flags);
      assert table[0] == NewDirs(known, before, 0) && flags[0] == ExistsFlags(NewDirs(known, before, 0), dirExists);
      NumberDirsKeys(order);
      assert order + [] == order && mounted + [] == mounted;
      for i := 0 to res.Length
        invariant Valid()
        invariant Extends(old(imageDirs), imageDirs) && IsPrefix(old(mounts), mounts)
        invariant RewrittenUpTo(before, res[..], i, imageDirs)
        invariant order == old(order) + table[i] && mounted == old(mounted) + flags[i]
      {
        var ok := RewriteAt(res, i, dirExists, before, known, old(order), old(mounted), old(imageDirs), old(mounts), table, flags);
        if !ok {
          assert known == old(imageDirs).Keys && before == old(res[..]);
          assert table[i + 1] == NewDirs(known, before, i + 1) &&
            flags[i + 1] == ExistsFlags(NewDirs(known, before, i + 1), dirExists);
          return Some(i);
        }
      }
      assert known == old(imageDirs).Keys && before == old(res[..]);
      assert table[res.Length] == NewDirs(known, before, res.Length) &&
        flags[res.Length] == ExistsFlags(NewDirs(known, before, res.Length), dirExists);
      stoppedAt := None;
    }
  }

  /**
   * The ghost table is the starting table followed by the directories new
   * among the first `i` results, with whether each exists.
   */
  ghost predicate Tracks(order0: seq<string>, mounted0: seq<bool>, known: set<string>, s: seq<SearchResult>, i: nat,
                         dirExists: string -> bool, order: seq<string>, mounted: seq<bool>)
    requires i <= |s|
  {
    var added := NewDirs(known, s, i);
    order == order0 + added && mounted == mounted0 + ExistsFlags(added, dirExists)
  }

  /** Rewriting result `i` takes the ghost table from that of `i` results to that of `i + 1`. */
  lemma TracksStep(order0: seq<string>, mounted0: seq<bool>, known: set<string>, s: seq<SearchResult>, i: nat,
                   dirExists: string -> bool, dirs: map<string, nat>, o: seq<string>, m: seq<bool>, o': seq<string>, m': seq<bool>)
    requires i < |s| && (forall x :: x in known <==> x in order0) && dirs == NumberDirs(o)
    requires Tracks(order0, mounted0, known, s, i, dirExists, o, m)
    requires var d := Dirname(s[i].filePath);
      o' == o + (if d in dirs then [] else [d]) && m' == m + (if d in dirs then [] else [dirExists(d)])
    ensures Tracks(order0, mounted0, known, s, i + 1, dirExists, o', m')
  {
    var d, added := Dirname(s[i].filePath), NewDirs(known, s, i);
    assert NewDirs(known, s, i + 1) == if d in known || d in added then added else added + [d];
    assert d in dirs <==> d in known || d in added by {
      NumberDirsKeys(o);
      assert d in o <==> d in order0 || d in added;
    }
    if d in dirs {
      assert added + [] == added;
    } else {
      ExistsFlagsSnoc(added, d, dirExists);
      AppendAssoc(order0, added, [d]);
      AppendAssoc(mounted0, ExistsFlags(added, dirExists), [dirExists(d)]);
    }
  }

  lemma AppendAssoc<T>(a: seq<T>, b: seq<T>, c: seq<T>)
    ensures (a + b) + c == a + (b + c)
  {
  }

  /** In a valid table the numbers are exactly `1..n`, one per directory. */
  lemma NumbersAreOneToN(t: MountTable)
    requires t.Valid()
    ensures forall d :: d in t.imageDirs ==> 1 <= t.imageDirs[d] <= |t.imageDirs|
    ensures forall d1, d2 :: d1 in t.imageDirs && d2 in t.imageDirs && d1 != d2 ==> t.imageDirs[d1] != t.imageDirs[d2]
    ensures forall n: nat :: 1 <= n <= |t.imageDirs| ==> n in t.imageDirs.Values
  {
    NumbersInRange(t.order);
    NumbersDistinct(t.order);
    NumbersCover(t.order);
  }

  lemma NumbersInRange(order: seq<string>)
    requires Distinct(order)
    ensures forall d :: d in NumberDirs(order) ==> 1 <= NumberDirs(order)[d] <= |NumberDirs(order)|
  {
    NumberDirsKeys(order);
    NumberDirsSize(order);
    NumberDirsValues(order);
    forall d | d in NumberDirs(order) ensures 1 <= NumberDirs(order)[d] <= |NumberDirs(order)| {
      var k :| 0 <= k < |order| && order[k] == d;
    }
  }

  lemma NumbersDistinct(order: seq<string>)
    requires Distinct(order)
    ensures forall d1, d2 :: d1 in NumberDirs(order) && d2 in NumberDirs(order) && d1 != d2 ==> NumberDirs(order)[d1] != NumberDirs(order)[d2]
  {
    NumberDirsKeys(order);
    NumberDirsValues(order);
    forall d1, d2 | d1 in NumberDirs(order) && d2 in NumberDirs(order) && d1 != d2
      ensures NumberDirs(order)[d1] != NumberDirs(order)[d2]
    {
      var k1 :| 0 <= k1 < |order| && order[k1] == d1;
      var k2 :| 0 <= k2 < |order| && order[k2] == d2;
    }
  }

  lemma NumbersCover(order: seq<string>)
    requires Distinct(order)
    ensures forall n: nat :: 1 <= n <= |NumberDirs(order)| ==> n in NumberDirs(order).Values
  {
    NumberDirsKeys(order);
    NumberDirsSize(order);
    NumberDirsValues(order);
    forall n: nat | 1 <= n <= |NumberDirs(order)| ensures n in NumberDirs(order).Values {
      assert order[n - 1] in NumberDirs(order);
    }
  }

  /**
   * In a valid table each mount serves a numbered directory at its number,
   * and a numbered directory has its mount exactly when it existed when first seen.
   */
  lemma MountsMatchNumbers(t: MountTable)
    requires t.Valid()
    ensures forall m :: m in t.mounts ==> m.directory in t.imageDirs && m == MountOf(m.directory, t.imageDirs[m.directory])
    ensures forall k :: 0 <= k < |t.order| ==> (MountOf(t.order[k], k + 1) in t.mounts <==> t.mounted[k])
  {
    MountsAtTheirNumbers(t.order, t.mounted);
    MountedIff(t.order, t.mounted);
  }

  /** Two different mounted directories are served under different URL prefixes. */
  lemma DistinctDirectoriesDistinctPrefixes(t: MountTable, d1: string, d2: string)
    requires t.Valid() && d1 in t.imageDirs && d2 in t.imageDirs && d1 != d2
    ensures Prefix(t.imageDirs[d1]) != Prefix(t.imageDirs[d2])
  {
    NumbersAreOneToN(t);
    PrefixInjective(t.imageDirs[d1], t.imageDirs[d2]);
  }
}
