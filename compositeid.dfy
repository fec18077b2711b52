/**
 * The row id the store uses for an image: its file name and path joined by
 * a `|`, split again on the first `|`.
 */
module CompositeId {
  import opened Text

  const Sep: char := '|'

  /** `_make_composite_id(file_name, file_path)` */
  function MakeCompositeId(fileName: string, filePath: string): (id: string)
    ensures |id| == |fileName| + 1 + |filePath|
    ensures id[..|fileName|] == fileName && id[|fileName|] == Sep && id[|fileName| + 1..] == filePath
  {
    fileName + [Sep] + filePath
  }

  /**
   * `_split_composite_id(id)`: the text before the first `|` and the text
   * after it; the whole id and `""` when there is no `|`.
   */
  function SplitCompositeId(id: string): (parts: (string, string))
    ensures Sep !in id ==> parts == (id, "")
    ensures Sep in id ==> Sep !in parts.0 && id == parts.0 + [Sep] + parts.1
  {
    match IndexOf(id, Sep)
    case None => (id, "")
    case Some(i) =>
      assert id == id[..i] + [Sep] + id[i + 1..];
      (id[..i], id[i + 1..])
  }

  /** A file name without `|` survives the round trip, whatever the path holds (the split is on the first `|`). */
  lemma SplitMake(fileName: string, filePath: string)
    requires Sep !in fileName
    ensures SplitCompositeId(MakeCompositeId(fileName, filePath)) == (fileName, filePath)
  {
    var id := MakeCompositeId(fileName, filePath);
    assert id[|fileName|] == Sep;
    var parts := SplitCompositeId(id);
    PrefixUpToSep(parts.0, parts.1, fileName, filePath);
  }

  /** Two ways of writing the same string around a first `|` agree. */
  lemma PrefixUpToSep(a: string, b: string, c: string, d: string)
    requires Sep !in a && Sep !in c
    requires a + [Sep] + b == c + [Sep] + d
    ensures a == c && b == d
  {
    var s := a + [Sep] + b;
    assert |a| == |c| by {
      assert s[|a|] == Sep && s[|c|] == Sep;
    }
    assert a == s[..|a|] && c == s[..|c|];
    assert b == s[|a| + 1..] && d == s[|c| + 1..];
  }

  /** An id holding a `|` is rebuilt exactly from its two parts. */
  lemma MakeSplit(id: string)
    requires Sep in id
    ensures MakeCompositeId(SplitCompositeId(id).0, SplitCompositeId(id).1) == id
  {
  }

  /** Distinct images with `|`-free names get distinct ids. */
  lemma MakeInjective(n1: string, p1: string, n2: string, p2: string)
    requires Sep !in n1 && Sep !in n2
    requires MakeCompositeId(n1, p1) == MakeCompositeId(n2, p2)
    ensures n1 == n2 && p1 == p2
  {
    SplitMake(n1, p1);
    SplitMake(n2, p2);
  }

  /** Without that condition ids collide: the codec does no escaping. */
  lemma NameWithSepCollides()
    ensures MakeCompositeId("a|b", "c") == MakeCompositeId("a", "b|c")
    ensures SplitCompositeId(MakeCompositeId("a|b", "c")) == ("a", "b|c")
  {
    var id := MakeCompositeId("a|b", "c");
    assert id == "a|b|c";
    assert id[1] == Sep;
    PrefixUpToSep(SplitCompositeId(id).0, SplitCompositeId(id).1, "a", "b|c");
  }
}
