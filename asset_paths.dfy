/**
 * GetAssetPath (CameraToSkyboxWizard.cs:69-71): an absolute folder path
 * turned into a project-relative asset path by splitting on "/Assets/"
 * and keeping the last piece. The pattern has no regular-expression
 * metacharacters, so the split is a left-to-right scan for the literal
 * text, each match resuming the scan just after it.
 */
module AssetPaths {
  import opened Wrappers

  const Separator: string := "/Assets/"

  /** A project's data folder and, inside it, a folder x/Assets/Sky. */
  const ExampleDataPath: string := "/p/Assets"
  const ExampleFolder: string := "/p" + Separator + "x" + Separator + "Sky"

  /** pattern occurs in s starting at index i. */
  predicate OccursAt(s: string, pattern: string, i: nat)
  {
    i + |pattern| <= |s| && s[i..i + |pattern|] == pattern
  }

  predicate Contains(s: string, pattern: string)
  {
    exists i: nat | i <= |s| :: OccursAt(s, pattern, i)
  }

  /** An occurrence in a suffix is an occurrence in the whole string. */
  lemma OccursInSuffix(s: string, pattern: string, k: nat, i: nat)
    requires k <= |s|
    ensures OccursAt(s[k..], pattern, i) <==> OccursAt(s, pattern, k + i)
  {
    if k + i + |pattern| <= |s| {
      assert s[k..][i..i + |pattern|] == s[k + i..k + i + |pattern|];
    }
  }

  /** The leftmost occurrence of pattern in s at or after index from. */
  function FindFrom(s: string, pattern: string, from: nat): (r: Option<nat>)
    requires from <= |s|
    ensures r.Some? ==> from <= r.value && OccursAt(s, pattern, r.value)
    ensures r.Some? ==> forall j: nat :: from <= j < r.value ==> !OccursAt(s, pattern, j)
    ensures r.None? ==> forall j: nat :: from <= j ==> !OccursAt(s, pattern, j)
    decreases |s| - from
  {
    if from + |pattern| > |s| then None
    else if s[from..from + |pattern|] == pattern then Some(from)
    else FindFrom(s, pattern, from + 1)
  }

  /**
   * Where the last piece of a split starts when the scan begins at index
   * from: each match found resumes the scan just after itself.
   */
  function PieceStart(s: string, pattern: string, from: nat): (k: nat)
    requires pattern != [] && from <= |s|
    ensures from <= k <= |s|
    ensures forall j: nat :: k <= j ==> !OccursAt(s, pattern, j)
    ensures k == from ==> forall j: nat :: from <= j ==> !OccursAt(s, pattern, j)
    ensures k != from ==> from + |pattern| <= k && OccursAt(s, pattern, k - |pattern|)
    decreases |s| - from
  {
    match FindFrom(s, pattern, from)
    case None => from
    case Some(i) => PieceStart(s, pattern, i + |pattern|)
  }

  /**
   * The last piece `Regex.Split` returns for a literal pattern: the text
   * after the final match of a left-to-right scan, or all of s when there
   * is no match.
   */
  function LastPiece(s: string, pattern: string): (r: string)
    requires pattern != []
    ensures |r| <= |s|
  {
    s[PieceStart(s, pattern, 0)..]
  }

  /**
   * The last piece is a suffix of s that holds no match; it is all of s
   * when s holds no match, and otherwise it directly follows a match.
   */
  lemma LastPieceSpec(s: string, pattern: string)
    requires pattern != []
    ensures var r := LastPiece(s, pattern);
      r == s[|s| - |r|..] &&
      !Contains(r, pattern) &&
      (!Contains(s, pattern) ==> r == s) &&
      (Contains(s, pattern) ==>
        |r| + |pattern| <= |s| && OccursAt(s, pattern, |s| - |r| - |pattern|))
  {
    var k := PieceStart(s, pattern, 0);
    var r := s[k..];
    forall j: nat ensures !OccursAt(r, pattern, j) {
      OccursInSuffix(s, pattern, k, j);
    }
    assert k != 0 ==> OccursAt(s, pattern, k - |pattern|);
  }

  /** `"Assets/" + new Regex("/Assets/").Split(path).Last()`. */
  function GetAssetPath(path: string): (r: string)
    ensures "Assets/" <= r && |r| <= |path| + 7
  {
    "Assets/" + LastPiece(path, Separator)
  }

  /**
   * GetAssetPath keeps "Assets/" followed by a suffix of the path that
   * holds no "/Assets/": the whole path when it holds none, and otherwise
   * the text right after a "/Assets/".
   */
  lemma GetAssetPathSpec(path: string)
    ensures var piece := GetAssetPath(path)[7..];
      piece == path[|path| - |piece|..] &&
      !Contains(piece, Separator) &&
      (!Contains(path, Separator) ==> GetAssetPath(path) == "Assets/" + path) &&
      (Contains(path, Separator) ==>
        |piece| + |Separator| <= |path| && OccursAt(path, Separator, |path| - |piece| - |Separator|))
  {
    var piece := LastPiece(path, Separator);
    assert GetAssetPath(path)[7..] == piece;
    LastPieceSpec(path, Separator);
  }

  /** Two matches of the separator that overlap: "/Assets/Assets/". */
  const DoubledSeparator: string := Separator + "Assets/"

  /**
   * A match that starts inside another starts at its last character, and
   * the two together spell DoubledSeparator.
   */
  lemma SeparatorOverlap(s: string, t: nat, j: nat)
    requires OccursAt(s, Separator, t) && t < j < t + |Separator|
    ensures OccursAt(s, Separator, j) ==> j == t + 7 && OccursAt(s, DoubledSeparator, t)
  {
    if OccursAt(s, Separator, j) {
      assert s[j] == s[j..j + 8][0];
      assert s[j] == s[t..t + 8][j - t];
      assert forall d :: 1 <= d < 7 ==> Separator[d] != '/';
      assert j == t + 7;
      assert s[j + 1..j + 8] == s[j..j + 8][1..];
      assert Separator[1..] == "Assets/";
      assert s[t..t + 15] == s[t..t + 8] + s[j + 1..j + 8];
    }
  }

  /**
   * When no two matches overlap, GetAssetPath keeps exactly the text after
   * the last "/Assets/" of the path.
   */
  lemma GetAssetPathFollowsLastMatch(path: string)
    requires Contains(path, Separator) && !Contains(path, DoubledSeparator)
    ensures var piece := GetAssetPath(path)[7..];
      |piece| + |Separator| <= |path| &&
      OccursAt(path, Separator, |path| - |piece| - |Separator|) &&
      forall j: nat :: OccursAt(path, Separator, j) ==> j <= |path| - |piece| - |Separator|
  {
    GetAssetPathSpec(path);
    var piece := GetAssetPath(path)[7..];
    var t := |path| - |piece| - |Separator|;
    forall j: nat | t < j ensures !OccursAt(path, Separator, j) {
      if j >= t + |Separator| {
        OccursInSuffix(path, Separator, t + |Separator|, j - t - |Separator|);
      } else {
        SeparatorOverlap(path, t, j);
      }
    }
  }

  /**
   * The scan resumes after each match, so a match overlapping the previous
   * one is not a split point: the piece kept follows the earlier of the two.
   */
  lemma OverlappingMatchIsSkipped()
    ensures OccursAt("/Assets/Assets/", Separator, 7)
    ensures GetAssetPath("/Assets/Assets/") == "Assets/Assets/"
  {
    var s := "/Assets/Assets/";
    assert s[0..8] == Separator;
    assert s[7..15] == Separator;
    assert FindFrom(s, Separator, 0) == Some(0);
    assert FindFrom(s, Separator, 8) == None;
    assert PieceStart(s, Separator, 0) == 8;
  }

  /**
   * The project-relative path of a file under the project's data folder:
   * Unity names the data folder "Assets" and everything under it relative
   * to it. Requires the file to lie inside the data folder, that is, below
   * dataPath followed by a separator.
   */
  function ProjectAssetPath(dataPath: string, path: string): (r: string)
    requires dataPath + "/" <= path
    ensures "Assets" <= r
    ensures dataPath + r[6..] == path
  {
    var r := "Assets" + path[|dataPath|..];
    assert r[6..] == path[|dataPath|..];
    r
  }

  /** The asset path of a file is the asset path of its folder followed by the file's own name. */
  lemma ProjectAssetPathAppend(dataPath: string, folder: string, name: string)
    requires dataPath + "/" <= folder
    ensures dataPath + "/" <= folder + name
    ensures ProjectAssetPath(dataPath, folder + name) == ProjectAssetPath(dataPath, folder) + name
  {
    assert (folder + name)[..|dataPath| + 1] == folder[..|dataPath| + 1];
    assert (folder + name)[|dataPath|..] == folder[|dataPath|..] + name;
  }

  /**
   * GetAssetPath treats any "/Assets/" in a path as the project's data
   * folder: for the folder "/p/Assets/x/Assets/Sky" of a project whose
   * data folder is "/p/Assets" it gives "Assets/Sky", dropping the
   * sub-folders "x/Assets" the folder lies in.
   */
  lemma GetAssetPathLosesInnerAssetsFolder()
    ensures ExampleDataPath + "/" <= ExampleFolder
    ensures GetAssetPath(ExampleFolder) == "Assets/Sky"
    ensures ProjectAssetPath(ExampleDataPath, ExampleFolder) == "Assets/x/Assets/Sky"
  {
    InnerAssetsScan();
    assert ExampleFolder[19..] == "Sky";
    ExampleFolderUnderDataPath();
  }

  lemma ExampleFolderUnderDataPath()
    ensures ExampleDataPath + "/" <= ExampleFolder
    ensures ExampleFolder[9..] == "/x/Assets/Sky"
  {
    assert ExampleFolder[..10] == ExampleDataPath + "/";
  }

  /** The scan of the example path splits after index 10 and after index 19. */
  lemma InnerAssetsScan()
    ensures PieceStart(ExampleFolder, Separator, 0) == 19
  {
    var s := ExampleFolder;
    assert s[2..10] == Separator;
    assert s[11..19] == Separator;
    assert s[0..8] != Separator by { assert s[0..8][1] != Separator[1]; }
    assert s[1..9] != Separator by { assert s[1..9][0] != Separator[0]; }
    assert s[10..18] != Separator by { assert s[10..18][0] != Separator[0]; }
    assert FindFrom(s, Separator, 2) == Some(2);
    assert FindFrom(s, Separator, 1) == Some(2);
    assert FindFrom(s, Separator, 0) == Some(2);
    assert FindFrom(s, Separator, 11) == Some(11);
    assert FindFrom(s, Separator, 10) == Some(11);
    assert FindFrom(s, Separator, 19) == None;
    assert PieceStart(s, Separator, 19) == 19;
    assert PieceStart(s, Separator, 10) == 19;
  }

  /**
   * In the ordinary case the two agree: when the data folder is root +
   * "/Assets" and the folder holds no "/Assets/" other than the one that
   * ends the data folder, GetAssetPath gives the folder's real asset path.
   */
  lemma GetAssetPathAgreesWithoutInnerAssets(root: string, rest: string)
    requires forall j: nat :: j != |root| ==> !OccursAt(root + Separator + rest, Separator, j)
    ensures root + "/Assets" + "/" <= root + Separator + rest
    ensures GetAssetPath(root + Separator + rest) == ProjectAssetPath(root + "/Assets", root + Separator + rest)
  {
    var s := root + Separator + rest;
    SeparatorSplitsAt(root, rest);
    ScanWithOneMatch(s, |root|);
    assert LastPiece(s, Separator) == rest;
    assert "Assets/" + rest == "Assets" + ("/" + rest);
  }

  /** Where root + "/Assets/" + rest breaks into its parts. */
  lemma SeparatorSplitsAt(root: string, rest: string)
    ensures OccursAt(root + Separator + rest, Separator, |root|)
    ensures root + "/Assets" + "/" <= root + Separator + rest
    ensures (root + Separator + rest)[|root| + |Separator|..] == rest
    ensures (root + Separator + rest)[|root + "/Assets"|..] == "/" + rest
  {
    var s := root + Separator + rest;
    var k := |root|;
    assert s[k..k + |Separator|] == Separator;
    assert root + "/Assets" + "/" == root + Separator;
    assert s[..k + |Separator|] == root + Separator;
    assert s[k + |Separator|..] == rest;
    assert s[k + |Separator| - 1..] == "/" + rest;
  }

  /** A path with exactly one match splits just after it. */
  lemma ScanWithOneMatch(s: string, k: nat)
    requires OccursAt(s, Separator, k)
    requires forall j: nat :: j != k ==> !OccursAt(s, Separator, j)
    ensures PieceStart(s, Separator, 0) == k + |Separator|
    ensures LastPiece(s, Separator) == s[k + |Separator|..]
  {
    assert FindFrom(s, Separator, 0) == Some(k);
    assert FindFrom(s, Separator, k + |Separator|) == None;
  }
}
