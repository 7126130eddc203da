/**
 * The export pass of the wizard (CameraToSkyboxWizard.cs): the resolution
 * clamp, the checks on the chosen folder, SaveCubemap writing one image
 * per face, and the face-to-slot bindings ImportAndApplyTextures makes.
 */
module Export {
  import opened Wrappers
  import opened Faces
  import opened Textures
  import opened AssetPaths

  newtype byte = b: int | 0 <= b < 256

  type Bytes = seq<byte>

  /** Files by full path: the part of the file system the export writes. */
  type Directory = map<string, Bytes>

  /** Texture2D.EncodeToPNG, left uninterpreted: a texture's size and pixels to file bytes. */
  type Encoder<!P> = (nat, nat, Grid<P>) -> Bytes

  /** A rendered cube map; faces(face) is what Cubemap.GetPixels(face) returns. */
  datatype Cubemap<P> = Cubemap(width: nat, height: nat, faces: CubemapFace -> seq<P>)
  {
    /** Every face holds width * height pixels, in the flat layout of GetPixels. */
    predicate Valid()
    {
      forall face :: |faces(face)| == width * height
    }
  }

  /** The bytes SaveCubemap writes for one face: its pixels flipped, then encoded. */
  function FaceImage<P>(cubemap: Cubemap<P>, face: CubemapFace, encode: Encoder<P>): Bytes
    requires cubemap.Valid()
  {
    var w, h := cubemap.width, cubemap.height;
    encode(w, h, FlipVertical(FromFlat(cubemap.faces(face), w, h)))
  }

  /**
   * The image of a face encodes the grid whose pixel (x, y) is the face's
   * flat pixel (x, height - 1 - y): the bottom row of the PNG is the top
   * row of the face.
   */
  lemma FaceImageMirrorsRows<P>(cubemap: Cubemap<P>, face: CubemapFace, encode: Encoder<P>)
    requires cubemap.Valid()
    ensures FaceImage(cubemap, face, encode) ==
      encode(cubemap.width, cubemap.height, FromFlatMirrored(cubemap.faces(face), cubemap.width, cubemap.height))
  {
    var w, h := cubemap.width, cubemap.height;
    var g := FromFlat(cubemap.faces(face), w, h);
    var mirrored := FromFlatMirrored(cubemap.faces(face), w, h);
    FlipVerticalMoves(g, w, h);
    forall x, y | 0 <= x < w && 0 <= y < h ensures FlipVertical(g)[x][y] == mirrored[x][y] {
      assert FlipVertical(g)[x][h - 1 - (h - 1 - y)] == g[x][h - 1 - y];
    }
    GridExtensionality(FlipVertical(g), mirrored, w, h);
  }

  /** The files of the first n faces of ExportOrder in a folder. */
  ghost function FaceFilesUpTo(folder: string, n: nat): set<string>
  {
    set i | 0 <= i < n && i < |ExportOrder| :: FaceFile(folder, ExportOrder[i])
  }

  /** The six files SaveCubemap writes into a folder. */
  ghost function FaceFiles(folder: string): set<string>
  {
    FaceFilesUpTo(folder, |ExportOrder|)
  }

  /** The directory after the first n faces of ExportOrder have been saved into folder. */
  ghost function SavedUpTo<P>(before: Directory, cubemap: Cubemap<P>, folder: string, encode: Encoder<P>,
                              n: nat): Directory
    requires cubemap.Valid() && n <= |ExportOrder|
  {
    if n == 0 then before
    else SavedUpTo(before, cubemap, folder, encode, n - 1)
           [FaceFile(folder, ExportOrder[n - 1]) := FaceImage(cubemap, ExportOrder[n - 1], encode)]
  }

  /** The files written while saving the first n faces of ExportOrder, in order. */
  ghost function WrittenUpTo(folder: string, n: nat): seq<string>
    requires n <= |ExportOrder|
  {
    if n == 0 then [] else WrittenUpTo(folder, n - 1) + [FaceFile(folder, ExportOrder[n - 1])]
  }

  /** Saving the first n faces adds exactly their n files. */
  lemma {:induction false} SavedUpToKeys<P>(before: Directory, cubemap: Cubemap<P>, folder: string,
                                            encode: Encoder<P>, n: nat)
    requires cubemap.Valid() && n <= |ExportOrder|
    ensures SavedUpTo(before, cubemap, folder, encode, n).Keys == before.Keys + FaceFilesUpTo(folder, n)
  {
    if n > 0 {
      SavedUpToKeys(before, cubemap, folder, encode, n - 1);
      assert FaceFilesUpTo(folder, n) == FaceFilesUpTo(folder, n - 1) + {FaceFile(folder, ExportOrder[n - 1])};
    }
  }

  /**
   * After the first n faces are saved, each of their files holds its own
   * face's image: no later face overwrites an earlier one.
   */
  lemma {:induction false} SavedUpToImages<P>(before: Directory, cubemap: Cubemap<P>, folder: string,
                                              encode: Encoder<P>, n: nat)
    requires cubemap.Valid() && n <= |ExportOrder|
    ensures forall i :: 0 <= i < n ==>
      FaceFile(folder, ExportOrder[i]) in SavedUpTo(before, cubemap, folder, encode, n) &&
      SavedUpTo(before, cubemap, folder, encode, n)[FaceFile(folder, ExportOrder[i])] ==
      FaceImage(cubemap, ExportOrder[i], encode)
  {
    if n > 0 {
      SavedUpToImages(before, cubemap, folder, encode, n - 1);
      ExportOrderIsPermutation();
      var last := FaceFile(folder, ExportOrder[n - 1]);
      forall i | 0 <= i < n - 1 ensures FaceFile(folder, ExportOrder[i]) != last {
        FaceFileDiffers(folder, ExportOrder[i], ExportOrder[n - 1]);
      }
    }
  }

  /** Saving the first n faces leaves every file other than theirs as it was. */
  lemma {:induction false} SavedUpToOthers<P>(before: Directory, cubemap: Cubemap<P>, folder: string,
                                              encode: Encoder<P>, n: nat)
    requires cubemap.Valid() && n <= |ExportOrder|
    ensures forall file :: file in before && file !in FaceFilesUpTo(folder, n) ==>
      file in SavedUpTo(before, cubemap, folder, encode, n) &&
      SavedUpTo(before, cubemap, folder, encode, n)[file] == before[file]
  {
    if n > 0 {
      SavedUpToOthers(before, cubemap, folder, encode, n - 1);
      assert FaceFilesUpTo(folder, n) == FaceFilesUpTo(folder, n - 1) + {FaceFile(folder, ExportOrder[n - 1])};
    }
  }

  /** WrittenUpTo lists the face files of ExportOrder one by one. */
  lemma {:induction false} WrittenUpToSpec(folder: string, n: nat)
    requires n <= |ExportOrder|
    ensures |WrittenUpTo(folder, n)| == n
    ensures forall i :: 0 <= i < n ==> WrittenUpTo(folder, n)[i] == FaceFile(folder, ExportOrder[i])
  {
    if n > 0 {
      WrittenUpToSpec(folder, n - 1);
    }
  }

  /**
   * `after` is `before` with the image of every face of cubemap saved
   * under its own name in folder, every other file as it was, and
   * `writes` lists the files written in the order they were written.
   */
  ghost predicate SavedCubemap<P>(before: Directory, after: Directory, writes: seq<string>,
                                  cubemap: Cubemap<P>, folder: string, encode: Encoder<P>)
    requires cubemap.Valid()
  {
    && after.Keys == before.Keys + FaceFiles(folder)
    && (forall face :: FaceFile(folder, face) in after &&
          after[FaceFile(folder, face)] == FaceImage(cubemap, face, encode))
    && (forall file :: file in before && file !in FaceFiles(folder) ==> after[file] == before[file])
    && |writes| == |ExportOrder|
    && (forall i :: 0 <= i < |writes| ==> writes[i] == FaceFile(folder, ExportOrder[i]))
  }

  /** Saving face n of ExportOrder after the first n saves the first n + 1. */
  lemma SaveStep<P>(before: Directory, cubemap: Cubemap<P>, folder: string, encode: Encoder<P>, n: nat,
                    face: CubemapFace)
    requires cubemap.Valid() && n < |ExportOrder| && ExportOrder[n] == face
    ensures SavedUpTo(before, cubemap, folder, encode, n + 1) ==
      SavedUpTo(before, cubemap, folder, encode, n)[FaceFile(folder, face) := FaceImage(cubemap, face, encode)]
    ensures WrittenUpTo(folder, n + 1) == WrittenUpTo(folder, n) + [FaceFile(folder, face)]
  {
  }

  /** All of ExportOrder saved is the whole cube map saved. */
  lemma SavedAllFaces<P>(before: Directory, cubemap: Cubemap<P>, folder: string, encode: Encoder<P>)
    requires cubemap.Valid()
    ensures SavedCubemap(before, SavedUpTo(before, cubemap, folder, encode, |ExportOrder|),
                         WrittenUpTo(folder, |ExportOrder|), cubemap, folder, encode)
  {
    var after := SavedUpTo(before, cubemap, folder, encode, |ExportOrder|);
    SavedUpToKeys(before, cubemap, folder, encode, |ExportOrder|);
    SavedUpToImages(before, cubemap, folder, encode, |ExportOrder|);
    SavedUpToOthers(before, cubemap, folder, encode, |ExportOrder|);
    WrittenUpToSpec(folder, |ExportOrder|);
    forall face ensures FaceFile(folder, face) in after &&
      after[FaceFile(folder, face)] == FaceImage(cubemap, face, encode)
    {
      var i := OrderIndex(face);
      assert FaceFile(folder, face) in FaceFilesUpTo(folder, |ExportOrder|);
    }
  }

  /**
   * The body of SaveCubemap's exportFace closure: load the face's pixels
   * into the captured texture, replace the texture by its flipped copy,
   * encode that and write it to the face's file.
   */
  method ExportFace<P(0)>(cubemap: Cubemap<P>, face: CubemapFace, folder: string, encode: Encoder<P>,
                          texture: Texture2D<P>, files: Directory, writes: seq<string>)
    returns (texture': Texture2D<P>, files': Directory, writes': seq<string>)
    requires cubemap.Valid() && texture.Valid()
    requires texture.width == cubemap.width && texture.height == cubemap.height
    modifies texture.cells
    ensures fresh(texture') && fresh(texture'.cells) && texture'.Valid()
    ensures texture'.width == cubemap.width && texture'.height == cubemap.height
    ensures texture'.Grid() == FlipVertical(FromFlat(cubemap.faces(face), cubemap.width, cubemap.height))
    ensures files' == files[FaceFile(folder, face) := FaceImage(cubemap, face, encode)]
    ensures writes' == writes + [FaceFile(folder, face)]
  {
    var pixels := cubemap.faces(face);
    texture.SetPixels(pixels);
    texture' := FlipTexture(texture);
    var bytes := encode(texture'.width, texture'.height, texture'.Grid());
    files' := files[FaceFile(folder, face) := bytes];
    writes' := writes + [FaceFile(folder, face)];
  }

  /**
   * SaveCubemap: one texture of the cube map's size, then exportFace for
   * each face in ExportOrder.
   */
  method SaveCubemap<P(0)>(cubemap: Cubemap<P>, folder: string, encode: Encoder<P>, files: Directory)
    returns (files': Directory, writes: seq<string>)
    requires cubemap.Valid()
    ensures SavedCubemap(files, files', writes, cubemap, folder, encode)
  {
    var texture := new Texture2D<P>(cubemap.width, cubemap.height);
    files', writes := files, [];
    ghost var n := 0;
    assert files' == SavedUpTo(files, cubemap, folder, encode, n) && writes == WrittenUpTo(folder, n);
    texture, files', writes := ExportFace(cubemap, NegativeX, folder, encode, texture, files', writes);
    SaveStep(files, cubemap, folder, encode, n, NegativeX);
    n := n + 1;
    texture, files', writes := ExportFace(cubemap, NegativeY, folder, encode, texture, files', writes);
    SaveStep(files, cubemap, folder, encode, n, NegativeY);
    n := n + 1;
    texture, files', writes := ExportFace(cubemap, NegativeZ, folder, encode, texture, files', writes);
    SaveStep(files, cubemap, folder, encode, n, NegativeZ);
    n := n + 1;
    texture, files', writes := ExportFace(cubemap, PositiveX, folder, encode, texture, files', writes);
    SaveStep(files, cubemap, folder, encode, n, PositiveX);
    n := n + 1;
    texture, files', writes := ExportFace(cubemap, PositiveY, folder, encode, texture, files', writes);
    SaveStep(files, cubemap, folder, encode, n, PositiveY);
    n := n + 1;
    texture, files', writes := ExportFace(cubemap, PositiveZ, folder, encode, texture, files', writes);
    SaveStep(files, cubemap, folder, encode, n, PositiveZ);
    n := n + 1;
    assert files' == SavedUpTo(files, cubemap, folder, encode, |ExportOrder|);
    SavedAllFaces(files, cubemap, folder, encode);
  }

  /** Unity's Mathf.Min(8192, Mathf.Max(16, resolution)). */
  function ClampResolution(resolution: int): (r: int)
    ensures 16 <= r <= 8192
    ensures 16 <= resolution <= 8192 ==> r == resolution
    ensures resolution < 16 ==> r == 16
    ensures resolution > 8192 ==> r == 8192
  {
    if 8192 < (if 16 < resolution then resolution else 16) then 8192
    else if 16 < resolution then resolution else 16
  }

  /** Clamping a clamped resolution changes nothing. */
  lemma ClampResolutionIdempotent(resolution: int)
    ensures ClampResolution(ClampResolution(resolution)) == ClampResolution(resolution)
  {
  }

  /** Where Export goes once the folder panel has returned. */
  datatype ExportTarget = Cancelled | OutsideDataPath | Folder(path: string)

  /**
   * An empty choice means the panel was cancelled, a folder whose path does
   * not start with the data path is refused, and otherwise the skybox gets
   * a folder of its own inside the one chosen. The test is a plain string
   * prefix, so a sibling such as "/p/AssetsOld" of "/p/Assets" passes it.
   */
  function ChooseTarget(chosen: string, dataPath: string, skyboxName: string): (t: ExportTarget)
    ensures t == Cancelled <==> chosen == ""
    ensures t == OutsideDataPath <==> chosen != "" && !(dataPath <= chosen)
    ensures t.Folder? ==> dataPath <= chosen && t.path == chosen + "/" + skyboxName
    ensures t.Folder? ==> dataPath <= t.path && chosen + "/" <= t.path
  {
    if |chosen| == 0 then Cancelled
    else if !(dataPath <= chosen) then OutsideDataPath
    else Folder(chosen + "/" + skyboxName)
  }

  /** A sibling of the example data folder whose name starts with "Assets". */
  const ExampleSibling: string := "/p/AssetsOld"

  /**
   * The prefix test lets a sibling of the data folder through: the skybox
   * folder "/p/AssetsOld/Sky" is accepted although it lies outside
   * "/p/Assets", so its six files are written outside the project.
   */
  lemma SiblingOfDataPathAccepted()
    ensures ChooseTarget(ExampleSibling, ExampleDataPath, "Sky") == Folder(ExampleSibling + "/Sky")
    ensures !(ExampleDataPath + "/" <= FaceFile(ExampleSibling + "/Sky", NegativeX))
  {
    assert ExampleSibling[..|ExampleDataPath|] == ExampleDataPath;
    var file := FaceFile(ExampleSibling + "/Sky", NegativeX);
    assert file[9] == 'O';
  }

  /**
   * The folder check as intended: the chosen folder is the data folder
   * itself or lies inside it.
   */
  function ChooseTargetInside(chosen: string, dataPath: string, skyboxName: string): (t: ExportTarget)
    ensures t == Cancelled <==> chosen == ""
    ensures t == OutsideDataPath <==> chosen != "" && chosen != dataPath && !(dataPath + "/" <= chosen)
    ensures t.Folder? ==> t.path == chosen + "/" + skyboxName
    ensures t.Folder? ==> dataPath + "/" <= t.path
  {
    if |chosen| == 0 then Cancelled
    else if chosen != dataPath && !(dataPath + "/" <= chosen) then OutsideDataPath
    else
      var path := chosen + "/" + skyboxName;
      assert (dataPath + "/" <= chosen) ==> path[..|dataPath| + 1] == chosen[..|dataPath| + 1];
      Folder(path)
  }

  /** Every file SaveCubemap writes into a folder the corrected check accepts lies inside the data folder. */
  lemma ChooseTargetInsideKeepsFilesInside(chosen: string, dataPath: string, skyboxName: string)
    requires ChooseTargetInside(chosen, dataPath, skyboxName).Folder?
    ensures forall face :: dataPath + "/" <= FaceFile(ChooseTargetInside(chosen, dataPath, skyboxName).path, face)
  {
    var folder := ChooseTargetInside(chosen, dataPath, skyboxName).path;
    forall face ensures dataPath + "/" <= FaceFile(folder, face) {
      assert FaceFile(folder, face)[..|dataPath| + 1] == folder[..|dataPath| + 1];
    }
  }

  /** One call of importAndApplyFace: the texture asset to import and the material slot it fills. */
  datatype Binding = Binding(texture: string, slot: string)

  /** ImportAndApplyTextures' six calls, given the asset path of the skybox folder. */
  function Bindings(assetFolder: string): (r: seq<Binding>)
    ensures |r| == |ExportOrder|
  {
    seq(|ExportOrder|, i requires 0 <= i < |ExportOrder| =>
      Binding(FaceFile(assetFolder, ExportOrder[i]), MaterialSlot(ExportOrder[i])))
  }

  /** Every texture of the bindings for a folder lies below each prefix of the folder. */
  lemma BindingsExtend(prefix: string, assetFolder: string)
    requires prefix <= assetFolder
    ensures forall i :: 0 <= i < |ExportOrder| ==> prefix <= Bindings(assetFolder)[i].texture
  {
    forall i | 0 <= i < |ExportOrder| ensures prefix <= Bindings(assetFolder)[i].texture {
      FaceFileExtends(prefix, assetFolder, ExportOrder[i]);
    }
  }

  /**
   * The bindings as the wizard computes them, from GetAssetPath: six
   * textures, each looked up under "Assets/".
   */
  function BindingsAsWritten(folder: string): (r: seq<Binding>)
    ensures |r| == |ExportOrder|
    ensures forall i :: 0 <= i < |r| ==> "Assets/" <= r[i].texture
  {
    BindingsExtend("Assets/", GetAssetPath(folder));
    Bindings(GetAssetPath(folder))
  }

  /**
   * The bindings computed from the folder's real position inside the data
   * folder: six textures, each under "Assets/".
   */
  function ImportBindings(dataPath: string, folder: string): (r: seq<Binding>)
    requires dataPath + "/" <= folder
    ensures |r| == |ExportOrder|
    ensures forall i :: 0 <= i < |r| ==> "Assets/" <= r[i].texture
  {
    var assetFolder := ProjectAssetPath(dataPath, folder);
    assert assetFolder[6] == (dataPath + assetFolder[6..])[|dataPath|] == folder[|dataPath|];
    assert assetFolder[..7] == "Assets/";
    BindingsExtend("Assets/", assetFolder);
    Bindings(assetFolder)
  }

  /** Each binding imports the very file SaveCubemap wrote for its face. */
  lemma ImportBindingsNameSavedFiles(dataPath: string, folder: string)
    requires dataPath + "/" <= folder
    ensures forall i :: 0 <= i < |ExportOrder| ==>
      dataPath + "/" <= FaceFile(folder, ExportOrder[i]) &&
      ImportBindings(dataPath, folder)[i].texture == ProjectAssetPath(dataPath, FaceFile(folder, ExportOrder[i]))
  {
    forall i | 0 <= i < |ExportOrder|
      ensures dataPath + "/" <= FaceFile(folder, ExportOrder[i])
      ensures ImportBindings(dataPath, folder)[i].texture == ProjectAssetPath(dataPath, FaceFile(folder, ExportOrder[i]))
    {
      assert ImportBindings(dataPath, folder)[i].texture == FaceFile(ProjectAssetPath(dataPath, folder), ExportOrder[i]);
      FaceFileAssetPath(dataPath, folder, ExportOrder[i]);
    }
  }

  /** A face file's asset path is the face file of the folder's asset path. */
  lemma FaceFileAssetPath(dataPath: string, folder: string, face: CubemapFace)
    requires dataPath + "/" <= folder
    ensures dataPath + "/" <= FaceFile(folder, face)
    ensures ProjectAssetPath(dataPath, FaceFile(folder, face)) == FaceFile(ProjectAssetPath(dataPath, folder), face)
  {
    var name := "/" + FaceName(face) + ".png";
    assert FaceFile(folder, face) == folder + name;
    ProjectAssetPathAppend(dataPath, folder, name);
    assert FaceFile(ProjectAssetPath(dataPath, folder), face) == ProjectAssetPath(dataPath, folder) + name;
  }

  /** Each binding fills its own face's slot, so the six slots are different. */
  lemma BindingsFillFaceSlots(assetFolder: string)
    ensures forall i :: 0 <= i < |ExportOrder| ==> SlotFace(Bindings(assetFolder)[i].slot) == Some(ExportOrder[i])
    ensures forall i, j :: 0 <= i < j < |ExportOrder| ==> Bindings(assetFolder)[i].slot != Bindings(assetFolder)[j].slot
  {
    ExportOrderIsPermutation();
    forall i | 0 <= i < |ExportOrder| ensures SlotFace(Bindings(assetFolder)[i].slot) == Some(ExportOrder[i]) {
      SlotFaceOfMaterialSlot(ExportOrder[i]);
    }
  }

  /**
   * For a skybox folder inside a sub-folder named Assets, the wizard
   * imports a texture path other than the file it wrote.
   */
  lemma BindingsAsWrittenMissSavedFiles()
    ensures ExampleDataPath + "/" <= FaceFile(ExampleFolder, NegativeX)
    ensures BindingsAsWritten(ExampleFolder)[0].texture !=
      ProjectAssetPath(ExampleDataPath, FaceFile(ExampleFolder, NegativeX))
  {
    GetAssetPathLosesInnerAssetsFolder();
    ImportBindingsNameSavedFiles(ExampleDataPath, ExampleFolder);
    assert |BindingsAsWritten(ExampleFolder)[0].texture| == |"Assets/Sky"| + 14;
    assert |ImportBindings(ExampleDataPath, ExampleFolder)[0].texture| == |"Assets/x/Assets/Sky"| + 14;
  }

  /**
   * When the folder holds no "/Assets/" besides the one ending the data
   * folder, the wizard's bindings are the corrected ones, so each imports
   * the file saved for its face.
   */
  lemma BindingsAsWrittenAgreeWithoutInnerAssets(root: string, rest: string)
    requires forall j: nat :: j != |root| ==> !OccursAt(root + Separator + rest, Separator, j)
    ensures root + "/Assets" + "/" <= root + Separator + rest
    ensures BindingsAsWritten(root + Separator + rest) == ImportBindings(root + "/Assets", root + Separator + rest)
  {
    GetAssetPathAgreesWithoutInnerAssets(root, rest);
  }

  /** The wizard's state: the fields Export reads. The camera is left out. */
  class SkyboxWizard {
    var resolution: int
    var skyboxName: string

    /** The resolution the wizard's slider allows. */
    ghost predicate Valid()
      reads this
    {
      16 <= resolution <= 8192
    }

    constructor ()
      ensures Valid()
      ensures resolution == 1024 && skyboxName == "New Skybox"
    {
      resolution := 1024;
      skyboxName := "New Skybox";
    }

    /** Called by the editor whenever a field changes: clamps the resolution. */
    method OnWizardUpdate()
      modifies this
      ensures Valid()
      ensures resolution == ClampResolution(old(resolution)) && skyboxName == old(skyboxName)
    {
      resolution := ClampResolution(resolution);
    }

    /**
     * Valid() holds between calls: the [Range(16, 8192)] slider and the
     * OnWizardUpdate clamp keep the resolution in range, so the cube map
     * the camera renders into has a size from 16 to 8192.
     *
     * Export after the folder panel returned `chosen` and the camera was
     * rendered into `capture`: nothing is written when the panel was
     * cancelled or the folder lies outside the data folder; otherwise the
     * six faces are saved in the skybox's folder and its textures bound
     * through GetAssetPath, as ImportAndApplyTextures binds them.
     */
    method Export<P(0)>(chosen: string, dataPath: string, capture: Cubemap<P>, encode: Encoder<P>,
                        files: Directory)
      returns (target: ExportTarget, files': Directory, writes: seq<string>, bindings: seq<Binding>)
      requires Valid() && capture.Valid()
      requires capture.width == resolution && capture.height == resolution
      ensures target == ChooseTarget(chosen, dataPath, skyboxName)
      ensures !target.Folder? ==> files' == files && writes == [] && bindings == []
      ensures target.Folder? ==> dataPath <= target.path
      ensures target.Folder? ==> SavedCubemap(files, files', writes, capture, target.path, encode)
      ensures target.Folder? ==> bindings == BindingsAsWritten(target.path)
    {
      target := ChooseTarget(chosen, dataPath, skyboxName);
      if target.Folder? {
        files', writes := SaveCubemap(capture, target.path, encode, files);
        bindings := BindingsAsWritten(target.path);
      } else {
        files', writes, bindings := files, [], [];
      }
    }
  }
}
