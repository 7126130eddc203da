/**
 * The six faces of a cube map, the order in which the wizard handles them,
 * the file name each face is saved under and the material slot each face
 * is bound to (CameraToSkyboxWizard.cs).
 */
module Faces {
  import opened Wrappers

  /** Unity's CubemapFace (its Unknown member is never used by the wizard). */
  datatype CubemapFace = PositiveX | NegativeX | PositiveY | NegativeY | PositiveZ | NegativeZ

  /** The order in which both SaveCubemap and ImportAndApplyTextures visit the faces. */
  const ExportOrder: seq<CubemapFace> :=
    [NegativeX, NegativeY, NegativeZ, PositiveX, PositiveY, PositiveZ]

  /** The text a face formats to (the enum member's name). */
  function FaceName(face: CubemapFace): (name: string)
    ensures |name| == 9
  {
    match face
    case PositiveX => "PositiveX"
    case NegativeX => "NegativeX"
    case PositiveY => "PositiveY"
    case NegativeY => "NegativeY"
    case PositiveZ => "PositiveZ"
    case NegativeZ => "NegativeZ"
  }

  /** `"{folder}/{face}.png"`: where a face's image lives inside a folder. */
  function FaceFile(folder: string, face: CubemapFace): (file: string)
    ensures folder + "/" <= file
    ensures |file| == |folder| + 14
  {
    folder + "/" + FaceName(face) + ".png"
  }

  /** The position of every face in ExportOrder. */
  function OrderIndex(face: CubemapFace): (i: nat)
    ensures i < |ExportOrder| && ExportOrder[i] == face
  {
    match face
    case NegativeX => 0
    case NegativeY => 1
    case NegativeZ => 2
    case PositiveX => 3
    case PositiveY => 4
    case PositiveZ => 5
  }

  /** Each face occurs in ExportOrder exactly once. */
  lemma ExportOrderIsPermutation()
    ensures |ExportOrder| == 6
    ensures forall i, j :: 0 <= i < j < |ExportOrder| ==> ExportOrder[i] != ExportOrder[j]
    ensures forall face: CubemapFace :: face in ExportOrder
  {
    forall face: CubemapFace ensures face in ExportOrder {
      var i := OrderIndex(face);
    }
  }

  /** Different faces have different names. */
  lemma FaceNameInjective(f: CubemapFace, g: CubemapFace)
    requires FaceName(f) == FaceName(g)
    ensures f == g
  {
  }

  /**
   * Within one folder, different faces are saved to different files: the
   * face's name sits at a fixed place in its file. Stated for one pair and
   * without a precondition, so that an induction over the faces can use it
   * pair by pair without bringing a quantifier over all faces into scope.
   */
  lemma FaceFileDiffers(folder: string, f: CubemapFace, g: CubemapFace)
    ensures FaceFile(folder, f) == FaceFile(folder, g) ==> f == g
  {
    if FaceFile(folder, f) == FaceFile(folder, g) {
      var n := |folder| + 1;
      assert FaceFile(folder, f)[n..n + 9] == FaceName(f);
      assert FaceFile(folder, g)[n..n + 9] == FaceName(g);
      FaceNameInjective(f, g);
    }
  }

  /** The six face files of a folder are pairwise distinct. */
  lemma FaceFilesDistinct(folder: string)
    ensures forall f, g :: f != g ==> FaceFile(folder, f) != FaceFile(folder, g)
  {
    forall f, g ensures FaceFile(folder, f) == FaceFile(folder, g) ==> f == g {
      FaceFileDiffers(folder, f, g);
    }
  }

  /** What follows a prefix of the folder in each face file. */
  lemma FaceFileExtends(prefix: string, folder: string, face: CubemapFace)
    requires prefix <= folder
    ensures prefix <= FaceFile(folder, face)
  {
    assert FaceFile(folder, face)[..|prefix|] == folder[..|prefix|];
  }

  /** The material texture slot ImportAndApplyTextures binds each face to. */
  function MaterialSlot(face: CubemapFace): (slot: string)
    ensures 6 <= |slot| && slot[0] == '_' && slot[|slot| - 3..] == "Tex"
  {
    match face
    case NegativeX => "_RightTex"
    case NegativeY => "_DownTex"
    case NegativeZ => "_BackTex"
    case PositiveX => "_LeftTex"
    case PositiveY => "_UpTex"
    case PositiveZ => "_FrontTex"
  }

  /** The face bound to a slot, if any: the table read the other way. */
  function SlotFace(slot: string): (face: Option<CubemapFace>)
    ensures face.Some? ==> MaterialSlot(face.value) == slot
  {
    if slot == "_RightTex" then Some(NegativeX)
    else if slot == "_DownTex" then Some(NegativeY)
    else if slot == "_BackTex" then Some(NegativeZ)
    else if slot == "_LeftTex" then Some(PositiveX)
    else if slot == "_UpTex" then Some(PositiveY)
    else if slot == "_FrontTex" then Some(PositiveZ)
    else None
  }

  /** Reading the table forwards and then backwards gives the face back. */
  lemma SlotFaceOfMaterialSlot(face: CubemapFace)
    ensures SlotFace(MaterialSlot(face)) == Some(face)
  {
  }

  /** The slot table is one-to-one: no two faces share a slot. */
  lemma MaterialSlotInjective(f: CubemapFace, g: CubemapFace)
    requires MaterialSlot(f) == MaterialSlot(g)
    ensures f == g
  {
    SlotFaceOfMaterialSlot(f);
    SlotFaceOfMaterialSlot(g);
  }

  /** A slot names at most one face, and it names one exactly when it is in the table. */
  lemma SlotFaceExact(slot: string)
    ensures SlotFace(slot).Some? <==> exists face: CubemapFace :: MaterialSlot(face) == slot
  {
    if face: CubemapFace :| MaterialSlot(face) == slot {
      SlotFaceOfMaterialSlot(face);
    }
  }
}
