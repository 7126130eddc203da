# Camera-to-skybox wizard: a verified model of its export logic

The Unity editor wizard `CameraToSkyboxWizard` renders a camera into a cube
map, saves the six faces as PNG files in a folder of the project, and binds
them to the six texture slots of a "Skybox/6 Sided" material. This project
models the deterministic part of that pipeline in Dafny and proves what it
does:

- `Textures` — a `Texture2D` class over a two-dimensional pixel array with
  Unity's `GetPixel`, `SetPixel` and `SetPixels` (flat layout, pixel
  `(x, y)` at index `x + y * width`), and `FlipTexture`, whose nested loops
  copy pixel `(x, y)` of a texture into `(x, height - 1 - y)` of a fresh
  one. Its abstract value is a grid of columns. `FlipVertical` (every column
  reversed) is its specification; flipping is proved to keep the size, to
  move each pixel to its mirrored cell, to be its own inverse and to keep the
  multiset of pixels. Pixels are an opaque type: colour channels never
  matter.
- `Faces` — the six cube faces, the order `NegativeX, NegativeY, NegativeZ,
  PositiveX, PositiveY, PositiveZ` in which both SaveCubemap and
  ImportAndApplyTextures visit them, the file name `"{folder}/{face}.png"`,
  and the face-to-slot table, proved one-to-one both ways.
- `AssetPaths` — `GetAssetPath`: the split on the literal `"/Assets/"`
  as the regular-expression engine performs it (leftmost match first, the
  scan resuming after each match) and the last piece kept; proved to give
  `"Assets/"` followed by a suffix of the path that holds no `"/Assets/"` and
  directly follows one (or the whole path when there is none).
- `Export` — `SaveCubemap` and its per-face closure: the destination is a
  map from file path to bytes and the PNG encoder a function parameter.
  SaveCubemap is proved to write exactly the six face files, in the fixed
  order. Each holds the encoding of that face's own pixels, flipped. Every
  other file is left unchanged. Reusing the one texture across faces leaks
  nothing, because `SetPixels` overwrites all of it. Also here: the
  resolution clamp of `OnWizardUpdate`, the decision `Export` takes on the
  folder the panel returned, and the six texture bindings
  ImportAndApplyTextures makes from `GetAssetPath`.

The model follows the code. A resolution outside 16..8192 is clamped, not
rejected. There are no error results for failed writes or encodes, because
the code has none. `Export` renders the camera before it checks the folder,
so only the writing depends on the check. The folder check is a plain
string prefix test, as `StartsWith` performs it.

The text after the last `"/Assets/"` and what `GetAssetPath` keeps differ
when two matches overlap: for `"/Assets/Assets/"` the scan takes the match
at index 0, resumes at index 8 and keeps `"Assets/"`
(`AssetPaths.OverlappingMatchIsSkipped`). The model follows the scan. When
no two matches overlap, the two readings agree
(`AssetPaths.GetAssetPathFollowsLastMatch`).

## Model

| member | source | states |
|---|---|---|
| Faces.FaceName | CameraToSkyboxWizard.cs:136 | a face formats as its enum member name, nine characters long |
| Faces.FaceFile | CameraToSkyboxWizard.cs:136 | a face's file is `"{folder}/{face}.png"`, inside the folder |
| Faces.ExportOrderIsPermutation | CameraToSkyboxWizard.cs:139-144 | the six calls visit every face exactly once |
| Faces.FaceNameInjective | CameraToSkyboxWizard.cs:136 | different faces format to different names |
| Faces.FaceFileDiffers | CameraToSkyboxWizard.cs:136 | within one folder, two faces with the same file are the same face |
| Faces.FaceFileExtends | CameraToSkyboxWizard.cs:136 | a face file lies below every prefix of its folder |
| Faces.FaceFilesDistinct | CameraToSkyboxWizard.cs:136-144 | the six files written are pairwise distinct |
| Faces.MaterialSlot | CameraToSkyboxWizard.cs:103-108 | the literal table of the six slots of the "Skybox/6 Sided" material; every slot name has the form "_<side>Tex" |
| Faces.SlotFace | CameraToSkyboxWizard.cs:103-108 | the slot table read backwards agrees with the table |
| Faces.SlotFaceOfMaterialSlot | CameraToSkyboxWizard.cs:103-108 | reading the slot table forwards then backwards gives the face back |
| Faces.MaterialSlotInjective | CameraToSkyboxWizard.cs:103-108 | no two faces are bound to the same slot |
| Faces.SlotFaceExact | CameraToSkyboxWizard.cs:103-108 | a slot names a face exactly when some face is bound to it |
| Textures.FromFlat | CameraToSkyboxWizard.cs:132-133 | a face's flat pixel array read as a width × height grid (pointwise in FromFlatAt) |
| Textures.FromFlatMirrored | CameraToSkyboxWizard.cs:132-135 | the flat array read from its top row down, also a width × height grid |
| Textures.FromFlatAt | CameraToSkyboxWizard.cs:132-133 | in a flat pixel array pixel (x, y) is element x + y * width, always in range |
| Textures.Reversed | CameraToSkyboxWizard.cs:122 | a reversed column has the column's length |
| Textures.ReversedPreservesMultiset | CameraToSkyboxWizard.cs:122 | reversing a column only reorders its pixels |
| Textures.FlipVertical | CameraToSkyboxWizard.cs:117-124 | the flipped grid has as many columns as the original, each as long as before |
| Textures.FlipVerticalMoves | CameraToSkyboxWizard.cs:117-124 | flipping keeps width and height and puts pixel (x, y) at (x, height - 1 - y) |
| Textures.FlipVerticalInvolution | CameraToSkyboxWizard.cs:120-124 | flipping twice gives back the original grid |
| Textures.FlipVerticalPreservesPixels | CameraToSkyboxWizard.cs:122 | the multiset of pixels is unchanged by a flip |
| Textures.Texture2D.constructor | CameraToSkyboxWizard.cs:119 | a new texture has the requested width and height |
| Textures.Texture2D.Grid | CameraToSkyboxWizard.cs:117-118 | the texture's value is a width-by-height grid of its cells |
| Textures.Texture2D.GetPixel | CameraToSkyboxWizard.cs:122 | GetPixel(x, y) is the grid's pixel (x, y) |
| Textures.Texture2D.SetPixel | CameraToSkyboxWizard.cs:122 | SetPixel changes pixel (x, y) and no other |
| Textures.Texture2D.SetPixels | CameraToSkyboxWizard.cs:133 | SetPixels replaces every pixel by the flat array's, whatever the texture held before |
| Textures.FlipTexture | CameraToSkyboxWizard.cs:115-127 | a fresh texture of the same size holding the input flipped vertically |
| AssetPaths.OccursInSuffix | CameraToSkyboxWizard.cs:70 | a match in a suffix is a match in the whole path, shifted |
| AssetPaths.FindFrom | CameraToSkyboxWizard.cs:70 | the regex scan finds the leftmost match at or after its start, or reports there is none |
| AssetPaths.PieceStart | CameraToSkyboxWizard.cs:70 | the last split piece starts after a match and holds no match, or is everything from the start |
| AssetPaths.LastPiece | CameraToSkyboxWizard.cs:70 | `Split(path).Last()` is no longer than the path |
| AssetPaths.LastPieceSpec | CameraToSkyboxWizard.cs:70 | the last piece is a suffix with no match: all of the path without a match, otherwise right after one |
| AssetPaths.GetAssetPath | CameraToSkyboxWizard.cs:69-71 | the result starts with "Assets/" |
| AssetPaths.GetAssetPathSpec | CameraToSkyboxWizard.cs:69-71 | after "Assets/" comes a suffix of the path that holds no "/Assets/" and follows one, or the whole path when it holds none |
| AssetPaths.SeparatorOverlap | CameraToSkyboxWizard.cs:70 | two overlapping matches of "/Assets/" start 7 characters apart and spell "/Assets/Assets/" |
| AssetPaths.GetAssetPathFollowsLastMatch | CameraToSkyboxWizard.cs:69-71 | when no two matches overlap, GetAssetPath keeps exactly the text after the last "/Assets/" |
| AssetPaths.OverlappingMatchIsSkipped | CameraToSkyboxWizard.cs:70 | a match overlapping the previous one is not a split point |
| AssetPaths.ProjectAssetPath | CameraToSkyboxWizard.cs:69-71 | corrected asset path of a path inside the data folder: "Assets" followed by the path below the data folder, which resolves back to the path |
| AssetPaths.ProjectAssetPathAppend | CameraToSkyboxWizard.cs:90 | a file's asset path is its folder's asset path followed by the file name |
| AssetPaths.GetAssetPathLosesInnerAssetsFolder | CameraToSkyboxWizard.cs:69-71 | for a folder inside an inner Assets folder GetAssetPath differs from the real asset path |
| AssetPaths.GetAssetPathAgreesWithoutInnerAssets | CameraToSkyboxWizard.cs:69-71 | when the path holds no "/Assets/" but the one ending the data folder, GetAssetPath is the real asset path |
| AssetPaths.ScanWithOneMatch | CameraToSkyboxWizard.cs:70 | a path with a single "/Assets/" splits right after it |
| Export.FaceImage | CameraToSkyboxWizard.cs:132-135 | the bytes written for a face: the encoder applied to its pixels flipped; its contract is stated by FaceImageMirrorsRows |
| Export.FaceImageMirrorsRows | CameraToSkyboxWizard.cs:132-135 | pixel (x, y) of the encoded image is the face's flat pixel (x, height - 1 - y) |
| Export.SavedUpToKeys | CameraToSkyboxWizard.cs:136-144 | saving the first n faces adds exactly their n files |
| Export.SavedUpToImages | CameraToSkyboxWizard.cs:136-144 | no later face overwrites an earlier face's file |
| Export.SavedUpToOthers | CameraToSkyboxWizard.cs:136-144 | files other than the face files are untouched |
| Export.WrittenUpToSpec | CameraToSkyboxWizard.cs:139-144 | the writes happen in the fixed face order |
| Export.SavedAllFaces | CameraToSkyboxWizard.cs:129-145 | all six faces saved is: six face files, each with its own image, nothing else changed |
| Export.ExportFace | CameraToSkyboxWizard.cs:131-138 | one face: its file now holds encode(flip(its pixels)), independent of the texture's old content; the texture is replaced by a fresh one of the same size holding the face's pixels flipped |
| Export.SaveCubemap | CameraToSkyboxWizard.cs:129-145 | the six face files are written in order NegativeX..PositiveZ, each with its face's image, every other file unchanged |
| Export.ClampResolution | CameraToSkyboxWizard.cs:33 | the result is in 16..8192, equal to the input when that is in range and the nearer bound otherwise |
| Export.ClampResolutionIdempotent | CameraToSkyboxWizard.cs:33 | clamping twice is clamping once |
| Export.ChooseTarget | CameraToSkyboxWizard.cs:46-59 | empty choice cancels; a folder whose path does not start with the data path is refused; otherwise the target is chosen + "/" + skyboxName, which starts with the data path |
| Export.SiblingOfDataPathAccepted | CameraToSkyboxWizard.cs:55-59 | the prefix test accepts the sibling "/p/AssetsOld" of "/p/Assets", whose face files lie outside the data folder |
| Export.ChooseTargetInside | CameraToSkyboxWizard.cs:46-59 | corrected check: only the data folder itself or a folder inside it is accepted, and the target lies inside the data folder |
| Export.ChooseTargetInsideKeepsFilesInside | CameraToSkyboxWizard.cs:59-63 | under the corrected check every face file lies inside the data folder |
| Export.Bindings | CameraToSkyboxWizard.cs:103-108 | ImportAndApplyTextures makes one binding per face |
| Export.BindingsAsWritten | CameraToSkyboxWizard.cs:89-90 | the six bindings the wizard builds from GetAssetPath, each texture under "Assets/" |
| Export.ImportBindings | CameraToSkyboxWizard.cs:89-90 | corrected: the six bindings built from the folder's real asset path, each texture under "Assets/" |
| Export.FaceFileAssetPath | CameraToSkyboxWizard.cs:90 | a face file's real asset path is the face file of the folder's real asset path |
| Export.ImportBindingsNameSavedFiles | CameraToSkyboxWizard.cs:89-90 | with the corrected asset path every binding imports the file its face was saved to |
| Export.BindingsFillFaceSlots | CameraToSkyboxWizard.cs:100-108 | each binding fills its own face's slot and the six slots are different |
| Export.BindingsAsWrittenMissSavedFiles | CameraToSkyboxWizard.cs:85-91 | with GetAssetPath the importer can look for a texture other than the file written |
| Export.BindingsAsWrittenAgreeWithoutInnerAssets | CameraToSkyboxWizard.cs:89-90 | without an inner "/Assets/" the wizard's bindings are the corrected ones, so each names its saved file |
| Export.SkyboxWizard.constructor | CameraToSkyboxWizard.cs:14-17 | a new wizard has resolution 1024 and name "New Skybox" |
| Export.SkyboxWizard.OnWizardUpdate | CameraToSkyboxWizard.cs:32-34 | the resolution is clamped into 16..8192, the name unchanged |
| Export.SkyboxWizard.Export | CameraToSkyboxWizard.cs:45-67 | nothing is written on cancel or when the folder does not start with the data path; otherwise the cube map is saved into the target folder and its textures bound through GetAssetPath, as ImportAndApplyTextures binds them |

## Left out

- Rendering: `Camera.RenderToCubemap` and the save and restore of the camera's euler angles are left out; the rendered cube map is the `capture` parameter of `Export`.
- Editor UI: the menu items, `DisplayWizard`, `SaveFolderPanel` (its answer is the `chosen` parameter), `Selection`, `PingObject` and all `Debug.Log*` messages are left out, and so is `OnWizardCreate`'s check that a camera is set.
- Asset pipeline: `CreateMaterial`, `Shader.Find`, `AssetDatabase.*`, the `TextureImporter` settings and `Material.SetTexture` are foreign calls whose behaviour is not visible; only which texture path goes to which slot is modelled.
- `EncodeToPNG` is an uninterpreted function of the texture's size and pixels; the PNG format is not modelled.
- `Texture2D.Apply` uploads pixels to the GPU and changes no pixel, so it is left out.
- The texture format argument and the mipmap flag are left out; pixels are an opaque type.
- The initial pixels of a new texture are left open (the pixel type's default value).
- File system: `Directory.Exists`, `Directory.CreateDirectory` and write failures are left out; a write is a map update.
- `Textures.Texture2D.SetPixels` requires exactly width × height pixels, which is what Unity demands; the cube map always supplies that many.
- `Export.ChooseTarget` models `StartsWith` as an ordinal prefix test; culture-sensitive comparison is not modelled.
- Export.SkyboxWizard.Export models the wizard as written, with `ChooseTarget` and `GetAssetPath`. The corrected `ChooseTargetInside` and `ProjectAssetPath` are proved beside it, and Export does not use them.
- When the importer's lookup fails, line 92 dereferences a null importer. That exception is not modelled: the bindings are a list of texture paths and slots.
- Integers are unbounded: the clamp keeps the resolution far from 32-bit limits.

## Findings

| source | as written | input that shows it | evidently intended | confidence | as-written member | corrected member |
|---|---|---|---|---|---|---|
| CameraToSkyboxWizard.cs:69-71 | the asset path is "Assets/" plus what follows the last "/Assets/" the scan finds anywhere in the absolute path | data folder "/p/Assets", chosen folder "/p/Assets/x/Assets", skybox name "Sky": the folder "/p/Assets/x/Assets/Sky" gets asset path "Assets/Sky", so the material and the six textures are looked up in the wrong folder | the folder's path below the data folder, "Assets/x/Assets/Sky" | medium, not executed | AssetPaths.GetAssetPathLosesInnerAssetsFolder | AssetPaths.ProjectAssetPath |
| CameraToSkyboxWizard.cs:55 | a folder is accepted when its path starts with the data path as a string | data folder "/p/Assets", chosen folder "/p/AssetsOld", skybox name "Sky": the check passes and the six faces are written to "/p/AssetsOld/Sky", outside the project | accept only the data folder itself or a folder inside it, as the message at line 56 says | medium, not executed | Export.SiblingOfDataPathAccepted | Export.ChooseTargetInside |
