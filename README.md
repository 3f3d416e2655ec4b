# Blender NIF plugin: verified model of the import/export decision logic

This project models, in Dafny, the parts of the Blender NIF plugin that
decide things rather than call into Blender, and proves what they promise.

- **Armatures and bones** (`nif_import.py`, `mark_armatures_bones` and
  `complete_bone_tree`): the pre-order scan that fills ARMATURE_BLOCKS,
  BONE_BLOCKS and BONE_ARMATURE_NAMES. Nodes are names with a parent map;
  a skin instance is its skeleton root and its list of bones. Pure
  functions say what a scan computes (`armatures.dfy`), and the class
  `ArmatureMarker` is the imperative version over the three dictionaries,
  proved to compute the same.
- **Other importer logic** (`nif_import.py`): `find_controller` over a
  linked chain of controller objects (`controllers.dfy`); `fb_name`, with
  its counter loop and the NAMES dictionary (`object_names.dfy`); the
  vertex and face index maps of `fb_mesh` (`mesh_maps.dfy`); the external
  texture search of `fb_texture` and the TEX_DIR guess of `import_nif`
  (`texture_search.dfy`).
- **Property de-duplication on export** (`ObjectProperty` and
  `ObjectDataProperty.export_inventory_marker`): get-or-create over an
  insertion-ordered block store, the per-game alpha and stencil flags, and
  the Skyrim inventory marker (`object_property.dfy`). The block store is
  a class holding a sequence of block records; a block's identity is its
  index.
- **Texture sources on import** (`TextureLoader`): the cache key, the
  texture cache, the `imageNNN.dds` name generator, the search paths, the
  candidate file names, the stripping of a duplicated `textures` segment
  and the not-found fallback (`texture_loader.dfy`).
- **Materials on import** (`Material`): alpha flags to blend and shadow
  method, the stencil setter and the material-name fallback
  (`material.dfy`).
- **Shader texture sets on export** (`BSShaderTexture`): the slot layout
  of the texture set, the nine-entry lighting variant, the clamp mode, the
  UV transform and the singleton guard (`shader_texture.dfy`).

`pystr.dfy` writes out the Python string and `os.path` operations these
rely on (`lower` for ASCII letters, slicing, `find`, `split`, `replace`, POSIX `join`,
`dirname`, `basename`, `%02d` and `{:0>3d}`); `wrappers.dfy` holds the
`Option` type.

The host is an input everywhere: the file system is a set of existing
paths; whether Blender can load a file is a set of loadable paths;
`bpy.path.resolve_ncase`, Blender 2.4's `Blender.sys.join`,
`TextureWriter.export_texture_filename`, the
store's defaults for a new block, and Blender's duplicate-face test are
function parameters; the names of existing objects are a set. Python
exceptions are results: `Option`/`Result`-like datatypes carry
`NIFImportError`, `TypeError`, `NifError` and the singleton exception.

Where the code and its description differ, the model follows the code:

- the ancestor walk of `complete_bone_tree` goes on through ancestors that
  are already bones (`nif_import.py:1012-1020`), and the conflict check
  comes before the demotion of a wrongly marked armature
  (`nif_import.py:957-976`);
- `texdir.replace(...)` in `fb_texture` (`nif_import.py:450-451`) discards
  its result, so the directories are searched exactly as listed;
- in the directory `<sep>textures` at the root of the file system, the
  `textures` strip of `import_external_source`
  (`loader.py:214-216`) produces a bare, relative file name
  (`TextureLoader.StripAtRootIsRelative`);
- when `image000.dds` to `image999.dds` all exist, `generate_image_name`
  returns `image999.dds`, a file that already exists
  (`TextureLoader.FreeImageIndexIsFirstFree`).

## Model

| member | source | states |
|---|---|---|
| Armatures.Ancestors | nif_import.py:995-1020 | the ancestors complete_bone_tree visits: nearest first, strictly below the first one named after the armature, each linked to the next by the parent map; whether such an ancestor exists |
| Armatures.CompleteTreeExact | nif_import.py:995-1020 | complete_bone_tree succeeds exactly when the bone is a bone of the armature, an ancestor carries the armature's name and no ancestor below it is an armature or a bone of another armature; then it marks exactly those ancestors as bones of the armature |
| Armatures.WalkContinuesThroughBones | nif_import.py:1012-1020 | the walk does not stop at a parent that is already a bone: the result equals the walk started from the parent |
| Armatures.CompleteTreeOnlyAdds | nif_import.py:1006-1016 | whatever the outcome, complete_bone_tree only adds bones of the given armature and never touches ARMATURE_BLOCKS |
| Armatures.ConflictingBoneRaises | nif_import.py:957-963 | a bone already owned by another armature raises the 'more than one armature' error before any demotion, with nothing changed |
| Armatures.MarkBoneEffect | nif_import.py:950-976 | without a conflict the bone becomes a bone of the effective armature; a bone taken earlier for an armature stops being one and all its bones move to the effective armature; no other entry changes |
| Armatures.MarkBoneKeepsArmature | nif_import.py:966-976 | a successful bone step never demotes the current armature |
| Armatures.MarkBonesAssigns | nif_import.py:950-981 | after the bone loop succeeds, every bone of the skin data is a bone of the effective armature |
| Armatures.SkinMarksBones | nif_import.py:940-981 | a skeleton root that is not a bone is recorded as an armature; one that is a bone records none, and its armature becomes the effective name; every bone then belongs to the effective armature |
| Armatures.MarkSkinsAppend | nif_import.py:927-988 | processing two runs of skin instances is processing the first, then the second, stopping at the first error |
| Armatures.MarkBlockIsMarkSkins | nif_import.py:932-935 | the scan handles exactly the skin instances of skinned NiTriShape/NiTriStrips blocks reached through NiNode children, in pre-order |
| Armatures.MarkChildrenIsMarkSkins | nif_import.py:985-988 | the loop over a NiNode's children handles the skin instances of the children, in order |
| Armatures.MarkPathKeeps | nif_import.py:1012-1016 | marking an admissible ancestor path keeps every existing bone entry |
| Armatures.MarkPathLinks | nif_import.py:1003-1020 | after the walk each marked ancestor's parent is the next one, and the last one's parent is the armature |
| Armatures.WalkRestores | nif_import.py:995-1020 | a successful walk links the starting bone to its armature through bones of that armature |
| Armatures.MarkBonePreserves | nif_import.py:950-981 | one bone step keeps the marking partitioned and connected |
| Armatures.MarkBonesPreserves | nif_import.py:950-981 | the bone loop keeps the marking partitioned and connected |
| Armatures.MarkSkinsPreserves | nif_import.py:940-981 | a run of skin instances keeps the marking partitioned and connected |
| Armatures.ScanPreservesInvariants | nif_import.py:927-988 | a successful scan keeps the three dictionaries a partition (no name is both armature and bone, every bone's armature is an armature) and every bone linked to its armature |
| Armatures.BoneReachesArmature | nif_import.py:995-1020 | in a connected marking the ancestors of any bone lead to a node named after its armature, through bones of that armature only |
| Armatures.ArmatureMarker.CompleteBoneTree | nif_import.py:995-1020 | the imperative walk over the three dictionaries computes exactly the specified walk, outcome and error included |
| Armatures.ArmatureMarker.DemoteArmature | nif_import.py:966-976 | the reassignment loop gives every bone of the wrongly marked armature to the current armature and deletes that armature, nothing else |
| Armatures.ArmatureMarker.MarkArmaturesBones | nif_import.py:927-988 | the imperative scan computes exactly the specified scan, outcome and error included |
| Controllers.FindController | nif_import.py:914-920 | the first controller of the Controller/Next Controller chain whose type is the requested one, or null exactly when no controller of the chain has it |
| ObjectNames.CandidateInjective | nif_import.py:368 | distinct counters give distinct replacement names |
| ObjectNames.UniqueName | nif_import.py:359-371 | the chosen name is held by no object: the 19-character truncation when free, otherwise the first free 16-character prefix plus '.%02d' counting from 00 |
| ObjectNames.NameTable.FbName | nif_import.py:359-376 | the same name, and NAMES updated under the NIF name with that result, nothing else |
| MeshMaps.VertexMap | nif_import.py:694-722 | NIF vertices share a Blender vertex exactly when their keys are equal; Blender vertices are made from first occurrences, numbered 0, 1, 2, ... in order; their number is the number of distinct keys |
| MeshMaps.VertexLoopDone | nif_import.py:697-720 | the loop invariant at the end gives the vertex-map properties above |
| MeshMaps.FaceMap | nif_import.py:725-738 | IndexError exactly when a non-degenerate triangle has an index beyond v_map; otherwise a triangle is dropped exactly when it is degenerate or already a face, and every kept one gets the next face index and the mapped face |
| MeshMaps.CountSomeAppend | nif_import.py:725-738 | the number of kept faces grows by one exactly when a face is kept |
| TextureSearch.GuessDir | nif_import.py:270-274 | no guess exactly when the marker does not occur case-insensitively; otherwise the path before its first occurrence plus the replacement |
| TextureSearch.SearchDirsOrder | nif_import.py:448 | the directories are the ';'-separated entries of TEXTURES_DIR (none holds ';', joined back they give TEXTURES_DIR), then NIF_DIR, then TEX_DIR |
| TextureSearch.TexturePath | nif_import.py:453-456 | the path tried is the host's join of the directory with either the whole name or the name without its first nine characters |
| TextureSearch.TexturePathStripsOneSegment | nif_import.py:453-454 | for any directory ending in '\\textures' and any name starting with 'textures\\', in any letter case, the path tried is the directory joined with the rest of the name, so only one 'textures' segment remains |
| TextureSearch.TexturePathKeepsName | nif_import.py:453-456 | when the name does not start with 'textures\\' or the directory does not end in '\\textures' (ignoring case), the whole name is joined to the directory |
| TextureSearch.FindInDir | nif_import.py:457-467 | an existing non-.dds path is taken as is; otherwise the first existing of the base name with .PNG .png .TGA .tga .BMP .bmp .JPG .jpg in that order; any result exists |
| TextureSearch.FirstSomeIsFirst | nif_import.py:448-470 | the first result is none exactly when every entry is none, and otherwise the entry at the first index that has one |
| TextureSearch.SearchIsFirstSome | nif_import.py:448-470 | the loop with its break returns the first directory's result that is not none |
| TextureSearch.SearchFirstDirectory | nif_import.py:448-472 | not found exactly when no directory yields a file; otherwise the file of the first directory that yields one |
| TextureSearch.FindTextureFile | nif_import.py:445-472 | the external search of fb_texture returns the specified search over TEXTURES_DIR, NIF_DIR and TEX_DIR |
| TextureSearch.SearchDirectories | nif_import.py:448-470 | the directory loop with break and for-else returns the specified search |
| TextureLoader.TextureHash | io_scene_nif/modules/nif_import/property/texture/loader.py:73-85 | no key exactly for a falsy source, TypeError exactly for a truthy source that is neither string nor NiSourceTexture (a falsy value of any type gives no key), the block hash for an NiSourceTexture, a lowered path key for a string |
| TextureLoader.PathKeysIgnoreCase | io_scene_nif/modules/nif_import/property/texture/loader.py:82-83 | two path sources share a cache key exactly when they are equal ignoring case; lowering a path does not change its key |
| TextureLoader.LowerIdempotent | io_scene_nif/modules/nif_import/property/texture/loader.py:83 | lowering twice is lowering once |
| TextureLoader.FreeImageIndexFrom | io_scene_nif/modules/nif_import/property/texture/loader.py:155-164 | the counter stops at the first free image path from its start, or at 999, and every index skipped is taken |
| TextureLoader.FreeImageIndexIsFirstFree | io_scene_nif/modules/nif_import/property/texture/loader.py:155-164 | the index used is the first free one of image000 .. image999, or 999 when all are taken |
| TextureLoader.ImageNameLength | io_scene_nif/modules/nif_import/property/texture/loader.py:160 | every generated name has the 12 characters of 'imageNNN.dds' |
| TextureLoader.NormSeps | io_scene_nif/modules/nif_import/property/texture/loader.py:202-203 | both separator characters become the host's separator, nothing else changes |
| TextureLoader.SearchPathEntries | io_scene_nif/modules/nif_import/property/texture/loader.py:181-198 | the search paths in order: NIF directory, Blender texture directory when set, cwd/nif, the 'meshes' guess, the 'art' guess, each guess only when found |
| TextureLoader.Candidates | io_scene_nif/modules/nif_import/property/texture/loader.py:205-211 | the candidates are fn, fn.lower(), then the alternate names in the host's set order |
| TextureLoader.StripKeepsOneTexturesSegment | io_scene_nif/modules/nif_import/property/texture/loader.py:214-218 | a name starting with 'textures'+sep in a directory ending with sep+'textures' is joined with only one 'textures' segment |
| TextureLoader.StripApplies | io_scene_nif/modules/nif_import/property/texture/loader.py:214-216 | the strip applies to a 'textures'+sep name in a directory ending in sep+'textures' and drops exactly those last nine characters |
| TextureLoader.StripAtRootIsRelative | io_scene_nif/modules/nif_import/property/texture/loader.py:214-218 | in the directory sep+'textures' the stripped candidate is the bare name, a relative path |
| TextureLoader.DirSearchIsFirst | io_scene_nif/modules/nif_import/property/texture/loader.py:213-235 | within one directory the search finds nothing exactly when no candidate probes successfully, else the first candidate that does |
| TextureLoader.PathsSearchIsFirst | io_scene_nif/modules/nif_import/property/texture/loader.py:200-237 | over all directories the search finds nothing exactly when no directory has a hit, else the first directory's first hit |
| TextureLoader.PathsSearchNoneIff | io_scene_nif/modules/nif_import/property/texture/loader.py:200-238 | the search finds nothing exactly when no candidate in any directory exists and loads |
| TextureLoader.PathsSearchSomeFirst | io_scene_nif/modules/nif_import/property/texture/loader.py:200-237 | a hit is the first loading candidate of the first directory that has one |
| TextureLoader.PathsSearchIsFirstPair | io_scene_nif/modules/nif_import/property/texture/loader.py:200-237 | the hit is the first (directory, candidate) pair, directory-major, whose probe succeeds; a path that exists but does not load does not end the search |
| TextureLoader.SearchOutcomeSpec | io_scene_nif/modules/nif_import/property/texture/loader.py:236-241 | found: the path and its loaded image; not found: the join of the first search path and fn, with no image |
| TextureLoader.ExternalSourceOutcome | io_scene_nif/modules/nif_import/property/texture/loader.py:166-241 | TypeError exactly when the source has no usable file name; otherwise the search outcome over the search paths and candidates |
| TextureLoader.ImageOrStub | io_scene_nif/modules/nif_import/property/texture/loader.py:112-117 | the loaded image when there is one, otherwise a 1x1 stub named after the file name's basename whose file path is the file name |
| TextureLoader.TextureLoader.GenerateImageName | io_scene_nif/modules/nif_import/property/texture/loader.py:155-164 | the counter loop returns the first free imageNNN.dds name and its path |
| TextureLoader.TextureLoader.ImportEmbeddedTextureSource | io_scene_nif/modules/nif_import/property/texture/loader.py:128-152 | the embedded texture is saved under the next free image name, which joins the files; the image is loaded only when saving succeeded and the host can load it; the cache is unchanged |
| TextureLoader.TextureLoader.BuildSearchPathList | io_scene_nif/modules/nif_import/property/texture/loader.py:181-198 | the appends build exactly the specified search paths |
| TextureLoader.TextureLoader.SearchPathList | io_scene_nif/modules/nif_import/property/texture/loader.py:200-237 | the nested loops with break return exactly the specified first hit |
| TextureLoader.TextureLoader.ImportExternalSource | io_scene_nif/modules/nif_import/property/texture/loader.py:166-241 | the method returns exactly the specified external outcome |
| TextureLoader.TextureLoader.ImportTextureSource | io_scene_nif/modules/nif_import/property/texture/loader.py:87-126 | None for a falsy source of any type and TypeError for a truthy source of another type, with nothing changed; a cached key returns the cached node unchanged; otherwise a new 'Smart' node with the loaded image or a stub is stored under the key |
| Material.AlphaModes | io_scene_nif/modules/nif_import/property/material/__init__.py:54-70 | shadow is HASHED exactly when bit 0 is set; blend is CLIP exactly when bit 0 is clear and bit 9 set |
| Material.AlphaModesDependOnTwoBits | io_scene_nif/modules/nif_import/property/material/__init__.py:56-70 | two flag words give the same modes exactly when they agree on bits 0 and 9 |
| Material.AlphaModesCases | io_scene_nif/modules/nif_import/property/material/__init__.py:56-70 | both bits: HASHED/HASHED; bit 0 only: BLEND/HASHED; bit 9 only: CLIP/CLIP; neither: OPAQUE/OPAQUE |
| Material.MaterialName | io_scene_nif/modules/nif_import/property/material/__init__.py:139-142 | the recorded name when there is one, otherwise the block name followed by '_nt_mat' |
| Material.FallbackNamesDistinct | io_scene_nif/modules/nif_import/property/material/__init__.py:139-142 | without a recorded name, different blocks give different material names |
| Material.SetStencil | io_scene_nif/modules/nif_import/property/material/__init__.py:47-51 | backface culling off, the same material returned, nothing else changed |
| Material.SetAlpha | io_scene_nif/modules/nif_import/property/material/__init__.py:54-75 | blend and shadow methods as the flags select, threshold scaled to 0..1, alphaflag the flags unchanged, name and culling unchanged |
| Material.ImportMaterialName | io_scene_nif/modules/nif_import/property/material/__init__.py:138-142 | the material's name becomes the specified name, nothing else changes |
| ObjectProperty.FirstMatchFrom | io_scene_nif/modules/nif_export/property/object/__init__.py:103-117 | the first block from the start index whose type name contains the requested type and whose attributes equal every non-None keyword, none before it matching |
| ObjectProperty.ApplySets | io_scene_nif/modules/nif_export/property/object/__init__.py:119-123 | a new block gets every non-None keyword value; every other attribute keeps its default |
| ObjectProperty.NewBlockMatches | io_scene_nif/modules/nif_export/property/object/__init__.py:119-124 | a freshly created block matches the request that created it |
| ObjectProperty.GetOrCreateSpec | io_scene_nif/modules/nif_export/property/object/__init__.py:98-124 | the first matching block is returned with the store unchanged; when none matches, one new block with the non-None keywords set is appended and returned |
| ObjectProperty.GetOrCreateIdempotent | io_scene_nif/modules/nif_export/property/object/__init__.py:98-124 | asking again for the same block returns the same block and adds nothing |
| ObjectProperty.Constrained | io_scene_nif/modules/nif_export/property/object/__init__.py:109 | the non-None keywords, and all of them |
| ObjectProperty.ApplyConstrained | io_scene_nif/modules/nif_export/property/object/__init__.py:122 | None keywords are not set on a new block |
| ObjectProperty.NoneKwargsIgnored | io_scene_nif/modules/nif_export/property/object/__init__.py:109-122 | dropping the None keywords changes neither the match nor the created block |
| ObjectProperty.FirstMatchSame | io_scene_nif/modules/nif_export/property/object/__init__.py:103-117 | requests that every block satisfies alike find the same first match |
| ObjectProperty.AlphaRequest | io_scene_nif/modules/nif_export/property/object/__init__.py:127-143 | a nonzero alphaflag is kept with its threshold; otherwise 0x32ED with threshold 150 for Sid Meier's Railroads, 0x00ED for Empire Earth II, 0x12ED for every other game, threshold 0 |
| ObjectProperty.DefaultAlphaFlagsImportModes | io_scene_nif/modules/nif_export/property/object/__init__.py:133-141 | the default flags read back on import as BLEND/HASHED for Empire Earth II and HASHED/HASHED for every other game |
| ObjectProperty.StencilRequest | io_scene_nif/modules/nif_export/property/object/__init__.py:156-162 | Fallout 3 forces flags 19840; every other game passes the given flags, None by default |
| ObjectProperty.UnconstrainedStencilReused | io_scene_nif/modules/nif_export/property/object/__init__.py:156-162 | outside Fallout 3 an unconstrained request reuses the first existing NiStencilProperty |
| ObjectProperty.MarkRootsWithMarkerRaises | io_scene_nif/modules/nif_export/property/object/__init__.py:180-184 | a root object with marker data raises when the root already holds a BSInvMarker |
| ObjectProperty.TwoMarkedRootsRaise | io_scene_nif/modules/nif_export/property/object/__init__.py:177-191 | for Skyrim, two root objects with marker data always raise |
| ObjectProperty.MarkRootsSucceeds | io_scene_nif/modules/nif_export/property/object/__init__.py:177-191 | without an error exactly one root has marker data and it is appended to the root's extra data |
| ObjectProperty.MarkRootsUnmarked | io_scene_nif/modules/nif_export/property/object/__init__.py:180-191 | a root object with marker data appends one BSInvMarker when the root holds none |
| ObjectProperty.MarkRootsNoMarked | io_scene_nif/modules/nif_export/property/object/__init__.py:180-191 | without marker data nothing is added and nothing raises |
| ObjectProperty.BlockStore.CheckKwargs | io_scene_nif/modules/nif_export/property/object/__init__.py:106-114 | the attribute loop accepts a block exactly when it satisfies every non-None keyword |
| ObjectProperty.BlockStore.GetMatchingBlock | io_scene_nif/modules/nif_export/property/object/__init__.py:98-124 | the store and the returned block are exactly the specified get-or-create |
| ObjectProperty.BlockStore.ExportVertexColorProperty | io_scene_nif/modules/nif_export/property/object/__init__.py:54-75 | always appends a new NiVertexColorProperty with exactly the given flags, vertex mode and lighting mode (defaults 1, 0, 1) and adds it to the parent's properties |
| ObjectProperty.BlockStore.ExportZBufferProperty | io_scene_nif/modules/nif_export/property/object/__init__.py:77-96 | always appends a new NiZBufferProperty with exactly the given flags and function (defaults 15, 3) and adds it to the parent's properties |
| ObjectProperty.BlockStore.ExportAlphaProperty | io_scene_nif/modules/nif_export/property/object/__init__.py:127-143 | get-or-create of an NiAlphaProperty with the chosen flags and threshold |
| ObjectProperty.BlockStore.ExportSpecularProperty | io_scene_nif/modules/nif_export/property/object/__init__.py:145-149 | get-or-create of an NiSpecularProperty with the given flags, default 1 |
| ObjectProperty.BlockStore.ExportWireframeProperty | io_scene_nif/modules/nif_export/property/object/__init__.py:151-154 | get-or-create of an NiWireframeProperty with the given flags, default 1 |
| ObjectProperty.BlockStore.ExportStencilProperty | io_scene_nif/modules/nif_export/property/object/__init__.py:156-162 | get-or-create of an NiStencilProperty with the flags the game selects |
| ObjectProperty.BlockStore.ExportInventoryMarker | io_scene_nif/modules/nif_export/property/object/__init__.py:177-191 | Skyrim only: raises, or appends the marker of the marked root object to the root's extra data, as specified |
| ShaderTexture.BSShaderTextureSet.Resize | io_scene_nif/modules/nif_export/property/texture/types/bsshadertexture.py:76-77 | after the resize the set has n entries, the entries that fit are kept and the new ones are empty |
| ShaderTexture.ResizedGrowShrink | io_scene_nif/modules/nif_export/property/texture/types/bsshadertexture.py:76-77 | growing a set and shrinking it back gives the original entries |
| ShaderTexture.ClampMode | io_scene_nif/modules/nif_export/property/texture/types/bsshadertexture.py:93-103 | the clamp mode lies in 0..3 |
| ShaderTexture.ClampModeDecodes | io_scene_nif/modules/nif_export/property/texture/types/bsshadertexture.py:93-103 | the clamp mode's bit 1 is 'not clamped in x', bit 0 'not clamped in y', and it determines both flags |
| ShaderTexture.BSShaderTexture.CreateTextureset | io_scene_nif/modules/nif_export/property/texture/types/bsshadertexture.py:108-123 | entries 0, 1, 2, 3 hold the diffuse, normal, glow and detail file names when those slots are present; all other entries keep their default |
| ShaderTexture.BSShaderTexture.ExportEffectShaderTextures | io_scene_nif/modules/nif_export/property/texture/types/bsshadertexture.py:63-69 | a new base texture set, the diffuse file as source texture, the glow file as greyscale texture, clamp mode 65283, UV transform unchanged |
| ShaderTexture.BSShaderTexture.FillLightingSlots | io_scene_nif/modules/nif_export/property/texture/types/bsshadertexture.py:76-83 | the set grown to nine entries, with detail in entry 6 and gloss in entry 7 when present |
| ShaderTexture.BSShaderTexture.ExportLightingShaderTextures | io_scene_nif/modules/nif_export/property/texture/types/bsshadertexture.py:71-103 | the nine-entry set, the UV offset and scale copied only when the block has them, and the clamp mode of the diffuse texture |
| ShaderTexture.LightingLayout | io_scene_nif/modules/nif_export/property/texture/types/bsshadertexture.py:72-83 | in the lighting set entries 0..3, 6 and 7 hold the slots' file names when present; entries 4, 5 and 8 are empty |
| ShaderTexture.BSShaderTexture.ExportPPLightingShaderTextures | io_scene_nif/modules/nif_export/property/texture/types/bsshadertexture.py:105-106 | a new base texture set, nothing else |
| ShaderTexture.BSShaderTexture.ExportUVOffset | io_scene_nif/modules/nif_export/property/texture/types/bsshadertexture.py:125-129 | u and v offset copied from the diffuse slot's offset x and y, the same block returned, nothing else changed |
| ShaderTexture.BSShaderTexture.ExportUVScale | io_scene_nif/modules/nif_export/property/texture/types/bsshadertexture.py:131-135 | u and v scale copied from the diffuse slot's scale x and y, the same block returned, nothing else changed |
| ShaderTexture.Singleton.Get | io_scene_nif/modules/nif_export/property/texture/types/bsshadertexture.py:48-53 | the first call creates the instance, every later call returns that same instance |
| ShaderTexture.Singleton.Construct | io_scene_nif/modules/nif_export/property/texture/types/bsshadertexture.py:55-61 | construction raises when an instance exists, and otherwise records the new instance |
| ShaderTexture.Singleton.GetTwiceThenConstruct | io_scene_nif/modules/nif_export/property/texture/types/bsshadertexture.py:48-61 | two calls of get() return the same instance and a direct construction after them raises |
| PyStr.Split | nif_import.py:448 | str.split on one character: no piece holds the separator, and joining the pieces back gives the string |
| PyStr.Find | nif_import.py:270 | str.find: the first occurrence, or -1 exactly when there is none |
| PyStr.PathJoin | io_scene_nif/modules/nif_import/property/texture/loader.py:216-218 | POSIX os.path.join: an absolute second part wins, otherwise the first part, one separator at most, and the second part |
| PyStr.Basename | io_scene_nif/modules/nif_import/property/texture/loader.py:112 | os.path.basename: the longest suffix of the path that holds no separator, so it is either the whole path or preceded by a separator |
| PyStr.Pad2Injective | nif_import.py:368 | distinct counters give distinct '%02d' strings |
| PyStr.Pad3Length | io_scene_nif/modules/nif_import/property/texture/loader.py:160 | '{:0>3d}' of a counter below 1000 has three characters |

## Left out

- Blender scene calls (object, mesh, armature, image and node creation, `scene.link`, `Image.Load`, `images.new`, `bpy.ops.image.open`, `tree.nodes.new`, `makeParent`, `setMatrix`, vertex groups, `calcNormals`): host side effects with nothing to state; the model keeps only their inputs and the values the logic reads back.
- `read_branch`, `fb_armature` and `read_bone_chain`: the bone creation they would drive is a placeholder in the source.
- The GUI, the registry, `fit_view` and the progress bar: user interface and persistence.
- Floating-point work: colour averaging, glossiness, UV flip, vertex colours, morph keys, matrices, and the quantisation of vertex positions into keys (keys are taken as given values).
- The embedded pixel copy of `fb_texture` (`nif_import.py:478-496`) writes float colours into a host image; its pixel index `y*height+x` differs from the usual row-major `y*width+x`, which is only right for square images.
- The material cache of `fb_material`: it depends on niflib's block equality, which is not part of this model.
- `has_collision`, `export_weapon_location` and `export_bsxflags_upb` read Blender objects; the `upb == ''` branch of `export_bsxflags_upb` (`object/__init__.py:224-225`) cannot be reached.
- `nitextureprop.py` only calls `TextureSlotManager` methods whose bodies are not part of this model.
- `TextureSlotManager` itself, which fills the slots, is not part of this model; the slots are fields that its code sets.
- `block_store.create_block` is not part of this model: a new block is assumed to be appended to the store with the type's default attributes (the `defaultsOf` parameter) and to be found by later searches. `block_store.import_name` is the `importName` parameter.
- The order in which Python iterates the set of alternate texture names is unspecified; it is the `order` parameter, which must list that set exactly once.
- `.decode()` and `.encode()` of block and file names: names are strings throughout.
- Blender's `exists`, image loading and `resolve_ncase` are the `files` and `loadable` sets and the `resolveNcase` function of the host; `bpy.ops.image.open` returns a status set rather than an image, so in Blender the size check of the embedded path probably always fails, whereas the model asks the `loadable` oracle.
- Controllers.FindController: a chain of controllers that loops back on itself, on which the source never ends, is excluded by the `IsChain` witness.
- ObjectNames.UniqueName: `Blender.Object.Get` raising for an unknown name, which ends the loop in the source, is modelled as the name not being in the set of taken names; any other exception it swallows is not modelled.
- ObjectProperty.TypeMatches: `block_type in str(type(block))` is modelled as a substring test on the block's type name, without the module path and class wrapper that `str(type(...))` adds.
- ObjectProperty.AlphaRequest: the threshold `alpha_threshold * 255` truncated by `int()` is taken as the already scaled integer `scaledThreshold`; the float product is not modelled.
- Material.SetAlpha: the threshold is divided by 255 exactly (a real number); float rounding is not modelled.
- ShaderTexture.BSShaderTexture.ExportEffectShaderTextures: requires the diffuse and glow slots, as the source dereferences both without a check (it would fail on a missing slot).
- ShaderTexture.BSShaderTexture.ExportLightingShaderTextures: requires the diffuse slot, as the source reads its clamp flags without a check.
- ShaderTexture.BSShaderTextureSet.Resize: pyffi's `update_size` is not part of this model; it is assumed to keep the entries that still fit and to add empty names, and a new texture set is assumed to hold `defaultCount` (at least four) empty names.
- The floating-point UV offset and scale are copied as real numbers.
- PyStr.Lower: `str.lower` is modelled for ASCII letters only; Python 3 also folds every other Unicode letter ('Ä' to 'ä') and can change a string's length ('İ' becomes two characters), and neither is modelled. The members below inherit this gap.
- TextureLoader.TextureHash: the path key is the ASCII lowering of the path, so two paths that differ only in a non-ASCII letter's case ('Ä.dds' and 'ä.dds') share a key in the program but not in the model.
- TextureLoader.PathKeysIgnoreCase: "equal ignoring case" means equal after ASCII lowering; paths equal only under Unicode case folding are not covered.
- TextureLoader.LowerIdempotent: stated for the ASCII lowering only.
- TextureLoader.Candidates: the second candidate is the ASCII lowering of `fn`, not the Unicode lowering `fn.lower()` computes for a non-ASCII file name.
- TextureLoader.SearchPathEntries: the index that `import_path.lower().find(...)` returns is found in the ASCII lowering, which has the same length as the path; a length-changing Unicode lowering, which would make that index wrong for `import_path`, is not modelled.
- TextureSearch.TexturePath: `Blender.sys.join` of Blender 2.4 is not part of this model; it is the `join` parameter, so nothing is stated about the separator it inserts, about empty directories (which `TEXTURES_DIR.split(";")` yields for "a;;b" or a trailing ';') or about absolute names. The letter-case tests of the `textures` strip use the ASCII lowering.
- PyStr.PathJoin: only the POSIX rules of `os.path.join` (`posixpath`) are modelled, with the separator as a parameter; on a Windows host `os.path` is `ntpath`, whose drive letters and UNC paths are not modelled.
- PyStr.Basename: POSIX `os.path.basename` with the separator as a parameter; `ntpath`'s handling of drive letters and of both separators at once is not modelled. The same holds for `os.path.dirname` (`PyStr.Dirname`).
- Armatures.Scene: nodes are identified by name, and the parent map is keyed by name, whereas `complete_bone_tree` follows block parents (`GetParent()`); a node's name is assumed to fix its parent, so two same-named nodes with different parents, and a name that repeats along one ancestor chain (which the source walks through but `WellFormed` excludes as a cycle), are not modelled.
