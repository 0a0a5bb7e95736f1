# AMG Engine: the AMD model exporter and the engine's loaders, in Dafny

AMG is a small OpenGL game engine. Its models come from a Blender add-on,
`Data/Scripts/amd_export.py`, that writes the engine's binary AMD format.
The format holds the "AMD" signature, the materials, one record per mesh
object (welded vertex buffers, indices, material groups, bounds, transform
and skeleton) and the animation frames. This project models that exporter
and the engine code that reads or uses what it writes:

- the model reader (`Model::Model`) and the material, keyframe, animation,
  bone and object code that turns the records into a scene;
- the terrain grid generator;
- the DDS texture and RIFF/WAVE sound header readers;
- the font's text layout;
- the entity registry;
- the particle source's update and instance buffer.

Modules, by file:

- `wrappers.dfy` (`Wrappers`): `Option` and `Result`.
- `bytes.dfy` (`Bytes`): bytes, little-endian integers, IEEE-754 single floats kept as their bit
  patterns (equality and order as Python and C compare them), UTF-8 and C strings.
- `file_io.dfy` (`FileIO`): a file opened for reading as bytes plus a cursor (`fread`, `fseek`), and
  a file opened for writing as the bytes written so far and whether it was closed.
- `amd_scene.dfy`, `amd_search.dfy`, `amd_mesh.dfy`, `amd_mesh_props.dfy`, `amd_frames.dfy`,
  `amd_encode.dfy`, `amd_export.dfy`, `amd_export_props.dfy` (`Amd*`): the exporter.
  - The Blender scene is an input value.
  - The three linear searches are loops.
  - The face/corner loop welds vertices, pads skin weights and builds the material groups, and is
    proved equal to a specification by faces.
  - Every section's bytes are given by an encoding function, and `Export` writes them call by call
    to an `OutFile`, stopping where a `struct.pack` would raise or an early `return` is taken.
- `material.dfy`, `model_loader.dfy`, `keyframe.dfy`, `animation.dfy`, `bone.dfy`, `object.dfy`
  (`Engine*`, `ModelLoader`): the reader and its consumers.
- `model_roundtrip.dfy`, `model_object_roundtrip.dfy`, `model_export_roundtrip.dfy`: what the reader
  makes of the bytes the exporter writes.
- `terrain.dfy`, `texture.dfy`, `sfx.dfy`, `font.dfy`, `entity.dfy`, `particles.dfy`: the remaining
  engine parts.

Floats are only copied and compared in the modelled code. Where the source does float arithmetic
(the UV flip, matrix products, interpolation, the terrain and font coordinates, particle physics),
that arithmetic is a host operation passed in as a function. What is proved is therefore about
which values go where and in what order, not about the numbers computed.

## Model

| member | source | states |
|---|---|---|
| AmdSearch.IndexOfName | Data/Scripts/amd_export.py:9-15 | the result is the position of the first entry equal to the name, or -1 exactly when no entry is equal |
| AmdSearch.SearchMaterialID | Data/Scripts/amd_export.py:9-15 | the loop over the materials returns the first position whose name matches, -1 when none does |
| AmdSearch.BuscaBone | Data/Scripts/amd_export.py:40-46 | the loop over the bones returns the first position whose name matches, -1 when none does |
| AmdSearch.VertexIndexFromFirst | Data/Scripts/amd_export.py:28-37 | a non-negative result is a position where position, texcoord and normal all compare equal component by component, no earlier position does, and -1 means no position does |
| AmdSearch.BuscaVertex | Data/Scripts/amd_export.py:28-37 | the while loop returns the first matching position of the three parallel lists, or -1 |
| AmdEncode.ThenStep | Data/Scripts/amd_export.py:63-317 | writing two pieces one after the other appends both byte strings, and the second decides whether the export stops |
| AmdEncode.EachStopped | Data/Scripts/amd_export.py:172-191 | once a write loop has raised, the items after it add no bytes |
| AmdEncode.EachFinishes | Data/Scripts/amd_export.py:172-191 | a write loop finishes exactly when no item raises, and then it writes every item's bytes in order |
| AmdEncode.PackU8 | Data/Scripts/amd_export.py:78 | `struct.pack("@B", x)` writes the single byte x when 0 <= x < 256 and raises otherwise |
| AmdEncode.PackU16 | Data/Scripts/amd_export.py:171 | `struct.pack("@H", x)` raises outside 0..65535 and otherwise writes two bytes that read back as x |
| AmdEncode.PackU16Tuple | Data/Scripts/amd_export.py:196 | a multi-field `@HHH` call writes all fields little-endian or, if any is out of range, none |
| AmdEncode.PackU16EachLayout | Data/Scripts/amd_export.py:189-191 | the per-index `@H` loop finishes exactly when every index fits 16 bits, and then writes the little-endian indices back to back |
| AmdEncode.Vec3sRoundTrip | Data/Scripts/amd_export.py:172-184 | splitting the x y z floats back into triples gives the vertices and normals back |
| AmdEncode.Vec2sRoundTrip | Data/Scripts/amd_export.py:177-179 | splitting the u v floats back into pairs gives the texture coordinates back |
| AmdEncode.MaterialRecord | Data/Scripts/amd_export.py:85-87 | a material is written as eleven floats: diffuse, specular and ambient |
| AmdEncode.Basename | Data/Scripts/amd_export.py:91 | `os.path.basename` returns the suffix after the last '/', which holds no '/' |
| AmdEncode.LastDot | Data/Scripts/amd_export.py:91 | the position of the last '.', or -1 when there is none |
| AmdEncode.Stem | Data/Scripts/amd_export.py:91 | `os.path.splitext(..)[0]` is a prefix cut at the last dot, and only when a non-dot character comes before that dot |
| AmdEncode.StemSplits | Data/Scripts/amd_export.py:91 | the name loses an extension exactly when some dot follows a non-dot character |
| AmdEncode.TextureFileName | Data/Scripts/amd_export.py:91 | the recorded texture name ends in ".dds" and contains no directory |
| AmdEncode.TextureFieldLength | Data/Scripts/amd_export.py:92-93 | the length prefix is the character count, and it equals the number of UTF-8 bytes written exactly when the name is ASCII |
| AmdEncode.EncodeMaterialStops | Data/Scripts/amd_export.py:85-97 | a material record raises exactly when its texture name has 256 or more characters, and its 44 float bytes are written even then |
| AmdEncode.TransformFloats | Data/Scripts/amd_export.py:200-211 | an object's transform is thirteen floats: bounding-box maximum, location, quaternion, scale |
| AmdEncode.ColumnMajor | Data/Scripts/amd_export.py:237-242 | the sixteen floats are `m[j][i]` with i outer: entry 4i+j of the output is entry (j, i) of the matrix |
| AmdEncode.ColumnMajorInvolution | Data/Scripts/amd_export.py:237-242 | writing column by column transposes, so doing it twice gives the matrix back |
| AmdEncode.ChildIds | Data/Scripts/amd_export.py:227-232 | one child id per child of the bone |
| AmdEncode.BoneIdFields | Data/Scripts/amd_export.py:247 | the `@HHHH` call writes the third bone id in both the third and the fourth field |
| AmdEncode.ParentFieldUnambiguous | Data/Scripts/amd_export.py:214-225 | with fewer than 256 bones, the parent field is 0xFFFF exactly for a root, and otherwise a bone position or the -1 of a missing parent |
| AmdEncode.EncodeBoneStopsOnMissingParent | Data/Scripts/amd_export.py:219-221 | a parent missing from the bone list gives -1, whose `@H` call raises |
| AmdEncode.FourthBoneIdLost | Data/Scripts/amd_export.py:137-143 | with four groups, the written bone ids are the first three group ids followed by the third one again |
| AmdEncode.GroupRecordStops | Data/Scripts/amd_export.py:193-196 | a group record raises exactly when its start, end or material id is outside 0..65535, so a material id of -1 stops the export |
| AmdFrames.CollectFrames | Data/Scripts/amd_export.py:295-299 | the dictionary loop leaves the distinct key times in first-insertion order |
| AmdFrames.DistinctFramesKeys | Data/Scripts/amd_export.py:295-299 | every dictionary key is a key time, no two keys compare equal as floats, and every key time equals a key or is a NaN stored as its own key |
| AmdFrames.Insert | Data/Scripts/amd_export.py:302 | one insertion step of the sort adds exactly one copy of the new frame |
| AmdFrames.SortFrames | Data/Scripts/amd_export.py:302 | `sorted(frames)` is a permutation of the frames |
| AmdFrames.InsertAscending | Data/Scripts/amd_export.py:302 | inserting a non-NaN frame into an ascending NaN-free list keeps it ascending |
| AmdFrames.AscendingSnoc | Data/Scripts/amd_export.py:302 | a frame no smaller than every entry can be appended to an ascending list |
| AmdFrames.InsertDistinct | Data/Scripts/amd_export.py:302 | inserting a frame equal to no entry keeps the entries pairwise unequal |
| AmdFrames.SortFramesAscending | Data/Scripts/amd_export.py:302 | without NaN, `sorted` returns an ascending list |
| AmdFrames.SortFramesDistinct | Data/Scripts/amd_export.py:302 | sorting keeps pairwise-unequal frames pairwise unequal |
| AmdFrames.DistinctFramesNoNaN | Data/Scripts/amd_export.py:295-299 | without NaN key times, the dictionary keys are NaN-free and pairwise unequal |
| AmdFrames.FrameTimesStrictlyAscending | Data/Scripts/amd_export.py:295-302 | without NaN key times, the written frame times are strictly increasing, each is a key time, and every key time equals one of them |
| AmdFrames.FrameTimesCover | Data/Scripts/amd_export.py:295-302 | every key time is written (up to float equality) and only key times are written |
| AmdFrames.AscendingDistinctIsStrict | Data/Scripts/amd_export.py:302 | an ascending list without NaN and without equal entries is strictly ascending |
| AmdFrames.StrictlyAscendingUnique | Data/Scripts/amd_export.py:302 | two strictly ascending lists with the same members are equal, so the written order is the only one possible |
| AmdMesh.PaddedWeights | Data/Scripts/amd_export.py:137-143 | a vertex's weights are its group weights right-padded with 0 to four entries, and empty when it has no groups |
| AmdMesh.PaddedBones | Data/Scripts/amd_export.py:137-143 | its bone list is the group ids right-padded with bone 0 to four entries, and empty when it has no groups |
| AmdMesh.WeldCorner | Data/Scripts/amd_export.py:144-156 | one corner pushes exactly one index and keeps the parallel vertex lists aligned |
| AmdMesh.WeldCorners | Data/Scripts/amd_export.py:125-156 | the corner loop pushes one index per corner |
| AmdMesh.WeldFaces | Data/Scripts/amd_export.py:124-156 | after n triangles the index buffer holds 3n indices |
| AmdMesh.SlotMaterialID | Data/Scripts/amd_export.py:162 | a group's material id is the material's position by name, and the lookup fails exactly when the slot is missing or empty |
| AmdMesh.CloseLast | Data/Scripts/amd_export.py:160-161 | closing the open group sets its end and changes no other group |
| AmdMesh.SwitchGroup | Data/Scripts/amd_export.py:159-164 | the group step fails exactly when the material changes and the slot cannot be resolved, and afterwards the current material is the face's |
| AmdMesh.GroupsPrefix | Data/Scripts/amd_export.py:159-164 | after n faces the current material is the last face's material index, or -1 before any face |
| AmdMesh.FirstBadFace | Data/Scripts/amd_export.py:133-162 | the first face with a corner of more than four groups or an unresolvable slot, and every face before it is good |
| AmdMesh.LoopPrefixErrorPersists | Data/Scripts/amd_export.py:133-135 | once the face loop has stopped, later faces do not change the outcome |
| AmdMesh.CollectWeights | Data/Scripts/amd_export.py:130-143 | the append loops build exactly the padded weight and bone lists |
| AmdMesh.AddCorner | Data/Scripts/amd_export.py:126-156 | the corner loop body performs the weld step |
| AmdMesh.AddFaceCorners | Data/Scripts/amd_export.py:125-156 | the corner loop of one face stops exactly when some corner has more than four groups, and otherwise welds all its corners |
| AmdMesh.AddGroup | Data/Scripts/amd_export.py:158-164 | the material bookkeeping after a face performs the group step |
| AmdMesh.AddFace | Data/Scripts/amd_export.py:124-164 | one face of the polygon loop advances the loop's state by exactly that face |
| AmdMesh.AddFaces | Data/Scripts/amd_export.py:124-164 | the polygon loop computes the state after all faces, or the first face's error |
| AmdMesh.BuildObjectBuffers | Data/Scripts/amd_export.py:108-166 | building one mesh object runs the face loop and then closes the last group |
| AmdMeshProps.WeldCornerWellformed | Data/Scripts/amd_export.py:144-156 | one corner keeps every index in range and adds at most one vertex |
| AmdMeshProps.WeldCornersWellformed | Data/Scripts/amd_export.py:125-156 | a face's corners keep the buffers well formed and add at most one vertex each |
| AmdMeshProps.WeldFacesWellformed | Data/Scripts/amd_export.py:124-156 | after any number of faces every index names a stored vertex, each vertex has one texcoord and one normal, weight and bone records are one per weighted vertex, and there are no more vertices than indices |
| AmdMeshProps.BuildObjectShape | Data/Scripts/amd_export.py:108-166 | an exported object has three indices per face and well-formed buffers |
| AmdMeshProps.ChangePoints | Data/Scripts/amd_export.py:159 | the faces that open a group are faces whose material differs from the previous one, and the first face always opens one |
| AmdMeshProps.ChangePointsExact | Data/Scripts/amd_export.py:159 | every face that changes material is a change point, and the change points increase |
| AmdMeshProps.OpenGroupFollows | Data/Scripts/amd_export.py:159-164 | closing the last group and opening one at a change point keeps the group invariant |
| AmdMeshProps.CloseLastFollows | Data/Scripts/amd_export.py:165 | closing the open group at the end keeps every earlier group |
| AmdMeshProps.SwitchGroupOpens | Data/Scripts/amd_export.py:159-164 | a face that changes material closes the open group one triangle after it and opens a group at itself |
| AmdMeshProps.KeepGroupFollows | Data/Scripts/amd_export.py:159 | a face that keeps the material changes no group |
| AmdMeshProps.GroupsInvariant | Data/Scripts/amd_export.py:158-164 | after any number of faces the groups open exactly at the change points, with their slot's material, and each closed group ends one triangle after the next one starts |
| AmdMeshProps.BuildObjectGroups | Data/Scripts/amd_export.py:158-165 | the written groups start at triangle 0, open at each change of material, overlap their successor by one triangle, and the last ends at the face count |
| AmdMeshProps.BuildObjectSucceeds | Data/Scripts/amd_export.py:124-165 | a mesh object is built exactly when it has faces, no corner has more than four groups, and every material change names a filled slot |
| AmdMeshProps.TooManyInfluencesCause | Data/Scripts/amd_export.py:133-135 | the too-many-weights stop happens only because a corner has more than four groups, and such a corner always stops the build |
| AmdMeshProps.RepeatedCornerWelds | Data/Scripts/amd_export.py:144-148 | a corner stored once is welded to itself the next time exactly when its V equals its flipped V, because the lookup compares the raw UV with the stored flipped one |
| AmdMeshProps.ZeroVNeverWelds | Data/Scripts/amd_export.py:144-148 | with V = 0 and the flip `1 - v`, a repeated corner adds a new vertex every time |
| AmdExport.Indexed | Data/Scripts/amd_export.py:287 | the actions paired with their positions in the action list |
| AmdExport.WriteOut | Data/Scripts/amd_export.py:75 | one `f.write` appends the piece's bytes to the open file and reports whether the piece raised |
| AmdExport.WriteEach | Data/Scripts/amd_export.py:172-191 | a write loop appends exactly the items' bytes up to the first that raises, and reports whether one did |
| AmdExport.CountMeshObjects | Data/Scripts/amd_export.py:69-72 | the counting loop returns the number of objects of type 'MESH' |
| AmdExport.BuildMeshObjects | Data/Scripts/amd_export.py:99-166 | the object loop builds every mesh object in order and returns the first build error |
| AmdExport.BuildMeshesErrorPersists | Data/Scripts/amd_export.py:133-135 | an error in some object ends the object loop with that error whatever follows |
| AmdExport.WriteObject | Data/Scripts/amd_export.py:169-250 | one object record is written field by field as the object's encoding specifies, stopping where a pack raises |
| AmdExport.WriteBuffers | Data/Scripts/amd_export.py:171-191 | the vertex count, positions, texcoords, normals, index count and indices are written in this order |
| AmdExport.WriteGroups | Data/Scripts/amd_export.py:193-196 | the u8 group count and one `@HHH` record per group |
| AmdExport.WriteArmature | Data/Scripts/amd_export.py:213-250 | the bone count, each bone's parent, children and two matrices, then the weight and bone-id records, or a single 0 without an armature |
| AmdExport.WriteObjects | Data/Scripts/amd_export.py:168-250 | the u8 object count and then every object record |
| AmdExport.WriteAction | Data/Scripts/amd_export.py:294-312 | one action's frame count, then each sorted frame time with every bone's position and rotation |
| AmdExport.FindArmature | Data/Scripts/amd_export.py:273-282 | the search returns the armature of the first mesh object, or nothing when there is no mesh object |
| AmdExport.CountActions | Data/Scripts/amd_export.py:253-256 | the counting loop returns the number of actions whose id_root is 'OBJECT' |
| AmdExport.WriteIndexedAction | Data/Scripts/amd_export.py:288-312 | the body of the action loop writes that action's record |
| AmdExport.WriteActions | Data/Scripts/amd_export.py:287-312 | the loop tests the stale `a`: it writes nothing when that test is false, fails on the first body when there is no mesh object, and otherwise writes every action's record |
| AmdExport.WriteAnimation | Data/Scripts/amd_export.py:252-312 | the animation section as the gating, armature search, counts and action loop produce it |
| AmdExport.WriteHeader | Data/Scripts/amd_export.py:75-97 | the signature, the u8 material count and each material record |
| AmdExport.WriteBody | Data/Scripts/amd_export.py:99-312 | the object loop, the object records and the animation section, in this order |
| AmdExport.Export | Data/Scripts/amd_export.py:63-317 | the file holds exactly the bytes the export specification gives, and it is closed exactly when nothing raised |
| AmdExportProps.ExportStartsWithMagic | Data/Scripts/amd_export.py:66-75 | every file, complete or not, starts with "AMD" |
| AmdExportProps.TooManyMaterials | Data/Scripts/amd_export.py:78 | more than 255 materials: the count's pack raises right after "AMD" and the file is left open |
| AmdExportProps.BuildErrorLeavesHeader | Data/Scripts/amd_export.py:99-168 | an object that fails to build leaves exactly the header in an unclosed file, and the object count is never written |
| AmdExportProps.BuildMeshesError | Data/Scripts/amd_export.py:102-135 | a build error is the error of some mesh object of the scene |
| AmdExportProps.BuildMeshesRecords | Data/Scripts/amd_export.py:99-168 | a successful object loop gives one record per mesh object, so the u8 object count matches the records that follow |
| AmdExportProps.CountMeshesZero | Data/Scripts/amd_export.py:69-72 | the mesh count is zero exactly when no object is a mesh |
| AmdExportProps.FirstMeshArmatureNone | Data/Scripts/amd_export.py:273-282 | the armature search finds nothing exactly when no object is a mesh |
| AmdExportProps.ArmatureSearchEmpty | Data/Scripts/amd_export.py:273-282 | the armature search comes back empty exactly when the mesh count is zero |
| AmdExportProps.FirstMeshArmatureFound | Data/Scripts/amd_export.py:274-282 | the search stops at the first mesh object and returns its armature |
| AmdExportProps.AnimationGated | Data/Scripts/amd_export.py:261-271 | with several objects and some action, or with no action, the animation section is a single 0 |
| AmdExportProps.AnimationNoArmature | Data/Scripts/amd_export.py:276-280 | when the first mesh object has no armature the file is closed with no animation byte |
| AmdExportProps.CountObjectActionsAll | Data/Scripts/amd_export.py:253-256 | every action is counted exactly when every action is an object action |
| AmdExportProps.StaleTestWritesNoAction | Data/Scripts/amd_export.py:285-288 | when the last action is not an object action, the section announces its actions and then holds none |
| AmdExportProps.StaleTestWritesEveryAction | Data/Scripts/amd_export.py:285-312 | when the last action is an object action, every action gets a record, and the record count equals the announced count exactly when all actions are object actions |
| AmdExportProps.AnimationCounts | Data/Scripts/amd_export.py:285-286 | the two u8 counts are written as two bytes ahead of the records |
| AmdExportProps.AnimationWithoutMesh | Data/Scripts/amd_export.py:273-289 | with no mesh object and an object action last, the export raises right after the two counts |
| AmdExportProps.ActionFrameCount | Data/Scripts/amd_export.py:301 | an action record starts with the u16 number of distinct key times |
| EngineMaterial.NewMaterial | source/Material.cpp:15-25 | diffuse takes floats 0, 1, 2 and 4, specular 5, 6, 7 and 9, the powers floats 3 and 8, ambient repeats float 10 with alpha 1, so every one of the 11 floats is kept; the texture path is "Data/Texture/" followed by the name |
| EngineMaterial.NewMaterialInjective | source/Material.cpp:15-25 | two records give the same material only when they agree on all eleven floats and on the name |
| EngineMaterial.PathOverflowBound | source/Material.cpp:21-22 | the 128-byte path buffer overflows exactly when the name is longer than 114 characters |
| EngineObject.LastRoot | source/Object.cpp:40-49 | the last bone with parent 0xFFFF among the first n, or none when no bone has that parent |
| EngineObject.GroupDraw | source/Object.cpp:73-80 | a group is drawn exactly when its material index is below the material count |
| EngineObject.DrawnGroups | source/Object.cpp:73-80 | the groups drawn are groups whose material index is in range |
| EngineObject.DrawCallsAreGroups | source/Object.cpp:73-80 | one draw call per group with a material in range, in group order, each drawing 3 x (last - first) indices from byte offset 6 x first |
| EngineObject.DrawnGroupsAscending | source/Object.cpp:73-80 | the draw calls keep the order of the groups |
| EngineObject.Object.constructor | source/Object.cpp:16-26 | a new object is at the origin, at angle 0 about the z axis, unit scale, with no groups, materials or root bone |
| EngineObject.Object.SetMaterialGroups | source/Object.cpp:28-33 | the groups, materials and counts are stored as given, and nothing else changes |
| EngineObject.Object.CreateBoneHierarchy | source/Object.cpp:35-51 | more than sixteen bones is an error; otherwise the root bone is the tree grown from the last bone whose parent is 0xFFFF, and earlier roots are dropped |
| EngineObject.Object.Draw | source/Object.cpp:53-86 | the bone matrices are recalculated from the root, the draw calls are those of the groups with a material in range, and the groups are unchanged |
| ModelLoader.ParseMaterial | source/Model.cpp:35-46 | a material record is 44 float bytes, a length byte and that many name bytes, and it is read exactly when all of them are present |
| ModelLoader.ParseMany | source/Model.cpp:35-86 | reading k records gives k records |
| ModelLoader.ParseObjectOf | source/Model.cpp:56-71 | an object record is its vertex arrays, then its indices, then its groups, read back to back, and its length is the sum of theirs |
| ModelLoader.ParseObjectStops | source/Model.cpp:56-71 | an object record is not read when any of its three sections is not |
| ModelLoader.ParseCounted | source/Model.cpp:31-50 | a u8 count followed by exactly that many records |
| ModelLoader.ParseModel | source/Model.cpp:23-89 | a file is rejected for its signature exactly when its first three bytes are not "AMD", and an accepted file has as many materials as its count byte says |
| ModelLoader.ParseManyStuck | source/Model.cpp:35-46 | once a record cannot be read, no longer list can be read either |
| ModelLoader.ParsedBufferSizes | source/Model.cpp:57-78 | the arrays read hold 3, 2 and 3 floats per vertex, and the byte sizes handed to the buffers are 12n, 8n and 2 per index |
| ModelLoader.ParseManyNext | source/Model.cpp:56-86 | the next record is read where the earlier ones end |
| ModelLoader.ParseManyNextFails | source/Model.cpp:56-86 | a list is not read when its next record is not |
| ModelLoader.ParseManyPrefix | source/Model.cpp:56-86 | reading k records reads each shorter prefix of them on the way |
| ModelLoader.ParseManySecond | source/Model.cpp:56-86 | the second record is whatever the bytes after the first one parse to |
| ModelLoader.ReadMaterial | source/Model.cpp:36-45 | the three freads of one material advance the cursor by the record's length and yield the parsed material |
| ModelLoader.ReadVertexArrays | source/Model.cpp:57-65 | the vertex count and the three float arrays are read as the parser specifies |
| ModelLoader.ReadIndices | source/Model.cpp:66-68 | the index count and the indices are read as the parser specifies |
| ModelLoader.ReadGroups | source/Model.cpp:69-71 | the group count and the three u16 values per group are read as the parser specifies |
| ModelLoader.ReadSections | source/Model.cpp:57-71 | the three sections are read one after the other, each where the one before ended |
| ModelLoader.SectionsObject | source/Model.cpp:57-71 | an object is read exactly when its three sections are |
| ModelLoader.ReadObject | source/Model.cpp:57-79 | one object's freads yield the parsed record and advance the cursor by its length |
| ModelLoader.ReadMaterialNext | source/Model.cpp:35-46 | one turn of the material loop extends the records read so far by the next one |
| ModelLoader.ReadMaterialList | source/Model.cpp:35-46 | the material loop reads exactly the records the parser gives |
| ModelLoader.ReadMaterials | source/Model.cpp:31-46 | the count byte and the material loop |
| ModelLoader.ReadObjectNext | source/Model.cpp:56-86 | one turn of the object loop extends the records read so far by the next one |
| ModelLoader.ReadObjectList | source/Model.cpp:56-86 | the object loop reads exactly the records the parser gives |
| ModelLoader.ReadObjects | source/Model.cpp:48-86 | the count byte and the object loop |
| ModelLoader.LoadModel | source/Model.cpp:23-89 | loading an opened file gives exactly the parser's result, or its signature or truncation error |
| FileIO.FileReader.Read | source/Model.cpp:37 | `fread` returns the n bytes at the cursor and moves past them, or reports a short read and leaves the cursor at the end |
| FileIO.FileReader.Skip | source/SFX.cpp:45 | `fseek(.., SEEK_CUR)` moves the cursor forward by n |
| FileIO.OutFile.Write | Data/Scripts/amd_export.py:75 | a write appends the bytes to the open file |
| ModelRoundTrip.Utf8OfAscii | Data/Scripts/amd_export.py:93 | an ASCII name is written as one byte per character, its own code |
| ModelRoundTrip.CStringOfAscii | source/Model.cpp:40-42 | the NUL-terminated copy of an ASCII name without NUL gives the name back |
| ModelRoundTrip.ExportedMaterialFields | source/Material.cpp:15-25 | the engine material built from an exported record has the exporter's diffuse colour and alpha, diffuse intensity, specular colour and alpha, specular intensity, and the ambient factor in r, g and b |
| ModelRoundTrip.TextureField | Data/Scripts/amd_export.py:88-97 | the texture field of a loadable name is its length byte and its bytes |
| ModelRoundTrip.ParseMaterialOf | source/Model.cpp:36-43 | eleven floats, a length byte and an ASCII name without NUL read back as the material built from them |
| ModelRoundTrip.EncodedMaterialBytes | Data/Scripts/amd_export.py:85-97 | a material with a loadable texture name is written whole |
| ModelRoundTrip.ParseEncodedMaterial | source/Model.cpp:36-45 | one exported material reads back as the engine material built from it, consuming exactly its bytes |
| ModelRoundTrip.ParseMaterialExtend | source/Model.cpp:36-45 | the material reader looks at no byte past the record |
| ModelRoundTrip.ParseEach | source/Model.cpp:35-46 | when each record reads back whole whatever follows it, a loop of records reads back as all of them, in order |
| ModelRoundTrip.ParseEncodedMaterials | source/Model.cpp:35-46 | the exporter's material loop reads back as every material, in order |
| ObjectRoundTrip.GroupRecordsBytes | Data/Scripts/amd_export.py:194-196 | the group loop finishes exactly when every start, end and material fits a u16, and then writes them three per group, in order |
| ObjectRoundTrip.CountThen | Data/Scripts/amd_export.py:193 | a u8 count that is written fits in a byte and precedes its block |
| ObjectRoundTrip.EncodeGroupsBytes | Data/Scripts/amd_export.py:193-196 | a finished group section is the count byte and the group values |
| ObjectRoundTrip.EncodeBuffersBytes | Data/Scripts/amd_export.py:171-191 | the buffer section finishes exactly when the vertex count, the index count and every index fit a u16, and is then the count, the floats, the index count and the indices |
| ObjectRoundTrip.ThenFinishes | Data/Scripts/amd_export.py:171-191 | two writes in a row finish exactly when both do, and then write both |
| ObjectRoundTrip.WellformedIndicesFit | Data/Scripts/amd_export.py:144-156 | indices that point into a vertex list of at most 65535 entries all fit a u16 |
| ObjectRoundTrip.Slices4 | source/Model.cpp:57-65 | where each of four consecutive blocks lies for the reader |
| ObjectRoundTrip.ParseVertexAt | source/Model.cpp:57-65 | the vertex section reads its three float blocks from where they lie and ends after them |
| ObjectRoundTrip.VertexCountAt | source/Model.cpp:57-65 | the vertex section is read and takes 2 + 32n bytes |
| ObjectRoundTrip.PositionsAt | source/Model.cpp:63 | the positions read are the floats of the first block |
| ObjectRoundTrip.TexCoordsAt | source/Model.cpp:64 | the texture coordinates read are the floats of the second block |
| ObjectRoundTrip.NormalsAt | source/Model.cpp:65 | the normals read are the floats of the third block |
| ObjectRoundTrip.ParseVertexBlocks | source/Model.cpp:57-65 | a count and three blocks of the right sizes read back as their floats |
| ObjectRoundTrip.ParseIndexBlocks | source/Model.cpp:66-68 | an index count and its block read back as the indices |
| ObjectRoundTrip.ParseGroupBlocks | source/Model.cpp:69-71 | a group count and its block read back as the group values |
| ObjectRoundTrip.LoadedObject | source/Model.cpp:57-71 | the arrays the engine gets hold three floats per vertex and three values per group |
| ObjectRoundTrip.EncodedSections | Data/Scripts/amd_export.py:171-196 | a finished buffer and group section is the vertex, index and group sections the reader expects |
| ObjectRoundTrip.ParseFloatBlocks | source/Model.cpp:57-65 | a vertex count and three float arrays of matching sizes read back as those arrays |
| ObjectRoundTrip.ParseVertexSection | source/Model.cpp:57-65 | the exported vertex section reads back as the positions, UVs and normals |
| ObjectRoundTrip.ParseIndexSection | source/Model.cpp:66-68 | the exported index section reads back as the indices |
| ObjectRoundTrip.ParseGroupSection | source/Model.cpp:69-71 | the exported group section reads back as the group values |
| ObjectRoundTrip.ParseObjectSections | source/Model.cpp:57-71 | three sections that their readers read whole read back as one object record of their total length |
| ObjectRoundTrip.ParseSections | source/Model.cpp:57-71 | the sections of an aligned mesh read back as its record, whatever follows them |
| ObjectRoundTrip.ParseEncodedObject | source/Model.cpp:57-71 | an exported object's buffers and groups read back as its positions, UVs, normals, indices and group values, and the reader stops right after the groups |
| ObjectRoundTrip.OnlyObject | source/Model.cpp:56-86 | a list of one object is that object's record |
| ObjectRoundTrip.SecondAfterEncoded | source/Model.cpp:56-86 | the second object record is read from the bytes right after the first object's groups |
| ObjectRoundTrip.SecondAfter | source/Model.cpp:56-86 | the second record of a list is what the bytes after the first record read as |
| ExportRoundTrip.ThenExtends | Data/Scripts/amd_export.py:63-317 | a later write only adds bytes after the earlier ones |
| ExportRoundTrip.EachFirst | Data/Scripts/amd_export.py:169 | a loop over a non-empty list starts with its first item's bytes |
| ExportRoundTrip.HeaderBytes | Data/Scripts/amd_export.py:75-97 | with fewer than 256 loadable materials the header is "AMD", the count and the material records |
| ExportRoundTrip.CountedBlock | Data/Scripts/amd_export.py:168-196 | fixed bytes, a count byte that fits and a finished block are written one after another |
| ExportRoundTrip.ObjectRecordBytes | Data/Scripts/amd_export.py:169-211 | an object record begins with its buffer section, its group section and its transform |
| ExportRoundTrip.ExportParts | Data/Scripts/amd_export.py:63-168 | a file whose object loop succeeds is the header, then the objects, then the rest |
| ExportRoundTrip.ObjectsFirst | Data/Scripts/amd_export.py:168-169 | the object block is the count, then the first object's record |
| ExportRoundTrip.ExportLayout | Data/Scripts/amd_export.py:63-211 | the file is the header, the object count, the first object's buffers, groups and transform, then the rest |
| ExportRoundTrip.ModelParts | source/Model.cpp:27-50 | where the reader finds the signature, the two counts and the blocks |
| ExportRoundTrip.ParseCountedOf | source/Model.cpp:48-50 | a u8 count and the block after it read as that many records |
| ExportRoundTrip.TwoCountedBlocks | source/Model.cpp:31-50 | the material block is read after the signature and the object block right after the materials |
| ExportRoundTrip.ParseModelAfterMaterials | source/Model.cpp:48-89 | after the materials, the model is its materials and the object records, or truncated |
| ExportRoundTrip.LoadSingleObjectExport | source/Model.cpp:23-89 | a file exported from a scene with one mesh object loads as the scene's materials and that object's positions, UVs, normals, indices and groups |
| ExportRoundTrip.LoadMaterialsAndObject | source/Model.cpp:23-89 | the signature, materials and one object, whatever follows, load as those materials and that object |
| ExportRoundTrip.LowHalfOfFloat | source/Model.cpp:57 | the first two bytes of a float read as a u16 give the low half of its bits |
| ExportRoundTrip.ParseObjectAtTransform | source/Model.cpp:57-63 | the reader takes the low sixteen bits of a transform's first float as a vertex count |
| ExportRoundTrip.SecondObjectMisread | source/Model.cpp:56-71 | with two or more objects, the second record's vertex count is the low half of the first object's bounding-box maximum x, because the loader does not skip the transform and armature the exporter writes |
| EngineBone.NewBone | source/Bone.cpp:22-33 | a new bone has its id, identity matrices, angle 0 about (0, 1, 0), no children and no owner |
| EngineBone.Grown | source/Bone.cpp:35-58 | createChildren keeps the bone's id and appends one child per entry of its table row |
| EngineBone.ChildBone | source/Bone.cpp:51-53 | each child is a new bone with the entry's id, marked dependant |
| EngineBone.CreateChildren | source/Bone.cpp:35-58 | the recursive method builds exactly the grown tree |
| EngineBone.GrownFromTable | source/Bone.cpp:35-58 | a bone grown from the table has, at every node, the matrices and children of that node's table row |
| EngineBone.Preorder | source/Bone.cpp:68-70 | the ids of a tree, each bone first, then its children in order |
| EngineBone.Postorder | source/Bone.cpp:68-96 | the ids of a tree, the children in order first, then the bone |
| EngineBone.Calculated | source/Bone.cpp:60-97 | calculateBoneMatrix keeps the bone's id and its number of children |
| EngineBone.CalculatedOfAt | source/Bone.cpp:68-70 | the loop's k-th child is that child calculated under the parent's pose |
| EngineBone.CalculatedChild | source/Bone.cpp:68-70 | a calculated bone's children are its children calculated under its pose, before the inverse model matrix is applied |
| EngineBone.Uploads | source/Bone.cpp:96 | the last upload of a subtree is its root's transform |
| EngineBone.CalculateBoneMatrix | source/Bone.cpp:60-97 | the recursive method returns the calculated tree and its uniform uploads, in call order |
| EngineBone.CalculatedKeepsIds | source/Bone.cpp:60-97 | recalculating a tree keeps every id in its place, in preorder and in postorder |
| EngineBone.UploadsInPostorder | source/Bone.cpp:68-96 | the uniforms are uploaded once per bone, in postorder |
| EngineBone.PathBones | source/Bone.cpp:68-70 | the bones on a path from the root, the root first |
| EngineBone.ChainHead | source/Bone.cpp:61-65 | the pose chain of a path is the chain below its first bone under that bone's pose |
| EngineBone.CalculatedAlongPath | source/Bone.cpp:60-97 | the transform left on a bone is the product of L x R of the bones from the root down to it, times its own inverse model matrix, so no ancestor's inverse enters it |
| EngineKeyframe.PositionAt | source/Keyframe.cpp:35-36 | bone i's position is the three floats at 7i |
| EngineKeyframe.RotationAt | source/Keyframe.cpp:37 | bone i's rotation is the four floats at 7i + 3, in memory order |
| EngineKeyframe.PoseBytesAreFloats | Data/Scripts/amd_export.py:306-312 | the pose bytes the exporter writes are the little-endian floats of the pose records |
| EngineKeyframe.FrameRecordFloats | Data/Scripts/amd_export.py:305-312 | a frame record read as floats is the frame time, then seven floats per bone |
| EngineKeyframe.UnpackPoseFloats | source/Keyframe.cpp:34-38 | bone i of a pose record is found 7i floats in, whatever follows the record |
| EngineKeyframe.Keyframe.constructor | source/Keyframe.cpp:29-39 | a keyframe keeps its instant and bone count and holds bone i's position and rotation from the seven floats at 7i |
| EngineKeyframe.Keyframe.GetInstant | source/Keyframe.cpp:45-47 | returns the instant |
| EngineKeyframe.Keyframe.GetPosition | source/Keyframe.cpp:54-56 | returns bone index's position, for an index in range |
| EngineKeyframe.Keyframe.GetRotation | source/Keyframe.cpp:63-65 | returns bone index's rotation, for an index in range |
| EngineKeyframe.KeyframeOfPoses | source/Keyframe.cpp:29-39 | a keyframe built from an exported frame's floats holds exactly that frame's poses |
| EngineAnimation.LaterFrom | source/Animation.cpp:57-63 | the first keyframe from i on whose instant is later than the time, and every keyframe before it is not later |
| EngineAnimation.Settings | source/Animation.cpp:75-86 | the first assignment of animateBone is to the bone it is called on |
| EngineAnimation.SettingsOfNext | source/Animation.cpp:83-85 | one more turn of the child loop appends that child's subtree of assignments |
| EngineAnimation.SettingsInPreorder | source/Animation.cpp:75-86 | animateBone sets every bone once, each before its children and the children in vector order |
| EngineAnimation.Animation.constructor | source/Animation.cpp:30-35 | the length is the last keyframe's instant and the time starts at 0 |
| EngineAnimation.NewAnimation | source/Animation.cpp:30-35 | building an animation fails exactly when there are no keyframes, where the length would be read from `keyframes[-1]`; otherwise the length is the last keyframe's instant and the time starts at 0 |
| EngineAnimation.Animation.IncreaseTime | source/Animation.cpp:41-46 | the time advances by delta; past the length it wraps to the fractional part and the integral part is stored in the length itself |
| EngineAnimation.Animation.GetKeyframes | source/Animation.cpp:54-66 | when some keyframe after the first is later than the time, last is the earliest such and first the one before it, otherwise both are the last keyframe; progress is (time - first) / (last - first) |
| EngineAnimation.Animation.AnimateBone | source/Animation.cpp:75-86 | the recursive method performs exactly the assignments of the specification, in order |
| EngineTerrain.GridSizes | source/Terrain.cpp:16-35 | the grid has 128 x 128 vertices, 127 x 127 cells, two triangles per cell and three indices per triangle |
| EngineTerrain.VertexIdInjective | source/Terrain.cpp:36-49 | each vertex number stands for one grid position |
| EngineTerrain.CellId | source/Terrain.cpp:50-64 | cells are numbered row by row below the cell count |
| EngineTerrain.Corner | source/Terrain.cpp:53-62 | each corner of a cell's triangles lies in the cell |
| EngineTerrain.CellTriangles | source/Terrain.cpp:53-62 | a cell is split along its bottom-left to top-right diagonal into two triangles of the same winding, which between them use exactly its four corners |
| EngineTerrain.RowVerticesAt | source/Terrain.cpp:38-47 | vertex x of row z has position (x, 0, z) scaled and texture coordinates (x, z) scaled |
| EngineTerrain.GridVertexAt | source/Terrain.cpp:37-49 | vertex (x, z) of the grid lies at column x and row z of the plane y = 0 |
| EngineTerrain.GridTexCoordAt | source/Terrain.cpp:45-46 | vertex (x, z) has texture coordinates (x, z) scaled to the unit square |
| EngineTerrain.UpNormalAt | source/Terrain.cpp:42-44 | every normal is (0, 1, 0) |
| EngineTerrain.RowIndicesAt | source/Terrain.cpp:52-63 | cell gx of a row has its six indices at 6 gx of the row |
| EngineTerrain.GridCellAt | source/Terrain.cpp:50-64 | cell (gx, gz)'s two triangles sit at six times its cell number in the index buffer |
| EngineTerrain.GridArrays | source/Terrain.cpp:36-49 | the grid's arrays, vertex by vertex: position on the plane y = 0, normal straight up, texture coordinates scaled to the unit square |
| EngineTerrain.VertexArraysAt | source/Terrain.cpp:38-47 | the arrays' entries for one vertex |
| EngineTerrain.GridCells | source/Terrain.cpp:50-64 | the index buffer holds every cell's two triangles at six times its cell number |
| EngineTerrain.DrawSkipsLastTriangle | source/Terrain.cpp:80-105 | the single group draws every index but the last three, so the grid's last triangle is never drawn, and nothing is drawn without a material |
| EngineTerrain.Terrain.constructor | source/Terrain.cpp:23-85 | the tile is placed x and y tiles along, the arrays hold the grid vertex by vertex and cell by cell, and there is one group of material 0 |
| EngineTerrain.Terrain.Draw | source/Terrain.cpp:91-108 | the draw call of the one group, made only when its material is in range |
| EngineTerrain.FillGrid | source/Terrain.cpp:36-49 | the vertex loop fills every vertex's position, normal and texture coordinates |
| EngineTerrain.FillRow | source/Terrain.cpp:38-48 | the inner vertex loop appends one row of vertices after the rows before it |
| EngineTerrain.PutVertex | source/Terrain.cpp:39-47 | one turn of the vertex loop writes vertex k and leaves the ones before it |
| EngineTerrain.FillIndices | source/Terrain.cpp:50-64 | the index loop writes the two triangles of every cell |
| EngineTerrain.FillCellRow | source/Terrain.cpp:52-63 | the inner index loop appends the cells of one row after the rows before it |
| EngineTexture.AsInt32 | source/Texture.cpp:36-37 | an unsigned header field stored in an int field keeps its value modulo 2^32 within the int range |
| EngineTexture.CRem | source/Texture.cpp:47 | C's `%` truncates toward zero: the remainder has the sign of the dividend |
| EngineTexture.OddAsInt32 | source/Texture.cpp:47 | the odd-dimension test on the int fields is the parity of the header's unsigned value |
| EngineTexture.HalveFirst | source/Texture.cpp:86-87 | halving once and then k times is halving k + 1 times |
| EngineTexture.HalveToZero | source/Texture.cpp:82-87 | a dimension below 2^j is zero once halved j times |
| EngineTexture.BufferSize | source/Texture.cpp:52 | the payload is the linear size, doubled when there is more than one mipmap |
| EngineTexture.FormatOf | source/Texture.cpp:59-72 | DXT1, DXT3 and DXT5 map to their S3TC formats and every other FourCC is refused |
| EngineTexture.BlockSize | source/Texture.cpp:79 | 8 bytes per block for DXT1 and 16 otherwise |
| EngineTexture.ParseDds | source/Texture.cpp:21-91 | a file is refused as not DDS exactly when its first four bytes are not "DDS " |
| EngineTexture.ParseDdsOutcome | source/Texture.cpp:26-72 | a DDS file is refused for odd size exactly when a dimension is odd, and accepted exactly when both are even, the payload is all there and the FourCC is DXT1, DXT3 or DXT5; an accepted file keeps the header's dimensions and payload size |
| EngineTexture.HeaderField | source/Texture.cpp:33-40 | a header field is the file's u32 four bytes further on |
| EngineTexture.MipChainLevels | source/Texture.cpp:82-88 | level k is number level + k, has the dimensions halved k times, and at least one of them is nonzero |
| EngineTexture.MipChainLevelAt | source/Texture.cpp:82-88 | the same for one level, by induction on its position |
| EngineTexture.MipChainSizes | source/Texture.cpp:83 | each level's size is ((w+3)/4)((h+3)/4) times the block size of its own dimensions, in unsigned arithmetic |
| EngineTexture.MipChainSizeAt | source/Texture.cpp:83 | the same for one level, by induction on its position |
| EngineTexture.MipChainOffsets | source/Texture.cpp:80-85 | the first level is at offset 0 and each next one starts where the previous one ends, modulo 2^32 |
| EngineTexture.MipChainLength | source/Texture.cpp:82 | the loop stops at the mipmap count or once both dimensions have halved to zero, whichever comes first |
| EngineTexture.ChainAtMost | source/Texture.cpp:82-87 | dimensions below 2^j give at most j levels |
| EngineTexture.MipChainBound | source/Texture.cpp:82 | a file's chain has at most the header's count of levels and at most 32 |
| EngineTexture.LevelSizeExact | source/Texture.cpp:83 | below 32768 pixels a side nothing wraps: a level's size is its block count times the block size |
| EngineTexture.LevelsUnchecked | source/Texture.cpp:52-85 | offsets are never checked against the payload: a 4x4 DXT1 file with one mipmap and linear size 0 uploads 8 bytes from an empty payload |
| EngineTexture.UploadLevels | source/Texture.cpp:79-88 | the mipmap loop uploads exactly the levels of the chain |
| EngineTexture.LoadTexture | source/Texture.cpp:21-91 | loading an opened file gives exactly the specification's texture or error |
| EngineSfx.AlFormat | source/SFX.cpp:75-77 | the format is stereo exactly for two channels and 16-bit exactly for 16 bits per sample |
| EngineSfx.ParseWav | source/SFX.cpp:22-81 | a file is refused for its signature exactly when it does not start with "RIFF" or has no "WAVE" at 8, and an accepted file's samples are as many bytes as its data size |
| EngineSfx.WavFields | source/SFX.cpp:56-69 | the fields after the PCM tag give as many samples as the data size |
| EngineSfx.EncodeWav | source/SFX.cpp:28-69 | the canonical header is 44 bytes followed by the samples |
| EngineSfx.EncodeWavLayout | source/SFX.cpp:28-69 | where each field of the canonical header lies |
| EngineSfx.ParseEncodedWav | source/SFX.cpp:22-81 | a canonical PCM file is accepted and yields its samples, sample rate and the format of its channels and width |
| EngineSfx.OnlyPcm | source/SFX.cpp:42-53 | a file whose fmt chunk is not 16 bytes of PCM is refused as unsupported |
| EngineSfx.LoadSfx | source/SFX.cpp:22-81 | the constructor's reads and seeks give exactly the specification's sound or error |
| EngineSfx.LoadFields | source/SFX.cpp:56-72 | the reads after the PCM tag give exactly the fields' sound or error |
| EngineFont.RunLength | source/Font.cpp:116-122 | a token runs up to the next space or the end of the text, and holds no space |
| EngineFont.WordsAreWords | source/Font.cpp:116-123 | every token strtok returns is non-empty and holds no space |
| EngineFont.WordsKeepCharacters | source/Font.cpp:116-123 | the tokens hold every non-space character of the text, in order, and nothing else |
| EngineFont.WordsOfJoin | source/Font.cpp:116-123 | splitting words joined with single spaces gives those words back |
| EngineFont.SplitWords | source/Font.cpp:107-123 | the strtok loop collects the text's words in order, and writeLen is the number of their characters |
| EngineFont.ScanWord | source/Font.cpp:116-118 | a token ends at the next space or at the end of the text |
| EngineFont.MissingAt | source/Font.cpp:141-145 | finds the first character of a word the font has no glyph for, and none exactly when every glyph is there |
| EngineFont.Measure | source/Font.cpp:141-145 | measuring a word fails exactly when a character has no glyph, and the error names a missing character of the word |
| EngineFont.MeasureWord | source/Font.cpp:141-145 | the measuring loop gives the specification's width or the first missing glyph |
| EngineFont.Corners | source/Font.cpp:184-207 | a quad is written as twelve floats, two triangles |
| EngineFont.Vertices | source/Font.cpp:173-207 | a buffer of quads holds twelve floats per quad |
| EngineFont.Zeros | source/Font.cpp:128-129 | calloc gives as many zero floats as asked for, and none for a count that is not positive |
| EngineFont.NewLine | source/Font.cpp:149-165 | a new line puts the cursor back at the left margin and writes nothing |
| EngineFont.CharStep | source/Font.cpp:160-212 | a '\n' only starts a new line; any other character appends its glyph's screen quad and texture quad and keeps the line |
| EngineFont.WordPenNext | source/Font.cpp:160-213 | writing one more character of a word is one more character step |
| EngineFont.Wrap | source/Font.cpp:148-151 | wrapping a word to the next line writes nothing |
| EngineFont.Space | source/Font.cpp:216 | the space after a word writes nothing |
| EngineFont.GlyphChars | source/Font.cpp:163-167 | the characters that get a quad are at most the word's characters |
| EngineFont.TexQuads | source/Font.cpp:178-207 | one texture quad per character |
| EngineFont.QuadSlots | source/Font.cpp:173-207 | quad k of a buffer lies in floats 12k to 12k + 11 |
| EngineFont.WordPenGlyphs | source/Font.cpp:160-213 | writing a word adds one screen quad per character other than '\n', and the texture quads are those characters' glyphs in order |
| EngineFont.WroteWord | source/Font.cpp:134-217 | every word written in full keeps the written quads exactly the glyphs of the words so far |
| EngineFont.LayoutWritten | source/Font.cpp:134-217 | after the word loop, the words before the stopping point were written in full, and remaining, when set, is the glyphs written plus the index of the word that did not fit |
| EngineFont.LayoutWrittenStep | source/Font.cpp:136-216 | the same for one word of the loop |
| EngineFont.LayoutEnded | source/Font.cpp:154-157 | once the text box is full or a glyph is missing, later words change nothing |
| EngineFont.ConcatPrefix | source/Font.cpp:119-126 | the characters of the first words are at most writeLen |
| EngineFont.TextFits | source/Font.cpp:126-220 | the text object gets buffers of 12 floats per non-space character, the written glyphs' quads first and zeros after, and a byte count of 48 per written glyph that never exceeds the buffers |
| EngineFont.PutQuad | source/Font.cpp:184-207 | the twelve writes of a quad change those twelve floats and nothing else |
| EngineFont.BufferPut | source/Font.cpp:173-208 | writing the next quad at 12 times the written count keeps the buffer as quads followed by zeros |
| EngineFont.WriteGlyph | source/Font.cpp:170-212 | a glyph's quads go to 12 times the glyph count, the count goes up by one and the cursor moves as the character step says |
| EngineFont.WriteChar | source/Font.cpp:160-213 | one character of a word is the character step, with at most one more glyph written |
| EngineFont.WriteWord | source/Font.cpp:160-213 | the character loop of a word is the specification's pen for that word |
| EngineFont.PlaceWord | source/Font.cpp:136-216 | one word of createText: a missing glyph, the text box full with remaining set, or the word written and a space |
| EngineFont.TextOfLayout | source/Font.cpp:220 | buffers filled with a finished layout's quads are createText's result |
| EngineFont.RoomForWord | source/Font.cpp:118-129 | the words so far plus the next word fit in buffers sized for every word |
| EngineFont.WriteWords | source/Font.cpp:134-217 | the word loop fills the buffers with the layout's quads and returns its remaining count or the missing glyph |
| EngineFont.CreateText | source/Font.cpp:104-231 | Font::createText gives exactly the specification's text object, remaining count or missing-glyph error |
| EngineParticles.ErasePass | source/ParticleSource.cpp:61-66 | the erase loop as written never leaves more particles than it started with |
| EngineParticles.Fates | source/ParticleSource.cpp:61-66 | every slot the loop starts with gets one fate |
| EngineParticles.Survivors | source/ParticleSource.cpp:61-66 | the particles a run of fates leaves are at most the ones it started with |
| EngineParticles.FatesPattern | source/ParticleSource.cpp:61-66 | a particle is passed over exactly when the one before it was erased; an advanced particle is alive after its step and an erased one dead |
| EngineParticles.ErasePassKeepsOrder | source/ParticleSource.cpp:61-66 | the loop keeps the advanced particles after their step and the passed-over ones as they were, in their order, and drops the erased ones |
| EngineParticles.ErasingDone | source/ParticleSource.cpp:61 | once the index reaches the vector's size, the vector is the erase pass of the original |
| EngineParticles.EraseStepAlive | source/ParticleSource.cpp:62-63 | a pass on a particle alive after its step advances it in place and moves on |
| EngineParticles.EraseStepDead | source/ParticleSource.cpp:63-64 | a pass on a particle dead after its step erases it, and the index moves past the particle shifted into its slot |
| EngineParticles.EraseDead | source/ParticleSource.cpp:61-66 | the evidently intended loop leaves no dead particle and never more than it started with |
| EngineParticles.EraseDeadKeepsLiving | source/ParticleSource.cpp:61-66 | the intended loop keeps exactly the particles alive after their step, advanced |
| EngineParticles.SecondDeadParticleSurvives | source/ParticleSource.cpp:61-66 | two dead particles in a row: the loop as written keeps the second; the intended loop drops both |
| EngineParticles.InstanceData | source/ParticleSource.cpp:91-101 | the instance buffer holds 21 floats per particle |
| EngineParticles.InstanceSlots | source/ParticleSource.cpp:96-99 | particle k's MVP lies at floats 21k to 21k + 15 and its frame data at 21k + 16 to 21k + 20 |
| EngineParticles.SlotWritten | source/ParticleSource.cpp:98-100 | writing a slot after the earlier ones extends the written prefix by that slot and leaves the rest |
| EngineParticles.ParticleSource.constructor | source/ParticleSource.cpp:26-47 | a new source has no particles and an instance buffer of 21 floats per allowed particle |
| EngineParticles.ParticleSource.Update | source/ParticleSource.cpp:60-66 | update leaves exactly the erase pass of the particles it had |
| EngineParticles.ParticleSource.Draw | source/ParticleSource.cpp:74-117 | draw fills the first 21 floats per particle with each particle's MVP and frame data, leaves the rest of the buffer alone, and uploads that data as one instance per particle |
| EngineParticles.WriteSlot | source/ParticleSource.cpp:98-99 | one particle's slot: MVP then frame data, nothing after it touched |
| EngineParticles.Store | source/ParticleSource.cpp:98-99 | copying values into the buffer at an offset changes exactly those floats |
| EngineEntity.Find | source/Entity.cpp:22-23 | the destructor's scan reaches the first occurrence of the entity, or the end when there is none |
| EngineEntity.RemoveFirstCount | source/Entity.cpp:22-28 | the destructor takes exactly one copy of the entity out of the registry when it is there, and changes nothing otherwise |
| EngineEntity.RemoveFirstDistinct | source/Entity.cpp:22-28 | in a registry without repeats, a destroyed entity leaves no trace and the registry shrinks by one exactly when it was there |
| EngineEntity.FindFirst | source/Entity.cpp:22-23 | an entry with no earlier copy of itself is the one the scan stops at |
| EngineEntity.Entity.constructor | source/Entity.cpp:15-19 | a new entity is not dependant and is appended to the registry |
| EngineEntity.Entity.SetDependency | source/Entity.cpp:31-33 | setDependency sets the dependant flag to its argument |
| EngineEntity.Entity.Destroy | source/Entity.cpp:21-29 | the destructor removes the first occurrence of the entity from the registry |
| EngineEntity.Kept | source/Entity.cpp:36-38 | destroyEntities keeps at most the entries it started with |
| EngineEntity.Doomed | source/Entity.cpp:36-38 | destroyEntities deletes at most the entries it started with |
| EngineEntity.KeptDependant | source/Entity.cpp:37-38 | only dependant entities are kept, and only the others are deleted |
| EngineEntity.KeptAndDoomed | source/Entity.cpp:36-38 | every entity is either kept or deleted, exactly once |
| EngineEntity.Registry.constructor | source/Entity.cpp:13 | the registry starts empty |
| EngineEntity.Registry.DestroyEntitiesAsWritten | source/Entity.cpp:35-41 | as written, the loop deletes the non-dependant entities from last to first, leaves the dependant ones registered, and then reads index 0xFFFFFFFF, past the end, because the unsigned counter wraps; clear() is never reached |
| EngineEntity.Registry.DestroyEntities | source/Entity.cpp:35-41 | as intended, the loop deletes the non-dependant entities from last to first and the registry ends empty |
| EngineEntity.Registry.DestroyStep | source/Entity.cpp:37-38 | one pass of the loop deletes entry i unless it is dependant, and keeps the registry free of repeats |
| EngineEntity.KeptStep | source/Entity.cpp:36-38 | what the loop keeps and deletes, one entry at a time |
| EngineEntity.CounterFrom | source/Entity.cpp:36 | the values the unsigned counter takes, one more than the entries still to visit |
| EngineEntity.CounterWraps | source/Entity.cpp:36 | for n entries the counter visits n - 1 down to 0 and then 0xFFFFFFFF: the guard i >= 0 never stops the loop |
| EngineEntity.Decrement | source/Entity.cpp:36 | i-- on an unsigned int subtracts one, and 0 wraps to 0xFFFFFFFF |
| ModelLoader.ParseVertexArrays | source/Model.cpp:57-65 | reading the vertex count and the three float arrays never runs past the file |
| ModelLoader.ParseIndices | source/Model.cpp:66-68 | reading the index count and the indices never runs past the file |
| ModelLoader.ParseGroups | source/Model.cpp:69-71 | reading the group count and three u16 values per group never runs past the file |
| ModelLoader.ParseObject | source/Model.cpp:56-71 | an object record read back to back never runs past the file |
| ModelLoader.ReadAt | source/Model.cpp:37-41 | one fread at an offset gives the bytes there, or a short read, and moves the cursor forward only |
| FileIO.Slice | source/Model.cpp:28 | the n bytes at a position are there exactly when the file does not end before them |
| FileIO.FileReader.ReadU8 | source/Model.cpp:32 | reading a byte succeeds exactly when one is left, and gives the byte at the cursor |
| FileIO.FileReader.ReadU16 | source/Model.cpp:57 | reading an unsigned short succeeds exactly when two bytes are left, and gives their little-endian value |
| FileIO.FileReader.ReadU32 | source/Texture.cpp:33-40 | reading an unsigned int succeeds exactly when four bytes are left, and gives their little-endian value |
| FileIO.OutFile.Close | Data/Scripts/amd_export.py:315 | closing the file keeps what was written |
| Bytes.LE16 | Data/Scripts/amd_export.py:171 | `@H` packs two bytes that decode back to the value |
| Bytes.LE32 | source/SFX.cpp:43-48 | a 32-bit field packs four bytes that decode back to the value |
| Bytes.LE16OfFromLE16 | source/Model.cpp:57 | any two bytes encode the value they decode to |
| Bytes.LE32OfFromLE32 | source/Texture.cpp:33-40 | any four bytes encode the value they decode to |
| Bytes.LE16s | Data/Scripts/amd_export.py:189-191 | a list of `@H` values packs two bytes each |
| Bytes.FromLE16s | source/Model.cpp:68-71 | n unsigned shorts read back are n values |
| Bytes.FromLE16sOfLE16s | source/Model.cpp:68-71 | packed unsigned shorts read back as the same values, whatever follows them |
| Bytes.EncodeF32 | Data/Scripts/amd_export.py:85-87 | `@f` packs four bytes whose bit pattern is the float |
| Bytes.EncodeF32s | Data/Scripts/amd_export.py:172-185 | a list of floats packs four bytes each |
| Bytes.DecodeF32s | source/Model.cpp:63-65 | n floats read back are n values |
| Bytes.DecodeEncodeF32s | source/Model.cpp:63-65 | packed floats read back as the same floats, whatever follows them |
| Bytes.FEqIsKeyEquality | Data/Scripts/amd_export.py:28-37 | float equality is equality of the order key, and NaN equals nothing |
| Bytes.FloatTrichotomy | Data/Scripts/amd_export.py:302 | for floats other than NaN, exactly one of less, equal and greater holds |
| Bytes.Utf8Char | Data/Scripts/amd_export.py:93 | a character takes one to four bytes in UTF-8, and one exactly when it is ASCII |
| Bytes.Utf8 | Data/Scripts/amd_export.py:92-93 | a string's UTF-8 bytes are at least as many as its characters |
| Bytes.Utf8LengthIsCharCount | Data/Scripts/amd_export.py:92-93 | the length byte equals the number of bytes written exactly when the path is ASCII |
| Bytes.CString | source/Model.cpp:40-43 | the name the material receives is the bytes read up to the first NUL |
| Bytes.AsciiBytes | Data/Scripts/amd_export.py:92-93 | an ASCII string is one byte per character, each its code |
| AmdEncode.Vec3sFloats | Data/Scripts/amd_export.py:173-184 | a list of 3-vectors is written as three floats each |
| AmdEncode.Vec2sFloats | Data/Scripts/amd_export.py:178-179 | a list of 2-vectors is written as two floats each |
| AmdEncode.FloatsVec3s | source/Model.cpp:63-65 | a float array read back groups into one 3-vector per three floats |
| AmdEncode.FloatsVec2s | source/Model.cpp:64 | a float array read back groups into one 2-vector per two floats |
| AmdExport.CountMeshes | Data/Scripts/amd_export.py:70-72 | the mesh count is at most the number of objects |
| AmdExport.CountObjectActions | Data/Scripts/amd_export.py:254-256 | the count of object actions is at most the number of actions |
| AmdExport.PoseBytes | Data/Scripts/amd_export.py:306-312 | a frame's poses take 28 bytes per bone |
| AmdScene.MaterialNames | Data/Scripts/amd_export.py:11-12 | the names searched are the materials' names, in order |
| AmdScene.BoneNames | Data/Scripts/amd_export.py:42-43 | the names searched are the bones' names, in order |
| AmdMesh.GroupWeights | Data/Scripts/amd_export.py:137-139 | a vertex's weights are its groups' weights, in order |
| AmdMesh.GroupIds | Data/Scripts/amd_export.py:137-139 | a vertex's bone ids are its groups' ids, in order |
| AmdSearch.VertexIndexFrom | Data/Scripts/amd_export.py:28-37 | the search from i gives -1 or a position from i on |
| EngineKeyframe.PoseRecord | Data/Scripts/amd_export.py:311-312 | one bone's pose is seven floats |
| EngineKeyframe.PoseFloats | Data/Scripts/amd_export.py:306-312 | a frame's poses are seven floats per bone |
| EngineMaterial.MaterialData | source/Material.cpp:15-25 | a material keeps all eleven floats of its record |
| EngineObject.DrawCalls | source/Object.cpp:73-80 | there are at most as many draw calls as groups |
| EngineTerrain.VertexId | source/Terrain.cpp:36-47 | vertices are numbered row by row below the vertex count |
| EngineTerrain.RowVertices | source/Terrain.cpp:38-47 | a row's positions are three floats per vertex |
| EngineTerrain.GridVertices | source/Terrain.cpp:36-49 | the grid's positions are 384 floats per row |
| EngineTerrain.RowTexCoords | source/Terrain.cpp:45-46 | a row's texture coordinates are two floats per vertex |
| EngineTerrain.GridTexCoords | source/Terrain.cpp:36-49 | the grid's texture coordinates are 256 floats per row |
| EngineTerrain.UpNormals | source/Terrain.cpp:42-44 | three floats of normal per vertex |
| EngineTerrain.CellIndices | source/Terrain.cpp:53-62 | a cell is six indices, two triangles |
| EngineTerrain.RowIndices | source/Terrain.cpp:52-63 | a cell row is six indices per cell |
| EngineTerrain.GridIndices | source/Terrain.cpp:50-64 | the index buffer is 762 indices per cell row |
| EngineTexture.Halve | source/Texture.cpp:86-87 | halving never makes a dimension larger |
| EngineBone.CalculatedOf | source/Bone.cpp:68-70 | the loop calculates one child per turn |
| EngineBone.CalculatedKeepsIdsOf | source/Bone.cpp:68-70 | calculating the first k children keeps their ids in preorder and in postorder |
| EngineBone.UploadsInPostorderOf | source/Bone.cpp:68-96 | the first k children's subtrees upload once per bone, in postorder |
| EngineAnimation.SettingsOfInPreorder | source/Animation.cpp:83-85 | the first n children's subtrees are animated once per bone, in preorder |

## Left out

- Blender itself: triangulation (`bmesh`), `mode_set`, `frame_set`, `find_armature`, the pose reset and the `print` warnings are not modelled. The scene after them, and the bone poses at each frame, are inputs.
- The export operator, its menu entry and registration (Data/Scripts/amd_export.py:319-394) are user-interface glue and are not modelled.
- Float arithmetic is not modelled: matrix inversion and products, quaternions, the `1 - v` UV flip, glm `rotate`/`slerp`, `modf` in `Animation::increaseTime`, the font and terrain coordinates, and particle physics. Each is a host function parameter (`HostMath`, `AnimMath`, `GridMath`, `FloatOps`, `step`). The bounding-box centring check only prints and is not modelled.
- Calls into OpenGL and OpenAL are not modelled. Their effects appear as results instead: the draw calls, the uploaded buffers and sizes, the texture levels uploaded and the sound format.
- `Debug::showError` exits the process. Each of its uses is an error value of the operation.
- A failed `fopen` is not modelled: the loaders start from an opened file.
- A short `fread` (the file ends early) is a `Truncated` error. The C code would go on with undefined contents.
- The `.fnt` glyph-file parser in the `Font` constructor is not modelled: its `sscanf` of floats depends on the C library's float parsing. The glyph table is an input.
- `Renderer::storeMVP` and `Texture::storeFrameData` are not part of this model. Their values are host functions, and `Store` copies them into the buffer.
- `ParticleSource::update` ends with a `std::sort` by camera distance. The sort is a float comparison of host values and is not modelled, so `ParticleSource.Update` states the vector before the sort.
- The engine classes built from value records (the C++ `Bone` tree, glyphs, keyframes in `Animation`) are datatypes, not linked heap objects. Aliasing between bones and the registry, and `free(bones)` in `Object::createBoneHierarchy`, are not captured.
- `Object::createBoneHierarchy` leaks the trees of the earlier root bones. The model keeps only the last root, as the object does.
- Several headers do not match the .cpp files that use them, and the model follows the .cpp files:
  - `Terrain.h` declares a constructor with a shader parameter, and `ParticleSource.h` holds `Particle*`.
  - `Object.h` declares neither `rootBone` nor `createBoneHierarchy`, which Object.cpp:35-51 defines and uses.
  - `TOO_MANY_BONES` (Object.cpp:37) is defined in no header; the model names the error `TooManyBones`.
  - Animation.cpp:77-82 calls `Bone::getID`, `getCurrentBindMatrix` and `getChildren`, which `Bone.h` does not declare; the model reads the bone's id and children and records the matrix it sets.
  - main.cpp:55 calls `new Model(path, basic)`, while `Model.h` declares only `Model(const char*)`; the model loads from the file contents alone.
- The constructors that Terrain.cpp, Font.cpp and ParticleSource.cpp call, `Material(const char*)`, `Texture(const char*, float)` and `Texture(path, hframes, vframes, bool)`, do not appear in Material.h, Texture.h or their .cpp files and are not part of this model. The terrain's material and the font's and particle source's textures appear only as the fields they set.
- Entity deletion (`delete entities[i]`) is modelled as the destructor's effect on the registry. The rest of each object's destruction is not modelled.
- EngineFont.CreateText: `written` and `writeLen` are C `int`s, and overflow past 2^31 characters is not modelled.
- EngineFont.CreateText: when no word falls below the box, `*remaining` is left unwritten in the source. The model returns no value for it.
- EngineParticles.ParticleSource.Draw requires the buffer to hold 21 floats per particle. The source writes past `vboData` when there are more than `maxparticles` particles, which the model does not capture.
- EngineEntity.Registry.DestroyEntitiesAsWritten requires fewer than 0xFFFFFFFF entries and no entity registered twice. A registry that large cannot be built, and the constructor never registers an entity twice.
- EngineObject.Object.Draw requires a root bone. The source dereferences `rootBone` without a check.
- EngineKeyframe.Keyframe.GetPosition and EngineKeyframe.Keyframe.GetRotation require an index in range. The source reads out of bounds otherwise.
- EngineTexture.LevelsUnchecked: the upload reads `offset + size` bytes with no check against the payload. The model records which bytes each level would take, not the out-of-bounds read.
- ModelLoader.ParseModel reads nothing between one object's groups and the next object's vertex count, exactly as the source does. The exporter writes bounds, transform and skeleton there, so the round trip is proved for the materials and a single object only.
- AmdMesh.WeldCorner: the exporter stores the flipped V as the Python double `1 - v` and compares each later corner's raw f32 V with that double, while the model stores the f32 value `flip(v)`. Where `1 - v` is not an exact f32, the two can weld differently. For example, after a corner with V = 2^-30, a corner with the same position and normal and V = 1.0 is welded in the model but gets a new vertex from the exporter. The difference carries into WeldCorners, WeldFaces, BuildObject and Export.
- AmdFrames.SortFrames equals Python's `sorted` only when no key time is NaN. With a NaN, Python's run detection and binary insertion can order the other times differently: [3, 1, NaN, 2] sorts to [1, 2, 3, NaN] in Python and to [1, 3, NaN, 2] here. The ascending-order lemmas are stated for NaN-free key times.
- AmdEncode.Basename models `os.path.basename` on a POSIX host, which splits only at '/'. On Windows Blender also splits at '\\', and that is not modelled.
- EngineAnimation.Animation.constructor requires at least one keyframe. With none, Animation.cpp:34 reads `keyframes[-1]`; that case is the error of EngineAnimation.NewAnimation.
- EngineAnimation.NewAnimation and the constructor require `nkeyframes` to be at most the length of the list. The source reads past the array otherwise.
- EngineObject.Object.CreateBoneHierarchy requires the bone table to be `Ranked`, as EngineBone.CreateChildren does, so it leaves out the same tables.
- EngineBone.CreateChildren requires a table that `Ranked` admits: every child id names a row, and no chain of children returns to a bone. Three kinds of table the source accepts are left out:
  - a cyclic table, where createChildren recurses without end;
  - a child id of `nbones` or more, which the source reads out of bounds;
  - a bone listed under two parents (or reached from two roots). Bone.cpp:56 frees `bones[id].children` after the first visit, so the second visit reads freed memory, while the model builds that subtree twice.

## Findings

| source | as written | input that shows it | evidently intended | confidence | as-written member | corrected member |
|---|---|---|---|---|---|---|
| source/Entity.cpp:36 | the counter `unsigned int i` is tested with `i >= 0`, which always holds; after index 0 it wraps to 0xFFFFFFFF and `entities[i]` reads past the end, and `clear()` is never reached | any registry, e.g. one non-dependant entity: the loop visits index 0 and then index 0xFFFFFFFF | visit the entries from the last to the first, then clear the registry | not executed | EngineEntity.Registry.DestroyEntitiesAsWritten, EngineEntity.CounterWraps | EngineEntity.Registry.DestroyEntities |
| source/ParticleSource.cpp:61-65 | after `erase(begin() + i)` the loop still increments `i`, so the particle shifted into slot i is neither updated nor checked | two particles that are both dead after their update: the first is erased, the second stays | update every particle and erase every dead one | not executed | EngineParticles.ErasePass, EngineParticles.SecondDeadParticleSurvives | EngineParticles.EraseDead, EngineParticles.EraseDeadKeepsLiving |
