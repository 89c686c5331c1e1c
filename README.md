# VoxelGPU core, modelled in Dafny

VoxelGPU is a small Vulkan renderer that draws a scene of unit-cube voxels. This project models its core and proves properties of that model:

- **`VoxelModel`** (`voxel_model.dfy`) is the fixed mesh of one voxel cuboid.
  - Eight corner vertices are parameterised by length, width and height.
  - 36 indices form twelve triangles, two for each of the six labelled faces.
  - Proved about the tables: the index bounds, the labelling of the faces, and that every face uses exactly the four corners of its plane. Also proved: the winding is consistent, so every triangle's normal points out of the face it is labelled with.
- **`Scene`** (`scene.dfy`) is the `Scene` class.
  - It holds a map of voxels keyed by a 32-bit id counter.
  - `AddVoxel` inserts a voxel.
  - `FinishScene` builds the batch. It packs every voxel's 8 vertices and 36 indices into host-visible staging arrays, in the map's iteration order, and uploads them to device-local buffers.
  - `TerminateScene` releases those buffers.
  - The graphics-API calls are recorded in a `calls` trace. The handles the buffer helper returns are parameters.
- **`LoadedModel`** (`loaded_model.dfy`) covers the two branches of the OBJ loader.
  - The default branch emits one vertex per mesh index with the identity index list.
  - The `OPTIMIZE_VERTICES` branch de-duplicates vertices through a hash map.
  - The model proves that both branches describe the same mesh. The de-duplicating loop is also proved equal to a reference definition: first occurrences, plus the position of each element among them.
- **`Renderer`** (`renderer.dfy`) models the frame loop.
  - `createSyncObjects`, the framebuffer-resize callback, and one `drawFrame` tick are modelled against a pure state machine `Tick`, as fences and the rotation of the frame slot.
  - An environment `Run` interleaves ticks with GPU completions and resize events. Proved: the host never waits on a fence that nothing will signal, the slots rotate modulo `MAX_FRAMES_IN_FLIGHT`, and a stale swapchain is recreated.
- **`Geometry`** (`geometry.dfy`) holds the shared vertex record and vectors.

Single-precision floats are modelled as `real`. The only arithmetic on them is the symbolic subtraction and cross product in the winding lemmas, and the texture flip `1.0f - v`, which is a parameter `flip`.

The batch builder copies each voxel's local vertices and indices exactly as they are (Scene.h:77 and :106). It applies no transform (the transform is stored but never read). It adds no per-voxel index offset, so every index in the batch is below 8. `Scene.IndicesNotRebased` states this.

## Model

| member | source | states |
|---|---|---|
| VoxelModel.InitData | VoxelGPU/src/ECS/Components/VoxelModel.h:19-41 | the model has 8 vertices and 36 indices, each index below 8; the indices are the literal face table; vertex k is white, has texture coordinate (0,0), and sits at x = l, y = h, z = w according to bits 2, 1 and 0 of k |
| VoxelModel.Sized | VoxelGPU/src/ECS/Components/VoxelModel.h:9-12 | the size constructor gives a well-formed voxel mesh in which size.x is the x extent, size.z the y extent and size.y the z extent |
| VoxelModel.Default | VoxelGPU/src/ECS/Components/VoxelModel.h:14-17 | the default constructor gives the well-formed unit cube with every corner coordinate 0 or 1 |
| VoxelModel.CubeIndicesInRange | VoxelGPU/src/ECS/Components/VoxelModel.h:33-40 | the index table has 36 entries, all addressing one of the 8 vertices |
| VoxelModel.CornersDistinct | VoxelGPU/src/ECS/Components/VoxelModel.h:21-31 | for non-zero extents the eight vertices are pairwise distinct |
| VoxelModel.TriangleSlots | VoxelGPU/src/ECS/Components/VoxelModel.h:33-40 | triangle t is read from index slots 3t, 3t+1 and 3t+2 |
| VoxelModel.FaceLabelsAreABijection | VoxelGPU/src/ECS/Components/VoxelModel.h:34-39 | triangles 2i and 2i+1 carry the i-th face label, and each of the six labels belongs to exactly one pair |
| VoxelModel.TriangleDistinctCorners | VoxelGPU/src/ECS/Components/VoxelModel.h:33-40 | no triangle is degenerate: its three indices differ |
| VoxelModel.TriangleOnItsFace | VoxelGPU/src/ECS/Components/VoxelModel.h:34-39 | all three corners of each triangle lie in the plane of the face it is labelled with |
| VoxelModel.FaceUsesItsPlane | VoxelGPU/src/ECS/Components/VoxelModel.h:34-39 | the two triangles of a face use exactly the corners in that face's plane |
| VoxelModel.PlaneHasFourCorners | VoxelGPU/src/ECS/Components/VoxelModel.h:21-31 | every face plane holds exactly four corners |
| VoxelModel.FacesCoverAllCorners | VoxelGPU/src/ECS/Components/VoxelModel.h:33-40 | together the six faces use all eight corners |
| VoxelModel.PlanesCoverAllCorners | VoxelGPU/src/ECS/Components/VoxelModel.h:21-31 | the six face planes together hold all eight corners |
| VoxelModel.WindingOutward | VoxelGPU/src/ECS/Components/VoxelModel.h:19-41 | for positive extents, the normal (b-a)x(c-a) of every triangle points out of the face it is labelled with |
| Scene.TransformAt | VoxelGPU/src/ECS/Components/TransformComponent.h:12-18 | the position constructor is the default transform (zero translation and rotation, unit scale) with only the translation replaced |
| Scene.UploadCalls | VoxelGPU/src/ECS/Scene.h:61-89 | a staged upload creates the staging and the device buffer with the same size, copies staging to device, and releases exactly the staging buffer and its memory |
| Scene.TerminateCalls | VoxelGPU/src/ECS/Scene.h:51-58 | termination makes four calls that destroy exactly the vertex and index buffers and free exactly their two memories |
| Scene.VertexLayout | VoxelGPU/src/ECS/Scene.h:74-79 | the packed vertex data holds 8 per voxel, and slots 8i..8i+8 are the i-th enumerated voxel's vertices |
| Scene.IndexLayout | VoxelGPU/src/ECS/Scene.h:103-108 | the packed index data holds 36 per voxel, and slots 36i..36i+36 are the i-th enumerated voxel's indices |
| Scene.IndicesNotRebased | VoxelGPU/src/ECS/Scene.h:103-108 | every entry of the batch index buffer is below 8: indices are copied without a per-voxel base |
| Scene.LiteralOffsetMisplaced | VoxelGPU/src/ECS/Scene.h:77 | the destination offset as written puts every block after the first beyond its own slots |
| Scene.LiteralOffsetOverruns | VoxelGPU/src/ECS/Scene.h:106 | with two or more blocks, the offset as written makes the last block end past the buffer |
| Scene.LiteralCopiesOverrun | VoxelGPU/src/ECS/Scene.h:74-79 | with two or more voxels, both the vertex copy and the index copy as written end past their staging buffers |
| Scene.LiteralOffset | VoxelGPU/src/ECS/Scene.h:77 | the offset expression of both copy loops equals the intended block offset blockLen * i for 1-byte elements, and lies strictly past it for any larger element and any block after the first |
| Scene.Memcpy | VoxelGPU/src/ECS/Scene.h:77 | copying src at an element offset replaces exactly those slots; the rest of the destination is unchanged |
| Scene.Scene.constructor | VoxelGPU/src/ECS/Scene.h:19-33 | a new scene is empty with id counter 0 and draw count 0, and keeps the invariant |
| Scene.Scene.AddVoxel | VoxelGPU/src/ECS/Scene.h:37-43 | the voxel goes under the previous counter value, which was a free key, as a default cube positioned at the given point; the counter increments mod 2^32; without wrap-around the map grows by one and the invariant holds |
| Scene.Scene.FinishScene | VoxelGPU/src/ECS/Scene.h:45-49 | both buffers hold every voxel's mesh in iteration order; the draw count is 36 per voxel; the renderer info names the new device buffers; the trace holds the two uploads |
| Scene.Scene.CreateVertexBuffer | VoxelGPU/src/ECS/Scene.h:61-89 | the vertex buffer is the packed vertex blocks, the renderer info takes the device handles, and the trace gains the upload |
| Scene.Scene.CreateIndexBuffer | VoxelGPU/src/ECS/Scene.h:91-118 | the index buffer is the packed index blocks, numIndices is 36 times the voxel count, and the trace gains the upload |
| Scene.Scene.TerminateScene | VoxelGPU/src/ECS/Scene.h:51-58 | the trace gains exactly the release of the four handles in the renderer info; nothing else changes |
| LoadedModel.MakeVertexIsLocal | VoxelGPU/src/ECS/Components/LoadedModel.h:63-76 | the vertex built for an index depends only on the three position entries 3i..3i+2 and the two texture entries 2j..2j+1 the index names: attribute arrays that agree there build the same vertex |
| LoadedModel.ConcatInRange | VoxelGPU/src/ECS/Components/LoadedModel.h:61-62 | when each shape's indices read inside the attribute arrays, so do all the concatenated indices |
| LoadedModel.FirstOccurrencesSpec | VoxelGPU/src/ECS/Components/LoadedModel.h:52-55 | the de-duplicated vertex list has no duplicates and holds exactly the vertices built |
| LoadedModel.FirstOccurrencesOrder | VoxelGPU/src/ECS/Components/LoadedModel.h:52-55 | the de-duplicated vertex list is in first-occurrence order: an earlier list entry first occurs earlier among the built vertices |
| LoadedModel.DedupRoundTrip | VoxelGPU/src/ECS/Components/LoadedModel.h:52-57 | there is one index per built vertex, each index is valid, and looking it up gives back the built vertex |
| LoadedModel.BranchesAgree | VoxelGPU/src/ECS/Components/LoadedModel.h:32-82 | the de-duplicated mesh and the identity-indexed flat mesh expand to the same vertex sequence |
| LoadedModel.DedupBodyStep | VoxelGPU/src/ECS/Components/LoadedModel.h:52-57 | one loop step keeps the vertex list, index list and hash map equal to their reference definitions, for both the new-vertex and the seen-vertex case |
| LoadedModel.IndexesVerticesInsert | VoxelGPU/src/ECS/Components/LoadedModel.h:53-54 | recording a new vertex at the current size keeps the hash map sending every listed vertex to its position |
| LoadedModel.LoadedModel.LoadFlat | VoxelGPU/src/ECS/Components/LoadedModel.h:60-82 | one vertex per mesh index, shape by shape; the indices are 0, 1, 2, ... |
| LoadedModel.LoadedModel.LoadDeduplicated | VoxelGPU/src/ECS/Components/LoadedModel.h:32-59 | the vertices are the distinct vertices in first-occurrence order; each index is the position of its vertex; indexing the vertices gives back the flat mesh |
| LoadedModel.LoadedModel.DedupShape | VoxelGPU/src/ECS/Components/LoadedModel.h:36-58 | over one shape's indices the vertex list, index list and hash map remain the reference de-duplication of every vertex built so far, extended by that shape's vertices |
| LoadedModel.Load | VoxelGPU/src/ECS/Components/LoadedModel.h:21-84 | the load fails exactly when the parser fails, with error text err + warn; on success the model is new and indexes validly; the flat branch gives the flat vertices with identity indices, one per mesh index; the optimising branch gives the reference de-duplication |
| Renderer.Tick | VoxelGPU/src/Renderer.h:293-360 | one draw-frame tick keeps the frame slot and the fence vector in bounds, so every fence access of the next tick is valid; what it does is stated by the lemmas below |
| Renderer.AcquireStage | VoxelGPU/src/Renderer.h:299-310 | the tick after the wait (acquire, early return, input and camera update) keeps the slot and the fences in bounds |
| Renderer.RecordStage | VoxelGPU/src/Renderer.h:312-335 | recording, fence reset and submit keep the slot and the fences in bounds |
| Renderer.PresentStage | VoxelGPU/src/Renderer.h:349-359 | the present and the slot advance keep the slot and the fences in bounds |
| Renderer.GpuComplete | VoxelGPU/src/Renderer.h:334 | the GPU completing a slot's submitted work keeps the slot and the fences in bounds |
| Renderer.Run | VoxelGPU/src/Renderer.h:65-66 | the render loop over a sequence of environment steps keeps the slot and the fences in bounds |
| Renderer.TickBeginsWithWait | VoxelGPU/src/Renderer.h:296 | every tick begins with the wait on the current slot's fence |
| Renderer.TickChangesOnlyItsFence | VoxelGPU/src/Renderer.h:296-335 | a tick writes no fence but the current slot's |
| Renderer.GpuCompleteChangesOnlyItsFence | VoxelGPU/src/Renderer.h:334 | a GPU completion changes only the completed slot's fence; the frame slot and the resize flag are untouched |
| Renderer.RunCompletesAtMostOnePerStep | VoxelGPU/src/Renderer.h:65-67 | each iteration of the loop completes at most one frame |
| Renderer.TickKeepsValid | VoxelGPU/src/Renderer.h:293-360 | from a valid state a tick never waits on an unsignalable fence, and a tick that does not throw leaves every fence signaled or pending |
| Renderer.TickAdvances | VoxelGPU/src/Renderer.h:359 | a completed tick advances the slot mod 2; every other outcome leaves it |
| Renderer.OutOfDateAcquireReturns | VoxelGPU/src/Renderer.h:301-304 | a stale acquire recreates the swapchain once and returns with nothing recorded, reset or submitted, the slot unchanged and the fence still signaled |
| Renderer.AcquireErrorIsFatal | VoxelGPU/src/Renderer.h:305-307 | any other acquire error throws before any fence reset or submit |
| Renderer.SuboptimalAcquireContinues | VoxelGPU/src/Renderer.h:305 | a suboptimal acquire continues exactly as a successful one |
| Renderer.ResetImmediatelyBeforeSubmit | VoxelGPU/src/Renderer.h:314-335 | a fence reset only follows a usable image, is of the slot in hand, and is immediately followed by a submit on that slot |
| Renderer.RecordsSceneIndexCount | VoxelGPU/src/Renderer.h:412 | the recorded draw uses the current slot and the scene's index count |
| Renderer.PresentHandling | VoxelGPU/src/Renderer.h:349-357 | after a submit: a stale or suboptimal present, or a pending resize, clears the flag and recreates the swapchain exactly once, as the last call; any other failed present throws; success just advances |
| Renderer.PresentRecreatesOnce | VoxelGPU/src/Renderer.h:349-357 | on the recreate path of the present (stale or suboptimal result, or a pending resize) the tick recreates the swapchain exactly once |
| Renderer.ResizeMasksPresentError | VoxelGPU/src/Renderer.h:351-354 | a pending resize turns a failed present into a recreate instead of a throw |
| Renderer.CompletedClearsResize | VoxelGPU/src/Renderer.h:351-352 | after a completed tick the resize flag is clear |
| Renderer.GpuCompleteKeepsValid | VoxelGPU/src/Renderer.h:334-335 | the GPU signaling the fence of a submitted frame keeps the fences valid |
| Renderer.RunRotatesSlots | VoxelGPU/src/Renderer.h:65-66 | over any interleaving of frames, completions and resizes, the loop never waits forever, stays valid unless it throws, and the slot equals start + completed frames mod 2 |
| Renderer.Renderer.constructor | VoxelGPU/src/Renderer.h:41-137 | the in-class initialisers: slot 0, no pending resize, empty synchronisation vectors; the `init()` the source constructor runs is split off, and its `createSyncObjects` call (line 196) is `CreateSyncObjects` |
| Renderer.Renderer.CreateSyncObjects | VoxelGPU/src/Renderer.h:269-291 | all three vectors have two entries; it succeeds iff every creation succeeded, and then both slots hold two semaphores and a signaled fence |
| Renderer.Renderer.FramebufferResizeCallback | VoxelGPU/src/Renderer.h:150-153 | sets the resize flag and nothing else |
| Renderer.Renderer.DrawFrame | VoxelGPU/src/Renderer.h:293-360 | the outcome, the new slot, fences and resize flag, and the emitted call trace are those of `Tick` on the old state with the scene's index count; the semaphores are untouched |

## Left out

- Vulkan, GLFW and ImGui calls are foreign code. In `Scene` they are a call trace, and in `Renderer` a per-tick event trace; the handles they return are parameters, and in `Renderer` so are their result codes.
- In `Scene`, `BufferHelpers::CreateBuffer`, `BufferHelpers::CopyBuffer` and `vkMapMemory` are assumed to succeed: their result codes are not modelled, and neither is an exception they might raise.
- GPU execution is asynchronous. It is modelled only as the `Completion` step of `Run`, which signals a pending fence.
- The iteration order of `std::unordered_map` is unspecified. It is the parameter `order`, which must enumerate every key exactly once.
- Floating point is modelled as `real`, and the texture flip `1.0f - v` is the uninterpreted parameter `flip`.
- `Vertex.h` is not part of this model. The vertex is taken as position, colour and texture coordinate, eight 4-byte floats (32 bytes), and its hash and equality are structural.
- The parser `tinyobj::LoadObj` is foreign. Its output is the `ObjLoad` parameter, and `Load` requires every mesh index to read inside the attribute arrays, because the source indexes them unchecked.
- DEBUG-only output (the model-loading messages, the vertex count, the ImGui window and the FPS counter) is left out; it changes no model state.
- LoadedModel.Load: the `static_cast<uint32_t>` of vertex positions and the `uint32_t` index values are not truncated, because a model with 2^32 vertices is out of reach.
- Scene.Scene.AddVoxel: key freshness holds on every call, but the invariant and the growth by one are stated only while the counter does not wrap. After 2^32 insertions the source overwrites key 0.
- Scene.Scene.FinishScene: requires 36 times the voxel count to fit in a 32-bit signed `int`, because the source computes the draw count from an `int` counter and overflow there is undefined.
- `TransformComponent::GetTransformMatrix` and the three-argument `Voxel` constructor are not used by the batch or the frame loop. They are left out.
- The camera update, `processInput`, uniform buffers, `recreateSwapchain` internals, and the render-pass commands of `recordCommandBuffer` apart from the indexed draw are events without contents.
- The result of `vkWaitForFences` is ignored by the source. The wait is modelled as blocking until the fence is signaled, and waiting on a fence that is unsignaled and not pending is the `Deadlock` outcome, proved unreachable.
- Renderer.Renderer.CreateSyncObjects: requires the slot index to be below 2, which holds because it is only called at initialisation, when the slot is 0.
- `Renderer::init` and `Renderer::initVulkan` (Renderer.h:165-199) create the window, device, swapchain, pipeline and other handlers, which are not part of this model. Only their `createSyncObjects` call is modelled, as `CreateSyncObjects`, so a constructed `Renderer` in this model holds no fences until that method has run, whereas the source constructor returns with both fences signaled.
- The `Renderer` teardown in `cleanup`, apart from the `TerminateScene` call, is not part of this model.

## Findings

| source | as written | input that shows it | evidently intended | confidence | as-written member | corrected member |
|---|---|---|---|---|---|---|
| VoxelGPU/src/ECS/Scene.h:77 | the destination `(Vertex*)data + sizeof(Vertex) * i * 8` scales a typed pointer by the element size a second time | a scene of 2 voxels: the second block is written at vertex slot 256 of a 16-slot staging buffer | `(Vertex*)data + i * 8`, so voxel i fills slots 8i..8i+8 | not executed | Scene.LiteralCopiesOverrun | Scene.Scene.CreateVertexBuffer |
| VoxelGPU/src/ECS/Scene.h:106 | the destination `(uint32_t*)data + 36 * sizeof(uint32_t) * i` scales a typed pointer by the element size a second time | a scene of 2 voxels: the second block is written at index slot 144 of a 72-slot staging buffer | `(uint32_t*)data + 36 * i`, so voxel i fills slots 36i..36i+36 | not executed | Scene.LiteralOffsetMisplaced | Scene.Scene.CreateIndexBuffer |
