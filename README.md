# VulkanMonkey renderer core in Dafny

VulkanMonkey is a Vulkan renderer. It uses deferred shading, cascaded shadow maps and a chain of
post-processing passes. This project models four of its files and proves properties of the model:

- **Model.cpp** (module `Models`, `model.dfy`) loads a model. It flattens the imported scene's
  node tree (`getAllNodes`), gathers the node meshes and sorts them so that meshes with alpha
  come last. It then gives each mesh its offsets into the model's shared vertex and index
  buffers, using `uint32_t` counters that wrap. It fills the two buffers, records the draw calls
  of the meshes, and releases everything in `destroy`.
- **Pipeline.cpp** (module `Pipelines`, `pipeline.dfy`) holds the descriptor-set layout tables
  of every technique. Each layout is created lazily and cached in a process-wide static. The
  file also builds the shader-stage list, the push-constant range and the fixed state of a
  graphics pipeline, and destroys pipelines under a null guard.
- **SSR.cpp** (module `Ssr`, `ssr.dfy`) is the screen-space reflection pass. It models:
  - the uniform buffer and the descriptor writes against the pass's set layout;
  - one framebuffer per swapchain image;
  - the pipeline, whose set layout is created only while none exists;
  - the per-frame update, sent only when the SSR switch is on;
  - the full-screen draw;
  - `destroy`.

  Render targets are looked up with `std::map::operator[]`, which inserts a default image for a
  missing name. The model tracks that insertion.
- **Renderer.cpp** (module `Renderer`, `renderer.dfy`) is frame orchestration:
  - `checkQueue` starts the queued loads as futures and collects the finished ones into the
    model list and the GUI's parallel lists. It then erases the queued unloads, one index at a
    time and in queue order.
  - `recordDeferredCmds` has a fixed pass order, each pass (skybox, models, SSAO, SSR,
    composition, FXAA, bloom, motion blur, GUI) timed by its own metric slot.
  - `recordShadowsCmds` records one command buffer per shadow cascade.
  - `present` has one sequence of semaphores and fences per frame.

Module `Vulkan` (`vulkan.dfy`) stands for the device. Handles are `Null` or `Live(id)`. A
`Device` object hands out fresh handles and keeps an append-only log of the requests made of it.
Module `Seqs` (`seqs.dfy`) holds `FlatMap` (concatenation of per-element parts) and its lemmas.

Objects whose fields the source updates in place are classes:
- `Models.Model` and `Models.Statics` (Model::descriptorSetLayout, Mesh::descriptorSetLayout,
  Mesh::uniqueTextures);
- `Pipelines.LayoutCache`, gathering the function-local statics `DSLayout` of the getters;
- `Pipelines.Pipeline` and `Ssr.SSR`;
- `Renderer.Scene`, gathering the Queue:: and GUI:: statics and Model::models;
- `Renderer.Renderer`.

The loops of the source are methods with loop invariants. Each is proved equal to a function of
its inputs, and the properties are lemmas about those functions.

## Model

| member | source | states |
|---|---|---|
| Models.AllNodesSize | VulkanMonkey/Code/Model/Model.cpp:16-21 | getAllNodes lists as many nodes as the tree has, counted independently by `Size` |
| Models.AllNodesMembers | VulkanMonkey/Code/Model/Model.cpp:16-21 | a node is listed if and only if it is in the tree (both directions) |
| Models.AllNodesPostOrder | VulkanMonkey/Code/Model/Model.cpp:16-21 | post-order: every entry is immediately preceded by the rest of its own subtree, so a node comes after all its descendants and the root comes last |
| Models.ChildBlock | VulkanMonkey/Code/Model/Model.cpp:18-19 | the children are visited in index order: child i's subtree occupies the block right after the subtrees of children 0..i-1 |
| Models.MeshVerticesShape | VulkanMonkey/Code/Model/Model.cpp:103-124 | a mesh built from n imported vertices has n vertices, the j-th vertex taken from imported vertex j |
| Models.FaceIndicesShape | VulkanMonkey/Code/Model/Model.cpp:125-131 | with three indices per face, the index list has 3 per face and index 3i+c is element c of face i |
| Models.ImportedMeshShape | VulkanMonkey/Code/Model/Model.cpp:77-133 | the mesh built from an imported mesh has one vertex per imported vertex, three indices per face in face order, and the mesh's alpha flag |
| Models.ImportMesh | VulkanMonkey/Code/Model/Model.cpp:103-131 | the vertex and face loops build exactly the imported mesh described above |
| Models.CollectMeshes | VulkanMonkey/Code/Model/Model.cpp:72-135 | the node loop yields the meshes of every node, nodes in getAllNodes order, meshes in each node's reference order |
| Models.SortByAlpha | VulkanMonkey/Code/Model/Model.cpp:136 | the in-place sort leaves a permutation of the meshes (same multiset) in which no mesh with alpha precedes one without |
| Models.ImportScene | VulkanMonkey/Code/Model/Model.cpp:58-136 | the meshes reaching the offset loop are a permutation of the scene's meshes with the alpha meshes last |
| Models.WithOffsets | VulkanMonkey/Code/Model/Model.cpp:137-144 | the offset assignment keeps the number of meshes |
| Models.WithOffsetsAt | VulkanMonkey/Code/Model/Model.cpp:137-144 | mesh k keeps its data, and its offsets are the starting counters plus the vertex and index counts of meshes 0..k-1, modulo 2^32 |
| Models.WithOffsetsKeepsData | VulkanMonkey/Code/Model/Model.cpp:137-144 | assigning offsets changes no vertex or index data |
| Models.AssignOffsets | VulkanMonkey/Code/Model/Model.cpp:137-144 | the loop's meshes are the offset-assigned meshes, and the counters end advanced by the totals modulo 2^32 (the `uint32_t` casts and sums of lines 142-143) |
| Models.AppendKeepsOffsets | VulkanMonkey/Code/Model/Model.cpp:137-144 | loading a scene with counters equal to the totals so far keeps every mesh's offsets equal to the data in front of it, over any number of loads |
| Models.AppendCounts | VulkanMonkey/Code/Model/Model.cpp:142-143 | after the append the counters are the totals of the whole mesh list, modulo 2^32 |
| Models.AppendKeepsValid | VulkanMonkey/Code/Model/Model.cpp:137-144 | both facts together: offsets agree and counters equal the totals after the append |
| Models.AppendMeshes | VulkanMonkey/Code/Model/Model.cpp:137-144 | the meshes are the old ones followed by the new ones with offsets, and the model invariant is preserved |
| Models.VertexSlice | VulkanMonkey/Code/Model/Model.cpp:137-144 | with offsets that agree and no wrap-around, mesh k's vertices are exactly the vertex buffer slice [vertexOffset, vertexOffset + size) |
| Models.IndexSlice | VulkanMonkey/Code/Model/Model.cpp:137-144 | the same for mesh k's indices in the index buffer |
| Models.Concatenate | VulkanMonkey/Code/Model/Model.cpp:219-223 | the buffer-filling loops append every part of every mesh, mesh after mesh |
| Models.Model.CreateVertexBuffer | VulkanMonkey/Code/Model/Model.cpp:217-237 | the vertex buffer holds the vertices of all meshes in mesh order; nothing else changes |
| Models.Model.CreateIndexBuffer | VulkanMonkey/Code/Model/Model.cpp:239-258 | the index buffer holds the indices of all meshes in mesh order; nothing else changes |
| Models.Model.LoadModel | VulkanMonkey/Code/Model/Model.cpp:34-151 | the appended meshes are the sorted scene meshes with offsets counted on from the old counters; both buffers match the mesh list; the name and visibility are set; the model invariant is preserved |
| Models.DynamicOffsetSlots | VulkanMonkey/Code/Model/Model.cpp:177-178 | the dynamic offset `modelID * sizeof(ShadowsUBO)` is 256·modelID, 256-aligned, and distinct models' slots do not overlap (for IDs below 2^24) |
| Models.Model.Draw | VulkanMonkey/Code/Model/Model.cpp:161-184 | nothing unless the model is rendered; otherwise the pipeline and both buffers are bound, then each mesh's commands in order |
| Models.DrawsOfMeshes | VulkanMonkey/Code/Model/Model.cpp:171-182 | the draw calls are exactly one indexed draw per mesh that is rendered and not culled, in mesh order, over the mesh's own index range |
| Models.ForwardBindsShadowSlot | VulkanMonkey/Code/Model/Model.cpp:176-179 | in the forward path every descriptor bind passes four sets, the shadow set first, with the model's dynamic offset |
| Models.Statics.constructor | VulkanMonkey/Code/Model/Model.cpp:9 | the static layouts start null and the texture cache empty |
| Models.Statics.GetModelDescriptorSetLayout | VulkanMonkey/Code/Model/Model.cpp:197-215 | the layout is created (one vertex-stage uniform buffer) only while the static is null; later calls return the cached handle and ask nothing of the device |
| Models.Statics.ReleaseTextures | VulkanMonkey/Code/Model/Model.cpp:378-380 | every cached texture is destroyed exactly once and the cache ends empty |
| Models.Statics.ReleaseLayouts | VulkanMonkey/Code/Model/Model.cpp:386-394 | each static layout is destroyed only if it is not null, and is nulled |
| Models.ClearMeshData | VulkanMonkey/Code/Model/Model.cpp:371-376 | every mesh keeps its place, offsets and flags and loses its vertex and index data |
| Models.Model.Destroy | VulkanMonkey/Code/Model/Model.cpp:369-395 | the mesh data is cleared, the textures released, the three buffers destroyed, and the static layouts destroyed under their null guards; the name, visibility, counters, descriptor set, buffer handles and buffer contents are unchanged |
| Models.DestroyTwice | VulkanMonkey/Code/Model/Model.cpp:369-395 | a second destroy releases no texture and no layout, only the three buffers again |
| Pipelines.Bindings | VulkanMonkey/Code/Renderer/Pipeline.cpp:206-615 | each getter's table is numbered 0..n-1 with one descriptor each; every binding's type and stage agree with a declarative list of the uniform-buffer and vertex-stage bindings per technique |
| Pipelines.VertexStageOnlyUniforms | VulkanMonkey/Code/Renderer/Pipeline.cpp:506-594 | no table makes a sampler visible to the vertex stage; only the shadow, mesh, model and primitive tables have vertex-stage bindings |
| Pipelines.LayoutCache.constructor | VulkanMonkey/Code/Renderer/Pipeline.cpp:208 | every static `DSLayout` starts null |
| Pipelines.LayoutCache.GetDescriptorSetLayout | VulkanMonkey/Code/Renderer/Pipeline.cpp:206-234 | the layout is created from the technique's table only while the cached static is null; afterwards the cached handle is returned with no device request; other techniques' caches are untouched |
| Pipelines.GetTwice | VulkanMonkey/Code/Renderer/Pipeline.cpp:206-234 | asking twice returns the same handle and creates at most one layout |
| Pipelines.GraphicsPipelineShape | VulkanMonkey/Code/Renderer/Pipeline.cpp:39-185 | stageCount equals the stage list's length: the vertex stage, and a fragment stage exactly when there is a fragment shader. The layout is the one just created, and the fixed state (triangle list, one viewport and scissor, depth test and write with Greater, subpass 0) does not depend on the input |
| Pipelines.PushConstantRangeShape | VulkanMonkey/Code/Renderer/Pipeline.cpp:159-169 | the layout always counts one push-constant range but passes it exactly when its size is not zero |
| Pipelines.FragmentModuleLeaks | VulkanMonkey/Code/Renderer/Pipeline.cpp:55-62 | as written, the fragment shader module is created and never destroyed |
| Pipelines.ReleasesEveryModule | VulkanMonkey/Code/Renderer/Pipeline.cpp:187-190 | with the correction every created shader module is destroyed, and the pipeline requests before the added destroys are unchanged |
| Pipelines.RequestGraphicsPipeline | VulkanMonkey/Code/Renderer/Pipeline.cpp:39-191 | the device receives the requests of createGraphicsPipeline in source order, as written: the created fragment module goes only into the second stage, the local `fragModule` stays null, so its guarded destroy never fires and only the vertex module is destroyed (see the finding below) |
| Pipelines.Pipeline.constructor | VulkanMonkey/Code/Renderer/Pipeline.cpp:8-33 | a new pipeline has default create info (no shaders, vertex push constant of size 0, no culling) and null handles |
| Pipelines.Pipeline.CreateGraphicsPipeline | VulkanMonkey/Code/Renderer/Pipeline.cpp:39-191 | the object's layout and pipeline are the handles created for them, and the device log is extended by exactly those requests as the source issues them, leaving the fragment module alive |
| Pipelines.Pipeline.Destroy | VulkanMonkey/Code/Renderer/Pipeline.cpp:193-204 | the layout and the pipeline are destroyed only when not null, and both end null |
| Pipelines.DestroyTwice | VulkanMonkey/Code/Renderer/Pipeline.cpp:193-204 | destroy is idempotent: the second call makes no device request |
| Ssr.Inserted | VulkanMonkey/Code/PostProcess/SSR.cpp:42-45 | `operator[]` leaves the map unchanged for a present name; for a missing one it adds exactly that name, bound to a default image, and keeps every other entry |
| Ssr.LookupsKeys | VulkanMonkey/Code/PostProcess/SSR.cpp:42-45 | looking names up adds exactly those names to the map |
| Ssr.LookupsKeep | VulkanMonkey/Code/PostProcess/SSR.cpp:42-45 | looking names up changes no existing entry |
| Ssr.LookupsDefault | VulkanMonkey/Code/PostProcess/SSR.cpp:42-45 | every looked-up name that was missing maps to the default image |
| Ssr.RenderTargets.constructor | VulkanMonkey/Code/PostProcess/SSR.cpp:11 | the render targets are the map the renderer passes in |
| Ssr.RenderTargets.Subscript | VulkanMonkey/Code/PostProcess/SSR.cpp:42-45 | the subscript returns the image now bound to the name, after the insertion above |
| Ssr.ReflectionBindingsAreSsrTable | VulkanMonkey/Code/PostProcess/SSR.cpp:255-271 | the pass's own layout table equals the SSR table of Pipeline.cpp (lines 434-457) |
| Ssr.ReflectionWrites | VulkanMonkey/Code/PostProcess/SSR.cpp:28-49 | five writes that agree with the layout table binding by binding, in number and descriptor type: albedo, depth, normal and srm at 0..3, and the whole uniform buffer at 4 |
| Ssr.SSR.UpdateDescriptorSets | VulkanMonkey/Code/PostProcess/SSR.cpp:28-49 | the four inputs are looked up (inserting missing ones) and one update with the writes above goes to the device |
| Ssr.SSR.CreateSSRUniforms | VulkanMonkey/Code/PostProcess/SSR.cpp:11-26 | a zeroed buffer of four matrices and a set allocated from the reflection layout, then the descriptor writes into that set |
| Ssr.SSR.Update | VulkanMonkey/Code/PostProcess/SSR.cpp:51-68 | a copy into the uniform buffer is queued if and only if show_ssr is on |
| Ssr.FullScreenPassShape | VulkanMonkey/Code/PostProcess/SSR.cpp:71-91 | the pass opens a render pass first and closes it last, nothing nested, and its only draw is three vertices of one instance |
| Ssr.SSR.Draw | VulkanMonkey/Code/PostProcess/SSR.cpp:71-91 | draw records the full-screen pass into the framebuffer of the given swapchain image |
| Ssr.SSR.CreateRenderPass | VulkanMonkey/Code/PostProcess/SSR.cpp:93-121 | one render pass in the format of the "ssr" target, looked up with insertion |
| Ssr.FramebufferCreates | VulkanMonkey/Code/PostProcess/SSR.cpp:127-139 | one request per swapchain image, each with the single "ssr" view, the "ssr" size, one layer and a fresh handle |
| Ssr.SSR.CreateFrameBuffers | VulkanMonkey/Code/PostProcess/SSR.cpp:123-140 | the list is resized to the image count and every slot gets a fresh framebuffer; with no image the map is not touched |
| Ssr.RequestFramebuffers | VulkanMonkey/Code/PostProcess/SSR.cpp:127-139 | the loop replaces slot i by the i-th fresh framebuffer, looking "ssr" up anew each round |
| Ssr.PipelineOpsShape | VulkanMonkey/Code/PostProcess/SSR.cpp:142-304 | the set layout is created exactly when none is cached; the pipeline layout holds that one set layout and no push constants; every created shader module is destroyed |
| Ssr.SSR.CreatePipeline | VulkanMonkey/Code/PostProcess/SSR.cpp:142-304 | the device log grows by those requests, DSLayoutReflection is kept or newly created, and the layout and pipeline go into the pass's Pipeline |
| Ssr.RequestPipeline | VulkanMonkey/Code/PostProcess/SSR.cpp:142-304 | the device side of createPipeline in source order |
| Ssr.RequestUniforms | VulkanMonkey/Code/PostProcess/SSR.cpp:13-23 | a zeroed uniform buffer of 4·sizeof(mat4) bytes, then one set allocated from the layout |
| Ssr.FramebufferDestroysExact | VulkanMonkey/Code/PostProcess/SSR.cpp:308-312 | the destroy loop destroys a framebuffer if and only if it is a non-null entry of the list |
| Ssr.ReleaseFramebuffers | VulkanMonkey/Code/PostProcess/SSR.cpp:308-312 | the loop issues exactly the framebuffer destroys above, in list order |
| Ssr.ReleaseOwnObjects | VulkanMonkey/Code/PostProcess/SSR.cpp:313-321 | the render pass and set layout are destroyed only when not null, then the uniform buffer |
| Ssr.SSR.Destroy | VulkanMonkey/Code/PostProcess/SSR.cpp:306-323 | everything is released under its null guard; the render pass, set layout and pipeline handles are nulled but the framebuffer list is kept |
| Ssr.DestroyTwice | VulkanMonkey/Code/PostProcess/SSR.cpp:306-323 | destroy is not idempotent: a second call destroys every non-null framebuffer and the uniform buffer again |
| Renderer.Launch | VulkanMonkey/Code/Renderer/Renderer.cpp:62-70 | one future per queued request, in request order, each carrying its request and the worker's result |
| Renderer.Scene.LaunchLoads | VulkanMonkey/Code/Renderer/Renderer.cpp:62-70 | the load queue is emptied and its futures appended to the pending ones; nothing else changes |
| Renderer.PollPartitions | VulkanMonkey/Code/Renderer/Renderer.cpp:72-83 | polling loses no future: delivered plus still pending is the number of futures |
| Renderer.ReadyModelsExactly | VulkanMonkey/Code/Renderer/Renderer.cpp:72-83 | a model is delivered if and only if it is the result of a ready future (both directions) |
| Renderer.StillPendingExactly | VulkanMonkey/Code/Renderer/Renderer.cpp:72-83 | a future stays pending if and only if it was not ready |
| Renderer.NamesOf | VulkanMonkey/Code/Renderer/Renderer.cpp:75 | the GUI model list receives each delivered model's name, in order |
| Renderer.Poll | VulkanMonkey/Code/Renderer/Renderer.cpp:72-83 | the polling loop delivers the ready futures' models in future order and keeps the others in order |
| Renderer.Scene.PollFutures | VulkanMonkey/Code/Renderer/Renderer.cpp:72-83 | the delivered models and their names are appended, each with unit scale and zero position and rotation; the pending futures are the not-ready ones; the lists stay parallel |
| Renderer.EraseShifts | VulkanMonkey/Code/Renderer/Renderer.cpp:87-92 | `vector::erase` at k keeps the entries before k and moves those after it down by one |
| Renderer.EraseAllLength | VulkanMonkey/Code/Renderer/Renderer.cpp:85-95 | every queued unload removes exactly one entry |
| Renderer.UnloadInTurn | VulkanMonkey/Code/Renderer/Renderer.cpp:85-95 | the five parallel lists are erased at each queued index in turn, and the destroyed models are the entries removed, in queue order |
| Renderer.Scene.ProcessUnloads | VulkanMonkey/Code/Renderer/Renderer.cpp:85-95 | every list ends erased at the queued indices in turn, the removed models are released, the selection is reset when anything was unloaded, and the lists stay parallel |
| Renderer.Scene.CheckQueue | VulkanMonkey/Code/Renderer/Renderer.cpp:60-95 | the loads are started, old futures and new ones polled, then the unloads applied to the grown lists: the models, names, scales, positions and rotations (unit scale and zero position and rotation for each new model) are erased at the queued indices in turn, the lists stay parallel, and the GUI selection is cleared exactly when there was an unload |
| Renderer.ModelDrawsExactly | VulkanMonkey/Code/Renderer/Renderer.cpp:233-234 | the models pass draws model m at position m, for every loaded model, and no other |
| Renderer.ScenePassesExactly | VulkanMonkey/Code/Renderer/Renderer.cpp:229-277 | the block that needs models holds exactly the enabled passes of its slots |
| Renderer.EnabledPassesExactly | VulkanMonkey/Code/Renderer/Renderer.cpp:223-282 | a pass is recorded if and only if it is enabled: the skybox matching shadow_cast and the GUI always; models and composition when there are models; SSAO, SSR, FXAA, bloom and motion blur when there are models and their switch is on |
| Renderer.EnabledPassesOrdered | VulkanMonkey/Code/Renderer/Renderer.cpp:223-282 | whatever the switches, the passes come in strictly increasing metric slot order, the skybox first and the GUI last |
| Renderer.DeferredCmdsAreSegments | VulkanMonkey/Code/Renderer/Renderer.cpp:218-286 | the deferred buffer is begin, metric 0, viewport and scissor, then each enabled pass timed by its slot, then metric 0 closed and end |
| Renderer.SegmentDraws | VulkanMonkey/Code/Renderer/Renderer.cpp:229-236 | only the models pass draws a model, and it draws exactly its models |
| Renderer.DeferredDrawsEveryModel | VulkanMonkey/Code/Renderer/Renderer.cpp:192-287 | model m is drawn in the deferred buffer if and only if it is one of the loaded models |
| Renderer.RecordModelPass | VulkanMonkey/Code/Renderer/Renderer.cpp:231-236 | the loop records the timed models pass |
| Renderer.RecordScene | VulkanMonkey/Code/Renderer/Renderer.cpp:229-277 | the passes that need models are recorded in block order, each under its own switch |
| Renderer.RecordDeferred | VulkanMonkey/Code/Renderer/Renderer.cpp:213-286 | the recording equals the deferred buffer function above |
| Renderer.RebuildDestroysOldFramebuffers | VulkanMonkey/Code/Renderer/Renderer.cpp:198-199 | the maintenance block destroys a bloom framebuffer if and only if it is one of the old ones |
| Renderer.RebuildBloom | VulkanMonkey/Code/Renderer/Renderer.cpp:195-203 | wait, bloom descriptor update, every old framebuffer destroyed, new ones created, motion blur update, in that order |
| Renderer.Renderer.RecordDeferredCmds | VulkanMonkey/Code/Renderer/Renderer.cpp:192-287 | the buffer holds the deferred commands; the maintenance block runs exactly when dSetNeedsUpdate was set, replaces the bloom framebuffers and clears the flag |
| Renderer.Renderer.RecordDeferredTwice | VulkanMonkey/Code/Renderer/Renderer.cpp:195-203 | two frames in a row rebuild the bloom framebuffers at most once |
| Renderer.FramebufferIndexInjective | VulkanMonkey/Code/Renderer/Renderer.cpp:313 | `i * imageCount + imageIndex` picks a different framebuffer for each cascade and image |
| Renderer.FramebufferIndexBound | VulkanMonkey/Code/Renderer/Renderer.cpp:313 | with c cascades, every index stays below c·imageCount |
| Renderer.FramebuffersCoverCascades | VulkanMonkey/Code/Renderer/Renderer.cpp:306-313 | when the last cascade's framebuffer exists, so does every cascade's |
| Renderer.PrimitiveDrawsExactly | VulkanMonkey/Code/Renderer/Renderer.cpp:324-327 | a mesh draws exactly its rendered primitives, at the mesh's offsets plus the primitive's |
| Renderer.NodeCmdsDraws | VulkanMonkey/Code/Renderer/Renderer.cpp:321-328 | a node draws exactly the rendered primitives of its mesh, and nothing without a mesh |
| Renderer.NodesCmdsDraws | VulkanMonkey/Code/Renderer/Renderer.cpp:321-328 | a node list draws exactly the rendered primitives of its nodes' meshes |
| Renderer.ModelCmdsDraws | VulkanMonkey/Code/Renderer/Renderer.cpp:317-329 | a model draws its nodes' primitives if it is rendered, and nothing otherwise |
| Renderer.ModelsCmdsSound | VulkanMonkey/Code/Renderer/Renderer.cpp:316-330 | every draw comes from a rendered primitive of a rendered model's node |
| Renderer.ModelsCmdsComplete | VulkanMonkey/Code/Renderer/Renderer.cpp:316-330 | every rendered primitive of a rendered model's node is drawn |
| Renderer.CascadeDrawsExactly | VulkanMonkey/Code/Renderer/Renderer.cpp:306-336 | each cascade's buffer draws exactly the rendered primitives of the rendered models |
| Renderer.RecordPrimitives | VulkanMonkey/Code/Renderer/Renderer.cpp:324-327 | the primitive loop records the mesh's primitive draws |
| Renderer.RecordNode | VulkanMonkey/Code/Renderer/Renderer.cpp:322-328 | one node's commands: the three sets bound, then its primitives |
| Renderer.RecordNodes | VulkanMonkey/Code/Renderer/Renderer.cpp:321-328 | the node loop records every node's commands in linear order |
| Renderer.RecordModel | VulkanMonkey/Code/Renderer/Renderer.cpp:317-329 | one model: when rendered, its buffers bound and its nodes recorded |
| Renderer.RecordModels | VulkanMonkey/Code/Renderer/Renderer.cpp:316-330 | the model loop records every model's commands in order |
| Renderer.RecordCascade | VulkanMonkey/Code/Renderer/Renderer.cpp:307-335 | one cascade's buffer: begin, metric 10+i, depth bias, the render pass on its framebuffer with the shadow pipeline and the models' commands, metric closed, end |
| Renderer.RecordCascades | VulkanMonkey/Code/Renderer/Renderer.cpp:306-336 | the buffer of each cascade is recorded anew and the other buffers are left as they were |
| Renderer.ShadowBuffers | VulkanMonkey/Code/Renderer/Renderer.cpp:306-336 | the shadow buffers keep their number |
| Renderer.Renderer.RecordShadowsCmds | VulkanMonkey/Code/Renderer/Renderer.cpp:289-337 | the shadow buffers become the cascade recordings; nothing else changes |
| Renderer.Consume | VulkanMonkey/Code/Renderer/Renderer.cpp:382-395 | after waiting on some semaphores, a semaphore is signalled if and only if it was signalled and not waited on |
| Renderer.Produce | VulkanMonkey/Code/Renderer/Renderer.cpp:382-390 | after signalling some semaphores, a semaphore is signalled if and only if it was already or is one of them |
| Renderer.RunAppend | VulkanMonkey/Code/Renderer/Renderer.cpp:339-412 | running two operation lists in a row is running their concatenation |
| Renderer.ComputeFromIdle | VulkanMonkey/Code/Renderer/Renderer.cpp:345-353 | the compute dispatch runs validly from idle back to idle (fence 1 submitted, waited for, reset) |
| Renderer.AcquireFromIdle | VulkanMonkey/Code/Renderer/Renderer.cpp:361-377 | with or without shadows the acquire leaves exactly semaphore 1 signalled |
| Renderer.DrawFromAcquired | VulkanMonkey/Code/Renderer/Renderer.cpp:379-406 | from semaphore 1 signalled, the deferred submit, the presentation and the fence wait and reset run validly back to idle |
| Renderer.PresentIsSynchronised | VulkanMonkey/Code/Renderer/Renderer.cpp:339-412 | for every combination of switches a frame is correctly synchronised. No semaphore is waited on unsignalled or signalled twice, and no fence is reused while in flight. The frame ends idle, so the next frame starts from the same state |
| Renderer.Renderer.constructor | VulkanMonkey/Code/Renderer/Renderer.cpp:6-19 | once the context is initialised the renderer is prepared, with no update pending and empty recordings |
| Renderer.Renderer.Present | VulkanMonkey/Code/Renderer/Renderer.cpp:339-412 | nothing happens before the renderer is prepared. Afterwards the frame's queue operations are logged in order. The deferred buffer is recorded, and the shadow buffers are recorded exactly when shadows are cast |

## Left out

- Vulkan itself. Every device call becomes a logged request with opaque handles. Memory
  allocation, mapping and flushing of buffers are not modelled. Buffer::destroy is one
  `DestroyBuffer` request, and a repeated call is modelled as a repeated request: Buffer.cpp is
  not part of this model, so whether it guards against a null buffer is unknown.
- Floating point. Vertex positions, normals, uvs, tangents and colours are not modelled, and
  neither are transforms, the bounding sphere and the resize factor of loadModel (lines
  153-158). The same goes for the camera, the viewport and scissor rectangles and `UVOffset`. A
  vertex is modelled as its scene mesh and index. The clear colour, the depth bias values and
  the reflection uniform contents (SSR.cpp lines 54-60) are also left out.
- `std::async` and the worker thread. The loader is the `worker` function parameter, and
  `wait_for` readiness is the `ready` parameter. `waitIdle` in checkQueue is not modelled.
- The drawing of other passes is left out. The skybox, SSAO, composition, FXAA, bloom, motion
  blur and GUI draws are `RunPass` markers, and each model's draw is a `DrawModel(m)` marker.
  `recordComputeCmds` is a `RecordCompute` marker. The GPU metrics are slot markers with no
  bounds check.
- Materials and textures in loadModel: the `textureMaps` loop and `loadTexture` are left out.
  Whether a mesh has alpha is taken from the imported mesh. createUniformBuffers,
  createDescriptorSets and the importer's own work (flags, logger) are not modelled. A failed
  import, which exits the process, is excluded by taking the scene as given.
- The vertex offset of drawIndexed is an `int32_t` in Vulkan. The model passes the `uint32_t`
  counter unchanged.
- The shadow submission at Renderer.cpp lines 366-374 submits all shadow command buffers. Its
  buffer count is not modelled.
- The constructors of Model, Mesh, SSR and the Queue and GUI statics are in headers and
  sources that are not part of this model. The model assumes empty lists and null handles at
  construction.
- The `USE_SCRIPTS` blocks, `FIRE_EVENT`, the Timer code, `Renderer::update`, the Renderer
  destructor, Camera.cpp, main.cpp and Window.h.
- Renderer.cpp is modelled from its own text, which sees a model as `linearNodes` with mesh
  primitives. Model.cpp in the same snapshot builds flat `meshes`. The two views are kept
  separate: `Renderer.SceneModel` and `Models.Model`.
- In SSR.cpp, draw and createPipeline use `pipeline.pipeinfo.layout` (a version of Pipeline
  with a `pipeinfo` member). The model uses the `pipelineLayout` field of Pipeline.cpp for the
  same handle.
- The getDescriptorSetLayout* getters are not modelled one by one. They are modelled by one
  `LayoutCache` keyed by technique. Each function-local static is a map entry.
- Models.Model.Destroy: `vertexData` and `indexData` stand for what the buffers were filled
  with. They keep their values after destroy, but once the buffers are destroyed those values
  describe no live buffer, since freed device memory is not modelled.
- Models.SortByAlpha: states a permutation and the alpha order only, not any particular order
  within each group, since std::sort is not stable.
- Renderer.Scene.ProcessUnloads: each unload sets `modelItemSelected = -1`. The model sets it
  once after the loop, which gives the same final state. The individual `destroy()` of each
  model is modelled as the model joining the `released` list. Model destruction is modelled by
  Models.Model.Destroy.

## Findings

| source | as written | input that shows it | evidently intended | confidence | as-written member | corrected member |
|---|---|---|---|---|---|---|
| VulkanMonkey/Code/Renderer/Pipeline.cpp:55-62 | the fragment module is stored only in `pssci2.module`. The local `fragModule` that guards its destruction at line 189 is never assigned, so the module is never destroyed | any `PipelineCreateInfo` with a fragment shader: `FragmentModuleLeaks` shows the create request present and the destroy absent | assign the created module to `fragModule`, so that it is destroyed after the pipeline is created, like the vertex module | not executed | Pipelines.FragmentModuleLeaks | Pipelines.ReleasesEveryModule |

`Pipelines.RequestGraphicsPipeline` and `Pipelines.Pipeline.CreateGraphicsPipeline` record the
requests as the source issues them (`GraphicsPipelineOps`). The corrected sequence is
`GraphicsPipelineOpsReleasingModules`, and `ReleasesEveryModule` is proved about it.
