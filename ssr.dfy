/** The screen-space reflection pass (Code/PostProcess/SSR.cpp): its uniform buffer and
    descriptor set, the descriptor writes against its set layout, one framebuffer per
    swapchain image, its pipeline, the gated per-frame update, the draw it records and
    what destroy releases. Render targets live in a std::map indexed with operator[],
    which inserts a default image for a missing name. */
module Ssr {
  import opened Vulkan
  import opened Seqs
  import Pipelines

  /** The parts of vm::Image the pass reads. */
  datatype Image = Image(view: Handle, sampler: Handle, format: nat, width: nat, height: nat)

  /** What operator[] inserts for a missing name: a default-constructed Image, here with null
      handles and zero format and size. */
  const DefaultImage := Image(Null, Null, 0, 0, 0)

  /** The map after `targets[name]`: unchanged if the name is present, otherwise with the name
      bound to a default image. */
  function Inserted(targets: map<string, Image>, name: string): (r: map<string, Image>)
    ensures name in r && r.Keys == targets.Keys + {name}
    ensures forall k :: k in targets ==> r[k] == targets[k]
    ensures name !in targets ==> r[name] == DefaultImage
  {
    if name in targets then targets else targets[name := DefaultImage]
  }

  /** The map after looking up each name of `names` in turn. */
  function Lookups(targets: map<string, Image>, names: seq<string>): map<string, Image>
    decreases |names|
  {
    if names == [] then targets else Inserted(Lookups(targets, names[..|names| - 1]), names[|names| - 1])
  }

  /** Looking names up adds exactly those names to the map. */
  lemma {:induction false} LookupsKeys(targets: map<string, Image>, names: seq<string>)
    ensures forall n :: n in Lookups(targets, names) <==> n in targets || n in names
    decreases |names|
  {
    if names != [] {
      var init, last := names[..|names| - 1], names[|names| - 1];
      LookupsKeys(targets, init);
      assert names == init + [last];
    }
  }

  /** Looking names up leaves every existing entry as it was. */
  lemma {:induction false} LookupsKeep(targets: map<string, Image>, names: seq<string>)
    ensures forall k :: k in targets ==> k in Lookups(targets, names) && Lookups(targets, names)[k] == targets[k]
    decreases |names|
  {
    if names != [] {
      LookupsKeep(targets, names[..|names| - 1]);
    }
  }

  /** A looked-up name that was missing is mapped to the default image. */
  lemma {:induction false} LookupsDefault(targets: map<string, Image>, names: seq<string>)
    ensures forall k :: k in names && k !in targets ==>
      k in Lookups(targets, names) && Lookups(targets, names)[k] == DefaultImage
    decreases |names|
  {
    if names != [] {
      var init, last := names[..|names| - 1], names[|names| - 1];
      LookupsDefault(targets, init);
      LookupsKeys(targets, init);
      assert names == init + [last];
      var before := Lookups(targets, init);
      forall k | k in names && k !in targets
        ensures Lookups(targets, names)[k] == DefaultImage
      {
        if k in init {
          assert before[k] == DefaultImage;
        }
      }
    }
  }

  /** The render targets the pass shares with the renderer. */
  class RenderTargets {
    var images: map<string, Image>

    constructor (initial: map<string, Image>)
      ensures images == initial
    {
      images := initial;
    }

    /** std::map::operator[]. */
    method Subscript(name: string) returns (image: Image)
      modifies this
      ensures images == Inserted(old(images), name) && image == images[name]
    {
      if name !in images {
        images := images[name := DefaultImage];
      }
      image := images[name];
    }
  }

  /** The images updateDescriptorSets samples, in binding order. */
  const ReflectionInputs: seq<string> := ["albedo", "depth", "normal", "srm"]

  /** The binding table createPipeline gives DSLayoutReflection: four fragment samplers and a
      fragment uniform buffer at 4. */
  const ReflectionBindings: seq<LayoutBinding> := [
    LayoutBinding(0, CombinedImageSampler, 1, Fragment),
    LayoutBinding(1, CombinedImageSampler, 1, Fragment),
    LayoutBinding(2, CombinedImageSampler, 1, Fragment),
    LayoutBinding(3, CombinedImageSampler, 1, Fragment),
    LayoutBinding(4, UniformBuffer, 1, Fragment)]

  /** The pass's own table is the SSR table of the pipeline module. */
  lemma ReflectionBindingsAreSsrTable()
    ensures ReflectionBindings == Pipelines.Bindings(Pipelines.SSR)
  {
  }

  /** 4 * sizeof(mat4): the reflection uniforms are four 4x4 float matrices. */
  const ReflectionUboSize: nat := 4 * 16 * 4

  /** The five writes updateDescriptorSets issues: each input image at its binding as a
      combined image sampler, and the whole uniform buffer at 4. They agree with the layout's
      table binding by binding, in number and in descriptor type. */
  function ReflectionWrites(dstSet: Handle, images: map<string, Image>, ubo: Handle, uboSize: nat)
    : (r: seq<DescriptorWrite>)
    requires forall n :: n in ReflectionInputs ==> n in images
    ensures |r| == |ReflectionBindings|
    ensures forall i :: 0 <= i < |r| ==>
      r[i].dstSet == dstSet && r[i].dstBinding == ReflectionBindings[i].binding &&
      r[i].DescriptorType() == ReflectionBindings[i].descriptorType
    ensures forall i :: 0 <= i < |ReflectionInputs| ==>
      r[i] == ImageWrite(dstSet, i, images[ReflectionInputs[i]].sampler, images[ReflectionInputs[i]].view)
    ensures r[4] == BufferWrite(dstSet, 4, ubo, 0, uboSize)
  {
    var albedo, depth, normal, srm := images["albedo"], images["depth"], images["normal"], images["srm"];
    [ImageWrite(dstSet, 0, albedo.sampler, albedo.view),
     ImageWrite(dstSet, 1, depth.sampler, depth.view),
     ImageWrite(dstSet, 2, normal.sampler, normal.view),
     ImageWrite(dstSet, 3, srm.sampler, srm.view),
     BufferWrite(dstSet, 4, ubo, 0, uboSize)]
  }

  /** The framebuffer requests of createFrameBuffers for the first n swapchain images: each
      has the single "ssr" view as attachment, the "ssr" size and one layer, and a fresh handle. */
  function FramebufferCreates(renderPass: Handle, ssr: Image, base: nat, n: nat): (r: seq<DeviceOp>)
    ensures |r| == n
    ensures forall i :: 0 <= i < n ==>
      r[i] == CreateFramebuffer(FramebufferInfo(renderPass, [ssr.view], ssr.width, ssr.height, 1), Live(base + i))
  {
    if n == 0 then [] else
    FramebufferCreates(renderPass, ssr, base, n - 1) +
      [CreateFramebuffer(FramebufferInfo(renderPass, [ssr.view], ssr.width, ssr.height, 1), Live(base + n - 1))]
  }

  /** The commands draw records: one render pass into the image's framebuffer, binding the
      pipeline and the reflection set, and a full-screen triangle. */
  function FullScreenPass(renderPass: Handle, framebuffer: Handle, pipeline: Handle, layout: Handle,
                          descriptorSet: Handle): seq<Command>
  {
    [BeginRenderPass(renderPass, framebuffer),
     BindPipeline(pipeline),
     BindDescriptorSets(layout, [descriptorSet], []),
     Command.Draw(3, 1, 0, 0),
     EndRenderPass]
  }

  /** The pass is one render pass, opened first and closed last with nothing nested, and its
      only draw is three vertices of one instance. */
  lemma FullScreenPassShape(renderPass: Handle, framebuffer: Handle, pipeline: Handle, layout: Handle,
                            descriptorSet: Handle)
    ensures var cmds := FullScreenPass(renderPass, framebuffer, pipeline, layout, descriptorSet);
      cmds[0] == BeginRenderPass(renderPass, framebuffer) && cmds[|cmds| - 1] == EndRenderPass &&
      (forall i :: 0 < i < |cmds| - 1 ==> !cmds[i].BeginRenderPass? && !cmds[i].EndRenderPass?) &&
      (forall i :: 0 <= i < |cmds| && (cmds[i].Draw? || cmds[i].DrawIndexed?) ==> cmds[i] == Command.Draw(3, 1, 0, 0))
  {
  }

  /** The request createPipeline makes for the pipeline: two stages, back-face culling, the
      fixed state of every pipeline, the given layout and render pass, subpass 0. */
  function ReflectionPipelineInfo(vertModule: Handle, fragModule: Handle, layout: Handle, renderPass: Handle)
    : GraphicsPipelineInfo
  {
    var stages := [ShaderStageInfo(Vertex, vertModule, "main"), ShaderStageInfo(Fragment, fragModule, "main")];
    GraphicsPipelineInfo(|stages|, stages, true, 1, 1, CullBack, true, true, Greater, layout, renderPass, 0)
  }

  const VertexShaderPath := "shaders/Common/quad.vert"
  const FragmentShaderPath := "shaders/SSR/ssr.frag"

  /** The set layout createPipeline ends with: the cached one, or the one it creates. */
  function SetLayoutAfter(dsLayout: Handle, base: nat): Handle
  {
    if dsLayout == Null then Live(base + 2) else dsLayout
  }

  /** The device requests of createPipeline, handles counted from `base`: the two shader
      modules, the set layout only if none is cached, a pipeline layout over that one set
      with no push constants, the pipeline, and the destruction of both modules. */
  function PipelineOps(dsLayout: Handle, renderPass: Handle, base: nat): seq<DeviceOp>
  {
    var vert, frag := Live(base), Live(base + 1);
    var extra := if dsLayout == Null then 1 else 0;
    var setLayout := SetLayoutAfter(dsLayout, base);
    var layout, pipeline := Live(base + 2 + extra), Live(base + 3 + extra);
    [CreateShaderModule(Vertex, VertexShaderPath, vert),
     CreateShaderModule(Fragment, FragmentShaderPath, frag)] +
    (if dsLayout == Null then [CreateDescriptorSetLayout(ReflectionBindings, setLayout)] else []) +
    [CreatePipelineLayout(PipelineLayoutInfo([setLayout], 0, None), layout),
     DeviceOp.CreateGraphicsPipeline(ReflectionPipelineInfo(vert, frag, layout, renderPass), pipeline),
     DestroyShaderModule(vert),
     DestroyShaderModule(frag)]
  }

  /** createPipeline creates the set layout exactly when none is cached; the pipeline layout
      holds exactly that one set layout and no push-constant range; and every shader module it
      creates it also destroys. */
  lemma {:induction false} PipelineOpsShape(dsLayout: Handle, renderPass: Handle, base: nat)
    ensures var ops := PipelineOps(dsLayout, renderPass, base);
      (exists op :: op in ops && op.CreateDescriptorSetLayout?) <==> dsLayout == Null
    ensures var ops := PipelineOps(dsLayout, renderPass, base);
      forall op :: op in ops && op.CreatePipelineLayout? ==>
        op.layoutInfo == PipelineLayoutInfo([SetLayoutAfter(dsLayout, base)], 0, None)
    ensures var ops := PipelineOps(dsLayout, renderPass, base);
      forall op :: op in ops && op.CreateShaderModule? ==> DestroyShaderModule(op.handle) in ops
  {
    var ops := PipelineOps(dsLayout, renderPass, base);
    var k := if dsLayout == Null then 1 else 0;
    assert |ops| == 6 + k;
    if dsLayout == Null {
      assert ops[2].CreateDescriptorSetLayout?;
    }
    forall op | op in ops && op.CreatePipelineLayout?
      ensures op.layoutInfo == PipelineLayoutInfo([SetLayoutAfter(dsLayout, base)], 0, None)
    {
      var i :| 0 <= i < |ops| && ops[i] == op;
      assert i == 2 + k;
    }
    forall op | op in ops && op.CreateShaderModule?
      ensures DestroyShaderModule(op.handle) in ops
    {
      var i :| 0 <= i < |ops| && ops[i] == op;
      assert i < 2;
      assert ops[4 + k + i] == DestroyShaderModule(op.handle);
    }
  }

  /** The destroy request of one framebuffer slot: only a non-null handle is destroyed. */
  function FramebufferDestroy(fb: Handle): seq<DeviceOp>
  {
    if fb != Null then [DestroyFramebuffer(fb)] else []
  }

  /** The framebuffer loop of destroy. */
  function FramebufferDestroys(fbs: seq<Handle>): seq<DeviceOp>
  {
    FlatMap(fbs, FramebufferDestroy)
  }

  /** The loop destroys exactly the non-null framebuffers, and nothing else. */
  lemma FramebufferDestroysExact(fbs: seq<Handle>, op: DeviceOp)
    ensures op in FramebufferDestroys(fbs) <==> op.DestroyFramebuffer? && op.handle != Null && op.handle in fbs
  {
    if op in FramebufferDestroys(fbs) {
      FlatMapMember(fbs, FramebufferDestroy, op);
    }
    if op.DestroyFramebuffer? && op.handle != Null && op.handle in fbs {
      var i :| 0 <= i < |fbs| && fbs[i] == op.handle;
      FlatMapContains(fbs, FramebufferDestroy, i, op);
    }
  }

  /** What destroy requests of the device: the non-null framebuffers, the render pass and the
      set layout only when not null, the uniform buffer, and the pipeline's own destroy. */
  function DestroyOps(fbs: seq<Handle>, renderPass: Handle, dsLayout: Handle, ubo: Handle,
                      pipelineLayout: Handle, pipeline: Handle): seq<DeviceOp>
  {
    FramebufferDestroys(fbs) +
    (if renderPass != Null then [DestroyRenderPass(renderPass)] else []) +
    (if dsLayout != Null then [DestroyDescriptorSetLayout(dsLayout)] else []) +
    [DestroyBuffer(ubo)] +
    Pipelines.DestroyOps(pipelineLayout, pipeline)
  }

  /** A request of Queue::memcpyRequest: copy `size` bytes of host data into `buffer` at `offset`. */
  datatype MemcpyRequest = MemcpyRequest(buffer: Handle, size: nat, offset: nat)

  class SSR {
    var UBReflection: Handle
    var UBReflectionSize: nat
    var DSReflection: Handle
    var DSLayoutReflection: Handle
    var renderPass: Handle
    var frameBuffers: seq<Handle>
    const pipeline: Pipelines.Pipeline

    constructor ()
      ensures UBReflection == Null && DSReflection == Null && DSLayoutReflection == Null
      ensures renderPass == Null && frameBuffers == [] && fresh(pipeline)
      ensures pipeline.pipeline == Null && pipeline.pipelineLayout == Null
    {
      UBReflection := Null;
      UBReflectionSize := 0;
      DSReflection := Null;
      DSLayoutReflection := Null;
      renderPass := Null;
      frameBuffers := [];
      pipeline := new Pipelines.Pipeline();
    }

    /** createSSRUniforms: a zeroed uniform buffer of four matrices, a descriptor set allocated
        from DSLayoutReflection, and the writes of updateDescriptorSets into it. */
    method CreateSSRUniforms(targets: RenderTargets, dev: Device)
      modifies this, targets, dev
      ensures UBReflection == Live(old(dev.nextId)) && UBReflectionSize == ReflectionUboSize
      ensures DSReflection == Live(old(dev.nextId) + 1)
      ensures targets.images == Lookups(old(targets.images), ReflectionInputs)
      ensures forall n :: n in ReflectionInputs ==> n in targets.images
      ensures dev.log == old(dev.log) +
        [CreateBuffer(ReflectionUboSize, UBReflection), ZeroBuffer(UBReflection),
         AllocateDescriptorSet(DSLayoutReflection, DSReflection),
         DeviceOp.UpdateDescriptorSets(ReflectionWrites(DSReflection, targets.images, UBReflection, UBReflectionSize))]
      ensures DSLayoutReflection == old(DSLayoutReflection) && renderPass == old(renderPass)
      ensures frameBuffers == old(frameBuffers)
    {
      UBReflection, DSReflection := RequestUniforms(dev, DSLayoutReflection);
      UBReflectionSize := ReflectionUboSize;
      UpdateDescriptorSets(targets, dev);
    }

    /** updateDescriptorSets: looks up the four input images (inserting any that are missing)
        and writes them and the uniform buffer into DSReflection. */
    method UpdateDescriptorSets(targets: RenderTargets, dev: Device)
      modifies targets, dev
      ensures targets.images == Lookups(old(targets.images), ReflectionInputs)
      ensures forall n :: n in ReflectionInputs ==> n in targets.images
      ensures dev.log == old(dev.log) +
        [DeviceOp.UpdateDescriptorSets(ReflectionWrites(DSReflection, targets.images, UBReflection, UBReflectionSize))]
      ensures dev.nextId == old(dev.nextId)
    {
      ghost var before := targets.images;
      assert ReflectionInputs[..0] == [];
      var albedo := targets.Subscript("albedo");
      assert targets.images == Lookups(before, ReflectionInputs[..1]);
      var depth := targets.Subscript("depth");
      assert ReflectionInputs[..2][..1] == ReflectionInputs[..1];
      assert targets.images == Lookups(before, ReflectionInputs[..2]);
      var normal := targets.Subscript("normal");
      assert ReflectionInputs[..3][..2] == ReflectionInputs[..2];
      assert targets.images == Lookups(before, ReflectionInputs[..3]);
      var srm := targets.Subscript("srm");
      assert ReflectionInputs[..4][..3] == ReflectionInputs[..3] && ReflectionInputs[..4] == ReflectionInputs;
      assert targets.images == Lookups(before, ReflectionInputs);
      var writes := [ImageWrite(DSReflection, 0, albedo.sampler, albedo.view),
                     ImageWrite(DSReflection, 1, depth.sampler, depth.view),
                     ImageWrite(DSReflection, 2, normal.sampler, normal.view),
                     ImageWrite(DSReflection, 3, srm.sampler, srm.view),
                     BufferWrite(DSReflection, 4, UBReflection, 0, UBReflectionSize)];
      dev.Record(DeviceOp.UpdateDescriptorSets(writes));
    }

    /** update: only with show_ssr does it queue a copy of the reflection inputs into the
        uniform buffer; otherwise it does nothing. */
    method Update(showSSR: bool) returns (request: Option<MemcpyRequest>)
      ensures request.Some? <==> showSSR
      ensures showSSR ==> request.value == MemcpyRequest(UBReflection, ReflectionUboSize, 0)
    {
      request := None;
      if showSSR {
        request := Some(MemcpyRequest(UBReflection, ReflectionUboSize, 0));
      }
    }

    /** draw into swapchain image `imageIndex`. */
    method Draw(imageIndex: nat) returns (cmds: seq<Command>)
      requires imageIndex < |frameBuffers|
      ensures cmds == FullScreenPass(renderPass, frameBuffers[imageIndex], pipeline.pipeline,
                                     pipeline.pipelineLayout, DSReflection)
    {
      cmds := [BeginRenderPass(renderPass, frameBuffers[imageIndex])];
      cmds := cmds + [BindPipeline(pipeline.pipeline)];
      cmds := cmds + [BindDescriptorSets(pipeline.pipelineLayout, [DSReflection], [])];
      cmds := cmds + [Command.Draw(3, 1, 0, 0)];
      cmds := cmds + [EndRenderPass];
    }

    /** createRenderPass: one colour attachment in the format of the "ssr" target. */
    method CreateRenderPass(targets: RenderTargets, dev: Device)
      modifies this, targets, dev
      ensures targets.images == Inserted(old(targets.images), "ssr")
      ensures renderPass == Live(old(dev.nextId)) && dev.nextId == old(dev.nextId) + 1
      ensures dev.log == old(dev.log) + [DeviceOp.CreateRenderPass(targets.images["ssr"].format, renderPass)]
      ensures frameBuffers == old(frameBuffers) && DSLayoutReflection == old(DSLayoutReflection)
      ensures UBReflection == old(UBReflection) && DSReflection == old(DSReflection)
    {
      var ssr := targets.Subscript("ssr");
      renderPass := dev.NewHandle();
      dev.Record(DeviceOp.CreateRenderPass(ssr.format, renderPass));
    }

    /** createFrameBuffers: resizes the list to the swapchain's image count and creates one
        framebuffer for each slot. The "ssr" target is looked up only inside the loop, so with
        no swapchain image the map is left alone. */
    method CreateFrameBuffers(targets: RenderTargets, dev: Device, imageCount: nat)
      modifies this, targets, dev
      ensures |frameBuffers| == imageCount
      ensures forall i :: 0 <= i < imageCount ==> frameBuffers[i] == Live(old(dev.nextId) + i)
      ensures targets.images == if imageCount > 0 then Inserted(old(targets.images), "ssr") else old(targets.images)
      ensures dev.log == old(dev.log) +
        FramebufferCreates(renderPass, Inserted(old(targets.images), "ssr")["ssr"], old(dev.nextId), imageCount)
      ensures dev.nextId == old(dev.nextId) + imageCount
      ensures renderPass == old(renderPass) && DSLayoutReflection == old(DSLayoutReflection)
      ensures UBReflection == old(UBReflection) && DSReflection == old(DSReflection)
    {
      var fbs := if imageCount <= |frameBuffers| then frameBuffers[..imageCount]
                 else frameBuffers + Repeat(Null, imageCount - |frameBuffers|);
      frameBuffers := RequestFramebuffers(targets, dev, renderPass, fbs);
    }

    /** createPipeline. DSLayoutReflection is created only if it is still null; the pipeline
        layout and the pipeline go into the pass's Pipeline object. */
    method CreatePipeline(targets: RenderTargets, dev: Device)
      modifies this, pipeline, targets, dev
      ensures dev.log == old(dev.log) + PipelineOps(old(DSLayoutReflection), renderPass, old(dev.nextId))
      ensures DSLayoutReflection == SetLayoutAfter(old(DSLayoutReflection), old(dev.nextId))
      ensures var extra := if old(DSLayoutReflection) == Null then 1 else 0;
        pipeline.pipelineLayout == Live(old(dev.nextId) + 2 + extra) &&
        pipeline.pipeline == Live(old(dev.nextId) + 3 + extra)
      ensures targets.images == Inserted(old(targets.images), "ssr")
      ensures renderPass == old(renderPass) && frameBuffers == old(frameBuffers)
      ensures UBReflection == old(UBReflection) && DSReflection == old(DSReflection)
    {
      // the viewport, scissor and blend state read the "ssr" target; only the map matters here
      var ssr := targets.Subscript("ssr");
      var setLayout, layout, handle := RequestPipeline(dev, DSLayoutReflection, renderPass);
      DSLayoutReflection := setLayout;
      pipeline.pipelineLayout := layout;
      pipeline.pipeline := handle;
    }

    /** destroy. The framebuffers are destroyed but left in the list, while the render pass and
        the set layout are nulled: a second destroy releases the same framebuffers again. */
    method Destroy(dev: Device)
      modifies this, pipeline, dev
      ensures dev.log == old(dev.log) +
        DestroyOps(frameBuffers, old(renderPass), old(DSLayoutReflection), UBReflection,
                   old(pipeline.pipelineLayout), old(pipeline.pipeline))
      ensures renderPass == Null && DSLayoutReflection == Null
      ensures pipeline.pipeline == Null && pipeline.pipelineLayout == Null
      ensures frameBuffers == old(frameBuffers) && UBReflection == old(UBReflection)
      ensures DSReflection == old(DSReflection) && dev.nextId == old(dev.nextId)
    {
      ReleaseFramebuffers(dev, frameBuffers);
      ReleaseOwnObjects(dev, renderPass, DSLayoutReflection, UBReflection);
      renderPass, DSLayoutReflection := Null, Null;
      pipeline.Destroy(dev);
    }
  }

  /** The framebuffer loop of destroy: each non-null framebuffer, in list order. */
  method ReleaseFramebuffers(dev: Device, fbs: seq<Handle>)
    modifies dev
    ensures dev.log == old(dev.log) + FramebufferDestroys(fbs) && dev.nextId == old(dev.nextId)
  {
    var k := 0;
    while k < |fbs|
      invariant k <= |fbs|
      invariant dev.log == old(dev.log) + FramebufferDestroys(fbs[..k])
      invariant dev.nextId == old(dev.nextId)
    {
      if fbs[k] != Null {
        dev.Record(DestroyFramebuffer(fbs[k]));
      }
      FlatMapPrefix(fbs, k, FramebufferDestroy);
      k := k + 1;
    }
    assert fbs[..k] == fbs;
  }

  /** The rest of destroy before the pipeline: the render pass and the set layout when they are
      not null, then the uniform buffer. */
  method ReleaseOwnObjects(dev: Device, renderPass: Handle, dsLayout: Handle, ubo: Handle)
    modifies dev
    ensures dev.log == old(dev.log) +
      (if renderPass != Null then [DestroyRenderPass(renderPass)] else []) +
      (if dsLayout != Null then [DestroyDescriptorSetLayout(dsLayout)] else []) +
      [DestroyBuffer(ubo)]
    ensures dev.nextId == old(dev.nextId)
  {
    if renderPass != Null {
      dev.Record(DestroyRenderPass(renderPass));
    }
    if dsLayout != Null {
      dev.Record(DestroyDescriptorSetLayout(dsLayout));
    }
    dev.Record(DestroyBuffer(ubo));
  }

  /** The loop of createFrameBuffers: slot by slot, a framebuffer over the "ssr" target's view,
      looked up anew in each round, replaces the slot's handle. */
  method RequestFramebuffers(targets: RenderTargets, dev: Device, renderPass: Handle, slots: seq<Handle>)
    returns (fbs: seq<Handle>)
    modifies targets, dev
    ensures |fbs| == |slots|
    ensures forall i :: 0 <= i < |fbs| ==> fbs[i] == Live(old(dev.nextId) + i)
    ensures targets.images == if |slots| > 0 then Inserted(old(targets.images), "ssr") else old(targets.images)
    ensures dev.log == old(dev.log) +
      FramebufferCreates(renderPass, Inserted(old(targets.images), "ssr")["ssr"], old(dev.nextId), |slots|)
    ensures dev.nextId == old(dev.nextId) + |slots|
  {
    fbs := slots;
    ghost var base := dev.nextId;
    ghost var ssr := Inserted(targets.images, "ssr")["ssr"];
    ghost var before := targets.images;
    var k := 0;
    while k < |fbs|
      invariant k <= |fbs| == |slots|
      invariant forall i :: 0 <= i < k ==> fbs[i] == Live(base + i)
      invariant targets.images == if k > 0 then Inserted(before, "ssr") else before
      invariant dev.log == old(dev.log) + FramebufferCreates(renderPass, ssr, base, k)
      invariant dev.nextId == base + k
    {
      var target := targets.Subscript("ssr");
      var fbci := FramebufferInfo(renderPass, [target.view], target.width, target.height, 1);
      var fb := dev.NewHandle();
      dev.Record(CreateFramebuffer(fbci, fb));
      fbs := fbs[k := fb];
      k := k + 1;
    }
  }

  /** The device side of createSSRUniforms before the descriptor writes: the zeroed uniform
      buffer, then a descriptor set allocated from `dsLayout`. */
  method RequestUniforms(dev: Device, dsLayout: Handle) returns (ubo: Handle, descriptorSet: Handle)
    modifies dev
    ensures ubo == Live(old(dev.nextId)) && descriptorSet == Live(old(dev.nextId) + 1)
    ensures dev.log == old(dev.log) +
      [CreateBuffer(ReflectionUboSize, ubo), ZeroBuffer(ubo), AllocateDescriptorSet(dsLayout, descriptorSet)]
    ensures dev.nextId == old(dev.nextId) + 2
  {
    ubo := dev.NewHandle();
    descriptorSet := dev.NewHandle();
    dev.RecordAll([CreateBuffer(ReflectionUboSize, ubo), ZeroBuffer(ubo), AllocateDescriptorSet(dsLayout, descriptorSet)]);
  }

  /** The device side of createPipeline: both shader modules, the set layout when `dsLayout` is
      null, the pipeline layout over that set layout, the pipeline, and the release of both
      modules, in that order. */
  method RequestPipeline(dev: Device, dsLayout: Handle, renderPass: Handle)
    returns (setLayout: Handle, layout: Handle, pipeline: Handle)
    modifies dev
    ensures dev.log == old(dev.log) + PipelineOps(dsLayout, renderPass, old(dev.nextId))
    ensures var extra := if dsLayout == Null then 1 else 0;
      setLayout == SetLayoutAfter(dsLayout, old(dev.nextId)) &&
      layout == Live(old(dev.nextId) + 2 + extra) && pipeline == Live(old(dev.nextId) + 3 + extra) &&
      dev.nextId == old(dev.nextId) + 4 + extra
  {
    var vertModule := dev.NewHandle();
    var fragModule := dev.NewHandle();
    var ops := [CreateShaderModule(Vertex, VertexShaderPath, vertModule),
                CreateShaderModule(Fragment, FragmentShaderPath, fragModule)];
    setLayout := dsLayout;
    if setLayout == Null {
      setLayout := dev.NewHandle();
      ops := ops + [CreateDescriptorSetLayout(ReflectionBindings, setLayout)];
    }
    layout := dev.NewHandle();
    ops := ops + [CreatePipelineLayout(PipelineLayoutInfo([setLayout], 0, None), layout)];
    pipeline := dev.NewHandle();
    ops := ops + [DeviceOp.CreateGraphicsPipeline(ReflectionPipelineInfo(vertModule, fragModule, layout, renderPass), pipeline),
                  DestroyShaderModule(vertModule), DestroyShaderModule(fragModule)];
    dev.RecordAll(ops);
  }

  /** destroy is not idempotent: a second call releases no render pass, set layout, pipeline
      or pipeline layout, but destroys every non-null framebuffer and the uniform buffer again. */
  method DestroyTwice(ssr: SSR, dev: Device)
    modifies ssr, ssr.pipeline, dev
    ensures dev.log == old(dev.log) +
      DestroyOps(ssr.frameBuffers, old(ssr.renderPass), old(ssr.DSLayoutReflection), ssr.UBReflection,
                 old(ssr.pipeline.pipelineLayout), old(ssr.pipeline.pipeline)) +
      FramebufferDestroys(ssr.frameBuffers) + [DestroyBuffer(ssr.UBReflection)]
  {
    ssr.Destroy(dev);
    ssr.Destroy(dev);
  }
}
