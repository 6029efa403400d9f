/** Pipeline objects (Renderer/Pipeline.cpp): the per-technique descriptor-set
    layout tables and their lazily created, process-wide cached layouts; the
    shader-stage list, push-constant range and fixed state of a graphics
    pipeline; and the guarded destroy. */
module Pipelines {
  import opened Vulkan

  /** One rendering technique per getDescriptorSetLayout* getter. */
  datatype Technique =
    | Composition | BrightFilter | GaussianBlurH | GaussianBlurV | Combine | DOF | FXAA
    | MotionBlur | SSAO | SSAOBlur | SSR | TAA | TAASharpen | Shadows | Mesh | Primitive
    | Model | Skybox

  /** The `layoutBinding` lambda of the fragment-only tables: one descriptor, fragment stage. */
  function FragmentBinding(binding: nat, descriptorType: DescriptorType): LayoutBinding
  {
    LayoutBinding(binding, descriptorType, 1, Fragment)
  }

  /** The lambda of the tables that name a stage per binding. */
  function StagedBinding(binding: nat, descriptorType: DescriptorType, stage: ShaderStage): LayoutBinding
  {
    LayoutBinding(binding, descriptorType, 1, stage)
  }

  /** How many bindings each technique's layout declares. */
  function BindingCount(t: Technique): nat
  {
    match t
    case Composition => 10
    case BrightFilter | GaussianBlurH | GaussianBlurV | FXAA | SSAOBlur => 1
    case Combine | DOF | TAASharpen | Shadows => 2
    case MotionBlur => 4
    case SSAO | SSR | TAA => 5
    case Primitive => 6
    case Mesh | Model | Skybox => 1
  }

  /** The bindings that are uniform buffers; every other binding is a combined image sampler. */
  function UniformBindings(t: Technique): set<nat>
  {
    match t
    case Composition => {4, 9}
    case MotionBlur => {3}
    case SSAO => {3, 4}
    case SSR | TAA => {4}
    case TAASharpen => {1}
    case Shadows | Mesh | Model => {0}
    case Primitive => {5}
    case _ => {}
  }

  /** The bindings visible to the vertex stage; every other binding is fragment-only. */
  function VertexBindings(t: Technique): set<nat>
  {
    match t
    case Shadows | Mesh | Model => {0}
    case Primitive => {5}
    case _ => {}
  }

  /** The binding table each getter passes to createDescriptorSetLayout, as written out in the
      getter. The contract says the table is numbered 0..n-1 with one descriptor each, and
      gives the type and stage of every binding by the declarative description above. */
  function Bindings(t: Technique): (r: seq<LayoutBinding>)
    ensures |r| == BindingCount(t)
    ensures forall i :: 0 <= i < |r| ==>
      r[i].binding == i && r[i].descriptorCount == 1 &&
      r[i].descriptorType == (if i in UniformBindings(t) then UniformBuffer else CombinedImageSampler) &&
      r[i].stageFlags == (if i in VertexBindings(t) then Vertex else Fragment)
  {
    match t
    case Composition =>
      [FragmentBinding(0, CombinedImageSampler), FragmentBinding(1, CombinedImageSampler),
       FragmentBinding(2, CombinedImageSampler), FragmentBinding(3, CombinedImageSampler),
       FragmentBinding(4, UniformBuffer), FragmentBinding(5, CombinedImageSampler),
       FragmentBinding(6, CombinedImageSampler), FragmentBinding(7, CombinedImageSampler),
       FragmentBinding(8, CombinedImageSampler), FragmentBinding(9, UniformBuffer)]
    case BrightFilter => [FragmentBinding(0, CombinedImageSampler)]
    case GaussianBlurH => [FragmentBinding(0, CombinedImageSampler)]
    case GaussianBlurV => [FragmentBinding(0, CombinedImageSampler)]
    case Combine => [FragmentBinding(0, CombinedImageSampler), FragmentBinding(1, CombinedImageSampler)]
    case DOF => [FragmentBinding(0, CombinedImageSampler), FragmentBinding(1, CombinedImageSampler)]
    case FXAA => [FragmentBinding(0, CombinedImageSampler)]
    case MotionBlur =>
      [FragmentBinding(0, CombinedImageSampler), FragmentBinding(1, CombinedImageSampler),
       FragmentBinding(2, CombinedImageSampler), FragmentBinding(3, UniformBuffer)]
    case SSAO =>
      [FragmentBinding(0, CombinedImageSampler), FragmentBinding(1, CombinedImageSampler),
       FragmentBinding(2, CombinedImageSampler), FragmentBinding(3, UniformBuffer),
       FragmentBinding(4, UniformBuffer)]
    case SSAOBlur => [FragmentBinding(0, CombinedImageSampler)]
    case SSR =>
      [FragmentBinding(0, CombinedImageSampler), FragmentBinding(1, CombinedImageSampler),
       FragmentBinding(2, CombinedImageSampler), FragmentBinding(3, CombinedImageSampler),
       FragmentBinding(4, UniformBuffer)]
    case TAA =>
      [FragmentBinding(0, CombinedImageSampler), FragmentBinding(1, CombinedImageSampler),
       FragmentBinding(2, CombinedImageSampler), FragmentBinding(3, CombinedImageSampler),
       FragmentBinding(4, UniformBuffer)]
    case TAASharpen => [FragmentBinding(0, CombinedImageSampler), FragmentBinding(1, UniformBuffer)]
    case Shadows =>
      [StagedBinding(0, UniformBuffer, Vertex), StagedBinding(1, CombinedImageSampler, Fragment)]
    case Mesh => [LayoutBinding(0, UniformBuffer, 1, Vertex)]
    case Primitive =>
      [StagedBinding(0, CombinedImageSampler, Fragment), StagedBinding(1, CombinedImageSampler, Fragment),
       StagedBinding(2, CombinedImageSampler, Fragment), StagedBinding(3, CombinedImageSampler, Fragment),
       StagedBinding(4, CombinedImageSampler, Fragment), StagedBinding(5, UniformBuffer, Vertex)]
    case Model => [LayoutBinding(0, UniformBuffer, 1, Vertex)]
    case Skybox => [StagedBinding(0, CombinedImageSampler, Fragment)]
  }

  /** No table makes a sampler visible to the vertex stage: every vertex-stage binding is a
      uniform buffer, and the vertex-stage bindings are exactly those of the shadow, mesh,
      model and primitive tables. */
  lemma VertexStageOnlyUniforms(t: Technique, i: nat)
    requires i < |Bindings(t)| && Bindings(t)[i].stageFlags == Vertex
    ensures Bindings(t)[i].descriptorType == UniformBuffer
    ensures t in {Shadows, Mesh, Model, Primitive}
  {
  }

  /** The function-local `static vk::DescriptorSetLayout DSLayout` of every getter,
      gathered in one object: a technique that is absent has a null cached layout. */
  class LayoutCache {
    var layouts: map<Technique, Handle>

    constructor ()
      ensures layouts == map[]
    {
      layouts := map[];
    }

    function Cached(t: Technique): Handle
      reads this
    {
      if t in layouts then layouts[t] else Null
    }

    /** getDescriptorSetLayout<t>: creates the layout from the technique's table only while the
        cached static is null, and from then on returns the cached value. */
    method GetDescriptorSetLayout(t: Technique, dev: Device) returns (layout: Handle)
      modifies this, dev
      ensures layout != Null && Cached(t) == layout
      ensures old(Cached(t)) != Null ==>
        layout == old(Cached(t)) && dev.log == old(dev.log) && dev.nextId == old(dev.nextId)
      ensures old(Cached(t)) == Null ==>
        layout == Live(old(dev.nextId)) && dev.nextId == old(dev.nextId) + 1 &&
        dev.log == old(dev.log) + [CreateDescriptorSetLayout(Bindings(t), layout)]
      ensures forall u :: u != t ==> Cached(u) == old(Cached(u))
    {
      if Cached(t) == Null {
        var h := dev.NewHandle();
        dev.Record(CreateDescriptorSetLayout(Bindings(t), h));
        layouts := layouts[t := h];
      }
      layout := layouts[t];
    }
  }

  /** A caller of the cache: asking twice for the same technique creates one layout and
      returns the same handle both times. */
  method GetTwice(cache: LayoutCache, t: Technique, dev: Device) returns (first: Handle, second: Handle)
    modifies cache, dev
    ensures first == second
    ensures |dev.log| <= |old(dev.log)| + 1
  {
    first := cache.GetDescriptorSetLayout(t, dev);
    second := cache.GetDescriptorSetLayout(t, dev);
  }

  /** PipelineCreateInfo: the shaders it refers to are modelled by their source paths. */
  datatype PipelineCreateInfo = PipelineCreateInfo(
    vertShader: Option<string>,
    fragShader: Option<string>,
    pushConstantStage: ShaderStage,
    pushConstantSize: nat,
    cullMode: CullMode,
    descriptorSetLayouts: seq<Handle>,
    renderPass: Handle)

  /** What the PipelineCreateInfo constructor sets: no shaders, a vertex-stage push constant of
      size 0, no culling, no set layouts. */
  const DefaultCreateInfo := PipelineCreateInfo(None, None, Vertex, 0, CullNone, [], Null)

  /** The `stages` vector: the vertex stage, and the fragment stage only when there is a
      fragment shader. */
  function StageList(vertModule: Handle, fragModule: Option<Handle>): seq<ShaderStageInfo>
  {
    [ShaderStageInfo(Vertex, vertModule, "main")] +
    (if fragModule.Some? then [ShaderStageInfo(Fragment, fragModule.value, "main")] else [])
  }

  /** The pipeline layout request: always one push-constant range counted, but the range itself
      is passed only when its size is not zero. */
  function LayoutInfoFor(info: PipelineCreateInfo): PipelineLayoutInfo
  {
    var pcr := PushConstantRange(info.pushConstantStage, 0, info.pushConstantSize);
    PipelineLayoutInfo(info.descriptorSetLayouts, 1,
                       if info.pushConstantSize != 0 then Some(pcr) else None)
  }

  /** The graphics pipeline request; everything but the stages, the cull mode, the layout and the
      render pass is fixed. */
  function PipelineInfoFor(info: PipelineCreateInfo, stages: seq<ShaderStageInfo>, layout: Handle): GraphicsPipelineInfo
  {
    GraphicsPipelineInfo(|stages|, stages, true, 1, 1, info.cullMode, true, true, Greater,
                         layout, info.renderPass, 0)
  }

  /** Handles in the order createGraphicsPipeline asks the device for them, counted from `base`. */
  function FragModuleHandle(info: PipelineCreateInfo, base: nat): Option<Handle>
  {
    if info.fragShader.Some? then Some(Live(base + 1)) else None
  }

  function LayoutHandle(info: PipelineCreateInfo, base: nat): Handle
  {
    Live(base + if info.fragShader.Some? then 2 else 1)
  }

  function PipelineHandle(info: PipelineCreateInfo, base: nat): Handle
  {
    Live(base + if info.fragShader.Some? then 3 else 2)
  }

  /** The device requests createGraphicsPipeline makes, as the source issues them: the vertex
      module is destroyed at the end, while the fragment module is not, because the local
      `fragModule` that guards its destruction is never assigned. */
  function GraphicsPipelineOps(info: PipelineCreateInfo, base: nat): seq<DeviceOp>
    requires info.vertShader.Some?
  {
    var stages := StageList(Live(base), FragModuleHandle(info, base));
    [CreateShaderModule(Vertex, info.vertShader.value, Live(base))] +
    (if info.fragShader.Some? then [CreateShaderModule(Fragment, info.fragShader.value, Live(base + 1))] else []) +
    [CreatePipelineLayout(LayoutInfoFor(info), LayoutHandle(info, base)),
     CreateGraphicsPipeline(PipelineInfoFor(info, stages, LayoutHandle(info, base)), PipelineHandle(info, base)),
     DestroyShaderModule(Live(base))]
  }

  /** The pipeline that createGraphicsPipeline requests: stageCount is the length of the stage
      list, which is the vertex stage followed by the fragment stage exactly when there is a
      fragment shader; the layout is the one created just before; and the fixed state does not
      depend on `info`. */
  lemma {:induction false} GraphicsPipelineShape(info: PipelineCreateInfo, base: nat)
    requires info.vertShader.Some?
    ensures var k := if info.fragShader.Some? then 2 else 1;
      var ops := GraphicsPipelineOps(info, base);
      |ops| == k + 3 && ops[k + 1].CreateGraphicsPipeline? &&
      var p := ops[k + 1].pipelineInfo;
      p.stageCount == |p.stages| == k &&
      p.stages[0] == ShaderStageInfo(Vertex, Live(base), "main") &&
      (info.fragShader.Some? ==> p.stages[1] == ShaderStageInfo(Fragment, Live(base + 1), "main")) &&
      p.triangleList && p.viewportCount == 1 && p.scissorCount == 1 &&
      p.depthTestEnable && p.depthWriteEnable && p.depthCompareOp == Greater && p.subpass == 0 &&
      ops[k] == CreatePipelineLayout(LayoutInfoFor(info), p.layout)
  {
  }

  /** The pipeline layout always counts one push-constant range, and passes it exactly when its
      size is not zero. */
  lemma PushConstantRangeShape(info: PipelineCreateInfo)
    ensures LayoutInfoFor(info).pushConstantRangeCount == 1
    ensures LayoutInfoFor(info).pushConstantRanges.Some? <==> info.pushConstantSize != 0
    ensures LayoutInfoFor(info).setLayouts == info.descriptorSetLayouts
  {
  }

  /** As written, a pipeline with a fragment shader leaves its fragment module alive: the module
      is created and never destroyed. */
  lemma FragmentModuleLeaks(info: PipelineCreateInfo, base: nat)
    requires info.vertShader.Some? && info.fragShader.Some?
    ensures CreateShaderModule(Fragment, info.fragShader.value, Live(base + 1)) in GraphicsPipelineOps(info, base)
    ensures DestroyShaderModule(Live(base + 1)) !in GraphicsPipelineOps(info, base)
  {
    var ops := GraphicsPipelineOps(info, base);
    assert ops[1] == CreateShaderModule(Fragment, info.fragShader.value, Live(base + 1));
  }

  /** The evidently intended requests: the fragment module is kept in `fragModule` and destroyed
      after the pipeline is created, like the vertex module. */
  function GraphicsPipelineOpsReleasingModules(info: PipelineCreateInfo, base: nat): seq<DeviceOp>
    requires info.vertShader.Some?
  {
    GraphicsPipelineOps(info, base) +
    (if info.fragShader.Some? then [DestroyShaderModule(Live(base + 1))] else [])
  }

  /** With the correction every shader module created while building the pipeline is destroyed
      before createGraphicsPipeline returns, and the pipeline itself is requested as before. */
  lemma {:induction false} ReleasesEveryModule(info: PipelineCreateInfo, base: nat)
    requires info.vertShader.Some?
    ensures forall op :: op in GraphicsPipelineOpsReleasingModules(info, base) && op.CreateShaderModule? ==>
      DestroyShaderModule(op.handle) in GraphicsPipelineOpsReleasingModules(info, base)
    ensures GraphicsPipelineOpsReleasingModules(info, base)[..|GraphicsPipelineOps(info, base)|] ==
      GraphicsPipelineOps(info, base)
  {
    var ops := GraphicsPipelineOpsReleasingModules(info, base);
    var k := if info.fragShader.Some? then 2 else 1;
    forall op | op in ops && op.CreateShaderModule?
      ensures DestroyShaderModule(op.handle) in ops
    {
      var i :| 0 <= i < |ops| && ops[i] == op;
      assert i < k;
      if i == 0 {
        assert ops[k + 2] == DestroyShaderModule(op.handle);
      } else {
        assert ops[|ops| - 1] == DestroyShaderModule(op.handle);
      }
    }
  }

  /** The device requests destroy makes: each object only when its handle is not null. */
  function DestroyOps(pipelineLayout: Handle, pipeline: Handle): seq<DeviceOp>
  {
    (if pipelineLayout != Null then [DestroyPipelineLayout(pipelineLayout)] else []) +
    (if pipeline != Null then [DestroyPipeline(pipeline)] else [])
  }

  class Pipeline {
    var info: PipelineCreateInfo
    var pipeline: Handle
    var pipelineLayout: Handle

    constructor ()
      ensures info == DefaultCreateInfo && pipeline == Null && pipelineLayout == Null
    {
      info := DefaultCreateInfo;
      pipeline := Null;
      pipelineLayout := Null;
    }

    /** createGraphicsPipeline, as the source issues it: the fragment module stays alive (see
        FragmentModuleLeaks). The vertex shader is read unconditionally. */
    method CreateGraphicsPipeline(dev: Device)
      requires info.vertShader.Some?
      modifies this, dev
      ensures info == old(info)
      ensures dev.log == old(dev.log) + GraphicsPipelineOps(info, old(dev.nextId))
      ensures pipelineLayout == LayoutHandle(info, old(dev.nextId))
      ensures pipeline == PipelineHandle(info, old(dev.nextId))
      ensures dev.nextId == old(dev.nextId) + if info.fragShader.Some? then 4 else 3
    {
      pipelineLayout, pipeline := RequestGraphicsPipeline(dev, info);
    }

    /** destroy: releases the layout and the pipeline only when they are not null and nulls them. */
    method Destroy(dev: Device)
      modifies this, dev
      ensures pipeline == Null && pipelineLayout == Null && info == old(info)
      ensures dev.log == old(dev.log) + DestroyOps(old(pipelineLayout), old(pipeline))
      ensures dev.nextId == old(dev.nextId)
    {
      if pipelineLayout != Null {
        dev.Record(DestroyPipelineLayout(pipelineLayout));
        pipelineLayout := Null;
      }
      if pipeline != Null {
        dev.Record(DestroyPipeline(pipeline));
        pipeline := Null;
      }
    }
  }

  /** The device side of createGraphicsPipeline, in the order the source issues it. The created
      fragment module goes only into the second stage; the local `fragModule` that guards its
      destruction stays null, so the guarded destroy never fires. */
  method RequestGraphicsPipeline(dev: Device, info: PipelineCreateInfo) returns (pipelineLayout: Handle, pipeline: Handle)
    requires info.vertShader.Some?
    modifies dev
    ensures dev.log == old(dev.log) + GraphicsPipelineOps(info, old(dev.nextId))
    ensures pipelineLayout == LayoutHandle(info, old(dev.nextId))
    ensures pipeline == PipelineHandle(info, old(dev.nextId))
    ensures dev.nextId == old(dev.nextId) + if info.fragShader.Some? then 4 else 3
  {
    ghost var base := dev.nextId;
    var vertModule := dev.NewHandle();
    var ops := [CreateShaderModule(Vertex, info.vertShader.value, vertModule)];
    var pssci1 := ShaderStageInfo(Vertex, vertModule, "main");

    var pssci2 := ShaderStageInfo(Vertex, Null, "");
    var fragModule := Null;
    if info.fragShader.Some? {
      var created := dev.NewHandle();
      ops := ops + [CreateShaderModule(Fragment, info.fragShader.value, created)];
      pssci2 := ShaderStageInfo(Fragment, created, "main");
    }

    var stages := [pssci1];
    if info.fragShader.Some? {
      stages := stages + [pssci2];
    }
    assert stages == StageList(Live(base), FragModuleHandle(info, base));

    var pcr := PushConstantRange(info.pushConstantStage, 0, info.pushConstantSize);
    var plci := PipelineLayoutInfo(info.descriptorSetLayouts, 1,
                                   if info.pushConstantSize != 0 then Some(pcr) else None);
    pipelineLayout := dev.NewHandle();
    var pipeinfo := GraphicsPipelineInfo(|stages|, stages, true, 1, 1, info.cullMode, true, true,
                                         Greater, pipelineLayout, info.renderPass, 0);
    pipeline := dev.NewHandle();
    ops := ops + [CreatePipelineLayout(plci, pipelineLayout),
                  DeviceOp.CreateGraphicsPipeline(pipeinfo, pipeline),
                  DestroyShaderModule(vertModule)];
    if fragModule != Null {
      ops := ops + [DestroyShaderModule(fragModule)];
    }
    dev.RecordAll(ops);
  }

  /** destroy is idempotent: a second call makes no device request. */
  method DestroyTwice(p: Pipeline, dev: Device)
    modifies p, dev
    ensures dev.log == old(dev.log) + DestroyOps(old(p.pipelineLayout), old(p.pipeline))
  {
    p.Destroy(dev);
    ghost var afterFirst := dev.log;
    p.Destroy(dev);
    assert dev.log == afterFirst;
  }
}
