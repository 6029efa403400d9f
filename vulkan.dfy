/** The slice of the Vulkan API the engine's bookkeeping relies on. Every
    Vulkan object is an opaque handle; the logical device hands out fresh
    handles and keeps an append-only log of what it was asked to create,
    update and destroy. Nothing here models what the GPU does. */
module Vulkan {

  datatype Option<T> = None | Some(value: T)

  /** A Vulkan object handle; Null is VK_NULL_HANDLE. */
  datatype Handle = Null | Live(id: nat)

  datatype DescriptorType = CombinedImageSampler | UniformBuffer

  datatype ShaderStage = Vertex | Fragment

  /** vk::DescriptorSetLayoutBinding without its immutable samplers (always null here). */
  datatype LayoutBinding = LayoutBinding(binding: nat, descriptorType: DescriptorType,
                                         descriptorCount: nat, stageFlags: ShaderStage)

  /** One vk::WriteDescriptorSet of a single descriptor. */
  datatype DescriptorWrite =
    | ImageWrite(dstSet: Handle, dstBinding: nat, sampler: Handle, view: Handle)
    | BufferWrite(dstSet: Handle, dstBinding: nat, buffer: Handle, offset: nat, range: nat)
  {
    function DescriptorType(): DescriptorType
    {
      if ImageWrite? then CombinedImageSampler else UniformBuffer
    }
  }

  datatype CullMode = CullNone | CullFront | CullBack | CullFrontAndBack

  datatype CompareOp = Never | Less | Equal | LessOrEqual | Greater | NotEqual | GreaterOrEqual | Always

  datatype PushConstantRange = PushConstantRange(stageFlags: ShaderStage, offset: nat, size: nat)

  datatype PipelineLayoutInfo = PipelineLayoutInfo(setLayouts: seq<Handle>,
                                                   pushConstantRangeCount: nat,
                                                   pushConstantRanges: Option<PushConstantRange>)

  datatype ShaderStageInfo = ShaderStageInfo(stage: ShaderStage, shaderModule: Handle, entryPoint: string)

  /** The parts of vk::GraphicsPipelineCreateInfo that the engine fixes or passes through. */
  datatype GraphicsPipelineInfo = GraphicsPipelineInfo(
    stageCount: nat,
    stages: seq<ShaderStageInfo>,
    triangleList: bool,
    viewportCount: nat,
    scissorCount: nat,
    cullMode: CullMode,
    depthTestEnable: bool,
    depthWriteEnable: bool,
    depthCompareOp: CompareOp,
    layout: Handle,
    renderPass: Handle,
    subpass: nat)

  datatype FramebufferInfo = FramebufferInfo(renderPass: Handle, attachments: seq<Handle>,
                                             width: nat, height: nat, layers: nat)

  /** What the logical device was asked to do, in order. */
  datatype DeviceOp =
    | CreateShaderModule(stage: ShaderStage, source: string, handle: Handle)
    | DestroyShaderModule(handle: Handle)
    | CreateDescriptorSetLayout(bindings: seq<LayoutBinding>, handle: Handle)
    | DestroyDescriptorSetLayout(handle: Handle)
    | CreatePipelineLayout(layoutInfo: PipelineLayoutInfo, handle: Handle)
    | DestroyPipelineLayout(handle: Handle)
    | CreateGraphicsPipeline(pipelineInfo: GraphicsPipelineInfo, handle: Handle)
    | DestroyPipeline(handle: Handle)
    | CreateRenderPass(colorFormat: nat, handle: Handle)
    | DestroyRenderPass(handle: Handle)
    | CreateFramebuffer(framebufferInfo: FramebufferInfo, handle: Handle)
    | DestroyFramebuffer(handle: Handle)
    | CreateBuffer(size: nat, handle: Handle)
    | ZeroBuffer(handle: Handle)
    | DestroyBuffer(handle: Handle)
    | DestroyImage(handle: Handle)
    | AllocateDescriptorSet(setLayout: Handle, handle: Handle)
    | UpdateDescriptorSets(writes: seq<DescriptorWrite>)

  /** Commands recorded into a command buffer. MetricStart/MetricEnd stand for
      the GPU timestamp pair a metric slot writes around a pass. */
  datatype Command =
    | BeginCommandBuffer
    | EndCommandBuffer
    | BeginRenderPass(renderPass: Handle, framebuffer: Handle)
    | EndRenderPass
    | BindPipeline(pipeline: Handle)
    | BindVertexBuffer(buffer: Handle)
    | BindIndexBuffer(buffer: Handle)
    | BindDescriptorSets(layout: Handle, sets: seq<Handle>, dynamicOffsets: seq<nat>)
    | DrawIndexed(indexCount: nat, instanceCount: nat, firstIndex: nat, vertexOffset: nat, firstInstance: nat)
    | Draw(vertexCount: nat, instanceCount: nat, firstVertex: nat, firstInstance: nat)
    | Dispatch(groupsX: nat, groupsY: nat, groupsZ: nat)
    | SetViewport
    | SetScissor
    | SetDepthBias
    | MetricStart(slot: nat)
    | MetricEnd(slot: nat)

  /** The logical device: a source of fresh handles and the log of requests. */
  class Device {
    var nextId: nat
    var log: seq<DeviceOp>

    constructor ()
      ensures nextId == 0 && log == []
    {
      nextId := 0;
      log := [];
    }

    /** A handle that no earlier request has returned. */
    method NewHandle() returns (h: Handle)
      modifies this
      ensures h == Live(old(nextId)) && nextId == old(nextId) + 1
      ensures log == old(log)
    {
      h := Live(nextId);
      nextId := nextId + 1;
    }

    method Record(op: DeviceOp)
      modifies this
      ensures log == old(log) + [op] && nextId == old(nextId)
    {
      log := log + [op];
    }

    /** Several requests, in order. */
    method RecordAll(ops: seq<DeviceOp>)
      modifies this
      ensures log == old(log) + ops && nextId == old(nextId)
    {
      log := log + ops;
    }
  }
}
