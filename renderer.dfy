/** Frame orchestration (Renderer/Renderer.cpp): the load and unload queues that checkQueue
    drains into the model list and the GUI's parallel lists, the fixed order of the deferred
    passes, the per-cascade shadow command buffers, and the semaphore and fence sequence of
    present. */
module Renderer {
  import opened Vulkan
  import opened Seqs
  import Models

  // ---------------------------------------------------------------------------------------
  // Models as Renderer.cpp sees them
  // ---------------------------------------------------------------------------------------

  /** A primitive of a node's mesh: its own draw switch, its index count, and its offsets
      inside the mesh's ranges (all uint32_t). */
  datatype Primitive = Primitive(render: bool, indicesSize: Models.U32,
                                 indexOffset: Models.U32, vertexOffset: Models.U32)

  /** The mesh of a node: its descriptor set, where its data starts in the model's buffers,
      and its primitives. */
  datatype NodeMesh = NodeMesh(descriptorSet: Handle, indexOffset: Models.U32,
                               vertexOffset: Models.U32, primitives: seq<Primitive>)

  /** An entry of a model's linearNodes: a node with or without a mesh. */
  datatype Node = Node(mesh: Option<NodeMesh>)

  /** A loaded model: its name, whether it is rendered, its buffers and descriptor set, and its
      nodes in linear order. */
  datatype SceneModel = SceneModel(name: string, render: bool, vertexBuffer: Handle,
                                   indexBuffer: Handle, descriptorSet: Handle, linearNodes: seq<Node>)

  // ---------------------------------------------------------------------------------------
  // checkQueue
  // ---------------------------------------------------------------------------------------

  /** An entry of Queue::loadModel: the folder and the file of the model to load. */
  datatype LoadRequest = LoadRequest(folderPath: string, modelName: string)

  /** An entry of Queue::loadModelFutures: the request its worker was started for, and the
      model the worker returns once it is ready. */
  datatype Future = Future(request: LoadRequest, result: SceneModel)

  /** A GUI vector of three floats. Only the constants below are ever stored. */
  datatype Vec3 = Vec3(x: real, y: real, z: real)

  const UnitScale := Vec3(1.0, 1.0, 1.0)
  const Origin := Vec3(0.0, 0.0, 0.0)

  /** The futures started for `requests`, one per request and in request order; `worker` stands
      for the loader thread, which loads the model with show = true. */
  function Launch(requests: seq<LoadRequest>, worker: LoadRequest -> SceneModel): (r: seq<Future>)
    ensures |r| == |requests|
    ensures forall i :: 0 <= i < |r| ==> r[i] == Future(requests[i], worker(requests[i]))
  {
    if requests == [] then []
    else
      var k := |requests| - 1;
      Launch(requests[..k], worker) + [Future(requests[k], worker(requests[k]))]
  }

  /** The models of the futures that are ready, in future order. */
  function ReadyModels(fs: seq<Future>, ready: seq<bool>): seq<SceneModel>
    requires |ready| == |fs|
  {
    if fs == [] then []
    else
      var k := |fs| - 1;
      ReadyModels(fs[..k], ready[..k]) + (if ready[k] then [fs[k].result] else [])
  }

  /** The futures that are not ready, in their original order (stated for futures of any
      kind: nothing here looks inside them). */
  function StillPending<F>(fs: seq<F>, ready: seq<bool>): seq<F>
    requires |ready| == |fs|
  {
    if fs == [] then []
    else
      var k := |fs| - 1;
      StillPending(fs[..k], ready[..k]) + (if ready[k] then [] else [fs[k]])
  }

  /** Polling loses no future: each one either delivers its model or stays pending. */
  lemma {:induction false} PollPartitions(fs: seq<Future>, ready: seq<bool>)
    requires |ready| == |fs|
    ensures |ReadyModels(fs, ready)| + |StillPending(fs, ready)| == |fs|
  {
    if fs != [] {
      var k := |fs| - 1;
      PollPartitions(fs[..k], ready[..k]);
    }
  }

  /** The delivered models are exactly the results of the ready futures. */
  lemma ReadyModelsExactly(fs: seq<Future>, ready: seq<bool>, m: SceneModel)
    requires |ready| == |fs|
    ensures m in ReadyModels(fs, ready) <==> exists i :: 0 <= i < |fs| && ready[i] && fs[i].result == m
  {
    if m in ReadyModels(fs, ready) {
      ReadyModelsSound(fs, ready, m);
    }
    if exists i :: 0 <= i < |fs| && ready[i] && fs[i].result == m {
      var i :| 0 <= i < |fs| && ready[i] && fs[i].result == m;
      ReadyModelsComplete(fs, ready, i);
    }
  }

  lemma {:induction false} ReadyModelsSound(fs: seq<Future>, ready: seq<bool>, m: SceneModel)
    requires |ready| == |fs| && m in ReadyModels(fs, ready)
    ensures exists i :: 0 <= i < |fs| && ready[i] && fs[i].result == m
  {
    var k := |fs| - 1;
    if m in ReadyModels(fs[..k], ready[..k]) {
      ReadyModelsSound(fs[..k], ready[..k], m);
      var i :| 0 <= i < k && ready[..k][i] && fs[..k][i].result == m;
      assert fs[i] == fs[..k][i] && ready[i] == ready[..k][i];
    } else {
      assert ready[k] && fs[k].result == m;
    }
  }

  lemma {:induction false} ReadyModelsComplete(fs: seq<Future>, ready: seq<bool>, i: nat)
    requires |ready| == |fs| && i < |fs| && ready[i]
    ensures fs[i].result in ReadyModels(fs, ready)
  {
    var k := |fs| - 1;
    if i < k {
      ReadyModelsComplete(fs[..k], ready[..k], i);
      assert fs[..k][i] == fs[i];
    }
  }

  /** The futures left pending are exactly those that were not ready. */
  lemma StillPendingExactly<F>(fs: seq<F>, ready: seq<bool>, f: F)
    requires |ready| == |fs|
    ensures f in StillPending(fs, ready) <==> exists i :: 0 <= i < |fs| && !ready[i] && fs[i] == f
  {
    if f in StillPending(fs, ready) {
      StillPendingSound(fs, ready, f);
    }
    if exists i :: 0 <= i < |fs| && !ready[i] && fs[i] == f {
      var i :| 0 <= i < |fs| && !ready[i] && fs[i] == f;
      StillPendingComplete(fs, ready, i);
    }
  }

  lemma {:induction false} StillPendingSound<F>(fs: seq<F>, ready: seq<bool>, f: F)
    requires |ready| == |fs| && f in StillPending(fs, ready)
    ensures exists i :: 0 <= i < |fs| && !ready[i] && fs[i] == f
  {
    var k := |fs| - 1;
    if f in StillPending(fs[..k], ready[..k]) {
      StillPendingSound(fs[..k], ready[..k], f);
      var i :| 0 <= i < k && !ready[..k][i] && fs[..k][i] == f;
      assert fs[i] == fs[..k][i] && ready[i] == ready[..k][i];
    } else {
      assert !ready[k] && fs[k] == f;
    }
  }

  lemma {:induction false} StillPendingComplete<F>(fs: seq<F>, ready: seq<bool>, i: nat)
    requires |ready| == |fs| && i < |fs| && !ready[i]
    ensures fs[i] in StillPending(fs, ready)
  {
    var k := |fs| - 1;
    if i < k {
      StillPendingComplete(fs[..k], ready[..k], i);
      assert fs[..k][i] == fs[i];
    }
  }

  /** The names the GUI's model list receives for `ms`. */
  function NamesOf(ms: seq<SceneModel>): (r: seq<string>)
    ensures |r| == |ms| && forall i :: 0 <= i < |ms| ==> r[i] == ms[i].name
  {
    if ms == [] then [] else NamesOf(ms[..|ms| - 1]) + [ms[|ms| - 1].name]
  }

  /** The loop over Queue::loadModelFutures: a ready future hands its model over and is erased,
      and the iterator stays on the next one; a future that is not ready is stepped over. */
  method Poll(fs: seq<Future>, ready: seq<bool>) returns (done: seq<SceneModel>, pending: seq<Future>)
    requires |ready| == |fs|
    ensures done == ReadyModels(fs, ready) && pending == StillPending(fs, ready)
  {
    done, pending := [], [];
    var k := 0;
    while k < |fs|
      invariant k <= |fs|
      invariant done == ReadyModels(fs[..k], ready[..k])
      invariant pending == StillPending(fs[..k], ready[..k])
    {
      PollStep(fs, ready, k);
      if ready[k] {
        done := done + [fs[k].result];
      } else {
        pending := pending + [fs[k]];
      }
      k := k + 1;
    }
    assert fs[..k] == fs && ready[..k] == ready;
  }

  /** One more future polled. */
  lemma PollStep(fs: seq<Future>, ready: seq<bool>, k: nat)
    requires |ready| == |fs| && k < |fs|
    ensures ReadyModels(fs[..k + 1], ready[..k + 1]) ==
      ReadyModels(fs[..k], ready[..k]) + (if ready[k] then [fs[k].result] else [])
    ensures StillPending(fs[..k + 1], ready[..k + 1]) ==
      StillPending(fs[..k], ready[..k]) + (if ready[k] then [] else [fs[k]])
  {
    assert fs[..k + 1][..k] == fs[..k] && ready[..k + 1][..k] == ready[..k];
  }

  /** vector::erase at index k: the entries after k move down by one. */
  function Erase<T>(s: seq<T>, k: nat): (r: seq<T>)
    requires k < |s|
    ensures |r| == |s| - 1
  {
    s[..k] + s[k + 1..]
  }

  /** Erasing at k keeps the entries before k and moves those after it down by one. */
  lemma EraseShifts<T>(s: seq<T>, k: nat)
    requires k < |s|
    ensures forall i :: 0 <= i < k ==> Erase(s, k)[i] == s[i]
    ensures forall i :: k <= i < |s| - 1 ==> Erase(s, k)[i] == s[i + 1]
  {
  }

  /** The queued unload indices are used as they stand, without being adjusted for the erases
      before them: the i-th must be in range of the list as it is by then, which has lost i
      entries. */
  predicate InRangeInTurn(q: seq<nat>, n: int)
  {
    forall i :: 0 <= i < |q| ==> q[i] < n - i
  }

  /** The list after erasing at each queued index in turn. */
  function EraseAll<T>(s: seq<T>, q: seq<nat>): seq<T>
    requires InRangeInTurn(q, |s|)
    decreases |q|
  {
    if q == [] then s else EraseAll(Erase(s, q[0]), q[1..])
  }

  /** The entries that erasing at each queued index in turn removes, in that order. */
  function Removed<T>(s: seq<T>, q: seq<nat>): seq<T>
    requires InRangeInTurn(q, |s|)
    decreases |q|
  {
    if q == [] then [] else [s[q[0]]] + Removed(Erase(s, q[0]), q[1..])
  }

  /** One unload of the queue: erasing at its first index, then at the others in turn. */
  lemma EraseStep<T>(s: seq<T>, q: seq<nat>)
    requires q != [] && InRangeInTurn(q, |s|)
    ensures InRangeInTurn(q[1..], |Erase(s, q[0])|)
    ensures EraseAll(Erase(s, q[0]), q[1..]) == EraseAll(s, q)
    ensures Removed(s, q) == [s[q[0]]] + Removed(Erase(s, q[0]), q[1..])
  {
    assert forall i :: 0 <= i < |q| - 1 ==> q[1..][i] == q[i + 1];
  }

  /** Every queued unload removes one entry: lists of equal length stay of equal length. */
  lemma {:induction false} EraseAllLength<T>(s: seq<T>, q: seq<nat>)
    requires InRangeInTurn(q, |s|)
    ensures |EraseAll(s, q)| == |s| - |q|
    ensures |Removed(s, q)| == |q|
    decreases |q|
  {
    if q != [] {
      EraseAllLength(Erase(s, q[0]), q[1..]);
    }
  }

  /** The unload loop on the lists themselves: for each queued index in turn, the model there
      is taken out and erased from the model list and from the four GUI lists. */
  method UnloadInTurn<M, N, V>(q: seq<nat>, ms: seq<M>, names: seq<N>, scales: seq<V>,
                               positions: seq<V>, rotations: seq<V>)
    returns (ms': seq<M>, names': seq<N>, scales': seq<V>, positions': seq<V>, rotations': seq<V>,
             gone: seq<M>)
    requires |names| == |ms| && |scales| == |ms| && |positions| == |ms| && |rotations| == |ms|
    requires InRangeInTurn(q, |ms|)
    ensures ms' == EraseAll(ms, q) && names' == EraseAll(names, q)
    ensures scales' == EraseAll(scales, q) && positions' == EraseAll(positions, q)
    ensures rotations' == EraseAll(rotations, q) && gone == Removed(ms, q)
    ensures |names'| == |ms'| && |scales'| == |ms'| && |positions'| == |ms'| && |rotations'| == |ms'|
  {
    var rest := q;
    ms', names', scales', positions', rotations', gone := ms, names, scales, positions, rotations, [];
    while rest != []
      invariant |names'| == |ms'| && |scales'| == |ms'| && |positions'| == |ms'| && |rotations'| == |ms'|
      invariant InRangeInTurn(rest, |ms'|)
      invariant EraseAll(ms', rest) == EraseAll(ms, q) && EraseAll(names', rest) == EraseAll(names, q)
      invariant EraseAll(scales', rest) == EraseAll(scales, q)
      invariant EraseAll(positions', rest) == EraseAll(positions, q)
      invariant EraseAll(rotations', rest) == EraseAll(rotations, q)
      invariant gone + Removed(ms', rest) == Removed(ms, q)
      decreases |rest|
    {
      var k := rest[0];
      EraseStep(ms', rest);
      EraseStep(names', rest);
      EraseStep(scales', rest);
      EraseStep(positions', rest);
      EraseStep(rotations', rest);
      Assoc(gone, [ms'[k]], Removed(Erase(ms', k), rest[1..]));
      gone := gone + [ms'[k]];
      ms', names' := Erase(ms', k), Erase(names', k);
      scales', positions', rotations' := Erase(scales', k), Erase(positions', k), Erase(rotations', k);
      rest := rest[1..];
    }
    assert gone + [] == gone;
    EraseAllLength(ms, q);
    EraseAllLength(names, q);
    EraseAllLength(scales, q);
    EraseAllLength(positions, q);
    EraseAllLength(rotations, q);
  }

  /** The statics checkQueue works on: Queue::loadModel, Queue::loadModelFutures and
      Queue::unloadModel, Model::models, and the GUI's modelList, model_scale, model_pos,
      model_rot and modelItemSelected. `released` lists the models whose destroy was called,
      in call order. */
  class Scene {
    var loadQueue: seq<LoadRequest>
    var futures: seq<Future>
    var unloadQueue: seq<nat>
    var models: seq<SceneModel>
    var modelList: seq<string>
    var modelScale: seq<Vec3>
    var modelPos: seq<Vec3>
    var modelRot: seq<Vec3>
    var modelItemSelected: int
    var released: seq<SceneModel>

    /** The GUI lists run parallel to the model list. */
    predicate Valid()
      reads this
    {
      |modelList| == |models| && |modelScale| == |models| && |modelPos| == |models| && |modelRot| == |models|
    }

    constructor ()
      ensures Valid() && loadQueue == [] && futures == [] && unloadQueue == [] && models == []
      ensures modelItemSelected == -1 && released == []
    {
      loadQueue, futures, unloadQueue := [], [], [];
      models, modelList, modelScale, modelPos, modelRot := [], [], [], [], [];
      modelItemSelected := -1;
      released := [];
    }

    /** The first loop of checkQueue: every queued request starts a future and is erased. */
    method LaunchLoads(worker: LoadRequest -> SceneModel)
      modifies this
      ensures loadQueue == [] && futures == old(futures) + Launch(old(loadQueue), worker)
      ensures unloadQueue == old(unloadQueue) && models == old(models) && modelList == old(modelList)
      ensures modelScale == old(modelScale) && modelPos == old(modelPos) && modelRot == old(modelRot)
      ensures modelItemSelected == old(modelItemSelected) && released == old(released)
    {
      var queue, started := loadQueue, futures;
      ghost var k := 0;
      while queue != []
        invariant k <= |old(loadQueue)| && queue == old(loadQueue)[k..]
        invariant started == old(futures) + Launch(old(loadQueue)[..k], worker)
        decreases |queue|
      {
        var request := queue[0];
        assert old(loadQueue)[..k + 1][..k] == old(loadQueue)[..k];
        started := started + [Future(request, worker(request))];
        queue := queue[1..];
        k := k + 1;
      }
      assert old(loadQueue)[..k] == old(loadQueue);
      loadQueue, futures := queue, started;
    }

    /** The second loop of checkQueue: each ready future's model goes to the end of
        Model::models, and its name, a unit scale, a zero position and a zero rotation to the
        ends of the GUI lists; the futures that are not ready stay, in their order. */
    method PollFutures(ready: seq<bool>)
      requires |ready| == |futures|
      modifies this
      ensures models == old(models) + ReadyModels(old(futures), ready)
      ensures modelList == old(modelList) + NamesOf(ReadyModels(old(futures), ready))
      ensures var n := |ReadyModels(old(futures), ready)|;
        modelScale == old(modelScale) + Repeat(UnitScale, n) &&
        modelPos == old(modelPos) + Repeat(Origin, n) && modelRot == old(modelRot) + Repeat(Origin, n)
      ensures futures == StillPending(old(futures), ready)
      ensures old(Valid()) ==> Valid()
      ensures loadQueue == old(loadQueue) && unloadQueue == old(unloadQueue)
      ensures modelItemSelected == old(modelItemSelected) && released == old(released)
    {
      var done, pending := Poll(futures, ready);
      models := models + done;
      modelList := modelList + NamesOf(done);
      modelScale := modelScale + Repeat(UnitScale, |done|);
      modelPos := modelPos + Repeat(Origin, |done|);
      modelRot := modelRot + Repeat(Origin, |done|);
      futures := pending;
    }

    /** The third loop of checkQueue: for each queued index, in queue order, the model there is
        destroyed and erased from Model::models and from the four GUI lists, and the GUI
        selection is cleared. */
    method ProcessUnloads()
      requires |modelList| == |models| && |modelScale| == |models| && |modelPos| == |models| && |modelRot| == |models|
      requires InRangeInTurn(unloadQueue, |models|)
      modifies this
      ensures Valid() && unloadQueue == []
      ensures models == EraseAll(old(models), old(unloadQueue))
      ensures modelList == EraseAll(old(modelList), old(unloadQueue))
      ensures modelScale == EraseAll(old(modelScale), old(unloadQueue))
      ensures modelPos == EraseAll(old(modelPos), old(unloadQueue))
      ensures modelRot == EraseAll(old(modelRot), old(unloadQueue))
      ensures released == old(released) + Removed(old(models), old(unloadQueue))
      ensures modelItemSelected == if old(unloadQueue) == [] then old(modelItemSelected) else -1
      ensures loadQueue == old(loadQueue) && futures == old(futures)
    {
      var ms, names, scales, positions, rotations, gone :=
        UnloadInTurn(unloadQueue, models, modelList, modelScale, modelPos, modelRot);
      var selected := if unloadQueue == [] then modelItemSelected else -1;
      models, modelList, modelScale, modelPos, modelRot, released, modelItemSelected, unloadQueue :=
        ms, names, scales, positions, rotations, released + gone, selected, [];
    }

    /** checkQueue: the loads are started, the finished ones collected, then the queued
        unloads done, the latter on the model list as collection left it. `worker` stands for
        the loader thread and `ready` says which futures have finished by the time they are
        polled (the old ones first, then those just started). */
    method CheckQueue(worker: LoadRequest -> SceneModel, ready: seq<bool>)
      requires Valid() && |ready| == |futures| + |loadQueue|
      requires InRangeInTurn(unloadQueue, |models| + |ReadyModels(futures + Launch(loadQueue, worker), ready)|)
      modifies this
      ensures Valid() && loadQueue == [] && unloadQueue == []
      ensures var fs := old(futures) + Launch(old(loadQueue), worker);
        var loaded := ReadyModels(fs, ready);
        futures == StillPending(fs, ready)
        && models == EraseAll(old(models) + loaded, old(unloadQueue))
        && modelList == EraseAll(old(modelList) + NamesOf(loaded), old(unloadQueue))
        && released == old(released) + Removed(old(models) + loaded, old(unloadQueue))
      ensures var n := |ReadyModels(old(futures) + Launch(old(loadQueue), worker), ready)|;
        modelScale == EraseAll(old(modelScale) + Repeat(UnitScale, n), old(unloadQueue)) &&
        modelPos == EraseAll(old(modelPos) + Repeat(Origin, n), old(unloadQueue)) &&
        modelRot == EraseAll(old(modelRot) + Repeat(Origin, n), old(unloadQueue))
      ensures modelItemSelected == if old(unloadQueue) == [] then old(modelItemSelected) else -1
    {
      LaunchLoads(worker);
      PollFutures(ready);
      ProcessUnloads();
    }
  }

  // ---------------------------------------------------------------------------------------
  // recordDeferredCmds
  // ---------------------------------------------------------------------------------------

  /** The GUI switches recordDeferredCmds and present read. */
  datatype Toggles = Toggles(shadowCast: bool, showSSAO: bool, showSSR: bool,
                             showFXAA: bool, showBloom: bool, showMotionBlur: bool)

  /** The passes of the deferred command buffer. The skybox is the day one when shadows are
      cast and the night one otherwise; the model pass draws `count` models. */
  datatype Pass = Skybox(day: bool) | ModelPass(count: nat) | SSAO | SSR | Composition
                | FXAA | Bloom | MotionBlur | GUIPass

  /** The GPU metric slot that times a pass. */
  function Slot(p: Pass): nat
  {
    match p
    case Skybox(_) => 1
    case ModelPass(_) => 2
    case SSAO => 3
    case SSR => 4
    case Composition => 5
    case FXAA => 6
    case Bloom => 7
    case MotionBlur => 8
    case GUIPass => 9
  }

  /** What the deferred command buffer receives: a command, or the recording a pass or a model
      does into it (those are other files' draw functions). */
  datatype Recorded = Vk(cmd: Command) | RunPass(pass: Pass) | BatchStart | DrawModel(index: nat) | BatchEnd

  /** The models pass: batchStart, the draw of every model in index order, batchEnd. */
  function ModelDraws(n: nat): seq<Recorded>
  {
    if n == 0 then [] else ModelDraws(n - 1) + [DrawModel(n - 1)]
  }

  /** The models pass draws model m at position m, for each of the n models, and no other. */
  lemma {:induction false} ModelDrawsExactly(n: nat, m: nat)
    ensures |ModelDraws(n)| == n
    ensures DrawModel(m) in ModelDraws(n) <==> m < n
    ensures m < n ==> ModelDraws(n)[m] == DrawModel(m)
  {
    if n > 0 {
      ModelDrawsExactly(n - 1, m);
      if m < n - 1 {
        assert ModelDraws(n)[m] == ModelDraws(n - 1)[m];
      }
    }
  }

  function PassBody(p: Pass): seq<Recorded>
  {
    if p.ModelPass? then [BatchStart] + ModelDraws(p.count) + [BatchEnd] else [RunPass(p)]
  }

  /** A pass, timed by its metric slot. */
  function Segment(p: Pass): seq<Recorded>
  {
    [Vk(MetricStart(Slot(p)))] + PassBody(p) + [Vk(MetricEnd(Slot(p)))]
  }

  function If(b: bool, p: Pass): seq<Pass>
  {
    if b then [p] else []
  }

  /** The passes recorded only when there are models, by their place in that block (2 to 8). */
  function SceneStage(k: nat, n: nat): Pass
    requires 2 <= k <= 8
  {
    if k == 2 then ModelPass(n)
    else if k == 3 then SSAO
    else if k == 4 then SSR
    else if k == 5 then Composition
    else if k == 6 then FXAA
    else if k == 7 then Bloom
    else MotionBlur
  }

  /** The switch a pass of that block sits under: the models pass and the composition have none. */
  function StageSwitch(k: nat, t: Toggles): bool
    requires 2 <= k <= 8
  {
    if k == 3 then t.showSSAO
    else if k == 4 then t.showSSR
    else if k == 6 then t.showFXAA
    else if k == 7 then t.showBloom
    else if k == 8 then t.showMotionBlur
    else true
  }

  /** The passes of the block from place k on, each under its own switch. */
  function ScenePasses(t: Toggles, n: nat, k: nat): seq<Pass>
    requires 2 <= k <= 9
    decreases 9 - k
  {
    if k == 9 then [] else If(StageSwitch(k, t), SceneStage(k, n)) + ScenePasses(t, n, k + 1)
  }

  /** The passes recorded for `n` loaded models under toggles `t`, in recording order: the
      skybox, the block of passes that needs models, the GUI. */
  function EnabledPasses(t: Toggles, n: nat): seq<Pass>
  {
    [Skybox(t.shadowCast)] + (if n > 0 then ScenePasses(t, n, 2) else []) + [GUIPass]
  }

  /** When a pass is recorded, stated pass by pass: the skybox matching the shadow switch and
      the GUI always; the models pass, for all the models, and the composition whenever there
      are models; each post-process effect when there are models and its switch is on. */
  predicate Enabled(p: Pass, t: Toggles, n: nat)
  {
    match p
    case Skybox(day) => day == t.shadowCast
    case ModelPass(count) => n > 0 && count == n
    case SSAO => n > 0 && t.showSSAO
    case SSR => n > 0 && t.showSSR
    case Composition => n > 0
    case FXAA => n > 0 && t.showFXAA
    case Bloom => n > 0 && t.showBloom
    case MotionBlur => n > 0 && t.showMotionBlur
    case GUIPass => true
  }

  /** The block from place k holds exactly the enabled passes whose slots are k or later. */
  lemma {:induction false} ScenePassesExactly(t: Toggles, n: nat, k: nat, p: Pass)
    requires n > 0 && 2 <= k <= 9
    ensures p in ScenePasses(t, n, k) <==> Enabled(p, t, n) && k <= Slot(p) <= 8
    decreases 9 - k
  {
    if k < 9 {
      ScenePassesExactly(t, n, k + 1, p);
      StageIsTheEnabledPass(t, n, k, p);
      var q := SceneStage(k, n);
      assert p in If(StageSwitch(k, t), q) <==> StageSwitch(k, t) && p == q;
    }
  }

  /** Place k holds the one pass of slot k, and it is enabled exactly when its switch is on. */
  lemma StageIsTheEnabledPass(t: Toggles, n: nat, k: nat, p: Pass)
    requires n > 0 && 2 <= k <= 8
    ensures Slot(SceneStage(k, n)) == k && (Enabled(SceneStage(k, n), t, n) <==> StageSwitch(k, t))
    ensures Enabled(p, t, n) && Slot(p) == k ==> p == SceneStage(k, n)
  {
  }

  /** A pass is recorded if and only if it is enabled. */
  lemma EnabledPassesExactly(t: Toggles, n: nat, p: Pass)
    ensures p in EnabledPasses(t, n) <==> Enabled(p, t, n)
  {
    if n > 0 {
      ScenePassesExactly(t, n, 2, p);
    }
  }

  /** The block from place k is in slot order and uses slots k to 8. */
  lemma {:induction false} ScenePassesOrdered(t: Toggles, n: nat, k: nat)
    requires 2 <= k <= 9
    ensures var ps := ScenePasses(t, n, k);
      SlotsIncrease(ps) && forall i :: 0 <= i < |ps| ==> k <= Slot(ps[i]) < 9
    decreases 9 - k
  {
    if k < 9 {
      ScenePassesOrdered(t, n, k + 1);
      assert Slot(SceneStage(k, n)) == k;
      JoinSlots(If(StageSwitch(k, t), SceneStage(k, n)), ScenePasses(t, n, k + 1), k, k + 1, 9);
    }
  }

  /** The passes come in strictly increasing slot order: whatever the toggles, no pass is
      recorded twice and none before one that precedes it in the fixed order; the skybox comes
      first and the GUI last. */
  lemma EnabledPassesOrdered(t: Toggles, n: nat)
    ensures SlotsIncrease(EnabledPasses(t, n))
    ensures EnabledPasses(t, n)[0] == Skybox(t.shadowCast)
    ensures EnabledPasses(t, n)[|EnabledPasses(t, n)| - 1] == GUIPass
  {
    var mid := if n > 0 then ScenePasses(t, n, 2) else [];
    ScenePassesOrdered(t, n, 2);
    Bracket(Skybox(t.shadowCast), mid, GUIPass);
  }

  /** A run of passes in increasing slot order, from slot 2 to 8, between a pass of slot 1 and
      a pass of slot 9 stays in increasing slot order. */
  lemma Bracket(first: Pass, mid: seq<Pass>, last: Pass)
    requires Slot(first) == 1 && Slot(last) == 9
    requires SlotsIncrease(mid) && forall i :: 0 <= i < |mid| ==> 2 <= Slot(mid[i]) < 9
    ensures var ps := [first] + mid + [last];
      SlotsIncrease(ps) && ps[0] == first && ps[|ps| - 1] == last
  {
    JoinSlots([first], mid, 1, 2, 9);
    JoinSlots([first] + mid, [last], 1, 9, 10);
  }

  /** The passes of `ps` have strictly increasing slots. */
  predicate SlotsIncrease(ps: seq<Pass>)
  {
    forall i, j :: 0 <= i < j < |ps| ==> Slot(ps[i]) < Slot(ps[j])
  }

  /** Two runs of passes in increasing slot order, the first from slot `lo` to below slot `m`
      and the second from `m` to below `hi`, join into one. */
  lemma JoinSlots(a: seq<Pass>, b: seq<Pass>, lo: nat, m: nat, hi: nat)
    requires SlotsIncrease(a) && SlotsIncrease(b) && lo <= m <= hi
    requires forall i :: 0 <= i < |a| ==> lo <= Slot(a[i]) < m
    requires forall j :: 0 <= j < |b| ==> m <= Slot(b[j]) < hi
    ensures SlotsIncrease(a + b)
    ensures forall i :: 0 <= i < |a + b| ==> lo <= Slot((a + b)[i]) < hi
  {
  }

  const DeferredHead := [Vk(BeginCommandBuffer), Vk(MetricStart(0)), Vk(SetViewport), Vk(SetScissor)]
  const DeferredTail := [Vk(MetricEnd(0)), Vk(EndCommandBuffer)]

  /** What place k of the block records: its pass, timed, when its switch is on. */
  function StageCmds(t: Toggles, n: nat, k: nat): seq<Recorded>
    requires 2 <= k <= 8
  {
    if StageSwitch(k, t) then Segment(SceneStage(k, n)) else []
  }

  /** What the block records from place k on. */
  function SceneCmds(t: Toggles, n: nat, k: nat): seq<Recorded>
    requires 2 <= k <= 9
    decreases 9 - k
  {
    if k == 9 then [] else StageCmds(t, n, k) + SceneCmds(t, n, k + 1)
  }

  /** The deferred command buffer for `n` models under toggles `t`: begin, metric 0 opened,
      viewport and scissor, the skybox, the block that needs models when there are any, the
      GUI, metric 0 closed, end. */
  function DeferredCmds(t: Toggles, n: nat): seq<Recorded>
  {
    DeferredHead + Segment(Skybox(t.shadowCast)) + (if n > 0 then SceneCmds(t, n, 2) else [])
    + Segment(GUIPass) + DeferredTail
  }

  /** The block records the segments of its passes, in order. */
  lemma {:induction false} SceneCmdsAreSegments(t: Toggles, n: nat, k: nat)
    requires 2 <= k <= 9
    ensures SceneCmds(t, n, k) == FlatMap(ScenePasses(t, n, k), Segment)
    decreases 9 - k
  {
    if k < 9 {
      SceneCmdsAreSegments(t, n, k + 1);
      var here := If(StageSwitch(k, t), SceneStage(k, n));
      FlatMapAppend(here, ScenePasses(t, n, k + 1), Segment);
      if StageSwitch(k, t) {
        FlatMapOne(SceneStage(k, n), Segment);
      }
    }
  }

  /** The deferred buffer is the frame's opening, the segments of the enabled passes in order,
      and the frame's closing. */
  lemma DeferredCmdsAreSegments(t: Toggles, n: nat)
    ensures DeferredCmds(t, n) == DeferredHead + FlatMap(EnabledPasses(t, n), Segment) + DeferredTail
  {
    var mid := if n > 0 then ScenePasses(t, n, 2) else [];
    var scene := if n > 0 then SceneCmds(t, n, 2) else [];
    var skybox, gui := Skybox(t.shadowCast), GUIPass;
    SceneCmdsAreSegments(t, n, 2);
    assert FlatMap(mid, Segment) == scene;
    calc {
      DeferredHead + FlatMap(EnabledPasses(t, n), Segment) + DeferredTail;
    == { FlatMapAppend([skybox] + mid, [gui], Segment); }
      DeferredHead + (FlatMap([skybox] + mid, Segment) + FlatMap([gui], Segment)) + DeferredTail;
    == { FlatMapAppend([skybox], mid, Segment); FlatMapOne(skybox, Segment); FlatMapOne(gui, Segment); }
      DeferredHead + ((Segment(skybox) + scene) + Segment(gui)) + DeferredTail;
    == { Assoc(DeferredHead, Segment(skybox) + scene, Segment(gui)); }
      (DeferredHead + (Segment(skybox) + scene)) + Segment(gui) + DeferredTail;
    == { Assoc(DeferredHead, Segment(skybox), scene); }
      DeferredCmds(t, n);
    }
  }

  /** A pass's segment draws model m only if it is the models pass and m is one of its models. */
  lemma SegmentDraws(p: Pass, m: nat)
    ensures DrawModel(m) in Segment(p) <==> p.ModelPass? && m < p.count
  {
    if p.ModelPass? {
      ModelDrawsExactly(p.count, m);
      assert Segment(p) == [Vk(MetricStart(2))] + ([BatchStart] + ModelDraws(p.count) + [BatchEnd])
        + [Vk(MetricEnd(2))];
    } else {
      assert Segment(p) == [Vk(MetricStart(Slot(p))), RunPass(p), Vk(MetricEnd(Slot(p)))];
    }
  }

  /** The frame's head and tail draw no model, so model m is drawn in the deferred buffer
      exactly when some enabled pass's segment draws it. */
  lemma DeferredDrawsInPasses(t: Toggles, n: nat, m: nat)
    ensures DrawModel(m) in DeferredCmds(t, n) <==> DrawModel(m) in FlatMap(EnabledPasses(t, n), Segment)
  {
    var body := FlatMap(EnabledPasses(t, n), Segment);
    DeferredCmdsAreSegments(t, n);
    assert DrawModel(m) !in DeferredHead && DrawModel(m) !in DeferredTail;
    assert DrawModel(m) in DeferredHead + body + DeferredTail <==> DrawModel(m) in body;
  }

  /** Model m is drawn in the deferred buffer if and only if it is one of the loaded models. */
  lemma DeferredDrawsEveryModel(t: Toggles, n: nat, m: nat)
    ensures DrawModel(m) in DeferredCmds(t, n) <==> m < n
  {
    DeferredDrawsInPasses(t, n, m);
    var ps := EnabledPasses(t, n);
    if m < n {
      EnabledPassesExactly(t, n, ModelPass(n));
      var i :| 0 <= i < |ps| && ps[i] == ModelPass(n);
      SegmentDraws(ps[i], m);
      FlatMapContains(ps, Segment, i, DrawModel(m));
    } else if DrawModel(m) in FlatMap(ps, Segment) {
      FlatMapMember(ps, Segment, DrawModel(m));
      var i :| 0 <= i < |ps| && DrawModel(m) in Segment(ps[i]);
      SegmentDraws(ps[i], m);
      EnabledPassesExactly(t, n, ps[i]);
      assert false;
    }
  }

  /** Records the models pass: batchStart, Model::models[m].draw() for every m in turn,
      batchEnd, timed by slot 2. */
  method RecordModelPass(n: nat) returns (cmds: seq<Recorded>)
    ensures cmds == Segment(ModelPass(n))
  {
    var draws: seq<Recorded> := [];
    var m := 0;
    while m < n
      invariant m <= n && draws == ModelDraws(m)
    {
      draws := draws + [DrawModel(m)];
      m := m + 1;
    }
    cmds := [Vk(MetricStart(2)), BatchStart] + draws + [BatchEnd, Vk(MetricEnd(2))];
  }

  /** The recording of recordDeferredCmds: the skybox, the passes that need models when there
      are any, the GUI, inside the frame's own metric. */
  method RecordDeferred(t: Toggles, n: nat) returns (cmds: seq<Recorded>)
    ensures cmds == DeferredCmds(t, n)
  {
    var skybox := Segment(Skybox(t.shadowCast));
    var scene: seq<Recorded> := [];
    if n > 0 {
      scene := RecordScene(t, n);
    }
    var gui := Segment(GUIPass);
    cmds := DeferredHead + skybox + scene + gui + DeferredTail;
  }

  /** The block's recording, place by place, as the concatenation of each place's commands. */
  lemma SceneCmdsInOrder(t: Toggles, n: nat)
    ensures SceneCmds(t, n, 2) == StageCmds(t, n, 2) + StageCmds(t, n, 3) + StageCmds(t, n, 4)
      + StageCmds(t, n, 5) + StageCmds(t, n, 6) + StageCmds(t, n, 7) + StageCmds(t, n, 8)
  {
    var s2, s3, s4, s5 := StageCmds(t, n, 2), StageCmds(t, n, 3), StageCmds(t, n, 4), StageCmds(t, n, 5);
    var s6, s7, s8 := StageCmds(t, n, 6), StageCmds(t, n, 7), StageCmds(t, n, 8);
    assert SceneCmds(t, n, 8) == s8;
    assert SceneCmds(t, n, 7) == s7 + s8;
    assert SceneCmds(t, n, 6) == s6 + (s7 + s8);
    Assoc(s6, s7, s8);
    assert SceneCmds(t, n, 5) == s5 + (s6 + s7 + s8);
    Assoc(s5, s6 + s7, s8);
    Assoc(s5, s6, s7);
    assert SceneCmds(t, n, 4) == s4 + (s5 + s6 + s7 + s8);
    Assoc(s4, s5 + s6 + s7, s8);
    Assoc(s4, s5 + s6, s7);
    Assoc(s4, s5, s6);
    assert SceneCmds(t, n, 3) == s3 + (s4 + s5 + s6 + s7 + s8);
    Assoc(s3, s4 + s5 + s6 + s7, s8);
    Assoc(s3, s4 + s5 + s6, s7);
    Assoc(s3, s4 + s5, s6);
    Assoc(s3, s4, s5);
    assert SceneCmds(t, n, 2) == s2 + (s3 + s4 + s5 + s6 + s7 + s8);
    Assoc(s2, s3 + s4 + s5 + s6 + s7, s8);
    Assoc(s2, s3 + s4 + s5 + s6, s7);
    Assoc(s2, s3 + s4 + s5, s6);
    Assoc(s2, s3 + s4, s5);
    Assoc(s2, s3, s4);
  }

  /** The passes that need models, each under its switch, in the order recordDeferredCmds
      lists them. */
  method RecordScene(t: Toggles, n: nat) returns (cmds: seq<Recorded>)
    requires n > 0
    ensures cmds == SceneCmds(t, n, 2)
  {
    cmds := RecordModelPass(n);
    cmds := AddStage(t, n, 3, cmds, t.showSSAO, Segment(SSAO));
    cmds := AddStage(t, n, 4, cmds, t.showSSR, Segment(SSR));
    cmds := AddStage(t, n, 5, cmds, true, Segment(Composition));
    cmds := AddStage(t, n, 6, cmds, t.showFXAA, Segment(FXAA));
    cmds := AddStage(t, n, 7, cmds, t.showBloom, Segment(Bloom));
    cmds := AddStage(t, n, 8, cmds, t.showMotionBlur, Segment(MotionBlur));
    SceneCmdsInOrder(t, n);
  }

  /** Place k of the block: its pass recorded when its switch is on. */
  method AddStage(t: Toggles, n: nat, k: nat, cmds: seq<Recorded>, enabled: bool, segment: seq<Recorded>)
    returns (cmds': seq<Recorded>)
    requires 2 <= k <= 8 && enabled == StageSwitch(k, t) && segment == Segment(SceneStage(k, n))
    ensures cmds' == cmds + StageCmds(t, n, k)
  {
    if enabled {
      cmds' := cmds + segment;
    } else {
      cmds' := cmds;
    }
  }

  /** What the dSetNeedsUpdate block asks of the device. */
  datatype Maintenance = DeviceWaitIdle | BloomDescriptorUpdate | BloomFramebufferDestroy(fb: Handle)
                       | BloomFramebuffersCreate | MotionBlurDescriptorUpdate

  function DestroyBloomFramebuffer(fb: Handle): seq<Maintenance>
  {
    [BloomFramebufferDestroy(fb)]
  }

  /** The dSetNeedsUpdate block: wait for the device, rewrite the bloom descriptor sets,
      destroy every bloom framebuffer, create new ones, rewrite the motion blur sets. */
  function RebuildOps(fbs: seq<Handle>): seq<Maintenance>
  {
    [DeviceWaitIdle, BloomDescriptorUpdate] + FlatMap(fbs, DestroyBloomFramebuffer)
    + [BloomFramebuffersCreate, MotionBlurDescriptorUpdate]
  }

  /** Every old bloom framebuffer is destroyed, and nothing else is. */
  lemma RebuildDestroysOldFramebuffers(fbs: seq<Handle>, fb: Handle)
    ensures BloomFramebufferDestroy(fb) in RebuildOps(fbs) <==> fb in fbs
  {
    var head := [DeviceWaitIdle, BloomDescriptorUpdate];
    var tail := [BloomFramebuffersCreate, MotionBlurDescriptorUpdate];
    assert RebuildOps(fbs) == head + FlatMap(fbs, DestroyBloomFramebuffer) + tail;
    if fb in fbs {
      var i :| 0 <= i < |fbs| && fbs[i] == fb;
      FlatMapContains(fbs, DestroyBloomFramebuffer, i, BloomFramebufferDestroy(fb));
    }
    if BloomFramebufferDestroy(fb) in RebuildOps(fbs) {
      assert BloomFramebufferDestroy(fb) in FlatMap(fbs, DestroyBloomFramebuffer);
      FlatMapMember(fbs, DestroyBloomFramebuffer, BloomFramebufferDestroy(fb));
    }
  }

  method RebuildBloom(fbs: seq<Handle>) returns (ops: seq<Maintenance>)
    ensures ops == RebuildOps(fbs)
  {
    var destroys: seq<Maintenance> := [];
    var k := 0;
    while k < |fbs|
      invariant k <= |fbs| && destroys == FlatMap(fbs[..k], DestroyBloomFramebuffer)
    {
      FlatMapPrefix(fbs, k, DestroyBloomFramebuffer);
      destroys := destroys + [BloomFramebufferDestroy(fbs[k])];
      k := k + 1;
    }
    assert fbs[..k] == fbs;
    ops := [DeviceWaitIdle, BloomDescriptorUpdate] + destroys + [BloomFramebuffersCreate, MotionBlurDescriptorUpdate];
  }

  // ---------------------------------------------------------------------------------------
  // recordShadowsCmds
  // ---------------------------------------------------------------------------------------

  /** What recordShadowsCmds reads of ctx.shadows: the render pass, the framebuffers (one per
      cascade and swapchain image), the pipeline and its layout, one descriptor set per
      cascade, and the number of cascades (textures.size()). */
  datatype ShadowsPass = ShadowsPass(renderPass: Handle, frameBuffers: seq<Handle>, pipeline: Handle,
                                     layout: Handle, descriptorSets: seq<Handle>, cascades: nat)

  /** The draw of a primitive: its own index count, one instance, and first index and vertex
      offset that add the mesh's and the primitive's (uint32_t sums, so modulo 2^32). */
  function DrawOf(mesh: NodeMesh, p: Primitive): Command
  {
    DrawIndexed(p.indicesSize, 1, Models.Wrap(mesh.indexOffset + p.indexOffset),
                Models.Wrap(mesh.vertexOffset + p.vertexOffset), 0)
  }

  function PrimitiveDraw(mesh: NodeMesh, p: Primitive): seq<Command>
  {
    if p.render then [DrawOf(mesh, p)] else []
  }

  /** The draws of the primitives `ps` of `mesh`, in order. */
  function PrimitiveDraws(mesh: NodeMesh, ps: seq<Primitive>): seq<Command>
  {
    if ps == [] then [] else PrimitiveDraws(mesh, ps[..|ps| - 1]) + PrimitiveDraw(mesh, ps[|ps| - 1])
  }

  /** A node's commands for the cascade whose descriptor set is `cascadeSet`: for a node with a
      mesh, the bind of the cascade's, the mesh's and the model's sets, then the draws. */
  function NodeCmds(layout: Handle, cascadeSet: Handle, model: SceneModel, node: Node): seq<Command>
  {
    if node.mesh.None? then []
    else
      var mesh := node.mesh.value;
      [BindDescriptorSets(layout, [cascadeSet, mesh.descriptorSet, model.descriptorSet], [])]
      + PrimitiveDraws(mesh, mesh.primitives)
  }

  function NodesCmds(layout: Handle, cascadeSet: Handle, model: SceneModel, nodes: seq<Node>): seq<Command>
  {
    if nodes == [] then []
    else NodesCmds(layout, cascadeSet, model, nodes[..|nodes| - 1]) + NodeCmds(layout, cascadeSet, model, nodes[|nodes| - 1])
  }

  /** A model's commands: nothing when it is not rendered; else its vertex and index buffers
      bound, then its nodes in linear order. */
  function ModelCmds(layout: Handle, cascadeSet: Handle, model: SceneModel): seq<Command>
  {
    if !model.render then []
    else [BindVertexBuffer(model.vertexBuffer), BindIndexBuffer(model.indexBuffer)]
         + NodesCmds(layout, cascadeSet, model, model.linearNodes)
  }

  function ModelsCmds(layout: Handle, cascadeSet: Handle, models: seq<SceneModel>): seq<Command>
  {
    if models == [] then []
    else ModelsCmds(layout, cascadeSet, models[..|models| - 1]) + ModelCmds(layout, cascadeSet, models[|models| - 1])
  }

  /** Where the framebuffer of cascade i for swapchain image j sits: the cascades' blocks of
      one framebuffer per image, one after another. */
  function FramebufferIndex(i: nat, imageCount: nat, j: nat): nat
  {
    i * imageCount + j
  }

  /** The framebuffers are laid out so that cascade i and image j (j below the image count)
      get a slot of their own. */
  lemma FramebufferIndexInjective(i1: nat, j1: nat, i2: nat, j2: nat, imageCount: nat)
    requires j1 < imageCount && j2 < imageCount
    ensures FramebufferIndex(i1, imageCount, j1) == FramebufferIndex(i2, imageCount, j2) <==> i1 == i2 && j1 == j2
  {
    if i1 < i2 {
      MulMonotone(i1 + 1, i2, imageCount);
    } else if i2 < i1 {
      MulMonotone(i2 + 1, i1, imageCount);
    }
  }

  /** With c cascades and imageCount images, every cascade's framebuffer for an image below the
      count sits below c * imageCount. */
  lemma FramebufferIndexBound(i: nat, j: nat, cascades: nat, imageCount: nat)
    requires i < cascades && j < imageCount
    ensures FramebufferIndex(i, imageCount, j) < cascades * imageCount
  {
    MulMonotone(i + 1, cascades, imageCount);
  }

  lemma MulMonotone(a: nat, b: nat, c: nat)
    requires a <= b
    ensures a * c <= b * c
  {
  }

  /** The shadow framebuffers cover what recordShadowsCmds reads, when the last cascade's
      framebuffer for the image exists. */
  lemma FramebuffersCoverCascades(sh: ShadowsPass, imageCount: nat, imageIndex: nat)
    requires sh.cascades > 0 && FramebufferIndex(sh.cascades - 1, imageCount, imageIndex) < |sh.frameBuffers|
    ensures forall i :: 0 <= i < sh.cascades ==> FramebufferIndex(i, imageCount, imageIndex) < |sh.frameBuffers|
  {
    forall i | 0 <= i < sh.cascades
      ensures FramebufferIndex(i, imageCount, imageIndex) < |sh.frameBuffers|
    {
      MulMonotone(i, sh.cascades - 1, imageCount);
    }
  }

  /** Cascade i's command buffer: begin, metric 10 + i opened, depth bias, the render pass on
      the framebuffer of cascade i and this image, the shadow pipeline, every model, then the
      render pass, the metric and the buffer closed. */
  function CascadeCmds(sh: ShadowsPass, i: nat, imageCount: nat, imageIndex: nat, models: seq<SceneModel>): seq<Command>
    requires i < |sh.descriptorSets| && FramebufferIndex(i, imageCount, imageIndex) < |sh.frameBuffers|
  {
    [BeginCommandBuffer, MetricStart(10 + i), SetDepthBias,
     BeginRenderPass(sh.renderPass, sh.frameBuffers[FramebufferIndex(i, imageCount, imageIndex)]),
     BindPipeline(sh.pipeline)]
    + ModelsCmds(sh.layout, sh.descriptorSets[i], models)
    + [EndRenderPass, MetricEnd(10 + i), EndCommandBuffer]
  }

  /** Primitive j of the mesh of node k draws `c`. */
  predicate NodeDraws(nodes: seq<Node>, k: int, j: int, c: Command)
  {
    0 <= k < |nodes| && nodes[k].mesh.Some? && 0 <= j < |nodes[k].mesh.value.primitives|
    && nodes[k].mesh.value.primitives[j].render && c == DrawOf(nodes[k].mesh.value, nodes[k].mesh.value.primitives[j])
  }

  /** Model m is rendered and primitive j of the mesh of its node k draws `c`. */
  predicate ModelNodeDraws(models: seq<SceneModel>, m: int, k: int, j: int, c: Command)
  {
    0 <= m < |models| && models[m].render && NodeDraws(models[m].linearNodes, k, j, c)
  }

  /** The draws of a mesh are exactly those of its rendered primitives. */
  lemma {:induction false} PrimitiveDrawsExactly(mesh: NodeMesh, ps: seq<Primitive>, c: Command)
    ensures c in PrimitiveDraws(mesh, ps) <==> exists j :: 0 <= j < |ps| && ps[j].render && c == DrawOf(mesh, ps[j])
  {
    if ps != [] {
      var k := |ps| - 1;
      PrimitiveDrawsExactly(mesh, ps[..k], c);
      if exists j :: 0 <= j < |ps| && ps[j].render && c == DrawOf(mesh, ps[j]) {
        var j :| 0 <= j < |ps| && ps[j].render && c == DrawOf(mesh, ps[j]);
        if j < k {
          assert ps[..k][j] == ps[j];
        }
      }
      if exists j :: 0 <= j < k && ps[..k][j].render && c == DrawOf(mesh, ps[..k][j]) {
        var j :| 0 <= j < k && ps[..k][j].render && c == DrawOf(mesh, ps[..k][j]);
        assert ps[j] == ps[..k][j];
      }
    }
  }

  /** A node issues exactly the draws of the rendered primitives of its mesh, if it has one. */
  lemma NodeCmdsDraws(layout: Handle, cascadeSet: Handle, model: SceneModel, node: Node, c: Command)
    requires c.DrawIndexed?
    ensures c in NodeCmds(layout, cascadeSet, model, node) <==> exists j :: NodeDraws([node], 0, j, c)
  {
    if node.mesh.Some? {
      var mesh := node.mesh.value;
      PrimitiveDrawsExactly(mesh, mesh.primitives, c);
      assert c in NodeCmds(layout, cascadeSet, model, node) <==> c in PrimitiveDraws(mesh, mesh.primitives);
      if c in PrimitiveDraws(mesh, mesh.primitives) {
        var j :| 0 <= j < |mesh.primitives| && mesh.primitives[j].render && c == DrawOf(mesh, mesh.primitives[j]);
        assert NodeDraws([node], 0, j, c);
      }
    }
  }

  /** Every draw a node list issues is that of a rendered primitive of one of its nodes' meshes. */
  lemma {:induction false} NodesCmdsSound(layout: Handle, cascadeSet: Handle, model: SceneModel, nodes: seq<Node>, c: Command)
    requires c.DrawIndexed? && c in NodesCmds(layout, cascadeSet, model, nodes)
    ensures exists k, j :: NodeDraws(nodes, k, j, c)
  {
    var last := |nodes| - 1;
    var front := nodes[..last];
    if c in NodesCmds(layout, cascadeSet, model, front) {
      NodesCmdsSound(layout, cascadeSet, model, front, c);
      var k, j :| NodeDraws(front, k, j, c);
      assert front[k] == nodes[k];
      assert NodeDraws(nodes, k, j, c);
    } else {
      NodeCmdsDraws(layout, cascadeSet, model, nodes[last], c);
      var j :| NodeDraws([nodes[last]], 0, j, c);
      assert NodeDraws(nodes, last, j, c);
    }
  }

  /** Every rendered primitive of a node's mesh is drawn. */
  lemma {:induction false} NodesCmdsComplete(layout: Handle, cascadeSet: Handle, model: SceneModel, nodes: seq<Node>,
                                             k: int, j: int, c: Command)
    requires NodeDraws(nodes, k, j, c)
    ensures c in NodesCmds(layout, cascadeSet, model, nodes)
  {
    var last := |nodes| - 1;
    var front := nodes[..last];
    var node := nodes[k];
    assert NodesCmds(layout, cascadeSet, model, nodes) ==
      NodesCmds(layout, cascadeSet, model, front) + NodeCmds(layout, cascadeSet, model, nodes[last]);
    if k < last {
      assert front[k] == node;
      assert NodeDraws(front, k, j, c);
      NodesCmdsComplete(layout, cascadeSet, model, front, k, j, c);
    } else {
      var mesh := node.mesh.value;
      PrimitiveDrawsExactly(mesh, mesh.primitives, c);
      assert c in PrimitiveDraws(mesh, mesh.primitives);
    }
  }

  /** A node list issues exactly the draws of the rendered primitives of its nodes' meshes. */
  lemma NodesCmdsDraws(layout: Handle, cascadeSet: Handle, model: SceneModel, nodes: seq<Node>, c: Command)
    requires c.DrawIndexed?
    ensures c in NodesCmds(layout, cascadeSet, model, nodes) <==> exists k, j :: NodeDraws(nodes, k, j, c)
  {
    if c in NodesCmds(layout, cascadeSet, model, nodes) {
      NodesCmdsSound(layout, cascadeSet, model, nodes, c);
    }
    if exists k, j :: NodeDraws(nodes, k, j, c) {
      var k, j :| NodeDraws(nodes, k, j, c);
      NodesCmdsComplete(layout, cascadeSet, model, nodes, k, j, c);
    }
  }

  /** A model issues its nodes' draws when it is rendered, and none otherwise. */
  lemma ModelCmdsDraws(layout: Handle, cascadeSet: Handle, model: SceneModel, c: Command)
    requires c.DrawIndexed?
    ensures c in ModelCmds(layout, cascadeSet, model) <==> exists k, j :: ModelNodeDraws([model], 0, k, j, c)
  {
    NodesCmdsDraws(layout, cascadeSet, model, model.linearNodes, c);
    if c in ModelCmds(layout, cascadeSet, model) {
      var k, j :| NodeDraws(model.linearNodes, k, j, c);
      assert ModelNodeDraws([model], 0, k, j, c);
    }
  }

  /** Every draw the models issue is that of a rendered primitive of a rendered model's node. */
  lemma {:induction false} ModelsCmdsSound(layout: Handle, cascadeSet: Handle, models: seq<SceneModel>, c: Command)
    requires c.DrawIndexed? && c in ModelsCmds(layout, cascadeSet, models)
    ensures exists m, k, j :: ModelNodeDraws(models, m, k, j, c)
  {
    var last := |models| - 1;
    var front := models[..last];
    if c in ModelsCmds(layout, cascadeSet, front) {
      ModelsCmdsSound(layout, cascadeSet, front, c);
      var m, k, j :| ModelNodeDraws(front, m, k, j, c);
      assert front[m] == models[m];
      assert ModelNodeDraws(models, m, k, j, c);
    } else {
      ModelCmdsDraws(layout, cascadeSet, models[last], c);
      var k, j :| ModelNodeDraws([models[last]], 0, k, j, c);
      assert ModelNodeDraws(models, last, k, j, c);
    }
  }

  /** Every rendered primitive of a rendered model's node is drawn. */
  lemma {:induction false} ModelsCmdsComplete(layout: Handle, cascadeSet: Handle, models: seq<SceneModel>,
                                              m: int, k: int, j: int, c: Command)
    requires c.DrawIndexed? && ModelNodeDraws(models, m, k, j, c)
    ensures c in ModelsCmds(layout, cascadeSet, models)
  {
    var last := |models| - 1;
    var front := models[..last];
    if m < last {
      assert front[m] == models[m];
      ModelsCmdsComplete(layout, cascadeSet, front, m, k, j, c);
    } else {
      assert ModelNodeDraws([models[last]], 0, k, j, c);
      ModelCmdsDraws(layout, cascadeSet, models[last], c);
    }
  }

  /** Each cascade's buffer draws exactly the rendered primitives of the meshes of the
      rendered models' nodes, each with the offsets of its mesh and its own added. */
  lemma CascadeDrawsExactly(sh: ShadowsPass, i: nat, imageCount: nat, imageIndex: nat, models: seq<SceneModel>, c: Command)
    requires i < |sh.descriptorSets| && FramebufferIndex(i, imageCount, imageIndex) < |sh.frameBuffers|
    requires c.DrawIndexed?
    ensures c in CascadeCmds(sh, i, imageCount, imageIndex, models) <==> exists m, k, j :: ModelNodeDraws(models, m, k, j, c)
  {
    var cascadeSet := sh.descriptorSets[i];
    assert c in CascadeCmds(sh, i, imageCount, imageIndex, models) <==> c in ModelsCmds(sh.layout, cascadeSet, models);
    if c in ModelsCmds(sh.layout, cascadeSet, models) {
      ModelsCmdsSound(sh.layout, cascadeSet, models, c);
    }
    if exists m, k, j :: ModelNodeDraws(models, m, k, j, c) {
      var m, k, j :| ModelNodeDraws(models, m, k, j, c);
      ModelsCmdsComplete(sh.layout, cascadeSet, models, m, k, j, c);
    }
  }

  method RecordPrimitives(mesh: NodeMesh) returns (cmds: seq<Command>)
    ensures cmds == PrimitiveDraws(mesh, mesh.primitives)
  {
    var ps := mesh.primitives;
    cmds := [];
    var k := 0;
    while k < |ps|
      invariant k <= |ps| && cmds == PrimitiveDraws(mesh, ps[..k])
    {
      assert ps[..k + 1][..k] == ps[..k];
      if ps[k].render {
        cmds := cmds + [DrawOf(mesh, ps[k])];
      }
      k := k + 1;
    }
    assert ps[..k] == ps;
  }

  /** The commands of one node: with a mesh, the descriptor sets bound, then its primitives. */
  method RecordNode(layout: Handle, cascadeSet: Handle, model: SceneModel, node: Node) returns (cmds: seq<Command>)
    ensures cmds == NodeCmds(layout, cascadeSet, model, node)
  {
    cmds := [];
    if node.mesh.Some? {
      var mesh := node.mesh.value;
      var draws := RecordPrimitives(mesh);
      cmds := [BindDescriptorSets(layout, [cascadeSet, mesh.descriptorSet, model.descriptorSet], [])] + draws;
    }
  }

  lemma NodesStep(layout: Handle, cascadeSet: Handle, model: SceneModel, nodes: seq<Node>, k: nat)
    requires k < |nodes|
    ensures NodesCmds(layout, cascadeSet, model, nodes[..k + 1]) ==
      NodesCmds(layout, cascadeSet, model, nodes[..k]) + NodeCmds(layout, cascadeSet, model, nodes[k])
  {
    assert nodes[..k + 1][..k] == nodes[..k];
  }

  method RecordNodes(layout: Handle, cascadeSet: Handle, model: SceneModel) returns (cmds: seq<Command>)
    ensures cmds == NodesCmds(layout, cascadeSet, model, model.linearNodes)
  {
    var nodes := model.linearNodes;
    cmds := [];
    var k := 0;
    while k < |nodes|
      invariant k <= |nodes| && cmds == NodesCmds(layout, cascadeSet, model, nodes[..k])
    {
      NodesStep(layout, cascadeSet, model, nodes, k);
      var part := RecordNode(layout, cascadeSet, model, nodes[k]);
      cmds := cmds + part;
      k := k + 1;
    }
    assert nodes[..k] == nodes;
  }

  lemma ModelsStep(layout: Handle, cascadeSet: Handle, models: seq<SceneModel>, m: nat)
    requires m < |models|
    ensures ModelsCmds(layout, cascadeSet, models[..m + 1]) ==
      ModelsCmds(layout, cascadeSet, models[..m]) + ModelCmds(layout, cascadeSet, models[m])
  {
    assert models[..m + 1][..m] == models[..m];
  }

  /** One model: when it is rendered, its buffers bound and its nodes recorded. */
  method RecordModel(layout: Handle, cascadeSet: Handle, model: SceneModel) returns (cmds: seq<Command>)
    ensures cmds == ModelCmds(layout, cascadeSet, model)
  {
    cmds := [];
    if model.render {
      var nodes := RecordNodes(layout, cascadeSet, model);
      cmds := [BindVertexBuffer(model.vertexBuffer), BindIndexBuffer(model.indexBuffer)] + nodes;
    }
  }

  method RecordModels(layout: Handle, cascadeSet: Handle, models: seq<SceneModel>) returns (cmds: seq<Command>)
    ensures cmds == ModelsCmds(layout, cascadeSet, models)
  {
    cmds := [];
    var m := 0;
    while m < |models|
      invariant m <= |models| && cmds == ModelsCmds(layout, cascadeSet, models[..m])
    {
      ModelsStep(layout, cascadeSet, models, m);
      var part := RecordModel(layout, cascadeSet, models[m]);
      cmds := cmds + part;
      m := m + 1;
    }
    assert models[..m] == models;
  }

  method RecordCascade(sh: ShadowsPass, i: nat, imageCount: nat, imageIndex: nat, models: seq<SceneModel>)
    returns (cmds: seq<Command>)
    requires i < |sh.descriptorSets| && FramebufferIndex(i, imageCount, imageIndex) < |sh.frameBuffers|
    ensures cmds == CascadeCmds(sh, i, imageCount, imageIndex, models)
  {
    var framebuffer := sh.frameBuffers[i * imageCount + imageIndex];
    var body := RecordModels(sh.layout, sh.descriptorSets[i], models);
    cmds := [BeginCommandBuffer, MetricStart(10 + i), SetDepthBias,
             BeginRenderPass(sh.renderPass, framebuffer), BindPipeline(sh.pipeline)]
            + body + [EndRenderPass, MetricEnd(10 + i), EndCommandBuffer];
  }

  /** The loop of recordShadowsCmds: the command buffer of each cascade is recorded anew; the
      buffers past the last cascade keep what they held. */
  method RecordCascades(sh: ShadowsPass, imageCount: nat, imageIndex: nat, models: seq<SceneModel>,
                        buffers: seq<seq<Command>>) returns (recorded: seq<seq<Command>>)
    requires sh.cascades <= |sh.descriptorSets| && sh.cascades <= |buffers|
    requires forall i :: 0 <= i < sh.cascades ==> FramebufferIndex(i, imageCount, imageIndex) < |sh.frameBuffers|
    ensures |recorded| == |buffers|
    ensures forall i :: 0 <= i < sh.cascades ==> recorded[i] == CascadeCmds(sh, i, imageCount, imageIndex, models)
    ensures forall i :: sh.cascades <= i < |buffers| ==> recorded[i] == buffers[i]
  {
    recorded := buffers;
    var i := 0;
    while i < sh.cascades
      invariant i <= sh.cascades && |recorded| == |buffers|
      invariant forall k :: 0 <= k < i ==> recorded[k] == CascadeCmds(sh, k, imageCount, imageIndex, models)
      invariant forall k :: i <= k < |buffers| ==> recorded[k] == buffers[k]
    {
      var cmds := RecordCascade(sh, i, imageCount, imageIndex, models);
      recorded := recorded[i := cmds];
      i := i + 1;
    }
  }

  // ---------------------------------------------------------------------------------------
  // present
  // ---------------------------------------------------------------------------------------

  datatype QueueKind = ComputeQueue | GraphicsQueue | PresentQueue

  /** What present asks of the queues and the device, in order. Semaphores and fences are
      named by their index in ctx.vulkan.semaphores and ctx.vulkan.fences. */
  datatype SyncOp =
    | RecordCompute
    | Submit(queue: QueueKind, waits: seq<nat>, signals: seq<nat>, fence: Option<nat>)
    | Acquire(signal: nat)
    | RecordShadows(imageIndex: nat)
    | RecordDeferredBuffer(imageIndex: nat)
    | PresentImage(waits: seq<nat>, imageIndex: nat)
    | WaitFence(waitedFence: nat)
    | ResetFence(resetFence: nat)
    | QueueWaitIdle(queue: QueueKind)

  /** The compute dispatch, when use_compute is on: recorded, submitted with fence 1, waited
      for, and the fence reset. */
  function ComputeOps(useCompute: bool): seq<SyncOp>
  {
    if useCompute then [RecordCompute, Submit(ComputeQueue, [], [], Some(1)), WaitFence(1), ResetFence(1)]
    else []
  }

  /** With shadows cast, the acquire signals semaphore 0 and the shadow submit waits on it and
      signals semaphore 1; without, the acquire signals semaphore 1 itself. */
  function AcquireOps(shadowCast: bool, imageIndex: nat): seq<SyncOp>
  {
    if shadowCast then [Acquire(0), RecordShadows(imageIndex), Submit(GraphicsQueue, [0], [1], None)]
    else [Acquire(1)]
  }

  /** The deferred submit waits on semaphore 1, signals semaphore 2 and fence 0; presentation
      waits on semaphore 2; the CPU then waits for fence 0 and resets it. */
  function DrawOps(imageIndex: nat): seq<SyncOp>
  {
    [RecordDeferredBuffer(imageIndex), Submit(GraphicsQueue, [1], [2], Some(0)),
     PresentImage([2], imageIndex), WaitFence(0), ResetFence(0)]
  }

  function OverloadOps(overloadedGPU: bool): seq<SyncOp>
  {
    if overloadedGPU then [QueueWaitIdle(PresentQueue)] else []
  }

  /** One frame of present, once prepared. */
  function PresentOps(useCompute: bool, shadowCast: bool, overloadedGPU: bool, imageIndex: nat): seq<SyncOp>
  {
    ComputeOps(useCompute) + AcquireOps(shadowCast, imageIndex) + DrawOps(imageIndex) + OverloadOps(overloadedGPU)
  }

  /** The binary semaphores that are signalled and not yet waited on, the fences submitted and
      not yet waited for, and the fences that are signalled and not yet reset. */
  datatype SyncState = SyncState(signalled: set<nat>, pendingFences: set<nat>, signalledFences: set<nat>)

  const Idle := SyncState({}, {}, {})

  /** The effect of one operation, or None where Vulkan makes it invalid or it can never
      finish: waiting on a semaphore nothing has signalled, signalling one that is already
      signalled, submitting with a fence in use, waiting for a fence nothing will signal, or
      resetting one still in flight. */
  function Step(st: SyncState, op: SyncOp): Option<SyncState>
  {
    match op
    case Acquire(sem) =>
      if sem in st.signalled then None else Some(st.(signalled := st.signalled + {sem}))
    case Submit(_, waits, signals, fence) =>
      var rest := Consume(st.signalled, waits);
      if !AllIn(waits, st.signalled) || AnyIn(signals, rest) then None
      else if fence.Some? && (fence.value in st.pendingFences || fence.value in st.signalledFences) then None
      else Some(SyncState(Produce(rest, signals),
                          if fence.Some? then st.pendingFences + {fence.value} else st.pendingFences,
                          st.signalledFences))
    case PresentImage(waits, _) =>
      if !AllIn(waits, st.signalled) then None
      else Some(st.(signalled := Consume(st.signalled, waits)))
    case WaitFence(f) =>
      if f in st.pendingFences then
        Some(st.(pendingFences := st.pendingFences - {f}, signalledFences := st.signalledFences + {f}))
      else if f in st.signalledFences then Some(st)
      else None
    case ResetFence(f) =>
      if f in st.pendingFences then None else Some(st.(signalledFences := st.signalledFences - {f}))
    case _ => Some(st)
  }

  predicate AllIn(sems: seq<nat>, signalled: set<nat>)
  {
    forall i :: 0 <= i < |sems| ==> sems[i] in signalled
  }

  predicate AnyIn(sems: seq<nat>, signalled: set<nat>)
  {
    exists i :: 0 <= i < |sems| && sems[i] in signalled
  }

  /** The semaphores left signalled once `sems` are waited on. */
  function Consume(signalled: set<nat>, sems: seq<nat>): (r: set<nat>)
    ensures forall x :: x in r <==> x in signalled && x !in sems
    decreases |sems|
  {
    if sems == [] then signalled else Consume(signalled - {sems[0]}, sems[1..])
  }

  /** The semaphores signalled once `sems` are signalled too. */
  function Produce(signalled: set<nat>, sems: seq<nat>): (r: set<nat>)
    ensures forall x :: x in r <==> x in signalled || x in sems
    decreases |sems|
  {
    if sems == [] then signalled else Produce(signalled + {sems[0]}, sems[1..])
  }

  /** The state after `ops` in order, or None if one of them is invalid from where it runs. */
  function Run(st: SyncState, ops: seq<SyncOp>): Option<SyncState>
    decreases |ops|
  {
    if ops == [] then Some(st)
    else
      var next := Step(st, ops[0]);
      if next.None? then None else Run(next.value, ops[1..])
  }

  /** `r` is a valid step to `st`, compared semaphore by semaphore and fence by fence. */
  predicate SameState(r: Option<SyncState>, st: SyncState)
  {
    r.Some? && r.value.signalled == st.signalled && r.value.pendingFences == st.pendingFences
    && r.value.signalledFences == st.signalledFences
  }

  lemma {:induction false} RunAppend(st: SyncState, a: seq<SyncOp>, b: seq<SyncOp>)
    ensures Run(st, a + b) == if Run(st, a).None? then None else Run(Run(st, a).value, b)
    decreases |a|
  {
    if a == [] {
      assert a + b == b;
    } else {
      assert (a + b)[0] == a[0] && (a + b)[1..] == a[1..] + b;
      var next := Step(st, a[0]);
      if next.Some? {
        RunAppend(next.value, a[1..], b);
      }
    }
  }

  /** A frame of present is correctly synchronised: every operation is valid where it runs, and
      the frame ends with no semaphore left signalled and no fence in flight or signalled, so
      the next frame starts from the same state, whatever the switches. */
  lemma PresentIsSynchronised(useCompute: bool, shadowCast: bool, overloadedGPU: bool, imageIndex: nat)
    ensures Run(Idle, PresentOps(useCompute, shadowCast, overloadedGPU, imageIndex)) == Some(Idle)
  {
    var c, a, d, o := ComputeOps(useCompute), AcquireOps(shadowCast, imageIndex), DrawOps(imageIndex), OverloadOps(overloadedGPU);
    var afterAcquire := SyncState({1}, {}, {});
    ComputeFromIdle(useCompute);
    AcquireFromIdle(shadowCast, imageIndex);
    DrawFromAcquired(imageIndex);
    RunAppend(Idle, c, a);
    RunAppend(Idle, c + a, d);
    RunAppend(Idle, c + a + d, o);
  }

  lemma ComputeFromIdle(useCompute: bool)
    ensures Run(Idle, ComputeOps(useCompute)) == Some(Idle)
  {
    if useCompute {
      var s1 := SyncState({}, {1}, {});
      var s2 := SyncState({}, {}, {1});
      var ops := ComputeOps(true);
      RunStep(Idle, ops, Idle);
      RunStep(Idle, ops[1..], s1);
      RunStep(s1, ops[2..], s2);
      RunStep(s2, ops[3..], Idle);
    }
  }

  lemma AcquireFromIdle(shadowCast: bool, imageIndex: nat)
    ensures Run(Idle, AcquireOps(shadowCast, imageIndex)) == Some(SyncState({1}, {}, {}))
  {
    var ops := AcquireOps(shadowCast, imageIndex);
    if shadowCast {
      var s0 := SyncState({0}, {}, {});
      RunStep(Idle, ops, s0);
      RunStep(s0, ops[1..], s0);
      RunStep(s0, ops[2..], SyncState({1}, {}, {}));
    } else {
      RunStep(Idle, ops, SyncState({1}, {}, {}));
    }
  }

  lemma DrawFromAcquired(imageIndex: nat)
    ensures Run(SyncState({1}, {}, {}), DrawOps(imageIndex)) == Some(Idle)
  {
    var ops := DrawOps(imageIndex);
    var s1 := SyncState({1}, {}, {});
    var s2 := SyncState({2}, {0}, {});
    var s3 := SyncState({}, {0}, {});
    var s4 := SyncState({}, {}, {0});
    RunStep(s1, ops, s1);
    RunStep(s1, ops[1..], s2);
    RunStep(s2, ops[2..], s3);
    RunStep(s3, ops[3..], s4);
    RunStep(s4, ops[4..], Idle);
  }

  /** One valid step, then the rest; `ops` past the last step is empty. */
  lemma RunStep(st: SyncState, ops: seq<SyncOp>, next: SyncState)
    requires |ops| > 0 && SameState(Step(st, ops[0]), next)
    ensures Run(st, ops) == Run(next, ops[1..])
    ensures |ops| == 1 ==> Run(st, ops) == Some(next)
  {
  }

  /** What recordShadowsCmds needs of its inputs: a descriptor set and a command buffer for
      every cascade, and every cascade's framebuffer for this image. */
  predicate ShadowsReady(sh: ShadowsPass, imageCount: nat, imageIndex: nat, buffers: nat)
  {
    sh.cascades <= |sh.descriptorSets| && sh.cascades <= buffers
    && forall i :: 0 <= i < sh.cascades ==> FramebufferIndex(i, imageCount, imageIndex) < |sh.frameBuffers|
  }

  /** The shadow command buffers after recordShadowsCmds: each cascade's buffer recorded
      anew, the rest as they were. */
  function ShadowBuffers(sh: ShadowsPass, imageCount: nat, imageIndex: nat, models: seq<SceneModel>,
                         buffers: seq<seq<Command>>): (r: seq<seq<Command>>)
    requires ShadowsReady(sh, imageCount, imageIndex, |buffers|)
    ensures |r| == |buffers|
  {
    seq(|buffers|, i requires 0 <= i < |buffers| =>
      if i < sh.cascades then CascadeCmds(sh, i, imageCount, imageIndex, models) else buffers[i])
  }

  /** The Renderer's per-frame state: GUI::dSetNeedsUpdate, the bloom framebuffers, what the
      maintenance block asked of the device, the contents of the dynamic (deferred) command
      buffer and of the shadow command buffers, `prepared`, and the log of what present asks
      of the queues. */
  class Renderer {
    var dSetNeedsUpdate: bool
    var bloomFrameBuffers: seq<Handle>
    var maintenance: seq<Maintenance>
    var dynamicCmds: seq<Recorded>
    var shadowCmds: seq<seq<Command>>
    var prepared: bool
    var syncLog: seq<SyncOp>

    /** The constructor: once the context is initialised (given here by the bloom framebuffers
        and the number of shadow command buffers it created), the renderer is prepared. */
    constructor (fbs: seq<Handle>, shadowBufferCount: nat)
      ensures !dSetNeedsUpdate && bloomFrameBuffers == fbs && maintenance == [] && dynamicCmds == []
      ensures shadowCmds == Repeat([], shadowBufferCount) && prepared && syncLog == []
    {
      dSetNeedsUpdate, bloomFrameBuffers, maintenance, dynamicCmds := false, fbs, [], [];
      shadowCmds, prepared, syncLog := Repeat([], shadowBufferCount), true, [];
    }

    /** recordDeferredCmds for `n` loaded models; `newBloom` is what createBloomFrameBuffers
        returns when the descriptor sets must be rebuilt. */
    method RecordDeferredCmds(t: Toggles, n: nat, newBloom: seq<Handle>)
      modifies this
      ensures dynamicCmds == DeferredCmds(t, n) && !dSetNeedsUpdate
      ensures maintenance == old(maintenance) + (if old(dSetNeedsUpdate) then RebuildOps(old(bloomFrameBuffers)) else [])
      ensures bloomFrameBuffers == if old(dSetNeedsUpdate) then newBloom else old(bloomFrameBuffers)
      ensures shadowCmds == old(shadowCmds) && prepared == old(prepared) && syncLog == old(syncLog)
    {
      if dSetNeedsUpdate {
        var ops := RebuildBloom(bloomFrameBuffers);
        maintenance := maintenance + ops;
        bloomFrameBuffers := newBloom;
        dSetNeedsUpdate := false;
      }
      dynamicCmds := RecordDeferred(t, n);
    }

    /** Two frames in a row rebuild the bloom framebuffers at most once: the first clears the flag. */
    method RecordDeferredTwice(t: Toggles, n: nat, newBloom: seq<Handle>, newerBloom: seq<Handle>)
      modifies this
      ensures maintenance == old(maintenance) + (if old(dSetNeedsUpdate) then RebuildOps(old(bloomFrameBuffers)) else [])
      ensures bloomFrameBuffers == if old(dSetNeedsUpdate) then newBloom else old(bloomFrameBuffers)
      ensures dynamicCmds == DeferredCmds(t, n)
    {
      RecordDeferredCmds(t, n, newBloom);
      RecordDeferredCmds(t, n, newerBloom);
    }

    /** recordShadowsCmds for swapchain image `imageIndex` of `imageCount`. */
    method RecordShadowsCmds(sh: ShadowsPass, imageCount: nat, imageIndex: nat, models: seq<SceneModel>)
      requires ShadowsReady(sh, imageCount, imageIndex, |shadowCmds|)
      modifies this
      ensures shadowCmds == ShadowBuffers(sh, imageCount, imageIndex, models, old(shadowCmds))
      ensures dSetNeedsUpdate == old(dSetNeedsUpdate) && bloomFrameBuffers == old(bloomFrameBuffers)
      ensures maintenance == old(maintenance) && dynamicCmds == old(dynamicCmds)
      ensures prepared == old(prepared) && syncLog == old(syncLog)
    {
      var recorded := RecordCascades(sh, imageCount, imageIndex, models, shadowCmds);
      assert recorded == ShadowBuffers(sh, imageCount, imageIndex, models, shadowCmds);
      shadowCmds := recorded;
    }

    /** present: nothing before the renderer is prepared; then the compute dispatch when
        use_compute is on, the image acquired (with the shadow buffers recorded and submitted
        between when shadows are cast), the deferred buffer recorded and submitted,
        presentation, the wait for the frame's fence, and the present queue drained when the
        GPU is marked overloaded. `imageIndex` is what acquireNextImageKHR returns. */
    method Present(t: Toggles, useCompute: bool, overloadedGPU: bool, imageIndex: nat,
                   sh: ShadowsPass, imageCount: nat, models: seq<SceneModel>, newBloom: seq<Handle>)
      requires prepared && t.shadowCast ==> ShadowsReady(sh, imageCount, imageIndex, |shadowCmds|)
      modifies this
      ensures !old(prepared) ==>
        syncLog == old(syncLog) && dynamicCmds == old(dynamicCmds) && shadowCmds == old(shadowCmds)
        && maintenance == old(maintenance) && dSetNeedsUpdate == old(dSetNeedsUpdate)
      ensures old(prepared) ==>
        syncLog == old(syncLog) + PresentOps(useCompute, t.shadowCast, overloadedGPU, imageIndex)
        && dynamicCmds == DeferredCmds(t, |models|) && !dSetNeedsUpdate
        && maintenance == old(maintenance) + (if old(dSetNeedsUpdate) then RebuildOps(old(bloomFrameBuffers)) else [])
        && shadowCmds == (if t.shadowCast then ShadowBuffers(sh, imageCount, imageIndex, models, old(shadowCmds))
                          else old(shadowCmds))
      ensures bloomFrameBuffers == if old(prepared) && old(dSetNeedsUpdate) then newBloom else old(bloomFrameBuffers)
      ensures prepared == old(prepared)
    {
      if !prepared {
        return;
      }
      var computeOps: seq<SyncOp> := [];
      if useCompute {
        computeOps := [RecordCompute, Submit(ComputeQueue, [], [], Some(1)), WaitFence(1), ResetFence(1)];
      }
      var acquireOps: seq<SyncOp>;
      if t.shadowCast {
        acquireOps := [Acquire(0)];
        RecordShadowsCmds(sh, imageCount, imageIndex, models);
        acquireOps := acquireOps + [RecordShadows(imageIndex), Submit(GraphicsQueue, [0], [1], None)];
      } else {
        acquireOps := [Acquire(1)];
      }
      assert computeOps == ComputeOps(useCompute) && acquireOps == AcquireOps(t.shadowCast, imageIndex);
      RecordDeferredCmds(t, |models|, newBloom);
      var drawOps := [RecordDeferredBuffer(imageIndex), Submit(GraphicsQueue, [1], [2], Some(0)),
                      PresentImage([2], imageIndex), WaitFence(0), ResetFence(0)];
      var overloadOps: seq<SyncOp> := [];
      if overloadedGPU {
        overloadOps := [QueueWaitIdle(PresentQueue)];
      }
      assert overloadOps == OverloadOps(overloadedGPU);
      var ops := computeOps + acquireOps + drawOps + overloadOps;
      syncLog := syncLog + ops;
    }
  }
}
