/** Models (Code/Model/Model.cpp): how loadModel flattens an imported scene into meshes,
    orders them, gives each its offsets into the shared vertex and index buffers, how the
    buffers are concatenated, what draw records, and what destroy releases. */
module Models {
  import opened Vulkan
  import opened Seqs

  const U32Modulus: nat := 0x1_0000_0000

  /** uint32_t. */
  type U32 = x: int | 0 <= x < 0x1_0000_0000

  /** The wrap-around of a uint32_t sum or product: x modulo 2^32. */
  function Wrap(x: nat): U32
  {
    x % U32Modulus
  }

  /** A value that fits in a uint32_t does not wrap. */
  lemma WrapSmall(x: nat)
    requires x < U32Modulus
    ensures Wrap(x) == x
  {
  }

  // ---------------------------------------------------------------------------------------
  // The imported scene (the parts of aiScene that loadModel reads)
  // ---------------------------------------------------------------------------------------

  datatype AiFace = AiFace(indices: seq<U32>)

  /** An imported mesh: its vertex count, its faces, and whether its material brings an
      opacity map (which is what sets Mesh::hasAlpha when the textures are loaded). */
  datatype AiMesh = AiMesh(numVertices: nat, faces: seq<AiFace>, hasAlpha: bool)

  /** A scene node: indices into the scene's mesh array, and the child nodes in order. */
  datatype AiNode = AiNode(meshes: seq<nat>, children: seq<AiNode>)

  datatype AiScene = AiScene(root: AiNode, meshes: seq<AiMesh>)

  /** getAllNodes: the children's subtrees in index order, then the node itself. */
  function AllNodes(root: AiNode): seq<AiNode>
    decreases root, 1
  {
    ChildrenNodes(root.children) + [root]
  }

  function ChildrenNodes(cs: seq<AiNode>): seq<AiNode>
    decreases cs, 0
  {
    if cs == [] then [] else ChildrenNodes(cs[..|cs| - 1]) + AllNodes(cs[|cs| - 1])
  }

  /** The number of nodes of a tree, counted independently of the traversal. */
  function Size(n: AiNode): nat
    decreases n, 1
  {
    1 + ChildrenSize(n.children)
  }

  function ChildrenSize(cs: seq<AiNode>): nat
    decreases cs, 0
  {
    if cs == [] then 0 else ChildrenSize(cs[..|cs| - 1]) + Size(cs[|cs| - 1])
  }

  /** x is the node n or a node of one of its children's subtrees. */
  predicate InTree(x: AiNode, n: AiNode)
    decreases n
  {
    x == n || exists i :: 0 <= i < |n.children| && InTree(x, n.children[i])
  }

  /** getAllNodes visits every node once: as many entries as the tree has nodes. */
  lemma {:induction false} AllNodesSize(n: AiNode)
    ensures |AllNodes(n)| == Size(n)
    decreases n, 1
  {
    ChildrenNodesSize(n.children);
  }

  lemma {:induction false} ChildrenNodesSize(cs: seq<AiNode>)
    ensures |ChildrenNodes(cs)| == ChildrenSize(cs)
    decreases cs, 0
  {
    if cs != [] {
      ChildrenNodesSize(cs[..|cs| - 1]);
      AllNodesSize(cs[|cs| - 1]);
    }
  }

  /** getAllNodes lists exactly the nodes of the tree. */
  lemma {:induction false} AllNodesMembers(n: AiNode, x: AiNode)
    ensures x in AllNodes(n) <==> InTree(x, n)
    decreases n, 1
  {
    ChildrenNodesMembers(n.children, x);
  }

  lemma {:induction false} ChildrenNodesMembers(cs: seq<AiNode>, x: AiNode)
    ensures x in ChildrenNodes(cs) <==> exists i :: 0 <= i < |cs| && InTree(x, cs[i])
    decreases cs, 0
  {
    if cs != [] {
      var cs', c := cs[..|cs| - 1], cs[|cs| - 1];
      ChildrenNodesMembers(cs', x);
      AllNodesMembers(c, x);
      if exists i :: 0 <= i < |cs| && InTree(x, cs[i]) {
        var i :| 0 <= i < |cs| && InTree(x, cs[i]);
        if i < |cs'| {
          assert cs'[i] == cs[i];
        }
      }
      if exists i :: 0 <= i < |cs'| && InTree(x, cs'[i]) {
        var i :| 0 <= i < |cs'| && InTree(x, cs'[i]);
        assert cs[i] == cs'[i];
      }
    }
  }

  /** Post-order: every entry of the traversal is immediately preceded by the rest of its own
      subtree, in traversal order. In particular the root comes last. */
  lemma {:induction false} AllNodesPostOrder(n: AiNode, k: nat)
    requires k < |AllNodes(n)|
    ensures var x := AllNodes(n)[k];
      Size(x) <= k + 1 && AllNodes(n)[k + 1 - Size(x)..k + 1] == AllNodes(x)
    decreases n, 1
  {
    var cn := ChildrenNodes(n.children);
    if k == |cn| {
      AllNodesSize(n);
      assert AllNodes(n)[0..k + 1] == AllNodes(n);
    } else {
      ChildrenPostOrder(n.children, k);
      var x := cn[k];
      assert AllNodes(n)[k + 1 - Size(x)..k + 1] == cn[k + 1 - Size(x)..k + 1];
    }
  }

  lemma {:induction false} ChildrenPostOrder(cs: seq<AiNode>, k: nat)
    requires k < |ChildrenNodes(cs)|
    ensures Size(ChildrenNodes(cs)[k]) <= k + 1
    ensures var x := ChildrenNodes(cs)[k]; ChildrenNodes(cs)[k + 1 - Size(x)..k + 1] == AllNodes(x)
    decreases cs, 0
  {
    var cs', c := cs[..|cs| - 1], cs[|cs| - 1];
    var front, back := ChildrenNodes(cs'), AllNodes(c);
    assert ChildrenNodes(cs) == front + back;
    if k < |front| {
      ChildrenPostOrder(cs', k);
      var x := front[k];
      assert (front + back)[k] == x;
      SliceFront(front, back, k + 1 - Size(x), k + 1);
    } else {
      var k' := k - |front|;
      AllNodesPostOrder(c, k');
      var x := back[k'];
      assert (front + back)[k] == x;
      SliceBack(front, back, k + 1 - Size(x), k + 1, k' + 1 - Size(x), k' + 1);
    }
  }

  /** Children in index order: the subtree of child i occupies the block right after the
      subtrees of children 0..i-1. */
  lemma {:induction false} ChildBlock(n: AiNode, i: nat)
    requires i < |n.children|
    ensures var start := ChildrenSize(n.children[..i]);
      start + Size(n.children[i]) < |AllNodes(n)| &&
      AllNodes(n)[start..start + Size(n.children[i])] == AllNodes(n.children[i])
  {
    ChildrenBlock(n.children, i);
    ChildrenNodesSize(n.children);
    var start := ChildrenSize(n.children[..i]);
    assert AllNodes(n)[start..start + Size(n.children[i])] ==
      ChildrenNodes(n.children)[start..start + Size(n.children[i])];
  }

  lemma {:induction false} ChildrenBlock(cs: seq<AiNode>, i: nat)
    requires i < |cs|
    ensures var start := ChildrenSize(cs[..i]);
      start + Size(cs[i]) <= |ChildrenNodes(cs)| &&
      ChildrenNodes(cs)[start..start + Size(cs[i])] == AllNodes(cs[i])
    decreases |cs|
  {
    var cs', c := cs[..|cs| - 1], cs[|cs| - 1];
    ChildrenNodesSize(cs');
    AllNodesSize(c);
    var all := ChildrenNodes(cs);
    assert all == ChildrenNodes(cs') + AllNodes(c);
    if i == |cs| - 1 {
      assert cs[..i] == cs';
      assert all[|ChildrenNodes(cs')|..] == AllNodes(c);
    } else {
      ChildrenBlock(cs', i);
      assert cs'[..i] == cs[..i] && cs'[i] == cs[i];
      var start := ChildrenSize(cs[..i]);
      assert all[start..start + Size(cs[i])] == ChildrenNodes(cs')[start..start + Size(cs[i])];
    }
  }

  // ---------------------------------------------------------------------------------------
  // Meshes
  // ---------------------------------------------------------------------------------------

  /** The j-th vertex of scene mesh `sceneMesh`. Its position, normal, uv, tangents and colour
      are float data this model does not represent. */
  datatype Vertex = ImportedVertex(sceneMesh: nat, index: nat)

  datatype Mesh = Mesh(vertices: seq<Vertex>, indices: seq<U32>, hasAlpha: bool,
                       vertexOffset: U32, indexOffset: U32, render: bool, cull: bool,
                       descriptorSet: Handle)

  /** A default-constructed Mesh. Mesh.h is not part of this model; the defaults assumed are
      a visible, unculled mesh with no data and no descriptor set. */
  const NewMesh := Mesh([], [], false, 0, 0, true, false, Null)

  /** The import asks for triangulation, and loadModel asserts three indices per face. */
  predicate Triangulated(m: AiMesh)
  {
    forall i :: 0 <= i < |m.faces| ==> |m.faces[i].indices| == 3
  }

  /** What loadModel relies on: triangulated meshes, and node mesh indices that exist. */
  predicate WellFormed(scene: AiScene)
  {
    (forall k :: 0 <= k < |scene.meshes| ==> Triangulated(scene.meshes[k])) &&
    (forall x :: x in AllNodes(scene.root) ==> forall i :: 0 <= i < |x.meshes| ==> x.meshes[i] < |scene.meshes|)
  }

  /** The vertices 0..n-1 of scene mesh `sceneMesh`, in order. */
  function MeshVertices(sceneMesh: nat, n: nat): seq<Vertex>
  {
    if n == 0 then [] else MeshVertices(sceneMesh, n - 1) + [ImportedVertex(sceneMesh, n - 1)]
  }

  function FaceIndices(f: AiFace): seq<U32>
  {
    f.indices
  }

  /** The Mesh that loadModel builds from scene mesh `idx`. An index outside the scene's mesh
      array is excluded by WellFormed; it yields an empty mesh here only to keep this total. */
  function ImportedMesh(scene: AiScene, idx: nat): Mesh
  {
    if idx < |scene.meshes| then
      var m := scene.meshes[idx];
      NewMesh.(vertices := MeshVertices(idx, m.numVertices),
               indices := FlatMap(m.faces, FaceIndices),
               hasAlpha := m.hasAlpha)
    else NewMesh
  }

  function MeshImporter(scene: AiScene): nat -> seq<Mesh>
  {
    (idx: nat) => [ImportedMesh(scene, idx)]
  }

  /** One Mesh per mesh reference of the node, in reference order. */
  function NodeImporter(scene: AiScene): AiNode -> seq<Mesh>
  {
    (node: AiNode) => FlatMap(node.meshes, MeshImporter(scene))
  }

  /** f_meshes before the sort: the meshes of every node, nodes in getAllNodes order. */
  function SceneMeshes(scene: AiScene): seq<Mesh>
  {
    FlatMap(AllNodes(scene.root), NodeImporter(scene))
  }

  lemma {:induction false} MeshVerticesShape(sceneMesh: nat, n: nat)
    ensures |MeshVertices(sceneMesh, n)| == n
    ensures forall j :: 0 <= j < n ==> MeshVertices(sceneMesh, n)[j] == ImportedVertex(sceneMesh, j)
  {
    if n > 0 {
      MeshVerticesShape(sceneMesh, n - 1);
    }
  }

  lemma {:induction false} FaceIndicesShape(faces: seq<AiFace>)
    requires forall i :: 0 <= i < |faces| ==> |faces[i].indices| == 3
    ensures |FlatMap(faces, FaceIndices)| == 3 * |faces|
    ensures forall i, c :: 0 <= i < |faces| && 0 <= c < 3 ==>
      FlatMap(faces, FaceIndices)[3 * i + c] == faces[i].indices[c]
    decreases |faces|
  {
    if faces != [] {
      var faces' := faces[..|faces| - 1];
      FaceIndicesShape(faces');
      forall i, c | 0 <= i < |faces| && 0 <= c < 3
        ensures FlatMap(faces, FaceIndices)[3 * i + c] == faces[i].indices[c]
      {
        if i < |faces'| {
          assert faces'[i] == faces[i];
        }
      }
    }
  }

  /** A mesh gets one vertex per imported vertex, j-th vertex in place j, and three indices per
      face, face by face, in the order the face lists them. */
  lemma ImportedMeshShape(scene: AiScene, idx: nat)
    requires idx < |scene.meshes| && Triangulated(scene.meshes[idx])
    ensures var m := ImportedMesh(scene, idx);
      var a := scene.meshes[idx];
      |m.vertices| == a.numVertices &&
      (forall j :: 0 <= j < a.numVertices ==> m.vertices[j] == ImportedVertex(idx, j)) &&
      |m.indices| == 3 * |a.faces| &&
      (forall i, c :: 0 <= i < |a.faces| && 0 <= c < 3 ==> m.indices[3 * i + c] == a.faces[i].indices[c]) &&
      m.hasAlpha == a.hasAlpha
  {
    MeshVerticesShape(idx, scene.meshes[idx].numVertices);
    FaceIndicesShape(scene.meshes[idx].faces);
  }

  /** The body of the node loop: one vertex per mVertices entry, three indices per face. */
  method ImportMesh(scene: AiScene, idx: nat) returns (m: Mesh)
    requires idx < |scene.meshes| && Triangulated(scene.meshes[idx])
    ensures m == ImportedMesh(scene, idx)
  {
    var mesh := scene.meshes[idx];
    var vertices: seq<Vertex> := [];
    var j := 0;
    while j < mesh.numVertices
      invariant j <= mesh.numVertices
      invariant vertices == MeshVertices(idx, j)
    {
      vertices := vertices + [ImportedVertex(idx, j)];
      j := j + 1;
    }
    var indices: seq<U32> := [];
    var i := 0;
    while i < |mesh.faces|
      invariant i <= |mesh.faces|
      invariant indices == FlatMap(mesh.faces[..i], FaceIndices)
    {
      var face := mesh.faces[i];
      assert |face.indices| == 3;
      indices := indices + [face.indices[0]];
      indices := indices + [face.indices[1]];
      indices := indices + [face.indices[2]];
      assert face.indices == [face.indices[0], face.indices[1], face.indices[2]];
      FlatMapPrefix(mesh.faces, i, FaceIndices);
      i := i + 1;
    }
    assert mesh.faces[..i] == mesh.faces;
    m := NewMesh.(vertices := vertices, indices := indices, hasAlpha := mesh.hasAlpha);
  }

  /** The node loop of loadModel: the meshes of every node in getAllNodes order. */
  method CollectMeshes(scene: AiScene) returns (fMeshes: seq<Mesh>)
    requires WellFormed(scene)
    ensures fMeshes == SceneMeshes(scene)
  {
    var allNodes := AllNodes(scene.root);
    fMeshes := [];
    var n := 0;
    while n < |allNodes|
      invariant n <= |allNodes|
      invariant fMeshes == FlatMap(allNodes[..n], NodeImporter(scene))
    {
      var node := allNodes[n];
      assert node in allNodes;
      ghost var before := fMeshes;
      var i := 0;
      while i < |node.meshes|
        invariant i <= |node.meshes|
        invariant fMeshes == before + FlatMap(node.meshes[..i], MeshImporter(scene))
      {
        var idx := node.meshes[i];
        var m := ImportMesh(scene, idx);
        fMeshes := fMeshes + [m];
        FlatMapPrefix(node.meshes, i, MeshImporter(scene));
        i := i + 1;
      }
      assert node.meshes[..i] == node.meshes;
      FlatMapPrefix(allNodes, n, NodeImporter(scene));
      n := n + 1;
    }
    assert allNodes[..n] == allNodes;
  }

  /** Sorted by the comparator `a.hasAlpha < b.hasAlpha`: no alpha mesh precedes a mesh
      without alpha. */
  predicate AlphaLast(s: seq<Mesh>)
  {
    forall i, j :: 0 <= i < j < |s| ==> InAlphaOrder(s, i, j)
  }

  predicate InAlphaOrder(s: seq<Mesh>, i: nat, j: nat)
    requires i < |s| && j < |s|
  {
    s[i].hasAlpha ==> s[j].hasAlpha
  }

  /** std::sort of f_meshes by hasAlpha. Only the guarantees of std::sort are stated: a
      permutation that is ordered by the comparator; the order within each group is unspecified. */
  method SortByAlpha(a: array<Mesh>)
    modifies a
    ensures multiset(a[..]) == multiset(old(a[..]))
    ensures AlphaLast(a[..])
  {
    var k := 0;
    var i := 0;
    while i < a.Length
      invariant 0 <= k <= i <= a.Length
      invariant forall x :: 0 <= x < k ==> !a[x].hasAlpha
      invariant forall x :: k <= x < i ==> a[x].hasAlpha
      invariant multiset(a[..]) == multiset(old(a[..]))
    {
      if !a[i].hasAlpha {
        a[k], a[i] := a[i], a[k];
        k := k + 1;
      }
      i := i + 1;
    }
  }

  /** f_meshes as loadModel leaves it before the offset loop: the meshes of every node,
      sorted so that no alpha mesh precedes a mesh without alpha. */
  method ImportScene(scene: AiScene) returns (ordered: seq<Mesh>)
    requires WellFormed(scene)
    ensures multiset(ordered) == multiset(SceneMeshes(scene)) && AlphaLast(ordered)
  {
    var fMeshes := CollectMeshes(scene);
    var a := new Mesh[|fMeshes|](i requires 0 <= i < |fMeshes| => fMeshes[i]);
    assert a[..] == fMeshes;
    SortByAlpha(a);
    ordered := a[..];
  }

  // ---------------------------------------------------------------------------------------
  // Offsets and buffers
  // ---------------------------------------------------------------------------------------

  function VerticesOf(m: Mesh): seq<Vertex>
  {
    m.vertices
  }

  function IndicesOf(m: Mesh): seq<U32>
  {
    m.indices
  }

  /** The number of vertices, and of indices, of all meshes of s together. */
  function VertexCount(s: seq<Mesh>): nat
  {
    |FlatMap(s, VerticesOf)|
  }

  function IndexCount(s: seq<Mesh>): nat
  {
    |FlatMap(s, IndicesOf)|
  }

  /** The meshes of s as the offset loop of loadModel appends them, with the uint32_t
      counters numberOfVertices and numberOfIndices starting at v0 and i0. */
  function WithOffsets(s: seq<Mesh>, v0: U32, i0: U32): (r: seq<Mesh>)
    ensures |r| == |s|
  {
    if s == [] then [] else
    var s' := s[..|s| - 1];
    WithOffsets(s', v0, i0) + [Placed(s, |s| - 1, v0, i0)]
  }

  /** Mesh k with its offsets: the starting counters plus the vertex and index counts of
      meshes 0..k-1, modulo 2^32. */
  function Placed(s: seq<Mesh>, k: nat, v0: U32, i0: U32): Mesh
    requires k < |s|
  {
    s[k].(vertexOffset := Wrap(v0 + VertexCount(s[..k])), indexOffset := Wrap(i0 + IndexCount(s[..k])))
  }

  /** Mesh k keeps its data, and its offsets are the starting counters plus the vertex and index
      counts of meshes 0..k-1, modulo 2^32. */
  lemma {:induction false} WithOffsetsAt(s: seq<Mesh>, v0: U32, i0: U32, k: nat)
    requires k < |s|
    ensures WithOffsets(s, v0, i0)[k] ==
      s[k].(vertexOffset := Wrap(v0 + VertexCount(s[..k])), indexOffset := Wrap(i0 + IndexCount(s[..k])))
    decreases |s|
  {
    var s' := s[..|s| - 1];
    var last := Placed(s, |s| - 1, v0, i0);
    assert WithOffsets(s, v0, i0) == WithOffsets(s', v0, i0) + [last];
    if k < |s'| {
      calc {
        WithOffsets(s, v0, i0)[k];
      ==
        WithOffsets(s', v0, i0)[k];
      == { WithOffsetsAt(s', v0, i0, k); }
        s'[k].(vertexOffset := Wrap(v0 + VertexCount(s'[..k])), indexOffset := Wrap(i0 + IndexCount(s'[..k])));
      == { assert s'[..k] == s[..k] && s'[k] == s[k]; }
        s[k].(vertexOffset := Wrap(v0 + VertexCount(s[..k])), indexOffset := Wrap(i0 + IndexCount(s[..k])));
      }
    } else {
      assert WithOffsets(s, v0, i0)[k] == last;
    }
  }

  /** A sequence that holds every mesh with its offsets is the offset-assigned sequence. */
  lemma WithOffsetsFromElements(s: seq<Mesh>, v0: U32, i0: U32, placed: seq<Mesh>)
    requires |placed| == |s| && forall j :: 0 <= j < |s| ==> placed[j] == Placed(s, j, v0, i0)
    ensures placed == WithOffsets(s, v0, i0)
  {
    forall j | 0 <= j < |s|
      ensures placed[j] == WithOffsets(s, v0, i0)[j]
    {
      WithOffsetsAt(s, v0, i0, j);
    }
  }

  /** Adding offsets changes no vertex or index data. */
  lemma WithOffsetsKeepsData(s: seq<Mesh>, v0: U32, i0: U32)
    ensures FlatMap(WithOffsets(s, v0, i0), VerticesOf) == FlatMap(s, VerticesOf)
    ensures FlatMap(WithOffsets(s, v0, i0), IndicesOf) == FlatMap(s, IndicesOf)
  {
    var w := WithOffsets(s, v0, i0);
    forall k | 0 <= k < |s|
      ensures VerticesOf(w[k]) == VerticesOf(s[k]) && IndicesOf(w[k]) == IndicesOf(s[k])
    {
      WithOffsetsAt(s, v0, i0, k);
    }
    FlatMapPointwise(w, s, VerticesOf);
    FlatMapPointwise(w, s, IndicesOf);
  }

  /** Every mesh starts where the meshes before it end, counting from 0, modulo 2^32. */
  predicate OffsetsAgree(ms: seq<Mesh>)
  {
    forall k :: 0 <= k < |ms| ==> OffsetsAgreeAt(ms, k)
  }

  predicate OffsetsAgreeAt(ms: seq<Mesh>, k: nat)
    requires k < |ms|
  {
    ms[k].vertexOffset == Wrap(VertexCount(ms[..k])) && ms[k].indexOffset == Wrap(IndexCount(ms[..k]))
  }

  lemma WrapAdd(a: nat, b: nat)
    ensures Wrap(Wrap(a) + b) == Wrap(a + b)
  {
  }

  /** A loadModel that starts from counters equal to the totals so far keeps every mesh's offsets
      equal to the data in front of it, over any number of loaded scenes. */
  lemma AppendKeepsOffsets(ms: seq<Mesh>, s: seq<Mesh>)
    requires OffsetsAgree(ms)
    ensures OffsetsAgree(ms + WithOffsets(s, Wrap(VertexCount(ms)), Wrap(IndexCount(ms))))
  {
    var v0, i0 := Wrap(VertexCount(ms)), Wrap(IndexCount(ms));
    var all := ms + WithOffsets(s, v0, i0);
    forall k | 0 <= k < |all|
      ensures OffsetsAgreeAt(all, k)
    {
      if k < |ms| {
        assert all[..k] == ms[..k];
        assert OffsetsAgreeAt(ms, k);
      } else {
        AppendedOffsetsAt(ms, s, k - |ms|);
      }
    }
  }

  /** Mesh j of the appended scene starts after the old meshes and the first j new ones. */
  lemma AppendedOffsetsAt(ms: seq<Mesh>, s: seq<Mesh>, j: nat)
    requires j < |s|
    ensures var all := ms + WithOffsets(s, Wrap(VertexCount(ms)), Wrap(IndexCount(ms)));
      OffsetsAgreeAt(all, |ms| + j)
  {
    var v0, i0 := Wrap(VertexCount(ms)), Wrap(IndexCount(ms));
    var w := WithOffsets(s, v0, i0);
    PrefixCounts(ms, s, v0, i0, j);
    WithOffsetsAt(s, v0, i0, j);
    OffsetsAgreeAfter(ms, w, j);
  }

  /** The counters after the old meshes and the first j new ones, modulo 2^32. */
  lemma PrefixCounts(ms: seq<Mesh>, s: seq<Mesh>, v0: U32, i0: U32, j: nat)
    requires j <= |s| && v0 == Wrap(VertexCount(ms)) && i0 == Wrap(IndexCount(ms))
    ensures var w := WithOffsets(s, v0, i0)[..j];
      Wrap(v0 + VertexCount(s[..j])) == Wrap(VertexCount(ms + w)) &&
      Wrap(i0 + IndexCount(s[..j])) == Wrap(IndexCount(ms + w))
  {
    var w := WithOffsets(s, v0, i0)[..j];
    OffsetsPrefixKeepsData(s, v0, i0, j);
    FlatMapAppend(ms, w, VerticesOf);
    FlatMapAppend(ms, w, IndicesOf);
    WrapSum(VertexCount(ms), VertexCount(s[..j]), VertexCount(ms + w), v0);
    WrapSum(IndexCount(ms), IndexCount(s[..j]), IndexCount(ms + w), i0);
  }

  /** Mesh j of w, appended after ms, agrees when its offsets count ms and w's first j meshes. */
  lemma OffsetsAgreeAfter(ms: seq<Mesh>, w: seq<Mesh>, j: nat)
    requires j < |w|
    requires w[j].vertexOffset == Wrap(VertexCount(ms + w[..j]))
    requires w[j].indexOffset == Wrap(IndexCount(ms + w[..j]))
    ensures OffsetsAgreeAt(ms + w, |ms| + j)
  {
    assert (ms + w)[..|ms| + j] == ms + w[..j];
  }

  /** The first j meshes with offsets hold the same data as the first j without. */
  lemma OffsetsPrefixKeepsData(s: seq<Mesh>, v0: U32, i0: U32, j: nat)
    requires j <= |s|
    ensures VertexCount(WithOffsets(s, v0, i0)[..j]) == VertexCount(s[..j])
    ensures IndexCount(WithOffsets(s, v0, i0)[..j]) == IndexCount(s[..j])
  {
    var w := WithOffsets(s, v0, i0);
    forall x | 0 <= x < j
      ensures VerticesOf(w[..j][x]) == VerticesOf(s[..j][x]) && IndicesOf(w[..j][x]) == IndicesOf(s[..j][x])
    {
      WithOffsetsAt(s, v0, i0, x);
    }
    FlatMapPointwise(w[..j], s[..j], VerticesOf);
    FlatMapPointwise(w[..j], s[..j], IndicesOf);
  }

  /** With offsets that agree and fewer than 2^32 vertices in all (so the counter never wraps),
      mesh k's vertices occupy [vertexOffset, vertexOffset + size) of the vertex buffer. */
  lemma VertexSlice(ms: seq<Mesh>, k: nat)
    requires OffsetsAgree(ms) && k < |ms| && VertexCount(ms) < U32Modulus
    ensures var m := ms[k];
      m.vertexOffset + |m.vertices| <= VertexCount(ms) &&
      FlatMap(ms, VerticesOf)[m.vertexOffset..m.vertexOffset + |m.vertices|] == m.vertices
  {
    FlatMapSlice(ms, k, VerticesOf);
    assert OffsetsAgreeAt(ms, k);
    WrapSmall(VertexCount(ms[..k]));
  }

  /** The same for the index buffer. */
  lemma IndexSlice(ms: seq<Mesh>, k: nat)
    requires OffsetsAgree(ms) && k < |ms| && IndexCount(ms) < U32Modulus
    ensures var m := ms[k];
      m.indexOffset + |m.indices| <= IndexCount(ms) &&
      FlatMap(ms, IndicesOf)[m.indexOffset..m.indexOffset + |m.indices|] == m.indices
  {
    FlatMapSlice(ms, k, IndicesOf);
    assert OffsetsAgreeAt(ms, k);
    WrapSmall(IndexCount(ms[..k]));
  }

  // ---------------------------------------------------------------------------------------
  // Drawing
  // ---------------------------------------------------------------------------------------

  /** sizeof(ShadowsUBO): three mat4 (16 floats each), castShadows and dummy[15], 4 bytes a float. */
  const ShadowsUboSize: nat := (3 * 16 + 1 + 15) * 4

  /** `modelID * sizeof(ShadowsUBO)` stored in a uint32_t. */
  function DynamicOffset(modelID: U32): U32
  {
    Wrap(modelID * ShadowsUboSize)
  }

  /** The slots of distinct models (below 2^24, where the product does not wrap) are 256-byte
      aligned and do not overlap. */
  lemma DynamicOffsetSlots(a: U32, b: U32)
    requires a < 0x100_0000 && b < 0x100_0000
    ensures ShadowsUboSize == 256
    ensures DynamicOffset(a) == 256 * a && DynamicOffset(a) % 256 == 0
    ensures a != b ==> DynamicOffset(a) + 256 <= DynamicOffset(b) || DynamicOffset(b) + 256 <= DynamicOffset(a)
  {
    assert 256 * a < U32Modulus;
    assert 256 * b < U32Modulus;
  }

  /** The arguments of Model::draw other than the model itself. */
  datatype DrawContext = DrawContext(pipeline: Handle, pipelineLayout: Handle, modelID: U32,
                                     deferredRenderer: bool, shadowsSet: Handle, lightsSet: Handle)

  /** What draw records for one mesh: nothing unless it is rendered and not culled; otherwise
      its descriptor sets and one indexed draw of its own index range. */
  function MeshCmds(m: Mesh, ctx: DrawContext, modelSet: Handle): seq<Command>
  {
    if m.render && !m.cull then
      [if ctx.deferredRenderer
       then BindDescriptorSets(ctx.pipelineLayout, [modelSet, m.descriptorSet], [])
       else BindDescriptorSets(ctx.pipelineLayout, [ctx.shadowsSet, m.descriptorSet, modelSet, ctx.lightsSet],
                               [DynamicOffset(ctx.modelID)]),
       DrawIndexed(Wrap(|m.indices|), 1, m.indexOffset, m.vertexOffset, 0)]
    else []
  }

  function MeshDrawer(ctx: DrawContext, modelSet: Handle): Mesh -> seq<Command>
  {
    (m: Mesh) => MeshCmds(m, ctx, modelSet)
  }

  function DrawOnly(c: Command): seq<Command>
  {
    if c.DrawIndexed? then [c] else []
  }

  /** The indexed draws of a command list, in order. */
  function DrawCalls(cmds: seq<Command>): seq<Command>
  {
    FlatMap(cmds, DrawOnly)
  }

  /** The draw a visible mesh is due. */
  function VisibleDraw(m: Mesh): seq<Command>
  {
    if m.render && !m.cull then [DrawIndexed(Wrap(|m.indices|), 1, m.indexOffset, m.vertexOffset, 0)] else []
  }

  /** The draws among the per-mesh commands are exactly one per visible mesh, in mesh order. */
  lemma {:induction false} DrawsOfMeshes(ms: seq<Mesh>, ctx: DrawContext, modelSet: Handle)
    ensures DrawCalls(FlatMap(ms, MeshDrawer(ctx, modelSet))) == FlatMap(ms, VisibleDraw)
    decreases |ms|
  {
    if ms != [] {
      var ms', m := ms[..|ms| - 1], ms[|ms| - 1];
      DrawsOfMeshes(ms', ctx, modelSet);
      FlatMapAppend(FlatMap(ms', MeshDrawer(ctx, modelSet)), MeshCmds(m, ctx, modelSet), DrawOnly);
      var c := MeshCmds(m, ctx, modelSet);
      if m.render && !m.cull {
        assert c == [c[0]] + [c[1]];
        FlatMapSnoc([c[0]], c[1], DrawOnly);
        FlatMapSnoc([], c[0], DrawOnly);
      }
    }
  }

  /** Every call made by a rendered model's draw, when it is not deferred, binds the shadow
      slot of that model. */
  lemma {:induction false} ForwardBindsShadowSlot(ms: seq<Mesh>, ctx: DrawContext, modelSet: Handle, c: Command)
    requires !ctx.deferredRenderer && c in FlatMap(ms, MeshDrawer(ctx, modelSet)) && c.BindDescriptorSets?
    ensures c.dynamicOffsets == [DynamicOffset(ctx.modelID)] && |c.sets| == 4 && c.sets[0] == ctx.shadowsSet
  {
    FlatMapMember(ms, MeshDrawer(ctx, modelSet), c);
  }

  /** The layout Model::getDescriptorSetLayout creates: one vertex-stage uniform buffer. */
  const ModelLayoutBindings := [LayoutBinding(0, UniformBuffer, 1, Vertex)]

  /** The requests of the texture loop of destroy: one image destroy per cached texture. */
  predicate TexturesReleased(ops: seq<DeviceOp>, textures: map<string, Handle>)
  {
    |ops| == |textures| &&
    (forall op :: op in ops ==> op.DestroyImage? && op.handle in textures.Values) &&
    (forall path :: path in textures ==> DestroyImage(textures[path]) in ops)
  }

  /** The static members shared by every model: Model::descriptorSetLayout,
      Mesh::descriptorSetLayout and Mesh::uniqueTextures (loaded texture images by path). */
  class Statics {
    var modelLayout: Handle
    var meshLayout: Handle
    var uniqueTextures: map<string, Handle>

    constructor ()
      ensures modelLayout == Null && meshLayout == Null && uniqueTextures == map[]
    {
      modelLayout := Null;
      meshLayout := Null;
      uniqueTextures := map[];
    }

    /** Model::getDescriptorSetLayout: created once while the static is null, then cached. */
    method GetModelDescriptorSetLayout(dev: Device) returns (layout: Handle)
      modifies this, dev
      ensures layout != Null && modelLayout == layout
      ensures old(modelLayout) != Null ==>
        layout == old(modelLayout) && dev.log == old(dev.log) && dev.nextId == old(dev.nextId)
      ensures old(modelLayout) == Null ==>
        layout == Live(old(dev.nextId)) && dev.nextId == old(dev.nextId) + 1 &&
        dev.log == old(dev.log) + [CreateDescriptorSetLayout(ModelLayoutBindings, layout)]
      ensures meshLayout == old(meshLayout) && uniqueTextures == old(uniqueTextures)
    {
      if modelLayout == Null {
        modelLayout := dev.NewHandle();
        dev.Record(CreateDescriptorSetLayout(ModelLayoutBindings, modelLayout));
      }
      layout := modelLayout;
    }

    /** The texture loop of destroy and the clear after it: every cached texture image is
        destroyed once, and the cache ends empty. */
    method ReleaseTextures(dev: Device) returns (ghost ops: seq<DeviceOp>)
      modifies this, dev
      ensures uniqueTextures == map[] && TexturesReleased(ops, old(uniqueTextures))
      ensures dev.log == old(dev.log) + ops && dev.nextId == old(dev.nextId)
      ensures modelLayout == old(modelLayout) && meshLayout == old(meshLayout)
    {
      var remaining := uniqueTextures;
      ops := [];
      while remaining != map[]
        modifies dev
        invariant remaining.Keys <= old(uniqueTextures).Keys
        invariant forall path :: path in remaining ==> remaining[path] == old(uniqueTextures)[path]
        invariant |ops| + |remaining| == |old(uniqueTextures)|
        invariant forall op :: op in ops ==> op.DestroyImage? && op.handle in old(uniqueTextures).Values
        invariant forall path :: path in old(uniqueTextures) && path !in remaining ==>
          DestroyImage(old(uniqueTextures)[path]) in ops
        invariant dev.log == old(dev.log) + ops && dev.nextId == old(dev.nextId)
        decreases |remaining|
      {
        var path :| path in remaining;
        dev.Record(DestroyImage(remaining[path]));
        ops := ops + [DestroyImage(remaining[path])];
        assert (remaining - {path}).Keys == remaining.Keys - {path};
        remaining := remaining - {path};
      }
      assert remaining.Keys == {};
      uniqueTextures := map[];
    }

    /** The last two steps of destroy: each static layout is destroyed only if it exists, and is
        nulled, so a second call destroys nothing. */
    method ReleaseLayouts(dev: Device)
      modifies this, dev
      ensures modelLayout == Null && meshLayout == Null && uniqueTextures == old(uniqueTextures)
      ensures dev.log == old(dev.log) + LayoutDestroys(old(modelLayout), old(meshLayout))
      ensures dev.nextId == old(dev.nextId)
    {
      if modelLayout != Null {
        dev.Record(DestroyDescriptorSetLayout(modelLayout));
        modelLayout := Null;
      }
      if meshLayout != Null {
        dev.Record(DestroyDescriptorSetLayout(meshLayout));
        meshLayout := Null;
      }
    }
  }

  /** The first loop of destroy: every mesh keeps its place and its offsets, flags and set, and
      loses its vertex and index data. */
  method ClearMeshData(ms: seq<Mesh>) returns (r: seq<Mesh>)
    ensures |r| == |ms|
    ensures forall k :: 0 <= k < |r| ==> r[k] == ms[k].(vertices := [], indices := [])
  {
    r := ms;
    var k := 0;
    while k < |r|
      invariant k <= |r| == |ms|
      invariant forall x :: 0 <= x < k ==> r[x] == ms[x].(vertices := [], indices := [])
      invariant forall x :: k <= x < |r| ==> r[x] == ms[x]
    {
      r := r[k := r[k].(vertices := [], indices := [])];
      k := k + 1;
    }
  }

  /** The guarded destroys of the two static layouts. */
  function LayoutDestroys(modelLayout: Handle, meshLayout: Handle): seq<DeviceOp>
  {
    (if modelLayout != Null then [DestroyDescriptorSetLayout(modelLayout)] else []) +
    (if meshLayout != Null then [DestroyDescriptorSetLayout(meshLayout)] else [])
  }

  /** The vertex counter advanced by one more mesh counts the meshes up to and including it. */
  lemma VertexCountStep(s: seq<Mesh>, k: nat, v0: nat, v: U32)
    requires k < |s| && v == Wrap(v0 + VertexCount(s[..k]))
    ensures Wrap(v + |s[k].vertices|) == Wrap(v0 + VertexCount(s[..k + 1]))
  {
    FlatMapPrefix(s, k, VerticesOf);
    WrapAdd(v0 + VertexCount(s[..k]), |s[k].vertices|);
  }

  /** The index counter advanced by one more mesh counts the meshes up to and including it. */
  lemma IndexCountStep(s: seq<Mesh>, k: nat, i0: nat, i: U32)
    requires k < |s| && i == Wrap(i0 + IndexCount(s[..k]))
    ensures Wrap(i + |s[k].indices|) == Wrap(i0 + IndexCount(s[..k + 1]))
  {
    FlatMapPrefix(s, k, IndicesOf);
    WrapAdd(i0 + IndexCount(s[..k]), |s[k].indices|);
  }


  /** The loop of the offset assignment: each mesh in turn takes the current counters as its
      offsets, then the counters advance by its vertex and index counts (uint32_t). */
  method AssignOffsets(s: seq<Mesh>, v0: U32, i0: U32) returns (placed: seq<Mesh>, v: U32, i: U32)
    ensures placed == WithOffsets(s, v0, i0)
    ensures v == Wrap(v0 + VertexCount(s)) && i == Wrap(i0 + IndexCount(s))
  {
    placed, v, i := [], v0, i0;
    var k := 0;
    while k < |s|
      invariant k <= |s| && |placed| == k
      invariant forall j :: 0 <= j < k ==> placed[j] == Placed(s, j, v0, i0)
      invariant v == Wrap(v0 + VertexCount(s[..k])) && i == Wrap(i0 + IndexCount(s[..k]))
    {
      var m := s[k].(vertexOffset := v, indexOffset := i);
      assert m == Placed(s, k, v0, i0);
      VertexCountStep(s, k, v0, v);
      IndexCountStep(s, k, i0, i);
      placed := placed + [m];
      v := Wrap(v + |m.vertices|);
      i := Wrap(i + |m.indices|);
      k := k + 1;
    }
    WithOffsetsFromElements(s, v0, i0, placed);
    assert s[..k] == s;
  }

  /** all is ms followed by the meshes of s with their offsets counted from v0 and i0, and v and
      i are those counters advanced by the totals of s (modulo 2^32). */
  predicate Appended(ms: seq<Mesh>, v0: U32, i0: U32, s: seq<Mesh>, all: seq<Mesh>, v: U32, i: U32)
  {
    all == ms + WithOffsets(s, v0, i0) && v == Wrap(v0 + VertexCount(s)) && i == Wrap(i0 + IndexCount(s))
  }

  /** The meshes ms followed by s with offsets, and the advanced counters; when the counters
      and offsets of ms agreed, those of the result do too. */
  method AppendMeshes(ms: seq<Mesh>, v0: U32, i0: U32, s: seq<Mesh>) returns (all: seq<Mesh>, v: U32, i: U32)
    ensures Appended(ms, v0, i0, s, all, v, i)
    ensures OffsetsAgree(ms) && v0 == Wrap(VertexCount(ms)) && i0 == Wrap(IndexCount(ms)) ==>
      OffsetsAgree(all) && v == Wrap(VertexCount(all)) && i == Wrap(IndexCount(all))
  {
    var placed;
    placed, v, i := AssignOffsets(s, v0, i0);
    all := ms + placed;
    if OffsetsAgree(ms) && v0 == Wrap(VertexCount(ms)) && i0 == Wrap(IndexCount(ms)) {
      AppendKeepsValid(ms, s, v0, i0);
    }
  }

  /** The buffer-filling loops: every part of every mesh, mesh after mesh. */
  method Concatenate<T>(ms: seq<Mesh>, part: Mesh -> seq<T>) returns (r: seq<T>)
    ensures r == FlatMap(ms, part)
  {
    r := [];
    var k := 0;
    while k < |ms|
      invariant k <= |ms|
      invariant r == FlatMap(ms[..k], part)
    {
      var items := part(ms[k]);
      ghost var before := r;
      var j := 0;
      while j < |items|
        invariant j <= |items|
        invariant r == before + items[..j]
      {
        r := r + [items[j]];
        assert items[..j + 1] == items[..j] + [items[j]];
        j := j + 1;
      }
      assert items[..j] == items;
      FlatMapPrefix(ms, k, part);
      k := k + 1;
    }
    assert ms[..k] == ms;
  }

  /** Appending a scene's meshes with counters equal to the totals so far keeps the model's
      invariant: offsets agree with the data in front, counters equal the totals. */
  lemma AppendKeepsValid(ms: seq<Mesh>, s: seq<Mesh>, v0: U32, i0: U32)
    requires OffsetsAgree(ms) && v0 == Wrap(VertexCount(ms)) && i0 == Wrap(IndexCount(ms))
    ensures var all := ms + WithOffsets(s, v0, i0);
      OffsetsAgree(all) &&
      Wrap(v0 + VertexCount(s)) == Wrap(VertexCount(all)) &&
      Wrap(i0 + IndexCount(s)) == Wrap(IndexCount(all))
  {
    AppendKeepsOffsets(ms, s);
    AppendCounts(ms, s, v0, i0);
  }

  /** After the append the counters are the totals of the whole sequence, modulo 2^32. */
  lemma AppendCounts(ms: seq<Mesh>, s: seq<Mesh>, v0: U32, i0: U32)
    requires v0 == Wrap(VertexCount(ms)) && i0 == Wrap(IndexCount(ms))
    ensures var all := ms + WithOffsets(s, v0, i0);
      Wrap(v0 + VertexCount(s)) == Wrap(VertexCount(all)) &&
      Wrap(i0 + IndexCount(s)) == Wrap(IndexCount(all))
  {
    var w := WithOffsets(s, v0, i0);
    PrefixCounts(ms, s, v0, i0, |s|);
    assert s[..|s|] == s && w[..|s|] == w;
  }

  lemma WrapSum(a: nat, b: nat, c: nat, x: U32)
    requires x == Wrap(a) && c == a + b
    ensures Wrap(x + b) == Wrap(c)
  {
    WrapAdd(a, b);
  }

  class Model {
    var name: string
    var render: bool
    var meshes: seq<Mesh>
    var numberOfVertices: U32
    var numberOfIndices: U32
    var vertexBuffer: Handle
    var indexBuffer: Handle
    var uniformBuffer: Handle
    var descriptorSet: Handle
    /** What createVertexBuffer and createIndexBuffer copy into the two buffers. */
    var vertexData: seq<Vertex>
    var indexData: seq<U32>

    /** The counters are the totals of the meshes, and each mesh's offsets are the totals of
        the meshes in front of it (all modulo 2^32). */
    predicate Valid()
      reads this
    {
      OffsetsAgree(meshes) &&
      numberOfVertices == Wrap(VertexCount(meshes)) && numberOfIndices == Wrap(IndexCount(meshes))
    }

    constructor ()
      ensures Valid() && meshes == [] && vertexData == [] && indexData == [] && !render
      ensures vertexBuffer == Null && indexBuffer == Null && uniformBuffer == Null && descriptorSet == Null
    {
      name := "";
      render := false;
      meshes := [];
      numberOfVertices := 0;
      numberOfIndices := 0;
      vertexBuffer := Null;
      indexBuffer := Null;
      uniformBuffer := Null;
      descriptorSet := Null;
      vertexData := [];
      indexData := [];
    }

    /** createVertexBuffer: the vertices of all meshes, mesh after mesh, go into the buffer. */
    method CreateVertexBuffer()
      modifies this
      ensures vertexData == FlatMap(meshes, VerticesOf)
      ensures meshes == old(meshes) && indexData == old(indexData)
      ensures numberOfVertices == old(numberOfVertices) && numberOfIndices == old(numberOfIndices)
      ensures name == old(name) && render == old(render)
    {
      vertexData := Concatenate(meshes, VerticesOf);
    }

    /** createIndexBuffer: the indices of all meshes, mesh after mesh, go into the buffer. */
    method CreateIndexBuffer()
      modifies this
      ensures indexData == FlatMap(meshes, IndicesOf)
      ensures meshes == old(meshes) && vertexData == old(vertexData)
      ensures numberOfVertices == old(numberOfVertices) && numberOfIndices == old(numberOfIndices)
      ensures name == old(name) && render == old(render)
    {
      indexData := Concatenate(meshes, IndicesOf);
    }

    /** loadModel, from the imported scene on: collect the meshes of every node, sort them by
        alpha, append them with offsets, rebuild both buffers, and set name and visibility. */
    method LoadModel(scene: AiScene, modelName: string, show: bool) returns (ghost sorted: seq<Mesh>)
      requires WellFormed(scene)
      modifies this
      ensures multiset(sorted) == multiset(SceneMeshes(scene)) && AlphaLast(sorted)
      ensures Appended(old(meshes), old(numberOfVertices), old(numberOfIndices), sorted,
                       meshes, numberOfVertices, numberOfIndices)
      ensures vertexData == FlatMap(meshes, VerticesOf) && indexData == FlatMap(meshes, IndicesOf)
      ensures name == modelName && render == show
      ensures old(Valid()) ==> Valid()
    {
      var ms, nv, ni := meshes, numberOfVertices, numberOfIndices;
      var ordered := ImportScene(scene);
      sorted := ordered;
      var all, v, i := AppendMeshes(ms, nv, ni, ordered);
      meshes, numberOfVertices, numberOfIndices := all, v, i;
      CreateVertexBuffer();
      CreateIndexBuffer();
      name := modelName;
      render := show;
    }

    /** draw: nothing unless the model is rendered; otherwise bind the pipeline and both buffers,
        then the commands of every mesh in order. */
    method Draw(ctx: DrawContext) returns (cmds: seq<Command>)
      ensures !render ==> cmds == []
      ensures render ==>
        cmds == [BindPipeline(ctx.pipeline), BindVertexBuffer(vertexBuffer), BindIndexBuffer(indexBuffer)] +
                FlatMap(meshes, MeshDrawer(ctx, descriptorSet))
    {
      cmds := [];
      if render {
        cmds := [BindPipeline(ctx.pipeline), BindVertexBuffer(vertexBuffer), BindIndexBuffer(indexBuffer)];
        ghost var prelude := cmds;
        var k := 0;
        while k < |meshes|
          invariant k <= |meshes|
          invariant cmds == prelude + FlatMap(meshes[..k], MeshDrawer(ctx, descriptorSet))
        {
          var mesh := meshes[k];
          if mesh.render && !mesh.cull {
            if ctx.deferredRenderer {
              cmds := cmds + [BindDescriptorSets(ctx.pipelineLayout, [descriptorSet, mesh.descriptorSet], [])];
            } else {
              var dOffsets := Wrap(ctx.modelID * ShadowsUboSize);
              cmds := cmds + [BindDescriptorSets(ctx.pipelineLayout,
                                                 [ctx.shadowsSet, mesh.descriptorSet, descriptorSet, ctx.lightsSet],
                                                 [dOffsets])];
            }
            cmds := cmds + [DrawIndexed(Wrap(|mesh.indices|), 1, mesh.indexOffset, mesh.vertexOffset, 0)];
          }
          FlatMapPrefix(meshes, k, MeshDrawer(ctx, descriptorSet));
          k := k + 1;
        }
        assert meshes[..k] == meshes;
      }
    }

    /** destroy: empties every mesh's data, releases the cached textures and the three buffers,
        and destroys each static layout only if it is not null, nulling it. The cached textures
        are released in some order (std::map visits them by path). */
    method Destroy(statics: Statics, dev: Device) returns (ghost textureOps: seq<DeviceOp>)
      modifies this, statics, dev
      ensures |meshes| == |old(meshes)|
      ensures forall k :: 0 <= k < |meshes| ==> meshes[k] == old(meshes[k]).(vertices := [], indices := [])
      ensures statics.uniqueTextures == map[] && statics.modelLayout == Null && statics.meshLayout == Null
      ensures TexturesReleased(textureOps, old(statics.uniqueTextures))
      ensures dev.log == old(dev.log) + textureOps +
        [DestroyBuffer(vertexBuffer), DestroyBuffer(indexBuffer), DestroyBuffer(uniformBuffer)] +
        LayoutDestroys(old(statics.modelLayout), old(statics.meshLayout))
      ensures dev.nextId == old(dev.nextId)
      ensures vertexBuffer == old(vertexBuffer) && indexBuffer == old(indexBuffer) && uniformBuffer == old(uniformBuffer)
      ensures name == old(name) && render == old(render) && descriptorSet == old(descriptorSet)
      ensures numberOfVertices == old(numberOfVertices) && numberOfIndices == old(numberOfIndices)
      ensures vertexData == old(vertexData) && indexData == old(indexData)
    {
      meshes := ClearMeshData(meshes);
      textureOps := statics.ReleaseTextures(dev);
      dev.Record(DestroyBuffer(vertexBuffer));
      dev.Record(DestroyBuffer(indexBuffer));
      dev.Record(DestroyBuffer(uniformBuffer));
      statics.ReleaseLayouts(dev);
    }
  }

  /** A second destroy releases no texture and no layout: it only destroys the three buffers again. */
  method DestroyTwice(model: Model, statics: Statics, dev: Device) returns (ghost textureOps: seq<DeviceOp>)
    modifies model, statics, dev
    ensures TexturesReleased(textureOps, old(statics.uniqueTextures))
    ensures var buffers := [DestroyBuffer(model.vertexBuffer), DestroyBuffer(model.indexBuffer),
                            DestroyBuffer(model.uniformBuffer)];
      dev.log == old(dev.log) + textureOps + buffers +
                 LayoutDestroys(old(statics.modelLayout), old(statics.meshLayout)) + buffers
  {
    textureOps := model.Destroy(statics, dev);
    var again := model.Destroy(statics, dev);
    assert |again| == 0;
  }
}
