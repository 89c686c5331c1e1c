/**
  The scene: voxels keyed by a monotonically assigned id, and the batch
  builder that packs every voxel's mesh into one vertex buffer and one index
  buffer through host-visible staging buffers.

  The graphics-API calls (buffer creation, mapping, the staging copy, release)
  are foreign; they appear as entries of the `calls` trace, and the handles the
  buffer helper hands back are parameters.
 */
module Scene {
  import opened Geometry
  import VoxelModel

  /** Range of a 32-bit unsigned counter: values are below 2^32. */
  const U32Limit: nat := 0x1_0000_0000

  /** Largest value of a 32-bit signed int. */
  const I32Max: nat := 0x7FFF_FFFF

  /** A voxel's placement; the batch builder never reads it. */
  datatype Transform = Transform(translation: Vec3, rotation: Vec3, scale: Vec3)

  /** The default TransformComponent: zero translation and rotation, unit scale. */
  const DefaultTransform := Transform(Vec3(0.0, 0.0, 0.0), Vec3(0.0, 0.0, 0.0), Vec3(1.0, 1.0, 1.0))

  /** TransformComponent(position): the default transform with the translation replaced. */
  function TransformAt(position: Vec3): (t: Transform)
    ensures t == DefaultTransform.(translation := position)
  {
    Transform(position, Vec3(0.0, 0.0, 0.0), Vec3(1.0, 1.0, 1.0))
  }

  datatype Voxel = Voxel(model: VoxelModel.Model, transform: Transform)

  datatype BufferHandle = NullBuffer | Buffer(id: nat)

  datatype MemoryHandle = NullMemory | Memory(id: nat)

  /** The buffer and memory handles the buffer helper returns through its out-parameters. */
  datatype Allocation = Allocation(buffer: BufferHandle, memory: MemoryHandle)

  /** The three kinds of buffer the builder allocates. */
  datatype Usage = StagingSource | VertexDestination | IndexDestination

  /** One call into the graphics API, as recorded in the trace. */
  datatype GpuCall =
    | CreateBuffer(size: nat, usage: Usage, buffer: BufferHandle, memory: MemoryHandle)
    | MapMemory(memory: MemoryHandle, size: nat)
    | UnmapMemory(memory: MemoryHandle)
    | CopyBuffer(src: BufferHandle, dst: BufferHandle, size: nat)
    | DestroyBuffer(buffer: BufferHandle)
    | FreeMemory(memory: MemoryHandle)

  /** What the renderer reads to bind and draw the batch; numIndices starts at 0. */
  datatype RendererInfo = RendererInfo(
    vertexBuffer: BufferHandle,
    vertexBufferMemory: MemoryHandle,
    indexBuffer: BufferHandle,
    indexBufferMemory: MemoryHandle,
    numIndices: nat)

  /** The buffers a sequence of calls destroys. */
  function Destroyed(calls: seq<GpuCall>): set<BufferHandle>
  {
    set c | c in calls && c.DestroyBuffer? :: c.buffer
  }

  /** The memory a sequence of calls frees. */
  function Freed(calls: seq<GpuCall>): set<MemoryHandle>
  {
    set c | c in calls && c.FreeMemory? :: c.memory
  }

  /**
    The calls of one staged upload of `size` bytes: create and map the staging
    buffer, unmap it, create the device buffer, copy, release the staging pair.
   */
  function UploadCalls(size: nat, usage: Usage, staging: Allocation, device: Allocation): (calls: seq<GpuCall>)
    ensures Destroyed(calls) == {staging.buffer} && Freed(calls) == {staging.memory}
    ensures CreateBuffer(size, StagingSource, staging.buffer, staging.memory) in calls
    ensures CreateBuffer(size, usage, device.buffer, device.memory) in calls
    ensures CopyBuffer(staging.buffer, device.buffer, size) in calls
  {
    var calls := [ CreateBuffer(size, StagingSource, staging.buffer, staging.memory),
                   MapMemory(staging.memory, size),
                   UnmapMemory(staging.memory),
                   CreateBuffer(size, usage, device.buffer, device.memory),
                   CopyBuffer(staging.buffer, device.buffer, size),
                   DestroyBuffer(staging.buffer),
                   FreeMemory(staging.memory) ];
    assert calls[5] in calls && calls[6] in calls;
    calls
  }

  /** The calls TerminateScene makes: it releases exactly the two buffers and two memories in ri. */
  function TerminateCalls(ri: RendererInfo): (calls: seq<GpuCall>)
    ensures |calls| == 4
    ensures Destroyed(calls) == {ri.vertexBuffer, ri.indexBuffer}
    ensures Freed(calls) == {ri.vertexBufferMemory, ri.indexBufferMemory}
  {
    var calls := [ DestroyBuffer(ri.vertexBuffer), FreeMemory(ri.vertexBufferMemory),
                   DestroyBuffer(ri.indexBuffer), FreeMemory(ri.indexBufferMemory) ];
    assert calls[0] in calls && calls[1] in calls && calls[2] in calls && calls[3] in calls;
    calls
  }

  // ---------------------------------------------------------------------
  // The packed layout

  /** Blocks laid end to end, block 0 first. */
  function Pack<T>(blocks: seq<seq<T>>): seq<T>
  {
    if blocks == [] then [] else Pack(blocks[..|blocks| - 1]) + blocks[|blocks| - 1]
  }

  predicate AllWidth<T>(blocks: seq<seq<T>>, width: nat)
  {
    forall b :: 0 <= b < |blocks| ==> |blocks[b]| == width
  }

  lemma {:induction false} PackLength<T>(blocks: seq<seq<T>>, width: nat)
    requires AllWidth(blocks, width)
    ensures |Pack(blocks)| == width * |blocks|
  {
    if blocks != [] {
      var n := |blocks|;
      var front := blocks[..n - 1];
      assert AllWidth(front, width) by {
        forall b | 0 <= b < |front| ensures |front[b]| == width {
          assert front[b] == blocks[b];
        }
      }
      PackLength(front, width);
      assert |Pack(blocks)| == |Pack(front)| + |blocks[n - 1]|;
      assert width * (n - 1) + width == width * n;
    }
  }

  /** Block i occupies slots [width * i, width * i + width) of the packed sequence. */
  lemma {:induction false} PackBlock<T>(blocks: seq<seq<T>>, width: nat, i: nat)
    requires AllWidth(blocks, width) && i < |blocks|
    ensures |Pack(blocks)| == width * |blocks|
    ensures width * i + width <= |Pack(blocks)|
    ensures Pack(blocks)[width * i .. width * i + width] == blocks[i]
  {
    var n := |blocks|;
    var front := blocks[..n - 1];
    assert AllWidth(front, width) by {
      forall b | 0 <= b < |front| ensures |front[b]| == width {
        assert front[b] == blocks[b];
      }
    }
    PackLength(front, width);
    var p := Pack(front);
    assert Pack(blocks) == p + blocks[n - 1];
    PackLength(blocks, width);
    if i < n - 1 {
      PackBlock(front, width, i);
      MulMonotone(width, i + 1, n - 1);
      SliceOfAppend(p, blocks[n - 1], width * i, width * i + width);
    } else {
      SliceOfAppend(p, blocks[n - 1], |p|, |p| + width);
    }
  }

  lemma SliceOfAppend<T>(p: seq<T>, q: seq<T>, a: nat, b: nat)
    requires a <= b <= |p| + |q|
    ensures b <= |p| ==> (p + q)[a..b] == p[a..b]
    ensures a == |p| && b == |p| + |q| ==> (p + q)[a..b] == q
  {
  }

  /** The packed sequence is the blocks before i, then block i, then the blocks after it. */
  lemma {:induction false} PackSplit<T>(blocks: seq<seq<T>>, i: nat)
    requires i < |blocks|
    ensures Pack(blocks) == Pack(blocks[..i]) + blocks[i] + Pack(blocks[i + 1..])
  {
    var n := |blocks|;
    var front := blocks[..n - 1];
    assert blocks[..n] == blocks;
    if i == n - 1 {
      assert blocks[i + 1..] == [];
      assert front == blocks[..i];
    } else {
      PackSplit(front, i);
      assert front[..i] == blocks[..i];
      assert front[i] == blocks[i];
      var tail := blocks[i + 1..];
      assert tail[..|tail| - 1] == front[i + 1..];
      assert tail[|tail| - 1] == blocks[n - 1];
      assert Pack(tail) == Pack(front[i + 1..]) + blocks[n - 1];
    }
  }

  /** Every element of a packing of bounded blocks is bounded. */
  lemma {:induction false} PackBelow(blocks: seq<seq<nat>>, bound: nat)
    requires forall b, j :: 0 <= b < |blocks| && 0 <= j < |blocks[b]| ==> blocks[b][j] < bound
    ensures forall k :: 0 <= k < |Pack<nat>(blocks)| ==> Pack<nat>(blocks)[k] < bound
  {
    if blocks != [] {
      var n := |blocks|;
      var front := blocks[..n - 1];
      assert forall b, j :: 0 <= b < |front| && 0 <= j < |front[b]| ==> front[b][j] < bound by {
        forall b, j | 0 <= b < |front| && 0 <= j < |front[b]| ensures front[b][j] < bound {
          assert front[b] == blocks[b];
        }
      }
      PackBelow(front, bound);
      var p := Pack<nat>(front);
      var last := blocks[n - 1];
      assert Pack<nat>(blocks) == p + last;
      forall k | 0 <= k < |p + last| ensures (p + last)[k] < bound {
        if k >= |p| {
          assert (p + last)[k] == last[k - |p|];
        }
      }
    }
  }

  lemma MulMonotone(a: nat, b: nat, c: nat)
    requires b <= c
    ensures a * b <= a * c
  {
  }

  /** `order` lists every key of `voxels` exactly once: one fixed iteration order of the map. */
  predicate Enumerates(order: seq<nat>, voxels: map<nat, Voxel>)
  {
    && (forall i, j :: 0 <= i < j < |order| ==> order[i] != order[j])
    && (forall id :: id in order ==> id in voxels)
    && (forall id :: id in voxels ==> id in order)
  }

  lemma EnumerationLength(order: seq<nat>, voxels: map<nat, Voxel>)
    requires Enumerates(order, voxels)
    ensures |order| == |voxels|
  {
    DistinctCardinality(order);
    assert Elements(order) == voxels.Keys;
  }

  /** The elements of a sequence, as a set. */
  function Elements(s: seq<nat>): (e: set<nat>)
    ensures forall x :: x in e <==> x in s
  {
    if s == [] then {} else Elements(s[..|s| - 1]) + {s[|s| - 1]}
  }

  lemma {:induction false} DistinctCardinality(s: seq<nat>)
    requires forall i, j :: 0 <= i < j < |s| ==> s[i] != s[j]
    ensures |Elements(s)| == |s|
  {
    if s != [] {
      var front := s[..|s| - 1];
      var last := s[|s| - 1];
      assert forall i, j :: 0 <= i < j < |front| ==> front[i] != front[j];
      DistinctCardinality(front);
      assert last !in front;
    }
  }

  /** Every voxel's mesh has the voxel topology. */
  predicate WellFormedVoxels(voxels: map<nat, Voxel>)
  {
    forall id :: id in voxels ==> VoxelModel.WellFormed(voxels[id].model)
  }

  /** The vertex block of each voxel, in iteration order: its model's vertices, untransformed. */
  function VertexBlocks(voxels: map<nat, Voxel>, order: seq<nat>): (blocks: seq<seq<Vertex>>)
    requires forall id :: id in order ==> id in voxels
    ensures |blocks| == |order|
  {
    seq(|order|, (i: int) requires 0 <= i < |order| => voxels[order[i]].model.vertices)
  }

  /** The index block of each voxel, in iteration order: its model's indices, not rebased. */
  function IndexBlocks(voxels: map<nat, Voxel>, order: seq<nat>): (blocks: seq<seq<nat>>)
    requires forall id :: id in order ==> id in voxels
    ensures |blocks| == |order|
  {
    seq(|order|, (i: int) requires 0 <= i < |order| => voxels[order[i]].model.indices)
  }

  lemma BlockWidths(voxels: map<nat, Voxel>, order: seq<nat>)
    requires Enumerates(order, voxels) && WellFormedVoxels(voxels)
    ensures AllWidth(VertexBlocks(voxels, order), VoxelModel.VerticesPerVoxel)
    ensures AllWidth(IndexBlocks(voxels, order), VoxelModel.IndicesPerVoxel)
  {
  }

  /**
    The packed vertex buffer: the voxel at position i of the iteration order
    owns slots [8i, 8i + 8), they hold its model's vertices exactly (no
    transform), and the blocks before and after it fill the rest.
   */
  lemma VertexLayout(voxels: map<nat, Voxel>, order: seq<nat>, i: nat)
    requires Enumerates(order, voxels) && WellFormedVoxels(voxels) && i < |order|
    ensures |order| == |voxels|
    ensures |Pack(VertexBlocks(voxels, order))| == VoxelModel.VerticesPerVoxel * |voxels|
    ensures Pack(VertexBlocks(voxels, order))[8 * i .. 8 * i + 8] == voxels[order[i]].model.vertices
    ensures Pack(VertexBlocks(voxels, order))
         == Pack(VertexBlocks(voxels, order)[..i]) + voxels[order[i]].model.vertices
          + Pack(VertexBlocks(voxels, order)[i + 1..])
  {
    EnumerationLength(order, voxels);
    BlockWidths(voxels, order);
    PackBlock(VertexBlocks(voxels, order), 8, i);
    PackSplit(VertexBlocks(voxels, order), i);
  }

  /**
    The packed index buffer: 36 slots per voxel at [36i, 36i + 36), holding
    its model's indices unchanged, so every entry is below 8 and every voxel's
    triangles address the first voxel's eight vertex slots.
   */
  lemma IndexLayout(voxels: map<nat, Voxel>, order: seq<nat>, i: nat)
    requires Enumerates(order, voxels) && WellFormedVoxels(voxels) && i < |order|
    ensures |order| == |voxels|
    ensures |Pack<nat>(IndexBlocks(voxels, order))| == VoxelModel.IndicesPerVoxel * |voxels|
    ensures Pack<nat>(IndexBlocks(voxels, order))[36 * i .. 36 * i + 36] == voxels[order[i]].model.indices
    ensures Pack<nat>(IndexBlocks(voxels, order))
         == Pack<nat>(IndexBlocks(voxels, order)[..i]) + voxels[order[i]].model.indices
          + Pack<nat>(IndexBlocks(voxels, order)[i + 1..])
  {
    EnumerationLength(order, voxels);
    BlockWidths(voxels, order);
    PackBlock(IndexBlocks(voxels, order), 36, i);
    PackSplit(IndexBlocks(voxels, order), i);
  }

  /** No index is rebased: every entry of the packed index buffer is below 8. */
  lemma IndicesNotRebased(voxels: map<nat, Voxel>, order: seq<nat>)
    requires Enumerates(order, voxels) && WellFormedVoxels(voxels)
    ensures forall k :: 0 <= k < |Pack<nat>(IndexBlocks(voxels, order))| ==>
      Pack<nat>(IndexBlocks(voxels, order))[k] < VoxelModel.VerticesPerVoxel
  {
    var blocks := IndexBlocks(voxels, order);
    forall b, j | 0 <= b < |blocks| && 0 <= j < |blocks[b]| ensures blocks[b][j] < VoxelModel.VerticesPerVoxel {
      assert blocks[b] == voxels[order[b]].model.indices;
    }
    PackBelow(blocks, VoxelModel.VerticesPerVoxel);
  }

  // ---------------------------------------------------------------------
  // The copy offsets as written

  /**
    The element offset at which the copy loops write block i: the byte offset
    elementSize * blockLen * i is added to a pointer already typed to the
    element, so it is scaled by the element size a second time.
   */
  function LiteralOffset(elementSize: nat, blockLen: nat, i: nat): (off: nat)
    ensures elementSize == 1 ==> off == blockLen * i
    ensures elementSize > 1 && blockLen * i > 0 ==> off > blockLen * i
  {
    assert elementSize * blockLen * i == elementSize * (blockLen * i);
    if elementSize > 1 then
      MulMonotone(blockLen * i, 2, elementSize);
      elementSize * blockLen * i
    else
      elementSize * blockLen * i
  }

  /** For every block after the first the literal offset is past the block's own slots. */
  lemma LiteralOffsetMisplaced(elementSize: nat, blockLen: nat, i: nat)
    requires elementSize > 1 && blockLen > 0 && i >= 1
    ensures LiteralOffset(elementSize, blockLen, i) >= blockLen * i + blockLen
  {
    MulMonotone(blockLen * i, 2, elementSize);
    assert blockLen * i >= blockLen by { MulMonotone(blockLen, 1, i); }
  }

  /** With two or more blocks, the last one is written past the end of the buffer. */
  lemma LiteralOffsetOverruns(elementSize: nat, blockLen: nat, n: nat)
    requires elementSize > 1 && blockLen > 0 && n >= 2
    ensures LiteralOffset(elementSize, blockLen, n - 1) + blockLen > blockLen * n
  {
    LiteralOffsetMisplaced(elementSize, blockLen, n - 1);
    assert blockLen * (n - 1) + blockLen == blockLen * n;
    var b := blockLen * (n - 1);
    assert elementSize * blockLen * (n - 1) == elementSize * b;
    MulMonotone(b, 2, elementSize);
    assert b >= blockLen by { MulMonotone(blockLen, 1, n - 1); }
  }

  /** Both copy loops as written overrun their staging buffer once the scene holds two voxels. */
  lemma LiteralCopiesOverrun(n: nat)
    requires n >= 2
    ensures LiteralOffset(VertexSize, VoxelModel.VerticesPerVoxel, n - 1) + VoxelModel.VerticesPerVoxel
          > VoxelModel.VerticesPerVoxel * n
    ensures LiteralOffset(IndexSize, VoxelModel.IndicesPerVoxel, n - 1) + VoxelModel.IndicesPerVoxel
          > VoxelModel.IndicesPerVoxel * n
  {
    LiteralOffsetOverruns(VertexSize, VoxelModel.VerticesPerVoxel, n);
    LiteralOffsetOverruns(IndexSize, VoxelModel.IndicesPerVoxel, n);
  }

  // ---------------------------------------------------------------------

  /** memcpy of src into dst at element offset `offset`; nothing else in dst changes. */
  method Memcpy<T>(dst: array<T>, offset: nat, src: seq<T>)
    requires offset + |src| <= dst.Length
    modifies dst
    ensures dst[..] == old(dst[..offset]) + src + old(dst[offset + |src|..])
    ensures dst[..offset + |src|] == old(dst[..offset]) + src
  {
    var j := 0;
    while j < |src|
      invariant 0 <= j <= |src|
      invariant forall k :: 0 <= k < offset ==> dst[k] == old(dst[k])
      invariant forall k :: 0 <= k < j ==> dst[offset + k] == src[k]
      invariant forall k :: offset + j <= k < dst.Length ==> dst[k] == old(dst[k])
    {
      dst[offset + j] := src[j];
      j := j + 1;
    }
    assert dst[..offset + |src|] == old(dst[..offset]) + src;
    assert dst[..] == dst[..offset + |src|] + dst[offset + |src|..];
  }

  /** Packing one more block appends it. */
  lemma PackStep<T>(blocks: seq<seq<T>>, i: nat)
    requires i < |blocks|
    ensures Pack(blocks[..i + 1]) == Pack(blocks[..i]) + blocks[i]
  {
    assert blocks[..i + 1][..i] == blocks[..i];
  }

  class Scene {
    var voxels: map<nat, Voxel>
    var idCount: nat
    var ri: RendererInfo
    /** Contents of the device-local vertex buffer, as copied from staging. */
    var vertexData: seq<Vertex>
    /** Contents of the device-local index buffer, as copied from staging. */
    var indexData: seq<nat>
    /** The graphics-API calls made so far, in order. */
    var calls: seq<GpuCall>

    /** Every key is below the id counter and every id below it is in use; meshes are voxel meshes. */
    ghost predicate Valid()
      reads this
    {
      && idCount < U32Limit
      && (forall id: nat :: id in voxels <==> id < idCount)
      && WellFormedVoxels(voxels)
    }

    constructor ()
      ensures Valid()
      ensures voxels == map[] && idCount == 0 && ri.numIndices == 0
      ensures vertexData == [] && indexData == [] && calls == []
    {
      voxels := map[];
      idCount := 0;
      ri := RendererInfo(NullBuffer, NullMemory, NullBuffer, NullMemory, 0);
      vertexData := [];
      indexData := [];
      calls := [];
    }

    /**
      Inserts a default unit cube placed at `position` under key idCount and
      then increments the 32-bit counter.  The key was free; while the counter
      does not wrap the map grows by one and the invariant is kept.
     */
    method AddVoxel(position: Vec3)
      requires Valid()
      modifies this
      ensures old(idCount) !in old(voxels)
      ensures voxels == old(voxels)[old(idCount) := Voxel(VoxelModel.Default(), TransformAt(position))]
      ensures idCount == (old(idCount) + 1) % U32Limit
      ensures ri == old(ri) && vertexData == old(vertexData) && indexData == old(indexData) && calls == old(calls)
      ensures old(idCount) + 1 < U32Limit ==> Valid() && |voxels| == |old(voxels)| + 1
    {
      var v := Voxel(VoxelModel.Default(), TransformAt(position));
      voxels := voxels[idCount := v];
      idCount := (idCount + 1) % U32Limit;
    }

    /** Builds both batch buffers; afterwards the draw count is 36 per voxel. */
    method FinishScene(order: seq<nat>, vertexStaging: Allocation, vertexDevice: Allocation,
                       indexStaging: Allocation, indexDevice: Allocation)
      requires Valid() && Enumerates(order, voxels)
      requires VoxelModel.IndicesPerVoxel * |voxels| <= I32Max
      modifies this
      ensures Valid() && voxels == old(voxels) && idCount == old(idCount)
      ensures vertexData == Pack(VertexBlocks(voxels, order))
      ensures indexData == Pack<nat>(IndexBlocks(voxels, order))
      ensures |vertexData| == VoxelModel.VerticesPerVoxel * |voxels|
      ensures |indexData| == VoxelModel.IndicesPerVoxel * |voxels|
      ensures ri == RendererInfo(vertexDevice.buffer, vertexDevice.memory, indexDevice.buffer, indexDevice.memory,
                                 VoxelModel.IndicesPerVoxel * |voxels|)
      ensures calls == old(calls)
        + UploadCalls(VertexSize * |voxels| * VoxelModel.VerticesPerVoxel, VertexDestination, vertexStaging, vertexDevice)
        + UploadCalls(VoxelModel.IndicesPerVoxel * |voxels| * IndexSize, IndexDestination, indexStaging, indexDevice)
    {
      CreateVertexBuffer(order, vertexStaging, vertexDevice);
      CreateIndexBuffer(order, indexStaging, indexDevice);
      EnumerationLength(order, voxels);
      BlockWidths(voxels, order);
      PackLength(VertexBlocks(voxels, order), VoxelModel.VerticesPerVoxel);
      PackLength(IndexBlocks(voxels, order), VoxelModel.IndicesPerVoxel);
    }

    /** Releases the two buffers and the two memory allocations recorded in ri. */
    method TerminateScene()
      modifies this
      ensures calls == old(calls) + TerminateCalls(ri)
      ensures voxels == old(voxels) && idCount == old(idCount) && ri == old(ri)
      ensures vertexData == old(vertexData) && indexData == old(indexData)
    {
      calls := calls + [DestroyBuffer(ri.vertexBuffer), FreeMemory(ri.vertexBufferMemory)];
      calls := calls + [DestroyBuffer(ri.indexBuffer), FreeMemory(ri.indexBufferMemory)];
    }

    /**
      Packs every voxel's 8 vertices, in iteration order, into a staging buffer
      of 8 slots per voxel at slots i * 8 + j, and uploads it.
     */
    method CreateVertexBuffer(order: seq<nat>, staging: Allocation, device: Allocation)
      requires Valid() && Enumerates(order, voxels)
      modifies this
      ensures voxels == old(voxels) && idCount == old(idCount) && indexData == old(indexData)
      ensures vertexData == Pack(VertexBlocks(voxels, order))
      ensures ri == old(ri).(vertexBuffer := device.buffer, vertexBufferMemory := device.memory)
      ensures calls == old(calls)
        + UploadCalls(VertexSize * |voxels| * VoxelModel.VerticesPerVoxel, VertexDestination, staging, device)
    {
      EnumerationLength(order, voxels);
      var bufferSize := VertexSize * |voxels| * VoxelModel.VerticesPerVoxel;
      calls := calls + [CreateBuffer(bufferSize, StagingSource, staging.buffer, staging.memory),
                        MapMemory(staging.memory, bufferSize)];
      var data := new Vertex[|voxels| * VoxelModel.VerticesPerVoxel];
      ghost var blocks := VertexBlocks(voxels, order);
      var i := 0;
      while i < |order|
        modifies data
        invariant 0 <= i <= |order|
        invariant data.Length == 8 * |order|
        invariant data[..8 * i] == Pack(blocks[..i])
      {
        var src := voxels[order[i]].model.vertices;
        Memcpy(data, 8 * i, src);
        PackStep(blocks, i);
        i := i + 1;
      }
      assert data[..] == data[..8 * i];
      assert blocks[..i] == blocks;
      calls := calls + [UnmapMemory(staging.memory),
                        CreateBuffer(bufferSize, VertexDestination, device.buffer, device.memory),
                        CopyBuffer(staging.buffer, device.buffer, bufferSize),
                        DestroyBuffer(staging.buffer),
                        FreeMemory(staging.memory)];
      ri := ri.(vertexBuffer := device.buffer, vertexBufferMemory := device.memory);
      vertexData := data[..];
    }

    /**
      Packs every voxel's 36 indices, in iteration order and unchanged, into a
      staging buffer of 36 slots per voxel at slots i * 36 + j, uploads it and
      sets the draw count to 36 per copied voxel.
     */
    method CreateIndexBuffer(order: seq<nat>, staging: Allocation, device: Allocation)
      requires Valid() && Enumerates(order, voxels)
      requires VoxelModel.IndicesPerVoxel * |voxels| <= I32Max
      modifies this
      ensures voxels == old(voxels) && idCount == old(idCount) && vertexData == old(vertexData)
      ensures indexData == Pack<nat>(IndexBlocks(voxels, order))
      ensures ri == old(ri).(indexBuffer := device.buffer, indexBufferMemory := device.memory,
                             numIndices := VoxelModel.IndicesPerVoxel * |voxels|)
      ensures calls == old(calls)
        + UploadCalls(VoxelModel.IndicesPerVoxel * |voxels| * IndexSize, IndexDestination, staging, device)
    {
      EnumerationLength(order, voxels);
      var bufferSize := VoxelModel.IndicesPerVoxel * |voxels| * IndexSize;
      calls := calls + [CreateBuffer(bufferSize, StagingSource, staging.buffer, staging.memory),
                        MapMemory(staging.memory, bufferSize)];
      var data := new nat[|voxels| * VoxelModel.IndicesPerVoxel];
      ghost var blocks := IndexBlocks(voxels, order);
      var i := 0;
      while i < |order|
        modifies data
        invariant 0 <= i <= |order|
        invariant data.Length == 36 * |order|
        invariant data[..36 * i] == Pack<nat>(blocks[..i])
      {
        var src := voxels[order[i]].model.indices;
        Memcpy(data, 36 * i, src);
        PackStep(blocks, i);
        i := i + 1;
      }
      assert data[..] == data[..36 * i];
      assert blocks[..i] == blocks;
      ri := ri.(numIndices := i * 36);
      calls := calls + [UnmapMemory(staging.memory),
                        CreateBuffer(bufferSize, IndexDestination, device.buffer, device.memory),
                        CopyBuffer(staging.buffer, device.buffer, bufferSize),
                        DestroyBuffer(staging.buffer),
                        FreeMemory(staging.memory)];
      ri := ri.(indexBuffer := device.buffer, indexBufferMemory := device.memory);
      indexData := data[..];
    }
  }
}
