/**
  A mesh loaded from an OBJ file.  The parser itself is foreign: its output
  (flat position and texture-coordinate arrays, and the shapes' index lists)
  is the input here, and so is the parser's success flag with its messages.

  Two compile-time branches build the mesh: the default one emits one vertex
  per mesh index with the identity index list; the optimising one keeps each
  distinct vertex once, in first-occurrence order, and emits the position of
  each index's vertex in that list.  The vertical flip of the texture
  coordinate, a float subtraction, is the parameter `flip`.
 */
module LoadedModel {
  import opened Geometry

  /** One mesh index of the parser's output: a position index and a texture-coordinate index. */
  datatype Index = Index(vertexIndex: int, texcoordIndex: int)

  /** A shape of the parser's output; only its mesh indices are read. */
  datatype Shape = Shape(indices: seq<Index>)

  /** The parser's attribute arrays: x, y, z per position and u, v per texture coordinate. */
  datatype Attrib = Attrib(vertices: seq<real>, texcoords: seq<real>)

  /** What the parser returns: its output, or failure with its error and warning text. */
  datatype ObjLoad =
    | Loaded(attrib: Attrib, shapes: seq<Shape>)
    | LoadFailed(err: string, warn: string)

  datatype Result<T> = Success(value: T) | Failure(error: string)

  /** The three positions and two texture coordinates an index reads all exist. */
  predicate InRange(attrib: Attrib, idx: Index)
  {
    && 0 <= idx.vertexIndex && 3 * idx.vertexIndex + 2 < |attrib.vertices|
    && 0 <= idx.texcoordIndex && 2 * idx.texcoordIndex + 1 < |attrib.texcoords|
  }

  /** Every index of every shape reads inside the attribute arrays. */
  predicate WellFormed(attrib: Attrib, shapes: seq<Shape>)
  {
    forall s, j :: 0 <= s < |shapes| && 0 <= j < |shapes[s].indices| ==> InRange(attrib, shapes[s].indices[j])
  }

  predicate AllInRange(attrib: Attrib, idxs: seq<Index>)
  {
    forall k :: 0 <= k < |idxs| ==> InRange(attrib, idxs[k])
  }

  /** The vertex built for one mesh index: its position, white, and its flipped texture coordinate. */
  function MakeVertex(attrib: Attrib, idx: Index, flip: real -> real): (v: Vertex)
    requires InRange(attrib, idx)
  {
    Vertex(Vec3(attrib.vertices[3 * idx.vertexIndex], attrib.vertices[3 * idx.vertexIndex + 1],
                attrib.vertices[3 * idx.vertexIndex + 2]),
           White,
           Vec2(attrib.texcoords[2 * idx.texcoordIndex], flip(attrib.texcoords[2 * idx.texcoordIndex + 1])))
  }

  /**
    A vertex depends only on the three position entries and the two texture
    entries its index names: attribute arrays that agree there build it alike.
   */
  lemma MakeVertexIsLocal(a: Attrib, b: Attrib, idx: Index, flip: real -> real)
    requires InRange(a, idx) && InRange(b, idx)
    requires a.vertices[3 * idx.vertexIndex .. 3 * idx.vertexIndex + 3]
          == b.vertices[3 * idx.vertexIndex .. 3 * idx.vertexIndex + 3]
    requires a.texcoords[2 * idx.texcoordIndex .. 2 * idx.texcoordIndex + 2]
          == b.texcoords[2 * idx.texcoordIndex .. 2 * idx.texcoordIndex + 2]
    ensures MakeVertex(a, idx, flip) == MakeVertex(b, idx, flip)
  {
    var p, q := 3 * idx.vertexIndex, 2 * idx.texcoordIndex;
    assert a.vertices[p] == a.vertices[p .. p + 3][0] == b.vertices[p];
    assert a.vertices[p + 1] == a.vertices[p .. p + 3][1] == b.vertices[p + 1];
    assert a.vertices[p + 2] == a.vertices[p .. p + 3][2] == b.vertices[p + 2];
    assert a.texcoords[q] == a.texcoords[q .. q + 2][0] == b.texcoords[q];
    assert a.texcoords[q + 1] == a.texcoords[q .. q + 2][1] == b.texcoords[q + 1];
  }

  /** The mesh indices of all shapes, shape by shape, in order. */
  function Concat(shapes: seq<Shape>): seq<Index>
  {
    if shapes == [] then [] else Concat(shapes[..|shapes| - 1]) + shapes[|shapes| - 1].indices
  }

  /** The vertex each index of `idxs` builds, in order. */
  function Vertices(attrib: Attrib, idxs: seq<Index>, flip: real -> real): (vs: seq<Vertex>)
    requires AllInRange(attrib, idxs)
    ensures |vs| == |idxs|
  {
    seq(|idxs|, (k: int) requires 0 <= k < |idxs| => MakeVertex(attrib, idxs[k], flip))
  }

  /** The vertex sequence the default branch lays out: one vertex per mesh index. */
  function FlatVertices(attrib: Attrib, shapes: seq<Shape>, flip: real -> real): (vs: seq<Vertex>)
    requires WellFormed(attrib, shapes)
  {
    ConcatInRange(attrib, shapes);
    Vertices(attrib, Concat(shapes), flip)
  }

  /** One more element of `more` extends the prefix by that element. */
  lemma PrefixStep(done: seq<Index>, more: seq<Index>, j: nat)
    requires j < |more|
    ensures done + more[..j + 1] == (done + more[..j]) + [more[j]]
  {
    assert more[..j + 1] == more[..j] + [more[j]];
  }

  /** One more shape appends its indices. */
  lemma ConcatStep(shapes: seq<Shape>, s: nat)
    requires s < |shapes|
    ensures Concat(shapes[..s + 1]) == Concat(shapes[..s]) + shapes[s].indices
  {
    assert shapes[..s + 1][..s] == shapes[..s];
  }

  /** Every index of a well-formed parse reads inside the attribute arrays. */
  lemma {:induction false} ConcatInRange(attrib: Attrib, shapes: seq<Shape>)
    requires WellFormed(attrib, shapes)
    ensures AllInRange(attrib, Concat(shapes))
  {
    if shapes != [] {
      var front := shapes[..|shapes| - 1];
      assert WellFormed(attrib, front) by {
        forall s, j | 0 <= s < |front| && 0 <= j < |front[s].indices|
          ensures InRange(attrib, front[s].indices[j])
        {
          assert front[s] == shapes[s];
        }
      }
      ConcatInRange(attrib, front);
      var last := shapes[|shapes| - 1].indices;
      var c := Concat(front);
      forall k | 0 <= k < |c + last| ensures InRange(attrib, (c + last)[k]) {
        if k >= |c| {
          assert (c + last)[k] == shapes[|shapes| - 1].indices[k - |c|];
        }
      }
    }
  }

  /** The identity index list of the default branch. */
  predicate IsIdentity(indices: seq<nat>)
  {
    forall k :: 0 <= k < |indices| ==> indices[k] == k
  }

  predicate NoDuplicates<T(==)>(s: seq<T>)
  {
    forall i, j :: 0 <= i < j < |s| ==> s[i] != s[j]
  }

  // ---------------------------------------------------------------------
  // The reference definition of de-duplication

  /** The distinct elements of s, each once, in the order they first occur. */
  function FirstOccurrences<T(==)>(s: seq<T>): seq<T>
  {
    if s == [] then []
    else
      var f := FirstOccurrences(s[..|s| - 1]);
      if s[|s| - 1] in f then f else f + [s[|s| - 1]]
  }

  /** The position of the first occurrence of x in s. */
  function IndexOf<T(==)>(s: seq<T>, x: T): (i: nat)
    requires x in s
    ensures i < |s| && s[i] == x
    ensures forall j :: 0 <= j < i ==> s[j] != x
  {
    if s[0] == x then 0 else 1 + IndexOf(s[1..], x)
  }

  /** For each element of s, its position in FirstOccurrences(s). */
  function DedupIndices<T(==)>(s: seq<T>): seq<nat>
  {
    if s == [] then []
    else
      var f := FirstOccurrences(s[..|s| - 1]);
      var x := s[|s| - 1];
      DedupIndices(s[..|s| - 1]) + [if x in f then IndexOf(f, x) else |f|]
  }

  /** Indexing a vertex list: the mesh an index buffer over `vertices` draws. */
  function Expanded<T>(vertices: seq<T>, indices: seq<nat>): (r: seq<T>)
    requires forall k :: 0 <= k < |indices| ==> indices[k] < |vertices|
    ensures |r| == |indices|
  {
    seq(|indices|, (k: int) requires 0 <= k < |indices| => vertices[indices[k]])
  }

  /** FirstOccurrences keeps each element once and holds exactly the elements of s. */
  lemma {:induction false} FirstOccurrencesSpec<T>(s: seq<T>)
    ensures NoDuplicates(FirstOccurrences(s))
    ensures forall x :: x in FirstOccurrences(s) <==> x in s
  {
    if s != [] {
      var front := s[..|s| - 1];
      FirstOccurrencesSpec(front);
      assert s == front + [s[|s| - 1]];
    }
  }

  /** FirstOccurrences lists the distinct elements in the order of their first positions in s. */
  lemma {:induction false} FirstOccurrencesOrder<T>(s: seq<T>, i: nat, j: nat)
    requires i < j < |FirstOccurrences(s)|
    ensures FirstOccurrences(s)[i] in s && FirstOccurrences(s)[j] in s
    ensures IndexOf(s, FirstOccurrences(s)[i]) < IndexOf(s, FirstOccurrences(s)[j])
  {
    var n := |s|;
    var front := s[..n - 1];
    var f := FirstOccurrences(front);
    var fi := FirstOccurrences(s)[i];
    var fj := FirstOccurrences(s)[j];
    FirstOccurrenceIsMember(s, fi);
    FirstOccurrenceIsMember(s, fj);
    if j < |f| {
      assert fi == f[i] && fj == f[j];
      FirstOccurrencesOrder(front, i, j);
      IndexOfPrefix(s, n - 1, fi);
      IndexOfPrefix(s, n - 1, fj);
    } else {
      // fj is the last element of s, which occurs nowhere before it
      assert fi == f[i] && fi in f;
      FirstOccurrenceIsMember(front, fi);
      IndexOfPrefix(s, n - 1, fi);
      FirstOccurrencesSpec(front);
      assert forall k :: 0 <= k < n - 1 ==> s[k] == front[k];
    }
  }

  /** Every element of FirstOccurrences(s) occurs in s. */
  lemma FirstOccurrenceIsMember<T>(s: seq<T>, y: T)
    requires y in FirstOccurrences(s)
    ensures y in s
  {
    FirstOccurrencesSpec(s);
  }

  /**
    The de-duplicated mesh draws the same triangles as the flat one: every
    index addresses the distinct-vertex list and picks out the original vertex.
   */
  lemma {:induction false} DedupRoundTrip<T>(s: seq<T>)
    ensures |DedupIndices(s)| == |s|
    ensures forall k :: 0 <= k < |s| ==> DedupIndices(s)[k] < |FirstOccurrences(s)|
    ensures forall k :: 0 <= k < |s| ==> FirstOccurrences(s)[DedupIndices(s)[k]] == s[k]
  {
    if s != [] {
      var n := |s|;
      var front := s[..n - 1];
      var f := FirstOccurrences(front);
      var x := s[n - 1];
      DedupRoundTrip(front);
      var d := DedupIndices(front);
      var i := if x in f then IndexOf(f, x) else |f|;
      assert DedupIndices(s) == d + [i];
      // FirstOccurrences(front) is a prefix of FirstOccurrences(s)
      assert FirstOccurrences(s)[..|f|] == f;
      forall k | 0 <= k < n
        ensures DedupIndices(s)[k] < |FirstOccurrences(s)|
        ensures FirstOccurrences(s)[DedupIndices(s)[k]] == s[k]
      {
        if k < n - 1 {
          assert DedupIndices(s)[k] == d[k];
          assert s[k] == front[k];
        }
      }
    }
  }

  /** The two branches describe the same mesh. */
  lemma BranchesAgree<T>(s: seq<T>, identity: seq<nat>)
    requires |identity| == |s| && IsIdentity(identity)
    ensures |DedupIndices(s)| == |s|
    ensures forall k :: 0 <= k < |s| ==> DedupIndices(s)[k] < |FirstOccurrences(s)|
    ensures Expanded(FirstOccurrences(s), DedupIndices(s)) == s
    ensures Expanded(s, identity) == s
  {
    DedupRoundTrip(s);
  }

  // ---------------------------------------------------------------------

  class LoadedModel {
    var vertices: seq<Vertex>
    /** The 32-bit indices, as naturals. */
    var indices: seq<nat>

    constructor Empty()
      ensures vertices == [] && indices == []
    {
      vertices := [];
      indices := [];
    }

    /** Every index addresses a vertex. */
    ghost predicate Valid()
      reads this
    {
      forall k :: 0 <= k < |indices| ==> indices[k] < |vertices|
    }

    /**
      The default branch: for each shape and each of its mesh indices, in
      order, push the vertex it builds and then the current index count.
     */
    method LoadFlat(attrib: Attrib, shapes: seq<Shape>, flip: real -> real)
      requires WellFormed(attrib, shapes)
      requires vertices == [] && indices == []
      modifies this
      ensures vertices == FlatVertices(attrib, shapes, flip)
      ensures |indices| == |vertices| == |Concat(shapes)|
      ensures IsIdentity(indices)
      ensures Valid()
    {
      ConcatInRange(attrib, shapes);
      var s := 0;
      while s < |shapes|
        invariant 0 <= s <= |shapes|
        invariant AllInRange(attrib, Concat(shapes[..s]))
        invariant vertices == Vertices(attrib, Concat(shapes[..s]), flip)
        invariant |indices| == |vertices| && IsIdentity(indices)
      {
        var shape := shapes[s];
        ghost var done := Concat(shapes[..s]);
        ghost var cur := done;
        var j := 0;
        while j < |shape.indices|
          invariant 0 <= j <= |shape.indices|
          invariant cur == done + shape.indices[..j]
          invariant AllInRange(attrib, cur)
          invariant vertices == Vertices(attrib, cur, flip)
          invariant |indices| == |vertices| && IsIdentity(indices)
        {
          var index := shape.indices[j];
          assert InRange(attrib, index);
          var vertex := MakeVertex(attrib, index, flip);
          vertices := vertices + [vertex];
          indices := indices + [|indices|];
          VerticesAppend(attrib, cur, index, flip);
          PrefixStep(done, shape.indices, j);
          cur := cur + [index];
          j := j + 1;
        }
        assert shape.indices[..j] == shape.indices;
        ConcatStep(shapes, s);
        s := s + 1;
      }
      assert shapes[..s] == shapes;
    }

    /**
      The optimising branch: a hash map from vertex to its position in
      `vertices`; a vertex not yet in it is appended and recorded, and the
      index pushed is the recorded position.
     */
    method LoadDeduplicated(attrib: Attrib, shapes: seq<Shape>, flip: real -> real)
      requires WellFormed(attrib, shapes)
      requires vertices == [] && indices == []
      modifies this
      ensures vertices == FirstOccurrences(FlatVertices(attrib, shapes, flip))
      ensures indices == DedupIndices(FlatVertices(attrib, shapes, flip))
      ensures NoDuplicates(vertices)
      ensures |indices| == |Concat(shapes)|
      ensures Valid()
      ensures Expanded(vertices, indices) == FlatVertices(attrib, shapes, flip)
    {
      ConcatInRange(attrib, shapes);
      var uniqueVertices: map<Vertex, nat> := map[];
      ghost var seen: seq<Vertex> := [];
      var s := 0;
      while s < |shapes|
        invariant 0 <= s <= |shapes|
        invariant AllInRange(attrib, Concat(shapes[..s]))
        invariant seen == Vertices(attrib, Concat(shapes[..s]), flip)
        invariant vertices == FirstOccurrences(seen) && indices == DedupIndices(seen)
        invariant IndexesVertices(uniqueVertices, vertices)
      {
        ConcatStep(shapes, s);
        assert AllInRange(attrib, shapes[s].indices);
        VerticesConcat(attrib, Concat(shapes[..s]), shapes[s].indices, flip);
        uniqueVertices, seen := DedupShape(attrib, shapes[s].indices, flip, uniqueVertices, seen);
        s := s + 1;
      }
      assert shapes[..s] == shapes;
      FirstOccurrencesSpec(seen);
      DedupRoundTrip(seen);
    }

    /**
      The inner loop of the optimising branch over one shape's mesh indices:
      the list, the index list and the map stay the reference de-duplication
      of every vertex built so far.
     */
    method DedupShape(attrib: Attrib, idxs: seq<Index>, flip: real -> real,
                      m0: map<Vertex, nat>, ghost seen0: seq<Vertex>)
      returns (m: map<Vertex, nat>, ghost seen: seq<Vertex>)
      requires AllInRange(attrib, idxs)
      requires vertices == FirstOccurrences(seen0) && indices == DedupIndices(seen0)
      requires IndexesVertices(m0, vertices)
      modifies this
      ensures seen == seen0 + Vertices(attrib, idxs, flip)
      ensures vertices == FirstOccurrences(seen) && indices == DedupIndices(seen)
      ensures IndexesVertices(m, vertices)
    {
      m, seen := m0, seen0;
      var j := 0;
      while j < |idxs|
        invariant 0 <= j <= |idxs|
        invariant AllInRange(attrib, idxs[..j])
        invariant seen == seen0 + Vertices(attrib, idxs[..j], flip)
        invariant vertices == FirstOccurrences(seen) && indices == DedupIndices(seen)
        invariant IndexesVertices(m, vertices)
      {
        var vertex := MakeVertex(attrib, idxs[j], flip);
        DedupBodyStep(m, vertices, indices, seen, vertex);
        var index: nat;
        if vertex !in m {
          index := |vertices|;
          m := m[vertex := index];
          vertices := vertices + [vertex];
        } else {
          index := m[vertex];
        }
        indices := indices + [index];
        VerticesPrefixStep(attrib, idxs, j, flip);
        seen := seen + [vertex];
        j := j + 1;
      }
      assert idxs[..j] == idxs;
    }
  }

  /** The first position of x is unchanged by appending after a prefix that holds it. */
  lemma IndexOfPrefix<T>(s: seq<T>, n: nat, x: T)
    requires n <= |s| && x in s[..n]
    ensures x in s && IndexOf(s, x) == IndexOf(s[..n], x)
  {
    var i := IndexOf(s[..n], x);
    assert s[i] == x;
    assert forall j :: 0 <= j < i ==> s[j] == s[..n][j];
  }

  /** One more mesh index builds one more vertex. */
  lemma VerticesAppend(attrib: Attrib, idxs: seq<Index>, idx: Index, flip: real -> real)
    requires AllInRange(attrib, idxs) && InRange(attrib, idx)
    ensures AllInRange(attrib, idxs + [idx])
    ensures Vertices(attrib, idxs + [idx], flip) == Vertices(attrib, idxs, flip) + [MakeVertex(attrib, idx, flip)]
  {
    assert AllInRange(attrib, idxs + [idx]) by {
      forall k | 0 <= k < |idxs + [idx]| ensures InRange(attrib, (idxs + [idx])[k]) {
        if k < |idxs| {
          assert (idxs + [idx])[k] == idxs[k];
        }
      }
    }
  }

  /** One more element of a prefix builds one more vertex. */
  lemma VerticesPrefixStep(attrib: Attrib, idxs: seq<Index>, j: nat, flip: real -> real)
    requires AllInRange(attrib, idxs) && j < |idxs|
    ensures AllInRange(attrib, idxs[..j + 1])
    ensures Vertices(attrib, idxs[..j + 1], flip) == Vertices(attrib, idxs[..j], flip) + [MakeVertex(attrib, idxs[j], flip)]
  {
    assert idxs[..j + 1] == idxs[..j] + [idxs[j]];
    VerticesAppend(attrib, idxs[..j], idxs[j], flip);
  }

  /** The vertices of two index lists laid end to end. */
  lemma VerticesConcat(attrib: Attrib, a: seq<Index>, b: seq<Index>, flip: real -> real)
    requires AllInRange(attrib, a) && AllInRange(attrib, b)
    ensures AllInRange(attrib, a + b)
    ensures Vertices(attrib, a + b, flip) == Vertices(attrib, a, flip) + Vertices(attrib, b, flip)
  {
    assert forall k :: 0 <= k < |a + b| ==> (a + b)[k] == if k < |a| then a[k] else b[k - |a|];
  }

  /** Appending one element to the input of the reference de-duplication. */
  lemma DedupStep<T>(seen: seq<T>, x: T)
    ensures FirstOccurrences(seen + [x])
         == if x in FirstOccurrences(seen) then FirstOccurrences(seen) else FirstOccurrences(seen) + [x]
    ensures DedupIndices(seen + [x])
         == DedupIndices(seen) + [if x in FirstOccurrences(seen) then IndexOf(FirstOccurrences(seen), x)
                                  else |FirstOccurrences(seen)|]
  {
    var next := seen + [x];
    assert next[..|next| - 1] == seen;
  }

  /**
    One iteration of the optimising branch keeps the list, the index list and
    the map equal to the reference de-duplication of the vertices seen so far.
   */
  lemma DedupBodyStep(m: map<Vertex, nat>, vertices: seq<Vertex>, indices: seq<nat>, seen: seq<Vertex>, x: Vertex)
    requires vertices == FirstOccurrences(seen) && indices == DedupIndices(seen)
    requires IndexesVertices(m, vertices)
    ensures x !in m ==> && vertices + [x] == FirstOccurrences(seen + [x])
                        && indices + [|vertices|] == DedupIndices(seen + [x])
                        && IndexesVertices(m[x := |vertices|], vertices + [x])
    ensures x in m ==> && m[x] < |vertices| && vertices[m[x]] == x
                       && vertices == FirstOccurrences(seen + [x])
                       && indices + [m[x]] == DedupIndices(seen + [x])
  {
    DedupStep(seen, x);
    if x !in m {
      IndexesVerticesInsert(m, vertices, x);
    }
  }

  /** The hash map sends each vertex of the list, and only those, to its position. */
  ghost predicate IndexesVertices(m: map<Vertex, nat>, vertices: seq<Vertex>)
  {
    && (forall v :: v in m <==> v in vertices)
    && (forall v :: v in m ==> v in vertices && m[v] == IndexOf(vertices, v))
  }

  /** Recording a new vertex at the end keeps the map in step with the list. */
  lemma IndexesVerticesInsert(m: map<Vertex, nat>, vertices: seq<Vertex>, x: Vertex)
    requires IndexesVertices(m, vertices) && x !in vertices
    ensures IndexesVertices(m[x := |vertices|], vertices + [x])
  {
    var vs := vertices + [x];
    assert vs[..|vertices|] == vertices;
    forall v | v in m[x := |vertices|] ensures v in vs && m[x := |vertices|][v] == IndexOf(vs, v) {
      if v != x {
        IndexOfPrefix(vs, |vertices|, v);
      } else {
        assert vs[|vertices|] == x;
        assert forall j :: 0 <= j < |vertices| ==> vs[j] == vertices[j];
      }
    }
  }

  /**
    Loads a model: a parser failure raises its error followed by its warning
    and yields no model; otherwise the branch `optimize` selects builds it.
   */
  method Load(obj: ObjLoad, flip: real -> real, optimize: bool) returns (r: Result<LoadedModel>)
    requires obj.Loaded? ==> WellFormed(obj.attrib, obj.shapes)
    ensures obj.LoadFailed? <==> r.Failure?
    ensures obj.LoadFailed? ==> r.error == obj.err + obj.warn
    ensures r.Success? ==> fresh(r.value) && r.value.Valid()
    ensures r.Success? && !optimize ==>
      && r.value.vertices == FlatVertices(obj.attrib, obj.shapes, flip) && IsIdentity(r.value.indices)
      && |r.value.indices| == |r.value.vertices| == |Concat(obj.shapes)|
    ensures r.Success? && optimize ==>
      && r.value.vertices == FirstOccurrences(FlatVertices(obj.attrib, obj.shapes, flip))
      && r.value.indices == DedupIndices(FlatVertices(obj.attrib, obj.shapes, flip))
  {
    if obj.LoadFailed? {
      return Failure(obj.err + obj.warn);
    }
    var m := new LoadedModel.Empty();
    if optimize {
      m.LoadDeduplicated(obj.attrib, obj.shapes, flip);
    } else {
      m.LoadFlat(obj.attrib, obj.shapes, flip);
    }
    r := Success(m);
  }
}
