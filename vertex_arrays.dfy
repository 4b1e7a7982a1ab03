/** The vertex-array data `make_varray_not_with_index` and
    `make_varray_with_index` build from the parsed geometry, as functions of
    the geometry; the imperative builders in `WaveFront` are proved to
    produce exactly these values. */
module VertexArrays {
  import opened ObjTypes

  /** One resolved corner: position, texture coordinate and normal. */
  datatype Attr = Attr(pos: Vec3, uv: Uv, nrm: Vec3)

  /** `@vertex_array_data` once built. `face` is None when the hash has no
      `:face` key, as after an expanded build. */
  datatype VArray = VArray(vertex: seq<Vec3>, normal: seq<Vec3>, uv: seq<Uv>, face: Option<seq<seq<nat>>>)

  /** The corner's indices address existing elements. Ruby would read nil
      (or count from the end) otherwise; the model does not go there. */
  predicate CornerInRange(g: GeometryRecord, c: Corner)
  {
    && 0 <= c.vi < |g.vertexs|
    && (c.vti.Some? ==> 0 <= c.vti.value < |g.uvs|)
    && (c.vni.Some? ==> 0 <= c.vni.value < |g.normals|)
  }

  predicate CornersInRange(g: GeometryRecord, cs: seq<Corner>)
  {
    forall k :: 0 <= k < |cs| ==> CornerInRange(g, cs[k])
  }

  predicate FacesInRange(g: GeometryRecord, fs: seq<Face>)
  {
    forall n :: 0 <= n < |fs| ==> CornersInRange(g, fs[n].corners)
  }

  predicate IndicesInRange(g: GeometryRecord)
  {
    forall m :: m in g.faces ==> FacesInRange(g, g.faces[m])
  }

  /** The attributes of one corner: the position without w; the texture
      coordinate (u, v), v replaced by 1 - v when flipping, (0, 0) when the
      corner has none; the normal, (0, 0, 0) when the corner has none. */
  function Resolve(g: GeometryRecord, c: Corner, vflip: bool): (a: Attr)
    requires CornerInRange(g, c)
    ensures a.pos == Vec3(g.vertexs[c.vi].x, g.vertexs[c.vi].y, g.vertexs[c.vi].z)
    ensures c.vti.None? ==> a.uv == Uv(0.0, 0.0)
    ensures c.vti.Some? ==>
      a.uv == Uv(g.uvs[c.vti.value].u, if vflip then 1.0 - g.uvs[c.vti.value].v else g.uvs[c.vti.value].v)
    ensures c.vni.None? ==> a.nrm == Vec3(0.0, 0.0, 0.0)
    ensures c.vni.Some? ==> a.nrm == g.normals[c.vni.value]
  {
    var p := g.vertexs[c.vi];
    var uv := if c.vti.Some? then
                var t := g.uvs[c.vti.value];
                Uv(t.u, if vflip then 1.0 - t.v else t.v)
              else Uv(0.0, 0.0);
    var n := if c.vni.Some? then g.normals[c.vni.value] else Vec3(0.0, 0.0, 0.0);
    Attr(Vec3(p.x, p.y, p.z), uv, n)
  }

  /** The attributes of a run of corners, one per corner, in order. */
  function CornerAttrs(g: GeometryRecord, cs: seq<Corner>, vflip: bool): (attrs: seq<Attr>)
    requires CornersInRange(g, cs)
    ensures |attrs| == |cs|
    ensures forall k :: 0 <= k < |cs| ==> attrs[k] == Resolve(g, cs[k], vflip)
  {
    if cs == [] then []
    else CornerAttrs(g, cs[..|cs| - 1], vflip) + [Resolve(g, cs[|cs| - 1], vflip)]
  }

  /** The number of corners of a run of faces. */
  function CornerCount(fs: seq<Face>): nat
  {
    if fs == [] then 0 else CornerCount(fs[..|fs| - 1]) + |fs[|fs| - 1].corners|
  }

  /** The attributes of the corners of a run of faces: faces in order,
      corners in order within a face. */
  function FaceAttrs(g: GeometryRecord, fs: seq<Face>, vflip: bool): (attrs: seq<Attr>)
    requires FacesInRange(g, fs)
    ensures |attrs| == CornerCount(fs)
  {
    if fs == [] then []
    else FaceAttrs(g, fs[..|fs| - 1], vflip) + CornerAttrs(g, fs[|fs| - 1].corners, vflip)
  }

  /** The faces stored under `m`, or none when `m` has no list. */
  function FacesOf(g: GeometryRecord, m: string): seq<Face>
  {
    if m in g.faces then g.faces[m] else []
  }

  /** The attributes of every corner, materials in the order `order`. */
  function ListAttrs(g: GeometryRecord, order: seq<string>, vflip: bool): seq<Attr>
    requires IndicesInRange(g)
  {
    if order == [] then []
    else ListAttrs(g, order[..|order| - 1], vflip) + FaceAttrs(g, FacesOf(g, order[|order| - 1]), vflip)
  }

  /** The stored faces of the materials `order`, materials in that order. */
  function ListFaces(g: GeometryRecord, order: seq<string>): (fs: seq<Face>)
    ensures IndicesInRange(g) ==> FacesInRange(g, fs)
  {
    if order == [] then []
    else ListFaces(g, order[..|order| - 1]) + FacesOf(g, order[|order| - 1])
  }

  /** Materials in order: the faces of `o1 + o2` are those of `o1` followed
      by those of `o2`, and one material contributes its own list. */
  lemma {:induction false} ListFacesAppend(g: GeometryRecord, o1: seq<string>, o2: seq<string>)
    ensures ListFaces(g, o1 + o2) == ListFaces(g, o1) + ListFaces(g, o2)
    ensures |o2| == 1 ==> ListFaces(g, o2) == FacesOf(g, o2[0])
    decreases |o2|
  {
    if o2 == [] {
      assert o1 + o2 == o1;
    } else {
      var init := o2[..|o2| - 1];
      ListFacesAppend(g, o1, init);
      assert (o1 + o2)[..|o1 + o2| - 1] == o1 + init;
      assert (o1 + o2)[|o1 + o2| - 1] == o2[|o2| - 1];
      if |o2| == 1 {
        assert init == [];
      }
    }
  }

  function Positions(attrs: seq<Attr>): seq<Vec3>
  {
    seq(|attrs|, i requires 0 <= i < |attrs| => attrs[i].pos)
  }

  function TexCoords(attrs: seq<Attr>): seq<Uv>
  {
    seq(|attrs|, i requires 0 <= i < |attrs| => attrs[i].uv)
  }

  function Normals(attrs: seq<Attr>): seq<Vec3>
  {
    seq(|attrs|, i requires 0 <= i < |attrs| => attrs[i].nrm)
  }

  /** The three arrays of expanded mode for the corners `attrs`: one
      position per corner; the uv and normal arrays stay empty unless their
      use-flag is set. */
  datatype Expansion = Expansion(vertex: seq<Vec3>, normal: seq<Vec3>, uv: seq<Uv>)

  function Project(g: GeometryRecord, attrs: seq<Attr>): Expansion
  {
    Expansion(Positions(attrs), if g.useNormal then Normals(attrs) else [], if g.useUv then TexCoords(attrs) else [])
  }

  /** One corner appended to the expanded arrays: its position always, its
      normal and uv only under their use-flags. */
  function Push(g: GeometryRecord, e: Expansion, a: Attr): Expansion
  {
    Expansion(e.vertex + [a.pos],
              if g.useNormal then e.normal + [a.nrm] else e.normal,
              if g.useUv then e.uv + [a.uv] else e.uv)
  }

  /** The corners `attrs` appended one by one to the expanded arrays `e`. */
  function Extend(g: GeometryRecord, e: Expansion, attrs: seq<Attr>): Expansion
  {
    if attrs == [] then e
    else Push(g, Extend(g, e, attrs[..|attrs| - 1]), attrs[|attrs| - 1])
  }

  /** What `make_varray_not_with_index` stores: the arrays of every corner,
      and no `:face` key. */
  function Expanded(g: GeometryRecord, vflip: bool): (r: VArray)
    requires IndicesInRange(g)
    ensures var attrs := ListAttrs(g, g.faceOrder, vflip);
      && |r.vertex| == |attrs|
      && (forall k :: 0 <= k < |attrs| ==> r.vertex[k] == attrs[k].pos)
      && |r.uv| == (if g.useUv then |attrs| else 0)
      && |r.normal| == (if g.useNormal then |attrs| else 0)
      && (g.useUv ==> forall k :: 0 <= k < |attrs| ==> r.uv[k] == attrs[k].uv)
      && (g.useNormal ==> forall k :: 0 <= k < |attrs| ==> r.normal[k] == attrs[k].nrm)
      && r.face.None?
  {
    var e := Project(g, ListAttrs(g, g.faceOrder, vflip));
    VArray(e.vertex, e.normal, e.uv, None)
  }

  // ---------------------------------------------------------------------
  // Indexed mode

  /** The three parallel arrays `make_varray_with_index` grows. */
  datatype Tables = Tables(vertex: seq<Vec3>, uv: seq<Uv>, normal: seq<Vec3>)

  const NoTables: Tables := Tables([], [], [])

  predicate Parallel(t: Tables)
  {
    |t.uv| == |t.vertex| && |t.normal| == |t.vertex|
  }

  /** Entry `i` of the tables. */
  function At(t: Tables, i: nat): Attr
    requires Parallel(t) && i < |t.vertex|
  {
    Attr(t.vertex[i], t.uv[i], t.normal[i])
  }

  /** `t'` only appends to `t`. */
  predicate Extends(t: Tables, t': Tables)
  {
    t.vertex <= t'.vertex && t.uv <= t'.uv && t.normal <= t'.normal
  }

  /** The reuse test: the FIRST entry whose position equals `a.pos` is reused
      when its uv and normal match too; a later entry equal to `a` is never
      looked at. */
  function Lookup(t: Tables, a: Attr): (r: Option<nat>)
    requires Parallel(t)
    ensures r.Some? ==> r.value < |t.vertex| && At(t, r.value) == a && a.pos !in t.vertex[..r.value]
    ensures r.None? ==> forall i :: 0 <= i < |t.vertex| && At(t, i) == a ==> a.pos in t.vertex[..i]
  {
    match FirstIndex(t.vertex, a.pos)
    case None => None
    case Some(i) =>
      if t.uv[i] == a.uv && t.normal[i] == a.nrm then Some(i)
      else
        assert forall j :: 0 <= j < |t.vertex| && At(t, j) == a ==> a.pos in t.vertex[..j] by {
          forall j | 0 <= j < |t.vertex| && At(t, j) == a
            ensures a.pos in t.vertex[..j]
          {
            if j > i {
              assert t.vertex[..j][i] == a.pos;
            }
          }
        }
        None
  }

  /** A new entry at the end of the three arrays. */
  function Insert(t: Tables, a: Attr): Tables
  {
    Tables(t.vertex + [a.pos], t.uv + [a.uv], t.normal + [a.nrm])
  }

  /** Every index of `idx` names an entry of `t` equal to the attribute at
      the same place of `attrs`. */
  ghost predicate Decodes(t: Tables, idx: seq<nat>, attrs: seq<Attr>)
  {
    && Parallel(t)
    && |idx| == |attrs|
    && forall k :: 0 <= k < |idx| ==> idx[k] < |t.vertex| && At(t, idx[k]) == attrs[k]
  }

  /** One corner of `make_varray_with_index`: reuse the entry Lookup finds,
      or push a new entry and the old count `cnt`. */
  function IndexStep(p: (Tables, seq<nat>), a: Attr): (r: (Tables, seq<nat>))
    requires Parallel(p.0)
    ensures Parallel(r.0) && Extends(p.0, r.0)
    ensures |r.0.vertex| <= |p.0.vertex| + 1
    ensures |r.1| == |p.1| + 1 && r.1[..|p.1|] == p.1
    ensures r.1[|p.1|] < |r.0.vertex| && At(r.0, r.1[|p.1|]) == a
  {
    match Lookup(p.0, a)
    case Some(i) => (p.0, p.1 + [i])
    case None => (Insert(p.0, a), p.1 + [|p.0.vertex|])
  }

  /** The corner loop of `make_varray_with_index` over the attributes
      `attrs`: the tables it leaves and the index list `finfo` it pushes. */
  function IndexCorners(t: Tables, attrs: seq<Attr>): (r: (Tables, seq<nat>))
    requires Parallel(t)
    ensures Parallel(r.0) && Extends(t, r.0)
    ensures |r.0.vertex| <= |t.vertex| + |attrs|
    ensures Decodes(r.0, r.1, attrs)
  {
    if attrs == [] then (t, [])
    else
      var init := attrs[..|attrs| - 1];
      var last := attrs[|attrs| - 1];
      var p := IndexCorners(t, init);
      IndexStepKeeps(t, init, p, last);
      assert init + [last] == attrs;
      IndexStep(p, last)
  }

  /** The face loop: one index list per face, in order. */
  function IndexFaces(t: Tables, g: GeometryRecord, fs: seq<Face>, vflip: bool): (r: (Tables, seq<seq<nat>>))
    requires Parallel(t) && FacesInRange(g, fs)
    ensures Parallel(r.0) && Extends(t, r.0)
    ensures |r.1| == |fs|
    ensures Decodes(r.0, Flatten(r.1), FaceAttrs(g, fs, vflip))
  {
    if fs == [] then (t, [])
    else
      var init := fs[..|fs| - 1];
      var (t1, lists) := IndexFaces(t, g, init, vflip);
      var (t2, idx) := IndexCorners(t1, CornerAttrs(g, fs[|fs| - 1].corners, vflip));
      DecodesExtend(t1, t2, Flatten(lists), FaceAttrs(g, init, vflip));
      DecodesAppend(t2, Flatten(lists), FaceAttrs(g, init, vflip), idx, CornerAttrs(g, fs[|fs| - 1].corners, vflip));
      assert Flatten(lists + [idx]) == Flatten(lists) + idx by {
        assert (lists + [idx])[..|lists|] == lists;
      }
      (t2, lists + [idx])
  }

  /** The material loop: the face lists of the materials `order`, in order. */
  function IndexLists(t: Tables, g: GeometryRecord, order: seq<string>, vflip: bool): (r: (Tables, seq<seq<nat>>))
    requires Parallel(t) && IndicesInRange(g)
    ensures Parallel(r.0) && Extends(t, r.0)
    ensures |r.1| == |ListFaces(g, order)|
    ensures Decodes(r.0, Flatten(r.1), ListAttrs(g, order, vflip))
  {
    if order == [] then (t, [])
    else
      var init := order[..|order| - 1];
      var (t1, lists) := IndexLists(t, g, init, vflip);
      var fs := FacesOf(g, order[|order| - 1]);
      var (t2, more) := IndexFaces(t1, g, fs, vflip);
      DecodesExtend(t1, t2, Flatten(lists), ListAttrs(g, init, vflip));
      DecodesAppend(t2, Flatten(lists), ListAttrs(g, init, vflip), Flatten(more), FaceAttrs(g, fs, vflip));
      FlattenAppend(lists, more);
      (t2, lists + more)
  }

  /** What `make_varray_with_index` stores: three parallel arrays and one
      index list per stored face. */
  function Indexed(g: GeometryRecord, vflip: bool): (r: VArray)
    requires IndicesInRange(g)
    ensures r.face.Some? && |r.face.value| == |ListFaces(g, g.faceOrder)|
    ensures |r.uv| == |r.vertex| && |r.normal| == |r.vertex|
  {
    var (t, lists) := IndexLists(NoTables, g, g.faceOrder, vflip);
    VArray(t.vertex, t.normal, t.uv, Some(lists))
  }

  /** The builder `make_varray_data` picks. */
  function Build(g: GeometryRecord, useIndex: bool, vflip: bool): (r: VArray)
    requires IndicesInRange(g)
    ensures r.face.Some? <==> useIndex
  {
    if useIndex then Indexed(g, vflip) else Expanded(g, vflip)
  }

  /** `make_varray_data(vflip, force)`: the cache is rebuilt only when it is
      empty or the caller forces it. */
  function Refreshed(cache: Option<VArray>, g: GeometryRecord, useIndex: bool, vflip: bool, force: bool): (r: VArray)
    requires IndicesInRange(g)
    ensures cache.Some? && !force ==> r == cache.value
    ensures cache.None? || force ==> (r.face.Some? <==> useIndex)
  {
    if cache.None? || force then Build(g, useIndex, vflip) else cache.value
  }

  function Flatten<T>(xss: seq<seq<T>>): seq<T>
  {
    if xss == [] then [] else Flatten(xss[..|xss| - 1]) + xss[|xss| - 1]
  }

  /** `.flatten` of an array of `[x, y, z]`. */
  function FlattenVec3(vs: seq<Vec3>): (r: seq<real>)
    ensures |r| == 3 * |vs|
    ensures forall i :: 0 <= i < |vs| ==> r[3 * i] == vs[i].x && r[3 * i + 1] == vs[i].y && r[3 * i + 2] == vs[i].z
  {
    if vs == [] then []
    else
      var v := vs[|vs| - 1];
      FlattenVec3(vs[..|vs| - 1]) + [v.x, v.y, v.z]
  }

  /** `.flatten` of an array of `[u, v]`. */
  function FlattenUv(vs: seq<Uv>): (r: seq<real>)
    ensures |r| == 2 * |vs|
    ensures forall i :: 0 <= i < |vs| ==> r[2 * i] == vs[i].u && r[2 * i + 1] == vs[i].v
  {
    if vs == [] then []
    else
      var v := vs[|vs| - 1];
      FlattenUv(vs[..|vs| - 1]) + [v.u, v.v]
  }

  // ---------------------------------------------------------------------
  // Lemmas

  lemma DecodesExtend(t: Tables, t': Tables, idx: seq<nat>, attrs: seq<Attr>)
    requires Decodes(t, idx, attrs) && Parallel(t') && Extends(t, t')
    ensures Decodes(t', idx, attrs)
  {
    forall k | 0 <= k < |idx|
      ensures idx[k] < |t'.vertex| && At(t', idx[k]) == attrs[k]
    {
      assert t'.vertex[idx[k]] == t.vertex[idx[k]];
      assert t'.uv[idx[k]] == t.uv[idx[k]];
      assert t'.normal[idx[k]] == t.normal[idx[k]];
    }
  }

  /** What IndexCorners promises survives one more IndexStep. */
  lemma IndexStepKeeps(t: Tables, init: seq<Attr>, p: (Tables, seq<nat>), a: Attr)
    requires Parallel(t) && Parallel(p.0) && Extends(t, p.0)
    requires |p.0.vertex| <= |t.vertex| + |init| && Decodes(p.0, p.1, init)
    ensures var r := IndexStep(p, a);
      && Parallel(r.0) && Extends(t, r.0)
      && |r.0.vertex| <= |t.vertex| + |init| + 1
      && Decodes(r.0, r.1, init + [a])
  {
    var r := IndexStep(p, a);
    DecodesStep(p.0, p.1, init, r.0, r.1, a);
  }

  lemma DecodesStep(t: Tables, idx: seq<nat>, done: seq<Attr>, t': Tables, idx': seq<nat>, a: Attr)
    requires Decodes(t, idx, done) && Parallel(t') && Extends(t, t')
    requires |idx'| == |idx| + 1 && idx'[..|idx|] == idx
    requires idx'[|idx|] < |t'.vertex| && At(t', idx'[|idx|]) == a
    ensures Decodes(t', idx', done + [a])
  {
    DecodesExtend(t, t', idx, done);
    forall k | 0 <= k < |idx|
      ensures idx'[k] == idx[k]
    {
      assert idx'[..|idx|][k] == idx[k];
    }
  }

  lemma DecodesAppend(t: Tables, i1: seq<nat>, a1: seq<Attr>, i2: seq<nat>, a2: seq<Attr>)
    requires Decodes(t, i1, a1) && Decodes(t, i2, a2)
    ensures Decodes(t, i1 + i2, a1 + a2)
  {
    forall k | 0 <= k < |i1 + i2|
      ensures (i1 + i2)[k] < |t.vertex| && At(t, (i1 + i2)[k]) == (a1 + a2)[k]
    {
      if k >= |i1| {
        assert (i1 + i2)[k] == i2[k - |i1|];
      }
    }
  }

  lemma {:induction false} FlattenAppend<T>(a: seq<seq<T>>, b: seq<seq<T>>)
    ensures Flatten(a + b) == Flatten(a) + Flatten(b)
    decreases |b|
  {
    if b == [] {
      assert a + b == a;
    } else {
      var b' := b[..|b| - 1];
      FlattenAppend(a, b');
      assert (a + b)[..|a + b| - 1] == a + b';
    }
  }

  // Unfolding one more element of each loop of the builders.

  lemma CornerAttrsPrefix(g: GeometryRecord, cs: seq<Corner>, k: nat, vflip: bool)
    requires CornersInRange(g, cs) && k < |cs|
    ensures CornersInRange(g, cs[..k]) && CornersInRange(g, cs[..k + 1])
    ensures CornerAttrs(g, cs[..k + 1], vflip) == CornerAttrs(g, cs[..k], vflip) + [Resolve(g, cs[k], vflip)]
  {
    assert cs[..k + 1][..k] == cs[..k];
  }

  lemma FaceAttrsPrefix(g: GeometryRecord, fs: seq<Face>, n: nat, vflip: bool)
    requires FacesInRange(g, fs) && n < |fs|
    ensures FacesInRange(g, fs[..n]) && FacesInRange(g, fs[..n + 1]) && CornersInRange(g, fs[n].corners)
    ensures FaceAttrs(g, fs[..n + 1], vflip) == FaceAttrs(g, fs[..n], vflip) + CornerAttrs(g, fs[n].corners, vflip)
  {
    assert fs[..n + 1][..n] == fs[..n];
  }

  lemma ListAttrsPrefix(g: GeometryRecord, order: seq<string>, i: nat, vflip: bool)
    requires IndicesInRange(g) && i < |order|
    ensures ListAttrs(g, order[..i + 1], vflip) == ListAttrs(g, order[..i], vflip) + FaceAttrs(g, FacesOf(g, order[i]), vflip)
  {
    assert order[..i + 1][..i] == order[..i];
  }

  lemma IndexCornersSnoc(t: Tables, attrs: seq<Attr>, a: Attr)
    requires Parallel(t)
    ensures IndexCorners(t, attrs + [a]) == IndexStep(IndexCorners(t, attrs), a)
  {
    assert (attrs + [a])[..|attrs|] == attrs;
  }

  lemma IndexFacesPrefix(t: Tables, g: GeometryRecord, fs: seq<Face>, n: nat, vflip: bool)
    requires Parallel(t) && FacesInRange(g, fs) && n < |fs|
    ensures FacesInRange(g, fs[..n]) && FacesInRange(g, fs[..n + 1])
    ensures var p := IndexFaces(t, g, fs[..n], vflip);
      var q := IndexCorners(p.0, CornerAttrs(g, fs[n].corners, vflip));
      IndexFaces(t, g, fs[..n + 1], vflip) == (q.0, p.1 + [q.1])
  {
    assert fs[..n + 1][..n] == fs[..n];
  }

  /** The loop step of the face loop: face `n` indexed after faces
      `fs[..n]` extends the tables and adds one index list. */
  lemma IndexFacesStep(t0: Tables, g: GeometryRecord, fs: seq<Face>, n: nat, vflip: bool,
                       t: Tables, lists: seq<seq<nat>>, t': Tables, finfo: seq<nat>)
    requires Parallel(t0) && FacesInRange(g, fs) && n < |fs|
    requires FacesInRange(g, fs[..n]) && IndexFaces(t0, g, fs[..n], vflip) == (t, lists)
    requires CornersInRange(g, fs[n].corners) && Parallel(t)
    requires IndexCorners(t, CornerAttrs(g, fs[n].corners, vflip)) == (t', finfo)
    ensures FacesInRange(g, fs[..n + 1]) && IndexFaces(t0, g, fs[..n + 1], vflip) == (t', lists + [finfo])
  {
    IndexFacesPrefix(t0, g, fs, n, vflip);
  }

  lemma IndexListsPrefix(t: Tables, g: GeometryRecord, order: seq<string>, i: nat, vflip: bool)
    requires Parallel(t) && IndicesInRange(g) && i < |order|
    ensures var p := IndexLists(t, g, order[..i], vflip);
      var q := IndexFaces(p.0, g, FacesOf(g, order[i]), vflip);
      IndexLists(t, g, order[..i + 1], vflip) == (q.0, p.1 + q.1)
  {
    assert order[..i + 1][..i] == order[..i];
  }

  lemma FacesOfInRange(g: GeometryRecord, m: string)
    requires IndicesInRange(g)
    ensures FacesInRange(g, FacesOf(g, m))
  {
  }

  lemma ExtendSnoc(g: GeometryRecord, e: Expansion, attrs: seq<Attr>, a: Attr)
    ensures Extend(g, e, attrs + [a]) == Push(g, Extend(g, e, attrs), a)
  {
    assert (attrs + [a])[..|attrs|] == attrs;
  }

  lemma {:induction false} ExtendAppend(g: GeometryRecord, e: Expansion, xs: seq<Attr>, ys: seq<Attr>)
    ensures Extend(g, e, xs + ys) == Extend(g, Extend(g, e, xs), ys)
    decreases |ys|
  {
    if ys == [] {
      assert xs + ys == xs;
    } else {
      var init := ys[..|ys| - 1];
      var y := ys[|ys| - 1];
      ExtendAppend(g, e, xs, init);
      ExtendSnoc(g, e, xs + init, y);
      ExtendSnoc(g, Extend(g, e, xs), init, y);
      assert xs + ys == (xs + init) + [y];
      assert init + [y] == ys;
    }
  }

  /** Appending corners one by one projects the concatenation. */
  lemma {:induction false} ProjectExtend(g: GeometryRecord, done: seq<Attr>, attrs: seq<Attr>)
    ensures Project(g, done + attrs) == Extend(g, Project(g, done), attrs)
    decreases |attrs|
  {
    if attrs == [] {
      assert done + attrs == done;
    } else {
      var init := attrs[..|attrs| - 1];
      var a := attrs[|attrs| - 1];
      ProjectExtend(g, done, init);
      ProjectSnoc(g, done + init, a);
      assert done + attrs == (done + init) + [a];
    }
  }

  lemma ProjectSnoc(g: GeometryRecord, done: seq<Attr>, a: Attr)
    ensures Project(g, done + [a]) == Push(g, Project(g, done), a)
  {
    assert Positions(done + [a]) == Positions(done) + [a.pos];
    assert TexCoords(done + [a]) == TexCoords(done) + [a.uv];
    assert Normals(done + [a]) == Normals(done) + [a.nrm];
  }

  /** After an expanded build, switching `use_index` on does not rebuild the
      cache, and the `:face` key `get_face_array` reads is missing. */
  lemma StaleCacheHasNoFace(g: GeometryRecord, vflip: bool, vflip': bool)
    requires IndicesInRange(g)
    ensures Refreshed(Some(Build(g, false, vflip)), g, true, vflip', false).face.None?
  {
  }

  /** The `vflip` rule: flipping only replaces v by 1 - v in a texture
      coordinate the corner has; positions, normals and the (0, 0) default
      are the same either way. */
  lemma VflipRule(g: GeometryRecord, c: Corner)
    requires CornerInRange(g, c)
    ensures var f, n := Resolve(g, c, true), Resolve(g, c, false);
      && f.pos == n.pos && f.nrm == n.nrm && f.uv.u == n.uv.u
      && f.uv.v == (if c.vti.Some? then 1.0 - n.uv.v else n.uv.v)
  {
  }

  /** Indexed mode reproduces expanded mode: following the flattened face
      array through the indexed arrays gives the expanded arrays entry for
      entry, the three indexed arrays have one common length, and that
      length never exceeds the number of corners. */
  lemma IndexedMatchesExpanded(g: GeometryRecord, vflip: bool)
    requires IndicesInRange(g)
    ensures var e, x := Expanded(g, vflip), Indexed(g, vflip);
      && x.face.Some?
      && |x.uv| == |x.vertex| && |x.normal| == |x.vertex| && |x.vertex| <= |e.vertex|
      && PerFace(Tables(x.vertex, x.uv, x.normal), x.face.value, g, ListFaces(g, g.faceOrder), vflip)
      && |Flatten(x.face.value)| == |e.vertex|
      && forall k :: 0 <= k < |e.vertex| ==>
           var i := Flatten(x.face.value)[k];
           && i < |x.vertex|
           && x.vertex[i] == e.vertex[k]
           && (g.useUv ==> x.uv[i] == e.uv[k])
           && (g.useNormal ==> x.normal[i] == e.normal[k])
  {
    var attrs := ListAttrs(g, g.faceOrder, vflip);
    var (t, lists) := IndexLists(NoTables, g, g.faceOrder, vflip);
    IndexListsBound(NoTables, g, g.faceOrder, vflip);
    IndexListsPerFace(NoTables, g, g.faceOrder, vflip);
    assert Decodes(t, Flatten(lists), attrs);
  }

  /** Index list n decodes to the corners of face n, for every face. */
  ghost predicate PerFace(t: Tables, lists: seq<seq<nat>>, g: GeometryRecord, fs: seq<Face>, vflip: bool)
    requires FacesInRange(g, fs)
  {
    |lists| == |fs| && forall n :: 0 <= n < |fs| ==> Decodes(t, lists[n], CornerAttrs(g, fs[n].corners, vflip))
  }

  lemma PerFaceSnoc(t1: Tables, t2: Tables, lists: seq<seq<nat>>, idx: seq<nat>, g: GeometryRecord, fs: seq<Face>, vflip: bool)
    requires fs != [] && FacesInRange(g, fs)
    requires PerFace(t1, lists, g, fs[..|fs| - 1], vflip)
    requires Parallel(t2) && Extends(t1, t2)
    requires Decodes(t2, idx, CornerAttrs(g, fs[|fs| - 1].corners, vflip))
    ensures PerFace(t2, lists + [idx], g, fs, vflip)
  {
    forall n | 0 <= n < |fs|
      ensures Decodes(t2, (lists + [idx])[n], CornerAttrs(g, fs[n].corners, vflip))
    {
      if n < |fs| - 1 {
        assert fs[n] == fs[..|fs| - 1][n];
        DecodesExtend(t1, t2, lists[n], CornerAttrs(g, fs[n].corners, vflip));
      }
    }
  }

  /** One index list per face: list n decodes to the corners of face n. */
  lemma {:induction false} IndexFacesPerFace(t: Tables, g: GeometryRecord, fs: seq<Face>, vflip: bool)
    requires Parallel(t) && FacesInRange(g, fs)
    ensures PerFace(IndexFaces(t, g, fs, vflip).0, IndexFaces(t, g, fs, vflip).1, g, fs, vflip)
  {
    if fs != [] {
      var init := fs[..|fs| - 1];
      var p := IndexFaces(t, g, init, vflip);
      var q := IndexCorners(p.0, CornerAttrs(g, fs[|fs| - 1].corners, vflip));
      IndexFacesPerFace(t, g, init, vflip);
      PerFaceSnoc(p.0, q.0, p.1, q.1, g, fs, vflip);
      assert IndexFaces(t, g, fs, vflip) == (q.0, p.1 + [q.1]);
    }
  }

  lemma PerFaceExtend(t1: Tables, t2: Tables, lists: seq<seq<nat>>, g: GeometryRecord, fs: seq<Face>, vflip: bool)
    requires FacesInRange(g, fs) && PerFace(t1, lists, g, fs, vflip)
    requires Parallel(t2) && Extends(t1, t2)
    ensures PerFace(t2, lists, g, fs, vflip)
  {
    forall n | 0 <= n < |fs|
      ensures Decodes(t2, lists[n], CornerAttrs(g, fs[n].corners, vflip))
    {
      DecodesExtend(t1, t2, lists[n], CornerAttrs(g, fs[n].corners, vflip));
    }
  }

  lemma PerFaceAppend(t: Tables, l1: seq<seq<nat>>, l2: seq<seq<nat>>, g: GeometryRecord, fs1: seq<Face>, fs2: seq<Face>, vflip: bool)
    requires FacesInRange(g, fs1) && FacesInRange(g, fs2)
    requires PerFace(t, l1, g, fs1, vflip) && PerFace(t, l2, g, fs2, vflip)
    ensures FacesInRange(g, fs1 + fs2) && PerFace(t, l1 + l2, g, fs1 + fs2, vflip)
  {
    var fs := fs1 + fs2;
    forall n | 0 <= n < |fs| ensures CornersInRange(g, fs[n].corners) {
      if n < |fs1| { assert fs[n] == fs1[n]; } else { assert fs[n] == fs2[n - |fs1|]; }
    }
    forall n | 0 <= n < |fs|
      ensures Decodes(t, (l1 + l2)[n], CornerAttrs(g, fs[n].corners, vflip))
    {
      if n < |fs1| {
        assert fs[n] == fs1[n] && (l1 + l2)[n] == l1[n];
      } else {
        assert fs[n] == fs2[n - |fs1|] && (l1 + l2)[n] == l2[n - |fs1|];
      }
    }
  }

  /** Over all materials in insertion order: one index list per stored face,
      and list n decodes to the corners of the n-th stored face. */
  lemma {:induction false} IndexListsPerFace(t: Tables, g: GeometryRecord, order: seq<string>, vflip: bool)
    requires Parallel(t) && IndicesInRange(g)
    ensures PerFace(IndexLists(t, g, order, vflip).0, IndexLists(t, g, order, vflip).1, g, ListFaces(g, order), vflip)
  {
    if order != [] {
      var init := order[..|order| - 1];
      var fs := FacesOf(g, order[|order| - 1]);
      var p := IndexLists(t, g, init, vflip);
      FacesOfInRange(g, order[|order| - 1]);
      var q := IndexFaces(p.0, g, fs, vflip);
      IndexListsPerFace(t, g, init, vflip);
      IndexFacesPerFace(p.0, g, fs, vflip);
      PerFaceExtend(p.0, q.0, p.1, g, ListFaces(g, init), vflip);
      PerFaceAppend(q.0, p.1, q.1, g, ListFaces(g, init), fs, vflip);
      assert IndexLists(t, g, order, vflip) == (q.0, p.1 + q.1);
      assert ListFaces(g, order) == ListFaces(g, init) + fs;
    }
  }

  /** The indexed arrays never hold more entries than there are corners. */
  lemma {:induction false} IndexListsBound(t: Tables, g: GeometryRecord, order: seq<string>, vflip: bool)
    requires Parallel(t) && IndicesInRange(g)
    ensures |IndexLists(t, g, order, vflip).0.vertex| <= |t.vertex| + |ListAttrs(g, order, vflip)|
  {
    if order != [] {
      var init := order[..|order| - 1];
      IndexListsBound(t, g, init, vflip);
      var t1 := IndexLists(t, g, init, vflip).0;
      IndexFacesBound(t1, g, FacesOf(g, order[|order| - 1]), vflip);
    }
  }

  lemma {:induction false} IndexFacesBound(t: Tables, g: GeometryRecord, fs: seq<Face>, vflip: bool)
    requires Parallel(t) && FacesInRange(g, fs)
    ensures |IndexFaces(t, g, fs, vflip).0.vertex| <= |t.vertex| + |FaceAttrs(g, fs, vflip)|
  {
    if fs != [] {
      IndexFacesBound(t, g, fs[..|fs| - 1], vflip);
    }
  }

  /** A corner nothing can be reused for gets a new entry at the end, and
      its index is the old count. */
  lemma PushAtMismatch(p: (Tables, seq<nat>), a: Attr)
    requires Parallel(p.0) && Lookup(p.0, a).None?
    ensures IndexStep(p, a) == (Insert(p.0, a), p.1 + [|p.0.vertex|])
  {
  }

  /** A corner whose position is that of entry 0 but which differs from it
      elsewhere is never reused: it is pushed at the old count. */
  lemma MismatchAtFirst(t: Tables, idx: seq<nat>, a: Attr)
    requires Parallel(t) && |t.vertex| > 0 && t.vertex[0] == a.pos && At(t, 0) != a
    ensures IndexStep((t, idx), a) == (Insert(t, a), idx + [|t.vertex|])
  {
    assert FirstIndex(t.vertex, a.pos) == Some(0);
  }

  /** The first corner of the build always gets entry 0. */
  lemma QuirkFirst(a: Attr)
    ensures IndexCorners(NoTables, [a]) == (Tables([a.pos], [a.uv], [a.nrm]), [0])
  {
    IndexCornersSnoc(NoTables, [], a);
    assert [] + [a] == [a];
    assert Lookup(NoTables, a) == None;
    assert Insert(NoTables, a) == Tables([a.pos], [a.uv], [a.nrm]);
  }

  /** A second corner at the same position as the first, differing in its uv
      or its normal, gets its own entry 1. */
  lemma QuirkSecond(a: Attr, b: Attr)
    requires a.pos == b.pos && a != b
    ensures IndexCorners(NoTables, [a, b]) == (Tables([a.pos, b.pos], [a.uv, b.uv], [a.nrm, b.nrm]), [0, 1])
  {
    var t1 := Tables([a.pos], [a.uv], [a.nrm]);
    QuirkFirst(a);
    IndexCornersSnoc(NoTables, [a], b);
    assert [a] + [b] == [a, b];
    MismatchAtFirst(t1, [0], b);
    assert [a.pos] + [b.pos] == [a.pos, b.pos];
    assert [a.uv] + [b.uv] == [a.uv, b.uv];
    assert [a.nrm] + [b.nrm] == [a.nrm, b.nrm];
    assert [0] + [|t1.vertex|] == [0, 1];
  }

  /** The reuse quirk: after two corners at one position that differ
      elsewhere, a third corner equal to the second is compared only with
      the first entry at that position, so it gets an entry of its own and
      the indexed entries are not unique. */
  lemma FirstMatchQuirk(a: Attr, b: Attr)
    requires a.pos == b.pos && a != b
    ensures IndexCorners(NoTables, [a, b, b]) == (Tables([a.pos, b.pos, b.pos], [a.uv, b.uv, b.uv], [a.nrm, b.nrm, b.nrm]), [0, 1, 2])
  {
    var t2 := Tables([a.pos, b.pos], [a.uv, b.uv], [a.nrm, b.nrm]);
    QuirkSecond(a, b);
    IndexCornersSnoc(NoTables, [a, b], b);
    assert [a, b] + [b] == [a, b, b];
    MismatchAtFirst(t2, [0, 1], b);
    assert [a.pos, b.pos] + [b.pos] == [a.pos, b.pos, b.pos];
    assert [a.uv, b.uv] + [b.uv] == [a.uv, b.uv, b.uv];
    assert [a.nrm, b.nrm] + [b.nrm] == [a.nrm, b.nrm, b.nrm];
    assert [0, 1] + [|t2.vertex|] == [0, 1, 2];
  }

  /** A corner repeated at once is stored once and both corners get index 0. */
  lemma ReuseExample(a: Attr)
    ensures IndexCorners(NoTables, [a, a]) == (Tables([a.pos], [a.uv], [a.nrm]), [0, 0])
  {
    QuirkFirst(a);
    IndexCornersSnoc(NoTables, [a], a);
    assert [a] + [a] == [a, a];
    var t1 := Tables([a.pos], [a.uv], [a.nrm]);
    assert t1.vertex[..0] == [];
    assert At(t1, 0) == a;
    ReuseAtFirstMatch((t1, [0]), a, 0);
    assert [0] + [0] == [0, 0];
  }

  /** A corner equal to the first entry with its position reuses that
      entry: no entry is added and that entry's index is pushed. */
  lemma ReuseAtFirstMatch(p: (Tables, seq<nat>), a: Attr, i: nat)
    requires Parallel(p.0) && i < |p.0.vertex| && At(p.0, i) == a && a.pos !in p.0.vertex[..i]
    ensures IndexStep(p, a) == (p.0, p.1 + [i])
  {
    assert p.0.vertex[i] == a.pos;
  }

  /** A second `make_varray_data` without `force` keeps what the first built. */
  lemma RefreshedStable(cache: Option<VArray>, g: GeometryRecord, useIndex: bool, vflip: bool, force: bool, vflip': bool)
    requires IndicesInRange(g)
    ensures var c := Refreshed(cache, g, useIndex, vflip, force);
      Refreshed(Some(c), g, useIndex, vflip', false) == c
  {
  }
}
