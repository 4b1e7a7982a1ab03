/** The class TinyWaveFrontObj: its fields, the two line parsers, the
    texture list, the two vertex-array builders, the cache and the
    accessors, each proved to leave the state the specification modules
    describe. Lines arrive already split into tokens; number conversion is
    a parameter. */
module WaveFront {
  import opened ObjTypes
  import opened FaceRefs
  import opened ObjParser
  import opened MtlParser
  import opened VertexArrays

  /** An accessor's answer: nil, the flattened array, or the NoMethodError
      raised when the cached data has no `:face` key. */
  datatype Access<T> = Absent | Present(values: seq<T>) | Fault

  /** `vertexs.index(xyz)`: the position of the first equal entry, or None. */
  method IndexOf(vs: seq<Vec3>, p: Vec3) returns (r: Option<nat>)
    ensures r == FirstIndex(vs, p)
  {
    var i := 0;
    while i < |vs|
      invariant 0 <= i <= |vs|
      invariant p !in vs[..i]
    {
      if vs[i] == p {
        return Some(i);
      }
      assert vs[..i + 1] == vs[..i] + [vs[i]];
      i := i + 1;
    }
    assert vs[..i] == vs;
    r := None;
  }

  /** The slot loop of `get_texture_list` for one bag: the paths of its
      texture slots `slots`, in that order, appended to `lst` unless already there. */
  method AddTextures(mat: Material, slots: seq<TexSlot>, lst: seq<string>, ghost seen: seq<string>) returns (lst': seq<string>)
    requires lst == Dedup(seen)
    ensures lst' == Dedup(seen + SlotTextures(mat, slots))
  {
    lst' := lst;
    assert slots[..0] == [];
    assert seen + [] == seen;
    var k := 0;
    while k < |slots|
      invariant 0 <= k <= |slots|
      invariant lst' == Dedup(seen + SlotTextures(mat, slots[..k]))
    {
      AddTextureStep(seen, mat, slots, k);
      var slot := slots[k];
      if slot in mat.textures && mat.textures[slot] !in lst' {
        lst' := lst' + [mat.textures[slot]];
      }
      k := k + 1;
    }
    assert slots[..k] == slots;
  }

  class TinyWaveFrontObj {
    var useIndex: bool
    var mtlname: string
    var vertexs: seq<Vertex>
    var uvs: seq<TexCoord>
    var normals: seq<Vec3>
    var vps: seq<seq<real>>
    /** The keys of the insertion-ordered hash `@faces`, in insertion order. */
    var faceOrder: seq<string>
    var faces: map<string, seq<Face>>
    /** The keys of the insertion-ordered hash `@mtls`, in insertion order. */
    var mtlOrder: seq<string>
    var mtls: map<string, Material>
    var texs: seq<string>
    /** `@vertex_array_data`; None while it is the empty hash. */
    var vertexArrayData: Option<VArray>
    var useVertex: bool
    var useNormal: bool
    var useUv: bool

    function Geometry(): GeometryRecord
      reads this`mtlname, this`vertexs, this`uvs, this`normals, this`vps, this`faceOrder, this`faces,
            this`useVertex, this`useUv, this`useNormal
    {
      GeometryRecord(mtlname, vertexs, uvs, normals, vps, faceOrder, faces, useVertex, useUv, useNormal)
    }

    function Materials(): MtlTable
      reads this`mtlOrder, this`mtls
    {
      MtlTable(mtlOrder, mtls)
    }

    /** Both hashes are insertion-ordered hashes; stored faces have corners
        and sit under their own material; colours are opaque. */
    ghost predicate Valid()
      reads this`mtlname, this`vertexs, this`uvs, this`normals, this`vps, this`faceOrder, this`faces,
            this`useVertex, this`useUv, this`useNormal, this`mtlOrder, this`mtls
    {
      WellFormed(Geometry()) && TableWellFormed(Materials())
    }

    /** The field initialisation of `initialize`; reading the files and
        building the arrays is `Load`. */
    constructor (useIndex: bool)
      ensures this.useIndex == useIndex
      ensures Geometry() == EmptyGeometry && Materials() == EmptyTable
      ensures texs == [] && vertexArrayData == None
      ensures Valid()
    {
      this.useIndex := useIndex;
      mtlname := "";
      vertexs := [];
      uvs := [];
      normals := [];
      vps := [];
      faceOrder := [];
      faces := map[];
      mtlOrder := [];
      mtls := map[];
      texs := [];
      vertexArrayData := None;
      useVertex := false;
      useNormal := false;
      useUv := false;
    }

    /** `use_index=`. */
    method SetUseIndex(b: bool)
      modifies this`useIndex
      ensures useIndex == b
    {
      useIndex := b;
    }

    /** The flags one matched corner raises: a vertex always, a uv and a
        normal when the corner names them. */
    method RaiseFlags(c: Corner)
      modifies this`useVertex, this`useUv, this`useNormal
      ensures Geometry() == old(Geometry()).(useVertex := true,
                                             useUv := old(useUv) || c.vti.Some?,
                                             useNormal := old(useNormal) || c.vni.Some?)
    {
      useVertex := true;
      if c.vti.Some? {
        useUv := true;
      }
      if c.vni.Some? {
        useNormal := true;
      }
    }

    /** The token loop of the `f` branch of `read_geometry`: match every
        token against the four corner patterns, raising the use-flags as
        they match; `finfo` is the corners in token order. */
    method MatchCorners(s: seq<string>) returns (finfo: seq<Corner>)
      modifies this`useVertex, this`useUv, this`useNormal
      ensures finfo == FaceCorners(s)
      ensures Geometry() == Flagged(old(Geometry()), finfo)
    {
      ghost var g0 := Geometry();
      finfo := [];
      var j := 0;
      while j < |s|
        invariant 0 <= j <= |s|
        invariant finfo == FaceCorners(s[..j])
        invariant Geometry() == Flagged(g0, finfo)
      {
        FaceCornersStep(s, j);
        var c := ParseRef(s[j]);
        if c.Some? {
          FlaggedSnoc(g0, finfo, c.value);
          RaiseFlags(c.value);
          finfo := finfo + [c.value];
        }
        j := j + 1;
      }
      assert s[..j] == s;
    }

    /** The `f` branch of `read_geometry`: match the corners, then store
        the face under the current material if it has corners. */
    method FaceLine(s: seq<string>, cur: Cursor) returns (err: Option<ObjError>)
      modifies this`faces, this`useVertex, this`useUv, this`useNormal
      ensures FaceStep(old(Geometry()), cur, FaceCorners(s)) == GeoRun(Geometry(), cur, err)
    {
      var finfo := MatchCorners(s);
      err := None;
      if finfo != [] {
        if cur.mat !in faces {
          err := Some(NoFaceList(cur.mat));
          return;
        }
        faces := faces[cur.mat := faces[cur.mat] + [Face(cur.mat, cur.smooth, finfo)]];
      }
    }

    /** One line of `read_geometry`: the `case s[0]`. */
    method GeometryLine(s: seq<string>, cur: Cursor, toF: string -> real) returns (next: Cursor, err: Option<ObjError>)
      modifies this`mtlname, this`vertexs, this`uvs, this`normals, this`vps, this`faceOrder, this`faces,
               this`useVertex, this`useUv, this`useNormal
      ensures StepLine(old(Geometry()), cur, s, toF) == GeoRun(Geometry(), next, err)
    {
      next, err := cur, None;
      if |s| == 0 {
        return;
      }
      var d := s[0];
      if d == "mtllib" {
        mtlname := Arg(s, 1);
      } else if d == "v" {
        if |s| == 4 {
          vertexs := vertexs + [Vertex(toF(s[1]), toF(s[2]), toF(s[3]), 1.0)];
        } else if |s| == 5 {
          vertexs := vertexs + [Vertex(toF(s[1]), toF(s[2]), toF(s[3]), toF(s[4]))];
        }
      } else if d == "vt" {
        if |s| == 3 {
          uvs := uvs + [TexCoord(toF(s[1]), toF(s[2]), 0.0)];
        } else if |s| == 4 {
          uvs := uvs + [TexCoord(toF(s[1]), toF(s[2]), toF(s[3]))];
        }
      } else if d == "vn" {
        normals := normals + [Vec3(NumAt(s, 1, toF), NumAt(s, 2, toF), NumAt(s, 3, toF))];
      } else if d == "vp" {
        if |s| == 2 {
          vps := vps + [[toF(s[1])]];
        } else if |s| == 3 {
          vps := vps + [[toF(s[1]), toF(s[2])]];
        } else if |s| == 4 {
          vps := vps + [[toF(s[1]), toF(s[2]), toF(s[3])]];
        }
      } else if d == "usemtl" {
        var m := Arg(s, 1);
        next := cur.(mat := m);
        if m !in faces {
          faces := faces[m := []];
          faceOrder := faceOrder + [m];
        }
      } else if d == "s" {
        next := cur.(smooth := Arg(s, 1) != "off");
      } else if d == "f" {
        err := FaceLine(s, cur);
      }
    }

    /** The line loop of `read_geometry`; an error stops it where Ruby
        would raise. */
    method GeometryLines(lines: seq<seq<string>>, toF: string -> real) returns (err: Option<ObjError>)
      modifies this`mtlname, this`vertexs, this`uvs, this`normals, this`vps, this`faceOrder, this`faces,
               this`useVertex, this`useUv, this`useNormal
      ensures var r := ParseGeometry(old(Geometry()), StartCursor, lines, toF);
        Geometry() == r.geo && err == r.error
    {
      ghost var g0 := Geometry();
      var cur := StartCursor;
      var i := 0;
      while i < |lines|
        invariant 0 <= i <= |lines|
        invariant ParseGeometry(g0, StartCursor, lines[..i], toF) == GeoRun(Geometry(), cur, None)
      {
        ParseSnoc(g0, StartCursor, lines[..i], lines[i], toF);
        assert lines[..i] + [lines[i]] == lines[..i + 1];
        cur, err := GeometryLine(lines[i], cur, toF);
        if err.Some? {
          ParseStopsAtError(g0, StartCursor, lines, i + 1, toF);
          return;
        }
        i := i + 1;
      }
      assert lines[..i] == lines;
      err := None;
    }

    /** `read_geometry` over the token lines of the .obj file: the face
        store stays an insertion-ordered hash of non-empty faces. */
    method ReadGeometry(lines: seq<seq<string>>, toF: string -> real) returns (err: Option<ObjError>)
      requires Valid()
      modifies this`mtlname, this`vertexs, this`uvs, this`normals, this`vps, this`faceOrder, this`faces,
               this`useVertex, this`useUv, this`useNormal
      ensures Valid()
      ensures var r := ParseGeometry(old(Geometry()), StartCursor, lines, toF);
        Geometry() == r.geo && err == r.error
    {
      ParseKeepsWellFormed(Geometry(), StartCursor, lines, toF);
      err := GeometryLines(lines, toF);
    }

    /** One line of `read_material`: `newmtl` gives the name a fresh bag
        and makes it current; a property is written into the current bag,
        which raises when there is none. */
    method MaterialLine(s: seq<string>, cur: string, toF: string -> real, toI: string -> int)
      returns (next: string, err: Option<ObjError>)
      modifies this`mtlOrder, this`mtls
      ensures StepMtl(old(Materials()), cur, s, toF, toI) == MtlRun(Materials(), next, err)
    {
      next, err := cur, None;
      var kw := MtlKeywordOf(s);
      if kw == Newmtl {
        next := Arg(s, 1);
        if next !in mtls {
          mtlOrder := mtlOrder + [next];
        }
        mtls := mtls[next := EmptyMaterial];
      } else if kw != Unknown {
        if cur !in mtls {
          err := Some(NoMaterial(cur));
          return;
        }
        mtls := mtls[cur := SetProperty(mtls[cur], kw, s, toF, toI)];
      }
    }

    /** The line loop of `read_material`. */
    method MaterialLines(lines: seq<seq<string>>, toF: string -> real, toI: string -> int) returns (err: Option<ObjError>)
      modifies this`mtlOrder, this`mtls
      ensures var r := ParseMaterials(old(Materials()), "", lines, toF, toI);
        Materials() == r.table && err == r.error
    {
      ghost var t0 := Materials();
      var cur := "";
      var i := 0;
      while i < |lines|
        invariant 0 <= i <= |lines|
        invariant ParseMaterials(t0, "", lines[..i], toF, toI) == MtlRun(Materials(), cur, None)
      {
        MtlSnoc(t0, "", lines[..i], lines[i], toF, toI);
        assert lines[..i] + [lines[i]] == lines[..i + 1];
        cur, err := MaterialLine(lines[i], cur, toF, toI);
        if err.Some? {
          MtlStopsAtError(t0, "", lines, i + 1, toF, toI);
          return;
        }
        i := i + 1;
      }
      assert lines[..i] == lines;
      err := None;
    }

    /** `read_material` over the token lines of the .mtl file: the bag
        table stays an insertion-ordered hash of opaque bags. */
    method ReadMaterial(lines: seq<seq<string>>, toF: string -> real, toI: string -> int) returns (err: Option<ObjError>)
      requires Valid()
      modifies this`mtlOrder, this`mtls
      ensures Valid()
      ensures var r := ParseMaterials(old(Materials()), "", lines, toF, toI);
        Materials() == r.table && err == r.error
    {
      ParseMaterialsKeepsWellFormed(Materials(), "", lines, toF, toI);
      err := MaterialLines(lines, toF, toI);
    }

    /** `get_texture_list`: every texture slot of every bag, bags in
        insertion order, each path once at its first occurrence. */
    method GetTextureList() returns (r: seq<string>)
      requires Valid()
      ensures r == TextureList(Materials())
    {
      var lst: seq<string> := [];
      var i := 0;
      while i < |mtlOrder|
        invariant 0 <= i <= |mtlOrder|
        invariant lst == Dedup(AllTextures(Materials(), mtlOrder[..i]))
      {
        AllTexturesPrefix(Materials(), mtlOrder, i);
        ghost var seen := AllTextures(Materials(), mtlOrder[..i]);
        assert mtlOrder[i] in mtls;
        lst := AddTextures(mtls[mtlOrder[i]], TexSlots, lst, seen);
        i := i + 1;
      }
      assert mtlOrder[..i] == mtlOrder;
      r := lst;
    }

    /** One corner of `make_varray_not_with_index`: its position, and its
        uv (flipped when `vflip`, zero when absent) and normal (zero when
        absent) when their flags are set. */
    method ExpandCorner(c: Corner, vflip: bool, vs: seq<Vec3>, ns: seq<Vec3>, us: seq<Uv>)
      returns (vs': seq<Vec3>, ns': seq<Vec3>, us': seq<Uv>)
      requires CornerInRange(Geometry(), c)
      ensures Expansion(vs', ns', us') == Push(Geometry(), Expansion(vs, ns, us), Resolve(Geometry(), c, vflip))
    {
      var p := vertexs[c.vi];
      vs' := vs + [Vec3(p.x, p.y, p.z)];
      us' := us;
      if useUv {
        var uv := Uv(0.0, 0.0);
        if c.vti.Some? {
          var t := uvs[c.vti.value];
          uv := Uv(t.u, if vflip then 1.0 - t.v else t.v);
        }
        us' := us + [uv];
      }
      ns' := ns;
      if useNormal {
        var nrm := Vec3(0.0, 0.0, 0.0);
        if c.vni.Some? {
          nrm := normals[c.vni.value];
        }
        ns' := ns + [nrm];
      }
    }

    /** The corner loop of `make_varray_not_with_index` for one face. */
    method ExpandFace(cs: seq<Corner>, vflip: bool, vs: seq<Vec3>, ns: seq<Vec3>, us: seq<Uv>)
      returns (vs': seq<Vec3>, ns': seq<Vec3>, us': seq<Uv>)
      requires CornersInRange(Geometry(), cs)
      ensures Expansion(vs', ns', us') == Extend(Geometry(), Expansion(vs, ns, us), CornerAttrs(Geometry(), cs, vflip))
    {
      ghost var g := Geometry();
      ghost var e0 := Expansion(vs, ns, us);
      vs', ns', us' := vs, ns, us;
      assert cs[..0] == [];
      var k := 0;
      while k < |cs|
        invariant 0 <= k <= |cs|
        invariant CornersInRange(g, cs[..k])
        invariant Expansion(vs', ns', us') == Extend(g, e0, CornerAttrs(g, cs[..k], vflip))
      {
        CornerAttrsPrefix(g, cs, k, vflip);
        ExtendSnoc(g, e0, CornerAttrs(g, cs[..k], vflip), Resolve(g, cs[k], vflip));
        vs', ns', us' := ExpandCorner(cs[k], vflip, vs', ns', us');
        k := k + 1;
      }
      assert cs[..k] == cs;
    }

    /** The face loop of `make_varray_not_with_index` for the faces of one
        material. */
    method ExpandFaceList(fs: seq<Face>, vflip: bool, vs: seq<Vec3>, ns: seq<Vec3>, us: seq<Uv>)
      returns (vs': seq<Vec3>, ns': seq<Vec3>, us': seq<Uv>)
      requires FacesInRange(Geometry(), fs)
      ensures Expansion(vs', ns', us') == Extend(Geometry(), Expansion(vs, ns, us), FaceAttrs(Geometry(), fs, vflip))
    {
      ghost var g := Geometry();
      ghost var e0 := Expansion(vs, ns, us);
      vs', ns', us' := vs, ns, us;
      assert fs[..0] == [];
      var n := 0;
      while n < |fs|
        invariant 0 <= n <= |fs|
        invariant FacesInRange(g, fs[..n])
        invariant Expansion(vs', ns', us') == Extend(g, e0, FaceAttrs(g, fs[..n], vflip))
      {
        FaceAttrsPrefix(g, fs, n, vflip);
        ExtendAppend(g, e0, FaceAttrs(g, fs[..n], vflip), CornerAttrs(g, fs[n].corners, vflip));
        vs', ns', us' := ExpandFace(fs[n].corners, vflip, vs', ns', us');
        n := n + 1;
      }
      assert fs[..n] == fs;
    }

    /** The faces of material `name` in `make_varray_not_with_index`; a
        name with no face list contributes nothing. */
    method ExpandMaterial(name: string, vflip: bool, vs: seq<Vec3>, ns: seq<Vec3>, us: seq<Uv>)
      returns (vs': seq<Vec3>, ns': seq<Vec3>, us': seq<Uv>)
      requires IndicesInRange(Geometry())
      ensures FacesInRange(Geometry(), FacesOf(Geometry(), name))
      ensures Expansion(vs', ns', us') == Extend(Geometry(), Expansion(vs, ns, us), FaceAttrs(Geometry(), FacesOf(Geometry(), name), vflip))
    {
      FacesOfInRange(Geometry(), name);
      var fs := if name in faces then faces[name] else [];
      vs', ns', us' := ExpandFaceList(fs, vflip, vs, ns, us);
    }

    /** The arrays `make_varray_not_with_index` builds: the corners of every
        face, materials in insertion order, faces and corners in order. */
    method ExpandAll(vflip: bool) returns (v: VArray)
      requires IndicesInRange(Geometry())
      ensures v == Expanded(Geometry(), vflip)
    {
      ghost var g := Geometry();
      var vs: seq<Vec3> := [];
      var ns: seq<Vec3> := [];
      var us: seq<Uv> := [];
      ghost var done: seq<Attr> := [];
      var i := 0;
      while i < |faceOrder|
        invariant 0 <= i <= |faceOrder|
        invariant done == ListAttrs(g, faceOrder[..i], vflip)
        invariant Expansion(vs, ns, us) == Project(g, done)
      {
        ListAttrsPrefix(g, faceOrder, i, vflip);
        vs, ns, us := ExpandMaterial(faceOrder[i], vflip, vs, ns, us);
        ProjectExtend(g, done, FaceAttrs(g, FacesOf(g, faceOrder[i]), vflip));
        done := done + FaceAttrs(g, FacesOf(g, faceOrder[i]), vflip);
        i := i + 1;
      }
      assert faceOrder[..i] == faceOrder;
      v := VArray(vs, ns, us, None);
    }

    /** `make_varray_not_with_index`: the expanded arrays replace the cache. */
    method MakeVarrayNotWithIndex(vflip: bool)
      requires IndicesInRange(Geometry())
      modifies this`vertexArrayData
      ensures vertexArrayData == Some(Expanded(Geometry(), vflip))
    {
      var v := ExpandAll(vflip);
      vertexArrayData := Some(v);
    }

    /** One corner of `make_varray_with_index`: resolve its attributes,
        reuse the first entry with its position when the uv and normal there
        match too, otherwise push a new entry numbered `cnt`. */
    method IndexCorner(c: Corner, vflip: bool, vs: seq<Vec3>, us: seq<Uv>, ns: seq<Vec3>, cnt: nat, finfo: seq<nat>)
      returns (vs': seq<Vec3>, us': seq<Uv>, ns': seq<Vec3>, cnt': nat, finfo': seq<nat>)
      requires CornerInRange(Geometry(), c)
      requires Parallel(Tables(vs, us, ns)) && cnt == |vs|
      ensures (Tables(vs', us', ns'), finfo') == IndexStep((Tables(vs, us, ns), finfo), Resolve(Geometry(), c, vflip))
      ensures cnt' == |vs'|
    {
      var p := vertexs[c.vi];
      var xyz := Vec3(p.x, p.y, p.z);
      var uv := Uv(0.0, 0.0);
      var nxyz := Vec3(0.0, 0.0, 0.0);
      if c.vni.Some? {
        nxyz := normals[c.vni.value];
      }
      if c.vti.Some? {
        var t := uvs[c.vti.value];
        uv := Uv(t.u, if vflip then 1.0 - t.v else t.v);
      }
      ghost var a := Attr(xyz, uv, nxyz);
      assert a == Resolve(Geometry(), c, vflip);
      var findIdx: Option<nat> := None;
      var idx := IndexOf(vs, xyz);
      if idx.Some? {
        if us[idx.value] == uv && ns[idx.value] == nxyz {
          findIdx := idx;
        }
      }
      assert findIdx == Lookup(Tables(vs, us, ns), a);
      if findIdx.Some? {
        vs', us', ns', cnt', finfo' := vs, us, ns, cnt, finfo + [findIdx.value];
      } else {
        vs', us', ns', cnt', finfo' := vs + [xyz], us + [uv], ns + [nxyz], cnt + 1, finfo + [cnt];
        assert Tables(vs', us', ns') == Insert(Tables(vs, us, ns), a);
      }
    }

    /** The corner loop of `make_varray_with_index` for one face; `finfo`
        is the face's index list. */
    method IndexFace(cs: seq<Corner>, vflip: bool, vs: seq<Vec3>, us: seq<Uv>, ns: seq<Vec3>, cnt: nat)
      returns (vs': seq<Vec3>, us': seq<Uv>, ns': seq<Vec3>, cnt': nat, finfo: seq<nat>)
      requires CornersInRange(Geometry(), cs)
      requires Parallel(Tables(vs, us, ns)) && cnt == |vs|
      ensures IndexCorners(Tables(vs, us, ns), CornerAttrs(Geometry(), cs, vflip)) == (Tables(vs', us', ns'), finfo)
      ensures cnt' == |vs'|
    {
      ghost var g := Geometry();
      ghost var t0 := Tables(vs, us, ns);
      ghost var done: seq<Attr> := [];
      vs', us', ns', cnt', finfo := vs, us, ns, cnt, [];
      var k := 0;
      while k < |cs|
        invariant 0 <= k <= |cs|
        invariant CornersInRange(g, cs[..k])
        invariant done == CornerAttrs(g, cs[..k], vflip)
        invariant IndexCorners(t0, done) == (Tables(vs', us', ns'), finfo)
        invariant cnt' == |vs'|
      {
        CornerAttrsPrefix(g, cs, k, vflip);
        IndexCornersSnoc(t0, done, Resolve(g, cs[k], vflip));
        vs', us', ns', cnt', finfo := IndexCorner(cs[k], vflip, vs', us', ns', cnt', finfo);
        done := done + [Resolve(g, cs[k], vflip)];
        k := k + 1;
      }
      assert cs[..k] == cs;
    }

    /** The face loop of `make_varray_with_index` for the faces of one
        material: one index list per face. */
    method IndexFaceList(fs: seq<Face>, vflip: bool, vs: seq<Vec3>, us: seq<Uv>, ns: seq<Vec3>, cnt: nat)
      returns (vs': seq<Vec3>, us': seq<Uv>, ns': seq<Vec3>, cnt': nat, lists: seq<seq<nat>>)
      requires FacesInRange(Geometry(), fs)
      requires Parallel(Tables(vs, us, ns)) && cnt == |vs|
      ensures IndexFaces(Tables(vs, us, ns), Geometry(), fs, vflip) == (Tables(vs', us', ns'), lists)
      ensures cnt' == |vs'|
    {
      ghost var g := Geometry();
      ghost var t0 := Tables(vs, us, ns);
      vs', us', ns', cnt', lists := vs, us, ns, cnt, [];
      assert fs[..0] == [];
      var n := 0;
      while n < |fs|
        invariant 0 <= n <= |fs|
        invariant FacesInRange(g, fs[..n])
        invariant IndexFaces(t0, g, fs[..n], vflip) == (Tables(vs', us', ns'), lists)
        invariant cnt' == |vs'|
      {
        ghost var t := Tables(vs', us', ns');
        assert CornersInRange(g, fs[n].corners);
        var finfo;
        vs', us', ns', cnt', finfo := IndexFace(fs[n].corners, vflip, vs', us', ns', cnt');
        IndexFacesStep(t0, g, fs, n, vflip, t, lists, Tables(vs', us', ns'), finfo);
        lists := lists + [finfo];
        n := n + 1;
      }
      assert fs[..n] == fs;
    }

    /** The faces of material `name` in `make_varray_with_index`; a name
        with no face list contributes nothing. */
    method IndexMaterial(name: string, vflip: bool, vs: seq<Vec3>, us: seq<Uv>, ns: seq<Vec3>, cnt: nat)
      returns (vs': seq<Vec3>, us': seq<Uv>, ns': seq<Vec3>, cnt': nat, lists: seq<seq<nat>>)
      requires IndicesInRange(Geometry())
      requires Parallel(Tables(vs, us, ns)) && cnt == |vs|
      ensures IndexFaces(Tables(vs, us, ns), Geometry(), FacesOf(Geometry(), name), vflip) == (Tables(vs', us', ns'), lists)
      ensures cnt' == |vs'|
    {
      FacesOfInRange(Geometry(), name);
      var fs := if name in faces then faces[name] else [];
      vs', us', ns', cnt', lists := IndexFaceList(fs, vflip, vs, us, ns, cnt);
    }

    /** The arrays and index lists `make_varray_with_index` builds,
        materials in insertion order. */
    method IndexAll(vflip: bool) returns (v: VArray)
      requires IndicesInRange(Geometry())
      ensures v == Indexed(Geometry(), vflip)
    {
      ghost var g := Geometry();
      var vs: seq<Vec3> := [];
      var ns: seq<Vec3> := [];
      var us: seq<Uv> := [];
      var fl: seq<seq<nat>> := [];
      var cnt := 0;
      var i := 0;
      while i < |faceOrder|
        invariant 0 <= i <= |faceOrder|
        invariant IndexLists(NoTables, g, faceOrder[..i], vflip) == (Tables(vs, us, ns), fl)
        invariant cnt == |vs|
      {
        IndexListsPrefix(NoTables, g, faceOrder, i, vflip);
        var more;
        vs, us, ns, cnt, more := IndexMaterial(faceOrder[i], vflip, vs, us, ns, cnt);
        fl := fl + more;
        i := i + 1;
      }
      assert faceOrder[..i] == faceOrder;
      v := VArray(vs, ns, us, Some(fl));
    }

    /** `make_varray_with_index`: the indexed arrays replace the cache. */
    method MakeVarrayWithIndex(vflip: bool)
      requires IndicesInRange(Geometry())
      modifies this`vertexArrayData
      ensures vertexArrayData == Some(Indexed(Geometry(), vflip))
    {
      var v := IndexAll(vflip);
      vertexArrayData := Some(v);
    }

    /** `make_varray_data(vflip, force)`. */
    method MakeVarrayData(vflip: bool, force: bool)
      requires IndicesInRange(Geometry())
      modifies this`vertexArrayData
      ensures vertexArrayData == Some(Refreshed(old(vertexArrayData), Geometry(), useIndex, vflip, force))
    {
      if vertexArrayData.None? || force {
        if useIndex {
          MakeVarrayWithIndex(vflip);
        } else {
          MakeVarrayNotWithIndex(vflip);
        }
      }
    }

    /** `get_vertex_array`: nil unless vertices are in use; otherwise the
        cached positions, built with the defaults if need be, flattened. */
    method GetVertexArray() returns (r: Access<real>)
      requires useVertex ==> IndicesInRange(Geometry())
      modifies this`vertexArrayData
      ensures !useVertex ==> r == Absent && vertexArrayData == old(vertexArrayData)
      ensures useVertex ==>
        && vertexArrayData == Some(Refreshed(old(vertexArrayData), Geometry(), useIndex, true, false))
        && r == Present(FlattenVec3(vertexArrayData.value.vertex))
    {
      if !useVertex {
        return Absent;
      }
      MakeVarrayData(true, false);
      r := Present(FlattenVec3(vertexArrayData.value.vertex));
    }

    /** `get_normal_array`. */
    method GetNormalArray() returns (r: Access<real>)
      requires useNormal ==> IndicesInRange(Geometry())
      modifies this`vertexArrayData
      ensures !useNormal ==> r == Absent && vertexArrayData == old(vertexArrayData)
      ensures useNormal ==>
        && vertexArrayData == Some(Refreshed(old(vertexArrayData), Geometry(), useIndex, true, false))
        && r == Present(FlattenVec3(vertexArrayData.value.normal))
    {
      if !useNormal {
        return Absent;
      }
      MakeVarrayData(true, false);
      r := Present(FlattenVec3(vertexArrayData.value.normal));
    }

    /** `get_uv_array`. */
    method GetUvArray() returns (r: Access<real>)
      requires useUv ==> IndicesInRange(Geometry())
      modifies this`vertexArrayData
      ensures !useUv ==> r == Absent && vertexArrayData == old(vertexArrayData)
      ensures useUv ==>
        && vertexArrayData == Some(Refreshed(old(vertexArrayData), Geometry(), useIndex, true, false))
        && r == Present(FlattenUv(vertexArrayData.value.uv))
    {
      if !useUv {
        return Absent;
      }
      MakeVarrayData(true, false);
      r := Present(FlattenUv(vertexArrayData.value.uv));
    }

    /** `get_face_array`: nil unless indexing is on; a fault when the cached
        data was built without indices. */
    method GetFaceArray() returns (r: Access<nat>)
      requires useIndex ==> IndicesInRange(Geometry())
      modifies this`vertexArrayData
      ensures !useIndex ==> r == Absent && vertexArrayData == old(vertexArrayData)
      ensures useIndex ==>
        && vertexArrayData == Some(Refreshed(old(vertexArrayData), Geometry(), useIndex, true, false))
        && r == (match vertexArrayData.value.face
                 case None => Fault
                 case Some(fl) => Present(Flatten(fl)))
    {
      if !useIndex {
        return Absent;
      }
      MakeVarrayData(true, false);
      match vertexArrayData.value.face
      case None => r := Fault;
      case Some(fl) => r := Present(Flatten(fl));
    }

    /** The second half of `initialize`: `read_material`, the texture list,
        then the vertex-array cache when `use_varray` is set. */
    method LoadMaterials(mtlLines: seq<seq<string>>, toF: string -> real, toI: string -> int, useVarray: bool)
      returns (err: Option<ObjError>)
      requires Valid()
      requires Materials() == EmptyTable && texs == [] && vertexArrayData == None
      requires useVarray ==> IndicesInRange(Geometry())
      modifies this`mtlOrder, this`mtls, this`texs, this`vertexArrayData
      ensures Valid()
      ensures Geometry() == old(Geometry()) && useIndex == old(useIndex)
      ensures var m := ParseMaterials(EmptyTable, "", mtlLines, toF, toI);
        && Materials() == m.table && err == m.error
        && (m.error.Some? ==> texs == [] && vertexArrayData == None)
        && (m.error.None? ==>
              && texs == TextureList(m.table)
              && vertexArrayData == (if useVarray then Some(Build(Geometry(), useIndex, true)) else None))
    {
      err := ReadMaterial(mtlLines, toF, toI);
      if err.Some? {
        return;
      }
      texs := GetTextureList();
      if useVarray {
        MakeVarrayData(true, false);
      }
    }
  }

  /** `initialize(objpath, use_varray, use_index)`: empty fields, then
      `read_geometry`, then `read_material` on the file the `mtllib`
      directive named, then the texture list, then the vertex-array cache
      when `use_varray` is set. The file system is the two token-line
      parameters; an error stops the sequence where Ruby would raise. */
  method Load(objLines: seq<seq<string>>, mtlFile: string -> seq<seq<string>>,
              toF: string -> real, toI: string -> int, useVarray: bool, useIndex: bool)
    returns (obj: TinyWaveFrontObj, err: Option<ObjError>)
    requires var r := ParseGeometry(EmptyGeometry, StartCursor, objLines, toF);
      r.error.None? && useVarray ==> IndicesInRange(r.geo)
    ensures fresh(obj) && obj.useIndex == useIndex && obj.Valid()
    ensures var r := ParseGeometry(EmptyGeometry, StartCursor, objLines, toF);
      && obj.Geometry() == r.geo
      && (r.error.Some? ==>
            err == r.error && obj.Materials() == EmptyTable && obj.texs == [] && obj.vertexArrayData == None)
      && (r.error.None? ==>
            var m := ParseMaterials(EmptyTable, "", mtlFile(r.geo.mtlname), toF, toI);
            && obj.Materials() == m.table
            && (m.error.Some? ==> err == m.error && obj.texs == [] && obj.vertexArrayData == None)
            && (m.error.None? ==>
                  && err == None
                  && obj.texs == TextureList(m.table)
                  && obj.vertexArrayData == (if useVarray then Some(Build(r.geo, useIndex, true)) else None)))
  {
    obj := new TinyWaveFrontObj(useIndex);
    ghost var r := ParseGeometry(EmptyGeometry, StartCursor, objLines, toF);
    err := obj.ReadGeometry(objLines, toF);
    assert obj.Geometry() == r.geo && obj.useIndex == useIndex;
    if err.Some? {
      return;
    }
    ghost var m := ParseMaterials(EmptyTable, "", mtlFile(r.geo.mtlname), toF, toI);
    err := obj.LoadMaterials(mtlFile(obj.mtlname), toF, toI, useVarray);
    assert obj.Geometry() == r.geo && obj.Materials() == m.table;
  }
}
