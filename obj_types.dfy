/** Values shared by the OBJ parser, the MTL parser and the vertex-array
    builder of TinyWaveFrontObj.

    Coordinates are `real`: the source only copies them, compares them for
    equality and computes `1.0 - v`. Ruby's `nil` for a token that a line
    does not have is written "" here: `split(" ")` never produces an empty
    token, so "" cannot be confused with a real token. */
module ObjTypes {

  datatype Option<+T> = None | Some(value: T)

  /** Why loading stops. Each is a Ruby NoMethodError raised on a nil hash entry. */
  datatype ObjError =
    | NoFaceList(mat: string)   // `@faces[mat].push` when no `usemtl mat` was seen
    | NoMaterial(name: string)  // `@mtls[mtlname][key] = ...` before a `newmtl`

  /** A geometric vertex `v x y z [w]`. */
  datatype Vertex = Vertex(x: real, y: real, z: real, w: real)

  /** A texture vertex `vt u v [w]`. */
  datatype TexCoord = TexCoord(u: real, v: real, w: real)

  /** A normal `vn x y z`, or a resolved position or normal of a vertex array. */
  datatype Vec3 = Vec3(x: real, y: real, z: real)

  /** A resolved texture coordinate of a vertex array. */
  datatype Uv = Uv(u: real, v: real)

  /** One face corner: 0-based indices of its vertex, texture vertex and normal. */
  datatype Corner = Corner(vi: int, vti: Option<int>, vni: Option<int>)

  /** A stored face: the `{ :mat, :smooth, :vertexs }` hash of the source. */
  datatype Face = Face(mat: string, smooth: bool, corners: seq<Corner>)

  /** The fields that `read_geometry` fills. `faceOrder` lists the keys of the
      insertion-ordered hash `@faces` in insertion order. */
  datatype GeometryRecord = GeometryRecord(
    mtlname: string,
    vertexs: seq<Vertex>,
    uvs: seq<TexCoord>,
    normals: seq<Vec3>,
    vps: seq<seq<real>>,
    faceOrder: seq<string>,
    faces: map<string, seq<Face>>,
    useVertex: bool,
    useUv: bool,
    useNormal: bool)

  /** A colour `[r, g, b, 1.0]`. */
  datatype Rgba = Rgba(r: real, g: real, b: real, a: real)

  /** The nine texture slots of a material. */
  datatype TexSlot =
    | AmbientTex | DiffuseTex | SpecularTex | SpecularHighTex | DissolveTex
    | MapBumpTex | BumpTex | DisplacementTex | DecalTex

  /** The order in which `get_texture_list` visits the slots. */
  const TexSlots: seq<TexSlot> :=
    [AmbientTex, DiffuseTex, SpecularTex, SpecularHighTex, DissolveTex,
     MapBumpTex, BumpTex, DisplacementTex, DecalTex]

  /** A material's property bag, one optional slot per key the parser writes. */
  datatype Material = Material(
    ambient: Option<Rgba>,
    diffuse: Option<Rgba>,
    specular: Option<Rgba>,
    emission: Option<Rgba>,
    shininess: Option<real>,
    opticalDensity: Option<real>,
    dissolve: Option<real>,
    illum: Option<int>,
    textures: map<TexSlot, string>)

  const EmptyMaterial: Material :=
    Material(None, None, None, None, None, None, None, None, map[])

  /** Token `i` of a line, or "" (Ruby nil) when the line is shorter. */
  function Arg(s: seq<string>, i: nat): string
  {
    if i < |s| then s[i] else ""
  }

  /** `s[i].to_f`, where `nil.to_f` is 0.0. */
  function NumAt(s: seq<string>, i: nat, toF: string -> real): real
  {
    if i < |s| then toF(s[i]) else 0.0
  }

  /** Position of the first occurrence of `x` in `s` (Ruby `Array#index`). */
  function FirstIndex<T(==)>(s: seq<T>, x: T): (r: Option<nat>)
    ensures r.Some? ==> r.value < |s| && s[r.value] == x && x !in s[..r.value]
    ensures r.None? <==> x !in s
  {
    if s == [] then None
    else if s[0] == x then Some(0)
    else
      match FirstIndex(s[1..], x)
      case None => None
      case Some(i) =>
        assert s[1..][..i] == s[1..i + 1];
        Some(i + 1)
  }

  /** No element occurs twice. */
  predicate Distinct<T(==)>(s: seq<T>)
  {
    forall i, j :: 0 <= i < j < |s| ==> s[i] != s[j]
  }
}
