/** What `read_geometry` does to the geometry fields, line by line, as a
    function of the already-split token lines. The imperative method that
    follows the source is `WaveFront.TinyWaveFrontObj.ReadGeometry`; it is
    proved to end in the state `ParseGeometry` gives. */
module ObjParser {
  import opened ObjTypes
  import opened FaceRefs

  /** The two locals of `read_geometry` that outlive a line: the current
      material `mat` and the smoothing flag `smooth`. */
  datatype Cursor = Cursor(mat: string, smooth: bool)

  /** The state after some lines, and the error that stopped the parse, if any. */
  datatype GeoRun = GeoRun(geo: GeometryRecord, cur: Cursor, error: Option<ObjError>)

  const EmptyGeometry: GeometryRecord :=
    GeometryRecord("", [], [], [], [], [], map[], false, false, false)

  /** `mat = "none"`, `smooth = false`. */
  const StartCursor: Cursor := Cursor("none", false)

  /** The directives `read_geometry` acts on: its `case s[0]`. */
  datatype Keyword = Mtllib | V | Vt | Vn | Vp | Usemtl | S | F | Other

  function KeywordOf(s: seq<string>): Keyword
  {
    if |s| == 0 then Other
    else if s[0] == "mtllib" then Mtllib
    else if s[0] == "v" then V
    else if s[0] == "vt" then Vt
    else if s[0] == "vn" then Vn
    else if s[0] == "vp" then Vp
    else if s[0] == "usemtl" then Usemtl
    else if s[0] == "s" then S
    else if s[0] == "f" then F
    else Other
  }

  /** The vertex a `v` line adds: 4 tokens give w = 1.0, 5 tokens give w; any
      other line adds nothing. */
  function VertexOf(s: seq<string>, toF: string -> real): seq<Vertex>
  {
    if |s| == 4 && KeywordOf(s) == V then [Vertex(toF(s[1]), toF(s[2]), toF(s[3]), 1.0)]
    else if |s| == 5 && KeywordOf(s) == V then [Vertex(toF(s[1]), toF(s[2]), toF(s[3]), toF(s[4]))]
    else []
  }

  /** The texture vertex a `vt` line adds: 3 tokens give w = 0.0, 4 tokens give w. */
  function TexCoordOf(s: seq<string>, toF: string -> real): seq<TexCoord>
  {
    if |s| == 3 && KeywordOf(s) == Vt then [TexCoord(toF(s[1]), toF(s[2]), 0.0)]
    else if |s| == 4 && KeywordOf(s) == Vt then [TexCoord(toF(s[1]), toF(s[2]), toF(s[3]))]
    else []
  }

  /** The normal a `vn` line adds; a missing token reads as `nil.to_f`, 0.0. */
  function NormalOf(s: seq<string>, toF: string -> real): seq<Vec3>
  {
    if KeywordOf(s) == Vn then [Vec3(NumAt(s, 1, toF), NumAt(s, 2, toF), NumAt(s, 3, toF))]
    else []
  }

  /** The parameter-space point a `vp` line adds: 2, 3 or 4 tokens. */
  function ParamOf(s: seq<string>, toF: string -> real): seq<seq<real>>
  {
    if |s| == 2 && KeywordOf(s) == Vp then [[toF(s[1])]]
    else if |s| == 3 && KeywordOf(s) == Vp then [[toF(s[1]), toF(s[2])]]
    else if |s| == 4 && KeywordOf(s) == Vp then [[toF(s[1]), toF(s[2]), toF(s[3])]]
    else []
  }

  /** The corners an `f` line yields; no other line yields any. */
  function FaceLineCorners(s: seq<string>): seq<Corner>
  {
    if KeywordOf(s) == F then FaceCorners(s) else []
  }

  predicate HasUv(cs: seq<Corner>)
  {
    exists k :: 0 <= k < |cs| && cs[k].vti.Some?
  }

  predicate HasNormal(cs: seq<Corner>)
  {
    exists k :: 0 <= k < |cs| && cs[k].vni.Some?
  }

  /** The use-flags after the corners `cs` of an `f` line were matched. */
  function Flagged(g: GeometryRecord, cs: seq<Corner>): GeometryRecord
  {
    g.(useVertex := g.useVertex || cs != [],
       useUv := g.useUv || HasUv(cs),
       useNormal := g.useNormal || HasNormal(cs))
  }

  /** An `f` line with corners `cs`: set the flags, then store the face under
      the current material, which fails when that material has no list. */
  function FaceStep(g: GeometryRecord, cur: Cursor, cs: seq<Corner>): (r: GeoRun)
    ensures r.error.Some? <==> cs != [] && cur.mat !in g.faces
    ensures r.error.Some? ==> r.error == Some(NoFaceList(cur.mat)) && r.cur == cur && r.geo.faces == g.faces
  {
    var g1 := Flagged(g, cs);
    if cs == [] then GeoRun(g1, cur, None)
    else if cur.mat !in g1.faces then GeoRun(g1, cur, Some(NoFaceList(cur.mat)))
    else
      GeoRun(g1.(faces := g1.faces[cur.mat := g1.faces[cur.mat] + [Face(cur.mat, cur.smooth, cs)]]),
             cur, None)
  }

  /** One line of the `case s[0]` of `read_geometry`. An empty line, a comment
      and an unknown directive (`o` included: its name is never used) change nothing. */
  function StepLine(g: GeometryRecord, cur: Cursor, s: seq<string>, toF: string -> real): (r: GeoRun)
    ensures r.error.Some? ==>
      && KeywordOf(s) == F && FaceCorners(s) != []
      && r.error == Some(NoFaceList(cur.mat)) && r.cur == cur && cur.mat !in r.geo.faces
  {
    match KeywordOf(s)
    case Mtllib => GeoRun(g.(mtlname := Arg(s, 1)), cur, None)
    case V => GeoRun(g.(vertexs := g.vertexs + VertexOf(s, toF)), cur, None)
    case Vt => GeoRun(g.(uvs := g.uvs + TexCoordOf(s, toF)), cur, None)
    case Vn => GeoRun(g.(normals := g.normals + NormalOf(s, toF)), cur, None)
    case Vp => GeoRun(g.(vps := g.vps + ParamOf(s, toF)), cur, None)
    case Usemtl => UseMaterial(g, cur, Arg(s, 1))
    case S => GeoRun(g, cur.(smooth := Arg(s, 1) != "off"), None)
    case F => FaceStep(g, cur, FaceCorners(s))
    case Other => GeoRun(g, cur, None)
  }

  /** `usemtl m`: m becomes current; a list is created only for a new name. */
  function UseMaterial(g: GeometryRecord, cur: Cursor, m: string): (r: GeoRun)
    ensures r.error.None? && r.cur.mat == m && r.cur.smooth == cur.smooth && m in r.geo.faces
  {
    var g1 := if m in g.faces then g
              else g.(faceOrder := g.faceOrder + [m], faces := g.faces[m := []]);
    GeoRun(g1, cur.(mat := m), None)
  }

  /** All lines in order; the first error stops the parse. The only error is
      a face with corners under a current material that has no list. */
  function ParseGeometry(g: GeometryRecord, cur: Cursor, lines: seq<seq<string>>, toF: string -> real): (r: GeoRun)
    ensures r.error.Some? ==> r.error == Some(NoFaceList(r.cur.mat)) && r.cur.mat !in r.geo.faces
    decreases |lines|
  {
    if lines == [] then GeoRun(g, cur, None)
    else
      var r := ParseGeometry(g, cur, lines[..|lines| - 1], toF);
      if r.error.Some? then r else StepLine(r.geo, r.cur, lines[|lines| - 1], toF)
  }

  /** The face store is an insertion-ordered hash: keys listed once, in
      `faceOrder`; every stored face has corners and names its own list. */
  ghost predicate WellFormed(g: GeometryRecord)
  {
    && Distinct(g.faceOrder)
    && (forall m :: m in g.faces <==> m in g.faceOrder)
    && (forall m, n :: m in g.faces && 0 <= n < |g.faces[m]| ==>
          g.faces[m][n].mat == m && g.faces[m][n].corners != [])
  }

  /** `g'` only extends `g`: arrays and lists are appended to, keys are
      appended in order, flags only become true. */
  ghost predicate Grows(g: GeometryRecord, g': GeometryRecord)
  {
    && g.vertexs <= g'.vertexs && g.uvs <= g'.uvs && g.normals <= g'.normals && g.vps <= g'.vps
    && g.faceOrder <= g'.faceOrder
    && (forall m :: m in g.faces ==> m in g'.faces && g.faces[m] <= g'.faces[m])
    && (g.useVertex ==> g'.useVertex) && (g.useUv ==> g'.useUv) && (g.useNormal ==> g'.useNormal)
  }

  /** Concatenation of what each line contributes to one array. */
  function VertexRecords(lines: seq<seq<string>>, toF: string -> real): seq<Vertex>
  {
    if lines == [] then [] else VertexRecords(lines[..|lines| - 1], toF) + VertexOf(lines[|lines| - 1], toF)
  }

  function TexCoordRecords(lines: seq<seq<string>>, toF: string -> real): seq<TexCoord>
  {
    if lines == [] then [] else TexCoordRecords(lines[..|lines| - 1], toF) + TexCoordOf(lines[|lines| - 1], toF)
  }

  function NormalRecords(lines: seq<seq<string>>, toF: string -> real): seq<Vec3>
  {
    if lines == [] then [] else NormalRecords(lines[..|lines| - 1], toF) + NormalOf(lines[|lines| - 1], toF)
  }

  function ParamRecords(lines: seq<seq<string>>, toF: string -> real): seq<seq<real>>
  {
    if lines == [] then [] else ParamRecords(lines[..|lines| - 1], toF) + ParamOf(lines[|lines| - 1], toF)
  }

  /** Some line of `lines` satisfies `p`. */
  ghost predicate AnyLine(lines: seq<seq<string>>, p: seq<string> -> bool)
  {
    exists i :: 0 <= i < |lines| && p(lines[i])
  }

  ghost predicate AnyCorner(lines: seq<seq<string>>)
  {
    AnyLine(lines, s => |FaceLineCorners(s)| > 0)
  }

  ghost predicate AnyUv(lines: seq<seq<string>>)
  {
    AnyLine(lines, s => HasUv(FaceLineCorners(s)))
  }

  ghost predicate AnyNormal(lines: seq<seq<string>>)
  {
    AnyLine(lines, s => HasNormal(FaceLineCorners(s)))
  }

  predicate IsUsemtl(s: seq<string>)
  {
    KeywordOf(s) == Usemtl
  }

  // ---------------------------------------------------------------------
  // Lemmas

  /** Parsing one more line is one more step, unless the parse already stopped. */
  lemma ParseSnoc(g: GeometryRecord, cur: Cursor, lines: seq<seq<string>>, s: seq<string>, toF: string -> real)
    ensures var r := ParseGeometry(g, cur, lines, toF);
      ParseGeometry(g, cur, lines + [s], toF) == if r.error.Some? then r else StepLine(r.geo, r.cur, s, toF)
  {
    assert (lines + [s])[..|lines|] == lines;
  }

  /** Once an error is raised, later lines are never read. */
  lemma {:induction false} ParseStopsAtError(g: GeometryRecord, cur: Cursor, lines: seq<seq<string>>, k: nat, toF: string -> real)
    requires k <= |lines|
    requires ParseGeometry(g, cur, lines[..k], toF).error.Some?
    ensures ParseGeometry(g, cur, lines, toF) == ParseGeometry(g, cur, lines[..k], toF)
    decreases |lines| - k
  {
    if k < |lines| {
      ParseSnoc(g, cur, lines[..k], lines[k], toF);
      assert lines[..k] + [lines[k]] == lines[..k + 1];
      ParseStopsAtError(g, cur, lines, k + 1, toF);
    } else {
      assert lines[..k] == lines;
    }
  }

  /** The flags after one more corner of an `f` line. */
  lemma FlaggedSnoc(g: GeometryRecord, cs: seq<Corner>, c: Corner)
    ensures Flagged(g, cs + [c])
         == Flagged(g, cs).(useVertex := true,
                            useUv := Flagged(g, cs).useUv || c.vti.Some?,
                            useNormal := Flagged(g, cs).useNormal || c.vni.Some?)
  {
    var ds := cs + [c];
    if HasUv(ds) {
      var k :| 0 <= k < |ds| && ds[k].vti.Some?;
      if k < |cs| { assert cs[k] == ds[k]; }
    }
    if HasUv(cs) {
      var k :| 0 <= k < |cs| && cs[k].vti.Some?;
      assert ds[k] == cs[k];
    }
    if c.vti.Some? { assert ds[|cs|] == c; }
    if HasNormal(ds) {
      var k :| 0 <= k < |ds| && ds[k].vni.Some?;
      if k < |cs| { assert cs[k] == ds[k]; }
    }
    if HasNormal(cs) {
      var k :| 0 <= k < |cs| && cs[k].vni.Some?;
      assert ds[k] == cs[k];
    }
    if c.vni.Some? { assert ds[|cs|] == c; }
  }

  lemma StepGrows(g: GeometryRecord, cur: Cursor, s: seq<string>, toF: string -> real)
    ensures Grows(g, StepLine(g, cur, s, toF).geo)
  {
    match KeywordOf(s)
    case Usemtl => UseMaterialGrows(g, cur, Arg(s, 1));
    case F => FaceStepGrows(g, cur, FaceCorners(s));
    case V => AppendGrows(g, g.(vertexs := g.vertexs + VertexOf(s, toF)));
    case Vt => AppendGrows(g, g.(uvs := g.uvs + TexCoordOf(s, toF)));
    case Vn => AppendGrows(g, g.(normals := g.normals + NormalOf(s, toF)));
    case Vp => AppendGrows(g, g.(vps := g.vps + ParamOf(s, toF)));
    case Mtllib => AppendGrows(g, g.(mtlname := Arg(s, 1)));
    case S => AppendGrows(g, g);
    case Other => AppendGrows(g, g);
  }

  /** A record whose arrays extend `g`'s and whose lists and flags are `g`'s grows. */
  lemma AppendGrows(g: GeometryRecord, g': GeometryRecord)
    requires g.vertexs <= g'.vertexs && g.uvs <= g'.uvs && g.normals <= g'.normals && g.vps <= g'.vps
    requires g'.faceOrder == g.faceOrder && g'.faces == g.faces
    requires g'.useVertex == g.useVertex && g'.useUv == g.useUv && g'.useNormal == g.useNormal
    ensures Grows(g, g')
  {
  }

  lemma UseMaterialGrows(g: GeometryRecord, cur: Cursor, m: string)
    ensures Grows(g, UseMaterial(g, cur, m).geo)
  {
  }

  lemma FaceStepGrows(g: GeometryRecord, cur: Cursor, cs: seq<Corner>)
    ensures Grows(g, FaceStep(g, cur, cs).geo)
  {
  }

  lemma GrowsTrans(a: GeometryRecord, b: GeometryRecord, c: GeometryRecord)
    requires Grows(a, b) && Grows(b, c)
    ensures Grows(a, c)
  {
  }

  /** The parser never resets anything: `usemtl` of a known name leaves its
      list alone, arrays and face lists are only appended to, key order is
      kept, and the use-flags only ever become true. */
  lemma {:induction false} ParseOnlyGrows(g: GeometryRecord, cur: Cursor, lines: seq<seq<string>>, toF: string -> real)
    ensures Grows(g, ParseGeometry(g, cur, lines, toF).geo)
  {
    if lines != [] {
      var r := ParseGeometry(g, cur, lines[..|lines| - 1], toF);
      ParseOnlyGrows(g, cur, lines[..|lines| - 1], toF);
      if r.error.None? {
        StepGrows(r.geo, r.cur, lines[|lines| - 1], toF);
        GrowsTrans(g, r.geo, StepLine(r.geo, r.cur, lines[|lines| - 1], toF).geo);
      }
    }
  }

  lemma StepKeepsWellFormed(g: GeometryRecord, cur: Cursor, s: seq<string>, toF: string -> real)
    requires WellFormed(g)
    ensures WellFormed(StepLine(g, cur, s, toF).geo)
  {
    match KeywordOf(s)
    case Usemtl => UseMaterialKeepsWellFormed(g, cur, Arg(s, 1));
    case F => FaceStepKeepsWellFormed(g, cur, FaceCorners(s));
    case _ =>
  }

  lemma UseMaterialKeepsWellFormed(g: GeometryRecord, cur: Cursor, m: string)
    requires WellFormed(g)
    ensures WellFormed(UseMaterial(g, cur, m).geo)
  {
    if m !in g.faces {
      var o := g.faceOrder + [m];
      forall i, j | 0 <= i < j < |o| ensures o[i] != o[j] {
        if j == |g.faceOrder| {
          assert o[i] in g.faceOrder;
        }
      }
    }
  }

  lemma FaceStepKeepsWellFormed(g: GeometryRecord, cur: Cursor, cs: seq<Corner>)
    requires WellFormed(g)
    ensures WellFormed(FaceStep(g, cur, cs).geo)
  {
  }

  /** The face store stays an insertion-ordered hash of non-empty faces that
      name their own list, whatever the lines. */
  lemma {:induction false} ParseKeepsWellFormed(g: GeometryRecord, cur: Cursor, lines: seq<seq<string>>, toF: string -> real)
    requires WellFormed(g)
    ensures WellFormed(ParseGeometry(g, cur, lines, toF).geo)
  {
    if lines != [] {
      var r := ParseGeometry(g, cur, lines[..|lines| - 1], toF);
      ParseKeepsWellFormed(g, cur, lines[..|lines| - 1], toF);
      if r.error.None? {
        StepKeepsWellFormed(r.geo, r.cur, lines[|lines| - 1], toF);
      }
    }
  }

  /** After a successful parse the n-th well-formed `v` line (1-based) is
      vertex n - 1, and likewise for `vt` and `vn`: each array is the old one
      followed by the records of its lines, in line order. */
  lemma {:induction false} ParseRecords(g: GeometryRecord, cur: Cursor, lines: seq<seq<string>>, toF: string -> real)
    requires ParseGeometry(g, cur, lines, toF).error.None?
    ensures var r := ParseGeometry(g, cur, lines, toF).geo;
      && r.vertexs == g.vertexs + VertexRecords(lines, toF)
      && r.uvs == g.uvs + TexCoordRecords(lines, toF)
      && r.normals == g.normals + NormalRecords(lines, toF)
  {
    if lines != [] {
      var init := lines[..|lines| - 1];
      var s := lines[|lines| - 1];
      ParseRecords(g, cur, init, toF);
      var r := ParseGeometry(g, cur, init, toF);
      StepRecords(r.geo, r.cur, s, toF);
      assert g.vertexs + VertexRecords(init, toF) + VertexOf(s, toF) == g.vertexs + VertexRecords(lines, toF);
      assert g.uvs + TexCoordRecords(init, toF) + TexCoordOf(s, toF) == g.uvs + TexCoordRecords(lines, toF);
      assert g.normals + NormalRecords(init, toF) + NormalOf(s, toF) == g.normals + NormalRecords(lines, toF);
    }
  }

  lemma StepRecords(g: GeometryRecord, cur: Cursor, s: seq<string>, toF: string -> real)
    ensures var r := StepLine(g, cur, s, toF).geo;
      && r.vertexs == g.vertexs + VertexOf(s, toF)
      && r.uvs == g.uvs + TexCoordOf(s, toF)
      && r.normals == g.normals + NormalOf(s, toF)
  {
    match KeywordOf(s)
    case V =>
    case Vt =>
    case Vn =>
    case _ =>
      assert VertexOf(s, toF) == [] && TexCoordOf(s, toF) == [] && NormalOf(s, toF) == [];
  }

  /** One line appends to the parameter-space array exactly what the `vp`
      token-count rule gives: 2, 3 or 4 tokens, nothing otherwise. */
  lemma StepParams(g: GeometryRecord, cur: Cursor, s: seq<string>, toF: string -> real)
    ensures StepLine(g, cur, s, toF).geo.vps == g.vps + ParamOf(s, toF)
  {
    if KeywordOf(s) != Vp {
      assert ParamOf(s, toF) == [];
    }
  }

  /** After a successful parse the parameter-space array is its old contents
      followed by the points of the well-formed `vp` lines, in line order. */
  lemma {:induction false} ParseParams(g: GeometryRecord, cur: Cursor, lines: seq<seq<string>>, toF: string -> real)
    requires ParseGeometry(g, cur, lines, toF).error.None?
    ensures ParseGeometry(g, cur, lines, toF).geo.vps == g.vps + ParamRecords(lines, toF)
  {
    if lines != [] {
      var init := lines[..|lines| - 1];
      var s := lines[|lines| - 1];
      ParseParams(g, cur, init, toF);
      var r := ParseGeometry(g, cur, init, toF);
      StepParams(r.geo, r.cur, s, toF);
      assert g.vps + ParamRecords(init, toF) + ParamOf(s, toF) == g.vps + ParamRecords(lines, toF);
    }
  }

  lemma StepFlags(g: GeometryRecord, cur: Cursor, s: seq<string>, toF: string -> real)
    ensures var r := StepLine(g, cur, s, toF).geo; var cs := FaceLineCorners(s);
      && (r.useVertex <==> g.useVertex || |cs| > 0)
      && (r.useUv <==> g.useUv || HasUv(cs))
      && (r.useNormal <==> g.useNormal || HasNormal(cs))
  {
    if KeywordOf(s) != F {
      assert FaceLineCorners(s) == [];
      assert !HasUv([]) && !HasNormal([]);
    }
  }

  lemma AnyLineSnoc(lines: seq<seq<string>>, p: seq<string> -> bool)
    requires lines != []
    ensures AnyLine(lines, p) <==> AnyLine(lines[..|lines| - 1], p) || p(lines[|lines| - 1])
  {
    var init := lines[..|lines| - 1];
    if AnyLine(lines, p) {
      var i :| 0 <= i < |lines| && p(lines[i]);
      if i < |init| { assert init[i] == lines[i]; }
    }
    if AnyLine(init, p) {
      var i :| 0 <= i < |init| && p(init[i]);
      assert lines[i] == init[i];
    }
  }

  /** After a successful parse, `use_vertex` is set iff some `f` token matched
      a pattern, `use_uv` iff some matched token had a vt part, `use_normal`
      iff some had a vn part (or the flag was already set). */
  lemma {:induction false} ParseFlags(g: GeometryRecord, cur: Cursor, lines: seq<seq<string>>, toF: string -> real)
    requires ParseGeometry(g, cur, lines, toF).error.None?
    ensures var r := ParseGeometry(g, cur, lines, toF).geo;
      && (r.useVertex <==> g.useVertex || AnyCorner(lines))
      && (r.useUv <==> g.useUv || AnyUv(lines))
      && (r.useNormal <==> g.useNormal || AnyNormal(lines))
  {
    if lines != [] {
      var init := lines[..|lines| - 1];
      ParseFlags(g, cur, init, toF);
      var r := ParseGeometry(g, cur, init, toF);
      StepFlags(r.geo, r.cur, lines[|lines| - 1], toF);
      AnyLineSnoc(lines, s => |FaceLineCorners(s)| > 0);
      AnyLineSnoc(lines, s => HasUv(FaceLineCorners(s)));
      AnyLineSnoc(lines, s => HasNormal(FaceLineCorners(s)));
    }
  }

  /** With no `usemtl` before it, a face with corners targets "none", which
      has no list: the parse fails with NoMethodError on nil. */
  lemma {:induction false} FaceBeforeUsemtlFails(g: GeometryRecord, lines: seq<seq<string>>, i: nat, toF: string -> real)
    requires "none" !in g.faces
    requires i < |lines|
    requires forall k :: 0 <= k < i ==> !IsUsemtl(lines[k])
    requires FaceLineCorners(lines[i]) != []
    ensures ParseGeometry(g, StartCursor, lines, toF).error == Some(NoFaceList("none"))
  {
    NoneStaysMissing(g, lines[..i], toF);
    var r := ParseGeometry(g, StartCursor, lines[..i], toF);
    ParseSnoc(g, StartCursor, lines[..i], lines[i], toF);
    assert lines[..i] + [lines[i]] == lines[..i + 1];
    var r1 := ParseGeometry(g, StartCursor, lines[..i + 1], toF);
    if r.error.None? {
      assert KeywordOf(lines[i]) == F;
      assert r1 == FaceStep(r.geo, r.cur, FaceCorners(lines[i]));
    }
    assert r1.error == Some(NoFaceList("none"));
    ParseStopsAtError(g, StartCursor, lines, i + 1, toF);
  }

  lemma {:induction false} NoneStaysMissing(g: GeometryRecord, lines: seq<seq<string>>, toF: string -> real)
    requires "none" !in g.faces
    requires forall k :: 0 <= k < |lines| ==> !IsUsemtl(lines[k])
    ensures var r := ParseGeometry(g, StartCursor, lines, toF);
      r.error == Some(NoFaceList("none")) || (r.error.None? && r.cur.mat == "none" && "none" !in r.geo.faces)
  {
    if lines != [] {
      NoneStaysMissing(g, lines[..|lines| - 1], toF);
    }
  }

  /** An `f` line stores its face, in order, at the end of the current
      material's list, unless no token matched; `s off` clears smoothing and
      any other `s` sets it; `usemtl` adds an empty list only for a new name. */
  lemma DirectiveRules(g: GeometryRecord, cur: Cursor, s: seq<string>, toF: string -> real)
    ensures var r := StepLine(g, cur, s, toF); var cs := FaceCorners(s);
      && (KeywordOf(s) == F && cs == [] ==> r.geo == g && r.error.None?)
      && (KeywordOf(s) == F && cs != [] && cur.mat in g.faces ==>
            r.error.None? && r.geo.faceOrder == g.faceOrder
            && r.geo.faces == g.faces[cur.mat := g.faces[cur.mat] + [Face(cur.mat, cur.smooth, cs)]])
      && (KeywordOf(s) == S ==> r.cur.smooth == (Arg(s, 1) != "off") && r.geo == g)
      && (KeywordOf(s) == Usemtl ==>
            && r.cur.mat == Arg(s, 1)
            && (Arg(s, 1) in g.faces ==> r.geo == g)
            && (Arg(s, 1) !in g.faces ==>
                  r.geo.faces == g.faces[Arg(s, 1) := []] && r.geo.faceOrder == g.faceOrder + [Arg(s, 1)]))
  {
  }
}
