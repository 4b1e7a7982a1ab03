/** What `read_material` does to the material table, line by line, and the
    texture list `get_texture_list` derives from it. The imperative methods
    are `WaveFront.TinyWaveFrontObj.ReadMaterial` and `GetTextureList`. */
module MtlParser {
  import opened ObjTypes

  /** The insertion-ordered hash `@mtls`: names in insertion order, and bags. */
  datatype MtlTable = MtlTable(order: seq<string>, bags: map<string, Material>)

  /** The table after some lines, the current material name, and the error
      that stopped the parse, if any. */
  datatype MtlRun = MtlRun(table: MtlTable, current: string, error: Option<ObjError>)

  const EmptyTable: MtlTable := MtlTable([], map[])

  /** The directives `read_material` acts on: its `case s[0]`. */
  datatype MtlKeyword =
    | Newmtl | Ka | Kd | Ks | Ns | Ke | Ni | D | Illum | Tex(slot: TexSlot) | Unknown

  /** The directive that fills a texture slot. */
  function SlotDirective(k: TexSlot): string
  {
    match k
    case AmbientTex => "map_Ka"
    case DiffuseTex => "map_Kd"
    case SpecularTex => "map_Ks"
    case SpecularHighTex => "map_Ns"
    case DissolveTex => "map_d"
    case MapBumpTex => "map_bump"
    case BumpTex => "bump"
    case DisplacementTex => "disp"
    case DecalTex => "decal"
  }

  function MtlKeywordOf(s: seq<string>): MtlKeyword
  {
    if |s| == 0 then Unknown
    else
      var d := s[0];
      if d == "newmtl" then Newmtl
      else if d == "Ka" then Ka
      else if d == "Kd" then Kd
      else if d == "Ks" then Ks
      else if d == "Ns" then Ns
      else if d == "Ke" then Ke
      else if d == "Ni" then Ni
      else if d == "d" then D
      else if d == "illum" then Illum
      else if d == "map_Ka" then Tex(AmbientTex)
      else if d == "map_Kd" then Tex(DiffuseTex)
      else if d == "map_Ks" then Tex(SpecularTex)
      else if d == "map_Ns" then Tex(SpecularHighTex)
      else if d == "map_d" then Tex(DissolveTex)
      else if d == "map_bump" then Tex(MapBumpTex)
      else if d == "bump" then Tex(BumpTex)
      else if d == "disp" then Tex(DisplacementTex)
      else if d == "decal" then Tex(DecalTex)
      else Unknown
  }

  /** `[r, g, b, 1.0]` from the three tokens after the directive. */
  function Color(s: seq<string>, toF: string -> real): Rgba
  {
    Rgba(NumAt(s, 1, toF), NumAt(s, 2, toF), NumAt(s, 3, toF), 1.0)
  }

  /** A property directive written into a bag. Every colour it stores has
      alpha 1.0, and only a texture directive touches the texture slots. */
  function SetProperty(m: Material, kw: MtlKeyword, s: seq<string>, toF: string -> real, toI: string -> int): (r: Material)
    requires kw != Newmtl && kw != Unknown
    ensures Opaque(m) ==> Opaque(r)
    ensures !kw.Tex? ==> r.textures == m.textures
  {
    match kw
    case Ka => m.(ambient := Some(Color(s, toF)))
    case Kd => m.(diffuse := Some(Color(s, toF)))
    case Ks => m.(specular := Some(Color(s, toF)))
    case Ns => m.(shininess := Some(NumAt(s, 1, toF)))
    case Ke => m.(emission := Some(Color(s, toF)))
    case Ni => m.(opticalDensity := Some(NumAt(s, 1, toF)))
    case D => m.(dissolve := Some(NumAt(s, 1, toF)))
    case Illum => m.(illum := Some(if 1 < |s| then toI(s[1]) else 0))
    case Tex(k) => m.(textures := m.textures[k := Arg(s, 1)])
  }

  /** One line of `read_material`. `newmtl n` makes n current and gives it an
      empty bag (a known name keeps its place); a property directive before
      any `newmtl` writes through nil and fails. */
  function StepMtl(t: MtlTable, cur: string, s: seq<string>, toF: string -> real, toI: string -> int): (r: MtlRun)
    ensures r.error.Some? <==> MtlKeywordOf(s) != Newmtl && MtlKeywordOf(s) != Unknown && cur !in t.bags
    ensures r.error.Some? ==> r.error == Some(NoMaterial(cur)) && r.current == cur && r.table == t
  {
    var kw := MtlKeywordOf(s);
    if kw == Newmtl then
      var n := Arg(s, 1);
      MtlRun(MtlTable(if n in t.bags then t.order else t.order + [n], t.bags[n := EmptyMaterial]), n, None)
    else if kw == Unknown then MtlRun(t, cur, None)
    else if cur !in t.bags then MtlRun(t, cur, Some(NoMaterial(cur)))
    else MtlRun(t.(bags := t.bags[cur := SetProperty(t.bags[cur], kw, s, toF, toI)]), cur, None)
  }

  /** All lines in order; the first error stops the parse. The only error is
      a property line while the current name has no bag. */
  function ParseMaterials(t: MtlTable, cur: string, lines: seq<seq<string>>, toF: string -> real, toI: string -> int): (r: MtlRun)
    ensures r.error.Some? ==> r.error == Some(NoMaterial(r.current)) && r.current !in r.table.bags
    decreases |lines|
  {
    if lines == [] then MtlRun(t, cur, None)
    else
      var r := ParseMaterials(t, cur, lines[..|lines| - 1], toF, toI);
      if r.error.Some? then r else StepMtl(r.table, r.current, lines[|lines| - 1], toF, toI)
  }

  /** Every colour of a bag has alpha 1.0. */
  predicate Opaque(m: Material)
  {
    && (m.ambient.Some? ==> m.ambient.value.a == 1.0)
    && (m.diffuse.Some? ==> m.diffuse.value.a == 1.0)
    && (m.specular.Some? ==> m.specular.value.a == 1.0)
    && (m.emission.Some? ==> m.emission.value.a == 1.0)
  }

  /** The table is an insertion-ordered hash whose colours are all opaque. */
  ghost predicate TableWellFormed(t: MtlTable)
  {
    && Distinct(t.order)
    && (forall n :: n in t.bags <==> n in t.order)
    && (forall n :: n in t.bags ==> Opaque(t.bags[n]))
  }

  /** The texture paths a bag holds, in the slot order `slots`. */
  function SlotTextures(m: Material, slots: seq<TexSlot>): seq<string>
  {
    if slots == [] then []
    else
      var k := slots[|slots| - 1];
      SlotTextures(m, slots[..|slots| - 1]) + (if k in m.textures then [m.textures[k]] else [])
  }

  /** The texture paths of the materials `names`, in that order, slots in the
      fixed nine-slot order, repeats kept. */
  function AllTextures(t: MtlTable, names: seq<string>): seq<string>
  {
    if names == [] then []
    else
      var n := names[|names| - 1];
      AllTextures(t, names[..|names| - 1]) + (if n in t.bags then SlotTextures(t.bags[n], TexSlots) else [])
  }

  /** `s` without repeats, each element kept at its first occurrence (the
      keys of a Ruby hash filled by `lst[x] = 1`). */
  function Dedup<T(==,!new)>(s: seq<T>): (d: seq<T>)
    ensures Distinct(d)
    ensures forall x :: x in d <==> x in s
  {
    if s == [] then []
    else
      var p := Dedup(s[..|s| - 1]);
      var x := s[|s| - 1];
      assert forall y :: y in s <==> y in s[..|s| - 1] || y == x;
      if x in p then p else p + [x]
  }

  /** The value of `get_texture_list`: the slot paths of the materials in
      insertion order, each once. */
  function TextureList(t: MtlTable): (r: seq<string>)
    ensures Distinct(r)
    ensures forall x :: x in r <==> x in AllTextures(t, t.order)
  {
    Dedup(AllTextures(t, t.order))
  }

  /** The texture value `x` is held by some slot of the material `n`. */
  ghost predicate HoldsTexture(t: MtlTable, n: string, x: string)
  {
    n in t.bags && exists k :: k in t.bags[n].textures && t.bags[n].textures[k] == x
  }

  // ---------------------------------------------------------------------
  // Lemmas

  lemma MtlSnoc(t: MtlTable, cur: string, lines: seq<seq<string>>, s: seq<string>, toF: string -> real, toI: string -> int)
    ensures var r := ParseMaterials(t, cur, lines, toF, toI);
      ParseMaterials(t, cur, lines + [s], toF, toI)
        == if r.error.Some? then r else StepMtl(r.table, r.current, s, toF, toI)
  {
    assert (lines + [s])[..|lines|] == lines;
  }

  lemma {:induction false} MtlStopsAtError(t: MtlTable, cur: string, lines: seq<seq<string>>, k: nat, toF: string -> real, toI: string -> int)
    requires k <= |lines|
    requires ParseMaterials(t, cur, lines[..k], toF, toI).error.Some?
    ensures ParseMaterials(t, cur, lines, toF, toI) == ParseMaterials(t, cur, lines[..k], toF, toI)
    decreases |lines| - k
  {
    if k < |lines| {
      MtlSnoc(t, cur, lines[..k], lines[k], toF, toI);
      assert lines[..k] + [lines[k]] == lines[..k + 1];
      MtlStopsAtError(t, cur, lines, k + 1, toF, toI);
    } else {
      assert lines[..k] == lines;
    }
  }

  lemma StepMtlKeepsWellFormed(t: MtlTable, cur: string, s: seq<string>, toF: string -> real, toI: string -> int)
    requires TableWellFormed(t)
    ensures TableWellFormed(StepMtl(t, cur, s, toF, toI).table)
  {
    var kw := MtlKeywordOf(s);
    if kw == Newmtl {
      var n := Arg(s, 1);
      if n !in t.bags {
        var o := t.order + [n];
        forall i, j | 0 <= i < j < |o| ensures o[i] != o[j] {
          if j == |t.order| {
            assert o[i] in t.order;
          }
        }
      }
    }
  }

  /** The table stays an insertion-ordered hash, and every colour stored is
      `[r, g, b, 1.0]`, whatever the lines. */
  lemma {:induction false} ParseMaterialsKeepsWellFormed(t: MtlTable, cur: string, lines: seq<seq<string>>, toF: string -> real, toI: string -> int)
    requires TableWellFormed(t)
    ensures TableWellFormed(ParseMaterials(t, cur, lines, toF, toI).table)
  {
    if lines != [] {
      var r := ParseMaterials(t, cur, lines[..|lines| - 1], toF, toI);
      ParseMaterialsKeepsWellFormed(t, cur, lines[..|lines| - 1], toF, toI);
      if r.error.None? {
        StepMtlKeepsWellFormed(r.table, r.current, lines[|lines| - 1], toF, toI);
      }
    }
  }

  /** `newmtl n` replaces n's bag with an empty one and makes n current; a
      known name keeps its place in the order, a new one goes last. A
      property line before any `newmtl` fails. */
  lemma NewmtlRules(t: MtlTable, cur: string, s: seq<string>, toF: string -> real, toI: string -> int)
    requires TableWellFormed(t)
    ensures var r := StepMtl(t, cur, s, toF, toI); var n := Arg(s, 1);
      && (MtlKeywordOf(s) == Newmtl ==>
            && r.error.None? && r.current == n && r.table.bags == t.bags[n := EmptyMaterial]
            && r.table.order == (if n in t.order then t.order else t.order + [n]))
      && (MtlKeywordOf(s) !in {Newmtl, Unknown} && cur !in t.bags ==> r.error == Some(NoMaterial(cur)))
  {
  }

  /** Each texture directive fills its own slot with the token verbatim. */
  lemma PropertyRules(m: Material, s: seq<string>, toF: string -> real, toI: string -> int, k: TexSlot)
    requires |s| >= 2 && s[0] == SlotDirective(k)
    ensures MtlKeywordOf(s) == Tex(k)
    ensures SetProperty(m, Tex(k), s, toF, toI).textures == m.textures[k := s[1]]
  {
  }

  /** `Ka`, `Kd`, `Ks` and `Ke` store the three numbers after the directive
      with alpha 1.0, each in its own property; a missing number reads as 0.0. */
  lemma ColourRules(m: Material, s: seq<string>, toF: string -> real, toI: string -> int)
    requires |s| >= 1
    ensures var c := Rgba(NumAt(s, 1, toF), NumAt(s, 2, toF), NumAt(s, 3, toF), 1.0);
      && (s[0] == "Ka" ==> MtlKeywordOf(s) == Ka && SetProperty(m, Ka, s, toF, toI) == m.(ambient := Some(c)))
      && (s[0] == "Kd" ==> MtlKeywordOf(s) == Kd && SetProperty(m, Kd, s, toF, toI) == m.(diffuse := Some(c)))
      && (s[0] == "Ks" ==> MtlKeywordOf(s) == Ks && SetProperty(m, Ks, s, toF, toI) == m.(specular := Some(c)))
      && (s[0] == "Ke" ==> MtlKeywordOf(s) == Ke && SetProperty(m, Ke, s, toF, toI) == m.(emission := Some(c)))
  {
  }

  /** `Ns`, `Ni` and `d` store the token after the directive through `to_f`,
      and `illum` through `to_i`; a missing token reads as `nil.to_f`, 0.0,
      or `nil.to_i`, 0. */
  lemma ScalarRules(m: Material, s: seq<string>, toF: string -> real, toI: string -> int)
    requires |s| >= 1
    ensures var x := if |s| >= 2 then toF(s[1]) else 0.0;
      && (s[0] == "Ns" ==> MtlKeywordOf(s) == Ns && SetProperty(m, Ns, s, toF, toI) == m.(shininess := Some(x)))
      && (s[0] == "Ni" ==> MtlKeywordOf(s) == Ni && SetProperty(m, Ni, s, toF, toI) == m.(opticalDensity := Some(x)))
      && (s[0] == "d" ==> MtlKeywordOf(s) == D && SetProperty(m, D, s, toF, toI) == m.(dissolve := Some(x)))
    ensures s[0] == "illum" ==>
      && MtlKeywordOf(s) == Illum
      && SetProperty(m, Illum, s, toF, toI) == m.(illum := Some(if |s| >= 2 then toI(s[1]) else 0))
  {
  }

  // Unfolding one more element of each loop of `get_texture_list`.

  lemma DedupSnoc<T(!new)>(s: seq<T>, x: T)
    ensures Dedup(s + [x]) == if x in Dedup(s) then Dedup(s) else Dedup(s) + [x]
  {
    assert (s + [x])[..|s|] == s;
  }

  lemma SlotTexturesPrefix(m: Material, slots: seq<TexSlot>, k: nat)
    requires k < |slots|
    ensures SlotTextures(m, slots[..k + 1])
         == SlotTextures(m, slots[..k]) + (if slots[k] in m.textures then [m.textures[slots[k]]] else [])
  {
    assert slots[..k + 1][..k] == slots[..k];
  }

  /** One slot of the `get_texture_list` loop: its path joins the list
      unless the slot is empty or the path is already there. */
  lemma AddTextureStep(seen: seq<string>, m: Material, slots: seq<TexSlot>, k: nat)
    requires k < |slots|
    ensures var d := Dedup(seen + SlotTextures(m, slots[..k]));
      Dedup(seen + SlotTextures(m, slots[..k + 1]))
        == if slots[k] in m.textures && m.textures[slots[k]] !in d then d + [m.textures[slots[k]]] else d
  {
    SlotTexturesPrefix(m, slots, k);
    var prev := seen + SlotTextures(m, slots[..k]);
    if slots[k] in m.textures {
      var x := m.textures[slots[k]];
      DedupSnoc(prev, x);
      assert seen + SlotTextures(m, slots[..k + 1]) == prev + [x];
    } else {
      assert seen + SlotTextures(m, slots[..k + 1]) == prev;
    }
  }

  lemma AllTexturesPrefix(t: MtlTable, names: seq<string>, i: nat)
    requires i < |names|
    ensures AllTextures(t, names[..i + 1])
         == AllTextures(t, names[..i]) + (if names[i] in t.bags then SlotTextures(t.bags[names[i]], TexSlots) else [])
  {
    assert names[..i + 1][..i] == names[..i];
  }

  lemma SlotTexturesHas(m: Material, slots: seq<TexSlot>, x: string)
    ensures x in SlotTextures(m, slots) <==> exists k :: k in slots && k in m.textures && m.textures[k] == x
  {
    if slots != [] {
      var init := slots[..|slots| - 1];
      SlotTexturesHas(m, init, x);
      if exists k :: k in slots && k in m.textures && m.textures[k] == x {
        var k :| k in slots && k in m.textures && m.textures[k] == x;
        if k != slots[|slots| - 1] {
          assert k in init;
        }
      }
    }
  }

  lemma SlotListed(k: TexSlot)
    ensures k in TexSlots
  {
    match k
    case AmbientTex => assert TexSlots[0] == k;
    case DiffuseTex => assert TexSlots[1] == k;
    case SpecularTex => assert TexSlots[2] == k;
    case SpecularHighTex => assert TexSlots[3] == k;
    case DissolveTex => assert TexSlots[4] == k;
    case MapBumpTex => assert TexSlots[5] == k;
    case BumpTex => assert TexSlots[6] == k;
    case DisplacementTex => assert TexSlots[7] == k;
    case DecalTex => assert TexSlots[8] == k;
  }

  /** The slot walk of `get_texture_list` sees every texture of a bag. */
  lemma MaterialTexturesHas(m: Material, x: string)
    ensures x in SlotTextures(m, TexSlots) <==> exists k :: k in m.textures && m.textures[k] == x
  {
    SlotTexturesHas(m, TexSlots, x);
    if exists k :: k in m.textures && m.textures[k] == x {
      var k :| k in m.textures && m.textures[k] == x;
      SlotListed(k);
    }
  }

  lemma {:induction false} AllTexturesHas(t: MtlTable, names: seq<string>, x: string)
    ensures x in AllTextures(t, names) <==> exists n :: n in names && HoldsTexture(t, n, x)
  {
    if names != [] {
      var init := names[..|names| - 1];
      var last := names[|names| - 1];
      AllTexturesHas(t, init, x);
      var tail := if last in t.bags then SlotTextures(t.bags[last], TexSlots) else [];
      assert AllTextures(t, names) == AllTextures(t, init) + tail;
      if last in t.bags {
        MaterialTexturesHas(t.bags[last], x);
      }
      assert x in tail <==> HoldsTexture(t, last, x);
      if x in AllTextures(t, names) {
        if x in tail {
          assert last in names;
        } else {
          assert x in AllTextures(t, init);
          var n :| n in init && HoldsTexture(t, n, x);
          assert n in names;
        }
      }
      if exists n :: n in names && HoldsTexture(t, n, x) {
        var n :| n in names && HoldsTexture(t, n, x);
        if n != last {
          assert n in init;
        }
      }
    }
  }

  /** `get_texture_list` lists every texture path some material holds, and
      nothing else, each exactly once. */
  lemma TextureListExact(t: MtlTable)
    ensures Distinct(TextureList(t))
    ensures forall x :: x in TextureList(t) <==> exists n :: n in t.order && HoldsTexture(t, n, x)
  {
    forall x ensures x in TextureList(t) <==> exists n :: n in t.order && HoldsTexture(t, n, x) {
      AllTexturesHas(t, t.order, x);
    }
  }

  /** `d` lists elements of `s` by first occurrence: an earlier entry of `d`
      occurs in `s` before every occurrence of a later one. */
  ghost predicate FirstSeen<T>(s: seq<T>, d: seq<T>)
  {
    forall i, j, p :: 0 <= i < j < |d| && 0 <= p < |s| && s[p] == d[j] ==> d[i] in s[..p]
  }

  /** Dedup keeps first-seen order: an earlier entry of the result occurs in
      the input before every occurrence of a later one. */
  lemma {:induction false} DedupFirstSeen<T(!new)>(s: seq<T>)
    ensures FirstSeen(s, Dedup(s))
  {
    if s != [] {
      var init := s[..|s| - 1];
      var x := s[|s| - 1];
      var p0 := Dedup(init);
      DedupFirstSeen(init);
      assert FirstSeen(init, p0);
      var d := Dedup(s);
      forall i, j, p | 0 <= i < j < |d| && 0 <= p < |s| && s[p] == d[j]
        ensures d[i] in s[..p]
      {
        if p < |init| {
          assert s[p] == init[p];
          assert init[..p] == s[..p];
          if j < |p0| {
            assert d[j] == p0[j] && d[i] == p0[i];
            assert init[p] == p0[j];
            assert p0[i] in init[..p];
          } else {
            // d[j] would be x, appended only if x did not occur in init
            assert false;
          }
        } else {
          assert s[..p] == init;
          assert i < |p0|;
          assert d[i] == p0[i];
          assert p0[i] in p0;
          assert p0[i] in init;
        }
      }
    }
  }

  /** `get_texture_list` orders paths by first occurrence: materials in
      insertion order, slots in the fixed nine-slot order. */
  lemma TextureListFirstSeen(t: MtlTable)
    ensures FirstSeen(AllTextures(t, t.order), TextureList(t))
  {
    assert TextureList(t) == Dedup(AllTextures(t, t.order));
    DedupFirstSeen(AllTextures(t, t.order));
  }
}
