# TinyWaveFrontObj in Dafny

A model of the Ruby class `TinyWaveFrontObj`. The class reads a Wavefront
`.obj` geometry file and the `.mtl` material file it names. It lists the
textures the materials use. It then builds vertex-array data for a renderer
in one of two ways:

- expanded: one array entry per face corner;
- indexed: parallel position, uv and normal arrays, plus one index list per
  face, where a repeated corner may reuse an earlier entry.

The project has six modules, one file each:

| file | module | contents |
|---|---|---|
| `obj_types.dfy` | `ObjTypes` | The values shared by the other modules: vertices, corners, faces, the geometry record, materials and the nine texture slots. Ruby `Array#index` is `FirstIndex`. |
| `face_refs.dfy` | `FaceRefs` | The four corner patterns of an `f` line (`v`, `v/vt`, `v//vn`, `v/vt/vn`, each part `\d+`), and the shift from the 1-based text to a 0-based index. |
| `obj_parser.dfy` | `ObjParser` | `read_geometry` as a function of the token lines. `StepLine` is one turn of its `case`, and `ParseGeometry` folds it over the lines, stopping at the first error. |
| `mtl_parser.dfy` | `MtlParser` | `read_material` in the same style (`StepMtl`, `ParseMaterials`). Also the texture list: `AllTextures` then `Dedup`. |
| `vertex_arrays.dfy` | `VertexArrays` | What the two builders store, as functions of the geometry: `Expanded`, `Indexed`, `Build` and the cache rule `Refreshed`. |
| `wavefront.dfy` | `WaveFront` | The class `TinyWaveFrontObj`, described below, and `Load`, which models `initialize`. |

The class keeps the Ruby object's fields. Its methods follow the Ruby loops
and update those fields in place. Each method is proved to leave exactly the
state that the matching function in the other modules describes. The
properties the Ruby code promises are proved as lemmas about those functions:

- the token-count rules;
- the corner patterns;
- flags that are only ever set;
- faces that are only ever appended, in line order;
- the texture list's uniqueness and first-seen order;
- that an indexed build decodes back to the expanded build;
- the cache rule.

Ruby `nil` for a token a line does not have is the empty string `""`.
Inside the two parsers this changes no outcome, because `split(" ")` never
produces an empty token, so `""` cannot be confused with a real name or
path. It does change one outcome in `initialize`, listed under `WaveFront.Load`
in "## Left out". `String#to_f`
and `String#to_i` are the parameters `toF` and `toI`. Each hash iterated in
insertion order is a key sequence plus a map.

## Model

| member | source | states |
|---|---|---|
| ObjTypes.FirstIndex | tinywavefrontobj.rb:388-389 | `Array#index`: when found, the result is the position of the first equal element; the result is None exactly when the element is absent |
| FaceRefs.ParseRefPatterns | tinywavefrontobj.rb:172-197 | each of the four patterns `v`, `v/vt`, `v//vn`, `v/vt/vn` yields a corner with exactly the parts it names, each index being the text number minus one |
| FaceRefs.ParseRefShape | tinywavefrontobj.rb:173-197 | the converse of the four patterns: a token that yields a corner is `a`, `a/b`, `a//d` or `a/b/d` for non-empty digit strings a, b, d, and the corner is the one that pattern gives (each index the text number minus one, the missing parts None) |
| FaceRefs.ParseRefOnlyDigitRefs | tinywavefrontobj.rb:172-197 | a character-level consequence of the anchors `^` and `$`: a token that yields a corner consists only of digits and `/` and starts and ends with a digit, and its indices are at least -1 (the exact converse is ParseRefShape) |
| FaceRefs.TextIndexRoundTrip | tinywavefrontobj.rb:192-195 | the 1-based decimal text of n + 1, used as a bare reference, refers to element n |
| FaceRefs.FaceCornersAppend | tinywavefrontobj.rb:171-198 | the corners of a token line are those of its parts concatenated: corners keep token order, and unmatched tokens contribute nothing |
| FaceRefs.FaceCornersStep | tinywavefrontobj.rb:172-198 | one more token of the `s.each` loop pushes its corner when it matches a pattern and nothing otherwise |
| FaceRefs.FaceCornersFromTokens | tinywavefrontobj.rb:171-198 | every corner in `finfo` is the corner of some token of the line; nothing else is pushed |
| ObjParser.DirectiveRules | tinywavefrontobj.rb:154-202 | `f` with no matching token changes nothing; `f` with corners under a known material appends one face with the current material and smoothing to the end of that list, leaving keys alone; `s off` clears smoothing and any other `s` sets it; `usemtl m` makes m current, leaves a known list alone and adds an empty list last for a new name |
| ObjParser.UseMaterial | tinywavefrontobj.rb:154-160 | `usemtl` never fails; it makes its name current, keeps the smoothing, and the name has a face list afterwards |
| ObjParser.FaceStep | tinywavefrontobj.rb:169-202 | an `f` line fails iff it has corners and the current material has no list; the error names that material, and the face lists are untouched |
| ObjParser.StepLine | tinywavefrontobj.rb:113-203 | the only line that fails is an `f` line with corners under a material that has no list, and it fails with that material's error |
| ObjParser.ParseGeometry | tinywavefrontobj.rb:103-206 | a failed parse stops with the error of the current material, which has no face list |
| ObjParser.StepRecords | tinywavefrontobj.rb:121-142 | one line appends to the vertex, texture-vertex and normal arrays exactly what its `v`/`vt`/`vn` token-count rule gives (4 or 5 tokens for `v` with w = 1.0 by default, 3 or 4 for `vt` with w = 0.0 by default, any `vn`) |
| ObjParser.ParseRecords | tinywavefrontobj.rb:121-142 | after a successful parse, each array is its old contents followed by the records of its well-formed lines in line order, so the n-th such `v` line is vertex n - 1 |
| ObjParser.StepParams | tinywavefrontobj.rb:143-153 | one line appends to the parameter-space array exactly what the `vp` rule gives: one, two or three numbers for 2, 3 or 4 tokens, and nothing for any other line |
| ObjParser.ParseParams | tinywavefrontobj.rb:143-153 | after a successful parse, the parameter-space array is its old contents followed by the points of the well-formed `vp` lines, in line order |
| ObjParser.FlaggedSnoc | tinywavefrontobj.rb:172-197 | a matched corner sets use_vertex; it sets use_uv when it has a vt part and use_normal when it has a vn part; no flag is cleared |
| ObjParser.StepFlags | tinywavefrontobj.rb:172-197 | after one line each flag is set iff it was set before or the line is an `f` whose matched corners call for it |
| ObjParser.ParseFlags | tinywavefrontobj.rb:172-197 | after a successful parse, use_vertex is set iff some `f` token matched, use_uv iff some matched token had a vt part, use_normal iff some had a vn part (or the flag was already set) |
| ObjParser.StepGrows | tinywavefrontobj.rb:113-203 | one line only appends: arrays and face lists are extended, keys are added last, flags never turn false |
| ObjParser.ParseOnlyGrows | tinywavefrontobj.rb:103-206 | the whole parse only appends: a repeated `usemtl` never resets a list, insertion order of materials is kept, flags are monotone |
| ObjParser.ParseStopsAtError | tinywavefrontobj.rb:199-201 | once the NoMethodError is raised, later lines are never read: the result equals the result at the failing line |
| ObjParser.StepKeepsWellFormed | tinywavefrontobj.rb:154-202 | one line keeps the face store an insertion-ordered hash whose faces have corners and carry their own material name |
| ObjParser.ParseKeepsWellFormed | tinywavefrontobj.rb:154-202 | the same holds after any sequence of lines |
| ObjParser.FaceBeforeUsemtlFails | tinywavefrontobj.rb:105 | a face with corners before any `usemtl` is stored under "none", which has no list, so the parse fails with that error |
| ObjParser.NoneStaysMissing | tinywavefrontobj.rb:105 | without `usemtl`, the current material stays "none" and "none" never gets a list, unless the parse has already failed on it |
| MtlParser.NewmtlRules | tinywavefrontobj.rb:216-223 | `newmtl n` gives n a fresh empty bag and makes it current, keeping a known name's place and adding a new name last; a property line before any `newmtl` fails |
| MtlParser.StepMtl | tinywavefrontobj.rb:215-275 | a line fails iff it is a known property directive and the current name has no bag; the error names it and the table is untouched |
| MtlParser.ParseMaterials | tinywavefrontobj.rb:208-278 | a failed parse stops with the error of the current name, which has no bag |
| MtlParser.PropertyRules | tinywavefrontobj.rb:248-274 | each of the nine texture directives is recognised and stores its token verbatim in its own slot, leaving the other slots |
| MtlParser.SetProperty | tinywavefrontobj.rb:220-274 | writing a property into a bag keeps every colour at alpha 1.0, and only the nine texture directives touch the texture slots |
| MtlParser.ColourRules | tinywavefrontobj.rb:220-238 | `Ka`, `Kd`, `Ks` and `Ke` set ambient, diffuse, specular and emission to (r, g, b, 1.0) from tokens 1 to 3 and leave the rest of the bag |
| MtlParser.ScalarRules | tinywavefrontobj.rb:232-247 | `Ns`, `Ni` and `d` store token 1 through `to_f` in shininess, optical density and dissolve, and `illum` stores it through `to_i`; a missing token gives 0.0 or 0; the rest of the bag is unchanged |
| MtlParser.StepMtlKeepsWellFormed | tinywavefrontobj.rb:216-275 | one line keeps the table an insertion-ordered hash with opaque colours |
| MtlParser.ParseMaterialsKeepsWellFormed | tinywavefrontobj.rb:208-278 | the material table stays an insertion-ordered hash whose colours all have alpha 1.0, whatever the lines |
| MtlParser.MtlStopsAtError | tinywavefrontobj.rb:210-223 | once a write through a nil bag raises, later lines are never read |
| MtlParser.Dedup | tinywavefrontobj.rb:283-299 | the keys of the hash `lst`: no element twice, and exactly the elements of the input |
| MtlParser.DedupSnoc | tinywavefrontobj.rb:296 | one more key: appended at the end when new, ignored when already present |
| MtlParser.DedupFirstSeen | tinywavefrontobj.rb:296-299 | hash keys keep first-seen order: an earlier key occurs in the input before every occurrence of a later one |
| MtlParser.AddTextureStep | tinywavefrontobj.rb:295-297 | one slot of the loop adds its path only when the slot is set and the path is not yet listed |
| MtlParser.MaterialTexturesHas | tinywavefrontobj.rb:285-297 | the slot walk over the nine fixed slots finds every texture a bag holds, and nothing else |
| MtlParser.AllTexturesHas | tinywavefrontobj.rb:284-298 | the walk over materials finds a path iff one of those materials holds it in some slot |
| MtlParser.TextureListExact | tinywavefrontobj.rb:282-300 | the texture list holds each texture path some material uses, exactly once, and nothing else |
| MtlParser.TextureList | tinywavefrontobj.rb:282-300 | the keys of `lst`: no path twice, and a path is listed iff some material holds it in one of the nine slots |
| MtlParser.TextureListFirstSeen | tinywavefrontobj.rb:282-300 | the texture list is in first-seen order: materials in insertion order, slots in the fixed order |
| VertexArrays.CornerAttrs | tinywavefrontobj.rb:327-345 | one resolved attribute per corner, in corner order |
| VertexArrays.FaceAttrs | tinywavefrontobj.rb:325-346 | the corners of a run of faces give exactly as many attributes as there are corners |
| VertexArrays.Lookup | tinywavefrontobj.rb:387-393 | the reuse test: a reused index names an entry equal to the corner and is the first entry with that position; when nothing is reused, every equal entry has an earlier entry with the same position |
| VertexArrays.IndexStep | tinywavefrontobj.rb:387-403 | one corner keeps the three arrays parallel, only appends (at most one entry), and pushes one index that decodes to the corner |
| VertexArrays.IndexCorners | tinywavefrontobj.rb:369-404 | a face's index list decodes, entry by entry, to its corners; the arrays stay parallel, only grow, and gain at most one entry per corner |
| VertexArrays.IndexFaces | tinywavefrontobj.rb:367-406 | one index list per face, whose concatenation decodes to the corners of the faces in order |
| VertexArrays.ListFaces | tinywavefrontobj.rb:366-367 | the stored faces of the materials, all in range when the geometry's indices are |
| VertexArrays.ListFacesAppend | tinywavefrontobj.rb:366-367 | materials are visited in order: the faces for `o1 + o2` are those of `o1` followed by those of `o2`, and one material contributes exactly its own face list, in order |
| VertexArrays.IndexLists | tinywavefrontobj.rb:366-407 | over all materials in insertion order: one index list per stored face, the arrays stay parallel and only grow, and the flattened face array decodes to the corners in expanded order |
| VertexArrays.IndexListsPerFace | tinywavefrontobj.rb:366-407 | across all materials, index list n decodes entry by entry to the corners of stored face n |
| VertexArrays.IndexFacesPerFace | tinywavefrontobj.rb:367-406 | index list n decodes to the corners of face n, for every face |
| VertexArrays.IndexListsBound | tinywavefrontobj.rb:395-403 | the indexed arrays never hold more entries than there are corners |
| VertexArrays.Indexed | tinywavefrontobj.rb:359-415 | the indexed build has a `:face` key with one index list per stored face, and its three arrays are parallel |
| VertexArrays.IndexedMatchesExpanded | tinywavefrontobj.rb:359-415 | the indexed build has a face array with one list per stored face, list n decoding to face n; its arrays are parallel and no longer than the expanded ones; following the flattened face array through them reproduces the expanded positions, and also the uvs and normals when their flags are set |
| VertexArrays.ReuseAtFirstMatch | tinywavefrontobj.rb:387-396 | a corner equal to the first entry with its position reuses that entry: no entry is added and that entry's index is pushed |
| VertexArrays.PushAtMismatch | tinywavefrontobj.rb:395-402 | for any parallel arrays, a corner the reuse test does not find gets a new entry at the end and is numbered by the old count |
| VertexArrays.MismatchAtFirst | tinywavefrontobj.rb:387-402 | a corner at the position of entry 0 that differs from entry 0 in uv or normal is never reused: it is pushed at the old count |
| VertexArrays.ReuseExample | tinywavefrontobj.rb:387-396 | for every corner, the same corner twice in a row is stored once, with index list [0, 0] |
| VertexArrays.QuirkFirst | tinywavefrontobj.rb:395-402 | for every corner, the first corner of a build gets entry 0 holding exactly its attributes |
| VertexArrays.QuirkSecond | tinywavefrontobj.rb:387-402 | for every two corners at one position that differ in uv or normal, the second gets its own entry 1 |
| VertexArrays.FirstMatchQuirk | tinywavefrontobj.rb:387-393 | for every two corners at one position that differ elsewhere, only the first entry is compared: the second corner repeated still gets its own entry (index list [0, 1, 2]), so indexed entries need not be unique |
| VertexArrays.VflipRule | tinywavefrontobj.rb:333-335 | vflip only replaces v by 1 - v in a texture coordinate the corner has; positions, normals, u and the (0, 0) default are the same either way |
| VertexArrays.Resolve | tinywavefrontobj.rb:328-344 | the position is the vertex without w; a corner with vt gets that texture vertex's (u, v), with v replaced by 1 - v when vflip is set, and one without vt gets (0, 0); a vn index gives that normal and no vn gives (0, 0, 0) |
| VertexArrays.Expanded | tinywavefrontobj.rb:319-354 | expanded mode has one position per corner, in order; when its flag is set the uv array (and likewise the normal array) holds each corner's resolved uv (normal) in the same order, and otherwise it is empty; there is no `:face` key |
| VertexArrays.Build | tinywavefrontobj.rb:308-312 | the builder `use_index` picks: the result has a `:face` key iff it is indexed |
| VertexArrays.RefreshedStable | tinywavefrontobj.rb:306-314 | a second `make_varray_data` without force keeps what the first built, whatever its vflip |
| VertexArrays.Refreshed | tinywavefrontobj.rb:306-314 | a non-empty cache without force is kept as it is; otherwise the cache is rebuilt and has a `:face` key iff use_index is set |
| VertexArrays.StaleCacheHasNoFace | tinywavefrontobj.rb:306-314 | after an expanded build, switching use_index on does not rebuild the cache, which has no `:face` key |
| VertexArrays.FlattenVec3 | tinywavefrontobj.rb:422 | `.flatten` of `[x, y, z]` triples: three numbers per triple, in order |
| VertexArrays.FlattenUv | tinywavefrontobj.rb:438 | `.flatten` of `[u, v]` pairs: two numbers per pair, in order |
| WaveFront.IndexOf | tinywavefrontobj.rb:388-389 | the linear search returns the first position of the point, or None when it is absent |
| WaveFront.AddTextures | tinywavefrontobj.rb:295-297 | the slot loop leaves the deduplicated list of everything seen so far plus this bag's slot paths |
| WaveFront.TinyWaveFrontObj.constructor | tinywavefrontobj.rb:73-90 | every field starts empty or false and the cache is empty, with the given use_index; the object is well formed |
| WaveFront.TinyWaveFrontObj.SetUseIndex | tinywavefrontobj.rb:66 | `use_index=` sets the flag |
| WaveFront.TinyWaveFrontObj.RaiseFlags | tinywavefrontobj.rb:172-197 | a matched corner sets use_vertex, sets use_uv when it has a vt part and use_normal when it has a vn part, and changes nothing else |
| WaveFront.TinyWaveFrontObj.MatchCorners | tinywavefrontobj.rb:171-198 | the token loop returns FaceCorners of the line and leaves the flags as Flagged describes |
| WaveFront.TinyWaveFrontObj.FaceLine | tinywavefrontobj.rb:169-202 | the token loop sets the flags for every matched token, then the face is stored, or the missing-list error is returned, exactly as FaceStep describes |
| WaveFront.TinyWaveFrontObj.GeometryLine | tinywavefrontobj.rb:113-203 | the fields, the current material and smoothing after one line, and its error, are exactly those of StepLine |
| WaveFront.TinyWaveFrontObj.GeometryLines | tinywavefrontobj.rb:108-205 | the fields after the line loop, and the error that stops it, are exactly those of ParseGeometry |
| WaveFront.TinyWaveFrontObj.ReadGeometry | tinywavefrontobj.rb:103-206 | the same, and the object stays well formed: the face store stays an insertion-ordered hash of faces with corners under their own material |
| WaveFront.TinyWaveFrontObj.MaterialLine | tinywavefrontobj.rb:215-275 | the table after one line, the current name and the error are exactly those of StepMtl |
| WaveFront.TinyWaveFrontObj.MaterialLines | tinywavefrontobj.rb:210-277 | the table after the line loop, and the error that stops it, are exactly those of ParseMaterials |
| WaveFront.TinyWaveFrontObj.ReadMaterial | tinywavefrontobj.rb:208-278 | the same, and the object stays well formed: the table stays an insertion-ordered hash of bags whose colours have alpha 1.0 |
| WaveFront.TinyWaveFrontObj.GetTextureList | tinywavefrontobj.rb:282-300 | returns TextureList of the table, which has no duplicates and is in first-seen order |
| WaveFront.TinyWaveFrontObj.ExpandCorner | tinywavefrontobj.rb:327-344 | one corner appends its position, and its uv and normal under their flags, as Resolve gives them |
| WaveFront.TinyWaveFrontObj.ExpandFace | tinywavefrontobj.rb:325-346 | the corner loop appends the face's corners in order |
| WaveFront.TinyWaveFrontObj.ExpandFaceList | tinywavefrontobj.rb:325-346 | the face loop appends the corners of the faces in order |
| WaveFront.TinyWaveFrontObj.ExpandMaterial | tinywavefrontobj.rb:324-347 | one material's faces are appended in order |
| WaveFront.TinyWaveFrontObj.ExpandAll | tinywavefrontobj.rb:319-348 | the three loops produce exactly Expanded |
| WaveFront.TinyWaveFrontObj.MakeVarrayNotWithIndex | tinywavefrontobj.rb:319-354 | the cache becomes the expanded arrays with no face key |
| WaveFront.TinyWaveFrontObj.IndexCorner | tinywavefrontobj.rb:369-403 | one corner is reused or pushed exactly as IndexStep describes, and the count stays the array length |
| WaveFront.TinyWaveFrontObj.IndexFace | tinywavefrontobj.rb:368-405 | the corner loop yields the tables and index list of IndexCorners |
| WaveFront.TinyWaveFrontObj.IndexFaceList | tinywavefrontobj.rb:367-406 | the face loop yields the tables and per-face lists of IndexFaces |
| WaveFront.TinyWaveFrontObj.IndexMaterial | tinywavefrontobj.rb:366-407 | one material's faces are indexed as IndexFaces describes |
| WaveFront.TinyWaveFrontObj.IndexAll | tinywavefrontobj.rb:359-408 | the three loops produce exactly Indexed |
| WaveFront.TinyWaveFrontObj.MakeVarrayWithIndex | tinywavefrontobj.rb:359-415 | the cache becomes the indexed arrays and the face lists |
| WaveFront.TinyWaveFrontObj.MakeVarrayData | tinywavefrontobj.rb:306-314 | the cache is rebuilt in the mode use_index selects only when it was empty or force is set, and is otherwise kept |
| WaveFront.TinyWaveFrontObj.GetVertexArray | tinywavefrontobj.rb:419-423 | nil, with the cache untouched, unless use_vertex; otherwise the cache is built if empty (vflip on) and the positions are returned flattened |
| WaveFront.TinyWaveFrontObj.GetNormalArray | tinywavefrontobj.rb:427-431 | as above, for use_normal and the normals |
| WaveFront.TinyWaveFrontObj.GetUvArray | tinywavefrontobj.rb:435-439 | as above, for use_uv and the uvs |
| WaveFront.TinyWaveFrontObj.GetFaceArray | tinywavefrontobj.rb:443-447 | nil unless use_index; otherwise the cache is built if empty and its face lists are returned flattened, or a fault when the cached data has no `:face` key |
| WaveFront.TinyWaveFrontObj.LoadMaterials | tinywavefrontobj.rb:94-100 | after the geometry: the material parse, then the texture list, then the cache when use_varray is set; a material error stops it with no texture list and no cache; the geometry is untouched and the object stays well formed |
| WaveFront.Load | tinywavefrontobj.rb:73-101 | a fresh, well-formed object whose geometry is the parse of the `.obj` lines; the material table is the parse of the file `mtllib` named; then come the texture list and, with use_varray, the cache; the first error stops the sequence where Ruby would raise |

## Left out

- File I/O is left out. Both files arrive as lines already split into tokens. The `.mtl` file is the function `mtlFile` from the `mtllib` name to its lines. Comment and blank lines split to a `#…` token or to nothing, and so fall through the `case` as they do in Ruby.
- A missing `.mtl` file is not modelled. In Ruby, `File.open` raises; `mtlFile` is total, so the model cannot express the failure.
- `String#to_f` and `String#to_i` are the parameters `toF` and `toI`; floating-point parsing and rounding are not modelled. Face indices are parsed exactly, because the patterns pin them to ASCII digits.
- Out-of-range corner indices are not modelled. In Ruby, an index past the end reads `nil`, and the text `0` gives index -1, which counts from the end. The builders, the accessors and `Load` instead require `IndicesInRange` of the geometry. `Load` requires it only when use_varray is set and the parse succeeds.
- WaveFront.Load: requires in-range indices, as above, instead of modelling what Ruby does with out-of-range ones.
- WaveFront.Load: with no `mtllib` line, Ruby joins `""` to the directory and `File.open` raises on the directory; with a bare `mtllib`, `File.join(@objdir, nil)` raises TypeError. The model reads `mtlFile("")` in both cases and goes on, because file access is the parameter `mtlFile`.
- Exceptions are not raised. Each NoMethodError on a nil hash entry is an `ObjError` value returned where Ruby would raise, and the state written so far stays as it is.
- The `o` directive is not modelled; the group name it stores is never read. The debug `puts`, the dump and info methods, the JSON and YAML output and the command-line script are also out.
- Axis flip, per-vertex colour and ARGB colour packing are not modelled. They are not part of `tinywavefrontobj.rb`.
- `vertexs.include?(xyz)` followed by `vertexs.index(xyz)` is modelled as one `IndexOf` scan. It gives the same answer.
- The three builder loops, and the two parser `case` statements, are split into one method per loop level (`ExpandFace`, `IndexFace`, `GeometryLine`, `MatchCorners`, `GeometryLines`, ...). `RaiseFlags` is the flag update of one matched corner, and `ReadGeometry`/`ReadMaterial` wrap their line loops with the well-formedness proof. These methods are a factoring of the Ruby methods, not operations of the class.
- The code is followed where it is narrower than the format's usual description:
  - a `vn` line with missing tokens stores 0.0 for them;
  - `usemtl` creates an empty face list even when no face follows;
  - a face before any `usemtl` fails rather than being grouped under "none";
  - in expanded mode, the uv and normal arrays are empty when their flags are false;
  - indexed entries are not always unique (`FirstMatchQuirk`).
