/** The face-corner references of an `f` line: the four patterns
    `v/vt/vn`, `v//vn`, `v/vt` and `v`, each part one or more ASCII digits,
    and the shift from the 1-based text index to a 0-based index. */
module FaceRefs {
  import opened ObjTypes

  predicate IsDigit(ch: char)
  {
    '0' <= ch <= '9'
  }

  /** The regular expression `\d+`. */
  predicate IsDigits(t: string)
  {
    |t| > 0 && forall i :: 0 <= i < |t| ==> IsDigit(t[i])
  }

  /** The decimal value of a run of digits (Ruby `String#to_i` on a `\d+` match). */
  function DigitsValue(t: string): nat
    requires forall i :: 0 <= i < |t| ==> IsDigit(t[i])
  {
    if t == [] then 0
    else
      assert IsDigit(t[|t| - 1]);
      10 * DigitsValue(t[..|t| - 1]) + (t[|t| - 1] as int - '0' as int)
  }

  /** The 0-based index written as the 1-based text `t`: `$1.to_i - 1`. */
  function TextIndex(t: string): int
    requires IsDigits(t)
  {
    DigitsValue(t) - 1
  }

  /** The decimal text of `n`, without leading zeros. */
  function DecimalText(n: nat): (t: string)
    ensures IsDigits(t)
  {
    var d := [('0' as int + n % 10) as char];
    if n < 10 then d else DecimalText(n / 10) + d
  }

  /** The '/'-separated fields of a token, empty fields kept. */
  function SplitSlash(t: string): (fields: seq<string>)
    ensures |fields| >= 1
  {
    if t == [] then [""]
    else
      var f := SplitSlash(t[..|t| - 1]);
      var c := t[|t| - 1];
      if c == '/' then f + [""] else f[..|f| - 1] + [f[|f| - 1] + [c]]
  }

  /** The inverse of SplitSlash: the fields joined with '/'. */
  function JoinSlash(fields: seq<string>): string
    requires |fields| >= 1
  {
    if |fields| == 1 then fields[0]
    else JoinSlash(fields[..|fields| - 1]) + "/" + fields[|fields| - 1]
  }

  predicate SlashFree(t: string)
  {
    forall i :: 0 <= i < |t| ==> t[i] != '/'
  }

  /** `t` is written in one of the four patterns `v`, `v/vt`, `v//vn` and
      `v/vt/vn`, each part `\d+`, and `c` is the corner it denotes. */
  ghost predicate RefText(t: string, c: Corner)
  {
    || (IsDigits(t) && c == Corner(TextIndex(t), None, None))
    || (exists a, b :: IsDigits(a) && IsDigits(b) && t == a + "/" + b
                       && c == Corner(TextIndex(a), Some(TextIndex(b)), None))
    || (exists a, d :: IsDigits(a) && IsDigits(d) && t == a + "//" + d
                       && c == Corner(TextIndex(a), None, Some(TextIndex(d))))
    || (exists a, b, d :: IsDigits(a) && IsDigits(b) && IsDigits(d) && t == a + "/" + b + "/" + d
                          && c == Corner(TextIndex(a), Some(TextIndex(b)), Some(TextIndex(d))))
  }

  /** One corner reference of an `f` line, or None when the token matches
      none of the four patterns (the leading `f`, `-1`, `1.5`, `1/2/3/4`, ...). */
  function ParseRef(t: string): Option<Corner>
  {
    var f := SplitSlash(t);
    if |f| == 1 && IsDigits(f[0]) then
      Some(Corner(TextIndex(f[0]), None, None))
    else if |f| == 2 && IsDigits(f[0]) && IsDigits(f[1]) then
      Some(Corner(TextIndex(f[0]), Some(TextIndex(f[1])), None))
    else if |f| == 3 && IsDigits(f[0]) && f[1] == "" && IsDigits(f[2]) then
      Some(Corner(TextIndex(f[0]), None, Some(TextIndex(f[2]))))
    else if |f| == 3 && IsDigits(f[0]) && IsDigits(f[1]) && IsDigits(f[2]) then
      Some(Corner(TextIndex(f[0]), Some(TextIndex(f[1])), Some(TextIndex(f[2]))))
    else
      None
  }

  /** The converse of ParseRefPatterns: a token yields a corner only when it
      is written in one of the four patterns, and the corner is the one that
      pattern denotes. */
  lemma ParseRefShape(t: string)
    requires ParseRef(t).Some?
    ensures RefText(t, ParseRef(t).value)
  {
    var f := SplitSlash(t);
    FieldsText(t);
    if |f| == 3 && f[1] == "" {
      assert t == f[0] + "//" + f[2];
    }
  }

  /** Every corner of an `f` line is the corner of one of its tokens. */
  lemma {:induction false} FaceCornersFromTokens(ts: seq<string>)
    ensures forall k :: 0 <= k < |FaceCorners(ts)| ==> exists j :: 0 <= j < |ts| && ParseRef(ts[j]) == Some(FaceCorners(ts)[k])
  {
    if ts != [] {
      var init := ts[..|ts| - 1];
      var prev := FaceCorners(init);
      var cs := FaceCorners(ts);
      FaceCornersFromTokens(init);
      forall k | 0 <= k < |cs|
        ensures exists j :: 0 <= j < |ts| && ParseRef(ts[j]) == Some(cs[k])
      {
        if k < |prev| {
          assert cs[k] == prev[k];
          var j :| 0 <= j < |init| && ParseRef(init[j]) == Some(prev[k]);
          assert init[j] == ts[j];
        } else {
          assert ParseRef(ts[|ts| - 1]) == Some(cs[k]);
        }
      }
    } else {
      assert FaceCorners(ts) == [];
    }
  }

  /** A token is its fields joined by '/'. */
  lemma FieldsText(t: string)
    ensures var f := SplitSlash(t);
      && (|f| == 1 ==> t == f[0])
      && (|f| == 2 ==> t == f[0] + "/" + f[1])
      && (|f| == 3 ==> t == f[0] + "/" + f[1] + "/" + f[2])
  {
    var f := SplitSlash(t);
    JoinSplit(t);
    if |f| == 2 {
      assert f[..1] == [f[0]];
    } else if |f| == 3 {
      assert f[..2][..1] == [f[0]];
      assert f[..2] == [f[0], f[1]];
    }
  }

  /** The corners of a token line, in token order; tokens that match no
      pattern are skipped. */
  function FaceCorners(ts: seq<string>): (cs: seq<Corner>)
    ensures |cs| <= |ts|
  {
    if ts == [] then []
    else
      var prev := FaceCorners(ts[..|ts| - 1]);
      match ParseRef(ts[|ts| - 1])
      case Some(c) => prev + [c]
      case None => prev
  }

  // ---------------------------------------------------------------------
  // Lemmas

  lemma {:induction false} DecimalValue(n: nat)
    ensures DigitsValue(DecimalText(n)) == n
  {
    var d := [('0' as int + n % 10) as char];
    if n >= 10 {
      DecimalValue(n / 10);
      var t := DecimalText(n / 10) + d;
      assert t[..|t| - 1] == DecimalText(n / 10);
    }
  }

  lemma {:induction false} JoinSplit(t: string)
    ensures JoinSlash(SplitSlash(t)) == t
  {
    if t != [] {
      var p := t[..|t| - 1];
      var c := t[|t| - 1];
      var f := SplitSlash(p);
      JoinSplit(p);
      assert t == p + [c];
      if c == '/' {
        var g := f + [""];
        assert SplitSlash(t) == g;
        assert g[..|f|] == f;
        assert JoinSlash(g) == JoinSlash(f) + "/" + "";
      } else if |f| == 1 {
        var g := [f[0] + [c]];
        assert SplitSlash(t) == g;
        assert JoinSlash(g) == f[0] + [c];
      } else {
        var init := f[..|f| - 1];
        var g := init + [f[|f| - 1] + [c]];
        assert SplitSlash(t) == g;
        assert g[..|g| - 1] == init;
        assert f[..|f| - 1] == init;
        assert JoinSlash(g) == JoinSlash(init) + "/" + (f[|f| - 1] + [c]);
        assert JoinSlash(f) == JoinSlash(init) + "/" + f[|f| - 1];
      }
    }
  }

  /** One more character either starts a new field ('/') or extends the
      last one. */
  lemma SplitSnoc(t: string, c: char)
    ensures var f := SplitSlash(t);
      SplitSlash(t + [c]) == if c == '/' then f + [""] else f[..|f| - 1] + [f[|f| - 1] + [c]]
  {
    assert (t + [c])[..|t|] == t;
  }

  /** Splitting `prefix + b` where `b` has no '/' only extends the last field. */
  lemma {:induction false} SplitAppendSlashFree(a: string, b: string)
    requires SlashFree(b)
    ensures var f := SplitSlash(a);
      SplitSlash(a + b) == f[..|f| - 1] + [f[|f| - 1] + b]
    decreases |b|
  {
    var f := SplitSlash(a);
    if b == [] {
      assert a + b == a;
      assert f[|f| - 1] + b == f[|f| - 1];
      assert f[..|f| - 1] + [f[|f| - 1]] == f;
    } else {
      var b' := b[..|b| - 1];
      var c := b[|b| - 1];
      assert b' + [c] == b && c != '/';
      assert SlashFree(b') by {
        forall i | 0 <= i < |b'| ensures b'[i] != '/' {
          assert b'[i] == b[i];
        }
      }
      SplitAppendSlashFree(a, b');
      assert a + b == (a + b') + [c];
      SplitSnoc(a + b', c);
      ExtendLastField(f, b', c);
    }
  }

  /** Extending the last field by `x` and then by `c` extends it by `x + [c]`. */
  lemma ExtendLastField(f: seq<string>, x: string, c: char)
    requires |f| >= 1
    ensures var g := f[..|f| - 1] + [f[|f| - 1] + x];
      g[..|g| - 1] + [g[|g| - 1] + [c]] == f[..|f| - 1] + [f[|f| - 1] + (x + [c])]
  {
    var g := f[..|f| - 1] + [f[|f| - 1] + x];
    assert g[..|g| - 1] == f[..|f| - 1];
    assert g[|g| - 1] + [c] == f[|f| - 1] + (x + [c]);
  }

  lemma {:induction false} SplitJoin(fields: seq<string>)
    requires |fields| >= 1
    requires forall k :: 0 <= k < |fields| ==> SlashFree(fields[k])
    ensures SplitSlash(JoinSlash(fields)) == fields
  {
    if |fields| == 1 {
      SplitAppendSlashFree("", fields[0]);
      assert "" + fields[0] == fields[0];
    } else {
      var init := fields[..|fields| - 1];
      var last := fields[|fields| - 1];
      SplitJoin(init);
      var j := JoinSlash(init);
      assert SplitSlash(j + "/") == init + [""] by {
        assert (j + "/")[..|j + "/"| - 1] == j;
      }
      SplitAppendSlashFree(j + "/", last);
      assert j + "/" + last == JoinSlash(fields);
      assert (init + [""])[..|init|] == init;
      assert (init + [""])[|init|] + last == last;
      assert init + [last] == fields;
    }
  }

  lemma DigitsSlashFree(t: string)
    requires IsDigits(t)
    ensures SlashFree(t)
  {
  }

  /** Each of the four patterns yields its corner, every index being the
      text integer minus one. */
  lemma {:induction false} ParseRefPatterns(a: string, b: string, c: string)
    requires IsDigits(a) && IsDigits(b) && IsDigits(c)
    ensures ParseRef(a) == Some(Corner(TextIndex(a), None, None))
    ensures ParseRef(a + "/" + b) == Some(Corner(TextIndex(a), Some(TextIndex(b)), None))
    ensures ParseRef(a + "//" + c) == Some(Corner(TextIndex(a), None, Some(TextIndex(c))))
    ensures ParseRef(a + "/" + b + "/" + c)
         == Some(Corner(TextIndex(a), Some(TextIndex(b)), Some(TextIndex(c))))
  {
    DigitsSlashFree(a);
    DigitsSlashFree(b);
    DigitsSlashFree(c);
    SplitJoin([a]);
    SplitJoin([a, b]);
    assert [a, b][..1] == [a];
    SplitJoin([a, "", c]);
    assert [a, "", c][..2] == [a, ""];
    assert [a, ""][..1] == [a];
    assert a + "//" + c == a + "/" + "" + "/" + c;
    SplitJoin([a, b, c]);
    assert [a, b, c][..2] == [a, b];
  }

  lemma {:induction false} JoinChars(fields: seq<string>)
    requires |fields| >= 1
    requires forall k :: 0 <= k < |fields| ==> forall i :: 0 <= i < |fields[k]| ==> IsDigit(fields[k][i])
    ensures forall i :: 0 <= i < |JoinSlash(fields)| ==> IsDigit(JoinSlash(fields)[i]) || JoinSlash(fields)[i] == '/'
  {
    if |fields| > 1 {
      var init := fields[..|fields| - 1];
      var last := fields[|fields| - 1];
      JoinChars(init);
      var j := JoinSlash(init);
      var t := j + "/" + last;
      assert forall i :: 0 <= i < |last| ==> IsDigit(last[i]);
      forall i | 0 <= i < |t|
        ensures IsDigit(t[i]) || t[i] == '/'
      {
        if i < |j| {
          assert t[i] == j[i];
          assert IsDigit(j[i]) || j[i] == '/';
        } else if i == |j| {
          assert t[i] == '/';
        } else {
          assert t[i] == last[i - |j| - 1];
          assert IsDigit(last[i - |j| - 1]);
        }
      }
    }
  }

  /** A token that yields a corner consists of digits and '/' only, starts
      and ends with a digit, and its indices are at least -1 (text "0"). */
  lemma {:induction false} ParseRefOnlyDigitRefs(t: string)
    requires ParseRef(t).Some?
    ensures forall i :: 0 <= i < |t| ==> IsDigit(t[i]) || t[i] == '/'
    ensures IsDigit(t[0]) && IsDigit(t[|t| - 1])
    ensures var c := ParseRef(t).value;
      c.vi >= -1 && (c.vti.Some? ==> c.vti.value >= -1) && (c.vni.Some? ==> c.vni.value >= -1)
  {
    var f := SplitSlash(t);
    RefFieldsOf(t);
    JoinSplit(t);
    JoinChars(f);
    FirstFieldLeads(f);
    LastFieldTrails(f);
  }

  /** The fields of a reference: one to three, first and last non-empty,
      every field made of digits. */
  predicate RefFields(f: seq<string>)
  {
    && 1 <= |f| <= 3
    && IsDigits(f[0]) && IsDigits(f[|f| - 1])
    && forall k :: 0 <= k < |f| ==> forall i :: 0 <= i < |f[k]| ==> IsDigit(f[k][i])
  }

  lemma RefFieldsOf(t: string)
    requires ParseRef(t).Some?
    ensures RefFields(SplitSlash(t))
  {
    var f := SplitSlash(t);
    assert IsDigits(f[0]) && IsDigits(f[|f| - 1]);
    forall k | 0 <= k < |f|
      ensures forall i :: 0 <= i < |f[k]| ==> IsDigit(f[k][i])
    {
      if f[k] != "" {
        assert IsDigits(f[k]);
      }
    }
  }

  lemma {:induction false} FirstFieldLeads(f: seq<string>)
    requires |f| >= 1 && f[0] != ""
    ensures JoinSlash(f) != "" && JoinSlash(f)[0] == f[0][0]
  {
    if |f| > 1 {
      FirstFieldLeads(f[..|f| - 1]);
    }
  }

  lemma LastFieldTrails(f: seq<string>)
    requires |f| >= 1 && f[|f| - 1] != ""
    ensures JoinSlash(f) != "" && JoinSlash(f)[|JoinSlash(f)| - 1] == f[|f| - 1][|f[|f| - 1]| - 1]
  {
  }

  /** Writing the 1-based number n + 1 as a bare `v` reference refers to element n. */
  lemma TextIndexRoundTrip(n: nat)
    ensures ParseRef(DecimalText(n + 1)) == Some(Corner(n, None, None))
  {
    var t := DecimalText(n + 1);
    DecimalValue(n + 1);
    ParseRefPatterns(t, t, t);
  }

  /** One more token of an `f` line adds its corner, if it has one. */
  lemma FaceCornersStep(ts: seq<string>, j: nat)
    requires j < |ts|
    ensures FaceCorners(ts[..j + 1])
         == if ParseRef(ts[j]).Some? then FaceCorners(ts[..j]) + [ParseRef(ts[j]).value] else FaceCorners(ts[..j])
  {
    assert ts[..j + 1][..j] == ts[..j];
  }

  /** The corners of two token runs, one after the other. */
  lemma {:induction false} FaceCornersAppend(a: seq<string>, b: seq<string>)
    ensures FaceCorners(a + b) == FaceCorners(a) + FaceCorners(b)
    decreases |b|
  {
    if b == [] {
      assert a + b == a;
    } else {
      var b' := b[..|b| - 1];
      FaceCornersAppend(a, b');
      assert (a + b)[..|a + b| - 1] == a + b';
    }
  }
}
