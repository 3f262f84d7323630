// The line readers and the driver of parser.cpp. Each of v, vt, vn and f is a
// method on the model that pushes what it reads, proved against a function
// that says what the line holds; parse_obj splits the file into lines and
// dispatches on their first two characters.

module ObjParser {
  import opened Numeric
  import opened Wrappers
  import opened MatVec
  import opened ObjScan
  import opened Mesh

  /** `std::stof(line.substr(i))`: the float parser is a parameter; None stands for its exceptions. */
  function ReadCoord(line: string, i: nat, stof: string -> Option<real>): (r: Option<real>)
    ensures i > |line| ==> r == None
    ensures i <= |line| ==> r == stof(line[i..])
  {
    match Substr(line, i)
    case None => None
    case Some(t) => stof(t)
  }

  /** Where v and vn read their three coordinates: after skip_ws, then after each skip_to_ws and skip_ws. */
  function CoordStarts(line: string, idx: nat): (r: (nat, nat, nat))
    ensures idx <= r.0 <= r.1 <= r.2
  {
    var i0 := SkipWsEnd(line, idx);
    var i1 := SkipWsEnd(line, Scan(line, i0, Space));
    var i2 := SkipWsEnd(line, Scan(line, i1, Space));
    (i0, i1, i2)
  }

  /** The coordinates a v or vn line holds, read from idx on; None when a read throws. */
  function Coords(line: string, idx: nat, stof: string -> Option<real>): (r: Option<Vec>)
    ensures r.Some? ==> |r.value| == 3
  {
    var (i0, i1, i2) := CoordStarts(line, idx);
    match (ReadCoord(line, i0, stof), ReadCoord(line, i1, stof), ReadCoord(line, i2, stof))
    case (Some(x), Some(y), Some(z)) => Some([x, y, z])
    case _ => None
  }

  /** The vertex position a v line holds. */
  function VertexOf(line: string, stof: string -> Option<real>): Option<Vec>
  {
    Coords(line, 1, stof)
  }

  /**
   * The normal a vn line holds: its three coordinates divided by their norm.
   * A zero-norm normal, which the source turns into NaN components, is kept
   * as it was read.
   */
  function NormalOf(line: string, stof: string -> Option<real>, sqrt: real -> real): (r: Option<Vec>)
    ensures r.Some? <==> Coords(line, 2, stof).Some?
    ensures r.Some? ==> |r.value| == 3
    ensures r.Some? && Norm(Coords(line, 2, stof).value, sqrt) != 0.0 ==>
      forall i :: 0 <= i < 3 ==> r.value[i] * Norm(Coords(line, 2, stof).value, sqrt) == Coords(line, 2, stof).value[i]
    ensures r.Some? && Norm(Coords(line, 2, stof).value, sqrt) == 0.0 ==> r.value == Coords(line, 2, stof).value
  {
    match Coords(line, 2, stof)
    case None => None
    case Some(v) => Some(if Norm(v, sqrt) != 0.0 then Normalized(v, sqrt) else v)
  }

  /** The texture coordinate a vt line holds; z stays 0. */
  function TexCoordOf(line: string, stof: string -> Option<real>): (r: Option<Vec>)
    ensures r.Some? ==> |r.value| == 3 && r.value[2] == 0.0
  {
    var i0 := SkipWsEnd(line, 2);
    var i1 := Scan(line, SkipWsEnd(line, i0), Space);
    match (ReadCoord(line, i0, stof), ReadCoord(line, i1, stof))
    case (Some(x), Some(y)) => Some([x, y, 0.0])
    case _ => None
  }

  /** v: reads three coordinates and appends them to the vertex list. */
  method V(line: string, mdl: Model, stof: string -> Option<real>) returns (ok: bool)
    modifies mdl
    ensures ok <==> VertexOf(line, stof).Some?
    ensures mdl.Contents() == old(mdl.Contents()).(verts := old(mdl.verts) + if ok then [VertexOf(line, stof).value] else [])
    ensures mdl.textureMap == old(mdl.textureMap) && mdl.normalMap == old(mdl.normalMap) && mdl.specularMap == old(mdl.specularMap)
  {
    var p := ReadThree(line, 1, stof);
    if p.None? {
      return false;
    }
    mdl.verts := mdl.verts + [p.value];
    return true;
  }

  /** vn: reads three coordinates and appends them, normalized, to the normal list. */
  method Vn(line: string, mdl: Model, stof: string -> Option<real>, sqrt: real -> real) returns (ok: bool)
    modifies mdl
    ensures ok <==> NormalOf(line, stof, sqrt).Some?
    ensures mdl.Contents() == old(mdl.Contents()).(normals := old(mdl.normals) + if ok then [NormalOf(line, stof, sqrt).value] else [])
    ensures mdl.textureMap == old(mdl.textureMap) && mdl.normalMap == old(mdl.normalMap) && mdl.specularMap == old(mdl.specularMap)
  {
    var p := ReadThree(line, 2, stof);
    if p.None? {
      return false;
    }
    var n := p.value;
    mdl.normals := mdl.normals + [if Norm(n, sqrt) != 0.0 then Normalized(n, sqrt) else n];
    return true;
  }

  /** The reads shared by v and vn, in the order parser.cpp makes them. */
  method ReadThree(line: string, start: nat, stof: string -> Option<real>) returns (p: Option<Vec>)
    ensures p == Coords(line, start, stof)
  {
    var idx := SkipWs(line, start);
    var x := ReadCoord(line, idx, stof);
    if x.None? {
      return None;
    }
    idx := SkipToWs(line, idx);
    idx := SkipWs(line, idx);
    var y := ReadCoord(line, idx, stof);
    if y.None? {
      return None;
    }
    idx := SkipToWs(line, idx);
    idx := SkipWs(line, idx);
    var z := ReadCoord(line, idx, stof);
    if z.None? {
      return None;
    }
    return Some([x.value, y.value, z.value]);
  }

  /** vt: reads two coordinates and appends them, with z = 0, to the texture-coordinate list. */
  method Vt(line: string, mdl: Model, stof: string -> Option<real>) returns (ok: bool)
    modifies mdl
    ensures ok <==> TexCoordOf(line, stof).Some?
    ensures mdl.Contents() == old(mdl.Contents()).(texCoords := old(mdl.texCoords) + if ok then [TexCoordOf(line, stof).value] else [])
    ensures mdl.textureMap == old(mdl.textureMap) && mdl.normalMap == old(mdl.normalMap) && mdl.specularMap == old(mdl.specularMap)
  {
    var idx := SkipWs(line, 2);
    var x := ReadCoord(line, idx, stof);
    if x.None? {
      return false;
    }
    idx := SkipWs(line, idx);
    idx := SkipToWs(line, idx);
    var y := ReadCoord(line, idx, stof);
    if y.None? {
      return false;
    }
    mdl.texCoords := mdl.texCoords + [[x.value, y.value, 0.0]];
    return true;
  }

  /** The indices a face line pushes onto the three index lists. */
  datatype Entries = Entries(vrtx: seq<int>, tex: seq<int>, norm: seq<int>)

  const NoEntries := Entries([], [], [])

  function Join(a: Entries, b: Entries): Entries
  {
    Entries(a.vrtx + b.vrtx, a.tex + b.tex, a.norm + b.norm)
  }

  /** The lists after the pushes of e. */
  function AddFace(l: Lists, e: Entries): Lists
  {
    l.(faceVrtx := l.faceVrtx + e.vrtx, faceTex := l.faceTex + e.tex, faceNorm := l.faceNorm + e.norm)
  }

  lemma AddNothing(l: Lists)
    ensures AddFace(l, NoEntries) == l
  {
    assert l.faceVrtx + [] == l.faceVrtx && l.faceTex + [] == l.faceTex && l.faceNorm + [] == l.faceNorm;
  }

  /** Pushing a, then b, is pushing both at once. */
  lemma AddFaceJoin(l: Lists, a: Entries, b: Entries)
    ensures AddFace(AddFace(l, a), b) == AddFace(l, Join(a, b))
  {
    assert l.faceVrtx + a.vrtx + b.vrtx == l.faceVrtx + (a.vrtx + b.vrtx);
    assert l.faceTex + a.tex + b.tex == l.faceTex + (a.tex + b.tex);
    assert l.faceNorm + a.norm + b.norm == l.faceNorm + (a.norm + b.norm);
  }

  /**
   * Reading part of a face line: whether it ended without an exception, the
   * indices pushed up to that point, and where the index was left.
   */
  datatype Progress = Progress(ok: bool, added: Entries, idx: nat)

  /** The pushes of e, followed by the reading p. */
  function Then(e: Entries, p: Progress): Progress
  {
    Progress(p.ok, Join(e, p.added), p.idx)
  }

  /**
   * One corner of f: skip_ws, the vertex index, then the optional
   * "/texture" and "/normal" parts. `last` is the third corner, whose
   * texture part checks that a character follows the slash. The index scans
   * use the corrected skip_num, so every `line[idx]` read is on the line or
   * on its terminator, and a corner read to the end leaves the index there.
   */
  function CornerSpec(line: string, idx: nat, last: bool): (p: Progress)
    ensures p.ok ==> p.idx <= |line|
  {
    var i := SkipWsEnd(line, idx);
    match ReadIndex(line, i)
    case None => Progress(false, NoEntries, i)
    case Some(v) => Then(Entries([v], [], []), SlashPart(line, NumEnd(line, i), last))
  }

  /** What follows a vertex index: nothing, or a slash and the texture and normal parts. */
  function SlashPart(line: string, i: nat, last: bool): (p: Progress)
    requires i <= |line|
    ensures p.ok ==> p.idx <= |line|
  {
    if Peek(line, i) != '/' then Progress(true, NoEntries, i)
    else
      var t := TexturePart(line, i, last);
      if !t.ok then t else Then(t.added, NormalPart(line, t.idx))
  }

  /**
   * The texture part, from the slash after the vertex index: an index when a
   * digit follows the slash, and otherwise a step past the slash (for the
   * last corner, only when a character follows it).
   */
  function TexturePart(line: string, i: nat, last: bool): (p: Progress)
    requires i < |line|
    ensures p.ok ==> p.idx <= |line|
  {
    var room := !last || i + 1 < |line|;
    if room && IsNum(Peek(line, i + 1)) then
      match ReadIndex(line, i + 1)
      case None => Progress(false, NoEntries, i + 1)
      case Some(t) => Progress(true, Entries([], [t], []), NumEnd(line, i + 1))
    else
      Progress(true, NoEntries, if room then i + 1 else i)
  }

  /** The "/normal" part of a corner, after the texture part. */
  function NormalPart(line: string, i: nat): (p: Progress)
    requires i <= |line|
    ensures p.ok ==> p.idx <= |line|
  {
    if Peek(line, i) != '/' then Progress(true, NoEntries, i)
    else if !IsNum(Peek(line, i + 1)) then Progress(true, NoEntries, i + 1)
    else
      match ReadIndex(line, i + 1)
      case None => Progress(false, NoEntries, i + 1)
      case Some(n) => Progress(true, Entries([], [], [n]), NumEnd(line, i + 1))
  }

  /** The three corners of f in turn; an exception in one ends the line. */
  function FaceSpec(line: string): Progress
  {
    var c1 := CornerSpec(line, 1, false);
    if !c1.ok then c1
    else
      var c2 := Then(c1.added, CornerSpec(line, c1.idx, false));
      if !c2.ok then c2
      else Then(c2.added, CornerSpec(line, c2.idx, true))
  }

  /** A normal part pushes at most one normal index and nothing else. */
  lemma NormalSizes(line: string, i: nat)
    requires i <= |line|
    ensures var p := NormalPart(line, i);
            |p.added.vrtx| == 0 && |p.added.tex| == 0 && |p.added.norm| <= 1
  {
  }

  /** A texture part pushes at most one texture index and nothing else. */
  lemma TextureSizes(line: string, i: nat, last: bool)
    requires i < |line|
    ensures var p := TexturePart(line, i, last);
            |p.added.vrtx| == 0 && |p.added.tex| <= 1 && |p.added.norm| == 0
  {
  }

  /** A slash block pushes at most one texture index and at most one normal index. */
  lemma SlashSizes(line: string, i: nat, last: bool)
    requires i <= |line|
    ensures var p := SlashPart(line, i, last);
            |p.added.vrtx| == 0 && |p.added.tex| <= 1 && |p.added.norm| <= 1
  {
    if Peek(line, i) == '/' {
      var t := TexturePart(line, i, last);
      TextureSizes(line, i, last);
      if t.ok {
        NormalSizes(line, t.idx);
      }
    }
  }

  /** A corner read without an exception pushes one vertex index, and never more than one index of each kind. */
  lemma CornerSizes(line: string, idx: nat, last: bool)
    ensures var p := CornerSpec(line, idx, last);
            (p.ok ==> |p.added.vrtx| == 1) &&
            |p.added.vrtx| <= 1 && |p.added.tex| <= 1 && |p.added.norm| <= 1
  {
    var i := SkipWsEnd(line, idx);
    if ReadIndex(line, i).Some? {
      SlashSizes(line, NumEnd(line, i), last);
    }
  }

  /**
   * A face read without an exception pushes three vertex indices; a face
   * never pushes more than three indices of each kind.
   */
  lemma FaceSizes(line: string)
    ensures var p := FaceSpec(line);
            (p.ok ==> |p.added.vrtx| == 3) &&
            |p.added.vrtx| <= 3 && |p.added.tex| <= 3 && |p.added.norm| <= 3
  {
    var c1 := CornerSpec(line, 1, false);
    CornerSizes(line, 1, false);
    if c1.ok {
      CornerSizes(line, c1.idx, false);
      var c2 := Then(c1.added, CornerSpec(line, c1.idx, false));
      if c2.ok {
        CornerSizes(line, c2.idx, true);
      }
    }
  }

  /** One corner of f, pushing onto the model's index lists as it reads. */
  method Corner(line: string, idx: nat, last: bool, mdl: Model) returns (ok: bool, idx': nat)
    modifies mdl
    ensures var p := CornerSpec(line, idx, last);
            ok == p.ok && idx' == p.idx && mdl.Contents() == AddFace(old(mdl.Contents()), p.added)
    ensures mdl.textureMap == old(mdl.textureMap) && mdl.normalMap == old(mdl.normalMap) && mdl.specularMap == old(mdl.specularMap)
  {
    var i := SkipWs(line, idx);
    var v := ReadIndex(line, i);
    if v.None? {
      return false, i;
    }
    ghost var l := mdl.Contents();
    mdl.faceVrtx := mdl.faceVrtx + [v.value];
    assert mdl.Contents() == AddFace(l, Entries([v.value], [], []));
    i := SkipNumWithin(line, i);
    ok, idx' := Slash(line, i, last, mdl);
    AddFaceJoin(l, Entries([v.value], [], []), SlashPart(line, i, last).added);
  }

  /** The slash block after a vertex index. */
  method Slash(line: string, idx: nat, last: bool, mdl: Model) returns (ok: bool, idx': nat)
    requires idx <= |line|
    modifies mdl
    ensures var p := SlashPart(line, idx, last);
            ok == p.ok && idx' == p.idx && mdl.Contents() == AddFace(old(mdl.Contents()), p.added)
    ensures mdl.textureMap == old(mdl.textureMap) && mdl.normalMap == old(mdl.normalMap) && mdl.specularMap == old(mdl.specularMap)
  {
    if Peek(line, idx) != '/' {
      AddNothing(mdl.Contents());
      return true, idx;
    }
    ghost var l := mdl.Contents();
    var i;
    ok, i := Texture(line, idx, last, mdl);
    if !ok {
      return false, i;
    }
    ghost var t := TexturePart(line, idx, last);
    ok, idx' := Normal(line, i, mdl);
    AddFaceJoin(l, t.added, NormalPart(line, i).added);
  }

  /** The texture part of the slash block. */
  method Texture(line: string, idx: nat, last: bool, mdl: Model) returns (ok: bool, idx': nat)
    requires idx < |line|
    modifies mdl
    ensures var p := TexturePart(line, idx, last);
            ok == p.ok && idx' == p.idx && mdl.Contents() == AddFace(old(mdl.Contents()), p.added)
    ensures mdl.textureMap == old(mdl.textureMap) && mdl.normalMap == old(mdl.normalMap) && mdl.specularMap == old(mdl.specularMap)
  {
    var room := !last || idx + 1 < |line|;
    if room && IsNum(Peek(line, idx + 1)) {
      var t := ReadIndex(line, idx + 1);
      if t.None? {
        AddNothing(mdl.Contents());
        return false, idx + 1;
      }
      assert TexturePart(line, idx, last).added == Entries([], [t.value], []);
      mdl.faceTex := mdl.faceTex + [t.value];
      idx' := SkipNumWithin(line, idx + 1);
      return true, idx';
    }
    AddNothing(mdl.Contents());
    return true, if room then idx + 1 else idx;
  }

  /** The "/normal" part: a slash, then an index when a digit follows. */
  method Normal(line: string, idx: nat, mdl: Model) returns (ok: bool, idx': nat)
    requires idx <= |line|
    modifies mdl
    ensures var p := NormalPart(line, idx);
            ok == p.ok && idx' == p.idx && mdl.Contents() == AddFace(old(mdl.Contents()), p.added)
    ensures mdl.textureMap == old(mdl.textureMap) && mdl.normalMap == old(mdl.normalMap) && mdl.specularMap == old(mdl.specularMap)
  {
    var i := idx;
    AddNothing(mdl.Contents());
    if Peek(line, i) != '/' {
      return true, i;
    }
    i := i + 1;
    if !IsNum(Peek(line, i)) {
      return true, i;
    }
    var n := ReadIndex(line, i);
    if n.None? {
      return false, i;
    }
    mdl.faceNorm := mdl.faceNorm + [n.value];
    i := SkipNumWithin(line, i);
    return true, i;
  }

  /** f: the three corners of a face line. */
  method F(line: string, mdl: Model) returns (ok: bool)
    modifies mdl
    ensures ok == FaceSpec(line).ok
    ensures mdl.Contents() == AddFace(old(mdl.Contents()), FaceSpec(line).added)
    ensures mdl.textureMap == old(mdl.textureMap) && mdl.normalMap == old(mdl.normalMap) && mdl.specularMap == old(mdl.specularMap)
  {
    ghost var l0 := mdl.Contents();
    var idx: nat;
    ok, idx := Corner(line, 1, false, mdl);
    if !ok {
      return;
    }
    ghost var e1 := CornerSpec(line, 1, false).added;
    ok, idx := Corner(line, idx, false, mdl);
    ghost var c2 := CornerSpec(line, CornerSpec(line, 1, false).idx, false);
    AddFaceJoin(l0, e1, c2.added);
    if !ok {
      return;
    }
    ghost var e2 := Join(e1, c2.added);
    ghost var c3 := CornerSpec(line, c2.idx, true);
    ok, idx := Corner(line, idx, true, mdl);
    AddFaceJoin(l0, e2, c3.added);
  }

  /**
   * The lines `std::getline` hands the loop of parse_obj: the pieces between
   * newlines. A file that ends in a newline yields a last, empty line, and an
   * empty file one empty line, as the `eof` test of the loop lets through.
   */
  function Lines(s: string): (ls: seq<string>)
    ensures |ls| >= 1
    ensures forall i :: 0 <= i < |ls| ==> '\n' !in ls[i]
  {
    if |s| == 0 then [""]
    else
      var rest := Lines(s[1..]);
      if s[0] == '\n' then [""] + rest else [[s[0]] + rest[0]] + rest[1..]
  }

  /** The lines put back together, a newline between each two. */
  function JoinLines(ls: seq<string>): string
    requires |ls| >= 1
  {
    if |ls| == 1 then ls[0] else ls[0] + "\n" + JoinLines(ls[1..])
  }

  /** `line.substr(0, 2)`: what parse_obj dispatches on. */
  function Head(line: string): (h: string)
    ensures |h| == Min(2, |line|) && h == line[..|h|]
  {
    line[..Min(2, |line|)]
  }

  /**
   * One line of parse_obj: the reader its head selects, or nothing for any
   * other line. The flag is false when the reader throws, which ends the
   * parse; the lists include what a face line pushed before it threw.
   */
  function ParseLine(line: string, l: Lists, stof: string -> Option<real>, sqrt: real -> real): (r: (bool, Lists))
    ensures Head(line) !in ["v ", "vt", "vn", "f "] ==> r == (true, l)
  {
    var h := Head(line);
    if h == "v " then
      match VertexOf(line, stof)
      case None => (false, l)
      case Some(v) => (true, l.(verts := l.verts + [v]))
    else if h == "vt" then
      match TexCoordOf(line, stof)
      case None => (false, l)
      case Some(t) => (true, l.(texCoords := l.texCoords + [t]))
    else if h == "vn" then
      match NormalOf(line, stof, sqrt)
      case None => (false, l)
      case Some(n) => (true, l.(normals := l.normals + [n]))
    else if h == "f " then
      var p := FaceSpec(line);
      (p.ok, AddFace(l, p.added))
    else (true, l)
  }

  /** The lines in order, stopping at the first that throws. */
  function ParseLines(ls: seq<string>, l: Lists, stof: string -> Option<real>, sqrt: real -> real): (r: (bool, Lists))
  {
    if |ls| == 0 then (true, l)
    else
      var p := ParseLines(ls[..|ls| - 1], l, stof, sqrt);
      if !p.0 then p else ParseLine(ls[|ls| - 1], p.1, stof, sqrt)
  }

  /** Once a line throws, the lines after it are not read. */
  lemma {:induction false} ParseLinesStop(ls: seq<string>, k: nat, l: Lists, stof: string -> Option<real>, sqrt: real -> real)
    requires k <= |ls| && !ParseLines(ls[..k], l, stof, sqrt).0
    ensures ParseLines(ls, l, stof, sqrt) == ParseLines(ls[..k], l, stof, sqrt)
    decreases |ls| - k
  {
    if k < |ls| {
      var init := ls[..|ls| - 1];
      assert init[..k] == ls[..k];
      ParseLinesStop(init, k, l, stof, sqrt);
      assert !ParseLines(init, l, stof, sqrt).0;
    } else {
      assert ls[..k] == ls;
    }
  }

  /** How parse_obj ends: with its return value, or by an exception out of a reader. */
  datatype Outcome = Returned(code: int) | Threw

  /**
   * parse_obj on a file with the given contents: -1 when the file could not
   * be opened, otherwise every line in turn, and 0 at the end.
   */
  method ParseObj(contents: string, isOpen: bool, mdl: Model, stof: string -> Option<real>, sqrt: real -> real)
    returns (r: Outcome)
    modifies mdl
    ensures !isOpen ==> r == Returned(-1) && mdl.Contents() == old(mdl.Contents())
    ensures isOpen ==>
              var p := ParseLines(Lines(contents), old(mdl.Contents()), stof, sqrt);
              r == (if p.0 then Returned(0) else Threw) && mdl.Contents() == p.1
    ensures mdl.textureMap == old(mdl.textureMap) && mdl.normalMap == old(mdl.normalMap) && mdl.specularMap == old(mdl.specularMap)
  {
    if !isOpen {
      return Returned(-1);
    }
    var ls := Lines(contents);
    ghost var l0 := mdl.Contents();
    var i := 0;
    while i < |ls|
      invariant 0 <= i <= |ls|
      invariant ParseLines(ls[..i], l0, stof, sqrt) == (true, mdl.Contents())
      invariant mdl.textureMap == old(mdl.textureMap) && mdl.normalMap == old(mdl.normalMap) && mdl.specularMap == old(mdl.specularMap)
    {
      ghost var l := mdl.Contents();
      var ok := ReadLine(ls[i], mdl, stof, sqrt);
      ParseLinesSnoc(ls, i, l0, stof, sqrt);
      if !ok {
        ParseLinesStop(ls, i + 1, l0, stof, sqrt);
        return Threw;
      }
      i := i + 1;
    }
    assert ls[..i] == ls;
    return Returned(0);
  }

  /** The lines up to and including line i: those before it, then line i if none of them threw. */
  lemma ParseLinesSnoc(ls: seq<string>, i: nat, l: Lists, stof: string -> Option<real>, sqrt: real -> real)
    requires i < |ls|
    ensures var p := ParseLines(ls[..i], l, stof, sqrt);
            ParseLines(ls[..i + 1], l, stof, sqrt) == if p.0 then ParseLine(ls[i], p.1, stof, sqrt) else p
  {
    assert ls[..i + 1][..i] == ls[..i];
  }

  /** The body of the loop of parse_obj: dispatch one line on its head. */
  method ReadLine(line: string, mdl: Model, stof: string -> Option<real>, sqrt: real -> real) returns (ok: bool)
    modifies mdl
    ensures (ok, mdl.Contents()) == ParseLine(line, old(mdl.Contents()), stof, sqrt)
    ensures mdl.textureMap == old(mdl.textureMap) && mdl.normalMap == old(mdl.normalMap) && mdl.specularMap == old(mdl.specularMap)
  {
    ghost var l := mdl.Contents();
    var h := Head(line);
    if h == "v " {
      ok := V(line, mdl, stof);
      assert l.verts + [] == l.verts;
    } else if h == "vt" {
      ok := Vt(line, mdl, stof);
      assert l.texCoords + [] == l.texCoords;
    } else if h == "vn" {
      ok := Vn(line, mdl, stof, sqrt);
      assert l.normals + [] == l.normals;
    } else if h == "f " {
      ok := F(line, mdl);
    } else {
      ok := true;
    }
  }
}
