// What the OBJ readers of parser.cpp make of well-formed lines: the three
// coordinates of v and vn are read from the start of their tokens, a face
// written as "f v/t/n ..." in any of its four corner forms is read back as
// its 0-based indices, parse_obj adds one entry per line of each kind, and
// the line splitting loses nothing.

module ObjProperties {
  import opened Numeric
  import opened Wrappers
  import opened MatVec
  import opened DecimalText
  import opened ObjScan
  import opened Mesh
  import opened ObjParser

  /** The line holds the characters of x from position k on. */
  predicate Holds(line: string, k: nat, x: string)
    decreases |x|
  {
    if |x| == 0 then k <= |line|
    else k < |line| && line[k] == x[0] && Holds(line, k + 1, x[1..])
  }

  /** x + y is held from k on exactly when x is, and y after it. */
  lemma {:induction false} HoldsAppend(line: string, k: nat, x: string, y: string)
    ensures Holds(line, k, x + y) <==> Holds(line, k, x) && Holds(line, k + |x|, y)
    decreases |x|
  {
    if |x| == 0 {
      assert x + y == y;
      HoldsBound(line, k, y);
    } else {
      assert (x + y)[0] == x[0] && (x + y)[1..] == x[1..] + y;
      HoldsAppend(line, k + 1, x[1..], y);
    }
  }

  /** HoldsAppend, with the position where y starts given. */
  lemma {:induction false} HoldsSplit(line: string, k: nat, x: string, y: string, m: nat)
    requires m == k + |x|
    ensures Holds(line, k, x + y) <==> Holds(line, k, x) && Holds(line, m, y)
  {
    HoldsAppend(line, k, x, y);
  }

  /** What is held lies within the line. */
  lemma {:induction false} HoldsBound(line: string, k: nat, x: string)
    ensures Holds(line, k, x) ==> k + |x| <= |line|
    decreases |x|
  {
    if |x| > 0 {
      HoldsBound(line, k + 1, x[1..]);
    }
  }

  /** Holding x from k on is the slice of the line from k having x's length being x. */
  lemma {:induction false} HoldsSlice(line: string, k: nat, x: string)
    ensures Holds(line, k, x) <==> k + |x| <= |line| && line[k..k + |x|] == x
    decreases |x|
  {
    if |x| > 0 {
      HoldsSlice(line, k + 1, x[1..]);
      if k + |x| <= |line| {
        var s := line[k..k + |x|];
        assert s[0] == line[k] && s[1..] == line[k + 1..k + |x|];
        assert s == [s[0]] + s[1..] && x == [x[0]] + x[1..];
      }
    }
  }

  /** The whole of a line is held from its start. */
  lemma {:induction false} HoldsWhole(line: string)
    ensures Holds(line, 0, line)
  {
    HoldsSlice(line, 0, line);
    assert line[0..|line|] == line;
  }

  /** A single character held at k. */
  lemma {:induction false} HoldsChar(line: string, k: nat, c: char, x: string)
    requires Holds(line, k, [c] + x)
    ensures k < |line| && line[k] == c && Holds(line, k + 1, x)
  {
    assert ([c] + x)[0] == c && ([c] + x)[1..] == x;
  }

  /** A numeral f can read: one or more digits whose value fits an `int`. */
  predicate Numeral(d: string)
  {
    |d| > 0 && AllDigits(d) && DigitsValue(d) <= INT_MAX
  }

  /** A corner ends at j: the line ends there, or a space follows. */
  predicate Boundary(line: string, j: nat)
  {
    |line| <= j || line[j] == ' '
  }

  /** Text held at j that does not start with a digit and ends a corner leaves no digit at j. */
  lemma {:induction false} NoDigitAt(line: string, j: nat, x: string, e: nat)
    requires Holds(line, j, x) && e == j + |x| && Boundary(line, e)
    requires |x| > 0 ==> !IsNum(x[0])
    ensures |line| <= j || !IsNum(line[j])
  {
  }

  /** A numeral held at i, followed by anything but a digit at e, is read as v, its value less one, and passed up to e. */
  lemma {:induction false} NumberAt(line: string, i: nat, d: string, v: int, e: nat)
    requires Holds(line, i, d) && Numeral(d) && v == DigitsValue(d) - 1 && e == i + |d|
    requires |line| <= e || !IsNum(line[e])
    ensures ReadIndex(line, i) == Some(v)
    ensures NumEnd(line, i) == e && i < |line| && IsNum(line[i])
  {
    HoldsSlice(line, i, d);
    NumeralRead(line, i, d, e);
    NumeralEnd(line, i, d, e);
  }

  /** std::stoi reads a numeral at i, followed by anything but a digit at e, as its value. */
  lemma {:induction false} NumeralRead(line: string, i: nat, d: string, e: nat)
    requires Numeral(d) && e == i + |d| && e <= |line| && line[i..e] == d
    requires |line| <= e || !IsNum(line[e])
    ensures ReadIndex(line, i) == Some(DigitsValue(d) - 1)
  {
    var rest := line[e..];
    assert line[i..] == d + rest;
    if |rest| > 0 {
      assert rest[0] == line[e];
    }
    StoiDigits(d, rest);
  }

  /** The corrected skip_num passes a numeral at i, followed by anything but a digit at e, and stops at e. */
  lemma {:induction false} NumeralEnd(line: string, i: nat, d: string, e: nat)
    requires Numeral(d) && e == i + |d| && e <= |line| && line[i..e] == d
    requires |line| <= e || !IsNum(line[e])
    ensures NumEnd(line, i) == e && i < |line| && IsNum(line[i])
  {
    forall m | i <= m < e
      ensures IsNum(line[m])
    {
      assert line[m] == d[m - i];
    }
    NumEndAt(line, i, e);
  }

  /** A corner as written: the numerals of its vertex index and of its optional texture and normal indices. */
  datatype Written = Written(v: string, t: Option<string>, n: Option<string>)

  predicate Readable(w: Written)
  {
    Numeral(w.v) && (w.t.Some? ==> Numeral(w.t.value)) && (w.n.Some? ==> Numeral(w.n.value))
  }

  /** "/n", or nothing. */
  function NormalText(n: Option<string>): string
  {
    if n.Some? then "/" + n.value else ""
  }

  /** What follows the vertex index: "", "/t", "//n" or "/t/n". */
  function SlashText(t: Option<string>, n: Option<string>): string
  {
    (if t.Some? then "/" + t.value else if n.Some? then "/" else "") + NormalText(n)
  }

  /** The text of a corner. */
  function CornerText(w: Written): string
  {
    w.v + SlashText(w.t, w.n)
  }

  /** The 0-based index an optional numeral is stored as. */
  function Stored(x: Option<string>): seq<int>
    requires x.Some? ==> AllDigits(x.value)
  {
    if x.Some? then [DigitsValue(x.value) - 1] else []
  }

  /** The normal part, from a slash followed by a digit, reads the index v and moves past it to j. */
  lemma {:induction false} NormalIndex(line: string, i: nat, v: int, j: nat)
    requires i < |line| && line[i] == '/' && IsNum(Peek(line, i + 1))
    requires ReadIndex(line, i + 1) == Some(v) && NumEnd(line, i + 1) == j
    ensures NormalPart(line, i) == Progress(true, Entries([], [], [v]), j)
  {
  }

  /** Without a slash there is neither a normal part nor a slash block. */
  lemma {:induction false} NoSlash(line: string, i: nat, last: bool)
    requires i <= |line| && Peek(line, i) != '/'
    ensures NormalPart(line, i) == Progress(true, NoEntries, i)
    ensures SlashPart(line, i, last) == Progress(true, NoEntries, i)
  {
  }

  /** "/n" held at i and ending a corner at e is read as n less one. */
  lemma {:induction false} NormalNumeral(line: string, i: nat, d: string, v: int, e: nat)
    requires Holds(line, i, "/" + d) && Numeral(d) && v == DigitsValue(d) - 1
    requires e == i + 1 + |d| && Boundary(line, e)
    ensures NormalPart(line, i) == Progress(true, Entries([], [], [v]), e)
  {
    HoldsChar(line, i, '/', d);
    NumberAt(line, i + 1, d, v, e);
    NormalIndex(line, i, v, e);
  }

  /** The "/n" part of a corner, or its absence, is read as n less one. */
  lemma {:induction false} NormalReads(line: string, i: nat, n: Option<string>, nv: seq<int>, e: nat)
    requires Holds(line, i, NormalText(n)) && (n.Some? ==> Numeral(n.value)) && nv == Stored(n)
    requires e == i + |NormalText(n)| && Boundary(line, e)
    ensures NormalPart(line, i) == Progress(true, Entries([], [], nv), e)
  {
    if n.Some? {
      NormalNumeral(line, i, n.value, DigitsValue(n.value) - 1, e);
    } else {
      NoSlash(line, i, false);
    }
  }

  /** The texture part, from a slash followed by a digit, reads the index v and moves past it to j. */
  lemma {:induction false} TextureIndex(line: string, i: nat, last: bool, v: int, j: nat)
    requires i + 1 < |line| && IsNum(line[i + 1])
    requires ReadIndex(line, i + 1) == Some(v) && NumEnd(line, i + 1) == j
    ensures TexturePart(line, i, last) == Progress(true, Entries([], [v], []), j)
  {
  }

  /** A slash right after the slash of the texture part: no texture index, and the index moves onto the second slash. */
  lemma {:induction false} TextureSkip(line: string, i: nat, last: bool)
    requires i + 1 < |line| && line[i + 1] == '/'
    ensures TexturePart(line, i, last) == Progress(true, NoEntries, i + 1)
  {
  }

  /** A slash block whose texture part reads without an exception goes on to the normal part. */
  lemma {:induction false} SlashThen(line: string, i: nat, last: bool)
    requires i < |line| && line[i] == '/' && TexturePart(line, i, last).ok
    ensures var t := TexturePart(line, i, last);
            SlashPart(line, i, last) == Then(t.added, NormalPart(line, t.idx))
  {
  }

  /** The pushes of one part of a corner, followed by those of the rest. */
  lemma {:induction false} JoinParts(v: seq<int>, t: seq<int>, n: seq<int>)
    ensures Join(Entries([], t, []), Entries([], [], n)) == Entries([], t, n)
    ensures Join(Entries(v, [], []), Entries([], t, n)) == Entries(v, t, n)
  {
    assert [] + t == t && t + [] == t && [] + n == n && v + [] == v;
    var none: seq<int> := [];
    assert none + none == none;
  }

  /** A slash block: the texture part's pushes, then the normal part's. */
  lemma {:induction false} SlashCompose(line: string, i: nat, last: bool, tv: seq<int>, nv: seq<int>, j: nat, e: nat)
    requires i < |line| && line[i] == '/'
    requires TexturePart(line, i, last) == Progress(true, Entries([], tv, []), j)
    requires j <= |line| && NormalPart(line, j) == Progress(true, Entries([], [], nv), e)
    ensures SlashPart(line, i, last) == Progress(true, Entries([], tv, nv), e)
  {
    SlashThen(line, i, last);
    JoinParts([], tv, nv);
  }

  /** The assumptions under which a slash block held at i and ending at e is read as tv and nv. */
  predicate SlashHeld(line: string, i: nat, t: Option<string>, n: Option<string>, tv: seq<int>, nv: seq<int>, e: nat)
  {
    Holds(line, i, SlashText(t, n)) && (t.Some? ==> Numeral(t.value)) && (n.Some? ==> Numeral(n.value)) &&
    tv == Stored(t) && nv == Stored(n) && e == i + |SlashText(t, n)| && Boundary(line, e)
  }

  /** "/t" or "/t/n" is read as its indices less one. */
  lemma {:induction false} SlashTexture(line: string, i: nat, t: Option<string>, n: Option<string>, last: bool,
                                        tv: seq<int>, nv: seq<int>, e: nat)
    requires t.Some? && SlashHeld(line, i, t, n, tv, nv, e)
    ensures i <= |line| && SlashPart(line, i, last) == Progress(true, Entries([], tv, nv), e)
  {
    var d := t.value;
    var v, j := DigitsValue(d) - 1, i + 1 + |d|;
    TextureParts(line, i, t, n, tv, nv, e, j);
    NumberAt(line, i + 1, d, v, j);
    TextureIndex(line, i, last, v, j);
    NormalReads(line, j, n, nv, e);
    SlashCompose(line, i, last, tv, nv, j, e);
  }

  /** "/t" or "/t/n" held at i: the slash, the numeral t, then the normal part, which starts with no digit. */
  lemma {:induction false} TextureParts(line: string, i: nat, t: Option<string>, n: Option<string>,
                                        tv: seq<int>, nv: seq<int>, e: nat, j: nat)
    requires t.Some? && SlashHeld(line, i, t, n, tv, nv, e) && j == i + 1 + |t.value|
    ensures i < |line| && line[i] == '/' && Holds(line, i + 1, t.value) && (|line| <= j || !IsNum(line[j]))
    ensures Holds(line, j, NormalText(n)) && e == j + |NormalText(n)|
  {
    var d, nt := t.value, NormalText(n);
    assert SlashText(t, n) == ("/" + d) + nt;
    HoldsSplit(line, i, "/" + d, nt, j);
    HoldsChar(line, i, '/', d);
    NoDigitAt(line, j, nt, e);
  }

  /** "//n" is read as the normal index less one. */
  lemma {:induction false} SlashNormal(line: string, i: nat, t: Option<string>, n: Option<string>, last: bool,
                                       tv: seq<int>, nv: seq<int>, e: nat)
    requires t.None? && n.Some? && SlashHeld(line, i, t, n, tv, nv, e)
    ensures i <= |line| && SlashPart(line, i, last) == Progress(true, Entries([], tv, nv), e)
  {
    var d := n.value;
    assert SlashText(t, n) == "/" + ("/" + d);
    HoldsChar(line, i, '/', "/" + d);
    HoldsChar(line, i + 1, '/', d);
    TextureSkip(line, i, last);
    NormalNumeral(line, i + 1, d, DigitsValue(d) - 1, e);
    SlashCompose(line, i, last, tv, nv, i + 1, e);
  }

  /** No slash block at all. */
  lemma {:induction false} SlashNone(line: string, i: nat, t: Option<string>, n: Option<string>, last: bool,
                                     tv: seq<int>, nv: seq<int>, e: nat)
    requires t.None? && n.None? && SlashHeld(line, i, t, n, tv, nv, e)
    ensures i <= |line| && SlashPart(line, i, last) == Progress(true, Entries([], tv, nv), e)
  {
    assert SlashText(t, n) == "";
    NoSlash(line, i, last);
  }

  /** The slash block of a corner is read as its texture and normal indices, each less one. */
  lemma {:induction false} SlashReads(line: string, i: nat, t: Option<string>, n: Option<string>, last: bool,
                                      tv: seq<int>, nv: seq<int>, e: nat)
    requires SlashHeld(line, i, t, n, tv, nv, e)
    ensures i <= |line| && SlashPart(line, i, last) == Progress(true, Entries([], tv, nv), e)
  {
    if t.Some? {
      SlashTexture(line, i, t, n, last, tv, nv, e);
    } else if n.Some? {
      SlashNormal(line, i, t, n, last, tv, nv, e);
    } else {
      SlashNone(line, i, t, n, last, tv, nv, e);
    }
  }

  /** A space, then the vertex numeral: skip_ws moves onto the numeral, which is read as v, its value less one. */
  lemma {:induction false} CornerStart(line: string, k: nat, d: string, v: int, j: nat)
    requires Holds(line, k, " " + d) && Numeral(d) && v == DigitsValue(d) - 1 && j == k + 1 + |d|
    requires |line| <= j || !IsNum(line[j])
    ensures SkipWsEnd(line, k) == k + 1 && ReadIndex(line, k + 1) == Some(v) && NumEnd(line, k + 1) == j
  {
    HoldsChar(line, k, ' ', d);
    NumberAt(line, k + 1, d, v, j);
    ScanAt(line, k, NonSpace, k + 1);
  }

  /** A corner: skip_ws onto the vertex index, read it, then the slash block after it. */
  lemma {:induction false} CornerCompose(line: string, k: nat, last: bool, v: int, tv: seq<int>, nv: seq<int>, j: nat, e: nat)
    requires SkipWsEnd(line, k) == k + 1 && ReadIndex(line, k + 1) == Some(v) && NumEnd(line, k + 1) == j
    requires j <= |line| && SlashPart(line, j, last) == Progress(true, Entries([], tv, nv), e)
    ensures CornerSpec(line, k, last) == Progress(true, Entries([v], tv, nv), e)
  {
    assert CornerSpec(line, k, last) == Then(Entries([v], [], []), SlashPart(line, j, last));
    JoinParts([v], tv, nv);
  }

  /** The assumptions under which a corner held at k after a space, ending at e, is read as v, tv and nv. */
  predicate CornerHeld(line: string, k: nat, w: Written, v: int, tv: seq<int>, nv: seq<int>, e: nat)
  {
    Holds(line, k, " " + CornerText(w)) && Readable(w) &&
    v == DigitsValue(w.v) - 1 && tv == Stored(w.t) && nv == Stored(w.n) &&
    e == k + 1 + |CornerText(w)| && Boundary(line, e)
  }

  /** A corner held after a space, and followed by a space or the end of the line, is read as its indices less one. */
  lemma {:induction false} CornerReads(line: string, k: nat, w: Written, last: bool, v: int, tv: seq<int>, nv: seq<int>, e: nat)
    requires CornerHeld(line, k, w, v, tv, nv, e)
    ensures CornerSpec(line, k, last) == Progress(true, Entries([v], tv, nv), e)
  {
    var j := k + 1 + |w.v|;
    CornerParts(line, k, w, v, tv, nv, j, e);
    CornerStart(line, k, w.v, v, j);
    SlashReads(line, j, w.t, w.n, last, tv, nv, e);
    CornerCompose(line, k, last, v, tv, nv, j, e);
  }

  /** A corner held after a space: the vertex numeral after the space, then a slash block, which starts with no digit. */
  lemma {:induction false} CornerParts(line: string, k: nat, w: Written, v: int, tv: seq<int>, nv: seq<int>, j: nat, e: nat)
    requires CornerHeld(line, k, w, v, tv, nv, e) && j == k + 1 + |w.v|
    ensures Holds(line, k, " " + w.v) && (|line| <= j || !IsNum(line[j]))
    ensures SlashHeld(line, j, w.t, w.n, tv, nv, e)
  {
    var st := SlashText(w.t, w.n);
    CornerTextSplit(w);
    HoldsSplit(line, k, " " + w.v, st, j);
    NoDigitAt(line, j, st, e);
  }

  /** A corner's text after a space: the space and the vertex numeral, then the slash block, which starts with a slash. */
  lemma {:induction false} CornerTextSplit(w: Written)
    ensures " " + CornerText(w) == (" " + w.v) + SlashText(w.t, w.n)
    ensures |SlashText(w.t, w.n)| > 0 ==> SlashText(w.t, w.n)[0] == '/'
  {
  }

  /** A face: three corners in turn. */
  lemma {:induction false} FaceThen(line: string)
    requires CornerSpec(line, 1, false).ok && CornerSpec(line, CornerSpec(line, 1, false).idx, false).ok
    ensures var c1 := CornerSpec(line, 1, false);
            var c2 := CornerSpec(line, c1.idx, false);
            FaceSpec(line) == Then(Join(c1.added, c2.added), CornerSpec(line, c2.idx, true))
  {
  }

  /** Three corners read one after the other make one face. */
  lemma {:induction false} FaceCompose(line: string, v1: int, v2: int, v3: int, t1: seq<int>, t2: seq<int>, t3: seq<int>,
                                       n1: seq<int>, n2: seq<int>, n3: seq<int>, k2: nat, k3: nat, e: nat)
    requires CornerSpec(line, 1, false) == Progress(true, Entries([v1], t1, n1), k2)
    requires CornerSpec(line, k2, false) == Progress(true, Entries([v2], t2, n2), k3)
    requires CornerSpec(line, k3, true) == Progress(true, Entries([v3], t3, n3), e)
    ensures FaceSpec(line) == Progress(true, Entries([v1, v2, v3], t1 + t2 + t3, n1 + n2 + n3), e)
  {
    FaceThen(line);
    Three(v1, v2, v3);
  }

  lemma {:induction false} Three(v1: int, v2: int, v3: int)
    ensures [v1] + [v2] + [v3] == [v1, v2, v3]
  {
  }

  /** A face line with single spaces. */
  function FaceText(w1: Written, w2: Written, w3: Written): string
  {
    "f " + CornerText(w1) + " " + CornerText(w2) + " " + CornerText(w3)
  }

  /**
   * f reads a face line written with single spaces, in any of the four
   * corner forms, as the three vertex indices less one, and the texture and
   * normal indices the corners carry, less one, in corner order; the index
   * ends at the end of the line.
   */
  lemma {:induction false} FaceReads(w1: Written, w2: Written, w3: Written, v1: int, v2: int, v3: int,
                                     t1: seq<int>, t2: seq<int>, t3: seq<int>, n1: seq<int>, n2: seq<int>, n3: seq<int>)
    requires Readable(w1) && Readable(w2) && Readable(w3)
    requires v1 == DigitsValue(w1.v) - 1 && v2 == DigitsValue(w2.v) - 1 && v3 == DigitsValue(w3.v) - 1
    requires t1 == Stored(w1.t) && t2 == Stored(w2.t) && t3 == Stored(w3.t)
    requires n1 == Stored(w1.n) && n2 == Stored(w2.n) && n3 == Stored(w3.n)
    ensures FaceSpec(FaceText(w1, w2, w3)) ==
              Progress(true, Entries([v1, v2, v3], t1 + t2 + t3, n1 + n2 + n3), |FaceText(w1, w2, w3)|)
  {
    var k2 := 2 + |CornerText(w1)|;
    var k3 := k2 + 1 + |CornerText(w2)|;
    FaceLayout(FaceText(w1, w2, w3), w1, w2, w3, k2, k3);
    FaceCorners(FaceText(w1, w2, w3), w1, w2, w3, k2, k3);
    FaceValues(FaceText(w1, w2, w3), w1, w2, w3, k2, k3, v1, v2, v3, t1, t2, t3, n1, n2, n3);
  }

  /** Where the corners of a face line start. */
  lemma {:induction false} FaceLayout(line: string, w1: Written, w2: Written, w3: Written, k2: nat, k3: nat)
    requires line == FaceText(w1, w2, w3)
    requires k2 == 2 + |CornerText(w1)| && k3 == k2 + 1 + |CornerText(w2)|
    ensures |line| == k3 + 1 + |CornerText(w3)|
    ensures Holds(line, 1, " " + CornerText(w1)) && Holds(line, k2, " " + CornerText(w2)) && Holds(line, k3, " " + CornerText(w3))
  {
    FaceTextSplit(w1, w2, w3);
    HoldsThree(line, "f", " " + CornerText(w1), " " + CornerText(w2), " " + CornerText(w3), 1, k2, k3);
  }

  lemma {:induction false} FaceTextSplit(w1: Written, w2: Written, w3: Written)
    ensures FaceText(w1, w2, w3) == "f" + (" " + CornerText(w1)) + (" " + CornerText(w2)) + (" " + CornerText(w3))
  {
  }

  /** A line made of p and three more parts holds each part where it starts. */
  lemma {:induction false} HoldsThree(line: string, p: string, a: string, b: string, c: string, k1: nat, k2: nat, k3: nat)
    requires line == p + a + b + c && k1 == |p| && k2 == k1 + |a| && k3 == k2 + |b|
    ensures Holds(line, k1, a) && Holds(line, k2, b) && Holds(line, k3, c) && |line| == k3 + |c|
  {
    HoldsWhole(line);
    HoldsSplit(line, 0, p + a + b, c, k3);
    HoldsSplit(line, 0, p + a, b, k2);
    HoldsSplit(line, 0, p, a, k1);
  }

  /** The three corners of a face line, each after a space and followed by one or by the end of the line. */
  lemma {:induction false} FaceCorners(line: string, w1: Written, w2: Written, w3: Written, k2: nat, k3: nat)
    requires Readable(w1) && Readable(w2) && Readable(w3)
    requires k2 == 2 + |CornerText(w1)| && k3 == k2 + 1 + |CornerText(w2)| && |line| == k3 + 1 + |CornerText(w3)|
    requires Holds(line, 1, " " + CornerText(w1)) && Holds(line, k2, " " + CornerText(w2)) && Holds(line, k3, " " + CornerText(w3))
    ensures CornerHeld(line, 1, w1, DigitsValue(w1.v) - 1, Stored(w1.t), Stored(w1.n), k2)
    ensures CornerHeld(line, k2, w2, DigitsValue(w2.v) - 1, Stored(w2.t), Stored(w2.n), k3)
    ensures CornerHeld(line, k3, w3, DigitsValue(w3.v) - 1, Stored(w3.t), Stored(w3.n), |line|)
  {
    HoldsChar(line, k2, ' ', CornerText(w2));
    HoldsChar(line, k3, ' ', CornerText(w3));
  }

  /** The three corners of a face line, read one after the other. */
  lemma {:induction false} FaceValues(line: string, w1: Written, w2: Written, w3: Written, k2: nat, k3: nat,
                                      v1: int, v2: int, v3: int, t1: seq<int>, t2: seq<int>, t3: seq<int>,
                                      n1: seq<int>, n2: seq<int>, n3: seq<int>)
    requires CornerHeld(line, 1, w1, v1, t1, n1, k2)
    requires CornerHeld(line, k2, w2, v2, t2, n2, k3)
    requires CornerHeld(line, k3, w3, v3, t3, n3, |line|)
    ensures FaceSpec(line) == Progress(true, Entries([v1, v2, v3], t1 + t2 + t3, n1 + n2 + n3), |line|)
  {
    CornerReads(line, 1, w1, false, v1, t1, n1, k2);
    CornerReads(line, k2, w2, false, v2, t2, n2, k3);
    CornerReads(line, k3, w3, true, v3, t3, n3, |line|);
    FaceCompose(line, v1, v2, v3, t1, t2, t3, n1, n2, n3, k2, k3, |line|);
  }

  /** One corner of a face: a vertex index, optionally a texture index and a normal index, all 1-based. */
  datatype CornerIndices = CornerIndices(v: nat, t: Option<nat>, n: Option<nat>)

  predicate InIntRange(c: CornerIndices)
  {
    c.v <= INT_MAX && (c.t.Some? ==> c.t.value <= INT_MAX) && (c.n.Some? ==> c.n.value <= INT_MAX)
  }

  /** An optional index written in decimal. */
  function Write(x: Option<nat>): (r: Option<string>)
    ensures r.Some? <==> x.Some?
    ensures r.Some? ==> AllDigits(r.value) && DigitsValue(r.value) == x.value
  {
    if x.Some? then DecimalRoundTrip(x.value); Some(Decimal(x.value)) else None
  }

  /** A corner written in decimal. */
  function WriteCorner(c: CornerIndices): (w: Written)
    ensures InIntRange(c) ==> Readable(w)
    ensures AllDigits(w.v) && DigitsValue(w.v) == c.v
  {
    DecimalRoundTrip(c.v);
    Written(Decimal(c.v), Write(c.t), Write(c.n))
  }

  /** The 0-based index an optional 1-based index is stored as. */
  function Less1(x: Option<nat>): seq<int>
  {
    if x.Some? then [x.value - 1] else []
  }

  /** A corner written in decimal is readable, and its numerals store its indices less one. */
  lemma {:induction false} CornerWritten(c: CornerIndices)
    requires InIntRange(c)
    ensures var w := WriteCorner(c);
            Readable(w) && DigitsValue(w.v) - 1 == c.v - 1 && Stored(w.t) == Less1(c.t) && Stored(w.n) == Less1(c.n)
  {
  }

  /** The indices of a face, written in decimal and read back by f, are the indices less one. */
  lemma {:induction false} FaceRoundTrip(c1: CornerIndices, c2: CornerIndices, c3: CornerIndices)
    requires InIntRange(c1) && InIntRange(c2) && InIntRange(c3)
    ensures var line := FaceText(WriteCorner(c1), WriteCorner(c2), WriteCorner(c3));
            FaceSpec(line) == Progress(true, Entries([c1.v - 1, c2.v - 1, c3.v - 1],
                                                     Less1(c1.t) + Less1(c2.t) + Less1(c3.t),
                                                     Less1(c1.n) + Less1(c2.n) + Less1(c3.n)), |line|)
  {
    CornerWritten(c1);
    CornerWritten(c2);
    CornerWritten(c3);
    FaceReads(WriteCorner(c1), WriteCorner(c2), WriteCorner(c3), c1.v - 1, c2.v - 1, c3.v - 1,
              Less1(c1.t), Less1(c2.t), Less1(c3.t), Less1(c1.n), Less1(c2.n), Less1(c3.n));
  }

  /** No space anywhere in a token. */
  predicate Token(a: string)
  {
    |a| > 0 && forall k :: 0 <= k < |a| ==> a[k] != ' '
  }

  /** From a space before a token, skip_ws moves onto the token. */
  lemma {:induction false} SpaceThenToken(line: string, i: nat, a: string, j: nat)
    requires Holds(line, i, " " + a) && Token(a) && j == i + 1
    ensures SkipWsEnd(line, i) == j && Holds(line, j, a)
  {
    HoldsChar(line, i, ' ', a);
    assert a == [a[0]] + a[1..];
    HoldsChar(line, j, a[0], a[1..]);
    ScanAt(line, i, NonSpace, j);
  }

  /** From the start of a token followed by a space, skip_to_ws moves onto the space. */
  lemma {:induction false} TokenThenSpace(line: string, i: nat, a: string, j: nat)
    requires Holds(line, i, a) && Token(a) && j == i + |a| && j < |line| && line[j] == ' '
    ensures Scan(line, i, Space) == j
  {
    HoldsSlice(line, i, a);
    forall m | i <= m < j
      ensures line[m] != ' '
    {
      assert line[m] == line[i..j][m - i];
    }
    ScanAt(line, i, Space, j);
  }

  /** The keyword, then three tokens, each after one space. */
  lemma {:induction false} TokensLayout(head: string, a: string, b: string, c: string, line: string, i0: nat, i1: nat, i2: nat)
    requires line == head + " " + a + " " + b + " " + c
    requires i0 == |head| + 1 && i1 == i0 + |a| + 1 && i2 == i1 + |b| + 1
    ensures Holds(line, |head|, " " + a) && Holds(line, i1 - 1, " " + b) && Holds(line, i2 - 1, " " + c)
    ensures |line| == i2 + |c|
  {
    TokensSplit(head, a, b, c);
    HoldsThree(line, head, " " + a, " " + b, " " + c, |head|, i1 - 1, i2 - 1);
  }

  lemma {:induction false} TokensSplit(head: string, a: string, b: string, c: string)
    ensures head + " " + a + " " + b + " " + c == head + (" " + a) + (" " + b) + (" " + c)
    ensures head + " " + a + " " + b + " " + c == (head + " ") + (a + " " + b + " " + c)
    ensures head + " " + a + " " + b + " " + c == (head + " " + a + " ") + (b + " " + c)
    ensures head + " " + a + " " + b + " " + c == (head + " " + a + " " + b + " ") + c
  {
  }

  /** What follows each of the three token starts, to the end of the line. */
  lemma {:induction false} TokenSuffixes(head: string, a: string, b: string, c: string, line: string, i0: nat, i1: nat, i2: nat)
    requires line == head + " " + a + " " + b + " " + c
    requires i0 == |head| + 1 && i1 == i0 + |a| + 1 && i2 == i1 + |b| + 1
    ensures i2 <= |line|
    ensures line[i0..] == a + " " + b + " " + c && line[i1..] == b + " " + c && line[i2..] == c
  {
    TokensSplit(head, a, b, c);
    SuffixAfter(line, head + " ", a + " " + b + " " + c);
    SuffixAfter(line, head + " " + a + " ", b + " " + c);
    SuffixAfter(line, head + " " + a + " " + b + " ", c);
  }

  /** What follows x in x + y is y. */
  lemma {:induction false} SuffixAfter(line: string, x: string, y: string)
    requires line == x + y
    ensures line[|x|..] == y
  {
  }

  /** skip_ws and skip_to_ws move from the keyword onto the starts of the three tokens. */
  lemma {:induction false} TokenStarts(line: string, h: nat, a: string, b: string, c: string, i0: nat, i1: nat, i2: nat)
    requires Token(a) && Token(b) && Token(c)
    requires i0 == h + 1 && i1 == i0 + |a| + 1 && i2 == i1 + |b| + 1
    requires Holds(line, h, " " + a) && Holds(line, i1 - 1, " " + b) && Holds(line, i2 - 1, " " + c)
    ensures CoordStarts(line, h) == (i0, i1, i2)
  {
    SpaceThenToken(line, h, a, i0);
    HoldsChar(line, i1 - 1, ' ', b);
    TokenThenSpace(line, i0, a, i1 - 1);
    SpaceThenToken(line, i1 - 1, b, i1);
    HoldsChar(line, i2 - 1, ' ', c);
    TokenThenSpace(line, i1, b, i2 - 1);
    SpaceThenToken(line, i2 - 1, c, i2);
  }

  /** The coordinates read from three known starts: the float parser applied to the rest of the line from each. */
  lemma {:induction false} CoordsFrom(line: string, h: nat, i0: nat, i1: nat, i2: nat, s0: string, s1: string, s2: string,
                                      stof: string -> Option<real>)
    requires CoordStarts(line, h) == (i0, i1, i2) && i2 <= |line|
    requires line[i0..] == s0 && line[i1..] == s1 && line[i2..] == s2
    ensures Coords(line, h, stof) ==
              match (stof(s0), stof(s1), stof(s2))
              case (Some(x), Some(y), Some(z)) => Some([x, y, z])
              case _ => None
  {
  }

  /**
   * v and vn read their three coordinates from the starts of the three
   * tokens that follow the keyword, each time handing the float parser the
   * rest of the line.
   */
  lemma {:induction false} CoordsOfTokens(head: string, a: string, b: string, c: string, stof: string -> Option<real>)
    requires Token(a) && Token(b) && Token(c)
    ensures var line := head + " " + a + " " + b + " " + c;
            Coords(line, |head|, stof) ==
              match (stof(a + " " + b + " " + c), stof(b + " " + c), stof(c))
              case (Some(x), Some(y), Some(z)) => Some([x, y, z])
              case _ => None
  {
    var line := head + " " + a + " " + b + " " + c;
    var i0 := |head| + 1;
    var i1 := i0 + |a| + 1;
    var i2 := i1 + |b| + 1;
    TokensLayout(head, a, b, c, line, i0, i1, i2);
    TokenSuffixes(head, a, b, c, line, i0, i1, i2);
    TokenStarts(line, |head|, a, b, c, i0, i1, i2);
    CoordsFrom(line, |head|, i0, i1, i2, a + " " + b + " " + c, b + " " + c, c, stof);
  }

  /** The lines of ls whose first two characters are h. */
  function Count(ls: seq<string>, h: string): (n: nat)
    ensures n <= |ls|
  {
    if |ls| == 0 then 0
    else Count(ls[..|ls| - 1], h) + if Head(ls[|ls| - 1]) == h then 1 else 0
  }

  /**
   * When no line throws, parse_obj adds one vertex per "v " line, one
   * texture coordinate per "vt" line, one normal per "vn" line and three
   * vertex indices per "f " line, with at most three texture and three
   * normal indices per face.
   */
  lemma {:induction false} ParseCounts(ls: seq<string>, l: Lists, stof: string -> Option<real>, sqrt: real -> real)
    ensures var p := ParseLines(ls, l, stof, sqrt);
            p.0 ==>
              |p.1.verts| == |l.verts| + Count(ls, "v ") &&
              |p.1.texCoords| == |l.texCoords| + Count(ls, "vt") &&
              |p.1.normals| == |l.normals| + Count(ls, "vn") &&
              |p.1.faceVrtx| == |l.faceVrtx| + 3 * Count(ls, "f ") &&
              |p.1.faceTex| <= |l.faceTex| + 3 * Count(ls, "f ") &&
              |p.1.faceNorm| <= |l.faceNorm| + 3 * Count(ls, "f ")
  {
    if |ls| > 0 {
      var init := ls[..|ls| - 1];
      ParseCounts(init, l, stof, sqrt);
      var q := ParseLines(init, l, stof, sqrt);
      if q.0 {
        LineCounts(ls[|ls| - 1], q.1, stof, sqrt);
      }
    }
  }

  /** What one line adds, by its head. */
  lemma {:induction false} LineCounts(line: string, l: Lists, stof: string -> Option<real>, sqrt: real -> real)
    ensures var r := ParseLine(line, l, stof, sqrt);
            var h := Head(line);
            r.0 ==>
              |r.1.verts| == |l.verts| + (if h == "v " then 1 else 0) &&
              |r.1.texCoords| == |l.texCoords| + (if h == "vt" then 1 else 0) &&
              |r.1.normals| == |l.normals| + (if h == "vn" then 1 else 0) &&
              |r.1.faceVrtx| == |l.faceVrtx| + (if h == "f " then 3 else 0) &&
              |r.1.faceTex| <= |l.faceTex| + (if h == "f " then 3 else 0) &&
              |r.1.faceNorm| <= |l.faceNorm| + (if h == "f " then 3 else 0)
  {
    FaceSizes(line);
  }

  /** The lines of a file put back together give the file. */
  lemma {:induction false} JoinLinesOfLines(s: string)
    ensures JoinLines(Lines(s)) == s
  {
    if |s| > 0 {
      JoinLinesOfLines(s[1..]);
      var rest := Lines(s[1..]);
      if s[0] == '\n' {
        assert Lines(s) == [""] + rest;
        assert ([""] + rest)[1..] == rest;
        assert [s[0]] + s[1..] == s;
      } else {
        JoinHead(s[0], rest);
        assert [s[0]] + s[1..] == s;
      }
    }
  }

  /** Putting a character in front of the first line puts it in front of the joined text. */
  lemma {:induction false} JoinHead(c: char, ls: seq<string>)
    requires |ls| >= 1
    ensures JoinLines([[c] + ls[0]] + ls[1..]) == [c] + JoinLines(ls)
  {
    var ms := [[c] + ls[0]] + ls[1..];
    if |ls| > 1 {
      assert ms[1..] == ls[1..];
    }
  }

  /** Lines without newlines, joined and split again, come back unchanged. */
  lemma {:induction false} LinesOfJoinLines(ls: seq<string>)
    requires |ls| >= 1 && forall i :: 0 <= i < |ls| ==> '\n' !in ls[i]
    ensures Lines(JoinLines(ls)) == ls
  {
    if |ls| == 1 {
      LinesOfLine(ls[0]);
    } else {
      LinesOfJoinLines(ls[1..]);
      LinesPrefix(ls[0], JoinLines(ls[1..]));
      assert [ls[0]] + ls[1..] == ls;
    }
  }

  /** A string without a newline is one line. */
  lemma {:induction false} LinesOfLine(a: string)
    requires '\n' !in a
    ensures Lines(a) == [a]
  {
    if |a| > 0 {
      assert a[0] in a;
      assert forall x :: x in a[1..] ==> x in a;
      LinesOfLine(a[1..]);
      assert [a[0]] + a[1..] == a;
    }
  }

  /** A line without a newline, a newline, then more text: that line is the first, and the rest follows. */
  lemma {:induction false} LinesPrefix(a: string, b: string)
    requires '\n' !in a
    ensures Lines(a + "\n" + b) == [a] + Lines(b)
  {
    var s := a + "\n" + b;
    if |a| == 0 {
      assert s == "\n" + b;
      assert s[1..] == b;
    } else {
      assert a[0] in a;
      assert forall x :: x in a[1..] ==> x in a;
      assert s[0] == a[0];
      assert s[1..] == a[1..] + "\n" + b;
      LinesPrefix(a[1..], b);
      assert [a[0]] + a[1..] == a;
    }
  }
}
