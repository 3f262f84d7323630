// The character-level helpers of parser.cpp: the digit test, the four index
// scanners that walk a line, and the `std::substr` / `std::stoi` pair that
// reads a face index.

module ObjScan {
  import opened Numeric
  import opened Wrappers
  import opened DecimalText

  /** is_num: the character codes strictly between 47 and 58. */
  function IsNum(c: char): (r: bool)
    ensures r <==> '0' <= c <= '9'
  {
    47 < c as int < 58
  }

  /**
   * `s[i]` on a `std::string`: the character at i, and the terminating NUL at
   * i == |s|. A read further out is undefined in C++; the model reads NUL
   * there as well.
   */
  function Peek(s: string, i: nat): char
  {
    if i < |s| then s[i] else '\0'
  }

  /** The character each scanner stops on. */
  datatype Stop = Space | NonSpace | Slash | NonDigit

  predicate StopsAt(k: Stop, c: char)
  {
    match k
    case Space => c == ' '
    case NonSpace => c != ' '
    case Slash => c == '/'
    case NonDigit => !IsNum(c)
  }

  /**
   * Where the scanning loop of parser.cpp leaves the index: on the first
   * stopping character at or after i, or one past the end of the string
   * when there is none (the increment after the loop).
   */
  function Scan(s: string, i: nat, k: Stop): (j: nat)
    ensures i <= j
    ensures j < |s| ==> StopsAt(k, s[j])
    ensures |s| <= j ==> j == Max(i, |s|) + 1
    ensures forall m :: i <= m < j && m < |s| ==> !StopsAt(k, s[m])
    decreases |s| - i
  {
    if i >= |s| then i + 1
    else if StopsAt(k, s[i]) then i
    else Scan(s, i + 1, k)
  }

  /** The first stopping character after a run of non-stopping ones is where the scan ends. */
  lemma ScanAt(s: string, i: nat, k: Stop, j: nat)
    requires i <= j <= |s|
    requires forall m :: i <= m < j ==> !StopsAt(k, s[m])
    requires j == |s| || StopsAt(k, s[j])
    ensures Scan(s, i, k) == if j == |s| then |s| + 1 else j
  {
  }

  /** The loop shared by skip_to_ws, skip_to_fs and skip_num, and by skip_ws past its first test. */
  method ScanLoop(s: string, idx: nat, k: Stop) returns (j: nat)
    ensures j == Scan(s, idx, k)
  {
    j := idx;
    while j < |s|
      invariant idx <= j
      invariant Scan(s, j, k) == Scan(s, idx, k)
      decreases |s| - j
    {
      if StopsAt(k, s[j]) {
        return;
      }
      j := j + 1;
    }
    j := j + 1;
  }

  /** Where skip_ws leaves the index: unchanged off a space, past the run of spaces on one. */
  function SkipWsEnd(s: string, i: nat): (j: nat)
    ensures i <= j
    ensures forall m :: i <= m < j && m < |s| ==> s[m] == ' '
    ensures Peek(s, j) != ' '
    ensures i <= |s| && Peek(s, i) == ' ' ==> j <= |s| + 1
  {
    if Peek(s, i) != ' ' then i else Scan(s, i, NonSpace)
  }

  /** skip_ws. */
  method SkipWs(s: string, idx: nat) returns (j: nat)
    ensures j == SkipWsEnd(s, idx)
  {
    if Peek(s, idx) != ' ' {
      return idx;
    }
    j := ScanLoop(s, idx, NonSpace);
  }

  /** skip_to_ws: on to the next space, or one past the end. */
  method SkipToWs(s: string, idx: nat) returns (j: nat)
    ensures j == Scan(s, idx, Space)
  {
    j := ScanLoop(s, idx, Space);
  }

  /** skip_to_fs: on to the next forward slash, or one past the end. */
  method SkipToFs(s: string, idx: nat) returns (j: nat)
    ensures j == Scan(s, idx, Slash)
  {
    j := ScanLoop(s, idx, Slash);
  }

  /** skip_num as written: past the digits, and one past the end when the digits reach it. */
  method SkipNum(s: string, idx: nat) returns (j: nat)
    ensures j == Scan(s, idx, NonDigit)
  {
    j := ScanLoop(s, idx, NonDigit);
  }

  /**
   * Where skip_num is meant to leave the index: on the first character after
   * the digits, which is the terminator when the digits reach the end.
   */
  function NumEnd(s: string, i: nat): (j: nat)
    ensures i <= j
    ensures i <= |s| ==> j <= |s|
    ensures |s| < i ==> j == i
    ensures forall m :: i <= m < j ==> IsNum(s[m])
    ensures j < |s| ==> !IsNum(s[j])
    decreases |s| - i
  {
    if i >= |s| || !IsNum(s[i]) then i else NumEnd(s, i + 1)
  }

  /** skip_num with the increment after its loop dropped. */
  method SkipNumWithin(s: string, idx: nat) returns (j: nat)
    ensures j == NumEnd(s, idx)
  {
    j := idx;
    while j < |s|
      invariant idx <= j
      invariant NumEnd(s, j) == NumEnd(s, idx)
      decreases |s| - j
    {
      if !IsNum(s[j]) {
        return;
      }
      j := j + 1;
    }
  }

  /** skip_num as written and the corrected one agree except at the end of the string, where it goes one further. */
  lemma NumEndAgrees(s: string, i: nat)
    ensures Scan(s, i, NonDigit) == if NumEnd(s, i) < |s| then NumEnd(s, i) else NumEnd(s, i) + 1
  {
    var j := NumEnd(s, i);
    if i <= |s| {
      ScanAt(s, i, NonDigit, j);
    }
  }

  /**
   * On the well-formed face line "f 1 2 3", skip_num as written moves from
   * the last index to 8, one past the terminator of the 7-character line,
   * where f then reads `line[idx]`; the corrected scan stops on the terminator.
   */
  lemma SkipNumOverRead()
    ensures Scan("f 1 2 3", 6, NonDigit) == |"f 1 2 3"| + 1
    ensures NumEnd("f 1 2 3", 6) == |"f 1 2 3"|
  {
    ScanAt("f 1 2 3", 6, NonDigit, 7);
    assert IsNum("f 1 2 3"[6]);
  }

  /** `line.substr(idx)`: the rest of the line, or `std::out_of_range` when idx is past its end. */
  function Substr(s: string, i: nat): (r: Option<string>)
    ensures r.Some? <==> i <= |s|
    ensures r.Some? ==> |r.value| == |s| - i
  {
    if i <= |s| then Some(s[i..]) else None
  }

  /** What precedes position i, followed by the substring from i, is the whole string. */
  lemma SubstrJoin(s: string, i: nat)
    requires i <= |s|
    ensures s[..i] + Substr(s, i).value == s
  {
    assert s[..i] + s[i..] == s;
  }

  /** The white space `std::isspace` accepts in the C locale: the space, and tab through carriage return. */
  predicate IsSpace(c: char)
  {
    c == ' ' || '\t' <= c <= '\r'
  }

  /** The index of the first character at or after i that is not white space. */
  function SkipSpaces(s: string, i: nat): (j: nat)
    requires i <= |s|
    ensures i <= j <= |s|
    decreases |s| - i
  {
    if i < |s| && IsSpace(s[i]) then SkipSpaces(s, i + 1) else i
  }

  /** The characters of s from i to j are digits. */
  lemma DigitRun(s: string, i: nat, j: nat)
    requires i <= j <= |s| && forall m :: i <= m < j ==> IsNum(s[m])
    ensures AllDigits(s[i..j])
  {
    forall k | 0 <= k < j - i
      ensures '0' <= s[i..j][k] <= '9'
    {
      assert s[i..j][k] == s[i + k];
    }
  }

  /**
   * `std::stoi`: leading white space, an optional sign, then at least one
   * digit, read in base 10; None for `std::invalid_argument` (no digits) and
   * for `std::out_of_range` (a value outside `int`).
   */
  function Stoi(s: string): (r: Option<int>)
    ensures r.Some? ==> INT_MIN <= r.value <= INT_MAX
  {
    var i := SkipSpaces(s, 0);
    var signed := i < |s| && (s[i] == '-' || s[i] == '+');
    var start := if signed then i + 1 else i;
    var end := NumEnd(s, start);
    if end == start then None
    else
      DigitRun(s, start, end);
      var v: int := if signed && s[i] == '-' then 0 - DigitsValue(s[start..end]) as int else DigitsValue(s[start..end]);
      if INT_MIN <= v <= INT_MAX then Some(v) else None
  }

  /** The digits written for a number in `int` range, followed by anything but a digit, read back as that number. */
  lemma StoiDecimal(n: nat, rest: string)
    requires n <= INT_MAX
    requires |rest| > 0 ==> !IsNum(rest[0])
    ensures Stoi(Decimal(n) + rest) == Some(n)
  {
    DecimalRoundTrip(n);
    StoiDigits(Decimal(n), rest);
  }

  /** One or more digits whose value fits an `int`, followed by anything but a digit, are read as that value. */
  lemma StoiDigits(d: string, rest: string)
    requires |d| > 0 && AllDigits(d) && DigitsValue(d) <= INT_MAX
    requires |rest| > 0 ==> !IsNum(rest[0])
    ensures Stoi(d + rest) == Some(DigitsValue(d))
  {
    var s := d + rest;
    assert s[0] == d[0];
    assert SkipSpaces(s, 0) == 0;
    if |rest| > 0 {
      assert s[|d|] == rest[0];
    }
    assert forall m :: 0 <= m < |d| ==> s[m] == d[m];
    NumEndAt(s, 0, |d|);
    assert s[0..|d|] == d;
  }

  /** A run of digits ending at the end of the string or before a non-digit is what the corrected skip_num passes. */
  lemma NumEndAt(s: string, i: nat, j: nat)
    requires i <= j <= |s|
    requires forall m :: i <= m < j ==> IsNum(s[m])
    requires j == |s| || !IsNum(s[j])
    ensures NumEnd(s, i) == j
  {
  }

  /** Without a digit after the optional sign there is nothing to read. */
  lemma StoiNeedsDigit(s: string)
    requires |s| == 0 || (!IsSpace(s[0]) && !IsNum(s[0]) && s[0] != '-' && s[0] != '+')
    ensures Stoi(s) == None
  {
  }

  /** The 0-based index f stores: `std::stoi(line.substr(idx)) - 1`. */
  function ReadIndex(line: string, i: nat): (r: Option<int>)
    ensures r.Some? ==> i <= |line| && INT_MIN - 1 <= r.value < INT_MAX
  {
    match Substr(line, i)
    case None => None
    case Some(t) =>
      match Stoi(t)
      case None => None
      case Some(n) => Some(n - 1)
  }
}
