/** The lines of the level file: how SaveLevels prints each kind of line,
    how LoadLevels scans and classifies a line, and that each printed line
    is classified and scanned back as what it was printed from. */
module LevelLines {
  import opened Text
  import opened Levels
  import opened Seqs

  const MaxLevelsKey: string := "MAX_LEVELS"
  const LevelKey: string := "Level"

  // ---------------------------------------------------------------------
  // Writing
  // ---------------------------------------------------------------------

  /** The first line: `MAX_LEVELS = n;`. It starts with the key and ends
      with the semicolon the format expects. */
  function MaxLevelsLine(n: int): (s: string)
    ensures StartsWith(s, MaxLevelsKey) && s[|s| - 1] == ';'
  {
    var s := "MAX_LEVELS = " + IntText(n) + ";";
    assert s[..|MaxLevelsKey|] == MaxLevelsKey;
    s
  }

  /** The header written before a level, numbered from 1: `Level k:`. It
      starts with the key and ends with a colon. */
  function LevelLine(k: int): (s: string)
    ensures StartsWith(s, LevelKey) && s[|s| - 1] == ':'
  {
    var s := "Level " + IntText(k) + ":";
    assert s[..|LevelKey|] == LevelKey;
    s
  }

  /** The eight numbers of a platform line, in the order they are written. */
  function Fields(p: Platform): (fs: seq<int>)
    ensures |fs| == 8
  {
    [p.x, p.y, p.width, p.height, p.color.r, p.color.g, p.color.b, p.color.a]
  }

  function FromFields(fs: seq<int>): (p: Platform)
    requires |fs| == 8
    ensures Fields(p) == fs
  {
    Platform(fs[0], fs[1], fs[2], fs[3], Color(fs[4], fs[5], fs[6], fs[7]))
  }

  /** Numerals separated by single spaces. */
  function Join(fs: seq<int>): (s: string)
    ensures fs != [] ==> s != [] && !IsSpace(s[0])
  {
    if fs == [] then ""
    else if |fs| == 1 then IntText(fs[0])
    else IntText(fs[0]) + (" " + Join(fs[1..]))
  }

  /** Text made only of digits, minus signs and spaces. */
  predicate NumeralChars(s: string) {
    forall c :: c in s ==> IsDigit(c) || c == '-' || c == ' '
  }

  /** Joined numerals hold only digits, minus signs and spaces. */
  lemma {:induction false} JoinChars(fs: seq<int>)
    ensures NumeralChars(Join(fs))
  {
    if |fs| > 1 {
      JoinChars(fs[1..]);
    }
  }

  /** One platform line: `x y width height r g b a`. It is non-empty and
      holds nothing but numerals and the spaces between them. */
  function PlatformLine(p: Platform): (s: string)
    ensures s != [] && NumeralChars(s)
  {
    JoinChars(Fields(p));
    Join(Fields(p))
  }

  /** A line of the level file, by what it says: the bound, the header of
      level k, or the data of one platform. */
  datatype Line = BoundLine(n: int) | HeaderLine(k: int) | DataLine(p: Platform)

  /** The text SaveLevels writes for a line. */
  function Render(l: Line): string {
    match l
    case BoundLine(n) => MaxLevelsLine(n)
    case HeaderLine(k) => LevelLine(k)
    case DataLine(p) => PlatformLine(p)
  }

  // ---------------------------------------------------------------------
  // Scanning
  // ---------------------------------------------------------------------

  /** `k` numeric conversions in a row, each skipping leading white space. */
  function ScanInts(s: string, k: nat): (r: Option<seq<int>>)
    ensures r.Some? ==> |r.value| == k
    decreases k
  {
    if k == 0 then Some([])
    else match ScanInt(s)
      case None => None
      case Some((v, rest)) =>
        match ScanInts(rest, k - 1)
        case None => None
        case Some(vs) => Some([v] + vs)
  }

  /** `sscanf(line, "%f %f %f %f %f %f %f %f", ...)` when all eight
      conversions succeed: the platform holds the eight numerals of the
      line, in order, and there is none when fewer than eight are there.
      A fraction or exponent on one of the first seven numerals makes the
      next conversion fail; on the eighth it is left unread, so that field
      keeps only its integer part. */
  function ScanPlatform(line: string): (r: Option<Platform>)
    ensures r.Some? <==> ScanInts(line, 8).Some?
    ensures r.Some? ==> Fields(r.value) == ScanInts(line, 8).value
  {
    match ScanInts(line, 8)
    case None => None
    case Some(fs) => Some(FromFields(fs))
  }

  /** `sscanf(line, "MAX_LEVELS = %d;", ...)`: the literal text must start
      the line; the spaces of the format match any white space. */
  function ScanMaxLevels(line: string): (r: Option<int>)
    ensures r.Some? ==> StartsWith(line, MaxLevelsKey)
  {
    if !StartsWith(line, MaxLevelsKey) then None
    else
      var t := DropSpaces(line[|MaxLevelsKey|..]);
      if t != [] && t[0] == '=' then
        match ScanInt(t[1..])
        case None => None
        case Some((n, _)) => Some(n)
      else None
  }

  lemma ScanIntsAfterSpace(s: string, k: nat)
    ensures ScanInts(" " + s, k) == ScanInts(s, k)
  {
    ScanIntAfterSpace(s);
  }

  /** Scanning a numeral and the rest of the conversions after it. */
  lemma ScanIntsStep(n: int, rest: string, k: nat, vs: seq<int>)
    requires rest == [] || !IsDigit(rest[0])
    requires ScanInts(rest, k) == Some(vs)
    ensures ScanInts(IntText(n) + rest, k + 1) == Some([n] + vs)
  {
    ScanIntText(n, rest);
  }

  lemma ScanOne(n: int)
    ensures ScanInts(IntText(n), 1) == Some([n])
  {
    var none: string := [];
    assert IntText(n) + none == IntText(n);
    assert [n] + [] == [n];
    assert ScanInts(none, 0) == Some([]);
    ScanIntsStep(n, none, 0, []);
  }

  lemma ScanSpaced(n: int, tail: string, m: nat, vs: seq<int>)
    requires m >= 1 && ScanInts(tail, m - 1) == Some(vs)
    ensures ScanInts(IntText(n) + (" " + tail), m) == Some([n] + vs)
  {
    ScanIntsAfterSpace(tail, m - 1);
    ScanIntsStep(n, " " + tail, m - 1, vs);
  }

  lemma JoinCons(fs: seq<int>)
    requires |fs| >= 2
    ensures Join(fs) == IntText(fs[0]) + (" " + Join(fs[1..]))
  {
  }

  /** The numerals after the first scan back; then so does the first. */
  lemma ScanJoinStep(fs: seq<int>, k: nat)
    requires |fs| >= 2 && k == |fs|
    ensures ScanInts(Join(fs), k) == Some(fs)
    decreases |fs|, 0
  {
    ScanJoin(fs[1..], k - 1);
    JoinCons(fs);
    SplitFirst(fs);
    ScanSpaced(fs[0], Join(fs[1..]), k, fs[1..]);
  }

  lemma ScanJoinOne(fs: seq<int>, k: nat)
    requires |fs| == 1 && k == |fs|
    ensures ScanInts(Join(fs), k) == Some(fs)
  {
    ScanOne(fs[0]);
    assert [fs[0]] == fs;
  }

  /** Joined numerals scan back, `k` conversions for `k` numerals. */
  lemma ScanJoin(fs: seq<int>, k: nat)
    requires fs != [] && k == |fs|
    ensures ScanInts(Join(fs), k) == Some(fs)
    decreases |fs|, 1
  {
    if |fs| == 1 {
      ScanJoinOne(fs, k);
    } else {
      ScanJoinStep(fs, k);
    }
  }

  /** The first numeral, then the rest of the joined line and its tail. */
  lemma JoinConsTail(fs: seq<int>, tail: string)
    requires |fs| >= 2
    ensures Join(fs) + tail == IntText(fs[0]) + (" " + (Join(fs[1..]) + tail))
  {
    JoinCons(fs);
    AppendAssoc(IntText(fs[0]), " " + Join(fs[1..]), tail);
    AppendAssoc(" ", Join(fs[1..]), tail);
  }

  lemma ScanJoinTailStep(fs: seq<int>, k: nat, tail: string)
    requires |fs| >= 2 && k == |fs| && (tail == [] || !IsDigit(tail[0]))
    ensures ScanInts(Join(fs) + tail, k) == Some(fs)
    decreases |fs|, 0
  {
    var rest := Join(fs[1..]) + tail;
    ScanJoinTail(fs[1..], k - 1, tail);
    JoinConsTail(fs, tail);
    SplitFirst(fs);
    ScanSpaced(fs[0], rest, k, fs[1..]);
  }

  lemma ScanJoinTailOne(fs: seq<int>, k: nat, tail: string)
    requires |fs| == 1 && k == |fs| && (tail == [] || !IsDigit(tail[0]))
    ensures ScanInts(Join(fs) + tail, k) == Some(fs)
  {
    assert ScanInts(tail, 0) == Some([]);
    ScanIntsStep(fs[0], tail, 0, []);
    assert [fs[0]] + [] == fs;
  }

  /** Joined numerals followed by text that does not start with a digit
      scan back, and that text is left unread. */
  lemma ScanJoinTail(fs: seq<int>, k: nat, tail: string)
    requires fs != [] && k == |fs| && (tail == [] || !IsDigit(tail[0]))
    ensures ScanInts(Join(fs) + tail, k) == Some(fs)
    decreases |fs|, 1
  {
    if |fs| == 1 {
      ScanJoinTailOne(fs, k, tail);
    } else {
      ScanJoinTailStep(fs, k, tail);
    }
  }

  /** Whatever follows the eighth numeral, unless it continues its digits,
      is ignored: a fraction such as `.5` or an exponent such as `e1` on the
      last field is dropped, and the platform keeps the integer parts. */
  lemma ScanPlatformIgnoresTail(fs: seq<int>, tail: string)
    requires |fs| == 8 && (tail == [] || !IsDigit(tail[0]))
    ensures ScanPlatform(Join(fs) + tail) == Some(FromFields(fs))
  {
    ScanJoinTail(fs, 8, tail);
  }

  /** A platform line scans back to the platform it was written from. */
  lemma ScanPlatformLine(p: Platform)
    ensures ScanPlatform(PlatformLine(p)) == Some(p)
  {
    ScanJoin(Fields(p), 8);
  }

  lemma ScanIntsEmpty(k: nat)
    requires k >= 1
    ensures ScanInts("", k) == None
  {
    assert ScanInt("") == None;
  }

  /** A numeral followed by text where the remaining conversions fail. */
  lemma ScanIntsStepNone(n: int, rest: string, m: nat)
    requires m >= 1 && (rest == [] || !IsDigit(rest[0]))
    requires ScanInts(rest, m - 1) == None
    ensures ScanInts(IntText(n) + rest, m) == None
  {
    ScanIntText(n, rest);
  }

  lemma ScanSpacedNone(n: int, tail: string, m: nat)
    requires m >= 1 && ScanInts(tail, m - 1) == None
    ensures ScanInts(IntText(n) + (" " + tail), m) == None
  {
    ScanIntsAfterSpace(tail, m - 1);
    ScanIntsStepNone(n, " " + tail, m);
  }

  lemma ScanJoinShortStep(fs: seq<int>, k: nat)
    requires |fs| >= 2 && |fs| < k
    ensures ScanInts(Join(fs), k) == None
    decreases |fs|, 0
  {
    ScanJoinShort(fs[1..], k - 1);
    JoinCons(fs);
    ScanSpacedNone(fs[0], Join(fs[1..]), k);
  }

  lemma ScanJoinShortOne(fs: seq<int>, k: nat)
    requires |fs| == 1 && |fs| < k
    ensures ScanInts(Join(fs), k) == None
  {
    var none: string := [];
    assert IntText(fs[0]) + none == Join(fs);
    ScanIntsEmpty(k - 1);
    ScanIntsStepNone(fs[0], none, k);
  }

  /** Fewer numerals than conversions: the scan fails once the line ends. */
  lemma ScanJoinShort(fs: seq<int>, k: nat)
    requires |fs| < k
    ensures ScanInts(Join(fs), k) == None
    decreases |fs|, 1
  {
    if fs == [] {
      ScanIntsEmpty(k);
    } else if |fs| == 1 {
      ScanJoinShortOne(fs, k);
    } else {
      ScanJoinShortStep(fs, k);
    }
  }

  /** A line of fewer than eight numerals is malformed, although `sscanf`
      fills the rectangle of a line with four to seven of them and the
      colour then keeps its default. */
  lemma ShortLineMalformed(fs: seq<int>)
    requires |fs| < 8
    ensures ScanPlatform(Join(fs)).None?
  {
    ScanJoinShort(fs, 8);
  }

  /** The bound line's key and `=` with any text after them. */
  lemma ScanAfterKey(u: string)
    ensures ScanMaxLevels(MaxLevelsKey + (" = " + u)) ==
      match ScanInt(u)
      case None => None
      case Some((n, _)) => Some(n)
  {
    var line := MaxLevelsKey + (" = " + u);
    assert StartsWith(line, MaxLevelsKey);
    assert line[|MaxLevelsKey|..] == " = " + u;
    assert (" = " + u)[1..] == "= " + u;
    assert DropSpaces(" = " + u) == "= " + u;
    assert ("= " + u)[1..] == " " + u;
    ScanIntAfterSpace(u);
  }

  lemma ScanMaxLevelsLine(n: int)
    ensures ScanMaxLevels(MaxLevelsLine(n)) == Some(n)
  {
    assert MaxLevelsLine(n) == MaxLevelsKey + (" = " + (IntText(n) + ";"));
    ScanAfterKey(IntText(n) + ";");
    ScanIntText(n, ";");
  }

  // ---------------------------------------------------------------------
  // Classifying lines
  // ---------------------------------------------------------------------

  /** A line the loader takes as a level header. */
  predicate IsLevelHeader(line: string) {
    !Contains(line, MaxLevelsKey) && Contains(line, LevelKey)
  }

  lemma MaxLevelsLineIsBound(n: int)
    ensures Contains(MaxLevelsLine(n), MaxLevelsKey)
  {
    assert MaxLevelsLine(n)[..|MaxLevelsKey|] == MaxLevelsKey;
  }

  lemma LevelLineIsHeader(k: int)
    ensures IsLevelHeader(LevelLine(k))
  {
    var line := LevelLine(k);
    assert line[..|LevelKey|] == LevelKey;
    assert 'M' !in line by {
      forall i | 0 <= i < |line| ensures line[i] != 'M' {
        if 6 <= i < |line| - 1 {
          assert line[i] == IntText(k)[i - 6];
        }
      }
    }
    MissingCharNotContained(line, MaxLevelsKey, 'M');
  }

  /** A platform line is a non-empty data line: neither key occurs in it. */
  lemma PlatformLineIsData(p: Platform)
    ensures PlatformLine(p) != []
    ensures !Contains(PlatformLine(p), MaxLevelsKey) && !Contains(PlatformLine(p), LevelKey)
  {
    var line := PlatformLine(p);
    MissingCharNotContained(line, MaxLevelsKey, 'L');
    MissingCharNotContained(line, LevelKey, 'L');
  }
}
