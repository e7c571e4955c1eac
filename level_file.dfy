/** The level file as a whole: the lines SaveLevels writes for a store, and
    the line-driven state machine LoadLevels runs over a file. A file is its
    sequence of lines, as `std::getline` yields them. */
module LevelFile {
  import opened Text
  import opened Levels
  import opened Seqs
  import opened LevelLines

  // ---------------------------------------------------------------------
  // Writing
  // ---------------------------------------------------------------------

  /** One data line per platform, in list order. */
  function DataLines(ps: Level): (r: seq<Line>)
    ensures |r| == |ps|
  {
    if ps == [] then [] else DataLines(ps[..|ps| - 1]) + [DataLine(ps[|ps| - 1])]
  }

  lemma {:induction false} DataLinesAt(ps: Level, j: nat)
    requires j < |ps|
    ensures DataLines(ps)[j] == DataLine(ps[j])
  {
    if j < |ps| - 1 {
      DataLinesAt(ps[..|ps| - 1], j);
    }
  }

  /** The lines written for the level at index i: its header, numbered
      from 1, then its platforms. */
  function Block(i: nat, ps: Level): seq<Line> {
    [HeaderLine(i + 1)] + DataLines(ps)
  }

  /** The blocks of all levels, in index order. */
  function Blocks(ls: seq<Level>): seq<Line> {
    if ls == [] then [] else Blocks(ls[..|ls| - 1]) + Block(|ls| - 1, ls[|ls| - 1])
  }

  lemma BlocksSnoc(ls: seq<Level>, last: Level)
    ensures Blocks(ls + [last]) == Blocks(ls) + Block(|ls|, last)
  {
    assert (ls + [last])[..|ls|] == ls;
  }

  /** What SaveLevels writes for the store `ls` and the bound `n`, line by line. */
  function SaveLines(ls: seq<Level>, n: int): seq<Line> {
    [BoundLine(n)] + Blocks(ls)
  }

  /** The text of a sequence of lines. */
  function RenderAll(lines: seq<Line>): (r: seq<string>)
    ensures |r| == |lines|
  {
    if lines == [] then [] else RenderAll(lines[..|lines| - 1]) + [Render(lines[|lines| - 1])]
  }

  lemma RenderAllSnoc(lines: seq<Line>, l: Line)
    ensures RenderAll(lines + [l]) == RenderAll(lines) + [Render(l)]
  {
    assert (lines + [l])[..|lines|] == lines;
  }

  /** The last line, in the shape Run takes a file apart. */
  lemma RenderAllLast(lines: seq<Line>)
    requires lines != []
    ensures RenderAll(lines)[..|RenderAll(lines)| - 1] == RenderAll(lines[..|lines| - 1])
    ensures RenderAll(lines)[|RenderAll(lines)| - 1] == Render(lines[|lines| - 1])
  {
  }

  lemma {:induction false} RenderAllAt(lines: seq<Line>, x: nat)
    requires x < |lines|
    ensures RenderAll(lines)[x] == Render(lines[x])
  {
    if x < |lines| - 1 {
      RenderAllAt(lines[..|lines| - 1], x);
    }
  }

  lemma RenderAllAtHeader(lines: seq<Line>, x: nat, k: int)
    requires x < |lines| && lines[x] == HeaderLine(k)
    ensures RenderAll(lines)[x] == LevelLine(k)
  {
    RenderAllAt(lines, x);
  }

  lemma RenderAllAtData(lines: seq<Line>, x: nat, p: Platform)
    requires x < |lines| && lines[x] == DataLine(p)
    ensures RenderAll(lines)[x] == PlatformLine(p)
  {
    RenderAllAt(lines, x);
  }

  lemma RenderAllAtBound(lines: seq<Line>, x: nat, n: int)
    requires x < |lines| && lines[x] == BoundLine(n)
    ensures RenderAll(lines)[x] == MaxLevelsLine(n)
  {
    RenderAllAt(lines, x);
  }

  /** The saved lines grow level by level ... */
  lemma SaveLinesStep(ls: seq<Level>, n: int, i: nat)
    requires i < |ls|
    ensures SaveLines(ls[..i + 1], n) == SaveLines(ls[..i], n) + Block(i, ls[i])
  {
    TakeTake(ls, i, i + 1);
    AppendAssoc([BoundLine(n)], Blocks(ls[..i]), Block(i, ls[i]));
  }

  /** ... and, within a level, platform by platform. */
  lemma BlockStep(i: nat, ps: Level, j: nat)
    requires j < |ps|
    ensures Block(i, ps[..j + 1]) == Block(i, ps[..j]) + [DataLine(ps[j])]
  {
    TakeTake(ps, j, j + 1);
    AppendAssoc([HeaderLine(i + 1)], DataLines(ps[..j]), [DataLine(ps[j])]);
  }

  /** The text SaveLevels writes: the bound line, then one line per level
      and one per platform. */
  function SaveText(ls: seq<Level>, n: int): (r: seq<string>)
    ensures |r| == 1 + |ls| + PlatformCount(ls)
    ensures r[0] == MaxLevelsLine(n)
  {
    BlocksLength(ls);
    RenderAllAtBound(SaveLines(ls, n), 0, n);
    RenderAll(SaveLines(ls, n))
  }

  /** Index of the header line of level i in SaveText. */
  function BlockStart(ls: seq<Level>, i: nat): nat
    requires i <= |ls|
  {
    1 + |Blocks(ls[..i])|
  }

  // ---------------------------------------------------------------------
  // Loading
  // ---------------------------------------------------------------------

  /** The loader's variables: the store, the bound, and the cursor
      `levelIndex` of the level that data lines go to. */
  datatype LoadState = LoadState(levels: seq<Level>, maxLevels: int, levelIndex: int)

  /** Why a load stops. NegativeSize: the bound read is negative, so the
      resize throws. LevelOutOfRange: a data line is meant for a level the
      store does not have (undefined behaviour in the source).
      MalformedPlatform: fewer than eight numerals can be read from a data
      line. With fewer than four numerals the source leaves the rectangle
      indeterminate; with four to seven, or with a fraction or exponent on
      one of the first seven numerals, the source stores a defined
      platform, and the model stops. A fraction or exponent on the eighth
      numeral is not a fault: the model stores that field's integer part. */
  datatype Fault = NegativeSize | LevelOutOfRange | MalformedPlatform

  datatype StepResult = Next(st: LoadState) | Fail(st: LoadState, fault: Fault)

  /** Where a load is: still running, or stopped at a line with a fault. */
  datatype Progress = Running(st: LoadState) | Halted(st: LoadState, line: nat, fault: Fault)

  /** The state a load starts from once the file is open: the store
      cleared, the bound as it was, and no level selected. */
  function Initial(maxLevels: int): LoadState {
    LoadState([], maxLevels, -1)
  }

  /** What the loader does with one line. */
  function Step(st: LoadState, line: string): (r: StepResult)
    // only a line naming MAX_LEVELS changes the bound or resizes the store
    ensures !Contains(line, MaxLevelsKey) ==>
      r.st.maxLevels == st.maxLevels && |r.st.levels| == |st.levels|
    // only a header moves the cursor, by exactly one
    ensures r.st.levelIndex == if IsLevelHeader(line) then st.levelIndex + 1 else st.levelIndex
    // any other line touches at most the level under the cursor, by one platform
    ensures !Contains(line, MaxLevelsKey) ==>
      forall i :: 0 <= i < |st.levels| && i != st.levelIndex ==> r.st.levels[i] == st.levels[i]
    ensures !Contains(line, MaxLevelsKey) && 0 <= st.levelIndex < |st.levels| ==>
      |r.st.levels[st.levelIndex]| <= |st.levels[st.levelIndex]| + 1
  {
    if Contains(line, MaxLevelsKey) then
      var n := match ScanMaxLevels(line) case Some(v) => v case None => st.maxLevels;
      if n < 0 then Fail(st.(maxLevels := n), NegativeSize)
      else Next(st.(levels := Resize(st.levels, n), maxLevels := n))
    else if Contains(line, LevelKey) then
      Next(st.(levelIndex := st.levelIndex + 1))
    else if line != [] && st.levelIndex >= 0 then
      match ScanPlatform(line)
      case None => Fail(st, MalformedPlatform)
      case Some(p) =>
        if st.levelIndex < |st.levels| then
          Next(st.(levels := st.levels[st.levelIndex := st.levels[st.levelIndex] + [p]]))
        else Fail(st, LevelOutOfRange)
    else Next(st)
  }

  /** What the loader does with each kind of line. A line naming MAX_LEVELS
      sets the bound to the number scanned from it, or keeps the bound when
      the scan fails, and then resizes the store to that bound; a header
      selects the next level; a non-empty data line under a valid cursor
      appends exactly the scanned platform to that level; any other line,
      empty or before the first header, changes nothing. */
  lemma StepCases(st: LoadState, line: string)
    ensures var r := Step(st, line);
      Contains(line, MaxLevelsKey) ==>
        var n := if ScanMaxLevels(line).Some? then ScanMaxLevels(line).value else st.maxLevels;
        && r.st.maxLevels == n && r.st.levelIndex == st.levelIndex
        && (r.Next? <==> n >= 0)
        && (r.Next? ==> r.st.levels == Resize(st.levels, n))
        && (r.Fail? ==> r.fault == NegativeSize && r.st.levels == st.levels)
    ensures IsLevelHeader(line) ==> Step(st, line) == Next(st.(levelIndex := st.levelIndex + 1))
    ensures var r := Step(st, line);
      !Contains(line, MaxLevelsKey) && !Contains(line, LevelKey) && line != [] && st.levelIndex >= 0 ==>
        && (ScanPlatform(line).None? ==> r == Fail(st, MalformedPlatform))
        && (ScanPlatform(line).Some? && st.levelIndex >= |st.levels| ==> r == Fail(st, LevelOutOfRange))
        && (ScanPlatform(line).Some? && st.levelIndex < |st.levels| ==>
              r.Next? && r.st.maxLevels == st.maxLevels && r.st.levelIndex == st.levelIndex &&
              r.st.levels == st.levels[st.levelIndex := st.levels[st.levelIndex] + [ScanPlatform(line).value]])
    ensures !Contains(line, MaxLevelsKey) && !Contains(line, LevelKey) && (line == [] || st.levelIndex < 0) ==>
      Step(st, line) == Next(st)
  {
  }

  /** Runs the loader over the lines in order, stopping at the first fault. */
  function Run(st: LoadState, lines: seq<string>): (r: Progress)
    ensures r.Halted? ==> r.line < |lines|
  {
    if lines == [] then Running(st)
    else match Run(st, lines[..|lines| - 1])
      case Halted(s, k, f) => Halted(s, k, f)
      case Running(s) =>
        match Step(s, lines[|lines| - 1])
        case Next(s') => Running(s')
        case Fail(s', f) => Halted(s', |lines| - 1, f)
  }

  /** Loading a whole file, given the bound held before the load. The
      store is cleared first, so an empty file leaves no levels; a load that
      runs to the end has its cursor on the level of the last header read. */
  function Load(lines: seq<string>, maxLevels: int): (r: Progress)
    ensures lines == [] ==> r.Running? && r.st.levels == [] && r.st.maxLevels == maxLevels
    ensures r.Running? ==> r.st.levelIndex == HeaderCount(lines) - 1
  {
    RunCursor(Initial(maxLevels), lines);
    Run(Initial(maxLevels), lines)
  }

  function Shifted(p: Progress, offset: nat): Progress {
    match p
    case Running(_) => p
    case Halted(s, k, f) => Halted(s, k + offset, f)
  }

  /** Running over two pieces of a file is running over the first piece and,
      unless that stopped, then over the second from where it left off. */
  lemma {:induction false} RunConcat(st: LoadState, a: seq<string>, b: seq<string>)
    ensures Run(st, a + b) ==
      match Run(st, a)
      case Running(s) => Shifted(Run(s, b), |a|)
      case Halted(_, _, _) => Run(st, a)
  {
    if b == [] {
      assert a + b == a;
    } else {
      var b' := b[..|b| - 1];
      assert (a + b)[..|a + b| - 1] == a + b';
      assert (a + b)[|a + b| - 1] == b[|b| - 1];
      RunConcat(st, a, b');
    }
  }

  /** The loader one line further into the file. */
  lemma RunStep(st: LoadState, lines: seq<string>, k: nat)
    requires k < |lines|
    ensures Run(st, lines[..k + 1]) ==
      match Run(st, lines[..k])
      case Halted(s, x, f) => Halted(s, x, f)
      case Running(s) =>
        match Step(s, lines[k])
        case Next(s') => Running(s')
        case Fail(s', f) => Halted(s', k, f)
  {
    TakeTake(lines, k, k + 1);
  }

  /** Once the loader has stopped, the rest of the file is not read. */
  lemma RunHaltedPrefix(st: LoadState, lines: seq<string>, m: nat)
    requires m <= |lines| && Run(st, lines[..m]).Halted?
    ensures Run(st, lines) == Run(st, lines[..m])
  {
    RunConcat(st, lines[..m], lines[m..]);
    assert lines[..m] + lines[m..] == lines;
  }

  /** A header line moves the cursor; whatever number it carries does not
      matter: files that differ only in which header lines they have load
      alike. */
  lemma {:induction false} HeaderNumbersIgnored(st: LoadState, a: seq<string>, b: seq<string>)
    requires |a| == |b|
    requires forall i :: 0 <= i < |a| ==> a[i] == b[i] || (IsLevelHeader(a[i]) && IsLevelHeader(b[i]))
    ensures Run(st, a) == Run(st, b)
  {
    if a != [] {
      HeaderNumbersIgnored(st, a[..|a| - 1], b[..|b| - 1]);
    }
  }

  /** Empty lines and data lines before the first header leave the loader
      as it was. */
  lemma {:induction false} IgnoredLines(st: LoadState, lines: seq<string>)
    requires st.levelIndex < 0
    requires forall i :: 0 <= i < |lines| ==>
      !Contains(lines[i], MaxLevelsKey) && !Contains(lines[i], LevelKey)
    ensures Run(st, lines) == Running(st)
  {
    if lines != [] {
      IgnoredLines(st, lines[..|lines| - 1]);
    }
  }

  // ---------------------------------------------------------------------
  // Loading the lines SaveLevels writes
  // ---------------------------------------------------------------------

  /** What the loader does with a line that SaveLevels wrote. */
  function Effect(st: LoadState, l: Line): StepResult {
    match l
    case BoundLine(n) =>
      if n < 0 then Fail(st.(maxLevels := n), NegativeSize)
      else Next(st.(levels := Resize(st.levels, n), maxLevels := n))
    case HeaderLine(_) => Next(st.(levelIndex := st.levelIndex + 1))
    case DataLine(p) =>
      if st.levelIndex < 0 then Next(st)
      else if st.levelIndex < |st.levels|
      then Next(st.(levels := st.levels[st.levelIndex := st.levels[st.levelIndex] + [p]]))
      else Fail(st, LevelOutOfRange)
  }

  lemma StepBoundLine(st: LoadState, n: int)
    ensures Step(st, MaxLevelsLine(n)) == Effect(st, BoundLine(n))
  {
    MaxLevelsLineIsBound(n);
    ScanMaxLevelsLine(n);
  }

  lemma StepHeaderLine(st: LoadState, k: int)
    ensures Step(st, LevelLine(k)) == Effect(st, HeaderLine(k))
  {
    LevelLineIsHeader(k);
  }

  lemma StepDataLine(st: LoadState, p: Platform)
    ensures Step(st, PlatformLine(p)) == Effect(st, DataLine(p))
  {
    PlatformLineIsData(p);
    ScanPlatformLine(p);
  }

  /** The loader reads every line SaveLevels writes as what it was written
      from. */
  lemma StepRender(st: LoadState, l: Line)
    ensures Step(st, Render(l)) == Effect(st, l)
  {
    match l
    case BoundLine(n) => StepBoundLine(st, n);
    case HeaderLine(k) => StepHeaderLine(st, k);
    case DataLine(p) => StepDataLine(st, p);
  }

  /** Run, over lines known by what they say. */
  function RunLines(st: LoadState, lines: seq<Line>): (r: Progress)
    ensures r.Halted? ==> r.line < |lines|
  {
    if lines == [] then Running(st)
    else match RunLines(st, lines[..|lines| - 1])
      case Halted(s, k, f) => Halted(s, k, f)
      case Running(s) =>
        match Effect(s, lines[|lines| - 1])
        case Next(s') => Running(s')
        case Fail(s', f) => Halted(s', |lines| - 1, f)
  }

  lemma {:induction false} RunRendered(st: LoadState, lines: seq<Line>)
    ensures Run(st, RenderAll(lines)) == RunLines(st, lines)
  {
    if lines != [] {
      RenderAllLast(lines);
      RunRendered(st, lines[..|lines| - 1]);
      match RunLines(st, lines[..|lines| - 1])
      case Halted(_, _, _) =>
      case Running(s) => StepRender(s, lines[|lines| - 1]);
    }
  }

  lemma {:induction false} RunLinesConcat(st: LoadState, a: seq<Line>, b: seq<Line>)
    ensures RunLines(st, a + b) ==
      match RunLines(st, a)
      case Running(s) => Shifted(RunLines(s, b), |a|)
      case Halted(_, _, _) => RunLines(st, a)
  {
    if b == [] {
      assert a + b == a;
    } else {
      var b' := b[..|b| - 1];
      assert (a + b)[..|a + b| - 1] == a + b';
      assert (a + b)[|a + b| - 1] == b[|b| - 1];
      RunLinesConcat(st, a, b');
    }
  }

  lemma DataLinesLast(ps: Level)
    requires ps != []
    ensures DataLines(ps)[..|DataLines(ps)| - 1] == DataLines(ps[..|ps| - 1])
    ensures DataLines(ps)[|DataLines(ps)| - 1] == DataLine(ps[|ps| - 1])
  {
  }

  /** The data lines of a level, under a cursor inside the store, are
      appended to that level in order. */
  lemma {:induction false} AppendLines(ls: seq<Level>, n: int, k: int, ps: Level)
    requires 0 <= k < |ls|
    ensures RunLines(LoadState(ls, n, k), DataLines(ps)) ==
      Running(LoadState(ls[k := ls[k] + ps], n, k))
  {
    if ps == [] {
      assert ls[k] + ps == ls[k];
      assert ls[k := ls[k] + ps] == ls;
    } else {
      var ps', q := ps[..|ps| - 1], ps[|ps| - 1];
      AppendLines(ls, n, k, ps');
      DataLinesLast(ps);
      SplitLast(ps);
      var cur := ls[k := ls[k] + ps'];
      assert cur[k] == ls[k] + ps';
      UpdateTwice(ls, k, ls[k] + ps', ls[k] + ps' + [q]);
      AppendAssoc(ls[k], ps', [q]);
    }
  }

  /** Data lines under a cursor past the end of the store stop the load. */
  lemma {:induction false} OverflowLines(ls: seq<Level>, n: int, k: int, ps: Level)
    requires 0 <= |ls| <= k
    requires ps != []
    ensures RunLines(LoadState(ls, n, k), DataLines(ps)).Halted?
    ensures RunLines(LoadState(ls, n, k), DataLines(ps)).fault == LevelOutOfRange
  {
    DataLinesLast(ps);
    if |ps| > 1 {
      OverflowLines(ls, n, k, ps[..|ps| - 1]);
    }
  }

  /** No platform is stored at an index that a store of `n` levels lacks. */
  ghost predicate FitsBound(ls: seq<Level>, n: nat) {
    forall i :: n <= i < |ls| ==> ls[i] == []
  }

  /** A block's header selects the next level; its data lines follow. */
  lemma RunHeader(st: LoadState, k: int)
    ensures RunLines(st, [HeaderLine(k)]) == Running(st.(levelIndex := st.levelIndex + 1))
  {
    assert [HeaderLine(k)][..0] == [];
  }

  lemma BlockRun(st: LoadState, i: nat, ps: Level)
    ensures RunLines(st, Block(i, ps)) ==
      Shifted(RunLines(st.(levelIndex := st.levelIndex + 1), DataLines(ps)), 1)
  {
    RunHeader(st, i + 1);
    RunLinesConcat(st, [HeaderLine(i + 1)], DataLines(ps));
  }

  /** The block of a level below the bound fills that level's slot. */
  lemma BlockLoadInside(ls: seq<Level>, last: Level, n: nat)
    requires |ls| < n
    ensures RunLines(LoadState(Resize(ls, n), n, |ls| - 1), Block(|ls|, last)) ==
      Running(LoadState(Resize(ls + [last], n), n, |ls|))
  {
    var k := |ls|;
    BlockRun(LoadState(Resize(ls, n), n, k - 1), k, last);
    AppendLines(Resize(ls, n), n, k, last);
    ResizeSnoc(ls, last, n);
    assert Resize(ls, n)[k] + last == last;
  }

  /** The block of a level at or beyond the bound stops the load, unless it
      holds no platform. */
  lemma BlockLoadOutside(ls: seq<Level>, last: Level, n: nat)
    requires |ls| >= n
    ensures var r := RunLines(LoadState(Resize(ls, n), n, |ls| - 1), Block(|ls|, last));
      && (r.Running? <==> last == [])
      && (r.Running? ==> r.st == LoadState(Resize(ls + [last], n), n, |ls|))
      && (r.Halted? ==> r.fault == LevelOutOfRange)
  {
    var k := |ls|;
    BlockRun(LoadState(Resize(ls, n), n, k - 1), k, last);
    if last == [] {
      ResizeSnoc(ls, last, n);
      assert DataLines(last) == [];
    } else {
      OverflowLines(Resize(ls, n), n, k, last);
    }
  }

  /** Loading the block of level k, once the blocks before it loaded. */
  lemma BlockLoad(ls: seq<Level>, last: Level, n: nat)
    ensures var k := |ls|;
      var r := RunLines(LoadState(Resize(ls, n), n, k - 1), Block(k, last));
      && (r.Running? <==> k < n || last == [])
      && (r.Running? ==> r.st == LoadState(Resize(ls + [last], n), n, k))
      && (r.Halted? ==> r.fault == LevelOutOfRange)
  {
    if |ls| < n {
      BlockLoadInside(ls, last, n);
    } else {
      BlockLoadOutside(ls, last, n);
    }
  }

  /** What BlocksLoad states of the levels `ls`. */
  ghost predicate LoadsAsSaved(ls: seq<Level>, n: nat) {
    var r := RunLines(LoadState(Resize([], n), n, -1), Blocks(ls));
    && (r.Running? <==> FitsBound(ls, n))
    && (r.Running? ==> r.st == LoadState(Resize(ls, n), n, |ls| - 1))
    && (r.Halted? ==> r.fault == LevelOutOfRange)
  }

  lemma LoadsAsSavedHalted(ls: seq<Level>, last: Level, n: nat)
    requires LoadsAsSaved(ls, n)
    requires RunLines(LoadState(Resize([], n), n, -1), Blocks(ls)).Halted?
    ensures LoadsAsSaved(ls + [last], n)
  {
    var ls1 := ls + [last];
    BlocksSnoc(ls, last);
    RunLinesConcat(LoadState(Resize([], n), n, -1), Blocks(ls), Block(|ls|, last));
    assert !FitsBound(ls1, n) by {
      var i :| n <= i < |ls| && ls[i] != [];
      assert ls1[i] == ls[i];
    }
  }

  lemma LoadsAsSavedRunning(ls: seq<Level>, last: Level, n: nat)
    requires LoadsAsSaved(ls, n)
    requires RunLines(LoadState(Resize([], n), n, -1), Blocks(ls)).Running?
    ensures LoadsAsSaved(ls + [last], n)
  {
    var ls1 := ls + [last];
    BlocksSnoc(ls, last);
    RunLinesConcat(LoadState(Resize([], n), n, -1), Blocks(ls), Block(|ls|, last));
    BlockLoad(ls, last, n);
    assert FitsBound(ls1, n) <==> FitsBound(ls, n) && (|ls| < n || last == []) by {
      assert forall i :: 0 <= i < |ls| ==> ls1[i] == ls[i];
    }
  }

  /** Loading the blocks SaveLevels writes, after the store was resized to
      `n`: it succeeds exactly when every platform lies in a level below `n`,
      and it then yields the saved levels resized to `n`. */
  lemma {:induction false} BlocksLoad(ls: seq<Level>, n: nat)
    ensures LoadsAsSaved(ls, n)
  {
    if ls != [] {
      var k := |ls| - 1;
      SplitLast(ls);
      BlocksLoad(ls[..k], n);
      if RunLines(LoadState(Resize([], n), n, -1), Blocks(ls[..k])).Halted? {
        LoadsAsSavedHalted(ls[..k], ls[k], n);
      } else {
        LoadsAsSavedRunning(ls[..k], ls[k], n);
      }
    }
  }

  /** What loading a saved file yields, for a bound that is not negative:
      success exactly when no platform lies at or beyond the bound, and then
      the saved levels kept up to the bound or padded with empty levels to
      it, with the bound restored. The bound held before the load plays no
      part. */
  lemma SaveThenLoad(ls: seq<Level>, n: int, before: int)
    requires n >= 0
    ensures var r := Load(SaveText(ls, n), before);
      && (r.Running? <==> FitsBound(ls, n))
      && (r.Running? ==> r.st.levels == Resize(ls, n) && r.st.maxLevels == n)
      && (r.Halted? ==> r.fault == LevelOutOfRange)
  {
    RunRendered(Initial(before), SaveLines(ls, n));
    RunLinesConcat(Initial(before), [BoundLine(n)], Blocks(ls));
    assert [BoundLine(n)][..0] == [];
    BlocksLoad(ls, n);
  }

  /** The round trip: with as many levels as the bound, loading what was
      saved gives back every level, platform by platform, and the bound. */
  lemma RoundTrip(ls: seq<Level>, before: int)
    ensures Load(SaveText(ls, |ls|), before).Running?
    ensures Load(SaveText(ls, |ls|), before).st.levels == ls
    ensures Load(SaveText(ls, |ls|), before).st.maxLevels == |ls|
  {
    SaveThenLoad(ls, |ls|, before);
    assert Resize(ls, |ls|) == ls;
  }

  /** A negative bound in the first line stops the load there. */
  lemma NegativeBoundStops(ls: seq<Level>, n: int, before: int)
    requires n < 0
    ensures Load(SaveText(ls, n), before) == Halted(LoadState([], n, -1), 0, NegativeSize)
  {
    RunRendered(Initial(before), SaveLines(ls, n));
    RunLinesConcat(Initial(before), [BoundLine(n)], Blocks(ls));
    assert [BoundLine(n)][..0] == [];
  }

  // ---------------------------------------------------------------------
  // Layout of the saved text
  // ---------------------------------------------------------------------

  lemma {:induction false} BlocksLength(ls: seq<Level>)
    ensures |Blocks(ls)| == |ls| + PlatformCount(ls)
  {
    if ls != [] {
      BlocksLength(ls[..|ls| - 1]);
    }
  }

  /** Line t of the block of level i sits in the blocks of all levels right
      after the blocks of the levels before it. */
  lemma {:induction false} BlocksAt(ls: seq<Level>, i: nat, t: nat)
    requires i < |ls| && t < |Block(i, ls[i])|
    ensures |Blocks(ls[..i])| + t < |Blocks(ls)|
    ensures Blocks(ls)[|Blocks(ls[..i])| + t] == Block(i, ls[i])[t]
  {
    var k := |ls| - 1;
    var ls' := ls[..k];
    if i == k {
      AppendAtRight(Blocks(ls'), Block(k, ls[k]), t);
    } else {
      BlocksAt(ls', i, t);
      TakeTake(ls, i, k);
      assert ls'[i] == ls[i];
      AppendAtLeft(Blocks(ls'), Block(k, ls[k]), |Blocks(ls[..i])| + t);
    }
  }

  /** Line t of the block of level i among the saved lines. */
  lemma SaveLinesAt(ls: seq<Level>, n: int, i: nat, t: nat)
    requires i < |ls| && t < |Block(i, ls[i])|
    ensures BlockStart(ls, i) + t < |SaveLines(ls, n)|
    ensures SaveLines(ls, n)[BlockStart(ls, i) + t] == Block(i, ls[i])[t]
  {
    BlocksAt(ls, i, t);
    AppendAtRight([BoundLine(n)], Blocks(ls), |Blocks(ls[..i])| + t);
  }

  /** The layout of a saved file: the bound line first, then for each level
      in index order its header `Level i+1:` followed by one line per
      platform of that level, in list order, and nothing else. */
  lemma SaveLayout(ls: seq<Level>, n: int, i: nat)
    requires i < |ls|
    ensures BlockStart(ls, i) == 1 + i + PlatformCount(ls[..i])
    ensures BlockStart(ls, i) + |ls[i]| < |SaveText(ls, n)|
    ensures SaveText(ls, n)[BlockStart(ls, i)] == LevelLine(i + 1)
    ensures forall j :: 0 <= j < |ls[i]| ==>
      SaveText(ls, n)[BlockStart(ls, i) + 1 + j] == PlatformLine(ls[i][j])
  {
    BlocksLength(ls[..i]);
    SaveHeaderAt(ls, n, i);
    forall j | 0 <= j < |ls[i]|
      ensures SaveText(ls, n)[BlockStart(ls, i) + 1 + j] == PlatformLine(ls[i][j])
    {
      SavePlatformAt(ls, n, i, j);
    }
  }

  lemma SaveHeaderAt(ls: seq<Level>, n: int, i: nat)
    requires i < |ls|
    ensures BlockStart(ls, i) + |ls[i]| < |SaveText(ls, n)|
    ensures SaveText(ls, n)[BlockStart(ls, i)] == LevelLine(i + 1)
  {
    SaveLinesAt(ls, n, i, 0);
    SaveLinesAt(ls, n, i, |ls[i]|);
    RenderAllAtHeader(SaveLines(ls, n), BlockStart(ls, i), i + 1);
  }

  lemma SaveLinesDataAt(ls: seq<Level>, n: int, i: nat, j: nat)
    requires i < |ls| && j < |ls[i]|
    ensures BlockStart(ls, i) + 1 + j < |SaveLines(ls, n)|
    ensures SaveLines(ls, n)[BlockStart(ls, i) + 1 + j] == DataLine(ls[i][j])
  {
    DataLinesAt(ls[i], j);
    SaveLinesAt(ls, n, i, 1 + j);
    assert BlockStart(ls, i) + 1 + j == BlockStart(ls, i) + (1 + j);
  }

  lemma SavePlatformAt(ls: seq<Level>, n: int, i: nat, j: nat)
    requires i < |ls| && j < |ls[i]|
    ensures BlockStart(ls, i) + 1 + j < |SaveText(ls, n)|
    ensures SaveText(ls, n)[BlockStart(ls, i) + 1 + j] == PlatformLine(ls[i][j])
  {
    SaveLinesDataAt(ls, n, i, j);
    RenderAllAtData(SaveLines(ls, n), BlockStart(ls, i) + 1 + j, ls[i][j]);
  }

  /** The number of lines the loader takes as level headers. */
  function HeaderCount(lines: seq<string>): nat {
    if lines == [] then 0
    else HeaderCount(lines[..|lines| - 1]) + if IsLevelHeader(lines[|lines| - 1]) then 1 else 0
  }

  /** Each header moves the cursor by one, and nothing else moves it. */
  lemma {:induction false} RunCursor(st: LoadState, lines: seq<string>)
    ensures Run(st, lines).Running? ==>
      Run(st, lines).st.levelIndex == st.levelIndex + HeaderCount(lines)
  {
    if lines != [] {
      RunCursor(st, lines[..|lines| - 1]);
    }
  }

  /** The number of header lines among lines known by what they say. */
  function Headers(lines: seq<Line>): nat {
    if lines == [] then 0
    else Headers(lines[..|lines| - 1]) + if lines[|lines| - 1].HeaderLine? then 1 else 0
  }

  /** The loader takes exactly the header lines SaveLevels writes as
      headers. */
  lemma IsLevelHeaderRender(l: Line)
    ensures IsLevelHeader(Render(l)) <==> l.HeaderLine?
  {
    match l
    case BoundLine(n) => MaxLevelsLineIsBound(n);
    case HeaderLine(k) => LevelLineIsHeader(k);
    case DataLine(p) => PlatformLineIsData(p);
  }

  lemma {:induction false} HeaderCountRendered(lines: seq<Line>)
    ensures HeaderCount(RenderAll(lines)) == Headers(lines)
  {
    if lines != [] {
      RenderAllLast(lines);
      HeaderCountRendered(lines[..|lines| - 1]);
      IsLevelHeaderRender(lines[|lines| - 1]);
    }
  }

  lemma {:induction false} HeadersConcat(a: seq<Line>, b: seq<Line>)
    ensures Headers(a + b) == Headers(a) + Headers(b)
  {
    if b == [] {
      assert a + b == a;
    } else {
      assert (a + b)[..|a + b| - 1] == a + b[..|b| - 1];
      HeadersConcat(a, b[..|b| - 1]);
    }
  }

  lemma {:induction false} DataLinesHaveNoHeader(ps: Level)
    ensures Headers(DataLines(ps)) == 0
  {
    if ps != [] {
      DataLinesLast(ps);
      DataLinesHaveNoHeader(ps[..|ps| - 1]);
    }
  }

  lemma {:induction false} BlocksHeaders(ls: seq<Level>)
    ensures Headers(Blocks(ls)) == |ls|
  {
    if ls != [] {
      var k := |ls| - 1;
      BlocksHeaders(ls[..k]);
      HeadersConcat(Blocks(ls[..k]), Block(k, ls[k]));
      HeadersConcat([HeaderLine(k + 1)], DataLines(ls[k]));
      assert [HeaderLine(k + 1)][..0] == [];
      DataLinesHaveNoHeader(ls[k]);
    }
  }

  /** A saved file holds one header per stored level, whatever the bound. */
  lemma SaveHeaderCount(ls: seq<Level>, n: int)
    ensures HeaderCount(SaveText(ls, n)) == |ls|
  {
    HeaderCountRendered(SaveLines(ls, n));
    HeadersConcat([BoundLine(n)], Blocks(ls));
    assert [BoundLine(n)][..0] == [];
    BlocksHeaders(ls);
  }
}
