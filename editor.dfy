/** The editor's state and what its controls do to it, frame step by frame
    step: the save and load buttons, the colour buttons, the sliders, the
    add-platform button, the mouse pass over the current level, and the
    drag update. Window, rendering and widget code are not modelled; what
    the widgets report (a button pressed, a slider value, the mouse over a
    platform, a click, the mouse delta, whether a file opened) comes in as
    parameters. */
module Editor {
  import opened Text
  import opened Levels
  import opened Seqs
  import opened LevelLines
  import opened LevelFile
  import opened Canvas

  /** The three colour buttons. */
  datatype ColorButton = Green | Blue | Red

  /** The colour a button selects: fully opaque, exactly one of red, green
      and blue at full strength. */
  function ButtonColor(b: ColorButton): (c: Color)
    ensures c.a == 1
    ensures c.r + c.g + c.b == 1 && 0 <= c.r && 0 <= c.g && 0 <= c.b
    ensures c.g == 1 <==> b == Green
    ensures c.b == 1 <==> b == Blue
    ensures c.r == 1 <==> b == Red
  {
    match b
    case Green => Color(0, 1, 0, 1)
    case Blue => Color(0, 0, 1, 1)
    case Red => Color(1, 0, 0, 1)
  }

  /** What the add-platform button creates: a platform at (100, 100) with
      the size set on the sliders and the selected colour. */
  function NewPlatform(width: int, height: int, color: Color): (p: Platform)
    ensures p.x == 100 && p.y == 100
    ensures p.width == width && p.height == height && p.color == color
  {
    Platform(100, 100, width, height, color)
  }

  /** Adding a platform to one level adds one to the store's platform count. */
  lemma {:induction false} AddedPlatformCount(ls: seq<Level>, k: nat, p: Platform)
    requires k < |ls|
    ensures PlatformCount(ls[k := ls[k] + [p]]) == PlatformCount(ls) + 1
  {
    var n := |ls| - 1;
    var ls' := ls[k := ls[k] + [p]];
    assert ls'[..n] == if k < n then ls[..n][k := ls[k] + [p]] else ls[..n];
    if k < n {
      AddedPlatformCount(ls[..n], k, p);
    }
  }

  class LevelEditor {
    /** `levels`: one list of platforms per level; `maxLevels`: the bound
        MAX_LEVELS, which only a load lines up with the number of levels. */
    var levels: seq<Level>
    var maxLevels: int
    var currentLevel: int
    var platformWidth: int
    var platformHeight: int
    var platformColor: Color
    var dragging: bool
    var draggedPlatform: int

    /** Dragging is on exactly when a platform index is recorded. */
    ghost predicate Valid()
      reads this
    {
      (dragging <==> draggedPlatform != -1) && draggedPlatform >= -1
    }

    /** The state before the first frame: ten empty levels, the first one
        selected, a zero-sized green platform brush, nothing dragged. */
    constructor ()
      ensures Valid()
      ensures levels == Empties(10) && maxLevels == 10 && currentLevel == 0
      ensures platformWidth == 0 && platformHeight == 0
      ensures platformColor == ButtonColor(Green)
      ensures !dragging && draggedPlatform == -1
    {
      maxLevels := 10;
      currentLevel := 0;
      platformWidth := 0;
      platformHeight := 0;
      levels := Resize([], 10);
      platformColor := ButtonColor(Green);
      dragging := false;
      draggedPlatform := -1;
    }

    /** The save button: when the file opens, the lines written are the
        bound, then each level's header and its platforms; when it does
        not, nothing is written. The editor's state does not change. */
    method SaveLevels(isOpen: bool) returns (written: Option<seq<string>>)
      ensures written == (if isOpen then Some(SaveText(levels, maxLevels)) else None)
    {
      if !isOpen {
        return None;
      }
      var out := [MaxLevelsLine(maxLevels)];
      assert out == RenderAll(SaveLines(levels[..0], maxLevels));
      var i := 0;
      while i < |levels|
        invariant 0 <= i <= |levels|
        invariant out == RenderAll(SaveLines(levels[..i], maxLevels))
      {
        var ps := levels[i];
        RenderAllSnoc(SaveLines(levels[..i], maxLevels), HeaderLine(i + 1));
        out := out + [LevelLine(i + 1)];
        var j := 0;
        assert ps[..0] == [];
        while j < |ps|
          invariant 0 <= j <= |ps|
          invariant out == RenderAll(SaveLines(levels[..i], maxLevels) + Block(i, ps[..j]))
        {
          BlockStep(i, ps, j);
          AppendAssoc(SaveLines(levels[..i], maxLevels), Block(i, ps[..j]), [DataLine(ps[j])]);
          RenderAllSnoc(SaveLines(levels[..i], maxLevels) + Block(i, ps[..j]), DataLine(ps[j]));
          out := out + [PlatformLine(ps[j])];
          j := j + 1;
        }
        assert ps[..j] == ps;
        SaveLinesStep(levels, maxLevels, i);
        i := i + 1;
      }
      assert levels[..i] == levels;
      return Some(out);
    }

    /** The load button. When the file does not open nothing changes. When
        it does, the store is cleared and the lines are run in order: that
        is `Load`, whose properties (round trip, layout, faults) are proved
        in LevelFile. The store and bound end as the load left them. */
    method LoadLevels(file: Option<seq<string>>) returns (result: Option<Progress>)
      modifies this`levels, this`maxLevels
      ensures file.None? ==> result.None? && levels == old(levels) && maxLevels == old(maxLevels)
      ensures file.Some? ==> result == Some(Load(file.value, old(maxLevels)))
      ensures result.Some? ==> levels == result.value.st.levels && maxLevels == result.value.st.maxLevels
    {
      if file.None? {
        return None;
      }
      var lines := file.value;
      ghost var start := Initial(maxLevels);
      levels := [];
      var levelIndex := -1;
      var k := 0;
      while k < |lines|
        invariant 0 <= k <= |lines|
        invariant Run(start, lines[..k]) == Running(LoadState(levels, maxLevels, levelIndex))
      {
        var line := lines[k];
        ghost var st := LoadState(levels, maxLevels, levelIndex);
        RunStep(start, lines, k);
        if Contains(line, MaxLevelsKey) {
          maxLevels := match ScanMaxLevels(line) case Some(v) => v case None => maxLevels;
          if maxLevels < 0 {
            assert Step(st, line) == Fail(LoadState(levels, maxLevels, levelIndex), NegativeSize);
            result := Some(Halted(LoadState(levels, maxLevels, levelIndex), k, NegativeSize));
            RunHaltedPrefix(start, lines, k + 1);
            return;
          }
          levels := Resize(levels, maxLevels);
          assert Step(st, line) == Next(LoadState(levels, maxLevels, levelIndex));
        } else if Contains(line, LevelKey) {
          levelIndex := levelIndex + 1;
          assert Step(st, line) == Next(LoadState(levels, maxLevels, levelIndex));
        } else if line != [] && levelIndex >= 0 {
          var p := ScanPlatform(line);
          if p.None? {
            assert Step(st, line) == Fail(st, MalformedPlatform);
            result := Some(Halted(LoadState(levels, maxLevels, levelIndex), k, MalformedPlatform));
            RunHaltedPrefix(start, lines, k + 1);
            return;
          }
          if levelIndex >= |levels| {
            assert Step(st, line) == Fail(st, LevelOutOfRange);
            result := Some(Halted(LoadState(levels, maxLevels, levelIndex), k, LevelOutOfRange));
            RunHaltedPrefix(start, lines, k + 1);
            return;
          }
          levels := levels[levelIndex := levels[levelIndex] + [p.value]];
          assert Step(st, line) == Next(LoadState(levels, maxLevels, levelIndex));
        } else {
          assert Step(st, line) == Next(st);
        }
        k := k + 1;
      }
      assert lines[..k] == lines;
      result := Some(Running(LoadState(levels, maxLevels, levelIndex)));
    }

    /** A colour button: selects the colour of platforms added from now on. */
    method PressColorButton(b: ColorButton)
      modifies this`platformColor
      ensures platformColor == ButtonColor(b)
    {
      platformColor := ButtonColor(b);
    }

    /** The four sliders, with the values they report. Moving the bound
        slider does not resize the store. */
    method MoveSliders(bound: int, level: int, width: int, height: int)
      requires 0 <= bound <= 200
      requires 0 <= level && (level < bound || level == 0)
      requires 0 <= width <= 800 && 0 <= height <= 600
      modifies this`maxLevels, this`currentLevel, this`platformWidth, this`platformHeight
      ensures maxLevels == bound && currentLevel == level
      ensures platformWidth == width && platformHeight == height
      ensures levels == old(levels)
    {
      maxLevels := bound;
      currentLevel := level;
      platformWidth := width;
      platformHeight := height;
    }

    /** The add-platform button: appends a new platform to the current
        level and leaves every other level as it was. */
    method AddPlatform()
      requires 0 <= currentLevel < |levels|
      modifies this`levels
      ensures |levels| == |old(levels)|
      ensures levels[currentLevel] ==
        old(levels)[currentLevel] + [NewPlatform(platformWidth, platformHeight, platformColor)]
      ensures forall k :: 0 <= k < |levels| && k != currentLevel ==> levels[k] == old(levels)[k]
      ensures PlatformCount(levels) == PlatformCount(old(levels)) + 1
    {
      var p := NewPlatform(platformWidth, platformHeight, platformColor);
      AddedPlatformCount(levels, currentLevel, p);
      levels := levels[currentLevel := levels[currentLevel] + [p]];
    }

    /** The pass over the current level's platforms in one frame. Every
        platform under the mouse is erased on a right click, so the level
        becomes `Kept`; on a left click that hits, dragging starts at
        `Target`, the index the last hit had when it was visited. Without a
        hit the drag state stays as it was. */
    method MousePass(hovered: Platform -> bool, leftClicked: bool, rightClicked: bool)
      requires Valid()
      requires 0 <= currentLevel < |levels|
      modifies this`levels, this`dragging, this`draggedPlatform
      ensures Valid()
      ensures |levels| == |old(levels)|
      ensures levels[currentLevel] ==
        if rightClicked then Kept(hovered, old(levels)[currentLevel]) else old(levels)[currentLevel]
      ensures forall k :: 0 <= k < |levels| && k != currentLevel ==> levels[k] == old(levels)[k]
      ensures leftClicked && LastHit(hovered, old(levels)[currentLevel]) >= 0 ==>
        dragging && draggedPlatform == Target(hovered, rightClicked, old(levels)[currentLevel])
      ensures !(leftClicked && LastHit(hovered, old(levels)[currentLevel]) >= 0) ==>
        dragging == old(dragging) && draggedPlatform == old(draggedPlatform)
    {
      var level, hit, target := VisitPlatforms(hovered, leftClicked, rightClicked,
        levels[currentLevel], dragging, draggedPlatform);
      levels := levels[currentLevel := level];
      dragging, draggedPlatform := hit, target;
    }

    /** The drag step at the end of a frame. While a platform is dragged it
        moves by the mouse delta, and nothing else on the level moves; when
        the left button is no longer down, dragging stops and the index is
        cleared. */
    method DragUpdate(dx: int, dy: int, buttonDown: bool)
      requires Valid()
      requires 0 <= currentLevel < |levels|
      requires dragging ==> draggedPlatform < |levels[currentLevel]|
      modifies this`levels, this`dragging, this`draggedPlatform
      ensures Valid()
      ensures |levels| == |old(levels)|
      ensures forall k :: 0 <= k < |levels| && k != currentLevel ==> levels[k] == old(levels)[k]
      ensures |levels[currentLevel]| == |old(levels)[currentLevel]|
      ensures old(dragging) ==>
        levels[currentLevel][old(draggedPlatform)] ==
          Moved(old(levels)[currentLevel][old(draggedPlatform)], dx, dy)
      ensures forall k :: 0 <= k < |levels[currentLevel]| && !(old(dragging) && k == old(draggedPlatform)) ==>
        levels[currentLevel][k] == old(levels)[currentLevel][k]
      ensures old(dragging) && !buttonDown ==> !dragging && draggedPlatform == -1
      ensures !(old(dragging) && !buttonDown) ==>
        dragging == old(dragging) && draggedPlatform == old(draggedPlatform)
    {
      if dragging && draggedPlatform != -1 {
        var cl, d := currentLevel, draggedPlatform;
        var p := levels[cl][d];
        levels := levels[cl := levels[cl][d := p.(x := p.x + dx, y := p.y + dy)]];
        if !buttonDown {
          dragging := false;
          draggedPlatform := -1;
        }
      }
    }
  }
}
