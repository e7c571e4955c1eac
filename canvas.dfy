/** What one frame of mouse input does to the current level on the canvas:
    a right click deletes every platform under the mouse, a left click picks
    the last platform under the mouse for dragging, and a drag moves that
    platform by the mouse's movement. Whether the mouse is over a platform
    depends only on that platform's rectangle, so it is given as a
    predicate on platforms. */
module Canvas {
  import opened Levels
  import opened Seqs

  /** The platforms a right click leaves: those not under the mouse, in
      their order. */
  function Kept(hovered: Platform -> bool, ps: Level): (r: Level)
    ensures |r| <= |ps|
  {
    if ps == [] then []
    else Kept(hovered, ps[..|ps| - 1]) + (if hovered(ps[|ps| - 1]) then [] else [ps[|ps| - 1]])
  }

  /** Index of the last platform under the mouse, or -1 when there is none. */
  function LastHit(hovered: Platform -> bool, ps: Level): (r: int)
    ensures -1 <= r < |ps|
    ensures r >= 0 ==> hovered(ps[r])
  {
    if ps == [] then -1
    else if hovered(ps[|ps| - 1]) then |ps| - 1
    else LastHit(hovered, ps[..|ps| - 1])
  }

  /** The index a left click records: the pass visits the platforms in
      order and remembers the position, at the time of the visit, of each
      one under the mouse. With a right click in the same frame the earlier
      hits have already been erased, which shifts that position left. */
  function Target(hovered: Platform -> bool, erasing: bool, ps: Level): int {
    if ps == [] then -1
    else if hovered(ps[|ps| - 1]) then
      (if erasing then |Kept(hovered, ps[..|ps| - 1])| else |ps| - 1)
    else Target(hovered, erasing, ps[..|ps| - 1])
  }

  /** Where a platform goes when dragged by the mouse movement (dx, dy). */
  function Moved(p: Platform, dx: int, dy: int): (q: Platform)
    ensures q.width == p.width && q.height == p.height && q.color == p.color
  {
    p.(x := p.x + dx, y := p.y + dy)
  }

  // ---------------------------------------------------------------------
  // The pass, one platform at a time
  // ---------------------------------------------------------------------

  lemma KeptStep(hovered: Platform -> bool, ps: Level, j: nat)
    requires j < |ps|
    ensures Kept(hovered, ps[..j + 1]) ==
      Kept(hovered, ps[..j]) + (if hovered(ps[j]) then [] else [ps[j]])
  {
    TakeTake(ps, j, j + 1);
  }

  lemma TargetStep(hovered: Platform -> bool, erasing: bool, ps: Level, j: nat)
    requires j < |ps|
    ensures Target(hovered, erasing, ps[..j + 1]) ==
      if hovered(ps[j]) then (if erasing then |Kept(hovered, ps[..j])| else j)
      else Target(hovered, erasing, ps[..j])
  {
    TakeTake(ps, j, j + 1);
  }

  lemma LastHitStep(hovered: Platform -> bool, ps: Level, j: nat)
    requires j < |ps|
    ensures LastHit(hovered, ps[..j + 1]) == if hovered(ps[j]) then j else LastHit(hovered, ps[..j])
  {
    TakeTake(ps, j, j + 1);
  }

  /** The part of the level the pass has been over after visiting the first
      j platforms of `ps`, as it stands then. */
  function Visited(hovered: Platform -> bool, erasing: bool, ps: Level, j: nat): Level
    requires j <= |ps|
  {
    if erasing then Kept(hovered, ps[..j]) else ps[..j]
  }

  /** One visit of the pass: the platform visited is dropped from the part
      already visited when it is hit by a right click, and kept otherwise;
      when it is hit it becomes the last hit, at the position it has then. */
  lemma PassStep(hovered: Platform -> bool, erasing: bool, ps: Level, j: nat, done: Level)
    requires j < |ps| && done == Visited(hovered, erasing, ps, j)
    ensures Visited(hovered, erasing, ps, j + 1) ==
      if erasing && hovered(ps[j]) then done else done + [ps[j]]
    ensures Target(hovered, erasing, ps[..j + 1]) ==
      if hovered(ps[j]) then |done| else Target(hovered, erasing, ps[..j])
    ensures LastHit(hovered, ps[..j + 1]) >= 0 <==> hovered(ps[j]) || LastHit(hovered, ps[..j]) >= 0
  {
    KeptStep(hovered, ps, j);
    TargetStep(hovered, erasing, ps, j);
    LastHitStep(hovered, ps, j);
    TakeSnoc(ps, j);
  }

  /** What holds after the pass has visited the first j platforms of `ps`:
      the visited part of the level stands as the pass left it, the rest is
      untouched, the index is the number of platforms left in the visited
      part, and the drag state records the last hit so far, if any. */
  predicate Visiting(hovered: Platform -> bool, leftClicked: bool, rightClicked: bool,
                     ps: Level, dragging: bool, dragged: int,
                     j: nat, level: Level, nowDragging: bool, index: int, i: int)
  {
    j <= |ps| &&
    i == |Visited(hovered, rightClicked, ps, j)| &&
    level == Visited(hovered, rightClicked, ps, j) + ps[j..] &&
    (leftClicked && LastHit(hovered, ps[..j]) >= 0 ==>
      nowDragging && index == Target(hovered, rightClicked, ps[..j]) && index >= 0) &&
    (!(leftClicked && LastHit(hovered, ps[..j]) >= 0) ==>
      nowDragging == dragging && index == dragged)
  }

  /** One visit keeps `Visiting`: a platform under the mouse is recorded by
      a left click at the index it has, and erased by a right click, after
      which the index stays put; any other platform is stepped over. */
  lemma VisitOne(hovered: Platform -> bool, leftClicked: bool, rightClicked: bool,
                 ps: Level, dragging: bool, dragged: int,
                 j: nat, level: Level, nowDragging: bool, index: int, i: int,
                 level': Level, nowDragging': bool, index': int, i': int)
    requires Visiting(hovered, leftClicked, rightClicked, ps, dragging, dragged,
                      j, level, nowDragging, index, i)
    requires 0 <= i < |level|
    requires level' ==
      if rightClicked && hovered(level[i]) then level[..i] + level[i + 1..] else level
    requires i' == if rightClicked && hovered(level[i]) then i else i + 1
    requires nowDragging' == if leftClicked && hovered(level[i]) then true else nowDragging
    requires index' == if leftClicked && hovered(level[i]) then i else index
    ensures Visiting(hovered, leftClicked, rightClicked, ps, dragging, dragged,
                     j + 1, level', nowDragging', index', i')
  {
    var done := Visited(hovered, rightClicked, ps, j);
    SeamAt(done, ps, j);
    PassStep(hovered, rightClicked, ps, j, done);
    if rightClicked && hovered(ps[j]) {
      EraseAt(done, ps, j);
    } else {
      KeepAt(done, ps, j);
    }
  }

  /** The loop over a level's platforms in one frame, given the drag state
      before it. The index walks the level as it is being edited: after an
      erase it steps back, so that the platform that moved into the erased
      slot is visited next. */
  method VisitPlatforms(hovered: Platform -> bool, leftClicked: bool, rightClicked: bool,
                        ps: Level, dragging: bool, dragged: int)
    returns (level: Level, nowDragging: bool, index: int)
    ensures level == if rightClicked then Kept(hovered, ps) else ps
    ensures leftClicked && LastHit(hovered, ps) >= 0 ==>
      nowDragging && index == Target(hovered, rightClicked, ps)
    ensures !(leftClicked && LastHit(hovered, ps) >= 0) ==>
      nowDragging == dragging && index == dragged
    ensures leftClicked && LastHit(hovered, ps) >= 0 ==> index >= 0
  {
    level, nowDragging, index := ps, dragging, dragged;
    ghost var j := 0;
    var i := 0;
    while i < |level|
      invariant Visiting(hovered, leftClicked, rightClicked, ps, dragging, dragged,
                         j, level, nowDragging, index, i)
      decreases |ps| - j
    {
      ghost var level0, nowDragging0, index0, i0 := level, nowDragging, index, i;
      if hovered(level[i]) {
        if leftClicked {
          nowDragging, index := true, i;
        }
        if rightClicked {
          level := level[..i] + level[i + 1..];
          i := i - 1;
        }
      }
      i := i + 1;
      VisitOne(hovered, leftClicked, rightClicked, ps, dragging, dragged,
               j, level0, nowDragging0, index0, i0, level, nowDragging, index, i);
      j := j + 1;
    }
    assert ps[..j] == ps;
  }

  // ---------------------------------------------------------------------
  // Deletion keeps exactly the platforms not under the mouse, in order
  // ---------------------------------------------------------------------

  /** A platform survives a right click exactly when it was on the level and
      not under the mouse. */
  lemma {:induction false} KeptMembers(hovered: Platform -> bool, ps: Level, p: Platform)
    ensures p in Kept(hovered, ps) <==> p in ps && !hovered(p)
  {
    if ps != [] {
      var init, last := ps[..|ps| - 1], ps[|ps| - 1];
      KeptMembers(hovered, init, p);
      SplitLast(ps);
      assert p in ps <==> p in init || p == last;
    }
  }

  /** Deleting from two pieces is deleting from each: the survivors keep
      their relative order. */
  lemma {:induction false} KeptConcat(hovered: Platform -> bool, a: Level, b: Level)
    ensures Kept(hovered, a + b) == Kept(hovered, a) + Kept(hovered, b)
  {
    if b != [] {
      var b', last := b[..|b| - 1], b[|b| - 1];
      KeptConcat(hovered, a, b');
      assert (a + b)[..|a + b| - 1] == a + b';
      assert (a + b)[|a + b| - 1] == last;
      AppendAssoc(Kept(hovered, a), Kept(hovered, b'), if hovered(last) then [] else [last]);
    } else {
      assert a + b == a;
    }
  }

  /** With nothing under the mouse a right click deletes nothing. */
  lemma {:induction false} KeptNoHit(hovered: Platform -> bool, ps: Level)
    requires LastHit(hovered, ps) == -1
    ensures Kept(hovered, ps) == ps
  {
    if ps != [] {
      KeptNoHit(hovered, ps[..|ps| - 1]);
      SplitLast(ps);
    }
  }

  /** Positions below n of platforms under the mouse. */
  function HitsBelow(hovered: Platform -> bool, ps: Level, n: nat): set<int>
    requires n <= |ps|
  {
    set k | 0 <= k < n && hovered(ps[k])
  }

  lemma HitsBelowStep(hovered: Platform -> bool, ps: Level, n: nat)
    requires n < |ps|
    ensures HitsBelow(hovered, ps, n + 1) ==
      if hovered(ps[n]) then HitsBelow(hovered, ps, n) + {n} else HitsBelow(hovered, ps, n)
    ensures n !in HitsBelow(hovered, ps, n)
  {
  }

  lemma {:induction false} KeptCountBelow(hovered: Platform -> bool, ps: Level, n: nat)
    requires n <= |ps|
    ensures |Kept(hovered, ps[..n])| == n - |HitsBelow(hovered, ps, n)|
  {
    if n > 0 {
      KeptCountBelow(hovered, ps, n - 1);
      KeptStep(hovered, ps, n - 1);
      HitsBelowStep(hovered, ps, n - 1);
    }
  }

  /** Every platform under the mouse is deleted, so the level shrinks by
      exactly the number of platforms hit. */
  lemma KeptCount(hovered: Platform -> bool, ps: Level)
    ensures |Kept(hovered, ps)| == |ps| - |set k | 0 <= k < |ps| && hovered(ps[k])|
  {
    KeptCountBelow(hovered, ps, |ps|);
    assert ps[..|ps|] == ps;
  }

  // ---------------------------------------------------------------------
  // The recorded drag target
  // ---------------------------------------------------------------------

  /** The recorded index is that of the last platform hit: its own index
      without a right click, and with one the number of survivors before
      it. */
  lemma {:induction false} TargetIsLastHit(hovered: Platform -> bool, erasing: bool, ps: Level)
    ensures var k := LastHit(hovered, ps);
      Target(hovered, erasing, ps) ==
        if k < 0 then -1 else if erasing then |Kept(hovered, ps[..k])| else k
  {
    if ps != [] && !hovered(ps[|ps| - 1]) {
      var init := ps[..|ps| - 1];
      TargetIsLastHit(hovered, erasing, init);
      var k := LastHit(hovered, init);
      if k >= 0 {
        TakeTake(ps, k, |ps| - 1);
      }
    }
  }

  lemma KeptOne(hovered: Platform -> bool, p: Platform)
    ensures Kept(hovered, [p]) == if hovered(p) then [] else [p]
  {
    assert [p][..0] == [];
  }

  /** No platform behind the last hit is under the mouse. */
  lemma {:induction false} LastHitIsLast(hovered: Platform -> bool, ps: Level)
    ensures forall k :: LastHit(hovered, ps) < k < |ps| ==> !hovered(ps[k])
  {
    if ps != [] && !hovered(ps[|ps| - 1]) {
      var init := ps[..|ps| - 1];
      LastHitIsLast(hovered, init);
      forall k | LastHit(hovered, ps) < k < |ps| - 1 ensures !hovered(ps[k]) {
        assert ps[k] == init[k];
      }
    }
  }

  /** Nothing behind the last hit is under the mouse. */
  lemma NoHitAfterLast(hovered: Platform -> bool, ps: Level)
    requires LastHit(hovered, ps) >= 0
    ensures LastHit(hovered, ps[LastHit(hovered, ps) + 1..]) == -1
  {
    var rest := ps[LastHit(hovered, ps) + 1..];
    LastHitIsLast(hovered, ps);
    forall t | 0 <= t < |rest| ensures !hovered(rest[t]) {
      assert rest[t] == ps[LastHit(hovered, ps) + 1 + t];
    }
  }

  /** After a right click everything behind the last hit survives. */
  lemma KeptAfterLastHit(hovered: Platform -> bool, ps: Level)
    requires LastHit(hovered, ps) >= 0
    ensures var k := LastHit(hovered, ps);
      Kept(hovered, ps) == Kept(hovered, ps[..k]) + ps[k + 1..]
  {
    var k := LastHit(hovered, ps);
    var rest := ps[k + 1..];
    NoHitAfterLast(hovered, ps);
    KeptNoHit(hovered, rest);
    KeptOne(hovered, ps[k]);
    KeptConcat(hovered, [ps[k]], rest);
    assert [] + rest == rest;
    KeptConcat(hovered, ps[..k], [ps[k]] + rest);
    SplitAt(ps, k);
  }

  /** The recorded index stays within [-1, |level|]: below the length of the
      level without a right click, and at most the length of what is left
      with one. It equals that length when the last platform hit was also
      the last one left, so it then names no platform. */
  lemma TargetBounds(hovered: Platform -> bool, erasing: bool, ps: Level)
    ensures -1 <= Target(hovered, erasing, ps)
    ensures !erasing ==> Target(hovered, erasing, ps) < |ps|
    ensures erasing ==> Target(hovered, erasing, ps) <= |Kept(hovered, ps)|
    ensures erasing && LastHit(hovered, ps) >= 0 ==>
      (Target(hovered, erasing, ps) == |Kept(hovered, ps)| <==> LastHit(hovered, ps) == |ps| - 1)
  {
    TargetIsLastHit(hovered, erasing, ps);
    var k := LastHit(hovered, ps);
    if k >= 0 {
      KeptAfterLastHit(hovered, ps);
    }
  }

  /** After a right click the recorded index, when it names a platform,
      names the one that followed the last platform hit. */
  lemma TargetAfterErase(hovered: Platform -> bool, ps: Level)
    requires 0 <= Target(hovered, true, ps) < |Kept(hovered, ps)|
    ensures LastHit(hovered, ps) + 1 < |ps|
    ensures Kept(hovered, ps)[Target(hovered, true, ps)] == ps[LastHit(hovered, ps) + 1]
  {
    TargetIsLastHit(hovered, true, ps);
    var k := LastHit(hovered, ps);
    KeptAfterLastHit(hovered, ps);
    AppendAtRight(Kept(hovered, ps[..k]), ps[k + 1..], 0);
  }

  // ---------------------------------------------------------------------
  // Dragging over several frames
  // ---------------------------------------------------------------------

  /** Where a platform ends after being dragged through the mouse
      movements of successive frames. */
  function Dragged(p: Platform, deltas: seq<(int, int)>): Platform {
    if deltas == [] then p
    else Moved(Dragged(p, deltas[..|deltas| - 1]), deltas[|deltas| - 1].0, deltas[|deltas| - 1].1)
  }

  function SumX(deltas: seq<(int, int)>): int {
    if deltas == [] then 0 else SumX(deltas[..|deltas| - 1]) + deltas[|deltas| - 1].0
  }

  function SumY(deltas: seq<(int, int)>): int {
    if deltas == [] then 0 else SumY(deltas[..|deltas| - 1]) + deltas[|deltas| - 1].1
  }

  /** A drag over many frames moves the platform by the total mouse
      movement and leaves its size and colour alone. Each DragUpdate with
      the button held is one `Moved` of the dragged platform, so a drag
      over several frames is `Dragged` over their deltas. */
  lemma {:induction false} DraggedBySum(p: Platform, deltas: seq<(int, int)>)
    ensures Dragged(p, deltas) == Moved(p, SumX(deltas), SumY(deltas))
  {
    if deltas != [] {
      DraggedBySum(p, deltas[..|deltas| - 1]);
    }
  }
}
