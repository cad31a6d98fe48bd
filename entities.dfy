/** The entities of realfinal.js (melee enemies, archers, arrows; the melee
    enemy is the same in testting.js, game.js and final.js), what one frame
    does to each of them, and their hitboxes. The update functions of the game
    rebuild each list with `filter`, whose callback both mutates the element
    and decides whether it stays; `FilterMap` is that pattern as a function. */
module Entities {
  import opened Wrappers
  import opened Geometry
  import opened Animation

  const ArcherEnemySize := 120
  const ArcherEnemySpeed := 2
  const ArrowSpeed := 5
  const WalkDistance := 200
  // An archer emits an arrow on each call where its shoot timer is a multiple of this.
  const ShotPeriod := 60
  // Arrows are pruned this far beyond either edge of the canvas.
  const ArrowMargin := 50
  const ArrowWidth := 50
  const ArrowHeight := 10

  /** Rebuild a list the way `list.filter(callback)` does when the callback
      first updates its element in place and then says whether it stays:
      `f` gives the updated element, or None for an element that is dropped. */
  function FilterMap<T>(s: seq<T>, f: T -> Option<T>): (r: seq<T>)
    ensures |r| <= |s|
  {
    if s == [] then []
    else (match f(s[0]) case Some(v) => [v] case None => []) + FilterMap(s[1..], f)
  }

  /** The list an optional value contributes to a rebuilt list. */
  function OptionToSeq<T>(o: Option<T>): seq<T> {
    match o case Some(v) => [v] case None => []
  }

  /** Filtering a concatenation filters each part in turn: survivors keep
      their relative order. */
  lemma {:induction false} FilterMapConcat<T>(s: seq<T>, t: seq<T>, f: T -> Option<T>)
    ensures FilterMap(s + t, f) == FilterMap(s, f) + FilterMap(t, f)
  {
    if s == [] {
      assert s + t == t;
    } else {
      assert (s + t)[1..] == s[1..] + t;
      FilterMapConcat(s[1..], t, f);
    }
  }

  /** The result holds exactly the updates of the elements that stay. */
  lemma {:induction false} FilterMapMembers<T>(s: seq<T>, f: T -> Option<T>)
    ensures forall v :: v in FilterMap(s, f) ==> exists i :: 0 <= i < |s| && f(s[i]) == Some(v)
    ensures forall i :: 0 <= i < |s| && f(s[i]).Some? ==> f(s[i]).value in FilterMap(s, f)
  {
    if s != [] {
      FilterMapMembers(s[1..], f);
      forall v | v in FilterMap(s, f)
        ensures exists i :: 0 <= i < |s| && f(s[i]) == Some(v)
      {
        if v !in FilterMap(s[1..], f) {
          assert f(s[0]) == Some(v);
        } else {
          var j :| 0 <= j < |s[1..]| && f(s[1..][j]) == Some(v);
          assert f(s[j + 1]) == Some(v);
        }
      }
      forall i | 0 <= i < |s| && f(s[i]).Some?
        ensures f(s[i]).value in FilterMap(s, f)
      {
        if i > 0 {
          assert s[1..][i - 1] == s[i];
        }
      }
    }
  }

  // ---------------------------------------------------------------- melee

  datatype Enemy = Enemy(x: int, y: int, active: bool)

  /** The callback of updateEnemies: an inactive enemy is dropped; an active
      one moves left by `shift` (enemySpeed + movementSpeed) and stays while
      its x is beyond -enemySize. */
  function EnemyStep(shift: int, enemySize: int, e: Enemy): Option<Enemy> {
    if !e.active then None
    else
      var moved := e.(x := e.x - shift);
      if moved.x > -enemySize then Some(moved) else None
  }

  /** The callback of updateEnemies as a function value. */
  function EnemyFilter(shift: int, enemySize: int): Enemy -> Option<Enemy> {
    e => EnemyStep(shift, enemySize, e)
  }

  function UpdateEnemyList(s: seq<Enemy>, shift: int, enemySize: int): seq<Enemy> {
    FilterMap(s, EnemyFilter(shift, enemySize))
  }

  /** The number of active enemies of a list. */
  function ActiveCount(s: seq<Enemy>): nat {
    if s == [] then 0 else (if s[0].active then 1 else 0) + ActiveCount(s[1..])
  }

  /** Each enemy of `after` is the one of `before` at the same position,
      perhaps deactivated: all the collision passes do to the list. */
  predicate EnemiesDeactivated(before: seq<Enemy>, after: seq<Enemy>) {
    |after| == |before| &&
    forall i :: 0 <= i < |after| ==> after[i] == before[i] || after[i] == before[i].(active := false)
  }

  /** Deactivating never adds an active enemy. */
  lemma {:induction false} DeactivatingLowersActiveCount(before: seq<Enemy>, after: seq<Enemy>)
    requires EnemiesDeactivated(before, after)
    ensures ActiveCount(after) <= ActiveCount(before)
  {
    if before != [] {
      assert EnemiesDeactivated(before[1..], after[1..]) by {
        forall i | 0 <= i < |after[1..]|
          ensures after[1..][i] == before[1..][i] || after[1..][i] == before[1..][i].(active := false)
        {
          assert after[1..][i] == after[i + 1] && before[1..][i] == before[i + 1];
        }
      }
      DeactivatingLowersActiveCount(before[1..], after[1..]);
    }
  }

  /** Only active enemies reach the next list: the enemies a collision pass
      deactivated are dropped by the next frame's updateEnemies. */
  lemma {:induction false} UpdateEnemyListAtMostActive(s: seq<Enemy>, shift: int, enemySize: int)
    ensures |UpdateEnemyList(s, shift, enemySize)| <= ActiveCount(s)
  {
    if s != [] {
      UpdateEnemyListAtMostActive(s[1..], shift, enemySize);
    }
  }

  /** One more element of the filtered list: what the callback makes of it. */
  lemma UpdateEnemyListSnoc(s: seq<Enemy>, e: Enemy, shift: int, enemySize: int)
    ensures UpdateEnemyList(s + [e], shift, enemySize) ==
            UpdateEnemyList(s, shift, enemySize) + OptionToSeq(EnemyStep(shift, enemySize, e))
  {
    FilterMapConcat(s, [e], EnemyFilter(shift, enemySize));
  }

  /** updateEnemies drops only inactive enemies and those whose shifted x is
      at most -enemySize; every survivor is an active enemy of the old list
      moved left by exactly `shift`, and every such enemy survives. */
  lemma UpdateEnemyListSurvivors(s: seq<Enemy>, shift: int, enemySize: int)
    ensures forall v :: v in UpdateEnemyList(s, shift, enemySize) ==>
              v.active && v.x > -enemySize &&
              exists i :: 0 <= i < |s| && s[i].active && v == s[i].(x := s[i].x - shift)
  {
    var f := EnemyFilter(shift, enemySize);
    FilterMapMembers(s, f);
    forall v | v in FilterMap(s, f)
      ensures v.active && v.x > -enemySize &&
              exists i :: 0 <= i < |s| && s[i].active && v == s[i].(x := s[i].x - shift)
    {
      var i :| 0 <= i < |s| && f(s[i]) == Some(v);
      assert f(s[i]) == EnemyStep(shift, enemySize, s[i]);
    }
  }

  /** Every active enemy whose moved position is beyond the bound stays. */
  lemma UpdateEnemyListKeeps(s: seq<Enemy>, shift: int, enemySize: int)
    ensures forall i :: 0 <= i < |s| && s[i].active && s[i].x - shift > -enemySize ==>
              s[i].(x := s[i].x - shift) in UpdateEnemyList(s, shift, enemySize)
  {
    var f := EnemyFilter(shift, enemySize);
    FilterMapMembers(s, f);
    forall i | 0 <= i < |s| && s[i].active && s[i].x - shift > -enemySize
      ensures s[i].(x := s[i].x - shift) in FilterMap(s, f)
    {
      assert f(s[i]) == EnemyStep(shift, enemySize, s[i]);
    }
  }

  /** Position by position: every enemy left in the list is past the bound. */
  lemma UpdateEnemyListPruned(s: seq<Enemy>, shift: int, enemySize: int)
    ensures var r := UpdateEnemyList(s, shift, enemySize);
            forall i :: 0 <= i < |r| ==> r[i].active && r[i].x > -enemySize
  {
    UpdateEnemyListSurvivors(s, shift, enemySize);
    var r := UpdateEnemyList(s, shift, enemySize);
    forall i | 0 <= i < |r|
      ensures r[i].active && r[i].x > -enemySize
    {
      assert r[i] in r;
    }
  }

  /** Across two frames: an enemy the collision passes deactivated is gone
      after the next updateEnemies. The next list is no longer than the count
      of enemies the passes left active, which is at most the count before
      them, and each of its enemies is an untouched, active enemy of the list
      the passes received, moved by the next shift. */
  lemma {:induction false} KilledEnemiesLeaveNextFrame(before: seq<Enemy>, after: seq<Enemy>, shift: int, enemySize: int)
    requires EnemiesDeactivated(before, after)
    ensures |UpdateEnemyList(after, shift, enemySize)| <= ActiveCount(after) <= ActiveCount(before)
    ensures forall v :: v in UpdateEnemyList(after, shift, enemySize) ==>
              exists i :: 0 <= i < |before| && after[i] == before[i] && before[i].active &&
                          v == before[i].(x := before[i].x - shift)
  {
    UpdateEnemyListAtMostActive(after, shift, enemySize);
    DeactivatingLowersActiveCount(before, after);
    UpdateEnemyListSurvivors(after, shift, enemySize);
    forall v | v in UpdateEnemyList(after, shift, enemySize)
      ensures exists i :: 0 <= i < |before| && after[i] == before[i] && before[i].active &&
                          v == before[i].(x := before[i].x - shift)
    {
      var i :| 0 <= i < |after| && after[i].active && v == after[i].(x := after[i].x - shift);
      assert after[i] == before[i];
    }
  }

  /** With the view standing still, an enemy spawned at x0 = canvasWidth +
      enemySize > -enemySize and moving `speed` per frame is still in the list
      after k frames exactly when x0 - k * speed > -enemySize. For final.js
      (speed 5, size 60) that means it is pruned by call number
      ceil((canvasWidth + 120) / 5). */
  lemma {:induction false} EnemyLifetime(e: Enemy, speed: int, enemySize: int, k: nat)
    requires e.active && e.x > -enemySize && speed > 0
    ensures EnemyRun(e, speed, enemySize, k).Some? <==> e.x - k * speed > -enemySize
    ensures EnemyRun(e, speed, enemySize, k).Some? ==>
              EnemyRun(e, speed, enemySize, k).value == e.(x := e.x - k * speed)
  {
    if k > 0 {
      EnemyLifetime(e, speed, enemySize, k - 1);
      var before := e.x - (k - 1) * speed;
      assert e.x - k * speed == before - speed;
      if before > -enemySize {
        assert EnemyRun(e, speed, enemySize, k) == EnemyStep(speed, enemySize, e.(x := before));
      } else {
        assert EnemyRun(e, speed, enemySize, k) == None;
      }
    }
  }

  /** The enemy after k calls of updateEnemies, or None once it is gone. */
  function EnemyRun(e: Enemy, shift: int, enemySize: int, k: nat): Option<Enemy> {
    if k == 0 then Some(e)
    else match EnemyRun(e, shift, enemySize, k - 1)
      case None => None
      case Some(v) => EnemyStep(shift, enemySize, v)
  }

  /** final.js: enemies of size 60 at speed 5, spawned at canvasWidth + 60 on a
      canvas of width w, are pruned on exactly call ceil((w + 120) / 5). */
  lemma FinalJsEnemyPrunedOnTime(w: nat, k: nat)
    ensures var n := (w + 120 + 4) / 5;
            EnemyRun(Enemy(w + 60, 0, true), 5, 60, k).Some? <==> k < n
  {
    EnemyLifetime(Enemy(w + 60, 0, true), 5, 60, k);
  }

  // --------------------------------------------------------------- arrows

  /** An arrow. Its screen x is undefined until updateArrows first runs over
      it (an archer pushes it with a world x only). */
  datatype Arrow = Arrow(x: Option<int>, y: int, worldX: int, active: bool)

  /** The callback of updateArrows: arrows move left in world space by
      arrowSpeed, whatever the scroll; their screen x is recomputed from the
      offset, and they stay while it is within 50 of the canvas. */
  function ArrowStep(offsetX: int, canvasWidth: int, a: Arrow): (r: Option<Arrow>)
    ensures r.Some? <==> a.active && -ArrowMargin < a.worldX - ArrowSpeed - offsetX < canvasWidth + ArrowMargin
    ensures r.Some? ==> r.value == Arrow(Some(r.value.worldX - offsetX), a.y, a.worldX - ArrowSpeed, true)
  {
    if !a.active then None
    else
      var w := a.worldX - ArrowSpeed;
      var x := w - offsetX;
      if -ArrowMargin < x < canvasWidth + ArrowMargin then Some(Arrow(Some(x), a.y, w, true)) else None
  }

  /** The callback of updateArrows as a function value. */
  function ArrowFilter(offsetX: int, canvasWidth: int): Arrow -> Option<Arrow> {
    a => ArrowStep(offsetX, canvasWidth, a)
  }

  function UpdateArrowList(s: seq<Arrow>, offsetX: int, canvasWidth: int): seq<Arrow> {
    FilterMap(s, ArrowFilter(offsetX, canvasWidth))
  }

  lemma UpdateArrowListSnoc(s: seq<Arrow>, a: Arrow, offsetX: int, canvasWidth: int)
    ensures UpdateArrowList(s + [a], offsetX, canvasWidth) ==
            UpdateArrowList(s, offsetX, canvasWidth) + OptionToSeq(ArrowStep(offsetX, canvasWidth, a))
  {
    FilterMapConcat(s, [a], ArrowFilter(offsetX, canvasWidth));
  }

  /** Arrows are not carried by the scroll: two frames with different offsets
      move a surviving arrow to the same world x; only the screen x and the
      decision to keep it depend on the offset. */
  lemma ArrowMotionIgnoresScroll(a: Arrow, o1: int, o2: int, canvasWidth: int)
    requires ArrowStep(o1, canvasWidth, a).Some? && ArrowStep(o2, canvasWidth, a).Some?
    ensures ArrowStep(o1, canvasWidth, a).value.worldX == ArrowStep(o2, canvasWidth, a).value.worldX
    ensures ArrowStep(o1, canvasWidth, a).value.x.value - ArrowStep(o2, canvasWidth, a).value.x.value == o2 - o1
  {
  }

  /** updateArrows keeps exactly the active arrows whose moved screen x lies
      strictly within (-50, canvasWidth + 50). */
  lemma UpdateArrowListSurvivors(s: seq<Arrow>, offsetX: int, canvasWidth: int)
    ensures forall v :: v in UpdateArrowList(s, offsetX, canvasWidth) ==>
              v.active && v.x.Some? && -ArrowMargin < v.x.value < canvasWidth + ArrowMargin &&
              exists i :: 0 <= i < |s| && s[i].active && v.worldX == s[i].worldX - ArrowSpeed && v.y == s[i].y
    ensures forall i :: 0 <= i < |s| && ArrowStep(offsetX, canvasWidth, s[i]).Some? ==>
              ArrowStep(offsetX, canvasWidth, s[i]).value in UpdateArrowList(s, offsetX, canvasWidth)
  {
    FilterMapMembers(s, ArrowFilter(offsetX, canvasWidth));
  }

  /** Position by position: every arrow left in the list has a screen x
      within the margin. */
  lemma UpdateArrowListPruned(s: seq<Arrow>, offsetX: int, canvasWidth: int)
    ensures var r := UpdateArrowList(s, offsetX, canvasWidth);
            forall i :: 0 <= i < |r| ==>
              r[i].x.Some? && -ArrowMargin < r[i].x.value < canvasWidth + ArrowMargin
  {
    UpdateArrowListSurvivors(s, offsetX, canvasWidth);
    var r := UpdateArrowList(s, offsetX, canvasWidth);
    forall i | 0 <= i < |r|
      ensures r[i].x.Some? && -ArrowMargin < r[i].x.value < canvasWidth + ArrowMargin
    {
      assert r[i] in r;
    }
  }

  /** Each arrow of `after` is the one of `before` at the same position,
      perhaps deactivated. */
  predicate ArrowsDeactivated(before: seq<Arrow>, after: seq<Arrow>) {
    |after| == |before| &&
    forall i :: 0 <= i < |after| ==> after[i] == before[i] || after[i] == before[i].(active := false)
  }

  // -------------------------------------------------------------- archers

  datatype ArcherState = Walking | Shooting

  /** An archer: screen x, world x, y, behaviour, walk budget, shoot timer,
      active flag and its own animation cursor. */
  datatype Archer = Archer(x: int, worldX: int, y: int, state: ArcherState,
                           walkDistance: int, shootTimer: nat, active: bool, anim: Cursor)

  /** spawnArcherEnemy: just beyond the right edge, by one archer width. */
  function SpawnedArcher(offsetX: int, canvasWidth: int, canvasHeight: int): Archer {
    Archer(canvasWidth + ArcherEnemySize, offsetX + canvasWidth + ArcherEnemySize,
           canvasHeight - ArcherEnemySize - 10, Walking, WalkDistance, 0, true, Cursor(0, 0))
  }

  /** What one call of the updateArcherEnemies callback does to an active
      archer in place, and the arrow it pushes, if any. */
  function ArcherAdvance(offsetX: int, canvasWidth: int, a: Archer): (r: (Archer, Option<Arrow>))
    ensures a.state == Shooting ==>
              r.0.state == Shooting && r.0.worldX == a.worldX && r.0.shootTimer == a.shootTimer + 1 && r.0.anim == a.anim
    ensures a.state == Walking ==> r.0.worldX == a.worldX - ArcherEnemySpeed
    ensures a.state == Walking ==>
              (r.0.state == Shooting <==> a.worldX - ArcherEnemySpeed <= offsetX + canvasWidth - a.walkDistance)
    ensures a.state == Walking && r.0.state == Shooting ==> r.0.shootTimer == 1 && r.0.anim == Cursor(0, 0)
    ensures a.state == Walking && r.0.state == Walking ==> r.0.shootTimer == a.shootTimer && r.0.anim == a.anim
    ensures r.1.Some? <==> r.0.state == Shooting && r.0.shootTimer % ShotPeriod == 0
    ensures r.1.Some? ==> r.1.value == Arrow(None, a.y + ArcherEnemySize / 2, r.0.worldX, true)
    ensures r.0.x == r.0.worldX - offsetX
    ensures r.0.y == a.y && r.0.walkDistance == a.walkDistance && r.0.active == a.active
  {
    var walked := if a.state == Walking then a.(worldX := a.worldX - ArcherEnemySpeed) else a;
    var switched :=
      if walked.state == Walking && walked.worldX <= offsetX + canvasWidth - walked.walkDistance
      then walked.(state := Shooting, shootTimer := 0, anim := Cursor(0, 0))
      else walked;
    var shooting := if switched.state == Shooting then switched.(shootTimer := switched.shootTimer + 1) else switched;
    var arrow :=
      if shooting.state == Shooting && shooting.shootTimer % ShotPeriod == 0
      then Some(Arrow(None, shooting.y + ArcherEnemySize / 2, shooting.worldX, true))
      else None;
    (shooting.(x := shooting.worldX - offsetX), arrow)
  }

  /** An archer stays while its screen x is within two archer widths of the
      canvas on either side. */
  predicate ArcherInRange(canvasWidth: int, a: Archer) {
    -ArcherEnemySize * 2 < a.x < canvasWidth + ArcherEnemySize * 2
  }

  /** The whole callback: drop an inactive archer, else advance it, push its
      arrow (also when the archer itself then leaves the list) and keep it
      while in range. */
  function ArcherStep(offsetX: int, canvasWidth: int, a: Archer): (r: (Option<Archer>, Option<Arrow>))
    ensures !a.active ==> r == (None, None)
    ensures a.active ==> r.1 == ArcherAdvance(offsetX, canvasWidth, a).1
    ensures r.0.Some? <==> a.active && ArcherInRange(canvasWidth, ArcherAdvance(offsetX, canvasWidth, a).0)
    ensures r.0.Some? ==> r.0.value == ArcherAdvance(offsetX, canvasWidth, a).0
  {
    if !a.active then (None, None)
    else
      var (b, arrow) := ArcherAdvance(offsetX, canvasWidth, a);
      (if ArcherInRange(canvasWidth, b) then Some(b) else None, arrow)
  }

  /** updateArcherEnemies over the whole list: the surviving archers, in order,
      and the arrows pushed, in the order of the archers that pushed them. */
  function ArcherPass(s: seq<Archer>, offsetX: int, canvasWidth: int): (r: (seq<Archer>, seq<Arrow>))
    ensures |r.0| <= |s| && |r.1| <= |s|
  {
    if s == [] then ([], [])
    else
      var (kept, arrow) := ArcherStep(offsetX, canvasWidth, s[0]);
      var (rest, arrows) := ArcherPass(s[1..], offsetX, canvasWidth);
      (OptionToSeq(kept) + rest, OptionToSeq(arrow) + arrows)
  }

  /** The pass over a concatenation is the pass over each part: survivors and
      arrows both keep the order of the archers. */
  lemma {:induction false} ArcherPassConcat(s: seq<Archer>, t: seq<Archer>, offsetX: int, canvasWidth: int)
    ensures ArcherPass(s + t, offsetX, canvasWidth).0 == ArcherPass(s, offsetX, canvasWidth).0 + ArcherPass(t, offsetX, canvasWidth).0
    ensures ArcherPass(s + t, offsetX, canvasWidth).1 == ArcherPass(s, offsetX, canvasWidth).1 + ArcherPass(t, offsetX, canvasWidth).1
  {
    if s == [] {
      assert s + t == t;
    } else {
      var st := s + t;
      assert st[0] == s[0] && st[1..] == s[1..] + t;
      ArcherPassConcat(s[1..], t, offsetX, canvasWidth);
      var h := ArcherStep(offsetX, canvasWidth, s[0]);
      var p := ArcherPass(s[1..], offsetX, canvasWidth);
      var q := ArcherPass(t, offsetX, canvasWidth);
      assert ArcherPass(st, offsetX, canvasWidth).0 == OptionToSeq(h.0) + (p.0 + q.0);
      assert ArcherPass(st, offsetX, canvasWidth).1 == OptionToSeq(h.1) + (p.1 + q.1);
      assert OptionToSeq(h.0) + (p.0 + q.0) == (OptionToSeq(h.0) + p.0) + q.0;
      assert OptionToSeq(h.1) + (p.1 + q.1) == (OptionToSeq(h.1) + p.1) + q.1;
    }
  }

  lemma ArcherPassSnoc(s: seq<Archer>, i: int, offsetX: int, canvasWidth: int)
    requires 0 <= i < |s|
    ensures ArcherPass(s[..i + 1], offsetX, canvasWidth).0 ==
            ArcherPass(s[..i], offsetX, canvasWidth).0 + OptionToSeq(ArcherStep(offsetX, canvasWidth, s[i]).0)
    ensures ArcherPass(s[..i + 1], offsetX, canvasWidth).1 ==
            ArcherPass(s[..i], offsetX, canvasWidth).1 + OptionToSeq(ArcherStep(offsetX, canvasWidth, s[i]).1)
  {
    assert s[..i + 1] == s[..i] + [s[i]];
    ArcherPassConcat(s[..i], [s[i]], offsetX, canvasWidth);
    assert [s[i]][1..] == [];
  }

  /** Every archer that survives a pass is active, in range, and shows its
      screen x for the current offset; every arrow a pass pushes is active and
      shares the world x of the shooting archer that pushed it. */
  lemma {:induction false} ArcherPassSurvivors(s: seq<Archer>, offsetX: int, canvasWidth: int)
    ensures forall a :: a in ArcherPass(s, offsetX, canvasWidth).0 ==>
              a.active && ArcherInRange(canvasWidth, a) && a.x == a.worldX - offsetX
    ensures forall w :: w in ArcherPass(s, offsetX, canvasWidth).1 ==>
              w.active && w.x == None &&
              exists i :: 0 <= i < |s| && s[i].active && w.worldX == ArcherAdvance(offsetX, canvasWidth, s[i]).0.worldX
  {
    if s != [] {
      ArcherPassSurvivors(s[1..], offsetX, canvasWidth);
      var r := ArcherPass(s, offsetX, canvasWidth);
      var rest := ArcherPass(s[1..], offsetX, canvasWidth);
      forall w | w in r.1
        ensures w.active && w.x == None &&
                exists i :: 0 <= i < |s| && s[i].active && w.worldX == ArcherAdvance(offsetX, canvasWidth, s[i]).0.worldX
      {
        if w in rest.1 {
          var j :| 0 <= j < |s[1..]| && s[1..][j].active && w.worldX == ArcherAdvance(offsetX, canvasWidth, s[1..][j]).0.worldX;
          assert s[j + 1] == s[1..][j];
        } else {
          assert ArcherStep(offsetX, canvasWidth, s[0]).1 == Some(w);
        }
      }
    }
  }

  /** The shooting state is final for movement: an archer that was shooting is
      shooting after the call, without moving in world space. */
  lemma ShootingIsFinal(offsetX: int, canvasWidth: int, a: Archer)
    requires a.state == Shooting && ArcherStep(offsetX, canvasWidth, a).0.Some?
    ensures ArcherStep(offsetX, canvasWidth, a).0.value.state == Shooting
    ensures ArcherStep(offsetX, canvasWidth, a).0.value.worldX == a.worldX
  {
  }

  /** The archer after k calls with the offset standing still, or None once it
      has left the list. */
  function ArcherRun(offsetX: int, canvasWidth: int, a: Archer, k: nat): Option<Archer> {
    if k == 0 then Some(a)
    else match ArcherRun(offsetX, canvasWidth, a, k - 1)
      case None => None
      case Some(b) => ArcherStep(offsetX, canvasWidth, b).0
  }

  /** A freshly spawned archer, with the view not scrolling, walks 2 world
      units per call, stays in the list, and switches to shooting on exactly
      the 160th call: it spawns 120 beyond the right edge and stops at 200
      inside it. The switching call leaves its shoot timer at 1 and its
      animation cursor at frame 0 with a cleared counter. */
  lemma {:induction false} ArcherSwitchesOnCall160(offsetX: int, canvasWidth: nat, canvasHeight: int, k: nat)
    requires 1 <= k <= 160
    ensures var r := ArcherRun(offsetX, canvasWidth, SpawnedArcher(offsetX, canvasWidth, canvasHeight), k);
            r.Some? && r.value.active && r.value.walkDistance == WalkDistance &&
            r.value.worldX == offsetX + canvasWidth + ArcherEnemySize - ArcherEnemySpeed * k &&
            (r.value.state == Walking <==> k < 160) &&
            (k < 160 ==> r.value.shootTimer == 0) &&
            (k == 160 ==> r.value.shootTimer == 1 && r.value.anim == Cursor(0, 0))
  {
    if k > 1 {
      ArcherSwitchesOnCall160(offsetX, canvasWidth, canvasHeight, k - 1);
    }
  }

  /** The sheet that goes with an archer's state. */
  function ArcherSheet(state: ArcherState): Sheet {
    if state == Walking then ArcherWalkSheet else ArcherShotSheet
  }

  /** The archer's own cursor is a frame of the sheet of its current state and
      its counter is below that sheet's delay. */
  predicate ArcherAnimOk(a: Archer) {
    a.anim.currentFrame < ArcherSheet(a.state).totalFrames &&
    a.anim.frameCounter < ArcherSheet(a.state).frameDelay
  }

  /** The per-archer body of updateArcherEnemyAnimation: an active archer's
      own cursor cycles on the sheet of its state; nothing else of it changes,
      and an inactive archer is left alone. */
  function AnimateArcher(a: Archer): (r: Archer)
    ensures ArcherAnimOk(a) ==> ArcherAnimOk(r)
    ensures r.(anim := a.anim) == a
  {
    if !a.active then a
    else a.(anim := Cycle(ArcherSheet(a.state), a.anim))
  }

  /** updateArcherEnemyAnimation over the whole list. */
  function AnimateArchers(s: seq<Archer>): (r: seq<Archer>)
    ensures |r| == |s| && forall i :: 0 <= i < |s| ==> r[i] == AnimateArcher(s[i])
  {
    seq(|s|, i requires 0 <= i < |s| => AnimateArcher(s[i]))
  }

  /** Each archer of `after` is the one of `before` at the same position,
      perhaps deactivated. */
  predicate ArchersDeactivated(before: seq<Archer>, after: seq<Archer>) {
    |after| == |before| &&
    forall i :: 0 <= i < |after| ==> after[i] == before[i] || after[i] == before[i].(active := false)
  }

  /** What drawArcherEnemies draws for one archer: nothing for an inactive
      one; otherwise the sheet of its state and the left edge of its own
      current frame on it, which lies within the strip of frames. */
  function DrawnArcherFrame(a: Archer): (r: Option<(Sheet, int)>)
    requires ArcherAnimOk(a)
    ensures r.Some? <==> a.active
    ensures r.Some? ==> r.value.0 == ArcherSheet(a.state)
    ensures r.Some? ==>
              var (sheet, frameX) := r.value;
              0 <= frameX && frameX + sheet.frameWidth <= sheet.totalFrames * (sheet.frameWidth + sheet.gap) - sheet.gap
  {
    if !a.active then None
    else
      var sheet := ArcherSheet(a.state);
      FrameRectangles(sheet, a.anim, a.anim);
      Some((sheet, FrameX(sheet, a.anim)))
  }

  /** The update callback keeps the archer's cursor within the sheet of its
      (possibly new) state: the switch to shooting resets it. */
  lemma ArcherStepKeepsAnimation(offsetX: int, canvasWidth: int, a: Archer)
    requires ArcherAnimOk(a)
    ensures ArcherAnimOk(ArcherAdvance(offsetX, canvasWidth, a).0)
  {
  }

  /** Hence every archer that survives a pass over well-animated archers is
      well-animated. */
  lemma {:induction false} ArcherPassKeepsAnimation(s: seq<Archer>, offsetX: int, canvasWidth: int)
    requires forall i :: 0 <= i < |s| ==> ArcherAnimOk(s[i])
    ensures forall a :: a in ArcherPass(s, offsetX, canvasWidth).0 ==> ArcherAnimOk(a)
  {
    if s != [] {
      ArcherStepKeepsAnimation(offsetX, canvasWidth, s[0]);
      ArcherPassKeepsAnimation(s[1..], offsetX, canvasWidth);
    }
  }

  // ------------------------------------------------------------- hitboxes

  const CharacterInset := 10
  const EnemyInset := 5

  function CharacterHitbox(x: int, y: int, characterSize: int): Box {
    InsetBox(x, y, characterSize, CharacterInset)
  }

  function EnemyHitbox(e: Enemy, enemySize: int): Box {
    InsetBox(e.x, e.y, enemySize, EnemyInset)
  }

  function ArcherHitbox(a: Archer): Box {
    InsetBox(a.x, a.y, ArcherEnemySize, EnemyInset)
  }

  /** The reach of the attack: 50 to the right of the character's left edge,
      100 wide, as tall as the character's hitbox. */
  function AttackHitbox(x: int, y: int, characterSize: int): Box {
    Box(x + 50, y + 10, 100, characterSize - 20)
  }

  /** An active enemy whose hitbox strictly overlaps `box`. */
  predicate EnemyTouches(box: Box, e: Enemy, enemySize: int) {
    e.active && Overlaps(box, EnemyHitbox(e, enemySize))
  }

  predicate ArcherTouches(box: Box, a: Archer) {
    a.active && Overlaps(box, ArcherHitbox(a))
  }

  /** An arrow hits when its 50 x 10 box overlaps the character's hitbox; an
      arrow whose screen x is still undefined makes every comparison false. */
  predicate ArrowTouches(box: Box, a: Arrow) {
    a.x.Some? && Overlaps(box, Box(a.x.value, a.y, ArrowWidth, ArrowHeight))
  }

  predicate AnyEnemyTouches(box: Box, s: seq<Enemy>, enemySize: int) {
    exists i :: 0 <= i < |s| && EnemyTouches(box, s[i], enemySize)
  }

  predicate AnyArrowTouches(box: Box, s: seq<Arrow>) {
    exists i :: 0 <= i < |s| && ArrowTouches(box, s[i])
  }

  /** A collision pass over `before`: when `on`, exactly the enemies that
      touch `box` are deactivated; the others, and every enemy when the
      pass is off, are untouched. */
  predicate EnemiesStruck(before: seq<Enemy>, after: seq<Enemy>, box: Box, on: bool, enemySize: int) {
    |after| == |before| &&
    forall i :: 0 <= i < |after| ==>
      after[i] == if on && EnemyTouches(box, before[i], enemySize) then before[i].(active := false) else before[i]
  }

  /** The same for archers. */
  predicate ArchersStruck(before: seq<Archer>, after: seq<Archer>, box: Box, on: bool) {
    |after| == |before| &&
    forall i :: 0 <= i < |after| ==>
      after[i] == if on && ArcherTouches(box, before[i]) then before[i].(active := false) else before[i]
  }

  /** The same for arrows. */
  predicate ArrowsStruck(before: seq<Arrow>, after: seq<Arrow>, box: Box, on: bool) {
    |after| == |before| &&
    forall i :: 0 <= i < |after| ==>
      after[i] == if on && ArrowTouches(box, before[i]) then before[i].(active := false) else before[i]
  }
}
