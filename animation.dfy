/** Sprite-sheet animation. Every animation descriptor of the game is an
    object holding the geometry of one sheet (frame size, gap, frame count,
    delay) together with the live cursor (current frame, frame counter). The
    model splits the two: a `Sheet` value is constant, a `Cursor` value is what
    the update functions change. Archers carry a cursor of their own and share
    the sheets. */
module Animation {

  datatype Sheet = Sheet(frameWidth: int, frameHeight: int, gap: int,
                         totalFrames: nat, frameDelay: nat)

  datatype Cursor = Cursor(currentFrame: nat, frameCounter: nat)

  predicate WellFormed(s: Sheet) {
    s.totalFrames > 0 && s.frameDelay > 0 && s.frameWidth > 0 && s.gap >= 0
  }

  // The sheets of realfinal.js (the other variants use the same numbers).
  const RunningSheet := Sheet(328, 458, 37, 11, 3)
  const JumpingSheet := Sheet(282, 483, 80, 11, 3)
  const AttackSheet := Sheet(480, 458, 60, 10, 2)
  const EnemySheet := Sheet(434, 548, 110, 9, 3)
  const ArcherWalkSheet := Sheet(110, 130, 24, 8, 3)
  const ArcherShotSheet := Sheet(120, 130, 5, 14, 5)

  // The cursors the descriptors start with.
  const RunningStart := Cursor(0, 1)
  const JumpingStart := Cursor(0, 0)
  const AttackStart := Cursor(0, 2)
  const EnemyStart := Cursor(0, 0)

  // Last frame of the rising and first and last of the falling part of the
  // jump sheet.
  const LastRisingFrame := 5
  const FirstFallingFrame := 6
  const LastFallingFrame := 10

  /** A cursor that the update rules keep: the frame is one of the sheet's and
      the counter has not passed the delay. */
  predicate InRange(s: Sheet, c: Cursor) {
    c.currentFrame < s.totalFrames && c.frameCounter <= s.frameDelay
  }

  function Min(a: int, b: int): int { if a < b then a else b }
  function Max(a: int, b: int): int { if a < b then b else a }

  /** One call of a cyclic animation: the counter is bumped, and when it reaches
      the delay it is cleared and the frame advances modulo the frame count.
      Used for the enemy sheet, the running sheet while a horizontal key is
      held, and each archer's own cursor. */
  function Cycle(s: Sheet, c: Cursor): (r: Cursor)
    requires WellFormed(s)
    ensures c.currentFrame < s.totalFrames ==> r.currentFrame < s.totalFrames
    ensures r.frameCounter < s.frameDelay
    ensures r.currentFrame == c.currentFrame || r.currentFrame == (c.currentFrame + 1) % s.totalFrames
  {
    if c.frameCounter + 1 >= s.frameDelay then
      Cursor((c.currentFrame + 1) % s.totalFrames, 0)
    else
      Cursor(c.currentFrame, c.frameCounter + 1)
  }

  /** `n` consecutive calls of `Cycle`. */
  function CycleN(s: Sheet, c: Cursor, n: nat): Cursor
    requires WellFormed(s)
  {
    if n == 0 then c else Cycle(s, CycleN(s, c, n - 1))
  }

  /** Fewer calls than the delay, started on a cleared counter, leave the frame
      alone and only count. */
  lemma {:induction false} CycleWithinDelay(s: Sheet, c: Cursor, n: nat)
    requires WellFormed(s) && c.frameCounter == 0 && n < s.frameDelay
    ensures CycleN(s, c, n) == Cursor(c.currentFrame, n)
  {
    if n > 0 {
      CycleWithinDelay(s, c, n - 1);
    }
  }

  /** The frame advances exactly once per `frameDelay` calls: after exactly
      that many calls from a cleared counter the frame is the next one
      (wrapping) and the counter is clear again, and no fewer calls move it. */
  lemma CycleOneRound(s: Sheet, c: Cursor)
    requires WellFormed(s) && c.frameCounter == 0
    ensures CycleN(s, c, s.frameDelay) == Cursor((c.currentFrame + 1) % s.totalFrames, 0)
    ensures forall n :: 0 <= n < s.frameDelay ==> CycleN(s, c, n).currentFrame == c.currentFrame
  {
    CycleWithinDelay(s, c, s.frameDelay - 1);
    forall n | 0 <= n < s.frameDelay
      ensures CycleN(s, c, n).currentFrame == c.currentFrame
    {
      CycleWithinDelay(s, c, n);
    }
  }

  /** Running the cycle for a + b calls is running it a calls, then b more. */
  lemma {:induction false} CycleCompose(s: Sheet, c: Cursor, a: nat, b: nat)
    requires WellFormed(s)
    ensures CycleN(s, c, a + b) == CycleN(s, CycleN(s, c, a), b)
  {
    if b > 0 {
      CycleCompose(s, c, a, b - 1);
    }
  }

  lemma {:induction false} ModShift(x: nat, k: nat, t: nat)
    requires t > 0
    ensures (x % t + k) % t == (x + k) % t
  {
    if k > 0 {
      ModShift(x, k - 1, t);
      ModSucc((x % t + k - 1), t);
      ModSucc(x + k - 1, t);
    }
  }

  lemma ModSucc(y: nat, t: nat)
    requires t > 0
    ensures (y + 1) % t == (y % t + 1) % t
  {
    var q, r := y / t, y % t;
    if r + 1 < t {
      ModUnique(y + 1, q, r + 1, t);
      ModUnique(r + 1, 0, r + 1, t);
    } else {
      ModUnique(y + 1, q + 1, 0, t);
      ModUnique(r + 1, 1, 0, t);
    }
  }

  /** Euclidean division has one quotient and one remainder. */
  lemma ModUnique(a: int, q: int, r: int, t: int)
    requires t > 0 && 0 <= r < t && a == q * t + r
    ensures a % t == r && a / t == q
  {
    var q0, r0 := a / t, a % t;
    if q0 > q {
      MulMono(1, q0 - q, t);
      MulSplit(q0 - q, q, t);
      assert false;
    } else if q0 < q {
      MulMono(1, q - q0, t);
      MulSplit(q - q0, q0, t);
      assert false;
    }
  }

  lemma MulSplit(a: int, b: int, t: int)
    ensures (a + b) * t == a * t + b * t
  {
  }

  /** After q whole rounds and r further calls, starting on a cleared counter
      at a frame of the sheet, the frame has advanced by exactly q (modulo the
      frame count) and the counter reads r. */
  lemma {:induction false} CycleRounds(s: Sheet, c: Cursor, q: nat, r: nat)
    requires WellFormed(s) && c.frameCounter == 0 && c.currentFrame < s.totalFrames
    requires r < s.frameDelay
    ensures CycleN(s, c, q * s.frameDelay + r) == Cursor((c.currentFrame + q) % s.totalFrames, r)
    decreases q
  {
    if q == 0 {
      CycleWithinDelay(s, c, r);
      ModUnique(c.currentFrame, 0, c.currentFrame, s.totalFrames);
    } else {
      var d := s.frameDelay;
      var next := Cursor((c.currentFrame + 1) % s.totalFrames, 0);
      RoundSplit(q, d);
      var rest: nat := (q - 1) * d + r;
      CycleCompose(s, c, d, rest);
      CycleOneRound(s, c);
      CycleRounds(s, next, q - 1, r);
      ModShift(c.currentFrame + 1, q - 1, s.totalFrames);
    }
  }

  /** q rounds of d calls are one round followed by q - 1 rounds. */
  lemma RoundSplit(q: nat, d: nat)
    requires q >= 1
    ensures q * d == d + (q - 1) * d && (q - 1) * d >= 0
  {
    MulSplit(1, q - 1, d);
  }

  /** One call of the jump animation. The delay counter works as in `Cycle`,
      but the frame is clamped instead of wrapped: while rising (negative
      vertical velocity) it climbs towards frame 5 and stops there, while
      falling it jumps to frame 6 at the least and climbs towards frame 10. */
  function JumpTick(s: Sheet, c: Cursor, rising: bool): (r: Cursor)
    requires WellFormed(s)
    ensures r.frameCounter < s.frameDelay
    ensures r.currentFrame != c.currentFrame ==>
              if rising then r.currentFrame <= LastRisingFrame
              else FirstFallingFrame <= r.currentFrame <= LastFallingFrame
    ensures c.currentFrame <= LastFallingFrame ==> r.currentFrame <= LastFallingFrame
    ensures rising && c.currentFrame <= LastRisingFrame ==> r.currentFrame <= LastRisingFrame
    ensures c.currentFrame <= LastFallingFrame && (rising ==> c.currentFrame <= LastRisingFrame) ==>
              r.currentFrame >= c.currentFrame
  {
    if c.frameCounter + 1 >= s.frameDelay then
      var next := c.currentFrame + 1;
      Cursor(if rising then Min(LastRisingFrame, next)
             else Min(LastFallingFrame, Max(FirstFallingFrame, next)), 0)
    else
      Cursor(c.currentFrame, c.frameCounter + 1)
  }

  /** A falling jump animation that has advanced at least once sits in the
      falling band 6..10, and the jump sheet has those frames. */
  lemma FallingBandFitsSheet(c: Cursor)
    requires JumpTick(JumpingSheet, c, false).currentFrame != c.currentFrame
    ensures InRange(JumpingSheet, JumpTick(JumpingSheet, c, false))
    ensures JumpTick(JumpingSheet, c, false).currentFrame >= FirstFallingFrame
  {
  }

  /** One call of the attack animation while an attack is in progress. The
      second component tells whether the attack is still in progress: once the
      frame passes the last one, the attack ends with the cursor back at frame
      0 (the counter is cleared too, having just reached the delay). */
  function AttackTick(s: Sheet, c: Cursor): (r: (Cursor, bool))
    requires WellFormed(s)
    ensures c.currentFrame < s.totalFrames ==> r.0.currentFrame < s.totalFrames
    ensures r.0.frameCounter < s.frameDelay
    ensures !r.1 <==> c.frameCounter + 1 >= s.frameDelay && c.currentFrame + 1 >= s.totalFrames
    ensures !r.1 ==> r.0 == Cursor(0, 0)
    ensures r.1 ==> r.0.currentFrame == c.currentFrame || r.0.currentFrame == c.currentFrame + 1
  {
    if c.frameCounter + 1 >= s.frameDelay then
      if c.currentFrame + 1 >= s.totalFrames then (Cursor(0, 0), false)
      else (Cursor(c.currentFrame + 1, 0), true)
    else
      (Cursor(c.currentFrame, c.frameCounter + 1), true)
  }

  /** The cursor and the in-progress flag after `n` calls of the attack
      branch, starting with an attack in progress at `c`. Once the attack has
      ended the attack branch is no longer taken, so later calls change
      nothing here. */
  function AttackRun(s: Sheet, c: Cursor, n: nat): (Cursor, bool)
    requires WellFormed(s)
    decreases n
  {
    if n == 0 then (c, true)
    else
      var (next, going) := AttackTick(s, c);
      if going then AttackRun(s, next, n - 1) else (next, false)
  }

  /** An attack started at frame f with counter k (below the delay) lasts
      exactly (totalFrames - f) * frameDelay - k calls: it is still running
      after fewer calls, and after that many it has ended at frame 0. */
  lemma {:induction false} AttackDuration(s: Sheet, f: nat, k: nat, n: nat)
    requires WellFormed(s) && f < s.totalFrames && k < s.frameDelay
    ensures n < (s.totalFrames - f) * s.frameDelay - k ==> AttackRun(s, Cursor(f, k), n).1
    ensures n >= (s.totalFrames - f) * s.frameDelay - k ==> AttackRun(s, Cursor(f, k), n) == (Cursor(0, 0), false)
    decreases (s.totalFrames - f) * s.frameDelay - k
  {
    var d := s.frameDelay;
    var m := s.totalFrames - f;
    var len := m * d - k;
    assert len >= 1 by {
      MulMono(1, m, d);
    }
    if n > 0 {
      var c := Cursor(f, k);
      if k + 1 < d {
        assert AttackTick(s, c) == (Cursor(f, k + 1), true);
        assert AttackRun(s, c, n) == AttackRun(s, Cursor(f, k + 1), n - 1);
        AttackDuration(s, f, k + 1, n - 1);
      } else if f + 1 < s.totalFrames {
        assert AttackTick(s, c) == (Cursor(f + 1, 0), true);
        assert AttackRun(s, c, n) == AttackRun(s, Cursor(f + 1, 0), n - 1);
        assert (s.totalFrames - (f + 1)) * d - 0 == len - 1 by {
          assert m * d == (m - 1) * d + d;
        }
        AttackDuration(s, f + 1, 0, n - 1);
      } else {
        assert AttackTick(s, c) == (Cursor(0, 0), false);
        assert m == 1;
      }
    }
  }

  /** The attack sheet with the counter it rests on between attacks (0): an
      attack lasts 20 calls. The very first attack of a game starts with the
      counter at its initial value 2, equal to the delay, so its first call
      already advances the frame and it lasts 19 calls. */
  lemma AttackLengths(n: nat)
    ensures AttackRun(AttackSheet, Cursor(0, 0), n).1 <==> n < 20
    ensures AttackRun(AttackSheet, Cursor(0, AttackStart.frameCounter), n).1 <==> n < 19
  {
    AttackDuration(AttackSheet, 0, 0, n);
    if n > 0 {
      assert AttackTick(AttackSheet, Cursor(0, 2)) == (Cursor(1, 0), true);
      AttackDuration(AttackSheet, 1, 0, n - 1);
    }
  }

  /** Left edge of the current frame's source rectangle on its sheet: frames
      sit in one row, each frameWidth wide and followed by a gap. */
  function FrameX(s: Sheet, c: Cursor): int {
    c.currentFrame * (s.frameWidth + s.gap)
  }

  /** The source rectangle of any frame of the sheet lies within the strip of
      totalFrames frames, and the rectangles of two different frames do not
      overlap (a later frame starts at or after the end of an earlier one). */
  lemma FrameRectangles(s: Sheet, c1: Cursor, c2: Cursor)
    requires WellFormed(s) && c1.currentFrame < s.totalFrames && c2.currentFrame < s.totalFrames
    ensures 0 <= FrameX(s, c1)
    ensures FrameX(s, c1) + s.frameWidth <= s.totalFrames * (s.frameWidth + s.gap) - s.gap
    ensures c1.currentFrame < c2.currentFrame ==> FrameX(s, c1) + s.frameWidth <= FrameX(s, c2)
  {
    var w := s.frameWidth + s.gap;
    MulMono(c1.currentFrame, s.totalFrames - 1, w);
    assert s.totalFrames * w == (s.totalFrames - 1) * w + w;
    if c1.currentFrame < c2.currentFrame {
      MulMono(c1.currentFrame + 1, c2.currentFrame, w);
      assert (c1.currentFrame + 1) * w == c1.currentFrame * w + w;
    }
  }

  lemma MulMono(a: nat, b: nat, w: nat)
    requires a <= b
    ensures a * w <= b * w
  {
    assert b * w == a * w + (b - a) * w;
  }
}
