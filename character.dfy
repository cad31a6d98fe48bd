/** The key names the keyboard listeners of every variant record, and the
    held-key set those listeners maintain (the `keys` object, whose true
    entries are the held keys). */
module Input {
  const ArrowLeft: string := "ArrowLeft"
  const ArrowRight: string := "ArrowRight"
  const ArrowUp: string := "ArrowUp"
  const AttackKey: string := " "

  /** The horizontal scroll of the variants that add both directions
      (script.js, ai.js): each held arrow key contributes its own step, so
      both together cancel out. */
  function NetScroll(keys: set<string>, speed: int): (r: int)
    ensures ArrowLeft in keys && ArrowRight !in keys ==> r == -speed
    ensures ArrowRight in keys && ArrowLeft !in keys ==> r == speed
    ensures (ArrowLeft in keys) == (ArrowRight in keys) ==> r == 0
  {
    (if ArrowRight in keys then speed else 0) - (if ArrowLeft in keys then speed else 0)
  }
}

/** Vertical motion of the player: the jump-and-gravity integration that the
    updateCharacter function of every variant performs against its ground
    line. The horizontal screen position never changes here. */
module Character {

  /** The vertical part of the character: y of its top edge (growing
      downwards), vertical velocity, and whether it is airborne. */
  datatype Body = Body(y: int, velocityY: int, isJumping: bool)

  datatype Physics = Physics(jumpStrength: int, gravity: int)

  /** Standing still on the ground line. */
  function Grounded(groundY: int): Body {
    Body(groundY, 0, false)
  }

  /** One call of updateCharacter with the jump key held (`up`) or not. A jump
      starts only from the ground; the same call already applies gravity, and
      the call whose new y reaches the ground line clamps y to it. */
  function Step(p: Physics, groundY: int, up: bool, b: Body): (r: Body)
    ensures r.isJumping ==> r.y < groundY
    ensures (b.isJumping || up) && !r.isJumping ==> r == Grounded(groundY)
    ensures !b.isJumping && !up ==> r == b
    ensures !b.isJumping && up ==> (r.isJumping <==> b.y + p.gravity - p.jumpStrength < groundY)
    ensures !b.isJumping && up && r.isJumping ==>
              r.velocityY == p.gravity - p.jumpStrength && r.y == b.y + r.velocityY
    ensures b.isJumping ==> (r.isJumping <==> b.y + b.velocityY + p.gravity < groundY)
    ensures b.isJumping && r.isJumping ==> r.velocityY == b.velocityY + p.gravity && r.y == b.y + r.velocityY
  {
    var started := up && !b.isJumping;
    var v := if started then -p.jumpStrength else b.velocityY;
    if b.isJumping || started then
      var v1 := v + p.gravity;
      var y1 := b.y + v1;
      if y1 >= groundY then Grounded(groundY) else Body(y1, v1, true)
    else
      b
  }

  /** `n` further calls of updateCharacter with the jump key in state `held`. */
  function Fly(p: Physics, groundY: int, held: bool, b: Body, n: nat): Body {
    if n == 0 then b else Step(p, groundY, held, Fly(p, groundY, held, b, n - 1))
  }

  /** With the jump key released, a character that is not airborne stays
      exactly where it is, however many frames pass (also when it was left
      off the ground line, as a collision reset can do). */
  lemma {:induction false} RestsWithoutInput(p: Physics, groundY: int, b: Body, n: nat)
    requires !b.isJumping
    ensures Fly(p, groundY, false, b, n) == b
  {
    if n > 0 {
      RestsWithoutInput(p, groundY, b, n - 1);
    }
  }

  /** Height above the ground line after k calls of a jump of strength J under
      gravity 1: the velocity after call i is i - J. */
  function Height(J: int, k: nat): int {
    if k == 0 then 0 else Height(J, k - 1) + J - k
  }

  lemma {:induction false} HeightClosedForm(J: int, k: nat)
    ensures 2 * Height(J, k) == k * (2 * J - k - 1)
  {
    if k > 0 {
      HeightClosedForm(J, k - 1);
    }
  }

  /** Strictly above ground between the first call and call 2J - 1, back on it
      at call 2J - 1. */
  lemma HeightSign(J: int, k: nat)
    requires J >= 1 && 1 <= k <= 2 * J - 1
    ensures k < 2 * J - 1 ==> Height(J, k) > 0
    ensures k == 2 * J - 1 ==> Height(J, k) == 0
  {
    HeightClosedForm(J, k);
    if k < 2 * J - 1 {
      PositiveProduct(k, 2 * J - k - 1);
    }
  }

  lemma PositiveProduct(a: int, b: int)
    requires a >= 1 && b >= 1
    ensures a * b >= 1
  {
    assert a * b == (a - 1) * b + b;
    assert (a - 1) * b >= 0;
  }

  /** The highest point of the jump is J(J-1)/2 above ground, reached after J
      calls. */
  lemma HeightPeak(J: int, k: nat)
    requires J >= 1
    ensures 2 * Height(J, k) <= J * (J - 1)
    ensures 2 * Height(J, J) == J * (J - 1)
  {
    HeightClosedForm(J, k);
    HeightClosedForm(J, J);
    PeakGap(J, k);
    ConsecutiveProduct(J - k);
  }

  /** How far below the peak the closed form is after k calls. */
  lemma PeakGap(J: int, k: int)
    ensures J * (J - 1) - k * (2 * J - k - 1) == (J - k) * (J - k - 1)
  {
  }

  /** The product of two consecutive integers is never negative. */
  lemma ConsecutiveProduct(m: int)
    ensures m * (m - 1) >= 0
  {
    if m < 0 {
      assert m * (m - 1) == (-m) * (1 - m);
    }
  }

  /** A jump of strength J >= 1 under gravity 1, started from rest on the
      ground line: after k calls (the first one being the one that starts the
      jump) the character is Height(J, k) above ground with velocity k - J,
      until the call 2J - 1, which lands it. Whether the jump key stays held
      does not matter while airborne. */
  lemma {:induction false} JumpArc(J: int, groundY: int, held: bool, k: nat)
    requires J >= 1 && 1 <= k <= 2 * J - 1
    ensures var p := Physics(J, 1);
            var b := Fly(p, groundY, held, Step(p, groundY, true, Grounded(groundY)), k - 1);
            if k < 2 * J - 1 then b == Body(groundY - Height(J, k), k - J, true)
            else b == Grounded(groundY)
  {
    HeightSign(J, k);
    if k > 1 {
      JumpArc(J, groundY, held, k - 1);
      HeightSign(J, k - 1);
    }
  }

  /** game.js, realfinal.js and testting.js (jump strength 20, gravity 1): a
      jump from the ground lands on exactly the 39th call of updateCharacter
      and peaks 190 units above the ground line after the 20th. */
  lemma JumpOfStrength20(groundY: int, held: bool, k: nat)
    requires 1 <= k <= 39
    ensures var p := Physics(20, 1);
            var b := Fly(p, groundY, held, Step(p, groundY, true, Grounded(groundY)), k - 1);
            (b.isJumping <==> k < 39) && groundY - 190 <= b.y <= groundY &&
            (k == 20 ==> b.y == groundY - 190) && (k == 39 ==> b == Grounded(groundY))
  {
    JumpArc(20, groundY, held, k);
    HeightPeak(20, k);
    HeightSign(20, k);
  }

  /** ai.js, script.js and final.js (jump strength 25, gravity 1): the jump
      lands on exactly the 49th call and peaks 300 units above ground. */
  lemma JumpOfStrength25(groundY: int, held: bool, k: nat)
    requires 1 <= k <= 49
    ensures var p := Physics(25, 1);
            var b := Fly(p, groundY, held, Step(p, groundY, true, Grounded(groundY)), k - 1);
            (b.isJumping <==> k < 49) && groundY - 300 <= b.y <= groundY &&
            (k == 25 ==> b.y == groundY - 300) && (k == 49 ==> b == Grounded(groundY))
  {
    JumpArc(25, groundY, held, k);
    HeightPeak(25, k);
    HeightSign(25, k);
  }
}
