/** The per-frame simulation of realfinal.js and of its reduced variants
    testting.js (no archers, collisions reset the character), game.js (no
    attack either) and final.js (no animation, collisions only logged). The
    globals of those scripts are the fields of one `World`; the differences
    between the scripts are the constants and feature switches of a
    `Config`. Each update function of the scripts is one method, and
    `GameLoop` calls them in the order of the game loop of realfinal.js. */
module Simulation {
  import opened Wrappers
  import opened Geometry
  import opened Animation
  import opened Character
  import opened Input
  import opened Entities

  /** What checkCollisions does when the character touches an active enemy:
      endGame (realfinal.js), resetCharacter (testting.js, game.js) or only a
      console message (final.js). */
  datatype Response = EndGame | ResetCharacter | LogOnly

  datatype Config = Config(characterSize: int, characterSpeed: int, jumpStrength: int, gravity: int,
                           enemySize: int, enemySpeed: int, response: Response,
                           hasAttack: bool, hasArchers: bool, hasAnimation: bool)

  const RealFinal := Config(75, 15, 20, 1, 65, 3, EndGame, true, true, true)
  const Testting := Config(75, 10, 20, 1, 65, 3, ResetCharacter, true, false, true)
  const GameJs := Config(75, 10, 20, 1, 65, 3, ResetCharacter, false, false, true)
  const FinalJs := Config(75, 13, 25, 1, 60, 5, LogOnly, false, false, false)

  // The STATES table. realfinal.js and testting.js also declare an ATTACKING
  // state, but no statement ever assigns it.
  datatype AnimState = Running | Jumping

  /** The animation part of the character descriptor state: the state, the
      attack flag and the running, jumping and attack cursors. */
  datatype Pose = Pose(state: AnimState, isAttacking: bool, running: Cursor, jumping: Cursor, attack: Cursor)

  /** Each cursor of the pose is one the update rules keep for its sheet. */
  predicate PoseInRange(p: Pose) {
    InRange(RunningSheet, p.running) && InRange(JumpingSheet, p.jumping) && InRange(AttackSheet, p.attack)
  }

  /** The movementSpeed updateBackground leaves: written by Left, then
      overwritten by Right. */
  function MovementSpeed(keys: set<string>, speed: int): (r: int)
    ensures ArrowRight in keys ==> r == speed
    ensures ArrowLeft in keys && ArrowRight !in keys ==> r == -speed
    ensures ArrowLeft !in keys && ArrowRight !in keys ==> r == 0
  {
    if ArrowRight in keys then speed else if ArrowLeft in keys then -speed else 0
  }

  /** What updateCharacter does to the pose in the animated variants: a jump
      start switches to jumping and rewinds the jump sheet, a landing switches
      to running; a grounded call without a jump start changes nothing. */
  function JumpPose(animated: bool, started: bool, wasJumping: bool, nowJumping: bool, p: Pose): (r: Pose)
    ensures PoseInRange(p) ==> PoseInRange(r)
    ensures r.isAttacking == p.isAttacking && r.running == p.running && r.attack == p.attack
    ensures animated && (started || wasJumping) && !nowJumping ==> r.state == Running
    ensures animated && started && !wasJumping && nowJumping ==> r.state == Jumping && r.jumping.currentFrame == 0
    ensures !animated || !(started || wasJumping) ==> r == p
  {
    if !animated || (!wasJumping && !started) then p
    else p.(state := if nowJumping then (if wasJumping then p.state else Jumping) else Running,
            jumping := if started then p.jumping.(currentFrame := 0) else p.jumping)
  }

  /** updateCharacterAnimation on the pose, with `moving` whether a
      horizontal key is held and `rising` whether the vertical velocity is
      negative: the attack sheet while attacking, else the running or the
      jumping sheet by the state. */
  function AnimatePose(p: Pose, moving: bool, rising: bool): (r: Pose)
    ensures PoseInRange(p) ==> PoseInRange(r)
    ensures p.isAttacking ==> (r.attack, r.isAttacking) == AttackTick(AttackSheet, p.attack) &&
                              r.running == p.running && r.jumping == p.jumping
    ensures p.isAttacking && !r.isAttacking ==> r.state == Running
    ensures !p.isAttacking ==> !r.isAttacking && r.state == p.state && r.attack == p.attack
    ensures !p.isAttacking && p.state == Running ==> r.jumping == p.jumping
    ensures !p.isAttacking && p.state == Jumping ==> r.running == p.running
  {
    if p.isAttacking then
      var (c, going) := AttackTick(AttackSheet, p.attack);
      p.(attack := c, isAttacking := going, state := if going then p.state else Running)
    else if p.state == Running then
      p.(running := if moving then Cycle(RunningSheet, p.running) else p.running.(currentFrame := 0))
    else
      p.(jumping := JumpTick(JumpingSheet, p.jumping, rising))
  }

  // resetCharacter puts the character here.
  const StartingX := 450
  const StartingY := 670

  /** The body of the updateArcherEnemies callback for an active archer,
      statement by statement: walk, maybe switch to shooting, count a shot
      and maybe release an arrow, then recompute the screen x. */
  method AdvanceArcher(offsetX: int, canvasWidth: int, a: Archer) returns (b: Archer, shot: Option<Arrow>)
    ensures (b, shot) == ArcherAdvance(offsetX, canvasWidth, a)
  {
    b := a;
    shot := None;
    if b.state == Walking {
      b := b.(worldX := b.worldX - ArcherEnemySpeed);
      if b.worldX <= offsetX + canvasWidth - b.walkDistance {
        b := b.(state := Shooting, shootTimer := 0, anim := Cursor(0, 0));
      }
    }
    if b.state == Shooting {
      b := b.(shootTimer := b.shootTimer + 1);
      if b.shootTimer % ShotPeriod == 0 {
        shot := Some(Arrow(None, b.y + ArcherEnemySize / 2, b.worldX, true));
      }
    }
    b := b.(x := b.worldX - offsetX);
  }

  /** The callback of updateArcherEnemies for one archer: an inactive one is
      dropped, an active one advances and stays while in range; the arrow it
      may shoot is handed back to be pushed. */
  method FilterArcher(offsetX: int, canvasWidth: int, a: Archer) returns (kept: Option<Archer>, shot: Option<Arrow>)
    ensures (kept, shot) == ArcherStep(offsetX, canvasWidth, a)
  {
    kept, shot := None, None;
    if a.active {
      var moved;
      moved, shot := AdvanceArcher(offsetX, canvasWidth, a);
      if ArcherInRange(canvasWidth, moved) {
        kept := Some(moved);
      }
    }
  }

  /** The filter loop of updateArcherEnemies over the list `s`: the archers
      kept, in order, and the arrows pushed, in the order of the archers that
      shot them. */
  method PassArchers(s: seq<Archer>, offsetX: int, canvasWidth: int) returns (kept: seq<Archer>, shots: seq<Arrow>)
    ensures (kept, shots) == ArcherPass(s, offsetX, canvasWidth)
  {
    kept, shots := [], [];
    for i := 0 to |s|
      invariant kept == ArcherPass(s[..i], offsetX, canvasWidth).0
      invariant shots == ArcherPass(s[..i], offsetX, canvasWidth).1
    {
      ArcherPassSnoc(s, i, offsetX, canvasWidth);
      var survivor, shot := FilterArcher(offsetX, canvasWidth, s[i]);
      if shot.Some? {
        shots := shots + [shot.value];
      }
      if survivor.Some? {
        kept := kept + [survivor.value];
      }
    }
    assert s[..|s|] == s;
  }

  class World {
    const cfg: Config
    const canvasWidth: int
    const canvasHeight: int

    var characterX: int
    var characterY: int
    var velocityY: int
    var isJumping: bool
    var currentState: AnimState
    var offsetX: int
    var movementSpeed: int
    // The keys whose entry in the `keys` object is true.
    var keys: set<string>
    var isAttacking: bool
    var runningFrames: Cursor
    var jumpingFrames: Cursor
    var attackFrames: Cursor
    var enemyFrames: Cursor
    var enemies: seq<Enemy>
    var archerEnemies: seq<Archer>
    var arrows: seq<Arrow>
    var isGameOver: bool

    /** What every frame keeps: each cursor is a frame of its sheet with its
        counter at most the delay (the attack descriptor starts with its
        counter at the delay), each archer's cursor belongs to the sheet of its
        state, and features a variant lacks stay switched off. */
    predicate Valid()
      reads this
    {
      InRange(RunningSheet, runningFrames) && InRange(JumpingSheet, jumpingFrames) &&
      InRange(AttackSheet, attackFrames) && InRange(EnemySheet, enemyFrames) &&
      (isAttacking ==> cfg.hasAttack) &&
      (!cfg.hasArchers ==> archerEnemies == [] && arrows == []) &&
      (forall i :: 0 <= i < |archerEnemies| ==> ArcherAnimOk(archerEnemies[i]))
    }

    /** The top-level initialisation of the script, after the first
        resizeCanvas: the character stands on the ground line at the given x. */
    constructor (cfg: Config, canvasWidth: int, canvasHeight: int, characterX: int)
      ensures this.cfg == cfg && this.canvasWidth == canvasWidth && this.canvasHeight == canvasHeight
      ensures this.characterX == characterX && characterY == canvasHeight - cfg.characterSize
      ensures velocityY == 0 && !isJumping && currentState == Running
      ensures offsetX == 0 && movementSpeed == 0 && keys == {} && !isAttacking
      ensures runningFrames == RunningStart && jumpingFrames == JumpingStart
      ensures attackFrames == AttackStart && enemyFrames == EnemyStart
      ensures enemies == [] && archerEnemies == [] && arrows == [] && !isGameOver
      ensures Valid()
    {
      this.cfg := cfg;
      this.canvasWidth := canvasWidth;
      this.canvasHeight := canvasHeight;
      this.characterX := characterX;
      characterY := canvasHeight - cfg.characterSize;
      velocityY := 0;
      isJumping := false;
      currentState := Running;
      offsetX := 0;
      movementSpeed := 0;
      keys := {};
      isAttacking := false;
      runningFrames := RunningStart;
      jumpingFrames := JumpingStart;
      attackFrames := AttackStart;
      enemyFrames := EnemyStart;
      enemies := [];
      archerEnemies := [];
      arrows := [];
      isGameOver := false;
    }

    function CurrentPose(): Pose
      reads this
    {
      Pose(currentState, isAttacking, runningFrames, jumpingFrames, attackFrames)
    }

    function GroundY(): int {
      canvasHeight - cfg.characterSize
    }

    /** The keydown listener: the key is recorded as held; in the variants with
        an attack, the space bar starts one unless one is in progress, from
        frame 0 (the frame counter is left as it is). */
    method OnKeyDown(key: string)
      requires Valid()
      modifies this`keys, this`isAttacking, this`attackFrames
      ensures keys == old(keys) + {key}
      ensures isAttacking == (old(isAttacking) || (cfg.hasAttack && key == AttackKey))
      ensures attackFrames == if cfg.hasAttack && key == AttackKey && !old(isAttacking)
                              then old(attackFrames).(currentFrame := 0) else old(attackFrames)
      ensures Valid()
    {
      keys := keys + {key};
      if cfg.hasAttack && key == AttackKey && !isAttacking {
        isAttacking := true;
        attackFrames := attackFrames.(currentFrame := 0);
      }
    }

    /** The keyup listener. */
    method OnKeyUp(key: string)
      requires Valid()
      modifies this`keys
      ensures keys == old(keys) - {key}
      ensures Valid()
    {
      keys := keys - {key};
    }

    /** updateBackground: each held horizontal key moves the view by the
        character speed, Right after Left, so with both held the view stays
        put while movementSpeed is the last one written, +characterSpeed. */
    method UpdateBackground()
      modifies this`offsetX, this`movementSpeed
      ensures ArrowLeft in keys && ArrowRight !in keys ==>
                offsetX == old(offsetX) - cfg.characterSpeed && movementSpeed == -cfg.characterSpeed
      ensures ArrowRight in keys && ArrowLeft !in keys ==>
                offsetX == old(offsetX) + cfg.characterSpeed && movementSpeed == cfg.characterSpeed
      ensures ArrowLeft in keys && ArrowRight in keys ==>
                offsetX == old(offsetX) && movementSpeed == cfg.characterSpeed
      ensures ArrowLeft !in keys && ArrowRight !in keys ==>
                offsetX == old(offsetX) && movementSpeed == 0
      ensures offsetX == old(offsetX) + NetScroll(keys, cfg.characterSpeed)
      ensures movementSpeed == MovementSpeed(keys, cfg.characterSpeed)
    {
      movementSpeed := 0;
      if ArrowLeft in keys {
        offsetX := offsetX - cfg.characterSpeed;
        movementSpeed := -cfg.characterSpeed;
      }
      if ArrowRight in keys {
        offsetX := offsetX + cfg.characterSpeed;
        movementSpeed := cfg.characterSpeed;
      }
    }

    /** updateCharacter: the vertical state moves as `Step` says. In the
        animated variants, a jump start also switches to the jumping state and
        rewinds the jump sheet to frame 0, and the landing call switches back
        to running. */
    method UpdateCharacter()
      requires Valid()
      modifies this`characterY, this`velocityY, this`isJumping, this`currentState, this`jumpingFrames
      ensures Body(characterY, velocityY, isJumping) ==
              Step(Physics(cfg.jumpStrength, cfg.gravity), GroundY(), ArrowUp in keys,
                   Body(old(characterY), old(velocityY), old(isJumping)))
      ensures var started := ArrowUp in keys && !old(isJumping);
              jumpingFrames == if cfg.hasAnimation && started then old(jumpingFrames).(currentFrame := 0)
                               else old(jumpingFrames)
      ensures currentState ==
              if !cfg.hasAnimation || (!old(isJumping) && ArrowUp !in keys) then old(currentState)
              else if isJumping then (if old(isJumping) then old(currentState) else Jumping)
              else Running
      ensures CurrentPose() == JumpPose(cfg.hasAnimation, ArrowUp in keys && !old(isJumping), old(isJumping), isJumping,
                                        old(CurrentPose()))
      ensures Valid()
    {
      if ArrowUp in keys && !isJumping {
        isJumping := true;
        velocityY := -cfg.jumpStrength;
        if cfg.hasAnimation {
          currentState := Jumping;
          jumpingFrames := jumpingFrames.(currentFrame := 0);
        }
      }
      if isJumping {
        velocityY := velocityY + cfg.gravity;
        characterY := characterY + velocityY;
        if characterY >= GroundY() {
          characterY := GroundY();
          isJumping := false;
          velocityY := 0;
          if cfg.hasAnimation {
            currentState := Running;
          }
        }
      }
    }

    /** updateCharacterAnimation: the attack sheet plays while an attack is in
        progress and ends it (back in the running state) after its last frame;
        otherwise the running sheet cycles while a horizontal key is held and
        rewinds to frame 0 when none is, or the jump sheet climbs its rising or
        falling band according to the sign of the vertical velocity. */
    method UpdateCharacterAnimation()
      requires Valid()
      modifies this`attackFrames, this`isAttacking, this`currentState, this`runningFrames, this`jumpingFrames
      ensures old(isAttacking) ==>
                (attackFrames, isAttacking) == AttackTick(AttackSheet, old(attackFrames)) &&
                currentState == (if isAttacking then old(currentState) else Running) &&
                runningFrames == old(runningFrames) && jumpingFrames == old(jumpingFrames)
      ensures !old(isAttacking) && old(currentState) == Running ==>
                runningFrames == (if ArrowLeft in keys || ArrowRight in keys then Cycle(RunningSheet, old(runningFrames))
                                  else old(runningFrames).(currentFrame := 0)) &&
                jumpingFrames == old(jumpingFrames)
      ensures !old(isAttacking) && old(currentState) == Jumping ==>
                jumpingFrames == JumpTick(JumpingSheet, old(jumpingFrames), velocityY < 0) &&
                runningFrames == old(runningFrames)
      ensures !old(isAttacking) ==>
                attackFrames == old(attackFrames) && !isAttacking && currentState == old(currentState)
      ensures CurrentPose() == AnimatePose(old(CurrentPose()), ArrowLeft in keys || ArrowRight in keys, velocityY < 0)
      ensures Valid()
    {
      if isAttacking {
        attackFrames := attackFrames.(frameCounter := attackFrames.frameCounter + 1);
        if attackFrames.frameCounter >= AttackSheet.frameDelay {
          attackFrames := Cursor(attackFrames.currentFrame + 1, 0);
          if attackFrames.currentFrame >= AttackSheet.totalFrames {
            isAttacking := false;
            attackFrames := attackFrames.(currentFrame := 0);
            currentState := Running;
          }
        }
      } else if currentState == Running {
        if ArrowLeft in keys || ArrowRight in keys {
          runningFrames := runningFrames.(frameCounter := runningFrames.frameCounter + 1);
          if runningFrames.frameCounter >= RunningSheet.frameDelay {
            runningFrames := Cursor((runningFrames.currentFrame + 1) % RunningSheet.totalFrames, 0);
          }
        } else {
          runningFrames := runningFrames.(currentFrame := 0);
        }
      } else {
        jumpingFrames := jumpingFrames.(frameCounter := jumpingFrames.frameCounter + 1);
        if jumpingFrames.frameCounter >= JumpingSheet.frameDelay {
          jumpingFrames := jumpingFrames.(frameCounter := 0);
          if velocityY < 0 {
            jumpingFrames := jumpingFrames.(currentFrame := Min(LastRisingFrame, jumpingFrames.currentFrame + 1));
          } else {
            jumpingFrames := jumpingFrames.(currentFrame :=
              Min(LastFallingFrame, Max(FirstFallingFrame, jumpingFrames.currentFrame + 1)));
          }
        }
      }
    }

    /** spawnEnemy: one more active enemy just beyond the right edge, by one
        enemy width, standing on the bottom of the canvas. */
    method SpawnEnemy()
      modifies this`enemies
      ensures enemies == old(enemies) + [Enemy(canvasWidth + cfg.enemySize, canvasHeight - cfg.enemySize, true)]
    {
      enemies := enemies + [Enemy(canvasWidth + cfg.enemySize, canvasHeight - cfg.enemySize, true)];
    }

    /** updateEnemies: the filter over the list, moving each active enemy left
        by enemySpeed + movementSpeed and keeping it while x > -enemySize. */
    method UpdateEnemies()
      modifies this`enemies
      ensures enemies == UpdateEnemyList(old(enemies), cfg.enemySpeed + movementSpeed, cfg.enemySize)
    {
      var shift := cfg.enemySpeed + movementSpeed;
      var s := enemies;
      var kept: seq<Enemy> := [];
      for i := 0 to |s|
        invariant kept == UpdateEnemyList(s[..i], shift, cfg.enemySize)
      {
        var enemy := s[i];
        UpdateEnemyListSnoc(s[..i], enemy, shift, cfg.enemySize);
        assert s[..i + 1] == s[..i] + [enemy];
        if enemy.active {
          enemy := enemy.(x := enemy.x - shift);
          if enemy.x > -cfg.enemySize {
            kept := kept + [enemy];
          }
        }
      }
      assert s[..|s|] == s;
      enemies := kept;
    }

    /** updateEnemyAnimation: the one enemy cursor shared by all enemies. */
    method UpdateEnemyAnimation()
      modifies this`enemyFrames
      ensures enemyFrames == Cycle(EnemySheet, old(enemyFrames))
    {
      enemyFrames := enemyFrames.(frameCounter := enemyFrames.frameCounter + 1);
      if enemyFrames.frameCounter >= EnemySheet.frameDelay {
        enemyFrames := Cursor((enemyFrames.currentFrame + 1) % EnemySheet.totalFrames, 0);
      }
    }

    /** spawnArcherEnemy (realfinal.js only). */
    method SpawnArcherEnemy()
      requires Valid() && cfg.hasArchers
      modifies this`archerEnemies
      ensures archerEnemies == old(archerEnemies) + [SpawnedArcher(offsetX, canvasWidth, canvasHeight)]
      ensures Valid()
    {
      archerEnemies := archerEnemies + [SpawnedArcher(offsetX, canvasWidth, canvasHeight)];
    }

    /** updateArcherEnemies: the filter over the archers, which advances each
        active archer (walking, switching, shooting), appends the arrows they
        shoot to the arrow list in archer order, and keeps the archers in
        range. */
    method UpdateArcherEnemies()
      requires Valid() && cfg.hasArchers
      modifies this`archerEnemies, this`arrows
      ensures archerEnemies == ArcherPass(old(archerEnemies), offsetX, canvasWidth).0
      ensures arrows == old(arrows) + ArcherPass(old(archerEnemies), offsetX, canvasWidth).1
      ensures Valid()
    {
      var kept, shots := PassArchers(archerEnemies, offsetX, canvasWidth);
      ArcherPassKeepsAnimation(archerEnemies, offsetX, canvasWidth);
      archerEnemies := kept;
      arrows := arrows + shots;
    }

    /** updateArcherEnemyAnimation: every active archer's own cursor cycles on
        the sheet of its state; the list itself keeps its length and order. */
    method UpdateArcherEnemyAnimation()
      requires Valid()
      modifies this`archerEnemies
      ensures |archerEnemies| == |old(archerEnemies)|
      ensures forall i :: 0 <= i < |archerEnemies| ==> archerEnemies[i] == AnimateArcher(old(archerEnemies)[i])
      ensures archerEnemies == AnimateArchers(old(archerEnemies))
      ensures Valid()
    {
      for i := 0 to |archerEnemies|
        invariant |archerEnemies| == |old(archerEnemies)|
        invariant forall j :: 0 <= j < i ==> archerEnemies[j] == AnimateArcher(old(archerEnemies)[j])
        invariant forall j :: i <= j < |archerEnemies| ==> archerEnemies[j] == old(archerEnemies)[j]
        invariant Valid()
      {
        var archer := archerEnemies[i];
        if archer.active {
          var sheet := ArcherSheet(archer.state);
          var c := archer.anim.(frameCounter := archer.anim.frameCounter + 1);
          if c.frameCounter >= sheet.frameDelay {
            c := Cursor((c.currentFrame + 1) % sheet.totalFrames, 0);
          }
          archerEnemies := archerEnemies[i := archer.(anim := c)];
        }
      }
    }

    /** updateArrows: the filter over the arrows, moving each active one left
        in world space and keeping it while its screen x is near the canvas. */
    method UpdateArrows()
      requires Valid() && cfg.hasArchers
      modifies this`arrows
      ensures arrows == UpdateArrowList(old(arrows), offsetX, canvasWidth)
      ensures Valid()
    {
      var s := arrows;
      var kept: seq<Arrow> := [];
      for i := 0 to |s|
        invariant kept == UpdateArrowList(s[..i], offsetX, canvasWidth)
      {
        var arrow := s[i];
        UpdateArrowListSnoc(s[..i], arrow, offsetX, canvasWidth);
        assert s[..i + 1] == s[..i] + [arrow];
        if arrow.active {
          arrow := arrow.(worldX := arrow.worldX - ArrowSpeed);
          arrow := arrow.(x := Some(arrow.worldX - offsetX));
          if -ArrowMargin < arrow.x.value < canvasWidth + ArrowMargin {
            kept := kept + [arrow];
          }
        }
      }
      assert s[..|s|] == s;
      arrows := kept;
    }

    /** checkCollisions: the character's hitbox is computed once, before the
        pass, and every active enemy whose hitbox strictly overlaps it triggers
        the variant's response. Enemies themselves are never changed. */
    method CheckCollisions()
      modifies this`characterX, this`characterY, this`isGameOver
      ensures var hit := AnyEnemyTouches(CharacterHitbox(old(characterX), old(characterY), cfg.characterSize),
                                         enemies, cfg.enemySize);
              match cfg.response
              case EndGame =>
                isGameOver == (old(isGameOver) || hit) &&
                characterX == old(characterX) && characterY == old(characterY)
              case ResetCharacter =>
                isGameOver == old(isGameOver) &&
                (characterX, characterY) == (if hit then (StartingX, StartingY) else (old(characterX), old(characterY)))
              case LogOnly =>
                isGameOver == old(isGameOver) && characterX == old(characterX) && characterY == old(characterY)
    {
      var box := CharacterHitbox(characterX, characterY, cfg.characterSize);
      var hit := false;
      for i := 0 to |enemies|
        invariant hit == exists j :: 0 <= j < i && EnemyTouches(box, enemies[j], cfg.enemySize)
        invariant match cfg.response
                  case EndGame =>
                    isGameOver == (old(isGameOver) || hit) &&
                    characterX == old(characterX) && characterY == old(characterY)
                  case ResetCharacter =>
                    isGameOver == old(isGameOver) &&
                    (characterX, characterY) == (if hit then (StartingX, StartingY) else (old(characterX), old(characterY)))
                  case LogOnly =>
                    isGameOver == old(isGameOver) && characterX == old(characterX) && characterY == old(characterY)
      {
        var enemy := enemies[i];
        assert EnemyTouches(box, enemy, cfg.enemySize) <==> enemy.active && Overlaps(box, EnemyHitbox(enemy, cfg.enemySize));
        if enemy.active && Overlaps(box, EnemyHitbox(enemy, cfg.enemySize)) {
          hit := true;
          match cfg.response {
            case EndGame =>
              isGameOver := true;
            case ResetCharacter =>
              characterX := StartingX;
              characterY := StartingY;
            case LogOnly =>
          }
        }
        assert hit == ((exists j :: 0 <= j < i && EnemyTouches(box, enemies[j], cfg.enemySize)) ||
                       EnemyTouches(box, enemies[i], cfg.enemySize));
      }
    }

    /** checkAttackCollisions: nothing unless an attack is in progress;
        otherwise exactly the active enemies, and then (realfinal.js) the
        active archers, whose hitboxes strictly overlap the attack box are
        deactivated. The lists keep their length: the dead stay until the next
        frame's filter. */
    method CheckAttackCollisions()
      requires Valid()
      modifies this`enemies, this`archerEnemies
      ensures var box := AttackHitbox(characterX, characterY, cfg.characterSize);
              |enemies| == |old(enemies)| &&
              forall i :: 0 <= i < |enemies| ==>
                enemies[i] == if old(isAttacking) && EnemyTouches(box, old(enemies)[i], cfg.enemySize)
                              then old(enemies)[i].(active := false) else old(enemies)[i]
      ensures var box := AttackHitbox(characterX, characterY, cfg.characterSize);
              |archerEnemies| == |old(archerEnemies)| &&
              forall i :: 0 <= i < |archerEnemies| ==>
                archerEnemies[i] == if old(isAttacking) && ArcherTouches(box, old(archerEnemies)[i])
                                    then old(archerEnemies)[i].(active := false) else old(archerEnemies)[i]
      ensures Valid()
    {
      if !isAttacking {
        return;
      }
      var box := AttackHitbox(characterX, characterY, cfg.characterSize);
      for i := 0 to |enemies|
        invariant |enemies| == |old(enemies)|
        invariant forall j :: 0 <= j < i ==>
                    enemies[j] == if EnemyTouches(box, old(enemies)[j], cfg.enemySize)
                                  then old(enemies)[j].(active := false) else old(enemies)[j]
        invariant forall j :: i <= j < |enemies| ==> enemies[j] == old(enemies)[j]
        invariant archerEnemies == old(archerEnemies)
      {
        var enemy := enemies[i];
        if enemy.active && Overlaps(box, EnemyHitbox(enemy, cfg.enemySize)) {
          enemies := enemies[i := enemy.(active := false)];
        }
      }
      if cfg.hasArchers {
        ghost var struck := enemies;
        for i := 0 to |archerEnemies|
          invariant enemies == struck
          invariant |archerEnemies| == |old(archerEnemies)|
          invariant forall j :: 0 <= j < i ==>
                      archerEnemies[j] == if ArcherTouches(box, old(archerEnemies)[j])
                                          then old(archerEnemies)[j].(active := false) else old(archerEnemies)[j]
          invariant forall j :: i <= j < |archerEnemies| ==> archerEnemies[j] == old(archerEnemies)[j]
          invariant forall j :: 0 <= j < |archerEnemies| ==> ArcherAnimOk(archerEnemies[j])
        {
          var archer := archerEnemies[i];
          if archer.active && Overlaps(box, ArcherHitbox(archer)) {
            archerEnemies := archerEnemies[i := archer.(active := false)];
          }
        }
      }
    }

    /** checkArrowCollisions: every arrow (active or not) whose box strictly
        overlaps the character's hitbox ends the game and is deactivated;
        other arrows are untouched. */
    method CheckArrowCollisions()
      requires Valid()
      modifies this`arrows, this`isGameOver
      ensures var box := CharacterHitbox(characterX, characterY, cfg.characterSize);
              |arrows| == |old(arrows)| &&
              (forall i :: 0 <= i < |arrows| ==>
                 arrows[i] == if ArrowTouches(box, old(arrows)[i]) then old(arrows)[i].(active := false)
                              else old(arrows)[i]) &&
              isGameOver == (old(isGameOver) || AnyArrowTouches(box, old(arrows)))
      ensures Valid()
    {
      var box := CharacterHitbox(characterX, characterY, cfg.characterSize);
      for i := 0 to |arrows|
        invariant |arrows| == |old(arrows)|
        invariant forall j :: 0 <= j < i ==>
                    arrows[j] == if ArrowTouches(box, old(arrows)[j]) then old(arrows)[j].(active := false)
                                 else old(arrows)[j]
        invariant forall j :: i <= j < |arrows| ==> arrows[j] == old(arrows)[j]
        invariant isGameOver == (old(isGameOver) || exists j :: 0 <= j < i && ArrowTouches(box, old(arrows)[j]))
        invariant !cfg.hasArchers ==> arrows == []
      {
        var arrow := arrows[i];
        if arrow.x.Some? && Overlaps(box, Box(arrow.x.value, arrow.y, ArrowWidth, ArrowHeight)) {
          isGameOver := true;
          arrows := arrows[i := arrow.(active := false)];
        }
      }
    }

    /** The sheet drawCharacter draws from (attacking first, then running,
        else jumping) and the left edge of the current frame on it, which
        lies within the strip of frames. */
    function DrawnFrame(): (r: (Sheet, int))
      reads this
      requires Valid()
      ensures r.0 == if isAttacking then AttackSheet else if currentState == Running then RunningSheet else JumpingSheet
      ensures 0 <= r.1 && r.1 + r.0.frameWidth <= r.0.totalFrames * (r.0.frameWidth + r.0.gap) - r.0.gap
    {
      var (sheet, cursor) :=
        if isAttacking then (AttackSheet, attackFrames)
        else if currentState == Running then (RunningSheet, runningFrames)
        else (JumpingSheet, jumpingFrames);
      FrameRectangles(sheet, cursor, cursor);
      (sheet, FrameX(sheet, cursor))
    }

    /** After the update functions have run, every listed enemy lies within
        the pruning bound and every arrow has a screen x near the canvas. */
    predicate Pruned()
      reads this
    {
      (forall i :: 0 <= i < |enemies| ==> enemies[i].x > -cfg.enemySize) &&
      (forall i :: 0 <= i < |arrows| ==>
         arrows[i].x.Some? && -ArrowMargin < arrows[i].x.value < canvasWidth + ArrowMargin)
    }

    /** The character half of the update: updateBackground, updateCharacter
        and (in the animated variants) updateCharacterAnimation. */
    method UpdatePlayer()
      requires Valid()
      modifies this`offsetX, this`movementSpeed, this`characterY, this`velocityY, this`isJumping,
               this`currentState, this`runningFrames, this`jumpingFrames, this`attackFrames, this`isAttacking
      ensures offsetX == old(offsetX) + NetScroll(keys, cfg.characterSpeed)
      ensures movementSpeed == MovementSpeed(keys, cfg.characterSpeed)
      ensures Body(characterY, velocityY, isJumping) ==
              Step(Physics(cfg.jumpStrength, cfg.gravity), GroundY(), ArrowUp in keys,
                   Body(old(characterY), old(velocityY), old(isJumping)))
      ensures var jumped := JumpPose(cfg.hasAnimation, ArrowUp in keys && !old(isJumping), old(isJumping), isJumping,
                                     old(CurrentPose()));
              CurrentPose() == if cfg.hasAnimation
                              then AnimatePose(jumped, ArrowLeft in keys || ArrowRight in keys, velocityY < 0)
                              else jumped
      ensures Valid()
    {
      UpdateBackground();
      UpdateCharacter();
      if cfg.hasAnimation {
        UpdateCharacterAnimation();
      }
    }

    /** The entity half of the update: updateEnemies, updateEnemyAnimation
        and (realfinal.js) the archer and arrow updates, in that order. The
        archer pass is bound by `forall pass | pass == ArcherPass(..)` rather
        than by `var`: the two say the same, and the quantified form is only
        expanded where a caller's proof asks for it. */
    method UpdateEntities()
      requires Valid()
      modifies this`enemies, this`enemyFrames, this`archerEnemies, this`arrows
      ensures enemies == UpdateEnemyList(old(enemies), cfg.enemySpeed + movementSpeed, cfg.enemySize)
      ensures enemyFrames == if cfg.hasAnimation then Cycle(EnemySheet, old(enemyFrames)) else old(enemyFrames)
      ensures forall pass | pass == ArcherPass(old(archerEnemies), offsetX, canvasWidth) ::
                archerEnemies == AnimateArchers(pass.0) &&
                arrows == UpdateArrowList(old(arrows) + pass.1, offsetX, canvasWidth)
      ensures Valid() && Pruned()
    {
      UpdateEnemies();
      UpdateEnemyListPruned(old(enemies), cfg.enemySpeed + movementSpeed, cfg.enemySize);
      if cfg.hasAnimation {
        UpdateEnemyAnimation();
      }
      if cfg.hasArchers {
        UpdateRanged();
      } else {
        assert archerEnemies == [] && arrows == [];
        assert ArcherPass([], offsetX, canvasWidth) == ([], []);
        assert UpdateArrowList([], offsetX, canvasWidth) == [];
      }
    }

    /** The archer and arrow updates of realfinal.js: archers move and shoot,
        their cursors advance, and the arrows (the new ones included) move. */
    method UpdateRanged()
      requires Valid() && cfg.hasArchers
      modifies this`archerEnemies, this`arrows
      ensures forall pass | pass == ArcherPass(old(archerEnemies), offsetX, canvasWidth) ::
                archerEnemies == AnimateArchers(pass.0) &&
                arrows == UpdateArrowList(old(arrows) + pass.1, offsetX, canvasWidth)
      ensures Valid()
      ensures forall i :: 0 <= i < |arrows| ==>
                arrows[i].x.Some? && -ArrowMargin < arrows[i].x.value < canvasWidth + ArrowMargin
    {
      UpdateArcherEnemies();
      ghost var pushed := arrows;
      UpdateArcherEnemyAnimation();
      UpdateArrows();
      UpdateArrowListPruned(pushed, offsetX, canvasWidth);
    }

    /** The three collision passes, in order. They only flip active flags and
        move or end the game, so the lists keep their length and stay pruned;
        the entities they deactivate are dropped by the next frame's filters. */
    method CheckAll()
      requires Valid() && Pruned()
      modifies this`characterX, this`characterY, this`isGameOver, this`enemies, this`archerEnemies, this`arrows
      ensures EnemiesDeactivated(old(enemies), enemies)
      ensures ArchersDeactivated(old(archerEnemies), archerEnemies)
      ensures ArrowsDeactivated(old(arrows), arrows)
      ensures var hit := cfg.response == ResetCharacter &&
                AnyEnemyTouches(CharacterHitbox(old(characterX), old(characterY), cfg.characterSize), old(enemies), cfg.enemySize);
              (characterX, characterY) == if hit then (StartingX, StartingY) else (old(characterX), old(characterY))
      ensures var attack := AttackHitbox(characterX, characterY, cfg.characterSize);
              EnemiesStruck(old(enemies), enemies, attack, cfg.hasAttack && old(isAttacking), cfg.enemySize) &&
              ArchersStruck(old(archerEnemies), archerEnemies, attack, cfg.hasAttack && old(isAttacking))
      ensures ArrowsStruck(old(arrows), arrows, CharacterHitbox(characterX, characterY, cfg.characterSize), cfg.hasArchers)
      ensures isGameOver ==
              (old(isGameOver) ||
               (cfg.response == EndGame &&
                AnyEnemyTouches(CharacterHitbox(old(characterX), old(characterY), cfg.characterSize), old(enemies), cfg.enemySize)) ||
               (cfg.hasArchers && AnyArrowTouches(CharacterHitbox(characterX, characterY, cfg.characterSize), old(arrows))))
      ensures Valid() && Pruned()
      ensures old(isGameOver) ==> isGameOver
      ensures cfg.response != EndGame && !cfg.hasArchers ==> isGameOver == old(isGameOver)
    {
      ghost var enemiesBefore := enemies;
      CheckCollisions();
      if cfg.hasAttack {
        CheckAttackCollisions();
      }
      assert forall i :: 0 <= i < |enemies| ==> enemies[i].x == enemiesBefore[i].x;
      if cfg.hasArchers {
        ghost var arrowsBefore := arrows;
        CheckArrowCollisions();
        assert forall i :: 0 <= i < |arrows| ==> arrows[i].x == arrowsBefore[i].x;
      }
    }

    /** One frame of the game loop of realfinal.js (drawing left out), with
        the parts a variant lacks skipped: final.js has no animation, game.js
        and final.js no attack, and only realfinal.js has archers and arrows.
        The loop never looks at isGameOver: a frame after the end of the game
        runs like any other, and the flag once set stays set. */
    method GameLoop()
      requires Valid()
      modifies this
      ensures offsetX == old(offsetX) + NetScroll(keys, cfg.characterSpeed)
      ensures movementSpeed == MovementSpeed(keys, cfg.characterSpeed)
      ensures var b := Step(Physics(cfg.jumpStrength, cfg.gravity), GroundY(), ArrowUp in keys,
                            Body(old(characterY), old(velocityY), old(isJumping)));
              var moved := UpdateEnemyList(old(enemies), cfg.enemySpeed + movementSpeed, cfg.enemySize);
              var hit := AnyEnemyTouches(CharacterHitbox(old(characterX), b.y, cfg.characterSize), moved, cfg.enemySize);
              velocityY == b.velocityY && isJumping == b.isJumping &&
              (characterX, characterY) ==
                (if cfg.response == ResetCharacter && hit then (StartingX, StartingY) else (old(characterX), b.y)) &&
              EnemiesDeactivated(moved, enemies) &&
              EnemiesStruck(moved, enemies, AttackHitbox(characterX, characterY, cfg.characterSize),
                            cfg.hasAttack && isAttacking, cfg.enemySize) &&
              forall pass | pass == ArcherPass(old(archerEnemies), offsetX, canvasWidth) ::
                var shot := UpdateArrowList(old(arrows) + pass.1, offsetX, canvasWidth);
                ArchersDeactivated(AnimateArchers(pass.0), archerEnemies) &&
                ArrowsDeactivated(shot, arrows) &&
                ArchersStruck(AnimateArchers(pass.0), archerEnemies, AttackHitbox(characterX, characterY, cfg.characterSize),
                              cfg.hasAttack && isAttacking) &&
                ArrowsStruck(shot, arrows, CharacterHitbox(characterX, characterY, cfg.characterSize), cfg.hasArchers) &&
                isGameOver == (old(isGameOver) || (cfg.response == EndGame && hit) ||
                               (cfg.hasArchers && AnyArrowTouches(CharacterHitbox(characterX, characterY, cfg.characterSize), shot)))
      ensures var jumped := JumpPose(cfg.hasAnimation, ArrowUp in keys && !old(isJumping), old(isJumping), isJumping,
                                     old(CurrentPose()));
              CurrentPose() == if cfg.hasAnimation
                              then AnimatePose(jumped, ArrowLeft in keys || ArrowRight in keys, velocityY < 0)
                              else jumped
      ensures enemyFrames == if cfg.hasAnimation then Cycle(EnemySheet, old(enemyFrames)) else old(enemyFrames)
      ensures Valid() && Pruned()
      ensures keys == old(keys)
      ensures old(isGameOver) ==> isGameOver
      ensures cfg.response != EndGame && !cfg.hasArchers ==> isGameOver == old(isGameOver)
    {
      UpdatePlayer();
      UpdateAndCheck();
    }

    /** The rest of the frame after the character's update: the entity
        updates, then the three collision passes. */
    method UpdateAndCheck()
      requires Valid()
      modifies this`characterX, this`characterY, this`isGameOver, this`enemies, this`enemyFrames,
               this`archerEnemies, this`arrows
      ensures enemyFrames == if cfg.hasAnimation then Cycle(EnemySheet, old(enemyFrames)) else old(enemyFrames)
      ensures var moved := UpdateEnemyList(old(enemies), cfg.enemySpeed + movementSpeed, cfg.enemySize);
              var hit := AnyEnemyTouches(CharacterHitbox(old(characterX), old(characterY), cfg.characterSize),
                                         moved, cfg.enemySize);
              EnemiesDeactivated(moved, enemies) &&
              EnemiesStruck(moved, enemies, AttackHitbox(characterX, characterY, cfg.characterSize),
                            cfg.hasAttack && isAttacking, cfg.enemySize) &&
              (characterX, characterY) ==
                (if cfg.response == ResetCharacter && hit then (StartingX, StartingY) else (old(characterX), old(characterY))) &&
              forall pass | pass == ArcherPass(old(archerEnemies), offsetX, canvasWidth) ::
                var shot := UpdateArrowList(old(arrows) + pass.1, offsetX, canvasWidth);
                ArchersDeactivated(AnimateArchers(pass.0), archerEnemies) &&
                ArrowsDeactivated(shot, arrows) &&
                ArchersStruck(AnimateArchers(pass.0), archerEnemies, AttackHitbox(characterX, characterY, cfg.characterSize),
                              cfg.hasAttack && isAttacking) &&
                ArrowsStruck(shot, arrows, CharacterHitbox(characterX, characterY, cfg.characterSize), cfg.hasArchers) &&
                isGameOver == (old(isGameOver) || (cfg.response == EndGame && hit) ||
                               (cfg.hasArchers && AnyArrowTouches(CharacterHitbox(characterX, characterY, cfg.characterSize), shot)))
      ensures Valid() && Pruned()
      ensures old(isGameOver) ==> isGameOver
      ensures cfg.response != EndGame && !cfg.hasArchers ==> isGameOver == old(isGameOver)
    {
      UpdateEntities();
      CheckAll();
    }
  }
}
