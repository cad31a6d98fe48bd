/** The `Game` class of script.js: a fixed 800 x 400 canvas, a jumping
    character, a view scrolled by the arrow keys, and enemies spawned at most
    once per interval, scored when they leave the screen and ending the game
    when they touch the character. The Enemy and Player classes that script.js
    uses are not part of this model: an enemy is a value of a type parameter,
    and what `update`, `isOffScreen` and `checkCollision` do to or say about
    it are functions the game is built with. */
module ScriptGame {
  import opened Character
  import opened Input

  const CanvasWidth := 800
  const CanvasHeight := 400
  const CharacterSize := 75
  const CharacterSpeed := 13
  const JumpStrength := 25
  const Gravity := 1
  const EnemySpawnInterval := 2000
  // Points for every enemy that leaves the screen.
  const ScorePerEnemy := 10
  // The character stands 20 above the bottom of the canvas: y = 305.
  const GroundY := CanvasHeight - CharacterSize - 20
  // The character's x is a third of the canvas width, which is not whole.
  const CharacterX: real := CanvasWidth as real / 3.0

  class Game<E> {
    // Enemy.update, Enemy.isOffScreen and Enemy.checkCollision.
    const enemyUpdate: E -> E
    const isOffScreen: E -> bool
    const checkCollision: (E, real, int, int) -> bool

    var enemies: seq<E>
    var score: int
    var gameOver: bool
    var lastSpawnTime: int
    var characterY: int
    var velocityY: int
    var isJumping: bool
    var offsetX: int
    var keys: set<string>

    /** The list updateEnemies leaves: the updated enemies still on screen,
        in their old order. */
    function Survivors(s: seq<E>): (r: seq<E>)
      ensures |r| <= |s|
    {
      if s == [] then []
      else (if isOffScreen(enemyUpdate(s[0])) then [] else [enemyUpdate(s[0])]) + Survivors(s[1..])
    }

    /** How many enemies of `s` leave the screen on their update. */
    function LeavingCount(s: seq<E>): nat {
      if s == [] then 0
      else (if isOffScreen(enemyUpdate(s[0])) then 1 else 0) + LeavingCount(s[1..])
    }

    /** Some enemy of `s` is on screen after its update and then touches the
        character. */
    predicate AnyCollision(s: seq<E>, y: int) {
      exists i :: 0 <= i < |s| && !isOffScreen(enemyUpdate(s[i])) &&
                  checkCollision(enemyUpdate(s[i]), CharacterX, y, CharacterSize)
    }

    /** Every enemy is either kept or counted as gone, so the score rises by
        10 for each enemy the pass removes. */
    lemma {:induction false} SurvivorsAndLeaving(s: seq<E>)
      ensures |Survivors(s)| + LeavingCount(s) == |s|
    {
      if s != [] {
        SurvivorsAndLeaving(s[1..]);
      }
    }

    /** A new game: the state `reset` restores, with no key held. */
    constructor (enemyUpdate: E -> E, isOffScreen: E -> bool, checkCollision: (E, real, int, int) -> bool)
      ensures this.enemyUpdate == enemyUpdate && this.isOffScreen == isOffScreen
      ensures this.checkCollision == checkCollision
      ensures Fresh() && keys == {}
    {
      this.enemyUpdate := enemyUpdate;
      this.isOffScreen := isOffScreen;
      this.checkCollision := checkCollision;
      enemies := [];
      score := 0;
      gameOver := false;
      lastSpawnTime := 0;
      characterY := GroundY;
      velocityY := 0;
      isJumping := false;
      offsetX := 0;
      keys := {};
    }

    /** The state of a fresh game. */
    predicate Fresh()
      reads this
    {
      enemies == [] && score == 0 && !gameOver && lastSpawnTime == 0 &&
      characterY == GroundY && velocityY == 0 && !isJumping && offsetX == 0
    }

    /** reset: a fresh game again; the held keys are kept. */
    method Reset()
      modifies this
      ensures Fresh() && keys == old(keys)
    {
      enemies := [];
      score := 0;
      gameOver := false;
      lastSpawnTime := 0;
      characterY := GroundY;
      velocityY := 0;
      isJumping := false;
      offsetX := 0;
    }

    method OnKeyDown(key: string)
      modifies this`keys
      ensures keys == old(keys) + {key}
    {
      keys := keys + {key};
    }

    method OnKeyUp(key: string)
      modifies this`keys
      ensures keys == old(keys) - {key}
    {
      keys := keys - {key};
    }

    /** spawnEnemy at the clock reading `now`: `newEnemy` is
        pushed only when more than the spawn interval has passed since the
        last spawn, and then the spawn time is recorded. */
    method SpawnEnemy(now: int, newEnemy: E)
      modifies this`enemies, this`lastSpawnTime
      ensures now - old(lastSpawnTime) > EnemySpawnInterval ==>
                enemies == old(enemies) + [newEnemy] && lastSpawnTime == now
      ensures now - old(lastSpawnTime) <= EnemySpawnInterval ==>
                enemies == old(enemies) && lastSpawnTime == old(lastSpawnTime)
    {
      if now - lastSpawnTime > EnemySpawnInterval {
        enemies := enemies + [newEnemy];
        lastSpawnTime := now;
      }
    }

    /** updateEnemies: the index runs from the last enemy down to the first;
        each enemy is updated once, spliced out (scoring 10) if it has left
        the screen, and otherwise ends the game if it touches the character. */
    method UpdateEnemies()
      modifies this`enemies, this`score, this`gameOver
      ensures enemies == Survivors(old(enemies))
      ensures score == old(score) + ScorePerEnemy * LeavingCount(old(enemies))
      ensures score == old(score) + ScorePerEnemy * (|old(enemies)| - |enemies|)
      ensures gameOver == (old(gameOver) || AnyCollision(old(enemies), characterY))
    {
      ghost var s := enemies;
      var i := |enemies| - 1;
      while i >= 0
        invariant -1 <= i < |s|
        invariant |enemies| == i + 1 + |Survivors(s[i + 1..])|
      invariant enemies[..i + 1] == s[..i + 1] && enemies[i + 1..] == Survivors(s[i + 1..])
        invariant score == old(score) + ScorePerEnemy * LeavingCount(s[i + 1..])
        invariant gameOver == (old(gameOver) || AnyCollision(s[i + 1..], characterY))
      {
        VisitStep(s, i, enemies);
        enemies := enemies[i := enemyUpdate(enemies[i])];
        if isOffScreen(enemies[i]) {
          enemies := enemies[..i] + enemies[i + 1..];
          score := score + ScorePerEnemy;
        } else if checkCollision(enemies[i], CharacterX, characterY, CharacterSize) {
          gameOver := true;
        }
        CollisionStep(s[i..], characterY);
        i := i - 1;
      }
      assert s[0..] == s && enemies == enemies[0..];
      SurvivorsAndLeaving(s);
    }

    /** One turn of the loop of updateEnemies at index i, in the terms of the
        list `s` the pass started from: the enemy there is still the old one,
        and updating it, then splicing it out or keeping it, leaves the
        prefix before i followed by the survivors from i on. */
    lemma VisitStep(s: seq<E>, i: int, enemies: seq<E>)
      requires 0 <= i < |s| && |enemies| == i + 1 + |Survivors(s[i + 1..])|
      requires enemies[..i + 1] == s[..i + 1] && enemies[i + 1..] == Survivors(s[i + 1..])
      ensures enemies[i] == s[i]
      ensures var u := enemyUpdate(s[i]);
              var e := if isOffScreen(u) then enemies[..i] + enemies[i + 1..] else enemies[i := u];
              |e| == i + |Survivors(s[i..])| && e[..i] == s[..i] && e[i..] == Survivors(s[i..])
      ensures LeavingCount(s[i..]) == (if isOffScreen(enemyUpdate(s[i])) then 1 else 0) + LeavingCount(s[i + 1..])
    {
      assert s[i..][1..] == s[i + 1..];
      assert enemies[i] == enemies[..i + 1][i];
      var u := enemyUpdate(s[i]);
      if !isOffScreen(u) {
        var e := enemies[i := u];
        assert e[i..] == [u] + e[i + 1..];
      }
    }

    /** Adding an enemy in front of the processed suffix adds its own
        collision to theirs. */
    lemma CollisionStep(s: seq<E>, y: int)
      requires s != []
      ensures AnyCollision(s, y) <==>
              (!isOffScreen(enemyUpdate(s[0])) && checkCollision(enemyUpdate(s[0]), CharacterX, y, CharacterSize)) ||
              AnyCollision(s[1..], y)
    {
      if AnyCollision(s[1..], y) {
        var j :| 0 <= j < |s[1..]| && !isOffScreen(enemyUpdate(s[1..][j])) &&
                 checkCollision(enemyUpdate(s[1..][j]), CharacterX, y, CharacterSize);
        assert s[j + 1] == s[1..][j];
      }
      if AnyCollision(s, y) {
        var j :| 0 <= j < |s| && !isOffScreen(enemyUpdate(s[j])) &&
                 checkCollision(enemyUpdate(s[j]), CharacterX, y, CharacterSize);
        if j > 0 {
          assert s[1..][j - 1] == s[j];
        }
      }
    }

    /** updateBackground: the net scroll of the held arrow keys. */
    method UpdateBackground()
      modifies this`offsetX
      ensures offsetX == old(offsetX) + NetScroll(keys, CharacterSpeed)
    {
      if ArrowLeft in keys {
        offsetX := offsetX - CharacterSpeed;
      }
      if ArrowRight in keys {
        offsetX := offsetX + CharacterSpeed;
      }
    }

    /** updateCharacter against the ground line 305. */
    method UpdateCharacter()
      modifies this`characterY, this`velocityY, this`isJumping
      ensures Body(characterY, velocityY, isJumping) ==
              Step(Physics(JumpStrength, Gravity), GroundY, ArrowUp in keys,
                   Body(old(characterY), old(velocityY), old(isJumping)))
    {
      if ArrowUp in keys && !isJumping {
        isJumping := true;
        velocityY := -JumpStrength;
      }
      if isJumping {
        velocityY := velocityY + Gravity;
        characterY := characterY + velocityY;
        if characterY >= GroundY {
          characterY := GroundY;
          isJumping := false;
          velocityY := 0;
        }
      }
    }

    /** update, at clock reading `now`, with `newEnemy` the enemy a spawn would
        create: nothing at all once the game is over; otherwise the character
        moves, the view scrolls, an enemy may be spawned and the enemy pass
        runs over the list including it, against the character's new y. */
    method Update(now: int, newEnemy: E)
      modifies this
      ensures !old(gameOver) ==>
                var spawn := now - old(lastSpawnTime) > EnemySpawnInterval;
                var s := old(enemies) + (if spawn then [newEnemy] else []);
                Body(characterY, velocityY, isJumping) ==
                  Step(Physics(JumpStrength, Gravity), GroundY, ArrowUp in keys,
                       Body(old(characterY), old(velocityY), old(isJumping))) &&
                offsetX == old(offsetX) + NetScroll(keys, CharacterSpeed) &&
                lastSpawnTime == (if spawn then now else old(lastSpawnTime)) &&
                enemies == Survivors(s) &&
                score == old(score) + ScorePerEnemy * LeavingCount(s) &&
                gameOver == AnyCollision(s, characterY)
      ensures old(gameOver) ==>
                enemies == old(enemies) && score == old(score) && gameOver &&
                lastSpawnTime == old(lastSpawnTime) && characterY == old(characterY) &&
                velocityY == old(velocityY) && isJumping == old(isJumping) && offsetX == old(offsetX)
      ensures keys == old(keys)
      ensures old(gameOver) ==> gameOver
      ensures score >= old(score)
    {
      if !gameOver {
        ghost var s := enemies + (if now - lastSpawnTime > EnemySpawnInterval then [newEnemy] else []);
        UpdateCharacter();
        UpdateBackground();
        SpawnEnemy(now, newEnemy);
        assert enemies == s;
        UpdateEnemies();
      }
    }
  }
}
