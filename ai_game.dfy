/** ai.js: a jumping character on a ground line 20 above the bottom of the
    canvas, a view scrolled by the arrow keys, and square enemies that are
    objects of their own, each moving left at its own speed and removed once
    it has left the canvas on the left. */
module AiGame {
  import opened Character
  import opened Input

  const CharacterSize := 75
  const CharacterSpeed := 13
  const JumpStrength := 25
  const Gravity := 1
  const EnemySpawnInterval := 2000
  const EnemySize := 50

  /** The Enemy class: its x moves, everything else is fixed at creation. */
  class Enemy {
    var x: int
    const y: int
    const speed: int
    const width: int
    const height: int

    constructor (x: int, y: int, speed: int)
      ensures this.x == x && this.y == y && this.speed == speed
      ensures width == EnemySize && height == EnemySize
    {
      this.x := x;
      this.y := y;
      this.speed := speed;
      width := EnemySize;
      height := EnemySize;
    }

    /** update: one step left by this enemy's own speed. */
    method Update()
      modifies this`x
      ensures x == old(x) - speed
    {
      x := x - speed;
    }
  }

  /** The enemies of `s` that are not yet wholly past the left edge, in their
      order in `s`, with their current positions. */
  function OnScreen(s: seq<Enemy>): (r: seq<Enemy>)
    reads s
    ensures |r| <= |s|
  {
    if s == [] then []
    else
      var last := s[|s| - 1];
      OnScreen(s[..|s| - 1]) + (if last.x + last.width < 0 then [] else [last])
  }

  /** The same selection among the first k enemies of `s`, judged by the
      positions `xs` instead of the current ones. */
  function Kept(s: seq<Enemy>, xs: seq<int>, k: nat): (r: seq<Enemy>)
    requires k <= |s| == |xs|
  {
    if k == 0 then []
    else Kept(s, xs, k - 1) + (if xs[k - 1] + s[k - 1].width < 0 then [] else [s[k - 1]])
  }

  /** The positions the enemies of `s` move to on their next update. */
  function Moved(s: seq<Enemy>): (r: seq<int>)
    reads s
    ensures |r| == |s| && forall j :: 0 <= j < |s| ==> r[j] == s[j].x - s[j].speed
  {
    if s == [] then [] else [s[0].x - s[0].speed] + Moved(s[1..])
  }

  /** The enemies of `s` before position k stand at their positions in
      `xs`, the others one step of their speed to the right of them. */
  predicate MovedUpTo(s: seq<Enemy>, xs: seq<int>, k: nat)
    reads s
    requires |xs| == |s|
  {
    forall j :: 0 <= j < |s| ==> s[j].x == xs[j] + (if j < k then 0 else s[j].speed)
  }

  /** The list is a list of distinct objects: every push creates a new one. */
  predicate Distinct(s: seq<Enemy>) {
    forall i, j :: 0 <= i < j < |s| ==> s[i] != s[j]
  }

  class World {
    const canvasWidth: int
    const canvasHeight: int

    var characterX: int
    var characterY: int
    var velocityY: int
    var isJumping: bool
    var offsetX: int
    var keys: set<string>
    var enemies: seq<Enemy>
    var lastEnemySpawnTime: int

    predicate Valid()
      reads this
    {
      Distinct(enemies)
    }

    /** The top-level initialisation after the first resizeCanvas. */
    constructor (canvasWidth: int, canvasHeight: int, characterX: int)
      ensures this.canvasWidth == canvasWidth && this.canvasHeight == canvasHeight
      ensures this.characterX == characterX && characterY == GroundY()
      ensures velocityY == 0 && !isJumping && offsetX == 0 && keys == {}
      ensures enemies == [] && lastEnemySpawnTime == 0
      ensures Valid()
    {
      this.canvasWidth := canvasWidth;
      this.canvasHeight := canvasHeight;
      this.characterX := characterX;
      characterY := canvasHeight - CharacterSize - 20;
      velocityY := 0;
      isJumping := false;
      offsetX := 0;
      keys := {};
      enemies := [];
      lastEnemySpawnTime := 0;
    }

    function GroundY(): int {
      canvasHeight - CharacterSize - 20
    }

    method OnKeyDown(key: string)
      modifies this`keys
      ensures keys == old(keys) + {key}
    {
      keys := keys + {key};
    }

    method OnKeyUp(key: string)
      modifies this`keys
      ensures keys == old(keys) - {key}
    {
      keys := keys - {key};
    }

    /** updateBackground: the net scroll of the held arrow keys. */
    method UpdateBackground()
      modifies this`offsetX
      ensures offsetX == old(offsetX) + NetScroll(keys, CharacterSpeed)
    {
      if ArrowLeft in keys {
        offsetX := offsetX - CharacterSpeed;
      }
      if ArrowRight in keys {
        offsetX := offsetX + CharacterSpeed;
      }
    }

    /** updateCharacter against the ground line canvasHeight - 95. */
    method UpdateCharacter()
      modifies this`characterY, this`velocityY, this`isJumping
      ensures Body(characterY, velocityY, isJumping) ==
              Step(Physics(JumpStrength, Gravity), GroundY(), ArrowUp in keys,
                   Body(old(characterY), old(velocityY), old(isJumping)))
    {
      if ArrowUp in keys && !isJumping {
        isJumping := true;
        velocityY := -JumpStrength;
      }
      if isJumping {
        velocityY := velocityY + Gravity;
        characterY := characterY + velocityY;
        if characterY >= GroundY() {
          characterY := GroundY();
          isJumping := false;
          velocityY := 0;
        }
      }
    }

    /** spawnEnemy with the two random numbers it draws already turned into
        a y and a speed: a new enemy at the right edge. */
    method SpawnEnemy(y: int, speed: int) returns (e: Enemy)
      requires Valid()
      modifies this`enemies
      ensures fresh(e) && e.x == canvasWidth && e.y == y && e.speed == speed && e.width == EnemySize
      ensures enemies == old(enemies) + [e]
      ensures Valid()
    {
      e := new Enemy(canvasWidth, y, speed);
      enemies := enemies + [e];
    }

    /** updateEnemies: the index runs forwards; each enemy is updated once,
        and one that is wholly past the left edge is spliced out, the index
        stepping back so that the enemy moved into its place is not skipped.
        Afterwards the list holds exactly the old enemies still on screen, in
        their old order. */
    method UpdateEnemies()
      requires Valid()
      modifies this`enemies, set e | e in enemies
      ensures forall e :: e in old(enemies) ==> e.x == old(e.x) - e.speed
      ensures enemies == OnScreen(old(enemies))
      ensures Valid()
    {
      ghost var s := enemies;
      ghost var xs := Moved(s);
      enemies := Sweep(enemies, xs);
      assert forall j :: 0 <= j < |s| ==> s[j].x == xs[j];
      OnScreenIsKept(s, xs, |s|);
      assert s[..|s|] == s;
      OnScreenDistinct(s);
      forall e | e in s
        ensures e.x == old(e.x) - e.speed
      {
        var j :| 0 <= j < |s| && s[j] == e;
      }
    }

    /** The game loop at time `timestamp`: the view scrolls, the character
        moves, an enemy (with the given y and speed) is spawned exactly when
        more than the spawn interval has passed since the last spawn, and then
        the timestamp is recorded; finally the enemy pass runs over the list
        including the new enemy. `spawned` is the enemy spawned, if any. */
    method GameLoop(timestamp: int, y: int, speed: int) returns (spawned: seq<Enemy>)
      requires Valid()
      modifies this`offsetX, this`characterY, this`velocityY, this`isJumping, this`enemies,
               this`lastEnemySpawnTime, set e | e in enemies
      ensures offsetX == old(offsetX) + NetScroll(keys, CharacterSpeed)
      ensures Body(characterY, velocityY, isJumping) ==
              Step(Physics(JumpStrength, Gravity), GroundY(), ArrowUp in keys,
                   Body(old(characterY), old(velocityY), old(isJumping)))
      ensures (timestamp - old(lastEnemySpawnTime) > EnemySpawnInterval) <==> |spawned| == 1
      ensures |spawned| <= 1
      ensures forall e :: e in spawned ==>
                fresh(e) && e.x == canvasWidth - speed && e.y == y && e.speed == speed && e.width == EnemySize
      ensures lastEnemySpawnTime == if |spawned| == 1 then timestamp else old(lastEnemySpawnTime)
      ensures forall e :: e in old(enemies) ==> e.x == old(e.x) - e.speed
      ensures enemies == OnScreen(old(enemies) + spawned)
      ensures forall e :: e in enemies ==> e.x + e.width >= 0
      ensures Valid()
    {
      UpdateBackground();
      UpdateCharacter();
      spawned := SpawnIfDue(timestamp, y, speed);
      ghost var before := enemies;
      UpdateEnemies();
      OnScreenMembers(before);
      forall e | e in spawned
        ensures e.x == canvasWidth - speed
      {
        assert e in before;
      }
    }

    /** The spawn gate of the game loop: an enemy is spawned, and the
        timestamp recorded, exactly when more than the spawn interval has
        passed since the last spawn. */
    method SpawnIfDue(timestamp: int, y: int, speed: int) returns (spawned: seq<Enemy>)
      requires Valid()
      modifies this`enemies, this`lastEnemySpawnTime
      ensures (timestamp - old(lastEnemySpawnTime) > EnemySpawnInterval) <==> |spawned| == 1
      ensures |spawned| <= 1
      ensures forall e :: e in spawned ==>
                fresh(e) && e.x == canvasWidth && e.y == y && e.speed == speed && e.width == EnemySize
      ensures lastEnemySpawnTime == if |spawned| == 1 then timestamp else old(lastEnemySpawnTime)
      ensures enemies == old(enemies) + spawned
      ensures Valid()
    {
      spawned := [];
      if timestamp - lastEnemySpawnTime > EnemySpawnInterval {
        var e := SpawnEnemy(y, speed);
        spawned := [e];
        lastEnemySpawnTime := timestamp;
      }
    }
  }

  /** The loop of updateEnemies over the list `s`, with `xs` the positions
      the enemies move to, which decide which of them are spliced out. */
  method Sweep(s: seq<Enemy>, ghost xs: seq<int>) returns (list: seq<Enemy>)
    requires Distinct(s) && |xs| == |s| && MovedUpTo(s, xs, 0)
    modifies set e | e in s
    ensures list == Kept(s, xs, |xs|)
    ensures MovedUpTo(s, xs, |xs|)
  {
    list := s;
    var i := 0;
    ghost var k := 0;
    while i < |list|
      invariant 0 <= i <= k <= |s| && |list| == i + |s| - k && |Kept(s, xs, k)| == i
      invariant list[..i] == Kept(s, xs, k) && list[i..] == s[k..]
      invariant MovedUpTo(s, xs, k)
      decreases |list| - i
    {
      list, i := Visit(list, i, s, xs, k);
      k := k + 1;
    }
    assert list == list[..i];
  }

  /** One turn of the loop of updateEnemies at index `i`, which holds the
      k-th enemy of the original list `s`: the enemy is updated, and spliced
      out with the index stepped back when its new position, xs[k], is
      wholly left of the canvas. */
  method Visit(list: seq<Enemy>, i: int, ghost s: seq<Enemy>, ghost xs: seq<int>, ghost k: nat)
      returns (list': seq<Enemy>, i': int)
    requires k < |s| == |xs| && Distinct(s)
    requires 0 <= i <= |list| == i + |s| - k && |Kept(s, xs, k)| == i
    requires list[..i] == Kept(s, xs, k) && list[i..] == s[k..]
    requires MovedUpTo(s, xs, k)
    modifies s[k]
    ensures 0 <= i' <= |list'| == i' + |s| - (k + 1) && |Kept(s, xs, k + 1)| == i'
    ensures list'[..i'] == Kept(s, xs, k + 1) && list'[i'..] == s[k + 1..]
    ensures MovedUpTo(s, xs, k + 1)
  {
    assert list[i] == s[k];
    list' := list;
    i' := i;
    list'[i].Update();
    if list'[i].x + list'[i].width < 0 {
      list' := list'[..i] + list'[i + 1..];
      i' := i' - 1;
    }
    i' := i' + 1;
    forall j | 0 <= j < |s| && j != k
      ensures s[j].x == old(s[j].x)
    {
      assert s[j] != s[k];
    }
  }

  /** Where the positions `xs` are the current ones, Kept selects what
      OnScreen selects. */
  lemma {:induction false} OnScreenIsKept(s: seq<Enemy>, xs: seq<int>, k: nat)
    requires k <= |s| == |xs|
    requires forall j :: 0 <= j < k ==> s[j].x == xs[j]
    ensures OnScreen(s[..k]) == Kept(s, xs, k)
  {
    if k > 0 {
      OnScreenIsKept(s, xs, k - 1);
      assert s[..k][..k - 1] == s[..k - 1];
    }
  }

  /** Every enemy kept is one of the list and is on screen. */
  lemma {:induction false} OnScreenMembers(s: seq<Enemy>)
    ensures forall e :: e in OnScreen(s) ==> e in s && e.x + e.width >= 0
  {
    if s != [] {
      OnScreenMembers(s[..|s| - 1]);
    }
  }

  /** Selecting from a list of distinct enemies gives distinct enemies. */
  lemma {:induction false} OnScreenDistinct(s: seq<Enemy>)
    requires Distinct(s)
    ensures Distinct(OnScreen(s))
  {
    if s != [] {
      var init := s[..|s| - 1];
      var last := s[|s| - 1];
      assert Distinct(init);
      OnScreenDistinct(init);
      OnScreenMembers(init);
      assert last !in init;
    }
  }
}
