# Side-scrolling canvas game: the per-frame simulation

The repository holds six versions of one browser game: a character that runs
and jumps on a ground line, a view that scrolls while the arrow keys are held,
and enemies that come in from the right.

- **realfinal.js** is the full game. It has melee enemies, archers that walk in,
  stop and shoot arrows, a sword attack on the space bar, sprite-sheet animation,
  and three collision passes.
- **testting.js** drops the archers. A collision resets the character to its
  starting position instead of ending the game.
- **game.js** also drops the attack.
- **final.js** has no animation. Its collisions are only logged.
- **script.js** puts the game in a `Game` class. Enemies are spawned on a clock,
  scored when they leave the screen, and end the game when they touch the
  character.
- **ai.js** has enemies that are objects of an `Enemy` class. Each moves at its
  own speed, and the update loop splices them out of the array.

The model is integer arithmetic over the game state:

- **Geometry**: boxes and the strict overlap test.
- **Animation**: the sprite-sheet descriptors. Each is split into a constant
  `Sheet` and a `Cursor` (current frame, frame counter) that the updates
  change. The module holds the cyclic, clamped (jump) and one-shot (attack)
  update rules and the frame-rectangle arithmetic.
- **Character**: the jump-and-gravity step that every `updateCharacter`
  performs. **Input** holds the key names and the net scroll.
- **Entities**: melee enemies, archers and arrows as values, with the
  `filter` callbacks that update them. `FilterMap` is the "mutate, then decide
  whether to keep" filter as a function.
- **Simulation**: one `World` class whose fields are the globals of
  realfinal.js, testting.js, game.js and final.js. A `Config` holds each
  script's constants and features. Each update function is a method.
  `GameLoop` runs a frame in the order of realfinal.js's game loop.
- **ScriptGame**: the `Game` class of script.js.
- **AiGame**: the globals of ai.js as a class, and its `Enemy` class, whose
  `update` changes the object in place.

Where a script mutates state, the model does too. The globals and `this`
fields are class fields. Lists are `seq` fields that the methods reassign.
The ai.js enemies are objects on the heap whose `x` the sweep changes. Each
method states its new state. Where possible it states that state through a
function of the old state, and lemmas prove what the scripts promise about
those functions.

## Model

| member | source | states |
|---|---|---|
| Geometry.OverlapsIffSharedPixel | realfinal.js:449-452 | For boxes of positive size, the strict four-inequality test holds exactly when some pixel lies in both boxes. |
| Geometry.TouchingDoesNotOverlap | realfinal.js:449-452 | Boxes that only share an edge never collide, in either order. |
| Geometry.InsetOverlapImpliesSpriteOverlap | realfinal.js:432-447 | Hitboxes shrunk by non-negative insets overlap only if the full sprites overlap. |
| Animation.Cycle | realfinal.js:402-408 | One call of a cyclic sheet keeps the frame within the sheet. The counter stays below the delay. The frame either stays or advances by one, modulo the frame count. |
| Animation.CycleWithinDelay | realfinal.js:402-408 | Fewer calls than the delay, starting from a cleared counter, only count and leave the frame where it was. |
| Animation.CycleOneRound | realfinal.js:402-408 | Exactly `frameDelay` calls from a cleared counter advance the frame once, with wrap-around. No shorter run moves it. |
| Animation.CycleRounds | realfinal.js:156-181 | After q rounds of the delay plus r < delay calls, the frame has advanced by q modulo the frame count and the counter reads r. This holds for each archer's own cursor and for the shared enemy cursor. |
| Animation.JumpTick | realfinal.js:607-622 | One jump-sheet call: the counter stays below the delay. While rising, a frame that changes ends at most 5; while falling, in 6..10. Frames never pass 10, a rising frame at most 5 stays at most 5, and a frame in the band never moves back. |
| Animation.FallingBandFitsSheet | realfinal.js:617-620 | A falling jump frame that has advanced is in the band 6..10 and within the 11-frame sheet. |
| Animation.AttackTick | realfinal.js:583-596 | One attack-sheet call: the counter stays below the delay. The attack ends exactly when the counter reaches the delay on the last frame, and then the cursor is back at frame 0. Otherwise the frame stays or moves up by one. |
| Animation.AttackDuration | testting.js:319-332 | An attack started at frame f with counter k lasts exactly (totalFrames - f) * frameDelay - k calls. It is in progress before that and over, at frame 0, from then on. |
| Animation.AttackLengths | realfinal.js:364-373 | With the realfinal.js attack sheet, an attack from a cleared counter lasts 20 calls. The first attack of a game starts with the counter at 2, so it lasts 19. |
| Animation.FrameRectangles | realfinal.js:639 | The source x of any frame is non-negative. The frame's rectangle ends within the strip of frames, and a later frame starts after an earlier one ends. |
| Input.NetScroll | script.js:125-132 | Left alone scrolls by -speed, Right alone by +speed. Both or neither give 0. |
| Character.Step | realfinal.js:557-580 | One updateCharacter call: airborne means above the ground line. A call that starts or continues a jump stays airborne exactly when its new y is above the ground line; one that ends at or below the ground line leaves the character grounded at velocity 0. A grounded character with Up released is unchanged. A jump start leaves velocity gravity - jumpStrength and y moved by it. In flight, velocity grows by gravity and y moves by the new velocity. |
| Character.RestsWithoutInput | game.js:206-225 | With Up released, a character that is not airborne stays exactly where it is for any number of calls. |
| Character.HeightClosedForm | realfinal.js:569-571 | Twice the height after k calls of a jump of strength J under gravity 1 is k(2J - k - 1). |
| Character.HeightSign | realfinal.js:573-578 | The character is strictly above ground for calls 1 .. 2J-2 and back on the ground at call 2J-1. |
| Character.HeightPeak | realfinal.js:569-571 | The height never exceeds J(J-1)/2 and reaches it after J calls. |
| Character.JumpArc | realfinal.js:557-580 | After the starting call and k-1 more calls, with Up held or not, the character is Height(J, k) above ground with velocity k - J. At call 2J-1 it is grounded. |
| Character.JumpOfStrength20 | game.js:206-225 | Jump strength 20, gravity 1: the character stays airborne until the 39th call, which lands it. It never goes above 190 and is exactly 190 up after 20 calls. |
| Character.JumpOfStrength25 | ai.js:79-98 | Jump strength 25, gravity 1: landing on the 49th call and a peak of 300 after 25 calls. The same holds for script.js and final.js. |
| Entities.FilterMapConcat | realfinal.js:394-400 | Filtering a concatenation filters each part in turn, so survivors keep their relative order. |
| Entities.FilterMapMembers | realfinal.js:394-400 | Every element of the result is the callback's update of some element. Every element the callback keeps is in the result. |
| Entities.UpdateEnemyListSurvivors | realfinal.js:394-400 | Every enemy left after updateEnemies is active, beyond -enemySize, and an active enemy of the old list shifted by exactly the shift. |
| Entities.UpdateEnemyListKeeps | realfinal.js:394-400 | Every active enemy whose shifted x is beyond -enemySize is in the new list, shifted. |
| Entities.UpdateEnemyListPruned | game.js:115-121 | Position by position, every enemy in the new list is active and beyond -enemySize. |
| Entities.DeactivatingLowersActiveCount | realfinal.js:459-512 | A pass that only deactivates enemies, position by position, never raises the number of active enemies. |
| Entities.UpdateEnemyListAtMostActive | realfinal.js:394-400 | updateEnemies keeps at most as many enemies as the list has active ones, so inactive enemies never survive it. |
| Entities.KilledEnemiesLeaveNextFrame | realfinal.js:394-400 | Across two frames: after the collision passes have deactivated enemies, the next updateEnemies keeps no more enemies than are still active, which is no more than before the passes. Each enemy it keeps is an untouched, active enemy of the list the passes received, moved by the next shift. A killed enemy is gone. |
| Entities.EnemyLifetime | final.js:69-76 | With a constant positive shift, an enemy is still listed after k calls exactly when x0 - k * speed > -enemySize, at exactly that x. |
| Entities.FinalJsEnemyPrunedOnTime | final.js:61-76 | final.js, an enemy spawned at canvasWidth + 60 with movementSpeed 0: listed after k calls iff k < ceil((canvasWidth + 120)/5). |
| Entities.ArrowStep | realfinal.js:141-154 | An arrow survives iff it is active and its moved screen x is strictly within 50 of the canvas. A survivor has worldX reduced by 5 and screen x = worldX - offsetX. |
| Entities.ArrowMotionIgnoresScroll | realfinal.js:146-150 | Two offsets move a surviving arrow to the same world x. Its screen x differs by exactly the difference of the offsets. |
| Entities.UpdateArrowListSurvivors | realfinal.js:141-154 | Every arrow left after updateArrows is active, has a screen x within the margin, and is an active old arrow moved by 5. Every arrow the callback keeps is in the list. |
| Entities.UpdateArrowListPruned | realfinal.js:141-154 | Position by position, every arrow in the new list has a screen x strictly within 50 of the canvas. |
| Entities.ArcherAdvance | realfinal.js:103-134 | A shooting archer stays shooting in place and its timer rises by one. A walking archer moves 2 left and switches exactly when worldX <= offsetX + canvasWidth - walkDistance; the switch leaves timer 1 and frame 0 with a cleared counter. An arrow is emitted exactly when shooting with timer % 60 = 0, at the archer's world x and y + 60. The screen x is worldX - offsetX. |
| Entities.ArcherStep | realfinal.js:100-138 | An inactive archer is dropped, with no arrow. An active one's arrow is pushed whether or not it stays, and it stays exactly when its new screen x is within two archer widths of the canvas. |
| Entities.ArcherPassConcat | realfinal.js:99-139 | The pass over a concatenation is the pass over each part, for the archers kept and for the arrows pushed. |
| Entities.ArcherPassSurvivors | realfinal.js:99-139 | Every kept archer is active, in range, and shows screen x = worldX - offsetX. Every pushed arrow is active, has no screen x yet, and shares the new world x of an active archer of the old list. |
| Entities.ShootingIsFinal | realfinal.js:120-131 | A shooting archer that stays is still shooting and has not moved in world space. |
| Entities.ArcherSwitchesOnCall160 | realfinal.js:85-117 | A freshly spawned archer, view still, stays listed and walks 2 per call. It switches to shooting on exactly call 160, with timer 1 and cursor (0, 0). |
| Entities.AnimateArcher | realfinal.js:156-181 | Only the archer's own cursor changes. A cursor valid for the sheet of its state stays valid. |
| Entities.AnimateArchers | realfinal.js:156-181 | The forEach over the archers: same length, and each position holds AnimateArcher of the archer there. |
| Entities.ArcherStepKeepsAnimation | realfinal.js:109-116 | The update callback keeps the archer's cursor valid for the sheet of its possibly new state, because the switch resets it. |
| Entities.ArcherPassKeepsAnimation | realfinal.js:99-139 | A pass over well-animated archers keeps only well-animated archers. |
| Entities.DrawnArcherFrame | realfinal.js:182-214 | An archer is drawn exactly when it is active. The sheet is the one of its state, walking or shooting. The source x of its own current frame is non-negative, and the frame ends within that sheet's strip of frames. |
| Simulation.AdvanceArcher | realfinal.js:103-134 | The callback body for an active archer, statement by statement, computes what ArcherAdvance states. |
| Simulation.FilterArcher | realfinal.js:100-138 | The whole callback for one archer computes the kept archer and pushed arrow of ArcherStep. |
| Simulation.PassArchers | realfinal.js:99-139 | The filter loop over the archers returns ArcherPass: the archers kept, in order, and the arrows pushed, in archer order. |
| Simulation.MovementSpeed | realfinal.js:525-538 | The movementSpeed updateBackground leaves: +speed whenever Right is held (also with Left), -speed for Left alone, 0 for neither. |
| Simulation.JumpPose | realfinal.js:557-580 | The state switch of an animated updateCharacter. Only the state and the jump cursor change. Starting a jump from the ground switches to jumping with the jump sheet at frame 0. A call that started or continued a jump and ends grounded switches to running. A grounded call without a jump start, or an unanimated variant, changes nothing. Cursors within their sheets stay within them. |
| Simulation.AnimatePose | realfinal.js:582-623 | One updateCharacterAnimation on the pose. An attack moves by AttackTick, leaves the running and jumping cursors alone, and on ending switches to running. Without an attack, the state and the attack cursor are kept. Running leaves the jump cursor alone, and jumping leaves the running cursor alone. Cursors within their sheets stay within them. |
| Simulation.World.constructor | realfinal.js:278-283 | The initial state: character on the ground line at the given x, every descriptor at its declared start, empty lists, no game over. |
| Simulation.World.OnKeyDown | realfinal.js:310-322 | The key becomes held. With an attack (realfinal.js, testting.js), space starts one from frame 0 only when none is in progress, and pressing it again mid-attack changes neither the flag nor the cursor. The frame counter is left alone. |
| Simulation.World.OnKeyUp | realfinal.js:324-326 | The key is no longer held; nothing else changes. |
| Simulation.World.UpdateBackground | realfinal.js:525-538 | offsetX changes by the net scroll of the held arrow keys, and movementSpeed becomes MovementSpeed of the keys. So Right only adds speed, Left only subtracts it, and both or neither leave offsetX as it was, with movementSpeed +speed for both and 0 for neither. |
| Simulation.World.UpdateCharacter | realfinal.js:557-580 | The vertical state moves by Character.Step, and the pose becomes JumpPose of the old pose. With animation, a jump start switches to jumping and rewinds the jump sheet to frame 0, and landing switches to running. |
| Simulation.World.UpdateCharacterAnimation | realfinal.js:582-623 | The pose becomes AnimatePose of the old one. An attack in progress moves by AttackTick and ends in the running state. Otherwise, running cycles the running sheet while a horizontal key is held and rewinds it to frame 0 when none is. Jumping moves the jump sheet by JumpTick, by the sign of velocityY. Each branch leaves the other sheets alone. Without an attack (game.js) only the running or the jumping branch runs. |
| Simulation.World.SpawnEnemy | realfinal.js:386-392 | One active enemy is appended at x = canvasWidth + enemySize, standing on the bottom of the canvas. |
| Simulation.World.UpdateEnemies | realfinal.js:394-400 | The new list is UpdateEnemyList of the old one, with shift enemySpeed + movementSpeed, for each variant's constants (final.js: speed 5, size 60). |
| Simulation.World.UpdateEnemyAnimation | realfinal.js:402-408 | The shared enemy cursor moves by Cycle on the enemy sheet. |
| Simulation.World.SpawnArcherEnemy | realfinal.js:85-97 | One walking archer is appended, 120 beyond the right edge, with walk budget 200, timer 0 and cursor (0, 0). |
| Simulation.World.UpdateArcherEnemies | realfinal.js:99-139 | The archers become ArcherPass's kept list. Its arrows are appended to the arrow list, in archer order. |
| Simulation.World.UpdateArcherEnemyAnimation | realfinal.js:156-181 | The archer list becomes AnimateArchers of the old one: same length and order, each archer AnimateArcher of itself. |
| Simulation.World.UpdateArrows | realfinal.js:141-154 | The new arrow list is UpdateArrowList of the old one. |
| Simulation.World.CheckCollisions | realfinal.js:431-457 | Let "hit" mean some active enemy's 5-inset box strictly overlaps the character's 10-inset box, taken before the pass. In realfinal.js, isGameOver becomes old or hit and the character stays put. With the reset response (testting.js, game.js), a hit moves the character to (450, 670) and isGameOver is untouched. With the log-only response (final.js), no state changes. Enemies never change. |
| Simulation.World.CheckAttackCollisions | realfinal.js:459-512 | Without an attack in progress, nothing changes. Otherwise exactly the active enemies and archers whose hitboxes overlap the attack box are deactivated. The lists keep their length and order. Without archers (testting.js), only the enemies are checked. |
| Simulation.World.CheckArrowCollisions | realfinal.js:230-255 | Exactly the arrows whose 50 x 10 box overlaps the character's hitbox are deactivated; the others are untouched. isGameOver becomes old or some arrow hit. |
| Simulation.World.DrawnFrame | realfinal.js:625-647 | The sheet drawn: attack first, then running, else jumping. The source x of the current frame lies within that sheet's strip. |
| Simulation.World.UpdatePlayer | realfinal.js:652-656 | updateBackground, updateCharacter and (when animated) updateCharacterAnimation in turn. offsetX moves by the net scroll, and movementSpeed is MovementSpeed of the keys. The vertical state is Character.Step of the old one. The pose is JumpPose of the old pose, followed by AnimatePose when animated, with the new velocity's sign. Every descriptor stays within its sheet. |
| Simulation.World.UpdateEntities | realfinal.js:657-662 | The enemy list becomes UpdateEnemyList of the old one, with shift enemySpeed + movementSpeed. The enemy cursor is cycled when animated. The archers become AnimateArchers of ArcherPass's kept list. The arrows become UpdateArrowList of the old arrows followed by the pass's new ones. Without archers, both lists stay empty. The descriptors stay valid, every enemy is beyond -enemySize, and every arrow has a screen x within the margin. |
| Simulation.World.UpdateRanged | realfinal.js:660-662 | The archers become AnimateArchers of ArcherPass's kept list. The arrows become UpdateArrowList of the old arrows followed by the arrows the pass pushed. Every archer cursor stays valid, and every arrow, the new ones included, has a screen x within the margin. |
| Simulation.World.CheckAll | realfinal.js:669-671 | The three collision passes keep every list's length, and each entry is the old one or the old one deactivated. With the reset response, the character is back at the start exactly when some enemy touched its hitbox at the old position; otherwise it stays put. An enemy or archer is deactivated exactly when an attack was in progress and its box overlaps the attack box at the final position. An arrow (realfinal.js) is deactivated exactly when it touches the character's hitbox there. isGameOver becomes old, or (end-game response) some enemy touched the old position, or (archers) some arrow touches the final position. The lists stay pruned and the descriptors valid. Without the end-game response and without archers, isGameOver never changes. |
| Simulation.World.GameLoop | realfinal.js:649-675 | One frame. offsetX moves by the net scroll and movementSpeed is MovementSpeed of the keys. velocityY and isJumping are those of Character.Step. With the reset response, the character is back at the start exactly when some enemy of UpdateEnemyList of the old list touches its hitbox at (x, Step's y); otherwise it is at (x, Step's y). The pose is that of UpdatePlayer. The enemy cursor is cycled when animated. The enemies are UpdateEnemyList of the old list, with exactly those deactivated that overlap the attack box while an attack is in progress. The archers are AnimateArchers of ArcherPass's kept list, struck the same way. The arrows are UpdateArrowList of the old arrows followed by the pass's new ones, with exactly those touching the character deactivated. isGameOver becomes old, or (end-game response) some moved enemy touched the character at (x, Step's y), or (archers) some updated arrow touches its final position. The descriptors stay valid, the lists pruned and the keys held. The loop runs on after the game ends. The variants without archers that reset or only log (testting.js, game.js, final.js) never set isGameOver. |
| Simulation.World.UpdateAndCheck | realfinal.js:657-671 | The entity updates followed by the three collision passes. The enemy cursor is cycled when animated. The enemies are UpdateEnemyList of the old list, with exactly those deactivated that overlap the attack box while an attack is in progress. Archers and arrows are those of the archer pass and the arrow update, struck exactly as in CheckAll. With the reset response, the character is back at the start exactly when a moved enemy touches it; otherwise it stays put. isGameOver becomes old, or (end-game response) some moved enemy touched the character, or (archers) some updated arrow touches it. The lists stay pruned and the descriptors valid. |
| ScriptGame.Game.constructor | script.js:2-22 | A fresh game: no enemies, score 0, not over, spawn time 0, character on the ground line 305 at rest, no scroll, no keys. |
| ScriptGame.Game.Reset | script.js:78-90 | Back to a fresh game. The held keys are kept. |
| ScriptGame.Game.OnKeyDown | script.js:65-67 | The key becomes held. |
| ScriptGame.Game.OnKeyUp | script.js:69-71 | The key is no longer held. |
| ScriptGame.Game.SpawnEnemy | script.js:92-98 | An enemy is pushed and the time recorded exactly when more than 2000 has passed since the last spawn. Otherwise nothing changes. |
| ScriptGame.Game.UpdateEnemies | script.js:100-112 | The list becomes the updated enemies still on screen, in their old order. The score rises by 10 per enemy removed, which is 10 times the drop in length. gameOver becomes old or some kept enemy touches the character. |
| ScriptGame.Game.VisitStep | script.js:101-111 | One turn at index i: the slot still holds the old enemy. Splicing the updated enemy out, or keeping it, yields the old prefix before i followed by the survivors from i on. |
| ScriptGame.Game.CollisionStep | script.js:104-110 | Some kept enemy of a suffix collides exactly when its first enemy, kept, collides or some enemy behind it does. |
| ScriptGame.Game.SurvivorsAndLeaving | script.js:100-112 | The survivors plus the enemies that left number the whole list. |
| ScriptGame.Game.UpdateBackground | script.js:125-132 | offsetX changes by the net scroll of the held arrow keys. |
| ScriptGame.Game.UpdateCharacter | script.js:134-150 | The vertical state moves by Character.Step against ground line 305, jump strength 25, gravity 1. |
| ScriptGame.Game.Update | script.js:181-188 | Once the game is over, nothing changes. While it runs, one call is updateCharacter (Character.Step), updateBackground (the net scroll), spawnEnemy (a new enemy and the time recorded exactly when more than 2000 has passed) and updateEnemies in turn. The list becomes the survivors of the old list plus any new enemy, the score rises by 10 for each enemy that left, and gameOver becomes whether some kept enemy touches the character. The keys are never touched, and the score never falls. |
| AiGame.Enemy.constructor | ai.js:107-113 | The given x, y and speed; width and height 50. |
| AiGame.Enemy.Update | ai.js:120-122 | x falls by exactly the enemy's own speed; nothing else changes. |
| AiGame.World.constructor | ai.js:14-19 | The character on ground line canvasHeight - 95 at the given x, at rest, no scroll, no enemies, spawn time 0. |
| AiGame.World.OnKeyDown | ai.js:39-41 | The key becomes held. |
| AiGame.World.OnKeyUp | ai.js:42-44 | The key is no longer held. |
| AiGame.World.UpdateBackground | ai.js:68-76 | offsetX changes by the net of ±13 for the held arrow keys. |
| AiGame.World.UpdateCharacter | ai.js:79-98 | The vertical state moves by Character.Step against ground line canvasHeight - 95, jump strength 25, gravity 1. |
| AiGame.World.SpawnEnemy | ai.js:131-137 | A new Enemy object at the right edge, with the given y and speed, is appended. |
| AiGame.World.UpdateEnemies | ai.js:140-149 | Every old enemy's x falls by exactly its speed (each update is called once). The list becomes exactly the old enemies with x + width >= 0 afterwards, in their old order. The list stays free of duplicates. |
| AiGame.World.GameLoop | ai.js:159-182 | One frame. offsetX moves by the net scroll of ±13, and the vertical state is Character.Step of the old one. One enemy is spawned exactly when more than the interval has passed since the last spawn, and the timestamp is then recorded. It is a new object with the given y and speed, and after this frame's move it stands at canvasWidth - speed. Otherwise the spawn time is kept. Every old enemy moves by its own speed. The list becomes OnScreen of the old list plus the spawned enemy, so every enemy left has x + width >= 0. |
| AiGame.World.SpawnIfDue | ai.js:171-174 | The spawn gate: exactly one new enemy, at the right edge with the given y and speed, is appended, and the timestamp is recorded, exactly when more than the spawn interval has passed since the last spawn. Otherwise nothing changes. |
| AiGame.Sweep | ai.js:141-148 | The for loop with splice and i--: every enemy of the list has been updated once, and the list left is the selection Kept by positions after the update. |
| AiGame.Visit | ai.js:142-147 | One turn at index i, holding the k-th old enemy: after the update, splicing it out with i stepped back leaves the prefix kept so far followed by the unvisited enemies, with i at the next one. |
| AiGame.OnScreenIsKept | ai.js:144 | Judged by the current positions, OnScreen selects what Kept selects. |
| AiGame.OnScreenMembers | ai.js:144-147 | Every enemy kept is one of the list and is on screen (x + width >= 0). |
| AiGame.OnScreenDistinct | ai.js:131-137 | Selecting from distinct objects gives distinct objects. Each spawn pushes a new one. |

## Left out

- Drawing is not modelled: every `ctx.drawImage`/`fillRect` call, the parallax background and the score text. The parallax uses fractional speeds and JavaScript's truncating `%`. Only the choice of sheet and the frame-rectangle arithmetic are kept (`FrameX`, `DrawnFrame`, `DrawnArcherFrame`).
- The DOM and interface are not modelled: `startGame`, the display switching in `endGame`, `restartGame`, and the game-over page. `endGame` is modelled as setting `isGameOver`.
- Audio is not modelled: the running, jump and attack sounds in `updateBackground`, `updateCharacter` and the keydown listener, and the background music.
- Asset loading is not modelled: the `onload`/`onerror` counters and `checkAssetsLoaded`. This is asynchronous I/O that only gates the start.
- Scheduling is not modelled: `requestAnimationFrame`, the `setInterval` spawners, `Date.now()`, `timestamp` and `animate`. Spawns are explicit calls. The clock reading is a parameter of `ScriptGame.Game.SpawnEnemy`/`Update` and `AiGame.World.GameLoop`.
- `resizeCanvas` and the character's x of `canvas.width / 3` are not modelled, because that x may be fractional. The canvas size and the character's x are constructor parameters.
- `Math.random` in ai.js's `spawnEnemy` is not modelled. The y and speed it would draw are inputs, and speeds are integers; the source's fractional speed in [1, 3) is not modelled.
- The `Player` and `Enemy` classes that script.js uses are not part of this model. An enemy is a value of a type parameter. `update`, `isOffScreen` and `checkCollision` are functions the game is built with. `reset` replacing the player and calling `animate` is left out with them.
- Script.js enemies are therefore values, not shared objects. Aliasing between them is not modelled.
- Rebuilt lists in Simulation are built locally, the way `filter` builds a new array, and then stored. This covers `updateEnemies`, `updateArcherEnemies` and `updateArrows`. Each archer's arrow is collected during the pass and appended to `arrows` after it. Nothing reads `arrows` during the pass, so the final state is the same.
- ai.js's sweep works on a local copy of the array reference, which it stores back at the end. No other code runs during the loop.
- `deltaTime` in ai.js's `updateEnemies` is unused by the source and left out.

## Notes on the scripts

- With both arrow keys held, realfinal.js, testting.js, game.js and final.js
  leave `offsetX` unchanged but set `movementSpeed` to +characterSpeed, the
  last value written. So enemies still shift by enemySpeed + characterSpeed.
- An archer spawns 120 beyond the right edge and stops 200 inside it, at 2
  per call. So with the view still it switches to shooting on call 160, not
  after 100 calls of walking.
- Melee enemies spawn at `canvas.width + enemySize`, not at the edge.
- After the call that starts a jump, the velocity is already -jumpStrength +
  gravity.
- The `ATTACKING` state is declared but never assigned. The attack is
  tracked only by the descriptor's flag.
- An arrow pushed by an archer has no screen x until `updateArrows` has run
  over it. realfinal.js calls `updateArrows` right after the archer update,
  so every arrow has one by the time collisions are checked (`UpdateRanged`).
- When an attack ends, the state becomes running even in mid-air.
- `checkCollisions` computes the character's hitbox once, before the pass.
  So in the reset variants, enemies after the first hit are still checked
  against the old position.
- `checkArrowCollisions` does not skip inactive arrows.
- The game loop never reads `isGameOver`.
- In script.js the canvas is fixed at 800 x 400 before the character is
  placed, so the character's x is the constant 800 / 3. It is not whole, so
  the model keeps it as the `real` `CharacterX` and hands it to the collision
  test unchanged.
