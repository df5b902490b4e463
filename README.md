# A verified model of the frame loop of a small arcade game

The game (a Rust program on macroquad, `src/main.rs`) shows a circle the player steers
with the arrow keys. Squares fall from the top of the screen and the player shoots
bullets upwards with Enter. A bullet that hits a square takes 4 health from it and adds
the square's remaining health to the score. Touching a square costs a life. After 3
lives the game is over. The best score is kept in a file.

This project models what one frame of the main loop does to the game's variables,
with drawing, sound output, file access and random numbers taken out:

- `Geometry`: rectangles, circles, the two macroquad overlap tests, and Rust's
  `f32::clamp` and `f32::round`.
- `Entities`: the player, the falling square and the bullet. It holds their
  constructors, their movement and the `Collide` trait, written as a tagged union
  `Body` with one `Collide` function.
- `Retain`: `Vec::retain` as an order-preserving filter on sequences.
- `HitPass`: the nested bullet-against-square loop. `OuterPass`/`InnerPass` follow the
  loops one iteration at a time. `Damage`, `Gain` and `Hits` give the result of the
  whole pass as closed forms, and `PassCharacterised` proves the two agree.
- `Frame`: one frame as a function from `World` (the loop's variables) to an `Outcome`:
  the new world, the sound cues and high-score writes issued, and whether the process
  exits. The `Playing` branch is split into the source's phases, in the source's order:
  move the player, shoot, spawn, bullet pass, squares fall, death test, death check,
  prune.
- `FrameProperties`: lemmas about those functions. They cover the state machine,
  respawn and game over, the high-score rule, pruning, consumed entities, an invariant
  kept by every frame, and a worked scenario.
- `GameLoop`: class `Game`, which holds the loop's variables as fields. Its `Step`
  method dispatches on the state exactly as `main` does. Each phase is a method that
  updates the fields in place: the player's coordinates are assigned their clamped new
  values, nested `while` loops run over the bullet and square sequences (the inner one
  in a method of its own), and the `retain` calls filter the vectors. Each method is proved to
  produce what `Frame` specifies, and `Step` is proved to keep `Frame.Inv`.

Numbers: positions, sizes, speeds, the frame time and the reload timer are `real`.
Health, damage, score and high score are `int`; this is exact in the source too, because
health starts as `round(size * 0.25)` and only ever loses the whole damage 4. Lives are
an `int` that never leaves 1..3; it is an `i8` in the source. Screen width and height,
the frame time, the keys held and the random draws are inputs to each frame.

Behaviour kept exactly as the code has it:

- The score gains the square's health after the damage is subtracted. A 4-health
  square killed by one bullet therefore adds 0, and a square hit past zero adds a
  negative amount (`HitPass.SingleHit`, `FrameProperties.ExactKillScoresNothing`).
  The score is therefore not monotonic, and nothing here claims it is.
- Leaving the menu does not reset the score. Only a retry from the game-over screen does.
- Bullets move and collide before the squares move in the same frame.
- Left beats Right and Up beats Down: opposite keys do not cancel.
- The vertical coordinate is clamped by the screen width, not its height.
- The reload timer is a loop variable outside the player, and `new_attempt` does not
  reset it.
- `Player::collider_rect` passes `x + r` and `y + r` as its width and height. No caller
  uses it; `Player::collide` tests the circle against the other body's rectangle.
- A bullet overlapping several squares damages each of them once and is removed at the
  end of the frame.
- In the game-over screen, Space and Escape held in the same frame first retry (which
  commits the high score and zeroes the score), then exit.

## Model

| member | source | states |
|---|---|---|
| Geometry.Clamp | src/main.rs:110-115 | the result lies in [lo, hi]; it is v when v is in range, lo below it, hi above it |
| Geometry.Round | src/main.rs:297 | the result is an integer within 1/2 of v; when exactly 1/2 away, it is the one farther from zero |
| Geometry.RectsOverlap | src/main.rs:156 | for rectangles of non-negative size, they overlap iff the point at the larger left edge and the larger top edge lies in both; the body follows macroquad's `Rect::overlaps` and is an assumption |
| Geometry.RectsOverlapSymmetric | src/main.rs:156 | the rectangle overlap test gives the same answer with its arguments swapped |
| Geometry.CircleOverlapsRect | src/main.rs:84 | an overlap puts the centre within r of the rectangle on each axis, and a centre inside the rectangle always overlaps; the body follows macroquad's `Circle::overlaps_rect` and is an assumption |
| Entities.NewBullet | src/main.rs:163-170 | the bullet's box is 8 by 12 and centred on (x, y), it is unspent, its damage is 4 and its speed 1280 |
| Entities.NewPlayer | src/main.rs:91-99 | the player is centred horizontally, 100 units above the bottom edge, with radius 10, the given lives, speed 320, reload 0.3 and no death flag |
| Entities.NewSquare | src/main.rs:130-136 | the square's rectangle has its top-left corner at (x, y) and both sides equal to size; speed and health are as given |
| Entities.KeyAxis | src/main.rs:276-277 | the axis is negative iff the first key is held and positive iff only the second is, so both keys together give the first key's direction |
| Entities.Normalized | src/main.rs:110-114 | each component has the sign of its key value; no component exceeds 1 in size; an axis-aligned vector has unit length; both components of a diagonal vector have size `diagonal` (1/sqrt(2)) |
| Entities.PlayerMoved | src/main.rs:107-117 | a zero vector leaves the player unchanged; any other vector leaves both coordinates in [r, width - r], the vertical one bounded by the width as well; only the position changes |
| Entities.SquareMoved | src/main.rs:144-146 | only the square's y changes, and with non-negative speed and time it does not decrease |
| Entities.BulletMoved | src/main.rs:176-178 | only the bullet's y changes, and with non-negative speed and time it does not increase |
| Entities.ColliderRect | src/main.rs:74-152 | a square's and a bullet's collider are their own rectangles; the player's starts at the circle's bounding-box corner (x - r, y - r) but ends at (2x, 2y), because it passes x + r and y + r as width and height |
| Entities.Collide | src/main.rs:81-159 | a square never collides; against a square, the player collides iff its circle overlaps the square's rectangle and a bullet iff its rectangle overlaps the square's |
| Entities.BulletHitIsGeometric | src/main.rs:153-159 | a bullet's hit test depends only on the two rectangles, not on the hit flag, damage, health or speed, and is the rectangle overlap test |
| Entities.PlayerTouchIsGeometric | src/main.rs:81-87 | the player's touch test depends only on its circle and the square's rectangle, not on lives, death flag, health or speed, and is the circle-rectangle test |
| Entities.PlayerColliderRectQuirk | src/main.rs:74-80 | the player's collider rect is 2r by 2r only when the player sits at (r, r); everywhere else its size is wrong |
| Entities.MovementFollowsKeys | src/main.rs:107-117 | from an in-bounds position, a negative key never increases that coordinate, a positive key never decreases it, and an axis with no key keeps its coordinate |
| Entities.AxisStep | src/main.rs:109-114 | one coordinate advanced along a component and clamped into bounds moves against a negative component, with a positive one, and not at all with a zero one |
| Retain.Filter | src/main.rs:340-341 | every survivor comes from the input and satisfies the predicate; every input element that satisfies it survives; there are no more survivors than inputs |
| Retain.FilterKeepsOrder | src/main.rs:340-341 | the k-th survivor is the input element at the k-th accepted position; those positions strictly increase; a position is accepted iff its element satisfies the predicate |
| HitPass.HitStep | src/main.rs:307-312 | one inner iteration changes at most bullet i and square j; without a hit nothing changes; on a hit the bullet is marked, the square loses the bullet's damage, the score gains the square's health after that loss and one kill is counted |
| HitPass.Launch | src/main.rs:304 | only bullet i changes, to its moved self; squares, score and kills are untouched |
| HitPass.InnerPass | src/main.rs:306-313 | the inner loop keeps the lengths of both vectors |
| HitPass.OuterPass | src/main.rs:303-314 | the outer loop keeps the lengths of both vectors |
| HitPass.Run | src/main.rs:303-314 | the whole pass keeps both vectors' lengths and plays at most one kill cue per (bullet, square) pair |
| HitPass.RowHits | src/main.rs:306-313 | the number of squares among the first m that a bullet hits is at most m |
| HitPass.Hits | src/main.rs:303-314 | the number of overlapping (bullet, square) pairs is at most the number of bullets times the number of squares |
| HitPass.PassCharacterised | src/main.rs:303-314 | after the pass, bullet k is the moved bullet, with its hit flag raised iff it overlaps some square; square j has its rect and speed and has lost the summed damage of the moved bullets overlapping it; the score has grown by Gain, one post-hit health per overlapping pair in loop order; one kill cue plays per overlapping pair |
| HitPass.NoOverlapNoDamage | src/main.rs:306-313 | a square that no moved bullet overlaps takes no damage |
| HitPass.DamagePositiveIffHit | src/main.rs:307-309 | with positive bullet damage, a square's damage is never negative, and it is positive iff some moved bullet overlaps the square |
| HitPass.PassKeepsShapes | src/main.rs:303-314 | the pass keeps every square's rect and speed, and every bullet's damage and speed; each bullet's rect is its moved rect |
| HitPass.SingleHit | src/main.rs:307-311 | one bullet against one square it overlaps: the square loses the damage, the bullet is marked, the score grows by health - damage (the post-hit health), one kill cue |
| Frame.Initial | src/main.rs:214-227 | the game starts in the menu with score 0, the stored high score, reload timer 0, empty vectors, the player `Player::new(3)`, and the invariant holding |
| Frame.NewAttempt | src/main.rs:418-422 | new_attempt yields the given lives, a living player with radius 10, speed 320 and reload 0.3, empty vectors, and changes nothing else |
| Frame.MovePhase | src/main.rs:275-277 | only the player's position changes; with no arrow key down nothing changes; with one down both coordinates end in [r, width - r] |
| Frame.ShootPhase | src/main.rs:280-287 | a bullet centred on the player is appended iff Enter is down and the timer is <= 0 (`Fires`), and then the timer restarts from the reload interval; either way the timer then loses the frame time; nothing else changes |
| Frame.Spawned | src/main.rs:291-298 | the spawned square is size by size at (x, -10) with the drawn speed, and its health is size / 4 rounded half away from zero, so within 1/2 of size / 4 |
| Frame.SpawnPhase | src/main.rs:290-300 | without a draw nothing changes; with one the spawned square is appended; nothing but the squares changes |
| Frame.SquaresMoved | src/main.rs:317-320 | moving the squares keeps their number |
| Frame.CollidePhase | src/main.rs:323-327 | only the death flag may change; it is set iff it was set already or the player's circle overlaps some square's rectangle |
| Frame.DeathPhase | src/main.rs:330-337 | without a death nothing changes; a death with lives > 1 gives a living player with one life fewer and empty vectors and keeps state and scores; a death on the last life changes only the state, to GameOver |
| Frame.PruneSquares | src/main.rs:340 | the survivors are squares of the input that are above height + h with positive health, every such square survives, and there are no more of them than inputs |
| Frame.PruneBullets | src/main.rs:341 | the survivors are unspent bullets of the input below -h, every such bullet survives, and there are no more of them than inputs |
| Frame.PrunePhase | src/main.rs:340-341 | after pruning no square has health <= 0 and no bullet is spent; nothing but the two vectors changes |
| Frame.KillCues | src/main.rs:311 | n kill cues and nothing else |
| Frame.KillsThenDeath | src/main.rs:310-331 | the kill cues come first, one per hit, then one death cue iff the player died, as the last element; nothing else is in the list |
| Frame.FrameCues | src/main.rs:282-331 | the cue list holds one shot cue iff a shot was fired, then first; exactly as many kill cues as hits; one death cue iff the player died, then last; nothing else, so the list is fully determined in the order the source plays the sounds |
| Frame.PlayingFrame | src/main.rs:273-345 | a Playing frame never exits, never writes or changes the high score and never returns to the menu; it plays one shot cue iff it fires, one kill cue per hit, and one death cue iff the player died, as the last cue |
| Frame.MenuFrame | src/main.rs:264-271 | the menu plays and writes nothing, exits iff Escape is down, moves to Playing iff Space is down, and keeps score and high score; without Space nothing changes |
| Frame.GameOverFrame | src/main.rs:393-408 | exits iff Escape is down; without Space nothing changes; with Space it plays with score 0 and high score max(high score, score); the high score never falls; there are at most two events, each a write of a value above the old high score |
| Frame.Step | src/main.rs:234-414 | the menu never leads to game over and nothing leads back to the menu; a frame exits iff it is not in play and Escape is down; only the game-over screen writes the high score; the high score never falls |
| FrameProperties.MenuStart | src/main.rs:264-271 | in the menu, Space starts playing with 3 lives and empty vectors; without Space nothing changes; the menu issues no cue or write; Escape exits |
| FrameProperties.RetryFromGameOver | src/main.rs:394-402 | retry sets the high score to max(high score, score), writes it iff high score < score strictly, zeroes the score and starts a 3-life attempt with empty vectors in Playing |
| FrameProperties.ExitFromGameOver | src/main.rs:403-408 | Escape alone on the game-over screen exits and writes the score iff it beats the high score, changing nothing else |
| FrameProperties.SpawnedHealth | src/main.rs:290-299 | a spawned square has health round(size/4), which is 4 to 16 for sizes in [16, 64), and starts at y = -10 as a size by size square |
| FrameProperties.PlayerThroughPhases | src/main.rs:274-327 | before the death check the state, high score, lives, speed, reload and radius are as at the start of the frame, and the death flag is set iff a fallen square touches the player |
| FrameProperties.RespawnOnDeath | src/main.rs:330-333 | death with lives > 1 gives a fresh living player with one life fewer and empty vectors, stays in Playing and plays the death cue exactly once, as the frame's last cue |
| FrameProperties.GameOverOnLastLife | src/main.rs:330-336 | death with lives <= 1 moves to GameOver; the vectors are pruned but not cleared, and the player is kept; the death cue plays exactly once, as the frame's last cue |
| FrameProperties.SurvivingFrame | src/main.rs:329-341 | without a death the frame stays in Playing, keeps the lives, prunes the frame's vectors and plays no death cue |
| FrameProperties.PruneExactly | src/main.rs:340-341 | squares keep exactly the positions with y < height + h and health > 0, and bullets exactly those with y > -h and not hit, each in the original relative order |
| FrameProperties.ConsumedVanish | src/main.rs:303-341 | a bullet that overlapped any square this frame, and a square whose health the frame's hits brought to 0 or below, is absent after the frame |
| FrameProperties.PlayingPreservesInv | src/main.rs:273-345 | a Playing frame keeps the invariant |
| FrameProperties.StepPreservesInv | src/main.rs:239-409 | every frame keeps the invariant: lives in 1..3, fixed radius/speed/reload, no dead player while playing, only unspent 4-damage bullets and positive-health squares between frames |
| FrameProperties.ExactKillScoresNothing | src/main.rs:303-341 | a 4-health square hit by one 4-damage bullet, with no keys and no spawn: both are gone after the frame, one kill cue plays, and the score is unchanged |
| GameLoop.Game.constructor | src/main.rs:214-227 | the fields start as Frame.Initial and the invariant holds |
| GameLoop.Game.NewAttempt | src/main.rs:418-422 | empties both vectors in place and returns a living player with the given lives, speed 320 and reload 0.3 |
| GameLoop.Game.MovePlayer | src/main.rs:275-277 | the player becomes PlayerMoved of the old player under the key vector |
| GameLoop.Game.Shoot | src/main.rs:280-287 | reports whether it fired; bullets and timer become those of ShootPhase |
| GameLoop.Game.Spawn | src/main.rs:290-300 | squares become those of SpawnPhase |
| GameLoop.Game.CollideBullets | src/main.rs:303-314 | the nested loops leave bullets, squares and score as HitPass.Run says, and return one kill cue per hit |
| GameLoop.Game.HitSquares | src/main.rs:306-313 | the inner loop for bullet i leaves bullets, squares, score and kill count as HitPass.InnerPass over all squares says, with one kill cue per kill |
| GameLoop.Game.MoveSquares | src/main.rs:317-320 | every square has fallen by its speed times dt, in place |
| GameLoop.Game.CollidePlayer | src/main.rs:323-327 | the death flag is raised iff some square touches the player |
| GameLoop.Game.CheckDeath | src/main.rs:330-337 | the fields become DeathPhase of the old ones, and the result reports the death |
| GameLoop.Game.Prune | src/main.rs:340-341 | squares and bullets are retained as PruneSquares and PruneBullets say |
| GameLoop.Game.PlayingBranch | src/main.rs:273-345 | the fields, cues and writes are exactly those of Frame.PlayingFrame |
| GameLoop.Game.MenuBranch | src/main.rs:240-272 | the fields and the exit flag are those of Frame.MenuFrame, with no cue or write |
| GameLoop.Game.GameOverBranch | src/main.rs:346-409 | the fields, writes and exit flag are those of Frame.GameOverFrame |
| GameLoop.Game.Step | src/main.rs:234-414 | one loop iteration produces exactly Frame.Step, and the invariant is kept |

## Left out

- Drawing: `draw_*`, `draw_text_ex`, `clear_background`, the colours and the window
  configuration `conf`. They only produce output.
- Audio and assets: `set_pc_assets_folder`, `load_ttf_font` and `load_sound`, which
  abort when a file is missing, are not modelled. `play_sound_once` is modelled as the
  `ShotCue`, `KillCue` and `DeathCue` events a frame returns.
- Reading the high-score file: `fs::read_to_string` and the `f32` parse are not
  modelled. A missing file counts as 0 in the source, and an unparseable one aborts.
  The constructor takes the value already read, as an `int`. A hand-edited file holding
  a fraction is outside the model.
- Writing the high-score file: `high_score_update` (`fs::write` of `to_string`) is the
  `HighScoreWrite(score)` event. The text round-trip depends on Rust's float
  formatting and is not modelled. Neither is a failed write: `fs::write(...).expect(...)`
  aborts the process then (src/main.rs:425), and the model assumes every write succeeds.
- Random numbers: the spawn decision (`random_bool(0.1)`) and the draws of size, x and
  speed are the `spawn` input. `ValidSpawn` states their ranges.
- macroquad library code: `Rect::overlaps` and `Circle::overlaps_rect` have bodies
  written after macroquad's definitions. That they match the library is an assumption.
  For `Vec2::normalize` of a diagonal key vector, the component 1/sqrt(2) is the input
  `env.diagonal`, because Dafny's reals have no square root.
- `screen_width()`, `screen_height()` and `get_frame_time()` are the inputs in `Env`.
  `ValidEnv` asks for a non-negative frame time and a screen at least one player wide,
  since `f32::clamp` panics on crossed bounds.
- `exit(1)` is the `exit` result of `Step`; the caller stops calling after it.
  `next_frame().await` and the async runtime are frame synchronisation, not logic.
- f32 rounding and overflow: the model computes exactly over `real` and `int` and says
  nothing about IEEE-754 effects.
- Entities.PlayerMoved: its own contract states the bounds and what stays fixed, not
  the exact new coordinates. `GameLoop.Game.MovePlayer` pins them by equality with the
  function.
