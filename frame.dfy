/** One iteration of the main loop of src/main.rs as a function from the game's
    variables before the frame to the variables after it, with the sound cues and
    high-score writes the frame issues and whether it exits the process.
    Screen size, frame time, keys and random draws are inputs. */
module Frame {
  import opened Geometry
  import opened Entities
  import opened Retain
  import HitPass

  datatype Option<T> = None | Some(value: T)

  datatype GameState = Menu | Playing | GameOver

  /** The keys `is_key_down` is asked about. */
  datatype Keys = Keys(left: bool, right: bool, up: bool, down: bool, enter: bool, space: bool, escape: bool)

  /** `screen_width()`, `screen_height()`, `get_frame_time()`, and the component
      1 / sqrt(2) of a normalised diagonal vector. */
  datatype Env = Env(width: real, height: real, dt: real, diagonal: real)

  /** The random draws of one spawning frame: size, horizontal position, speed. */
  datatype SpawnDraw = SpawnDraw(size: real, x: real, speed: real)

  /** Side effects of a frame other than drawing: sound cues and high-score file writes. */
  datatype Event = ShotCue | KillCue | DeathCue | HighScoreWrite(value: int)

  /** The local variables of `main` that survive from frame to frame (the RNG aside). */
  datatype World = World(
    state: GameState,
    score: int,
    highScore: int,
    player: Player,
    reloadTimer: real,
    squares: seq<Square>,
    bullets: seq<Bullet>)

  datatype Outcome = Outcome(world: World, events: seq<Event>, exit: bool)

  /** What the frame's environment guarantees: time does not run backwards, the
      window is wider than the player (`f32::clamp` panics otherwise) and the
      diagonal component lies strictly between 0 and 1. */
  predicate ValidEnv(env: Env)
  {
    env.dt >= 0.0 && env.width >= 2.0 * PlayerRadius && 0.0 < env.diagonal < 1.0
  }

  /** The ranges `random_range` draws from: size in [16, 64), x in [size, width - size),
      speed in [50, 150). */
  predicate ValidSpawn(spawn: Option<SpawnDraw>, width: real)
  {
    spawn.Some? ==>
      var d := spawn.value;
      16.0 <= d.size < 64.0 && d.size <= d.x < width - d.size && 50.0 <= d.speed < 150.0
  }

  /** What holds of every world the game reaches. */
  predicate Inv(w: World)
  {
    1 <= w.player.lives <= 3
    && w.player.circle.r == PlayerRadius && w.player.speed == PlayerSpeed && w.player.reload == PlayerReload
    && (w.state == Playing ==> !w.player.death)
    && (forall k :: 0 <= k < |w.bullets| ==>
          !w.bullets[k].hit && w.bullets[k].damage == BulletDamage && w.bullets[k].speed == BulletSpeed)
    && (forall j :: 0 <= j < |w.squares| ==> w.squares[j].health > 0 && w.squares[j].speed >= 0.0)
  }

  /** The variables as `main` initialises them (the high score comes from the store). */
  function Initial(storedHighScore: int, width: real, height: real): (w: World)
    ensures Inv(w) && w.state == Menu && w.score == 0 && w.highScore == storedHighScore
    ensures w.squares == [] && w.bullets == [] && w.player.lives == 3
    ensures w.reloadTimer == 0.0 && w.player == NewPlayer(3, width, height)
  {
    World(Menu, 0, storedHighScore, NewPlayer(3, width, height), 0.0, [], [])
  }

  /** `new_attempt`: both vectors cleared and a fresh living player with the given
      lives, the standard radius, speed and reload interval; nothing else changes. */
  function NewAttempt(w: World, lives: int, env: Env): (r: World)
    ensures r.player.lives == lives && !r.player.death && r.player.circle.r == PlayerRadius
    ensures r.player.speed == PlayerSpeed && r.player.reload == PlayerReload
    ensures r.squares == [] && r.bullets == []
    ensures r.(player := w.player, squares := w.squares, bullets := w.bullets) == w
  {
    w.(player := NewPlayer(lives, env.width, env.height), squares := [], bullets := [])
  }

  function Max(a: int, b: int): int { if a < b then b else a }

  // ---- The Playing branch, phase by phase ----

  /** Moving the player with the key vector (src/main.rs:275-277). */
  function MovePhase(w: World, keys: Keys, env: Env): (r: World)
    requires ValidEnv(env) && w.player.circle.r == PlayerRadius
    ensures r == w.(player := r.player)
    ensures r.player == w.player.(circle := Circle(r.player.circle.x, r.player.circle.y, PlayerRadius))
    ensures !keys.left && !keys.right && !keys.up && !keys.down ==> r == w
    ensures keys.left || keys.right || keys.up || keys.down ==>
      PlayerRadius <= r.player.circle.x <= env.width - PlayerRadius
      && PlayerRadius <= r.player.circle.y <= env.width - PlayerRadius
  {
    w.(player := PlayerMoved(w.player, KeyAxis(keys.left, keys.right), KeyAxis(keys.up, keys.down),
                             env.dt, env.width, env.diagonal))
  }

  /** Enter fires only when the reload timer has run out. */
  predicate Fires(w: World, keys: Keys)
  {
    keys.enter && w.reloadTimer <= 0.0
  }

  /** Shooting, then running the reload timer down (src/main.rs:280-287): a bullet
      centred on the player is appended iff Enter is down and the timer has run out,
      and the timer then restarts from the reload interval; either way it then loses
      the frame time, and nothing else changes. */
  function ShootPhase(w: World, keys: Keys, dt: real): (r: World)
    ensures Fires(w, keys) ==>
      r.bullets == w.bullets + [NewBullet(w.player.circle.x, w.player.circle.y)]
      && r.reloadTimer == w.player.reload - dt
    ensures !Fires(w, keys) ==> r.bullets == w.bullets && r.reloadTimer == w.reloadTimer - dt
    ensures r.(bullets := w.bullets, reloadTimer := w.reloadTimer) == w
  {
    var fired :=
      if Fires(w, keys)
      then w.(bullets := w.bullets + [NewBullet(w.player.circle.x, w.player.circle.y)], reloadTimer := w.player.reload)
      else w;
    fired.(reloadTimer := fired.reloadTimer - dt)
  }

  /** The square the random draws describe: a size by size square at (x, -10) with
      the drawn speed, and a health within 1/2 of size / 4. */
  function Spawned(d: SpawnDraw): (s: Square)
    ensures s.rect == Rect(d.x, SquareStartY, d.size, d.size) && s.speed == d.speed
    ensures s.health == Round(d.size * 0.25) && Abs(s.health as real - d.size * 0.25) <= 0.5
  {
    NewSquare(d.x, SquareStartY, d.speed, d.size, Round(d.size * 0.25))
  }

  /** Spawning a square when the random draw says so (src/main.rs:290-300). */
  function SpawnPhase(w: World, spawn: Option<SpawnDraw>): (r: World)
    ensures r.(squares := w.squares) == w
    ensures spawn.None? ==> r.squares == w.squares
    ensures spawn.Some? ==> r.squares == w.squares + [Spawned(spawn.value)]
  {
    match spawn
    case None => w
    case Some(d) => w.(squares := w.squares + [Spawned(d)])
  }

  /** Every square falls (src/main.rs:317-320). */
  function SquaresMoved(squares: seq<Square>, dt: real): (r: seq<Square>)
    ensures |r| == |squares|
  {
    seq(|squares|, j requires 0 <= j < |squares| => SquareMoved(squares[j], dt))
  }

  /** Some square touches the player. */
  predicate TouchesAny(p: Player, squares: seq<Square>)
  {
    exists j :: 0 <= j < |squares| && PlayerTouches(p, squares[j])
  }

  /** The player dies when any square touches it (src/main.rs:323-327): the death
      flag is raised iff the player's circle overlaps some square's rectangle, and
      nothing else changes. */
  function CollidePhase(w: World): (r: World)
    ensures r == w.(player := w.player.(death := r.player.death))
    ensures r.player.death <==>
      w.player.death || exists j :: 0 <= j < |w.squares| && CircleOverlapsRect(w.player.circle, w.squares[j].rect)
  {
    w.(player := w.player.(death := w.player.death || TouchesAny(w.player, w.squares)))
  }

  /** Respawn with one life fewer, or game over on the last life (src/main.rs:330-337). */
  function DeathPhase(w: World, env: Env): (r: World)
    ensures !w.player.death ==> r == w
    ensures w.player.death && w.player.lives > 1 ==>
      r.player.lives == w.player.lives - 1 && !r.player.death && r.squares == [] && r.bullets == []
      && r.state == w.state && r.score == w.score && r.highScore == w.highScore
    ensures w.player.death && w.player.lives <= 1 ==> r == w.(state := GameOver)
  {
    if !w.player.death then w
    else if w.player.lives > 1 then NewAttempt(w, w.player.lives - 1, env)
    else w.(state := GameOver)
  }

  predicate KeepSquare(s: Square, height: real)
  {
    s.rect.y < height + s.rect.h && s.health > 0
  }

  predicate KeepBullet(b: Bullet)
  {
    b.rect.y > -b.rect.h && !b.hit
  }

  /** The predicate the squares' `retain` is given. */
  function SquareKeeper(height: real): Square -> bool
  {
    s => KeepSquare(s, height)
  }

  /** The squares' `retain`: what survives is still above the bottom edge with positive
      health, and every such square survives. */
  function PruneSquares(squares: seq<Square>, height: real): (r: seq<Square>)
    ensures |r| <= |squares|
    ensures forall k :: 0 <= k < |r| ==> r[k] in squares && KeepSquare(r[k], height)
    ensures forall j :: 0 <= j < |squares| && KeepSquare(squares[j], height) ==> squares[j] in r
  {
    Filter(squares, SquareKeeper(height))
  }

  /** The bullets' `retain`: what survives is unspent and still below the top edge, and
      every such bullet survives. */
  function PruneBullets(bullets: seq<Bullet>): (r: seq<Bullet>)
    ensures |r| <= |bullets|
    ensures forall k :: 0 <= k < |r| ==> r[k] in bullets && KeepBullet(r[k])
    ensures forall k :: 0 <= k < |bullets| && KeepBullet(bullets[k]) ==> bullets[k] in r
  {
    Filter(bullets, KeepBullet)
  }

  /** The two `retain` calls (src/main.rs:340-341): afterwards no square has health
      0 or below and no bullet is spent; nothing but the two vectors changes. */
  function PrunePhase(w: World, height: real): (r: World)
    ensures r.(squares := w.squares, bullets := w.bullets) == w
    ensures forall j :: 0 <= j < |r.squares| ==> r.squares[j].health > 0
    ensures forall k :: 0 <= k < |r.bullets| ==> !r.bullets[k].hit
  {
    w.(squares := PruneSquares(w.squares, height), bullets := PruneBullets(w.bullets))
  }

  /** The world just before the bullet pass: moved, shot, spawned. */
  function BeforeHits(w: World, keys: Keys, env: Env, spawn: Option<SpawnDraw>): World
    requires ValidEnv(env) && w.player.circle.r == PlayerRadius
  {
    SpawnPhase(ShootPhase(MovePhase(w, keys, env), keys, env.dt), spawn)
  }

  /** The world just after the bullet pass. */
  function AfterHits(w: World, keys: Keys, env: Env, spawn: Option<SpawnDraw>): World
    requires ValidEnv(env) && w.player.circle.r == PlayerRadius
  {
    var w3 := BeforeHits(w, keys, env, spawn);
    var p := HitPass.Run(w3.bullets, w3.squares, w3.score, env.dt);
    w3.(bullets := p.bullets, squares := p.squares, score := p.score)
  }

  /** The world when the death check starts: squares fallen, death flag computed. */
  function BeforeDeath(w: World, keys: Keys, env: Env, spawn: Option<SpawnDraw>): World
    requires ValidEnv(env) && w.player.circle.r == PlayerRadius
  {
    var w4 := AfterHits(w, keys, env, spawn);
    CollidePhase(w4.(squares := SquaresMoved(w4.squares, env.dt)))
  }

  /** A kill cue per overlapping pair. */
  function KillCues(n: nat): (r: seq<Event>)
    ensures |r| == n && forall k :: 0 <= k < n ==> r[k] == KillCue
    ensures multiset(r)[KillCue] == n
  {
    if n == 0 then [] else KillCues(n - 1) + [KillCue]
  }

  /** The `Playing` branch of the main loop. It never exits, never writes the high
      score and never returns to the menu; it plays one shot cue iff it fires, one kill
      cue per hit and one death cue iff the player died. */
  function PlayingFrame(w: World, keys: Keys, env: Env, spawn: Option<SpawnDraw>): (o: Outcome)
    requires ValidEnv(env) && w.player.circle.r == PlayerRadius
    ensures !o.exit && o.world.highScore == w.highScore
    ensures o.world.state == w.state || o.world.state == GameOver
    ensures forall k :: 0 <= k < |o.events| ==> !o.events[k].HighScoreWrite?
    ensures multiset(o.events)[ShotCue] == (if Fires(w, keys) then 1 else 0)
    ensures multiset(o.events)[KillCue] == HitPass.Run(BeforeHits(w, keys, env, spawn).bullets,
      BeforeHits(w, keys, env, spawn).squares, BeforeHits(w, keys, env, spawn).score, env.dt).kills
    ensures multiset(o.events)[DeathCue] == (if BeforeDeath(w, keys, env, spawn).player.death then 1 else 0)
    ensures BeforeDeath(w, keys, env, spawn).player.death ==> o.events[|o.events| - 1] == DeathCue
  {
    var w1 := MovePhase(w, keys, env);
    var w6 := BeforeDeath(w, keys, env, spawn);
    var w3 := BeforeHits(w, keys, env, spawn);
    var kills := HitPass.Run(w3.bullets, w3.squares, w3.score, env.dt).kills;
    Outcome(PrunePhase(DeathPhase(w6, env), env.height), FrameCues(Fires(w1, keys), kills, w6.player.death), false)
  }

  /** The kill cues of a frame followed by its death cue, if any. */
  function KillsThenDeath(kills: nat, died: bool): (r: seq<Event>)
    ensures |r| == kills + (if died then 1 else 0) && r[..kills] == KillCues(kills)
    ensures multiset(r)[ShotCue] == 0 && multiset(r)[KillCue] == kills
    ensures multiset(r)[DeathCue] == (if died then 1 else 0)
    ensures died ==> r[|r| - 1] == DeathCue
    ensures forall k :: 0 <= k < |r| ==> r[k] == KillCue || r[k] == DeathCue
  {
    assert ShotCue !in KillCues(kills) && DeathCue !in KillCues(kills);
    if died then
      assert (KillCues(kills) + [DeathCue])[..kills] == KillCues(kills);
      KillCues(kills) + [DeathCue]
    else KillCues(kills)
  }

  /** The cues of a Playing frame, in the order the source plays them: the shot, one
      kill cue per hit, the death. */
  function FrameCues(shot: bool, kills: nat, died: bool): (r: seq<Event>)
    ensures multiset(r)[ShotCue] == (if shot then 1 else 0)
    ensures multiset(r)[KillCue] == kills
    ensures multiset(r)[DeathCue] == (if died then 1 else 0)
    ensures died ==> r[|r| - 1] == DeathCue
    ensures shot ==> r[0] == ShotCue
    ensures |r| == (if shot then 1 else 0) + kills + (if died then 1 else 0)
    ensures forall k :: 0 <= k < |r| ==> !r[k].HighScoreWrite?
  {
    var tail := KillsThenDeath(kills, died);
    if shot then
      assert multiset([ShotCue] + tail) == multiset{ShotCue} + multiset(tail);
      [ShotCue] + tail
    else tail
  }

  /** The `Menu` branch: Space starts an attempt with 3 lives, Escape exits; the score
      and high score are left alone and nothing is played or written. */
  function MenuFrame(w: World, keys: Keys, env: Env): (o: Outcome)
    ensures o.events == [] && o.exit == keys.escape
    ensures o.world.state == (if keys.space then Playing else w.state)
    ensures o.world.score == w.score && o.world.highScore == w.highScore
    ensures !keys.space ==> o.world == w
  {
    var w1 := if keys.space then NewAttempt(w, 3, env).(state := Playing) else w;
    Outcome(w1, [], keys.escape)
  }

  /** The `GameOver` branch: Space commits the high score, clears the score and starts
      an attempt with 3 lives; Escape writes the score if it beats the high score, then exits. */
  function GameOverFrame(w: World, keys: Keys, env: Env): (o: Outcome)
    ensures o.exit == keys.escape
    ensures !keys.space ==> o.world == w
    ensures keys.space ==> o.world.state == Playing && o.world.score == 0 && o.world.highScore == Max(w.highScore, w.score)
    ensures o.world.highScore >= w.highScore
    ensures |o.events| <= 2
    ensures forall k :: 0 <= k < |o.events| ==> o.events[k].HighScoreWrite? && o.events[k].value > w.highScore
  {
    var retried :=
      if keys.space
      then NewAttempt(w.(highScore := Max(w.highScore, w.score), score := 0), 3, env).(state := Playing)
      else w;
    var retryWrites := if keys.space && w.highScore < w.score then [HighScoreWrite(w.score)] else [];
    var exitWrites := if keys.escape && retried.highScore < retried.score then [HighScoreWrite(retried.score)] else [];
    Outcome(retried, retryWrites + exitWrites, keys.escape)
  }

  /** One frame of the main loop. The menu never leads straight to game over, nor game
      over back to the menu, and play never returns to the menu; only the menu and the
      game-over screen exit, exactly when Escape is down; only the game-over screen
      writes the high score, and the high score never falls. */
  function Step(w: World, keys: Keys, env: Env, spawn: Option<SpawnDraw>): (o: Outcome)
    requires ValidEnv(env) && w.player.circle.r == PlayerRadius
    ensures w.state == Menu ==> o.world.state != GameOver
    ensures w.state != Menu ==> o.world.state != Menu
    ensures o.exit <==> w.state != Playing && keys.escape
    ensures w.state != GameOver ==> forall k :: 0 <= k < |o.events| ==> !o.events[k].HighScoreWrite?
    ensures o.world.highScore >= w.highScore
  {
    match w.state
    case Menu => MenuFrame(w, keys, env)
    case Playing => PlayingFrame(w, keys, env, spawn)
    case GameOver => GameOverFrame(w, keys, env)
  }
}
