/** The game's mutable state and its main loop, written the way src/main.rs updates it:
    fields assigned in place, the entity vectors updated element by element in loops.
    Every method is proved to compute what module Frame specifies. */
module GameLoop {
  import opened Geometry
  import opened Entities
  import opened Retain
  import HitPass
  import opened Frame
  import FrameProperties

  class Game {
    var state: GameState
    var score: int
    var highScore: int
    var player: Player
    var reloadTimer: real
    var squares: seq<Square>
    var bullets: seq<Bullet>

    /** The fields as a value of the specification's `World`. */
    function Snapshot(): World
      reads this
    {
      World(state, score, highScore, player, reloadTimer, squares, bullets)
    }

    predicate Valid()
      reads this
    {
      Inv(Snapshot())
    }

    /** The start of `main`: the menu, score 0, the stored high score, a 3-life player,
        no entities and a reload timer at 0. */
    constructor (storedHighScore: int, width: real, height: real)
      ensures Valid() && Snapshot() == Initial(storedHighScore, width, height)
    {
      state := Menu;
      score := 0;
      highScore := storedHighScore;
      player := NewPlayer(3, width, height);
      reloadTimer := 0.0;
      squares := [];
      bullets := [];
    }

    /** `new_attempt`: empties both vectors in place and returns a fresh player. */
    method NewAttempt(lives: int, width: real, height: real) returns (p: Player)
      modifies this`squares, this`bullets
      ensures squares == [] && bullets == []
      ensures p == NewPlayer(lives, width, height)
      ensures p.lives == lives && !p.death && p.speed == PlayerSpeed && p.reload == PlayerReload
    {
      squares := [];
      bullets := [];
      p := NewPlayer(lives, width, height);
    }

    /** `player.movement(...)` with the key vector; Left beats Right and Up beats Down. */
    method MovePlayer(keys: Keys, env: Env)
      requires ValidEnv(env) && player.circle.r == PlayerRadius
      modifies this`player
      ensures player == MovePhase(old(Snapshot()), keys, env).player
    {
      var dx := KeyAxis(keys.left, keys.right);
      var dy := KeyAxis(keys.up, keys.down);
      if dx != 0 || dy != 0 {
        var n := Normalized(dx, dy, env.diagonal);
        var r, speed := player.circle.r, player.speed;
        var x := Clamp(Advance(player.circle.x, speed, n.x, env.dt), r, env.width - r);
        player := player.(circle := player.circle.(x := x));
        var y := Clamp(Advance(player.circle.y, speed, n.y, env.dt), r, env.width - r);
        player := player.(circle := player.circle.(y := y));
      }
    }

    /** Shooting and the reload timer. */
    method Shoot(keys: Keys, dt: real) returns (fired: bool)
      modifies this`bullets, this`reloadTimer
      ensures fired == Fires(old(Snapshot()), keys)
      ensures bullets == ShootPhase(old(Snapshot()), keys, dt).bullets
      ensures reloadTimer == ShootPhase(old(Snapshot()), keys, dt).reloadTimer
    {
      fired := keys.enter && reloadTimer <= 0.0;
      if fired {
        bullets := bullets + [NewBullet(player.circle.x, player.circle.y)];
        reloadTimer := player.reload;
      }
      reloadTimer := reloadTimer - dt;
    }

    /** Spawning a square when the random draw says so. */
    method Spawn(spawn: Option<SpawnDraw>)
      modifies this`squares
      ensures squares == SpawnPhase(old(Snapshot()), spawn).squares
    {
      if spawn.Some? {
        var d := spawn.value;
        squares := squares + [Spawned(d)];
      }
    }

    /** The nested bullet loop: move each bullet, then test it against every square. */
    method CollideBullets(dt: real) returns (cues: seq<Event>)
      modifies this`bullets, this`squares, this`score
      ensures bullets == HitPass.Run(old(bullets), old(squares), old(score), dt).bullets
      ensures squares == HitPass.Run(old(bullets), old(squares), old(score), dt).squares
      ensures score == HitPass.Run(old(bullets), old(squares), old(score), dt).score
      ensures cues == KillCues(HitPass.Run(old(bullets), old(squares), old(score), dt).kills)
    {
      ghost var p0 := HitPass.Pass(bullets, squares, score, 0);
      var kills: nat := 0;
      cues := [];
      var i := 0;
      while i < |bullets|
        invariant 0 <= i <= |bullets| == |p0.bullets|
        invariant HitPass.Pass(bullets, squares, score, kills) == HitPass.OuterPass(p0, dt, i)
        invariant cues == KillCues(kills)
      {
        ghost var before := HitPass.Pass(bullets, squares, score, kills);
        bullets := bullets[i := bullets[i].(rect := bullets[i].rect.(y := bullets[i].rect.y - bullets[i].speed * dt))];
        assert bullets[i] == BulletMoved(before.bullets[i], dt);
        assert HitPass.Pass(bullets, squares, score, kills) == HitPass.Launch(before, i, dt);
        kills, cues := HitSquares(i, kills, cues);
        i := i + 1;
      }
    }

    /** The inner loop for bullet i: test it against every square in order; on a hit mark
        the bullet, take its damage from the square, add the square's new health to the
        score and play a kill cue. */
    method HitSquares(i: nat, kills0: nat, cues0: seq<Event>) returns (kills: nat, cues: seq<Event>)
      requires i < |bullets| && cues0 == KillCues(kills0)
      modifies this`bullets, this`squares, this`score
      ensures HitPass.Pass(bullets, squares, score, kills)
        == HitPass.InnerPass(HitPass.Pass(old(bullets), old(squares), old(score), kills0), i, |old(squares)|)
      ensures cues == KillCues(kills)
    {
      ghost var q := HitPass.Pass(bullets, squares, score, kills0);
      kills, cues := kills0, cues0;
      var j := 0;
      while j < |squares|
        invariant 0 <= j <= |squares| == |q.squares| && |bullets| == |q.bullets|
        invariant HitPass.Pass(bullets, squares, score, kills) == HitPass.InnerPass(q, i, j)
        invariant cues == KillCues(kills)
      {
        ghost var cur := HitPass.Pass(bullets, squares, score, kills);
        var b, s := bullets[i], squares[j];
        if BulletHits(b, s) {
          bullets := bullets[i := b.(hit := true)];
          squares := squares[j := s.(health := s.health - b.damage)];
          score := score + squares[j].health;
          kills := kills + 1;
          cues := cues + [KillCue];
        }
        assert HitPass.Pass(bullets, squares, score, kills) == HitPass.HitStep(cur, i, j);
        j := j + 1;
      }
    }

    /** Every square falls. */
    method MoveSquares(dt: real)
      modifies this`squares
      ensures squares == SquaresMoved(old(squares), dt)
    {
      var j := 0;
      while j < |squares|
        invariant 0 <= j <= |squares| == |old(squares)|
        invariant forall k :: 0 <= k < j ==> squares[k] == SquareMoved(old(squares)[k], dt)
        invariant forall k :: j <= k < |squares| ==> squares[k] == old(squares)[k]
      {
        squares := squares[j := squares[j].(rect := squares[j].rect.(y := squares[j].rect.y + squares[j].speed * dt))];
        j := j + 1;
      }
    }

    /** The player dies if any square touches it. */
    method CollidePlayer()
      modifies this`player
      ensures player == CollidePhase(old(Snapshot())).player
    {
      var j := 0;
      while j < |squares|
        invariant 0 <= j <= |squares|
        invariant player == old(player).(death := old(player).death
          || exists k :: 0 <= k < j && PlayerTouches(old(player), squares[k]))
      {
        PlayerTouchIsGeometric(player, old(player), squares[j], squares[j]);
        if PlayerTouches(player, squares[j]) {
          player := player.(death := true);
        }
        j := j + 1;
      }
    }

    /** The death check: respawn with one life fewer, or game over on the last life. */
    method CheckDeath(env: Env) returns (died: bool)
      modifies this
      ensures died == old(player.death)
      ensures Snapshot() == DeathPhase(old(Snapshot()), env)
    {
      died := player.death;
      if player.death {
        if player.lives > 1 {
          player := NewAttempt(player.lives - 1, env.width, env.height);
        } else if player.lives <= 1 {
          state := GameOver;
        }
      }
    }

    /** The two `retain` calls. */
    method Prune(height: real)
      modifies this`squares, this`bullets
      ensures squares == PruneSquares(old(squares), height)
      ensures bullets == PruneBullets(old(bullets))
    {
      squares := PruneSquares(squares, height);
      bullets := PruneBullets(bullets);
    }

    /** The `Playing` branch of the main loop. */
    method PlayingBranch(keys: Keys, env: Env, spawn: Option<SpawnDraw>) returns (events: seq<Event>)
      requires Valid() && state == Playing && ValidEnv(env)
      modifies this
      ensures Outcome(Snapshot(), events, false) == PlayingFrame(old(Snapshot()), keys, env, spawn)
    {
      ghost var w := Snapshot();
      MovePlayer(keys, env);
      assert Snapshot() == MovePhase(w, keys, env);
      var fired := Shoot(keys, env.dt);
      Spawn(spawn);
      assert Snapshot() == BeforeHits(w, keys, env, spawn);
      var cues := CollideBullets(env.dt);
      assert Snapshot() == AfterHits(w, keys, env, spawn);
      MoveSquares(env.dt);
      CollidePlayer();
      assert Snapshot() == BeforeDeath(w, keys, env, spawn);
      var died := CheckDeath(env);
      Prune(env.height);
      events := FrameCues(fired, |cues|, died);
    }

    /** The `Menu` branch. */
    method MenuBranch(keys: Keys, env: Env) returns (exit: bool)
      modifies this
      ensures Outcome(Snapshot(), [], exit) == MenuFrame(old(Snapshot()), keys, env)
    {
      if keys.space {
        player := NewAttempt(3, env.width, env.height);
        state := Playing;
      }
      exit := keys.escape;
    }

    /** The `GameOver` branch. */
    method GameOverBranch(keys: Keys, env: Env) returns (events: seq<Event>, exit: bool)
      modifies this
      ensures Outcome(Snapshot(), events, exit) == GameOverFrame(old(Snapshot()), keys, env)
    {
      events := [];
      if keys.space {
        if highScore < score {
          highScore := score;
          events := events + [HighScoreWrite(score)];
        }
        score := 0;
        player := NewAttempt(3, env.width, env.height);
        state := Playing;
      }
      exit := false;
      if keys.escape {
        if highScore < score {
          events := events + [HighScoreWrite(score)];
        }
        exit := true;
      }
    }

    /** One iteration of the main loop. `exit` reports `exit(1)`; the caller stops then. */
    method Step(keys: Keys, env: Env, spawn: Option<SpawnDraw>) returns (events: seq<Event>, exit: bool)
      requires Valid() && ValidEnv(env) && ValidSpawn(spawn, env.width)
      modifies this
      ensures Valid()
      ensures Outcome(Snapshot(), events, exit) == Frame.Step(old(Snapshot()), keys, env, spawn)
    {
      FrameProperties.StepPreservesInv(Snapshot(), keys, env, spawn);
      match state
      case Menu =>
        events := [];
        exit := MenuBranch(keys, env);
      case Playing =>
        events := PlayingBranch(keys, env, spawn);
        exit := false;
      case GameOver =>
        events, exit := GameOverBranch(keys, env);
    }
  }
}
