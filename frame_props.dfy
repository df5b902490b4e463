/** Properties of one frame of the game, stated over the functions of module Frame. */
module FrameProperties {
  import opened Geometry
  import opened Entities
  import opened Retain
  import HitPass
  import opened Frame

  // ---- Entering an attempt ----

  /** In the menu, Space starts playing with 3 lives and empty vectors (the score is
      left as it is); the menu never writes the high score, and Escape exits. */
  lemma MenuStart(w: World, keys: Keys, env: Env)
    requires w.state == Menu
    ensures keys.space ==> MenuFrame(w, keys, env).world == NewAttempt(w, 3, env).(state := Playing)
    ensures keys.space ==> MenuFrame(w, keys, env).world.player.lives == 3
    ensures !keys.space ==> MenuFrame(w, keys, env).world == w
    ensures MenuFrame(w, keys, env).events == []
    ensures MenuFrame(w, keys, env).exit == keys.escape
  {
  }

  // ---- Leaving the game-over screen ----

  /** Retry: the high score becomes max(high score, score) and is written iff the score
      beats it strictly; then the score is 0 and a 3-life attempt starts. */
  lemma RetryFromGameOver(w: World, keys: Keys, env: Env)
    requires w.state == GameOver && keys.space
    ensures GameOverFrame(w, keys, env).world.highScore == Max(w.highScore, w.score)
    ensures GameOverFrame(w, keys, env).world.score == 0
    ensures GameOverFrame(w, keys, env).world.state == Playing
    ensures GameOverFrame(w, keys, env).world.player == NewPlayer(3, env.width, env.height)
    ensures GameOverFrame(w, keys, env).world.squares == [] && GameOverFrame(w, keys, env).world.bullets == []
    ensures HighScoreWrite(w.score) in GameOverFrame(w, keys, env).events <==> w.highScore < w.score
    ensures !keys.escape ==>
      GameOverFrame(w, keys, env).events == (if w.highScore < w.score then [HighScoreWrite(w.score)] else [])
    ensures GameOverFrame(w, keys, env).exit == keys.escape
  {
  }

  /** Exit from the game-over screen writes the score iff it beats the high score. */
  lemma ExitFromGameOver(w: World, keys: Keys, env: Env)
    requires w.state == GameOver && keys.escape && !keys.space
    ensures GameOverFrame(w, keys, env).exit
    ensures GameOverFrame(w, keys, env).events == (if w.highScore < w.score then [HighScoreWrite(w.score)] else [])
    ensures GameOverFrame(w, keys, env).world == w
  {
  }

  // ---- Spawning ----

  /** A spawned square starts just above the screen with a health of 4 to 16. */
  lemma SpawnedHealth(d: SpawnDraw)
    requires 16.0 <= d.size < 64.0
    ensures Spawned(d).health == Round(d.size * 0.25)
    ensures 4 <= Spawned(d).health <= 16
    ensures Spawned(d).rect == Rect(d.x, -10.0, d.size, d.size)
  {
    var h := Spawned(d).health;
    assert Abs(h as real - d.size * 0.25) <= 0.5;
  }

  // ---- The phases of a Playing frame keep the player's identity ----

  lemma PlayerThroughPhases(w: World, keys: Keys, env: Env, spawn: Option<SpawnDraw>)
    requires ValidEnv(env) && w.player.circle.r == PlayerRadius
    ensures BeforeDeath(w, keys, env, spawn).state == w.state
    ensures BeforeDeath(w, keys, env, spawn).highScore == w.highScore
    ensures BeforeDeath(w, keys, env, spawn).player.lives == w.player.lives
    ensures BeforeDeath(w, keys, env, spawn).player.speed == w.player.speed
    ensures BeforeDeath(w, keys, env, spawn).player.reload == w.player.reload
    ensures BeforeDeath(w, keys, env, spawn).player.circle.r == w.player.circle.r
    ensures BeforeDeath(w, keys, env, spawn).player.death == (w.player.death || TouchesAny(
      BeforeDeath(w, keys, env, spawn).player, BeforeDeath(w, keys, env, spawn).squares))
  {
  }

  /** Losing a life with lives to spare: one life fewer, a fresh living player, both
      vectors empty, still playing; the death cue plays. */
  lemma RespawnOnDeath(w: World, keys: Keys, env: Env, spawn: Option<SpawnDraw>)
    requires ValidEnv(env) && w.player.circle.r == PlayerRadius && w.state == Playing
    requires BeforeDeath(w, keys, env, spawn).player.death && w.player.lives > 1
    ensures PlayingFrame(w, keys, env, spawn).world.player == NewPlayer(w.player.lives - 1, env.width, env.height)
    ensures !PlayingFrame(w, keys, env, spawn).world.player.death
    ensures PlayingFrame(w, keys, env, spawn).world.squares == []
    ensures PlayingFrame(w, keys, env, spawn).world.bullets == []
    ensures PlayingFrame(w, keys, env, spawn).world.state == Playing
    ensures multiset(PlayingFrame(w, keys, env, spawn).events)[DeathCue] == 1
    ensures PlayingFrame(w, keys, env, spawn).events[|PlayingFrame(w, keys, env, spawn).events| - 1] == DeathCue
  {
    PlayerThroughPhases(w, keys, env, spawn);
  }

  /** Dying on the last life: game over, and the vectors are pruned but not cleared. */
  lemma GameOverOnLastLife(w: World, keys: Keys, env: Env, spawn: Option<SpawnDraw>)
    requires ValidEnv(env) && w.player.circle.r == PlayerRadius && w.state == Playing
    requires BeforeDeath(w, keys, env, spawn).player.death && w.player.lives <= 1
    ensures PlayingFrame(w, keys, env, spawn).world.state == GameOver
    ensures PlayingFrame(w, keys, env, spawn).world.squares
      == PruneSquares(BeforeDeath(w, keys, env, spawn).squares, env.height)
    ensures PlayingFrame(w, keys, env, spawn).world.bullets
      == PruneBullets(BeforeDeath(w, keys, env, spawn).bullets)
    ensures PlayingFrame(w, keys, env, spawn).world.player == BeforeDeath(w, keys, env, spawn).player
    ensures multiset(PlayingFrame(w, keys, env, spawn).events)[DeathCue] == 1
    ensures PlayingFrame(w, keys, env, spawn).events[|PlayingFrame(w, keys, env, spawn).events| - 1] == DeathCue
  {
    PlayerThroughPhases(w, keys, env, spawn);
  }

  /** Without a death the frame keeps the player's lives and prunes the vectors
      the frame produced. */
  lemma SurvivingFrame(w: World, keys: Keys, env: Env, spawn: Option<SpawnDraw>)
    requires ValidEnv(env) && w.player.circle.r == PlayerRadius && w.state == Playing
    requires !BeforeDeath(w, keys, env, spawn).player.death
    ensures PlayingFrame(w, keys, env, spawn).world.state == Playing
    ensures PlayingFrame(w, keys, env, spawn).world.player.lives == w.player.lives
    ensures PlayingFrame(w, keys, env, spawn).world.squares
      == PruneSquares(BeforeDeath(w, keys, env, spawn).squares, env.height)
    ensures PlayingFrame(w, keys, env, spawn).world.bullets
      == PruneBullets(BeforeDeath(w, keys, env, spawn).bullets)
    ensures DeathCue !in PlayingFrame(w, keys, env, spawn).events
  {
    PlayerThroughPhases(w, keys, env, spawn);
    var pre := BeforeHits(w, keys, env, spawn);
    var k := HitPass.Run(pre.bullets, pre.squares, pre.score, env.dt).kills;
    assert DeathCue !in KillCues(k);
  }

  // ---- Pruning ----

  /** After pruning, `squares` holds exactly the squares still above the bottom edge
      with positive health, and `bullets` exactly the unspent bullets still below
      the top edge, each in its original relative order. */
  lemma PruneExactly(squares: seq<Square>, bullets: seq<Bullet>, height: real)
    ensures |Survivors(squares, SquareKeeper(height))| == |PruneSquares(squares, height)|
    ensures forall k :: 0 <= k < |PruneSquares(squares, height)| ==>
      PruneSquares(squares, height)[k] == squares[Survivors(squares, SquareKeeper(height))[k]]
    ensures forall k1, k2 :: 0 <= k1 < k2 < |Survivors(squares, SquareKeeper(height))| ==>
      Survivors(squares, SquareKeeper(height))[k1] < Survivors(squares, SquareKeeper(height))[k2]
    ensures forall j :: 0 <= j < |squares| ==>
      (j in Survivors(squares, SquareKeeper(height)) <==>
        squares[j].rect.y < height + squares[j].rect.h && squares[j].health > 0)
    ensures |Survivors(bullets, KeepBullet)| == |PruneBullets(bullets)|
    ensures forall k :: 0 <= k < |PruneBullets(bullets)| ==>
      PruneBullets(bullets)[k] == bullets[Survivors(bullets, KeepBullet)[k]]
    ensures forall k1, k2 :: 0 <= k1 < k2 < |Survivors(bullets, KeepBullet)| ==>
      Survivors(bullets, KeepBullet)[k1] < Survivors(bullets, KeepBullet)[k2]
    ensures forall k :: 0 <= k < |bullets| ==>
      (k in Survivors(bullets, KeepBullet) <==> bullets[k].rect.y > -bullets[k].rect.h && !bullets[k].hit)
  {
    FilterKeepsOrder(squares, SquareKeeper(height));
    FilterKeepsOrder(bullets, KeepBullet);
  }

  /** Every bullet that hit a square this frame, and every square whose health the
      frame's hits brought to zero or below, is gone after the frame. */
  lemma ConsumedVanish(w: World, keys: Keys, env: Env, spawn: Option<SpawnDraw>)
    requires ValidEnv(env) && w.player.circle.r == PlayerRadius && w.state == Playing
    ensures forall k ::
      (0 <= k < |BeforeHits(w, keys, env, spawn).bullets|
       && HitPass.HitsAny(BulletMoved(BeforeHits(w, keys, env, spawn).bullets[k], env.dt),
                          BeforeHits(w, keys, env, spawn).squares, |BeforeHits(w, keys, env, spawn).squares|)) ==>
      AfterHits(w, keys, env, spawn).bullets[k] !in PlayingFrame(w, keys, env, spawn).world.bullets
    ensures forall j ::
      (0 <= j < |BeforeHits(w, keys, env, spawn).squares|
       && BeforeHits(w, keys, env, spawn).squares[j].health
          <= HitPass.Damage(BeforeHits(w, keys, env, spawn).bullets, env.dt, BeforeHits(w, keys, env, spawn).squares[j])) ==>
      SquaresMoved(AfterHits(w, keys, env, spawn).squares, env.dt)[j] !in PlayingFrame(w, keys, env, spawn).world.squares
  {
    var pre := BeforeHits(w, keys, env, spawn);
    var post := PlayingFrame(w, keys, env, spawn).world;
    var mid := AfterHits(w, keys, env, spawn);
    HitPass.PassCharacterised(pre.bullets, pre.squares, pre.score, env.dt);
    var w6 := BeforeDeath(w, keys, env, spawn);
    var w7 := DeathPhase(w6, env);
    assert post.bullets == PruneBullets(w7.bullets) && post.squares == PruneSquares(w7.squares, env.height);
    forall k | 0 <= k < |pre.bullets| && HitPass.HitsAny(BulletMoved(pre.bullets[k], env.dt), pre.squares, |pre.squares|)
      ensures mid.bullets[k] !in post.bullets
    {
      assert mid.bullets[k].hit;
      assert !KeepBullet(mid.bullets[k]);
    }
    forall j | 0 <= j < |pre.squares| && pre.squares[j].health <= HitPass.Damage(pre.bullets, env.dt, pre.squares[j])
      ensures SquaresMoved(mid.squares, env.dt)[j] !in post.squares
    {
      var s := SquaresMoved(mid.squares, env.dt)[j];
      assert s.health <= 0;
      assert !SquareKeeper(env.height)(s);
    }
  }

  // ---- The invariant ----

  lemma BeforeHitsShapes(w: World, keys: Keys, env: Env, spawn: Option<SpawnDraw>)
    requires Inv(w) && ValidEnv(env) && ValidSpawn(spawn, env.width)
    ensures forall k :: 0 <= k < |BeforeHits(w, keys, env, spawn).bullets| ==>
      BeforeHits(w, keys, env, spawn).bullets[k].damage == BulletDamage
      && BeforeHits(w, keys, env, spawn).bullets[k].speed == BulletSpeed
    ensures forall j :: 0 <= j < |BeforeHits(w, keys, env, spawn).squares| ==>
      BeforeHits(w, keys, env, spawn).squares[j].speed >= 0.0
  {
  }

  lemma PlayingPreservesInv(w: World, keys: Keys, env: Env, spawn: Option<SpawnDraw>)
    requires Inv(w) && w.state == Playing && ValidEnv(env) && ValidSpawn(spawn, env.width)
    ensures Inv(PlayingFrame(w, keys, env, spawn).world)
  {
    var pre := BeforeHits(w, keys, env, spawn);
    BeforeHitsShapes(w, keys, env, spawn);
    HitPass.PassKeepsShapes(pre.bullets, pre.squares, pre.score, env.dt);
    PlayerThroughPhases(w, keys, env, spawn);
    var w6 := BeforeDeath(w, keys, env, spawn);
    var w7 := DeathPhase(w6, env);
    var post := PlayingFrame(w, keys, env, spawn).world;
    assert forall k :: 0 <= k < |w6.bullets| ==> w6.bullets[k].damage == BulletDamage && w6.bullets[k].speed == BulletSpeed;
    assert forall j :: 0 <= j < |w6.squares| ==> w6.squares[j].speed >= 0.0;
    forall k | 0 <= k < |post.bullets|
      ensures !post.bullets[k].hit && post.bullets[k].damage == BulletDamage && post.bullets[k].speed == BulletSpeed
    {
      assert KeepBullet(post.bullets[k]) && post.bullets[k] in w7.bullets;
    }
    forall j | 0 <= j < |post.squares|
      ensures post.squares[j].health > 0 && post.squares[j].speed >= 0.0
    {
      assert SquareKeeper(env.height)(post.squares[j]) && post.squares[j] in w7.squares;
    }
  }

  /** Every frame keeps the invariant: lives between 1 and 3, the player's fixed radius,
      speed and reload, no dead player while playing, only unspent 4-damage bullets and
      only squares with positive health between frames. */
  lemma StepPreservesInv(w: World, keys: Keys, env: Env, spawn: Option<SpawnDraw>)
    requires Inv(w) && ValidEnv(env) && ValidSpawn(spawn, env.width)
    ensures Inv(Step(w, keys, env, spawn).world)
  {
    if w.state == Playing {
      PlayingPreservesInv(w, keys, env, spawn);
    }
  }

  // ---- A scenario ----

  /** A 4-health square and a 4-damage bullet that overlaps it once moved: the frame
      removes both, plays one kill cue and leaves the score unchanged, because the score
      gains the square's health after the hit, which is 0. */
  lemma ExactKillScoresNothing(w: World, env: Env, dt: real)
    requires Inv(w) && w.state == Playing && ValidEnv(env) && env.dt == dt
    requires |w.squares| == 1 && |w.bullets| == 1 && w.squares[0].health == 4
    requires BulletHits(BulletMoved(w.bullets[0], dt), w.squares[0])
    requires !PlayerTouches(w.player, SquareMoved(w.squares[0].(health := 0), dt))
    ensures PlayingFrame(w, Keys(false, false, false, false, false, false, false), env, None).world.squares == []
    ensures PlayingFrame(w, Keys(false, false, false, false, false, false, false), env, None).world.bullets == []
    ensures PlayingFrame(w, Keys(false, false, false, false, false, false, false), env, None).world.score == w.score
    ensures PlayingFrame(w, Keys(false, false, false, false, false, false, false), env, None).events == [KillCue]
  {
    var keys := Keys(false, false, false, false, false, false, false);
    var pre := BeforeHits(w, keys, env, None);
    assert pre.squares == w.squares && pre.bullets == w.bullets && pre.score == w.score;
    HitPass.SingleHit(w.bullets[0], w.squares[0], w.score, dt);
    var w6 := BeforeDeath(w, keys, env, None);
    assert w6.squares == [SquareMoved(w.squares[0].(health := 0), dt)];
    assert !TouchesAny(w6.player, w6.squares);
    assert !w6.player.death;
    assert !KeepSquare(w6.squares[0], env.height);
    assert !KeepBullet(w6.bullets[0]);
    assert KillCues(1) == [KillCue];
  }
}
