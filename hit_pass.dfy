/** The frame's bullet pass (src/main.rs:303-314): every bullet moves, then is tested
    against every square in order; on a hit the bullet is marked, the square loses the
    bullet's damage and the score gains the square's health AFTER the subtraction.

    `OuterPass`/`InnerPass` follow the two loops one step at a time; `Damage`, `Gain`
    and `Hits` say what the whole pass amounts to, and `PassCharacterised` proves the two
    agree. */
module HitPass {
  import opened Geometry
  import opened Entities

  /** The state the pass updates: both entity vectors, the score and the number of
      kill cues played. */
  datatype Pass = Pass(bullets: seq<Bullet>, squares: seq<Square>, score: int, kills: nat)

  /** The body of the inner loop for bullet i and square j. */
  function HitStep(p: Pass, i: nat, j: nat): (q: Pass)
    requires i < |p.bullets| && j < |p.squares|
    ensures |q.bullets| == |p.bullets| && |q.squares| == |p.squares|
    ensures forall k :: 0 <= k < |p.bullets| && k != i ==> q.bullets[k] == p.bullets[k]
    ensures forall k :: 0 <= k < |p.squares| && k != j ==> q.squares[k] == p.squares[k]
    ensures !BulletHits(p.bullets[i], p.squares[j]) ==> q == p
    ensures BulletHits(p.bullets[i], p.squares[j]) ==>
      q.bullets[i] == p.bullets[i].(hit := true)
      && q.squares[j] == p.squares[j].(health := p.squares[j].health - p.bullets[i].damage)
      && q.score == p.score + q.squares[j].health
      && q.kills == p.kills + 1
  {
    var b, s := p.bullets[i], p.squares[j];
    if BulletHits(b, s) then
      var hurt := s.(health := s.health - b.damage);
      Pass(p.bullets[i := b.(hit := true)], p.squares[j := hurt], p.score + hurt.health, p.kills + 1)
    else p
  }

  /** The inner loop for bullet i after its first j iterations. */
  function InnerPass(p: Pass, i: nat, j: nat): (q: Pass)
    requires i < |p.bullets| && j <= |p.squares|
    ensures |q.bullets| == |p.bullets| && |q.squares| == |p.squares|
    decreases j
  {
    if j == 0 then p else HitStep(InnerPass(p, i, j - 1), i, j - 1)
  }

  /** `bullet.movement()` at the head of the outer loop. */
  function Launch(p: Pass, i: nat, dt: real): (q: Pass)
    requires i < |p.bullets|
    ensures |q.bullets| == |p.bullets|
    ensures q.bullets[i] == BulletMoved(p.bullets[i], dt)
    ensures forall k :: 0 <= k < |p.bullets| && k != i ==> q.bullets[k] == p.bullets[k]
    ensures q.squares == p.squares && q.score == p.score && q.kills == p.kills
  {
    p.(bullets := p.bullets[i := BulletMoved(p.bullets[i], dt)])
  }

  /** The outer loop after its first i iterations. */
  function OuterPass(p: Pass, dt: real, i: nat): (q: Pass)
    requires i <= |p.bullets|
    ensures |q.bullets| == |p.bullets| && |q.squares| == |p.squares|
    decreases i
  {
    if i == 0 then p
    else
      var q := Launch(OuterPass(p, dt, i - 1), i - 1, dt);
      InnerPass(q, i - 1, |q.squares|)
  }

  /** The whole pass over the frame's bullets and squares: both vectors keep their
      length, and at most one kill cue plays per (bullet, square) pair. */
  function Run(bullets: seq<Bullet>, squares: seq<Square>, score: int, dt: real): (r: Pass)
    ensures |r.bullets| == |bullets| && |r.squares| == |squares|
    ensures r.kills <= |bullets| * |squares|
  {
    OuterAll(Pass(bullets, squares, score, 0), dt, |bullets|);
    assert bullets[..|bullets|] == bullets;
    OuterPass(Pass(bullets, squares, score, 0), dt, |bullets|)
  }

  // ---- What the pass amounts to ----

  /** Total damage the bullets `bs`, once moved, deal to a square with the geometry of `s`. */
  function Damage(bs: seq<Bullet>, dt: real, s: Square): int
    decreases |bs|
  {
    if bs == [] then 0
    else
      var b := bs[|bs| - 1];
      Damage(bs[..|bs| - 1], dt, s) + (if BulletHits(BulletMoved(b, dt), s) then b.damage else 0)
  }

  /** Some square among squares[..m] overlaps b. */
  predicate HitsAny(b: Bullet, squares: seq<Square>, m: nat)
    requires m <= |squares|
  {
    exists j :: 0 <= j < m && BulletHits(b, squares[j])
  }

  /** b with its hit flag raised when it overlaps one of squares[..m]. */
  function Flagged(b: Bullet, squares: seq<Square>, m: nat): Bullet
    requires m <= |squares|
  {
    b.(hit := b.hit || HitsAny(b, squares, m))
  }

  /** s after losing d health. */
  function Damaged(s: Square, d: int): Square
  {
    s.(health := s.health - d)
  }

  /** The score the last bullet of `bs` adds against squares[..m]: for each square it
      overlaps, that square's health once the damage of every bullet up to and
      including this one is subtracted. */
  function RowGain(bs: seq<Bullet>, dt: real, squares: seq<Square>, m: nat): int
    requires bs != [] && m <= |squares|
    decreases m
  {
    if m == 0 then 0
    else
      var s := squares[m - 1];
      RowGain(bs, dt, squares, m - 1)
        + (if BulletHits(BulletMoved(bs[|bs| - 1], dt), s) then s.health - Damage(bs, dt, s) else 0)
  }

  /** The number of squares among squares[..m] that b overlaps. */
  function RowHits(b: Bullet, squares: seq<Square>, m: nat): (n: nat)
    requires m <= |squares|
    ensures n <= m
    decreases m
  {
    if m == 0 then 0 else RowHits(b, squares, m - 1) + (if BulletHits(b, squares[m - 1]) then 1 else 0)
  }

  /** The score the whole pass adds, summed pair by pair in loop order. */
  function Gain(bs: seq<Bullet>, dt: real, squares: seq<Square>): int
    decreases |bs|
  {
    if bs == [] then 0 else Gain(bs[..|bs| - 1], dt, squares) + RowGain(bs, dt, squares, |squares|)
  }

  /** The number of overlapping (bullet, square) pairs. */
  function Hits(bs: seq<Bullet>, dt: real, squares: seq<Square>): (n: nat)
    ensures n <= |bs| * |squares|
    decreases |bs|
  {
    if bs == [] then 0
    else Hits(bs[..|bs| - 1], dt, squares) + RowHits(BulletMoved(bs[|bs| - 1], dt), squares, |squares|)
  }

  /** The state after the outer loop has handled bullets[..i]. */
  ghost predicate Processed(p0: Pass, dt: real, i: nat, q: Pass)
    requires i <= |p0.bullets|
  {
    |q.bullets| == |p0.bullets| && |q.squares| == |p0.squares|
    && (forall k :: 0 <= k < i ==>
          q.bullets[k] == Flagged(BulletMoved(p0.bullets[k], dt), p0.squares, |p0.squares|))
    && (forall k :: i <= k < |p0.bullets| ==> q.bullets[k] == p0.bullets[k])
    && (forall j :: 0 <= j < |p0.squares| ==>
          q.squares[j] == Damaged(p0.squares[j], Damage(p0.bullets[..i], dt, p0.squares[j])))
    && q.score == p0.score + Gain(p0.bullets[..i], dt, p0.squares)
    && q.kills == p0.kills + Hits(p0.bullets[..i], dt, p0.squares)
  }

  /** The state inside the inner loop for bullet i after squares[..j]. */
  ghost predicate InRow(p0: Pass, dt: real, i: nat, j: nat, q: Pass)
    requires i < |p0.bullets| && j <= |p0.squares|
  {
    |q.bullets| == |p0.bullets| && |q.squares| == |p0.squares|
    && (forall k :: 0 <= k < i ==>
          q.bullets[k] == Flagged(BulletMoved(p0.bullets[k], dt), p0.squares, |p0.squares|))
    && (forall k :: i < k < |p0.bullets| ==> q.bullets[k] == p0.bullets[k])
    && q.bullets[i] == Flagged(BulletMoved(p0.bullets[i], dt), p0.squares, j)
    && (forall j' :: 0 <= j' < j ==>
          q.squares[j'] == Damaged(p0.squares[j'], Damage(p0.bullets[..i + 1], dt, p0.squares[j'])))
    && (forall j' :: j <= j' < |p0.squares| ==>
          q.squares[j'] == Damaged(p0.squares[j'], Damage(p0.bullets[..i], dt, p0.squares[j'])))
    && q.score == p0.score + Gain(p0.bullets[..i], dt, p0.squares) + RowGain(p0.bullets[..i + 1], dt, p0.squares, j)
    && q.kills == p0.kills + Hits(p0.bullets[..i], dt, p0.squares) + RowHits(BulletMoved(p0.bullets[i], dt), p0.squares, j)
  }

  /** Adding bullet i to the prefix adds its damage exactly when it overlaps. */
  lemma DamageExtend(bs: seq<Bullet>, i: nat, dt: real, s: Square)
    requires i < |bs|
    ensures Damage(bs[..i + 1], dt, s)
      == Damage(bs[..i], dt, s) + (if BulletHits(BulletMoved(bs[i], dt), s) then bs[i].damage else 0)
  {
    assert bs[..i + 1][..i] == bs[..i];
  }

  lemma RowStart(p0: Pass, dt: real, i: nat, q: Pass)
    requires i < |p0.bullets| && Processed(p0, dt, i, q)
    ensures InRow(p0, dt, i, 0, Launch(q, i, dt))
  {
    var r := Launch(q, i, dt);
    assert r.bullets[i] == Flagged(BulletMoved(p0.bullets[i], dt), p0.squares, 0);
  }

  lemma {:induction false} RowStep(p0: Pass, dt: real, i: nat, j: nat, q0: Pass)
    requires i < |p0.bullets| && j < |p0.squares| && |q0.bullets| == |p0.bullets| && |q0.squares| == |p0.squares|
    requires InRow(p0, dt, i, j, InnerPass(q0, i, j))
    ensures InRow(p0, dt, i, j + 1, InnerPass(q0, i, j + 1))
  {
    var q := InnerPass(q0, i, j);
    var S := p0.squares;
    var mb := BulletMoved(p0.bullets[i], dt);
    var b, s := q.bullets[i], q.squares[j];
    BulletHitIsGeometric(b, mb, s, S[j]);
    DamageExtend(p0.bullets, i, dt, S[j]);
    var r := HitStep(q, i, j);
    assert InnerPass(q0, i, j + 1) == r;
    if BulletHits(mb, S[j]) {
      assert HitsAny(mb, S, j + 1);
      assert r.bullets[i] == Flagged(mb, S, j + 1);
    } else {
      assert HitsAny(mb, S, j + 1) == HitsAny(mb, S, j);
    }
  }

  lemma RowStepTo(p0: Pass, dt: real, i: nat, j: nat, q0: Pass)
    requires i < |p0.bullets| && 0 < j <= |p0.squares| && |q0.bullets| == |p0.bullets| && |q0.squares| == |p0.squares|
    requires InRow(p0, dt, i, j - 1, InnerPass(q0, i, j - 1))
    ensures InRow(p0, dt, i, j, InnerPass(q0, i, j))
  {
    var k := j - 1;
    RowStep(p0, dt, i, k, q0);
    assert k + 1 == j;
  }

  lemma {:induction false} RowAll(p0: Pass, dt: real, i: nat, j: nat, q: Pass)
    requires i < |p0.bullets| && j <= |p0.squares| && InRow(p0, dt, i, 0, q)
    ensures InRow(p0, dt, i, j, InnerPass(q, i, j))
    decreases j
  {
    if j == 0 {
      assert InnerPass(q, i, 0) == q;
    } else {
      RowAll(p0, dt, i, j - 1, q);
      RowStepTo(p0, dt, i, j, q);
    }
  }

  lemma RowEnd(p0: Pass, dt: real, i: nat, q: Pass)
    requires i < |p0.bullets| && InRow(p0, dt, i, |p0.squares|, q)
    ensures Processed(p0, dt, i + 1, q)
  {
    assert p0.bullets[..i + 1][..i] == p0.bullets[..i];
    forall j | 0 <= j < |p0.squares|
      ensures q.squares[j] == Damaged(p0.squares[j], Damage(p0.bullets[..i + 1], dt, p0.squares[j]))
    {
    }
  }

  lemma OuterStart(p0: Pass, dt: real)
    ensures Processed(p0, dt, 0, p0)
  {
    assert p0.bullets[..0] == [];
    forall j | 0 <= j < |p0.squares|
      ensures p0.squares[j] == Damaged(p0.squares[j], Damage(p0.bullets[..0], dt, p0.squares[j]))
    {
    }
  }

  lemma OuterStep(p0: Pass, dt: real, i: nat)
    requires 0 < i <= |p0.bullets| && Processed(p0, dt, i - 1, OuterPass(p0, dt, i - 1))
    ensures Processed(p0, dt, i, OuterPass(p0, dt, i))
  {
    var q := Launch(OuterPass(p0, dt, i - 1), i - 1, dt);
    assert OuterPass(p0, dt, i) == InnerPass(q, i - 1, |q.squares|);
    RowStart(p0, dt, i - 1, OuterPass(p0, dt, i - 1));
    RowAll(p0, dt, i - 1, |p0.squares|, q);
    RowEnd(p0, dt, i - 1, InnerPass(q, i - 1, |q.squares|));
  }

  lemma {:induction false} OuterAll(p0: Pass, dt: real, i: nat)
    requires i <= |p0.bullets|
    ensures Processed(p0, dt, i, OuterPass(p0, dt, i))
    decreases i
  {
    if i == 0 {
      OuterStart(p0, dt);
      assert OuterPass(p0, dt, 0) == p0;
    } else {
      OuterAll(p0, dt, i - 1);
      OuterStep(p0, dt, i);
    }
  }

  /** What the bullet pass does, all at once: every bullet is moved and its hit flag is
      raised iff it overlaps some square; every square keeps its geometry and loses the
      total damage of the bullets overlapping it; the score grows by `Gain` and one kill
      cue plays per overlapping pair. */
  lemma PassCharacterised(bullets: seq<Bullet>, squares: seq<Square>, score: int, dt: real)
    ensures |Run(bullets, squares, score, dt).bullets| == |bullets|
    ensures |Run(bullets, squares, score, dt).squares| == |squares|
    ensures forall k :: 0 <= k < |bullets| ==>
      Run(bullets, squares, score, dt).bullets[k] == Flagged(BulletMoved(bullets[k], dt), squares, |squares|)
    ensures forall j :: 0 <= j < |squares| ==>
      Run(bullets, squares, score, dt).squares[j] == Damaged(squares[j], Damage(bullets, dt, squares[j]))
    ensures Run(bullets, squares, score, dt).score == score + Gain(bullets, dt, squares)
    ensures Run(bullets, squares, score, dt).kills == Hits(bullets, dt, squares)
  {
    OuterAll(Pass(bullets, squares, score, 0), dt, |bullets|);
    assert bullets[..|bullets|] == bullets;
  }

  /** A square that no moved bullet overlaps takes no damage. */
  lemma {:induction false} NoOverlapNoDamage(bs: seq<Bullet>, dt: real, s: Square)
    requires forall k :: 0 <= k < |bs| ==> !BulletHits(BulletMoved(bs[k], dt), s)
    ensures Damage(bs, dt, s) == 0
    decreases |bs|
  {
    if bs != [] {
      NoOverlapNoDamage(bs[..|bs| - 1], dt, s);
    }
  }

  /** With positive bullet damage, a square takes damage iff some moved bullet overlaps it. */
  lemma {:induction false} DamagePositiveIffHit(bs: seq<Bullet>, dt: real, s: Square)
    requires forall k :: 0 <= k < |bs| ==> bs[k].damage > 0
    ensures Damage(bs, dt, s) >= 0
    ensures Damage(bs, dt, s) > 0 <==> exists k :: 0 <= k < |bs| && BulletHits(BulletMoved(bs[k], dt), s)
    decreases |bs|
  {
    if bs != [] {
      var n := |bs| - 1;
      DamagePositiveIffHit(bs[..n], dt, s);
      if exists k :: 0 <= k < n && BulletHits(BulletMoved(bs[..n][k], dt), s) {
        var k :| 0 <= k < n && BulletHits(BulletMoved(bs[..n][k], dt), s);
        assert bs[..n][k] == bs[k];
      }
      if exists k :: 0 <= k < |bs| && BulletHits(BulletMoved(bs[k], dt), s) {
        var k :| 0 <= k < |bs| && BulletHits(BulletMoved(bs[k], dt), s);
        if k < n {
          assert bs[..n][k] == bs[k];
        }
      }
    }
  }

  /** The pass leaves every square's geometry and speed, and every bullet's speed,
      damage and horizontal position, as they were. */
  lemma PassKeepsShapes(bullets: seq<Bullet>, squares: seq<Square>, score: int, dt: real)
    ensures forall j :: 0 <= j < |squares| ==>
      Run(bullets, squares, score, dt).squares[j].rect == squares[j].rect
      && Run(bullets, squares, score, dt).squares[j].speed == squares[j].speed
    ensures forall k :: 0 <= k < |bullets| ==>
      Run(bullets, squares, score, dt).bullets[k].rect == BulletMoved(bullets[k], dt).rect
      && Run(bullets, squares, score, dt).bullets[k].damage == bullets[k].damage
      && Run(bullets, squares, score, dt).bullets[k].speed == bullets[k].speed
  {
    PassCharacterised(bullets, squares, score, dt);
  }

  /** One bullet against one square it overlaps: the square loses the damage, the
      bullet is marked and the score gains the square's remaining health, which is
      zero for a 4-health square hit by a 4-damage bullet and negative past that. */
  lemma {:induction false} SingleHit(b: Bullet, s: Square, score: int, dt: real)
    requires BulletHits(BulletMoved(b, dt), s)
    ensures Run([b], [s], score, dt).squares == [s.(health := s.health - b.damage)]
    ensures Run([b], [s], score, dt).bullets == [BulletMoved(b, dt).(hit := true)]
    ensures Run([b], [s], score, dt).score == score + s.health - b.damage
    ensures Run([b], [s], score, dt).kills == 1
  {
    var p0 := Pass([b], [s], score, 0);
    var q := Launch(OuterPass(p0, dt, 0), 0, dt);
    assert InnerPass(q, 0, 1) == HitStep(q, 0, 0);
  }
}
