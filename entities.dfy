/** The three game entities (player, falling square, bullet), their constructors,
    their per-frame movement and the `Collide` trait of src/main.rs. */
module Entities {
  import opened Geometry

  const PlayerRadius: real := 10.0
  const PlayerSpeed: real := 320.0
  const PlayerReload: real := 0.3
  const BulletSpeed: real := 1280.0
  const BulletDamage: int := 4
  const SquareStartY: real := -10.0

  /** The player: a circle, a speed in units per second, the remaining lives (an `i8`
      in the source, always between 1 and 3 here), the reload interval and the death flag. */
  datatype Player = Player(circle: Circle, speed: real, lives: int, reload: real, death: bool)

  /** A falling square; its health is an integer (it starts as a rounded `f32`
      and only ever loses whole bullet damages). */
  datatype Square = Square(rect: Rect, speed: real, health: int)

  /** A bullet flying upwards; `hit` marks it for removal at the end of the frame. */
  datatype Bullet = Bullet(rect: Rect, speed: real, hit: bool, damage: int)

  /** The value one axis of the movement vector gets from its two keys. */
  type Axis = a: int | -1 <= a <= 1

  /** `Player::new`: centred horizontally, 100 units above the bottom edge. */
  function NewPlayer(lives: int, width: real, height: real): (p: Player)
    ensures 2.0 * p.circle.x == width && height - p.circle.y == 100.0 && p.circle.r == PlayerRadius
    ensures p.lives == lives && !p.death && p.speed == PlayerSpeed && p.reload == PlayerReload
  {
    Player(Circle(width / 2.0, height - 100.0, PlayerRadius), PlayerSpeed, lives, PlayerReload, false)
  }

  /** `Square::new`: a `size` by `size` square with its top-left corner at (x, y). */
  function NewSquare(x: real, y: real, speed: real, size: real, health: int): (s: Square)
    ensures s.rect.x == x && s.rect.y == y && s.rect.w == size && s.rect.h == size
    ensures s.speed == speed && s.health == health
  {
    Square(Rect(x, y, size, size), speed, health)
  }

  /** `Bullet::new`: an 8 by 12 box centred on (x, y). */
  function NewBullet(x: real, y: real): (b: Bullet)
    ensures b.rect.x + b.rect.w / 2.0 == x && b.rect.y + b.rect.h / 2.0 == y
    ensures b.rect.w == 8.0 && b.rect.h == 12.0
    ensures !b.hit && b.damage == BulletDamage && b.speed == BulletSpeed
  {
    Bullet(Rect(x - 4.0, y - 6.0, 8.0, 12.0), BulletSpeed, false, BulletDamage)
  }

  /** One axis of the movement vector: the first key wins when both are held,
      so opposite keys never cancel. */
  function KeyAxis(negative: bool, positive: bool): (a: Axis)
    ensures a < 0 <==> negative
    ensures a > 0 <==> !negative && positive
  {
    if negative then -1 else if positive then 1 else 0
  }

  /** `Vec2::normalize` of a non-zero key vector. Each component of a diagonal unit
      vector is 1 / sqrt(2), which Dafny's reals cannot compute; the caller passes it
      as `diagonal`. */
  function Normalized(dx: Axis, dy: Axis, diagonal: real): (v: Vec2)
    requires dx != 0 || dy != 0
    requires 0.0 < diagonal < 1.0
    ensures (v.x < 0.0 <==> dx < 0) && (v.x > 0.0 <==> dx > 0)
    ensures (v.y < 0.0 <==> dy < 0) && (v.y > 0.0 <==> dy > 0)
    ensures Abs(v.x) <= 1.0 && Abs(v.y) <= 1.0
    ensures dx == 0 || dy == 0 ==> Abs(v.x) + Abs(v.y) == 1.0
    ensures dx != 0 && dy != 0 ==> Abs(v.x) == diagonal && Abs(v.y) == diagonal
  {
    if dx != 0 && dy != 0 then Vec2(dx as real * diagonal, dy as real * diagonal)
    else Vec2(dx as real, dy as real)
  }

  /** One coordinate after moving for dt at the given speed along a unit-vector component. */
  function Advance(pos: real, speed: real, component: real, dt: real): real
  {
    pos + speed * component * dt
  }

  /** `Player::movement`: with a non-zero vector, each coordinate advances by
      speed * direction * dt and is clamped into [r, width - r]; the vertical
      coordinate is clamped by the width too, as in the source. */
  function PlayerMoved(p: Player, dx: Axis, dy: Axis, dt: real, width: real, diagonal: real): (q: Player)
    requires 0.0 < diagonal < 1.0
    requires p.circle.r <= width - p.circle.r
    ensures dx == 0 && dy == 0 ==> q == p
    ensures dx != 0 || dy != 0 ==>
      p.circle.r <= q.circle.x <= width - p.circle.r && p.circle.r <= q.circle.y <= width - p.circle.r
    ensures q == p.(circle := Circle(q.circle.x, q.circle.y, p.circle.r))
  {
    if dx == 0 && dy == 0 then p
    else
      var n := Normalized(dx, dy, diagonal);
      var r := p.circle.r;
      var x := Clamp(Advance(p.circle.x, p.speed, n.x, dt), r, width - r);
      var y := Clamp(Advance(p.circle.y, p.speed, n.y, dt), r, width - r);
      p.(circle := Circle(x, y, r))
  }

  /** `Square::movement`: the square falls by speed * dt. */
  function SquareMoved(s: Square, dt: real): (t: Square)
    ensures t == s.(rect := s.rect.(y := t.rect.y))
    ensures dt >= 0.0 && s.speed >= 0.0 ==> t.rect.y >= s.rect.y
  {
    s.(rect := s.rect.(y := s.rect.y + s.speed * dt))
  }

  /** `Bullet::movement`: the bullet rises by speed * dt. */
  function BulletMoved(b: Bullet, dt: real): (c: Bullet)
    ensures c == b.(rect := b.rect.(y := c.rect.y))
    ensures dt >= 0.0 && b.speed >= 0.0 ==> c.rect.y <= b.rect.y
  {
    b.(rect := b.rect.(y := b.rect.y - b.speed * dt))
  }

  /** The implementors of the `Collide` trait, as one tagged union. */
  datatype Body = PlayerBody(player: Player) | SquareBody(square: Square) | BulletBody(bullet: Bullet)

  /** `collider_rect`. A square's and a bullet's are their own rectangles. The player's
      starts at the top-left corner of the circle's bounding box, but it passes the far
      corner (x + r, y + r) where `Rect::new` expects a width and a height, so its own
      far corner lands at (2x, 2y); no caller uses it. */
  function ColliderRect(b: Body): (rect: Rect)
    ensures b.SquareBody? ==> rect == b.square.rect
    ensures b.BulletBody? ==> rect == b.bullet.rect
    ensures b.PlayerBody? ==>
      rect.x == b.player.circle.x - b.player.circle.r && rect.y == b.player.circle.y - b.player.circle.r
      && rect.x + rect.w == 2.0 * b.player.circle.x && rect.y + rect.h == 2.0 * b.player.circle.y
  {
    match b
    case PlayerBody(p) =>
      Rect(p.circle.x - p.circle.r, p.circle.y - p.circle.r, p.circle.x + p.circle.r, p.circle.y + p.circle.r)
    case SquareBody(s) => s.rect
    case BulletBody(u) => u.rect
  }

  /** `collide`: the player tests its circle against the other's rectangle, a square
      never reports a collision, a bullet tests its rectangle against the other's. */
  predicate Collide(self: Body, other: Body)
    ensures self.SquareBody? ==> !Collide(self, other)
    ensures self.PlayerBody? && other.SquareBody? ==>
      (Collide(self, other) <==> CircleOverlapsRect(self.player.circle, other.square.rect))
    ensures self.BulletBody? && other.SquareBody? ==>
      (Collide(self, other) <==> RectsOverlap(self.bullet.rect, other.square.rect))
  {
    match self
    case PlayerBody(p) => CircleOverlapsRect(p.circle, ColliderRect(other))
    case SquareBody(_) => false
    case BulletBody(u) => RectsOverlap(u.rect, ColliderRect(other))
  }

  /** `bullet.collide(square)` in the frame's hit pass. */
  predicate BulletHits(b: Bullet, s: Square)
  {
    Collide(BulletBody(b), SquareBody(s))
  }

  /** `player.collide(square)` in the frame's death test. */
  predicate PlayerTouches(p: Player, s: Square)
  {
    Collide(PlayerBody(p), SquareBody(s))
  }

  /** A bullet's hit test looks at geometry only: its flag and damage and the square's
      health and speed play no part. */
  lemma BulletHitIsGeometric(b: Bullet, c: Bullet, s: Square, t: Square)
    requires b.rect == c.rect && s.rect == t.rect
    ensures BulletHits(b, s) <==> BulletHits(c, t)
    ensures BulletHits(b, s) <==> RectsOverlap(b.rect, s.rect)
  {
  }

  /** The player's touch test looks at geometry only: its lives, speed and death flag
      and the square's health and speed play no part. */
  lemma PlayerTouchIsGeometric(p: Player, q: Player, s: Square, t: Square)
    requires p.circle == q.circle && s.rect == t.rect
    ensures PlayerTouches(p, s) <==> PlayerTouches(q, t)
    ensures PlayerTouches(p, s) <==> CircleOverlapsRect(p.circle, s.rect)
  {
  }

  /** The player's collider rectangle has its right edge at x + (x + r) = 2x + r rather
      than x + r: it is the circle's bounding box only for a circle touching the
      top-left corner of the screen. */
  lemma PlayerColliderRectQuirk(p: Player)
    requires p.circle.r > 0.0
    ensures var rect := ColliderRect(PlayerBody(p));
      (rect.w == 2.0 * p.circle.r && rect.h == 2.0 * p.circle.r) <==> (p.circle.x == p.circle.r && p.circle.y == p.circle.r)
  {
  }

  /** Moving left never moves the player right, moving right never moves it left,
      and an axis with no key held keeps its coordinate when that coordinate is
      already in bounds. */
  lemma {:induction false} MovementFollowsKeys(p: Player, dx: Axis, dy: Axis, dt: real, width: real, diagonal: real)
    requires 0.0 < diagonal < 1.0 && dt >= 0.0 && p.speed >= 0.0
    requires p.circle.r <= p.circle.x <= width - p.circle.r
    requires p.circle.r <= p.circle.y <= width - p.circle.r
    ensures var q := PlayerMoved(p, dx, dy, dt, width, diagonal);
      (dx < 0 ==> q.circle.x <= p.circle.x) && (dx > 0 ==> q.circle.x >= p.circle.x) && (dx == 0 ==> q.circle.x == p.circle.x)
      && (dy < 0 ==> q.circle.y <= p.circle.y) && (dy > 0 ==> q.circle.y >= p.circle.y) && (dy == 0 ==> q.circle.y == p.circle.y)
  {
    if dx != 0 || dy != 0 {
      var n := Normalized(dx, dy, diagonal);
      var r := p.circle.r;
      AxisStep(p.circle.x, p.speed, n.x, dt, r, width - r);
      AxisStep(p.circle.y, p.speed, n.y, dt, r, width - r);
    }
  }

  /** One clamped coordinate moves in the direction of its component, or stays put. */
  lemma AxisStep(pos: real, speed: real, c: real, dt: real, lo: real, hi: real)
    requires speed >= 0.0 && dt >= 0.0 && lo <= pos <= hi
    ensures c < 0.0 ==> Clamp(Advance(pos, speed, c, dt), lo, hi) <= pos
    ensures c > 0.0 ==> Clamp(Advance(pos, speed, c, dt), lo, hi) >= pos
    ensures c == 0.0 ==> Clamp(Advance(pos, speed, c, dt), lo, hi) == pos
  {
    if c < 0.0 {
      assert speed * (-c) >= 0.0;
      assert speed * (-c) * dt >= 0.0;
    } else if c > 0.0 {
      assert speed * c >= 0.0;
    }
  }
}
