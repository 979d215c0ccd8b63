/** The rules the fighting game's player and enemy share: the per-tick
    physics step against the floor and the screen sides, the attack
    cooldown, and the health clamps of taking damage and healing. */
module FighterRules {
  import opened Geometry

  /** The game's settings, which live outside the fighters' own files. */
  datatype Config = Config(
    gravity: real,
    screenWidth: int,
    screenHeight: int,
    playerWidth: nat,
    playerHeight: nat,
    jumpPower: real,
    weapons: map<string, int>)
  {
    /** A fighter fits across the screen. */
    predicate Valid() {
      playerWidth <= screenWidth
    }

    /** The floor line fighters stand on. */
    function Floor(): int {
      screenHeight - 50
    }
  }

  /** Damage of a weapon missing from the weapon table. */
  const DefaultDamage := 10

  /** The physical state of a fighter: its exact position (x, y), the
      integer rectangle drawn at it, its velocity, whether it stands on the
      floor or is in a jump, and its attack cooldown. */
  datatype Body = Body(x: real, y: real, rect: Rect, velX: real, velY: real,
                       onGround: bool, isJumping: bool, attackCooldown: int)

  /** The vertical speed after gravity, which only pulls an airborne fighter. */
  function Fallen(g: real, b: Body): (vy: real)
    ensures b.onGround ==> vy == b.velY
    ensures !b.onGround ==> vy == b.velY + g
  {
    if b.onGround then b.velY else b.velY + g
  }

  /** The fighter's position falls below the floor line after it moves. */
  predicate Lands(cfg: Config, b: Body) {
    Trunc(b.y + Fallen(cfg.gravity, b)) + b.rect.h >= cfg.Floor()
  }

  /** Gravity when airborne, then movement by the velocity; the rectangle
      is drawn at the truncated position. */
  function Moved(cfg: Config, b: Body): (r: Body)
    ensures r.velY == Fallen(cfg.gravity, b)
    ensures r.x == b.x + b.velX && r.y == b.y + r.velY
    ensures r.rect == b.rect.(x := Trunc(r.x), y := Trunc(r.y))
    ensures r.velX == b.velX && r.onGround == b.onGround && r.isJumping == b.isJumping
    ensures r.attackCooldown == b.attackCooldown
  {
    var vy := Fallen(cfg.gravity, b);
    b.(x := b.x + b.velX, y := b.y + vy, velY := vy,
       rect := b.rect.(x := Trunc(b.x + b.velX), y := Trunc(b.y + vy)))
  }

  /** The stop on the floor: a fighter at or below the floor line is put
      on it, at rest and out of its jump. */
  function Grounded(cfg: Config, b: Body): (r: Body)
    ensures r.rect.Bottom() <= cfg.Floor()
    ensures b.rect.Bottom() >= cfg.Floor() ==>
              && r == b.(rect := b.rect.WithBottom(cfg.Floor()), y := r.rect.y as real,
                         velY := 0.0, onGround := true, isJumping := false)
    ensures b.rect.Bottom() < cfg.Floor() ==> r == b
  {
    if b.rect.Bottom() >= cfg.Floor() then
      var rect := b.rect.WithBottom(cfg.Floor());
      b.(rect := rect, y := rect.y as real, velY := 0.0, onGround := true, isJumping := false)
    else b
  }

  /** The stops at the screen sides, left first, each putting the exact
      position back on the rectangle. */
  function Sided(cfg: Config, b: Body): (r: Body)
    ensures r.rect.w == b.rect.w && r.rect.y == b.rect.y && r.rect.h == b.rect.h
    ensures r.y == b.y && r.velX == b.velX && r.velY == b.velY
    ensures r.onGround == b.onGround && r.isJumping == b.isJumping && r.attackCooldown == b.attackCooldown
    ensures b.rect.w <= cfg.screenWidth ==> 0 <= r.rect.Left() && r.rect.Right() <= cfg.screenWidth
    ensures 0 <= b.rect.Left() && b.rect.Right() <= cfg.screenWidth ==> r == b
    ensures r == b || (r.x == r.rect.x as real && (r.rect.Left() == 0 || r.rect.Right() == cfg.screenWidth))
    ensures b.rect.Left() < 0 && b.rect.w <= cfg.screenWidth ==> r.rect.x == 0 && r.x == 0.0
    ensures b.rect.Left() < 0 && b.rect.w > cfg.screenWidth ==> r.rect.Right() == cfg.screenWidth
    ensures 0 <= b.rect.Left() && b.rect.Right() > cfg.screenWidth ==>
              r.rect.Right() == cfg.screenWidth && r.x == r.rect.x as real
  {
    var fromLeft := if b.rect.Left() < 0 then b.(rect := b.rect.WithLeft(0), x := 0.0) else b;
    if fromLeft.rect.Right() > cfg.screenWidth then
      var rect := fromLeft.rect.WithRight(cfg.screenWidth);
      fromLeft.(rect := rect, x := rect.x as real)
    else fromLeft
  }

  /** The attack cooldown counts down while positive. */
  function Cooled(b: Body): (r: Body)
    ensures r == b.(attackCooldown := r.attackCooldown)
    ensures b.attackCooldown > 0 ==> r.attackCooldown == b.attackCooldown - 1
    ensures b.attackCooldown <= 0 ==> r.attackCooldown == b.attackCooldown
  {
    if b.attackCooldown > 0 then b.(attackCooldown := b.attackCooldown - 1) else b
  }

  /** One physics tick: gravity when airborne, movement, the stop on the
      floor, the stops at both screen sides and the cooldown countdown. */
  function Step(cfg: Config, b: Body): (r: Body)
    ensures r.rect.w == b.rect.w && r.rect.h == b.rect.h && r.velX == b.velX
    ensures r.rect.Bottom() <= cfg.Floor()
    ensures Lands(cfg, b) ==>
              && r.rect.Bottom() == cfg.Floor() && r.y == r.rect.y as real
              && r.velY == 0.0 && r.onGround && !r.isJumping
    ensures !Lands(cfg, b) ==>
              && r.rect.y == Trunc(r.y) && r.y == b.y + Fallen(cfg.gravity, b)
              && r.velY == Fallen(cfg.gravity, b)
              && r.onGround == b.onGround && r.isJumping == b.isJumping
    ensures b.rect.w <= cfg.screenWidth ==> 0 <= r.rect.Left() && r.rect.Right() <= cfg.screenWidth
    ensures || (r.x == b.x + b.velX && r.rect.x == Trunc(r.x))
            || (r.x == r.rect.x as real && (r.rect.Left() == 0 || r.rect.Right() == cfg.screenWidth))
    ensures r.attackCooldown == if b.attackCooldown > 0 then b.attackCooldown - 1 else b.attackCooldown
  {
    Cooled(Sided(cfg, Grounded(cfg, Moved(cfg, b))))
  }

  /** k physics ticks. */
  function Steps(cfg: Config, b: Body, k: nat): Body {
    if k == 0 then b else Step(cfg, Steps(cfg, b, k - 1))
  }

  /** A fighter standing still on the floor, inside the screen, stays where
      it is: only its cooldown moves. */
  lemma StandingIsRest(cfg: Config, b: Body)
    requires b.onGround && b.velX == 0.0 && b.velY == 0.0
    requires b.rect.Bottom() == cfg.Floor() && b.y == b.rect.y as real && b.x == b.rect.x as real
    requires 0 <= b.rect.Left() && b.rect.Right() <= cfg.screenWidth
    ensures Step(cfg, b) == b.(attackCooldown := Step(cfg, b).attackCooldown, isJumping := false)
  {
    TruncOfInteger(b.rect.x);
    TruncOfInteger(b.rect.y);
  }

  /** The cooldown counts down one per tick and stops at zero: after k
      ticks it is what was left minus k, or zero. */
  lemma {:induction false} CooldownRunsOut(cfg: Config, b: Body, k: nat)
    requires b.attackCooldown >= 0
    ensures Steps(cfg, b, k).attackCooldown == Max(0, b.attackCooldown - k)
  {
    if k > 0 {
      CooldownRunsOut(cfg, b, k - 1);
    }
  }

  /** A fighter that fits across the screen stays on screen and above the
      floor line through any number of ticks, keeping its size. */
  lemma {:induction false} StaysOnScreen(cfg: Config, b: Body, k: nat)
    requires cfg.Valid() && b.rect.w == cfg.playerWidth
    requires k > 0
    ensures var r := Steps(cfg, b, k);
            && r.rect.w == b.rect.w && r.rect.h == b.rect.h
            && 0 <= r.rect.Left() && r.rect.Right() <= cfg.screenWidth && r.rect.Bottom() <= cfg.Floor()
  {
    if k > 1 {
      StaysOnScreen(cfg, b, k - 1);
    }
  }

  /** Taking damage: health drops by the damage, but never below zero. */
  function Damaged(health: int, damage: int): (h: int)
    ensures h >= 0
    ensures health - damage >= 0 ==> h == health - damage
    ensures health - damage < 0 ==> h == 0
  {
    Max(0, health - damage)
  }

  /** Healing: health rises by the amount, but never above the maximum. */
  function Healed(maxHealth: int, health: int, amount: int): (h: int)
    ensures h <= maxHealth
    ensures health + amount <= maxHealth ==> h == health + amount
    ensures health + amount > maxHealth ==> h == maxHealth
  {
    Min(maxHealth, health + amount)
  }

  /** Health in [0, maxHealth] stays there through damage and healing by
      non-negative amounts. */
  lemma HealthStaysInRange(maxHealth: int, health: int, amount: nat)
    requires 0 <= health <= maxHealth
    ensures 0 <= Damaged(health, amount) <= maxHealth
    ensures 0 <= Healed(maxHealth, health, amount) <= maxHealth
  {
  }

  /** Health after a series of hits, in order. */
  function DamagedBy(health: int, hits: seq<int>): int {
    if hits == [] then health else Damaged(DamagedBy(health, hits[..|hits| - 1]), hits[|hits| - 1])
  }

  function Sum(xs: seq<int>): int {
    if xs == [] then 0 else Sum(xs[..|xs| - 1]) + xs[|xs| - 1]
  }

  /** From non-negative health, non-negative hits add up: a series of them
      leaves what one hit of their total would, since the clamp at zero only
      ever applies last. */
  lemma {:induction false} HitsAddUp(health: int, hits: seq<int>)
    requires health >= 0
    requires forall i :: 0 <= i < |hits| ==> hits[i] >= 0
    ensures DamagedBy(health, hits) == Damaged(health, Sum(hits))
  {
    if hits != [] {
      HitsAddUp(health, hits[..|hits| - 1]);
    }
  }

  /** The damage of a weapon: its entry in the weapon table, or the default
      for a weapon the table does not list. */
  function WeaponDamage(weapons: map<string, int>, weapon: string): (d: int)
    ensures weapon in weapons ==> d == weapons[weapon]
    ensures weapon !in weapons ==> d == DefaultDamage
  {
    if weapon in weapons then weapons[weapon] else DefaultDamage
  }
}
