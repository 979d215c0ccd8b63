/** The fighting game's player: its physics tick, health changes and the
    damage of the weapon it carries. */
module FighterPlayer {
  import opened Geometry
  import opened FighterRules

  class Player {
    var x: real
    var y: real
    const weapon: string
    var health: int
    const maxHealth: int
    var rect: Rect
    var velX: real
    var velY: real
    var isJumping: bool
    var isAttacking: bool
    var attackCooldown: int
    var facing: int
    var onGround: bool

    /** The physical part of the player. */
    function BodyOf(): Body
      reads this
    {
      Body(x, y, rect, velX, velY, onGround, isJumping, attackCooldown)
    }

    /** The player's size is the configured one, its health lies between
        zero and its maximum and its cooldown is never negative. */
    ghost predicate Valid(cfg: Config)
      reads this
    {
      && rect.w == cfg.playerWidth && rect.h == cfg.playerHeight
      && 0 <= health <= maxHealth
      && attackCooldown >= 0
    }

    /** A player at (x, y), standing, facing right, at full health. */
    constructor (cfg: Config, x: int, y: int, weapon: string, health: nat)
      ensures Valid(cfg)
      ensures BodyOf() == Body(x as real, y as real, Rect(x, y, cfg.playerWidth, cfg.playerHeight),
                               0.0, 0.0, true, false, 0)
      ensures this.weapon == weapon && this.health == health && maxHealth == health
      ensures !isAttacking && facing == 1
    {
      this.x := x as real;
      this.y := y as real;
      this.weapon := weapon;
      this.health := health;
      maxHealth := health;
      rect := Rect(x, y, cfg.playerWidth, cfg.playerHeight);
      velX, velY := 0.0, 0.0;
      isJumping, isAttacking := false, false;
      attackCooldown := 0;
      facing := 1;
      onGround := true;
    }

    /** One physics tick. */
    method Update(cfg: Config)
      requires Valid(cfg)
      modifies this
      ensures Valid(cfg)
      ensures BodyOf() == Step(cfg, old(BodyOf()))
      ensures health == old(health) && isAttacking == old(isAttacking) && facing == old(facing)
    {
      Move(cfg);
      Ground(cfg);
      Sides(cfg);
      if attackCooldown > 0 {
        attackCooldown := attackCooldown - 1;
      }
    }

    /** Gravity and movement. */
    method Move(cfg: Config)
      modifies this`x, this`y, this`velY, this`rect
      ensures BodyOf() == Moved(cfg, old(BodyOf()))
    {
      if !onGround {
        velY := velY + cfg.gravity;
      }
      x := x + velX;
      y := y + velY;
      rect := rect.(x := Trunc(x));
      rect := rect.(y := Trunc(y));
    }

    /** The stop on the floor. */
    method Ground(cfg: Config)
      modifies this`y, this`velY, this`rect, this`onGround, this`isJumping
      ensures BodyOf() == Grounded(cfg, old(BodyOf()))
    {
      if rect.Bottom() >= cfg.Floor() {
        rect := rect.WithBottom(cfg.Floor());
        y := rect.y as real;
        velY := 0.0;
        onGround := true;
        isJumping := false;
      }
    }

    /** The stops at the screen sides. */
    method Sides(cfg: Config)
      modifies this`x, this`rect
      ensures BodyOf() == Sided(cfg, old(BodyOf()))
    {
      if rect.Left() < 0 {
        rect := rect.WithLeft(0);
        x := rect.x as real;
      }
      if rect.Right() > cfg.screenWidth {
        rect := rect.WithRight(cfg.screenWidth);
        x := rect.x as real;
      }
    }

    /** The damage of the player's weapon. */
    function GetWeaponDamage(cfg: Config): (d: int)
      ensures d == WeaponDamage(cfg.weapons, weapon)
    {
      WeaponDamage(cfg.weapons, weapon)
    }

    /** A hit: health drops by the damage, clamped at zero. */
    method TakeDamage(damage: int)
      modifies this`health
      ensures health == Damaged(old(health), damage)
      ensures 0 <= old(health) <= maxHealth && damage >= 0 ==> 0 <= health <= maxHealth
    {
      health := Max(0, health - damage);
    }

    /** Healing, clamped at the maximum. */
    method Heal(amount: int)
      modifies this`health
      ensures health == Healed(maxHealth, old(health), amount)
      ensures 0 <= old(health) <= maxHealth && amount >= 0 ==> 0 <= health <= maxHealth
    {
      health := Min(maxHealth, health + amount);
    }
  }
}
