/** The fighting game's enemy: the same physics tick and health clamps as
    the player, followed every tick by its decision counter, which acts on
    one action every so many ticks. The action is drawn at random in the
    game; here it is passed in. */
module FighterEnemy {
  import opened Geometry
  import opened FighterRules

  /** The actions the enemy picks from. */
  datatype Action = AttackAction | MoveLeft | MoveRight | JumpAction

  /** The enemy's decision state: its tick counter, the way it faces
      (1 right, -1 left) and whether it is attacking. */
  datatype Mind = Mind(counter: int, facing: int, isAttacking: bool)

  /** The counter after one tick: one more, or back to zero on reaching
      the decision frequency. */
  function Bump(counter: int, freq: int): (c: int)
    ensures counter + 1 >= freq ==> c == 0
    ensures counter + 1 < freq ==> c == counter + 1
  {
    if counter + 1 >= freq then 0 else counter + 1
  }

  /** The decision tick: the counter advances, and on reaching the
      frequency the action is applied. "move_left" sends the enemy right
      and "move_right" sends it left, as the game names them. A jump only
      happens from the ground. */
  function Decide(cfg: Config, b: Body, m: Mind, freq: int, speed: int, action: Action): (r: (Body, Mind))
    ensures r.1.counter == Bump(m.counter, freq)
    ensures freq >= 1 && 0 <= m.counter < freq ==> 0 <= r.1.counter < freq
    ensures m.counter + 1 < freq ==> r.0 == b && r.1 == m.(counter := m.counter + 1)
    ensures m.counter + 1 >= freq ==>
              match action
              case AttackAction => r.0 == b && r.1 == Mind(0, m.facing, true)
              case MoveLeft => r.0 == b.(velX := speed as real) && r.1 == Mind(0, 1, m.isAttacking)
              case MoveRight => r.0 == b.(velX := -speed as real) && r.1 == Mind(0, -1, m.isAttacking)
              case JumpAction =>
                && r.1 == m.(counter := 0)
                && r.0 == if b.onGround then b.(velY := -cfg.jumpPower, isJumping := true, onGround := false) else b
  {
    var counter := m.counter + 1;
    if counter >= freq then
      var m0 := m.(counter := 0);
      match action
      case AttackAction => (b, m0.(isAttacking := true))
      case MoveLeft => (b.(velX := speed as real), m0.(facing := 1))
      case MoveRight => (b.(velX := -speed as real), m0.(facing := -1))
      case JumpAction =>
        if b.onGround then (b.(velY := -cfg.jumpPower, isJumping := true, onGround := false), m0)
        else (b, m0)
    else (b, m.(counter := counter))
  }

  /** The counter after k ticks. */
  function BumpN(counter: int, freq: int, k: nat): int {
    if k == 0 then counter else Bump(BumpN(counter, freq, k - 1), freq)
  }

  /** From a counter in [0, freq), the counter climbs by one per tick and
      wraps to zero exactly on the tick it reaches freq: so an action is
      applied once every freq ticks. */
  lemma {:induction false} DecisionsEveryFreqTicks(counter: int, freq: int, k: nat)
    requires 0 <= counter < freq && k <= freq - counter
    ensures BumpN(counter, freq, k) == if counter + k < freq then counter + k else 0
    ensures forall j :: 0 < j < k ==> BumpN(counter, freq, j) != 0
  {
    if k > 0 {
      DecisionsEveryFreqTicks(counter, freq, k - 1);
    }
  }

  class Enemy {
    var x: real
    var y: real
    const weapon: string
    var health: int
    const maxHealth: int
    const speed: int
    const aiUpdateFreq: int
    var rect: Rect
    var velX: real
    var velY: real
    var isJumping: bool
    var isAttacking: bool
    var attackCooldown: int
    var facing: int
    var onGround: bool
    var aiCounter: int

    /** The physical part of the enemy. */
    function BodyOf(): Body
      reads this
    {
      Body(x, y, rect, velX, velY, onGround, isJumping, attackCooldown)
    }

    /** The decision part of the enemy. */
    function MindOf(): Mind
      reads this
    {
      Mind(aiCounter, facing, isAttacking)
    }

    /** The enemy's size is the configured one, its health lies between zero
        and its maximum, its cooldown is never negative and its counter
        stays below the frequency, or at zero when the frequency is not
        positive. */
    ghost predicate Valid(cfg: Config)
      reads this
    {
      && rect.w == cfg.playerWidth && rect.h == cfg.playerHeight
      && 0 <= health <= maxHealth
      && attackCooldown >= 0
      && 0 <= aiCounter && (aiCounter == 0 || aiCounter < aiUpdateFreq)
    }

    /** An enemy at (x, y), standing, facing left, at full health. */
    constructor (cfg: Config, x: int, y: int, weapon: string, health: nat, speed: int, aiUpdateFreq: int)
      ensures Valid(cfg)
      ensures BodyOf() == Body(x as real, y as real, Rect(x, y, cfg.playerWidth, cfg.playerHeight),
                               0.0, 0.0, true, false, 0)
      ensures MindOf() == Mind(0, -1, false)
      ensures this.weapon == weapon && this.health == health && maxHealth == health
      ensures this.speed == speed && this.aiUpdateFreq == aiUpdateFreq
    {
      this.x := x as real;
      this.y := y as real;
      this.weapon := weapon;
      this.health := health;
      maxHealth := health;
      this.speed := speed;
      this.aiUpdateFreq := aiUpdateFreq;
      rect := Rect(x, y, cfg.playerWidth, cfg.playerHeight);
      velX, velY := 0.0, 0.0;
      isJumping, isAttacking := false, false;
      attackCooldown := 0;
      facing := -1;
      onGround := true;
      aiCounter := 0;
    }

    /** One tick: the physics step, then the decision tick on the action
        drawn for it. */
    method Update(cfg: Config, action: Action)
      requires Valid(cfg)
      modifies this
      ensures Valid(cfg)
      ensures (BodyOf(), MindOf()) == Decide(cfg, Step(cfg, old(BodyOf())), old(MindOf()), aiUpdateFreq, speed, action)
      ensures health == old(health)
    {
      Physics(cfg);
      UpdateAi(cfg, action);
    }

    /** The physics tick, shared with the player. */
    method Physics(cfg: Config)
      requires Valid(cfg)
      modifies this`x, this`y, this`velY, this`rect, this`onGround, this`isJumping, this`attackCooldown
      ensures Valid(cfg)
      ensures BodyOf() == Step(cfg, old(BodyOf()))
    {
      Move(cfg);
      Ground(cfg);
      Sides(cfg);
      if attackCooldown > 0 {
        attackCooldown := attackCooldown - 1;
      }
    }

    /** Gravity and movement. */
    method Move(cfg: Config)
      modifies this`x, this`y, this`velY, this`rect
      ensures BodyOf() == Moved(cfg, old(BodyOf()))
    {
      if !onGround {
        velY := velY + cfg.gravity;
      }
      x := x + velX;
      y := y + velY;
      rect := rect.(x := Trunc(x));
      rect := rect.(y := Trunc(y));
    }

    /** The stop on the floor. */
    method Ground(cfg: Config)
      modifies this`y, this`velY, this`rect, this`onGround, this`isJumping
      ensures BodyOf() == Grounded(cfg, old(BodyOf()))
    {
      if rect.Bottom() >= cfg.Floor() {
        rect := rect.WithBottom(cfg.Floor());
        y := rect.y as real;
        velY := 0.0;
        onGround := true;
        isJumping := false;
      }
    }

    /** The stops at the screen sides. */
    method Sides(cfg: Config)
      modifies this`x, this`rect
      ensures BodyOf() == Sided(cfg, old(BodyOf()))
    {
      if rect.Left() < 0 {
        rect := rect.WithLeft(0);
        x := rect.x as real;
      }
      if rect.Right() > cfg.screenWidth {
        rect := rect.WithRight(cfg.screenWidth);
        x := rect.x as real;
      }
    }

    /** The decision tick on the given action. */
    method UpdateAi(cfg: Config, action: Action)
      modifies this`aiCounter, this`isAttacking, this`velX, this`facing, this`velY, this`isJumping, this`onGround
      ensures (BodyOf(), MindOf()) == Decide(cfg, old(BodyOf()), old(MindOf()), aiUpdateFreq, speed, action)
    {
      aiCounter := aiCounter + 1;
      if aiCounter >= aiUpdateFreq {
        aiCounter := 0;
        match action {
          case AttackAction =>
            isAttacking := true;
          case MoveLeft =>
            velX := speed as real;
            facing := 1;
          case MoveRight =>
            velX := -speed as real;
            facing := -1;
          case JumpAction =>
            if onGround {
              velY := -cfg.jumpPower;
              isJumping := true;
              onGround := false;
            }
        }
      }
    }

    /** A hit: health drops by the damage, clamped at zero. */
    method TakeDamage(damage: int)
      modifies this`health
      ensures health == Damaged(old(health), damage)
      ensures 0 <= old(health) <= maxHealth && damage >= 0 ==> 0 <= health <= maxHealth
    {
      health := Max(0, health - damage);
    }

    /** Healing, clamped at the maximum. */
    method Heal(amount: int)
      modifies this`health
      ensures health == Healed(maxHealth, old(health), amount)
      ensures 0 <= old(health) <= maxHealth && amount >= 0 ==> 0 <= health <= maxHealth
    {
      health := Min(maxHealth, health + amount);
    }
  }
}
