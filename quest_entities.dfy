/** The platformer's world entities other than the player: particles,
    checkpoints, platforms and enemies, with the screen and level constants
    they share. */
module QuestEntities {
  import opened Geometry

  const ScreenWidth := 1200
  const ScreenHeight := 700
  const LevelWidth := 4000

  /** The lifetimes of a burst of `count` particles that all start with
      the same lifetime; only counts and lifetimes of bursts are modelled. */
  function Burst(count: nat, lifetime: int): (b: seq<int>)
    ensures |b| == count
    ensures forall i :: 0 <= i < count ==> b[i] == lifetime
  {
    seq(count, _ => lifetime)
  }

  // ---------------------------------------------------------------- Sway

  /** One step of back-and-forth motion, shared by moving platforms and
      patrolling enemies: move by v, then reverse when the displacement from
      the origin exceeds the range. */
  function Sway(x: int, v: int, origin: int, range: int): (r: (int, int))
    ensures Abs(r.1) == Abs(v)
    ensures 0 <= range && v != 0 && InBand(x, v, origin, range, Abs(v)) ==>
              InBand(r.0, r.1, origin, range, Abs(v))
  {
    var nx := x + v;
    (nx, if Abs(nx - origin) > range then -v else v)
  }

  /** The states a swaying body passes through when it starts at its origin:
      never more than one step beyond the range, and, while heading one way,
      not yet beyond the range on that side. */
  ghost predicate InBand(x: int, v: int, origin: int, range: int, speed: int) {
    && (v == speed || v == -speed)
    && -range - speed <= x - origin <= range + speed
    && (v == speed ==> x - origin <= range)
    && (v == -speed ==> origin - x <= range)
  }

  /** n successive Sway steps. */
  function SwayN(x: int, v: int, origin: int, range: int, n: nat): (int, int)
  {
    if n == 0 then (x, v)
    else
      var p := SwayN(x, v, origin, range, n - 1);
      Sway(p.0, p.1, origin, range)
  }

  lemma {:induction false} SwayStaysInBand(x: int, v: int, origin: int, range: int, n: nat)
    requires 0 <= range && v != 0 && InBand(x, v, origin, range, Abs(v))
    ensures Abs(SwayN(x, v, origin, range, n).1) == Abs(v)
    ensures InBand(SwayN(x, v, origin, range, n).0, SwayN(x, v, origin, range, n).1, origin, range, Abs(v))
  {
    if n > 0 {
      SwayStaysInBand(x, v, origin, range, n - 1);
    }
  }

  /** A body that starts at its origin with a nonzero speed never strays
      more than range + speed from the origin, however many steps it takes. */
  lemma PatrolBounded(origin: int, speed: int, range: int, n: nat)
    requires 0 < speed && 0 <= range
    ensures Abs(SwayN(origin, speed, origin, range, n).0 - origin) <= range + speed
  {
    SwayStaysInBand(origin, speed, origin, range, n);
  }

  /** Starting at the origin, the body moves steadily outward while within
      range ... */
  lemma {:induction false} SwayOutward(origin: int, speed: int, range: int, k: nat)
    requires 0 < speed && k * speed <= range
    ensures SwayN(origin, speed, origin, range, k) == (origin + k * speed, speed)
  {
    if k > 0 {
      assert (k - 1) * speed <= range;
      SwayOutward(origin, speed, range, k - 1);
    }
  }

  /** ... and reverses on the first step that takes it beyond the range:
      with k whole steps fitting within the range, step k + 1 turns it. */
  lemma FirstTurn(origin: int, speed: int, range: int, k: nat)
    requires 0 < speed && k * speed <= range < k * speed + speed
    ensures SwayN(origin, speed, origin, range, k + 1) == (origin + k * speed + speed, -speed)
  {
    SwayOutward(origin, speed, range, k);
  }

  // ---------------------------------------------------------------- Particle

  /** A visual particle; only its lifetime is modelled. */
  class Particle {
    var lifetime: int
    const maxLifetime: int

    constructor (lifetime: int)
      ensures this.lifetime == lifetime && maxLifetime == lifetime
    {
      this.lifetime := lifetime;
      maxLifetime := lifetime;
    }

    /** One tick: the lifetime counts down by one. */
    method Update()
      modifies this
      ensures lifetime == old(lifetime) - 1
    {
      lifetime := lifetime - 1;
    }
  }

  /** The lifetimes left after one tick of aging: every lifetime drops by
      one and those that reach zero or below are dropped, the rest keeping
      their order. */
  function Aged(ls: seq<int>): (r: seq<int>)
    ensures |r| <= |ls|
    ensures forall i :: 0 <= i < |r| ==> r[i] > 0
  {
    if ls == [] then []
    else
      var last := ls[|ls| - 1] - 1;
      Aged(ls[..|ls| - 1]) + (if last > 0 then [last] else [])
  }

  /** The positions, in order, of the lifetimes that survive one tick of
      aging, each matched to its aged lifetime. */
  function Survivors(ls: seq<int>): (idx: seq<nat>)
    ensures |idx| == |Aged(ls)|
    ensures forall k :: 0 <= k < |idx| ==> idx[k] < |ls| && Aged(ls)[k] == ls[idx[k]] - 1
    ensures forall k, l :: 0 <= k < l < |idx| ==> idx[k] < idx[l]
  {
    if ls == [] then []
    else Survivors(ls[..|ls| - 1]) + (if ls[|ls| - 1] - 1 > 0 then [|ls| - 1] else [])
  }

  /** No particle with more than one tick to live is dropped: every such
      position is among the survivors. */
  lemma {:induction false} SurvivorsComplete(ls: seq<int>)
    ensures forall i :: 0 <= i < |ls| && ls[i] > 1 ==> i in Survivors(ls)
  {
    if ls != [] {
      var n := |ls| - 1;
      var front := Survivors(ls[..n]);
      SurvivorsComplete(ls[..n]);
      assert Survivors(ls) == front + (if ls[n] - 1 > 0 then [n] else []);
      forall i | 0 <= i < |ls| && ls[i] > 1
        ensures i in Survivors(ls)
      {
        if i < n {
          assert ls[..n][i] == ls[i];
          assert i in front;
        }
      }
    }
  }

  /** Aging drops a particle only when its lifetime runs out: when every
      lifetime exceeds one, every particle survives, one tick younger. */
  lemma {:induction false} AgedKeepsLong(ls: seq<int>)
    requires forall i :: 0 <= i < |ls| ==> ls[i] > 1
    ensures |Aged(ls)| == |ls|
    ensures forall i :: 0 <= i < |ls| ==> Aged(ls)[i] == ls[i] - 1
  {
    if ls != [] {
      AgedKeepsLong(ls[..|ls| - 1]);
    }
  }

  /** Aging treats every particle on its own: aging two lists one after
      the other is aging each of them. */
  lemma {:induction false} AgedAppend(xs: seq<int>, ys: seq<int>)
    ensures Aged(xs + ys) == Aged(xs) + Aged(ys)
  {
    if ys != [] {
      var n := |ys| - 1;
      var tail := if ys[n] - 1 > 0 then [ys[n] - 1] else [];
      AgedAppend(xs, ys[..n]);
      assert (xs + ys)[..|xs + ys| - 1] == xs + ys[..n];
      assert Aged(xs + ys) == Aged(xs + ys[..n]) + tail;
      assert Aged(ys) == Aged(ys[..n]) + tail;
    } else {
      assert xs + ys == xs;
    }
  }

  function AgedN(ls: seq<int>, k: nat): seq<int>
  {
    if k == 0 then ls else Aged(AgedN(ls, k - 1))
  }

  /** A particle spawned with lifetime L is still there, with L - k ticks
      left, after k ticks of aging exactly when k < L. */
  lemma {:induction false} Lifespan(l: int, k: nat)
    requires l >= 1
    ensures AgedN([l], k) == if k < l then [l - k] else []
  {
    if k > 0 {
      Lifespan(l, k - 1);
      if k - 1 < l {
        AgedAppend([], [l - (k - 1)]);
        assert [] + [l - (k - 1)] == [l - (k - 1)];
      }
    }
  }

  // ---------------------------------------------------------------- Checkpoint

  class Checkpoint {
    const rect: Rect
    const checkpointId: int
    var activated: bool

    constructor (x: int, y: int, checkpointId: int)
      ensures rect == CenteredAt(x, y, 40, 40)
      ensures this.checkpointId == checkpointId && !activated
    {
      rect := CenteredAt(x, y, 40, 40);
      this.checkpointId := checkpointId;
      activated := false;
    }

    method Activate()
      modifies this
      ensures activated
    {
      activated := true;
    }
  }

  // ---------------------------------------------------------------- Platform

  class Platform {
    var rect: Rect
    const moving: bool
    const moveRange: int
    var moveDirection: int
    const originalX: int

    /** A platform sways within its band (or never moves). */
    ghost predicate Valid()
      reads this
    {
      && (moveDirection == 1 || moveDirection == -1)
      && (moving && 0 <= moveRange ==> InBand(rect.x, 2 * moveDirection, originalX, moveRange, 2))
      && (!moving ==> rect.x == originalX)
    }

    constructor (x: int, y: int, width: int, height: int, moving: bool, moveRange: int)
      ensures Valid()
      ensures rect == Rect(x, y, width, height)
      ensures this.moving == moving && this.moveRange == moveRange
      ensures moveDirection == 1 && originalX == x
    {
      rect := Rect(x, y, width, height);
      this.moving := moving;
      this.moveRange := moveRange;
      moveDirection := 1;
      originalX := x;
    }

    /** A moving platform shifts by 2 * moveDirection and turns round when it
        is beyond its range; a fixed platform never changes. */
    method Update()
      requires Valid()
      modifies this
      ensures Valid()
      ensures rect.y == old(rect.y) && rect.w == old(rect.w) && rect.h == old(rect.h)
      ensures moving ==> (rect.x, 2 * moveDirection) == Sway(old(rect.x), 2 * old(moveDirection), originalX, moveRange)
      ensures moving ==> rect.x == old(rect.x) + 2 * old(moveDirection)
      ensures moving ==> (moveDirection == -old(moveDirection) <==> Abs(rect.x - originalX) > moveRange)
      ensures !moving ==> rect == old(rect) && moveDirection == old(moveDirection)
    {
      if moving {
        rect := rect.(x := rect.x + moveDirection * 2);
        if Abs(rect.x - originalX) > moveRange {
          moveDirection := -moveDirection;
        }
      }
    }
  }

  // ---------------------------------------------------------------- Enemy

  /** Particle lifetimes spawned when an enemy is killed. */
  const KillBurst := Burst(20, 30)

  class Enemy {
    var rect: Rect
    var velX: int
    const patrolRange: int
    const originalX: int
    var health: int
    var alive: bool
    var attackCooldown: int
    const attackRange: int

    /** A live enemy has health left, its cooldown is never negative, and it
        patrols within its band. */
    ghost predicate Valid()
      reads this
    {
      && (alive ==> health > 0)
      && attackCooldown >= 0
      && (velX == 2 || velX == -2)
      && (0 <= patrolRange ==> InBand(rect.x, velX, originalX, patrolRange, 2))
    }

    constructor (x: int, y: int, patrolRange: int)
      ensures Valid()
      ensures rect == Rect(x, y, 25, 25) && velX == 2
      ensures this.patrolRange == patrolRange && originalX == x
      ensures health == 2 && alive && attackCooldown == 0 && attackRange == 80
    {
      rect := Rect(x, y, 25, 25);
      velX := 2;
      this.patrolRange := patrolRange;
      originalX := x;
      health := 2;
      alive := true;
      attackCooldown := 0;
      attackRange := 80;
    }

    /** A live enemy takes one patrol step and its attack cooldown counts
        down to zero; a dead enemy does not change. */
    method Update()
      requires Valid()
      modifies this
      ensures Valid()
      ensures rect.y == old(rect.y) && rect.w == old(rect.w) && rect.h == old(rect.h)
      ensures health == old(health) && alive == old(alive)
      ensures old(alive) ==> (rect.x, velX) == Sway(old(rect.x), old(velX), originalX, patrolRange)
      ensures old(alive) ==> attackCooldown == if old(attackCooldown) > 0 then old(attackCooldown) - 1 else old(attackCooldown)
      ensures !old(alive) ==> rect == old(rect) && velX == old(velX) && attackCooldown == old(attackCooldown)
    {
      if alive {
        rect := rect.(x := rect.x + velX);
        if Abs(rect.x - originalX) > patrolRange {
          velX := -velX;
        }
        if attackCooldown > 0 {
          attackCooldown := attackCooldown - 1;
        }
      }
    }

    /** Enter the attacking state for ten ticks. */
    method Attack()
      requires Valid()
      modifies this
      ensures Valid()
      ensures attackCooldown == 10
      ensures rect == old(rect) && velX == old(velX) && health == old(health) && alive == old(alive)
    {
      attackCooldown := 10;
    }

    /** Health drops by the damage; the enemy dies, and the call reports a
        kill, exactly when health is then zero or below. */
    method TakeDamage(damage: int) returns (killed: bool)
      requires Valid()
      modifies this
      ensures Valid()
      ensures health == old(health) - damage
      ensures killed <==> health <= 0
      ensures alive == (old(alive) && !killed)
      ensures rect == old(rect) && velX == old(velX) && attackCooldown == old(attackCooldown)
    {
      health := health - damage;
      if health <= 0 {
        alive := false;
        return true;
      }
      return false;
    }

    /** The enemy dies and bursts into particles. */
    method KillEnemy() returns (burst: seq<int>)
      requires Valid()
      modifies this
      ensures Valid()
      ensures !alive && burst == KillBurst
      ensures rect == old(rect) && velX == old(velX) && health == old(health)
      ensures attackCooldown == old(attackCooldown)
    {
      alive := false;
      burst := KillBurst;
    }
  }
}
