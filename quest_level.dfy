/** One level of the platformer and its per-tick loop: platform and enemy
    movement, the player's attack, stomps and side contact with enemies,
    checkpoint activation, the camera, the player's own physics step, the
    dead and goal outcomes, and the aging of particles. */
module QuestLevel {
  import opened Geometry
  import opened QuestEntities
  import opened QuestPlayer

  /** Score for every enemy killed, by attack or by stomp. */
  const KillScore := 50
  /** Squared reach of the player's attack: a distance below 60 pixels
      between centres, compared without the square root. */
  const AttackReach2 := 3600
  /** Health a side contact with a live enemy costs. */
  const ContactDamage := 2

  // ------------------------------------------------------------ enemies as values

  /** The part of an enemy the attack and contact passes read and change. */
  datatype Foe = Foe(rect: Rect, velX: int, health: int, alive: bool, cooldown: int)

  ghost function FoeOf(e: Enemy): Foe
    reads e
  {
    Foe(e.rect, e.velX, e.health, e.alive, e.attackCooldown)
  }

  ghost function BrawlOf(p: Player): Brawl
    reads p
  {
    Brawl(p.velY, p.health, p.alive, p.score)
  }

  /** The part of the player that only the player's own step changes. */
  ghost function Pose(p: Player): (Rect, int, int, int, bool, bool, WallSide, bool)
    reads p
  {
    (p.rect, p.velX, p.coins, p.crystals, p.onGround, p.onWall, p.wallSide, p.facingRight)
  }

  /** The enemy's centre is within the attack's reach of the player's. */
  predicate InReach(pr: Rect, er: Rect) {
    var dx := er.CenterX() - pr.CenterX();
    var dy := er.CenterY() - pr.CenterY();
    dx * dx + dy * dy < AttackReach2
  }

  /** The player's attack against one enemy: a live enemy in reach loses one
      health point and is killed when that leaves none, and otherwise starts
      its own attack. */
  function Strike(pr: Rect, f: Foe): (g: Foe)
    ensures g.rect == f.rect && g.velX == f.velX
    ensures !(f.alive && InReach(pr, f.rect)) ==> g == f
    ensures f.alive && InReach(pr, f.rect) ==>
              && g.health == f.health - 1
              && (g.alive <==> g.health > 0)
              && g.cooldown == (if g.alive then 10 else f.cooldown)
  {
    if f.alive && InReach(pr, f.rect) then
      if f.health - 1 <= 0 then f.(health := f.health - 1, alive := false)
      else f.(health := f.health - 1, cooldown := 10)
    else f
  }

  /** The attack kills this enemy. */
  predicate Fells(pr: Rect, f: Foe) {
    f.alive && InReach(pr, f.rect) && f.health - 1 <= 0
  }

  /** The number of enemies an attack kills. */
  function Felled(pr: Rect, fs: seq<Foe>): (n: nat)
    ensures n <= |fs|
  {
    if fs == [] then 0
    else Felled(pr, fs[..|fs| - 1]) + (if Fells(pr, fs[|fs| - 1]) then 1 else 0)
  }

  /** The number of live enemies. */
  function Living(fs: seq<Foe>): (n: nat)
    ensures n <= |fs|
  {
    if fs == [] then 0
    else Living(fs[..|fs| - 1]) + (if fs[|fs| - 1].alive then 1 else 0)
  }

  /** The attack pass, enemy by enemy. */
  function StrikeAll(pr: Rect, fs: seq<Foe>): (gs: seq<Foe>)
    ensures |gs| == |fs|
    ensures forall i :: 0 <= i < |fs| ==> gs[i] == Strike(pr, fs[i])
  {
    seq(|fs|, i requires 0 <= i < |fs| => Strike(pr, fs[i]))
  }

  /** An attack never revives an enemy, and the live enemies it leaves are
      exactly those there were less the ones it killed. */
  lemma {:induction false} StrikeKills(pr: Rect, fs: seq<Foe>)
    ensures Living(StrikeAll(pr, fs)) == Living(fs) - Felled(pr, fs)
    ensures forall i :: 0 <= i < |fs| && !fs[i].alive ==> !StrikeAll(pr, fs)[i].alive
  {
    if fs != [] {
      var n := |fs| - 1;
      StrikeKills(pr, fs[..n]);
      assert StrikeAll(pr, fs)[..n] == StrikeAll(pr, fs[..n]);
    }
  }

  // ------------------------------------------------------------ contact

  /** The part of the player that contact with enemies reads and changes. */
  datatype Brawl = Brawl(velY: real, health: int, alive: bool, score: int)

  /** Coming down onto the enemy from above: falling, and the bottom edge
      was at or above the enemy's top before this tick's fall. */
  predicate Stomps(b: Brawl, pr: Rect, f: Foe) {
    b.velY > 0.0 && pr.Bottom() as real - b.velY <= f.rect.Top() as real
  }

  /** Contact with one enemy: a stomp kills it, bounces the player and
      scores; any other contact with a live enemy costs health and, once
      health is gone, the player's life. */
  function Clash(b: Brawl, pr: Rect, f: Foe): (r: (Brawl, Foe))
    ensures r.1 == (if f.alive && Collide(pr, f.rect) && Stomps(b, pr, f) then f.(alive := false) else f)
    ensures !(f.alive && Collide(pr, f.rect)) ==> r.0 == b
    ensures f.alive && Collide(pr, f.rect) && Stomps(b, pr, f) ==>
              r.0 == b.(velY := JumpPower as real, score := b.score + KillScore)
    ensures f.alive && Collide(pr, f.rect) && !Stomps(b, pr, f) ==>
              && r.0.health == b.health - ContactDamage
              && r.0.alive == (b.alive && r.0.health > 0)
              && r.0.velY == b.velY && r.0.score == b.score
  {
    if f.alive && Collide(pr, f.rect) then
      if Stomps(b, pr, f) then
        (b.(velY := JumpPower as real, score := b.score + KillScore), f.(alive := false))
      else
        var h := b.health - ContactDamage;
        (b.(health := h, alive := if h <= 0 then false else b.alive), f)
    else (b, f)
  }

  /** The player after contact with every enemy in turn. */
  function ClashAll(b: Brawl, pr: Rect, fs: seq<Foe>): Brawl
  {
    if fs == [] then b
    else Clash(ClashAll(b, pr, fs[..|fs| - 1]), pr, fs[|fs| - 1]).0
  }

  /** A stomp bounces the player upward, so one pass stomps at most one
      enemy: the score rises by nothing or by one kill, and when it rises
      the player is moving up at the jump speed. */
  lemma {:induction false} OneStompPerTick(b: Brawl, pr: Rect, fs: seq<Foe>)
    ensures var r := ClashAll(b, pr, fs);
            && (r.score == b.score || r.score == b.score + KillScore)
            && (r.score == b.score + KillScore ==> r.velY == JumpPower as real)
            && (r.score == b.score ==> r.velY == b.velY)
  {
    if fs != [] {
      OneStompPerTick(b, pr, fs[..|fs| - 1]);
    }
  }

  /** Contact only ever costs health, two points at a time, and the player
      loses its life in the pass exactly when it was alive, was hit, and
      has no health left after it. */
  lemma {:induction false} ContactToll(b: Brawl, pr: Rect, fs: seq<Foe>)
    ensures var r := ClashAll(b, pr, fs);
            && r.health <= b.health
            && (b.health - r.health) % ContactDamage == 0
            && (r.alive <==> b.alive && !(r.health < b.health && r.health <= 0))
  {
    if fs != [] {
      ContactToll(b, pr, fs[..|fs| - 1]);
    }
  }

  /** Every enemy after contact with the player, each seen by the player
      as left by the contacts before it. */
  function ClashFoes(b: Brawl, pr: Rect, fs: seq<Foe>): (gs: seq<Foe>)
    ensures |gs| == |fs|
    ensures forall j {:trigger gs[j]} :: 0 <= j < |fs| ==> gs[j] == Clash(ClashAll(b, pr, fs[..j]), pr, fs[j]).1
  {
    seq(|fs|, j requires 0 <= j < |fs| => Clash(ClashAll(b, pr, fs[..j]), pr, fs[j]).1)
  }

  /** The patrol step of one enemy placed at originalX with the given range:
      a live enemy sways and counts its attack cooldown down; a dead one
      stays as it is. */
  function Patrol(f: Foe, originalX: int, patrolRange: int): (g: Foe)
    ensures g.health == f.health && g.alive == f.alive && g.rect.y == f.rect.y
    ensures !f.alive ==> g == f
    ensures 0 <= f.cooldown ==> 0 <= g.cooldown <= f.cooldown
    ensures f.alive ==> (g.rect.x, g.velX) == Sway(f.rect.x, f.velX, originalX, patrolRange)
    ensures g.rect == f.rect.(x := g.rect.x)
  {
    if f.alive then
      var (x, v) := Sway(f.rect.x, f.velX, originalX, patrolRange);
      f.(rect := f.rect.(x := x), velX := v, cooldown := if f.cooldown > 0 then f.cooldown - 1 else f.cooldown)
    else f
  }

  /** The patrol step of every enemy; es gives each one's placement. */
  function Patrolled(es: seq<Enemy>, fs: seq<Foe>): (gs: seq<Foe>)
    requires |es| == |fs|
    ensures |gs| == |fs|
    ensures forall i :: 0 <= i < |fs| ==> gs[i] == Patrol(fs[i], es[i].originalX, es[i].patrolRange)
  {
    seq(|fs|, i requires 0 <= i < |fs| => Patrol(fs[i], es[i].originalX, es[i].patrolRange))
  }

  /** The player's attack when `attacking`, on values: the player's state,
      the enemies, and the number of kills. */
  function Attacked(attacking: bool, pr: Rect, b: Brawl, fs: seq<Foe>): (Brawl, seq<Foe>, nat)
  {
    if attacking then
      var kills := Felled(pr, fs);
      (b.(score := b.score + KillScore * kills), StrikeAll(pr, fs), kills)
    else (b, fs, 0)
  }

  /** The enemies' part of a tick on values: the patrol step, the attack
      when `attacking`, then contact. It gives the player's state, the
      enemies, the number of enemies the attack kills (each emits a burst
      of KillBurst particles), and the lifetimes of the particles a stomp
      emits. */
  function Fray(attacking: bool, pr: Rect, b: Brawl, es: seq<Enemy>, fs: seq<Foe>): (Brawl, seq<Foe>, nat, seq<int>)
    requires |es| == |fs|
  {
    var (b1, struck, kills) := Attacked(attacking, pr, b, Patrolled(es, fs));
    var (b2, gs, burst) := Melee(b1, pr, struck);
    (b2, gs, kills, burst)
  }

  /** Contact with every enemy in turn, on values: the player's state, the
      enemies, and the lifetimes of the particles a stomp emits. */
  function Melee(b: Brawl, pr: Rect, fs: seq<Foe>): (Brawl, seq<Foe>, seq<int>)
  {
    var b2 := ClashAll(b, pr, fs);
    (b2, ClashFoes(b, pr, fs), if b2.score > b.score then KillBurst else [])
  }

  // ------------------------------------------------------------ checkpoints

  /** A checkpoint the player reaches this tick and has not reached before. */
  predicate Reached(pr: Rect, cr: Rect, activated: bool) {
    Collide(pr, cr) && !activated
  }

  /** The respawn anchor after visiting the checkpoints in turn: the centre
      of the last one newly reached, or the old anchor if there is none. */
  function Raise(anchor: (int, int), pr: Rect, cs: seq<(Rect, bool)>): (int, int)
  {
    if cs == [] then anchor
    else
      var c := cs[|cs| - 1];
      if Reached(pr, c.0, c.1) then (c.0.CenterX(), c.0.CenterY())
      else Raise(anchor, pr, cs[..|cs| - 1])
  }

  /** The number of checkpoints newly reached. */
  function Newly(pr: Rect, cs: seq<(Rect, bool)>): (n: nat)
    ensures n <= |cs|
  {
    if cs == [] then 0
    else Newly(pr, cs[..|cs| - 1]) + (if Reached(pr, cs[|cs| - 1].0, cs[|cs| - 1].1) then 1 else 0)
  }

  /** Each count is zero exactly when nothing qualifies: no enemy the
      attack kills, no live enemy, no checkpoint newly reached. */
  lemma {:induction false} NoneCounted(pr: Rect, fs: seq<Foe>, cs: seq<(Rect, bool)>)
    ensures Felled(pr, fs) == 0 <==> forall i :: 0 <= i < |fs| ==> !Fells(pr, fs[i])
    ensures Living(fs) == 0 <==> forall i :: 0 <= i < |fs| ==> !fs[i].alive
    ensures Newly(pr, cs) == 0 <==> forall i :: 0 <= i < |cs| ==> !Reached(pr, cs[i].0, cs[i].1)
  {
    if fs != [] {
      var n := |fs| - 1;
      NoneCounted(pr, fs[..n], cs);
      assert forall i :: 0 <= i < n ==> fs[..n][i] == fs[i];
    }
    if cs != [] {
      var n := |cs| - 1;
      NoneCounted(pr, fs, cs[..n]);
      assert forall i :: 0 <= i < n ==> cs[..n][i] == cs[i];
    }
  }

  /** The last checkpoint of cs that the player newly reaches is at i. */
  predicate LastReached(pr: Rect, cs: seq<(Rect, bool)>, i: nat)
    requires i < |cs|
  {
    Reached(pr, cs[i].0, cs[i].1) && forall j :: i < j < |cs| ==> !Reached(pr, cs[j].0, cs[j].1)
  }

  /** The anchor moves only by reaching a checkpoint, and then to the centre
      of the last one newly reached. */
  lemma {:induction false} AnchorFromCheckpoint(anchor: (int, int), pr: Rect, cs: seq<(Rect, bool)>)
    ensures Newly(pr, cs) == 0 ==> Raise(anchor, pr, cs) == anchor
    ensures Newly(pr, cs) > 0 ==>
              exists i :: 0 <= i < |cs| && LastReached(pr, cs, i) &&
                Raise(anchor, pr, cs) == (cs[i].0.CenterX(), cs[i].0.CenterY())
  {
    if cs != [] {
      var n := |cs| - 1;
      AnchorFromCheckpoint(anchor, pr, cs[..n]);
      if Reached(pr, cs[n].0, cs[n].1) {
        assert LastReached(pr, cs, n);
      } else if Newly(pr, cs) > 0 {
        var i :| 0 <= i < n && LastReached(pr, cs[..n], i) &&
                 Raise(anchor, pr, cs[..n]) == (cs[..n][i].0.CenterX(), cs[..n][i].0.CenterY());
        assert cs[i] == cs[..n][i];
        forall j | i < j < |cs|
          ensures !Reached(pr, cs[j].0, cs[j].1)
        {
          if j < n {
            assert cs[j] == cs[..n][j];
          }
        }
        assert LastReached(pr, cs, i);
      }
    }
  }

  // ------------------------------------------------------------ camera

  /** Where the camera aims: a third of the screen behind the player's
      centre, kept within the level. */
  function CameraTarget(centerX: int): (t: int)
    ensures 0 <= t <= LevelWidth - ScreenWidth
    ensures 0 <= centerX - ScreenWidth / 3 <= LevelWidth - ScreenWidth ==> t == centerX - ScreenWidth / 3
    ensures centerX - ScreenWidth / 3 < 0 ==> t == 0
    ensures centerX - ScreenWidth / 3 > LevelWidth - ScreenWidth ==> t == LevelWidth - ScreenWidth
  {
    Min(Max(0, centerX - ScreenWidth / 3), LevelWidth - ScreenWidth)
  }

  /** The camera closes a tenth of the gap to its target each tick. */
  function Ease(camera: real, target: int): (c: real)
    ensures camera <= target as real ==> camera <= c <= target as real
    ensures target as real <= camera ==> target as real <= c <= camera
    ensures c - target as real == (camera - target as real) * 0.9
  {
    camera + (target as real - camera) * 0.1
  }

  // ------------------------------------------------------------ particles

  ghost function Lifetimes(ps: seq<Particle>): (ls: seq<int>)
    reads ps
    ensures |ls| == |ps|
  {
    seq(|ps|, i requires 0 <= i < |ps| reads ps => ps[i].lifetime)
  }

  ghost predicate Distinct<T>(s: seq<T>) {
    forall i, j :: 0 <= i < j < |s| ==> s[i] != s[j]
  }

  ghost function CheckpointViews(cs: seq<Checkpoint>): (vs: seq<(Rect, bool)>)
    reads cs
    ensures |vs| == |cs|
    ensures forall i :: 0 <= i < |cs| ==> vs[i] == (cs[i].rect, cs[i].activated)
  {
    seq(|cs|, i requires 0 <= i < |cs| reads cs => (cs[i].rect, cs[i].activated))
  }

  ghost function Foes(es: seq<Enemy>): (fs: seq<Foe>)
    reads es
    ensures |fs| == |es|
    ensures forall i :: 0 <= i < |es| ==> fs[i] == FoeOf(es[i])
  {
    seq(|es|, i requires 0 <= i < |es| reads es => FoeOf(es[i]))
  }

  function PlatformRects(ps: seq<Platform>): (rs: seq<Rect>)
    reads ps
    ensures |rs| == |ps|
    ensures forall i :: 0 <= i < |ps| ==> rs[i] == ps[i].rect
  {
    seq(|ps|, i requires 0 <= i < |ps| reads ps => ps[i].rect)
  }

  /** Platform p has taken its step since the start of the enclosing method. */
  twostate predicate PlatformStepped(p: Platform)
    reads p
  {
    && p.rect.y == old(p.rect.y) && p.rect.w == old(p.rect.w) && p.rect.h == old(p.rect.h)
    && (p.moving ==> (p.rect.x, 2 * p.moveDirection) == Sway(old(p.rect.x), 2 * old(p.moveDirection), p.originalX, p.moveRange))
    && (!p.moving ==> p.rect == old(p.rect) && p.moveDirection == old(p.moveDirection))
  }

  /** Enemy e has taken its patrol step since the start of the enclosing method. */
  twostate predicate EnemyStepped(e: Enemy)
    reads e
  {
    && e.rect.y == old(e.rect.y) && e.rect.w == old(e.rect.w) && e.rect.h == old(e.rect.h)
    && e.health == old(e.health) && e.alive == old(e.alive)
    && (old(e.alive) ==> (e.rect.x, e.velX) == Sway(old(e.rect.x), old(e.velX), e.originalX, e.patrolRange))
    && (old(e.alive) ==> e.attackCooldown == if old(e.attackCooldown) > 0 then old(e.attackCooldown) - 1 else old(e.attackCooldown))
    && (!old(e.alive) ==> e.rect == old(e.rect) && e.velX == old(e.velX) && e.attackCooldown == old(e.attackCooldown))
  }

  /** Separate platforms, each swaying within its band. */
  ghost predicate PlatformsValid(ps: seq<Platform>)
    reads ps
  {
    Distinct(ps) && forall i :: 0 <= i < |ps| ==> ps[i].Valid()
  }

  /** Separate enemies, each in a valid state. */
  ghost predicate EnemiesValid(es: seq<Enemy>)
    reads es
  {
    Distinct(es) && forall i :: 0 <= i < |es| ==> es[i].Valid()
  }

  class Level {
    const player: Player
    const platforms: seq<Platform>
    const spikes: seq<Rect>
    var coins: seq<Rect>
    var collectibles: seq<Rect>
    const enemies: seq<Enemy>
    const checkpoints: seq<Checkpoint>
    const goal: Rect
    var particles: seq<Particle>
    var cameraX: real

    /** Every entity is a separate object in a valid state. */
    ghost predicate Valid()
      reads this, player, platforms, enemies, checkpoints, particles
    {
      && player.Valid()
      && PlatformsValid(platforms)
      && EnemiesValid(enemies)
      && Distinct(checkpoints)
      && Distinct(particles)
    }

    /** A level from the placements its generator chose. */
    constructor (player: Player, platforms: seq<Platform>, spikes: seq<Rect>, coins: seq<Rect>,
                 collectibles: seq<Rect>, enemies: seq<Enemy>, checkpoints: seq<Checkpoint>, goal: Rect)
      requires player.Valid() && PlatformsValid(platforms) && EnemiesValid(enemies)
      requires Distinct(checkpoints)
      ensures Valid()
      ensures this.player == player && this.platforms == platforms && this.spikes == spikes
      ensures this.coins == coins && this.collectibles == collectibles
      ensures this.enemies == enemies && this.checkpoints == checkpoints && this.goal == goal
      ensures particles == [] && cameraX == 0.0
    {
      this.player := player;
      this.platforms := platforms;
      this.spikes := spikes;
      this.coins := coins;
      this.collectibles := collectibles;
      this.enemies := enemies;
      this.checkpoints := checkpoints;
      this.goal := goal;
      particles := [];
      cameraX := 0.0;
    }

    /** New particles, one per lifetime, appended after the existing ones. */
    method Spawn(lifetimes: seq<int>)
      requires Distinct(particles)
      modifies this`particles
      ensures Distinct(particles)
      ensures |particles| == |old(particles)| + |lifetimes|
      ensures particles[..|old(particles)|] == old(particles)
      ensures forall i :: |old(particles)| <= i < |particles| ==> fresh(particles[i])
      ensures Lifetimes(particles) == old(Lifetimes(particles)) + lifetimes
    {
      ghost var before := Lifetimes(particles);
      for i := 0 to |lifetimes|
        invariant Distinct(particles)
        invariant |particles| == |old(particles)| + i
        invariant particles[..|old(particles)|] == old(particles)
        invariant forall j :: |old(particles)| <= j < |particles| ==> fresh(particles[j])
        invariant Lifetimes(particles) == before + lifetimes[..i]
      {
        ghost var ls := Lifetimes(particles);
        var p := new Particle(lifetimes[i]);
        assert Lifetimes(particles) == ls;
        assert Lifetimes(particles + [p]) == ls + [p.lifetime];
        assert lifetimes[..i + 1] == lifetimes[..i] + [lifetimes[i]];
        particles := particles + [p];
      }
      assert lifetimes[..|lifetimes|] == lifetimes;
    }

    /** Every particle ages by one tick, and those whose lifetime runs out
        are removed, the others keeping their order. */
    method AgeParticles()
      requires Distinct(particles)
      modifies this`particles, particles
      ensures Distinct(particles)
      ensures forall i :: 0 <= i < |particles| ==> particles[i] in old(particles)
      ensures Lifetimes(particles) == Aged(old(Lifetimes(particles)))
    {
      ghost var before := Lifetimes(particles);
      ghost var all := particles;
      ghost var idx := Survivors(before);
      var kept := AgeEach(particles);
      KeptSelects(all, before);
      forall k | 0 <= k < |kept|
        ensures kept[k] == all[idx[k]] && kept[k].lifetime == Aged(before)[k]
      {
      }
      forall k, l | 0 <= k < l < |kept|
        ensures kept[k] != kept[l]
      {
        assert idx[k] < idx[l];
      }
      particles := kept;
    }

    /** Every platform takes its step. */
    method MovePlatforms()
      requires PlatformsValid(platforms)
      modifies platforms
      ensures PlatformsValid(platforms)
      ensures forall i :: 0 <= i < |platforms| ==> PlatformStepped(platforms[i])
      ensures unchanged(particles) && unchanged(enemies) && unchanged(checkpoints) && unchanged(player)
    {
      for i := 0 to |platforms|
        invariant PlatformsValid(platforms)
        invariant forall j :: 0 <= j < i ==> PlatformStepped(platforms[j])
        invariant forall j :: i <= j < |platforms| ==> unchanged(platforms[j])
      {
        platforms[i].Update();
      }
    }

    /** Every enemy takes its patrol step. */
    method MoveEnemies()
      requires EnemiesValid(enemies)
      modifies enemies
      ensures EnemiesValid(enemies)
      ensures forall i :: 0 <= i < |enemies| ==> EnemyStepped(enemies[i])
      ensures Foes(enemies) == Patrolled(enemies, old(Foes(enemies)))
      ensures unchanged(particles) && unchanged(player)
    {
      ghost var foes := Foes(enemies);
      for i := 0 to |enemies|
        invariant EnemiesValid(enemies)
        invariant forall j :: 0 <= j < i ==> EnemyStepped(enemies[j])
        invariant forall j :: i <= j < |enemies| ==> unchanged(enemies[j])
      {
        enemies[i].Update();
      }
      forall i | 0 <= i < |enemies|
        ensures FoeOf(enemies[i]) == Patrol(foes[i], enemies[i].originalX, enemies[i].patrolRange)
      {
        assert foes[i] == old(FoeOf(enemies[i]));
      }
    }

    /** The player's attack, enemy by enemy: every kill scores and bursts
        into particles. Nothing in the pass reads the score or the
        particles, so both are updated once the kills are counted. */
    method PlayerAttacks()
      requires EnemiesValid(enemies) && Distinct(particles)
      modifies enemies, player`score, this`particles
      ensures EnemiesValid(enemies) && Distinct(particles)
      ensures Foes(enemies) == StrikeAll(player.rect, old(Foes(enemies)))
      ensures forall j :: 0 <= j < |enemies| && !old(enemies[j].alive) ==> !enemies[j].alive
      ensures player.score == old(player.score) + KillScore * Felled(player.rect, old(Foes(enemies)))
      ensures Lifetimes(particles) == old(Lifetimes(particles)) + Repeat(KillBurst, Felled(player.rect, old(Foes(enemies))))
      ensures forall i :: 0 <= i < |particles| ==> particles[i] in old(particles) || fresh(particles[i])
    {
      var kills := StrikeEach(player.rect);
      ghost var foes := Foes(enemies);
      player.score := player.score + KillScore * kills;
      Spawn(Repeat(KillBurst, kills));
      assert Foes(enemies) == foes;
    }

    /** The loop of PlayerAttacks, from the player's rectangle pr; it
        returns the number of enemies killed. */
    method StrikeEach(pr: Rect) returns (kills: nat)
      requires EnemiesValid(enemies)
      modifies enemies
      ensures EnemiesValid(enemies)
      ensures Foes(enemies) == StrikeAll(pr, old(Foes(enemies)))
      ensures kills == Felled(pr, old(Foes(enemies)))
    {
      ghost var foes := Foes(enemies);
      kills := 0;
      for i := 0 to |enemies|
        invariant EnemiesValid(enemies)
        invariant forall j :: 0 <= j < i ==> FoeOf(enemies[j]) == Strike(pr, foes[j])
        invariant forall j :: i <= j < |enemies| ==> FoeOf(enemies[j]) == foes[j]
        invariant kills == Felled(pr, foes[..i])
      {
        assert foes[..i + 1][..i] == foes[..i];
        var killed := AttackAt(i, pr);
        if killed {
          kills := kills + 1;
        }
      }
      assert foes[..|enemies|] == foes;
    }

    /** The player's attack, from rectangle pr, against the enemy at
        position i; the result says whether it killed the enemy. */
    method AttackAt(i: nat, pr: Rect) returns (killed: bool)
      requires i < |enemies| && EnemiesValid(enemies)
      modifies enemies[i]
      ensures EnemiesValid(enemies)
      ensures FoeOf(enemies[i]) == Strike(pr, old(FoeOf(enemies[i])))
      ensures forall j :: 0 <= j < |enemies| && j != i ==> FoeOf(enemies[j]) == old(FoeOf(enemies[j]))
      ensures killed == Fells(pr, old(FoeOf(enemies[i])))
    {
      killed := false;
      var e := enemies[i];
      if e.alive && InReach(pr, e.rect) {
        killed := e.TakeDamage(1);
        if killed {
          var _ := e.KillEnemy();
        } else {
          e.Attack();
        }
      }
    }

    /** Contact with every enemy in turn: stomps kill, bounce the player and
        burst into particles; other contact costs health. */
    method EnemyContacts()
      requires EnemiesValid(enemies) && Distinct(particles) && player.Valid()
      modifies enemies, player`velY, player`health, player`alive, player`score, this`particles
      ensures EnemiesValid(enemies) && Distinct(particles) && player.Valid()
      ensures var (b, fs, burst) := Melee(old(BrawlOf(player)), player.rect, old(Foes(enemies)));
              && BrawlOf(player) == b && Foes(enemies) == fs
              && Lifetimes(particles) == old(Lifetimes(particles)) + burst
      ensures player.score >= old(player.score)
      ensures forall j :: 0 <= j < |enemies| && !old(enemies[j].alive) ==> !enemies[j].alive
      ensures forall i :: 0 <= i < |particles| ==> particles[i] in old(particles) || fresh(particles[i])
    {
      ghost var b0, foes := BrawlOf(player), Foes(enemies);
      var stomps := ContactEach(player.rect);
      OneStompPerTick(b0, player.rect, foes);
      Spawn(Repeat(KillBurst, stomps));
    }

    /** The loop of EnemyContacts, from the player's rectangle pr; it
        returns the number of enemies stomped. */
    method ContactEach(pr: Rect) returns (stomps: nat)
      requires EnemiesValid(enemies) && player.Valid() && player.rect == pr
      modifies enemies, player`velY, player`health, player`alive, player`score
      ensures EnemiesValid(enemies) && player.Valid()
      ensures BrawlOf(player) == ClashAll(old(BrawlOf(player)), pr, old(Foes(enemies)))
      ensures forall j :: 0 <= j < |enemies| ==>
                FoeOf(enemies[j]) == Clash(ClashAll(old(BrawlOf(player)), pr, old(Foes(enemies))[..j]), pr, old(Foes(enemies))[j]).1
      ensures player.score == old(player.score) + KillScore * stomps
    {
      ghost var foes := Foes(enemies);
      ghost var b0 := BrawlOf(player);
      stomps := 0;
      for i := 0 to |enemies|
        invariant EnemiesValid(enemies) && player.Valid() && player.rect == pr
        invariant BrawlOf(player) == ClashAll(b0, pr, foes[..i])
        invariant forall j :: 0 <= j < |enemies| ==>
                    FoeOf(enemies[j]) == if j < i then Clash(ClashAll(b0, pr, foes[..j]), pr, foes[j]).1 else foes[j]
        invariant player.score == b0.score + KillScore * stomps
      {
        var stomped := ContactAt(i, pr, b0, foes);
        if stomped {
          stomps := stomps + 1;
        }
      }
      assert foes[..|enemies|] == foes;
    }

    /** Contact between the player, at rectangle pr, and the enemy at
        position i, after the contacts with the enemies before it, which
        started from b0 against the enemies foes; it tells whether the
        player stomped the enemy. */
    method ContactAt(i: nat, pr: Rect, ghost b0: Brawl, ghost foes: seq<Foe>) returns (stomped: bool)
      requires i < |enemies| == |foes| && EnemiesValid(enemies) && player.Valid() && player.rect == pr
      requires BrawlOf(player) == ClashAll(b0, pr, foes[..i]) && FoeOf(enemies[i]) == foes[i]
      modifies enemies[i], player`velY, player`health, player`alive, player`score
      ensures EnemiesValid(enemies) && player.Valid()
      ensures BrawlOf(player) == ClashAll(b0, pr, foes[..i + 1])
      ensures FoeOf(enemies[i]) == Clash(ClashAll(b0, pr, foes[..i]), pr, foes[i]).1
      ensures forall j :: 0 <= j < |enemies| && j != i ==> FoeOf(enemies[j]) == old(FoeOf(enemies[j]))
      ensures player.score == old(player.score) + (if stomped then KillScore else 0)
    {
      assert foes[..i + 1][..i] == foes[..i];
      stomped := false;
      var e := enemies[i];
      if e.alive && Collide(player.rect, e.rect) {
        if player.velY > 0.0 && player.rect.Bottom() as real - player.velY <= e.rect.Top() as real {
          var _ := e.KillEnemy();
          player.velY := JumpPower as real;
          player.score := player.score + KillScore;
          stomped := true;
        } else if e.alive {
          player.health := player.health - ContactDamage;
          if player.health <= 0 {
            player.alive := false;
          }
        }
      }
    }

    /** Every checkpoint the player touches that was not yet activated is
        activated, moves the respawn anchor to its centre and bursts into
        particles. */
    method VisitCheckpoints()
      requires Valid()
      modifies checkpoints, player`checkpointX, player`checkpointY, this`particles
      ensures Valid()
      ensures forall j :: 0 <= j < |checkpoints| ==>
                checkpoints[j].activated == (old(checkpoints[j].activated) || Collide(player.rect, checkpoints[j].rect))
      ensures (player.checkpointX, player.checkpointY)
                == Raise(old((player.checkpointX, player.checkpointY)), player.rect, old(CheckpointViews(checkpoints)))
      ensures Lifetimes(particles)
                == old(Lifetimes(particles)) + Repeat(CheckpointBurst, Newly(player.rect, old(CheckpointViews(checkpoints))))
      ensures forall i :: 0 <= i < |particles| ==> particles[i] in old(particles) || fresh(particles[i])
      ensures unchanged(enemies) && BrawlOf(player) == old(BrawlOf(player))
    {
      var reached := ReachEach(player.rect);
      Spawn(Repeat(CheckpointBurst, reached));
    }

    /** The loop of VisitCheckpoints, from the player's rectangle pr,
        counting the checkpoints newly reached. */
    method ReachEach(pr: Rect) returns (reached: nat)
      requires Distinct(checkpoints)
      modifies checkpoints, player`checkpointX, player`checkpointY
      ensures forall j :: 0 <= j < |checkpoints| ==>
                checkpoints[j].activated == (old(checkpoints[j].activated) || Collide(pr, checkpoints[j].rect))
      ensures (player.checkpointX, player.checkpointY)
                == Raise(old((player.checkpointX, player.checkpointY)), pr, old(CheckpointViews(checkpoints)))
      ensures reached == Newly(pr, old(CheckpointViews(checkpoints)))
    {
      ghost var views := CheckpointViews(checkpoints);
      ghost var anchor := (player.checkpointX, player.checkpointY);
      reached := 0;
      for i := 0 to |checkpoints|
        invariant forall j :: 0 <= j < |checkpoints| ==>
                    checkpoints[j].activated == (views[j].1 || (j < i && Collide(pr, views[j].0)))
        invariant (player.checkpointX, player.checkpointY) == Raise(anchor, pr, views[..i])
        invariant reached == Newly(pr, views[..i])
      {
        assert views[..i + 1][..i] == views[..i];
        var newly := ReachAt(i, pr);
        if newly {
          reached := reached + 1;
        }
      }
      assert views[..|checkpoints|] == views;
    }

    /** Visiting checkpoint i: a newly reached one is activated and becomes
        the respawn anchor. */
    method ReachAt(i: nat, pr: Rect) returns (newly: bool)
      requires i < |checkpoints| && Distinct(checkpoints)
      modifies checkpoints[i], player`checkpointX, player`checkpointY
      ensures newly == Reached(pr, checkpoints[i].rect, old(checkpoints[i].activated))
      ensures checkpoints[i].activated == (old(checkpoints[i].activated) || Collide(pr, checkpoints[i].rect))
      ensures forall j :: 0 <= j < |checkpoints| && j != i ==> checkpoints[j].activated == old(checkpoints[j].activated)
      ensures (player.checkpointX, player.checkpointY)
                == if newly then (checkpoints[i].rect.CenterX(), checkpoints[i].rect.CenterY())
                   else old((player.checkpointX, player.checkpointY))
    {
      var c := checkpoints[i];
      newly := Collide(pr, c.rect) && !c.activated;
      if newly {
        c.Activate();
        var _ := player.SetCheckpoint(c.rect.CenterX(), c.rect.CenterY());
      }
    }

    /** The camera eases toward its target. */
    method UpdateCamera()
      requires Valid()
      modifies this`cameraX
      ensures Valid()
      ensures cameraX == Ease(old(cameraX), CameraTarget(player.rect.CenterX()))
    {
      var target := Max(0, player.rect.CenterX() - ScreenWidth / 3);
      target := Min(target, LevelWidth - ScreenWidth);
      cameraX := cameraX + (target as real - cameraX) * 0.1;
    }

    /** What follows the player's step: death respawns the player at the
        checkpoint anchor, alive again; reaching the goal wins. */
    method Settle(outcome: Outcome) returns (won: bool)
      requires player.Valid() && Distinct(particles)
      modifies player, this`particles
      ensures player.Valid() && Distinct(particles)
      ensures won <==> outcome == Goal
      ensures outcome == Dead ==>
                && player.rect == old(player.rect).(x := player.checkpointX, y := player.checkpointY)
                && player.velX == 0 && player.velY == 0.0 && player.health == RespawnHealth && player.alive
                && player.crystals == old(player.crystals) && player.facingRight == old(player.facingRight)
                && player.onGround == old(player.onGround) && player.onWall == old(player.onWall)
                && player.wallSide == old(player.wallSide)
                && Lifetimes(particles) == old(Lifetimes(particles)) + RespawnBurst
      ensures outcome != Dead ==> unchanged(player) && particles == old(particles)
      ensures player.score == old(player.score) && player.coins == old(player.coins)
      ensures player.checkpointX == old(player.checkpointX) && player.checkpointY == old(player.checkpointY)
      ensures forall i :: 0 <= i < |particles| ==> particles[i] in old(particles) || fresh(particles[i])
    {
      won := false;
      if outcome == Dead {
        var burst := player.Respawn();
        Spawn(burst);
        player.alive := true;
      } else if outcome == Goal {
        won := true;
      }
    }

    /** The enemies' part of a tick: their patrol step, the player's attack
        when the attack key is held, then contact with the player. */
    method Fight(attacking: bool)
      requires EnemiesValid(enemies) && Distinct(particles) && player.Valid()
      modifies enemies, player`velY, player`health, player`alive, player`score, this`particles
      ensures EnemiesValid(enemies) && Distinct(particles) && player.Valid()
      ensures var (b, fs, kills, burst) := Fray(attacking, player.rect, old(BrawlOf(player)), enemies, old(Foes(enemies)));
              && BrawlOf(player) == b && Foes(enemies) == fs
              && Lifetimes(particles) == old(Lifetimes(particles)) + Repeat(KillBurst, kills) + burst
      ensures player.score >= old(player.score)
      ensures forall j :: 0 <= j < |enemies| && !old(enemies[j].alive) ==> !enemies[j].alive
      ensures forall i :: 0 <= i < |particles| ==> particles[i] in old(particles) || fresh(particles[i])
    {
      ghost var (b1, struck, kills) := Attacked(attacking, player.rect, BrawlOf(player), Patrolled(enemies, Foes(enemies)));
      Assault(attacking);
      assert BrawlOf(player) == b1 && Foes(enemies) == struck;
      EnemyContacts();
    }

    /** The patrol step of every enemy, then the player's attack when the
        attack key is held. */
    method Assault(attacking: bool)
      requires EnemiesValid(enemies) && Distinct(particles)
      modifies enemies, player`score, this`particles
      ensures EnemiesValid(enemies) && Distinct(particles)
      ensures var (b, fs, kills) := Attacked(attacking, player.rect, old(BrawlOf(player)), Patrolled(enemies, old(Foes(enemies))));
              && BrawlOf(player) == b && Foes(enemies) == fs
              && Lifetimes(particles) == old(Lifetimes(particles)) + Repeat(KillBurst, kills)
      ensures forall j :: 0 <= j < |enemies| && !old(enemies[j].alive) ==> !enemies[j].alive
      ensures forall i :: 0 <= i < |particles| ==> particles[i] in old(particles) || fresh(particles[i])
    {
      MoveEnemies();
      AttackIf(attacking);
    }

    /** The player's attack, when the attack key is held. */
    method AttackIf(attacking: bool)
      requires EnemiesValid(enemies) && Distinct(particles)
      modifies enemies, player`score, this`particles
      ensures EnemiesValid(enemies) && Distinct(particles)
      ensures var (b, fs, kills) := Attacked(attacking, player.rect, old(BrawlOf(player)), old(Foes(enemies)));
              && BrawlOf(player) == b && Foes(enemies) == fs
              && Lifetimes(particles) == old(Lifetimes(particles)) + Repeat(KillBurst, kills)
      ensures forall j :: 0 <= j < |enemies| && !old(enemies[j].alive) ==> !enemies[j].alive
      ensures forall i :: 0 <= i < |particles| ==> particles[i] in old(particles) || fresh(particles[i])
    {
      if attacking {
        PlayerAttacks();
      }
    }

    /** The part of a tick between input and the player's own step:
        platforms, enemies, checkpoints and the camera. */
    method Engage(attacking: bool)
      requires Valid()
      modifies platforms, enemies, checkpoints, this`particles, this`cameraX
      modifies player`velY, player`health, player`alive, player`score, player`checkpointX, player`checkpointY
      ensures Valid()
      ensures forall j :: 0 <= j < |platforms| ==> PlatformStepped(platforms[j])
      ensures var (b, fs, kills, burst) := Fray(attacking, player.rect, old(BrawlOf(player)), enemies, old(Foes(enemies)));
              && BrawlOf(player) == b && Foes(enemies) == fs
              && Lifetimes(particles) == old(Lifetimes(particles)) + Repeat(KillBurst, kills) + burst
                   + Repeat(CheckpointBurst, Newly(player.rect, old(CheckpointViews(checkpoints))))
      ensures forall j :: 0 <= j < |checkpoints| ==>
                checkpoints[j].activated == (old(checkpoints[j].activated) || Collide(player.rect, checkpoints[j].rect))
      ensures (player.checkpointX, player.checkpointY)
                == Raise(old((player.checkpointX, player.checkpointY)), player.rect, old(CheckpointViews(checkpoints)))
      ensures cameraX == Ease(old(cameraX), CameraTarget(player.rect.CenterX()))
      ensures Pose(player) == old(Pose(player))
      ensures player.score >= old(player.score)
      ensures forall j :: 0 <= j < |checkpoints| && old(checkpoints[j].activated) ==> checkpoints[j].activated
      ensures forall j :: 0 <= j < |enemies| && !old(enemies[j].alive) ==> !enemies[j].alive
      ensures forall i :: 0 <= i < |particles| ==> particles[i] in old(particles) || fresh(particles[i])
    {
      Stir(attacking);
      Survey();
    }

    /** Engage seen through what a tick keeps: the level stays valid, the
        player's pose is untouched, and score, activated checkpoints, dead
        enemies and existing particles are never taken back. */
    method Proceed(attacking: bool)
      requires Valid()
      modifies platforms, enemies, checkpoints, this`particles, this`cameraX
      modifies player`velY, player`health, player`alive, player`score, player`checkpointX, player`checkpointY
      ensures Valid()
      ensures Pose(player) == old(Pose(player))
      ensures player.score >= old(player.score)
      ensures forall j :: 0 <= j < |checkpoints| && old(checkpoints[j].activated) ==> checkpoints[j].activated
      ensures forall j :: 0 <= j < |enemies| && !old(enemies[j].alive) ==> !enemies[j].alive
      ensures forall i :: 0 <= i < |particles| ==> particles[i] in old(particles) || fresh(particles[i])
    {
      Engage(attacking);
    }

    /** The still part of Engage: the checkpoints, then the camera. */
    method Survey()
      requires Valid()
      modifies checkpoints, player`checkpointX, player`checkpointY, this`particles, this`cameraX
      ensures Valid()
      ensures forall j :: 0 <= j < |checkpoints| ==>
                checkpoints[j].activated == (old(checkpoints[j].activated) || Collide(player.rect, checkpoints[j].rect))
      ensures (player.checkpointX, player.checkpointY)
                == Raise(old((player.checkpointX, player.checkpointY)), player.rect, old(CheckpointViews(checkpoints)))
      ensures Lifetimes(particles)
                == old(Lifetimes(particles)) + Repeat(CheckpointBurst, Newly(player.rect, old(CheckpointViews(checkpoints))))
      ensures cameraX == Ease(old(cameraX), CameraTarget(player.rect.CenterX()))
      ensures forall i :: 0 <= i < |particles| ==> particles[i] in old(particles) || fresh(particles[i])
      ensures unchanged(enemies) && unchanged(platforms) && BrawlOf(player) == old(BrawlOf(player))
      ensures Pose(player) == old(Pose(player))
    {
      VisitCheckpoints();
      UpdateCamera();
    }

    /** The moving part of Engage: the platforms' step, then the enemies'. */
    method Stir(attacking: bool)
      requires Valid()
      modifies platforms, enemies, player`velY, player`health, player`alive, player`score, this`particles
      ensures Valid()
      ensures forall j :: 0 <= j < |platforms| ==> PlatformStepped(platforms[j])
      ensures var (b, fs, kills, burst) := Fray(attacking, player.rect, old(BrawlOf(player)), enemies, old(Foes(enemies)));
              && BrawlOf(player) == b && Foes(enemies) == fs
              && Lifetimes(particles) == old(Lifetimes(particles)) + Repeat(KillBurst, kills) + burst
      ensures player.score >= old(player.score)
      ensures forall j :: 0 <= j < |enemies| && !old(enemies[j].alive) ==> !enemies[j].alive
      ensures forall i :: 0 <= i < |particles| ==> particles[i] in old(particles) || fresh(particles[i])
      ensures unchanged(checkpoints) && Pose(player) == old(Pose(player))
    {
      MovePlatforms();
      Fight(attacking);
    }

    /** The player's physics step against the level; the pickups it leaves
        replace the level's and the particles they emit are spawned. */
    method Advance() returns (outcome: Outcome)
      requires player.Valid() && Distinct(particles)
      modifies player, this`coins, this`collectibles, this`particles
      ensures player.Valid() && Distinct(particles)
      ensures Motion(player.rect, player.velY, player.onGround, player.onWall, player.wallSide)
                == Flight(old(player.rect), old(player.velX), old(player.velY), old(player.wallSide), PlatformRects(platforms))
      ensures outcome == StepOutcome(player.rect, old(player.health), spikes, goal)
      ensures player.health == SpikePass(player.rect, old(player.health), spikes).0
      ensures var h := Gather(player.rect, old(player.health), spikes, old(coins), old(collectibles), goal,
                              old(player.coins), old(player.crystals), old(player.score));
              && coins == h.coinsLeft && collectibles == h.crystalsLeft
              && player.coins == h.coins && player.crystals == h.crystals && player.score == h.score
              && Lifetimes(particles) == old(Lifetimes(particles)) + h.spawned
      ensures player.velX == old(player.velX) && player.alive == old(player.alive)
      ensures player.facingRight == old(player.facingRight)
      ensures player.checkpointX == old(player.checkpointX) && player.checkpointY == old(player.checkpointY)
      ensures player.score >= old(player.score)
      ensures forall i :: 0 <= i < |particles| ==> particles[i] in old(particles) || fresh(particles[i])
    {
      var coinsLeft, crystalsLeft, spawned;
      outcome, coinsLeft, crystalsLeft, spawned :=
        player.Update(PlatformRects(platforms), spikes, coins, collectibles, goal);
      coins, collectibles := coinsLeft, crystalsLeft;
      Spawn(spawned);
    }

    /** The player's own step against the level, the pickups it leaves and
        the particles they emit, then its outcome; the tick ends there when
        the goal is reached, and otherwise the particles age. */
    method PlayerStep() returns (result: TickResult)
      requires player.Valid() && Distinct(particles)
      modifies player, this`coins, this`collectibles, this`particles, particles
      ensures player.Valid() && Distinct(particles)
      ensures result != TickQuit
      ensures var m := Flight(old(player.rect), old(player.velX), old(player.velY), old(player.wallSide),
                              PlatformRects(platforms));
              var outcome := StepOutcome(m.rect, old(player.health), spikes, goal);
              && (result == TickWon <==> outcome == Goal)
              && (outcome == Dead ==>
                    && player.rect == m.rect.(x := old(player.checkpointX), y := old(player.checkpointY))
                    && player.velX == 0 && player.velY == 0.0 && player.health == RespawnHealth && player.alive)
              && (outcome != Dead ==>
                    && Motion(player.rect, player.velY, player.onGround, player.onWall, player.wallSide) == m
                    && player.velX == old(player.velX) && player.alive == old(player.alive)
                    && player.health == SpikePass(m.rect, old(player.health), spikes).0)
              && player.onGround == m.onGround && player.onWall == m.onWall && player.wallSide == m.wallSide
      ensures var m := Flight(old(player.rect), old(player.velX), old(player.velY), old(player.wallSide),
                              PlatformRects(platforms));
              var outcome := StepOutcome(m.rect, old(player.health), spikes, goal);
              var h := Gather(m.rect, old(player.health), spikes, old(coins), old(collectibles), goal,
                              old(player.coins), old(player.crystals), old(player.score));
              && coins == h.coinsLeft && collectibles == h.crystalsLeft
              && player.coins == h.coins && player.crystals == h.crystals && player.score == h.score
              && (result == TickWon ==> Lifetimes(particles) == old(Lifetimes(particles)) + h.spawned)
              && (result == TickOn ==>
                    Lifetimes(particles)
                      == Aged(old(Lifetimes(particles)) + h.spawned + (if outcome == Dead then RespawnBurst else [])))
      ensures player.facingRight == old(player.facingRight)
      ensures player.checkpointX == old(player.checkpointX) && player.checkpointY == old(player.checkpointY)
      ensures result == TickWon ==> Collide(player.rect, goal)
      ensures result == TickOn ==> forall l :: l in Lifetimes(particles) ==> l > 0
      ensures player.score >= old(player.score)
      ensures forall i :: 0 <= i < |particles| ==> particles[i] in old(particles) || fresh(particles[i])
    {
      var outcome, won := Land();
      if won {
        return TickWon;
      }
      AgeParticles();
      result := TickOn;
    }

    /** The player's step and its outcome, settled: the respawn on death. */
    method Land() returns (outcome: Outcome, won: bool)
      requires player.Valid() && Distinct(particles)
      modifies player, this`coins, this`collectibles, this`particles
      ensures player.Valid() && Distinct(particles)
      ensures var m := Flight(old(player.rect), old(player.velX), old(player.velY), old(player.wallSide),
                              PlatformRects(platforms));
              && outcome == StepOutcome(m.rect, old(player.health), spikes, goal)
              && (won <==> outcome == Goal)
              && (outcome == Dead ==>
                    && player.rect == m.rect.(x := old(player.checkpointX), y := old(player.checkpointY))
                    && player.velX == 0 && player.velY == 0.0 && player.health == RespawnHealth && player.alive)
              && (outcome != Dead ==>
                    && Motion(player.rect, player.velY, player.onGround, player.onWall, player.wallSide) == m
                    && player.velX == old(player.velX) && player.alive == old(player.alive)
                    && player.health == SpikePass(m.rect, old(player.health), spikes).0)
              && player.onGround == m.onGround && player.onWall == m.onWall && player.wallSide == m.wallSide
      ensures var m := Flight(old(player.rect), old(player.velX), old(player.velY), old(player.wallSide),
                              PlatformRects(platforms));
              var h := Gather(m.rect, old(player.health), spikes, old(coins), old(collectibles), goal,
                              old(player.coins), old(player.crystals), old(player.score));
              && coins == h.coinsLeft && collectibles == h.crystalsLeft
              && player.coins == h.coins && player.crystals == h.crystals && player.score == h.score
              && Lifetimes(particles)
                   == old(Lifetimes(particles)) + h.spawned + (if outcome == Dead then RespawnBurst else [])
      ensures player.facingRight == old(player.facingRight)
      ensures player.checkpointX == old(player.checkpointX) && player.checkpointY == old(player.checkpointY)
      ensures won ==> Collide(player.rect, goal)
      ensures player.score >= old(player.score)
      ensures forall i :: 0 <= i < |particles| ==> particles[i] in old(particles) || fresh(particles[i])
    {
      outcome := Advance();
      ghost var stepped := Lifetimes(particles);
      won := Settle(outcome);
      assert Lifetimes(particles) == stepped + (if outcome == Dead then RespawnBurst else []);
    }

    /** One tick of the level's loop, on the keys read for it. Quitting
        changes nothing; otherwise input, platforms, enemies, the attack,
        enemy contact, checkpoints, the camera, the player's step and its
        outcome follow in that order, and, unless the goal was reached,
        the particles age. */
    method Tick(keys: Keys) returns (result: TickResult)
      requires Valid()
      modifies this, player, platforms, enemies, checkpoints, particles
      ensures Valid()
      ensures result == TickQuit <==> keys.quit
      ensures keys.quit ==> unchanged(this) && unchanged(player)
      ensures result == TickWon ==> Collide(player.rect, goal)
      ensures player.score >= old(player.score)
      ensures forall j :: 0 <= j < |checkpoints| && old(checkpoints[j].activated) ==> checkpoints[j].activated
      ensures forall j :: 0 <= j < |enemies| && !old(enemies[j].alive) ==> !enemies[j].alive
      ensures result == TickOn ==> forall l :: l in Lifetimes(particles) ==> l > 0
      ensures forall i :: 0 <= i < |particles| ==> particles[i] in old(particles) || fresh(particles[i])
    {
      if keys.quit {
        return TickQuit;
      }
      var attacking := player.HandleInput(keys);
      Proceed(attacking);
      result := PlayerStep();
    }

    /** The level's loop over a finite sequence of per-tick inputs: it runs
        while the player is alive, ends with Quit when the player quits, Won
        on the goal, Lost when the player is no longer alive, and
        OutOfInput when the inputs run out first. */
    method Run(inputs: seq<Keys>) returns (result: RunResult)
      requires Valid()
      modifies this, player, platforms, enemies, checkpoints, particles
      ensures Valid()
      ensures result == Lost ==> !player.alive
      ensures result == OutOfInput ==> player.alive
      ensures result == Quit ==> exists i :: 0 <= i < |inputs| && inputs[i].quit
      ensures result == Won ==> Collide(player.rect, goal)
      ensures player.score >= old(player.score)
      ensures forall j :: 0 <= j < |checkpoints| && old(checkpoints[j].activated) ==> checkpoints[j].activated
      ensures forall j :: 0 <= j < |enemies| && !old(enemies[j].alive) ==> !enemies[j].alive
    {
      var i := 0;
      while i < |inputs| && player.alive
        invariant 0 <= i <= |inputs|
        invariant Valid()
        invariant player.score >= old(player.score)
        invariant forall j :: 0 <= j < |checkpoints| && old(checkpoints[j].activated) ==> checkpoints[j].activated
        invariant forall j :: 0 <= j < |enemies| && !old(enemies[j].alive) ==> !enemies[j].alive
        invariant forall i :: 0 <= i < |particles| ==> particles[i] in old(particles) || fresh(particles[i])
        decreases |inputs| - i
      {
        var r := Tick(inputs[i]);
        if r == TickQuit {
          return Quit;
        } else if r == TickWon {
          return Won;
        }
        i := i + 1;
      }
      if !player.alive {
        return Lost;
      }
      return OutOfInput;
    }
  }

  /** The items of xs at the given positions, in that order. */
  function Select<T>(xs: seq<T>, idx: seq<nat>): (ys: seq<T>)
    requires forall k :: 0 <= k < |idx| ==> idx[k] < |xs|
    ensures |ys| == |idx|
    ensures forall k :: 0 <= k < |idx| ==> ys[k] == xs[idx[k]]
  {
    seq(|idx|, k requires 0 <= k < |idx| => xs[idx[k]])
  }

  /** The items of xs whose lifetime in ls survives a tick of aging. */
  function Kept<T>(xs: seq<T>, ls: seq<int>): seq<T>
    requires |xs| == |ls|
  {
    if xs == [] then []
    else Kept(xs[..|xs| - 1], ls[..|ls| - 1]) + (if ls[|ls| - 1] - 1 > 0 then [xs[|xs| - 1]] else [])
  }

  /** The kept items are exactly those at the surviving positions. */
  lemma {:induction false} KeptSelects<T>(xs: seq<T>, ls: seq<int>)
    requires |xs| == |ls|
    ensures Kept(xs, ls) == Select(xs, Survivors(ls))
  {
    if xs != [] {
      var n := |xs| - 1;
      KeptSelects(xs[..n], ls[..n]);
    }
  }

  /** The loop of AgeParticles: every particle ages by one tick, and those
      whose lifetime is left positive are kept, in order. */
  method AgeEach(all: seq<Particle>) returns (kept: seq<Particle>)
    requires Distinct(all)
    modifies all
    ensures forall j :: 0 <= j < |all| ==> all[j].lifetime == old(all[j].lifetime) - 1
    ensures kept == Kept(all, old(Lifetimes(all)))
  {
    ghost var before := Lifetimes(all);
    kept := [];
    for i := 0 to |all|
      invariant forall j :: 0 <= j < i ==> all[j].lifetime == before[j] - 1
      invariant forall j :: i <= j < |all| ==> all[j].lifetime == before[j]
      invariant kept == Kept(all[..i], before[..i])
    {
      assert all[..i + 1][..i] == all[..i];
      assert before[..i + 1][..i] == before[..i];
      all[i].Update();
      if all[i].lifetime > 0 {
        kept := kept + [all[i]];
      }
    }
    assert all[..|all|] == all;
    assert before[..|all|] == before;
  }

  /** How one call of Level.Run ends. */
  datatype RunResult = Quit | Won | Lost | OutOfInput

  /** How one tick ends. */
  datatype TickResult = TickQuit | TickWon | TickOn
}
