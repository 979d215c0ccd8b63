/** The platformer's player: input handling, the physics and collision
    step with its hazards, pickups and outcomes, respawn and the checkpoint
    anchor. */
module QuestPlayer {
  import opened Geometry
  import opened QuestEntities

  const PlayerWidth := 30
  const PlayerHeight := 40
  const Gravity: real := 0.5
  const MaxFallSpeed: real := 20.0
  const JumpPower := -12
  const MoveSpeed := 5
  /** Slack, in pixels, when judging where the player came from. */
  const Tolerance := 5
  const WallDamping: real := 0.9
  const CoinScore := 10
  const CrystalScore := 25
  const GoalBonus := 100
  const RespawnHealth := 100
  /** Falling this far below the top of the screen is death. */
  const FallLimit := ScreenHeight + 200

  const CoinBurst := Burst(8, 20)
  const CrystalBurst := Burst(12, 25)
  const RespawnBurst := Burst(15, 40)
  const CheckpointBurst := Burst(10, 30)

  /** The keys held during one tick (each entry stands for all keys bound
      to that action). */
  datatype Keys = Keys(left: bool, right: bool, jump: bool, attack: bool, quit: bool)

  datatype WallSide = NoWall | LeftWall | RightWall

  datatype Outcome = Continue | Dead | Goal

  /** `n` copies of a burst, one after another. */
  function Repeat(b: seq<int>, n: nat): (r: seq<int>)
    ensures |r| == n * |b|
  {
    if n == 0 then [] else Repeat(b, n - 1) + b
  }

  // ------------------------------------------------------------ physics

  /** Gravity, then the cap on falling speed. */
  function Fall(v: real): (r: real)
    ensures r <= MaxFallSpeed
    ensures r <= v + Gravity
    ensures v + Gravity <= MaxFallSpeed ==> r == v + Gravity
    ensures v + Gravity > MaxFallSpeed ==> r == MaxFallSpeed
  {
    if v + Gravity > MaxFallSpeed then MaxFallSpeed else v + Gravity
  }

  /** The player's rectangle after moving by its velocity and being kept
      inside the level horizontally. */
  function Advance(r: Rect, velX: int, velY: real): (a: Rect)
    ensures a.w == r.w && a.h == r.h
    ensures a.y == Trunc(r.y as real + velY)
    ensures 0 <= r.w <= LevelWidth ==> 0 <= a.Left() && a.Right() <= LevelWidth
    ensures 0 <= r.x + velX && r.x + velX + r.w <= LevelWidth ==> a.x == r.x + velX
    ensures r.x + velX < 0 && r.w <= LevelWidth ==> a.Left() == 0
    ensures r.x + velX < 0 && r.w > LevelWidth ==> a.Right() == LevelWidth
    ensures 0 <= r.x + velX && r.x + velX + r.w > LevelWidth ==> a.Right() == LevelWidth
  {
    var moved := Rect(r.x + velX, Trunc(r.y as real + velY), r.w, r.h);
    var inLeft := if moved.Left() < 0 then moved.WithLeft(0) else moved;
    if inLeft.Right() > LevelWidth then inLeft.WithRight(LevelWidth) else inLeft
  }

  /** The part of the player's state that platform collisions change. */
  datatype Motion = Motion(rect: Rect, velY: real, onGround: bool, onWall: bool, wallSide: WallSide)

  /** Falling onto the top of platform p, judged from the position (oldX,
      oldY) the player had before moving. */
  predicate Lands(m: Motion, oldY: int, p: Rect) {
    m.velY > 0.0 && oldY + PlayerHeight <= p.Top() + Tolerance
  }

  /** Rising into the underside of p. */
  predicate Bumps(m: Motion, oldY: int, p: Rect) {
    m.velY < 0.0 && oldY >= p.Bottom() - Tolerance
  }

  /** Moving left into p's right-hand side. */
  predicate HitsFromRight(velX: int, oldX: int, p: Rect) {
    velX < 0 && oldX + PlayerWidth <= p.Right() + Tolerance
  }

  /** Moving right into p's left-hand side. */
  predicate HitsFromLeft(velX: int, oldX: int, p: Rect) {
    velX > 0 && oldX >= p.Left() - Tolerance
  }

  /** Resolution against one platform: the first matching clause applies
      and no other. */
  function Resolve(m: Motion, velX: int, oldX: int, oldY: int, p: Rect): (r: Motion)
    ensures !Collide(m.rect, p) ==> r == m
    ensures Collide(m.rect, p) && Lands(m, oldY, p) ==>
              r == m.(rect := m.rect.WithBottom(p.Top()), velY := 0.0, onGround := true)
    ensures Collide(m.rect, p) && !Lands(m, oldY, p) && Bumps(m, oldY, p) ==>
              r == m.(rect := m.rect.WithTop(p.Bottom()), velY := 0.0)
    ensures Collide(m.rect, p) && !Lands(m, oldY, p) && !Bumps(m, oldY, p) && HitsFromRight(velX, oldX, p) ==>
              r == m.(rect := m.rect.WithLeft(p.Right()), onWall := true, wallSide := LeftWall, velY := m.velY * WallDamping)
    ensures (Collide(m.rect, p) && !Lands(m, oldY, p) && !Bumps(m, oldY, p) && !HitsFromRight(velX, oldX, p)
             && HitsFromLeft(velX, oldX, p)) ==>
              r == m.(rect := m.rect.WithRight(p.Left()), onWall := true, wallSide := RightWall, velY := m.velY * WallDamping)
    ensures (Collide(m.rect, p) && !Lands(m, oldY, p) && !Bumps(m, oldY, p) && !HitsFromRight(velX, oldX, p)
             && !HitsFromLeft(velX, oldX, p)) ==> r == m
  {
    if !Collide(m.rect, p) then m
    else if Lands(m, oldY, p) then
      m.(rect := m.rect.WithBottom(p.Top()), velY := 0.0, onGround := true)
    else if Bumps(m, oldY, p) then
      m.(rect := m.rect.WithTop(p.Bottom()), velY := 0.0)
    else if HitsFromRight(velX, oldX, p) then
      m.(rect := m.rect.WithLeft(p.Right()), onWall := true, wallSide := LeftWall, velY := m.velY * WallDamping)
    else if HitsFromLeft(velX, oldX, p) then
      m.(rect := m.rect.WithRight(p.Left()), onWall := true, wallSide := RightWall, velY := m.velY * WallDamping)
    else m
  }

  /** Resolution against every platform in turn. */
  function ResolveAll(m: Motion, velX: int, oldX: int, oldY: int, ps: seq<Rect>): Motion
  {
    if ps == [] then m
    else Resolve(ResolveAll(m, velX, oldX, oldY, ps[..|ps| - 1]), velX, oldX, oldY, ps[|ps| - 1])
  }

  /** Platform collisions only ever slow the player vertically: they never
      reverse the vertical velocity or make it larger, so the fall-speed cap
      survives them. */
  lemma {:induction false} ResolveAllSlows(m: Motion, velX: int, oldX: int, oldY: int, ps: seq<Rect>)
    ensures var r := ResolveAll(m, velX, oldX, oldY, ps);
            && (m.velY >= 0.0 ==> 0.0 <= r.velY <= m.velY)
            && (m.velY <= 0.0 ==> m.velY <= r.velY <= 0.0)
            && r.rect.w == m.rect.w && r.rect.h == m.rect.h
  {
    if ps != [] {
      ResolveAllSlows(m, velX, oldX, oldY, ps[..|ps| - 1]);
    }
  }

  /** The player, resolved against the platforms before ps[i], lands on
      ps[i]. */
  predicate LandsOnPlatform(m: Motion, velX: int, oldX: int, oldY: int, ps: seq<Rect>, i: nat)
    requires i < |ps|
  {
    var before := ResolveAll(m, velX, oldX, oldY, ps[..i]);
    Collide(before.rect, ps[i]) && Lands(before, oldY, ps[i])
  }

  /** After resolution the player stands on the ground exactly when it
      already did or landed on one of the platforms along the way. */
  lemma {:induction false} GroundedIff(m: Motion, velX: int, oldX: int, oldY: int, ps: seq<Rect>)
    ensures ResolveAll(m, velX, oldX, oldY, ps).onGround <==>
            m.onGround || exists i :: 0 <= i < |ps| && LandsOnPlatform(m, velX, oldX, oldY, ps, i)
  {
    if ps != [] {
      var n := |ps| - 1;
      var prefix := ps[..n];
      GroundedIff(m, velX, oldX, oldY, prefix);
      forall i | 0 <= i < n
        ensures LandsOnPlatform(m, velX, oldX, oldY, prefix, i) == LandsOnPlatform(m, velX, oldX, oldY, ps, i)
      {
        assert prefix[..i] == ps[..i];
      }
      assert prefix == ps[..n];
      var prev := ResolveAll(m, velX, oldX, oldY, prefix);
      assert LandsOnPlatform(m, velX, oldX, oldY, ps, n) <==> Collide(prev.rect, ps[n]) && Lands(prev, oldY, ps[n]);
      assert ResolveAll(m, velX, oldX, oldY, ps).onGround
             <==> prev.onGround || LandsOnPlatform(m, velX, oldX, oldY, ps, n);
      if exists i :: 0 <= i < |ps| && LandsOnPlatform(m, velX, oldX, oldY, ps, i) {
        var i :| 0 <= i < |ps| && LandsOnPlatform(m, velX, oldX, oldY, ps, i);
        if i < n {
          assert LandsOnPlatform(m, velX, oldX, oldY, prefix, i);
        }
      }
    }
  }

  // ------------------------------------------------------------ hazards and pickups

  /** The number of rectangles in `rs` that `r` overlaps. */
  function Hits(r: Rect, rs: seq<Rect>): (n: nat)
    ensures n <= |rs|
    ensures n == 0 <==> forall i :: 0 <= i < |rs| ==> !Collide(r, rs[i])
  {
    if rs == [] then 0
    else Hits(r, rs[..|rs| - 1]) + (if Collide(r, rs[|rs| - 1]) then 1 else 0)
  }

  /** The spike pass: health after it, and whether it ended in death. */
  function SpikePass(r: Rect, health: int, spikes: seq<Rect>): (int, bool)
  {
    if spikes == [] then (health, false)
    else
      var p := SpikePass(r, health, spikes[..|spikes| - 1]);
      if p.1 then p
      else if Collide(r, spikes[|spikes| - 1]) then (p.0 - 1, p.0 - 1 <= 0)
      else p
  }

  /** Every overlapping spike costs one health point; the pass ends in
      death exactly when some spike overlaps and the total toll brings health
      to zero or below, and then it stops at the first spike that does so. */
  lemma {:induction false} SpikeToll(r: Rect, health: int, spikes: seq<Rect>)
    ensures var (h, dead) := SpikePass(r, health, spikes);
            && (dead <==> Hits(r, spikes) > 0 && health - Hits(r, spikes) <= 0)
            && (!dead ==> h == health - Hits(r, spikes))
            && (dead ==> h == Min(health, 1) - 1)
  {
    if spikes != [] {
      SpikeToll(r, health, spikes[..|spikes| - 1]);
    }
  }

  /** The positions, in increasing order, of the items the player does
      not overlap: every such position and no other. */
  function Missed(r: Rect, items: seq<Rect>): (idx: seq<nat>)
    ensures forall k :: 0 <= k < |idx| ==> idx[k] < |items| && !Collide(r, items[idx[k]])
    ensures forall k, l :: 0 <= k < l < |idx| ==> idx[k] < idx[l]
    ensures forall i :: 0 <= i < |items| && !Collide(r, items[i]) ==> i in idx
  {
    if items == [] then []
    else Missed(r, items[..|items| - 1]) + (if Collide(r, items[|items| - 1]) then [] else [|items| - 1])
  }

  /** The items the player does not overlap, in their original order. */
  function Untouched(r: Rect, items: seq<Rect>): (kept: seq<Rect>)
    ensures |kept| <= |items|
    ensures forall i :: 0 <= i < |kept| ==> !Collide(r, kept[i])
  {
    if items == [] then []
    else
      var last := items[|items| - 1];
      Untouched(r, items[..|items| - 1]) + (if Collide(r, last) then [] else [last])
  }

  /** The items left behind are exactly the items at the Missed positions,
      in the same order: nothing is reordered, dropped or duplicated. */
  lemma {:induction false} UntouchedInOrder(r: Rect, items: seq<Rect>)
    ensures |Untouched(r, items)| == |Missed(r, items)|
    ensures forall k :: 0 <= k < |Missed(r, items)| ==> Untouched(r, items)[k] == items[Missed(r, items)[k]]
  {
    if items != [] {
      var prefix := items[..|items| - 1];
      UntouchedInOrder(r, prefix);
      var idx := Missed(r, prefix);
      forall k | 0 <= k < |idx|
        ensures Untouched(r, items)[k] == items[Missed(r, items)[k]]
      {
        assert Untouched(r, items)[k] == Untouched(r, prefix)[k];
        assert Missed(r, items)[k] == idx[k];
      }
    }
  }

  /** The items the player overlaps, in their original order. */
  function Touched(r: Rect, items: seq<Rect>): (taken: seq<Rect>)
    ensures forall i :: 0 <= i < |taken| ==> Collide(r, taken[i])
  {
    if items == [] then []
    else
      var last := items[|items| - 1];
      Touched(r, items[..|items| - 1]) + (if Collide(r, last) then [last] else [])
  }

  /** Collection takes exactly the overlapped items, one per hit, and
      leaves the others. */
  lemma {:induction false} CollectCounts(r: Rect, items: seq<Rect>)
    ensures |Touched(r, items)| == Hits(r, items)
    ensures |Untouched(r, items)| == |items| - Hits(r, items)
  {
    if items != [] {
      CollectCounts(r, items[..|items| - 1]);
    }
  }

  /** The items taken and the items left are together exactly the items
      there were. */
  lemma {:induction false} CollectPartition(r: Rect, items: seq<Rect>)
    ensures multiset(Untouched(r, items)) + multiset(Touched(r, items)) == multiset(items)
  {
    if items != [] {
      var n := |items| - 1;
      var last := items[n];
      var kept, taken := Untouched(r, items[..n]), Touched(r, items[..n]);
      CollectPartition(r, items[..n]);
      assert items == items[..n] + [last];
      assert multiset(items) == multiset(items[..n]) + multiset{last};
      if Collide(r, last) {
        assert Touched(r, items) == taken + [last];
        assert Untouched(r, items) == kept;
        assert multiset(taken + [last]) == multiset(taken) + multiset{last};
      } else {
        assert Untouched(r, items) == kept + [last];
        assert Touched(r, items) == taken;
        assert multiset(kept + [last]) == multiset(kept) + multiset{last};
      }
    }
  }

  // ------------------------------------------------------------ one tick's outcome

  /** Where gravity, the move, the clamp and the platform pass take a
      player at `r` moving with (velX, velY). */
  function Flight(r: Rect, velX: int, velY: real, wallSide: WallSide, platforms: seq<Rect>): Motion
  {
    var fall := Fall(velY);
    ResolveAll(Motion(Advance(r, velX, fall), fall, false, false, wallSide), velX, r.x, r.y, platforms)
  }

  /** How a tick ends for a player at `r` who started it with `health`: a
      lethal spike pass first, then the goal, then falling out of the level. */
  function StepOutcome(r: Rect, health: int, spikes: seq<Rect>, goal: Rect): Outcome
  {
    if SpikePass(r, health, spikes).1 then Dead
    else if Collide(r, goal) then Goal
    else if r.Top() > FallLimit then Dead
    else Continue
  }

  /** A tick ends in death exactly when the spikes overlapped take all the
      remaining health, or the player misses the goal and is below the fall
      limit; it ends at the goal exactly when the spikes leave the player
      alive and the player overlaps the goal. */
  lemma {:induction false} OutcomeByHazard(r: Rect, health: int, spikes: seq<Rect>, goal: Rect)
    ensures var lethal := Hits(r, spikes) > 0 && health - Hits(r, spikes) <= 0;
            && (StepOutcome(r, health, spikes, goal) == Dead <==>
                  lethal || (!Collide(r, goal) && r.Top() > FallLimit))
            && (StepOutcome(r, health, spikes, goal) == Goal <==> !lethal && Collide(r, goal))
  {
    SpikeToll(r, health, spikes);
  }

  /** What the pickups of one tick leave: the coins and crystals still in
      the level, the player's counters and score, and the lifetimes of the
      particles the pickups emit. */
  datatype Haul = Haul(coinsLeft: seq<Rect>, crystalsLeft: seq<Rect>, coins: int, crystals: int, score: int,
                       spawned: seq<int>)

  /** The pickup pass of a tick, for a player at `r` who started it with
      `health`: when the spike pass kills, nothing is picked up; otherwise
      every overlapped coin and crystal is taken and scored, and touching the
      goal adds its bonus. */
  function Gather(r: Rect, health: int, spikes: seq<Rect>, coinItems: seq<Rect>, crystalItems: seq<Rect>,
                  goal: Rect, coins: int, crystals: int, score: int): Haul
  {
    if SpikePass(r, health, spikes).1 then Haul(coinItems, crystalItems, coins, crystals, score, [])
    else
      var nc, nk := Hits(r, coinItems), Hits(r, crystalItems);
      Haul(Untouched(r, coinItems), Untouched(r, crystalItems), coins + nc, crystals + nk,
           score + CoinScore * nc + CrystalScore * nk + (if Collide(r, goal) then GoalBonus else 0),
           Repeat(CoinBurst, nc) + Repeat(CrystalBurst, nk))
  }

  /** The pickup pass conserves items: every coin and crystal is either
      still in the level or counted by the player, and the score never
      drops. */
  lemma {:induction false} GatherConserves(r: Rect, health: int, spikes: seq<Rect>, coinItems: seq<Rect>,
                                           crystalItems: seq<Rect>, goal: Rect, coins: int, crystals: int, score: int)
    ensures var h := Gather(r, health, spikes, coinItems, crystalItems, goal, coins, crystals, score);
            && |h.coinsLeft| + (h.coins - coins) == |coinItems|
            && |h.crystalsLeft| + (h.crystals - crystals) == |crystalItems|
            && h.score >= score
  {
    CollectCounts(r, coinItems);
    CollectCounts(r, crystalItems);
  }

  // ------------------------------------------------------------ the player

  class Player {
    var rect: Rect
    const spawnX: int
    const spawnY: int
    var checkpointX: int
    var checkpointY: int
    var velX: int
    var velY: real
    var onGround: bool
    var onWall: bool
    var wallSide: WallSide
    var health: int
    var coins: int
    var crystals: int
    var score: int
    var alive: bool
    var facingRight: bool

    /** The player keeps its size, never falls faster than the cap, moves
        horizontally at one of the speeds input can give it, and its
        counters never go negative. */
    ghost predicate Valid()
      reads this
    {
      && rect.w == PlayerWidth && rect.h == PlayerHeight
      && velY <= MaxFallSpeed
      && velX in {-2 * MoveSpeed, -MoveSpeed, 0, MoveSpeed, 2 * MoveSpeed}
      && 0 <= coins && 0 <= crystals && 0 <= score
    }

    constructor (x: int, y: int)
      ensures Valid()
      ensures rect == Rect(x, y, PlayerWidth, PlayerHeight)
      ensures spawnX == x && spawnY == y && checkpointX == x && checkpointY == y
      ensures velX == 0 && velY == 0.0 && !onGround && !onWall && wallSide == NoWall
      ensures health == 100 && coins == 0 && crystals == 0 && score == 0
      ensures alive && facingRight
    {
      rect := Rect(x, y, PlayerWidth, PlayerHeight);
      spawnX, spawnY := x, y;
      checkpointX, checkpointY := x, y;
      velX, velY := 0, 0.0;
      onGround, onWall, wallSide := false, false, NoWall;
      health := 100;
      coins, crystals, score := 0, 0, 0;
      alive, facingRight := true, true;
    }

    /** Held keys set the horizontal velocity (right wins over left); jump
        leaves the ground, or kicks off a wall away from it; the result says
        whether the attack key is held. */
    method HandleInput(keys: Keys) returns (attacking: bool)
      requires Valid()
      modifies this
      ensures Valid()
      ensures attacking == keys.attack
      ensures facingRight == if keys.right then true else if keys.left then false else old(facingRight)
      ensures var run := if keys.right then MoveSpeed else if keys.left then -MoveSpeed else 0;
              if keys.jump && old(onGround) then
                velY == JumpPower as real && !onGround && onWall == old(onWall) && velX == run
              else if keys.jump && old(onWall) then
                && velY == JumpPower as real && !onWall && onGround == old(onGround)
                && velX == (if old(wallSide) == LeftWall then 2 * MoveSpeed else -2 * MoveSpeed)
              else
                velY == old(velY) && onGround == old(onGround) && onWall == old(onWall) && velX == run
      ensures rect == old(rect) && wallSide == old(wallSide) && health == old(health)
      ensures coins == old(coins) && crystals == old(crystals) && score == old(score)
      ensures alive == old(alive) && checkpointX == old(checkpointX) && checkpointY == old(checkpointY)
    {
      velX := 0;
      if keys.left {
        velX := -MoveSpeed;
        facingRight := false;
      }
      if keys.right {
        velX := MoveSpeed;
        facingRight := true;
      }
      if keys.jump {
        if onGround {
          velY := JumpPower as real;
          onGround := false;
        } else if onWall {
          velY := JumpPower as real;
          if wallSide == LeftWall {
            velX := MoveSpeed * 2;
          } else {
            velX := -MoveSpeed * 2;
          }
          onWall := false;
        }
      }
      attacking := keys.attack;
    }

    /** Back to the checkpoint anchor, at rest and with full health. */
    method Respawn() returns (burst: seq<int>)
      requires Valid()
      modifies this
      ensures Valid()
      ensures rect == old(rect).(x := checkpointX, y := checkpointY)
      ensures velX == 0 && velY == 0.0 && health == RespawnHealth
      ensures burst == RespawnBurst
      ensures checkpointX == old(checkpointX) && checkpointY == old(checkpointY)
      ensures onGround == old(onGround) && onWall == old(onWall) && wallSide == old(wallSide)
      ensures coins == old(coins) && crystals == old(crystals) && score == old(score)
      ensures alive == old(alive) && facingRight == old(facingRight)
    {
      rect := rect.(x := checkpointX);
      rect := rect.(y := checkpointY);
      velX := 0;
      velY := 0.0;
      health := RespawnHealth;
      burst := RespawnBurst;
    }

    /** The respawn anchor moves to (x, y). */
    method SetCheckpoint(x: int, y: int) returns (burst: seq<int>)
      modifies this`checkpointX, this`checkpointY
      ensures checkpointX == x && checkpointY == y
      ensures burst == CheckpointBurst
    {
      checkpointX := x;
      checkpointY := y;
      burst := CheckpointBurst;
    }

    /** One physics tick against the level: gravity, movement, platform
        collisions, spikes, coins, crystals, the goal and falling out. The
        caller's coin and crystal lists are replaced by the ones returned;
        `spawned` holds the lifetimes of the particles the pickups emit. */
    method Update(platforms: seq<Rect>, spikes: seq<Rect>, coinItems: seq<Rect>,
                  crystalItems: seq<Rect>, goal: Rect)
      returns (outcome: Outcome, coinsLeft: seq<Rect>, crystalsLeft: seq<Rect>, spawned: seq<int>)
      requires Valid()
      modifies this
      ensures Valid()
      ensures Motion(rect, velY, onGround, onWall, wallSide)
                == Flight(old(rect), old(velX), old(velY), old(wallSide), platforms)
      ensures outcome == StepOutcome(rect, old(health), spikes, goal)
      ensures health == SpikePass(rect, old(health), spikes).0
      ensures Haul(coinsLeft, crystalsLeft, coins, crystals, score, spawned)
                == Gather(rect, old(health), spikes, coinItems, crystalItems, goal, old(coins), old(crystals), old(score))
      ensures velX == old(velX) && alive == old(alive) && facingRight == old(facingRight)
      ensures checkpointX == old(checkpointX) && checkpointY == old(checkpointY)
    {
      Move(platforms);
      outcome, coinsLeft, crystalsLeft, spawned := Pickup(spikes, coinItems, crystalItems, goal);
    }

    /** The spike pass, the pickups, the goal and the fall check of Update,
        at the position Move left. */
    method Pickup(spikes: seq<Rect>, coinItems: seq<Rect>, crystalItems: seq<Rect>, goal: Rect)
      returns (outcome: Outcome, coinsLeft: seq<Rect>, crystalsLeft: seq<Rect>, spawned: seq<int>)
      requires Valid()
      modifies this`health, this`coins, this`crystals, this`score
      ensures Valid()
      ensures outcome == StepOutcome(rect, old(health), spikes, goal)
      ensures health == SpikePass(rect, old(health), spikes).0
      ensures Haul(coinsLeft, crystalsLeft, coins, crystals, score, spawned)
                == Gather(rect, old(health), spikes, coinItems, crystalItems, goal, old(coins), old(crystals), old(score))
    {
      var dead := TouchSpikes(spikes);
      if dead {
        return Dead, coinItems, crystalItems, [];
      }
      var coinBursts, crystalBursts;
      coinsLeft, coinBursts := CollectCoins(coinItems);
      crystalsLeft, crystalBursts := CollectCrystals(crystalItems);
      spawned := coinBursts + crystalBursts;
      if Collide(rect, goal) {
        score := score + GoalBonus;
        return Goal, coinsLeft, crystalsLeft, spawned;
      }
      if rect.Top() > FallLimit {
        return Dead, coinsLeft, crystalsLeft, spawned;
      }
      return Continue, coinsLeft, crystalsLeft, spawned;
    }

    /** Gravity, movement, the horizontal clamp and the platform pass of
        Update. */
    method Move(platforms: seq<Rect>)
      requires Valid()
      modifies this`rect, this`velY, this`onGround, this`onWall, this`wallSide
      ensures Valid()
      ensures Motion(rect, velY, onGround, onWall, wallSide)
                == Flight(old(rect), velX, old(velY), old(wallSide), platforms)
    {
      var oldX := rect.x;
      var oldY := rect.y;
      Fly();
      onGround := false;
      onWall := false;
      ghost var start := Motion(rect, velY, onGround, onWall, wallSide);
      ResolveAllSlows(start, velX, oldX, oldY, platforms);
      CollidePlatforms(platforms, oldX, oldY);
    }

    /** Gravity, the fall-speed cap, movement and the horizontal clamp. */
    method Fly()
      modifies this`rect, this`velY
      ensures velY == Fall(old(velY)) && rect == Advance(old(rect), velX, velY)
    {
      velY := velY + Gravity;
      if velY > MaxFallSpeed {
        velY := MaxFallSpeed;
      }
      rect := rect.(x := rect.x + velX);
      rect := rect.(y := Trunc(rect.y as real + velY));
      if rect.Left() < 0 {
        rect := rect.WithLeft(0);
      }
      if rect.Right() > LevelWidth {
        rect := rect.WithRight(LevelWidth);
      }
    }

    /** The platform pass: each platform in turn, against the position
        (oldX, oldY) held before moving. */
    method CollidePlatforms(platforms: seq<Rect>, oldX: int, oldY: int)
      modifies this`rect, this`velY, this`onGround, this`onWall, this`wallSide
      ensures Motion(rect, velY, onGround, onWall, wallSide)
                == ResolveAll(old(Motion(rect, velY, onGround, onWall, wallSide)), velX, oldX, oldY, platforms)
    {
      ghost var start := Motion(rect, velY, onGround, onWall, wallSide);
      for i := 0 to |platforms|
        invariant Motion(rect, velY, onGround, onWall, wallSide)
                    == ResolveAll(start, velX, oldX, oldY, platforms[..i])
      {
        assert platforms[..i + 1][..i] == platforms[..i];
        ghost var m := Motion(rect, velY, onGround, onWall, wallSide);
        var p := platforms[i];
        if Collide(rect, p) {
          if velY > 0.0 && oldY + PlayerHeight <= p.Top() + Tolerance {
            rect := rect.WithBottom(p.Top());
            velY := 0.0;
            onGround := true;
          } else if velY < 0.0 && oldY >= p.Bottom() - Tolerance {
            rect := rect.WithTop(p.Bottom());
            velY := 0.0;
          } else if velX < 0 && oldX + PlayerWidth <= p.Right() + Tolerance {
            rect := rect.WithLeft(p.Right());
            onWall := true;
            wallSide := LeftWall;
            velY := velY * WallDamping;
          } else if velX > 0 && oldX >= p.Left() - Tolerance {
            rect := rect.WithRight(p.Left());
            onWall := true;
            wallSide := RightWall;
            velY := velY * WallDamping;
          }
        }
        assert Motion(rect, velY, onGround, onWall, wallSide) == Resolve(m, velX, oldX, oldY, p);
      }
      assert platforms[..|platforms|] == platforms;
    }

    /** The spike pass of Update: one health point per overlapping spike,
        stopping at death. */
    method TouchSpikes(spikes: seq<Rect>) returns (dead: bool)
      modifies this`health
      ensures (health, dead) == SpikePass(rect, old(health), spikes)
    {
      for i := 0 to |spikes|
        invariant SpikePass(rect, old(health), spikes[..i]) == (health, false)
      {
        assert spikes[..i + 1][..i] == spikes[..i];
        if Collide(rect, spikes[i]) {
          health := health - 1;
          if health <= 0 {
            SpikeDeathIsFinal(rect, old(health), spikes, i + 1);
            return true;
          }
        }
      }
      assert spikes[..|spikes|] == spikes;
      return false;
    }

    /** The coin pass of Update. */
    method CollectCoins(items: seq<Rect>) returns (left: seq<Rect>, spawned: seq<int>)
      requires 0 <= coins && 0 <= score
      modifies this`coins, this`score
      ensures left == Untouched(rect, items)
      ensures coins == old(coins) + Hits(rect, items)
      ensures score == old(score) + CoinScore * Hits(rect, items)
      ensures spawned == Repeat(CoinBurst, Hits(rect, items))
    {
      left := [];
      spawned := [];
      for i := 0 to |items|
        invariant left == Untouched(rect, items[..i])
        invariant coins == old(coins) + Hits(rect, items[..i])
        invariant score == old(score) + CoinScore * Hits(rect, items[..i])
        invariant spawned == Repeat(CoinBurst, Hits(rect, items[..i]))
      {
        assert items[..i + 1][..i] == items[..i];
        if Collide(rect, items[i]) {
          coins := coins + 1;
          score := score + CoinScore;
          spawned := spawned + CoinBurst;
        } else {
          left := left + [items[i]];
        }
      }
      assert items[..|items|] == items;
    }

    /** The crystal pass of Update. */
    method CollectCrystals(items: seq<Rect>) returns (left: seq<Rect>, spawned: seq<int>)
      requires 0 <= crystals && 0 <= score
      modifies this`crystals, this`score
      ensures left == Untouched(rect, items)
      ensures crystals == old(crystals) + Hits(rect, items)
      ensures score == old(score) + CrystalScore * Hits(rect, items)
      ensures spawned == Repeat(CrystalBurst, Hits(rect, items))
    {
      left := [];
      spawned := [];
      for i := 0 to |items|
        invariant left == Untouched(rect, items[..i])
        invariant crystals == old(crystals) + Hits(rect, items[..i])
        invariant score == old(score) + CrystalScore * Hits(rect, items[..i])
        invariant spawned == Repeat(CrystalBurst, Hits(rect, items[..i]))
      {
        assert items[..i + 1][..i] == items[..i];
        if Collide(rect, items[i]) {
          crystals := crystals + 1;
          score := score + CrystalScore;
          spawned := spawned + CrystalBurst;
        } else {
          left := left + [items[i]];
        }
      }
      assert items[..|items|] == items;
    }
  }

  /** Once the spike pass has ended in death at some spike, the spikes
      after it change nothing. */
  lemma {:induction false} SpikeDeathIsFinal(r: Rect, health: int, spikes: seq<Rect>, k: nat)
    requires k <= |spikes| && SpikePass(r, health, spikes[..k]).1
    ensures SpikePass(r, health, spikes) == SpikePass(r, health, spikes[..k])
    decreases |spikes| - k
  {
    if k < |spikes| {
      assert spikes[..k + 1][..k] == spikes[..k];
      SpikeDeathIsFinal(r, health, spikes, k + 1);
    } else {
      assert spikes[..k] == spikes;
    }
  }
}
