# Quest Madness and the fighters: a Dafny model of the game rules

This project models the game rules underneath two pygame prototypes and proves
properties of them.

- **Quest Madness**, a side-scrolling platformer (`quest_madness.py`). The model covers:
  - the player's input handling;
  - its physics and the first-match-wins platform collisions;
  - spikes, coins, crystals, the goal and falling out of the level;
  - respawning at the last checkpoint;
  - oscillating platforms, and enemies that patrol, take damage and die;
  - one-shot checkpoints and particle lifetimes;
  - the per-tick loop of a level: the player's attack, stomps against side contact, checkpoint activation, the camera, death and respawn, the goal and particle pruning;
  - the wrap-around menu cursors, the shop's purchase rule and the unlocking of the next level.
- **The fighting game's fighters** (`player.py`, `enemy.py`). The model covers:
  - the shared physics tick: gravity only when airborne, the floor and screen-side stops, the attack cooldown;
  - the health clamps of taking damage and healing;
  - the weapon-damage lookup;
  - the enemy's decision counter, with the randomly drawn action passed in as a parameter.

Modules:

- `Geometry` (geometry.dfy):
  - an integer `Rect` standing for a pygame rectangle;
  - the overlap test `Collide`;
  - `Trunc`, the truncating conversion of a fractional coordinate into a rectangle coordinate.
- `QuestEntities` (quest_entities.dfy): particles, checkpoints, platforms and enemies as classes, plus the back-and-forth motion `Sway` they share.
- `QuestPlayer` (quest_player.dfy):
  - the platformer's `Player` class;
  - pure folds that specify its passes: `ResolveAll` for platforms, `SpikePass` for spikes, `Untouched`/`Hits` for pickups.
- `QuestLevel` (quest_level.dfy):
  - the `Level` class, with the per-tick methods, `Tick` and the loop `Run`;
  - value views of enemies (`Foe`) and of the player (`Brawl`), specified by the folds `StrikeAll` and `ClashAll`.
- `QuestMenus` (quest_menus.dfy):
  - the cursors, the level-complete menu and the shop over sequences of key events;
  - the `Progress` record kept between levels.
- `FighterRules` (fighter_rules.dfy): the fighters' settings (`Config`), the physics step as a composition of phase functions, and the health clamps.
- `FighterPlayer` (fighter_player.dfy) and `FighterEnemy` (fighter_enemy.dfy): the fighter classes.

The methods that carry out one phase of a tick ensure that their new state equals a pure function of the old state. The properties the game promises are proved as lemmas about those functions, and as invariants the methods keep. The methods that string phases together (`Proceed`, `Tick` and `Run`) state those invariants and the outcome, not the whole new state.

Assumptions, stated in the code where they are used:

- `Collide` is pygame's `colliderect`, taken to mean strict overlap: rectangles that only share an edge do not collide.
- Assigning a fractional value to a rectangle coordinate truncates toward zero, as `int()` does.
- The settings that live in an unshown constants module are the parameters of `FighterRules.Config`:
  - gravity, screen size, fighter size, jump power and the weapon table;
  - `FighterRules.StaysOnScreen` assumes a fighter is no wider than the screen.

Two behaviours of the code that could be taken for something else:

- A respawn restores health to 100 (quest_madness.py:229-242), not to the maximum health bought in the shop.
- The player is kept inside the level horizontally before platform collisions are resolved (quest_madness.py:268-298), so a wall stop can push the player past the level edge.

## Model

| member | source | states |
|---|---|---|
| Geometry.Trunc | player.py:46-47 | the integer coordinate is the fractional one truncated toward zero: within one unit of it, on the same side of zero |
| Geometry.CenteredAt | quest_madness.py:141 | a rectangle placed by its centre has that centre and the given size |
| QuestEntities.Burst | quest_madness.py:489-494 | a burst of particles is `count` lifetimes, all equal to the burst's lifetime |
| QuestEntities.Sway | quest_madness.py:360-365 | one oscillation step keeps the speed's magnitude and keeps a body that starts in its band inside the band |
| QuestEntities.SwayStaysInBand | quest_madness.py:360-365 | any number of oscillation steps keep the speed and keep the body in its band |
| QuestEntities.PatrolBounded | quest_madness.py:461-467 | a body starting at its origin never strays more than range + speed from it |
| QuestEntities.SwayOutward | quest_madness.py:360-365 | from the origin, while k steps fit within the range, the body is k steps out and still heading outward |
| QuestEntities.FirstTurn | quest_madness.py:360-365 | the body reverses on exactly the first step that takes it beyond the range |
| QuestEntities.Particle.constructor | quest_madness.py:110-120 | a particle starts with its lifetime, which is also its maximum lifetime |
| QuestEntities.Particle.Update | quest_madness.py:123-128 | each tick the lifetime drops by exactly one |
| QuestEntities.Aged | quest_madness.py:880-883 | after one tick of aging every remaining lifetime is positive and none was added |
| QuestEntities.Survivors | quest_madness.py:880-883 | the survivors of aging are the particles at increasing original positions, each one tick younger |
| QuestEntities.SurvivorsComplete | quest_madness.py:880-883 | every particle with lifetime above one is among the survivors |
| QuestEntities.AgedKeepsLong | quest_madness.py:880-883 | when every lifetime exceeds one, aging removes nothing and lowers each lifetime by one |
| QuestEntities.AgedAppend | quest_madness.py:880-883 | aging a concatenation ages each part on its own, so every particle is aged independently of the others and order is kept |
| QuestEntities.Lifespan | quest_madness.py:880-883 | a particle with lifetime L is present with L − k left after k ticks exactly when k < L, and is removed on the tick its lifetime reaches zero |
| QuestEntities.Checkpoint.constructor | quest_madness.py:136-143 | a checkpoint is a 40 × 40 rectangle centred on its position and starts inactive |
| QuestEntities.Checkpoint.Activate | quest_madness.py:156-159 | activation sets the flag |
| QuestEntities.Platform.constructor | quest_madness.py:342-353 | a platform starts at its position, heading right, with its origin there |
| QuestEntities.Platform.Update | quest_madness.py:360-365 | a moving platform shifts by exactly 2·direction and its direction flips exactly when it is beyond its range; a fixed platform never changes |
| QuestEntities.Enemy.constructor | quest_madness.py:431-445 | an enemy starts 25 × 25, moving right at 2, with health 2, alive, with no cooldown and an attack range of 80 |
| QuestEntities.Enemy.Update | quest_madness.py:461-471 | a live enemy takes one patrol step and its cooldown drops by one only while positive; a dead enemy does not change |
| QuestEntities.Enemy.Attack | quest_madness.py:473-476 | the cooldown becomes 10 and nothing else changes |
| QuestEntities.Enemy.TakeDamage | quest_madness.py:478-484 | health drops by the damage; the result is true, and the enemy dies, exactly when health is then at or below zero |
| QuestEntities.Enemy.KillEnemy | quest_madness.py:486-494 | the enemy dies and bursts into 20 particles of lifetime 30; nothing else changes |
| QuestPlayer.Fall | quest_madness.py:257-259 | after gravity the vertical speed is at most 20: exactly the old speed plus 0.5 when that is within the cap, and exactly 20 otherwise |
| QuestPlayer.Advance | quest_madness.py:265-271 | movement keeps the size, and the new top is the old top plus the vertical speed, truncated; horizontally it moves by the speed when the player stays in the level, is stopped at 0 when it would leave on the left, and flush against the level's right edge when it would leave on the right or is wider than the level |
| QuestPlayer.Resolve | quest_madness.py:276-298 | against one platform, only the first matching case applies: a landing, a ceiling hit, a wall on the left or a wall on the right, each with its snap, its velocity change and its flags; no overlap changes nothing |
| QuestPlayer.ResolveAllSlows | quest_madness.py:276-298 | platform collisions never reverse or enlarge the vertical speed, and they keep the player's size |
| QuestPlayer.GroundedIff | quest_madness.py:273-282 | after the platform pass the player is on the ground exactly when it already was or it landed on one of the platforms along the way |
| QuestPlayer.Hits | quest_madness.py:300-302 | the number of overlapped rectangles is at most their number, and zero exactly when none is overlapped |
| QuestPlayer.SpikeToll | quest_madness.py:300-304 | each overlapping spike costs one health point; the pass ends in death exactly when the toll brings health to zero or below, stopping at the first spike that does |
| QuestPlayer.Untouched | quest_madness.py:306-310 | the items left are no more than there were, and none of them is overlapped |
| QuestPlayer.Missed | quest_madness.py:306-310 | the positions of the items not overlapped: each one such an item, in increasing order, and every such item's position among them |
| QuestPlayer.UntouchedInOrder | quest_madness.py:306-310 | the items left are exactly the items at the missed positions, in their original order |
| QuestPlayer.OutcomeByHazard | quest_madness.py:300-336 | a tick ends in death exactly when the spike toll is lethal or, with the goal not touched, the player is below the fall limit; it ends at the goal exactly when the spikes do not kill and the goal is touched |
| QuestPlayer.GatherConserves | quest_madness.py:300-332 | the pickup pass loses no item: every coin and crystal is either still in the level or counted by the player, and the score never drops |
| QuestPlayer.Touched | quest_madness.py:306-310 | the items taken are all overlapped |
| QuestPlayer.CollectCounts | quest_madness.py:306-322 | exactly one item is taken per overlap, and the others are left |
| QuestPlayer.CollectPartition | quest_madness.py:306-310 | the items taken and the items left together are exactly the items there were |
| QuestPlayer.SpikeDeathIsFinal | quest_madness.py:303-304 | once the spike pass has ended in death, later spikes change nothing |
| QuestPlayer.Player.constructor | quest_madness.py:163-190 | the player starts 30 × 40 at its spawn point, which is also its checkpoint anchor, at rest, with health 100, alive and facing right |
| QuestPlayer.Player.HandleInput | quest_madness.py:199-227 | held keys set the horizontal speed, with right winning over left; jump from the ground sets the jump speed and leaves the ground; jump against a wall kicks off it at twice the move speed, away from the wall, and leaves the wall; the result is true exactly when attack is held |
| QuestPlayer.Player.Respawn | quest_madness.py:229-242 | the player is back at the checkpoint anchor at rest with health 100, and 15 particles of lifetime 40 burst out |
| QuestPlayer.Player.SetCheckpoint | quest_madness.py:244-253 | the anchor becomes the given point, and 10 particles of lifetime 30 burst out |
| QuestPlayer.Player.Update | quest_madness.py:255-338 | one tick: the motion equals Flight of the old state (gravity, movement, the platform pass); health is what the spike pass leaves; the outcome is StepOutcome at the new position; pickups, counters, score and bursts are Gather: nothing is picked up when the spikes kill, otherwise every overlapped coin and crystal is taken once, in order, with its count, its score and its burst, plus the goal bonus |
| QuestPlayer.Player.Pickup | quest_madness.py:300-336 | at the moved position: the spike pass, the pickups as Gather, and the outcome as StepOutcome |
| QuestPlayer.Player.Move | quest_madness.py:257-298 | gravity, movement and the platform pass equal the fold of Resolve over the platforms |
| QuestPlayer.Player.Fly | quest_madness.py:257-271 | the vertical speed is capped after gravity and the rectangle moves by Advance |
| QuestPlayer.Player.CollidePlatforms | quest_madness.py:276-298 | the loop over platforms computes the fold of Resolve |
| QuestPlayer.Player.TouchSpikes | quest_madness.py:300-304 | the spike loop computes SpikePass: the health and whether it ended in death |
| QuestPlayer.Player.CollectCoins | quest_madness.py:306-316 | the coins left are the untouched ones; coins, score (+10 each) and bursts (8 particles each) grow by the number overlapped |
| QuestPlayer.Player.CollectCrystals | quest_madness.py:318-328 | the crystals left are the untouched ones; crystals, score (+25 each) and bursts (12 particles each) grow by the number overlapped |
| QuestLevel.Strike | quest_madness.py:823-835 | an attack on a live enemy within reach costs it one health point and kills it when none is left, otherwise sets its cooldown to 10; any other enemy is unchanged |
| QuestLevel.Felled | quest_madness.py:829-831 | no more enemies are killed than there are |
| QuestLevel.Living | quest_madness.py:824 | no more enemies are alive than there are |
| QuestLevel.StrikeAll | quest_madness.py:822-835 | the attack pass strikes every enemy once, in order |
| QuestLevel.StrikeKills | quest_madness.py:822-835 | an attack never revives an enemy, and the live enemies left are those there were less the ones killed |
| QuestLevel.Clash | quest_madness.py:838-851 | contact with a live overlapping enemy is a stomp, which kills it, bounces the player at jump speed and scores 50, or else a side hit costing 2 health that ends the player's life at zero or below; other enemies change nothing |
| QuestLevel.OneStompPerTick | quest_madness.py:838-846 | one contact pass stomps at most one enemy: the score rises by nothing or by 50, and when it rises the player moves up at jump speed |
| QuestLevel.ContactToll | quest_madness.py:847-851 | contact only ever costs health, in steps of 2, and the player dies in the pass exactly when alive before, hit, and left with no health |
| QuestLevel.ClashFoes | quest_madness.py:838-851 | the contact pass leaves each enemy as contact with it alone leaves it, given the player's state after the enemies before it |
| QuestLevel.Newly | quest_madness.py:854-857 | no more checkpoints are newly reached than there are |
| QuestLevel.NoneCounted | quest_madness.py:824-857 | no enemy is killed, none is alive, and no checkpoint is newly reached, each exactly when no enemy or checkpoint qualifies |
| QuestLevel.AnchorFromCheckpoint | quest_madness.py:854-857 | the respawn anchor stays put unless a checkpoint is newly reached, and then it is the centre of the last one newly reached in the pass |
| QuestLevel.CameraTarget | quest_madness.py:719-720 | the camera target lies within [0, level width − screen width]: a third of a screen behind the player's centre when that fits, 0 when that is below 0, and level width − screen width when that is beyond it |
| QuestLevel.Ease | quest_madness.py:721 | the camera moves toward the target without overshooting, closing a tenth of the gap |
| QuestLevel.Patrol | quest_madness.py:461-471 | a live enemy's position and speed take one Sway step; the patrol keeps the enemy's health, life, height and size, never raises a non-negative cooldown or takes it below zero, and leaves a dead enemy as it is |
| QuestLevel.KeptSelects | quest_madness.py:880-883 | the particles kept are exactly those at the surviving positions, in order |
| QuestLevel.AgeEach | quest_madness.py:880-883 | every particle ages by one tick, and those with lifetime left are kept in order |
| QuestLevel.Level.constructor | quest_madness.py:522-541 | a level starts with the generated entities, no particles and the camera at 0 |
| QuestLevel.Level.Spawn | quest_madness.py:489-494 | new particles, one per lifetime, are appended after the existing ones |
| QuestLevel.Level.AgeParticles | quest_madness.py:880-883 | the particles' lifetimes become the aged lifetimes, in order, and no particle is new |
| QuestLevel.Level.MovePlatforms | quest_madness.py:814 | every platform takes its step |
| QuestLevel.Level.MoveEnemies | quest_madness.py:815 | every enemy takes its patrol step: the enemies' values become Patrol of the old ones, and the player and the particles are untouched |
| QuestLevel.Level.PlayerAttacks | quest_madness.py:822-835 | the enemies become the attack pass of the old ones; score and particles grow by 50 and one burst per kill; dead enemies stay dead |
| QuestLevel.Level.StrikeEach | quest_madness.py:823-835 | the loop over enemies computes StrikeAll and counts the kills |
| QuestLevel.Level.AttackAt | quest_madness.py:824-835 | one enemy is struck and the result says whether it was killed; the others are unchanged |
| QuestLevel.Level.EnemyContacts | quest_madness.py:838-851 | the player and the enemies become the contact pass over the old ones; one burst is spawned when the score rises; dead enemies stay dead |
| QuestLevel.Level.ContactEach | quest_madness.py:838-851 | the loop over enemies computes ClashAll and counts the stomps, 50 points each |
| QuestLevel.Level.ContactAt | quest_madness.py:839-851 | contact with one enemy extends the contact fold by that enemy; the others are unchanged |
| QuestLevel.Level.VisitCheckpoints | quest_madness.py:854-857 | each overlapped checkpoint is activated and none is deactivated; the anchor follows the checkpoints newly reached; one burst is spawned per checkpoint newly reached |
| QuestLevel.Level.ReachEach | quest_madness.py:854-857 | the checkpoint loop activates the overlapped ones, moves the anchor and counts those newly reached |
| QuestLevel.Level.ReachAt | quest_madness.py:855-857 | a checkpoint newly reached is activated and becomes the anchor; any other one changes nothing |
| QuestLevel.Level.UpdateCamera | quest_madness.py:717-721 | the camera eases toward its clamped target |
| QuestLevel.Level.Settle | quest_madness.py:863-867 | death respawns the player at the anchor, at rest, with health 100 and alive again, with a burst, keeping its crystals, facing and flags; the goal wins; otherwise nothing changes |
| QuestLevel.Level.Fight | quest_madness.py:815-851 | the player's state and the enemies become Fray of the old ones (patrol, the attack when held, contact); the particles grow by one burst per kill and the stomp's burst; score never drops and dead enemies stay dead |
| QuestLevel.Level.Assault | quest_madness.py:815-835 | patrol then the attack: the score, enemies and particles become Attacked over the patrolled enemies, 50 points and one burst per kill; dead enemies stay dead |
| QuestLevel.Level.AttackIf | quest_madness.py:821-835 | the attack only when held: the score, enemies and particles become Attacked over the old enemies |
| QuestLevel.Level.Stir | quest_madness.py:814-851 | every platform steps, then the enemies' part as in Fight; checkpoints and the player's pose are untouched |
| QuestLevel.Level.Survey | quest_madness.py:853-859 | each overlapped checkpoint is activated, the anchor follows Raise, one burst per checkpoint newly reached, the camera eases toward its target; enemies, platforms and the player's other state are untouched |
| QuestLevel.Level.Engage | quest_madness.py:814-859 | every platform steps; the player's state and the enemies become Fray of the old ones; a checkpoint is activated exactly when it was or is overlapped, and the anchor follows Raise; particles grow by the kill, stomp and checkpoint bursts in that order; the camera eases; the player's pose is untouched; score never drops and dead enemies stay dead |
| QuestLevel.Level.Proceed | quest_madness.py:814-859 | Engage through the invariants a tick keeps: the level stays valid, the player's pose is untouched, score never drops, activated checkpoints stay activated, dead enemies stay dead, and every particle is an old or a new one |
| QuestLevel.Level.Advance | quest_madness.py:861 | the player's step: the motion is Flight of the old state over the platforms; the outcome is StepOutcome; health is the spike pass's; the level's coins and crystals, the player's counters and score and the new particles are Gather; horizontal speed, life, facing and anchor are kept |
| QuestLevel.Level.Land | quest_madness.py:861-867 | the player's step settled: the outcome is StepOutcome, won exactly on Goal; the respawn on Dead, otherwise Flight's motion; pickups as Gather; the particles grow by the pickup bursts and, on death, the respawn burst |
| QuestLevel.Level.PlayerStep | quest_madness.py:861-883 | the tick is won exactly when the step's outcome is Goal, and only while touching the goal; on Dead the player is at the anchor at rest with health 100 and alive; otherwise its motion is Flight's and its health the spike pass's; coins, crystals, counters and score are Gather's; the particles are the old ones plus the pickup bursts and, on death, the respawn burst, and unless won they are then aged by Aged, every one left with lifetime above zero |
| QuestLevel.Level.Tick | quest_madness.py:795-886 | quitting changes nothing and is reported as such; otherwise a win happens only while touching the goal, the score never drops, activated checkpoints stay activated, dead enemies stay dead, and after an ordinary tick every particle has lifetime left |
| QuestLevel.Level.Run | quest_madness.py:792-888 | the loop ends Lost only with the player dead, OutOfInput only with it alive, Quit only on a quit input, Won only touching the goal; score, checkpoints and kills only ever grow |
| QuestMenus.MenuUp | quest_madness.py:904 | up moves the cursor one option back, wrapping from the first to the last, and always lands on an option |
| QuestMenus.MenuDown | quest_madness.py:906 | down moves the cursor one option on, wrapping from the last to the first, and always lands on an option |
| QuestMenus.UpDownInverse | quest_madness.py:1031-1033 | up and down undo each other from every position |
| QuestMenus.DownNWraps | quest_madness.py:1031-1033 | k presses of down, for k up to the number of options, move k places around the list; a full round comes back to the start |
| QuestMenus.ChoiceAt | quest_madness.py:907-913 | positions 0, 1 and 2 are exactly next level, replay and main menu |
| QuestMenus.CompleteMenuFirstKeys | quest_madness.py:893-913 | enter straight away picks the next level; up then enter wraps round to the main menu |
| QuestMenus.RunCompleteMenu | quest_madness.py:896-913 | the menu loop computes CompleteMenu; a pick needs an enter key and closing needs a quit event |
| QuestMenus.Buy | quest_madness.py:1038-1045 | for the way out, or crystals short of the cost, nothing changes; otherwise the cost is paid and a potion adds 25 maximum health, a speed boost 1 speed bonus, an extra life 1 life, nothing else changing; crystals never go negative |
| QuestMenus.BuyKeepsWorth | quest_madness.py:989-1045 | each item is priced at exactly what it adds, so buying keeps the progress's worth (a weighting of the model's own, read off the price list) |
| QuestMenus.ShopKeepsWorth | quest_madness.py:1026-1047 | a shop visit keeps the worth, never takes crystals below zero, and leaves coins and the highest level alone |
| QuestMenus.Unlocked | quest_madness.py:1201-1202 | winning a level unlocks at least the one after it and never locks one again |
| QuestMenus.UnlockedIsMax | quest_madness.py:1201-1202 | wins recorded in either order unlock the same level |
| QuestMenus.Progress.constructor | quest_madness.py:99-106 | a new game has no crystals or coins, max health 100, no speed bonus, 999 lives and level 1 unlocked |
| QuestMenus.Progress.Purchase | quest_madness.py:1035-1045 | enter on an item applies Buy to the progress |
| QuestMenus.Progress.VisitShop | quest_madness.py:1026-1047 | the shop loop computes Shop over the events |
| QuestMenus.Progress.RecordWin | quest_madness.py:1198-1202 | a win adds the level's crystals and coins and unlocks the next level |
| FighterRules.Fallen | player.py:40-41 | gravity is added to the vertical speed only when airborne |
| FighterRules.Moved | player.py:39-47 | after gravity the position moves by the velocity and the rectangle is drawn at the truncated position |
| FighterRules.Grounded | player.py:50-55 | at or below the floor the fighter is put exactly on it, with y re-synced, at rest, on the ground and out of its jump; above it nothing changes |
| FighterRules.Sided | player.py:58-63 | a fighter no wider than the screen ends inside it, with x re-synced to a stop; one already inside is unchanged; one past the left edge that fits is put at 0, one past the right edge is put flush against it, and one wider than the screen ends flush right |
| FighterRules.Cooled | player.py:66-67 | the cooldown drops by one only while positive |
| FighterRules.Step | player.py:38-67 | one tick keeps the size, ends above the floor line, lands exactly on the floor at rest when it reaches it, stays on screen, and counts the cooldown down |
| FighterRules.StandingIsRest | player.py:38-67 | a fighter standing still on the floor inside the screen stays where it is |
| FighterRules.CooldownRunsOut | player.py:66-67 | after k ticks the cooldown is what was left minus k, or zero; never negative |
| FighterRules.StaysOnScreen | player.py:49-63 | a fighter as wide as configured stays on screen and above the floor through any number of ticks |
| FighterRules.Damaged | player.py:107-108 | damage lowers health but never below zero |
| FighterRules.Healed | player.py:110-111 | healing raises health but never above the maximum |
| FighterRules.HealthStaysInRange | player.py:107-111 | health within [0, max] stays there through damage and healing |
| FighterRules.HitsAddUp | player.py:107-108 | from non-negative health, a series of non-negative hits leaves what one hit of their total would |
| FighterRules.WeaponDamage | player.py:102-105 | a known weapon's damage is its table entry; an unknown weapon does 10 |
| FighterPlayer.Player.constructor | player.py:7-32 | the player starts at its position, standing, facing right, at full health |
| FighterPlayer.Player.Update | player.py:38-67 | one tick applies Step to the player's body and changes nothing else |
| FighterPlayer.Player.Move | player.py:39-47 | gravity and movement as Moved |
| FighterPlayer.Player.Ground | player.py:50-55 | the floor stop as Grounded |
| FighterPlayer.Player.Sides | player.py:58-63 | the side stops as Sided |
| FighterPlayer.Player.GetWeaponDamage | player.py:102-105 | the player's weapon damage is WeaponDamage of its weapon |
| FighterPlayer.Player.TakeDamage | player.py:107-108 | health becomes Damaged: lowered, never below zero, and within [0, max] for non-negative damage from a health in range |
| FighterPlayer.Player.Heal | player.py:110-111 | health becomes Healed: raised, never above the maximum, and within [0, max] for a non-negative amount from a health in range |
| FighterEnemy.Bump | enemy.py:80-83 | the counter climbs by one, and goes back to zero on reaching the frequency |
| FighterEnemy.Decide | enemy.py:79-98 | the counter stays in [0, freq); an action applies only on the tick the counter wraps; attack only sets attacking; "move_left" sends the enemy right and "move_right" sends it left; a jump only from the ground |
| FighterEnemy.DecisionsEveryFreqTicks | enemy.py:79-83 | from a counter in [0, freq), it climbs one per tick and wraps to zero exactly when it reaches freq, so an action applies once every freq ticks |
| FighterEnemy.Enemy.constructor | enemy.py:8-40 | the enemy starts at its position, standing, facing left, at full health, with its counter at zero |
| FighterEnemy.Enemy.Update | enemy.py:42-74 | one tick is the physics Step followed by Decide on the drawn action |
| FighterEnemy.Enemy.Physics | enemy.py:43-71 | the physics tick as Step, shared with the player |
| FighterEnemy.Enemy.Move | enemy.py:43-51 | gravity and movement as Moved |
| FighterEnemy.Enemy.Ground | enemy.py:53-59 | the floor stop as Grounded |
| FighterEnemy.Enemy.Sides | enemy.py:61-67 | the side stops as Sided |
| FighterEnemy.Enemy.UpdateAi | enemy.py:79-98 | the decision tick as Decide |
| FighterEnemy.Enemy.TakeDamage | enemy.py:131-132 | health becomes Damaged: lowered, never below zero, and within [0, max] for non-negative damage from a health in range |
| FighterEnemy.Enemy.Heal | enemy.py:134-135 | health becomes Healed: raised, never above the maximum, and within [0, max] for a non-negative amount from a health in range |

## Left out

- Rendering: every `draw_*` method, `Level.draw`, the HUD and the menu, shop and tutorial screens, the main menu's key dispatch, and `get_weapon_draw_info`. These are drawing only.
- Sound and music, including the sound-triggering checks in the level loop. These are output only.
- Saving and loading progress, which is file I/O.
- The frame clock and event pumping. Input comes as a `Keys` record per tick (left, right, jump, attack, quit), and menu input as a sequence of `MenuKey` events.
- Randomness and trigonometry:
  - A particle burst is modelled by its count and lifetimes only. Positions, velocities, colours and the particle's own motion and gravity are left out.
  - The fighting enemy's `random.choice` is a parameter.
- The coin and crystal bobbing (quest_madness.py:400-403, 424-427), the crystal spin and the particle alpha fade. Each frame, before the player's step, the bob sets a pickup's top to its placement height plus up to 5 pixels of a sine. That moves the pickup down by half its height from where it was centred, and then up and down, which changes when the player overlaps it. The model tests each pickup at its placed rectangle, since the bob is a sine of a float phase.
- `generate_level`, which only places entities. A `QuestLevel.Level` is built from any placement.
- The enemy's `get_weapon_damage` in enemy.py, which scales by a float multiplier.
- weapons.py (drawing and a surface cache), story.py (dialogue text) and `#Adventure101.py` are not part of this model.
- Horizontal velocities of the platformer player are integers, since input only sets whole speeds. Vertical velocities and the fighters' positions are reals, with truncation into rectangle coordinates.
- QuestLevel.Level.Run: runs over a finite sequence of inputs and reports `OutOfInput` when they run out, where the game waits for more frames.
- QuestLevel.Level.Run: states the outcome and monotonicity facts, not the whole state after the loop. Each tick's full effect is stated by the per-phase methods.
- QuestLevel.Level.Tick: states the outcome, monotonicity and particle facts, not the whole new state. Engage and PlayerStep state each phase's full effect on the level's fields; the particle objects' identities are stated only as old or new.
- QuestLevel.Level.Proceed: states only the invariants a tick keeps. Engage, which it runs, states the full effect.
- QuestLevel.Level.PlayerAttacks: adds the score and spawns the bursts once the loop has counted the kills, where the game does both per kill. Nothing in the loop reads either, so the result is the same.
- QuestLevel.Level.EnemyContacts: spawns the bursts once the loop has counted the stomps, where the game spawns each at its stomp. The particles are not read in the loop, so the result is the same.
- QuestLevel.Level.VisitCheckpoints: spawns the bursts once the loop has counted the checkpoints, where the game spawns each at its checkpoint. The particles are not read in the loop, so the result is the same.
- FighterPlayer.Player.GetWeaponDamage: only delegates to `FighterRules.WeaponDamage`, where the lookup's property is stated.
- FighterPlayer.Player.constructor and FighterEnemy.Enemy.constructor: take a non-negative starting health, so that the health range holds from the start.
