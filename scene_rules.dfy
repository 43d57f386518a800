/** The game scene's state as a value, and what each of its operations does to that value: the
    stat load of init, create, the weapon switch, the clock's re-arm event, each part of update,
    levelUp, gameOver, victory, and one whole engine frame. The class in module Session runs these
    steps in place; here they are stated once and their properties proved. */
module SceneRules {
  import opened Extended
  import opened Optional
  import opened Geometry
  import opened Controls
  import opened Progression
  import opened Projectiles

  /** The six stats kept under "playerStats" in the game's registry. */
  datatype Stats = Stats(speed: real, attackSpeed: real, maxHealth: real, damage: real, xp: real, level: int)

  /** What the title scene stores before the first game. */
  const TitleDefaults: Stats := Stats(200.0, 1.0, 100.0, 10.0, 0.0, 0)

  /** The scene launched over the game scene when it pauses. */
  datatype Overlay = PauseMenu | UpgradeMenu | GameOverScreen | VictoryScreen

  datatype Phase = Running | Paused(overlay: Overlay)

  /** What the enemy subsystem's handleAction does to the player during one frame: damage dealt,
      xp awarded, and whether it declared victory. */
  datatype EnemyReport = EnemyReport(damageTaken: real, xpGained: real, won: bool)

  /** The inputs of one frame: the held keys, where the physics engine has moved the player's body,
      the heading towards the pointer, the random id for a new projectile, and the enemy report. */
  datatype FrameInput = FrameInput(keys: Keys, bodyPos: Vec, aim: Heading, projectileId: real, enemies: EnemyReport)

  /** Where create places the player sprite. */
  const PlayerSpawn: Vec := Vec(400.0, 300.0)

  /** The constant added to both velocity components. */
  const VelocityBias: real := 0.1

  /** The player's velocity for a direction: `dir * speed + 0.1` on each axis. */
  function PlayerVelocity(dir: Vec, speed: real): Vec
  {
    Vec(dir.x * speed + VelocityBias, dir.y * speed + VelocityBias)
  }

  /** Everything of the scene the core reads or writes: the registry entry, the player's six
      stats, health and weapon, the firing debounce and its pending re-arm event, the projectile
      group, the player's position and velocity, whether the scene runs or which overlay paused
      it, the `resetScene` mark, and a restart the engine has queued for the next frame. */
  datatype SceneState = SceneState(
    registry: Stats,
    stats: Stats,
    health: real,
    weapon: Weapon,
    debounce: bool,
    rearm: Option<Timer>,
    projectiles: seq<Projectile>,
    player: Vec,
    velocity: Vec,
    phase: Phase,
    resetScene: bool,
    restartQueued: bool)

  /** init: the six stats read back from the registry, health at the maximum, an empty projectile
      group, firing armed, the rocket chosen. */
  function AfterInit(s: SceneState): SceneState
  {
    s.(stats := s.registry, health := s.registry.maxHealth, projectiles := [], debounce := true, weapon := Rocket)
  }

  /** create, as far as game state goes: the player at its spawn point, at rest, and the weapon
      switched twice. */
  function AfterCreate(s: SceneState): SceneState
  {
    s.(player := PlayerSpawn, velocity := Origin, weapon := Switched(Switched(s.weapon)))
  }

  /** A start of the scene by the engine: init, then create, on a fresh clock and running. */
  function AfterStart(s: SceneState): SceneState
  {
    AfterCreate(AfterInit(s)).(rearm := None, phase := Running, restartQueued := false)
  }

  function AfterSwitch(s: SceneState): SceneState
  {
    s.(weapon := Switched(s.weapon))
  }

  /** The engine's clock update before a running frame's update: the pending re-arm event gains
      the frame time and, when it fires, firing is armed again. */
  function AfterClock(s: SceneState, delta: real): SceneState
  {
    match s.rearm
    case None => s
    case Some(t) =>
      var next := AdvanceTimer(t, delta);
      s.(rearm := next, debounce := if next.None? then true else s.debounce)
  }

  /** The movement part of update: velocity from the direction and the speed, and the position
      the physics engine produced clamped to the game area, ignoring the sprite's size. */
  function AfterMove(s: SceneState, keys: Keys, bodyPos: Vec): SceneState
  {
    s.(velocity := PlayerVelocity(GetDir(keys), s.stats.speed), player := ClampToArea(bodyPos, GameArea, Origin))
  }

  /** The shooting part of update: when armed, disarm, add a projectile of the current weapon at
      the player, and schedule the re-arm `1000 / attackSpeed` ms later. */
  function AfterSpawn(s: SceneState, aim: Heading, id: real): SceneState
  {
    if s.debounce then
      s.(debounce := false,
         projectiles := s.projectiles + [Launch(s.player, s.weapon, aim, id)],
         rearm := Some(Timer(CooldownDelay(s.stats.attackSpeed), 0.0)))
    else s
  }

  /** victory: with a restart already marked, request it and clear the mark; otherwise save the
      stats, pause under the victory screen and mark the restart. */
  function AfterVictory(s: SceneState): SceneState
  {
    if s.resetScene then s.(restartQueued := true, resetScene := false)
    else s.(registry := s.stats, phase := Paused(VictoryScreen), resetScene := true)
  }

  /** handleAction as this scene sees it: damage taken, xp gained, and victory if it was won. */
  function AfterAction(s: SceneState, report: EnemyReport): SceneState
  {
    var hit := s.(health := s.health - report.damageTaken, stats := s.stats.(xp := s.stats.xp + report.xpGained));
    if report.won then AfterVictory(hit) else hit
  }

  function AfterProjectiles(s: SceneState, delta: real): SceneState
  {
    s.(projectiles := StepAll(s.projectiles, delta, GameArea))
  }

  /** levelUp: one level more, full health, paused under the upgrade menu. */
  function AfterLevelUp(s: SceneState): SceneState
  {
    s.(stats := s.stats.(level := s.stats.level + 1), health := s.stats.maxHealth, phase := Paused(UpgradeMenu))
  }

  /** gameOver: save the stats, pause under the game-over screen, mark the restart. */
  function AfterGameOver(s: SceneState): SceneState
  {
    s.(registry := s.stats, phase := Paused(GameOverScreen), resetScene := true)
  }

  /** The end of update: the one threshold check (at most one level-up), then gameOver when
      health is at or below 0. */
  function AfterChecks(s: SceneState): SceneState
  {
    var checked := if LevelUpDue(s.stats.level, s.stats.xp) then AfterLevelUp(s) else s;
    if checked.health <= 0.0 then AfterGameOver(checked) else checked
  }

  /** update: a marked restart is requested and nothing else happens; otherwise move, shoot,
      let the enemies act, step the projectiles, run the one threshold check, and call gameOver
      when health is at or below 0 at the end. */
  function AfterUpdate(s: SceneState, delta: real, input: FrameInput): SceneState
  {
    if s.resetScene then s.(restartQueued := true, resetScene := false)
    else
      var acted := AfterAction(AfterSpawn(AfterMove(s, input.keys, input.bodyPos), input.aim, input.projectileId), input.enemies);
      AfterChecks(AfterProjectiles(acted, delta))
  }

  /** The engine processes a queued restart before anything else in a frame. */
  function AfterQueuedRestart(s: SceneState): SceneState
  {
    if s.restartQueued then AfterStart(s) else s
  }

  /** One engine frame: a queued restart first, then, only while running, the clock update and
      update itself. */
  function AfterFrame(s: SceneState, delta: real, input: FrameInput): SceneState
  {
    var started := AfterQueuedRestart(s);
    if started.phase == Running then AfterUpdate(AfterClock(started, delta), delta, input) else started
  }

  /** Firing is armed exactly when no re-arm event is pending. */
  predicate DebounceMatchesTimer(s: SceneState)
  {
    s.debounce <==> s.rearm.None?
  }

  /** What holds of the scene between frames: the debounce agrees with the timer, the player is
      inside the game area, and every projectile in the group has been stepped at least once. */
  predicate Consistent(s: SceneState)
  {
    && DebounceMatchesTimer(s)
    && InsideArea(s.player, GameArea, Origin)
    && forall p | p in s.projectiles :: Settled(p, GameArea)
  }

  /** A start loads the saved stats, heals fully, empties the group, arms firing with the rocket,
      and leaves a consistent scene; the registry and the restart mark survive it. */
  lemma StartLoadsSavedStats(s: SceneState)
    ensures AfterStart(s).stats == s.registry && AfterStart(s).registry == s.registry
    ensures AfterStart(s).health == s.registry.maxHealth
    ensures AfterStart(s).weapon == Rocket
    ensures AfterStart(s).projectiles == [] && AfterStart(s).phase == Running && !AfterStart(s).restartQueued
    ensures AfterStart(s).resetScene == s.resetScene
    ensures Consistent(AfterStart(s))
  {
    SwitchedTwice(Rocket);
  }

  /** The first game after the title scene starts at level 0 with 100 health, fires a shot a
      second, and has its levels in range. */
  lemma FirstGameFromTitleDefaults(s: SceneState)
    requires s.registry == TitleDefaults
    ensures AfterStart(s).stats.level == 0 && AfterStart(s).health == 100.0
    ensures CooldownDelay(AfterStart(s).stats.attackSpeed) == Finite(1000.0)
    ensures LevelsInRange(AfterStart(s))
  {
  }

  /** A paused scene with no restart queued is left exactly as it was by a frame. */
  lemma PausedFrameChangesNothing(s: SceneState, delta: real, input: FrameInput)
    requires s.phase.Paused? && !s.restartQueued
    ensures AfterFrame(s, delta, input) == s
  {
  }

  /** A marked restart makes update request the restart and clear the mark, and touch nothing
      else; otherwise the mark is set after update exactly when it won or the player died. */
  lemma UpdateRestartMark(s: SceneState, delta: real, input: FrameInput)
    ensures var r := AfterUpdate(s, delta, input);
      && (s.resetScene ==> r.restartQueued && !r.resetScene && r.(restartQueued := s.restartQueued, resetScene := true) == s)
      && (!s.resetScene ==> r.restartQueued == s.restartQueued && (r.resetScene <==> input.enemies.won || r.health <= 0.0))
  {
  }

  /** The threshold check pays out at most one level, exactly when the player is behind the level
      their xp entitles them to, and never past level 39; a level-up heals fully and, with a
      positive maximum health, leaves the game paused under the upgrade menu without a game over. */
  lemma ChecksLevelAtMostOnce(s: SceneState)
    requires 0 <= s.stats.level < MaxLevel
    ensures var r := AfterChecks(s);
      && r.stats == s.stats.(level := r.stats.level)
      && (r.stats.level == s.stats.level || r.stats.level == s.stats.level + 1)
      && (r.stats.level == s.stats.level + 1 <==> s.stats.level < LevelFor(s.stats.xp))
      && r.stats.level < MaxLevel
      && r.health == (if r.stats.level > s.stats.level then s.stats.maxHealth else s.health)
      && (r.stats.level > s.stats.level && s.stats.maxHealth > 0.0 ==>
            r.phase == Paused(UpgradeMenu) && r.registry == s.registry && r.resetScene == s.resetScene)
  {
    LevelUpDueIffBehind(s.stats.level, s.stats.xp);
  }

  /** update gains the reported xp and pays out at most one level, exactly when the player is
      behind the level that xp entitles them to, and never past level 39; the level-up heals
      fully, and otherwise the reported damage is taken. */
  lemma UpdateLevelsAtMostOnce(s: SceneState, delta: real, input: FrameInput)
    requires !s.resetScene && 0 <= s.stats.level < MaxLevel
    ensures var r := AfterUpdate(s, delta, input);
      && r.stats.xp == s.stats.xp + input.enemies.xpGained
      && (r.stats.level == s.stats.level || r.stats.level == s.stats.level + 1)
      && (r.stats.level == s.stats.level + 1 <==> s.stats.level < LevelFor(r.stats.xp))
      && r.stats.level < MaxLevel
      && r.health == (if r.stats.level > s.stats.level then s.stats.maxHealth else s.health - input.enemies.damageTaken)
  {
    var acted := AfterAction(AfterSpawn(AfterMove(s, input.keys, input.bodyPos), input.aim, input.projectileId), input.enemies);
    var stepped := AfterProjectiles(acted, delta);
    assert stepped.stats == s.stats.(xp := s.stats.xp + input.enemies.xpGained);
    assert stepped.health == s.health - input.enemies.damageTaken;
    ChecksLevelAtMostOnce(stepped);
  }

  /** update never changes the upgradeable stats or the chosen weapon. */
  lemma UpdateKeepsUpgrades(s: SceneState, delta: real, input: FrameInput)
    ensures var r := AfterUpdate(s, delta, input);
      && r.stats.speed == s.stats.speed && r.stats.attackSpeed == s.stats.attackSpeed
      && r.stats.maxHealth == s.stats.maxHealth && r.stats.damage == s.stats.damage
      && r.weapon == s.weapon
  {
  }

  /** A frame never changes the upgradeable stats or the chosen weapon, except by a restart,
      which loads the stats from the registry and chooses the rocket. */
  lemma FrameKeepsUpgrades(s: SceneState, delta: real, input: FrameInput)
    ensures var r := AfterFrame(s, delta, input);
      var base := if s.restartQueued then s.registry else s.stats;
      && r.stats.speed == base.speed && r.stats.attackSpeed == base.attackSpeed
      && r.stats.maxHealth == base.maxHealth && r.stats.damage == base.damage
      && r.weapon == (if s.restartQueued then Rocket else s.weapon)
  {
    var started := AfterQueuedRestart(s);
    StartLoadsSavedStats(s);
    UpdateKeepsUpgrades(AfterClock(started, delta), delta, input);
  }

  /** A death saves the stats reached, pauses under the game-over screen and marks the restart. */
  lemma DeathSavesProgress(s: SceneState, delta: real, input: FrameInput)
    requires !s.resetScene && AfterUpdate(s, delta, input).health <= 0.0
    ensures var r := AfterUpdate(s, delta, input);
      r.registry == r.stats && r.phase == Paused(GameOverScreen) && r.resetScene
  {
  }

  /** After a death, once the game-over overlay hands control back, the next frame queues the
      restart, and the restarted scene carries on from the stats reached at death, at full
      health. */
  lemma DeathThenRestartKeepsProgress(s: SceneState, delta: real, input: FrameInput, delta2: real, input2: FrameInput)
    requires !s.resetScene && !s.restartQueued && AfterUpdate(s, delta, input).health <= 0.0
    ensures var dead := AfterUpdate(s, delta, input);
      var next := AfterFrame(dead.(phase := Running), delta2, input2);
      && next.restartQueued
      && AfterStart(next).stats == dead.stats
      && AfterStart(next).health == dead.stats.maxHealth
  {
    DeathSavesProgress(s, delta, input);
  }

  /** victory with a restart already marked requests it and clears the mark, and saves nothing:
      the registry, the stats and everything else are as they were. */
  lemma VictoryWhenMarkedOnlyRestarts(s: SceneState)
    requires s.resetScene
    ensures AfterVictory(s) == s.(restartQueued := true, resetScene := false)
    ensures AfterVictory(s).registry == s.registry
  {
  }

  /** A second victory call requests the restart without saving again. */
  lemma VictoryTwiceRestarts(s: SceneState)
    requires !s.resetScene
    ensures var r := AfterVictory(AfterVictory(s));
      r.registry == s.stats && r.restartQueued && !r.resetScene && r.phase == Paused(VictoryScreen)
    ensures AfterVictory(AfterVictory(s)) == AfterVictory(s).(restartQueued := true, resetScene := false)
  {
    VictoryWhenMarkedOnlyRestarts(AfterVictory(s));
  }

  /** One frame adds at most one projectile to the group. */
  lemma FrameAddsAtMostOneProjectile(s: SceneState, delta: real, input: FrameInput)
    ensures |AfterFrame(s, delta, input).projectiles| <= |s.projectiles| + 1
  {
  }

  lemma ClockKeepsConsistent(s: SceneState, delta: real)
    requires Consistent(s)
    ensures Consistent(AfterClock(s, delta))
  {
  }

  /** update keeps the scene consistent: the player ends inside the area, and every projectile
      left, the new one included, has been moved and kept by the projectile loop. */
  lemma {:induction false} UpdateKeepsConsistent(s: SceneState, delta: real, input: FrameInput)
    requires Consistent(s) && delta >= 0.0
    ensures Consistent(AfterUpdate(s, delta, input))
  {
    if !s.resetScene {
      var shot := AfterSpawn(AfterMove(s, input.keys, input.bodyPos), input.aim, input.projectileId);
      forall p | p in shot.projectiles
        ensures LifespanInRange(p)
      {
        if p !in s.projectiles {
          assert p == Launch(AfterMove(s, input.keys, input.bodyPos).player, s.weapon, input.aim, input.projectileId);
        }
      }
      StepAllSettled(shot.projectiles, delta, GameArea);
    }
  }

  /** Every frame keeps the scene consistent. */
  lemma FrameKeepsConsistent(s: SceneState, delta: real, input: FrameInput)
    requires Consistent(s) && delta >= 0.0
    ensures Consistent(AfterFrame(s, delta, input))
  {
    var started := AfterQueuedRestart(s);
    StartLoadsSavedStats(s);
    ClockKeepsConsistent(started, delta);
    UpdateKeepsConsistent(AfterClock(started, delta), delta, input);
  }

  /** The level and the saved level lie in 0..39. */
  predicate LevelsInRange(s: SceneState)
  {
    0 <= s.stats.level < MaxLevel && 0 <= s.registry.level < MaxLevel
  }

  /** Starting from levels in range, no frame ever takes a level out of 0..39. */
  lemma FrameKeepsLevelsInRange(s: SceneState, delta: real, input: FrameInput)
    requires LevelsInRange(s)
    ensures LevelsInRange(AfterFrame(s, delta, input))
  {
    var started := AfterQueuedRestart(s);
    var clocked := AfterClock(started, delta);
    if started.phase == Running && !clocked.resetScene {
      UpdateLevelsAtMostOnce(clocked, delta, input);
    }
  }
}
