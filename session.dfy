/** The game scene object. Its fields are updated in place, one operation at a time, and each
    operation is proved to take the scene's state to what module SceneRules says it should. */
module Session {
  import opened Extended
  import opened Optional
  import opened Geometry
  import opened Controls
  import opened Progression
  import opened Projectiles
  import opened SceneRules

  class GameScene {
    /** The registry's "playerStats" entry, shared with the other scenes and kept across restarts. */
    var registry: Stats

    var plrSpeed: real
    var plrAttackSpeed: real
    var plrMaxHealth: real
    var plrDamage: real
    var plrXp: real
    var plrLevel: int
    var plrHealth: real
    var plrWeapon: Weapon

    /** True while a shot may be fired. */
    var plrProjDebounce: bool
    /** The one-shot clock event that sets `plrProjDebounce` again, if one is pending. */
    var rearm: Option<Timer>

    var projectiles: seq<Projectile>
    var player: Vec
    var velocity: Vec

    var phase: Phase
    var resetScene: bool
    /** A `scene.restart()` that the engine has queued for the start of the next frame. */
    var restartQueued: bool

    /** The six stats as gameOver and victory save them. */
    function Snapshot(): Stats
      reads this
    {
      Stats(plrSpeed, plrAttackSpeed, plrMaxHealth, plrDamage, plrXp, plrLevel)
    }

    /** The scene's state as a value. */
    function State(): SceneState
      reads this
    {
      SceneState(registry, Snapshot(), plrHealth, plrWeapon, plrProjDebounce, rearm, projectiles,
                 player, velocity, phase, resetScene, restartQueued)
    }

    ghost predicate Valid()
      reads this
    {
      Consistent(State())
    }

    /** A game scene started with `saved` in the registry. */
    constructor (saved: Stats)
      ensures Valid()
      ensures State() == SceneState(saved, saved, saved.maxHealth, Rocket, true, None, [], PlayerSpawn, Origin, Running, false, false)
    {
      registry := saved;
      resetScene := false;
      new;
      Start();
    }

    /** A start of the scene by the engine: init, then create, on a fresh clock. */
    method Start()
      modifies this
      ensures State() == AfterStart(old(State()))
      ensures Valid()
    {
      ghost var before := State();
      Init();
      Create();
      rearm := None;
      phase := Running;
      restartQueued := false;
      StartLoadsSavedStats(before);
    }

    /** init: the six stats read back from the registry, health set to the maximum, an empty
        projectile group, firing armed, and the rocket chosen. */
    method Init()
      modifies this`plrSpeed, this`plrAttackSpeed, this`plrMaxHealth, this`plrDamage, this`plrXp, this`plrLevel
      modifies this`plrHealth, this`projectiles, this`plrProjDebounce, this`plrWeapon
      ensures State() == AfterInit(old(State()))
    {
      LoadStats();
      projectiles := [];
      plrProjDebounce := true;
      plrWeapon := Rocket;
    }

    /** The stat load at the top of init: the six stats copied from the registry entry, and
        health set to the maximum health just loaded. */
    method LoadStats()
      modifies this`plrSpeed, this`plrAttackSpeed, this`plrMaxHealth, this`plrDamage, this`plrXp, this`plrLevel
      modifies this`plrHealth
      ensures Snapshot() == registry && plrHealth == registry.maxHealth
    {
      var stats := registry;
      plrSpeed := stats.speed;
      plrAttackSpeed := stats.attackSpeed;
      plrMaxHealth := stats.maxHealth;
      plrDamage := stats.damage;
      plrXp := stats.xp;
      plrLevel := stats.level;
      plrHealth := plrMaxHealth;
    }

    /** create, as far as game state goes: the player sprite at its spawn point, at rest, and the
        weapon switched twice. */
    method Create()
      modifies this`player, this`velocity, this`plrWeapon
      ensures State() == AfterCreate(old(State()))
    {
      player := PlayerSpawn;
      velocity := Origin;
      SwitchWeapon();
      SwitchWeapon();
    }

    /** switchWeapon, bound to a pointer press: rocket and axe trade places. Projectiles already
        fired keep the weapon stamped on them. */
    method SwitchWeapon()
      modifies this`plrWeapon
      ensures State() == AfterSwitch(old(State()))
      ensures old(Valid()) ==> Valid()
    {
      if plrWeapon == Rocket {
        plrWeapon := Axe;
      } else {
        plrWeapon := Rocket;
      }
    }

    /** The pause button: launch the pause menu over the paused game. */
    method PressPause()
      requires Valid()
      modifies this`phase
      ensures State() == old(State()).(phase := Paused(PauseMenu))
      ensures Valid()
    {
      phase := Paused(PauseMenu);
    }

    /** The engine's clock update at the start of a running frame: a pending re-arm event gains the
        frame time and, once that reaches its delay, fires and arms firing again. */
    method ClockStep(delta: real)
      modifies this`plrProjDebounce, this`rearm
      ensures State() == AfterClock(old(State()), delta)
    {
      if rearm.Some? {
        var next := AdvanceTimer(rearm.value, delta);
        if next.None? {
          plrProjDebounce := true;
        }
        rearm := next;
      }
    }

    /** The movement part of update. */
    method MovePlayer(keys: Keys, bodyPos: Vec)
      modifies this`velocity, this`player
      ensures State() == AfterMove(old(State()), keys, bodyPos)
    {
      velocity := PlayerVelocity(GetDir(keys), plrSpeed);
      player := ClampToArea(bodyPos, GameArea, Origin);
    }

    /** The shooting part of update. */
    method TrySpawn(aim: Heading, id: real)
      modifies this`plrProjDebounce, this`projectiles, this`rearm
      ensures State() == AfterSpawn(old(State()), aim, id)
    {
      if plrProjDebounce {
        plrProjDebounce := false;
        projectiles := projectiles + [Launch(player, plrWeapon, aim, id)];
        rearm := Some(Timer(CooldownDelay(plrAttackSpeed), 0.0));
      }
    }

    /** The enemy subsystem's handleAction as this scene sees it. */
    method HandleAction(report: EnemyReport)
      modifies this`plrHealth, this`plrXp, this`registry, this`phase, this`resetScene, this`restartQueued
      ensures State() == AfterAction(old(State()), report)
    {
      plrHealth := plrHealth - report.damageTaken;
      plrXp := plrXp + report.xpGained;
      if report.won {
        Victory();
      }
    }

    /** The projectile loop of update: every projectile takes its own step, in place; destroyed
        ones leave the group. The engine walks over a copy of the group, so each projectile present
        at the start is visited once. */
    method StepProjectiles(delta: real)
      modifies this`projectiles
      ensures State() == AfterProjectiles(old(State()), delta)
    {
      var group := projectiles;
      var i, k := 0, 0;
      while i < |group|
        invariant 0 <= i <= |group|
        invariant k + |group| - i == |projectiles|
        invariant projectiles == StepAll(group[..i], delta, GameArea) + group[i..]
      {
        StepInPlace(group, i, StepAll(group[..i], delta, GameArea), delta, GameArea);
        var next := Step(group[i], delta, GameArea);
        if next.Some? {
          projectiles := projectiles[k := next.value];
          k := k + 1;
        } else {
          projectiles := projectiles[..k] + projectiles[k + 1..];
        }
        i := i + 1;
      }
      assert group[..i] == group;
      assert projectiles == StepAll(old(projectiles), delta, GameArea);
    }

    /** levelUp: one level more, full health, and the game paused under the upgrade menu. */
    method LevelUp()
      modifies this`plrLevel, this`plrHealth, this`phase
      ensures State() == AfterLevelUp(old(State()))
    {
      plrLevel := plrLevel + 1;
      plrHealth := plrMaxHealth;
      phase := Paused(UpgradeMenu);
    }

    /** gameOver: save the six stats to the registry, pause under the game-over screen, and mark
        the scene for a restart. */
    method GameOver()
      modifies this`registry, this`phase, this`resetScene
      ensures State() == AfterGameOver(old(State()))
    {
      registry := Snapshot();
      phase := Paused(GameOverScreen);
      resetScene := true;
    }

    /** victory: when a restart is already marked, request it and clear the mark without saving;
        otherwise save the six stats, pause under the victory screen and mark the restart. */
    method Victory()
      modifies this`registry, this`phase, this`resetScene, this`restartQueued
      ensures State() == AfterVictory(old(State()))
    {
      if resetScene {
        restartQueued := true;
        resetScene := false;
        return;
      }
      registry := Snapshot();
      phase := Paused(VictoryScreen);
      resetScene := true;
    }

    /** update, in the source's order. */
    method Update(delta: real, input: FrameInput)
      requires Valid() && delta >= 0.0
      modifies this
      ensures State() == AfterUpdate(old(State()), delta, input)
      ensures Valid()
    {
      ghost var before := State();
      if resetScene {
        restartQueued := true;
        resetScene := false;
        return;
      }
      MovePlayer(input.keys, input.bodyPos);
      TrySpawn(input.aim, input.projectileId);
      HandleAction(input.enemies);
      StepProjectiles(delta);
      CheckProgress();
      assert State() == AfterUpdate(before, delta, input);
      UpdateKeepsConsistent(before, delta, input);
    }

    /** The end of update: the one threshold check, then gameOver when health is at or below 0. */
    method CheckProgress()
      modifies this`plrLevel, this`plrHealth, this`phase, this`registry, this`resetScene
      ensures State() == AfterChecks(old(State()))
    {
      if AtLeast(plrXp, XpAmountForLevel(plrLevel + 1)) {
        LevelUp();
      }
      if plrHealth <= 0.0 {
        GameOver();
      }
    }

    /** One frame as the engine runs it: a queued restart first, then, only while the scene runs,
        the clock update and update itself. */
    method Frame(delta: real, input: FrameInput)
      requires Valid() && delta >= 0.0
      modifies this
      ensures State() == AfterFrame(old(State()), delta, input)
      ensures Valid()
    {
      if restartQueued {
        Start();
      }
      if phase == Running {
        ClockStep(delta);
        ClockKeepsConsistent(AfterQueuedRestart(old(State())), delta);
        Update(delta, input);
      }
    }
  }
}
