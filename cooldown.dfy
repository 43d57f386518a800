/** The firing cooldown across frames. update fires only while `plrProjDebounce` is set, clears it,
    and schedules a one-shot clock event `1000 / attackSpeed` ms later that sets it again. A log
    kept beside the scene, frame by frame, shows that a shot after an earlier one in the same run
    of the scene comes only once the scene's running time since that one has reached the delay. */
module Cooldown {
  import opened Extended
  import opened Optional
  import opened Projectiles
  import opened SceneRules

  /** Shots fired since the scene last started, the scene's running time since the last one, and
      the re-arm delay that shot scheduled. */
  datatype ShotLog = ShotLog(shots: nat, sinceShot: real, lastDelay: Ext)

  const NoShots: ShotLog := ShotLog(0, 0.0, Finite(0.0))

  /** The log agrees with the scene: a pending re-arm event was scheduled by the last shot with the
      current attack speed and has run for exactly the time since; once armed again after a shot,
      the time since that shot has reached its delay. */
  predicate Tracks(log: ShotLog, s: SceneState)
  {
    && (s.rearm.Some? ==> log.shots > 0 && s.rearm.value == Timer(log.lastDelay, log.sinceShot))
    && (log.shots > 0 ==> log.lastDelay == CooldownDelay(s.stats.attackSpeed))
    && (s.debounce && log.shots > 0 ==> AtLeast(log.sinceShot, log.lastDelay))
  }

  /** Whether a frame fires a shot: the scene runs, no restart is marked, and firing is armed once
      the clock has run. */
  predicate FiresShot(s: SceneState, delta: real)
  {
    var started := AfterQueuedRestart(s);
    var clocked := AfterClock(started, delta);
    started.phase == Running && !clocked.resetScene && clocked.debounce
  }

  /** The log after one frame: cleared by a restart, untouched while paused, and otherwise either a
      new shot or the frame time added. */
  function LogFrame(log: ShotLog, s: SceneState, delta: real): ShotLog
  {
    var started := AfterQueuedRestart(s);
    var base := if s.restartQueued then NoShots else log;
    if started.phase != Running then base
    else if FiresShot(s, delta) then ShotLog(base.shots + 1, 0.0, CooldownDelay(started.stats.attackSpeed))
    else base.(sinceShot := base.sinceShot + delta)
  }

  /** A frame that fires leaves firing disarmed and its re-arm event pending from zero; one that
      does not fire adds no projectile. */
  lemma FiringFrameSchedulesRearm(s: SceneState, delta: real, input: FrameInput)
    ensures var r := AfterFrame(s, delta, input);
      && (FiresShot(s, delta) ==>
            !r.debounce && r.rearm == Some(Timer(CooldownDelay(AfterQueuedRestart(s).stats.attackSpeed), 0.0)))
      && (!FiresShot(s, delta) ==>
            |r.projectiles| <= |AfterQueuedRestart(s).projectiles|)
  {
  }

  /** A freshly started scene agrees with the empty log. */
  lemma StartIsTracked(s: SceneState)
    ensures Tracks(NoShots, AfterStart(s))
  {
  }

  /** Every frame keeps the log in agreement with the scene. */
  lemma {:induction false} FrameKeepsTracking(log: ShotLog, s: SceneState, delta: real, input: FrameInput)
    requires Consistent(s) && Tracks(log, s) && delta >= 0.0
    ensures Tracks(LogFrame(log, s, delta), AfterFrame(s, delta, input))
  {
    var started := AfterQueuedRestart(s);
    var base := if s.restartQueued then NoShots else log;
    StartLoadsSavedStats(s);
    assert Consistent(started) && Tracks(base, started);
    if started.phase == Running {
      var clocked := AfterClock(started, delta);
      UpdateKeepsUpgrades(clocked, delta, input);
      var r := AfterUpdate(clocked, delta, input);
      if FiresShot(s, delta) {
        assert r.rearm == Some(Timer(CooldownDelay(started.stats.attackSpeed), 0.0));
      } else {
        assert r.rearm == clocked.rearm && r.debounce == clocked.debounce;
        if started.rearm.Some? {
          var t := started.rearm.value;
          assert t == Timer(base.lastDelay, base.sinceShot);
        } else {
          assert started.debounce;
        }
      }
    }
  }

  /** The cooldown: in a frame that fires, after an earlier shot and with no restart in between,
      the scene's running time since that shot, this frame included, has reached
      `1000 / attackSpeed`. */
  lemma ShotsRespectCooldown(log: ShotLog, s: SceneState, delta: real)
    requires Consistent(s) && Tracks(log, s) && delta >= 0.0
    requires !s.restartQueued && log.shots > 0 && FiresShot(s, delta)
    ensures AtLeast(log.sinceShot + delta, CooldownDelay(s.stats.attackSpeed))
  {
    if s.rearm.Some? {
      assert !s.debounce;
      assert AdvanceTimer(s.rearm.value, delta).None?;
    }
  }
}
