# Game scene frame core

This project is a model of the per-frame logic of `GameScene`, the playing scene of a top-down arena shooter built on Phaser. Each frame of the scene does the following, in order:

- it resolves the two key bindings (arrow keys and WASD) into a unit direction;
- it sets the player's velocity from that direction and clamps the player into the game area;
- it fires a rocket or an axe when the firing debounce allows, and schedules a one-shot clock event that re-arms firing `1000 / attackSpeed` ms later;
- it lets the enemy subsystem act;
- it moves every projectile and retires rockets that leave an enlarged box, and axes whose 700 ms lifespan has run out;
- it checks once whether the xp threshold of the next level is reached;
- it calls `gameOver` when health is at or below 0.

`gameOver` saves six stats (speed, attackSpeed, maxHealth, damage, xp, level) to the registry and marks the scene for a restart. So does `victory`, unless a restart is already marked: then it saves nothing, clears the mark and requests the restart. The next `update` then restarts the scene, and `init` reads the six stats back.

The model is split into these modules:

- `Extended`: numbers extended with JavaScript's `Infinity`. Both the xp threshold past the level cap and `1000 / 0` use it.
- `Geometry`: the game area and `Phaser.Math.Clamp`.
- `Progression`: the xp curve `xpAmountForLevel` and the threshold check. `LevelFor` is a reference definition: the level an amount of xp entitles a player to.
- `Controls`: `isKeyDown` and `getDir`.
- `Projectiles`:
  - `switchWeapon`'s toggle;
  - a projectile's creation and its step in the projectile loop;
  - the loop over the whole group;
  - the one-shot re-arm timer.
- `Collision`: the enemy–wall collider callback registered in `create`.
- `SceneRules`: the scene's state as a value, with one function per operation (init, create, the clock update, each part of `update`, `levelUp`, `gameOver`, `victory`, a whole engine frame). It also holds the properties that relate them.
- `Cooldown`: a log kept beside the scene from frame to frame. It shows that no shot follows an earlier one before `1000 / attackSpeed` ms of the scene's running time have passed.
- `Session`: the class `GameScene`. Its fields are updated in place, one operation at a time. Each method is proved to take `State()` to what `SceneRules` prescribes, and the frame methods keep `Valid()`.

Engine behaviour the model makes explicit:

- The Phaser clock runs before the scene's `update` in a frame. A pending re-arm event accumulates the frame time and fires once it reaches its delay. An event scheduled during a frame first sees the next frame's time.
- `scene.restart()` is queued by the engine and done at the start of the next frame. This is the `restartQueued` flag: `init` and `create` run again, then the frame runs normally.
- `scene.pause` sets the phase to `Paused(overlay)`. A paused scene runs no frames. The rest of the `update` that paused it still runs, as in the source.

Behaviours of the code a reader may not expect:

- One threshold check runs per `update`. A gain of several levels at once is paid out one level per running update (`Progression.LevelsPaidOneAtATime`).
- Health is never clamped at 0.
- `gameOver` is called at the end of the same `update` that takes health to 0 or below.
- Rockets are kept within `width / 1.6` and `height / 1.6` of the area's centre, which is 1.25 times the half-extent.
- The player clamp ignores the player's size. Only the enemy–wall clamp subtracts the sprite's size.
- An axe whose lifespan lands exactly on 0 is not destroyed. `0` is falsy, so its countdown starts again at 700.
- Projectile ids are `Math.random()` draws, and nothing makes them unique.
- A comment next to the re-arm event speaks of 500 ms. The delay is `1000 / attackSpeed`, which is 1000 ms with the title scene's defaults (`SceneRules.FirstGameFromTitleDefaults`).

## Model

| member | source | states |
|---|---|---|
| Geometry.Clamp | js/gameScene.js:309-318 | The result lies within [lo, hi] when lo ≤ hi. A value already inside is unchanged. A value below lo gives lo and a value above hi gives hi. When the bounds cross, the lower bound wins. |
| Geometry.ClampIdempotent | js/gameScene.js:309-318 | Clamping a clamped value changes nothing. |
| Geometry.ClampToArea | js/gameScene.js:159-168 | Each axis is clamped on its own to the area shrunk by the body's size. The result lies inside when the body fits. A position already inside, or an axis already inside, is kept. An axis below its lower bound goes to that bound. An axis above its upper bound goes to that bound, when the bounds do not cross. |
| Geometry.ClampToAreaIdempotent | js/gameScene.js:309-318 | Clamping a clamped position to the same area changes nothing, whatever the sizes. |
| Geometry.ClampToAreaMovesOnlyOutside | js/gameScene.js:309-318 | The clamp moves a position exactly when that position lies outside the area. |
| Progression.XpAmountForLevel | js/gameScene.js:525-533 | The threshold is Infinity exactly from level 40 on. It is 0 exactly up to level 0, and never negative. |
| Progression.XpStep | js/gameScene.js:525-533 | Each level from 0 to 39 needs strictly less xp than the next. |
| Progression.XpStrictlyIncreasing | js/gameScene.js:525-533 | The curve is strictly increasing on levels 0..40, with level 40 at Infinity. |
| Progression.XpBarSpan | js/gameScene.js:431-434 | The xp bar's span at level n is 100·(n+1) for 0 ≤ n ≤ 38. |
| Progression.LevelUpStaysBelowCap | js/gameScene.js:427-429 | A level-up is only due below level 39, so it never lifts the level past 39. |
| Progression.LevelFor | js/gameScene.js:525-533 | The level an amount of xp entitles a player to: the highest level in 0..39 whose threshold that xp reaches. |
| Progression.LevelUpDueIffBehind | js/gameScene.js:427-429 | The threshold check fires exactly when the level is below the entitled level. |
| Progression.LevelsPaidOneAtATime | js/gameScene.js:427-429 | After k checks with no xp gained, the level is min(level + k, entitled level). |
| Controls.IsKeyDown | js/gameScene.js:35-41 | The result is 0 or 1. It is 1 exactly when either binding holds the direction's key. |
| Controls.GetDir | js/gameScene.js:45-62 | The vector is zero exactly when both axes are 0. Otherwise it has each axis's sign and equal magnitude on diagonals. Its squared length is 1 on an axis and in (1 − 1e-15, 1] on a diagonal. |
| Controls.BindingsAreInterchangeable | js/gameScene.js:35-41 | Exchanging the two bindings gives the same direction. |
| Projectiles.Switched | js/gameScene.js:452-460 | The weapon always changes. |
| Projectiles.SwitchedTwice | js/gameScene.js:262-263 | Switching twice gives the weapon back, so create leaves the rocket chosen. |
| Projectiles.Launch | js/gameScene.js:326-351 | A new projectile carries the current weapon, the aim heading and the id. It has no lifespan and sits at the player displaced by 27·(sin, −cos) of its heading. |
| Projectiles.Step | js/gameScene.js:384-421 | One loop turn keeps id, weapon and heading, and displaces by speed·delta·(sin, −cos), with the stamped weapon's speed (0.3 rocket, 0.05 axe). A rocket survives exactly when inside width/1.6 × height/1.6 and keeps its lifespan. An axe is destroyed exactly when a set lifespan minus delta is negative. An axe with no lifespan survives with 700. A surviving axe with a set lifespan holds lifespan − delta, or 700 when that is exactly 0. |
| Projectiles.AxeLifespanStaysInRange | js/gameScene.js:405-420 | Take an axe whose lifespan is unset or in (0, 700], and delta ≥ 0. If it survives, it holds a lifespan in (0, 700]. |
| Projectiles.AxeExactZeroRestarts | js/gameScene.js:410-419 | A countdown landing exactly on 0 keeps the axe and resets its lifespan to 700. |
| Projectiles.StepAll | js/gameScene.js:384-421 | The loop never grows the group. Every survivor is the step of some projectile of the group, and every projectile whose step survives leaves that survivor in the group. |
| Projectiles.StepAllSingle | js/gameScene.js:384-421 | A group of one becomes that projectile's survivor, or empty. With StepAllAppend this fixes the pass, order included. |
| Projectiles.StepInPlace | js/gameScene.js:384-421 | Overwriting the next projectile with its survivor, or cutting it out when destroyed, extends the stepped prefix by one. |
| Projectiles.StepAllAppend | js/gameScene.js:384-421 | Projectiles are stepped independently: stepping a + b is stepping a, then b. |
| Projectiles.StepAllSettled | js/gameScene.js:384-421 | Take a group whose lifespans are all unset or in (0, 700], and delta ≥ 0. Every survivor is settled: a rocket inside the rocket box, an axe with a lifespan in (0, 700]. |
| Projectiles.AxeSurvivesWithinLifespan | js/gameScene.js:405-420 | Over frames adding up to less than its lifespan, an axe survives and holds exactly what is left. |
| Projectiles.AxeRetiredAfterLifespan | js/gameScene.js:405-420 | An axe is destroyed once the frames add up to more than its lifespan, unless some prefix lands exactly on it. |
| Projectiles.LaunchedAxeSurvives | js/gameScene.js:405-420 | A launched axe takes 700 on its first frame. It survives later frames adding up to less than 700 and holds exactly what is left. |
| Projectiles.LaunchedAxeRetired | js/gameScene.js:405-420 | A launched axe is destroyed once the frames after its first add up to more than 700, unless some prefix lands exactly on 700. |
| Projectiles.CooldownDelay | js/gameScene.js:372-377 | The re-arm delay is Infinity exactly for attackSpeed 0. For attackSpeed > 0 it is positive with delay · attackSpeed = 1000. |
| Projectiles.AdvanceTimer | js/gameScene.js:372-377 | The event fires exactly when its accumulated time reaches the delay. Otherwise it keeps the delay and adds the frame time. |
| Projectiles.TimerFiresIffDelayReached | js/gameScene.js:372-377 | Over non-negative frames, a pending event has fired exactly when the frames reach its delay, never earlier or later. |
| Collision.Rebound | js/gameScene.js:170-173 | Each rebound component lies in [−200, 200). |
| Collision.ReboundOneToOne | js/gameScene.js:170-173 | Each speed in [−200, 200) comes from exactly one draw in [0, 1), namely (v/200 + 1)/2. |
| Collision.WallContact | js/gameScene.js:155-175 | The size is kept. The new position is the area clamp with the enemy's own size: inside the shrunk area when it fits, unchanged when already inside, and the nearer bound on an axis outside. The new velocity is (Rebound(u1), Rebound(u2)), each in [−200, 200). |
| Collision.ReboundIgnoresIncomingVelocity | js/gameScene.js:170-173 | The new state does not depend on the incoming velocity. |
| Collision.WallContactSettles | js/gameScene.js:159-168 | A second contact leaves the position where the first put it. |
| SceneRules.StartLoadsSavedStats | js/gameScene.js:65-86 | A start copies the six saved stats and sets health to maxHealth. It arms firing with the rocket, empties the group, runs, and is consistent. The registry and resetScene survive it. |
| SceneRules.FirstGameFromTitleDefaults | js/titleScene.js:18-27 | Starting from the title defaults gives level 0, 100 health and a 1000 ms cooldown. |
| SceneRules.PausedFrameChangesNothing | js/gameScene.js:548-550 | A paused scene with no queued restart is left unchanged by a frame. |
| SceneRules.UpdateRestartMark | js/gameScene.js:293-299 | With resetScene set, update queues the restart, clears the mark and changes nothing else. Otherwise the mark ends set exactly when victory was reported or health ended ≤ 0. |
| SceneRules.ChecksLevelAtMostOnce | js/gameScene.js:426-441 | The checks raise the level by at most 1, and only the level. They do so exactly when behind the entitled level, never past 39, and a level-up heals fully. With maxHealth > 0, a level-up leaves the game paused under the upgrade menu with no gameOver: the registry and resetScene are unchanged. |
| SceneRules.UpdateLevelsAtMostOnce | js/gameScene.js:379-441 | update adds the reported xp and raises the level by at most 1, exactly when behind LevelFor(new xp), never past 39. Health ends at maxHealth after a level-up, and otherwise at health − damage. |
| SceneRules.UpdateKeepsUpgrades | js/gameScene.js:292-442 | update never changes speed, attackSpeed, maxHealth, damage or the weapon. |
| SceneRules.FrameKeepsUpgrades | js/gameScene.js:65-86 | A frame keeps those stats and the weapon, except that a restart loads the saved stats and the rocket. |
| SceneRules.DeathSavesProgress | js/gameScene.js:463-490 | A death saves the current stats, pauses under the game-over screen and sets resetScene. |
| SceneRules.DeathThenRestartKeepsProgress | js/gameScene.js:293-299 | After a death and a resume, the next frame queues the restart. The restarted scene has the stats reached at death and full health. |
| SceneRules.VictoryWhenMarkedOnlyRestarts | js/gameScene.js:492-497 | victory with resetScene set queues the restart, clears the mark, and changes nothing else. In particular it saves nothing to the registry. |
| SceneRules.VictoryTwiceRestarts | js/gameScene.js:492-522 | The first victory saves the stats, pauses and sets the mark. The second only queues the restart and clears the mark, so the registry holds the first call's stats. |
| SceneRules.FrameAddsAtMostOneProjectile | js/gameScene.js:320-377 | A frame adds at most one projectile. |
| SceneRules.ClockKeepsConsistent | js/gameScene.js:372-377 | The clock update keeps firing armed exactly when no re-arm event is pending. |
| SceneRules.UpdateKeepsConsistent | js/gameScene.js:292-442 | update keeps the debounce matching the timer and the player in the area. Every projectile is settled. |
| SceneRules.FrameKeepsConsistent | js/gameScene.js:292-442 | Every frame keeps the scene consistent. |
| SceneRules.FrameKeepsLevelsInRange | js/gameScene.js:536-546 | Level and saved level stay in 0..39 across any frame. |
| Cooldown.FiringFrameSchedulesRearm | js/gameScene.js:322-377 | A firing frame disarms and schedules the re-arm from zero with 1000/attackSpeed. A non-firing frame adds no projectile. |
| Cooldown.StartIsTracked | js/gameScene.js:84 | A fresh start agrees with the empty shot log. |
| Cooldown.FrameKeepsTracking | js/gameScene.js:320-377 | Every frame keeps the shot log in agreement with the scene. |
| Cooldown.ShotsRespectCooldown | js/gameScene.js:372-377 | A shot after an earlier one in the same run comes only once the running time since that shot reaches 1000/attackSpeed. |
| Session.GameScene.constructor | js/gameScene.js:65-86 | A new scene holds the saved stats, full health, the rocket, firing armed, no projectiles, the player at the spawn and running. |
| Session.GameScene.Start | js/gameScene.js:65-86 | A start is init then create, and leaves the scene valid. |
| Session.GameScene.Init | js/gameScene.js:65-86 | init loads the stats, empties the group, arms firing and chooses the rocket. |
| Session.GameScene.LoadStats | js/gameScene.js:66-79 | The six stats equal the registry entry, and health equals its maxHealth. |
| Session.GameScene.Create | js/gameScene.js:178-263 | The player is at (400, 300), at rest, with the weapon switched twice. |
| Session.GameScene.SwitchWeapon | js/gameScene.js:445-461 | The weapon toggles, nothing else changes, and a valid scene stays valid. |
| Session.GameScene.PressPause | js/gameScene.js:238-246 | On a valid scene, only the phase changes, to paused under the pause menu, and the scene stays valid. |
| Session.GameScene.ClockStep | js/gameScene.js:372-377 | The pending event advances, and firing is re-armed when it fires. |
| Session.GameScene.MovePlayer | js/gameScene.js:300-318 | Velocity is set from getDir, and the body's position is clamped to the area. |
| Session.GameScene.TrySpawn | js/gameScene.js:320-377 | When armed, the scene disarms, appends the launched projectile and schedules the re-arm. |
| Session.GameScene.HandleAction | js/gameScene.js:379-380 | Damage and xp are applied, and victory is called when the enemies report a win. |
| Session.GameScene.StepProjectiles | js/gameScene.js:384-421 | The loop steps the group in place, and the group ends equal to StepAll of the old group. |
| Session.GameScene.LevelUp | js/gameScene.js:536-551 | The level goes up by 1, health becomes maxHealth, and the scene pauses under the upgrade menu. |
| Session.GameScene.GameOver | js/gameScene.js:463-490 | The six stats are saved, the scene pauses under the game-over screen, and resetScene is set. |
| Session.GameScene.Victory | js/gameScene.js:492-522 | With resetScene set, the restart is queued and the mark cleared. Otherwise the stats are saved, the scene pauses, and the mark is set. |
| Session.GameScene.Update | js/gameScene.js:292-442 | The state follows update's steps in order, and the scene stays valid. |
| Session.GameScene.CheckProgress | js/gameScene.js:426-441 | One threshold check, then gameOver when health ≤ 0. |
| Session.GameScene.Frame | js/gameScene.js:292-299 | A queued restart runs first. Then, only while running, the clock update and update run. The scene stays valid. |

## Left out

- Rendering, audio and UI are not modelled: asset loading, sprites, tints, the camera background, the music and debug buttons, the hp and xp bars, the level text and the cursor style. The xp bar's span is stated as a lemma, but the drawing is not.
- Floating point is not modelled. Positions and times are reals. `Math.sin`/`Math.cos` of a projectile's rotation are given as a heading, and the pointer angle is an input. The one exception is the diagonal scale `1 / Math.sqrt(2)`, which is written out as its exact double value.
- Randomness is an input. The `Math.random()` draws for the rebound velocity and the projectile id are parameters.
- The physics engine is an input. Where it moved the player's body this frame is given, and the clamp is applied to it. Collider registration, hit-box sizes and the `setScale`/`setPushable` calls are left out.
- enemyHandler.js and UIhandler.js are not part of this model. `handleAction` is an `EnemyReport`: damage taken, xp gained, and whether victory was reached. Enemy-vs-projectile hits, which can also destroy projectiles, belong to it.
- The overlay scenes (pause menu, upgrade, game-over and victory screens) are not part of this model. Resuming the game scene is the phase being set back to `Running`. The upgrade scene's stat changes are not modelled.
- When one `update` both levels up and calls `gameOver`, both overlays are launched. `Phase` records only the last one.
- The `data.restart` value read in `init` is stored but never used by the core, so it is left out.
- Session.GameScene.Update: requires a frame time ≥ 0, which the engine always supplies. Without it an axe's lifespan could grow past 700.
- Session.GameScene.Frame: requires a frame time ≥ 0, for the same reason.
