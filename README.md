# VoidLoop gameplay core in Dafny

VoidLoop is a Unity horror loop game. The player wakes in a corridor, walks it, and
judges whether the scene holds an anomaly. The red door means "anomaly" and the blue
door means "normal". A correct verdict advances a round. A wrong one sends the player
back to the start.

This project models the scripts that hold the game's rules as state machines, lifted
out of the engine. Each script becomes one Dafny file and one module:

| file | module | script |
|---|---|---|
| `level_manager.dfy` | `LevelProgress` | `LevelManager`: round and verdict counters, the non-repeating anomaly picker, the round and status labels |
| `scene_door.dfy` | `Doors` | `SceneDoor`: the one-shot verdict door and the events it fires |
| `weeping_enemy_spawner.dfy` | `Spawning` | `WeepingEnemySpawner`: the trigger gate, spawn-point selection, spawned-list bookkeeping |
| `pause_manager.dfy` | `Pausing` | `PauseManager`: the registry of behaviours switched off while paused, and pause/resume |
| `aaa_flashlight.dfy` | `AaaFlashlight` | `AAA_Flashlight`: on/off switching with transitions, battery drain/recharge, low-battery beeps, the intensity factor |
| `flashlight.dfy` | `SimpleFlashlight` | `Flashlight`: the simple flashlight with an optional battery |
| `trigger_sound_player.dfy` | `TriggerSound` | `TriggerSoundPlayer`: play-once, cooldown and trigger-type gates |
| `story_introduction.dfy` | `Story` | `StoryIntroduction`: the once-per-session story and its typewriter |
| `tutorial_manager.dfy` | `Tutorial` | `TutorialManager`: the eleven typed hints and Enter-to-skip |
| `common.dfy` | `Wrappers`, `UnityMath` | `Option`, and the parts of Unity's `Mathf` the scripts use (`Clamp01`, `Min`, a clamping `Lerp`) |

How the engine is modelled:
- Components whose fields change become classes. Their methods carry `modifies` clauses, and their ensures give the new value of each field the game's logic reads.
- Pure expressions become functions (`IsCorrectChoice`, `ShouldShowStory`, `IntensityFactor`, `TryPlayOutcome`).
- Loops stay loops, with invariants tying them to a specification function: the available-index scan, the first-minimum and first-maximum scans, the pause-list loops and the typewriters.
- Engine queries become parameters:
  - `Random.value` is `draw`, and `Random.Range(0, n)` is `roll % n`.
  - `Time.time` is `now` and `Time.deltaTime` is `dt`.
  - `Vector3.Distance` from the player to spawn point `i` is `distances[i]`.
- Object references become ids, with `Option.None` for null. A scene load names the per-scene behaviours it destroyed (`destroyed` of `PauseManager.OnSceneLoaded`); their entries then compare equal to null, as in Unity.
- A scene load is the scene name a method returns.
- A coroutine's later part is a separate method, guarded by a counter of started coroutines (`pendingEnables`, `pendingPlays`).
- Floats are `real`.
- The static fields of `LevelManager` and `StoryIntroduction` live in one shared object: the `LevelManager` instance and a `StorySession`.

## Model

| member | source | states |
|---|---|---|
| LevelProgress.IsCorrectChoice | Assets/Scripts/LevelManager.cs:114-125 | a door choice is correct exactly when the anomaly door was chosen in an anomaly scene or the normal door in a normal one |
| LevelProgress.Unused | Assets/Scripts/LevelManager.cs:205-212 | the free list holds exactly the indices below n not in the used list, ascending and duplicate-free |
| LevelProgress.WillBeAnomaly | Assets/Scripts/LevelManager.cs:178-181 | an anomaly is chosen only with a draw below anomalyChance, a non-empty scene list and fewer used indices than scenes |
| LevelProgress.AvailableIndices | Assets/Scripts/LevelManager.cs:205-212 | the collecting loop returns exactly the free list `Unused(used, n)` |
| LevelProgress.UsedListBounded | Assets/Scripts/LevelManager.cs:44 | a duplicate-free list of indices below n is at most n long |
| LevelProgress.UnusedNonEmpty | Assets/Scripts/LevelManager.cs:178-215 | whenever LoadNextScene takes the anomaly branch, some index is still free, so the reset branch is not taken from there |
| LevelProgress.AppendFresh | Assets/Scripts/LevelManager.cs:225-226 | appending a free index keeps the used list duplicate-free, in range and no longer than the scene list |
| LevelProgress.UnusedOfNothing | Assets/Scripts/LevelManager.cs:215-222 | after the reset the free list is 0, 1, ..., n-1 |
| LevelProgress.DecimalString | Assets/Scripts/LevelManager.cs:290 | the decimal rendering of a number is a non-empty string of digits |
| LevelProgress.DecimalRoundTrip | Assets/Scripts/LevelManager.cs:290 | reading the decimal rendering back gives the number |
| LevelProgress.LevelTextNamesRound | Assets/Scripts/LevelManager.cs:290 | the round label is "Round " followed by the 1-based round number |
| LevelProgress.StatusText | Assets/Scripts/LevelManager.cs:301 | the status label is "ANOMALY" exactly in an anomaly scene and "NORMAL" otherwise |
| LevelProgress.LevelManager.constructor | Assets/Scripts/LevelManager.cs:40-44 | the counters start at 0, the flag false and the used list empty, which satisfies the invariant |
| LevelProgress.LevelManager.DetermineCurrentSceneState | Assets/Scripts/LevelManager.cs:89-107 | the normal scene clears the flag, a listed anomaly scene sets it, any other name leaves it; nothing else changes |
| LevelProgress.LevelManager.OnSceneLoaded | Assets/Scripts/LevelManager.cs:73-87 | settles the flag as above and produces the two labels of UpdateLevelUI |
| LevelProgress.LevelManager.ProcessDoorChoice | Assets/Scripts/LevelManager.cs:112-141 | a correct choice counts one more correct choice and loads the next scene, or nothing once the win condition is met; a wrong one counts a mistake, zeroes the progress and loads the normal scene; the invariant (round = correct count, used list duplicate-free and bounded) is kept |
| LevelProgress.LevelManager.HandleCorrectChoice | Assets/Scripts/LevelManager.cs:143-157 | correct count and round rise by one; at the win condition no scene is chosen and the used list is unchanged |
| LevelProgress.LevelManager.HandleWrongChoice | Assets/Scripts/LevelManager.cs:159-173 | wrongChoices rises by one, round, correct count and used list are zeroed, the normal scene is loaded |
| LevelProgress.LevelManager.LoadNextScene | Assets/Scripts/LevelManager.cs:175-200 | with WillBeAnomaly the scene is the anomaly scene at a fresh index appended to the used list; otherwise it is the normal scene and the list is unchanged |
| LevelProgress.LevelManager.GetRandomUnusedAnomalyScene | Assets/Scripts/LevelManager.cs:202-229 | appends the rolled free index and returns its scene; when all are used, the list is cleared and then holds only the rolled index |
| LevelProgress.LevelManager.ResetProgress | Assets/Scripts/LevelManager.cs:267-272 | round, correct count and used list are zeroed; wrongChoices is kept |
| LevelProgress.LevelManager.ResetGame | Assets/Scripts/LevelManager.cs:274-279 | everything including wrongChoices is zeroed and the normal scene is loaded |
| Doors.IsCorrect | Assets/Scripts/SceneDoor.cs:71-75 | the door's verdict expression equals LevelManager's correctness rule |
| Doors.OpeningCounts | Assets/Scripts/SceneDoor.cs:56-65 | the opening events hold DoorEntered once and no verdict, notification or error |
| Doors.VerdictCounts | Assets/Scripts/SceneDoor.cs:77-88 | the verdict events hold one verdict, the wrong-choice sound only with a wrong verdict, and one notification |
| Doors.UseFiresOneVerdict | Assets/Scripts/SceneDoor.cs:51-89 | with a LevelManager a use fires exactly one of the two verdicts, the right one, the wrong sound only when wrong, and one notification |
| Doors.UseWithoutManager | Assets/Scripts/SceneDoor.cs:90-93 | without a LevelManager a use fires no verdict, schedules nothing and logs the error once |
| Doors.SceneDoor.constructor | Assets/Scripts/SceneDoor.cs:31 | a new door is unused |
| Doors.SceneDoor.OnTriggerEnter | Assets/Scripts/SceneDoor.cs:35-49 | only the player on an unused door uses it; any other collider, or a used door, changes nothing and fires nothing |
| Doors.SceneDoor.UseDoor | Assets/Scripts/SceneDoor.cs:51-94 | the door is used afterwards; a first use fires UseEvents, a later one fires nothing |
| Doors.SceneDoor.NotifyLevelManager | Assets/Scripts/SceneDoor.cs:96-99 | the LevelManager scores `doorType == Anomaly` and keeps its invariant; a correct choice counts one more correct choice and returns None with the used list unchanged at the win condition, else the scene LoadNextScene chooses; a wrong one counts a mistake, zeroes the progress and returns the normal scene; without a LevelManager nothing happens |
| Doors.SceneDoor.OnEnable | Assets/Scripts/SceneDoor.cs:110-113 | re-enabling makes the door usable again |
| Doors.PassThroughDoor | Assets/Scripts/SceneDoor.cs:51-99 | the verdict event the door fires agrees with the counter the LevelManager then increments |
| Spawning.ClosestIndex | Assets/Scripts/WeepingEnemySpawner.cs:189-202 | the scan returns the earliest point of least distance below float.MaxValue, or 0 when there is none |
| Spawning.FarthestIndex | Assets/Scripts/WeepingEnemySpawner.cs:209-222 | the scan returns the earliest point of greatest positive distance, or 0 when there is none |
| Spawning.ClosestIsUnique | Assets/Scripts/WeepingEnemySpawner.cs:185-203 | the closest-point rule determines a single index |
| Spawning.FarthestIsUnique | Assets/Scripts/WeepingEnemySpawner.cs:205-223 | the farthest-point rule determines a single index |
| Spawning.FarthestOfZeroDistances | Assets/Scripts/WeepingEnemySpawner.cs:210-222 | when all distances are 0 the farthest point is index 0 |
| Spawning.PresentIds | Assets/Scripts/WeepingEnemySpawner.cs:225-234 | All mode creates at most one enemy per point |
| Spawning.PresentIdsMembers | Assets/Scripts/WeepingEnemySpawner.cs:225-234 | All mode creates enemies at exactly the assigned points, one for each point that is not unassigned, so one per point when all are assigned |
| Spawning.PresentIdsCount | Assets/Scripts/WeepingEnemySpawner.cs:225-234 | All mode creates as many enemies as there are points, less the unassigned ones |
| Spawning.PresentAt | Assets/Scripts/WeepingEnemySpawner.cs:138-148 | the picks create at most one enemy each |
| Spawning.PresentAtCount | Assets/Scripts/WeepingEnemySpawner.cs:138-148 | the picks create one enemy per pick whose slot is assigned: the enemies All mode would create over the picked slots |
| Spawning.PresentAtSnoc | Assets/Scripts/WeepingEnemySpawner.cs:142 | one more pick appends that point's enemy, if any |
| Spawning.PresentAtAllAssigned | Assets/Scripts/WeepingEnemySpawner.cs:138-148 | with every point assigned, the picks create one enemy each, at the picked points in pick order |
| Spawning.WeepingEnemySpawner.constructor | Assets/Scripts/WeepingEnemySpawner.cs:47-50 | a new spawner is untriggered, with no enemies and round-robin index 0 |
| Spawning.WeepingEnemySpawner.GetSpawnPoint | Assets/Scripts/WeepingEnemySpawner.cs:159-183 | index 0 for a single point; else a rolled, round-robin, closest or farthest point by mode, the round-robin index advancing modulo the count in Sequential mode only |
| Spawning.WeepingEnemySpawner.GetClosestSpawnPoint | Assets/Scripts/WeepingEnemySpawner.cs:185-203 | with a player the first closest point, without one index 0 |
| Spawning.WeepingEnemySpawner.GetFarthestSpawnPoint | Assets/Scripts/WeepingEnemySpawner.cs:205-223 | with a player the first farthest point, without one index 0 |
| Spawning.WeepingEnemySpawner.SpawnAtPoint | Assets/Scripts/WeepingEnemySpawner.cs:236-268 | an assigned point adds its enemy to the list; an unassigned one does nothing |
| Spawning.WeepingEnemySpawner.SpawnAtAllPoints | Assets/Scripts/WeepingEnemySpawner.cs:225-234 | appends the enemies of all assigned points in order |
| Spawning.WeepingEnemySpawner.SpawnNext | Assets/Scripts/WeepingEnemySpawner.cs:142 | one GetSpawnPoint pick followed by its SpawnAtPoint |
| Spawning.WeepingEnemySpawner.SpawnPicks | Assets/Scripts/WeepingEnemySpawner.cs:138-148 | spawnCount (or 1) picks, each what GetSpawnPoint returns at the round-robin index reached so far, and the enemies of their assigned points appended |
| Spawning.WeepingEnemySpawner.SpawnEnemies | Assets/Scripts/WeepingEnemySpawner.cs:110-157 | `SpawnedFrom`: no prefab or no points changes nothing; otherwise the old list is replaced by the All-mode enemies, or by the enemies of PickCount() picks, each what GetSpawnPoint returns at the round-robin index reached so far, and the index moves past them |
| Spawning.WeepingEnemySpawner.OnTriggerEnter | Assets/Scripts/WeepingEnemySpawner.cs:83-108 | only the player, and not after a spawnOnce trigger has fired, triggers; a positive delay defers the spawn and changes neither enemies nor index; an immediate spawn leaves exactly what SpawnEnemies leaves |
| Spawning.WeepingEnemySpawner.TriggerSpawn | Assets/Scripts/WeepingEnemySpawner.cs:294-299 | the same once-only gate; a refused call changes nothing, a fired one leaves exactly what SpawnEnemies leaves |
| Spawning.WeepingEnemySpawner.ClearSpawnedEnemies | Assets/Scripts/WeepingEnemySpawner.cs:270-280 | the list is emptied; nothing else changes |
| Spawning.WeepingEnemySpawner.ClearEnemies | Assets/Scripts/WeepingEnemySpawner.cs:304-307 | the list is emptied; nothing else changes |
| Spawning.WeepingEnemySpawner.ResetSpawner | Assets/Scripts/WeepingEnemySpawner.cs:312-316 | rearms the trigger and empties the list; the round-robin index stays |
| Spawning.WeepingEnemySpawner.OnEnable | Assets/Scripts/WeepingEnemySpawner.cs:283-287 | rearms the trigger and restarts the round robin at 0 |
| Pausing.WithEnabled | Assets/Scripts/PauseManager.cs:115-119 | setting the flag over a list sets it on exactly the listed non-null behaviours and leaves the others |
| Pausing.AddMissing | Assets/Scripts/PauseManager.cs:92-97 | registration keeps the list as a prefix, appends only non-null entries, adds exactly the given ids, and keeps the list duplicate-free |
| Pausing.WithoutNulls | Assets/Scripts/PauseManager.cs:72 | removing nulls leaves only non-null entries with the same ids |
| Pausing.WithoutNullsNoDuplicates | Assets/Scripts/PauseManager.cs:72 | removing nulls keeps a duplicate-free list duplicate-free |
| Pausing.AppendMissing | Assets/Scripts/PauseManager.cs:92-97 | the registration loop computes AddMissing |
| Pausing.ApplyEnabled | Assets/Scripts/PauseManager.cs:115-119 | a loop setting `enabled` on the non-null entries computes WithEnabled |
| Pausing.PauseManager.constructor | Assets/Scripts/PauseManager.cs:15-26 | not paused, pausing allowed, time running |
| Pausing.PauseManager.RegisterForPause | Assets/Scripts/PauseManager.cs:88-105 | a null array changes nothing; otherwise the missing non-null behaviours are appended, and while paused the given ones are switched off |
| Pausing.PauseManager.SetListedEnabled | Assets/Scripts/PauseManager.cs:115-119 | every non-null listed behaviour gets the value |
| Pausing.PauseManager.Pause | Assets/Scripts/PauseManager.cs:107-129 | no-op when paused; otherwise paused, timeScale 0 and all listed behaviours off |
| Pausing.PauseManager.Resume | Assets/Scripts/PauseManager.cs:131-151 | no-op when not paused; otherwise unpaused, timeScale 1 and one re-enable step pending, the flags untouched for now |
| Pausing.PauseManager.EnableScriptsNextFrame | Assets/Scripts/PauseManager.cs:153-162 | the pending step switches all listed behaviours on, whatever the pause state is by then |
| Pausing.PauseManager.ForceResume | Assets/Scripts/PauseManager.cs:177-190 | unconditionally unpaused, timeScale 1 and all listed behaviours on |
| Pausing.PauseManager.OpenSettings | Assets/Scripts/PauseManager.cs:164-168 | pauses first when not paused, so the game is paused afterwards |
| Pausing.PauseManager.BackToMenu | Assets/Scripts/PauseManager.cs:170-174 | a forced resume (unpaused, timeScale 1, all listed behaviours on, a pending re-enable step kept), then the main menu scene is loaded |
| Pausing.NullDestroyed | Assets/Scripts/PauseManager.cs:71-72 | after a scene load the entries of destroyed behaviours are null and all others stay in place, so the listed ids are the old ones less the destroyed |
| Pausing.PauseManager.OnSceneLoaded | Assets/Scripts/PauseManager.cs:50-73 | the load's destroyed behaviours become null, the player is listed if missing; the main menu disables pausing and force-resumes, other scenes enable pausing and drop nulls; the listed ids end as the old ones less the destroyed, plus the player |
| Pausing.PauseManager.Update | Assets/Scripts/PauseManager.cs:75-85 | while pausing is disabled, or without the key, nothing changes; the key pauses a running game (timeScale 0, listed behaviours off) and resumes a paused one (timeScale 1, one re-enable step pending, flags untouched) |
| AaaFlashlight.BatteryPercent | Assets/Scripts/AAA_Flashlight.cs:884 | the percent is in [0, 1]: charge over capacity clamped, or 1 without the battery system |
| AaaFlashlight.ValidatedCriticalThreshold | Assets/Scripts/AAA_Flashlight.cs:899-902 | the corrected critical threshold never exceeds the low one |
| AaaFlashlight.CriticalImpliesLow | Assets/Scripts/AAA_Flashlight.cs:887-902 | with corrected thresholds a critical battery is also low |
| AaaFlashlight.DrainKeepsWarnings | Assets/Scripts/AAA_Flashlight.cs:523-534 | draining never lifts a battery out of the IsLowBattery or IsCriticalBattery range (lines 887-888), so the beeps keep going while the charge falls |
| AaaFlashlight.IntensityFactor | Assets/Scripts/AAA_Flashlight.cs:670-687 | the factor lies in [0.2, 1]: at least 0.95 above the low threshold, 0.6-0.95 between the thresholds, at most 0.6 below the critical one |
| AaaFlashlight.IntensityFactorMonotone | Assets/Scripts/AAA_Flashlight.cs:670-687 | a fuller battery never gives a dimmer light |
| AaaFlashlight.IntensityFactorAtLowAndFull | Assets/Scripts/AAA_Flashlight.cs:672-676 | the factor is 0.95 at the low threshold and 1 on a full battery |
| AaaFlashlight.IntensityFactorAtCriticalAndEmpty | Assets/Scripts/AAA_Flashlight.cs:677-686 | the factor is 0.6 at the critical threshold and 0.2 on an empty battery |
| AaaFlashlight.AaaFlashlight.constructor | Assets/Scripts/AAA_Flashlight.cs:232-236 | a full battery, isOn as startsOn, transition progress 1 when on and 0 when off |
| AaaFlashlight.AaaFlashlight.TurnOn | Assets/Scripts/AAA_Flashlight.cs:813-837 | no-op when on or when the battery is in use and empty; otherwise on, rising transition, beep timer 0 and interval 3 |
| AaaFlashlight.AaaFlashlight.TurnOff | Assets/Scripts/AAA_Flashlight.cs:839-849 | no-op when off; otherwise off with a falling transition |
| AaaFlashlight.AaaFlashlight.ForceTurnOff | Assets/Scripts/AAA_Flashlight.cs:851-859 | off with a falling transition, unconditionally |
| AaaFlashlight.AaaFlashlight.Toggle | Assets/Scripts/AAA_Flashlight.cs:807-811 | turns off when on, keeping the beep timing; when off it turns on with a rising transition and fresh beep timing (timer 0, interval 3) unless the battery is in use and empty, in which case nothing changes |
| AaaFlashlight.AaaFlashlight.HandleBattery | Assets/Scripts/AAA_Flashlight.cs:509-546 | drains while on, clamps at 0 and forces the light off, runs the low-battery beep timer and shortens the interval when critical; recharges while off, capped at capacity; the charge stays in [0, capacity] |
| AaaFlashlight.AaaFlashlight.HandleTransition | Assets/Scripts/AAA_Flashlight.cs:693-715 | progress moves toward the direction's bound and stops there; the transition ends exactly when the bound is reached; progress stays in [0, 1] |
| AaaFlashlight.AaaFlashlight.RechargeBattery | Assets/Scripts/AAA_Flashlight.cs:861-864 | adds the amount, never beyond capacity; the switch, the transition and the beep timing are unchanged |
| AaaFlashlight.AaaFlashlight.FullRecharge | Assets/Scripts/AAA_Flashlight.cs:866-869 | the battery is exactly full; the switch, the transition and the beep timing are unchanged |
| SimpleFlashlight.BatteryPercent | Assets/Scripts/Flashlight.cs:186 | the percent is charge over capacity, not clamped, or 1 without the battery system; it is in [0, 1] exactly when the charge is in range |
| SimpleFlashlight.DimmedIntensity | Assets/Scripts/Flashlight.cs:151-152 | the dimmed intensity runs from 30% of the base intensity when empty to all of it when full |
| SimpleFlashlight.Flashlight.constructor | Assets/Scripts/Flashlight.cs:75-79 | a full battery, isOn as startsOn and the light showing it |
| SimpleFlashlight.Flashlight.Toggle | Assets/Scripts/Flashlight.cs:160-167 | always flips isOn, whatever the battery holds |
| SimpleFlashlight.Flashlight.TurnOn | Assets/Scripts/Flashlight.cs:169-172 | on afterwards; nothing else changes |
| SimpleFlashlight.Flashlight.TurnOff | Assets/Scripts/Flashlight.cs:174-177 | off afterwards; nothing else changes |
| SimpleFlashlight.Flashlight.HandleBattery | Assets/Scripts/Flashlight.cs:141-158 | drains while on, clamps at 0 and turns off, and dims with the charge; recharges while off, capped at capacity; the charge stays in [0, capacity] |
| TriggerSound.TryPlayOutcome | Assets/Scripts/TriggerSoundPlayer.cs:175-197 | the gates in order: played-once, cooldown, missing clip; otherwise a delayed schedule or an immediate play |
| TriggerSound.TagFilterAdmits | Assets/Scripts/TriggerSoundPlayer.cs:159-165 | IsValidTarget admits every collider without the tag filter, and exactly the colliders with the trigger tag with it |
| TriggerSound.SecondTriggerStillSchedules | Assets/Scripts/TriggerSoundPlayer.cs:189-203 | a trigger during a pending delay schedules again, since nothing was recorded yet |
| TriggerSound.PlayOnceRefusesAfterPlay | Assets/Scripts/TriggerSoundPlayer.cs:178 | a play-once trigger that has played refuses all later calls |
| TriggerSound.TriggerSoundPlayer.constructor | Assets/Scripts/TriggerSoundPlayer.cs:58-60 | not played, last play at -100, not inside |
| TriggerSound.TriggerSoundPlayer.PlaySound | Assets/Scripts/TriggerSoundPlayer.cs:205-214 | one more play, hasPlayed set, lastPlayTime the current time |
| TriggerSound.TriggerSoundPlayer.TryPlaySound | Assets/Scripts/TriggerSoundPlayer.cs:175-197 | the outcome is TryPlayOutcome; `PlayStateAfter`: a refused call changes nothing, a schedule adds a pending play, a play records itself |
| TriggerSound.TriggerSoundPlayer.DelayedPlay | Assets/Scripts/TriggerSoundPlayer.cs:199-203 | the pending play plays without re-checking the gates |
| TriggerSound.TriggerSoundPlayer.ResetTrigger | Assets/Scripts/TriggerSoundPlayer.cs:219-223 | restores the initial play state |
| TriggerSound.TriggerSoundPlayer.OnTriggerEnter | Assets/Scripts/TriggerSoundPlayer.cs:96-102 | tries only for an OnEnter trigger and a valid collider, leaving the outcome and play state TryPlaySound gives; otherwise the play state is unchanged |
| TriggerSound.TriggerSoundPlayer.OnTriggerExit | Assets/Scripts/TriggerSoundPlayer.cs:104-116 | tries only for an OnExit trigger and a valid collider, leaving the outcome and play state TryPlaySound gives, otherwise the play state is unchanged; a tag match clears isInsideTrigger whatever the type |
| TriggerSound.TriggerSoundPlayer.OnTriggerStay | Assets/Scripts/TriggerSoundPlayer.cs:118-125 | only for an OnStay trigger and a valid collider: marks inside and leaves the outcome and play state TryPlaySound gives; otherwise nothing changes |
| TriggerSound.TriggerSoundPlayer.SetVolume | Assets/Scripts/TriggerSoundPlayer.cs:256-265 | the volume is the value clamped to [0, 1] |
| TriggerSound.TriggerSoundPlayer.SetClip | Assets/Scripts/TriggerSoundPlayer.cs:250-254 | sets whether a clip is assigned; nothing else changes |
| TriggerSound.TriggerSoundPlayer.PlayManually | Assets/Scripts/TriggerSoundPlayer.cs:228-235 | plays when a clip is assigned, outside all gates and without touching the play state |
| Story.ShouldShowStory | Assets/Scripts/StoryIntroduction.cs:77-113 | false once played; with no LevelManager true; with one, true exactly when no choice and no round is recorded |
| Story.FreshGameShowsStory | Assets/Scripts/StoryIntroduction.cs:89-112 | for a valid LevelManager the story shows exactly when it records no wrong and no correct choice |
| Story.StorySession.constructor | Assets/Scripts/StoryIntroduction.cs:48 | a new session has not played the story |
| Story.StorySession.ResetStory | Assets/Scripts/StoryIntroduction.cs:249-253 | the story may play again |
| Story.StoryIntroduction.constructor | Assets/Scripts/StoryIntroduction.cs:56 | not playing, no text, not destroyed |
| Story.StoryIntroduction.Start | Assets/Scripts/StoryIntroduction.cs:58-75 | shown exactly when forced or ShouldShowStory holds; a shown story marks the session before any wait, a skipped one destroys its object |
| Story.StoryIntroduction.TypewriterEffect | Assets/Scripts/StoryIntroduction.cs:219-228 | frame k shows the first k + 1 characters, and the line ends on screen |
| Story.StoryIntroduction.PlayLines | Assets/Scripts/StoryIntroduction.cs:188-216 | every line is shown in order, then the sequence stops and the object is destroyed |
| Story.EnterTwice | Assets/Scripts/StoryIntroduction.cs:63-82 | a second intro that is not forced never shows the story in the same session: either the first one marked the session, or it was refused and the second is refused for the same reason |
| Tutorial.GetStepText | Assets/Scripts/TutorialManager.cs:98-115 | steps 0 to 10 have their fixed non-empty hints; any other step gives "" |
| Tutorial.TutorialManager.constructor | Assets/Scripts/TutorialManager.cs:9-25 | step 0, nothing typing or skipped, empty text |
| Tutorial.TutorialManager.Update | Assets/Scripts/TutorialManager.cs:30-46 | Enter while typing sets skipTyping, Enter otherwise sets skipWaiting |
| Tutorial.TutorialManager.TypeText | Assets/Scripts/TutorialManager.cs:77-96 | frame k is the first k + 1 letters of the hint; the frames stop after the letter during which Enter first went down, or run to the end; the hint ends fully on screen and typing is over |
| Tutorial.TutorialManager.ShowStep | Assets/Scripts/TutorialManager.cs:56-68 | types the current step's hint, resets skipWaiting and moves to the next step |
| Tutorial.TutorialManager.AutoAdvance | Assets/Scripts/TutorialManager.cs:48-75 | from a step at or below 10, the 11 minus that many steps are shown in order, each once, each with a non-empty hint; then the completion message shows and the tutorial scene is loaded |

## Left out

- Scene loading, BlinkTransition and every `WaitForSeconds` are out: a load is the returned scene name, and a wait splits a coroutine into separate methods or is dropped.
- The singleton `Instance` handling, `DontDestroyOnLoad`, scene-load event subscription and debug logs (`Debug.Log`, `OnGUI`, gizmos) are out. They are engine glue.
- A null `anomalySceneNames` array is not modelled. The list is a sequence, possibly empty, and the LoadNextScene guard against null is its emptiness test.
- C# `int` overflow of the counters is not modelled; Dafny integers are unbounded.
- `FinalDoor.ContinueFromFinal` is called by another script but does not exist in LevelManager, so it has no counterpart here.
- UI text objects (`FindLevelText` and the like) are out; UpdateLevelUI's two strings are what OnSceneLoaded returns.
- Spawning.WeepingEnemySpawner.SpawnEnemies: requires one distance per spawn point and at least PickCount() rolls, since those stand for engine queries. The source would throw on a null point's position in Closest and Farthest mode; here such a point gets whatever distance the caller supplies.
- Enemy rotation, height offset, spawn effects and the spawn sound are out. An enemy is the id of the point it was created at.
- Panels and the cursor in PauseManager are out.
- Transforms, headbob, sway, Perlin flicker, light, lens-flare and emission updates, and the battery UI of AAA_Flashlight are out. So are its `Update`/`LateUpdate` orchestration, `HandleInput` and `UpdateBatteryIntensity` smoothing.
- AaaFlashlight.AaaFlashlight.HandleTransition: the animation-curve evaluation into `currentIntensityMultiplier` is not modelled.
- AaaFlashlight.IntensityFactor: requires the thresholds in [0, 1) with critical <= low. At a low threshold of 1 the source divides by zero in float, which the model does not reproduce.
- AaaFlashlight.AaaFlashlight.constructor and SimpleFlashlight.Flashlight.constructor: require a positive capacity, because the battery percent divides by it.
- AaaFlashlight.AaaFlashlight.HandleBattery and SimpleFlashlight.Flashlight.HandleBattery: keep the charge in range only for non-negative rates and frame time. The exact new state is stated for every input.
- All sounds are out except where a script's logic branches on them: the door's events, the low-battery beep flag, and the trigger player's play count. Null-AudioSource checks are out.
- Flashlight's headbob compensation in `LateUpdate`, and its key polling in `Update`, are out.
- TriggerSoundPlayer's 2D handlers are identical to the 3D ones and are not repeated. `PlayClip` plays another clip without touching any state the model tracks, so it is out. `SetupAudioSource` and `ValidateCollider` are out.
- A clip removed between scheduling and the delayed play is not modelled; DelayedPlay always plays.
- StoryIntroduction's UI creation (`CreateUI`), fades (`FadeCanvasGroup`) and the waits between lines are out.
- Tutorial.TutorialManager.AutoAdvance: Enter presses during the wait after a hint are not modelled beyond skipWaiting being reset. The wait only decides how long a hint stays, not what is shown.
