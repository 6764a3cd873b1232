# Castle Defender and Tappy Defender: the game simulation in Dafny

This project models the simulation core of the Castle Defender repository and proves properties of it. Rendering, Android and libGDX plumbing are left out. The model has four parts:

- **The libGDX game** (`DefenderGame.java`, module `Defender`, with the pure rules in `DefenderRules`). It has a pool of 50 reusable attackers: slots 0-24 are normal attackers and slots 25-49 are knights. Each frame runs a five-state game machine (pre-game, round start, round play, round over, game over). A round-play frame does these steps in order:
  - the spawn timer counts down and the round clock advances;
  - a touch kills the first live attacker under it;
  - the timed spawn and the monster-house rush revive attackers up to the round's cap;
  - every attacker walks, and each one past the stop line at x = 585 is clamped to it and damages the castle;
  - the castle's damage stage is redrawn;
  - finally the game-over and round-over conditions are applied.

  The buttons of each state (new game, load, pause, resume, repair, next round, save) are modelled. So are the round reset and the save record.
- **The libGDX sprite and attacker** (core `Sprite.java` and `Attacker.java`, modules `GdxSprite` and `GdxAttacker`). The sprite has an integer anchor moved with Java's truncating float-to-int narrowing, a bounding box, and a play/stop animation state. Its name-to-animation map is hand-rolled and kept in two parallel lists. The attacker walks by its sprite, is revived at its start x, and is killed where it stands.
- **The Android prototype** (app `Sprite.java` and `Attacker.java`, modules `AppSprite` and `AppAttacker`). The sprite has a row/column frame counter that wraps around, an on-screen test that gates drawing, and the source and destination rectangles of a draw. The attacker is an integer walker that stops and attacks at its end zone.
- **Tappy Defender's player ship** (`PlayerShip.java`, module `Tappy`). Boosting raises the speed by 2 and braking lowers it by 5, clamped to [1, 20]. The height moves against gravity and is clamped to the screen. The hit box is refreshed after each move, and the shield is a plain counter.

Objects whose fields the source updates in place are Dafny classes: the game, both sprites, both attackers and the ship. The game's attacker array is a `const seq` of `Attacker` objects, because create() never replaces a slot, only the objects' fields change. Each per-frame method is proved against functions of the old state. The properties of those functions are proved as lemmas. Examples:
- the damage stage as an interval table;
- end-of-tick precedence;
- how damage and stage evolve over the arrival loop;
- the frame counter's period;
- the walker's arrival;
- the ship's speed settling.

Behaviour the model keeps as written, each stated by a member:

- **Damage stage 1 is never shown.** The first test picks 0 or 1 at a damage ratio of 0.5. The test `> 0.15` that follows always overrides a 1 (`DefenderRules.StageChain`, `StageChainIsTable`).
- **Round over beats game over.** When the castle falls in the same tick as the round times out, the round-over test runs last and wins (`DefenderRules.RoundOverOverridesGameOver`).
- **The living-attacker counter drifts upward.** The round reset kills every attacker without lowering the counter, so attackers still alive when a round ends stay counted. The model therefore keeps only `CountTrue(alive flags) <= livingCount` for the counter (`Defender.Game.Counted`, `Defender.Game.ResetRoundVars`). The round cap therefore throttles revives more as a game goes on. The live attackers themselves still never outnumber the round's cap. A revive happens only while the counter is below the cap, and every round reset kills the whole pool (`Defender.Game.Tally`, kept by every tick of `Defender.Game.Update`).
- **A new game keeps the old game's totals.** It keeps the castle's health, the total score and the spawn window of the previous game. After a game over the health stays 0. The first play tick of the new game is then a game over again, unless that tick also times out the round (`Defender.Game.NewGame`, `Defender.Game.HandleStandardGameplay`).
- **The spawn window only ever moves down.** Each round reset lowers it by five times the round number, and nothing raises it. In the first game after launch, started with the new-game button and never loaded, the window after round n's reset starts at 85 - 5n(n+1)/2, so from round 7 the whole window is below zero and a revive is attempted on every play tick (`DefenderRules.SpawnMinClosedForm`, `DefenderRules.SpawnWindowNegativeFromRoundSeven`, about the recurrence `DefenderRules.SpawnMinAfterRounds`, whose step is the one `Defender.Game.ResetRoundScalars` ensures for each reset). A load or a second game lowers the window further, so there it goes negative sooner.
- **Remove is lossy.** The anonymous map's `remove` takes the animation out of the animation list but leaves the name. After that, names and animations are misaligned:
  - the removed key still answers `containsKey`;
  - `get` on it returns the next key's animation;
  - a key put afterwards cannot be read back, because `get` throws.

  See `GdxSprite.RemoveShiftsLookup` and `GdxSprite.PutAfterRemoveIsLost`.
- **An update can throw after a clear or a remove.** The core sprite's `update` looks up the current animation for its key frame before it moves. When `clear` or a remove has taken that animation away, the lookup answers null or runs past the list and the call throws: the clock has advanced and nothing has moved (`GdxSprite.Sprite.Update`). In the model the attacker only adds and plays animations, so its sprite never reaches that state (`GdxSprite.Sprite.Playable`, `GdxAttacker.Attacker.Update`). That rests on leaving out the source's `revive` call to `restart()`, which the core `Sprite.java` does not define (see `Sprite.restart()` under "## Left out").
- **`setPosition` moves only the bounding box.** The integer anchor stays behind, and the next animated update moves from the old anchor (`GdxSprite.Sprite.SetPosition`, `GdxSprite.Sprite.Update`).
- **Pausing during round start does not stop the countdown.** It sets the pause flag but the start delay keeps counting. Play then begins paused (`Defender.Game.RoundStartTick`).
- **One touch can both kill an attacker and press pause.** Buttons are tried in the source's order against the set of visible buttons as it changes during the frame (`Defender.Game.PlayTick`, `Defender.Game.RoundOverTick`).
- **The prototype attacker overshoots its end zone.** It can end less than one step past it, and a revived prototype attacker stays at x = -100 where `die` left it (`AppAttacker.Step`, `AppAttacker.Attacker.Revive`).
- **The frame counter's bounds are inclusive.** A sheet declared with `rows` rows and `cols` columns is walked over (rows + 1) × (cols + 1) frames (`AppSprite.AnimationCycles`).
- **A short screen pins the ship to `maxY`.** When the screen is shorter than the ship, the ship's height is always `maxY`, even below `minY` (`Tappy.ClampY`).
- **The shield has no lower bound.** It drops by exactly one per hit (`Tappy.PlayerShip.ReduceShieldStrength`).

## Model

Paths are relative to the repository root.

| member | source | states |
|---|---|---|
| GdxSprite.Trunc | CastleDefender/core/src/com/hamsterhuey/defender/Sprite.java:82-83 | Java's narrowing of `mX + deltaX * deltaTime` to int truncates toward zero: the result is at most the value and within one of it for non-negative values, and at least the value and within one of it for negative values |
| GdxSprite.StandStill | CastleDefender/core/src/com/hamsterhuey/defender/Sprite.java:92-94 | a zero velocity leaves an integer anchor where it is, so `update(dt)` only advances the animation clock |
| GdxSprite.IndexOf | CastleDefender/core/src/com/hamsterhuey/defender/Sprite.java:176-177 | `indexOf` finds a position holding the key with no earlier position holding it |
| GdxSprite.LookupIn | CastleDefender/core/src/com/hamsterhuey/defender/Sprite.java:173-180 | `get` is null exactly for a key missing from the names list; a present key finds the animation at its name's position, or throws when the animation list is shorter than that position |
| GdxSprite.LookupAfterPut | CastleDefender/core/src/com/hamsterhuey/defender/Sprite.java:173-193 | on aligned lists, `put` of a new key followed by `get` returns the new animation, and every other key answers as before |
| GdxSprite.RemoveShiftsLookup | CastleDefender/core/src/com/hamsterhuey/defender/Sprite.java:196-203 | after `remove`, the removed key is still present and `get` on it finds the animation that followed its own, or throws at the end of the list |
| GdxSprite.PutAfterRemoveIsLost | CastleDefender/core/src/com/hamsterhuey/defender/Sprite.java:183-193 | once a remove has shortened the animation list, a freshly put key lands past its end and `get` on it throws |
| GdxSprite.Sprite.constructor | CastleDefender/core/src/com/hamsterhuey/defender/Sprite.java:46-66 | anchor and box at (x, y) with the given size, not animating, not looping, state time 0, current name "", empty map |
| GdxSprite.Sprite.Update | CastleDefender/core/src/com/hamsterhuey/defender/Sprite.java:76-85 | a sprite that is not animating is untouched; an animating one adds dt to its clock, then throws exactly when `get` on the current name does not find an animation, leaving anchor and box where they were; otherwise it moves its anchor by the truncated displacement and puts its box on the new anchor |
| GdxSprite.Sprite.Playable | CastleDefender/core/src/com/hamsterhuey/defender/Sprite.java:76-111 | with aligned lists and a playing name that is a key, `get` on the current name finds an animation, so update cannot throw |
| GdxSprite.Sprite.UpdateInPlace | CastleDefender/core/src/com/hamsterhuey/defender/Sprite.java:92-94 | the one-argument update advances the clock, throws exactly as the full update does, and never moves the anchor; without a throw the box is moved onto the anchor |
| GdxSprite.Sprite.Play | CastleDefender/core/src/com/hamsterhuey/defender/Sprite.java:102-111 | an unknown name changes nothing; a known one becomes current, animating, with the given looping flag and state time 0 |
| GdxSprite.Sprite.PlayFirst | CastleDefender/core/src/com/hamsterhuey/defender/Sprite.java:117-123 | with no animations nothing changes; otherwise the first added name plays, looping |
| GdxSprite.Sprite.Stop | CastleDefender/core/src/com/hamsterhuey/defender/Sprite.java:128-132 | not animating, not looping, state time 0 |
| GdxSprite.Sprite.AddAnimation | CastleDefender/core/src/com/hamsterhuey/defender/Sprite.java:140-145 | a name already present changes nothing; a new one is appended to both lists, keeping names unique |
| GdxSprite.Sprite.SetPosition | CastleDefender/core/src/com/hamsterhuey/defender/Sprite.java:241-264 | the box moves to the point while the anchor that `getX`/`getY` return stays where it was |
| GdxSprite.Sprite.Size | CastleDefender/core/src/com/hamsterhuey/defender/Sprite.java:151-153 | `size` never exceeds the number of keys |
| GdxSprite.Sprite.IsEmpty | CastleDefender/core/src/com/hamsterhuey/defender/Sprite.java:156-158 | `isEmpty` asks the animation list only: when it holds, every key still in the names list makes `get` throw |
| GdxSprite.Sprite.ContainsKey | CastleDefender/core/src/com/hamsterhuey/defender/Sprite.java:161-164 | `containsKey` holds exactly when `get` does not answer null |
| GdxSprite.Sprite.Get | CastleDefender/core/src/com/hamsterhuey/defender/Sprite.java:173-180 | null exactly for a key not in the names list; whatever it finds satisfies `containsValue` |
| GdxSprite.Sprite.ValuesReachable | CastleDefender/core/src/com/hamsterhuey/defender/Sprite.java:167-180 | `containsValue(v)` holds exactly when some key's `get` finds v, in both directions |
| GdxSprite.Sprite.Put | CastleDefender/core/src/com/hamsterhuey/defender/Sprite.java:183-193 | a duplicate key changes nothing and answers null; a new key is appended to both lists and the value is returned |
| GdxSprite.Sprite.Remove | CastleDefender/core/src/com/hamsterhuey/defender/Sprite.java:196-203 | returns what `get` answered; on a hit only the animation at the key's position is removed and the names list is unchanged |
| GdxSprite.Sprite.Clear | CastleDefender/core/src/com/hamsterhuey/defender/Sprite.java:211-214 | both lists empty |
| GdxAttacker.Attacker.constructor | CastleDefender/core/src/com/hamsterhuey/defender/Attacker.java:40-52 | dead at (x, y) with start x = x, the given damage, speed and size, and a fresh sprite at the truncated (x, y) |
| GdxAttacker.Attacker.Update | CastleDefender/core/src/com/hamsterhuey/defender/Attacker.java:60-78 | a dead attacker answers null and nothing moves; a live one steps its sprite by walkSpeed, takes the box corner as its position and returns its box; its sprite stays playable, so the sprite's update never throws here |
| GdxAttacker.Attacker.Revive | CastleDefender/core/src/com/hamsterhuey/defender/Attacker.java:84-89 | alive at its start x with y kept, box moved to match |
| GdxAttacker.Attacker.Kill | CastleDefender/core/src/com/hamsterhuey/defender/Attacker.java:95-98 | the sprite stops and the attacker is dead where it stands |
| GdxAttacker.Attacker.AddAnimation | CastleDefender/core/src/com/hamsterhuey/defender/Attacker.java:114-116 | delegates to the sprite's `addAnimation` |
| GdxAttacker.Attacker.Play | CastleDefender/core/src/com/hamsterhuey/defender/Attacker.java:123-125 | delegates to the sprite's `play` |
| GdxAttacker.Attacker.SetPosition | CastleDefender/core/src/com/hamsterhuey/defender/Attacker.java:133-138 | attacker and box both at the point, dead or alive |
| DefenderRules.StageChain | CastleDefender/core/src/com/hamsterhuey/defender/DefenderGame.java:403-421 | the damage stage is between 0 and 5 and is never 1 |
| DefenderRules.StageChainIsTable | CastleDefender/core/src/com/hamsterhuey/defender/DefenderGame.java:403-421 | the chain of overriding ifs equals an interval table: 0 up to 0.15, 2 up to 0.35, 3 up to 0.65, 4 up to 0.85, 5 above |
| DefenderRules.StageMonotone | CastleDefender/core/src/com/hamsterhuey/defender/DefenderGame.java:403-421 | more damage never shows a lower stage |
| DefenderRules.StageExamples | CastleDefender/core/src/com/hamsterhuey/defender/DefenderGame.java:403-421 | concrete instances only: the stages for health 1100, 900, 600, 500 and 140 out of 1000 are 0, 0, 3, 3 and 5 |
| DefenderRules.KnightChance | CastleDefender/core/src/com/hamsterhuey/defender/DefenderGame.java:688-689 | 35% plus 10% per round after the first, capped at 65%, reached from round 4 |
| DefenderRules.KnightChanceMonotone | CastleDefender/core/src/com/hamsterhuey/defender/DefenderGame.java:688-689 | the knight chance never falls as rounds go up |
| DefenderRules.KindOfMonotone | CastleDefender/core/src/com/hamsterhuey/defender/DefenderGame.java:706-709 | a larger knight chance never turns a knight draw into a normal one |
| DefenderRules.KnightDrawStaysKnight | CastleDefender/core/src/com/hamsterhuey/defender/DefenderGame.java:688-709 | a draw that spawns a knight in one round spawns a knight in every later round; from round 4 exactly the draws up to 0.65 do |
| DefenderRules.FirstSlot | CastleDefender/core/src/com/hamsterhuey/defender/DefenderGame.java:475-486 | each kind's half starts inside the pool |
| DefenderRules.EndSlot | CastleDefender/core/src/com/hamsterhuey/defender/DefenderGame.java:475-486 | each kind owns exactly 25 consecutive slots |
| DefenderRules.KillScore | CastleDefender/core/src/com/hamsterhuey/defender/DefenderGame.java:364-366 | a tap kill scores 100 points, or 250 exactly for a knight slot |
| DefenderRules.EndOfTickState | CastleDefender/core/src/com/hamsterhuey/defender/DefenderGame.java:426-441 | past the round time the round is over; otherwise a castle at or below 0 is game over; otherwise the state is kept |
| DefenderRules.RoundOverOverridesGameOver | CastleDefender/core/src/com/hamsterhuey/defender/DefenderGame.java:426-441 | a fallen castle in a timed-out round gives round over, not game over |
| DefenderRules.FirstDead | CastleDefender/core/src/com/hamsterhuey/defender/DefenderGame.java:476-493 | the search finds the lowest dead slot of the range, or reports that every slot of it is alive |
| DefenderRules.DamageDealtBounds | CastleDefender/core/src/com/hamsterhuey/defender/DefenderGame.java:392-423 | a pass over the pool never heals the castle, and a pass with no arrival deals no damage |
| DefenderRules.StageAfterTracksHealth | CastleDefender/core/src/com/hamsterhuey/defender/DefenderGame.java:392-423 | after any prefix of the pass, the stage matches the health left if some slot in it arrived, and is unchanged otherwise |
| DefenderRules.PassEffect | CastleDefender/core/src/com/hamsterhuey/defender/DefenderGame.java:392-423 | the same for a whole pass over the pool |
| DefenderRules.SpawnMinClosedForm | CastleDefender/core/src/com/hamsterhuey/defender/DefenderGame.java:694-695 | after the resets of rounds 1 to n the spawn window's minimum is 85 - 5n(n+1)/2 |
| DefenderRules.SpawnWindowNegativeFromRoundSeven | CastleDefender/core/src/com/hamsterhuey/defender/DefenderGame.java:371-376 | from round 7 the whole reseed window lies below 0, so every reseed leaves the timer negative |
| Defender.NewPool | CastleDefender/core/src/com/hamsterhuey/defender/DefenderGame.java:195-213 | 50 fresh, distinct, dead attackers at x = -100; the first half have damage 1 and the drawn speed, the second half damage 2 and three quarters of it; heights from the draws; every sprite holds a walk animation, and a knight's also an attack |
| Defender.Game.BuiltPoolValid | CastleDefender/core/src/com/hamsterhuey/defender/DefenderGame.java:195-213 | a pool as create() builds it is well formed: every slot playable, on or behind the stop line, with a walk to play; and nobody in it is alive |
| Defender.Game.constructor | CastleDefender/core/src/com/hamsterhuey/defender/DefenderGame.java:128-213 | the pool as above, and every initial value of create(): pre-game, round 1, health 1000, round time 25, cap 5, knight chance 0.35, spawn timer 100, window [85, 120], monster house 10; no live attacker, so none above the cap |
| Defender.Game.ReviveSlot | CastleDefender/core/src/com/hamsterhuey/defender/DefenderGame.java:477-491 | reached only below the cap: the slot comes back at its start x, a knight plays its walk, the counter goes up by one and only that slot's alive flag changes |
| Defender.Game.ReviveAttacker | CastleDefender/core/src/com/hamsterhuey/defender/DefenderGame.java:467-495 | at the cap or with no dead slot of the kind nothing changes; otherwise exactly the lowest dead slot of the kind's half is revived and every other slot is untouched |
| Defender.Game.ReviveRandomAttacker | CastleDefender/core/src/com/hamsterhuey/defender/DefenderGame.java:706-709 | the same for the kind the draw picks |
| Defender.Game.FirstAttackerAt | CastleDefender/core/src/com/hamsterhuey/defender/DefenderGame.java:503-521 | -1 exactly when no live attacker's box holds the point; otherwise the lowest such slot |
| Defender.Game.KillSlot | CastleDefender/core/src/com/hamsterhuey/defender/DefenderGame.java:360-367 | the slot dies where it stands; the living and monster-house counters drop by one; the round score gains the kill score |
| Defender.Game.HandleTap | CastleDefender/core/src/com/hamsterhuey/defender/DefenderGame.java:352-368 | the first tapped live attacker, and only it, is killed as above; with none nothing changes |
| Defender.Game.TimedSpawn | CastleDefender/core/src/com/hamsterhuey/defender/DefenderGame.java:371-377 | below zero the timer triggers one capped random revive and is reseeded inside the window; otherwise nothing changes |
| Defender.Game.MonsterHouseRush | CastleDefender/core/src/com/hamsterhuey/defender/DefenderGame.java:380-389 | below zero the counter triggers 15 capped revives and is reset to 10; live attackers stay put, and the living counter neither falls nor passes the cap |
| Defender.StepAttacker | CastleDefender/core/src/com/hamsterhuey/defender/DefenderGame.java:393-399 | the attacker updates; it arrives exactly when the update takes it past the stop line, and then stands on the line; y is where the update put it |
| Defender.Game.AdvanceSlot | CastleDefender/core/src/com/hamsterhuey/defender/DefenderGame.java:393-422 | one slot updates; past the stop line it is clamped to it, deals its hit damage and the stage is redrawn; other slots are untouched |
| Defender.Game.ArrivalFacts | CastleDefender/core/src/com/hamsterhuey/defender/DefenderGame.java:392-401 | only live attackers can pass the stop line, and no hit damage is negative |
| Defender.Game.AdvanceAttackers | CastleDefender/core/src/com/hamsterhuey/defender/DefenderGame.java:392-423 | every slot ends at the lesser of its walk and the stop line; the castle loses the summed damage of the arrivals and never gains; the stage follows the health if any slot arrived |
| Defender.Game.AdvanceEach | CastleDefender/core/src/com/hamsterhuey/defender/DefenderGame.java:392-423 | the loop itself, slot by slot, against the damage and stage functions |
| Defender.Game.EndTick | CastleDefender/core/src/com/hamsterhuey/defender/DefenderGame.java:426-441 | a castle at or below 0 is clamped to 0; the state follows the end-of-tick rule; a timed-out round banks its score and counts the round; buttons are hidden on either event |
| Defender.Game.HandleStandardGameplay | CastleDefender/core/src/com/hamsterhuey/defender/DefenderGame.java:341-442 | one play tick: clock and spawn timer, the tap kill of the first tapped live slot and its score, the living counter within the cap and the live attackers never above the cap, health at least 0 and never above its old value, a dead castle stays dead, the end-of-tick state, and the banked score and round count |
| Defender.Game.TickStart | CastleDefender/core/src/com/hamsterhuey/defender/DefenderGame.java:341-368 | timer down by one, clock up by dt; a touch kills exactly the first live attacker under it, lowering the living and monster-house counters by one and adding its score; with no hit the counters and alive flags are unchanged |
| Defender.Game.TickRest | CastleDefender/core/src/com/hamsterhuey/defender/DefenderGame.java:371-441 | the spawns and the arrivals with the end-of-tick rule; health never rises and a dead castle stays dead |
| Defender.Game.SpawnPhase | CastleDefender/core/src/com/hamsterhuey/defender/DefenderGame.java:371-389 | both timers reseeded or reset exactly when below zero, and the living counter within the cap |
| Defender.Game.ArrivalPhase | CastleDefender/core/src/com/hamsterhuey/defender/DefenderGame.java:392-441 | the castle loses the summed hit damage of the arriving attackers, clamped at 0, so it never gains; every alive flag stays as it was; then the end-of-tick rule |
| Defender.Game.HandleRoundStart | CastleDefender/core/src/com/hamsterhuey/defender/DefenderGame.java:447-458 | the delay counts up; above 15 play starts and buttons are hidden |
| Defender.Game.SilenceSlot | CastleDefender/core/src/com/hamsterhuey/defender/DefenderGame.java:698-700 | one slot of the reset loop dies where it stands; nothing else changes |
| Defender.Game.SilenceAll | CastleDefender/core/src/com/hamsterhuey/defender/DefenderGame.java:698-700 | every slot is dead where it stood and no attacker is alive |
| Defender.Game.ResetRoundScalars | CastleDefender/core/src/com/hamsterhuey/defender/DefenderGame.java:685-695 | the round values for the current round number, and the window lowered by five times it |
| Defender.Game.ResetRoundVars | CastleDefender/core/src/com/hamsterhuey/defender/DefenderGame.java:684-701 | the round values, the lowered window and every slot dead, with the living counter left as it was |
| Defender.Game.NewGame | CastleDefender/core/src/com/hamsterhuey/defender/DefenderGame.java:533-538 | round 1 and a round reset into round start; health, total score and the living counter carry over |
| Defender.Game.EnterRoundStart | CastleDefender/core/src/com/hamsterhuey/defender/DefenderGame.java:537-538 | round start with every button hidden |
| Defender.Game.LoadGame | CastleDefender/core/src/com/hamsterhuey/defender/DefenderGame.java:550-558 | round, health and total score from the save slot, or 1, 1000 and 0 without one, then a round reset into round start |
| Defender.Game.Restore | CastleDefender/core/src/com/hamsterhuey/defender/DefenderGame.java:552-555 | the three stored values put back |
| Defender.Game.Repair | CastleDefender/core/src/com/hamsterhuey/defender/DefenderGame.java:602-626 | with more than 1000 points, 1000 are spent for 100 health and the stage is redrawn; otherwise nothing changes |
| Defender.Game.NextRound | CastleDefender/core/src/com/hamsterhuey/defender/DefenderGame.java:641-643 | a round reset for the already counted round number, into round start |
| Defender.Game.Save | CastleDefender/core/src/com/hamsterhuey/defender/DefenderGame.java:657-665 | the record holds round, health and total score, and the round is marked saved |
| Defender.Game.Pause | CastleDefender/core/src/com/hamsterhuey/defender/DefenderGame.java:721-723 | paused |
| Defender.Game.Resume | CastleDefender/core/src/com/hamsterhuey/defender/DefenderGame.java:726-728 | not paused |
| Defender.Game.HideAllButtons | CastleDefender/core/src/com/hamsterhuey/defender/DefenderGame.java:714-718 | no button visible |
| Defender.Game.PreGameTick | CastleDefender/core/src/com/hamsterhuey/defender/DefenderGame.java:297-303 | the new-game button starts round 1; otherwise the load button restores the save slot; otherwise the state stays and both buttons are shown |
| Defender.Game.RoundStartTick | CastleDefender/core/src/com/hamsterhuey/defender/DefenderGame.java:304-308 | the delay counts and starts play above 15; pause takes hold only while the delay is still running, and the delay runs on regardless |
| Defender.Game.RoundPlayTick | CastleDefender/core/src/com/hamsterhuey/defender/DefenderGame.java:309-319 | paused, nothing in the pool, the clock, the state or the health moves, and only resume unpauses; unpaused, a play tick, after which pause takes hold exactly when the round went on and the touch is on it |
| Defender.Game.PlayTick | CastleDefender/core/src/com/hamsterhuey/defender/DefenderGame.java:310-314 | a play tick followed by the pause button, which is still shown unless the tick ended the round or the game |
| Defender.Game.PauseCheck | CastleDefender/core/src/com/hamsterhuey/defender/DefenderGame.java:563-576 | paused exactly when it was, or when the pause button is shown and touched |
| Defender.Game.ResumeCheck | CastleDefender/core/src/com/hamsterhuey/defender/DefenderGame.java:578-591 | with the resume button shown, unpaused exactly when it is touched |
| Defender.Game.RoundOverTick | CastleDefender/core/src/com/hamsterhuey/defender/DefenderGame.java:320-327 | repair, save and next round in that order: a save happens exactly when its button is touched and records the repaired values; the next-round button leads to round start |
| Defender.Game.RoundOverButtons | CastleDefender/core/src/com/hamsterhuey/defender/DefenderGame.java:321-325 | the repair and save buttons, with the next-round button left visible |
| Defender.Game.GameOverTick | CastleDefender/core/src/com/hamsterhuey/defender/DefenderGame.java:328-331 | only the new-game button, which starts round 1 keeping health and total score |
| Defender.Game.Update | CastleDefender/core/src/com/hamsterhuey/defender/DefenderGame.java:287-335 | every frame moves between states only along the machine's edges, keeps the pool well formed, the counter above the live count and the live count within the round's cap, and saves only from round over, with the current values |
| AppSprite.Advance | CastleDefender/app/src/main/java/com/igm/hamsterhuey/castledefender/Sprite.java:85-99 | a frame inside the sheet stays inside it, and its position along the walk advances by one modulo (rows + 1)(cols + 1) |
| AppSprite.AdvanceStep | CastleDefender/app/src/main/java/com/igm/hamsterhuey/castledefender/Sprite.java:87-98 | the same, case by case: next column, next row, wrap to the first frame |
| AppSprite.AdvanceTimesIndex | CastleDefender/app/src/main/java/com/igm/hamsterhuey/castledefender/Sprite.java:85-99 | after n frames the position along the walk has advanced by n modulo the period |
| AppSprite.AnimationCycles | CastleDefender/app/src/main/java/com/igm/hamsterhuey/castledefender/Sprite.java:85-99 | after (rows + 1)(cols + 1) frames every frame of the sheet comes back to itself |
| AppSprite.SourceRect | CastleDefender/app/src/main/java/com/igm/hamsterhuey/castledefender/Sprite.java:68-70 | the source rectangle is one sprite in size |
| AppSprite.SourceInsideSheet | CastleDefender/app/src/main/java/com/igm/hamsterhuey/castledefender/Sprite.java:68-70 | for a frame inside the sheet the source rectangle lies inside the (cols + 1)w by (rows + 1)h sheet |
| AppSprite.SourceRectsDiffer | CastleDefender/app/src/main/java/com/igm/hamsterhuey/castledefender/Sprite.java:68-70 | different frames are cut from different rectangles |
| AppSprite.DestRect | CastleDefender/app/src/main/java/com/igm/hamsterhuey/castledefender/Sprite.java:71 | the destination is one sprite in size at the sprite's position |
| AppSprite.Sprite.constructor | CastleDefender/app/src/main/java/com/igm/hamsterhuey/castledefender/Sprite.java:38-52 | the sprite starts at (-2w, -2h) on frame (0, 0); it is visible exactly when draw's on-screen test holds, and when its width or height is non-negative it starts off screen |
| AppSprite.Sprite.UpdateAnim | CastleDefender/app/src/main/java/com/igm/hamsterhuey/castledefender/Sprite.java:85-99 | the frame counter takes one step of the walk and stays inside the sheet |
| AppSprite.Sprite.Draw | CastleDefender/app/src/main/java/com/igm/hamsterhuey/castledefender/Sprite.java:58-80 | something is drawn exactly when the surface is valid and the sprite is on screen, with the current frame's source rectangle and the sprite's destination; only then does the animation advance |
| AppSprite.Sprite.SetX | CastleDefender/app/src/main/java/com/igm/hamsterhuey/castledefender/Sprite.java:105-107 | sets x |
| AppSprite.Sprite.SetY | CastleDefender/app/src/main/java/com/igm/hamsterhuey/castledefender/Sprite.java:113-115 | sets y |
| AppAttacker.Step | CastleDefender/app/src/main/java/com/igm/hamsterhuey/castledefender/Attacker.java:45-53 | short of the end zone x grows by exactly the speed and ends below endZone + speed; at or past it x is kept |
| AppAttacker.WalkArrives | CastleDefender/app/src/main/java/com/igm/hamsterhuey/castledefender/Attacker.java:45-49 | with positive speed, once n steps cover the distance the attacker stands at or past its end zone |
| AppAttacker.WalkBelow | CastleDefender/app/src/main/java/com/igm/hamsterhuey/castledefender/Attacker.java:45-49 | an attacker still short of the end zone has walked its full speed on every frame |
| AppAttacker.WalkOvershoot | CastleDefender/app/src/main/java/com/igm/hamsterhuey/castledefender/Attacker.java:45-49 | starting short of the end zone, it never ends a full step past it |
| AppAttacker.WalkHolds | CastleDefender/app/src/main/java/com/igm/hamsterhuey/castledefender/Attacker.java:51-53 | at or past the end zone it stays put for good |
| AppAttacker.Attacker.constructor | CastleDefender/app/src/main/java/com/igm/hamsterhuey/castledefender/Attacker.java:26-35 | dead, not attacking, damage 1 |
| AppAttacker.Attacker.Update | CastleDefender/app/src/main/java/com/igm/hamsterhuey/castledefender/Attacker.java:39-54 | a dead attacker is untouched; a live one takes one step, is attacking exactly when it began at or past the end zone, and drags its sprite along while walking |
| AppAttacker.Attacker.Die | CastleDefender/app/src/main/java/com/igm/hamsterhuey/castledefender/Attacker.java:64-67 | dead at x = -100 |
| AppAttacker.Attacker.Revive | CastleDefender/app/src/main/java/com/igm/hamsterhuey/castledefender/Attacker.java:70-72 | alive with x unchanged |
| Tappy.ClampSpeed | TappyDefender/app/src/main/java/com/example/mario/tappydefender/PlayerShip.java:59-66 | the speed ends in [1, 20], unchanged inside it, at the bound it crossed outside it |
| Tappy.ClampY | TappyDefender/app/src/main/java/com/example/mario/tappydefender/PlayerShip.java:72-78 | y ends in [minY, maxY] and is unchanged inside it; when maxY < minY it is maxY |
| Tappy.ClampsIdempotent | TappyDefender/app/src/main/java/com/example/mario/tappydefender/PlayerShip.java:59-78 | clamping a clamped speed or height changes nothing |
| Tappy.SpeedResponds | TappyDefender/app/src/main/java/com/example/mario/tappydefender/PlayerShip.java:50-66 | from a reachable speed, boosting never slows the ship and coasting never speeds it up |
| Tappy.SpeedSettles | TappyDefender/app/src/main/java/com/example/mario/tappydefender/PlayerShip.java:50-66 | ten boosting frames reach speed 20 and four coasting frames reach 1, gaining at least 2 or losing at least 5 per frame until then |
| Tappy.GravityBalance | TappyDefender/app/src/main/java/com/example/mario/tappydefender/PlayerShip.java:69-78 | on screen, below speed 12 the ship sinks, above it climbs, at 12 it holds its height |
| Tappy.PlayerShip.constructor | TappyDefender/app/src/main/java/com/example/mario/tappydefender/PlayerShip.java:33-46 | at (-500, -500), speed 0, not boosting, shield 2, maxY = screen height - ship height, and a hit box whose right and bottom are the raw width and height |
| Tappy.PlayerShip.Update | TappyDefender/app/src/main/java/com/example/mario/tappydefender/PlayerShip.java:48-85 | speed, then y at the new speed, then the hit box on (x, y) with the bitmap's size; x never changes |
| Tappy.PlayerShip.SetBoosting | TappyDefender/app/src/main/java/com/example/mario/tappydefender/PlayerShip.java:112-114 | boosting |
| Tappy.PlayerShip.StopBoosting | TappyDefender/app/src/main/java/com/example/mario/tappydefender/PlayerShip.java:116-118 | not boosting |
| Tappy.PlayerShip.ReduceShieldStrength | TappyDefender/app/src/main/java/com/example/mario/tappydefender/PlayerShip.java:120-122 | the shield drops by exactly one, with no floor |

## Left out

- Rendering: render(), textures, fonts, the sprite batch, the camera and the HUD strings are not part of this model. The same goes for the key frame the core sprite's `update` picks (`mCurrentFrame`, only whether its lookup throws is modelled) and `getCurrentFrame`, and for `dispose`.
- `Sprite.restart()`: the core attacker's `revive` calls it, but it is not defined in the core `Sprite.java`, so it is not part of this model. As a result, in the model a normal attacker is never told to play an animation, and an attacker whose sprite is not animating does not walk. Knights play their walk on revive and do walk.
- Input is a parameter. `Gdx.input.justTouched()` with the camera's unprojection becomes an optional `Touch` in world coordinates. The button rectangles (`DefenderButtons.java`) are not part of this model, so which buttons a touch lands on comes in as the touch's `hits` set. The same touch is seen by every button test in a frame.
- Randomness is a parameter: the speed and height draws of create(), the draw for the timed spawn's kind, the 15 draws of a rush and the reseed value. The reseed value is required to lie in the window, as `nextInt(max - min + 1) + min` guarantees.
- Preferences storage is a parameter and a result. Load reads the save slot as an optional record. The source reads each of the three keys with its own default; the model's all-or-nothing record agrees with that because save always writes all three together. Save returns the record it writes.
- Floating point: health, round score and total score are Java floats holding whole numbers, modelled as integers. Times, speeds, positions and the knight chance are exact reals, so float rounding (for example at the damage-ratio thresholds) is not modelled.
- Java's 32-bit integer wrap-around is not modelled. Of the counters that only move one way, the spawn window is the first that could overflow, after about 29,000 rounds.
- The anonymous map's `putAll` (empty), `keySet` and `entrySet` (which return null) are not modelled. Its `values` returns the animation list itself, which the model holds as `anims`; the live view it hands out is not modelled. `containsValue` is stated through `GdxSprite.Sprite.ValuesReachable`.
- GdxSprite.Sprite.ContainsValue: animations are values compared by their parameters, while `ArrayList.contains` on libGDX animations compares object identity; two animations built from the same parameters are one value in the model.
- The attackers' getters and `mGrabbed`, which is set but never read, are not modelled.
- The Android prototype's canvas, bitmap and surface locking are not modelled. Draw takes the surface's validity as a parameter and returns the two rectangles instead of drawing. The prototype attacker's `draw` is not modelled.
- `GameView.java`, `GameActivity.java` and `StartActivity.java` are thread and activity glue and are not part of this model.
- PlayerShip's bitmap comes in as its width and height, and the unused screen width is dropped. The hit box is a mutable `Rect` that `getHitbox` hands out; the model keeps it as a value in a field, so aliasing through the returned object is not modelled.
- Defender.Game.HandleStandardGameplay: does not repeat which slots the spawns revive, where each slot ends up, or the exact health lost. TimedSpawn, MonsterHouseRush, AdvanceAttackers and ArrivalPhase state those against the pool as the spawns leave it; the tick states only that health never rises.
- Defender.Game.MonsterHouseRush: states the counter reset, the cap, the growth bound of 15 and that live attackers stay, not which 15 draws revive which slots.
- Defender.Game.SpawnPhase: states the timers and the cap only; the revived slots are stated by TimedSpawn and MonsterHouseRush.
- Defender.Game.Update: states the state-machine edges, the invariant and the save facts. The per-state outcomes are stated by the five tick methods it dispatches to.
- Defender.Game.LoadGame: states the restored values, the state and the main round values; the rest of the round reset is stated by NextRound.
