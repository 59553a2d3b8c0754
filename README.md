# Fight: a verified model of the turn-based battle demo

The Fight example of the liso terminal library is a small game. The player
fights a monster by typing `attack` or `potion` at a prompt. A status line
shows both sides' HP and the player's potions. A completor expands a typed
initial into the full command word. This project models the game's logic in
Dafny and proves what the code promises about it.

- `rules.dfy`: module `Rules` holds the balance constants (`PLAYER_MAX_HP` = 50,
  `PLAYER_START_POTIONS` = 3, `PLAYER_POTION_HEAL` = 30, both attack damages = 10,
  `MONSTER_MAX_HP` = 100). It also holds the three game fields as a value
  (`GameState`) and the exact test a submitted line must pass (`Classify`).
  Module `Wrappers` holds `Option`.
- `status.dfy`: module `Status` gives the colour tiers of the status line.
- `completor.dfy`: module `Completion` models `FightCompletor::complete`.
- `battle.dfy`: module `Battle` is the reference model of the battle, as values.
  - `React` says what one read response does: the new state and the messages
    written, or that the loop is left (quit, or the editor died).
  - `Resolve(s, rs, i)` is the whole turn loop fed with the responses
    `rs[i..]`. It ends in `PlayerWins`, `PlayerLoses`, `PlayerQuit`,
    `Aborted`, or `AwaitingInput` when the responses run out.
  - Lemmas state the properties of single turns and of whole runs.
- `fight.dfy`: module `Game` holds class `Fight`. Its fields are `uhp`, `upot`
  and `mhp`, updated in place, plus `log`, the output written so far.
  `Run` is `inner_loop`: a `while` loop proved to produce exactly what
  `Resolve` says. `Step`, `Submit`, `MonAttack`, `UpdateStatusLine` and
  `Report` are its pieces. `Play` greets the player and runs a fresh fight.
- `scenarios.dfy`: module `Scenarios` holds whole games from the starting
  position, computed from the model.

Output is modelled as a log of abstract messages (`Event`): attack, out of
potions, wasted whole potion, healed n, partly wasted, invalid choice, enemy
attack, lose, win. The log also records echoed lines, the unknown-key notice
and each status line published.

Three facts about the code are easy to get wrong, and the model keeps them:

- Commands are matched exactly. The raw line is compared with `"a"`,
  `"attack"`, `"p"` and `"potion"` (`main.rs:70`, `main.rs:79`), so `"A"`,
  `"Attack"` and `" a"` are invalid choices (`Rules.ClassifyIsExact`,
  `Scenarios.CaseMatters`). Only the completor ignores case.
- The monster strikes back even after the player's killing blow. So both
  sides can reach 0 HP on the same turn, and then the loss is reported,
  because it is tested first (`Scenarios.TieLine`).
- After "attack, potion" from the start, further attacks do not win. The
  player falls at the fourth of them, with the monster at 50 HP
  (`Scenarios.OpeningThenAttacksLoses`).

## Model

| member | source | states |
|---|---|---|
| `Rules.Min` | examples/fight/src/main.rs:85 | the result is the smaller of the two arguments |
| `Rules.Classify` | examples/fight/src/main.rs:70-79 | a line is an attack exactly when it is `"a"` or `"attack"`, a potion exactly when it is `"p"` or `"potion"`, otherwise unrecognised |
| `Rules.ClassifyIsExact` | examples/fight/src/main.rs:70-79 | `"A"`, `"Attack"`, `" a"`, `"a "`, `"P"`, `"Potion"`, `"att"` and `""` are all unrecognised |
| `Status.HpTint` | examples/fight/src/main.rs:40-48 | HP colour is red iff `uhp <= 10`, yellow iff `10 < uhp <= 20`, green iff `uhp > 20` |
| `Status.PotionTint` | examples/fight/src/main.rs:52 | the potion count is red iff it is zero, plain otherwise |
| `Status.StatusOf` | examples/fight/src/main.rs:37-57 | computes the status line: player HP with its tint, potions with their tint, monster HP |
| `Completion.Complete` | examples/fight/src/main.rs:150-159 | a first character `a`/`A` gives `"attack"` with cursor 6, `p`/`P` gives `"potion"` with cursor 6; any other first character or an empty line gives no replacement and posts the notice; a replacement's cursor is the length of its line |
| `Completion.CompleteSeesFirstCharOnly` | examples/fight/src/main.rs:151 | two lines with the same first character complete the same way, whatever the cursor and press count |
| `Completion.CompletionIsCommand` | examples/fight/src/main.rs:152-153 | every line the completor writes is accepted by the turn controller as the command whose initial was typed |
| `Completion.CompleteExamples` | examples/fight/src/main.rs:151-157 | `"A"`, `"att"`, `"Attack"` complete to `"attack"`; `"P"` to `"potion"`; `"xyz"`, `""` and `" a"` post the notice |
| `Battle.Initial` | examples/fight/src/main.rs:28-33 | the starting state (50, 3, 100) satisfies the bounds and the loop condition |
| `Battle.MonsterAttack` | examples/fight/src/main.rs:136-137 | the counter-attack lowers `uhp` by exactly 10 and leaves `upot` and `mhp` alone |
| `Battle.HealTo` | examples/fight/src/main.rs:85 | the HP after a potion is at most 50 and at most `uhp + 30`, equals one of the two, and is never below `uhp` when `uhp <= 50` |
| `Battle.HealAmount` | examples/fight/src/main.rs:86 | the heal never lifts `uhp` above 50, and for `uhp <= 50` it lies in [0, 30] |
| `Battle.Drink` | examples/fight/src/main.rs:84-111 | computes a drink: one potion fewer; `uhp` is set to `min(uhp + 30, 50)` only when something is healed; the messages are "wasted the whole thing", or "healed n" plus "partly wasted" when n < 30; then the monster's attack (proved in `PotionTurn`) |
| `Battle.Obey` | examples/fight/src/main.rs:70-117 | computes a submitted command: an attack, a drink, "out of potions" with no counter-attack, or "invalid choice" (proved in `AttackTurn`, `PotionTurn`, `OutOfPotionsTurn`, `IdleTurn`) |
| `Battle.React` | examples/fight/src/main.rs:65-127 | computes one read: leave the loop on quit or a dead editor; otherwise echo and obey a line, echo a discarded line, or post the unknown-key notice |
| `Battle.Verdict` | examples/fight/src/main.rs:129-134 | once a side is down: a loss with "you lose" iff `uhp <= 0`, otherwise a win with "you win"; the state is unchanged |
| `Battle.Resolve` | examples/fight/src/main.rs:59-134 | computes `inner_loop` on a stream of responses: while both stand, publish the status line and react to the next response; then the verdict (properties in `ResolveKeepsValid`, `ResolveNeverRestores`, `ResolveVerdict`) |
| `Battle.HealAmountBounds` | examples/fight/src/main.rs:85-87 | for `uhp <= 50` the heal is `min(uhp + 30, 50) - uhp`, lies in [0, 30], is 0 iff `uhp == 50`, and is below 30 iff `uhp > 20` |
| `Battle.TintMeaning` | examples/fight/src/main.rs:40-45 | red means the next enemy hit is fatal; green means a potion would waste some of its heal |
| `Battle.AttackTurn` | examples/fight/src/main.rs:70-77 | an attack lowers `mhp` by exactly 10, then always lowers `uhp` by exactly 10, leaves `upot` alone, and reports the attack then the enemy attack |
| `Battle.OutOfPotionsTurn` | examples/fight/src/main.rs:79-81 | a potion request with no potions changes nothing, reports "out of potions", and the monster does not attack |
| `Battle.PotionTurn` | examples/fight/src/main.rs:83-111 | a potion costs exactly one potion and leaves `uhp` at `min(uhp + 30, 50) - 10`; it reports a wasted whole potion iff `uhp == 50`, else the amount healed, plus "partly wasted" iff that is below 30; the enemy then attacks |
| `Battle.IdleTurn` | examples/fight/src/main.rs:114-126 | any other line, a discarded line or an unknown key leaves all three fields unchanged and brings no enemy attack |
| `Battle.ReactKeepsValid` | examples/fight/src/main.rs:68-127 | a turn taken while both stand keeps `uhp <= 50`, `0 <= upot <= 3`, `uhp > -10`, `-10 < mhp <= 100` |
| `Battle.ReactSaysNoVerdict` | examples/fight/src/main.rs:65-127 | no single response writes "you win" or "you lose" |
| `Battle.ResolveKeepsValid` | examples/fight/src/main.rs:59-128 | from a state within the bounds, every run ends within them |
| `Battle.ResolveNeverRestores` | examples/fight/src/main.rs:59-128 | monster HP and potion count never increase over a run |
| `Battle.ResolveVerdict` | examples/fight/src/main.rs:59-134 | a run ends in a loss iff `uhp <= 0` at the end (also when `mhp <= 0`), in a win iff only `mhp <= 0`; quitting, aborting and running out of input leave both standing; a win or loss is reported once, as the last message, and never otherwise |
| `Battle.ResolveContinues` | examples/fight/src/main.rs:60-127 | a round in which the game goes on ends where the rest of the loop ends |
| `Battle.AttackStreak` | examples/fight/src/main.rs:70-77 | `n` attacks in a row while both stand cost each side exactly `10 * n` HP |
| `Battle.DrinkRound` | examples/fight/src/main.rs:83-111 | a potion drunk while both stand moves the game to `(min(uhp + 30, 50) - 10, upot - 1, mhp)` |
| `Battle.QuitEndsAtOnce` | examples/fight/src/main.rs:67 | a quit read at any HP values at which the loop still reads a response ends the loop at once, with the state unchanged, only the status line written and neither verdict |
| `Battle.FinishedReadsNothing` | examples/fight/src/main.rs:60 | once a side is down no response is read and only the verdict is written |
| `Game.Fight.constructor` | examples/fight/src/main.rs:28-33 | a new fight starts at (50, 3, 100) |
| `Game.Fight.Play` | examples/fight/src/main.rs:22-35 | greets the player, then ends and writes exactly as `Resolve` from the starting state says |
| `Game.Fight.UpdateStatusLine` | examples/fight/src/main.rs:36-58 | publishes the status of the current state and changes nothing else |
| `Game.Fight.MonAttack` | examples/fight/src/main.rs:136-145 | lowers `uhp` by 10, reports it, and leaves `upot` and `mhp` alone |
| `Game.Fight.Submit` | examples/fight/src/main.rs:68-118 | the in-place update of a submitted line yields the state and messages of `Obey` on its classification |
| `Game.Fight.Step` | examples/fight/src/main.rs:65-127 | one response read: the loop is left with the right outcome and no change, or the state and log advance as `React` says |
| `Game.Fight.Run` | examples/fight/src/main.rs:59-135 | the loop's outcome, final fields and output are exactly those of `Resolve` from the state it started in |
| `Game.Fight.Report` | examples/fight/src/main.rs:129-134 | once a side is down, "you lose" if `uhp <= 0`, otherwise "you win" |
| `Scenarios.OpeningTurns` | examples/fight/src/main.rs:70-111 | attack then potion from the start gives (40, 2, 90), healing 10 and reporting the potion partly wasted |
| `Scenarios.OpeningThenAttacksLoses` | examples/fight/src/main.rs:59-134 | after attack and potion, the fourth of five attacks loses, with the monster at 50 |
| `Scenarios.OnlyAttackingLoses` | examples/fight/src/main.rs:59-134 | attacking every turn loses after five turns, with the monster at 50 |
| `Scenarios.NineAttacks` | examples/fight/src/main.rs:59-128 | the first twelve responses of the winning line (nine attacks, potions drunk at 10 HP) leave the game awaiting input at (20, 0, 10): player at 20 HP, no potions, monster at 10 HP |
| `Scenarios.WinningLine` | examples/fight/src/main.rs:59-134 | that line wins on the tenth attack, with the player at 10 HP |
| `Scenarios.TieLine` | examples/fight/src/main.rs:59-134 | a line that wastes 10 points of one potion takes both sides to 0 HP on the same turn, and the loss is reported |
| `Scenarios.CaseMatters` | examples/fight/src/main.rs:70-79 | `"A"`, `"Attack"` and `" a"` leave the starting state untouched |

## Left out

- Terminal I/O through liso is not modelled as terminal behaviour. That covers `InputOutput::new`, `set_completor`, `status`, `prompt`, `read_blocking`, `echoln`, `wrapln` and `notice`. Reads come from a sequence of responses; writes are appended to `log` as abstract messages.
- Styled text, colours as escape sequences and the fixed-width number formatting are presentation only. Colours are modelled as the `Tint` enum.
- The prompt text and its completion and history flags are not modelled.
- The status line is a persistent line that liso replaces. The model records each update as a `ShowStatus` message instead.
- Notice durations (1 s and 5 s) are not modelled. The unknown-key notice is a message carrying the key. The completor's notice is a flag.
- `panic!` on `Response::Dead` is modelled as the outcome `Aborted`. The process abort is not modelled.
- The `println!` in `main` is not modelled.
- Responses are limited to the five kinds the game distinguishes. The catch-all arm is modelled as `UnknownKey` carrying a byte, the value `as_unknown()` gives.
- The line editor calls the completor while the player composes a line; this is not modelled. The completor is modelled on its own, and `CompletionIsCommand` links its output to the turn controller.
- i32 arithmetic is modelled with unbounded integers. `saturating_sub` is modelled as plain subtraction. `ResolveKeepsValid` shows that reachable values stay between -10 and 100, far from the i32 bounds.

