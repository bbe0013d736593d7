# Cave Adventure in Dafny

A model of the command-line text adventure `ilikerooms.go`. The game has
five rooms joined by directed exits. Some rooms hold items and some hold an
enemy. The player starts at the entrance with 100 health and nothing
carried. One command per line moves the player (`go`), picks up an item
(`take`), fights the room's enemy (`fight`), describes the room (`look`),
lists what the player carries (`inventory`) or ends the session (`quit`).

The project has five modules, one per file:

- `World` (`world.dfy`): items, enemies, rooms and the starting map. It also
  holds the pure helpers: ASCII lower-casing, first case-insensitive match,
  removal from an item list, and combat power.
- `Combat` (`combat.dfy`): a fight as a pure function `Play` of the rolls
  made. `Settles` says that a list of rolls is exactly one finished fight.
  Lemmas prove the exclusive outcome, the bound on the number of rounds and
  fights with fixed rolls.
- `Rules` (`rules.dfy`): the whole mutable state as a value `State`, the
  invariant `WellFormed`, and one function per command giving the state
  after it (`AfterMove`, `AfterTake`, `AfterFight`, `AfterStep`). The lemmas
  here are what the commands promise.
- `Session` (`session.dfy`): the class `Game`. Its fields are the program's global
  state: `rooms`, `currentRoom`, `health` and `inventory`. Its methods update
  them in place as the Go functions do, with the same loops. Each method is
  proved to leave `Snapshot()` equal to the matching `Rules` function of the
  old state, and to keep `Valid()`. So every `Rules` lemma holds of the
  object.
- `Scenarios` (`scenarios.dfy`): whole games with the damage rolls fixed at
  their maximum. They are stated for every state that `Opening` describes,
  and `InitialOpening` proves that the real starting state is one of them.

The damage rolls are Dafny nondeterministic choices in their ranges
(`var hit :| 1 <= hit <= power`). `Fight` returns the rolls it made as ghost
outputs, so its contract holds for every possible sequence of rolls.

## Model

| member | source | states |
|---|---|---|
| Session.Game.Init | ilikerooms.go:41-88 | Builds the five rooms and the starting player; the object is valid and equals `Rules.Initial()` |
| Rules.Initial | ilikerooms.go:41-88 | The starting state is well formed: the player is in a room of the map, every exit of every room leads to a room of the map, every enemy is alive with power at least 1, no item has negative power. The player is at "entrance" with 100 health and an empty inventory |
| Rules.InitialRoomsOk | ilikerooms.go:45-84 | Every starting room has items with unique names and non-negative powers, and any enemy has positive health and power |
| World.InitialRooms | ilikerooms.go:45-84 | The five starting rooms with their items, enemies and exits; "entrance" is one of them and every exit leads to one of them |
| Scenarios.InitialOpening | ilikerooms.go:45-87 | The start has the entrance's north exit to the main hall, the Sword and the Goblin in the main hall with a north exit to the treasure room, and the Dragon there |
| Session.Game.Look | ilikerooms.go:141-158 | Reads nothing but the current room and reports its name, description, item names in order, enemy name if any, and the set of exit directions |
| Session.Game.ShowInventory | ilikerooms.go:184-194 | An empty inventory gives `EmptyInventory`; otherwise every carried item's name and power, in order, with the player's health |
| Session.Game.Move | ilikerooms.go:160-169 | The new state is `AfterMove` of the old one and stays valid; the reply is the view of the new room when the direction is an exit, and "can't go" otherwise |
| Rules.AfterMove | ilikerooms.go:160-169 | Moving keeps a well-formed state well formed, so the current room always exists |
| Rules.MoveEffect | ilikerooms.go:160-169 | Only the current room changes: to the exit's destination, which is a room of the map, when the direction is an exit; otherwise nothing changes at all |
| World.Lower | ilikerooms.go:174 | Lower-casing keeps the length, turns every letter `A`-`Z` into its lower-case counterpart `a`-`z`, leaves no letter `A`-`Z`, and keeps every other character as it is |
| World.Matches | ilikerooms.go:174 | An item answers to a name when both are equal after lower-casing; names of different lengths never match |
| Session.Game.Take | ilikerooms.go:171-182 | The loop finds the first item matching ignoring case. The new state is `AfterTake` of the old one and stays valid. The reply names the item taken, or says nothing matched |
| World.FirstMatch | ilikerooms.go:173-174 | The index found matches and no earlier item matches; none is found exactly when no item matches |
| World.FirstMatchIgnoresCase | ilikerooms.go:174 | Two names equal after lower-casing select the same item |
| World.RemoveAt | ilikerooms.go:176 | Splicing out index `i` keeps the items before `i` in place and shifts those after it down by one |
| World.RemoveAtConserves | ilikerooms.go:175-176 | The list with one item spliced out, plus the other list with that item appended, is the same multiset as the two lists before |
| World.RemoveAtUnique | ilikerooms.go:176 | Splicing an item out of a list with unique names keeps the names unique and leaves no item with the removed item's name |
| Rules.AfterTake | ilikerooms.go:171-181 | The state after `take`; it keeps the position, the health and the room set, the current room's items plus the inventory keep their count, and the inventory is unchanged or one longer |
| Rules.TakeConserves | ilikerooms.go:171-178 | The current room's items plus the inventory form the same multiset as before. Position, health, the room set, the other rooms and everything of the current room but its items are unchanged |
| Rules.TakeFirst | ilikerooms.go:173-178 | With `i` the first matching index, the inventory gains exactly `items[i]` at the end and the room keeps `items[..i] + items[i+1..]` in order |
| Rules.TakeIgnoresCase | ilikerooms.go:174 | Names equal up to case give the same new state |
| Rules.TakeNoMatch | ilikerooms.go:173-181 | When no item matches, the state is unchanged |
| Rules.TakeKeepsWellFormed | ilikerooms.go:171-178 | Taking keeps the state well formed and the map unchanged; after a match no item with that name is left in the room |
| Session.Game.CombatPower | ilikerooms.go:203-206 | The loop computes 1 plus the sum of the powers of the items carried |
| World.SumPowers | ilikerooms.go:203-206 | The sum of the powers of the items, accumulated in order; not negative when no item's power is |
| World.Power | ilikerooms.go:203-206 | Combat power: 1 plus the sum of the items' powers; at least 1 when no item has negative power |
| World.PowerBounds | ilikerooms.go:203-206 | With no negative item powers, combat power is at least 1 and at least 1 plus any carried item's power, so the player's roll range is never empty |
| World.PowerAppend | ilikerooms.go:203-206 | Taking an item adds exactly its power to the combat power |
| Session.Game.Fight | ilikerooms.go:196-233 | With no enemy, reports nothing to fight and makes no rolls. Otherwise every hit lies in [1, combat power], every blow in [1, enemy power], the rolls are exactly one finished fight, and the new state is `AfterFight` of the old state and those rolls. The loop ends because the enemy's health strictly decreases. The reply is victory exactly when the enemy is gone |
| Rules.FightFrame | ilikerooms.go:196-233 | A fight changes only the current room's enemy and the player's health; with no enemy it changes nothing |
| Rules.AfterFight | ilikerooms.go:196-233 | The state after a fight with the given rolls; it keeps the position, the inventory and the room set, and health never rises when no blow is negative |
| Combat.Play | ilikerooms.go:209-232 | Plays the rounds in order, hit first, stopping at the hit that fells the enemy or the blow that fells the player; with no negative rolls neither side ends above where it started |
| Combat.Settles | ilikerooms.go:209-232 | The rolls are exactly one finished fight; such a fight has as many blows as hits, or one fewer |
| Rules.FightOutcome | ilikerooms.go:209-232 | A fight with fair rolls ends in exactly one of two ways. Either the enemy is gone, the last hit had no blow in reply, and a player who entered alive is still alive. Or the player's health is 0 or below and the enemy is still there with positive health. There are at most as many rounds as the enemy had health, the enemy loses the sum of the hits and the player the sum of the blows |
| Rules.FightKeepsWellFormed | ilikerooms.go:196-233 | A fight keeps the state well formed and the map unchanged |
| Rules.FightContinues | ilikerooms.go:209-231 | A round both sides survive extends the rounds played; health drops by the blow and enemy health by the hit |
| Rules.FightWon | ilikerooms.go:211-219 | A hit that brings the enemy to 0 or below ends the fight: the enemy leaves the room and the player takes no blow |
| Rules.FightLost | ilikerooms.go:221-229 | A blow that brings the player to 0 or below ends the fight with the enemy still in the room with its remaining health |
| Combat.InRangeAppend | ilikerooms.go:209-232 | A roll in its range keeps the recorded rolls in range |
| Combat.SurvivesAlive | ilikerooms.go:209-232 | After rounds both survived, both are standing |
| Combat.SurvivesStep | ilikerooms.go:209-232 | A round both survive after survived rounds takes the hit from the enemy and the blow from the player |
| Combat.SettlesByHit | ilikerooms.go:211-219 | A hit that fells the enemy after survived rounds is the end of a finished fight |
| Combat.SettlesByBlow | ilikerooms.go:221-229 | A blow that fells the player after survived rounds is the end of a finished fight |
| Combat.SettlesOutcome | ilikerooms.go:209-232 | A finished fight ends with the enemy at 0 or below and one blow fewer than hits, or with the player at 0 or below and the enemy standing after as many blows as hits. Either way the player's final health is the starting health less the blows, and in the first a player who started alive is still alive |
| Combat.SettlesWithin | ilikerooms.go:209-232 | A finished fight with hits of at least 1 lasts at most the enemy's starting health in rounds, and the enemy ends with its health less the sum of the hits |
| Combat.SteadyRounds | ilikerooms.go:209-232 | With fixed hits `p` and fixed blows `b`, `k` rounds both survive leave the enemy at `foe - p*k` and the player at `health - b*k` |
| Combat.CeilHits | ilikerooms.go:211-215 | ceil(foe / p) hits of `p` are the fewest that bring `foe` to 0 or below |
| Combat.SteadyFinish | ilikerooms.go:209-232 | If `k-1` fixed hits leave the enemy standing, the `k`-th fells it, and the player survives `k-1` blows, the fight settles with the enemy's fall |
| Combat.SteadyWin | ilikerooms.go:209-232 | With maximum hits `p`, a player who survives the blows on the way wins with exactly ceil(foe / p) hits, after one blow fewer |
| Session.Game.Step | ilikerooms.go:104-137 | One tokenised line with its game-over check. The new state is `AfterStep` of the old one and stays valid. Only `fight` makes rolls. The status is as `StatusAfter` says. The replies are silence for empty input, the view for `look`, "go where"/"take what" without an argument, the reply of `Move`, `Take` or `Fight` when that command runs, the listing for `inventory`, farewell for `quit`, and "don't understand" for anything else |
| Rules.StatusAfter | ilikerooms.go:104-137 | The session ends on `quit` exactly when that is the command, and is over exactly when another non-empty command leaves health at 0 or below. An empty line skips the check |
| Rules.AfterStep | ilikerooms.go:104-132 | The state after one tokenised line; it keeps the room set, keeps the player in a room of a closed map, and only `fight` changes health |
| Rules.StepKeepsWellFormed | ilikerooms.go:104-137 | Every command keeps the state well formed and the map unchanged, and a defeated enemy never comes back |
| Rules.InertCommands | ilikerooms.go:104-132 | Empty input, `look`, `inventory`, `quit`, unknown commands and `go`/`take` without an argument change nothing |
| Rules.FirstArgumentOnly | ilikerooms.go:111-122 | Only `words[1]` is used: words after it do not change the result |
| Rules.SameMapClosed | ilikerooms.go:41-88 | Commands that keep the room set and every room's exits keep the map closed |
| Scenarios.NorthFromEntrance | ilikerooms.go:160-169 | `go north` at the entrance leads to the main hall and changes nothing else |
| Scenarios.SwordTaken | ilikerooms.go:171-178 | `take Sword` in the main hall puts the Sword in the empty inventory and empties the hall's items; the exits and the treasure room are untouched |
| Scenarios.SwordInAnyCase | ilikerooms.go:174 | `take sword` and `take SWORD` do exactly what `take Sword` does |
| Scenarios.NoShieldInHall | ilikerooms.go:173-181 | `take Shield` in the main hall changes nothing |
| Scenarios.IntoTreasureRoom | ilikerooms.go:57-70 | After taking the Sword, `go north` reaches the treasure room with the Dragon |
| Scenarios.SwordPower | ilikerooms.go:203-206 | Carrying only the Sword gives combat power 6 |
| Scenarios.DragonRounds | ilikerooms.go:209-232 | Power 6 against the Dragon (100/15), every roll at its maximum: after six rounds the player has 10 and the Dragon 64. The seventh blow leaves the player at -5 with the Dragon at 58, and the fight is finished |
| Scenarios.FightHere | ilikerooms.go:196-233 | A `fight` step with fair, finished rolls leaves the player with the health the exchange leaves. The enemy leaves the room if it fell, and otherwise stays with its remaining health |
| Scenarios.DragonFight | ilikerooms.go:196-233 | Facing the Dragon with the Sword only and every roll at its maximum: the player ends at -5 and the Dragon stays with 58 |
| Scenarios.DragonAtMaximumRolls | ilikerooms.go:41-233 | `go north`, `take Sword`, `go north`, `fight` with every roll at its maximum. The player, at power 6, falls on the Dragon's 7th blow at -5 health. The Dragon stays with 58 and the game is over |
| Scenarios.GoblinRounds | ilikerooms.go:209-232 | Power 1 against the Goblin (20/3), every roll at its maximum: 20 hits and 19 blows, leaving the player at 43 and the Goblin down |
| Scenarios.GoblinFight | ilikerooms.go:196-233 | Facing the Goblin bare-handed with every roll at its maximum: the Goblin leaves the room and the player has 43 |
| Scenarios.GoblinBareHanded | ilikerooms.go:41-233 | `go north`, `fight` bare-handed with every roll at its maximum: the Goblin is gone, the player has 43 and the game goes on |
| Scenarios.GoblinAtMaximumRolls | ilikerooms.go:203-232 | Against the Goblin, a player of any combat power `p` with every roll at its maximum wins with exactly ceil(20 / p) hits and survives |

## Left out

- Reading standard input, splitting a line into words and the read loop
  itself. `Step` takes one line already split into words and stands for one
  turn of the loop.
- End of input: the Go loop ignores a failed read, so at end of input it
  sees an empty line, skips it and prompts again forever; the program never
  ends there. The model has no input stream and so no such state.
- All printed text. Each command returns a `Reply` tag instead. `Defeat` and
  `Victory` carry the enemy's name, and a fight's per-turn messages are not
  modelled.
- The random number generator and its seeding from the clock. Each roll is
  a nondeterministic choice in its range. The uniform distribution is not
  modelled.
- The order in which `look` prints the exits: Go map iteration gives no
  order. `Look` returns the set of exit directions.
- Unicode lower-casing: `Lower` folds only ASCII letters `A`-`Z`.
- The panic of a zero-sized roll range. `WellFormed`, which every command
  keeps, demands that any enemy in a room has power at least 1 and that no
  item has negative power, so both ranges are never empty.
- Overflow of Go's 64-bit `int`: health and damage are unbounded integers.
  The values in the game stay far from the limit.
- Enemy health during a fight: `Fight` keeps it in a local and writes it back
  to the room when the fight ends, while the Go code writes through the
  enemy pointer every turn. Nothing reads it in between, so the final states
  agree.

An empty line skips the health check as well as the command: the code's
`continue` comes before the check. `StatusAfter` follows the code here, which
matters only if health is already 0 or below when the line is read. That
cannot happen, because the session has already ended by then.
