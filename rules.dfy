/** The game's state as a value and the effect of each command on it. The
    `Game` class's methods are proved to change their fields exactly as
    these functions say; the lemmas here state what the commands promise. */
module Rules {
  import opened World
  import opened Combat

  /** The whole mutable state: the rooms, which room the player is in, and
      the player's health and inventory. */
  datatype State = State(rooms: map<string, Room>, current: string, health: int, inventory: seq<Item>)

  /** What every reachable state satisfies: no item has negative power, item
      names are unique within a room, an enemy still in a room is alive and
      has power at least 1 (so that its damage roll has a range). */
  predicate RoomOk(room: Room)
  {
    NonNegativePowers(room.items) && UniqueNames(room.items) &&
    (room.enemy.Some? ==> room.enemy.value.health > 0 && room.enemy.value.power >= 1)
  }

  /** The player stands in a room of the map, every exit leads to a room of
      the map, and every room is as `RoomOk` says. */
  predicate WellFormed(s: State)
  {
    s.current in s.rooms && Closed(s.rooms) &&
    (forall k :: k in s.rooms ==> RoomOk(s.rooms[k])) &&
    NonNegativePowers(s.inventory)
  }

  /** The map itself is the same: the same room identifiers, and each room
      keeps its name, description and exits. Only items and enemies differ. */
  predicate SameMap(a: map<string, Room>, b: map<string, Room>)
  {
    a.Keys == b.Keys &&
    forall k :: k in a ==> b[k].name == a[k].name && b[k].description == a[k].description && b[k].exits == a[k].exits
  }

  /** Keeping the map keeps it closed. */
  lemma SameMapClosed(a: map<string, Room>, b: map<string, Room>)
    requires SameMap(a, b) && Closed(a)
    ensures Closed(b)
  {
    forall k, d | k in b && d in b[k].exits
      ensures b[k].exits[d] in b
    {
      assert k in a && d in a[k].exits;
    }
  }

  // ---------------------------------------------------------------------
  // Start of a game

  /** The state a game starts in: the five rooms, the player at the
      entrance with health 100 and nothing carried. */
  function Initial(): (s: State)
    ensures WellFormed(s)
    ensures s.current == "entrance" && s.health == 100 && s.inventory == []
  {
    InitialRoomsOk();
    State(InitialRooms(), "entrance", 100, [])
  }

  /** Every starting room is as `RoomOk` says. */
  lemma InitialRoomsOk()
    ensures forall k :: k in InitialRooms() ==> RoomOk(InitialRooms()[k])
  {
  }

  // ---------------------------------------------------------------------
  // look and inventory

  /** What `look` reports about a room: its name and description, the names
      of its items in order, the name of its enemy if there is one, and the
      set of directions that lead out. */
  datatype View = View(name: string, description: string, items: seq<string>,
                       enemy: Option<string>, exits: set<string>)

  function Names(items: seq<Item>): (r: seq<string>)
  {
    seq(|items|, i requires 0 <= i < |items| => items[i].name)
  }

  function ViewOf(room: Room): View
  {
    View(room.name, room.description, Names(room.items),
         if room.enemy.Some? then Some(room.enemy.value.name) else None,
         room.exits.Keys)
  }

  /** What `inventory` reports: that it is empty, or each carried item's name
      and power followed by the player's health. */
  datatype Report = EmptyInventory | Holding(entries: seq<(string, int)>, health: int)

  function Entries(items: seq<Item>): seq<(string, int)>
  {
    seq(|items|, i requires 0 <= i < |items| => (items[i].name, items[i].power))
  }

  function ReportOf(inventory: seq<Item>, health: int): Report
  {
    if inventory == [] then EmptyInventory else Holding(Entries(inventory), health)
  }

  // ---------------------------------------------------------------------
  // go

  /** `go direction`: follow the exit of that name out of the current room
      if there is one; otherwise nothing changes. */
  function AfterMove(s: State, direction: string): (r: State)
    requires s.current in s.rooms
    ensures WellFormed(s) ==> WellFormed(r)
  {
    var exits := s.rooms[s.current].exits;
    if direction in exits then s.(current := exits[direction]) else s
  }

  /** Moving changes only the current room: to the exit's destination when
      the direction is an exit (which is a room of the map), and not at all
      otherwise. */
  lemma MoveEffect(s: State, direction: string)
    requires WellFormed(s)
    ensures var r := AfterMove(s, direction);
      r.rooms == s.rooms && r.health == s.health && r.inventory == s.inventory &&
      r.current in r.rooms &&
      (direction in s.rooms[s.current].exits ==> r.current == s.rooms[s.current].exits[direction]) &&
      (direction !in s.rooms[s.current].exits ==> r == s)
  {
  }

  // ---------------------------------------------------------------------
  // take

  /** `take name`: the first item of the current room answering to `name`
      (ignoring case) leaves the room and goes to the end of the inventory;
      when none answers, nothing changes. */
  function AfterTake(s: State, name: string): (r: State)
    requires s.current in s.rooms
    ensures r.current == s.current && r.health == s.health && r.rooms.Keys == s.rooms.Keys
    ensures |r.rooms[s.current].items| + |r.inventory| == |s.rooms[s.current].items| + |s.inventory|
    ensures r.inventory == s.inventory || |r.inventory| == |s.inventory| + 1
  {
    var room := s.rooms[s.current];
    match FirstMatch(room.items, name)
    case None => s
    case Some(i) =>
      s.(rooms := s.rooms[s.current := room.(items := RemoveAt(room.items, i))],
         inventory := s.inventory + [room.items[i]])
  }

  /** Taking moves one item from the current room to the inventory: what the
      room and the inventory hold together is unchanged, and nothing else
      changes (the other rooms, the map, the current room's enemy, the
      player's health and position). */
  lemma TakeConserves(s: State, name: string)
    requires s.current in s.rooms
    ensures var r := AfterTake(s, name);
      r.current == s.current && r.health == s.health &&
      r.rooms.Keys == s.rooms.Keys &&
      (forall k :: k in s.rooms && k != s.current ==> r.rooms[k] == s.rooms[k]) &&
      r.rooms[s.current] == s.rooms[s.current].(items := r.rooms[s.current].items) &&
      multiset(r.rooms[s.current].items) + multiset(r.inventory)
        == multiset(s.rooms[s.current].items) + multiset(s.inventory)
  {
    var room := s.rooms[s.current];
    match FirstMatch(room.items, name)
    case None =>
    case Some(i) =>
      RemoveAtConserves(room.items, i, s.inventory);
  }

  /** On a match exactly the first answering item is taken: the items before
      and after it stay in the room in their order, and it is appended to the
      inventory. */
  lemma TakeFirst(s: State, name: string, i: nat)
    requires s.current in s.rooms
    requires i < |s.rooms[s.current].items| && Matches(s.rooms[s.current].items[i], name)
    requires forall j :: 0 <= j < i ==> !Matches(s.rooms[s.current].items[j], name)
    ensures var items := s.rooms[s.current].items;
      AfterTake(s, name).inventory == s.inventory + [items[i]] &&
      AfterTake(s, name).rooms[s.current].items == items[..i] + items[i + 1..]
  {
    var f := FirstMatch(s.rooms[s.current].items, name);
    assert f.Some? && f.value == i;
  }

  /** The name is matched ignoring case: two names equal up to case take the
      same item. */
  lemma TakeIgnoresCase(s: State, a: string, b: string)
    requires s.current in s.rooms && Lower(a) == Lower(b)
    ensures AfterTake(s, a) == AfterTake(s, b)
  {
    FirstMatchIgnoresCase(s.rooms[s.current].items, a, b);
  }

  /** When no item of the current room answers to `name`, nothing changes. */
  lemma TakeNoMatch(s: State, name: string)
    requires s.current in s.rooms
    requires forall j :: 0 <= j < |s.rooms[s.current].items| ==> !Matches(s.rooms[s.current].items[j], name)
    ensures AfterTake(s, name) == s
  {
  }

  /** Taking keeps the state well formed, and since a room's item names are
      unique, no item answering to the taken name is left in the room. */
  lemma TakeKeepsWellFormed(s: State, name: string)
    requires WellFormed(s)
    ensures WellFormed(AfterTake(s, name)) && SameMap(s.rooms, AfterTake(s, name).rooms)
    ensures var items := AfterTake(s, name).rooms[s.current].items;
      FirstMatch(s.rooms[s.current].items, name).Some? ==>
        forall j :: 0 <= j < |items| ==> !Matches(items[j], name)
  {
    var room := s.rooms[s.current];
    match FirstMatch(room.items, name)
    case None =>
    case Some(i) =>
      var r := AfterTake(s, name);
      RemoveAtUnique(room.items, i);
      var left := RemoveAt(room.items, i);
      assert NonNegativePowers(left) by {
        forall j | 0 <= j < |left| ensures left[j].power >= 0 {
          assert left[j] == room.items[if j < i then j else j + 1];
        }
      }
      assert RoomOk(r.rooms[s.current]);
      assert NonNegativePowers(r.inventory) by {
        forall j | 0 <= j < |r.inventory| ensures r.inventory[j].power >= 0 {
          if j == |s.inventory| { assert r.inventory[j] == room.items[i]; }
        }
      }
      assert SameMap(s.rooms, r.rooms);
      SameMapClosed(s.rooms, r.rooms);
      forall j | 0 <= j < |left| ensures !Matches(left[j], name) {
        assert !Matches(left[j], room.items[i].name);
      }
  }

  // ---------------------------------------------------------------------
  // fight

  /** `fight`, given the rolls that were made: with no enemy nothing
      changes; otherwise the exchange is played out, the player's health is
      what is left of it, and the enemy leaves the room if it fell or stays
      with its remaining health. */
  function AfterFight(s: State, hits: seq<int>, blows: seq<int>): (r: State)
    requires s.current in s.rooms
    ensures r.current == s.current && r.inventory == s.inventory && r.rooms.Keys == s.rooms.Keys
    ensures NonNegative(blows) ==> r.health <= s.health
  {
    var room := s.rooms[s.current];
    match room.enemy
    case None => s
    case Some(foe) =>
      var (h, e) := Play(s.health, foe.health, hits, blows);
      var left := if e <= 0 then None else Some(foe.(health := e));
      s.(rooms := s.rooms[s.current := room.(enemy := left)], health := h)
  }

  /** The rolls a fight can make: none when there is no enemy; otherwise
      every player hit in [1, combat power], every enemy blow in [1, enemy
      power], and exactly as many as a finished fight takes. */
  predicate FairRolls(s: State, hits: seq<int>, blows: seq<int>)
    requires s.current in s.rooms
  {
    match s.rooms[s.current].enemy
    case None => hits == [] && blows == []
    case Some(foe) =>
      InRange(hits, Power(s.inventory)) && InRange(blows, foe.power) &&
      Settles(s.health, foe.health, hits, blows)
  }

  /** A fight touches only the current room's enemy and the player's health:
      the inventory, every room's items, the map, the position and every
      other room are as before; with no enemy nothing changes at all. */
  lemma FightFrame(s: State, hits: seq<int>, blows: seq<int>)
    requires s.current in s.rooms
    ensures var r := AfterFight(s, hits, blows);
      r.current == s.current && r.inventory == s.inventory &&
      r.rooms.Keys == s.rooms.Keys &&
      (forall k :: k in s.rooms && k != s.current ==> r.rooms[k] == s.rooms[k]) &&
      r.rooms[s.current] == s.rooms[s.current].(enemy := r.rooms[s.current].enemy) &&
      (s.rooms[s.current].enemy.None? ==> r == s)
  {
  }

  /** A fight with fair rolls against an enemy ends in exactly one of two
      ways: the enemy is gone and a player who entered alive is still alive,
      or the player's health is 0 or below and the enemy is still there with
      positive health. It lasts at most as many rounds as the enemy had
      health, the enemy's loss is the sum of the hits and the player's loss
      the sum of the blows. */
  lemma FightOutcome(s: State, hits: seq<int>, blows: seq<int>)
    requires WellFormed(s) && FairRolls(s, hits, blows)
    requires s.rooms[s.current].enemy.Some?
    ensures var foe := s.rooms[s.current].enemy.value;
      var r := AfterFight(s, hits, blows);
      var left := r.rooms[s.current].enemy;
      |hits| <= foe.health &&
      ((left.None? && |blows| + 1 == |hits| && foe.health - Sum(hits) <= 0 &&
        r.health == s.health - Sum(blows) && (s.health > 0 ==> r.health > 0)) ||
       (left.Some? && left == Some(foe.(health := foe.health - Sum(hits))) && left.value.health > 0 &&
        r.health <= 0 && r.health == s.health - Sum(blows) && |blows| == |hits|))
  {
    var foe := s.rooms[s.current].enemy.value;
    SettlesOutcome(s.health, foe.health, hits, blows);
    SettlesWithin(s.health, foe.health, hits, blows, Power(s.inventory));
  }

  /** A fight keeps the state well formed and the map unchanged. */
  lemma FightKeepsWellFormed(s: State, hits: seq<int>, blows: seq<int>)
    requires WellFormed(s) && FairRolls(s, hits, blows)
    ensures WellFormed(AfterFight(s, hits, blows)) && SameMap(s.rooms, AfterFight(s, hits, blows).rooms)
  {
    var r := AfterFight(s, hits, blows);
    if s.rooms[s.current].enemy.Some? {
      FightOutcome(s, hits, blows);
      assert RoomOk(r.rooms[s.current]);
      assert SameMap(s.rooms, r.rooms);
      SameMapClosed(s.rooms, r.rooms);
    }
  }

  /** The rounds of a fight that are still going on: both sides standing
      after every round, every roll in its range. */
  predicate Ongoing(s: State, foe: Enemy, hits: seq<int>, blows: seq<int>)
  {
    Survives(s.health, foe.health, hits, blows) &&
    InRange(hits, Power(s.inventory)) && InRange(blows, foe.power)
  }

  /** One more round in which both sides stay standing keeps the fight
      going. */
  lemma FightContinues(s: State, foe: Enemy, hits: seq<int>, blows: seq<int>, hit: int, blow: int)
    requires Ongoing(s, foe, hits, blows)
    requires 1 <= hit <= Power(s.inventory) && 1 <= blow <= foe.power
    requires Play(s.health, foe.health, hits, blows).1 - hit > 0
    requires Play(s.health, foe.health, hits, blows).0 - blow > 0
    ensures Ongoing(s, foe, hits + [hit], blows + [blow])
    ensures Play(s.health, foe.health, hits + [hit], blows + [blow])
         == (Play(s.health, foe.health, hits, blows).0 - blow, Play(s.health, foe.health, hits, blows).1 - hit)
  {
    SurvivesStep(s.health, foe.health, hits, blows, hit, blow);
    InRangeAppend(hits, hit, Power(s.inventory));
    InRangeAppend(blows, blow, foe.power);
  }

  /** A hit that brings the enemy to 0 or below ends the fight: the enemy
      leaves the room and the player's health is what it was before the hit. */
  lemma FightWon(s: State, foe: Enemy, hits: seq<int>, blows: seq<int>, hit: int, r: State)
    requires WellFormed(s) && s.rooms[s.current].enemy == Some(foe)
    requires Ongoing(s, foe, hits, blows)
    requires 1 <= hit <= Power(s.inventory)
    requires Play(s.health, foe.health, hits, blows).1 - hit <= 0
    requires r == s.(rooms := s.rooms[s.current := s.rooms[s.current].(enemy := None)],
                     health := Play(s.health, foe.health, hits, blows).0)
    ensures FairRolls(s, hits + [hit], blows)
    ensures AfterFight(s, hits + [hit], blows) == r && WellFormed(r)
  {
    SettlesByHit(s.health, foe.health, hits, blows, hit);
    InRangeAppend(hits, hit, Power(s.inventory));
    FightKeepsWellFormed(s, hits + [hit], blows);
  }

  /** A blow that brings the player to 0 or below ends the fight: the enemy
      stays in the room with what is left of its health. */
  lemma FightLost(s: State, foe: Enemy, hits: seq<int>, blows: seq<int>, hit: int, blow: int, r: State)
    requires WellFormed(s) && s.rooms[s.current].enemy == Some(foe)
    requires Ongoing(s, foe, hits, blows)
    requires 1 <= hit <= Power(s.inventory) && 1 <= blow <= foe.power
    requires Play(s.health, foe.health, hits, blows).1 - hit > 0
    requires Play(s.health, foe.health, hits, blows).0 - blow <= 0
    requires var (h, e) := Play(s.health, foe.health, hits, blows);
      r == s.(rooms := s.rooms[s.current := s.rooms[s.current].(enemy := Some(foe.(health := e - hit)))],
              health := h - blow)
    ensures FairRolls(s, hits + [hit], blows + [blow])
    ensures AfterFight(s, hits + [hit], blows + [blow]) == r && WellFormed(r)
  {
    SettlesByBlow(s.health, foe.health, hits, blows, hit, blow);
    InRangeAppend(hits, hit, Power(s.inventory));
    InRangeAppend(blows, blow, foe.power);
    FightKeepsWellFormed(s, hits + [hit], blows + [blow]);
  }

  // ---------------------------------------------------------------------
  // The command dispatcher

  /** How the session stands after a command. */
  datatype Status = Playing | Quit | GameOver

  predicate IsFight(words: seq<string>)
  {
    |words| > 0 && words[0] == "fight"
  }

  /** The state after one tokenised command line; `hits` and `blows` are the
      rolls made if the command was `fight`. Only `words[1]` is used as the
      argument of `go` and `take`; everything else leaves the state alone. */
  function AfterStep(s: State, words: seq<string>, hits: seq<int>, blows: seq<int>): (r: State)
    requires s.current in s.rooms
    ensures r.rooms.Keys == s.rooms.Keys
    ensures Closed(s.rooms) ==> r.current in r.rooms
    ensures !IsFight(words) ==> r.health == s.health
  {
    if |words| == 0 then s
    else match words[0]
      case "go" => if |words| > 1 then AfterMove(s, words[1]) else s
      case "take" => if |words| > 1 then AfterTake(s, words[1]) else s
      case "fight" => AfterFight(s, hits, blows)
      case _ => s
  }

  /** The rolls a command can make: those of a fight for `fight`, none
      otherwise. */
  predicate StepRolls(s: State, words: seq<string>, hits: seq<int>, blows: seq<int>)
    requires s.current in s.rooms
  {
    if IsFight(words) then FairRolls(s, hits, blows) else hits == [] && blows == []
  }

  /** The session ends on `quit`, before health is looked at, and after any
      other non-empty command that leaves health at 0 or below; an empty line
      is skipped without the health check. */
  function StatusAfter(words: seq<string>, health: int): (st: Status)
    ensures st == Quit <==> |words| > 0 && words[0] == "quit"
    ensures st == GameOver <==> |words| > 0 && words[0] != "quit" && health <= 0
  {
    if |words| == 0 then Playing
    else if words[0] == "quit" then Quit
    else if health <= 0 then GameOver
    else Playing
  }

  /** Every command keeps the state well formed (so the current room always
      exists and every exit leads somewhere), keeps the map, and never
      brings back a defeated enemy. */
  lemma StepKeepsWellFormed(s: State, words: seq<string>, hits: seq<int>, blows: seq<int>)
    requires WellFormed(s) && StepRolls(s, words, hits, blows)
    ensures var r := AfterStep(s, words, hits, blows);
      WellFormed(r) && SameMap(s.rooms, r.rooms) &&
      forall k :: k in s.rooms && s.rooms[k].enemy.None? ==> r.rooms[k].enemy.None?
  {
    if |words| > 0 {
      match words[0]
      case "go" =>
      case "take" =>
        if |words| > 1 {
          TakeKeepsWellFormed(s, words[1]);
          TakeConserves(s, words[1]);
        }
      case "fight" =>
        FightKeepsWellFormed(s, hits, blows);
        FightFrame(s, hits, blows);
      case _ =>
    }
  }

  /** Empty input, `look`, `inventory`, `quit`, an unknown command, and `go`
      or `take` without an argument change nothing. */
  lemma InertCommands(s: State, words: seq<string>, hits: seq<int>, blows: seq<int>)
    requires s.current in s.rooms
    requires |words| == 0 || words[0] !in {"go", "take", "fight"} || (|words| == 1 && words[0] != "fight")
    ensures AfterStep(s, words, hits, blows) == s
  {
  }

  /** Only the first argument is passed on: extra words after it are
      ignored. */
  lemma FirstArgumentOnly(s: State, words: seq<string>, hits: seq<int>, blows: seq<int>)
    requires s.current in s.rooms && |words| >= 2
    ensures AfterStep(s, words, hits, blows) == AfterStep(s, words[..2], hits, blows)
  {
  }
}
