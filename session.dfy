/** The running game: the rooms, the current room and the player, updated
    in place by the commands. Every method is proved to leave the fields as
    the matching function of `Rules` says, so the lemmas proved there hold
    of the object. */
module Session {
  import opened World
  import opened Combat
  import opened Rules

  /** What a command reports back, in place of the text it prints. */
  datatype Reply =
    | Silent
    | Looked(view: View)
    | Went(direction: string, view: View)
    | NoExit(direction: string)
    | GoWhere
    | Took(item: string)
    | NoItem(name: string)
    | TakeWhat
    | Listed(report: Report)
    | NothingToFight
    | Victory(enemy: string)
    | Defeat(enemy: string)
    | Farewell
    | Unknown

  class Game {
    var rooms: map<string, Room>
    var currentRoom: string
    var health: int
    var inventory: seq<Item>

    /** The fields as a `Rules.State` value. */
    function Snapshot(): State
      reads this
    {
      State(rooms, currentRoom, health, inventory)
    }

    ghost predicate Valid()
      reads this
    {
      WellFormed(Snapshot())
    }

    /** Builds the five rooms and puts a fresh player at the entrance. */
    constructor Init()
      ensures Valid() && Snapshot() == Initial()
    {
      rooms := InitialRooms();
      currentRoom := "entrance";
      health := 100;
      inventory := [];
      new;
      assert Snapshot() == Initial();
    }

    /** `look`: describes the current room without changing anything. */
    method Look() returns (v: View)
      requires Valid()
      ensures v == ViewOf(rooms[currentRoom])
    {
      var room := rooms[currentRoom];
      var names: seq<string> := [];
      var i := 0;
      while i < |room.items|
        invariant 0 <= i <= |room.items|
        invariant |names| == i
        invariant forall j :: 0 <= j < i ==> names[j] == room.items[j].name
      {
        names := names + [room.items[i].name];
        i := i + 1;
      }
      var enemy := if room.enemy.Some? then Some(room.enemy.value.name) else None;
      v := View(room.name, room.description, names, enemy, room.exits.Keys);
    }

    /** `inventory`: lists what the player carries without changing
        anything. */
    method ShowInventory() returns (report: Report)
      ensures report == ReportOf(inventory, health)
    {
      if |inventory| == 0 {
        return EmptyInventory;
      }
      var entries: seq<(string, int)> := [];
      var i := 0;
      while i < |inventory|
        invariant 0 <= i <= |inventory|
        invariant |entries| == i
        invariant forall j :: 0 <= j < i ==> entries[j] == (inventory[j].name, inventory[j].power)
      {
        entries := entries + [(inventory[i].name, inventory[i].power)];
        i := i + 1;
      }
      report := Holding(entries, health);
    }

    /** `go direction`: follows the exit if there is one, then looks. */
    method Move(direction: string) returns (reply: Reply)
      requires Valid()
      modifies this
      ensures Valid()
      ensures Snapshot() == AfterMove(old(Snapshot()), direction)
      ensures reply == if direction in old(rooms[currentRoom].exits)
                       then Went(direction, ViewOf(rooms[currentRoom]))
                       else NoExit(direction)
    {
      var room := rooms[currentRoom];
      if direction in room.exits {
        currentRoom := room.exits[direction];
        var v := Look();
        reply := Went(direction, v);
      } else {
        reply := NoExit(direction);
      }
    }

    /** `take name`: moves the first item of the current room whose name
        matches, ignoring case, to the end of the inventory. */
    method Take(name: string) returns (reply: Reply)
      requires Valid()
      modifies this
      ensures Valid()
      ensures Snapshot() == AfterTake(old(Snapshot()), name)
      ensures var items := old(rooms[currentRoom].items);
        reply == match FirstMatch(items, name)
                 case None => NoItem(name)
                 case Some(i) => Took(items[i].name)
    {
      var room := rooms[currentRoom];
      var i := 0;
      while i < |room.items|
        invariant 0 <= i <= |room.items|
        invariant forall j :: 0 <= j < i ==> !Matches(room.items[j], name)
      {
        var item := room.items[i];
        if Lower(item.name) == Lower(name) {
          TakeKeepsWellFormed(Snapshot(), name);
          inventory := inventory + [item];
          rooms := rooms[currentRoom := room.(items := room.items[..i] + room.items[i + 1..])];
          return Took(item.name);
        }
        i := i + 1;
      }
      reply := NoItem(name);
    }

    /** The player's combat power: 1 plus the power of every item carried. */
    method CombatPower() returns (power: int)
      ensures power == Power(inventory)
    {
      power := 1;
      var i := 0;
      while i < |inventory|
        invariant 0 <= i <= |inventory|
        invariant power == 1 + SumPowers(inventory[..i])
      {
        assert inventory[..i + 1][..i] == inventory[..i];
        power := power + inventory[i].power;
        i := i + 1;
      }
      assert inventory[..i] == inventory;
    }

    /** `fight`: exchanges blows with the current room's enemy until one side
        is at 0 or below. Each damage roll is any value in its range; the
        rolls made are returned so that the contract can name them. */
    method Fight() returns (reply: Reply, ghost hits: seq<int>, ghost blows: seq<int>)
      requires Valid()
      modifies this
      ensures Valid()
      ensures FairRolls(old(Snapshot()), hits, blows)
      ensures Snapshot() == AfterFight(old(Snapshot()), hits, blows)
      ensures reply == match old(rooms[currentRoom].enemy)
                       case None => NothingToFight
                       case Some(foe) => if rooms[currentRoom].enemy.None? then Victory(foe.name) else Defeat(foe.name)
    {
      hits, blows := [], [];
      var room := rooms[currentRoom];
      if room.enemy.None? {
        return NothingToFight, hits, blows;
      }
      var power := CombatPower();
      var foe := room.enemy.value;
      ghost var enemy := foe;
      ghost var start := Snapshot();
      while true
        invariant rooms == start.rooms && currentRoom == start.current && inventory == start.inventory
        invariant Ongoing(start, enemy, hits, blows)
        invariant Play(start.health, enemy.health, hits, blows) == (health, foe.health)
        invariant foe == enemy.(health := foe.health) && foe.health > 0
        decreases foe.health
      {
        // Player's turn.
        PowerBounds(inventory);
        var hit :| 1 <= hit <= power;
        if foe.health - hit <= 0 {
          rooms := rooms[currentRoom := room.(enemy := None)];
          FightWon(start, enemy, hits, blows, hit, Snapshot());
          hits := hits + [hit];
          return Victory(foe.name), hits, blows;
        }
        foe := foe.(health := foe.health - hit);
        // Enemy's turn.
        var blow :| 1 <= blow <= foe.power;
        if health - blow <= 0 {
          health := health - blow;
          rooms := rooms[currentRoom := room.(enemy := Some(foe))];
          FightLost(start, enemy, hits, blows, hit, blow, Snapshot());
          hits, blows := hits + [hit], blows + [blow];
          return Defeat(foe.name), hits, blows;
        }
        FightContinues(start, enemy, hits, blows, hit, blow);
        hits, blows := hits + [hit], blows + [blow];
        health := health - blow;
      }
    }

    /** One command line, already split into words, followed by the
        game-over check. */
    method Step(words: seq<string>) returns (reply: Reply, status: Status, ghost hits: seq<int>, ghost blows: seq<int>)
      requires Valid()
      modifies this
      ensures Valid()
      ensures StepRolls(old(Snapshot()), words, hits, blows)
      ensures Snapshot() == AfterStep(old(Snapshot()), words, hits, blows)
      ensures status == StatusAfter(words, health)
      ensures |words| == 0 ==> reply == Silent
      ensures |words| > 0 && words[0] == "look" ==> reply == Looked(ViewOf(rooms[currentRoom]))
      ensures words == ["go"] ==> reply == GoWhere
      ensures |words| > 1 && words[0] == "go" ==>
        reply == if words[1] in old(rooms[currentRoom].exits)
                 then Went(words[1], ViewOf(rooms[currentRoom]))
                 else NoExit(words[1])
      ensures words == ["take"] ==> reply == TakeWhat
      ensures |words| > 1 && words[0] == "take" ==>
        var items := old(rooms[currentRoom].items);
        reply == match FirstMatch(items, words[1])
                 case None => NoItem(words[1])
                 case Some(i) => Took(items[i].name)
      ensures IsFight(words) ==>
        reply == match old(rooms[currentRoom].enemy)
                 case None => NothingToFight
                 case Some(foe) => if rooms[currentRoom].enemy.None? then Victory(foe.name) else Defeat(foe.name)
      ensures |words| > 0 && words[0] == "inventory" ==> reply == Listed(ReportOf(inventory, health))
      ensures |words| > 0 && words[0] == "quit" ==> reply == Farewell
      ensures |words| > 0 && words[0] !in {"look", "go", "take", "inventory", "fight", "quit"} ==> reply == Unknown
    {
      hits, blows := [], [];
      if |words| == 0 {
        return Silent, Playing, hits, blows;
      }
      match words[0] {
        case "look" =>
          var v := Look();
          reply := Looked(v);
        case "go" =>
          if |words| > 1 {
            reply := Move(words[1]);
          } else {
            reply := GoWhere;
          }
        case "take" =>
          if |words| > 1 {
            reply := Take(words[1]);
          } else {
            reply := TakeWhat;
          }
        case "inventory" =>
          var report := ShowInventory();
          reply := Listed(report);
        case "fight" =>
          reply, hits, blows := Fight();
        case "quit" =>
          return Farewell, Quit, hits, blows;
        case _ =>
          reply := Unknown;
      }
      status := if health <= 0 then GameOver else Playing;
    }
  }
}
