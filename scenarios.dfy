/** Whole-game scenarios played on the rules from the starting state, with
    the damage rolls fixed at the top of their ranges. */
module Scenarios {
  import opened World
  import opened Combat
  import opened Rules

  /** What a game's opening state shows of the map: the player at the
      entrance with full health and nothing carried, the entrance's north
      exit to the main hall, the main hall with the Sword, the Goblin and a
      north exit to the treasure room, and the Dragon there. The scenarios
      below hold from every state that opens this way. */
  predicate Opening(s: State)
  {
    s.current == "entrance" && s.health == 100 && s.inventory == [] &&
    "entrance" in s.rooms && "mainHall" in s.rooms && "treasureRoom" in s.rooms &&
    "north" in s.rooms["entrance"].exits && s.rooms["entrance"].exits["north"] == "mainHall" &&
    s.rooms["mainHall"].items == [SWORD] && s.rooms["mainHall"].enemy == Some(GOBLIN) &&
    "north" in s.rooms["mainHall"].exits && s.rooms["mainHall"].exits["north"] == "treasureRoom" &&
    s.rooms["treasureRoom"].enemy == Some(DRAGON)
  }

  /** The game starts this way. */
  lemma InitialOpening()
    ensures Opening(Initial())
  {
  }

  /** The opening state with the player moved to the main hall. */
  function InHall(s0: State): State
  {
    s0.(current := "mainHall")
  }

  /** `go north` from the entrance leads to the main hall and changes
      nothing else. */
  lemma NorthFromEntrance(s0: State)
    requires Opening(s0)
    ensures AfterStep(s0, ["go", "north"], [], []) == InHall(s0)
  {
  }

  /** The lower-cased item names the case-insensitive scenarios rely on. */
  lemma LowerNames()
    ensures Lower("Sword") == "sword" && Lower("sword") == "sword" && Lower("SWORD") == "sword"
    ensures Lower("Shield") == "shield"
  {
  }

  /** `take Sword` in the main hall moves the Sword into the empty
      inventory and leaves the rest of the map alone. */
  lemma SwordTaken(s0: State)
    requires Opening(s0)
    ensures var h := InHall(s0);
      var t := AfterStep(h, ["take", "Sword"], [], []);
      t.current == "mainHall" && t.current in t.rooms && t.inventory == [SWORD] && t.health == 100 &&
      t.rooms["mainHall"].items == [] && t.rooms["mainHall"].exits == h.rooms["mainHall"].exits &&
      "treasureRoom" in t.rooms && t.rooms["treasureRoom"] == h.rooms["treasureRoom"]
  {
    TakeFirst(InHall(s0), "Sword", 0);
    TakeConserves(InHall(s0), "Sword");
  }

  /** The item is found whatever the case of the name typed: `take sword`
      and `take SWORD` in the main hall do what `take Sword` does. */
  lemma SwordInAnyCase(s0: State)
    requires Opening(s0)
    ensures var h := InHall(s0);
      AfterStep(h, ["take", "sword"], [], []) == AfterStep(h, ["take", "Sword"], [], []) &&
      AfterStep(h, ["take", "SWORD"], [], []) == AfterStep(h, ["take", "Sword"], [], [])
  {
    LowerNames();
    TakeIgnoresCase(InHall(s0), "sword", "Sword");
    TakeIgnoresCase(InHall(s0), "SWORD", "Sword");
  }

  /** Taking what the room does not hold changes nothing: there is no Shield
      in the main hall. */
  lemma NoShieldInHall(s0: State)
    requires Opening(s0)
    ensures AfterStep(InHall(s0), ["take", "Shield"], [], []) == InHall(s0)
  {
    LowerNames();
    assert !Matches(SWORD, "Shield");
    TakeNoMatch(InHall(s0), "Shield");
  }

  /** With the Sword taken, `go north` leads to the treasure room, where the
      Dragon still waits. */
  lemma IntoTreasureRoom(s0: State)
    requires Opening(s0)
    ensures var s := AfterStep(AfterStep(InHall(s0), ["take", "Sword"], [], []), ["go", "north"], [], []);
      s.current == "treasureRoom" && s.current in s.rooms && s.inventory == [SWORD] && s.health == 100 &&
      s.rooms["treasureRoom"].enemy == Some(DRAGON)
  {
    SwordTaken(s0);
  }

  /** Carrying only the Sword gives combat power 6. */
  lemma SwordPower()
    ensures Power([SWORD]) == 6
  {
    assert SumPowers([SWORD]) == SumPowers([]) + 5;
  }

  /** The Dragon fight with every roll at its maximum, on the combat rules
      alone: six rounds leave the player at 10 and the Dragon at 64, and in
      the seventh the Dragon's blow brings the player to -5 with the Dragon
      at 58. */
  lemma DragonRounds()
    ensures InRange(Repeat(6, 7), 6) && InRange(Repeat(15, 7), 15)
    ensures Settles(100, 100, Repeat(6, 7), Repeat(15, 7))
    ensures Play(100, 100, Repeat(6, 6), Repeat(15, 6)) == (10, 64)
    ensures Play(100, 100, Repeat(6, 7), Repeat(15, 7)) == (-5, 58)
  {
    SteadyRounds(100, 100, 6, 15, 6);
    SettlesByBlow(100, 100, Repeat(6, 6), Repeat(15, 6), 6, 15);
    assert Repeat(6, 6) + [6] == Repeat(6, 7);
    assert Repeat(15, 6) + [15] == Repeat(15, 7);
  }

  /** A fight in a room whose enemy is `foe`, with rolls a fight can make:
      the player ends with the health the exchange leaves, and the enemy
      stays with its remaining health or leaves the room. */
  lemma FightHere(s: State, foe: Enemy, hits: seq<int>, blows: seq<int>)
    requires s.current in s.rooms && s.rooms[s.current].enemy == Some(foe)
    requires InRange(hits, Power(s.inventory)) && InRange(blows, foe.power)
    requires Settles(s.health, foe.health, hits, blows)
    ensures var r := AfterStep(s, ["fight"], hits, blows);
      var (h, e) := Play(s.health, foe.health, hits, blows);
      StepRolls(s, ["fight"], hits, blows) &&
      r.health == h && r.current in r.rooms &&
      r.rooms[s.current].enemy == (if e <= 0 then None else Some(foe.(health := e)))
  {
  }

  /** Facing the Dragon with the Sword only and full health, every roll at
      its maximum, the fight is the one `DragonRounds` describes. */
  lemma DragonFight(s: State, hits: seq<int>, blows: seq<int>)
    requires s.current in s.rooms && s.rooms[s.current].enemy == Some(DRAGON)
    requires s.inventory == [SWORD] && s.health == 100
    requires hits == Repeat(6, 7) && blows == Repeat(15, 7)
    ensures var r := AfterStep(s, ["fight"], hits, blows);
      Power(s.inventory) == 6 && StepRolls(s, ["fight"], hits, blows) &&
      r.health == -5 && r.current in r.rooms &&
      r.rooms[s.current].enemy == Some(DRAGON.(health := 58))
  {
    SwordPower();
    DragonRounds();
    FightHere(s, DRAGON, hits, blows);
  }

  /** `go north`, `take Sword`, `go north`, `fight`: with the Sword (combat
      power 6) and every roll at its maximum, the Dragon (health 100, power
      15) strikes 7 times, the 7th blow leaves the player at -5, the Dragon
      stays with 58 health, and the game is over. */
  lemma DragonAtMaximumRolls(s0: State, hits: seq<int>, blows: seq<int>)
    requires Opening(s0)
    requires hits == Repeat(6, 7) && blows == Repeat(15, 7)
    ensures var s := AfterStep(AfterStep(AfterStep(s0, ["go", "north"], [], []),
                                         ["take", "Sword"], [], []), ["go", "north"], [], []);
      var r := AfterStep(s, ["fight"], hits, blows);
      s.current == "treasureRoom" && s.current in s.rooms && Power(s.inventory) == 6 &&
      StepRolls(s, ["fight"], hits, blows) &&
      r.health == -5 && "treasureRoom" in r.rooms &&
      r.rooms["treasureRoom"].enemy == Some(DRAGON.(health := 58)) &&
      StatusAfter(["fight"], r.health) == GameOver
  {
    NorthFromEntrance(s0);
    IntoTreasureRoom(s0);
    DragonFight(AfterStep(AfterStep(InHall(s0), ["take", "Sword"], [], []), ["go", "north"], [], []),
                hits, blows);
  }

  /** The Goblin fight bare-handed with every roll at its maximum, on the
      combat rules alone: the 20th hit fells it after 19 blows of 3. */
  lemma GoblinRounds()
    ensures InRange(Repeat(1, 20), 1) && InRange(Repeat(3, 19), 3)
    ensures Settles(100, 20, Repeat(1, 20), Repeat(3, 19))
    ensures Play(100, 20, Repeat(1, 20), Repeat(3, 19)) == (43, 0)
  {
    SteadyFinish(100, 20, 1, 3, 20);
  }

  /** Facing the Goblin with nothing carried and full health, every roll at
      its maximum, the fight is the one `GoblinRounds` describes. */
  lemma GoblinFight(s: State, hits: seq<int>, blows: seq<int>)
    requires s.current in s.rooms && s.rooms[s.current].enemy == Some(GOBLIN)
    requires s.inventory == [] && s.health == 100
    requires hits == Repeat(1, 20) && blows == Repeat(3, 19)
    ensures var r := AfterStep(s, ["fight"], hits, blows);
      Power(s.inventory) == 1 && StepRolls(s, ["fight"], hits, blows) &&
      r.health == 43 && r.current in r.rooms && r.rooms[s.current].enemy == None
  {
    GoblinRounds();
    FightHere(s, GOBLIN, hits, blows);
  }

  /** `go north`, `fight`: with nothing carried (combat power 1) and every
      roll at its maximum, the Goblin (health 20, power 3) falls to the 20th
      hit after 19 blows, leaving the player with 43 health; the game goes
      on. */
  lemma GoblinBareHanded(s0: State, hits: seq<int>, blows: seq<int>)
    requires Opening(s0)
    requires hits == Repeat(1, 20) && blows == Repeat(3, 19)
    ensures var hall := AfterStep(s0, ["go", "north"], [], []);
      var r := AfterStep(hall, ["fight"], hits, blows);
      hall.current == "mainHall" && hall.current in hall.rooms && Power(hall.inventory) == 1 &&
      StepRolls(hall, ["fight"], hits, blows) &&
      r.health == 43 && "mainHall" in r.rooms && r.rooms["mainHall"].enemy == None &&
      StatusAfter(["fight"], r.health) == Playing
  {
    NorthFromEntrance(s0);
    GoblinFight(InHall(s0), hits, blows);
  }

  /** Against the Goblin, with every roll at its maximum, a player of any
      combat power `p` wins with exactly ceil(20 / p) hits. */
  lemma GoblinAtMaximumRolls(p: int)
    requires p >= 1
    ensures var k := (20 + p - 1) / p;
      Settles(100, GOBLIN.health, Repeat(p, k), Repeat(GOBLIN.power, k - 1)) &&
      Play(100, GOBLIN.health, Repeat(p, k), Repeat(GOBLIN.power, k - 1)).1 <= 0 &&
      Play(100, GOBLIN.health, Repeat(p, k), Repeat(GOBLIN.power, k - 1)).0 > 0
  {
    var k := (20 + p - 1) / p;
    CeilHits(20, p);
    assert k - 1 <= p * (k - 1);
    SteadyWin(100, 20, p, 3);
  }
}
