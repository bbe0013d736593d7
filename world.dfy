/** The world of the cave adventure: items, enemies, rooms and the fixed
    five-room map built at start-up, with the pure helpers the commands use
    (case-insensitive item lookup, removal from an item list, combat power). */
module World {

  datatype Option<T> = None | Some(value: T)

  /** An item lying in a room or carried by the player; its power is added
      to the player's combat power while it is carried. */
  datatype Item = Item(name: string, description: string, power: int)

  /** A room's enemy; it is removed from the room once its health reaches 0. */
  datatype Enemy = Enemy(name: string, health: int, power: int)

  /** A room: its items in order, an optional enemy, and directed exits from
      a direction label to the identifier of the destination room. */
  datatype Room = Room(name: string, description: string, items: seq<Item>,
                       enemy: Option<Enemy>, exits: map<string, string>)

  // ---------------------------------------------------------------------
  // Case-insensitive names

  /** ASCII lower-casing of one character. */
  function LowerChar(c: char): char
  {
    if 'A' <= c <= 'Z' then (c as int - 'A' as int + 'a' as int) as char else c
  }

  /** ASCII lower-casing of a name: same length, every upper-case letter
      replaced by its lower-case counterpart, no upper-case letter left, and
      every character that is not an upper-case letter kept as it is. */
  function Lower(s: string): (r: string)
    ensures |r| == |s|
    ensures forall i :: 0 <= i < |s| && 'A' <= s[i] <= 'Z' ==>
              r[i] == (s[i] as int - 'A' as int + 'a' as int) as char
    ensures forall i :: 0 <= i < |r| ==> !('A' <= r[i] <= 'Z')
    ensures forall i :: 0 <= i < |s| && !('A' <= s[i] <= 'Z') ==> r[i] == s[i]
  {
    seq(|s|, i requires 0 <= i < |s| => LowerChar(s[i]))
  }

  /** The item answers to `name` when both are equal after lower-casing; so
      names of different lengths never match. */
  predicate Matches(item: Item, name: string)
    ensures Matches(item, name) ==> |item.name| == |name|
  {
    Lower(item.name) == Lower(name)
  }

  /** The index of the first item in `items` answering to `name`, if any. */
  function FirstMatch(items: seq<Item>, name: string): (r: Option<nat>)
    ensures r.Some? ==> r.value < |items| && Matches(items[r.value], name)
    ensures r.Some? ==> forall j :: 0 <= j < r.value ==> !Matches(items[j], name)
    ensures r.None? <==> forall j :: 0 <= j < |items| ==> !Matches(items[j], name)
  {
    if items == [] then None
    else if Matches(items[0], name) then Some(0)
    else match FirstMatch(items[1..], name)
      case None => None
      case Some(k) => Some(k + 1)
  }

  /** Names equal up to case select the same first item. */
  lemma {:induction false} FirstMatchIgnoresCase(items: seq<Item>, a: string, b: string)
    requires Lower(a) == Lower(b)
    ensures FirstMatch(items, a) == FirstMatch(items, b)
  {
    if items != [] {
      FirstMatchIgnoresCase(items[1..], a, b);
    }
  }

  /** The list with the element at index `i` spliced out. */
  function RemoveAt<T>(s: seq<T>, i: nat): (r: seq<T>)
    requires i < |s|
    ensures |r| == |s| - 1
    ensures forall j :: 0 <= j < i ==> r[j] == s[j]
    ensures forall j :: i <= j < |r| ==> r[j] == s[j + 1]
  {
    s[..i] + s[i + 1..]
  }

  /** Removing an element and putting it elsewhere loses and duplicates
      nothing. */
  lemma RemoveAtConserves<T>(s: seq<T>, i: nat, rest: seq<T>)
    requires i < |s|
    ensures multiset(RemoveAt(s, i)) + multiset(rest + [s[i]]) == multiset(s) + multiset(rest)
  {
    assert s == s[..i] + [s[i]] + s[i + 1..];
    calc {
      multiset(s);
      multiset(s[..i] + [s[i]] + s[i + 1..]);
      multiset(s[..i]) + multiset([s[i]]) + multiset(s[i + 1..]);
      multiset(RemoveAt(s, i)) + multiset([s[i]]);
    }
  }

  /** No two items of the list answer to the same name. */
  predicate UniqueNames(items: seq<Item>)
  {
    forall i, j :: 0 <= i < j < |items| ==> Lower(items[i].name) != Lower(items[j].name)
  }

  /** Splicing an item out of a list with unique names keeps the names
      unique and leaves no item answering to the removed item's name. */
  lemma RemoveAtUnique(items: seq<Item>, i: nat)
    requires i < |items| && UniqueNames(items)
    ensures UniqueNames(RemoveAt(items, i))
    ensures forall j :: 0 <= j < |RemoveAt(items, i)| ==> !Matches(RemoveAt(items, i)[j], items[i].name)
  {
    var r := RemoveAt(items, i);
    forall a, b | 0 <= a < b < |r|
      ensures Lower(r[a].name) != Lower(r[b].name)
    {
      var a' := if a < i then a else a + 1;
      var b' := if b < i then b else b + 1;
      assert r[a] == items[a'] && r[b] == items[b'] && a' < b';
    }
    forall j | 0 <= j < |r|
      ensures !Matches(r[j], items[i].name)
    {
      var j' := if j < i then j else j + 1;
      assert r[j] == items[j'] && j' != i;
    }
  }

  // ---------------------------------------------------------------------
  // Combat power

  /** The sum of the powers of a list of items, accumulated left to right;
      never negative when no item's power is. */
  function SumPowers(items: seq<Item>): (r: int)
    ensures NonNegativePowers(items) ==> r >= 0
  {
    if items == [] then 0
    else
      var init := items[..|items| - 1];
      assert NonNegativePowers(items) ==> NonNegativePowers(init) by {
        if NonNegativePowers(items) {
          forall i | 0 <= i < |init| ensures init[i].power >= 0 {
            assert init[i] == items[i];
          }
        }
      }
      SumPowers(init) + items[|items| - 1].power
  }

  /** The player's combat power: a base of 1 plus the power of every item
      carried; at least 1 when no item has negative power, so the player's
      roll range is never empty. */
  function Power(inventory: seq<Item>): (p: int)
    ensures NonNegativePowers(inventory) ==> p >= 1
  {
    1 + SumPowers(inventory)
  }

  predicate NonNegativePowers(items: seq<Item>)
  {
    forall i :: 0 <= i < |items| ==> items[i].power >= 0
  }

  /** With no item of negative power the combat power is at least the base
      and at least the power of every single item carried. */
  lemma {:induction false} PowerBounds(items: seq<Item>)
    requires NonNegativePowers(items)
    ensures Power(items) >= 1
    ensures forall i :: 0 <= i < |items| ==> Power(items) >= 1 + items[i].power
  {
    if items != [] {
      var init := items[..|items| - 1];
      assert NonNegativePowers(init) by {
        forall i | 0 <= i < |init| ensures init[i].power >= 0 {
          assert init[i] == items[i];
        }
      }
      PowerBounds(init);
      forall i | 0 <= i < |items| ensures Power(items) >= 1 + items[i].power {
        if i < |items| - 1 {
          assert init[i] == items[i];
        }
      }
    }
  }

  /** Carrying one more item adds exactly its power. */
  lemma PowerAppend(items: seq<Item>, item: Item)
    ensures Power(items + [item]) == Power(items) + item.power
  {
    assert (items + [item])[..|items|] == items;
  }

  // ---------------------------------------------------------------------
  // The map

  /** Every exit of every room leads to a room of the map. */
  predicate Closed(rooms: map<string, Room>)
  {
    forall k, d :: k in rooms && d in rooms[k].exits ==> rooms[k].exits[d] in rooms
  }

  const TORCH := Item("Torch", "A wooden torch", 0)
  const SWORD := Item("Sword", "A rusty old sword", 5)
  const SHIELD := Item("Shield", "A sturdy shield", 3)
  const SPELLBOOK := Item("Spellbook", "A book of magic spells", 7)
  const GOBLIN := Enemy("Goblin", 20, 3)
  const DRAGON := Enemy("Dragon", 100, 15)

  const ENTRANCE_TEXT := "You're at the entrance of a dark cave. There's a faint light coming from the north."
  const HALL_TEXT := "A large hall with ancient writings on the walls. Passages lead in all directions."
  const TREASURE_TEXT := "A room filled with gold and jewels. But it's guarded by a dragon!"
  const ARMORY_TEXT := "An old armory with weapons hanging on the walls."
  const LIBRARY_TEXT := "A dusty library filled with ancient books."

  /** The five rooms and their contents as they are at the start of a game;
      every exit leads to one of them. */
  function InitialRooms(): (rooms: map<string, Room>)
    ensures "entrance" in rooms && Closed(rooms)
  {
    map[
      "entrance" := Room("Entrance",
        ENTRANCE_TEXT,
        [TORCH], None, map["north" := "mainHall"]),
      "mainHall" := Room("Main Hall",
        HALL_TEXT,
        [SWORD], Some(GOBLIN),
        map["north" := "treasureRoom", "east" := "armory", "south" := "entrance", "west" := "library"]),
      "treasureRoom" := Room("Treasure Room",
        TREASURE_TEXT,
        [], Some(DRAGON), map["south" := "mainHall"]),
      "armory" := Room("Armory",
        ARMORY_TEXT,
        [SHIELD], None, map["west" := "mainHall"]),
      "library" := Room("Library",
        LIBRARY_TEXT,
        [SPELLBOOK], None, map["east" := "mainHall"])
    ]
  }
}
