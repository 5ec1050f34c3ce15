/** The player record: name, power points, room name and the set of items carried. */
module PlayerDataHolder {
  import opened Outcomes
  import opened JavaStrings

  const StartingPowerPoints := 100

  predicate Distinct(xs: seq<string>) {
    forall i, j :: 0 <= i < j < |xs| ==> xs[i] != xs[j]
  }

  function Elements(xs: seq<string>): set<string> {
    set i | 0 <= i < |xs| :: xs[i]
  }

  /** `new HashSet<>(Set.of(text.split(",")))`: the names between commas, or the
      exception `Set.of` raises when a name occurs twice. */
  function ParseInventory(text: string): (r: Result<set<string>>)
    ensures r.Ok? <==> Distinct(Split(text))
    ensures r.Ok? ==> forall item :: item in r.value <==> item in Split(text)
    ensures r.Ok? ==> |r.value| == |Split(text)|
    ensures r.Err? ==> r.error == DuplicateItem
  {
    var names := Split(text);
    if Distinct(names) then
      DistinctElements(names);
      Ok(Elements(names))
    else Err(DuplicateItem)
  }

  lemma {:induction false} DistinctElements(xs: seq<string>)
    requires Distinct(xs)
    ensures |Elements(xs)| == |xs|
    decreases |xs|
  {
    if |xs| > 0 {
      var init := xs[..|xs| - 1];
      DistinctElements(init);
      assert Elements(xs) == Elements(init) + {xs[|xs| - 1]};
      assert xs[|xs| - 1] !in Elements(init);
    }
  }

  /** Saving an inventory as the comma-joined names of some enumeration `order` of
      it and reading it back gives the same set, when it is non-empty and no name
      is empty or holds a comma. */
  lemma InventoryRoundTrip(inventory: set<string>, order: seq<string>)
    requires inventory != {}
    requires Distinct(order) && Elements(order) == inventory
    requires forall item :: item in inventory ==> item != "" && CommaFree(item)
    ensures ParseInventory(Join(order)) == Ok(inventory)
  {
    assert |order| >= 1 by {
      var item :| item in inventory;
    }
    assert order[|order| - 1] in inventory;
    SplitJoin(order);
  }

  /** An empty inventory is saved as "", which reads back as a set holding the empty name. */
  lemma EmptyInventoryReadsBack()
    ensures Join([]) == ""
    ensures ParseInventory("") == Ok({""})
  {
    var names: seq<string> := [""];
    assert Split("") == names;
    assert names[0] in Elements(names);
    assert Elements(names) == {""};
  }

  class Player {
    var name: Option<string>
    var powerPoints: int
    var currentRoom: Option<string>
    var inventory: set<string>

    /** A new player: no items, 100 power points, no name and no room yet. */
    constructor ()
      ensures name == None && currentRoom == None
      ensures powerPoints == StartingPowerPoints && inventory == {}
    {
      name := None;
      currentRoom := None;
      powerPoints := StartingPowerPoints;
      inventory := {};
    }

    method SetPowerPoints(points: int)
      modifies this`powerPoints
      ensures powerPoints == points
    {
      powerPoints := points;
    }

    /** Alive while the power points stay above zero. */
    predicate IsAlive()
      reads this
    {
      powerPoints > 0
    }

    /** `setInventory(String)`: replaces the inventory with the parsed names; a name
        listed twice raises, leaving the inventory as it was. */
    method SetInventoryFromText(text: string) returns (s: Status)
      modifies this`inventory
      ensures ParseInventory(text).Ok? ==> s == Done && inventory == ParseInventory(text).value
      ensures ParseInventory(text).Err? ==> s == Failed(DuplicateItem) && inventory == old(inventory)
    {
      var parsed := ParseInventory(text);
      if parsed.Err? {
        return Failed(parsed.error);
      }
      inventory := parsed.value;
      s := Done;
    }
  }
}
