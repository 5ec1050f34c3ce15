/** The three potions a search can turn up and what drinking each one does. */
module PotionActions {
  import opened PlayerDataHolder
  import opened PowerPointManager

  const SleepingPotion: string := "Sleeping Potion"
  const HealthPotion: string := "Health Potion"
  const VisionPotion: string := "Vision Potion"
  const Potions: seq<string> := [SleepingPotion, HealthPotion, VisionPotion]

  /** `getRandomPotion`: the potion named by one draw; every potion is some draw's. */
  function GetRandomPotion(draw: nat): (potion: string)
    ensures potion in Potions
    ensures potion == Potions[draw % 3]
  {
    Potions[draw % |Potions|]
  }

  lemma EveryPotionCanBeDrawn(potion: string)
    requires potion in Potions
    ensures exists draw: nat :: GetRandomPotion(draw) == potion
  {
    if potion == SleepingPotion {
      assert GetRandomPotion(0) == potion;
    } else if potion == HealthPotion {
      assert GetRandomPotion(1) == potion;
    } else {
      assert GetRandomPotion(2) == potion;
    }
  }

  /** `drinkPotion`: a Sleeping Potion costs 5 points (floored at zero), a Health Potion
      gives 5; the Vision Potion only shows the map and any other name does nothing. */
  method DrinkPotion(player: Player, potionType: string)
    modifies player`powerPoints
    ensures potionType == SleepingPotion ==> player.powerPoints == Deducted(old(player.powerPoints), 5)
    ensures potionType == HealthPotion ==> player.powerPoints == old(player.powerPoints) + 5
    ensures potionType != SleepingPotion && potionType != HealthPotion ==>
      player.powerPoints == old(player.powerPoints)
  {
    if potionType == SleepingPotion {
      DeductPowerPoints(player, 5);
    } else if potionType == HealthPotion {
      AddPowerPoints(player, 5);
    }
  }
}
