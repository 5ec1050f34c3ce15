/** Raising and lowering the player's power points. */
module PowerPointManager {
  import opened PlayerDataHolder

  /** The points left after losing `amount` from `points`, floored at zero. */
  function Deducted(points: int, amount: int): (r: int)
    ensures r >= 0
    ensures r == 0 || r == points - amount
    ensures r >= points - amount
    ensures points - amount >= 0 ==> r == points - amount
    ensures amount >= 0 && points >= 0 ==> r <= points
  {
    if points - amount < 0 then 0 else points - amount
  }

  /** Two deductions floored at zero add up to one deduction of the sum. */
  lemma DeductionsCompose(points: int, a: int, b: int)
    requires a >= 0 && b >= 0
    ensures Deducted(Deducted(points, a), b) == Deducted(points, a + b)
  {
  }

  /** A deduction leaves the player alive exactly when it takes less than the points held. */
  lemma DeductionLeavesAlive(points: int, amount: int)
    requires points >= 0 && amount >= 0
    ensures Deducted(points, amount) > 0 <==> points > amount
    ensures Deducted(points, amount) == 0 <==> points <= amount
  {
  }

  method AddPowerPoints(player: Player, amount: int)
    modifies player`powerPoints
    ensures player.powerPoints == old(player.powerPoints) + amount
  {
    player.SetPowerPoints(player.powerPoints + amount);
  }

  method DeductPowerPoints(player: Player, amount: int)
    modifies player`powerPoints
    ensures player.powerPoints == Deducted(old(player.powerPoints), amount)
    ensures old(player.powerPoints) >= 0 && amount >= 0 ==>
              (player.IsAlive() <==> old(player.powerPoints) > amount)
  {
    var newAmount := player.powerPoints - amount;
    if newAmount < 0 {
      newAmount := 0;
    }
    player.SetPowerPoints(newAmount);
  }
}
