/** The item names the game hands around as plain strings. */
module Items {
  const TeleportationSpell: string := "Teleportation Spell"
  const FreezeSpell: string := "Freeze Spell"
  const Cake: string := "Cake"
  const Sandwich: string := "Sandwich"
  const Hammer: string := "Hammer"
  const Potion: string := "Potion"
  const Relic: string := "Relic"
}
