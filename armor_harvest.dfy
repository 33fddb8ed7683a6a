/** Harvest armor (src/stores/glupo/armor/harvest.ts): stats only; its prudence of -999
    is meant to wipe out the player's prudence once the stats are clamped. */
module HarvestArmor {
  import opened Types

  const Cost: nat := 3000
  const Modifier: Stats := Stats(5, -999, 5, 0)
}
