/** Heaven armor (src/stores/glupo/armor/heaven.ts): stats only. */
module HeavenArmor {
  import opened Types

  const Cost: nat := 6000
  const Modifier: Stats := Stats(4, 5, 6, 3)
}
