/** Red Eyes armor (src/stores/glupo/armor/red-eyes.ts): stats only. */
module RedEyesArmor {
  import opened Types

  const Cost: nat := 1100
  const Modifier: Stats := Stats(3, 1, 4, 0)
}
