/** Penitence armor (src/stores/glupo/armor/penitence.ts): the free starting armor,
    which restores some sanity when panic begins. */
module PenitenceArmor {
  import opened Types
  import opened Hooks

  const Cost: nat := 0
  const Modifier: Stats := Stats(0, 3, 0, 1)
  const PanicRestore: int := 20

  /** On panic the current sanity is raised by 20, but never above the maximum of the
      effective stats; nothing else is touched. */
  function OnPanic(view: HookView, draws: HookDraws): (effects: seq<Effect>)
    ensures |effects| == 1 && effects[0].SetSanity? && Quiet(effects)
    ensures effects[0].value <= view.current + PanicRestore
    ensures effects[0].value <= view.maxSanity
    ensures effects[0].value == view.current + PanicRestore || effects[0].value == view.maxSanity
  {
    [SetSanity(if view.current + PanicRestore < view.maxSanity then view.current + PanicRestore else view.maxSanity)]
  }

  /** From a sanity within the maximum the restore never lowers sanity, and from a panic
      sanity of zero it gives exactly min(20, maximum). */
  lemma PanicRestoreRaises(view: HookView, draws: HookDraws)
    requires 0 <= view.current <= view.maxSanity
    ensures view.current <= OnPanic(view, draws)[0].value <= view.maxSanity
    ensures view.current == 0 ==> OnPanic(view, draws)[0].value == if view.maxSanity < 20 then view.maxSanity else 20
  {
  }
}
