/** Twilight armor (src/stores/glupo/armor/twilight.ts): when panic begins, a coin flip
    may refill sanity completely. */
module TwilightArmor {
  import opened Types
  import opened Hooks

  const Cost: nat := 1250000
  const Modifier: Stats := Stats(10, 10, 10, 10)

  /** With a draw below one half the current sanity becomes the maximum of the effective
      stats; otherwise nothing happens. */
  function OnPanic(view: HookView, draws: HookDraws): (effects: seq<Effect>)
    ensures Quiet(effects)
    ensures draws.u1 < 0.5 <==> |effects| > 0
    ensures forall i :: 0 <= i < |effects| ==> effects[i] == SetSanity(view.maxSanity)
  {
    if draws.u1 < 0.5 then [SetSanity(view.maxSanity)] else []
  }
}
