/** Smile armor (src/stores/glupo/armor/smile.ts): when panic ends it grants a bonus to
    fortitude, temperance and justice for five seconds. */
module SmileArmor {
  import opened Types
  import opened Hooks

  const Cost: nat := 200000
  const Modifier: Stats := Stats(6, 2, 2, 2)

  const PanicEndBonus: Stats := Stats(5, 0, 5, 5)
  const PanicEndBonusReversal: Stats := Stats(-5, 0, -5, -5)
  const PanicEndBonusDuration: real := 5000.0

  /** The reversal the timer applies, as the source writes it, is exactly the negation of
      the bonus, and the bonus leaves prudence alone. */
  lemma PanicEndBonusReversed()
    ensures PanicEndBonusReversal == PanicEndBonus.Neg()
    ensures PanicEndBonus.Plus(PanicEndBonusReversal) == Zero
    ensures PanicEndBonus.prudence == 0
  {
  }

  /** The end of a panic grants the bonus once, to be taken back after five seconds. */
  function OnPanicEnd(view: HookView, draws: HookDraws): (effects: seq<Effect>)
    ensures Quiet(effects)
    ensures Bonuses(effects) == [PanicEndBonus]
    ensures forall i :: 0 <= i < |effects| ==> effects[i].TemporaryBonus? && effects[i].delay == PanicEndBonusDuration
  {
    Summary1(TemporaryBonus(PanicEndBonus, PanicEndBonusDuration));
    [TemporaryBonus(PanicEndBonus, PanicEndBonusDuration)]
  }
}
