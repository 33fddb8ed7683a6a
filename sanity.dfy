/** Sanity and its timers in the reward game (src/stores/glupo/game/game.ts,
    `changeSanity` and the callbacks it schedules): the `sanityState` record, the timers
    pending with the host, and the rules by which a change of sanity, a panic step, a
    regeneration, a bonus reversal or a new temporary bonus move them. */
module Sanity {
  import opened Types
  import opened Hooks
  import opened GameRules
  import Economy

  /** `sanityState`: the current sanity, whether a panic is on, and the id of the last
      regeneration timer scheduled (kept after it fires, cleared when a panic ends). */
  datatype SanityState = SanityState(current: int, isPanic: bool, restoreTimer: Option<nat>)

  /** The sanity state with the timers pending and the id the next timer gets. */
  datatype Clock = Clock(sanity: SanityState, timers: seq<Timer>, nextTimerId: nat)

  /** What the timers keep: ids come from the counter; every pending regeneration is the
      one `restoreTimer` names, outside panic, and only a regeneration carries that id;
      at most one regeneration is pending; and one panic step is pending exactly while in
      panic. */
  predicate ClockValid(c: Clock)
  {
    (forall t :: t in c.timers ==> t.id < c.nextTimerId)
    && (c.sanity.restoreTimer.Some? ==> c.sanity.restoreTimer.value < c.nextTimerId)
    && (forall t :: t in c.timers && t.action.Regenerate? ==> c.sanity.restoreTimer == Some(t.id) && !c.sanity.isPanic)
    && (forall t :: t in c.timers && c.sanity.restoreTimer == Some(t.id) ==> t.action.Regenerate?)
    && CountOf(c.timers, IsRegenerate) <= 1
    && CountOf(c.timers, IsPanicStep) == (if c.sanity.isPanic then 1 else 0)
  }

  /** The state at construction: sanity 100, no panic, no timer. */
  const Initial: Clock := Clock(SanityState(100, false, None), [], 1)

  lemma InitialIsValid()
    ensures ClockValid(Initial) && PendingBonus(Initial.timers) == Zero
  {
  }

  /** `clearTimeout(restoreTimer)` when there is one. */
  function CancelRestore(timers: seq<Timer>, restoreTimer: Option<nat>): (r: seq<Timer>)
    ensures forall t :: t in r ==> t in timers
    ensures restoreTimer.Some? ==> forall t :: t in r ==> t.id != restoreTimer.value
  {
    if restoreTimer.None? then timers else Cancel(timers, restoreTimer.value)
  }

  /** Cancelling the regeneration `restoreTimer` names leaves no regeneration, every
      other timer, and the same pending bonus. */
  lemma CancelRestoreKeeps(c: Clock)
    requires ClockValid(c)
    ensures CountOf(CancelRestore(c.timers, c.sanity.restoreTimer), IsRegenerate) == 0
    ensures CountOf(CancelRestore(c.timers, c.sanity.restoreTimer), IsPanicStep) == CountOf(c.timers, IsPanicStep)
    ensures PendingBonus(CancelRestore(c.timers, c.sanity.restoreTimer)) == PendingBonus(c.timers)
    ensures forall t :: t in c.timers && !t.action.Regenerate? ==> t in CancelRestore(c.timers, c.sanity.restoreTimer)
  {
    var timers, rt := c.timers, c.sanity.restoreTimer;
    if rt.Some? {
      CountCancel(timers, rt.value, IsRegenerate);
      CountCancelOthers(timers, rt.value, IsPanicStep);
      forall i | 0 <= i < |timers| && timers[i].id == rt.value
        ensures !timers[i].action.BonusReversal?
      {
        assert timers[i] in timers;
      }
      CancelKeepsBonus(timers, rt.value);
    } else {
      CountNone(timers, IsRegenerate);
    }
  }

  /** Cancelling an id no timer of the kind carries keeps the count of that kind. */
  lemma {:induction false} CountCancelOthers(timers: seq<Timer>, id: nat, kind: TimerAction -> bool)
    requires forall t :: t in timers && t.id == id ==> !kind(t.action)
    ensures CountOf(Cancel(timers, id), kind) == CountOf(timers, kind)
  {
    if |timers| > 0 {
      assert timers[0] in timers;
      assert forall t :: t in timers[1..] ==> t in timers;
      CountCancelOthers(timers[1..], id, kind);
      if timers[0].id != id {
        assert [timers[0]] + Cancel(timers[1..], id) == Cancel(timers, id);
        CountAppend([timers[0]], Cancel(timers[1..], id), kind);
        assert [timers[0]][1..] == [];
      }
    }
  }

  /** A kind no pending timer has counts zero. */
  lemma {:induction false} CountNone(timers: seq<Timer>, kind: TimerAction -> bool)
    requires forall t :: t in timers ==> !kind(t.action)
    ensures CountOf(timers, kind) == 0
  {
    if |timers| > 0 {
      assert timers[0] in timers;
      assert forall t :: t in timers[1..] ==> t in timers;
      CountNone(timers[1..], kind);
    }
  }

  /** `changeSanity(amount)` at time `now`, with `d` the stats of now and `panicEffects`
      what the panic hooks would do. */
  function ChangeSanityRule(c: Clock, amount: int, now: real, d: Economy.Derived, panicEffects: seq<Effect>): Clock
  {
    if c.sanity.isPanic then c
    else if c.sanity.current + amount <= 0 then
      Clock(SanityState(AfterWrites(panicEffects, 0), true, c.sanity.restoreTimer),
            CancelRestore(c.timers, c.sanity.restoreTimer) + [Timer(c.nextTimerId, now + d.panicRestoreDelay, PanicStep)],
            c.nextTimerId + 1)
    else
      var v := if c.sanity.current + amount > d.maxSanity then d.maxSanity else c.sanity.current + amount;
      if v == d.maxSanity then c.(sanity := c.sanity.(current := v))
      else
        Clock(SanityState(v, false, Some(c.nextTimerId)),
              CancelRestore(c.timers, c.sanity.restoreTimer) + [Timer(c.nextTimerId, now + d.regenerationDelay, Regenerate(d.maxSanity))],
              c.nextTimerId + 1)
  }

  /** What a change of sanity means. In panic it is ignored. Falling to 0 or below starts
      a panic: sanity is what the panic hooks write over 0, no regeneration is pending, and
      exactly one panic step is, due after panicRestoreDelay. Otherwise sanity becomes the
      sum clamped to maxSanity; at maxSanity no timer moves, and below it exactly one
      regeneration is pending, the new one, which will restore the maxSanity of now after
      regenerationDelay. Either way every timer other than a regeneration survives. */
  lemma ChangeSanityOutcome(c: Clock, amount: int, now: real, d: Economy.Derived, panicEffects: seq<Effect>)
    requires ClockValid(c)
    ensures var r := ChangeSanityRule(c, amount, now, d, panicEffects);
      (c.sanity.isPanic ==> r == c)
      && (!c.sanity.isPanic && c.sanity.current + amount <= 0 ==>
            r.sanity.isPanic && r.sanity.current == AfterWrites(panicEffects, 0)
            && CountOf(r.timers, IsRegenerate) == 0 && CountOf(r.timers, IsPanicStep) == 1
            && Timer(c.nextTimerId, now + d.panicRestoreDelay, PanicStep) in r.timers)
      && (!c.sanity.isPanic && c.sanity.current + amount > 0 ==>
            !r.sanity.isPanic && (d.maxSanity > 0 ==> 0 < r.sanity.current)
            && r.sanity.current == (if c.sanity.current + amount > d.maxSanity then d.maxSanity else c.sanity.current + amount))
      && (!c.sanity.isPanic && 0 < c.sanity.current + amount && d.maxSanity <= c.sanity.current + amount ==>
            r.timers == c.timers && r.sanity.restoreTimer == c.sanity.restoreTimer)
      && (!c.sanity.isPanic && 0 < c.sanity.current + amount < d.maxSanity ==>
            CountOf(r.timers, IsRegenerate) == 1 && r.sanity.restoreTimer == Some(c.nextTimerId)
            && Timer(c.nextTimerId, now + d.regenerationDelay, Regenerate(d.maxSanity)) in r.timers)
      && (forall t :: t in c.timers && !t.action.Regenerate? ==> t in r.timers)
  {
    var r := ChangeSanityRule(c, amount, now, d, panicEffects);
    if !c.sanity.isPanic && r != c && r.timers != c.timers {
      CancelRestoreKeeps(c);
      var kept := CancelRestore(c.timers, c.sanity.restoreTimer);
      var t := r.timers[|r.timers| - 1];
      assert r.timers == kept + [t];
      CountSchedule(kept, t, IsRegenerate);
      CountSchedule(kept, t, IsPanicStep);
    }
  }

  /** A change of sanity keeps the timer invariant and the pending bonus. */
  lemma ChangeSanityKeepsClock(c: Clock, amount: int, now: real, d: Economy.Derived, panicEffects: seq<Effect>)
    requires ClockValid(c)
    ensures ClockValid(ChangeSanityRule(c, amount, now, d, panicEffects))
    ensures PendingBonus(ChangeSanityRule(c, amount, now, d, panicEffects).timers) == PendingBonus(c.timers)
  {
    var r := ChangeSanityRule(c, amount, now, d, panicEffects);
    if !c.sanity.isPanic && r.timers != c.timers {
      var t := r.timers[|r.timers| - 1];
      var s := r.sanity;
      assert r == Clock(s, CancelRestore(c.timers, c.sanity.restoreTimer) + [t], c.nextTimerId + 1);
      assert t.id == c.nextTimerId && (t.action.PanicStep? || t.action.Regenerate?);
      assert s.isPanic <==> t.action.PanicStep?;
      assert t.action.Regenerate? ==> s.restoreTimer == Some(t.id);
      assert s.isPanic ==> s.restoreTimer == c.sanity.restoreTimer;
      RescheduleKeepsClock(c, s, t);
    }
  }

  /** Cancelling the pending regeneration and scheduling one new panic step or
      regeneration, with the new sanity state pointing at it, keeps the timer invariant
      and the pending bonus. */
  lemma RescheduleKeepsClock(c: Clock, s: SanityState, t: Timer)
    requires ClockValid(c) && !c.sanity.isPanic && t.id == c.nextTimerId
    requires t.action.PanicStep? || t.action.Regenerate?
    requires s.isPanic <==> t.action.PanicStep?
    requires t.action.Regenerate? ==> s.restoreTimer == Some(t.id)
    requires s.isPanic ==> s.restoreTimer == c.sanity.restoreTimer
    ensures var r := Clock(s, CancelRestore(c.timers, c.sanity.restoreTimer) + [t], c.nextTimerId + 1);
      ClockValid(r) && PendingBonus(r.timers) == PendingBonus(c.timers)
  {
    CancelRestoreKeeps(c);
    var kept := CancelRestore(c.timers, c.sanity.restoreTimer);
    var r := Clock(s, kept + [t], c.nextTimerId + 1);
    assert forall x :: x in r.timers <==> x in kept || x == t;
    assert forall x :: x in kept && x.action.Regenerate? ==> false by {
      CountNoneMember(kept, IsRegenerate);
    }
    CountSchedule(kept, t, IsRegenerate);
    CountSchedule(kept, t, IsPanicStep);
    ScheduleOther(kept, t);
    assert forall x :: x in r.timers ==> x.id < r.nextTimerId;
    assert r.sanity.restoreTimer.Some? ==> r.sanity.restoreTimer.value < r.nextTimerId;
    assert forall x :: x in r.timers && x.action.Regenerate? ==> r.sanity.restoreTimer == Some(x.id) && !r.sanity.isPanic;
    assert forall x :: x in r.timers && r.sanity.restoreTimer == Some(x.id) ==> x.action.Regenerate?;
    assert CountOf(r.timers, IsRegenerate) <= 1;
    assert CountOf(r.timers, IsPanicStep) == (if r.sanity.isPanic then 1 else 0);
  }

  /** A kind that counts zero has no member. */
  lemma {:induction false} CountNoneMember(timers: seq<Timer>, kind: TimerAction -> bool)
    requires CountOf(timers, kind) == 0
    ensures forall t :: t in timers ==> !kind(t.action)
  {
    if |timers| > 0 {
      CountNoneMember(timers[1..], kind);
      assert forall t :: t in timers ==> t == timers[0] || t in timers[1..];
    }
  }

  /** One panic step, the timer at `i`, against the maxSanity `target` and the
      panicRestoreDelay `delay` of now: sanity rises by one; reaching `target` ends the
      panic with sanity `target` and no regeneration id, and otherwise the next step is
      scheduled. */
  function PanicStepRule(c: Clock, i: nat, target: int, delay: real, now: real): Clock
    requires i < |c.timers|
  {
    var fired := Fired(c.timers, i);
    if c.sanity.current + 1 >= target then Clock(SanityState(target, false, None), fired, c.nextTimerId)
    else Clock(c.sanity.(current := c.sanity.current + 1), fired + [Timer(c.nextTimerId, now + delay, PanicStep)], c.nextTimerId + 1)
  }

  /** A panic step ends the panic exactly when sanity plus one reaches the target, and
      then leaves no panic step pending; otherwise sanity rises by exactly one and exactly
      one step stays pending, the new one. The timer invariant and the pending bonus are
      kept. */
  lemma PanicStepOutcome(c: Clock, i: nat, target: int, delay: real, now: real)
    requires ClockValid(c) && i < |c.timers| && c.timers[i].action.PanicStep?
    ensures c.sanity.isPanic
    ensures var r := PanicStepRule(c, i, target, delay, now);
      ClockValid(r) && PendingBonus(r.timers) == PendingBonus(c.timers)
      && (r.sanity.isPanic <==> c.sanity.current + 1 < target)
      && (!r.sanity.isPanic ==> r.sanity.current == target && r.sanity.restoreTimer.None? && CountOf(r.timers, IsPanicStep) == 0)
      && (r.sanity.isPanic ==> r.sanity.current == c.sanity.current + 1 && Timer(c.nextTimerId, now + delay, PanicStep) in r.timers)
  {
    var fired := Fired(c.timers, i);
    CountFired(c.timers, i, IsPanicStep);
    CountFired(c.timers, i, IsRegenerate);
    FiredReleases(c.timers, i);
    PlusZero(PendingBonus(fired));
    assert forall t :: t in c.timers ==> !t.action.Regenerate?;
    CountNone(fired, IsRegenerate);
    if c.sanity.current + 1 < target {
      var t := Timer(c.nextTimerId, now + delay, PanicStep);
      CountSchedule(fired, t, IsRegenerate);
      CountSchedule(fired, t, IsPanicStep);
      ScheduleOther(fired, t);
    }
  }

  /** How many panic steps a panic that starts at sanity `v` takes when the target stays
      `target`. */
  function StepsToRecover(v: int, target: int): (n: nat)
    decreases target - v
  {
    if v + 1 >= target then 1 else 1 + StepsToRecover(v + 1, target)
  }

  /** A panic lasts one step per missing point of sanity, and never less than one step:
      from 0 it takes maxSanity steps, and after Penitence armor's 20 it takes 20 fewer. */
  lemma {:induction false} StepsToRecoverCount(v: int, target: int)
    ensures StepsToRecover(v, target) == if target - v <= 1 then 1 else target - v
    decreases target - v
  {
    if v + 1 < target {
      StepsToRecoverCount(v + 1, target);
    }
  }

  /** The regeneration at `i` fires: sanity becomes the target captured when it was
      scheduled; `restoreTimer` keeps the id of the fired timer. */
  function RegenerateRule(c: Clock, i: nat): (r: Clock)
    requires i < |c.timers| && c.timers[i].action.Regenerate?
    ensures r.sanity.current == c.timers[i].action.target
  {
    Clock(c.sanity.(current := c.timers[i].action.target), Fired(c.timers, i), c.nextTimerId)
  }

  /** After a regeneration nothing else regenerates: it was the only one pending. The
      invariant and the pending bonus are kept. */
  lemma RegenerateOutcome(c: Clock, i: nat)
    requires ClockValid(c) && i < |c.timers| && c.timers[i].action.Regenerate?
    ensures var r := RegenerateRule(c, i);
      ClockValid(r) && PendingBonus(r.timers) == PendingBonus(c.timers)
      && !r.sanity.isPanic && CountOf(r.timers, IsRegenerate) == 0
      && r.sanity.restoreTimer == c.sanity.restoreTimer
  {
    var t := c.timers[i];
    var fired := Fired(c.timers, i);
    var r := RegenerateRule(c, i);
    assert t in c.timers;
    assert !c.sanity.isPanic && c.sanity.restoreTimer == Some(t.id);
    CountFired(c.timers, i, IsPanicStep);
    CountFired(c.timers, i, IsRegenerate);
    assert CountOf(fired, IsRegenerate) == 0;
    FiredReleases(c.timers, i);
    PlusZero(PendingBonus(fired));
    assert r.timers == fired && r.sanity.restoreTimer == c.sanity.restoreTimer && !r.sanity.isPanic;
    forall u | u in fired && u.action.Regenerate?
      ensures false
    {
      CountPositive(fired, u, IsRegenerate);
    }
  }

  /** A pending timer of the kind is counted. */
  lemma {:induction false} CountPositive(timers: seq<Timer>, t: Timer, kind: TimerAction -> bool)
    requires t in timers && kind(t.action)
    ensures CountOf(timers, kind) >= 1
  {
    if timers[0] != t {
      assert t in timers[1..];
      CountPositive(timers[1..], t, kind);
    }
  }

  /** The bonus reversal at `i` fires: the timer goes; sanity is untouched. */
  function ReversalRule(c: Clock, i: nat): (r: Clock)
    requires i < |c.timers| && c.timers[i].action.BonusReversal?
    ensures r.sanity == c.sanity && |r.timers| == |c.timers| - 1
  {
    c.(timers := Fired(c.timers, i))
  }

  /** The pending bonus drops by exactly what the reversal takes back. */
  lemma ReversalOutcome(c: Clock, i: nat)
    requires ClockValid(c) && i < |c.timers| && c.timers[i].action.BonusReversal?
    ensures ClockValid(ReversalRule(c, i))
    ensures PendingBonus(ReversalRule(c, i).timers) == PendingBonus(c.timers).Plus(c.timers[i].action.reversal)
  {
    var rev := c.timers[i].action.reversal;
    var pf := PendingBonus(Fired(c.timers, i));
    CountFired(c.timers, i, IsPanicStep);
    CountFired(c.timers, i, IsRegenerate);
    FiredReleases(c.timers, i);
    PlusAssoc(pf, rev.Neg(), rev);
    NegCancels(rev);
    PlusZero(pf);
  }

  /** A temporary bonus of `delta` for `delay` ms: its reversal, `-delta`, is scheduled. */
  function GrantRule(c: Clock, delta: Stats, delay: real, now: real): (r: Clock)
    ensures r.sanity == c.sanity && |r.timers| == |c.timers| + 1
  {
    Clock(c.sanity, c.timers + [Timer(c.nextTimerId, now + delay, BonusReversal(delta.Neg()))], c.nextTimerId + 1)
  }

  /** The pending bonus grows by exactly `delta`, and the invariant is kept. */
  lemma GrantOutcome(c: Clock, delta: Stats, delay: real, now: real)
    requires ClockValid(c)
    ensures ClockValid(GrantRule(c, delta, delay, now))
    ensures PendingBonus(GrantRule(c, delta, delay, now).timers) == PendingBonus(c.timers).Plus(delta)
  {
    var t := Timer(c.nextTimerId, now + delay, BonusReversal(delta.Neg()));
    CountSchedule(c.timers, t, IsRegenerate);
    CountSchedule(c.timers, t, IsPanicStep);
    ScheduleReversal(c.timers, t);
    NegNeg(delta);
  }
}
