/** The item hook interface of src/stores/glupo/types.ts (`onHit`, `onPanic`,
    `onPanicEnd` of a weapon or an armor). A hook here is a pure function: it reads a
    snapshot of the game (`HookView`) and the host's draws (`HookDraws`) and returns the
    calls it makes, in order, as a list of `Effect`s, which the game then performs. */
module Hooks {
  import opened Types
  import opened Particles

  /** What the hooks read of the store and the game when they run. */
  datatype HookView = HookView(
    current: int,          // sanity now
    maxSanity: int,        // of the effective stats
    player: Stats,         // the clamped player stats
    minBoxes: int,
    maxBoxes: int,
    weaponAngle: real,     // the weapon sprite's angle, in radians
    spiderCount: int,      // Red Eyes spiders alive
    bulletsFired: nat,     // Magic Bullet shots fired so far
    glupoCenter: Vec,
    mouse: Vec)

  /** The host's draws a hook may consume: three uniform draws, and the results of the
      trigonometry of the Magic Bullet circle (its offset from Glupo's centre, 200 pixels
      at a random angle, and the unit heading towards its target). */
  datatype HookDraws = HookDraws(u1: Unit, u2: Unit, u3: Unit, circleOffset: Vec, heading: Vec)

  /** Optional overrides of a spawned box (size, sprite, gravity). */
  datatype BoxStyle = BoxStyle(size: real, sprite: Sprite, gravity: real)

  const DefaultBoxStyle: BoxStyle := BoxStyle(32.0, Box, 0.4)

  /** One call a hook makes on the store or the game. */
  datatype Effect =
    | ChangeSanity(amount: int)                   // game.changeSanity
    | AddBalance(amount: int)                     // store.addBalance
    | AddBoxes(count: int, multiplier: real)      // store.addBoxes
    | SpawnBoxes(at: Vec, count: int, style: BoxStyle)  // game.spawnBoxes
    | SpawnSpider(at: Vec)                        // Red Eyes: one more spider and its bonus
    | AddParticle(particle: Particle)             // particles.addParticle
    | SetSanity(value: int)                       // a direct write of the current sanity
    | TemporaryBonus(delta: Stats, delay: real)   // addBonusStats(delta) now, its negation after `delay` ms

  type HitHook = (HookView, HitParams, HookDraws) -> seq<Effect>
  type PanicHook = (HookView, HookDraws) -> seq<Effect>

  /** The weapon record: its id (also its image id), stat modifier, timing, pay, price,
      where the pendant chain hangs, and its optional hooks. */
  datatype Weapon = Weapon(
    id: string, image: string, stats: Stats,
    cooldown: real, critMultiplier: real, boxPrice: real, cost: nat,
    chainPosition: Vec,
    onHit: Option<HitHook>, onPanic: Option<PanicHook>, onPanicEnd: Option<PanicHook>)

  /** The armor record: only an id, a stat modifier, a price and optional hooks. */
  datatype Armor = Armor(
    id: string, image: string, stats: Stats, cost: nat,
    onHit: Option<HitHook>, onPanic: Option<PanicHook>, onPanicEnd: Option<PanicHook>)

  /** The `changeSanity` amount of one effect, if it is such a call. */
  function SanityOf(e: Effect): seq<int>
  {
    if e.ChangeSanity? then [e.amount] else []
  }

  function CreditOf(e: Effect): int
  {
    if e.AddBalance? then e.amount else 0
  }

  function BoxesOf(e: Effect): seq<int>
  {
    if e.AddBoxes? then [e.count] else []
  }

  /** Particles one effect adds (a negative spawn count adds none). */
  function SpawnOf(e: Effect): nat
  {
    match e
    case SpawnBoxes(_, n, _) => if n < 0 then 0 else n
    case SpawnSpider(_) => 1
    case AddParticle(_) => 1
    case _ => 0
  }

  function BonusOf(e: Effect): seq<Stats>
  {
    if e.TemporaryBonus? then [e.delta] else []
  }

  /** The `changeSanity` amounts, in order. */
  function SanityChanges(es: seq<Effect>): seq<int>
  {
    if |es| == 0 then [] else SanityOf(es[0]) + SanityChanges(es[1..])
  }

  /** The balance credited directly through `addBalance`. */
  function Credited(es: seq<Effect>): int
  {
    if |es| == 0 then 0 else CreditOf(es[0]) + Credited(es[1..])
  }

  /** The box counts passed to `addBoxes`, in order. */
  function BoxesBought(es: seq<Effect>): seq<int>
  {
    if |es| == 0 then [] else BoxesOf(es[0]) + BoxesBought(es[1..])
  }

  /** How many particles the effects add to the list. */
  function Spawned(es: seq<Effect>): nat
  {
    if |es| == 0 then 0 else SpawnOf(es[0]) + Spawned(es[1..])
  }

  /** The temporary bonuses granted, in order. */
  function Bonuses(es: seq<Effect>): seq<Stats>
  {
    if |es| == 0 then [] else BonusOf(es[0]) + Bonuses(es[1..])
  }

  /** The summaries of a one-, two- and three-call hook, call by call. */
  lemma Summary1(a: Effect)
    ensures SanityChanges([a]) == SanityOf(a) && Credited([a]) == CreditOf(a)
    ensures BoxesBought([a]) == BoxesOf(a) && Spawned([a]) == SpawnOf(a)
    ensures Bonuses([a]) == BonusOf(a)
  {
    assert [a][1..] == [];
  }

  lemma Summary2(a: Effect, b: Effect)
    ensures SanityChanges([a, b]) == SanityOf(a) + SanityOf(b)
    ensures Credited([a, b]) == CreditOf(a) + CreditOf(b)
    ensures BoxesBought([a, b]) == BoxesOf(a) + BoxesOf(b)
    ensures Spawned([a, b]) == SpawnOf(a) + SpawnOf(b)
    ensures Bonuses([a, b]) == BonusOf(a) + BonusOf(b)
  {
    assert [a, b][1..] == [b];
    Summary1(b);
  }

  lemma Summary3(a: Effect, b: Effect, c: Effect)
    ensures SanityChanges([a, b, c]) == SanityOf(a) + SanityOf(b) + SanityOf(c)
    ensures Credited([a, b, c]) == CreditOf(a) + CreditOf(b) + CreditOf(c)
    ensures BoxesBought([a, b, c]) == BoxesOf(a) + BoxesOf(b) + BoxesOf(c)
    ensures Spawned([a, b, c]) == SpawnOf(a) + SpawnOf(b) + SpawnOf(c)
  {
    assert [a, b, c][1..] == [b, c];
    Summary2(b, c);
  }

  /** A quiet effect list neither calls `changeSanity` nor spawns nor pays: it only writes
      sanity directly or grants temporary bonuses. */
  predicate Quiet(es: seq<Effect>)
  {
    forall i :: 0 <= i < |es| ==> es[i].SetSanity? || es[i].TemporaryBonus?
  }

  /** What a quiet list does not do. */
  lemma {:induction false} QuietIsQuiet(es: seq<Effect>)
    requires Quiet(es)
    ensures SanityChanges(es) == [] && Credited(es) == 0 && BoxesBought(es) == [] && Spawned(es) == 0
  {
    if |es| > 0 {
      assert Quiet(es[1..]) by {
        forall i | 0 <= i < |es[1..]| ensures es[1..][i].SetSanity? || es[1..][i].TemporaryBonus? {
          assert es[1..][i] == es[i + 1];
        }
      }
      QuietIsQuiet(es[1..]);
    }
  }

  /** Running two hooks one after the other does what each does. */
  lemma {:induction false} EffectsCompose(a: seq<Effect>, b: seq<Effect>)
    ensures SanityChanges(a + b) == SanityChanges(a) + SanityChanges(b)
    ensures Credited(a + b) == Credited(a) + Credited(b)
    ensures Spawned(a + b) == Spawned(a) + Spawned(b)
  {
    if |a| == 0 {
      assert a + b == b;
    } else {
      assert (a + b)[1..] == a[1..] + b;
      assert (a + b)[0] == a[0];
      EffectsCompose(a[1..], b);
    }
  }
}
