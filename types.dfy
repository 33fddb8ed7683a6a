/** Shared shapes of the reward game: risk levels, the four stat axes, hit parameters.
    Models src/stores/glupo/types.ts. */
module Types {

  datatype Option<T> = None | Some(value: T)

  /** A point or a velocity on the play field. */
  datatype Vec = Vec(x: real, y: real)

  /** The five risk tiers, declared in their upgrade order. */
  datatype RiskLevel = Zayin | Teth | He | Waw | Aleph

  /** Position of a tier in the declaration order zayin, teth, he, waw, aleph. */
  function RiskIndex(r: RiskLevel): (i: nat)
    ensures i < 5
  {
    match r
    case Zayin => 0
    case Teth => 1
    case He => 2
    case Waw => 3
    case Aleph => 4
  }

  function RiskAt(i: nat): (r: RiskLevel)
    requires i < 5
    ensures RiskIndex(r) == i
  {
    if i == 0 then Zayin else if i == 1 then Teth else if i == 2 then He else if i == 3 then Waw else Aleph
  }

  /** The persisted string of each tier. */
  function RiskName(r: RiskLevel): string
  {
    match r
    case Zayin => "zayin"
    case Teth => "teth"
    case He => "he"
    case Waw => "waw"
    case Aleph => "aleph"
  }

  /** Exactly five tiers: the index is a bijection onto 0..4 and the names are pairwise distinct. */
  lemma RiskLevelsAreFive(r: RiskLevel, s: RiskLevel)
    ensures RiskAt(RiskIndex(r)) == r
    ensures RiskIndex(r) == RiskIndex(s) ==> r == s
    ensures RiskName(r) == RiskName(s) ==> r == s
  {
    match r
    case Zayin => assert RiskName(r)[0] == 'z';
    case Teth => assert RiskName(r)[0] == 't';
    case He => assert RiskName(r)[0] == 'h';
    case Waw => assert RiskName(r)[0] == 'w';
    case Aleph => assert RiskName(r)[0] == 'a';
  }

  /** The four stat axes. */
  datatype StatKey = Fortitude | Prudence | Temperance | Justice

  const AllStatKeys: seq<StatKey> := [Fortitude, Prudence, Temperance, Justice]

  /** A value on each of the four axes (base stats, item modifiers, bonuses). */
  datatype Stats = Stats(fortitude: int, prudence: int, temperance: int, justice: int)
  {
    function Get(k: StatKey): int
    {
      match k
      case Fortitude => fortitude
      case Prudence => prudence
      case Temperance => temperance
      case Justice => justice
    }

    /** This record with axis `k` replaced by `v`. */
    function With(k: StatKey, v: int): (s: Stats)
      ensures s.Get(k) == v
      ensures forall j :: j != k ==> s.Get(j) == Get(j)
    {
      match k
      case Fortitude => this.(fortitude := v)
      case Prudence => this.(prudence := v)
      case Temperance => this.(temperance := v)
      case Justice => this.(justice := v)
    }

    /** Axis-wise sum. */
    function Plus(o: Stats): Stats
    {
      Stats(fortitude + o.fortitude, prudence + o.prudence, temperance + o.temperance, justice + o.justice)
    }

    /** Axis-wise negation: the exact reversal of a bonus. */
    function Neg(): Stats
    {
      Stats(-fortitude, -prudence, -temperance, -justice)
    }

    /** Every axis clamped below at zero. */
    function ClampNonNeg(): (s: Stats)
      ensures forall k :: s.Get(k) == if Get(k) < 0 then 0 else Get(k)
    {
      Stats(Max0(fortitude), Max0(prudence), Max0(temperance), Max0(justice))
    }
  }

  function Max0(x: int): int { if x < 0 then 0 else x }

  const Zero: Stats := Stats(0, 0, 0, 0)

  /** The sum adds axis by axis, in either order. */
  lemma PlusIsAxisWise(a: Stats, b: Stats)
    ensures forall k :: a.Plus(b).Get(k) == a.Get(k) + b.Get(k)
    ensures a.Plus(b) == b.Plus(a)
  {
  }

  /** A record plus its negation is zero, in either order. */
  lemma NegCancels(s: Stats)
    ensures s.Plus(s.Neg()) == Zero && s.Neg().Plus(s) == Zero
  {
  }

  /** Sums of bonuses may be regrouped. */
  lemma PlusAssoc(a: Stats, b: Stats, c: Stats)
    ensures a.Plus(b).Plus(c) == a.Plus(b.Plus(c))
  {
  }

  lemma PlusZero(s: Stats)
    ensures s.Plus(Zero) == s && Zero.Plus(s) == s
  {
  }

  /** Two records agree on every axis exactly when they are equal: the record has the four axes and no more. */
  lemma StatsHaveFourAxes(a: Stats, b: Stats)
    ensures (forall k :: a.Get(k) == b.Get(k)) <==> a == b
  {
    if forall k :: a.Get(k) == b.Get(k) {
      assert a.Get(Fortitude) == b.Get(Fortitude) && a.Get(Prudence) == b.Get(Prudence);
      assert a.Get(Temperance) == b.Get(Temperance) && a.Get(Justice) == b.Get(Justice);
    }
  }

  /** What a hit passes to the item hooks. */
  datatype HitParams = HitParams(isCritical: bool, position: Vec)

  /** A draw of the host's uniform source, in [0, 1). */
  type Unit = r: real | 0.0 <= r < 1.0

  /** Math.floor: the greatest integer not above `r`. */
  function Floor(r: real): (n: int)
    ensures n as real <= r < n as real + 1.0
  {
    r.Floor
  }

  /** Math.ceil. */
  function Ceil(r: real): (n: int)
    ensures n as real - 1.0 < r <= n as real
  {
    -((-r).Floor)
  }
}
