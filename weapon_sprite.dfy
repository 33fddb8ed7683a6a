/** The held weapon and the trinket hanging from it on a chain
    (src/stores/glupo/game/weapon.ts). The chain is a verlet rope: ten point objects,
    the first pinned to the weapon, joined by nine segment objects that pull their two
    ends back to the rest length. Square roots are an oracle `sqrt` passed in; the
    weapon's tilt and the place of the chain on the rotated weapon image are computed by
    trigonometry and come in as numbers. */
module WeaponSprite {
  import opened Types
  import Trinkets

  const Friction: real := 0.99
  const Gravity: Vec := Vec(0.0, 0.5)
  /** Relaxation passes over all segments per frame. */
  const Stiffness: nat := 5
  const SegmentLength: real := 10.0
  const PointCount: nat := 10
  const LastMass: real := 10.0

  /** A point's mass; a static point's is infinite. */
  datatype Mass = Infinite | Finite(m: real)

  function InverseMass(m: Mass): (r: real)
    requires m.Finite? ==> m.m != 0.0
    ensures m.Infinite? <==> r == 0.0
    ensures m.Finite? && m.m > 0.0 ==> r > 0.0
  {
    match m
    case Infinite => 0.0
    case Finite(v) => 1.0 / v
  }

  /** The mass `setupTrinketChain` gives the `i`-th point: the first is static, the last
      carries the trinket. */
  function MassAt(i: nat): Mass
  {
    if i == 0 then Infinite else if i == PointCount - 1 then Finite(LastMass) else Finite(1.0)
  }

  /** What a frame reads and writes of a point. */
  datatype PointState = PointState(pos: Vec, oldPos: Vec)

  /** `TrinketChainPoint.update`: the velocity is the last move damped by friction;
      gravity is added. */
  function Verlet(p: PointState): (r: PointState)
    ensures r.oldPos == p.pos
  {
    PointState(Vec(p.pos.x + (p.pos.x - p.oldPos.x) * Friction + Gravity.x,
                   p.pos.y + (p.pos.y - p.oldPos.y) * Friction + Gravity.y), p.pos)
  }

  /** A point at rest only falls by gravity. */
  lemma RestingPointFalls(p: PointState)
    requires p.pos == p.oldPos
    ensures Verlet(p).pos == Vec(p.pos.x, p.pos.y + 0.5)
  {
  }

  /** The distance from `a` to `b` as the square-root oracle measures it. */
  function Distance(a: Vec, b: Vec, sqrt: real -> real): real
  {
    sqrt((b.x - a.x) * (b.x - a.x) + (b.y - a.y) * (b.y - a.y))
  }

  /** The vector from `a` to `b` scaled by `percent`. */
  function Offset(a: Vec, b: Vec, percent: real): Vec
  {
    Vec((b.x - a.x) * percent, (b.y - a.y) * percent)
  }

  /** `p` moved by `w` times `o`. */
  function Shifted(p: Vec, o: Vec, w: real): Vec
  {
    Vec(p.x + o.x * w, p.y + o.y * w)
  }

  /** `TrinketChainSegment.update` on the positions `a` and `b` of its ends, with
      inverse masses `invA` and `invB`: both ends move along the segment, each by its
      share of inverse mass, so that the segment gets back its rest length `len`.
      Nothing moves when the measured distance is 0. */
  function Relax(a: Vec, b: Vec, invA: real, invB: real, len: real, sqrt: real -> real): (r: (Vec, Vec))
    requires invA + invB != 0.0
    ensures Distance(a, b, sqrt) == 0.0 ==> r == (a, b)
    ensures invA == 0.0 ==> r.0 == a
    ensures invB == 0.0 ==> r.1 == b
  {
    var distance := Distance(a, b, sqrt);
    if distance == 0.0 then (a, b)
    else
      var offset := Offset(a, b, (len - distance) / distance / (invA + invB));
      (Shifted(a, offset, - invA), Shifted(b, offset, invB))
  }

  /** The two ends move in opposite directions, in inverse proportion to their masses
      (the weighted moves cancel out). */
  lemma RelaxBalances(a: Vec, b: Vec, invA: real, invB: real, len: real, sqrt: real -> real)
    requires invA + invB != 0.0
    ensures var r := Relax(a, b, invA, invB, len, sqrt);
      invB * (r.0.x - a.x) == - invA * (r.1.x - b.x) && invB * (r.0.y - a.y) == - invA * (r.1.y - b.y)
  {
    var distance := Distance(a, b, sqrt);
    if distance != 0.0 {
      var offset := Offset(a, b, (len - distance) / distance / (invA + invB));
      var r := Relax(a, b, invA, invB, len, sqrt);
      assert r == (Shifted(a, offset, - invA), Shifted(b, offset, invB));
      Balance(a.x, b.x, offset.x, invA, invB);
      Balance(a.y, b.y, offset.y, invA, invB);
    }
  }

  lemma Balance(a: real, b: real, o: real, invA: real, invB: real)
    ensures invB * ((a + o * - invA) - a) == - invA * ((b + o * invB) - b)
  {
    assert (a + o * - invA) - a == o * - invA;
    assert (b + o * invB) - b == o * invB;
  }

  /** With an exact square root, a relaxed segment keeps its direction and has exactly
      its rest length: the new separation is the old one scaled by `len / distance`. */
  lemma RelaxRestoresLength(a: Vec, b: Vec, invA: real, invB: real, len: real, sqrt: real -> real)
    requires invA + invB != 0.0
    requires var d := Distance(a, b, sqrt);
      d > 0.0 && d * d == (b.x - a.x) * (b.x - a.x) + (b.y - a.y) * (b.y - a.y)
    ensures var r := Relax(a, b, invA, invB, len, sqrt);
      var d := Distance(a, b, sqrt);
      r.1.x - r.0.x == (b.x - a.x) * (len / d) && r.1.y - r.0.y == (b.y - a.y) * (len / d)
      && (r.1.x - r.0.x) * (r.1.x - r.0.x) + (r.1.y - r.0.y) * (r.1.y - r.0.y) == len * len
  {
    var d := Distance(a, b, sqrt);
    var percent := (len - d) / d / (invA + invB);
    var offset := Offset(a, b, percent);
    var r := Relax(a, b, invA, invB, len, sqrt);
    assert r == (Shifted(a, offset, - invA), Shifted(b, offset, invB));
    Stretch(a.x, b.x, d, len, percent, invA, invB);
    Stretch(a.y, b.y, d, len, percent, invA, invB);
    ScaleLength(b.x - a.x, b.y - a.y, d, len, len / d);
  }

  /** One coordinate of a relaxed segment from `a` to `b`: the ends' moves add up to the
      separation scaled by `len / d`. */
  lemma Stretch(a: real, b: real, d: real, len: real, percent: real, invA: real, invB: real)
    requires d > 0.0 && invA + invB != 0.0 && percent == (len - d) / d / (invA + invB)
    ensures (b + ((b - a) * percent) * invB) - (a + ((b - a) * percent) * - invA) == (b - a) * (len / d)
  {
    var q := (len - d) / d;
    assert percent * (invA + invB) == q;
    assert q == len / d - 1.0 by {
      assert q * d == len - d;
      assert (len / d) * d == len;
      assert (q - (len / d - 1.0)) * d == 0.0;
      NonzeroFactor(q - (len / d - 1.0), d);
    }
    var delta := b - a;
    calc {
      (b + (delta * percent) * invB) - (a + (delta * percent) * - invA);
      delta + delta * (percent * (invA + invB));
      delta * (1.0 + q);
    }
  }

  lemma NonzeroFactor(x: real, d: real)
    requires d != 0.0 && x * d == 0.0
    ensures x == 0.0
  {
  }

  lemma ScaleLength(dx: real, dy: real, d: real, len: real, k: real)
    requires d > 0.0 && d * d == dx * dx + dy * dy && k == len / d
    ensures (dx * k) * (dx * k) + (dy * k) * (dy * k) == len * len
  {
    assert k * d == len;
    calc {
      (dx * k) * (dx * k) + (dy * k) * (dy * k);
      (dx * dx + dy * dy) * (k * k);
      (d * d) * (k * k);
      (k * d) * (k * d);
    }
  }

  /** Inverse masses where only the first point is pinned. */
  predicate Pinned(inv: seq<real>)
  {
    |inv| > 0 && inv[0] == 0.0 && forall i :: 1 <= i < |inv| ==> inv[i] > 0.0
  }

  /** The update of the segment joining points `k` and `k + 1`. */
  function RelaxAt(ps: seq<PointState>, inv: seq<real>, k: nat, sqrt: real -> real): (r: seq<PointState>)
    requires k + 1 < |ps| == |inv| && Pinned(inv)
    ensures |r| == |ps|
    ensures forall j :: 0 <= j < |ps| ==> r[j].oldPos == ps[j].oldPos
    ensures forall j :: 0 <= j < |ps| && j != k && j != k + 1 ==> r[j] == ps[j]
  {
    var m := Relax(ps[k].pos, ps[k + 1].pos, inv[k], inv[k + 1], SegmentLength, sqrt);
    ps[k := ps[k].(pos := m.0)][k + 1 := ps[k + 1].(pos := m.1)]
  }

  /** One relaxation pass, over the first `n` segments in order. */
  function Pass(ps: seq<PointState>, inv: seq<real>, n: nat, sqrt: real -> real): (r: seq<PointState>)
    requires n < |ps| == |inv| && Pinned(inv)
    ensures |r| == |ps|
  {
    if n == 0 then ps else RelaxAt(Pass(ps, inv, n - 1, sqrt), inv, n - 1, sqrt)
  }

  /** `m` full passes over all segments. */
  function Passes(ps: seq<PointState>, inv: seq<real>, m: nat, sqrt: real -> real): (r: seq<PointState>)
    requires 0 < |ps| == |inv| && Pinned(inv)
    ensures |r| == |ps|
  {
    if m == 0 then ps else Pass(Passes(ps, inv, m - 1, sqrt), inv, |ps| - 1, sqrt)
  }

  /** A pass moves no point's `oldPos` and never moves the pinned point. */
  lemma {:induction false} PassKeepsPin(ps: seq<PointState>, inv: seq<real>, n: nat, sqrt: real -> real)
    requires n < |ps| == |inv| && Pinned(inv)
    ensures Pass(ps, inv, n, sqrt)[0] == ps[0]
    ensures forall j :: 0 <= j < |ps| ==> Pass(ps, inv, n, sqrt)[j].oldPos == ps[j].oldPos
  {
    if n > 0 {
      PassKeepsPin(ps, inv, n - 1, sqrt);
      var q := Pass(ps, inv, n - 1, sqrt);
      if n - 1 == 0 {
        assert Relax(q[0].pos, q[1].pos, inv[0], inv[1], SegmentLength, sqrt).0 == q[0].pos;
      }
    }
  }

  lemma {:induction false} PassesKeepPin(ps: seq<PointState>, inv: seq<real>, m: nat, sqrt: real -> real)
    requires 0 < |ps| == |inv| && Pinned(inv)
    ensures Passes(ps, inv, m, sqrt)[0] == ps[0]
    ensures forall j :: 0 <= j < |ps| ==> Passes(ps, inv, m, sqrt)[j].oldPos == ps[j].oldPos
  {
    if m > 0 {
      PassesKeepPin(ps, inv, m - 1, sqrt);
      PassKeepsPin(Passes(ps, inv, m - 1, sqrt), inv, |ps| - 1, sqrt);
    }
  }

  /** The verlet update of the first `n` points. */
  function VerletFirst(ps: seq<PointState>, n: nat): (r: seq<PointState>)
    ensures |r| == |ps|
  {
    seq(|ps|, j requires 0 <= j < |ps| => if j < n then Verlet(ps[j]) else ps[j])
  }

  /** The pinned point after the verlet update moved to `origin` by `setPosition`. */
  function Anchored(ps: seq<PointState>, origin: Vec): (r: seq<PointState>)
    requires 0 < |ps|
  {
    ps[0 := PointState(origin, ps[0].pos)]
  }

  /** The chain step of `drawTrinket`: every point's verlet update, then the first point
      set to `origin`, then `Stiffness` relaxation passes. */
  function StepRule(ps: seq<PointState>, inv: seq<real>, origin: Vec, sqrt: real -> real): (r: seq<PointState>)
    requires 0 < |ps| == |inv| && Pinned(inv)
    ensures |r| == |ps|
  {
    Passes(Anchored(VerletFirst(ps, |ps|), origin), inv, Stiffness, sqrt)
  }

  /** After a step the pinned point is exactly at the origin it was given, with its
      position after the verlet update as its previous position; every other point's
      previous position is where it was before the step. */
  lemma StepPinsAnchor(ps: seq<PointState>, inv: seq<real>, origin: Vec, sqrt: real -> real)
    requires 0 < |ps| == |inv| && Pinned(inv)
    ensures var r := StepRule(ps, inv, origin, sqrt);
      r[0].pos == origin && r[0].oldPos == Verlet(ps[0]).pos
      && forall j :: 1 <= j < |ps| ==> r[j].oldPos == ps[j].pos
  {
    PassesKeepPin(Anchored(VerletFirst(ps, |ps|), origin), inv, Stiffness, sqrt);
  }

  /** The points `setupTrinketChain` lays out: straight down from `origin`, one segment
      length apart, each at rest. */
  function Layout(origin: Vec): (r: seq<PointState>)
    ensures |r| == PointCount
    ensures r[0].pos == origin
    ensures forall i :: 0 <= i < PointCount ==> r[i].oldPos == r[i].pos
    ensures forall i :: 0 <= i < PointCount - 1 ==>
      r[i + 1].pos.x == r[i].pos.x && r[i + 1].pos.y == r[i].pos.y + SegmentLength
  {
    seq(PointCount, i requires 0 <= i < PointCount => PointState(Vec(origin.x, origin.y + (i as real) * SegmentLength), Vec(origin.x, origin.y + (i as real) * SegmentLength)))
  }

  /** The inverse masses of the laid-out chain pin exactly the first point. */
  lemma LayoutPinned()
    ensures Pinned(seq(PointCount, i requires 0 <= i < PointCount => InverseMass(MassAt(i))))
  {
    var inv := seq(PointCount, i requires 0 <= i < PointCount => InverseMass(MassAt(i)));
    forall i | 1 <= i < PointCount
      ensures inv[i] > 0.0
    {
      assert MassAt(i).Finite? && MassAt(i).m > 0.0;
    }
  }

  /** `TrinketChainPoint`. */
  class ChainPoint {
    var pos: Vec
    var oldPos: Vec
    const isStatic: bool
    const mass: Mass
    const invMass: real

    function State(): PointState
      reads this
    {
      PointState(pos, oldPos)
    }

    /** A point at rest at `pos`; a static point has infinite mass. */
    constructor(pos: Vec, isStatic: bool, mass: real)
      requires isStatic || mass != 0.0
      ensures this.pos == pos && oldPos == pos && this.isStatic == isStatic
      ensures this.mass == (if isStatic then Infinite else Finite(mass))
      ensures invMass == InverseMass(this.mass)
    {
      this.pos := pos;
      oldPos := pos;
      this.isStatic := isStatic;
      this.mass := if isStatic then Infinite else Finite(mass);
      invMass := InverseMass(if isStatic then Infinite else Finite(mass));
    }

    method Update()
      modifies this
      ensures State() == Verlet(old(State()))
    {
      var velX := (pos.x - oldPos.x) * Friction;
      var velY := (pos.y - oldPos.y) * Friction;
      oldPos := pos;
      pos := Vec(pos.x + velX + Gravity.x, pos.y + velY + Gravity.y);
    }

    /** The position before the move becomes the previous position. */
    method SetPosition(to: Vec)
      modifies this
      ensures pos == to && oldPos == old(pos)
    {
      oldPos := pos;
      pos := to;
    }
  }

  /** `TrinketChainSegment`: two distinct points and a rest length. */
  class ChainSegment {
    const p1: ChainPoint
    const p2: ChainPoint
    const length: real

    constructor(p1: ChainPoint, p2: ChainPoint, length: real)
      ensures this.p1 == p1 && this.p2 == p2 && this.length == length
    {
      this.p1 := p1;
      this.p2 := p2;
      this.length := length;
    }

    method Update(sqrt: real -> real)
      requires p1 != p2 && p1.invMass + p2.invMass != 0.0
      modifies p1, p2
      ensures (p1.pos, p2.pos) == Relax(old(p1.pos), old(p2.pos), p1.invMass, p2.invMass, length, sqrt)
      ensures p1.oldPos == old(p1.oldPos) && p2.oldPos == old(p2.oldPos)
    {
      var distance := Distance(p1.pos, p2.pos, sqrt);
      if distance == 0.0 {
        return;
      }
      var difference := length - distance;
      var offset := Offset(p1.pos, p2.pos, difference / distance / (p1.invMass + p2.invMass));
      p1.pos := Shifted(p1.pos, offset, - p1.invMass);
      p2.pos := Shifted(p2.pos, offset, p2.invMass);
    }
  }

  /** The `chain` of the weapon data: its points and the segments joining neighbours. */
  class Chain {
    var points: seq<ChainPoint>
    var segments: seq<ChainSegment>

    /** Ten distinct points with the masses of `setupTrinketChain`, segment `k` joining
        points `k` and `k + 1` at the rest length. */
    predicate Valid()
      reads this
    {
      |points| == PointCount && |segments| == PointCount - 1
      && (forall i, j :: 0 <= i < j < |points| ==> points[i] != points[j])
      && (forall i :: 0 <= i < |points| ==>
            points[i].isStatic == (i == 0) && points[i].mass == MassAt(i)
            && points[i].invMass == InverseMass(MassAt(i)))
      && (forall k :: 0 <= k < |segments| ==>
            segments[k].p1 == points[k] && segments[k].p2 == points[k + 1] && segments[k].length == SegmentLength)
    }

    function InvMasses(): (inv: seq<real>)
      reads this
      requires Valid()
      ensures |inv| == |points| && Pinned(inv)
    {
      LayoutPinned();
      seq(PointCount, i requires 0 <= i < PointCount => InverseMass(MassAt(i)))
    }

    function States(): (s: seq<PointState>)
      reads this, points
      ensures |s| == |points|
      ensures forall i :: 0 <= i < |points| ==> s[i] == points[i].State()
    {
      var ps := points;
      seq(|ps|, i requires 0 <= i < |ps| reads ps => ps[i].State())
    }

    /** `setupTrinketChain(origin)`. */
    constructor(origin: Vec)
      ensures Valid() && States() == Layout(origin)
      ensures forall i :: 0 <= i < |points| ==> fresh(points[i])
    {
      var ps := NewPoints(origin);
      var ss := Link(ps);
      points := ps;
      segments := ss;
      new;
      assert forall i :: 0 <= i < PointCount ==> States()[i] == Layout(origin)[i];
    }

    /** The first loop of `setupTrinketChain`: the points, straight down from `origin`. */
    static method NewPoints(origin: Vec) returns (ps: seq<ChainPoint>)
      ensures |ps| == PointCount
      ensures forall a, b :: 0 <= a < b < |ps| ==> ps[a] != ps[b]
      ensures forall a :: 0 <= a < |ps| ==> fresh(ps[a])
      ensures forall a :: 0 <= a < |ps| ==> ps[a].State() == Layout(origin)[a]
      ensures forall a :: 0 <= a < |ps| ==>
        ps[a].isStatic == (a == 0) && ps[a].mass == MassAt(a) && ps[a].invMass == InverseMass(MassAt(a))
    {
      ps := [];
      for i := 0 to PointCount
        invariant |ps| == i
        invariant forall a, b :: 0 <= a < b < i ==> ps[a] != ps[b]
        invariant forall a :: 0 <= a < i ==> fresh(ps[a])
        invariant forall a :: 0 <= a < i ==> ps[a].State() == Layout(origin)[a]
        invariant forall a :: 0 <= a < i ==>
          ps[a].isStatic == (a == 0) && ps[a].mass == MassAt(a) && ps[a].invMass == InverseMass(MassAt(a))
      {
        var at := Vec(origin.x, origin.y + (i as real) * SegmentLength);
        var p := new ChainPoint(at, i == 0, if i == PointCount - 1 then LastMass else 1.0);
        ps := ps + [p];
      }
    }

    /** The second loop of `setupTrinketChain`: a segment between each point and the
        next. */
    static method Link(ps: seq<ChainPoint>) returns (ss: seq<ChainSegment>)
      requires |ps| == PointCount
      ensures |ss| == PointCount - 1
      ensures forall a :: 0 <= a < |ss| ==>
        ss[a].p1 == ps[a] && ss[a].p2 == ps[a + 1] && ss[a].length == SegmentLength
    {
      ss := [];
      for k := 0 to PointCount - 1
        invariant |ss| == k
        invariant forall a :: 0 <= a < k ==>
          ss[a].p1 == ps[a] && ss[a].p2 == ps[a + 1] && ss[a].length == SegmentLength
      {
        var s := new ChainSegment(ps[k], ps[k + 1], SegmentLength);
        ss := ss + [s];
      }
    }

    /** The verlet update of every point (`points.forEach(p => p.update())`). */
    method UpdatePoints()
      requires Valid()
      modifies points
      ensures States() == VerletFirst(old(States()), |points|)
    {
      for i := 0 to |points|
        invariant States() == VerletFirst(old(States()), i)
      {
        points[i].Update();
      }
    }

    /** One pass over the segments in order (`segments.forEach(s => s.update())`). */
    method RelaxPass(sqrt: real -> real)
      requires Valid()
      modifies points
      ensures States() == Pass(old(States()), InvMasses(), |segments|, sqrt)
    {
      for k := 0 to |segments|
        invariant Valid()
        invariant States() == Pass(old(States()), InvMasses(), k, sqrt)
      {
        RelaxSegment(k, sqrt);
      }
    }

    /** The update of segment `k`, on the chain's states. */
    method RelaxSegment(k: nat, sqrt: real -> real)
      requires Valid() && k < |segments|
      modifies points
      ensures States() == RelaxAt(old(States()), InvMasses(), k, sqrt)
    {
      var s := segments[k];
      assert s.p1 == points[k] && s.p2 == points[k + 1] && s.p1 != s.p2;
      ghost var inv := InvMasses();
      assert s.p1.invMass == inv[k] && s.p2.invMass == inv[k + 1];
      s.Update(sqrt);
    }

    /** The first point set to `origin` (`firstPoint.setPosition`). */
    method Anchor(origin: Vec)
      requires Valid()
      modifies points
      ensures States() == Anchored(old(States()), origin)
    {
      points[0].SetPosition(origin);
      assert forall j :: 0 <= j < |points| ==> States()[j] == Anchored(old(States()), origin)[j];
    }

    /** The chain part of `drawTrinket` for an anchor at `origin`. */
    method Step(origin: Vec, sqrt: real -> real)
      requires Valid()
      modifies points
      ensures States() == StepRule(old(States()), InvMasses(), origin, sqrt)
    {
      UpdatePoints();
      Anchor(origin);
      Relaxation(sqrt);
    }

    /** `Stiffness` passes over the segments. */
    method Relaxation(sqrt: real -> real)
      requires Valid()
      modifies points
      ensures States() == Passes(old(States()), InvMasses(), Stiffness, sqrt)
    {
      ghost var start := States();
      ghost var inv := InvMasses();
      for pass := 0 to Stiffness
        invariant Valid()
        invariant States() == Passes(start, inv, pass, sqrt)
      {
        ghost var before := States();
        RelaxPass(sqrt);
        assert States() == Pass(before, inv, |before| - 1, sqrt);
      }
    }
  }

  /** The weapon sprite's data: where the pointer holds it, its speed and tilt, whether it
      is shown, and the lazily built chain. */
  class Weapon {
    var x: real
    var y: real
    var speed: real
    var angle: real
    var visible: bool
    var chain: Chain?

    predicate Valid()
      reads this, chain
    {
      chain != null ==> chain.Valid()
    }

    /** The points of the chain, if there is one. */
    function ChainPoints(): set<object>
      reads this, chain
    {
      if chain == null then {} else set p: ChainPoint | p in chain.points
    }

    constructor()
      ensures Valid() && x == 0.0 && y == 0.0 && speed == 0.0 && angle == 0.0
      ensures !visible && chain == null
    {
      x, y, speed, angle := 0.0, 0.0, 0.0, 0.0;
      visible := false;
      chain := null;
    }

    method SetVisible(v: bool)
      modifies this
      ensures visible == v && x == old(x) && y == old(y) && speed == old(speed)
      ensures angle == old(angle) && chain == old(chain)
    {
      visible := v;
    }

    method SetPosition(x: real, y: real, speed: real)
      modifies this
      ensures this.x == x && this.y == y && this.speed == speed
      ensures angle == old(angle) && visible == old(visible) && chain == old(chain)
    {
      this.x, this.y, this.speed := x, y, speed;
    }

    /** The state-changing part of `draw`: nothing while hidden; otherwise the tilt
        `deltaAngle` is stored and the trinket is drawn (`drawTrinket`). */
    method Draw(trinket: Option<Trinkets.TrinketId>, chainOrigin: Vec, deltaAngle: real, sqrt: real -> real)
      requires Valid()
      modifies this, ChainPoints()
      ensures Valid()
      ensures x == old(x) && y == old(y) && speed == old(speed) && visible == old(visible)
      ensures old(chain) != null ==> chain == old(chain)
      ensures !visible ==> angle == old(angle)
      ensures visible ==> angle == deltaAngle
      ensures !visible || trinket.None? ==> chain == old(chain) && (chain != null ==> chain.States() == old(chain.States()))
      ensures visible && trinket.Some? ==> chain != null && chain.States() == StepRule(
        if old(chain) == null then Layout(chainOrigin) else old(chain.States()), chain.InvMasses(), chainOrigin, sqrt)
    {
      if !visible {
        return;
      }
      angle := deltaAngle;
      DrawTrinket(trinket, chainOrigin, sqrt);
    }

    /** `drawTrinket`: without a selected trinket nothing happens; otherwise the chain,
        built at `chainOrigin` the first time, takes one step towards `chainOrigin`. A
        chain once built is never discarded. */
    method DrawTrinket(trinket: Option<Trinkets.TrinketId>, chainOrigin: Vec, sqrt: real -> real)
      requires Valid()
      modifies this, ChainPoints()
      ensures Valid()
      ensures x == old(x) && y == old(y) && speed == old(speed) && visible == old(visible) && angle == old(angle)
      ensures old(chain) != null ==> chain == old(chain)
      ensures trinket.None? ==> chain == old(chain) && (chain != null ==> chain.States() == old(chain.States()))
      ensures trinket.Some? ==> chain != null && chain.States() == StepRule(
        if old(chain) == null then Layout(chainOrigin) else old(chain.States()), chain.InvMasses(), chainOrigin, sqrt)
    {
      if trinket.None? {
        return;
      }
      if chain == null {
        chain := new Chain(chainOrigin);
      }
      chain.Step(chainOrigin, sqrt);
    }
  }
}
