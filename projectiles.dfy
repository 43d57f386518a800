/** The player's projectiles: the weapon toggle, the shape of a new projectile, the per-frame step
    that moves and retires it, and the one-shot timer that re-arms firing. */
module Projectiles {
  import opened Extended
  import opened Optional
  import opened Geometry

  datatype Weapon = Rocket | Axe

  /** switchWeapon's choice: rocket becomes axe, anything else becomes rocket. */
  function Switched(w: Weapon): (r: Weapon)
    ensures r != w
  {
    if w == Rocket then Axe else Rocket
  }

  /** Switching twice gives the weapon back, so create's two calls leave the rocket chosen. */
  lemma SwitchedTwice(w: Weapon)
    ensures Switched(Switched(w)) == w
  {
  }

  /** Sine and cosine of a projectile's rotation. Rotation is fixed at creation (the angle towards
      the pointer plus 1.57), so both are given as data. */
  datatype Heading = Heading(sin: real, cos: real)

  /** A projectile sprite: the id drawn at random for enemy collisions, the weapon stamped on it at
      creation, its position, its heading, and its `lifespan`, which only an axe ever sets. */
  datatype Projectile = Projectile(id: real, weapon: Weapon, pos: Vec, heading: Heading, lifespan: Option<real>)

  const MuzzleOffset: real := 27.0
  const RocketSpeed: real := 0.3
  const AxeSpeed: real := 0.05
  const AxeLifespan: real := 700.0

  /** A rocket is kept while it is within `width / 1.6` and `height / 1.6` of the area's centre. */
  const RocketBoundDivisor: real := 1.6

  /** Moving `dist` along the heading: `x += sin * dist`, `y -= cos * dist`. */
  function Forward(p: Vec, h: Heading, dist: real): Vec
  {
    Vec(p.x + h.sin * dist, p.y - h.cos * dist)
  }

  /** A projectile created at the player: pushed 27 px along its heading, stamped with the weapon
      chosen at that moment, no lifespan yet. */
  function Launch(at: Vec, weapon: Weapon, heading: Heading, id: real): (p: Projectile)
    ensures p.weapon == weapon && p.heading == heading && p.id == id && p.lifespan.None?
    ensures p.pos == Forward(at, heading, MuzzleOffset)
  {
    Projectile(id, weapon, Forward(at, heading, MuzzleOffset), heading, None)
  }

  predicate InRocketBounds(p: Vec, area: Rect)
  {
    Within(p.x, area.x, area.width / RocketBoundDivisor) && Within(p.y, area.y, area.height / RocketBoundDivisor)
  }

  /** One frame of the projectile loop for one projectile: `None` when it is destroyed. A rocket
      moves at 0.3 px/ms and is destroyed once outside the rocket bounds. An axe moves at
      0.05 px/ms; an unset lifespan (`undefined - delta` is NaN, which is falsy) becomes 700; a
      set one loses `delta`, and the axe is destroyed when it drops below 0, while exactly 0 (also
      falsy) starts it again at 700. */
  function Step(p: Projectile, delta: real, area: Rect): (r: Option<Projectile>)
    ensures r.Some? ==> r.value.id == p.id && r.value.weapon == p.weapon && r.value.heading == p.heading
    ensures p.weapon == Rocket ==> (r.Some? <==> InRocketBounds(Forward(p.pos, p.heading, RocketSpeed * delta), area))
    ensures r.Some? && p.weapon == Rocket ==> r.value.pos == Forward(p.pos, p.heading, RocketSpeed * delta) && InRocketBounds(r.value.pos, area)
    ensures r.Some? && p.weapon == Axe ==> r.value.pos == Forward(p.pos, p.heading, AxeSpeed * delta)
    ensures p.weapon == Axe ==> (r.None? <==> p.lifespan.Some? && p.lifespan.value - delta < 0.0)
    ensures r.Some? && p.weapon == Axe ==> r.value.lifespan.Some? && r.value.lifespan.value > 0.0
    ensures p.weapon == Axe && p.lifespan.None? ==> r.Some? && r.value.lifespan == Some(AxeLifespan)
    ensures p.weapon == Axe && p.lifespan.Some? && r.Some? ==>
      r.value.lifespan == Some(if p.lifespan.value - delta == 0.0 then AxeLifespan else p.lifespan.value - delta)
    ensures p.weapon == Rocket && r.Some? ==> r.value.lifespan == p.lifespan
  {
    match p.weapon
    case Rocket =>
      var moved := p.(pos := Forward(p.pos, p.heading, RocketSpeed * delta));
      if InRocketBounds(moved.pos, area) then Some(moved) else None
    case Axe =>
      var moved := p.(pos := Forward(p.pos, p.heading, AxeSpeed * delta));
      match p.lifespan
      case None => Some(moved.(lifespan := Some(AxeLifespan)))
      case Some(left) =>
        if left - delta == 0.0 then Some(moved.(lifespan := Some(AxeLifespan)))
        else if left - delta < 0.0 then None
        else Some(moved.(lifespan := Some(left - delta)))
  }

  /** An axe's lifespan is unset or in (0, 700]. */
  predicate LifespanInRange(p: Projectile)
  {
    p.lifespan.None? || 0.0 < p.lifespan.value <= AxeLifespan
  }

  /** With a non-negative frame time, a surviving axe always holds a lifespan in (0, 700]. */
  lemma AxeLifespanStaysInRange(p: Projectile, delta: real, area: Rect)
    requires p.weapon == Axe && LifespanInRange(p) && delta >= 0.0
    ensures Step(p, delta, area).Some? ==> Step(p, delta, area).value.lifespan.Some? && LifespanInRange(Step(p, delta, area).value)
  {
  }

  /** A countdown that lands exactly on 0 is read as unset and starts over at 700. */
  lemma AxeExactZeroRestarts(p: Projectile, area: Rect)
    requires p.weapon == Axe && p.lifespan.Some?
    ensures Step(p, p.lifespan.value, area).Some?
    ensures Step(p, p.lifespan.value, area).value.lifespan == Some(AxeLifespan)
  {
  }

  /** The survivors of one pass of the projectile loop, in their order. */
  function Survivor(o: Option<Projectile>): seq<Projectile>
  {
    match o
    case None => []
    case Some(q) => [q]
  }

  /** The projectile loop over the whole group: each projectile takes its own step, the destroyed
      ones leave the group and the rest keep their order. */
  function StepAll(ps: seq<Projectile>, delta: real, area: Rect): (r: seq<Projectile>)
    ensures |r| <= |ps|
    ensures forall q | q in r :: exists p | p in ps :: Step(p, delta, area) == Some(q)
    ensures forall i | 0 <= i < |ps| && Step(ps[i], delta, area).Some? :: Step(ps[i], delta, area).value in r
    decreases |ps|
  {
    if ps == [] then [] else StepAll(ps[..|ps| - 1], delta, area) + Survivor(Step(ps[|ps| - 1], delta, area))
  }

  /** A group of one is that projectile's survivor; with StepAllAppend this fixes the whole pass. */
  lemma StepAllSingle(p: Projectile, delta: real, area: Rect)
    ensures StepAll([p], delta, area) == Survivor(Step(p, delta, area))
  {
    assert [p][..0] == [];
  }

  /** Stepping one more projectile of the group adds its survivor at the end. */
  lemma StepAllPrefix(ps: seq<Projectile>, i: nat, delta: real, area: Rect)
    requires i < |ps|
    ensures StepAll(ps[..i + 1], delta, area) == StepAll(ps[..i], delta, area) + Survivor(Step(ps[i], delta, area))
  {
    assert ps[..i + 1][..i] == ps[..i];
  }

  /** Overwriting the element after a prefix. */
  lemma ReplaceAfter<T>(done: seq<T>, x: T, rest: seq<T>, y: T)
    ensures (done + [x] + rest)[|done| := y] == done + [y] + rest
  {
  }

  /** Cutting out the element after a prefix. */
  lemma RemoveAfter<T>(done: seq<T>, x: T, rest: seq<T>)
    ensures var s := done + [x] + rest; s[..|done|] + s[|done| + 1..] == done + rest
  {
    var s := done + [x] + rest;
    assert s[..|done|] == done;
    assert s[|done| + 1..] == rest;
  }

  /** One turn of the projectile loop done in place: with the first `i` projectiles of `group`
      stepped and the rest untouched, overwriting the next one with its survivor, or cutting it
      out when it is destroyed, leaves the first `i + 1` stepped. */
  lemma StepInPlace(group: seq<Projectile>, i: nat, done: seq<Projectile>, delta: real, area: Rect)
    requires i < |group| && done == StepAll(group[..i], delta, area)
    ensures var ps, next := done + group[i..], Step(group[i], delta, area);
      && |done| < |ps|
      && (next.Some? ==> ps[|done| := next.value] == StepAll(group[..i + 1], delta, area) + group[i + 1..])
      && (next.None? ==> ps[..|done|] + ps[|done| + 1..] == StepAll(group[..i + 1], delta, area) + group[i + 1..])
  {
    var next := Step(group[i], delta, area);
    StepAllPrefix(group, i, delta, area);
    assert group[i..] == [group[i]] + group[i + 1..];
    assert done + group[i..] == done + [group[i]] + group[i + 1..];
    if next.Some? {
      ReplaceAfter(done, group[i], group[i + 1..], next.value);
      assert done + Survivor(next) + group[i + 1..] == done + [next.value] + group[i + 1..];
    } else {
      RemoveAfter(done, group[i], group[i + 1..]);
      assert done + Survivor(next) == done;
    }
  }

  /** The loop treats projectiles independently: stepping a group is stepping its parts. */
  lemma {:induction false} StepAllAppend(a: seq<Projectile>, b: seq<Projectile>, delta: real, area: Rect)
    ensures StepAll(a + b, delta, area) == StepAll(a, delta, area) + StepAll(b, delta, area)
    decreases |b|
  {
    if b == [] {
      assert a + b == a;
    } else {
      var c := b[..|b| - 1];
      assert (a + b)[..|a + b| - 1] == a + c;
      assert (a + b)[|a + b| - 1] == b[|b| - 1];
      StepAllAppend(a, c, delta, area);
    }
  }

  /** A projectile as the projectile loop leaves it: a rocket inside the rocket bounds, an axe
      holding a lifespan in (0, 700]. */
  predicate Settled(p: Projectile, area: Rect)
  {
    && LifespanInRange(p)
    && (p.weapon == Rocket ==> InRocketBounds(p.pos, area))
    && (p.weapon == Axe ==> p.lifespan.Some?)
  }

  /** With a non-negative frame time, a pass over projectiles whose lifespans are in range leaves
      only settled ones. */
  lemma {:induction false} StepAllSettled(ps: seq<Projectile>, delta: real, area: Rect)
    requires delta >= 0.0
    requires forall p | p in ps :: LifespanInRange(p)
    ensures forall q | q in StepAll(ps, delta, area) :: Settled(q, area)
    decreases |ps|
  {
    if ps != [] {
      var last := ps[|ps| - 1];
      assert last in ps;
      StepAllSettled(ps[..|ps| - 1], delta, area);
      if last.weapon == Axe {
        AxeLifespanStaysInRange(last, delta, area);
      }
    }
  }

  /** Sum of frame times. */
  function Sum(ds: seq<real>): real
  {
    if ds == [] then 0.0 else ds[0] + Sum(ds[1..])
  }

  /** One projectile followed over several frames; `None` once destroyed. */
  function Age(o: Option<Projectile>, ds: seq<real>, area: Rect): Option<Projectile>
    decreases |ds|
  {
    if ds == [] || o.None? then o else Age(Step(o.value, ds[0], area), ds[1..], area)
  }

  lemma SumPrefixSplit(ds: seq<real>, k: nat)
    requires 1 <= k <= |ds|
    ensures Sum(ds[..k]) == ds[0] + Sum(ds[1..][..k - 1])
  {
    assert ds[..k][1..] == ds[1..][..k - 1];
  }

  /** An axe with `life` ms left survives frames adding up to less than that, and then holds
      exactly what is left. */
  lemma {:induction false} AxeSurvivesWithinLifespan(p: Projectile, ds: seq<real>, area: Rect)
    requires p.weapon == Axe && p.lifespan.Some?
    requires forall i | 0 <= i < |ds| :: ds[i] >= 0.0
    requires Sum(ds) < p.lifespan.value
    ensures Age(Some(p), ds, area).Some?
    ensures Age(Some(p), ds, area).value.lifespan == Some(p.lifespan.value - Sum(ds))
    decreases |ds|
  {
    if ds != [] {
      var rest := ds[1..];
      assert forall i | 0 <= i < |rest| :: rest[i] == ds[i + 1];
      assert Sum(rest) >= 0.0 by { SumNonNegative(rest); }
      AxeSurvivesWithinLifespan(Step(p, ds[0], area).value, rest, area);
    }
  }

  lemma {:induction false} SumNonNegative(ds: seq<real>)
    requires forall i | 0 <= i < |ds| :: ds[i] >= 0.0
    ensures Sum(ds) >= 0.0
    decreases |ds|
  {
    if ds != [] {
      var rest := ds[1..];
      assert forall i | 0 <= i < |rest| :: rest[i] == ds[i + 1];
      SumNonNegative(rest);
    }
  }

  /** An axe with `life` ms left is destroyed once the frames add up to more than that, provided
      no earlier frame lands the countdown exactly on 0 (which would restart it). */
  lemma {:induction false} AxeRetiredAfterLifespan(p: Projectile, ds: seq<real>, area: Rect)
    requires p.weapon == Axe && p.lifespan.Some? && p.lifespan.value > 0.0
    requires forall k | 1 <= k <= |ds| :: Sum(ds[..k]) != p.lifespan.value
    requires Sum(ds) > p.lifespan.value
    ensures Age(Some(p), ds, area).None?
    decreases |ds|
  {
    var life := p.lifespan.value;
    assert ds != [] by { assert Sum([]) == 0.0; }
    assert ds[..1] == [ds[0]];
    assert Sum(ds[..1]) == ds[0];
    var rest := ds[1..];
    var next := Step(p, ds[0], area);
    if life - ds[0] < 0.0 {
      AgeOfDestroyed(rest, area);
    } else {
      forall k | 1 <= k <= |rest|
        ensures Sum(rest[..k]) != life - ds[0]
      {
        SumPrefixSplit(ds, k + 1);
        assert ds[1..][..k] == rest[..k];
      }
      AxeRetiredAfterLifespan(next.value, rest, area);
    }
  }

  /** A launched axe takes its 700 ms lifespan on its first frame and then survives the frames
      after it while they add up to less than 700, holding exactly what is left. */
  lemma LaunchedAxeSurvives(at: Vec, heading: Heading, id: real, first: real, ds: seq<real>, area: Rect)
    requires forall i | 0 <= i < |ds| :: ds[i] >= 0.0
    requires Sum(ds) < AxeLifespan
    ensures Age(Some(Launch(at, Axe, heading, id)), [first] + ds, area).Some?
    ensures Age(Some(Launch(at, Axe, heading, id)), [first] + ds, area).value.lifespan == Some(AxeLifespan - Sum(ds))
  {
    var p := Launch(at, Axe, heading, id);
    assert ([first] + ds)[1..] == ds;
    AxeSurvivesWithinLifespan(Step(p, first, area).value, ds, area);
  }

  /** A launched axe is destroyed once the frames after its first add up to more than 700 ms,
      provided no prefix of them lands exactly on 700. */
  lemma LaunchedAxeRetired(at: Vec, heading: Heading, id: real, first: real, ds: seq<real>, area: Rect)
    requires forall k | 1 <= k <= |ds| :: Sum(ds[..k]) != AxeLifespan
    requires Sum(ds) > AxeLifespan
    ensures Age(Some(Launch(at, Axe, heading, id)), [first] + ds, area).None?
  {
    var p := Launch(at, Axe, heading, id);
    assert ([first] + ds)[1..] == ds;
    AxeRetiredAfterLifespan(Step(p, first, area).value, ds, area);
  }

  lemma {:induction false} AgeOfDestroyed(ds: seq<real>, area: Rect)
    ensures Age(None, ds, area).None?
  {
  }

  /** A pending one-shot timer event: its delay and the running time it has accumulated. */
  datatype Timer = Timer(delay: Ext, elapsed: real)

  /** The re-arm delay `1000 / attackSpeed` in ms (`1000 / 0` is `Infinity`: it never fires). */
  function CooldownDelay(attackSpeed: real): (d: Ext)
    ensures attackSpeed > 0.0 ==> d.Finite? && d.value > 0.0 && d.value * attackSpeed == 1000.0
    ensures d.Infinite? <==> attackSpeed == 0.0
  {
    if attackSpeed == 0.0 then Infinite else Finite(1000.0 / attackSpeed)
  }

  /** One clock update of a pending event: it adds the frame time and fires (`None`) once the
      accumulated time reaches the delay. */
  function AdvanceTimer(t: Timer, delta: real): (r: Option<Timer>)
    ensures r.None? <==> AtLeast(t.elapsed + delta, t.delay)
    ensures r.Some? ==> r.value.delay == t.delay && r.value.elapsed == t.elapsed + delta
  {
    if AtLeast(t.elapsed + delta, t.delay) then None else Some(Timer(t.delay, t.elapsed + delta))
  }

  /** A pending event followed over several frames; `None` once it has fired. */
  function RunTimer(o: Option<Timer>, ds: seq<real>): Option<Timer>
    decreases |ds|
  {
    if ds == [] || o.None? then o else RunTimer(AdvanceTimer(o.value, ds[0]), ds[1..])
  }

  /** Over frames of non-negative length, an event that has not yet reached its delay has fired
      exactly when the frames add up to it: never earlier, never later. */
  lemma {:induction false} TimerFiresIffDelayReached(t: Timer, ds: seq<real>)
    requires !AtLeast(t.elapsed, t.delay)
    requires forall i | 0 <= i < |ds| :: ds[i] >= 0.0
    ensures RunTimer(Some(t), ds).None? <==> AtLeast(t.elapsed + Sum(ds), t.delay)
    ensures RunTimer(Some(t), ds).Some? ==> RunTimer(Some(t), ds).value == Timer(t.delay, t.elapsed + Sum(ds))
    decreases |ds|
  {
    if ds != [] {
      var rest := ds[1..];
      assert forall i | 0 <= i < |rest| :: rest[i] == ds[i + 1];
      SumNonNegative(rest);
      assert Sum(ds) == ds[0] + Sum(rest);
      match AdvanceTimer(t, ds[0])
      case None =>
        assert RunTimer(Some(t), ds) == RunTimer(None, rest);
        RunTimerOfFired(rest);
        assert AtLeast(t.elapsed + ds[0], t.delay);
        assert AtLeast(t.elapsed + Sum(ds), t.delay);
      case Some(next) =>
        assert RunTimer(Some(t), ds) == RunTimer(Some(next), rest);
        TimerFiresIffDelayReached(next, rest);
        assert next.elapsed + Sum(rest) == t.elapsed + Sum(ds);
    }
  }

  lemma {:induction false} RunTimerOfFired(ds: seq<real>)
    ensures RunTimer(None, ds).None?
  {
  }
}
