/** The pure parts of the per-frame simulation of src/components/GameEngine.tsx:
    the constants, what happens to one entity in one step, and the functions
    that describe what a whole `forEach` pass leaves behind. The engine's
    methods (game_engine.dfy) are proved against these. */
module Simulation {
  import opened Types
  import opened Geometry
  import opened Difficulty
  import opened App

  /** Nominal frame time: motion per frame is speed * dt / FrameMs. */
  const FrameMs: real := 16.6
  const MissileSpeed: real := 0.015
  const ScorePerKill: int := 20
  const WinScore: int := 1000
  const LossBatteries: nat := 3
  /** A site within this x-distance of an impact is destroyed. */
  const SiteTolerance: real := 0.04
  /** A click within this distance of a trajectory intercepts the rocket. */
  const ClickRadius: real := 0.05
  const ImpactRadius: real := 0.06
  const DetonationRadius: real := 0.12
  const ClickBlastRadius: real := 0.15
  const GrowthRate: real := 0.003
  const ShrinkRate: real := 0.002
  /** The progress value that marks a rocket dead until the next filter. */
  const DeadProgress: real := 2.0

  // ---------------------------------------------------------------- layout

  /** The five batteries of a fresh session, left to right. */
  function InitialBatteries(): seq<Battery>
  {
    [ Battery("B1", 0.05, 0.9, 20, 20, false),
      Battery("B2", 0.25, 0.9, 20, 20, false),
      Battery("B3", 0.5, 0.9, 40, 40, false),
      Battery("B4", 0.75, 0.9, 20, 20, false),
      Battery("B5", 0.95, 0.9, 20, 20, false) ]
  }

  /** The four cities of a fresh session, left to right. */
  function InitialCities(): seq<City>
  {
    [ City("c1", 0.15, 0.9, false),
      City("c2", 0.35, 0.9, false),
      City("c3", 0.65, 0.9, false),
      City("c4", 0.85, 0.9, false) ]
  }

  /** b is the battery b0 of the layout, with whatever ammo and damage. */
  predicate SameBattery(b: Battery, b0: Battery)
  {
    b.id == b0.id && b.x == b0.x && b.y == b0.y && b.maxAmmo == b0.maxAmmo
  }

  predicate SameCity(c: City, c0: City)
  {
    c.id == c0.id && c.x == c0.x && c.y == c0.y
  }

  /** The batteries are those of the layout, each with ammo in [0, maxAmmo]. */
  predicate BatteriesOk(bs: seq<Battery>)
  {
    |bs| == |InitialBatteries()| &&
    forall i :: 0 <= i < |bs| ==>
      SameBattery(bs[i], InitialBatteries()[i]) && 0 <= bs[i].ammo <= bs[i].maxAmmo
  }

  predicate CitiesOk(cs: seq<City>)
  {
    |cs| == |InitialCities()| &&
    forall k :: 0 <= k < |cs| ==> SameCity(cs[k], InitialCities()[k])
  }

  lemma InitialLayoutOk()
    ensures BatteriesOk(InitialBatteries()) && CitiesOk(InitialCities())
    ensures forall b :: b in InitialBatteries() ==> b.ammo == b.maxAmmo && !b.destroyed
    ensures forall c :: c in InitialCities() ==> !c.destroyed
  {
  }

  // ------------------------------------------------------ frame-start filter

  /** The elements of s that keep accepts, in their order. */
  function Filter<T(!new)>(s: seq<T>, keep: T -> bool): (r: seq<T>)
    ensures |r| <= |s|
    ensures forall x :: x in r <==> x in s && keep(x)
  {
    if |s| == 0 then [] else (if keep(s[0]) then [s[0]] else []) + Filter(s[1..], keep)
  }

  /** Rockets that survive the frame-start filter (progress 2 is dropped). */
  predicate RocketKept(r: Rocket) { r.progress <= 1.0 }

  predicate MissileKept(m: Missile) { m.progress < 1.0 }

  predicate ExplosionKept(e: Explosion) { e.radius > 0.0 }

  /** The filter keeps every copy of an accepted element and no copy of another:
      equal entities (the model has no ids) are kept or dropped together. */
  lemma {:induction false} FilterCount<T(!new)>(s: seq<T>, keep: T -> bool)
    ensures forall x :: multiset(Filter(s, keep))[x] == if keep(x) then multiset(s)[x] else 0
  {
    if |s| > 0 {
      FilterCount(s[1..], keep);
      assert s == [s[0]] + s[1..];
    }
  }

  /** Filtering a concatenation filters each part, keeping their order. */
  lemma {:induction false} FilterAppend<T(!new)>(a: seq<T>, b: seq<T>, keep: T -> bool)
    ensures Filter(a + b, keep) == Filter(a, keep) + Filter(b, keep)
  {
    if |a| == 0 {
      assert a + b == b;
    } else {
      var ab := a + b;
      assert ab[0] == a[0] && ab[1..] == a[1..] + b;
      FilterAppend(a[1..], b, keep);
    }
  }

  /** A filter that accepts no element of s keeps nothing. */
  lemma {:induction false} FilterNone<T(!new)>(s: seq<T>, keep: T -> bool)
    requires forall x :: x in s ==> !keep(x)
    ensures Filter(s, keep) == []
  {
    if |s| > 0 {
      assert s[0] in s;
      assert forall x :: x in s[1..] ==> x in s;
      FilterNone(s[1..], keep);
    }
  }

  /** How many nominal frames the elapsed time dt stands for. */
  function SpeedMultiplier(dt: real): real { dt / FrameMs }

  // ----------------------------------------------------------------- rockets

  /** The rocket's position is the point of its trajectory at its progress. */
  predicate RocketOnPath(r: Rocket)
  {
    Point(r.x, r.y) == TrajectoryAt(r.originX, r.targetX, r.progress)
  }

  /** Between frames every rocket is either in flight on its trajectory, or
      marked dead. */
  predicate Settled(r: Rocket)
  {
    (r.progress < 1.0 && RocketOnPath(r)) || r.progress == DeadProgress
  }

  /** One motion step (GameEngine.tsx 239-241). */
  function AdvanceRocket(r: Rocket, mult: real): (r': Rocket)
    ensures RocketOnPath(r')
    ensures r'.originX == r.originX && r'.targetX == r.targetX && r'.speed == r.speed
  {
    var p := r.progress + r.speed * mult;
    r.(progress := p, x := r.originX + (r.targetX - r.originX) * p, y := p * Ground)
  }

  predicate Landed(r: Rocket) { r.progress >= 1.0 }

  /** Mark a rocket dead; its position stays where it was. */
  function Kill(r: Rocket): (r': Rocket)
    ensures Settled(r') && r'.x == r.x && r'.y == r.y
  {
    r.(progress := DeadProgress)
  }

  /** A rocket that reached the ground is marked dead (GameEngine.tsx 243, 265). */
  function Settle(r: Rocket): (r': Rocket)
    ensures RocketOnPath(r) ==> Settled(r')
    ensures r'.x == r.x && r'.y == r.y
  {
    if Landed(r) then Kill(r) else r
  }

  function Advanced(rs: seq<Rocket>, mult: real): seq<Rocket>
  {
    seq(|rs|, i requires 0 <= i < |rs| => AdvanceRocket(rs[i], mult))
  }

  /** The rockets after the motion pass: each advanced, and marked dead if it
      reached the ground. */
  function Landings(rs: seq<Rocket>, mult: real): (rs': seq<Rocket>)
    ensures |rs'| == |rs|
    ensures forall r :: r in rs' ==> Settled(r)
  {
    seq(|rs|, i requires 0 <= i < |rs| => Settle(AdvanceRocket(rs[i], mult)))
  }

  /** A new blast: radius 0, growing towards a positive maximum. */
  predicate FreshBlast(e: Explosion)
  {
    e.radius == 0.0 && e.expanding && 0.0 < e.maxRadius
  }

  /** The blast of a rocket hitting the ground at impactX (GameEngine.tsx 245-252). */
  function ImpactBlast(impactX: real): Explosion
  {
    Explosion(impactX, Ground, 0.0, ImpactRadius, true)
  }

  /** The impact blasts pushed while moving rockets `moved`, in order. */
  function ImpactBlasts(moved: seq<Rocket>): (es: seq<Explosion>)
    ensures |es| <= |moved|
    ensures forall e :: e in es ==> FreshBlast(e) && e.y == Ground && e.maxRadius == ImpactRadius
  {
    if |moved| == 0 then []
    else
      var last := moved[|moved| - 1];
      ImpactBlasts(moved[..|moved| - 1]) + (if Landed(last) then [ImpactBlast(last.targetX)] else [])
  }

  /** A site at x is close enough to an impact at impactX to be destroyed. */
  predicate NearSite(x: real, impactX: real)
  {
    Abs(x - impactX) < SiteTolerance
  }

  /** Some rocket of `moved` landed near x. */
  predicate Struck(x: real, moved: seq<Rocket>)
  {
    |moved| > 0 &&
    (Struck(x, moved[..|moved| - 1]) ||
     (Landed(moved[|moved| - 1]) && NearSite(x, moved[|moved| - 1].targetX)))
  }

  lemma {:induction false} StruckIff(x: real, moved: seq<Rocket>)
    ensures Struck(x, moved) <==>
            exists i :: 0 <= i < |moved| && Landed(moved[i]) && NearSite(x, moved[i].targetX)
  {
    if |moved| > 0 {
      var init := moved[..|moved| - 1];
      StruckIff(x, init);
      assert forall i :: 0 <= i < |init| ==> init[i] == moved[i];
    }
  }

  /** The cities after the motion pass: those some landed rocket hit are destroyed. */
  function StruckCities(cs: seq<City>, moved: seq<Rocket>): seq<City>
  {
    seq(|cs|, k requires 0 <= k < |cs| => if Struck(cs[k].x, moved) then cs[k].(destroyed := true) else cs[k])
  }

  /** The batteries after the motion pass: the same rule as for cities. */
  function StruckBatteries(bs: seq<Battery>, moved: seq<Rocket>): seq<Battery>
  {
    seq(|bs|, k requires 0 <= k < |bs| => if Struck(bs[k].x, moved) then bs[k].(destroyed := true) else bs[k])
  }

  /** Impacts change only destroyed flags, never clear one, and keep the layout. */
  lemma StruckKeepsLayout(bs: seq<Battery>, cs: seq<City>, moved: seq<Rocket>)
    ensures BatteriesOk(bs) ==> BatteriesOk(StruckBatteries(bs, moved))
    ensures CitiesOk(cs) ==> CitiesOk(StruckCities(cs, moved))
    ensures forall k :: 0 <= k < |bs| ==>
              StruckBatteries(bs, moved)[k].ammo == bs[k].ammo &&
              (bs[k].destroyed ==> StruckBatteries(bs, moved)[k].destroyed)
    ensures forall k :: 0 <= k < |cs| ==> cs[k].destroyed ==> StruckCities(cs, moved)[k].destroyed
  {
  }

  /** One more moved rocket extends the impact blasts by its own, if it landed. */
  lemma ImpactBlastsStep(moved: seq<Rocket>, i: nat)
    requires i < |moved|
    ensures ImpactBlasts(moved[..i + 1]) ==
            ImpactBlasts(moved[..i]) + (if Landed(moved[i]) then [ImpactBlast(moved[i].targetX)] else [])
  {
    assert moved[..i + 1][..i] == moved[..i];
  }

  /** One more moved rocket destroys the cities near it, if it landed. */
  lemma StruckCitiesStep(cities: seq<City>, moved: seq<Rocket>, i: nat, cs: seq<City>, cs': seq<City>)
    requires i < |moved|
    requires cs == StruckCities(cities, moved[..i])
    requires |cs'| == |cs|
    requires forall k :: 0 <= k < |cs| ==>
               cs'[k] == if Landed(moved[i]) && NearSite(cs[k].x, moved[i].targetX)
                         then cs[k].(destroyed := true) else cs[k]
    ensures cs' == StruckCities(cities, moved[..i + 1])
  {
    assert moved[..i + 1][..i] == moved[..i];
    var next := StruckCities(cities, moved[..i + 1]);
    forall k | 0 <= k < |cs'|
      ensures cs'[k] == next[k]
    {
    }
  }

  /** The same for batteries. */
  lemma StruckBatteriesStep(batteries: seq<Battery>, moved: seq<Rocket>, i: nat,
                            bs: seq<Battery>, bs': seq<Battery>)
    requires i < |moved|
    requires bs == StruckBatteries(batteries, moved[..i])
    requires |bs'| == |bs|
    requires forall k :: 0 <= k < |bs| ==>
               bs'[k] == if Landed(moved[i]) && NearSite(bs[k].x, moved[i].targetX)
                         then bs[k].(destroyed := true) else bs[k]
    ensures bs' == StruckBatteries(batteries, moved[..i + 1])
  {
    assert moved[..i + 1][..i] == moved[..i];
    var next := StruckBatteries(batteries, moved[..i + 1]);
    forall k | 0 <= k < |bs'|
      ensures bs'[k] == next[k]
    {
    }
  }

  // ---------------------------------------------------------------- missiles

  /** The missile's position interpolates its origin and target at its progress. */
  predicate MissileOnPath(m: Missile)
  {
    m.x == Lerp(m.originX, m.targetX, m.progress) && m.y == Lerp(m.originY, m.targetY, m.progress)
  }

  /** One motion step (GameEngine.tsx 270-272). */
  function AdvanceMissile(m: Missile, mult: real): (m': Missile)
    ensures MissileOnPath(m')
    ensures m'.originX == m.originX && m'.originY == m.originY
    ensures m'.targetX == m.targetX && m'.targetY == m.targetY && m'.speed == m.speed
  {
    var p := m.progress + m.speed * mult;
    m.(progress := p,
       x := m.originX + (m.targetX - m.originX) * p,
       y := m.originY + (m.targetY - m.originY) * p)
  }

  function AdvancedMissiles(ms: seq<Missile>, mult: real): (ms': seq<Missile>)
    ensures |ms'| == |ms|
    ensures forall m :: m in ms' ==> MissileOnPath(m)
  {
    seq(|ms|, i requires 0 <= i < |ms| => AdvanceMissile(ms[i], mult))
  }

  predicate Arrived(m: Missile) { m.progress >= 1.0 }

  /** The blast of a missile reaching the clicked point (GameEngine.tsx 276-283). */
  function DetonationBlast(m: Missile): Explosion
  {
    Explosion(m.targetX, m.targetY, 0.0, DetonationRadius, true)
  }

  /** The detonation blasts pushed while moving missiles `moved`, in order. */
  function DetonationBlasts(moved: seq<Missile>): (es: seq<Explosion>)
    ensures |es| <= |moved|
    ensures forall e :: e in es ==> FreshBlast(e) && e.maxRadius == DetonationRadius
  {
    if |moved| == 0 then []
    else
      var last := moved[|moved| - 1];
      DetonationBlasts(moved[..|moved| - 1]) + (if Arrived(last) then [DetonationBlast(last)] else [])
  }

  // -------------------------------------------------------------- explosions

  /** The invariant an explosion keeps: a positive maximum, and a radius that is
      never negative once it shrinks. */
  predicate BlastOk(e: Explosion)
  {
    0.0 < e.maxRadius && (!e.expanding ==> 0.0 <= e.radius)
  }

  /** One growth or shrink step (GameEngine.tsx 288-293). */
  function GrowExplosion(e: Explosion, mult: real): (e': Explosion)
    ensures e'.x == e.x && e'.y == e.y && e'.maxRadius == e.maxRadius
    ensures e.expanding ==> e'.radius == e.radius + GrowthRate * mult &&
                            (e'.expanding <==> e'.radius < e.maxRadius)
    ensures !e.expanding ==> !e'.expanding && 0.0 <= e'.radius
    ensures !e.expanding && 0.0 <= mult ==> e'.radius <= Max(0.0, e.radius)
    ensures BlastOk(e) ==> BlastOk(e')
  {
    if e.expanding then
      var r := e.radius + GrowthRate * mult;
      e.(radius := r, expanding := !(r >= e.maxRadius))
    else
      e.(radius := Max(0.0, e.radius - ShrinkRate * mult))
  }

  function Grown(es: seq<Explosion>, mult: real): seq<Explosion>
  {
    seq(|es|, i requires 0 <= i < |es| => GrowExplosion(es[i], mult))
  }

  /** The rocket's position lies strictly inside the blast (GameEngine.tsx 296-299,
      with the square root compared squared; see SquaredComparison). */
  predicate BlastHits(e: Explosion, r: Rocket)
  {
    0.0 < e.radius && DistSq(Point(r.x, r.y), Point(e.x, e.y)) < e.radius * e.radius
  }

  /** The number of rockets of rs inside blast e. */
  function CountHits(e: Explosion, rs: seq<Rocket>): (n: nat)
    ensures n <= |rs|
  {
    if |rs| == 0 then 0
    else CountHits(e, rs[..|rs| - 1]) + (if BlastHits(e, rs[|rs| - 1]) then 1 else 0)
  }

  /** The number of (explosion, rocket) pairs in which the rocket is inside the
      explosion: each one is worth ScorePerKill. */
  function PairHits(es: seq<Explosion>, rs: seq<Rocket>): nat
  {
    if |es| == 0 then 0
    else PairHits(es[..|es| - 1], rs) + CountHits(es[|es| - 1], rs)
  }

  /** Some blast of es contains rocket r. */
  predicate HitByAny(es: seq<Explosion>, r: Rocket)
  {
    |es| > 0 && (HitByAny(es[..|es| - 1], r) || BlastHits(es[|es| - 1], r))
  }

  /** The rockets after the blast pass: every rocket inside some blast is
      marked dead, whatever its progress was. */
  function Blasted(es: seq<Explosion>, rs: seq<Rocket>): seq<Rocket>
  {
    seq(|rs|, j requires 0 <= j < |rs| => if HitByAny(es, rs[j]) then Kill(rs[j]) else rs[j])
  }

  /** Growing keeps every blast well formed. */
  lemma GrownOk(es: seq<Explosion>, mult: real)
    requires forall e :: e in es ==> BlastOk(e)
    ensures |Grown(es, mult)| == |es|
    ensures forall e :: e in Grown(es, mult) ==> BlastOk(e)
  {
    forall e | e in Grown(es, mult)
      ensures BlastOk(e)
    {
      var i :| 0 <= i < |es| && Grown(es, mult)[i] == e;
      assert es[i] in es;
    }
  }

  /** Marking rockets dead keeps every rocket settled. */
  lemma BlastedSettled(es: seq<Explosion>, rs: seq<Rocket>)
    requires forall r :: r in rs ==> Settled(r)
    ensures |Blasted(es, rs)| == |rs|
    ensures forall r :: r in Blasted(es, rs) ==> Settled(r)
  {
    forall r | r in Blasted(es, rs)
      ensures Settled(r)
    {
      var j :| 0 <= j < |rs| && Blasted(es, rs)[j] == r;
      assert rs[j] in rs;
    }
  }

  /** The score, entity lists and sites the per-frame passes work on. */
  datatype Frame = Frame(score: int, rockets: seq<Rocket>, missiles: seq<Missile>,
                         explosions: seq<Explosion>, cities: seq<City>, batteries: seq<Battery>)

  /** What holds of the entity state between frames: the score is a
      non-negative multiple of ScorePerKill, the sites keep their layout and
      ammo bounds, every rocket is settled, every missile is on its path and
      every blast is well formed. */
  predicate FrameOk(f: Frame)
  {
    0 <= f.score && f.score % ScorePerKill == 0 &&
    BatteriesOk(f.batteries) && CitiesOk(f.cities) &&
    (forall r :: r in f.rockets ==> Settled(r)) &&
    (forall m :: m in f.missiles ==> MissileOnPath(m)) &&
    (forall e :: e in f.explosions ==> BlastOk(e))
  }

  /** What the motion passes need of the frame they start from: rockets and
      missiles may be anything, as a rocket just spawned is off its path. */
  predicate MotionReady(f: Frame)
  {
    0 <= f.score && f.score % ScorePerKill == 0 &&
    BatteriesOk(f.batteries) && CitiesOk(f.cities) &&
    (forall e :: e in f.explosions ==> BlastOk(e))
  }

  /** No site is restored and no battery's ammo changes. */
  predicate SitesKept(bs0: seq<Battery>, cs0: seq<City>, bs: seq<Battery>, cs: seq<City>)
  {
    |bs| == |bs0| && |cs| == |cs0| &&
    (forall k :: 0 <= k < |bs| ==> bs[k].ammo == bs0[k].ammo && (bs0[k].destroyed ==> bs[k].destroyed)) &&
    (forall k :: 0 <= k < |cs| ==> cs0[k].destroyed ==> cs[k].destroyed)
  }

  /** What the three motion passes of a frame (GameEngine.tsx 238-305) make of
      the lists they start from: every rocket moved, settled and then marked
      dead if some blast contains it; every missile moved; the impact and then
      the detonation blasts appended and every blast grown; the sites near a
      landed rocket destroyed; and 20 points per (blast, rocket) pair. */
  function Motion(f: Frame, mult: real): Frame
  {
    var moved := Advanced(f.rockets, mult);
    var missiles := AdvancedMissiles(f.missiles, mult);
    var grown := Grown(f.explosions + ImpactBlasts(moved) + DetonationBlasts(missiles), mult);
    var landed := Landings(f.rockets, mult);
    Frame(f.score + ScorePerKill * PairHits(grown, landed), Blasted(grown, landed), missiles, grown,
          StruckCities(f.cities, moved), StruckBatteries(f.batteries, moved))
  }

  /** The three motion passes of a frame (rockets, missiles, blasts) restore
      FrameOk, whatever the rockets and missiles were before (a just-spawned
      rocket off its path is settled afterwards); they restore no site, leave
      the ammo alone and add whole kills to the score. */
  lemma MotionKeepsFrameOk(f: Frame, mult: real)
    requires MotionReady(f)
    ensures FrameOk(Motion(f, mult))
    ensures SitesKept(f.batteries, f.cities, Motion(f, mult).batteries, Motion(f, mult).cities)
    ensures f.score <= Motion(f, mult).score && (Motion(f, mult).score - f.score) % ScorePerKill == 0
  {
    var moved := Advanced(f.rockets, mult);
    var ms := AdvancedMissiles(f.missiles, mult);
    var pre := f.explosions + ImpactBlasts(moved) + DetonationBlasts(ms);
    var rs := Landings(f.rockets, mult);
    StruckKeepsLayout(f.batteries, f.cities, moved);
    AppendFreshOk(f.explosions, ImpactBlasts(moved));
    AppendFreshOk(f.explosions + ImpactBlasts(moved), DetonationBlasts(ms));
    GrownOk(pre, mult);
    BlastedSettled(Grown(pre, mult), rs);
    ScoreSteps(f.score, PairHits(Grown(pre, mult), rs));
    DifferenceSteps(f.score, Motion(f, mult).score);
  }

  /** A whole frame, from the frame-start filter and the spawn step through the
      three motion passes, keeps FrameOk, restores no site, leaves the ammo
      alone and adds whole kills to the score. */
  lemma FrameKeepsFrameOk(f: Frame, time: real, lastSpawn: real, interval: real, pick: real,
                          x: real, originX: real, mult: real)
    requires 0.0 <= pick < 1.0 && FrameOk(f)
    ensures var g := Motion(StartFrame(f, time, lastSpawn, interval, pick, x, originX), mult);
            FrameOk(g) && SitesKept(f.batteries, f.cities, g.batteries, g.cities) &&
            f.score <= g.score && (g.score - f.score) % ScorePerKill == 0
  {
    MotionKeepsFrameOk(StartFrame(f, time, lastSpawn, interval, pick, x, originX), mult);
  }

  /** Appending fresh blasts keeps every blast well formed. */
  lemma AppendFreshOk(es: seq<Explosion>, added: seq<Explosion>)
    requires forall e :: e in es ==> BlastOk(e)
    requires forall e :: e in added ==> FreshBlast(e)
    ensures forall e :: e in es + added ==> BlastOk(e)
  {
  }

  /** One more rocket extends the count by one exactly when the blast contains it. */
  lemma CountHitsStep(e: Explosion, rs: seq<Rocket>, j: nat)
    requires j < |rs|
    ensures CountHits(e, rs[..j + 1]) == CountHits(e, rs[..j]) + (if BlastHits(e, rs[j]) then 1 else 0)
  {
    assert rs[..j + 1][..j] == rs[..j];
  }

  /** Whether a blast contains a rocket depends only on the rocket's position. */
  lemma {:induction false} CountHitsByPosition(e: Explosion, rs: seq<Rocket>, rs': seq<Rocket>)
    requires |rs| == |rs'|
    requires forall j :: 0 <= j < |rs| ==> rs[j].x == rs'[j].x && rs[j].y == rs'[j].y
    ensures CountHits(e, rs) == CountHits(e, rs')
  {
    if |rs| > 0 {
      CountHitsByPosition(e, rs[..|rs| - 1], rs'[..|rs| - 1]);
    }
  }

  /** Marking the rockets inside one more blast extends Blasted by that blast. */
  lemma BlastedStep(es: seq<Explosion>, i: nat, rockets: seq<Rocket>, rs: seq<Rocket>, rs': seq<Rocket>)
    requires i < |es|
    requires rs == Blasted(es[..i], rockets)
    requires |rs'| == |rs|
    requires forall j :: 0 <= j < |rs| ==> rs'[j] == if BlastHits(es[i], rs[j]) then Kill(rs[j]) else rs[j]
    ensures rs' == Blasted(es[..i + 1], rockets)
    ensures PairHits(es[..i + 1], rockets) == PairHits(es[..i], rockets) + CountHits(es[i], rs)
  {
    assert es[..i + 1][..i] == es[..i];
    var next := Blasted(es[..i + 1], rockets);
    forall j | 0 <= j < |rs'|
      ensures rs'[j] == next[j]
    {
    }
    CountHitsByPosition(es[i], rs, rockets);
  }

  lemma {:induction false} HitByAnyIff(es: seq<Explosion>, r: Rocket)
    ensures HitByAny(es, r) <==> exists k :: 0 <= k < |es| && BlastHits(es[k], r)
  {
    if |es| > 0 {
      var init := es[..|es| - 1];
      HitByAnyIff(init, r);
      assert forall k :: 0 <= k < |init| ==> init[k] == es[k];
    }
  }

  /** A rocket leaves the blast pass marked dead exactly when some blast of the
      pass contains it or it was already marked dead, for instance by landing
      in the rocket pass of the same frame. */
  lemma BlastedDeadIff(es: seq<Explosion>, rs: seq<Rocket>, j: nat)
    requires j < |rs|
    ensures |Blasted(es, rs)| == |rs|
    ensures Blasted(es, rs)[j].progress == DeadProgress <==>
              (exists k :: 0 <= k < |es| && BlastHits(es[k], rs[j])) || rs[j].progress == DeadProgress
  {
    HitByAnyIff(es, rs[j]);
  }

  lemma {:induction false} CountHitsZeroIff(e: Explosion, rs: seq<Rocket>)
    ensures CountHits(e, rs) == 0 <==> forall j :: 0 <= j < |rs| ==> !BlastHits(e, rs[j])
  {
    if |rs| > 0 {
      var init := rs[..|rs| - 1];
      CountHitsZeroIff(e, init);
      assert forall j :: 0 <= j < |init| ==> init[j] == rs[j];
    }
  }

  /** No pair scores exactly when no rocket lies inside any blast. */
  lemma {:induction false} PairHitsZeroIff(es: seq<Explosion>, rs: seq<Rocket>)
    ensures PairHits(es, rs) == 0 <==> forall j :: 0 <= j < |rs| ==> !HitByAny(es, rs[j])
  {
    if |es| > 0 {
      var init := es[..|es| - 1];
      PairHitsZeroIff(init, rs);
      CountHitsZeroIff(es[|es| - 1], rs);
    }
  }

  /** A rocket inside two blasts is scored for each of them. */
  lemma {:induction false} PairHitsCountEveryBlast(es: seq<Explosion>, rs: seq<Rocket>, k: nat)
    requires k < |es|
    ensures CountHits(es[k], rs) <= PairHits(es, rs)
    ensures forall k' :: 0 <= k' < k ==> CountHits(es[k'], rs) + CountHits(es[k], rs) <= PairHits(es, rs)
  {
    var init := es[..|es| - 1];
    if k < |es| - 1 {
      PairHitsCountEveryBlast(init, rs, k);
      assert init[k] == es[k];
      assert forall k' :: 0 <= k' < k ==> init[k'] == es[k'];
    } else if k > 0 {
      forall k' | 0 <= k' < k
        ensures CountHits(es[k'], rs) + CountHits(es[k], rs) <= PairHits(es, rs)
      {
        PairHitsCountEveryBlast(init, rs, k');
        assert init[k'] == es[k'];
      }
    }
  }

  // ------------------------------------------------------ click interception

  /** The click p is within ClickRadius of the rocket's whole trajectory
      (GameEngine.tsx 126-156); it looks at the trajectory, not at the rocket's
      current position or progress. */
  predicate ClickHits(p: Point, r: Rocket)
  {
    DistSq(p, NearestOnTrajectory(p, r.originX, r.targetX)) < ClickRadius * ClickRadius
  }

  lemma ClickHitsIff(p: Point, r: Rocket)
    ensures ClickHits(p, r) <==>
            exists t :: 0.0 <= t <= 1.0 &&
                        DistSq(p, TrajectoryAt(r.originX, r.targetX, t)) < ClickRadius * ClickRadius
  {
    NearTrajectoryIff(p, r.originX, r.targetX, ClickRadius * ClickRadius);
  }

  /** The blast an interception spawns, at the projected point rather than at
      the click (GameEngine.tsx 163-170). */
  function ClickBlast(p: Point, r: Rocket): (e: Explosion)
    ensures FreshBlast(e) && e.maxRadius == ClickBlastRadius
    ensures Point(e.x, e.y) == TrajectoryAt(r.originX, r.targetX, NearestParam(p, r.originX, r.targetX))
  {
    var q := NearestOnTrajectory(p, r.originX, r.targetX);
    Explosion(q.x, q.y, 0.0, ClickBlastRadius, true)
  }

  function ClickBlasts(p: Point, rs: seq<Rocket>): (es: seq<Explosion>)
    ensures |es| == CountClickHits(p, rs)
    ensures forall e :: e in es ==> FreshBlast(e) && e.maxRadius == ClickBlastRadius
  {
    if |rs| == 0 then []
    else
      var last := rs[|rs| - 1];
      ClickBlasts(p, rs[..|rs| - 1]) + (if ClickHits(p, last) then [ClickBlast(p, last)] else [])
  }

  function CountClickHits(p: Point, rs: seq<Rocket>): (n: nat)
    ensures n <= |rs|
  {
    if |rs| == 0 then 0
    else CountClickHits(p, rs[..|rs| - 1]) + (if ClickHits(p, rs[|rs| - 1]) then 1 else 0)
  }

  /** One more rocket extends the click's count and blasts by its own, if hit. */
  lemma ClickStep(p: Point, rs: seq<Rocket>, j: nat)
    requires j < |rs|
    ensures CountClickHits(p, rs[..j + 1]) == CountClickHits(p, rs[..j]) + (if ClickHits(p, rs[j]) then 1 else 0)
    ensures ClickBlasts(p, rs[..j + 1]) == ClickBlasts(p, rs[..j]) + (if ClickHits(p, rs[j]) then [ClickBlast(p, rs[j])] else [])
  {
    assert rs[..j + 1][..j] == rs[..j];
  }

  /** Adding whole kills keeps the score a non-negative multiple of ScorePerKill. */
  lemma ScoreSteps(score: int, n: nat)
    requires 0 <= score && score % ScorePerKill == 0
    ensures 0 <= score + ScorePerKill * n && (score + ScorePerKill * n) % ScorePerKill == 0
  {
  }

  /** Two scores that are multiples of ScorePerKill differ by a multiple of it. */
  lemma DifferenceSteps(a: int, b: int)
    requires a % ScorePerKill == 0 && b % ScorePerKill == 0
    ensures (b - a) % ScorePerKill == 0
  {
  }

  /** The rockets after a click: every one whose trajectory is near the click
      is marked dead, dead or not already. */
  function Intercepted(p: Point, rs: seq<Rocket>): (rs': seq<Rocket>)
    ensures |rs'| == |rs|
  {
    seq(|rs|, j requires 0 <= j < |rs| => if ClickHits(p, rs[j]) then Kill(rs[j]) else rs[j])
  }

  /** A click keeps the score a non-negative multiple of ScorePerKill, every
      rocket settled and every blast well formed. */
  lemma ClickKeepsFrameOk(p: Point, score: int, rockets: seq<Rocket>, explosions: seq<Explosion>)
    requires 0 <= score && score % ScorePerKill == 0
    requires forall r :: r in rockets ==> Settled(r)
    requires forall e :: e in explosions ==> BlastOk(e)
    ensures var s := score + ScorePerKill * CountClickHits(p, rockets);
            0 <= s && s % ScorePerKill == 0
    ensures forall r :: r in Intercepted(p, rockets) ==> Settled(r)
    ensures forall e :: e in explosions + ClickBlasts(p, rockets) ==> BlastOk(e)
  {
    ScoreSteps(score, CountClickHits(p, rockets));
    forall r | r in Intercepted(p, rockets)
      ensures Settled(r)
    {
      var j :| 0 <= j < |rockets| && Intercepted(p, rockets)[j] == r;
      assert rockets[j] in rockets;
    }
  }

  /** Every click blast starts at radius 0, and the next frame's filter
      (GameEngine.tsx 205) drops blasts of radius 0 before any grows: the blasts
      that frame keeps are exactly those it would keep had the click missed, so
      a click blast is never drawn and never scores. */
  lemma ClickBlastsFiltered(p: Point, rs: seq<Rocket>, es: seq<Explosion>)
    ensures Filter(es + ClickBlasts(p, rs), ExplosionKept) == Filter(es, ExplosionKept)
    ensures forall e :: e in ClickBlasts(p, rs) ==> e !in Filter(es + ClickBlasts(p, rs), ExplosionKept)
  {
    FilterAppend(es, ClickBlasts(p, rs), ExplosionKept);
    FilterNone(ClickBlasts(p, rs), ExplosionKept);
  }

  // ------------------------------------------------------------------ spawns

  /** The x position and destroyed flag of every city, in order. */
  function CitySites(cs: seq<City>): (sites: seq<(real, bool)>)
    ensures |sites| == |cs|
    ensures forall k :: 0 <= k < |cs| ==> sites[k].0 == cs[k].x && sites[k].1 == cs[k].destroyed
  {
    seq(|cs|, k requires 0 <= k < |cs| => (cs[k].x, cs[k].destroyed))
  }

  /** The x position and destroyed flag of every battery, in order. */
  function BatterySites(bs: seq<Battery>): (sites: seq<(real, bool)>)
    ensures |sites| == |bs|
    ensures forall k :: 0 <= k < |bs| ==> sites[k].0 == bs[k].x && sites[k].1 == bs[k].destroyed
  {
    seq(|bs|, k requires 0 <= k < |bs| => (bs[k].x, bs[k].destroyed))
  }

  /** The x positions of the sites still standing, in order (the
      `filter(c => !c.destroyed)` of GameEngine.tsx 221). */
  function LiveXs(sites: seq<(real, bool)>): (xs: seq<real>)
    ensures |xs| <= |sites|
    ensures forall x :: x in xs <==> exists k :: 0 <= k < |sites| && !sites[k].1 && sites[k].0 == x
  {
    if |sites| == 0 then []
    else (if sites[0].1 then [] else [sites[0].0]) + LiveXs(sites[1..])
  }

  /** The aim points a new rocket may be given: live cities, then live
      batteries (GameEngine.tsx 221). */
  function SpawnTargets(cs: seq<City>, bs: seq<Battery>): seq<real>
  {
    LiveXs(CitySites(cs)) + LiveXs(BatterySites(bs))
  }

  /** Every spawn target is the x of a standing site, and there is none exactly
      when every site is destroyed. */
  lemma SpawnTargetsIff(cs: seq<City>, bs: seq<Battery>)
    ensures forall x :: x in SpawnTargets(cs, bs) <==>
              (exists k :: 0 <= k < |cs| && !cs[k].destroyed && cs[k].x == x) ||
              (exists k :: 0 <= k < |bs| && !bs[k].destroyed && bs[k].x == x)
    ensures |SpawnTargets(cs, bs)| == 0 <==>
              (forall k :: 0 <= k < |cs| ==> cs[k].destroyed) && (forall k :: 0 <= k < |bs| ==> bs[k].destroyed)
  {
    var xs := SpawnTargets(cs, bs);
    if exists k :: 0 <= k < |cs| && !cs[k].destroyed {
      var k :| 0 <= k < |cs| && !cs[k].destroyed;
      assert cs[k].x in xs;
    }
    if exists k :: 0 <= k < |bs| && !bs[k].destroyed {
      var k :| 0 <= k < |bs| && !bs[k].destroyed;
      assert bs[k].x in xs;
    }
    if |xs| > 0 {
      assert xs[0] in xs;
    }
  }

  /** The index `Math.floor(pick * n)` chosen by a draw pick in [0, 1). */
  function SpawnIndex(pick: real, n: nat): (i: nat)
    requires 0.0 <= pick < 1.0 && 0 < n
    ensures i < n
  {
    var f := (pick * n as real).Floor;
    assert 0.0 <= pick * n as real < n as real;
    f as nat
  }

  /** The rocket spawned at this score towards targetX (GameEngine.tsx 224-232). */
  function SpawnedRocket(score: int, x: real, originX: real, targetX: real): Rocket
  {
    Rocket(x, 0.0, originX, targetX, RocketSpeed(score), 0.0)
  }

  /** The spawn step of a frame fires: the interval has passed and some site stands. */
  predicate SpawnDue(time: real, lastSpawn: real, interval: real, cs: seq<City>, bs: seq<Battery>)
  {
    time - lastSpawn > interval && |SpawnTargets(cs, bs)| > 0
  }

  /** The rockets the motion of a frame starts from (GameEngine.tsx 203 and
      220-233): those the frame-start filter keeps, then the rocket of the spawn
      step if it fires, aimed at the target the draw `pick` selects. */
  function StartRockets(rockets: seq<Rocket>, time: real, lastSpawn: real, interval: real, pick: real,
                        x: real, originX: real, score: int, cs: seq<City>, bs: seq<Battery>): seq<Rocket>
    requires 0.0 <= pick < 1.0
  {
    var kept := Filter(rockets, RocketKept);
    if SpawnDue(time, lastSpawn, interval, cs, bs) then
      var targets := SpawnTargets(cs, bs);
      kept + [SpawnedRocket(score, x, originX, targets[SpawnIndex(pick, |targets|)])]
    else kept
  }

  /** The frame the motion passes start from, given the state the last frame
      left (GameEngine.tsx 203-205 and 220-233): the rockets of StartRockets,
      the missiles and blasts the frame-start filter keeps, and the same score
      and sites. */
  function StartFrame(f: Frame, time: real, lastSpawn: real, interval: real, pick: real,
                      x: real, originX: real): Frame
    requires 0.0 <= pick < 1.0
  {
    f.(rockets := StartRockets(f.rockets, time, lastSpawn, interval, pick, x, originX, f.score, f.cities, f.batteries),
       missiles := Filter(f.missiles, MissileKept),
       explosions := Filter(f.explosions, ExplosionKept))
  }

  /** A frame starts from the rockets the filter keeps, in their order, and
      gains one more exactly when the spawn step fires. That one fires only
      while some site stands; the new rocket is at the top, at progress 0, with
      the speed of the score, and aimed at the x of a site still standing. */
  lemma StartRocketsSpec(rockets: seq<Rocket>, time: real, lastSpawn: real, interval: real, pick: real,
                         x: real, originX: real, score: int, cs: seq<City>, bs: seq<Battery>)
    requires 0.0 <= pick < 1.0
    ensures var rs := StartRockets(rockets, time, lastSpawn, interval, pick, x, originX, score, cs, bs);
            var kept := Filter(rockets, RocketKept);
            |kept| <= |rs| <= |kept| + 1 && rs[..|kept|] == kept &&
            (|rs| == |kept| + 1 <==> SpawnDue(time, lastSpawn, interval, cs, bs))
    ensures var rs := StartRockets(rockets, time, lastSpawn, interval, pick, x, originX, score, cs, bs);
            var n := |Filter(rockets, RocketKept)|;
            |rs| == n + 1 ==>
              rs[n].y == 0.0 && rs[n].progress == 0.0 && rs[n].speed == RocketSpeed(score) &&
              ((exists k :: 0 <= k < |cs| && !cs[k].destroyed && cs[k].x == rs[n].targetX) ||
               (exists k :: 0 <= k < |bs| && !bs[k].destroyed && bs[k].x == rs[n].targetX))
    ensures SpawnDue(time, lastSpawn, interval, cs, bs) <==>
              time - lastSpawn > interval &&
              ((exists k :: 0 <= k < |cs| && !cs[k].destroyed) || (exists k :: 0 <= k < |bs| && !bs[k].destroyed))
  {
    SpawnTargetsIff(cs, bs);
    var kept := Filter(rockets, RocketKept);
    var rs := StartRockets(rockets, time, lastSpawn, interval, pick, x, originX, score, cs, bs);
    if SpawnDue(time, lastSpawn, interval, cs, bs) {
      var targets := SpawnTargets(cs, bs);
      var t := targets[SpawnIndex(pick, |targets|)];
      assert t in targets;
      assert rs[..|kept|] == kept;
    }
  }

  // ------------------------------------------------------------------- firing

  predicate CanFire(b: Battery) { !b.destroyed && b.ammo > 0 }

  predicate AnyCanFire(bs: seq<Battery>)
  {
    exists i :: 0 <= i < |bs| && CanFire(bs[i])
  }

  /** Among the first n batteries, i is the first that can fire and is closest
      to targetX. */
  predicate IsClosest(bs: seq<Battery>, targetX: real, n: nat, i: nat)
    requires n <= |bs|
  {
    i < n && CanFire(bs[i]) &&
    (forall j :: 0 <= j < n && CanFire(bs[j]) ==> Abs(bs[i].x - targetX) <= Abs(bs[j].x - targetX)) &&
    (forall j :: 0 <= j < i && CanFire(bs[j]) ==> Abs(bs[i].x - targetX) < Abs(bs[j].x - targetX))
  }

  /** The battery fireMissile picks (GameEngine.tsx 75-86): a strict `<` keeps
      the first of several equally close batteries. */
  method SelectBattery(bs: seq<Battery>, targetX: real) returns (best: Option<nat>)
    ensures best.None? <==> !AnyCanFire(bs)
    ensures best.Some? ==> IsClosest(bs, targetX, |bs|, best.value)
  {
    best := None;
    var minDist := 0.0;  // stands for Infinity while best is None
    var i := 0;
    while i < |bs|
      invariant 0 <= i <= |bs|
      invariant best.None? <==> forall j :: 0 <= j < i ==> !CanFire(bs[j])
      invariant best.Some? ==> IsClosest(bs, targetX, i, best.value) &&
                               minDist == Abs(bs[best.value].x - targetX)
    {
      var b := bs[i];
      if !b.destroyed && b.ammo > 0 {
        var dist := Abs(b.x - targetX);
        if best.None? || dist < minDist {
          minDist := dist;
          best := Some(i);
        }
      }
      i := i + 1;
    }
  }

  /** There is only one closest battery. */
  lemma ClosestUnique(bs: seq<Battery>, targetX: real, i: nat, j: nat)
    requires IsClosest(bs, targetX, |bs|, i) && IsClosest(bs, targetX, |bs|, j)
    ensures i == j
  {
  }

  /** The battery after firing one shot (GameEngine.tsx 89). */
  function Spend(b: Battery): Battery { b.(ammo := b.ammo - 1) }

  /** The missile launched from battery b at the target (GameEngine.tsx 92-102). */
  function Launch(b: Battery, targetX: real, targetY: real): (m: Missile)
    ensures MissileOnPath(m) && m.progress == 0.0
  {
    Missile(b.x, b.y, b.x, b.y, targetX, targetY, MissileSpeed, 0.0)
  }

  /** What a fire command leaves behind: nothing changes unless the game is
      playing and some battery can fire; then the closest one spends one round
      and exactly one missile is appended. */
  ghost predicate FireOutcome(gameState: GameState, bs0: seq<Battery>, ms0: seq<Missile>,
                              targetX: real, targetY: real, bs: seq<Battery>, ms: seq<Missile>)
  {
    if gameState == Playing && AnyCanFire(bs0) then
      exists i: nat :: IsClosest(bs0, targetX, |bs0|, i) &&
        bs == bs0[i := Spend(bs0[i])] && ms == ms0 + [Launch(bs0[i], targetX, targetY)]
    else
      bs == bs0 && ms == ms0
  }

  /** Firing keeps every battery's ammo within [0, maxAmmo]. */
  lemma SpendKeepsAmmoBounds(bs: seq<Battery>, i: nat)
    requires BatteriesOk(bs) && i < |bs| && CanFire(bs[i])
    ensures BatteriesOk(bs[i := Spend(bs[i])])
  {
  }

  // -------------------------------------------------------------- game over

  predicate IsDestroyed(b: Battery) { b.destroyed }

  predicate WinReached(score: int) { score >= WinScore }

  predicate LossReached(bs: seq<Battery>) { |Filter(bs, IsDestroyed)| >= LossBatteries }

  /** The game-over reports of one frame, in the order they are made
      (GameEngine.tsx 307-313): the win check first, then, independently,
      the loss check. */
  function GameOverEvents(score: int, bs: seq<Battery>): seq<Event>
  {
    (if WinReached(score) then [GameOver(true)] else []) +
    (if LossReached(bs) then [GameOver(false)] else [])
  }

  /** The shell's state after a frame's reports: a loss overrides a win of the
      same frame, and with no report the state is unchanged. */
  lemma GameOverOutcome(state: GameState, score: int, bs: seq<Battery>)
    ensures Run(state, GameOverEvents(score, bs)) ==
            if LossReached(bs) then Lost else if WinReached(score) then Won else state
  {
    var evs := GameOverEvents(score, bs);
    if |evs| > 0 {
      LastEventDecides(state, evs);
    }
  }
}
