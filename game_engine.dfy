/** The simulation half of src/components/GameEngine.tsx. The `*Ref` values of
    the component are the fields of class Engine; the props the component
    receives are parameters: `gameState` is the state the shell last rendered
    the engine with, and the three callbacks are calls on the shell's
    AppState. `Math.random` draws and the frame timestamp are parameters too. */
module GameEngine {
  import opened Types
  import opened Geometry
  import opened Difficulty
  import opened App
  import opened Simulation

  /** The cities after one impact at impactX (GameEngine.tsx 254-258). */
  method StrikeCities(cs: seq<City>, impactX: real) returns (cs': seq<City>)
    ensures |cs'| == |cs|
    ensures forall k :: 0 <= k < |cs| ==>
              cs'[k] == if NearSite(cs[k].x, impactX) then cs[k].(destroyed := true) else cs[k]
  {
    cs' := cs;
    var k := 0;
    while k < |cs'|
      invariant 0 <= k <= |cs'| == |cs|
      invariant forall j :: 0 <= j < |cs| ==>
                  cs'[j] == if j < k && NearSite(cs[j].x, impactX) then cs[j].(destroyed := true) else cs[j]
    {
      if !cs'[k].destroyed && NearSite(cs'[k].x, impactX) {
        cs' := cs'[k := cs'[k].(destroyed := true)];
      }
      k := k + 1;
    }
  }

  /** The batteries after one impact at impactX; each battery it newly destroys
      is reported through onAmmoUpdate (GameEngine.tsx 259-264). */
  method StrikeBatteries(app: AppState, bs: seq<Battery>, impactX: real) returns (bs': seq<Battery>)
    modifies app
    ensures |bs'| == |bs|
    ensures forall k :: 0 <= k < |bs| ==>
              bs'[k] == if NearSite(bs[k].x, impactX) then bs[k].(destroyed := true) else bs[k]
    ensures (bs' == bs && app.batteries == old(app.batteries)) || app.batteries == bs'
    ensures app.gameState == old(app.gameState) && app.score == old(app.score)
  {
    bs' := bs;
    var k := 0;
    while k < |bs'|
      invariant 0 <= k <= |bs'| == |bs|
      invariant forall j :: 0 <= j < |bs| ==>
                  bs'[j] == if j < k && NearSite(bs[j].x, impactX) then bs[j].(destroyed := true) else bs[j]
      invariant (bs' == bs && app.batteries == old(app.batteries)) || app.batteries == bs'
      invariant app.gameState == old(app.gameState) && app.score == old(app.score)
    {
      if !bs'[k].destroyed && NearSite(bs'[k].x, impactX) {
        bs' := bs'[k := bs'[k].(destroyed := true)];
        app.SetBatteries(bs');
      }
      k := k + 1;
    }
  }

  class Engine {
    var score: int
    var level: int
    var rockets: seq<Rocket>
    var missiles: seq<Missile>
    var explosions: seq<Explosion>
    var batteries: seq<Battery>
    var cities: seq<City>
    var lastTime: real
    var lastSpawnTime: real
    var spawnInterval: real

    /** What holds between any two calls into the engine. */
    ghost predicate Valid()
      reads this
    {
      FrameOk(Current()) &&
      1 <= level <= 3 &&
      400.0 <= spawnInterval <= 2500.0
    }

    /** The state of a fresh session (GameEngine.tsx 16-37 and 39-60). */
    ghost predicate IsInitial()
      reads this
    {
      score == 0 && level == 1 &&
      rockets == [] && missiles == [] && explosions == [] &&
      batteries == InitialBatteries() && cities == InitialCities() &&
      lastTime == 0.0 && lastSpawnTime == 0.0 && spawnInterval == InitialSpawnInterval
    }

    /** The part of the state the passes of a frame work on. */
    ghost function Current(): Frame
      reads this
    {
      Frame(score, rockets, missiles, explosions, cities, batteries)
    }

    /** The shell shows exactly the engine's score and batteries. */
    ghost predicate Mirrored(app: AppState)
      reads this, app
    {
      app.score == score && app.batteries == batteries
    }

    /** The initial values of the refs (GameEngine.tsx 16-37). */
    constructor ()
      ensures Valid() && IsInitial()
    {
      score := 0;
      level := 1;
      rockets := [];
      missiles := [];
      explosions := [];
      batteries := InitialBatteries();
      cities := InitialCities();
      lastTime := 0.0;
      lastSpawnTime := 0.0;
      spawnInterval := InitialSpawnInterval;
      InitialLayoutOk();
    }

    /** resetGame (GameEngine.tsx 39-63): the initial layout, reported to the shell. */
    method Reset(app: AppState)
      modifies this, app
      ensures Valid() && IsInitial() && Mirrored(app)
      ensures app.gameState == old(app.gameState)
    {
      score := 0;
      level := 1;
      rockets := [];
      missiles := [];
      explosions := [];
      lastTime := 0.0;
      lastSpawnTime := 0.0;
      batteries := InitialBatteries();
      cities := InitialCities();
      spawnInterval := InitialSpawnInterval;
      app.SetScore(0);
      app.SetBatteries(batteries);
      InitialLayoutOk();
    }

    /** fireMissile (GameEngine.tsx 71-104). */
    method FireMissile(app: AppState, gameState: GameState, targetX: real, targetY: real)
      requires Valid()
      modifies this, app
      ensures Valid()
      ensures FireOutcome(gameState, old(batteries), old(missiles), targetX, targetY, batteries, missiles)
      ensures score == old(score) && level == old(level) && rockets == old(rockets)
      ensures explosions == old(explosions) && cities == old(cities)
      ensures lastTime == old(lastTime) && lastSpawnTime == old(lastSpawnTime)
      ensures spawnInterval == old(spawnInterval)
      ensures (batteries == old(batteries) && app.batteries == old(app.batteries)) || app.batteries == batteries
      ensures app.score == old(app.score) && app.gameState == old(app.gameState)
    {
      if gameState != Playing {
        return;
      }
      var best := SelectBattery(batteries, targetX);
      if best.Some? {
        var i := best.value;
        var b := batteries[i];
        SpendKeepsAmmoBounds(batteries, i);
        batteries := batteries[i := Spend(b)];
        app.SetBatteries(batteries);
        missiles := missiles + [Launch(b, targetX, targetY)];
      }
    }

    /** The part of handleCanvasClick after the click is normalised to p
        (GameEngine.tsx 124-174): every rocket whose trajectory passes within
        ClickRadius of p is marked dead and scored, with a blast at the
        projected point; then fireMissile runs as for any click. There is no
        check of the session state or of the rocket's progress here. */
    method HandleClick(app: AppState, gameState: GameState, p: Point)
      requires Valid()
      modifies this, app
      ensures Valid()
      ensures rockets == Intercepted(p, old(rockets))
      ensures score == old(score) + ScorePerKill * CountClickHits(p, old(rockets))
      ensures explosions == old(explosions) + ClickBlasts(p, old(rockets))
      ensures FireOutcome(gameState, old(batteries), old(missiles), p.x, p.y, batteries, missiles)
      ensures level == old(level) && cities == old(cities)
      ensures lastTime == old(lastTime) && lastSpawnTime == old(lastSpawnTime)
      ensures spawnInterval == old(spawnInterval)
      ensures (score == old(score) && app.score == old(app.score)) || app.score == score
      ensures (batteries == old(batteries) && app.batteries == old(app.batteries)) || app.batteries == batteries
      ensures app.gameState == old(app.gameState)
    {
      var rs, es, s := InterceptClick(app, p, rockets, explosions, score);
      ClickKeepsFrameOk(p, score, rockets, explosions);
      rockets, explosions, score := rs, es, s;
      FireMissile(app, gameState, p.x, p.y);
    }

    /** The trajectory loop of handleCanvasClick (GameEngine.tsx 125-172). */
    static method InterceptClick(app: AppState, p: Point, rockets: seq<Rocket>, explosions: seq<Explosion>, score: int)
      returns (rs: seq<Rocket>, es: seq<Explosion>, s: int)
      modifies app
      ensures rs == Intercepted(p, rockets)
      ensures s == score + ScorePerKill * CountClickHits(p, rockets)
      ensures es == explosions + ClickBlasts(p, rockets)
      ensures (s == score && app.score == old(app.score)) || app.score == s
      ensures app.batteries == old(app.batteries) && app.gameState == old(app.gameState)
    {
      rs, es, s := rockets, explosions, score;
      var j := 0;
      while j < |rs|
        invariant 0 <= j <= |rs| == |rockets|
        invariant forall k :: 0 <= k < |rs| ==>
                    rs[k] == if k < j && ClickHits(p, rockets[k]) then Kill(rockets[k]) else rockets[k]
        invariant s == score + ScorePerKill * CountClickHits(p, rockets[..j])
        invariant es == explosions + ClickBlasts(p, rockets[..j])
        invariant (s == score && app.score == old(app.score)) || app.score == s
        invariant app.batteries == old(app.batteries) && app.gameState == old(app.gameState)
      {
        var r := rs[j];
        assert r == rockets[j];
        ClickStep(p, rockets, j);
        r, es, s := ClickRocket(app, p, r, es, s);
        rs := rs[j := r];
        j := j + 1;
      }
      assert rockets[..|rockets|] == rockets;
    }

    /** One iteration of the trajectory loop (GameEngine.tsx 125-171): a rocket
        whose trajectory passes near the click is marked dead, scored and given
        a click blast at the projected point; any other changes nothing. */
    static method ClickRocket(app: AppState, p: Point, r: Rocket, es: seq<Explosion>, s: int)
      returns (r': Rocket, es': seq<Explosion>, s': int)
      modifies app
      ensures r' == if ClickHits(p, r) then Kill(r) else r
      ensures es' == es + if ClickHits(p, r) then [ClickBlast(p, r)] else []
      ensures s' == s + if ClickHits(p, r) then ScorePerKill else 0
      ensures (s' == s && app.score == old(app.score)) || app.score == s'
      ensures app.batteries == old(app.batteries) && app.gameState == old(app.gameState)
    {
      r', es', s' := r, es, s;
      var q := NearestOnTrajectory(p, r.originX, r.targetX);
      if DistSq(p, q) < ClickRadius * ClickRadius {
        r' := Kill(r);
        s' := s + ScorePerKill;
        app.SetScore(s');
        es' := es + [Explosion(q.x, q.y, 0.0, ClickBlastRadius, true)];
      }
    }

    /** update (GameEngine.tsx 200-314): one animation frame, run only while the
        shell's state passed in as `gameState` is Playing. Spent rockets,
        arrived missiles and vanished blasts are dropped; the clock advances;
        the level follows the score; a rocket may spawn (draws `pick`,
        `spawnX`, `originX`); rockets, missiles and blasts move; and finally
        the win and loss conditions are reported to the shell. */
    method Update(app: AppState, gameState: GameState, time: real, pick: real, spawnX: real, originX: real)
      requires Valid()
      requires 0.0 <= pick < 1.0
      modifies this, app
      ensures Valid()
      ensures gameState != Playing ==>
                score == old(score) && level == old(level) && rockets == old(rockets) &&
                missiles == old(missiles) && explosions == old(explosions) &&
                batteries == old(batteries) && cities == old(cities) &&
                lastTime == old(lastTime) && lastSpawnTime == old(lastSpawnTime) &&
                spawnInterval == old(spawnInterval) &&
                app.gameState == old(app.gameState) && app.score == old(app.score) &&
                app.batteries == old(app.batteries)
      ensures gameState == Playing ==>
                Current() == Motion(StartFrame(old(Current()), time, old(lastSpawnTime), old(spawnInterval),
                                               pick, spawnX, originX),
                                    SpeedMultiplier(time - (if old(lastTime) == 0.0 then time else old(lastTime)))) &&
                lastTime == time && level == Level(old(score)) &&
                (if SpawnDue(time, old(lastSpawnTime), old(spawnInterval), old(cities), old(batteries))
                 then lastSpawnTime == time && spawnInterval == SpawnIntervalAfter(old(score))
                 else lastSpawnTime == old(lastSpawnTime) && spawnInterval == old(spawnInterval)) &&
                old(score) <= score && (score - old(score)) % ScorePerKill == 0 &&
                app.gameState == Run(old(app.gameState), GameOverEvents(score, batteries))
      ensures SitesKept(old(batteries), old(cities), batteries, cities)
      ensures (score == old(score) && app.score == old(app.score)) || app.score == score
      ensures (batteries == old(batteries) && app.batteries == old(app.batteries)) || app.batteries == batteries
    {
      if gameState != Playing {
        return;
      }
      PlayFrame(app, time, pick, spawnX, originX);
    }

    /** The body of update past its guard (GameEngine.tsx 203-313): the frame
        starts from StartFrame of the last frame's state and moves as Motion
        says; no site is restored and no ammo changes. */
    method PlayFrame(app: AppState, time: real, pick: real, spawnX: real, originX: real)
      requires Valid()
      requires 0.0 <= pick < 1.0
      modifies this, app
      ensures Valid()
      ensures Current() == Motion(StartFrame(old(Current()), time, old(lastSpawnTime), old(spawnInterval),
                                             pick, spawnX, originX),
                                  SpeedMultiplier(time - (if old(lastTime) == 0.0 then time else old(lastTime))))
      ensures SitesKept(old(batteries), old(cities), batteries, cities)
      ensures lastTime == time && level == Level(old(score))
      ensures if SpawnDue(time, old(lastSpawnTime), old(spawnInterval), old(cities), old(batteries))
              then lastSpawnTime == time && spawnInterval == SpawnIntervalAfter(old(score))
              else lastSpawnTime == old(lastSpawnTime) && spawnInterval == old(spawnInterval)
      ensures old(score) <= score && (score - old(score)) % ScorePerKill == 0
      ensures app.gameState == Run(old(app.gameState), GameOverEvents(score, batteries))
      ensures (score == old(score) && app.score == old(app.score)) || app.score == score
      ensures (batteries == old(batteries) && app.batteries == old(app.batteries)) || app.batteries == batteries
    {
      var mult := BeginFrame(time, pick, spawnX, originX);
      FinishFrame(app, mult);
      FrameKeepsFrameOk(old(Current()), time, old(lastSpawnTime), old(spawnInterval), pick, spawnX, originX, mult);
      CheckGameOver(app);
    }

    /** The motion passes of update (GameEngine.tsx 238-305) on the lists the
        frame starts from. */
    method FinishFrame(app: AppState, mult: real)
      modifies this, app
      ensures Current() == Motion(old(Current()), mult)
      ensures level == old(level) && lastTime == old(lastTime)
      ensures lastSpawnTime == old(lastSpawnTime) && spawnInterval == old(spawnInterval)
      ensures app.gameState == old(app.gameState)
      ensures (score == old(score) && app.score == old(app.score)) || app.score == score
      ensures (batteries == old(batteries) && app.batteries == old(app.batteries)) || app.batteries == batteries
    {
      var s, rs, ms, es, cs, bs := MoveAll(app, score, rockets, missiles, explosions, cities, batteries, mult);
      score, rockets, missiles, explosions, cities, batteries := s, rs, ms, es, cs, bs;
    }

    /** The start of update (GameEngine.tsx 203-236): the frame-start filters,
        the clock, the level and the spawn step; `mult` is the frame's speed
        multiplier. The rocket just spawned, if any, is not yet on its path. */
    method BeginFrame(time: real, pick: real, spawnX: real, originX: real) returns (mult: real)
      requires 0 <= score && 400.0 <= spawnInterval <= 2500.0
      requires 0.0 <= pick < 1.0
      modifies this
      ensures lastTime == time && mult == SpeedMultiplier(time - (if old(lastTime) == 0.0 then time else old(lastTime)))
      ensures level == Level(score) && 1 <= level <= 3
      ensures 400.0 <= spawnInterval <= 2500.0
      ensures score == old(score) && batteries == old(batteries) && cities == old(cities)
      ensures Current() == StartFrame(old(Current()), time, old(lastSpawnTime), old(spawnInterval), pick, spawnX, originX)
      ensures if SpawnDue(time, old(lastSpawnTime), old(spawnInterval), cities, batteries)
              then lastSpawnTime == time && spawnInterval == SpawnIntervalAfter(score)
              else lastSpawnTime == old(lastSpawnTime) && spawnInterval == old(spawnInterval)
    {
      DropSpent();
      if lastTime == 0.0 {
        lastTime := time;
      }
      var dt := time - lastTime;
      lastTime := time;
      mult := SpeedMultiplier(dt);

      level := Level(score);

      Spawn(time, pick, spawnX, originX);
      SpawnIntervalBounds(score);
    }

    /** The frame-start filters of update (GameEngine.tsx 203-205): dead
        rockets, arrived missiles and blasts of radius 0 are dropped. */
    method DropSpent()
      modifies this
      ensures rockets == Filter(old(rockets), RocketKept)
      ensures missiles == Filter(old(missiles), MissileKept)
      ensures explosions == Filter(old(explosions), ExplosionKept)
      ensures score == old(score) && level == old(level) && batteries == old(batteries) && cities == old(cities)
      ensures lastTime == old(lastTime) && lastSpawnTime == old(lastSpawnTime) && spawnInterval == old(spawnInterval)
    {
      rockets := Filter(rockets, RocketKept);
      missiles := Filter(missiles, MissileKept);
      explosions := Filter(explosions, ExplosionKept);
    }

    /** The three motion passes of update (GameEngine.tsx 238-305), in order:
        rockets, missiles, blasts, on the values of the refs. */
    static method MoveAll(app: AppState, score: int, rockets: seq<Rocket>, missiles: seq<Missile>,
                         explosions: seq<Explosion>, cities: seq<City>, batteries: seq<Battery>, mult: real)
      returns (s: int, rs: seq<Rocket>, ms: seq<Missile>, es: seq<Explosion>, cs: seq<City>, bs: seq<Battery>)
      modifies app
      ensures Frame(s, rs, ms, es, cs, bs) == Motion(Frame(score, rockets, missiles, explosions, cities, batteries), mult)
      ensures (s == score && app.score == old(app.score)) || app.score == s
      ensures (bs == batteries && app.batteries == old(app.batteries)) || app.batteries == bs
      ensures app.gameState == old(app.gameState)
    {
      var rs1, es1, cs1, bs1 := MoveRockets(app, rockets, explosions, cities, batteries, mult);
      var ms1, es2 := MoveMissiles(missiles, es1, mult);
      var es3, rs2, s1 := ResolveBlasts(app, es2, rs1, score, mult);
      s, rs, ms, es, cs, bs := s1, rs2, ms1, es3, cs1, bs1;
    }

    /** The spawn step of update (GameEngine.tsx 220-236): when the interval has
        passed and some site stands, one rocket is aimed at a live site chosen
        by the draw `pick`, and the next interval is set from the score;
        otherwise nothing changes. `x` and `originX` are the two other draws. */
    method Spawn(time: real, pick: real, x: real, originX: real)
      requires 0.0 <= pick < 1.0
      modifies this
      ensures var targets := SpawnTargets(cities, batteries);
              if SpawnDue(time, old(lastSpawnTime), old(spawnInterval), cities, batteries) then
                rockets == old(rockets) + [SpawnedRocket(score, x, originX, targets[SpawnIndex(pick, |targets|)])] &&
                lastSpawnTime == time && spawnInterval == SpawnIntervalAfter(score)
              else
                rockets == old(rockets) && lastSpawnTime == old(lastSpawnTime) &&
                spawnInterval == old(spawnInterval)
      ensures score == old(score) && level == old(level) && missiles == old(missiles)
      ensures explosions == old(explosions) && batteries == old(batteries) && cities == old(cities)
      ensures lastTime == old(lastTime)
    {
      if time - lastSpawnTime > spawnInterval {
        var targets := SpawnTargets(cities, batteries);
        if |targets| > 0 {
          var targetX := targets[SpawnIndex(pick, |targets|)];
          rockets := rockets + [Rocket(x, 0.0, originX, targetX, RocketSpeed(score), 0.0)];
          lastSpawnTime := time;
          spawnInterval := Max(800.0, 2500.0 - (score as real / 1000.0) * 1000.0) / LevelMultiplier(Level(score));
        }
      }
    }

    /** The rocket pass of update (GameEngine.tsx 238-267): every rocket moves;
        one that reaches the ground pushes an impact blast, destroys the sites
        near its target and is marked dead. The score does not change. */
    static method MoveRockets(app: AppState, rockets: seq<Rocket>, explosions: seq<Explosion>,
                              cities: seq<City>, batteries: seq<Battery>, mult: real)
      returns (rs: seq<Rocket>, es: seq<Explosion>, cs: seq<City>, bs: seq<Battery>)
      modifies app
      ensures rs == Landings(rockets, mult)
      ensures es == explosions + ImpactBlasts(Advanced(rockets, mult))
      ensures cs == StruckCities(cities, Advanced(rockets, mult))
      ensures bs == StruckBatteries(batteries, Advanced(rockets, mult))
      ensures (bs == batteries && app.batteries == old(app.batteries)) || app.batteries == bs
      ensures app.score == old(app.score) && app.gameState == old(app.gameState)
    {
      rs, es, cs, bs := rockets, explosions, cities, batteries;
      var i := 0;
      assert Advanced(rockets, mult)[..0] == [];
      while i < |rs|
        invariant i <= |rockets| && RocketPassAt(rockets, explosions, cities, batteries, mult, i, rs, es, cs, bs)
        invariant (bs == batteries && app.batteries == old(app.batteries)) || app.batteries == bs
        invariant app.score == old(app.score) && app.gameState == old(app.gameState)
      {
        rs, es, cs, bs := RocketStep(app, rockets, explosions, cities, batteries, mult, i, rs, es, cs, bs);
        i := i + 1;
      }
      assert Advanced(rockets, mult)[..|rs|] == Advanced(rockets, mult);
    }

    /** How far the rocket pass has got after its first i rockets: those are
        moved and settled, and their impacts are applied. */
    static ghost predicate RocketPassAt(rockets: seq<Rocket>, explosions: seq<Explosion>, cities: seq<City>,
                                        batteries: seq<Battery>, mult: real, i: nat,
                                        rs: seq<Rocket>, es: seq<Explosion>, cs: seq<City>, bs: seq<Battery>)
    {
      var moved := Advanced(rockets, mult);
      i <= |rockets| == |rs| &&
      (forall k :: 0 <= k < |rs| ==> rs[k] == if k < i then Settle(moved[k]) else rockets[k]) &&
      es == explosions + ImpactBlasts(moved[..i]) &&
      cs == StruckCities(cities, moved[..i]) &&
      bs == StruckBatteries(batteries, moved[..i])
    }

    /** One iteration of the rocket pass (GameEngine.tsx 239-266). */
    static method RocketStep(app: AppState, ghost rockets: seq<Rocket>, ghost explosions: seq<Explosion>,
                             ghost cities: seq<City>, ghost batteries: seq<Battery>, mult: real, i: nat,
                             rs: seq<Rocket>, es: seq<Explosion>, cs: seq<City>, bs: seq<Battery>)
      returns (rs': seq<Rocket>, es': seq<Explosion>, cs': seq<City>, bs': seq<Battery>)
      requires i < |rockets| && RocketPassAt(rockets, explosions, cities, batteries, mult, i, rs, es, cs, bs)
      modifies app
      ensures RocketPassAt(rockets, explosions, cities, batteries, mult, i + 1, rs', es', cs', bs')
      ensures (bs' == bs && app.batteries == old(app.batteries)) || app.batteries == bs'
      ensures app.score == old(app.score) && app.gameState == old(app.gameState)
    {
      ghost var moved := Advanced(rockets, mult);
      var r := rs[i];
      assert r == rockets[i];
      var p := r.progress + r.speed * mult;
      r := r.(progress := p, x := r.originX + (r.targetX - r.originX) * p, y := p * Ground);
      assert r == AdvanceRocket(rockets[i], mult);
      assert r == moved[i];
      ImpactBlastsStep(moved, i);
      r, es', cs', bs' := LandRocket(app, r, es, cs, bs);
      StruckCitiesStep(cities, moved, i, cs, cs');
      StruckBatteriesStep(batteries, moved, i, bs, bs');
      rs' := rs[i := r];
    }

    /** The ground impact of one moved rocket (GameEngine.tsx 243-266): a
        rocket at the ground pushes an impact blast, destroys the sites near
        its target and is marked dead; any other rocket changes nothing. */
    static method LandRocket(app: AppState, r: Rocket, es: seq<Explosion>, cs: seq<City>, bs: seq<Battery>)
      returns (r': Rocket, es': seq<Explosion>, cs': seq<City>, bs': seq<Battery>)
      modifies app
      ensures r' == Settle(r)
      ensures es' == es + (if Landed(r) then [ImpactBlast(r.targetX)] else [])
      ensures |cs'| == |cs|
      ensures forall k :: 0 <= k < |cs| ==>
                cs'[k] == if Landed(r) && NearSite(cs[k].x, r.targetX) then cs[k].(destroyed := true) else cs[k]
      ensures |bs'| == |bs|
      ensures forall k :: 0 <= k < |bs| ==>
                bs'[k] == if Landed(r) && NearSite(bs[k].x, r.targetX) then bs[k].(destroyed := true) else bs[k]
      ensures (bs' == bs && app.batteries == old(app.batteries)) || app.batteries == bs'
      ensures app.score == old(app.score) && app.gameState == old(app.gameState)
    {
      r', es', cs', bs' := r, es, cs, bs;
      if r.progress >= 1.0 {
        es' := es + [Explosion(r.targetX, Ground, 0.0, ImpactRadius, true)];
        cs' := StrikeCities(cs, r.targetX);
        bs' := StrikeBatteries(app, bs, r.targetX);
        r' := r.(progress := DeadProgress);
      }
    }

    /** The missile pass of update (GameEngine.tsx 269-285): every missile
        moves, and one that reaches its target pushes a detonation blast. */
    static method MoveMissiles(missiles: seq<Missile>, explosions: seq<Explosion>, mult: real)
      returns (ms: seq<Missile>, es: seq<Explosion>)
      ensures ms == AdvancedMissiles(missiles, mult)
      ensures es == explosions + DetonationBlasts(ms)
    {
      ghost var moved := AdvancedMissiles(missiles, mult);
      ms, es := missiles, explosions;
      var i := 0;
      while i < |ms|
        invariant 0 <= i <= |ms| == |missiles|
        invariant forall k :: 0 <= k < |ms| ==> ms[k] == if k < i then moved[k] else missiles[k]
        invariant es == explosions + DetonationBlasts(moved[..i])
      {
        var m := ms[i];
        assert m == missiles[i];
        var p := m.progress + m.speed * mult;
        m := m.(progress := p,
                x := m.originX + (m.targetX - m.originX) * p,
                y := m.originY + (m.targetY - m.originY) * p);
        assert m == AdvanceMissile(missiles[i], mult);
        assert m == moved[i];
        assert moved[..i + 1][..i] == moved[..i];
        if m.progress >= 1.0 {
          es := es + [Explosion(m.targetX, m.targetY, 0.0, DetonationRadius, true)];
        }
        ms := ms[i := m];
        i := i + 1;
      }
      assert moved[..|ms|] == moved;
      assert ms == moved;
    }

    /** The explosion pass of update (GameEngine.tsx 287-305): every blast grows
        or shrinks, and then every rocket inside it, dead or not, is marked dead
        and scored; a rocket inside several blasts is scored once per blast. */
    static method ResolveBlasts(app: AppState, explosions: seq<Explosion>, rockets: seq<Rocket>,
                                score: int, mult: real)
      returns (es: seq<Explosion>, rs: seq<Rocket>, s: int)
      modifies app
      ensures es == Grown(explosions, mult)
      ensures rs == Blasted(es, rockets)
      ensures s == score + ScorePerKill * PairHits(es, rockets)
      ensures (s == score && app.score == old(app.score)) || app.score == s
      ensures app.batteries == old(app.batteries) && app.gameState == old(app.gameState)
    {
      ghost var grown := Grown(explosions, mult);
      es, rs, s := explosions, rockets, score;
      var i := 0;
      while i < |es|
        invariant 0 <= i <= |es| == |grown|
        invariant forall k :: 0 <= k < |es| ==> es[k] == if k < i then grown[k] else explosions[k]
        invariant rs == Blasted(grown[..i], rockets)
        invariant s == score + ScorePerKill * PairHits(grown[..i], rockets)
        invariant (s == score && app.score == old(app.score)) || app.score == s
        invariant app.batteries == old(app.batteries) && app.gameState == old(app.gameState)
      {
        var e := es[i];
        if e.expanding {
          e := e.(radius := e.radius + GrowthRate * mult);
          if e.radius >= e.maxRadius {
            e := e.(expanding := false);
          }
        } else {
          e := e.(radius := Max(0.0, e.radius - ShrinkRate * mult));
        }
        assert e == grown[i];
        es := es[i := e];
        ghost var rs0 := rs;
        rs, s := ScoreBlast(app, e, rs, s);
        BlastedStep(grown, i, rockets, rs0, rs);
        i := i + 1;
      }
      assert es == grown;
      assert grown[..|es|] == grown;
    }

    /** The rocket loop inside one blast (GameEngine.tsx 295-304). */
    static method ScoreBlast(app: AppState, e: Explosion, rs: seq<Rocket>, s: int)
      returns (rs': seq<Rocket>, s': int)
      modifies app
      ensures |rs'| == |rs|
      ensures forall k :: 0 <= k < |rs| ==> rs'[k] == if BlastHits(e, rs[k]) then Kill(rs[k]) else rs[k]
      ensures s' == s + ScorePerKill * CountHits(e, rs)
      ensures (s' == s && app.score == old(app.score)) || app.score == s'
      ensures app.batteries == old(app.batteries) && app.gameState == old(app.gameState)
    {
      rs', s' := rs, s;
      var j := 0;
      while j < |rs'|
        invariant 0 <= j <= |rs'| == |rs|
        invariant forall k :: 0 <= k < |rs| ==>
                    rs'[k] == if k < j && BlastHits(e, rs[k]) then Kill(rs[k]) else rs[k]
        invariant s' == s + ScorePerKill * CountHits(e, rs[..j])
        invariant (s' == s && app.score == old(app.score)) || app.score == s'
        invariant app.batteries == old(app.batteries) && app.gameState == old(app.gameState)
      {
        var r := rs'[j];
        assert r == rs[j];
        CountHitsStep(e, rs, j);
        if BlastHits(e, r) {
          rs' := rs'[j := Kill(r)];
          s' := s' + ScorePerKill;
          app.SetScore(s');
        }
        j := j + 1;
      }
      assert rs[..|rs|] == rs;
    }

    /** The terminal checks of update (GameEngine.tsx 307-313): a win report
        when the score reaches WinScore, then, separately, a loss report when
        LossBatteries batteries are destroyed. They change no engine state. */
    method CheckGameOver(app: AppState)
      modifies app
      ensures app.gameState == Run(old(app.gameState), GameOverEvents(score, batteries))
      ensures app.gameState == if LossReached(batteries) then Lost
                               else if WinReached(score) then Won
                               else old(app.gameState)
      ensures app.score == old(app.score) && app.batteries == old(app.batteries)
    {
      if score >= WinScore {
        app.HandleGameOver(true);
      }
      var destroyed := Filter(batteries, IsDestroyed);
      if |destroyed| >= LossBatteries {
        app.HandleGameOver(false);
      }
      GameOverOutcome(old(app.gameState), score, batteries);
    }
  }
}
