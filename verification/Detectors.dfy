/** What makes a fault latch, over whole runs of sensor readings (fsw/src/sensor_monitor.cpp, fault_manager.cpp). */
module Detectors {
  import opened Wire
  import opened Catalog
  import opened SensorMonitor
  import F = FaultManager

  // ---- what one cycle's readings say of each fault ----

  const IMU: set<Fault> := {ACCEL_GYRO_DROPOUT, MAG_DROPOUT}
  const SUPPLY: set<Fault> := {POWER_DROPOUT, UNDERVOLTAGE, OVERVOLTAGE, OVERCURRENT}
  const THERMAL: set<Fault> := {TEMP_DROPOUT, UNDERTEMPERATURE, OVERTEMPERATURE}
  const WHEEL: set<Fault> := {WHEEL_DROPOUT, WHEEL_SATURATED}

  /** The reading has not moved for more than half a second. */
  predicate Frozen(k: Track, v: Vec, t: nat) { v == k.last && Since(t, k.changedAt) > 500 }

  /** Bad, good, or nothing said. */
  function Opinion(m: Monitor, r: Readings, t: nat, f: Fault): Option<bool> {
    if f in IMU then
      match r.imu
      case None => None
      case Some(i) => Some(if f == MAG_DROPOUT then !i.magOk || Frozen(m.mag, i.mag, t)
                           else !i.accelGyroOk || Frozen(m.accel, i.accel, t) || Frozen(m.gyro, i.gyro, t))
    else if f in SUPPLY then
      match r.power
      case None => None
      case Some(p) =>
        if f == POWER_DROPOUT then Some(!p.valid)
        else if !p.valid then None
        else if f == UNDERVOLTAGE then Some(p.busMv <= 13599)
        else if f == OVERVOLTAGE then Some(p.busMv >= 17001)
        else Some(p.currentMa >= 1501)
    else if f in THERMAL then
      match r.temp
      case None => None
      case Some(k) =>
        if f == TEMP_DROPOUT then Some(!k.valid)
        else if !k.valid then None
        else Some(if f == UNDERTEMPERATURE then k.milliC <= -1 else k.milliC >= 60001)
    else if f == WHEEL_DROPOUT then
      Some(r.wheel.None? && Since(t, m.wheelSeen) > if m.wheelAcquired then 1000 else 8000)
    else if f == WHEEL_SATURATED then
      match r.wheel case None => None case Some(v) => Some(!(-32000 < v < 32000))
    else if f == CAMERA_DROPOUT then
      match r.camera case None => None case Some(ok) => Some(!ok)
    else None
  }

  function Listed(o: Option<bool>): seq<bool> { if o.Some? then [o.value] else [] }

  /** The samples of one fault, in order. */
  function Of(samples: seq<F.Sample>, f: Fault): seq<bool> {
    if samples == [] then []
    else (if samples[0].fault == f then [samples[0].bad] else []) + Of(samples[1..], f)
  }

  lemma {:induction false} OfConcat(a: seq<F.Sample>, b: seq<F.Sample>, f: Fault)
    ensures Of(a + b, f) == Of(a, f) + Of(b, f)
  {
    if a == [] {
      assert a + b == b;
    } else {
      var one := if a[0].fault == f then [a[0].bad] else [];
      assert (a + b)[0] == a[0] && (a + b)[1..] == a[1..] + b;
      OfConcat(a[1..], b, f);
      assert one + (Of(a[1..], f) + Of(b, f)) == (one + Of(a[1..], f)) + Of(b, f);
    }
  }

  function Only(x: F.Sample, f: Fault): seq<bool> { if x.fault == f then [x.bad] else [] }

  lemma OfOne(x: F.Sample, f: Fault)
    ensures Of([x], f) == Only(x, f)
  {
    assert [x][1..] == [];
  }

  lemma OfTwo(a: F.Sample, b: F.Sample, f: Fault)
    ensures Of([a, b], f) == Only(a, f) + Only(b, f)
  {
    assert [a, b] == [a] + [b];
    OfConcat([a], [b], f);
    OfOne(a, f);
    OfOne(b, f);
  }

  lemma OfFour(a: F.Sample, b: F.Sample, c: F.Sample, d: F.Sample, f: Fault)
    ensures Of([a, b, c, d], f) == Only(a, f) + Only(b, f) + (Only(c, f) + Only(d, f))
  {
    assert [a, b, c, d] == [a, b] + [c, d];
    OfConcat([a, b], [c, d], f);
    OfTwo(a, b, f);
    OfTwo(c, d, f);
  }

  lemma OfThree(a: F.Sample, b: F.Sample, c: F.Sample, f: Fault)
    ensures Of([a, b, c], f) == Only(a, f) + Only(b, f) + Only(c, f)
  {
    assert [a, b, c] == [a, b] + [c];
    OfConcat([a, b], [c], f);
    OfTwo(a, b, f);
    OfOne(c, f);
  }

  lemma ImuSay(m: Monitor, r: Readings, t: nat, f: Fault)
    ensures Of(ImuSamples(m, r.imu, t), f) ==
      if f in IMU then Listed(Opinion(m, r, t, f)) else []
  {
    if r.imu.Some? {
      var s := ImuSamples(m, r.imu, t);
      OfTwo(s[0], s[1], f);
      assert Since(t, t) == 0;
    }
  }

  lemma GoodPowerSays(p: Power, f: Fault)
    requires p.valid
    ensures Of(PowerSamples(Some(p)), f) ==
      if f == POWER_DROPOUT then [false]
      else if f == UNDERVOLTAGE then [p.busMv <= 13599]
      else if f == OVERVOLTAGE then [p.busMv >= 17001]
      else if f == OVERCURRENT then [p.currentMa >= 1501]
      else []
  {
    var s := PowerSamples(Some(p));
    OfFour(s[0], s[1], s[2], s[3], f);
  }

  lemma PowerSay(m: Monitor, r: Readings, t: nat, f: Fault)
    ensures Of(PowerSamples(r.power), f) == if f in SUPPLY then Listed(Opinion(m, r, t, f)) else []
  {
    if r.power.Some? {
      if r.power.value.valid {
        GoodPowerSays(r.power.value, f);
      } else {
        OfOne(PowerSamples(r.power)[0], f);
      }
    }
  }

  lemma TempSay(m: Monitor, r: Readings, t: nat, f: Fault)
    ensures Of(TempSamples(r.temp), f) ==
      if f in THERMAL then Listed(Opinion(m, r, t, f)) else []
  {
    if r.temp.Some? {
      var s := TempSamples(r.temp);
      if r.temp.value.valid { OfThree(s[0], s[1], s[2], f); } else { OfOne(s[0], f); }
    }
  }

  lemma WheelSay(m: Monitor, r: Readings, t: nat, f: Fault)
    ensures Of(WheelSamples(m, r.wheel, t), f) ==
      if f in WHEEL then Listed(Opinion(m, r, t, f)) else []
  {
    var s := WheelSamples(m, r.wheel, t);
    assert Since(t, t) == 0;
    if r.wheel.Some? {
      OfTwo(s[0], s[1], f);
      assert s == [s[0], s[1]];
    } else {
      OfOne(s[0], f);
      assert s == [s[0]];
    }
  }

  lemma CameraSay(m: Monitor, r: Readings, t: nat, f: Fault)
    ensures Of(CameraSamples(r.camera), f) == if f == CAMERA_DROPOUT then Listed(Opinion(m, r, t, f)) else []
  {
    if r.camera.Some? {
      var s := CameraSamples(r.camera);
      OfOne(s[0], f);
    }
  }

  lemma OfFive(a: seq<F.Sample>, b: seq<F.Sample>, c: seq<F.Sample>, d: seq<F.Sample>, e: seq<F.Sample>, f: Fault)
    ensures Of(a + b + c + d + e, f) == Of(a, f) + Of(b, f) + Of(c, f) + Of(d, f) + Of(e, f)
  {
    var ab, abc, abcd := a + b, a + b + c, a + b + c + d;
    OfConcat(a, b, f);
    OfConcat(ab, c, f);
    OfConcat(abc, d, f);
    OfConcat(abcd, e, f);
  }

  lemma OneOfFive(f: Fault, o: seq<bool>)
    ensures (if f in IMU then o else []) + (if f in SUPPLY then o else []) + (if f in THERMAL then o else [])
      + (if f in WHEEL then o else []) + (if f == CAMERA_DROPOUT then o else [])
      == if f == COMMAND_LINK_LOSS then [] else o
  {
  }

  lemma JoinSay(a: seq<F.Sample>, b: seq<F.Sample>, c: seq<F.Sample>, d: seq<F.Sample>, e: seq<F.Sample>,
                f: Fault, o: seq<bool>)
    requires Of(a, f) == if f in IMU then o else []
    requires Of(b, f) == if f in SUPPLY then o else []
    requires Of(c, f) == if f in THERMAL then o else []
    requires Of(d, f) == if f in WHEEL then o else []
    requires Of(e, f) == if f == CAMERA_DROPOUT then o else []
    ensures Of(a + b + c + d + e, f) == if f == COMMAND_LINK_LOSS then [] else o
  {
    OfFive(a, b, c, d, e, f);
    OneOfFive(f, o);
  }

  /** A cycle feeds each fault exactly the one sample its readings warrant, or none. */
  lemma SamplesSay(m: Monitor, r: Readings, t: nat, f: Fault)
    ensures Of(Samples(m, r, t), f) == Listed(Opinion(m, r, t, f))
  {
    ImuSay(m, r, t, f);
    PowerSay(m, r, t, f);
    TempSay(m, r, t, f);
    WheelSay(m, r, t, f);
    CameraSay(m, r, t, f);
    JoinSay(ImuSamples(m, r.imu, t), PowerSamples(r.power), TempSamples(r.temp), WheelSamples(m, r.wheel, t),
            CameraSamples(r.camera), f, Listed(Opinion(m, r, t, f)));
  }

  // ---- how many it takes ----

  /** Bad samples in a row before a fault latches. */
  function Needed(f: Fault): nat { if f == COMMAND_LINK_LOSS then 1 else if f == WHEEL_SATURATED then 10 else 3 }

  lemma PolicyTable(f: Fault)
    ensures F.PolicyOf(f).debounce == Needed(f)
    ensures F.PolicyOf(f).severity == Critical <==>
      f in {COMMAND_LINK_LOSS, UNDERVOLTAGE, OVERVOLTAGE, OVERCURRENT, OVERTEMPERATURE}
    ensures F.PolicyOf(f).severity == Warning <==>
      f in {MAG_DROPOUT, TEMP_DROPOUT, UNDERTEMPERATURE, CAMERA_DROPOUT}
  {
  }

  /** The n samples up to the i-th were all bad. */
  predicate BadRow(bs: seq<bool>, i: nat, n: nat)
    requires i <= |bs|
  {
    n <= i && forall j :: i - n <= j < i ==> bs[j]
  }

  ghost predicate Tripped(bs: seq<bool>, n: nat) { exists i :: 0 <= i <= |bs| && BadRow(bs, i, n) }

  /** What a streak counter and a latch say of the samples so far: the last ones, and all of them. */
  ghost predicate Agrees(s: F.Faults, f: Fault, bs: seq<bool>) {
    && s.streak[f] <= Needed(f) && s.streak[f] <= |bs| && BadRow(bs, |bs|, s.streak[f])
    && (s.streak[f] < Needed(f) && s.streak[f] < |bs| ==> !bs[|bs| - 1 - s.streak[f]])
    && (f in s.active <==> Tripped(bs, Needed(f)))
  }

  lemma TrippedGrows(bs: seq<bool>, b: bool, n: nat)
    requires n > 0
    ensures Tripped(bs + [b], n) <==> Tripped(bs, n) || BadRow(bs + [b], |bs| + 1, n)
  {
    var cs := bs + [b];
    forall i | 0 <= i <= |bs| ensures BadRow(cs, i, n) == BadRow(bs, i, n) {
      assert forall j :: 0 <= j < i ==> cs[j] == bs[j];
    }
    if Tripped(bs, n) {
      var i :| 0 <= i <= |bs| && BadRow(bs, i, n);
      assert BadRow(cs, i, n);
    }
  }

  lemma OneSample(s: F.Faults, f: Fault, b: bool, t: nat, bs: seq<bool>)
    requires Agrees(s, f, bs)
    ensures Agrees(F.Update(s, f, b, t), f, bs + [b])
  {
    PolicyTable(f);
    TrippedGrows(bs, b, Needed(f));
    var cs, r := bs + [b], F.Update(s, f, b, t);
    assert forall j :: 0 <= j < |bs| ==> cs[j] == bs[j];
    assert cs[|bs|] == b;
    assert BadRow(cs, |cs|, Needed(f)) <==> b && s.streak[f] + 1 >= Needed(f);
  }

  lemma {:induction false} ManySamples(s: F.Faults, samples: seq<F.Sample>, t: nat, f: Fault, bs: seq<bool>)
    requires Agrees(s, f, bs)
    ensures Agrees(F.UpdateAll(s, samples, t), f, bs + Of(samples, f))
    decreases |samples|
  {
    if samples == [] {
      assert bs + [] == bs;
    } else {
      var x := samples[0];
      var r := F.Update(s, x.fault, x.bad, t);
      if x.fault == f {
        OneSample(s, f, x.bad, t, bs);
        ManySamples(r, samples[1..], t, f, bs + [x.bad]);
        assert bs + [x.bad] + Of(samples[1..], f) == bs + Of(samples, f);
      } else {
        assert r.streak[f] == s.streak[f] && (f in r.active <==> f in s.active);
        ManySamples(r, samples[1..], t, f, bs);
        assert [] + Of(samples[1..], f) == Of(samples[1..], f);
      }
    }
  }

  // ---- whole runs of readings ----

  datatype Scan = Scan(r: Readings, t: nat)

  function MonitorAfter(m: Monitor, scans: seq<Scan>): Monitor
    decreases |scans|
  {
    if scans == [] then m else MonitorAfter(Observed(m, scans[0].r, scans[0].t), scans[1..])
  }

  /** What the fault manager is fed, cycle by cycle. */
  function Feeds(m: Monitor, scans: seq<Scan>): seq<Feed>
    decreases |scans|
  {
    if scans == [] then []
    else [Feed(Samples(m, scans[0].r, scans[0].t), scans[0].t)] + Feeds(Observed(m, scans[0].r, scans[0].t), scans[1..])
  }

  datatype Feed = Feed(samples: seq<F.Sample>, t: nat)

  function Fed(s: F.Faults, feeds: seq<Feed>): F.Faults
    decreases |feeds|
  {
    if feeds == [] then s else Fed(F.UpdateAll(s, feeds[0].samples, feeds[0].t), feeds[1..])
  }

  function AllOf(feeds: seq<Feed>, f: Fault): seq<bool> {
    if feeds == [] then [] else Of(feeds[0].samples, f) + AllOf(feeds[1..], f)
  }

  /** Every opinion of the run about f, in order. */
  function Opinions(m: Monitor, scans: seq<Scan>, f: Fault): seq<bool>
    decreases |scans|
  {
    if scans == [] then []
    else Listed(Opinion(m, scans[0].r, scans[0].t, f)) + Opinions(Observed(m, scans[0].r, scans[0].t), scans[1..], f)
  }

  lemma {:induction false} FeedsSay(m: Monitor, scans: seq<Scan>, f: Fault)
    ensures AllOf(Feeds(m, scans), f) == Opinions(m, scans, f)
    decreases |scans|
  {
    if scans != [] {
      SamplesSay(m, scans[0].r, scans[0].t, f);
      FeedsSay(Observed(m, scans[0].r, scans[0].t), scans[1..], f);
      assert Feeds(m, scans)[1..] == Feeds(Observed(m, scans[0].r, scans[0].t), scans[1..]);
    }
  }

  lemma {:induction false} FedAgrees(s: F.Faults, feeds: seq<Feed>, f: Fault, bs: seq<bool>)
    requires Agrees(s, f, bs)
    ensures Agrees(Fed(s, feeds), f, bs + AllOf(feeds, f))
    decreases |feeds|
  {
    if feeds == [] {
      assert bs + [] == bs;
    } else {
      var o, rest := Of(feeds[0].samples, f), AllOf(feeds[1..], f);
      ManySamples(s, feeds[0].samples, feeds[0].t, f, bs);
      FedAgrees(F.UpdateAll(s, feeds[0].samples, feeds[0].t), feeds[1..], f, bs + o);
      assert bs + o + rest == bs + (o + rest);
    }
  }

  /**
   * From power-on, over every run of readings, a fault is latched if and only if its readings were bad that many times
   * in a row: ten for a full wheel, three for every other detector. Readings that say nothing of it break no row.
   */
  lemma DebounceOfARun(scans: seq<Scan>, f: Fault)
    ensures f in Fed(F.Initial(), Feeds(INITIAL, scans)).active <==>
      Tripped(Opinions(INITIAL, scans, f), if f == WHEEL_SATURATED then 10 else 3)
  {
    assert !Tripped([], Needed(f));
    FedAgrees(F.Initial(), Feeds(INITIAL, scans), f, []);
    FeedsSay(INITIAL, scans, f);
    var bs := Opinions(INITIAL, scans, f);
    assert [] + bs == bs;
    if f == COMMAND_LINK_LOSS { LinkIsNotHere(INITIAL, scans); }
  }

  lemma {:induction false} LinkIsNotHere(m: Monitor, scans: seq<Scan>)
    ensures Opinions(m, scans, COMMAND_LINK_LOSS) == []
    decreases |scans|
  {
    if scans != [] { LinkIsNotHere(Observed(m, scans[0].r, scans[0].t), scans[1..]); }
  }

  // ---- what the monitor remembers ----

  /** One source's valid readings, each with its time. */
  datatype Fix = Fix(v: Vec, t: nat)

  function Followed(k: Track, fixes: seq<Fix>): Track
    decreases |fixes|
  {
    if fixes == [] then k else Followed(Tracked(k, fixes[0].v, fixes[0].t), fixes[1..])
  }

  /** The reading before the i-th; power-on counts as all zeros. */
  function Before(fixes: seq<Fix>, i: nat): Vec
    requires i <= |fixes|
  {
    if i == 0 then Vec(0, 0, 0) else fixes[i - 1].v
  }

  /** The i-th reading moved, and none did after it. */
  predicate MovedLast(fixes: seq<Fix>, i: nat)
    requires i < |fixes|
  {
    fixes[i].v != Before(fixes, i) && forall j :: i < j < |fixes| ==> fixes[j].v == fixes[i].v
  }

  ghost predicate Remembers(k: Track, fixes: seq<Fix>) {
    && k.last == Before(fixes, |fixes|)
    && ((k.changedAt == 0 && forall j :: 0 <= j < |fixes| ==> fixes[j].v == Vec(0, 0, 0))
        || exists i :: 0 <= i < |fixes| && MovedLast(fixes, i) && k.changedAt == fixes[i].t)
  }

  lemma RemembersOne(k: Track, fixes: seq<Fix>, x: Fix)
    requires Remembers(k, fixes)
    ensures Remembers(Tracked(k, x.v, x.t), fixes + [x])
  {
    var all := fixes + [x];
    assert Before(all, |fixes|) == Before(fixes, |fixes|);
    if x.v != k.last {
      assert MovedLast(all, |fixes|);
    } else if exists i :: 0 <= i < |fixes| && MovedLast(fixes, i) && k.changedAt == fixes[i].t {
      var i :| 0 <= i < |fixes| && MovedLast(fixes, i) && k.changedAt == fixes[i].t;
      assert Before(all, i) == Before(fixes, i);
      assert MovedLast(all, i);
    }
  }

  /**
   * What freezing is measured from: the time of the last valid reading that differed from the one before it, or
   * power-on if none ever has.
   */
  lemma {:induction false} TrackOfARun(k: Track, had: seq<Fix>, fixes: seq<Fix>)
    requires Remembers(k, had)
    ensures Remembers(Followed(k, fixes), had + fixes)
    decreases |fixes|
  {
    if fixes == [] {
      assert had + [] == had;
    } else {
      RemembersOne(k, had, fixes[0]);
      TrackOfARun(Tracked(k, fixes[0].v, fixes[0].t), had + [fixes[0]], fixes[1..]);
      assert had + [fixes[0]] + fixes[1..] == had + fixes;
    }
  }

  /** The valid readings of one source in a run. */
  datatype Source = Accel | Gyro | Mag

  function TrackOf(m: Monitor, s: Source): Track {
    match s case Accel => m.accel case Gyro => m.gyro case Mag => m.mag
  }

  function FixOf(scan: Scan, s: Source): seq<Fix> {
    match scan.r.imu
    case None => []
    case Some(i) =>
      match s
      case Accel => if i.accelGyroOk then [Fix(i.accel, scan.t)] else []
      case Gyro => if i.accelGyroOk then [Fix(i.gyro, scan.t)] else []
      case Mag => if i.magOk then [Fix(i.mag, scan.t)] else []
  }

  function Fixes(scans: seq<Scan>, s: Source): seq<Fix> {
    if scans == [] then [] else FixOf(scans[0], s) + Fixes(scans[1..], s)
  }

  lemma {:induction false} SourceFollowed(m: Monitor, scans: seq<Scan>, s: Source)
    ensures TrackOf(MonitorAfter(m, scans), s) == Followed(TrackOf(m, s), Fixes(scans, s))
    decreases |scans|
  {
    if scans != [] {
      var n := Observed(m, scans[0].r, scans[0].t);
      SourceFollowed(n, scans[1..], s);
      var x := FixOf(scans[0], s);
      if x == [] {
        assert Fixes(scans, s) == Fixes(scans[1..], s);
      } else {
        assert Fixes(scans, s)[1..] == Fixes(scans[1..], s);
      }
    }
  }

  /** Each source is followed through its own valid readings, and nothing else, from power-on. */
  lemma MonitorOfARun(scans: seq<Scan>, s: Source)
    ensures Remembers(TrackOf(MonitorAfter(INITIAL, scans), s), Fixes(scans, s))
  {
    SourceFollowed(INITIAL, scans, s);
    TrackOfARun(TrackOf(INITIAL, s), [], Fixes(scans, s));
    assert [] + Fixes(scans, s) == Fixes(scans, s);
  }

  /** The wheel is timed from its last frame, and held to the shorter limit once it has ever sent one. */
  lemma {:induction false} WheelOfARun(m: Monitor, scans: seq<Scan>)
    ensures var n := MonitorAfter(m, scans);
      && (n.wheelAcquired <==> m.wheelAcquired || exists i :: 0 <= i < |scans| && scans[i].r.wheel.Some?)
      && ((n.wheelSeen == m.wheelSeen && forall i :: 0 <= i < |scans| ==> scans[i].r.wheel.None?)
          || exists i :: 0 <= i < |scans| && scans[i].r.wheel.Some? && n.wheelSeen == scans[i].t
                         && forall j :: i < j < |scans| ==> scans[j].r.wheel.None?)
    decreases |scans|
  {
    if scans != [] {
      var rest := scans[1..];
      var k := Observed(m, scans[0].r, scans[0].t);
      WheelOfARun(k, rest);
      forall i | 0 <= i < |rest| ensures scans[i + 1] == rest[i] {}
      if exists i :: 0 <= i < |rest| && rest[i].r.wheel.Some? {
        var i :| 0 <= i < |rest| && rest[i].r.wheel.Some?;
        assert scans[i + 1].r.wheel.Some?;
      }
      if !(forall i :: 0 <= i < |rest| ==> rest[i].r.wheel.None?) {
        var n := MonitorAfter(k, rest);
        var i :| 0 <= i < |rest| && rest[i].r.wheel.Some? && n.wheelSeen == rest[i].t
                 && forall j :: i < j < |rest| ==> rest[j].r.wheel.None?;
        assert scans[i + 1].r.wheel.Some? && n.wheelSeen == scans[i + 1].t;
        assert forall j :: i + 1 < j < |scans| ==> scans[j] == rest[j - 1];
      } else if scans[0].r.wheel.Some? {
        assert forall j :: 0 < j < |scans| ==> scans[j] == rest[j - 1];
      }
    }
  }
}
