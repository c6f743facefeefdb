/** Timed and threshold detectors feeding the fault manager (fsw/src/sensor_monitor.cpp). */
module SensorMonitor {
  import opened Wire
  import opened Catalog
  import F = FaultManager

  const IMU_STALE := 500
  const BUS_UNDER := 13600
  const BUS_OVER := 17000
  const OVER_CURRENT := 1500
  const TEMP_UNDER := 0
  const TEMP_OVER := 60000
  const WHEEL_TIMEOUT := 1000
  const WHEEL_ACQUIRE := 8000
  const WHEEL_FULL := 32000

  datatype Vec = Vec(x: int, y: int, z: int)

  datatype Imu = Imu(accelGyroOk: bool, magOk: bool, accel: Vec, gyro: Vec, mag: Vec)

  datatype Power = Power(valid: bool, busMv: int, currentMa: int)

  datatype Temp = Temp(valid: bool, milliC: int)

  /** This cycle's samples; the wheel's is its reported speed, the camera's whether it answered. */
  datatype Readings = Readings(
    imu: Option<Imu>, power: Option<Power>, temp: Option<Temp>, wheel: Option<int>, camera: Option<bool>)

  /** A reading and when it last moved. */
  datatype Track = Track(last: Vec, changedAt: nat)

  datatype Monitor = Monitor(accel: Track, gyro: Track, mag: Track, wheelSeen: nat, wheelAcquired: bool)

  const UNMOVED := Track(Vec(0, 0, 0), 0)
  const INITIAL := Monitor(UNMOVED, UNMOVED, UNMOVED, 0, false)

  function Tracked(k: Track, v: Vec, t: nat): Track { if v != k.last then Track(v, t) else k }

  predicate Stale(k: Track, v: Vec, t: nat) { Since(t, Tracked(k, v, t).changedAt) > IMU_STALE }

  function ImuSamples(m: Monitor, imu: Option<Imu>, t: nat): seq<F.Sample> {
    match imu
    case None => []
    case Some(i) => [
      F.Sample(ACCEL_GYRO_DROPOUT, !i.accelGyroOk || Stale(m.accel, i.accel, t) || Stale(m.gyro, i.gyro, t)),
      F.Sample(MAG_DROPOUT, !i.magOk || Stale(m.mag, i.mag, t))]
  }

  function PowerSamples(power: Option<Power>): seq<F.Sample> {
    match power
    case None => []
    case Some(p) =>
      if !p.valid then [F.Sample(POWER_DROPOUT, true)]
      else [F.Sample(POWER_DROPOUT, false), F.Sample(UNDERVOLTAGE, p.busMv < BUS_UNDER),
            F.Sample(OVERVOLTAGE, p.busMv > BUS_OVER), F.Sample(OVERCURRENT, p.currentMa > OVER_CURRENT)]
  }

  function TempSamples(temp: Option<Temp>): seq<F.Sample> {
    match temp
    case None => []
    case Some(k) =>
      if !k.valid then [F.Sample(TEMP_DROPOUT, true)]
      else [F.Sample(TEMP_DROPOUT, false), F.Sample(UNDERTEMPERATURE, k.milliC < TEMP_UNDER),
            F.Sample(OVERTEMPERATURE, k.milliC > TEMP_OVER)]
  }

  function SeenAt(m: Monitor, wheel: Option<int>, t: nat): nat { if wheel.Some? then t else m.wheelSeen }

  function Window(m: Monitor, wheel: Option<int>): nat {
    if m.wheelAcquired || wheel.Some? then WHEEL_TIMEOUT else WHEEL_ACQUIRE
  }

  /** Silence is the wheel's measurement: unlike every other sensor it is judged on cycles that bring nothing. */
  function WheelSamples(m: Monitor, wheel: Option<int>, t: nat): seq<F.Sample> {
    [F.Sample(WHEEL_DROPOUT, Since(t, SeenAt(m, wheel, t)) > Window(m, wheel))]
    + match wheel
      case None => []
      case Some(v) => [F.Sample(WHEEL_SATURATED, (if v < 0 then -v else v) >= WHEEL_FULL)]
  }

  function CameraSamples(camera: Option<bool>): seq<F.Sample> {
    match camera
    case None => []
    case Some(ok) => [F.Sample(CAMERA_DROPOUT, !ok)]
  }

  function Samples(m: Monitor, r: Readings, t: nat): seq<F.Sample> {
    ImuSamples(m, r.imu, t) + PowerSamples(r.power) + TempSamples(r.temp)
    + WheelSamples(m, r.wheel, t) + CameraSamples(r.camera)
  }

  function Observed(m: Monitor, r: Readings, t: nat): Monitor {
    var imu := r.imu;
    Monitor(
      if imu.Some? && imu.value.accelGyroOk then Tracked(m.accel, imu.value.accel, t) else m.accel,
      if imu.Some? && imu.value.accelGyroOk then Tracked(m.gyro, imu.value.gyro, t) else m.gyro,
      if imu.Some? && imu.value.magOk then Tracked(m.mag, imu.value.mag, t) else m.mag,
      SeenAt(m, r.wheel, t),
      m.wheelAcquired || r.wheel.Some?)
  }

  class Watch {
    var accel: Track
    var gyro: Track
    var mag: Track
    var wheelSeen: nat
    var wheelAcquired: bool

    ghost function Now(): Monitor
      reads this
    {
      Monitor(accel, gyro, mag, wheelSeen, wheelAcquired)
    }

    constructor ()
      ensures Now() == INITIAL
    {
      accel, gyro, mag, wheelSeen, wheelAcquired := UNMOVED, UNMOVED, UNMOVED, 0, false;
    }

    /** source_stale, the remembered reading passed in and out. */
    method SourceStale(k: Track, v: Vec, t: nat) returns (next: Track, stale: bool)
      ensures next == Tracked(k, v, t) && stale == Stale(k, v, t)
    {
      next := k;
      if v != k.last {
        next := Track(v, t);
      }
      stale := Since(t, next.changedAt) > IMU_STALE;
    }

    method EvaluateImu(imu: Option<Imu>, fm: F.Manager, t: nat)
      requires fm.Valid()
      modifies this`accel, this`gyro, this`mag, fm, fm.streak
      ensures fm.Valid() && fm.Now() == F.UpdateAll(old(fm.Now()), ImuSamples(old(Now()), imu, t), t)
      ensures Now() == Observed(old(Now()), Readings(imu, None, None, None, None), t)
    {
      if imu.None? {
        return;
      }
      var i := imu.value;
      var accelFrozen, gyroFrozen, magFrozen := false, false, false;
      if i.accelGyroOk {
        accel, accelFrozen := SourceStale(accel, i.accel, t);
        gyro, gyroFrozen := SourceStale(gyro, i.gyro, t);
      }
      if i.magOk {
        mag, magFrozen := SourceStale(mag, i.mag, t);
      }
      Feed2(fm, F.Sample(ACCEL_GYRO_DROPOUT, !i.accelGyroOk || accelFrozen || gyroFrozen),
            F.Sample(MAG_DROPOUT, !i.magOk || magFrozen), t);
    }

    method Feed(fm: F.Manager, a: F.Sample, t: nat)
      requires fm.Valid()
      modifies fm, fm.streak
      ensures fm.Valid() && fm.Now() == F.UpdateAll(old(fm.Now()), [a], t)
    {
      fm.UpdateFault(a.fault, a.bad, t);
    }

    method Feed2(fm: F.Manager, a: F.Sample, b: F.Sample, t: nat)
      requires fm.Valid()
      modifies fm, fm.streak
      ensures fm.Valid() && fm.Now() == F.UpdateAll(old(fm.Now()), [a, b], t)
    {
      ghost var s := fm.Now();
      Feed(fm, a, t);
      Feed(fm, b, t);
      F.UpdateAllConcat(s, [a], [b], t);
    }

    method EvaluatePower(power: Option<Power>, fm: F.Manager, t: nat)
      requires fm.Valid()
      modifies fm, fm.streak
      ensures fm.Valid() && fm.Now() == F.UpdateAll(old(fm.Now()), PowerSamples(power), t)
    {
      if power.None? {
        return;
      }
      if !power.value.valid {
        Feed(fm, F.Sample(POWER_DROPOUT, true), t);
        return;
      }
      ghost var s := fm.Now();
      var p := power.value;
      var low, high := F.Sample(UNDERVOLTAGE, p.busMv < BUS_UNDER), F.Sample(OVERVOLTAGE, p.busMv > BUS_OVER);
      var good, draw := F.Sample(POWER_DROPOUT, false), F.Sample(OVERCURRENT, p.currentMa > OVER_CURRENT);
      Feed2(fm, good, low, t);
      Feed2(fm, high, draw, t);
      F.UpdateAllConcat(s, [good, low], [high, draw], t);
    }

    method EvaluateTemp(temp: Option<Temp>, fm: F.Manager, t: nat)
      requires fm.Valid()
      modifies fm, fm.streak
      ensures fm.Valid() && fm.Now() == F.UpdateAll(old(fm.Now()), TempSamples(temp), t)
    {
      if temp.None? {
        return;
      }
      if !temp.value.valid {
        Feed(fm, F.Sample(TEMP_DROPOUT, true), t);
        return;
      }
      ghost var s := fm.Now();
      var k := temp.value;
      var good, cold, hot := F.Sample(TEMP_DROPOUT, false), F.Sample(UNDERTEMPERATURE, k.milliC < TEMP_UNDER),
        F.Sample(OVERTEMPERATURE, k.milliC > TEMP_OVER);
      Feed2(fm, good, cold, t);
      Feed(fm, hot, t);
      F.UpdateAllConcat(s, [good, cold], [hot], t);
    }

    method EvaluateWheel(wheel: Option<int>, fm: F.Manager, t: nat)
      requires fm.Valid()
      modifies this`wheelSeen, this`wheelAcquired, fm, fm.streak
      ensures fm.Valid() && fm.Now() == F.UpdateAll(old(fm.Now()), WheelSamples(old(Now()), wheel, t), t)
      ensures Now() == Observed(old(Now()), Readings(None, None, None, wheel, None), t)
    {
      ghost var s := fm.Now();
      if wheel.Some? {
        wheelSeen := t;
        wheelAcquired := true;
      }
      var window := if wheelAcquired then WHEEL_TIMEOUT else WHEEL_ACQUIRE;
      var silent := F.Sample(WHEEL_DROPOUT, Since(t, wheelSeen) > window);
      Feed(fm, silent, t);
      if wheel.Some? {
        var v := wheel.value;
        var full := F.Sample(WHEEL_SATURATED, (if v < 0 then -v else v) >= WHEEL_FULL);
        Feed(fm, full, t);
        F.UpdateAllConcat(s, [silent], [full], t);
      }
    }

    method EvaluateCamera(camera: Option<bool>, fm: F.Manager, t: nat)
      requires fm.Valid()
      modifies fm, fm.streak
      ensures fm.Valid() && fm.Now() == F.UpdateAll(old(fm.Now()), CameraSamples(camera), t)
    {
      if camera.None? {
        return;
      }
      Feed(fm, F.Sample(CAMERA_DROPOUT, !camera.value), t);
    }

    method Evaluate(r: Readings, fm: F.Manager, t: nat)
      requires fm.Valid()
      modifies this, fm, fm.streak
      ensures fm.Valid() && fm.Now() == F.UpdateAll(old(fm.Now()), Samples(old(Now()), r, t), t)
      ensures Now() == Observed(old(Now()), r, t)
    {
      ghost var s, m := fm.Now(), Now();
      EvaluateImu(r.imu, fm, t);
      EvaluatePower(r.power, fm, t);
      EvaluateTemp(r.temp, fm, t);
      EvaluateWheel(r.wheel, fm, t);
      EvaluateCamera(r.camera, fm, t);
      FiveConcat(s, ImuSamples(m, r.imu, t), PowerSamples(r.power), TempSamples(r.temp),
                 WheelSamples(m, r.wheel, t), CameraSamples(r.camera), t);
    }
  }

  lemma FiveConcat(s: F.Faults, a: seq<F.Sample>, b: seq<F.Sample>, c: seq<F.Sample>, d: seq<F.Sample>,
                   e: seq<F.Sample>, t: nat)
    ensures F.UpdateAll(s, a + b + c + d + e, t) ==
      F.UpdateAll(F.UpdateAll(F.UpdateAll(F.UpdateAll(F.UpdateAll(s, a, t), b, t), c, t), d, t), e, t)
  {
    F.UpdateAllConcat(s, a, b, t);
    F.UpdateAllConcat(s, a + b, c, t);
    F.UpdateAllConcat(s, a + b + c, d, t);
    F.UpdateAllConcat(s, a + b + c + d, e, t);
  }
}
