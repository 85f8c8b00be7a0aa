/** The telemetry record shared by acquisition and logging (`SensorData`),
    and the effect of each per-cycle read on it, as functions of the old
    record and of what the drivers returned. Floats are modelled as reals;
    the platform's square root is passed in as a function. */
module Telemetry {
  import opened Wrappers

  /** One sample, field for field in declaration order. */
  datatype SensorData = SensorData(
    // environmental
    temperatureC: real,
    humidityPercent: real,
    pressurePa: real,
    // inertial: acceleration in milli-g
    accelXMg: real,
    accelYMg: real,
    accelZMg: real,
    accelTotalMg: real,
    // inertial: angular rate in degrees per second
    gyroXDps: real,
    gyroYDps: real,
    gyroZDps: real,
    // battery
    batteryVoltageV: real,
    batteryPercent: real,
    // health flags
    tempSensorOk: bool,
    imuSensorOk: bool,
    batterySensorOk: bool)

  /** The "could not be read this cycle" marker. */
  const Sentinel: real := -999.0

  /** What `memset(&data, 0, sizeof(data))` leaves: every float +0.0, every flag false. */
  const Cleared: SensorData :=
    SensorData(0.0, 0.0, 0.0, 0.0, 0.0, 0.0, 0.0, 0.0, 0.0, 0.0, 0.0, 0.0, false, false, false)

  /** A three-axis sample as the inertial driver returns it. */
  type Vec3 = (real, real, real)

  function Environmental(d: SensorData): (real, real, real) {
    (d.temperatureC, d.humidityPercent, d.pressurePa)
  }

  /** The seven inertial fields, in the order they are logged. */
  function Inertial(d: SensorData): seq<real> {
    [d.accelXMg, d.accelYMg, d.accelZMg, d.accelTotalMg, d.gyroXDps, d.gyroYDps, d.gyroZDps]
  }

  function Power(d: SensorData): (real, real) {
    (d.batteryVoltageV, d.batteryPercent)
  }

  function Health(d: SensorData): (bool, bool, bool) {
    (d.tempSensorOk, d.imuSensorOk, d.batterySensorOk)
  }

  /** Everything a read cycle refreshes: the twelve measurement fields. */
  function Measurements(d: SensorData): seq<real> {
    [d.temperatureC, d.humidityPercent, d.pressurePa] + Inertial(d) + [d.batteryVoltageV, d.batteryPercent]
  }

  const AllSentinel: seq<real> := seq(7, _ => Sentinel)

  function SumOfSquares(v: Vec3): real {
    v.0 * v.0 + v.1 * v.1 + v.2 * v.2
  }

  /** `sqrt` is a square root on the non-negative reals. */
  ghost predicate IsSqrt(sqrt: real -> real) {
    forall x :: x >= 0.0 ==> sqrt(x) >= 0.0 && sqrt(x) * sqrt(x) == x
  }

  /** readEnvironmental: the driver's three values are stored as they are, whatever the health flag says. */
  function WithEnvironmental(d: SensorData, temperature: real, humidity: real, pressure: real): (r: SensorData)
    ensures Environmental(r) == (temperature, humidity, pressure)
    ensures Inertial(r) == Inertial(d) && Power(r) == Power(d) && Health(r) == Health(d)
  {
    d.(temperatureC := temperature, humidityPercent := humidity, pressurePa := pressure)
  }

  /** readIMU: all seven inertial fields come from one accelerometer and one gyroscope
      fetch when both succeed (gyro converted from milli-dps, total the Euclidean norm
      of the stored axes), and all seven are the sentinel otherwise. */
  function WithInertial(d: SensorData, accel: Option<Vec3>, gyro: Option<Vec3>, sqrt: real -> real): (r: SensorData)
    ensures Environmental(r) == Environmental(d) && Power(r) == Power(d) && Health(r) == Health(d)
    ensures accel.Some? && gyro.Some? ==>
      && (r.accelXMg, r.accelYMg, r.accelZMg) == accel.value
      && r.accelTotalMg == sqrt(SumOfSquares((r.accelXMg, r.accelYMg, r.accelZMg)))
      && (r.gyroXDps * 1000.0, r.gyroYDps * 1000.0, r.gyroZDps * 1000.0) == gyro.value
    ensures !(accel.Some? && gyro.Some?) ==> Inertial(r) == AllSentinel
  {
    if accel.Some? && gyro.Some? then
      var a, g := accel.value, gyro.value;
      d.(accelXMg := a.0, accelYMg := a.1, accelZMg := a.2,
         accelTotalMg := sqrt(SumOfSquares(a)),
         gyroXDps := g.0 / 1000.0, gyroYDps := g.1 / 1000.0, gyroZDps := g.2 / 1000.0)
    else
      d.(accelXMg := Sentinel, accelYMg := Sentinel, accelZMg := Sentinel, accelTotalMg := Sentinel,
         gyroXDps := Sentinel, gyroYDps := Sentinel, gyroZDps := Sentinel)
  }

  /** readBattery: voltage and state of charge stored as the fuel gauge reports them. */
  function WithPower(d: SensorData, voltage: real, soc: real): (r: SensorData)
    ensures Power(r) == (voltage, soc)
    ensures Environmental(r) == Environmental(d) && Inertial(r) == Inertial(d) && Health(r) == Health(d)
  {
    d.(batteryVoltageV := voltage, batteryPercent := soc)
  }

  /** readAll: environmental, then inertial, then battery. */
  function AfterReadAll(d: SensorData, env: (real, real, real), accel: Option<Vec3>, gyro: Option<Vec3>,
                        power: (real, real), sqrt: real -> real): (r: SensorData)
    ensures Health(r) == Health(d)
    ensures Environmental(r) == env && Power(r) == power
    ensures Inertial(r) == Inertial(WithInertial(d, accel, gyro, sqrt))
  {
    WithPower(WithInertial(WithEnvironmental(d, env.0, env.1, env.2), accel, gyro, sqrt), power.0, power.1)
  }

  /** Never a mix: after a read the inertial fields are either one consistent driver
      sample (norm and unit conversion hold) or seven sentinels, and which one is
      decided by the two fetches alone. */
  lemma InertialAllOrNothing(d: SensorData, accel: Option<Vec3>, gyro: Option<Vec3>, sqrt: real -> real)
    requires IsSqrt(sqrt)
    ensures var r := WithInertial(d, accel, gyro, sqrt);
      if accel.Some? && gyro.Some? then
        && r.accelTotalMg >= 0.0
        && r.accelTotalMg * r.accelTotalMg == r.accelXMg * r.accelXMg + r.accelYMg * r.accelYMg + r.accelZMg * r.accelZMg
        && r.gyroXDps == gyro.value.0 / 1000.0 && r.gyroYDps == gyro.value.1 / 1000.0 && r.gyroZDps == gyro.value.2 / 1000.0
      else
        forall i :: 0 <= i < |Inertial(r)| ==> Inertial(r)[i] == Sentinel
  {
    var r := WithInertial(d, accel, gyro, sqrt);
    if accel.Some? && gyro.Some? {
      var a := accel.value;
      assert a.0 * a.0 >= 0.0 && a.1 * a.1 >= 0.0 && a.2 * a.2 >= 0.0;
      assert SumOfSquares(a) >= 0.0;
    }
  }

  /** The record is fully overwritten each cycle: the measurements after readAll
      depend on the driver values only, never on the previous record. */
  lemma ReadAllForgetsHistory(d1: SensorData, d2: SensorData, env: (real, real, real), accel: Option<Vec3>,
                              gyro: Option<Vec3>, power: (real, real), sqrt: real -> real)
    ensures Measurements(AfterReadAll(d1, env, accel, gyro, power, sqrt))
         == Measurements(AfterReadAll(d2, env, accel, gyro, power, sqrt))
  {
  }

  /** The health flags recorded at initialisation never gate a read: changing them
      before a cycle changes nothing else after it. */
  lemma ReadsIgnoreHealthFlags(d: SensorData, flags: (bool, bool, bool), env: (real, real, real),
                               accel: Option<Vec3>, gyro: Option<Vec3>, power: (real, real), sqrt: real -> real)
    ensures var d' := d.(tempSensorOk := flags.0, imuSensorOk := flags.1, batterySensorOk := flags.2);
      AfterReadAll(d', env, accel, gyro, power, sqrt)
        == AfterReadAll(d, env, accel, gyro, power, sqrt).(tempSensorOk := flags.0, imuSensorOk := flags.1, batterySensorOk := flags.2)
  {
  }
}
