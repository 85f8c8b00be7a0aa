/** `SensorManager`: brings up the fuel gauge, the environmental sensor and
    the inertial sensor, and refreshes its `data` record in place on every
    cycle. The drivers are replaced by what they return (parameters); a
    ghost log records which driver calls are made, in order. */
module Sensors {
  import opened Wrappers
  import opened Telemetry

  /** Driver calls whose presence and order the model tracks. */
  datatype Call =
    | WireBegin
    | GaugeBegin | GaugeConfigure            // lipo.begin(); setThreshold + clearAlert
    | EnvSetAddress | EnvBegin               // setI2CAddress(0x76); beginI2C()
    | ImuBegin | ImuReset | ImuResetPoll     // begin(); deviceReset(); getDeviceReset()
    | ImuConfigure                           // rate, scale and filter setters
    | ReadTemperature | ReadHumidity | ReadPressure
    | GetAccel | GetGyro
    | GetVoltage | GetSoc

  /** Index of the first poll that reports the reset as complete. */
  function FirstTrue(polls: seq<bool>): (i: nat)
    requires true in polls
    ensures i < |polls| && polls[i]
    ensures forall j :: 0 <= j < i ==> !polls[j]
  {
    if polls[0] then 0 else FirstTrue(polls[1..]) + 1
  }

  function BatteryInitCalls(found: bool): seq<Call> {
    [GaugeBegin] + if found then [GaugeConfigure] else []
  }

  const EnvironmentalInitCalls: seq<Call> := [EnvSetAddress, EnvBegin]

  /** initIMU's driver calls: after a successful begin, one reset, then
      getDeviceReset() until it first answers true, then configuration. */
  function ImuInitCalls(found: bool, polls: seq<bool>): seq<Call>
    requires found ==> true in polls
  {
    [ImuBegin] + if found then [ImuReset] + seq(FirstTrue(polls) + 1, _ => ImuResetPoll) + [ImuConfigure] else []
  }

  const EnvironmentalReadCalls: seq<Call> := [ReadTemperature, ReadHumidity, ReadPressure]

  /** `getAccel(..) && getGyro(..)`: the gyroscope is not asked when the accelerometer fails. */
  function ImuReadCalls(accel: Option<Vec3>): seq<Call> {
    [GetAccel] + if accel.Some? then [GetGyro] else []
  }

  const BatteryReadCalls: seq<Call> := [GetVoltage, GetSoc]

  class SensorManager {
    var data: SensorData
    /** The platform's square-root routine. */
    const sqrt: real -> real
    ghost var calls: seq<Call>

    /** A global instance starts zero-initialised. */
    constructor (sqrt: real -> real)
      ensures data == Cleared && this.sqrt == sqrt && calls == []
    {
      data := Cleared;
      this.sqrt := sqrt;
      calls := [];
    }

    /** Runs the three initialisations in order, none of them depending on
        another's success, and then clears the whole record, flags included. */
    method Begin(gaugeFound: bool, envFound: bool, imuFound: bool, resetPolls: seq<bool>)
      requires imuFound ==> true in resetPolls
      modifies this
      ensures data == Cleared
      ensures !data.tempSensorOk && !data.imuSensorOk && !data.batterySensorOk
      ensures calls == old(calls) + [WireBegin] + BatteryInitCalls(gaugeFound)
                       + EnvironmentalInitCalls + ImuInitCalls(imuFound, resetPolls)
    {
      calls := calls + [WireBegin];
      InitBattery(gaugeFound);
      InitEnvironmental(envFound);
      InitIMU(imuFound, resetPolls);
      data := Cleared;
    }

    method InitBattery(found: bool)
      modifies this
      ensures data == old(data).(batterySensorOk := found)
      ensures calls == old(calls) + BatteryInitCalls(found)
    {
      calls := calls + [GaugeBegin];
      if !found {
        data := data.(batterySensorOk := false);
      } else {
        calls := calls + [GaugeConfigure];
        data := data.(batterySensorOk := true);
      }
    }

    method InitEnvironmental(found: bool)
      modifies this
      ensures data == old(data).(tempSensorOk := found)
      ensures calls == old(calls) + EnvironmentalInitCalls
    {
      calls := calls + [EnvSetAddress, EnvBegin];
      if !found {
        data := data.(tempSensorOk := false);
      } else {
        data := data.(tempSensorOk := true);
      }
    }

    /** A failed begin clears the flag and returns at once; otherwise the flag is
        set only after the reset has completed and the device is configured.
        `resetPolls` lists what successive getDeviceReset() calls answer; the
        hardware is assumed to finish its reset eventually. */
    method InitIMU(found: bool, resetPolls: seq<bool>)
      requires found ==> true in resetPolls
      modifies this
      ensures data == old(data).(imuSensorOk := found)
      ensures calls == old(calls) + ImuInitCalls(found, resetPolls)
    {
      calls := calls + [ImuBegin];
      if !found {
        data := data.(imuSensorOk := false);
        return;
      }
      calls := calls + [ImuReset];
      ghost var before := calls;
      var i := 0;
      calls := calls + [ImuResetPoll];
      while !resetPolls[i]
        invariant 0 <= i < |resetPolls| && true in resetPolls[i..]
        invariant forall j :: 0 <= j < i ==> !resetPolls[j]
        invariant calls == before + seq(i + 1, _ => ImuResetPoll)
        invariant data == old(data)
        decreases |resetPolls| - i
      {
        assert resetPolls[i..] == [resetPolls[i]] + resetPolls[i + 1..];
        i := i + 1;
        calls := calls + [ImuResetPoll];
      }
      assert i == FirstTrue(resetPolls);
      calls := calls + [ImuConfigure];
      data := data.(imuSensorOk := true);
    }

    /** Environmental, inertial and battery reads, in that order. */
    method ReadAll(env: (real, real, real), accel: Option<Vec3>, gyro: Option<Vec3>, power: (real, real))
      modifies this
      ensures data == AfterReadAll(old(data), env, accel, gyro, power, sqrt)
      ensures calls == old(calls) + EnvironmentalReadCalls + ImuReadCalls(accel) + BatteryReadCalls
    {
      ReadEnvironmental(env.0, env.1, env.2);
      ReadIMU(accel, gyro);
      ReadBattery(power.0, power.1);
    }

    method ReadEnvironmental(temperature: real, humidity: real, pressure: real)
      modifies this
      ensures data == WithEnvironmental(old(data), temperature, humidity, pressure)
      ensures calls == old(calls) + EnvironmentalReadCalls
    {
      calls := calls + [ReadTemperature];
      data := data.(temperatureC := temperature);
      calls := calls + [ReadHumidity];
      data := data.(humidityPercent := humidity);
      calls := calls + [ReadPressure];
      data := data.(pressurePa := pressure);
    }

    /** `accel` and `gyro` are what getAccel and getGyro would deliver (None: the fetch fails). */
    method ReadIMU(accel: Option<Vec3>, gyro: Option<Vec3>)
      modifies this
      ensures data == WithInertial(old(data), accel, gyro, sqrt)
      ensures calls == old(calls) + ImuReadCalls(accel)
    {
      calls := calls + [GetAccel];
      var fetched := accel.Some?;
      if fetched {
        calls := calls + [GetGyro];
        fetched := gyro.Some?;
      }
      if fetched {
        data := data.(accelXMg := accel.value.0);
        data := data.(accelYMg := accel.value.1);
        data := data.(accelZMg := accel.value.2);
        var sumOfSquares := data.accelXMg * data.accelXMg + data.accelYMg * data.accelYMg
                            + data.accelZMg * data.accelZMg;
        assert sumOfSquares == SumOfSquares(accel.value);
        data := data.(accelTotalMg := sqrt(sumOfSquares));
        data := data.(gyroXDps := gyro.value.0 / 1000.0);
        data := data.(gyroYDps := gyro.value.1 / 1000.0);
        data := data.(gyroZDps := gyro.value.2 / 1000.0);
      } else {
        data := data.(accelXMg := Sentinel);
        data := data.(accelYMg := Sentinel);
        data := data.(accelZMg := Sentinel);
        data := data.(accelTotalMg := Sentinel);
        data := data.(gyroXDps := Sentinel);
        data := data.(gyroYDps := Sentinel);
        data := data.(gyroZDps := Sentinel);
      }
    }

    method ReadBattery(voltage: real, soc: real)
      modifies this
      ensures data == WithPower(old(data), voltage, soc)
      ensures calls == old(calls) + BatteryReadCalls
    {
      calls := calls + [GetVoltage];
      data := data.(batteryVoltageV := voltage);
      calls := calls + [GetSoc];
      data := data.(batteryPercent := soc);
    }
  }
}
