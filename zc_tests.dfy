/**
 * The scenarios of the zero-crossing module's tests, stated as postconditions that
 * Dafny verifies on the model: a pin whose writes succeed, a pin whose writes fail
 * with SetHigh / SetLow, and a zero crossing whose wait always succeeds.
 */
module ZcTests {

  import opened Wrappers
  import opened RbdError
  import opened Zc

  /** The always-succeeding test pin, before any write. */
  function GoodPin(): (p: OutputPin)
    ensures p.Healthy() && p.level == Unknown
  {
    OutputPin(Unknown, None, None)
  }

  /** The always-failing test pin: set_high fails with SetHigh, set_low with SetLow. */
  function FailPin(): (p: OutputPin)
    ensures p.highFault == Some(From(SetHigh)) && p.lowFault == Some(From(SetLow))
  {
    OutputPin(Unknown, Some(From(SetHigh)), Some(From(SetLow)))
  }

  /** Power 20: tick(10) succeeds and drives the pin high, tick(30) succeeds and drives it low. */
  method DevicePinUpThenLow() returns (r10: Outcome, level10: Level, r30: Outcome, level30: Level)
    ensures r10 == Ok && level10 == High
    ensures r30 == Ok && level30 == Low
  {
    var device := new DimmerDevice(0, GoodPin());
    device.SetPower(20);
    r10 := device.Tick(10);
    level10 := device.pin.level;
    r30 := device.Tick(30);
    level30 := device.pin.level;
  }

  /** Power 20 on a failing pin: tick(10) reports SetHigh, tick(30) reports SetLow. */
  method DeviceFail() returns (r10: Outcome, r30: Outcome)
    ensures r10.Err? && r10.error.kind == SetHigh
    ensures r30.Err? && r30.error.kind == SetLow
  {
    var device := new DimmerDevice(0, FailPin());
    device.SetPower(20);
    r10 := device.Tick(10);
    r30 := device.Tick(30);
  }

  /** One device with id 0 and power 10 queued through the manager's sender: the first
      call succeeds and leaves the pin high (it ticks with 2); after ten more successful
      calls (ticks 3..12) the pin is low. */
  method TurnDeviceUpThenDown() returns (first: Outcome, firstLevel: Level, allOk: bool, lastLevel: Level)
    ensures first == Ok && firstLevel == High
    ensures allOk && lastLevel == Low
  {
    var device := new DimmerDevice(0, GoodPin());
    var manager := new DevicesDimmerManager();
    manager.Add(device);
    var tx := manager.Sender();
    tx.Send(Notification(0, 10));

    first := manager.WaitZeroCrossing(Ok);
    assert manager.counter == 2;
    TickHealthyPin(DeviceState(0, 10, GoodPin()), 2);
    firstLevel := device.pin.level;

    allOk := true;
    for i := 1 to 11
      invariant manager.Valid() && manager.devices == [device]
      invariant manager.mailbox.queue == [] && !manager.mailbox.disconnected
      invariant manager.counter as int == i + 1
      invariant device.id == 0 && device.power == 10 && device.pin.Healthy()
      invariant device.pin.level == Decision(10, manager.counter)
      invariant allOk
    {
      ghost var before := device.State();
      var r := manager.WaitZeroCrossing(Ok);
      TickHealthyPin(before, manager.counter);
      allOk := allOk && r == Ok;
    }
    lastLevel := device.pin.level;
  }
}
