/**
 * The zero-crossing dimmer of `src/zc/mod.rs`: output channels (DimmerDevice) whose
 * pin is driven high while the tick value does not exceed the channel's power, and a
 * manager that, on each zero crossing, drains a mailbox of power changes, waits for the
 * edge, advances a counter cycling through 1..100 and ticks every channel with it.
 *
 * The hardware is abstract: an output pin is a value that remembers the level it last
 * drove and the fault (if any) each kind of write reports; the result of the edge wait
 * is a parameter of the manager's call.
 */
module Zc {

  import opened Wrappers
  import opened RbdError

  newtype u8 = x: int | 0 <= x < 256

  // ---------------------------------------------------------------------------
  // Abstract output pin

  /** The level an output pin is known to be at; Unknown before its first write. */
  datatype Level = Unknown | Low | High

  /** An output capability: the level it last drove successfully and the fault its
      set_high / set_low writes report (None: the write succeeds). */
  datatype OutputPin = OutputPin(level: Level, highFault: Option<RbdDimmerError>, lowFault: Option<RbdDimmerError>)
  {
    /** A pin whose writes always succeed. */
    predicate Healthy() {
      highFault.None? && lowFault.None?
    }

    function SetHigh(): (w: PinWrite)
      ensures w.result == (if highFault.Some? then Err(highFault.value) else Ok)
      ensures w.result.Ok? ==> w.pin.level == High
      ensures w.result.Err? ==> w.pin == this
      ensures w.pin.highFault == highFault && w.pin.lowFault == lowFault
    {
      match highFault
      case None => PinWrite(this.(level := High), Ok)
      case Some(e) => PinWrite(this, Err(e))
    }

    function SetLow(): (w: PinWrite)
      ensures w.result == (if lowFault.Some? then Err(lowFault.value) else Ok)
      ensures w.result.Ok? ==> w.pin.level == Low
      ensures w.result.Err? ==> w.pin == this
      ensures w.pin.highFault == highFault && w.pin.lowFault == lowFault
    {
      match lowFault
      case None => PinWrite(this.(level := Low), Ok)
      case Some(e) => PinWrite(this, Err(e))
    }
  }

  /** The pin after a write, and what the write returned. */
  datatype PinWrite = PinWrite(pin: OutputPin, result: Outcome)

  // ---------------------------------------------------------------------------
  // One output channel

  /** The observable state of one device. */
  datatype DeviceState = DeviceState(id: u8, power: u8, pin: OutputPin)

  /** The level a tick with value t asks for: low once t exceeds the power. */
  function Decision(power: u8, t: u8): Level {
    if t > power then Low else High
  }

  /** The pure meaning of `DimmerDevice::tick`. */
  function TickState(s: DeviceState, t: u8): (r: (DeviceState, Outcome))
    ensures r.0.id == s.id && r.0.power == s.power
    ensures t <= s.power ==> r.0.pin == s.pin.SetHigh().pin && r.1 == s.pin.SetHigh().result
    ensures t > s.power ==> r.0.pin == s.pin.SetLow().pin && r.1 == s.pin.SetLow().result
  {
    var w := if t > s.power then s.pin.SetLow() else s.pin.SetHigh();
    (s.(pin := w.pin), w.result)
  }

  /** On a pin whose writes succeed, a tick drives the pin high exactly when t <= power,
      and low otherwise; it succeeds. */
  lemma TickHealthyPin(s: DeviceState, t: u8)
    requires s.pin.Healthy()
    ensures TickState(s, t).1 == Ok
    ensures TickState(s, t).0.pin.level == High <==> t <= s.power
    ensures TickState(s, t).0.pin.level == Low <==> t > s.power
    ensures TickState(s, t).0.pin.Healthy()
  {
  }

  /** On a pin whose writes fail, a tick reports the fault of the write it attempted
      (set_high when t <= power, set_low otherwise) and leaves the pin as it was. */
  lemma TickFaultyPin(s: DeviceState, t: u8)
    requires s.pin.highFault.Some? && s.pin.lowFault.Some?
    ensures TickState(s, t).1 == Err(if t <= s.power then s.pin.highFault.value else s.pin.lowFault.value)
    ensures TickState(s, t).0 == s
  {
  }

  /** The decision is monotone in t: once a tick asks for low, every larger tick does too,
      and power 0 asks for low on every tick value 1..255. */
  lemma DecisionMonotone(power: u8, t1: u8, t2: u8)
    requires t1 <= t2
    ensures Decision(power, t1) == Low ==> Decision(power, t2) == Low
    ensures Decision(power, t2) == High ==> Decision(power, t1) == High
    ensures t1 >= 1 ==> Decision(0, t1) == Low
  {
  }

  class DimmerDevice {
    const id: u8
    var pin: OutputPin
    var power: u8

    ghost function State(): DeviceState
      reads this
    {
      DeviceState(id, power, pin)
    }

    /** A new device starts at power 0 with the given id and pin. */
    constructor (id: u8, pin: OutputPin)
      ensures this.id == id && this.pin == pin && this.power == 0
    {
      this.id := id;
      this.pin := pin;
      this.power := 0;
    }

    /** Stores exactly p; the pin is not touched. */
    method SetPower(p: u8)
      modifies this
      ensures power == p && pin == old(pin)
    {
      power := p;
    }

    /** Drives the pin low when t > power and high otherwise; returns that write's result. */
    method Tick(t: u8) returns (r: Outcome)
      modifies this
      ensures (State(), r) == TickState(old(State()), t)
    {
      if t > power {
        var w := pin.SetLow();
        pin := w.pin;
        return w.result;
      }
      var w := pin.SetHigh();
      pin := w.pin;
      r := w.result;
    }
  }

  // ---------------------------------------------------------------------------
  // The mailbox of power changes

  /** A request to set the power of the device with the given id. */
  datatype Notification = Notification(id: u8, power: u8)

  /** What a non-blocking receive returns. */
  datatype Received = Data(n: Notification) | Empty | Disconnected

  /** A FIFO channel. `disconnected` stands for "every sender has been dropped". */
  class Mailbox {
    var queue: seq<Notification>
    var disconnected: bool

    constructor ()
      ensures queue == [] && !disconnected
    {
      queue := [];
      disconnected := false;
    }

    /** Queued data is delivered first; only an empty channel reports disconnection. */
    method TryRecv() returns (r: Received)
      modifies this
      ensures disconnected == old(disconnected)
      ensures old(queue) != [] ==> r == Data(old(queue)[0]) && queue == old(queue)[1..]
      ensures old(queue) == [] ==> queue == [] && r == (if disconnected then Disconnected else Empty)
    {
      if queue != [] {
        r := Data(queue[0]);
        queue := queue[1..];
      } else if disconnected {
        r := Disconnected;
      } else {
        r := Empty;
      }
    }
  }

  /** The sending end of a mailbox. */
  class Sender {
    const channel: Mailbox

    constructor (channel: Mailbox)
      ensures this.channel == channel
    {
      this.channel := channel;
    }

    /** Appends the notification at the back of the channel's queue. */
    method Send(n: Notification)
      modifies channel
      ensures channel.queue == old(channel.queue) + [n]
      ensures channel.disconnected == old(channel.disconnected)
    {
      channel.queue := channel.queue + [n];
    }
  }

  // ---------------------------------------------------------------------------
  // Specification of the device list and of draining the mailbox

  predicate Distinct(ds: seq<DimmerDevice>) {
    forall i, j :: 0 <= i < j < |ds| ==> ds[i] != ds[j]
  }

  ghost function States(ds: seq<DimmerDevice>): (r: seq<DeviceState>)
    reads ds
    ensures |r| == |ds| && forall i :: 0 <= i < |ds| ==> r[i] == ds[i].State()
  {
    seq(|ds|, i reads ds requires 0 <= i < |ds| => ds[i].State())
  }

  function Ids(s: seq<DeviceState>): (r: seq<u8>)
    ensures |r| == |s| && forall i :: 0 <= i < |s| ==> r[i] == s[i].id
  {
    seq(|s|, i requires 0 <= i < |s| => s[i].id)
  }

  /** The position of the first id equal to `id` (what `iter_mut().find` picks). */
  function FirstMatch(ids: seq<u8>, id: u8): (r: Option<nat>)
    ensures r.Some? ==> r.value < |ids| && ids[r.value] == id
    ensures r.Some? ==> forall j :: 0 <= j < r.value ==> ids[j] != id
    ensures r.None? ==> forall j :: 0 <= j < |ids| ==> ids[j] != id
  {
    if ids == [] then None
    else if ids[0] == id then Some(0)
    else match FirstMatch(ids[1..], id)
      case None => None
      case Some(k) => Some(k + 1)
  }

  /** Device j is the first device of the list carrying its id. */
  ghost predicate FirstWithId(s: seq<DeviceState>, j: nat)
    requires j < |s|
  {
    forall i :: 0 <= i < j ==> s[i].id != s[j].id
  }

  /** The pure meaning of `update_dimmer_power`: exactly the first device whose id
      matches takes the new power; an unknown id changes nothing. */
  function ApplyNotification(s: seq<DeviceState>, n: Notification): (r: seq<DeviceState>)
    ensures |r| == |s| && Ids(r) == Ids(s)
    ensures forall j :: 0 <= j < |s| ==>
      r[j] == if s[j].id == n.id && FirstWithId(s, j) then s[j].(power := n.power) else s[j]
  {
    match FirstMatch(Ids(s), n.id)
    case None => s
    case Some(k) => s[k := s[k].(power := n.power)]
  }

  /** The messages applied one after another, oldest first. */
  function ApplyAll(s: seq<DeviceState>, msgs: seq<Notification>): (r: seq<DeviceState>)
    ensures |r| == |s| && Ids(r) == Ids(s)
    decreases |msgs|
  {
    if msgs == [] then s
    else ApplyNotification(ApplyAll(s, msgs[..|msgs| - 1]), msgs[|msgs| - 1])
  }

  /** The power carried by the last message for `id`, if any. */
  function LastPower(msgs: seq<Notification>, id: u8): (r: Option<u8>)
    ensures r.Some? <==> exists k :: 0 <= k < |msgs| && msgs[k].id == id
    ensures r.Some? ==>
      exists k :: 0 <= k < |msgs| && msgs[k] == Notification(id, r.value) &&
        (forall k' :: k < k' < |msgs| ==> msgs[k'].id != id)
    decreases |msgs|
  {
    if msgs == [] then None
    else if msgs[|msgs| - 1].id == id then Some(msgs[|msgs| - 1].power)
    else
      var r := LastPower(msgs[..|msgs| - 1], id);
      assert forall k :: 0 <= k < |msgs| - 1 ==> msgs[..|msgs| - 1][k] == msgs[k];
      r
  }

  /** Last write wins: after draining, the first device with a given id has the power
      of the last message for that id (or keeps its power if there was none); every
      other device keeps its power, and no id or pin changes. */
  lemma {:induction false} DrainLastWriteWins(s: seq<DeviceState>, msgs: seq<Notification>, j: nat)
    requires j < |s|
    ensures |ApplyAll(s, msgs)| == |s|
    ensures ApplyAll(s, msgs)[j].id == s[j].id && ApplyAll(s, msgs)[j].pin == s[j].pin
    ensures ApplyAll(s, msgs)[j].power ==
      if FirstWithId(s, j) && LastPower(msgs, s[j].id).Some? then LastPower(msgs, s[j].id).value
      else s[j].power
    decreases |msgs|
  {
    if msgs != [] {
      var prefix := msgs[..|msgs| - 1];
      var mid := ApplyAll(s, prefix);
      DrainLastWriteWins(s, prefix, j);
      assert Ids(mid) == Ids(s);
      assert forall i :: 0 <= i < |s| ==> mid[i].id == Ids(mid)[i] == Ids(s)[i] == s[i].id;
      assert FirstWithId(mid, j) == FirstWithId(s, j);
    }
  }

  /** Messages whose ids no device carries leave every device as it was. */
  lemma UnknownIdsChangeNothing(s: seq<DeviceState>, msgs: seq<Notification>)
    requires forall k, j :: 0 <= k < |msgs| && 0 <= j < |s| ==> msgs[k].id != s[j].id
    ensures ApplyAll(s, msgs) == s
  {
    forall j | 0 <= j < |s|
      ensures ApplyAll(s, msgs)[j] == s[j]
    {
      DrainLastWriteWins(s, msgs, j);
    }
  }

  // ---------------------------------------------------------------------------
  // Operations on the device list shared by both managers

  /** The pure meaning of `call_all_dimmer`: every device ticked with t, errors dropped. */
  function TickAll(s: seq<DeviceState>, t: u8): (r: seq<DeviceState>)
    ensures |r| == |s| && Ids(r) == Ids(s)
    ensures forall j :: 0 <= j < |s| ==> r[j].power == s[j].power
    ensures forall j :: 0 <= j < |s| ==>
      r[j].pin == (if Decision(s[j].power, t) == High then s[j].pin.SetHigh() else s[j].pin.SetLow()).pin
  {
    seq(|s|, j requires 0 <= j < |s| => TickState(s[j], t).0)
  }

  /** Applies one notification to the first device whose id matches. */
  method UpdateDimmerPower(devices: seq<DimmerDevice>, n: Notification)
    requires Distinct(devices)
    modifies devices
    ensures States(devices) == ApplyNotification(old(States(devices)), n)
  {
    ghost var s0 := States(devices);
    var i := 0;
    while i < |devices| && devices[i].id != n.id
      invariant 0 <= i <= |devices|
      invariant forall j :: 0 <= j < i ==> devices[j].id != n.id
    {
      i := i + 1;
    }
    if i < |devices| {
      devices[i].SetPower(n.power);
    }
    assert forall j :: 0 <= j < |devices| && j != i ==> devices[j].State() == s0[j];
  }

  /** Drains the mailbox completely, oldest message first; reports false when the
      channel turns out to be disconnected once empty. */
  method ReadPowerUpdateMessage(devices: seq<DimmerDevice>, rx: Mailbox) returns (ok: bool)
    requires Distinct(devices)
    modifies devices, rx
    ensures ok == !old(rx.disconnected)
    ensures rx.queue == [] && rx.disconnected == old(rx.disconnected)
    ensures States(devices) == ApplyAll(old(States(devices)), old(rx.queue))
  {
    ghost var s0 := States(devices);
    ghost var q0 := rx.queue;
    ghost var k := 0;
    while true
      invariant 0 <= k <= |q0| && rx.queue == q0[k..]
      invariant rx.disconnected == old(rx.disconnected)
      invariant States(devices) == ApplyAll(s0, q0[..k])
      decreases |rx.queue|
    {
      var m := rx.TryRecv();
      match m
      case Data(n) =>
        assert q0[..k + 1][..k] == q0[..k];
        UpdateDimmerPower(devices, n);
        k := k + 1;
      case Disconnected =>
        assert q0[..k] == q0;
        return false;
      case Empty =>
        assert q0[..k] == q0;
        break;
    }
    return true;
  }

  /** Ticks every device with t, discarding each device's error. */
  method CallAllDimmer(devices: seq<DimmerDevice>, t: u8)
    requires Distinct(devices)
    modifies devices
    ensures States(devices) == TickAll(old(States(devices)), t)
  {
    ghost var s0 := States(devices);
    for i := 0 to |devices|
      invariant forall j :: 0 <= j < i ==> devices[j].State() == TickState(s0[j], t).0
      invariant forall j :: i <= j < |devices| ==> devices[j].State() == s0[j]
    {
      var discarded := devices[i].Tick(t);
    }
  }

  // ---------------------------------------------------------------------------
  // The cyclic counter

  /** `counter += 1`, then back to 1 once it exceeds 100. The u8 addition is only
      defined below 255. */
  function NextCounter(c: u8): (r: u8)
    requires c < 255
    ensures 1 <= r <= 100 || r == c + 1
    ensures 1 <= c <= 100 ==> 1 <= r <= 100 && r as int == c as int % 100 + 1
  {
    if c + 1 > 100 then 1 else c + 1
  }

  /** The counter after n calls that get past the drain. */
  function CounterAfter(c: u8, n: nat): (r: u8)
    requires 1 <= c <= 100
    ensures 1 <= r <= 100
    decreases n
  {
    if n == 0 then c else CounterAfter(NextCounter(c), n - 1)
  }

  lemma {:induction false} CounterAfterClosedForm(c: u8, n: nat)
    requires 1 <= c <= 100
    ensures CounterAfter(c, n) as int == (c as int - 1 + n) % 100 + 1
    decreases n
  {
    if n > 0 {
      CounterAfterClosedForm(NextCounter(c), n - 1);
    }
  }

  /** The counter values held before each of n successive calls, starting at c. */
  function CounterValues(c: u8, n: nat): (r: seq<u8>)
    requires 1 <= c <= 100
    ensures |r| == n && (n > 0 ==> r[0] == c)
    ensures forall k :: 0 <= k < n ==> 1 <= r[k] <= 100 && r[k] as int == (c as int - 1 + k) % 100 + 1
  {
    forall k | 0 <= k < n
      ensures CounterAfter(c, k) as int == (c as int - 1 + k) % 100 + 1
    {
      CounterAfterClosedForm(c, k);
    }
    seq(n, k requires 0 <= k < n => CounterAfter(c, k))
  }

  /** The values this manager ticks its devices with over n successive calls from
      counter c: it increments first, so the first call from a new manager uses 2. */
  function ZcTicks(c: u8, n: nat): (r: seq<u8>)
    requires 1 <= c <= 100
    ensures r == CounterValues(NextCounter(c), n)
    ensures forall k :: 0 <= k < n ==> r[k] as int == (c as int + k) % 100 + 1
  {
    seq(n, k requires 0 <= k < n => CounterAfter(c, k + 1))
  }

  /** From a new manager (counter 1), the first n <= 99 calls tick the devices with
      2, 3, ..., n + 1: the value 1 is first used by the 100th call. */
  lemma ZcTicksFromNew(n: nat)
    requires n <= 99
    ensures ZcTicks(1, n) == Range(2, n + 2)
  {
  }

  /** The values lo, lo + 1, ..., hi - 1. */
  function Range(lo: nat, hi: nat): (r: seq<u8>)
    requires lo <= hi <= 256
    ensures |r| == hi - lo && forall i :: 0 <= i < |r| ==> r[i] as int == lo + i
  {
    seq(hi - lo, i requires 0 <= i < hi - lo => (lo + i) as u8)
  }

  /** How many of the tick values ask a device of the given power to go high. */
  function HighTicks(ts: seq<u8>, power: u8): (n: nat)
    ensures n <= |ts|
    decreases |ts|
  {
    if ts == [] then 0
    else HighTicks(ts[..|ts| - 1], power) + (if Decision(power, ts[|ts| - 1]) == High then 1 else 0)
  }

  function Min(a: int, b: int): int {
    if a < b then a else b
  }

  lemma {:induction false} HighTicksConcat(a: seq<u8>, b: seq<u8>, power: u8)
    ensures HighTicks(a + b, power) == HighTicks(a, power) + HighTicks(b, power)
    decreases |b|
  {
    if b != [] {
      assert (a + b)[..|a + b| - 1] == a + b[..|b| - 1];
      HighTicksConcat(a, b[..|b| - 1], power);
    } else {
      assert a + b == a;
    }
  }

  /** Among the tick values 1..h-1, exactly min(power, h-1) ask for high. */
  lemma {:induction false} HighTicksRange(h: nat, power: u8)
    requires 1 <= h <= 256
    ensures HighTicks(Range(1, h), power) == Min(power as int, h - 1)
    decreases h
  {
    if h > 1 {
      assert Range(1, h)[..h - 2] == Range(1, h - 1);
      HighTicksRange(h - 1, power);
    }
  }

  /** Range lists every value of [lo, hi) exactly once and nothing else. */
  lemma {:induction false} RangeOnce(lo: nat, hi: nat, v: u8)
    requires lo <= hi <= 256
    ensures multiset(Range(lo, hi))[v] == if lo <= v as int < hi then 1 else 0
    decreases hi - lo
  {
    if lo < hi {
      assert Range(lo, hi) == Range(lo, hi - 1) + [(hi - 1) as u8];
      RangeOnce(lo, hi - 1, v);
    }
  }

  /** From any counter value in range, the values held over 100 calls are a rotation
      of 1..100. */
  lemma CounterValuesRotation(c: u8)
    requires 1 <= c <= 100
    ensures CounterValues(c, 100) == Range(c as nat, 101) + Range(1, c as nat)
  {
  }

  /** Over 100 consecutive calls starting from counter c, every value 1..100 is held
      exactly once, so a device of the given power is asked for high in exactly
      min(power, 100) of them. */
  lemma HundredCallsCycle(c: u8, power: u8)
    requires 1 <= c <= 100
    ensures multiset(CounterValues(c, 100)) == multiset(Range(1, 101))
    ensures forall v: u8 :: multiset(CounterValues(c, 100))[v] == if 1 <= v <= 100 then 1 else 0
    ensures HighTicks(CounterValues(c, 100), power) == Min(power as int, 100)
  {
    CounterValuesRotation(c);
    var lower, upper := Range(1, c as nat), Range(c as nat, 101);
    assert Range(1, 101) == lower + upper;
    forall v: u8
      ensures multiset(CounterValues(c, 100))[v] == if 1 <= v <= 100 then 1 else 0
    {
      RangeOnce(1, 101, v);
    }
    HighTicksConcat(upper, lower, power);
    HighTicksConcat(lower, upper, power);
    HighTicksRange(101, power);
  }

  /** The same for this manager's tick values, which run one step ahead of the counter. */
  lemma ZcHundredCalls(c: u8, power: u8)
    requires 1 <= c <= 100
    ensures forall v: u8 :: multiset(ZcTicks(c, 100))[v] == if 1 <= v <= 100 then 1 else 0
    ensures HighTicks(ZcTicks(c, 100), power) == Min(power as int, 100)
  {
    HundredCallsCycle(NextCounter(c), power);
  }

  // ---------------------------------------------------------------------------
  // The manager

  class DevicesDimmerManager {
    var devices: seq<DimmerDevice>
    /** The receiving end of the channel; `Sender` hands out its sending ends. */
    const mailbox: Mailbox
    var counter: u8

    ghost predicate Valid()
      reads this
    {
      Distinct(devices) && 1 <= counter <= 100
    }

    /** No devices, an empty connected mailbox and counter 1. */
    constructor ()
      ensures Valid() && devices == [] && counter == 1
      ensures fresh(mailbox) && mailbox.queue == [] && !mailbox.disconnected
    {
      devices := [];
      mailbox := new Mailbox();
      counter := 1;
    }

    /** Drains the mailbox; unless disconnected, waits for the edge (whose result is
        `edge`), advances the counter and ticks every device with the new value. */
    method WaitZeroCrossing(edge: Outcome) returns (r: Outcome)
      requires Valid()
      modifies this, devices, mailbox
      ensures Valid() && devices == old(devices)
      ensures mailbox.queue == [] && mailbox.disconnected == old(mailbox.disconnected)
      ensures old(mailbox.disconnected) ==>
        && r == Err(From(ChannelCommunicationDisconnected))
        && counter == old(counter)
        && States(devices) == ApplyAll(old(States(devices)), old(mailbox.queue))
      ensures !old(mailbox.disconnected) ==>
        && r == edge
        && counter == NextCounter(old(counter))
        && States(devices) == TickAll(ApplyAll(old(States(devices)), old(mailbox.queue)), counter)
    {
      var ok := ReadPowerUpdateMessage(devices, mailbox);
      if !ok {
        return Err(From(ChannelCommunicationDisconnected));
      }
      var result := edge;
      counter := counter + 1;
      if counter > 100 {
        counter := 1;
      }
      CallAllDimmer(devices, counter);
      r := result;
    }

    /** A new sending end of this manager's own mailbox. */
    method Sender() returns (s: Sender)
      ensures fresh(s) && s.channel == mailbox
    {
      s := new Sender(mailbox);
    }

    /** Appends the device; the existing devices, their order and their states stay. */
    method Add(device: DimmerDevice)
      requires Valid() && device !in devices
      modifies this
      ensures Valid() && devices == old(devices) + [device] && counter == old(counter)
      ensures States(devices) == old(States(devices)) + [device.State()]
    {
      devices := devices + [device];
    }
  }
}
