# rbd_dimmer zero-crossing dimmer, modelled in Dafny

This project models the core of the `rbd_dimmer` crate. The crate drives RobotDyn
triac dimmer channels from a mains zero-crossing signal.

- **DimmerDevice.** A channel has an `id`, an output pin and a `power` byte. A tick with
  value `t` drives the pin low when `t > power` and high otherwise, so it is high while
  `t <= power`: at power 20 `tick(10)` is high and `tick(30)` is low, as
  `src/zc/tests.rs:59-77` checks. The tick returns the result of that pin write.
- **DevicesDimmerManager.** The manager owns a list of devices, a channel (mailbox) of
  `(id, power)` notifications, and a `counter` byte that cycles through 1..100. Each
  `wait_zero_crossing` call does four things in order:
  1. It drains the mailbox. Each message sets the power of the first device whose id
     matches.
  2. It waits for the rising edge.
  3. It advances the counter, wrapping 100 back to 1.
  4. It ticks every device with the counter and discards the per-device errors.
- **Two copies.** The crate has two copies of the manager. `src/zc/mod.rs` increments the
  counter and then ticks. The crate root `src/lib.rs` ticks and then increments.
- **Errors.** `RbdDimmerError` pairs a kind with a message. Its display form is a fixed
  prefix followed by the message.

Files:

- `wrappers.dfy`: `Option`.
- `error.dfy`, module `RbdError`: `src/error.rs`.
- `zc.dfy`, module `Zc`: `src/zc/mod.rs`. It holds the pin model, the device class, the
  mailbox and sender, and the pure specification of draining and ticking. It also holds
  the drain, update and tick-all loops as methods over the device list; both managers use
  them. Last come the counter arithmetic and the zero-crossing module's manager class.
- `lib.dfy`, module `RbdDimmer`: the crate-root manager of `src/lib.rs`. `src/lib.rs:15-76`
  declares the same types and `DimmerDevice` methods as `src/zc/mod.rs:14-77`, in a
  different order; there `pin()` is a public accessor rather than a test-only one. So this
  module reuses `Zc`'s `DimmerDevice`, `Notification`, `Mailbox` and `Sender`. It also
  reuses the shared drain and tick loops, because `src/lib.rs:142-171` is the same code as
  `src/zc/mod.rs:144-173`. The two managers differ only in where the counter moves:
  `src/lib.rs:121-129` ticks and then increments, `src/zc/mod.rs:123-131` increments and
  then ticks.
- `zc_tests.dfy`, module `ZcTests`: the scenarios of `src/zc/tests.rs`, stated as
  postconditions that Dafny verifies on the model.

Modelling choices:

- **Integer width.** `u8` is a newtype over 0..255. The counter increment is a `u8`
  addition, and the verifier proves that it cannot overflow.
- **Output pins.** They are external. A pin is a value (`Zc.OutputPin`) that records the
  level it last drove successfully. It also records the fault, if any, that its `set_high`
  and `set_low` writes report.
  - A failed write leaves the level as it was.
  - The tests' always-good pin has no faults.
  - The tests' always-failing pin reports `From(SetHigh)` and `From(SetLow)`.
- **The edge wait.** It is external too. Its result is the `edge` parameter of
  `WaitZeroCrossing`.
- **The mailbox.** It is a FIFO `seq` plus a `disconnected` flag. The flag stands for
  "every sender has been dropped". `TryRecv` follows the semantics of `try_recv` on a Rust
  `mpsc::Receiver`: queued data is always delivered, and disconnection is reported only
  once the queue is empty.
  - Consequently, on the disconnected path the queued messages are still applied to the
    devices before the call returns `ChannelCommunicationDisconnected`.
  - The counter and every pin are left untouched.
  - In the source this path cannot be reached, because the manager keeps its own sender
    (`src/zc/mod.rs:90,110`). The model still states what the path does.
- **Devices in the list are distinct objects.** `Add` requires that the device is not
  already in the list. In Rust, ownership guarantees this: a device is moved into the
  `Vec`.

## Model

| member | source | states |
|---|---|---|
| RbdError.New | src/error.rs:43-45 | the error keeps exactly the given kind and message |
| RbdError.From | src/error.rs:47-52 | equals `New(kind, "")`, i.e. an empty message; its display string is the bare prefix |
| RbdError.OtherError | src/error.rs:54-59 | equals `New(Other, message)`; the message can be read back from its display string |
| RbdError.Display | src/error.rs:32-39 | the display string is the prefix "Error when use RBDDimmer interface. Reason: " followed by exactly the message |
| RbdError.Reason | src/error.rs:32-39 | inverse of the display format: `Some(m)` exactly when the string is the prefix followed by `m`, otherwise `None` |
| RbdError.ReasonOfDisplay | src/error.rs:32-39 | round trip: the message is recovered exactly from the display string |
| RbdError.DisplayIgnoresKind | src/error.rs:32-39 | two errors display the same if and only if their messages are equal; the kind is not shown |
| RbdError.NewRoundTrip | src/error.rs:43-45 | every error is `New` applied to its own kind and message |
| Zc.OutputPin.SetHigh | src/zc/mod.rs:25-26 | a high write returns `Ok` exactly when the pin has no high fault (then the level is High), otherwise that fault with the pin unchanged |
| Zc.OutputPin.SetLow | src/zc/mod.rs:28-29 | a low write returns `Ok` exactly when the pin has no low fault (then the level is Low), otherwise that fault with the pin unchanged |
| Zc.TickState | src/zc/mod.rs:63-70 | a tick keeps id and power; for `t <= power` the pin and the result are those of a high write, for `t > power` those of a low write |
| Zc.TickHealthyPin | src/zc/mod.rs:63-70 | on a pin whose writes succeed, a tick returns `Ok` and leaves the pin High if and only if `t <= power`, Low if and only if `t > power` |
| Zc.TickFaultyPin | src/zc/mod.rs:63-70 | on a pin whose writes fail, a tick returns the high-write fault when `t <= power` and the low-write fault otherwise, and the device is unchanged |
| Zc.DecisionMonotone | src/lib.rs:49-56 | the high/low decision is monotone in the tick value, and power 0 asks for low on every tick value from 1 |
| Zc.DimmerDevice.constructor | src/zc/mod.rs:53-55 | a new device has the given id and pin and power 0 |
| Zc.DimmerDevice.SetPower | src/zc/mod.rs:58-60 | power becomes exactly `p`; the pin is untouched (the id is a constant) |
| Zc.DimmerDevice.Tick | src/zc/mod.rs:63-70 | the new device state and the result are those of `TickState` on the old state |
| Zc.Mailbox.TryRecv | src/zc/mod.rs:147-153 | removes and returns the oldest message; on an empty queue reports Disconnected or Empty according to the flag |
| Zc.Sender.Send | src/zc/tests.rs:134-137 | appends the notification at the back of the shared queue |
| Zc.FirstMatch | src/zc/mod.rs:161 | returns the least index whose id matches, or `None` exactly when no id matches |
| Zc.ApplyNotification | src/zc/mod.rs:160-165 | device `j` takes the new power if and only if it is the first device carrying the message's id; every other device, and every id, is unchanged |
| Zc.ApplyAll | src/zc/mod.rs:147-157 | applying the queued messages oldest first keeps the number of devices and all their ids |
| Zc.LastPower | src/zc/mod.rs:147-157 | `Some(p)` exactly when some message carries the id; then `p` is the power of the last such message |
| Zc.DrainLastWriteWins | src/zc/mod.rs:147-165 | after a drain, the first device with an id has the power of the last message for that id (or its old power if none); other devices keep their power; no id or pin changes |
| Zc.UnknownIdsChangeNothing | src/zc/mod.rs:161-162 | messages for ids that no device carries leave every device as it was |
| Zc.TickAll | src/zc/mod.rs:168-173 | every device is ticked with the same value; each keeps its id and power, and its pin gets the write that the decision asks for |
| Zc.UpdateDimmerPower | src/zc/mod.rs:160-165 | the new device states are `ApplyNotification` of the old ones |
| Zc.ReadPowerUpdateMessage | src/zc/mod.rs:147-157 | empties the queue, applies every queued message in FIFO order (`ApplyAll`), and returns false exactly when the channel is disconnected |
| Zc.CallAllDimmer | src/zc/mod.rs:168-173 | the new device states are `TickAll` of the old ones; per-device errors do not stop the loop |
| Zc.NextCounter | src/zc/mod.rs:125-129 | the u8 increment is defined for counters below 255; from a counter in 1..100 the result stays in 1..100 and equals `c % 100 + 1` |
| Zc.CounterAfter | src/zc/mod.rs:125-129 | after any number of calls the counter is still in 1..100 |
| Zc.CounterAfterClosedForm | src/zc/mod.rs:125-129 | after `n` calls from `c` the counter is `(c - 1 + n) % 100 + 1` |
| Zc.CounterValues | src/lib.rs:123-129 | the counter values held before each of `n` calls start at `c` and follow `(c - 1 + k) % 100 + 1` |
| Zc.ZcTicks | src/zc/mod.rs:125-131 | this module ticks with the value after the increment: `(c + k) % 100 + 1` on call `k`, one step ahead of the counter |
| Zc.ZcTicksFromNew | src/zc/mod.rs:112-131 | from a new manager the first 99 calls tick with 2, 3, ..., 100 |
| Zc.HundredCallsCycle | src/lib.rs:121-129 | over any 100 consecutive calls each value 1..100 is held exactly once, so a device is asked for high in exactly `min(power, 100)` of them |
| Zc.ZcHundredCalls | src/zc/mod.rs:123-131 | the same for this module's tick values: each of 1..100 exactly once, high in exactly `min(power, 100)` calls |
| Zc.DevicesDimmerManager.constructor | src/zc/mod.rs:101-114 | no devices, counter 1, a fresh empty and connected mailbox |
| Zc.DevicesDimmerManager.WaitZeroCrossing | src/zc/mod.rs:116-173 | if disconnected: returns `ChannelCommunicationDisconnected`, counter unchanged, devices only drained; otherwise: returns exactly the edge result, counter advances and wraps, every device is ticked with the new counter after the drain; the mailbox ends empty and the counter stays in 1..100 |
| Zc.DevicesDimmerManager.Sender | src/zc/mod.rs:136-138 | the returned sender writes into this manager's own mailbox |
| Zc.DevicesDimmerManager.Add | src/zc/mod.rs:140-142 | the device is appended; existing devices, their order, their states and the counter are unchanged |
| RbdDimmer.DevicesDimmerManager.constructor | src/lib.rs:99-112 | no devices, counter 1, a fresh empty and connected mailbox |
| RbdDimmer.DevicesDimmerManager.WaitZeroCrossing | src/lib.rs:114-171 | as in the zero-crossing module, except that devices are ticked with the counter held before the increment |
| RbdDimmer.DevicesDimmerManager.Sender | src/lib.rs:134-136 | the returned sender writes into this manager's own mailbox |
| RbdDimmer.DevicesDimmerManager.Add | src/lib.rs:138-140 | the device is appended; existing devices, their order, their states and the counter are unchanged |
| RbdDimmer.LibTicksFromNew | src/lib.rs:110-129 | from a new manager the first `n <= 100` calls tick with 1, 2, ..., n |
| ZcTests.GoodPin | src/zc/tests.rs:13-37 | the always-succeeding test pin: no fault on either write, level Unknown before its first write |
| ZcTests.FailPin | src/zc/tests.rs:41-57 | the always-failing test pin: `set_high` fails with `From(SetHigh)`, `set_low` with `From(SetLow)` |
| ZcTests.DevicePinUpThenLow | src/zc/tests.rs:59-77 | at power 20, `tick(10)` succeeds with the pin High and `tick(30)` succeeds with the pin Low |
| ZcTests.DeviceFail | src/zc/tests.rs:79-97 | at power 20 on a failing pin, `tick(10)` fails with kind SetHigh and `tick(30)` with kind SetLow |
| ZcTests.TurnDeviceUpThenDown | src/zc/tests.rs:120-163 | after power 10 is queued for device 0, the first call succeeds with the pin High; after ten more successful calls the pin is Low |

## Left out

- The zero-crossing pin is not a field of the managers. `wait_for_rising_edge` is an
  external blocking call. Its result is the `edge` parameter of `WaitZeroCrossing`, and
  the waiting itself takes no time in the model.
- Output pins whose answers change from one write to the next are not modelled. A model
  pin always gives the same answer to each kind of write.
- The `pin()` accessor (`src/zc/mod.rs:72-76`, `src/lib.rs:58-60`) is not a separate
  member. The model reads the device's `pin` field directly.
- Threads, and `Sender` cloning as an ownership matter, are not modelled. `Sender` returns
  a new handle on the same mailbox.
- `Send` never fails in the model. In Rust it fails only after the receiver is dropped,
  and the manager owns the receiver for its whole life.
- Nothing in the model drops the last sender; the `disconnected` flag is set from outside.
- `Debug`, `Clone` and `PartialEq` are not modelled. Dafny datatypes have structural
  equality, so the eight error kinds are distinct constructors.
- `Zc.DevicesDimmerManager.WaitZeroCrossing`: on disconnection, the power values of the
  drained messages are still applied. Only the counter and the pins are unchanged. This
  is how the code behaves: `try_recv` reports disconnection only on an empty queue.
- `RbdDimmer.DevicesDimmerManager.WaitZeroCrossing`: on disconnection, the power values
  of the drained messages are still applied, for the same reason as above.
- The error kinds `TimerCancel`, `TimerScheduled`, `TimerEvery` and `DimmerNotFound`
  exist only as constructors, because no code shown produces them.
