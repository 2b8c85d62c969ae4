/**
 * The crate-root copy of the dimmer manager (`src/lib.rs`). Its device, pin,
 * notification and channel types are the same as those of the zero-crossing module
 * and are reused from it; the manager differs only in ticking the devices with the
 * counter value held BEFORE the counter advances.
 */
module RbdDimmer {

  import opened Wrappers
  import opened RbdError
  import opened Zc

  class DevicesDimmerManager {
    var devices: seq<DimmerDevice>
    /** The receiving end of the channel; `Sender` hands out its sending ends. */
    const mailbox: Mailbox
    var counter: u8

    ghost predicate Valid()
      reads this
    {
      Distinct(devices) && 1 <= counter <= 100
    }

    /** No devices, an empty connected mailbox and counter 1. */
    constructor ()
      ensures Valid() && devices == [] && counter == 1
      ensures fresh(mailbox) && mailbox.queue == [] && !mailbox.disconnected
    {
      devices := [];
      mailbox := new Mailbox();
      counter := 1;
    }

    /** Drains the mailbox; unless disconnected, waits for the edge (whose result is
        `edge`), ticks every device with the current counter, then advances it. */
    method WaitZeroCrossing(edge: Outcome) returns (r: Outcome)
      requires Valid()
      modifies this, devices, mailbox
      ensures Valid() && devices == old(devices)
      ensures mailbox.queue == [] && mailbox.disconnected == old(mailbox.disconnected)
      ensures old(mailbox.disconnected) ==>
        && r == Err(From(ChannelCommunicationDisconnected))
        && counter == old(counter)
        && States(devices) == ApplyAll(old(States(devices)), old(mailbox.queue))
      ensures !old(mailbox.disconnected) ==>
        && r == edge
        && States(devices) == TickAll(ApplyAll(old(States(devices)), old(mailbox.queue)), old(counter))
        && counter == NextCounter(old(counter))
    {
      var ok := ReadPowerUpdateMessage(devices, mailbox);
      if !ok {
        return Err(From(ChannelCommunicationDisconnected));
      }
      var result := edge;
      CallAllDimmer(devices, counter);
      counter := counter + 1;
      if counter > 100 {
        counter := 1;
      }
      r := result;
    }

    /** A new sending end of this manager's own mailbox. */
    method Sender() returns (s: Sender)
      ensures fresh(s) && s.channel == mailbox
    {
      s := new Sender(mailbox);
    }

    /** Appends the device; the existing devices, their order and their states stay. */
    method Add(device: DimmerDevice)
      requires Valid() && device !in devices
      modifies this
      ensures Valid() && devices == old(devices) + [device] && counter == old(counter)
      ensures States(devices) == old(States(devices)) + [device.State()]
    {
      devices := devices + [device];
    }
  }

  /** From a new manager (counter 1), the first n <= 100 calls tick the devices with
      1, 2, ..., n; after that the values wrap and repeat (`HundredCallsCycle`). */
  lemma LibTicksFromNew(n: nat)
    requires n <= 100
    ensures CounterValues(1, n) == Range(1, n + 1)
  {
  }
}
