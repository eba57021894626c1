/**
 * Touchpad discovery (`handle_li`): scan libinput's pending events for the first
 * added device with tap support, stopping at the first event of any other kind.
 */
module Discovery {
  import opened Wrappers

  /** An input device as libinput reports it: its sysname and its tap finger count. */
  datatype Device = Device(sysname: string, tapFingerCount: nat)

  /** A libinput event: a device was added, or any other event type. */
  datatype LiEvent = DeviceAdded(device: Device) | OtherEvent

  /** Where the scan of one batch of events ended. */
  datatype ScanOutcome =
    | Continue              // queue drained: keep watching
    | Selected(index: nat)  // first tap-capable device: open it, stop watching
    | Aborted(index: nat)   // an event of another kind: stop watching, nothing selected

  predicate TapCapable(e: LiEvent) {
    e.DeviceAdded? && e.device.tapFingerCount != 0
  }

  /** The first `n` events are all added devices without tap support (the ones skipped). */
  predicate SkippedPrefix(q: seq<LiEvent>, n: nat)
    requires n <= |q|
  {
    forall j :: 0 <= j < n ==> q[j].DeviceAdded? && !TapCapable(q[j])
  }

  /** An outcome on a suffix of the queue, re-indexed for the whole queue. */
  function Shifted(r: ScanOutcome, offset: nat): ScanOutcome {
    match r
    case Continue => Continue
    case Selected(i) => Selected(i + offset)
    case Aborted(i) => Aborted(i + offset)
  }

  /** The first-match scan of the loop in `handle_li`, over the queue it drains. */
  function Scan(q: seq<LiEvent>): (r: ScanOutcome)
    ensures r.Continue? ==> SkippedPrefix(q, |q|)
    ensures r.Selected? ==> r.index < |q| && TapCapable(q[r.index]) && SkippedPrefix(q, r.index)
    ensures r.Aborted? ==> r.index < |q| && q[r.index].OtherEvent? && SkippedPrefix(q, r.index)
    decreases |q|
  {
    if q == [] then Continue
    else if q[0].DeviceAdded? then
      if q[0].device.tapFingerCount != 0 then Selected(0) else Shifted(Scan(q[1..]), 1)
    else Aborted(0)
  }

  /** Whether the watcher is stopped after the scan. */
  predicate StopsWatcher(r: ScanOutcome) {
    !r.Continue?
  }

  /** The scan's outcome is fixed by the contract above: no other outcome meets it. */
  lemma ScanUnique(q: seq<LiEvent>, r: ScanOutcome)
    requires r.Continue? ==> SkippedPrefix(q, |q|)
    requires r.Selected? ==> r.index < |q| && TapCapable(q[r.index]) && SkippedPrefix(q, r.index)
    requires r.Aborted? ==> r.index < |q| && q[r.index].OtherEvent? && SkippedPrefix(q, r.index)
    ensures r == Scan(q)
  {
  }

  /** Events after the one that ends the scan are never inspected. */
  lemma ScanIgnoresRest(q: seq<LiEvent>, rest: seq<LiEvent>)
    requires StopsWatcher(Scan(q))
    ensures Scan(q + rest) == Scan(q)
  {
    var r := Scan(q);
    var qr := q + rest;
    assert forall j :: 0 <= j < |q| ==> qr[j] == q[j];
    ScanUnique(qr, r);
  }

  /**
   * A device without tap support is skipped, the next one with it is selected, and
   * whatever follows is not looked at.
   */
  lemma FirstTapDeviceWins(d1: Device, d2: Device, rest: seq<LiEvent>)
    requires d1.tapFingerCount == 0 && d2.tapFingerCount != 0
    ensures Scan([DeviceAdded(d1), DeviceAdded(d2)] + rest) == Selected(1)
  {
  }

  /** The loop of `handle_li`: reads events one by one until one ends the scan. */
  method ScanQueue(q: seq<LiEvent>) returns (r: ScanOutcome)
    ensures r == Scan(q)
  {
    var i := 0;
    while i < |q|
      invariant 0 <= i <= |q|
      invariant SkippedPrefix(q, i)
    {
      var ev := q[i];
      if ev.DeviceAdded? {
        if ev.device.tapFingerCount != 0 {
          r := Selected(i);
          ScanUnique(q, r);
          return;
        }
      } else {
        r := Aborted(i);
        ScanUnique(q, r);
        return;
      }
      i := i + 1;
    }
    r := Continue;
    ScanUnique(q, r);
  }

  /** The fields of `struct state` that discovery writes: the touchpad and the watcher. */
  class Watcher {
    /** `state->touchpad_evdev`: the opened touchpad, if any. */
    var touchpad: Option<Device>
    /** Whether `li_watcher` is still polling libinput. */
    var active: bool

    constructor ()
      ensures touchpad == None && active
    {
      touchpad := None;
      active := true;
    }

    /**
     * `handle_li`: `dispatchOk` is whether `libinput_dispatch` succeeded, `queue` the
     * events it left pending, `openOk` whether the selected device node could be opened
     * and wrapped by libevdev.
     */
    method HandleLi(dispatchOk: bool, queue: seq<LiEvent>, openOk: bool)
      modifies this
      ensures !dispatchOk ==> touchpad == old(touchpad) && active == old(active)
      ensures dispatchOk ==> active == (old(active) && !StopsWatcher(Scan(queue)))
      ensures dispatchOk ==> (touchpad ==
        match Scan(queue)
        case Selected(i) => if openOk then Some(queue[i].device) else old(touchpad)
        case _ => old(touchpad))
    {
      if !dispatchOk {
        return;
      }
      var r := ScanQueue(queue);
      if r.Continue? {
        return;
      }
      if r.Selected? && openOk {
        touchpad := Some(queue[r.index].device);
      }
      active := false;
    }
  }
}
