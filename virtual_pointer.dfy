/** The synthetic pointer the daemon writes to (`virtual_pointer_send`). */
module VirtualPointer {
  import opened Wrappers
  import opened InputCodes

  /** The button values the daemon sends: press and release of the left button. */
  const ButtonDown: int := 1
  const ButtonUp: int := 0

  /** One `struct input_event` as written to the uinput device (type, code, value). */
  datatype InputEvent = InputEvent(evType: int, code: int, value: int)

  const SynReport: InputEvent := InputEvent(EV_SYN, SYN_REPORT, 0)

  /** The two events one call of `virtual_pointer_send` writes for a button value. */
  function Frame(value: int): (f: seq<InputEvent>)
    ensures |f| == 2
    ensures f[0].evType == EV_KEY && f[0].code == BTN_LEFT && f[0].value == value
    ensures f[1] == SynReport
  {
    [InputEvent(EV_KEY, BTN_LEFT, value), SynReport]
  }

  /** Everything written for a sequence of button values, in order. */
  function Frames(values: seq<int>): (log: seq<InputEvent>)
    ensures |log| == 2 * |values|
    decreases |values|
  {
    if values == [] then [] else Frame(values[0]) + Frames(values[1..])
  }

  /** Send number `i` occupies events `2i` (the button event) and `2i + 1` (the sync report). */
  lemma {:induction false} FramesLayout(values: seq<int>, i: nat)
    requires i < |values|
    ensures Frames(values)[2 * i] == InputEvent(EV_KEY, BTN_LEFT, values[i])
    ensures Frames(values)[2 * i + 1] == SynReport
    decreases |values|
  {
    if i > 0 {
      FramesLayout(values[1..], i - 1);
      assert Frames(values) == Frame(values[0]) + Frames(values[1..]);
    }
  }

  /** Reads a written event log back as the button values it carries. */
  function Decode(log: seq<InputEvent>): (r: Option<seq<int>>)
    decreases |log|
  {
    if log == [] then Some([])
    else if |log| >= 2 && log[0].evType == EV_KEY && log[0].code == BTN_LEFT && log[1] == SynReport then
      match Decode(log[2..])
      case Some(rest) => Some([log[0].value] + rest)
      case None => None
    else None
  }

  lemma {:induction false} FramesAppend(values: seq<int>, value: int)
    ensures Frames(values + [value]) == Frames(values) + Frame(value)
    decreases |values|
  {
    if values == [] {
      assert Frames([value]) == Frame(value) + Frames([]);
    } else {
      assert (values + [value])[1..] == values[1..] + [value];
      FramesAppend(values[1..], value);
    }
  }

  /** Every log of whole frames decodes back to the values that were sent. */
  lemma {:induction false} DecodeFrames(values: seq<int>)
    ensures Decode(Frames(values)) == Some(values)
    decreases |values|
  {
    if values != [] {
      var log := Frames(values);
      assert log == Frame(values[0]) + Frames(values[1..]);
      assert log[2..] == Frames(values[1..]);
      DecodeFrames(values[1..]);
      assert [values[0]] + values[1..] == values;
    }
  }

  /** The uinput device: the events written to it so far. */
  class Device {
    var written: seq<InputEvent>

    constructor ()
      ensures written == []
    {
      written := [];
    }

    /** `virtual_pointer_send`: a left-button event with the value, then a sync report. */
    method Send(value: int)
      modifies this
      ensures written == old(written) + Frame(value)
    {
      written := written + [InputEvent(EV_KEY, BTN_LEFT, value)];
      written := written + [SynReport];
    }
  }
}
