/** `handle_touchpad` as it runs: the timing fields of `struct state`, updated in place. */
module GestureEngine {
  import opened U64
  import opened Clock
  import opened InputCodes
  import opened Gesture
  import VirtualPointer

  class Engine {
    var firstPressTime: Uint64
    var secondPressTime: Uint64
    var dragging: bool
    /** The uinput device the daemon created; the engine writes its button events to it. */
    const pointer: VirtualPointer.Device
    /** The button values sent to `pointer` so far. */
    ghost var sent: seq<int>

    function State(): TouchState
      reads this
    {
      TouchState(firstPressTime, secondPressTime, dragging)
    }

    /** The pointer holds exactly the frames of the values sent, and those alternate. */
    ghost predicate Valid()
      reads this, pointer
    {
      pointer.written == VirtualPointer.Frames(sent) && Consistent(State(), sent)
    }

    /** The zeroed `struct state` of `main`, bound to a freshly created virtual pointer. */
    constructor (p: VirtualPointer.Device)
      requires p.written == []
      ensures Valid() && pointer == p && State() == Init && sent == []
    {
      firstPressTime, secondPressTime, dragging := 0, 0, false;
      pointer := p;
      sent := [];
    }

    /** The body of the loop in `handle_touchpad`, for one decoded event. */
    method HandleEvent(input: Input)
      requires Valid()
      modifies this, pointer
      ensures Valid()
      ensures State() == Step(old(State()), input).next
      ensures sent == old(sent) + Step(old(State()), input).sent
    {
      ghost var before := State();
      StepConsistent(before, sent, input);
      var ev := input.event;
      if ev.evType != EV_ABS || ev.code != ABS_MT_TRACKING_ID {
        return;
      }
      var slot := ev.slot;
      if ev.value != LiftedTrackingId {
        // pressed
        if slot == 0 {
          firstPressTime := GetMs(input.hrtime);
        } else if slot == 1 {
          secondPressTime := GetMs(input.hrtime);
        }
      } else {
        // released
        if dragging {
          VirtualPointer.FramesAppend(sent, VirtualPointer.ButtonUp);
          pointer.Send(VirtualPointer.ButtonUp);
          sent := sent + [VirtualPointer.ButtonUp];
          dragging := false;
        } else if slot == 1 {
          var holdGap := Sub(secondPressTime, firstPressTime);
          var tapDuration := Sub(GetMs(input.hrtime), secondPressTime);
          if holdGap > MinHoldGapMs && tapDuration < MaxTapMs {
            VirtualPointer.FramesAppend(sent, VirtualPointer.ButtonDown);
            pointer.Send(VirtualPointer.ButtonDown);
            sent := sent + [VirtualPointer.ButtonDown];
            dragging := true;
            firstPressTime, secondPressTime := 0, 0;
          }
        }
      }
    }

    /** `handle_touchpad`: handles every event the device has ready, in order. */
    method HandleTouchpad(inputs: seq<Input>)
      requires Valid()
      modifies this, pointer
      ensures Valid()
      ensures State() == Run(old(State()), inputs).next
      ensures sent == old(sent) + Run(old(State()), inputs).sent
    {
      ghost var s0, h0 := State(), sent;
      ghost var done := StepResult(s0, []);
      var i := 0;
      while i < |inputs|
        invariant 0 <= i <= |inputs|
        invariant Valid()
        invariant done == Run(s0, inputs[..i])
        invariant State() == done.next && sent == h0 + done.sent
      {
        ghost var step := Step(done.next, inputs[i]);
        RunExtend(s0, inputs, i);
        HandleEvent(inputs[i]);
        done := StepResult(step.next, done.sent + step.sent);
        i := i + 1;
      }
      assert inputs[..i] == inputs;
    }
  }
}
