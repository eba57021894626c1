/**
 * The drag-lock gesture recogniser of `handle_touchpad`: an anchor finger on slot 0,
 * then a quick tap on slot 1, starts a drag (left button held); the next lift of any
 * finger ends it.
 */
module Gesture {
  import opened U64
  import opened Clock
  import opened InputCodes
  import VirtualPointer

  /** A press on slot 1 must come more than this many milliseconds after the slot-0 press. */
  const MinHoldGapMs: int := 200
  /** The slot-1 tap must be lifted less than this many milliseconds after it was pressed. */
  const MaxTapMs: int := 100

  /** One decoded evdev event: type, code, value, and the multi-touch slot current when it was read. */
  datatype TouchEvent = TouchEvent(evType: int, code: int, value: int, slot: int)

  /** An event together with the `uv_hrtime` reading taken while it is handled. */
  datatype Input = Input(event: TouchEvent, hrtime: Uint64)

  /** The timing fields of `struct state`. */
  datatype TouchState = TouchState(firstPressTime: Uint64, secondPressTime: Uint64, dragging: bool)

  /** What handling events does: the new state and the button values sent, in order. */
  datatype StepResult = StepResult(next: TouchState, sent: seq<int>)

  /** `struct state` is zero-initialised. */
  const Init: TouchState := TouchState(0, 0, false)

  predicate IsTrackingChange(e: TouchEvent) {
    e.evType == EV_ABS && e.code == ABS_MT_TRACKING_ID
  }

  predicate IsPress(e: TouchEvent) {
    IsTrackingChange(e) && e.value != LiftedTrackingId
  }

  predicate IsRelease(e: TouchEvent) {
    IsTrackingChange(e) && e.value == LiftedTrackingId
  }

  /**
   * The gesture test, stated on residues modulo 2^64: the hold gap
   * (second press minus first press) and the tap duration (now minus second press)
   * are both unsigned 64-bit differences.
   */
  predicate Recognized(s: TouchState, now: Uint64) {
    (s.secondPressTime - s.firstPressTime) % Modulus > MinHoldGapMs &&
    (now - s.secondPressTime) % Modulus < MaxTapMs
  }

  /** Times recorded by the engine are clock readings or the reset value 0. */
  predicate TimesInRange(s: TouchState) {
    s.firstPressTime <= MaxMs && s.secondPressTime <= MaxMs
  }

  /** One iteration of the loop in `handle_touchpad`. */
  function Step(s: TouchState, input: Input): (r: StepResult)
    ensures r.sent == [] || r.sent == [VirtualPointer.ButtonDown] || r.sent == [VirtualPointer.ButtonUp]
    ensures !IsTrackingChange(input.event) ==> r == StepResult(s, [])
    ensures IsPress(input.event) ==>
      r.sent == [] && r.next.dragging == s.dragging &&
      r.next.firstPressTime == (if input.event.slot == 0 then GetMs(input.hrtime) else s.firstPressTime) &&
      r.next.secondPressTime == (if input.event.slot == 1 then GetMs(input.hrtime) else s.secondPressTime)
    ensures IsRelease(input.event) && s.dragging ==>
      r.sent == [VirtualPointer.ButtonUp] && r.next == s.(dragging := false)
    ensures IsRelease(input.event) && !s.dragging ==>
      (r.sent == [VirtualPointer.ButtonDown] <==> input.event.slot == 1 && Recognized(s, GetMs(input.hrtime)))
    ensures IsRelease(input.event) && !s.dragging && r.sent == [VirtualPointer.ButtonDown] ==>
      r.next == TouchState(0, 0, true)
    ensures IsRelease(input.event) && !s.dragging && r.sent != [VirtualPointer.ButtonDown] ==>
      r == StepResult(s, [])
    ensures TimesInRange(s) ==> TimesInRange(r.next)
  {
    var e := input.event;
    if e.evType != EV_ABS || e.code != ABS_MT_TRACKING_ID then
      StepResult(s, [])
    else if e.value != LiftedTrackingId then
      // pressed
      if e.slot == 0 then StepResult(s.(firstPressTime := GetMs(input.hrtime)), [])
      else if e.slot == 1 then StepResult(s.(secondPressTime := GetMs(input.hrtime)), [])
      else StepResult(s, [])
    else if s.dragging then
      StepResult(s.(dragging := false), [VirtualPointer.ButtonUp])
    else if e.slot == 1 then
      var holdGap := Sub(s.secondPressTime, s.firstPressTime);
      var tapDuration := Sub(GetMs(input.hrtime), s.secondPressTime);
      SubIsResidue(s.secondPressTime, s.firstPressTime);
      SubIsResidue(GetMs(input.hrtime), s.secondPressTime);
      if holdGap > MinHoldGapMs && tapDuration < MaxTapMs then
        StepResult(TouchState(0, 0, true), [VirtualPointer.ButtonDown])
      else
        StepResult(s, [])
    else
      StepResult(s, [])
  }

  /** The loop of `handle_touchpad` over a sequence of inputs. */
  function Run(s: TouchState, inputs: seq<Input>): (r: StepResult)
    ensures |r.sent| <= |inputs|
    ensures TimesInRange(s) ==> TimesInRange(r.next)
    decreases |inputs|
  {
    if inputs == [] then StepResult(s, [])
    else
      var before := Run(s, inputs[..|inputs| - 1]);
      var last := Step(before.next, inputs[|inputs| - 1]);
      StepResult(last.next, before.sent + last.sent)
  }

  /** Handling one more input extends the run by one step. */
  lemma RunExtend(s: TouchState, inputs: seq<Input>, i: nat)
    requires i < |inputs|
    ensures Run(s, inputs[..i + 1]) ==
      StepResult(Step(Run(s, inputs[..i]).next, inputs[i]).next,
                 Run(s, inputs[..i]).sent + Step(Run(s, inputs[..i]).next, inputs[i]).sent)
  {
    assert inputs[..i + 1][..i] == inputs[..i];
  }

  /** The button values sent so far alternate 1, 0, 1, 0, ... starting with a press. */
  predicate Alternating(sent: seq<int>) {
    forall i :: 0 <= i < |sent| ==>
      sent[i] == (if i % 2 == 0 then VirtualPointer.ButtonDown else VirtualPointer.ButtonUp)
  }

  /** The engine's invariant relative to the history of values it has sent. */
  predicate Consistent(s: TouchState, sent: seq<int>) {
    Alternating(sent) && s.dragging == (|sent| % 2 == 1) && TimesInRange(s)
  }

  /** Under the invariant, `dragging` holds exactly when the last value sent was a press. */
  lemma DraggingIffLastSentDown(s: TouchState, sent: seq<int>)
    requires Consistent(s, sent)
    ensures s.dragging <==> |sent| > 0 && sent[|sent| - 1] == VirtualPointer.ButtonDown
  {
  }

  /** One step keeps the alternation invariant. */
  lemma StepConsistent(s: TouchState, sent: seq<int>, input: Input)
    requires Consistent(s, sent)
    ensures Consistent(Step(s, input).next, sent + Step(s, input).sent)
  {
  }

  /** Any sequence of inputs keeps the alternation invariant. */
  lemma {:induction false} RunConsistent(s: TouchState, sent: seq<int>, inputs: seq<Input>)
    requires Consistent(s, sent)
    ensures Consistent(Run(s, inputs).next, sent + Run(s, inputs).sent)
    decreases |inputs|
  {
    if inputs != [] {
      var before := Run(s, inputs[..|inputs| - 1]);
      RunConsistent(s, sent, inputs[..|inputs| - 1]);
      StepConsistent(before.next, sent + before.sent, inputs[|inputs| - 1]);
      assert sent + before.sent + Step(before.next, inputs[|inputs| - 1]).sent
          == sent + Run(s, inputs).sent;
    }
  }

  /**
   * From the zero state, over any sequence of events, the values sent alternate
   * 1, 0, 1, ... and `dragging` is true exactly when the last one was 1.
   */
  lemma {:induction false} ButtonValuesAlternate(inputs: seq<Input>)
    ensures Alternating(Run(Init, inputs).sent)
    ensures Run(Init, inputs).next.dragging <==>
      |Run(Init, inputs).sent| > 0 && Run(Init, inputs).sent[|Run(Init, inputs).sent| - 1] == VirtualPointer.ButtonDown
  {
    assert Consistent(Init, []);
    RunConsistent(Init, [], inputs);
    assert [] + Run(Init, inputs).sent == Run(Init, inputs).sent;
    DraggingIffLastSentDown(Run(Init, inputs).next, Run(Init, inputs).sent);
  }

  /** A contact placed on `slot` (any tracking id but -1) at `ms` milliseconds. */
  function PressAt(slot: int, trackingId: int, ms: int): (input: Input)
    requires trackingId != LiftedTrackingId && 0 <= ms <= MaxMs
    ensures IsPress(input.event) && input.event.slot == slot && GetMs(input.hrtime) == ms
  {
    Input(TouchEvent(EV_ABS, ABS_MT_TRACKING_ID, trackingId, slot), ms * NanosPerMilli)
  }

  /** The contact on `slot` lifted at `ms` milliseconds. */
  function ReleaseAt(slot: int, ms: int): (input: Input)
    requires 0 <= ms <= MaxMs
    ensures IsRelease(input.event) && input.event.slot == slot && GetMs(input.hrtime) == ms
  {
    Input(TouchEvent(EV_ABS, ABS_MT_TRACKING_ID, LiftedTrackingId, slot), ms * NanosPerMilli)
  }

  /**
   * Unsigned wrap-around: when the slot-1 press is older than the slot-0 press the
   * hold gap is a huge residue and always passes the threshold.
   */
  lemma EarlierSecondPressPassesHoldGap(s: TouchState)
    requires TimesInRange(s) && s.secondPressTime < s.firstPressTime
    ensures (s.secondPressTime - s.firstPressTime) % Modulus > MinHoldGapMs
  {
  }

  /**
   * Consequently a quick lift on slot 1 starts a drag even though its press came
   * before the slot-0 press.
   */
  lemma EarlierSecondPressStartsDrag(s: TouchState, ms: int)
    requires TimesInRange(s) && !s.dragging && s.secondPressTime < s.firstPressTime
    requires s.secondPressTime <= ms < s.secondPressTime + MaxTapMs && ms <= MaxMs
    ensures Step(s, ReleaseAt(1, ms)) == StepResult(TouchState(0, 0, true), [VirtualPointer.ButtonDown])
  {
  }

  /**
   * The zero the times start from (and are reset to) acts as an anchor: from the
   * zeroed state, a lone slot-1 tap pressed after 200 ms on the clock and lifted
   * within 100 ms starts a drag with no slot-0 press at all.
   */
  lemma {:induction false} LoneSecondPressStartsDrag(trackingId: int, press: int, lift: int)
    requires trackingId != LiftedTrackingId
    requires MinHoldGapMs < press <= lift < press + MaxTapMs && lift <= MaxMs
    ensures Run(Init, [PressAt(1, trackingId, press), ReleaseAt(1, lift)])
         == StepResult(TouchState(0, 0, true), [VirtualPointer.ButtonDown])
  {
    var inputs := [PressAt(1, trackingId, press), ReleaseAt(1, lift)];
    assert Run(Init, inputs[..1]) == StepResult(TouchState(0, press, false), []) by {
      assert inputs[..1][..0] == [];
    }
    assert (press - 0) % Modulus == press;
    assert (lift - press) % Modulus == lift - press;
    assert inputs[..1] == inputs[..|inputs| - 1];
  }

  /**
   * A failed attempt keeps the anchor: after a slot-1 lift that is too slow, a later
   * slot-1 tap pressed more than 200 ms after the same slot-0 press and lifted within
   * 100 ms starts a drag with no new slot-0 press.
   */
  lemma {:induction false} StaleAnchorIsReused(anchor: int, press1: int, lift1: int, press2: int, lift2: int)
    requires 0 <= anchor && anchor + MinHoldGapMs < press1 <= lift1 <= press2 <= lift2 <= MaxMs
    requires lift1 - press1 >= MaxTapMs && lift2 - press2 < MaxTapMs
    ensures Run(Init, [PressAt(0, 1, anchor), PressAt(1, 2, press1), ReleaseAt(1, lift1),
                       PressAt(1, 3, press2), ReleaseAt(1, lift2)]).sent == [VirtualPointer.ButtonDown]
  {
    var attempt := Attempt(anchor, press1, lift1);
    var inputs := attempt + [PressAt(1, 3, press2), ReleaseAt(1, lift2)];
    AttemptOutcome(anchor, press1, lift1);
    var s2 := TouchState(anchor, press1, false);
    assert Run(Init, attempt) == StepResult(s2, []);
    assert inputs[..4][..3] == attempt;
    assert Run(Init, inputs[..4]) == StepResult(TouchState(anchor, press2, false), []);
    assert (press2 - anchor) % Modulus == press2 - anchor;
    assert (lift2 - press2) % Modulus == lift2 - press2;
    assert inputs[..4] == inputs[..|inputs| - 1];
    assert inputs == [PressAt(0, 1, anchor), PressAt(1, 2, press1), ReleaseAt(1, lift1),
                      PressAt(1, 3, press2), ReleaseAt(1, lift2)];
  }

  /** Anchor on slot 0, press on slot 1, lift slot 1: the basic attempt at the gesture. */
  function Attempt(anchor: int, press: int, lift: int): (inputs: seq<Input>)
    requires 0 <= anchor <= MaxMs && 0 <= press <= MaxMs && 0 <= lift <= MaxMs
  {
    [PressAt(0, 1, anchor), PressAt(1, 2, press), ReleaseAt(1, lift)]
  }

  /**
   * For an ordered attempt (anchor, then press, then lift), a button-down is sent
   * exactly when the slot-1 press came more than 200 ms after the anchor and was
   * lifted within 100 ms; otherwise the attempt leaves both press times in place.
   */
  lemma {:induction false} AttemptOutcome(anchor: int, press: int, lift: int)
    requires 0 <= anchor <= press <= lift <= MaxMs
    ensures var r := Run(Init, Attempt(anchor, press, lift));
      if press - anchor > MinHoldGapMs && lift - press < MaxTapMs
      then r == StepResult(TouchState(0, 0, true), [VirtualPointer.ButtonDown])
      else r == StepResult(TouchState(anchor, press, false), [])
  {
    var inputs := Attempt(anchor, press, lift);
    assert Run(Init, inputs[..1]) == StepResult(TouchState(anchor, 0, false), []) by {
      assert inputs[..1][..0] == [];
    }
    assert Run(Init, inputs[..2]) == StepResult(TouchState(anchor, press, false), []) by {
      assert inputs[..2][..1] == inputs[..1];
    }
    assert (press - anchor) % Modulus == press - anchor;
    assert (lift - press) % Modulus == lift - press;
    assert inputs[..2] == inputs[..|inputs| - 1];
  }

  /** Any lift while dragging sends exactly one button-up; a lift after that sends nothing. */
  lemma {:induction false} LiftEndsDragOnce(anchor: int, press: int, lift: int, slot: int, end: int, slot2: int, end2: int)
    requires 0 <= anchor && anchor + MinHoldGapMs < press <= lift < press + MaxTapMs
    requires lift <= MaxMs && 0 <= end <= MaxMs && 0 <= end2 <= MaxMs
    ensures Run(Init, Attempt(anchor, press, lift) + [ReleaseAt(slot, end)]).sent
         == [VirtualPointer.ButtonDown, VirtualPointer.ButtonUp]
    ensures Run(Init, Attempt(anchor, press, lift) + [ReleaseAt(slot, end), ReleaseAt(slot2, end2)]).sent
         == [VirtualPointer.ButtonDown, VirtualPointer.ButtonUp]
  {
    AttemptOutcome(anchor, press, lift);
    var a := Attempt(anchor, press, lift);
    var once := a + [ReleaseAt(slot, end)];
    var twice := once + [ReleaseAt(slot2, end2)];
    assert once[..|once| - 1] == a;
    assert Run(Init, once) == StepResult(TouchState(0, 0, false), [VirtualPointer.ButtonDown, VirtualPointer.ButtonUp]);
    assert a + [ReleaseAt(slot, end), ReleaseAt(slot2, end2)] == twice;
    assert twice[..|twice| - 1] == once;
  }

  /** Inputs without any lift never send a command and never change `dragging`. */
  lemma {:induction false} NoCommandWithoutLift(s: TouchState, inputs: seq<Input>)
    requires forall i :: 0 <= i < |inputs| ==> !IsRelease(inputs[i].event)
    ensures Run(s, inputs).sent == []
    ensures Run(s, inputs).next.dragging == s.dragging
    decreases |inputs|
  {
    if inputs != [] {
      NoCommandWithoutLift(s, inputs[..|inputs| - 1]);
    }
  }
}
