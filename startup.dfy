/**
 * The start of `main`: discovery runs `handle_li` once directly and then on every
 * readiness of libinput until it stops its watcher; then the daemon either exits with
 * status 1 or goes on to serve the touchpad.
 */
module Startup {
  import opened Wrappers
  import opened Discovery

  /** What one call of `handle_li` sees: dispatch result, pending events, open result. */
  datatype Round = Round(dispatchOk: bool, queue: seq<LiEvent>, openOk: bool)

  datatype DiscoveryResult = StillWatching | Stopped(touchpad: Option<Device>)

  /** How far `main` gets. */
  datatype Outcome =
    | Discovering              // the first `uv_run` has not returned yet
    | Exit(status: int)        // `main` returned
    | Serving(touchpad: Device)  // the gesture loop runs on this touchpad

  /** Whether a round ends discovery: dispatch worked and the scan stopped. */
  predicate Ends(r: Round) {
    r.dispatchOk && StopsWatcher(Scan(r.queue))
  }

  /** Round `k` ends discovery and no earlier round does: `handle_li` never runs after it. */
  predicate FirstToEnd(rounds: seq<Round>, k: nat)
    requires k < |rounds|
  {
    Ends(rounds[k]) && forall j :: 0 <= j < k ==> !Ends(rounds[j])
  }

  /** The touchpad a discovery-ending round leaves in `state->touchpad_evdev`. */
  function Opened(r: Round): (t: Option<Device>)
    ensures t.Some? ==> t.value.tapFingerCount != 0
  {
    match Scan(r.queue)
    case Selected(i) => if r.openOk then Some(r.queue[i].device) else None
    case _ => None
  }

  /** Discovery over successive readiness rounds, from the zeroed state. */
  function Discover(rounds: seq<Round>): (d: DiscoveryResult)
    ensures d.Stopped? ==> exists k :: 0 <= k < |rounds| && FirstToEnd(rounds, k) && d.touchpad == Opened(rounds[k])
    ensures d.StillWatching? ==> forall k :: 0 <= k < |rounds| ==> !Ends(rounds[k])
    decreases |rounds|
  {
    if rounds == [] then StillWatching
    else if Ends(rounds[0]) then Stopped(Opened(rounds[0]))
    else
      var d := Discover(rounds[1..]);
      if d.Stopped? then
        var k :| 0 <= k < |rounds[1..]| && FirstToEnd(rounds[1..], k) && d.touchpad == Opened(rounds[1..][k]);
        assert rounds[k + 1] == rounds[1..][k];
        assert forall j :: 1 <= j < k + 1 ==> rounds[j] == rounds[1..][j - 1];
        assert FirstToEnd(rounds, k + 1);
        d
      else d
  }

  /** The checks after the first `uv_run`: no touchpad, or no virtual pointer, exits 1. */
  function AfterDiscovery(touchpad: Option<Device>, pointerCreated: bool): (o: Outcome)
    ensures o.Exit? <==> touchpad.None? || !pointerCreated
    ensures o.Exit? ==> o.status == 1
    ensures o.Serving? ==> touchpad == Some(o.touchpad)
  {
    if touchpad.None? then Exit(1)
    else if !pointerCreated then Exit(1)
    else Serving(touchpad.value)
  }

  /**
   * `main` up to the gesture loop: discovery over the rounds, then the exit checks.
   * Only a tap-capable device is ever served, and every exit has status 1.
   */
  function Start(rounds: seq<Round>, pointerCreated: bool): (o: Outcome)
    ensures o == Discovering <==> forall k :: 0 <= k < |rounds| ==> !Ends(rounds[k])
    ensures o.Exit? ==> o.status == 1
    ensures o.Serving? ==> pointerCreated && o.touchpad.tapFingerCount != 0
    ensures forall k :: 0 <= k < |rounds| && FirstToEnd(rounds, k) ==>
      o == AfterDiscovery(Opened(rounds[k]), pointerCreated)
  {
    match Discover(rounds)
    case StillWatching => Discovering
    case Stopped(t) => AfterDiscovery(t, pointerCreated)
  }

  /** Without any tap-capable device in what libinput reports, `main` can only exit with status 1. */
  lemma NoTapDeviceExitsOne(rounds: seq<Round>, pointerCreated: bool)
    requires forall k, j :: 0 <= k < |rounds| && 0 <= j < |rounds[k].queue| ==> !TapCapable(rounds[k].queue[j])
    ensures Start(rounds, pointerCreated) == Discovering || Start(rounds, pointerCreated) == Exit(1)
  {
  }

  /** `main` up to the gesture loop, driving `handle_li` through the rounds. */
  method RunStartup(rounds: seq<Round>, pointerCreated: bool) returns (o: Outcome)
    ensures o == Start(rounds, pointerCreated)
  {
    var w := new Watcher();
    var i := 0;
    while i < |rounds| && w.active
      invariant 0 <= i <= |rounds|
      invariant w.active ==> w.touchpad == None && Discover(rounds) == Discover(rounds[i..])
      invariant !w.active ==> Discover(rounds) == Stopped(w.touchpad)
    {
      var r := rounds[i];
      assert rounds[i..][1..] == rounds[i + 1..];
      w.HandleLi(r.dispatchOk, r.queue, r.openOk);
      i := i + 1;
    }
    if w.active {
      assert rounds[i..] == [];
      o := Discovering;
    } else {
      o := AfterDiscovery(w.touchpad, pointerCreated);
    }
  }
}
