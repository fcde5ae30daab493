/**
  The wake-word detector: an energy-threshold decision on each audio frame and a
  polling loop that drains a FIFO queue of frames and fires the registered
  callback at most once per two-second cooldown.

  The audio driver thread, the polling thread and the caller that stops the
  detector are interleaved into one sequence of events; the loop is a fold over
  that sequence. Clock readings (`time.time()`) arrive inside the events, and
  samples are idealised as `real`s.
 */
module WakeWord {

  /** Minimum energy for a frame to count as possible speech. */
  const EnergyThreshold: real := 0.01
  /** The second, stricter gate is this multiple of `EnergyThreshold`. */
  const DetectionMultiplier: real := 3.0
  /** A detection fires only when strictly more than this many seconds have passed. */
  const CooldownSeconds: real := 2.0

  /** One block of mono samples as delivered by the audio driver, flattened. */
  type Frame = seq<real>

  predicate Silent(f: Frame) {
    forall i :: 0 <= i < |f| ==> f[i] == 0.0
  }

  /** `abs(x)**2`, which is `x * x` for a real sample. */
  function Square(x: real): (r: real)
    ensures r >= 0.0
    ensures r == 0.0 <==> x == 0.0
  {
    if x == 0.0 then 0.0
    else
      var a := if x < 0.0 then -x else x;
      assert a * a == x * x;
      ProductOfPositives(a, a, x * x);
      x * x
  }

  lemma ProductOfPositives(a: real, b: real, r: real)
    requires a > 0.0 && b > 0.0 && r == a * b
    ensures r > 0.0
  {
  }

  function SumOfSquares(f: Frame): (r: real)
    ensures r >= 0.0
  {
    if |f| == 0 then 0.0 else Square(f[0]) + SumOfSquares(f[1..])
  }

  /** A frame has no energy exactly when every sample is zero. */
  lemma {:induction false} NoEnergyIffSilent(f: Frame)
    ensures SumOfSquares(f) == 0.0 <==> Silent(f)
  {
    if |f| > 0 {
      NoEnergyIffSilent(f[1..]);
      assert Silent(f) <==> f[0] == 0.0 && Silent(f[1..]) by {
        assert forall i :: 1 <= i < |f| ==> f[i] == f[1..][i - 1];
      }
    }
  }

  /** Frame energy: the mean of the squared absolute sample values. */
  function Energy(f: Frame): (e: real)
    requires |f| > 0
    ensures e >= 0.0
    ensures e == 0.0 <==> Silent(f)
  {
    NoEnergyIffSilent(f);
    SumOfSquares(f) / (|f| as real)
  }

  /**
    `detect_wake_word`: a cheap presence gate on `EnergyThreshold`, then the
    stricter gate on `EnergyThreshold * DetectionMultiplier`. The mean of an
    empty frame is NaN in numpy, and every comparison with NaN is false.
   */
  function Detect(f: Frame): (d: bool)
    ensures d <==> |f| > 0 && Energy(f) > EnergyThreshold * DetectionMultiplier
    ensures |f| > 0 && Energy(f) <= EnergyThreshold ==> !d
    ensures Silent(f) ==> !d
  {
    if |f| == 0 then false
    else
      var e := Energy(f);
      if e > EnergyThreshold then e > EnergyThreshold * DetectionMultiplier
      else false
  }

  // ---------------------------------------------------------------------------
  // The listening loop

  datatype ExitReason =
    | StopObserved      // the loop found `is_listening` cleared
    | CallbackRaised    // the callback raised; the generic handler breaks out

  datatype Phase = Running | Exited(reason: ExitReason)

  /**
    The detector while one `start_listening` call is in progress.
    `hasCallback` says whether `self.callback` is set, and
    `lastDetection` is the loop-local `last_detection_time`. The last three
    fields are logs kept by the model only: the clock readings at which a
    detection passed the cooldown gate, every frame ever put on the queue, and
    every frame the loop took off it.
   */
  datatype Detector = Detector(
    isListening: bool,
    phase: Phase,
    hasCallback: bool,
    queue: seq<Frame>,
    startedAt: real,
    lastDetection: real,
    fired: seq<real>,
    captured: seq<Frame>,
    consumed: seq<Frame>)

  datatype Event =
    | Captured(frame: Frame)                   // `audio_callback` on the driver's thread
    | Iterate(now: real, callbackRaises: bool) // one pass of the `while` loop; `now` is the clock if read
    | StopRequested                            // `stop_listening` from another thread
    | CallbackSet(present: bool)               // `set_callback` from another thread; `None` clears it

  /**
    `start_listening` at clock reading `now`. The queue belongs to the detector
    object, so frames left over from an earlier run are still pending.
   */
  function Start(pending: seq<Frame>, now: real, hasCallback: bool): (d: Detector)
    ensures d.isListening && d.phase == Running && d.queue == pending
    ensures d.lastDetection == now && d.fired == []
  {
    Detector(true, Running, hasCallback, pending, now, now, [], pending, [])
  }

  /** `stop_listening`: clears the flag and nothing else. */
  function StopListening(d: Detector): (r: Detector)
    ensures !r.isListening
    ensures r.(isListening := d.isListening) == d
  {
    d.(isListening := false)
  }

  /** The frame an event delivers to the queue, if any. */
  function Delivered(e: Event): seq<Frame> {
    if e.Captured? then [e.frame] else []
  }

  /** A pass of the loop at clock reading `now` takes a detected frame past the cooldown. */
  predicate FiresAt(d: Detector, now: real) {
    d.isListening && |d.queue| > 0 && Detect(d.queue[0]) && now - d.lastDetection > CooldownSeconds
  }

  /**
    The effect of one event on the detector. A pass of the loop with a frame
    queued always takes the head frame; a detected frame past the cooldown
    fires, and the run continues unless a registered callback raises. The
    callback is read at each firing, so a `set_callback` while listening
    takes effect at the next one.
   */
  function Step(d: Detector, e: Event): (r: Detector)
    ensures !d.phase.Running? ==> r == d
    ensures d.phase.Running? ==> r.captured == d.captured + Delivered(e)
    ensures r.startedAt == d.startedAt
    ensures d.phase.Running? && e.Captured? ==>
      r == d.(queue := d.queue + [e.frame], captured := d.captured + [e.frame])
    ensures d.phase.Running? && e.StopRequested? ==> r == StopListening(d)
    ensures d.phase.Running? && e.CallbackSet? ==> r == d.(hasCallback := e.present)
    ensures d.phase.Running? && e.Iterate? && d.isListening && |d.queue| == 0 ==> r == d
    ensures d.phase.Running? && e.Iterate? && d.isListening && |d.queue| > 0 && !FiresAt(d, e.now) ==>
      r == d.(queue := d.queue[1..], consumed := d.consumed + [d.queue[0]])
    ensures !e.CallbackSet? ==> r.hasCallback == d.hasCallback
    ensures d.phase.Running? && e.Iterate? && !d.isListening ==> r.phase == Exited(StopObserved)
    ensures d.phase.Running? && e.Iterate? && d.isListening && |d.queue| > 0 ==>
      r.queue == d.queue[1..] && r.consumed == d.consumed + [d.queue[0]]
    ensures d.phase.Running? && e.Iterate? && FiresAt(d, e.now) ==>
      && r.fired == d.fired + [e.now]
      && (r.phase.Running? <==> !(d.hasCallback && e.callbackRaises))
      && (r.phase.Running? ==> r.lastDetection == e.now)
    ensures d.consumed <= r.consumed && |r.consumed| <= |d.consumed| + 1
    ensures d.fired <= r.fired && |r.fired| <= |d.fired| + 1
    ensures |r.fired| == |d.fired| + 1 ==>
      && e.Iterate? && d.isListening && |d.queue| > 0 && Detect(d.queue[0])
      && r.fired[|d.fired|] == e.now && e.now - d.lastDetection > CooldownSeconds
    ensures |r.fired| == |d.fired| ==> r.lastDetection == d.lastDetection
  {
    if !d.phase.Running? then d
    else match e
      case Captured(f) =>
        // The input stream is open for the whole run of the loop.
        d.(queue := d.queue + [f], captured := d.captured + [f])
      case StopRequested =>
        StopListening(d)
      case CallbackSet(present) =>
        d.(hasCallback := present)
      case Iterate(now, raises) =>
        if !d.isListening then d.(phase := Exited(StopObserved))
        else if |d.queue| == 0 then d
        else
          var f := d.queue[0];
          var d1 := d.(queue := d.queue[1..], consumed := d.consumed + [f]);
          if !Detect(f) || !(now - d.lastDetection > CooldownSeconds) then d1
          else if d.hasCallback && raises then
            // The exception leaves before `last_detection_time` is updated.
            d1.(fired := d.fired + [now], phase := Exited(CallbackRaised))
          else
            d1.(fired := d.fired + [now], lastDetection := now)
  }

  /** The detector after a sequence of events. */
  function Run(d: Detector, events: seq<Event>): Detector
    decreases |events|
  {
    if events == [] then d else Run(Step(d, events[0]), events[1..])
  }

  // ---------------------------------------------------------------------------
  // Invariants

  function LastFiring(start: real, fired: seq<real>): real {
    if |fired| == 0 then start else fired[|fired| - 1]
  }

  /** The firing before the `i`-th one, or the start of listening for the first. */
  function Previous(start: real, fired: seq<real>, i: nat): real
    requires i <= |fired|
  {
    if i == 0 then start else fired[i - 1]
  }

  /** Each firing is more than the cooldown after the previous one (or after the start). */
  predicate CooldownSpaced(start: real, fired: seq<real>) {
    forall i :: 0 <= i < |fired| ==> fired[i] - Previous(start, fired, i) > CooldownSeconds
  }

  predicate Inv(d: Detector) {
    && d.consumed + d.queue == d.captured
    && CooldownSpaced(d.startedAt, d.fired)
    && (d.phase.Running? ==> d.lastDetection == LastFiring(d.startedAt, d.fired))
  }

  lemma StartEstablishesInv(pending: seq<Frame>, now: real, hasCallback: bool)
    ensures Inv(Start(pending, now, hasCallback))
  {
  }

  lemma StepPreservesInv(d: Detector, e: Event)
    requires Inv(d)
    ensures Inv(Step(d, e))
  {
    var r := Step(d, e);
    if d.phase.Running? && e.Iterate? && d.isListening && |d.queue| > 0 {
      assert d.consumed + [d.queue[0]] + d.queue[1..] == d.consumed + d.queue;
      if |r.fired| == |d.fired| + 1 {
        assert r.fired == d.fired + [e.now];
        FiringKeepsSpacing(d.startedAt, d.fired, e.now);
      }
    }
  }

  lemma FiringKeepsSpacing(start: real, fired: seq<real>, now: real)
    requires CooldownSpaced(start, fired)
    requires now - LastFiring(start, fired) > CooldownSeconds
    ensures CooldownSpaced(start, fired + [now])
  {
    var f := fired + [now];
    forall i | 0 <= i < |f|
      ensures f[i] - Previous(start, f, i) > CooldownSeconds
    {
      if i < |fired| {
        assert f[i] == fired[i];
        assert Previous(start, f, i) == Previous(start, fired, i);
      } else {
        assert Previous(start, f, i) == LastFiring(start, fired);
      }
    }
  }

  lemma {:induction false} RunPreservesInv(d: Detector, events: seq<Event>)
    requires Inv(d)
    ensures Inv(Run(d, events))
    ensures Run(d, events).startedAt == d.startedAt
    decreases |events|
  {
    if events != [] {
      StepPreservesInv(d, events[0]);
      RunPreservesInv(Step(d, events[0]), events[1..]);
    }
  }

  lemma {:induction false} SpacedChain(start: real, fired: seq<real>, i: nat, j: nat)
    requires CooldownSpaced(start, fired)
    requires i < j < |fired|
    ensures fired[j] - fired[i] > CooldownSeconds * (j - i) as real
    decreases j - i
  {
    if j > i + 1 {
      SpacedChain(start, fired, i, j - 1);
    }
  }

  lemma {:induction false} SpacedFromStart(start: real, fired: seq<real>, i: nat)
    requires CooldownSpaced(start, fired)
    requires i < |fired|
    ensures fired[i] - start > CooldownSeconds * (i + 1) as real
    decreases i
  {
    if i > 0 {
      SpacedFromStart(start, fired, i - 1);
      assert fired[i] - Previous(start, fired, i) > CooldownSeconds;
    } else {
      assert fired[0] - Previous(start, fired, 0) > CooldownSeconds;
    }
  }

  /**
    In any run from `Start`, the firing times strictly increase, any two are
    more than the cooldown apart, and none falls within the first cooldown
    after listening began.
   */
  lemma FiringsSpacedByCooldown(pending: seq<Frame>, now: real, hasCallback: bool, events: seq<Event>)
    ensures var d := Run(Start(pending, now, hasCallback), events);
      && (forall i, j :: 0 <= i < j < |d.fired| ==> d.fired[j] - d.fired[i] > CooldownSeconds)
      && (forall i :: 0 <= i < |d.fired| ==> d.fired[i] > now + CooldownSeconds)
  {
    var d := Run(Start(pending, now, hasCallback), events);
    RunPreservesInv(Start(pending, now, hasCallback), events);
    forall i, j | 0 <= i < j < |d.fired|
      ensures d.fired[j] - d.fired[i] > CooldownSeconds
    {
      SpacedChain(d.startedAt, d.fired, i, j);
    }
    forall i | 0 <= i < |d.fired|
      ensures d.fired[i] > now + CooldownSeconds
    {
      SpacedFromStart(d.startedAt, d.fired, i);
    }
  }

  /** However many loud frames arrive, at most one detection fires in any window of cooldown length. */
  lemma AtMostOneFiringPerWindow(pending: seq<Frame>, now: real, hasCallback: bool, events: seq<Event>, from: real)
    ensures var d := Run(Start(pending, now, hasCallback), events);
      forall i, j ::
        0 <= i < |d.fired| && 0 <= j < |d.fired|
        && from <= d.fired[i] <= from + CooldownSeconds
        && from <= d.fired[j] <= from + CooldownSeconds
        ==> i == j
  {
    FiringsSpacedByCooldown(pending, now, hasCallback, events);
  }

  // ---------------------------------------------------------------------------
  // FIFO order

  /** The frames the driver delivers, in delivery order. */
  function Deliveries(events: seq<Event>): seq<Frame> {
    if events == [] then []
    else Delivered(events[0]) + Deliveries(events[1..])
  }

  lemma {:induction false} RunCapturesDeliveries(d: Detector, events: seq<Event>)
    ensures d.captured <= Run(d, events).captured <= d.captured + Deliveries(events)
    decreases |events|
  {
    if events != [] {
      var d1 := Step(d, events[0]);
      var rest := Deliveries(events[1..]);
      RunCapturesDeliveries(d1, events[1..]);
      if !d.phase.Running? {
        RunAfterExit(d1, events[1..]);
        assert d.captured <= d.captured + Deliveries(events);
      } else {
        assert d.captured + Deliveries(events) == d1.captured + rest;
        assert d.captured <= d1.captured;
      }
    }
  }

  /** Once the loop has exited, no event changes the detector. */
  lemma {:induction false} RunAfterExit(d: Detector, events: seq<Event>)
    requires !d.phase.Running?
    ensures Run(d, events) == d
    decreases |events|
  {
    if events != [] {
      RunAfterExit(Step(d, events[0]), events[1..]);
    }
  }

  /**
    The loop consumes frames in the order they were queued: what it has taken
    so far, followed by what is still queued, is the pending frames followed by
    a prefix of the driver's deliveries.
   */
  lemma ConsumedInCaptureOrder(pending: seq<Frame>, now: real, hasCallback: bool, events: seq<Event>)
    ensures var d := Run(Start(pending, now, hasCallback), events);
      && d.consumed + d.queue <= pending + Deliveries(events)
      && d.consumed <= pending + Deliveries(events)
  {
    var d0 := Start(pending, now, hasCallback);
    RunPreservesInv(d0, events);
    RunCapturesDeliveries(d0, events);
  }

  // ---------------------------------------------------------------------------
  // Stopping

  /** Stopping twice is the same as stopping once. */
  lemma StopIdempotent(d: Detector)
    ensures Step(Step(d, StopRequested), StopRequested) == Step(d, StopRequested)
  {
  }

  /** After a stop request the next pass of the loop exits without taking a frame. */
  lemma StopEndsLoopAtNextPass(d: Detector, now: real, raises: bool)
    requires d.phase.Running?
    ensures var r := Step(Step(d, StopRequested), Iterate(now, raises));
      r.phase == Exited(StopObserved) && r.queue == d.queue && r.fired == d.fired
  {
  }

  /** A raising callback ends the loop; later loud frames fire nothing. */
  lemma CallbackErrorEndsLoop(d: Detector, now: real, events: seq<Event>)
    requires d.phase.Running? && d.isListening && d.hasCallback
    requires |d.queue| > 0 && Detect(d.queue[0]) && now - d.lastDetection > CooldownSeconds
    ensures var r := Step(d, Iterate(now, true));
      && r.phase == Exited(CallbackRaised)
      && r.lastDetection == d.lastDetection
      && Run(r, events) == r
  {
    RunAfterExit(Step(d, Iterate(now, true)), events);
  }

  /** A callback registered while listening is called, and so can end the loop, at the next firing. */
  lemma CallbackSetWhileListening(d: Detector, now: real)
    requires d.phase.Running? && d.isListening && !d.hasCallback
    requires |d.queue| > 0 && Detect(d.queue[0]) && now - d.lastDetection > CooldownSeconds
    ensures Step(d, Iterate(now, true)).phase == Running
    ensures Step(Step(d, CallbackSet(true)), Iterate(now, true)).phase == Exited(CallbackRaised)
  {
  }

  /**
    Three loud frames: the first, taken at `t`, fires; the second, taken
    half a second later, is within the cooldown and is suppressed; the third,
    taken 2.5 seconds after the first, fires again.
   */
  lemma BurstThenLaterFrame(a: Frame, b: Frame, c: Frame, start: real, t: real)
    requires Detect(a) && Detect(b) && Detect(c)
    requires t - start > CooldownSeconds
    ensures var d := Run(Start([], start, true),
      [Captured(a), Iterate(t, false), Captured(b), Iterate(t + 0.5, false), Captured(c), Iterate(t + 2.5, false)]);
      && d.fired == [t, t + 2.5]
      && d.consumed == [a, b, c]
      && d.phase == Running
  {
    var events :=
      [Captured(a), Iterate(t, false), Captured(b), Iterate(t + 0.5, false), Captured(c), Iterate(t + 2.5, false)];
    var d0 := Start([], start, true);
    var d1 := Step(d0, events[0]);
    var d2 := Step(d1, events[1]);
    var d3 := Step(d2, events[2]);
    var d4 := Step(d3, events[3]);
    var d5 := Step(d4, events[4]);
    var d6 := Step(d5, events[5]);
    assert d2.fired == [t] && d2.queue == [];
    assert d4.fired == [t] && d4.lastDetection == t && d4.queue == [];
    assert d6.fired == [t, t + 2.5];
    assert Run(d6, events[6..]) == d6;
    assert Run(d5, events[5..]) == d6;
    assert Run(d4, events[4..]) == d6;
    assert Run(d3, events[3..]) == d6;
    assert Run(d2, events[2..]) == d6;
    assert Run(d1, events[1..]) == d6;
  }

  /** Without a callback a passing detection still restarts the cooldown. */
  lemma FiringWithoutCallbackRestartsCooldown(d: Detector, now: real, raises: bool)
    requires d.phase.Running? && d.isListening && !d.hasCallback
    requires |d.queue| > 0 && Detect(d.queue[0]) && now - d.lastDetection > CooldownSeconds
    ensures var r := Step(d, Iterate(now, raises));
      r.phase == Running && r.lastDetection == now && r.fired == d.fired + [now]
  {
  }
}
