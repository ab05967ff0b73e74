/**
 * The knob-to-volume dispatcher as a specification on values: what one knob
 * event does to the volume level, the debounce flag and the trace of HID
 * reports sent, and what any sequence of events does from power-up.
 */
module VolumeControl {
  import opened HidReports

  /** Volume level at power-up, and its change per knob tick. */
  const INITIAL_VOLUME: int := 50
  const VOLUME_STEP: int := 5
  const MIN_VOLUME: int := 0
  const MAX_VOLUME: int := 100

  /** The only screen on which knob events control the volume. */
  const CONTROLS_SCREEN: byte := 1

  /** Integer event codes delivered by the knob driver. */
  const KNOB_LEFT: int := 0
  const KNOB_RIGHT: int := 1
  const KNOB_ZERO: int := 4

  predicate InRange(volume: int) {
    MIN_VOLUME <= volume <= MAX_VOLUME
  }

  function Min(a: int, b: int): int { if a <= b then a else b }
  function Max(a: int, b: int): int { if a >= b then a else b }

  /**
   * The volume level after `event`: LEFT steps it up and RIGHT steps it down,
   * clamped into [0, 100]; a knob already at the bound, and any other code,
   * leave it alone.
   */
  function NextVolume(volume: int, event: int): (v: int)
    ensures InRange(volume) ==> InRange(v)
    ensures -VOLUME_STEP <= v - volume <= VOLUME_STEP
    ensures event == KNOB_LEFT ==> volume <= v
    ensures event == KNOB_RIGHT ==> v <= volume
    ensures event == KNOB_LEFT && InRange(volume) ==> v == Min(volume + VOLUME_STEP, MAX_VOLUME)
    ensures event == KNOB_RIGHT && InRange(volume) ==> v == Max(volume - VOLUME_STEP, MIN_VOLUME)
    ensures event != KNOB_LEFT && event != KNOB_RIGHT ==> v == volume
  {
    if event == KNOB_LEFT then
      if volume < MAX_VOLUME then
        var raised := volume + VOLUME_STEP;
        if raised > MAX_VOLUME then MAX_VOLUME else raised
      else volume
    else if event == KNOB_RIGHT then
      if volume > MIN_VOLUME then
        var lowered := volume - VOLUME_STEP;
        if lowered < MIN_VOLUME then MIN_VOLUME else lowered
      else volume
    else volume
  }

  /** The consumer-control usage `event` sends at level `volume`, if any. */
  function Usage(volume: int, event: int): (u: Option<u16>)
    ensures u == Some(HID_USAGE_CONSUMER_MUTE) <==> event == KNOB_ZERO
    ensures u == Some(HID_USAGE_CONSUMER_VOLUME_INCREMENT) <==> event == KNOB_LEFT && volume < MAX_VOLUME
    ensures u == Some(HID_USAGE_CONSUMER_VOLUME_DECREMENT) <==> event == KNOB_RIGHT && volume > MIN_VOLUME
    ensures u.None? <==> event != KNOB_ZERO && NextVolume(volume, event) == volume
  {
    if event == KNOB_LEFT then
      if volume < MAX_VOLUME then Some(HID_USAGE_CONSUMER_VOLUME_INCREMENT) else None
    else if event == KNOB_RIGHT then
      if volume > MIN_VOLUME then Some(HID_USAGE_CONSUMER_VOLUME_DECREMENT) else None
    else if event == KNOB_ZERO then
      Some(HID_USAGE_CONSUMER_MUTE)
    else None
  }

  datatype Option<T> = None | Some(value: T)

  /** The reports `event` sends at level `volume`: one press/release pair or none. */
  function Emitted(volume: int, event: int): (t: seq<Report>)
    ensures WellPaired(t)
    ensures Usage(volume, event).None? <==> t == []
    ensures Usage(volume, event).Some? ==> t == ConsumerPair(Usage(volume, event).value)
  {
    match Usage(volume, event)
    case None => []
    case Some(u) => ConsumerPairPaired(u); ConsumerPair(u)
  }

  /**
   * The module state of the dispatcher: the volume level, the debounce flag,
   * the screen the UI is showing, and the reports sent so far.
   */
  datatype KnobState = KnobState(volume: int, debounce: bool, screenId: byte, sent: seq<Report>)

  /** The state at power-up on screen `screen`. */
  function Initial(screen: byte): (s: KnobState)
    ensures InRange(s.volume) && !s.debounce && s.sent == []
  {
    KnobState(INITIAL_VOLUME, false, screen, [])
  }

  /** Whether an event reaches the dispatch at all in state `s`. */
  predicate Accepts(s: KnobState) {
    s.screenId == CONTROLS_SCREEN && !s.debounce
  }

  /** One call of the knob event handler. */
  function Handle(s: KnobState, event: int): (r: KnobState)
    // the screen and debounce gates drop the event without any effect
    ensures s.screenId != CONTROLS_SCREEN ==> r == s
    ensures s.debounce ==> r == s
    // an accepted event leaves the flag clear and only appends to the trace
    ensures Accepts(s) ==> !r.debounce && r.screenId == s.screenId
    ensures |s.sent| <= |r.sent| && r.sent[..|s.sent|] == s.sent
    ensures Accepts(s) && event == KNOB_LEFT && s.volume < MAX_VOLUME ==>
      r.volume == Min(s.volume + VOLUME_STEP, MAX_VOLUME) &&
      r.sent == s.sent + ConsumerPair(HID_USAGE_CONSUMER_VOLUME_INCREMENT)
    ensures Accepts(s) && event == KNOB_RIGHT && s.volume > MIN_VOLUME ==>
      r.volume == Max(s.volume - VOLUME_STEP, MIN_VOLUME) &&
      r.sent == s.sent + ConsumerPair(HID_USAGE_CONSUMER_VOLUME_DECREMENT)
    ensures Accepts(s) && event == KNOB_ZERO ==>
      r.volume == s.volume && r.sent == s.sent + ConsumerPair(HID_USAGE_CONSUMER_MUTE)
    // knob at a bound, or an unknown code: nothing sent, level unchanged
    ensures (event == KNOB_LEFT && s.volume >= MAX_VOLUME) ||
            (event == KNOB_RIGHT && s.volume <= MIN_VOLUME) ||
            (event != KNOB_LEFT && event != KNOB_RIGHT && event != KNOB_ZERO) ==>
      r.volume == s.volume && r.sent == s.sent
    ensures InRange(s.volume) ==> InRange(r.volume)
    ensures WellPaired(s.sent) ==> WellPaired(r.sent)
  {
    if s.screenId != CONTROLS_SCREEN || s.debounce then s
    else
      var emitted := Emitted(s.volume, event);
      assert WellPaired(s.sent) ==> WellPaired(s.sent + emitted) by {
        if WellPaired(s.sent) { PairedAppend(s.sent, emitted); }
      }
      KnobState(NextVolume(s.volume, event), false, s.screenId, s.sent + emitted)
  }

  /** The state after handling `events` one after the other. */
  function Run(s: KnobState, events: seq<int>): KnobState
    decreases |events|
  {
    if events == [] then s else Run(Handle(s, events[0]), events[1..])
  }

  /** A level inside [0, 100] stays inside it whatever events arrive. */
  lemma {:induction false} RunInRange(s: KnobState, events: seq<int>)
    requires InRange(s.volume)
    ensures InRange(Run(s, events).volume)
    decreases |events|
  {
    if events != [] {
      RunInRange(Handle(s, events[0]), events[1..]);
    }
  }

  /** A paired trace stays paired whatever events arrive. */
  lemma {:induction false} RunPaired(s: KnobState, events: seq<int>)
    requires WellPaired(s.sent)
    ensures WellPaired(Run(s, events).sent)
    decreases |events|
  {
    if events != [] {
      RunPaired(Handle(s, events[0]), events[1..]);
    }
  }

  /** Off the controls screen, no sequence of events has any effect. */
  lemma {:induction false} RunOffScreen(s: KnobState, events: seq<int>)
    requires s.screenId != CONTROLS_SCREEN
    ensures Run(s, events) == s
    decreases |events|
  {
    if events != [] {
      RunOffScreen(Handle(s, events[0]), events[1..]);
    }
  }

  /** While the debounce flag is held, no sequence of events has any effect. */
  lemma {:induction false} RunDebounced(s: KnobState, events: seq<int>)
    requires s.debounce
    ensures Run(s, events) == s
    decreases |events|
  {
    if events != [] {
      RunDebounced(Handle(s, events[0]), events[1..]);
    }
  }

  /** A level power-up can reach: inside [0, 100] and a multiple of the step. */
  predicate OnGrid(volume: int) {
    InRange(volume) && volume % VOLUME_STEP == 0
  }

  /**
   * From a level on the grid, an accepted left or right turn changes the
   * level by exactly one step when it sends a report and leaves it alone
   * otherwise, so the clamp never cuts a step short; the level stays on
   * the grid.
   */
  lemma ExactStep(s: KnobState, event: int)
    requires OnGrid(s.volume)
    ensures OnGrid(Handle(s, event).volume)
    ensures Accepts(s) && Usage(s.volume, event) == Some(HID_USAGE_CONSUMER_VOLUME_INCREMENT) ==>
      Handle(s, event).volume == s.volume + VOLUME_STEP
    ensures Accepts(s) && Usage(s.volume, event) == Some(HID_USAGE_CONSUMER_VOLUME_DECREMENT) ==>
      Handle(s, event).volume == s.volume - VOLUME_STEP
    ensures !Accepts(s) || Usage(s.volume, event).None? || event == KNOB_ZERO ==>
      Handle(s, event).volume == s.volume
  {
  }

  /** A level on the grid stays on it whatever events arrive. */
  lemma {:induction false} RunOnGrid(s: KnobState, events: seq<int>)
    requires OnGrid(s.volume)
    ensures OnGrid(Run(s, events).volume)
    decreases |events|
  {
    if events != [] {
      ExactStep(s, events[0]);
      RunOnGrid(Handle(s, events[0]), events[1..]);
    }
  }

  /**
   * From power-up the volume stays in [0, 100] and on multiples of 5, and
   * the trace is made of press/release pairs, after any sequence of events.
   */
  lemma FromPowerUp(screen: byte, events: seq<int>)
    ensures InRange(Run(Initial(screen), events).volume)
    ensures Run(Initial(screen), events).volume % VOLUME_STEP == 0
    ensures WellPaired(Run(Initial(screen), events).sent)
  {
    RunOnGrid(Initial(screen), events);
    RunPaired(Initial(screen), events);
  }

  /**
   * The clamp of a left turn, at a level power-up cannot reach (98, off the
   * grid of multiples of 5): the level stops at 100, and the next left turn
   * sends nothing.
   */
  lemma ClampAtMaximum(screen: byte)
    requires screen == CONTROLS_SCREEN
    ensures !OnGrid(98)
    ensures Run(KnobState(98, false, screen, []), [KNOB_LEFT]).volume == MAX_VOLUME
    ensures Run(KnobState(98, false, screen, []), [KNOB_LEFT, KNOB_LEFT]) ==
            KnobState(MAX_VOLUME, false, screen, ConsumerPair(HID_USAGE_CONSUMER_VOLUME_INCREMENT))
  {
  }
}
