/** The EC11 rotary encoder scan engine (src/ec11.rs): the enums it reports,
    the pure pieces of one scan tick (quadrature decode, key classification,
    event arbitration) and the whole tick as a function of the engine state and
    the pin samples taken during that tick. */
module Ec11 {
  import opened Wrapping

  /** Double-press window in milliseconds (src/ec11.rs:6). */
  const DOUBLE_PRESSED_MS: nat := 200

  /** A digital pin level. The key is active-low: Low means pressed. */
  datatype Level = Low | High

  datatype Direction = Cw | Ccw

  datatype RotateStatus = CwStart | CwEnd | CcwStart | CcwEnd
  {
    /** An End status completes a detent and moves the position. */
    predicate IsEnd() { this == CwEnd || this == CcwEnd }

    function Dir(): Direction { if this == CwStart || this == CwEnd then Cw else Ccw }
  }

  datatype PressStatus = Pressed | Released | TwicePressed | TwiceReleased

  datatype Option<T> = None | Some(value: T)

  type Position = i32
  type PositionDelta = i8

  datatype Event =
    | Clicked
    | DoubleClicked
    | ClickedRotate(dir: Direction, position: Position, delta: PositionDelta)
    | Rotate(dir: Direction, position: Position, delta: PositionDelta)
    | Empty

  /** Every pin read and clock read made during one pass of the scan loop.
      `aSettled` and `keySettled` are the re-reads after the settle delay and
      only matter when the first read differs from the remembered level;
      `keyThird` is the further key read that becomes the remembered key
      level; `now` is the elapsed time since start-up in milliseconds. */
  datatype Samples = Samples(
    aFirst: Level, aSettled: Level, b: Level,
    keyFirst: Level, keySettled: Level, keyThird: Level,
    now: nat)

  /** The variables the scan loop keeps across ticks. */
  datatype EngineState = EngineState(
    aPrevious: Level,
    keyPrevious: Level,
    position: Position,
    firstReleased: nat,
    hasPressed: bool,
    hasRotateInPressed: bool,
    hasTwicePressed: bool)

  /** State before the first tick; `startElapsed` is the clock reading taken
      as the initial release moment. */
  function Initial(aLevel: Level, keyLevel: Level, startElapsed: nat): (s: EngineState)
    ensures s.aPrevious == aLevel && s.keyPrevious == keyLevel
    ensures s.position == 0 && s.firstReleased == startElapsed
    ensures !s.hasPressed && !s.hasRotateInPressed && !s.hasTwicePressed
  {
    EngineState(aLevel, keyLevel, 0, startElapsed, false, false, false)
  }

  /** Quadrature decode of a confirmed edge of A (the clock) with B (the data
      line) read at that instant. */
  function DecodeRotation(a: Level, b: Level): (r: RotateStatus)
    ensures r.IsEnd() <==> a == High
    ensures r.Dir() == Cw <==> a != b
  {
    match (a, b)
    case (Low, High) => CwStart
    case (Low, Low) => CcwStart
    case (High, Low) => CwEnd
    case (High, High) => CcwEnd
  }

  /** Outcome of the A/B half of a tick. */
  datatype RotationScan = RotationScan(aPrevious: Level, status: Option<RotateStatus>, position: Position)

  /** A rotation status appears exactly when both A reads differ from the
      remembered level; it is then an End exactly when A rose, the new A level
      is remembered and only an End moves the position, by one wrapping step.
      Otherwise nothing changes. */
  function ScanRotation(s: EngineState, x: Samples): (r: RotationScan)
    ensures r.status.Some? <==> x.aFirst != s.aPrevious && x.aSettled != s.aPrevious
    ensures r.status.None? ==> r.aPrevious == s.aPrevious && r.position == s.position
    ensures r.status.Some? ==> r.aPrevious == x.aSettled && (r.status.value.IsEnd() <==> x.aSettled == High)
    ensures r.status.Some? ==> (r.status.value.Dir() == Cw <==> x.aSettled != x.b)
    ensures r.position == (if r.status == Some(CwEnd) then WrappingAdd(s.position, 1)
                           else if r.status == Some(CcwEnd) then WrappingSub(s.position, 1)
                           else s.position)
  {
    if x.aFirst != s.aPrevious && x.aSettled != s.aPrevious then
      var status := DecodeRotation(x.aSettled, x.b);
      var position :=
        if status == CwEnd then WrappingAdd(s.position, 1)
        else if status == CcwEnd then WrappingSub(s.position, 1)
        else s.position;
      RotationScan(x.aSettled, Some(status), position)
    else
      RotationScan(s.aPrevious, None, s.position)
  }

  /** Outcome of the key half of a tick, before a held key is reported. */
  datatype KeyScan = KeyScan(
    keyPrevious: Level, status: Option<PressStatus>,
    hasPressed: bool, firstReleased: nat, hasTwicePressed: bool)

  /** A press status appears exactly when both key reads differ from the
      remembered level; the third read is then remembered. A press sets
      has_pressed and is a second press within the window of the release
      moment; a release clears both flags and records the moment only when it
      ends a first press. Without an edge nothing changes. */
  function ScanKey(s: EngineState, x: Samples): (r: KeyScan)
    requires s.firstReleased <= x.now
    ensures r.status.Some? <==> x.keyFirst != s.keyPrevious && x.keySettled != s.keyPrevious
    ensures r.status.None? ==>
              r.keyPrevious == s.keyPrevious && r.hasPressed == s.hasPressed &&
              r.firstReleased == s.firstReleased && r.hasTwicePressed == s.hasTwicePressed
    ensures r.status.Some? ==> r.keyPrevious == x.keyThird && (r.hasPressed <==> x.keySettled == Low)
    ensures r.status == Some(TwicePressed) <==>
              r.status.Some? && x.keySettled == Low && x.now - s.firstReleased <= DOUBLE_PRESSED_MS
    ensures r.status == Some(TwiceReleased) <==> r.status.Some? && x.keySettled == High && s.hasTwicePressed
    ensures r.status == Some(Released) <==> r.status.Some? && x.keySettled == High && !s.hasTwicePressed
    ensures r.firstReleased == (if r.status == Some(Released) then x.now else s.firstReleased)
    ensures r.status.Some? ==>
              (r.hasTwicePressed <==> r.hasPressed && (s.hasTwicePressed || r.status == Some(TwicePressed)))
  {
    if x.keyFirst != s.keyPrevious && x.keySettled != s.keyPrevious then
      match x.keySettled
      case Low =>
        var twice := x.now - s.firstReleased <= DOUBLE_PRESSED_MS;
        KeyScan(x.keyThird, Some(if twice then TwicePressed else Pressed),
                true, s.firstReleased, s.hasTwicePressed || twice)
      case High =>
        if s.hasTwicePressed then
          KeyScan(x.keyThird, Some(TwiceReleased), false, s.firstReleased, false)
        else
          KeyScan(x.keyThird, Some(Released), false, x.now, false)
    else
      KeyScan(s.keyPrevious, None, s.hasPressed, s.firstReleased, s.hasTwicePressed)
  }

  /** The event for one tick, from that tick's rotation and press statuses.
      Every combination not listed below gives Empty. */
  function Arbitrate(rotate: Option<RotateStatus>, press: Option<PressStatus>,
                     rotatedWhilePressed: bool, position: Position): (e: Event)
    ensures e.Clicked? <==> rotate.None? && press == Some(Released) && !rotatedWhilePressed
    ensures e.DoubleClicked? <==> rotate.None? && press == Some(TwiceReleased)
    ensures e.Rotate? <==> rotate.Some? && rotate.value.IsEnd() && press.None?
    ensures e.ClickedRotate? <==> rotate.Some? && rotate.value.IsEnd() && press == Some(Pressed)
    ensures (e.Rotate? || e.ClickedRotate?) ==>
              e.dir == rotate.value.Dir() && e.position == position &&
              e.delta == (if e.dir == Cw then 1 else -1)
  {
    match (rotate, press)
    case (None, None) => Empty
    case (None, Some(Released)) => if rotatedWhilePressed then Empty else Clicked
    case (None, Some(TwiceReleased)) => DoubleClicked
    case (Some(CwEnd), None) => Rotate(Cw, position, 1)
    case (Some(CcwEnd), None) => Rotate(Ccw, position, -1)
    case (Some(CwEnd), Some(Pressed)) => ClickedRotate(Cw, position, 1)
    case (Some(CcwEnd), Some(Pressed)) => ClickedRotate(Ccw, position, -1)
    case _ => Empty
  }

  datatype TickResult = TickResult(
    state: EngineState, rotate: Option<RotateStatus>, press: Option<PressStatus>, event: Event)

  /** One pass of the scan loop: A/B, then the key, then the held-key report,
      the rotated-while-pressed flag and the event. */
  function Tick(s: EngineState, x: Samples): (r: TickResult)
    requires s.firstReleased <= x.now
    ensures r.state.firstReleased == s.firstReleased || r.state.firstReleased == x.now
  {
    var rot := ScanRotation(s, x);
    var key := ScanKey(s, x);
    var press := if key.status.None? && key.hasPressed then Some(Pressed) else key.status;
    var rotatedWhilePressed := s.hasRotateInPressed || (key.hasPressed && rot.status.Some?);
    var state := EngineState(rot.aPrevious, key.keyPrevious, rot.position, key.firstReleased,
                             key.hasPressed, rotatedWhilePressed, key.hasTwicePressed);
    TickResult(state, rot.status, press, Arbitrate(rot.status, press, rotatedWhilePressed, rot.position))
  }

  /** What the sink receives for one event: nothing for Empty. */
  function Publish(e: Event): (sent: seq<Event>)
    ensures Empty !in sent && |sent| <= 1
    ensures e != Empty ==> sent == [e]
  {
    if e == Empty then [] else [e]
  }

  /** The clock readings of successive ticks never go back, starting from `lo`. */
  predicate ClockFrom(lo: nat, xs: seq<Samples>)
    decreases |xs|
  {
    xs == [] || (lo <= xs[0].now && ClockFrom(xs[0].now, xs[1..]))
  }

  lemma ClockFromLower(lo: nat, hi: nat, xs: seq<Samples>)
    requires lo <= hi && ClockFrom(hi, xs)
    ensures ClockFrom(lo, xs)
  {
  }

  /** The results of running the scan loop over `xs`, one per tick. */
  function Run(s: EngineState, xs: seq<Samples>): (trace: seq<TickResult>)
    requires ClockFrom(s.firstReleased, xs)
    ensures |trace| == |xs|
    decreases |xs|
  {
    if xs == [] then []
    else
      var r := Tick(s, xs[0]);
      ClockFromLower(r.state.firstReleased, xs[0].now, xs[1..]);
      [r] + Run(r.state, xs[1..])
  }

  /** The first tick of a run, then the run from the state it leaves. */
  lemma RunUnfold(s: EngineState, xs: seq<Samples>)
    requires xs != [] && ClockFrom(s.firstReleased, xs)
    ensures ClockFrom(Tick(s, xs[0]).state.firstReleased, xs[1..])
    ensures Run(s, xs) == [Tick(s, xs[0])] + Run(Tick(s, xs[0]).state, xs[1..])
  {
  }

  /** The state after a trace that started in `s`. */
  function After(s: EngineState, trace: seq<TickResult>): (last: EngineState)
  {
    if trace == [] then s else trace[|trace| - 1].state
  }

  /** The events a trace sends to the channel, in tick order. */
  function Published(trace: seq<TickResult>): (sent: seq<Event>)
    ensures Empty !in sent
    ensures |sent| <= |trace|
  {
    if trace == [] then [] else Publish(trace[0].event) + Published(trace[1..])
  }

  /** Sending the events of two consecutive stretches of ticks sends those of
      the first stretch, then those of the second. */
  lemma {:induction false} PublishedAppend(t: seq<TickResult>, u: seq<TickResult>)
    ensures Published(t + u) == Published(t) + Published(u)
  {
    if t == [] {
      assert t + u == u;
    } else {
      assert (t + u)[1..] == t[1..] + u;
      PublishedAppend(t[1..], u);
    }
  }

  /** One more tick sends what the trace so far sent, then that tick's event. */
  lemma PublishedSnoc(t: seq<TickResult>, r: TickResult)
    ensures Published(t + [r]) == Published(t) + Publish(r.event)
  {
    PublishedAppend(t, [r]);
    assert Published([r]) == Publish(r.event) + Published([]);
  }

  /** Number of ticks in a trace whose rotation status is `status`. */
  function Count(trace: seq<TickResult>, status: RotateStatus): (n: nat)
    ensures n <= |trace|
  {
    if trace == [] then 0
    else (if trace[0].rotate == Some(status) then 1 else 0) + Count(trace[1..], status)
  }
}
