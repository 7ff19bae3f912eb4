/** The worker thread of `ec11_service` (src/ec11.rs:70-211): the loop
    variables become the fields of an engine object, one pass of the loop body
    becomes `Step`, and the channel the loop sends into becomes the ghost
    sequence `published`. */
module Ec11Service {
  import opened Wrapping
  import opened Ec11

  class Ec11Engine {
    var aPrevious: Level
    var keyPrevious: Level
    var position: Position
    var firstReleased: nat
    var hasPressed: bool
    var hasRotateInPressed: bool
    var hasTwicePressed: bool

    /** Every event sent to the channel so far, oldest first. */
    ghost var published: seq<Event>

    /** The loop variables as a value. */
    function State(): EngineState
      reads this
    {
      EngineState(aPrevious, keyPrevious, position, firstReleased,
                  hasPressed, hasRotateInPressed, hasTwicePressed)
    }

    /** The set-up before the loop: the first A and key reads, the elapsed
        time taken as the initial release moment, a zero position and all
        flags clear. */
    constructor (aLevel: Level, keyLevel: Level, startElapsed: nat)
      ensures State() == Initial(aLevel, keyLevel, startElapsed)
      ensures published == []
    {
      position := 0;
      aPrevious := aLevel;
      keyPrevious := keyLevel;
      firstReleased := startElapsed;
      hasPressed, hasRotateInPressed, hasTwicePressed := false, false, false;
      published := [];
    }

    /** One pass of the scan loop. */
    method Step(x: Samples) returns (event: Event)
      requires firstReleased <= x.now
      modifies this
      ensures State() == Tick(old(State()), x).state
      ensures event == Tick(old(State()), x).event
      ensures published == old(published) + Publish(event)
    {
      var rotateStatus := ScanPhaseA(x);
      var pressStatus := ScanKeyPin(x);

      // a held key makes no edge, so it is reported on every tick
      if pressStatus.None? && hasPressed {
        pressStatus := Some(Pressed);
      }

      if hasPressed && rotateStatus.Some? {
        hasRotateInPressed := true;
      }

      event := Arbitrate(rotateStatus, pressStatus, hasRotateInPressed, position);

      if event != Empty {
        published := published + [event];
      }
    }

    /** The A/B half of a pass: A is the clock and is re-read after the settle
        delay, B is the data line read once a change of A is confirmed. */
    method ScanPhaseA(x: Samples) returns (rotateStatus: Option<RotateStatus>)
      modifies this`aPrevious, this`position
      ensures var rot := ScanRotation(old(State()), x);
        aPrevious == rot.aPrevious && position == rot.position && rotateStatus == rot.status
    {
      rotateStatus := None;
      if x.aFirst != aPrevious {
        var aLevel := x.aSettled;
        if aLevel != aPrevious {
          aPrevious := aLevel;
          if aLevel == Low {
            if x.b == High {
              rotateStatus := Some(CwStart);
            } else {
              rotateStatus := Some(CcwStart);
            }
          } else {
            assert aLevel == High;
            if x.b == Low {
              rotateStatus := Some(CwEnd);
              position := WrappingAdd(position, 1);
            } else {
              rotateStatus := Some(CcwEnd);
              position := WrappingSub(position, 1);
            }
          }
        }
      }
    }

    /** The key half of a pass: the key is active-low and re-read after the
        settle delay; a press soon enough after the last first release is the
        second press of a double click. */
    method ScanKeyPin(x: Samples) returns (pressStatus: Option<PressStatus>)
      requires firstReleased <= x.now
      modifies this`keyPrevious, this`hasPressed, this`firstReleased, this`hasTwicePressed
      ensures var key := ScanKey(old(State()), x);
        keyPrevious == key.keyPrevious && pressStatus == key.status && hasPressed == key.hasPressed &&
        firstReleased == key.firstReleased && hasTwicePressed == key.hasTwicePressed
    {
      pressStatus := None;
      if x.keyFirst != keyPrevious {
        var keyLevel := x.keySettled;
        if keyLevel != keyPrevious {
          keyPrevious := x.keyThird;
          if keyLevel == Low {
            pressStatus := Some(Pressed);
            hasPressed := true;
            if x.now - firstReleased <= DOUBLE_PRESSED_MS {
              pressStatus := Some(TwicePressed);
              hasTwicePressed := true;
            }
          } else {
            assert keyLevel == High;
            pressStatus := Some(Released);
            hasPressed := false;
            if hasTwicePressed {
              hasTwicePressed := false;
              pressStatus := Some(TwiceReleased);
            } else {
              firstReleased := x.now;
            }
          }
        }
      }
    }

    /** The scan loop run for the ticks whose samples are `xs`. */
    method Scan(xs: seq<Samples>)
      requires ClockFrom(firstReleased, xs)
      modifies this
      ensures State() == After(old(State()), Run(old(State()), xs))
      ensures published == old(published) + Published(Run(old(State()), xs))
    {
      ghost var start := State();
      ghost var done: seq<TickResult> := [];
      var i := 0;
      while i < |xs|
        invariant 0 <= i <= |xs|
        invariant ClockFrom(firstReleased, xs[i..])
        invariant Run(start, xs) == done + Run(State(), xs[i..])
        invariant State() == After(start, done)
        invariant published == old(published) + Published(done)
      {
        ghost var r := Tick(State(), xs[i]);
        RunAdvance(start, done, State(), xs, i);
        PublishedSnoc(done, r);
        var event := Step(xs[i]);
        assert State() == r.state && published == old(published) + Published(done) + Publish(r.event);
        done := done + [r];
        i := i + 1;
      }
      assert xs[i..] == [] && done + [] == done;
    }
  }

  /** Moving one tick from the part of a run still to come to the part done
      keeps the run in step. */
  lemma RunAdvance(start: EngineState, done: seq<TickResult>, s: EngineState, xs: seq<Samples>, i: nat)
    requires i < |xs| && ClockFrom(start.firstReleased, xs) && ClockFrom(s.firstReleased, xs[i..])
    requires Run(start, xs) == done + Run(s, xs[i..])
    ensures ClockFrom(Tick(s, xs[i]).state.firstReleased, xs[i + 1..])
    ensures Run(start, xs) == (done + [Tick(s, xs[i])]) + Run(Tick(s, xs[i]).state, xs[i + 1..])
  {
    assert xs[i..][1..] == xs[i + 1..];
  }
}
