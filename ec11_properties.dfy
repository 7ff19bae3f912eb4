/** What one scan tick, and a run of ticks, guarantee about the encoder
    position, the key classification and the events sent to the channel. */
module Ec11Properties {
  import opened Wrapping
  import opened Ec11

  // The lemmas about a single `Tick(s, x)` each read one case of the tick as a
  // property of the firmware and are proved by unfolding `Tick`: they document
  // the behaviour of one pass. The lemmas about `Run` carry the inductive proofs.

  /** A change of A that is not still there after the settle delay is noise:
      no rotation status, and neither the remembered A level nor the position
      moves. A rotation status appears exactly when the change is confirmed. */
  lemma DebounceRejectsNoise(s: EngineState, x: Samples)
    requires s.firstReleased <= x.now
    ensures Tick(s, x).rotate.Some? <==> x.aFirst != s.aPrevious && x.aSettled != s.aPrevious
    ensures Tick(s, x).rotate.None? ==>
              Tick(s, x).state.aPrevious == s.aPrevious && Tick(s, x).state.position == s.position
  {
  }

  /** A confirmed falling edge of A starts a detent: clockwise when B is High,
      counter-clockwise when B is Low. The position does not move and no event
      is produced. */
  lemma FallingEdgeStartsDetent(s: EngineState, x: Samples)
    requires s.firstReleased <= x.now
    requires x.aFirst != s.aPrevious && x.aSettled != s.aPrevious && x.aSettled == Low
    ensures Tick(s, x).rotate == Some(if x.b == High then CwStart else CcwStart)
    ensures Tick(s, x).state.aPrevious == Low
    ensures Tick(s, x).state.position == s.position
    ensures Tick(s, x).event == Empty
  {
  }

  /** A confirmed rising edge of A ends a detent: clockwise with a wrapping
      increment when B is Low, counter-clockwise with a wrapping decrement when
      B is High. */
  lemma RisingEdgeEndsDetent(s: EngineState, x: Samples)
    requires s.firstReleased <= x.now
    requires x.aFirst != s.aPrevious && x.aSettled != s.aPrevious && x.aSettled == High
    ensures Tick(s, x).state.aPrevious == High
    ensures x.b == Low ==>
              Tick(s, x).rotate == Some(CwEnd) && Tick(s, x).state.position == WrappingAdd(s.position, 1)
    ensures x.b == High ==>
              Tick(s, x).rotate == Some(CcwEnd) && Tick(s, x).state.position == WrappingSub(s.position, 1)
  {
  }

  /** How far a rotation status moves the position: one step per detent end. */
  function EndStep(status: Option<RotateStatus>): (step: int)
    ensures -1 <= step <= 1
  {
    if status == Some(CwEnd) then 1 else if status == Some(CcwEnd) then -1 else 0
  }

  lemma TickMovesByEndStep(s: EngineState, x: Samples)
    requires s.firstReleased <= x.now
    ensures Tick(s, x).state.position == Wrap(s.position as int + EndStep(Tick(s, x).rotate))
  {
  }

  /** Each tick of `t` moves the position left by the tick before it (or `p`
      for the first tick) by that tick's EndStep. */
  predicate PositionChain(p: Position, t: seq<TickResult>)
    decreases |t|
  {
    t == [] ||
    (t[0].state.position == Wrap(p as int + EndStep(t[0].rotate)) &&
     PositionChain(t[0].state.position, t[1..]))
  }

  lemma {:induction false} RunIsPositionChain(s: EngineState, xs: seq<Samples>)
    requires ClockFrom(s.firstReleased, xs)
    decreases |xs|
    ensures PositionChain(s.position, Run(s, xs))
  {
    if xs != [] {
      var r := Tick(s, xs[0]);
      RunUnfold(s, xs);
      assert Run(s, xs)[0] == r && Run(s, xs)[1..] == Run(r.state, xs[1..]);
      TickMovesByEndStep(s, xs[0]);
      RunIsPositionChain(r.state, xs[1..]);
    }
  }

  lemma {:induction false} ChainEndsAtNetCount(p: Position, t: seq<TickResult>)
    requires PositionChain(p, t)
    decreases |t|
    ensures (if t == [] then p else t[|t| - 1].state.position) ==
              Wrap(p as int + Count(t, CwEnd) - Count(t, CcwEnd))
  {
    if t != [] {
      var q := t[0].state.position;
      var c := EndStep(t[0].rotate);
      var n := Count(t[1..], CwEnd) - Count(t[1..], CcwEnd);
      ChainEndsAtNetCount(q, t[1..]);
      WrapAbsorbs(p as int + c, n);
      assert Count(t, CwEnd) - Count(t, CcwEnd) == c + n;
      if t[1..] != [] {
        assert t[|t| - 1] == t[1..][|t[1..]| - 1];
      }
    }
  }

  /** After any run, the position is the starting position plus the number of
      clockwise ends minus the number of counter-clockwise ends, read as a
      wrapping 32-bit value; start statuses do not count. */
  lemma PositionCountsDetentEnds(s: EngineState, xs: seq<Samples>)
    requires ClockFrom(s.firstReleased, xs)
    ensures After(s, Run(s, xs)).position ==
              Wrap(s.position as int + Count(Run(s, xs), CwEnd) - Count(Run(s, xs), CcwEnd))
  {
    RunIsPositionChain(s, xs);
    ChainEndsAtNetCount(s.position, Run(s, xs));
  }

  /** From position 0, N clockwise and M counter-clockwise ends leave the
      position at (N - M) mod 2^32 read as a signed 32-bit value. */
  lemma PositionFromZero(s: EngineState, xs: seq<Samples>)
    requires ClockFrom(s.firstReleased, xs) && s.position == 0
    ensures var n, m := Count(Run(s, xs), CwEnd), Count(Run(s, xs), CcwEnd);
      (After(s, Run(s, xs)).position as int - (n - m)) % TWO_32 == 0
  {
    PositionCountsDetentEnds(s, xs);
  }

  /** A confirmed falling edge of the key is a press; within the double-press
      window of the last first release it is the second press of a double
      click. The remembered key level is the third key read. */
  lemma KeyFallingEdgeIsPress(s: EngineState, x: Samples)
    requires s.firstReleased <= x.now
    requires x.keyFirst != s.keyPrevious && x.keySettled != s.keyPrevious && x.keySettled == Low
    ensures Tick(s, x).state.hasPressed
    ensures Tick(s, x).state.keyPrevious == x.keyThird
    ensures Tick(s, x).press ==
              Some(if x.now - s.firstReleased <= DOUBLE_PRESSED_MS then TwicePressed else Pressed)
    ensures Tick(s, x).state.hasTwicePressed ==
              (s.hasTwicePressed || x.now - s.firstReleased <= DOUBLE_PRESSED_MS)
    ensures Tick(s, x).state.firstReleased == s.firstReleased
  {
  }

  /** A confirmed rising edge of the key is a release. After a second press it
      is the second release and leaves the release moment alone; otherwise it
      is a first release and records the moment. */
  lemma KeyRisingEdgeIsRelease(s: EngineState, x: Samples)
    requires s.firstReleased <= x.now
    requires x.keyFirst != s.keyPrevious && x.keySettled != s.keyPrevious && x.keySettled == High
    ensures !Tick(s, x).state.hasPressed && !Tick(s, x).state.hasTwicePressed
    ensures Tick(s, x).state.keyPrevious == x.keyThird
    ensures s.hasTwicePressed ==>
              Tick(s, x).press == Some(TwiceReleased) && Tick(s, x).state.firstReleased == s.firstReleased
    ensures !s.hasTwicePressed ==>
              Tick(s, x).press == Some(Released) && Tick(s, x).state.firstReleased == x.now
  {
  }

  /** Without a confirmed key edge the key state is untouched, and a held key
      is still reported as Pressed. */
  lemma HeldKeyStaysPressed(s: EngineState, x: Samples)
    requires s.firstReleased <= x.now
    requires x.keyFirst == s.keyPrevious || x.keySettled == s.keyPrevious
    ensures Tick(s, x).state.keyPrevious == s.keyPrevious
    ensures Tick(s, x).state.hasPressed == s.hasPressed
    ensures Tick(s, x).state.hasTwicePressed == s.hasTwicePressed
    ensures Tick(s, x).state.firstReleased == s.firstReleased
    ensures Tick(s, x).press == (if s.hasPressed then Some(Pressed) else None)
  {
  }

  /** The rotated-while-pressed flag is raised by any rotation status while the
      key is down, and nothing lowers it. This documents the flag update of
      `Tick` on its own; its consequence over whole runs is
      `RotatedWhilePressedSuppressesClicks`. */
  lemma RotatedWhilePressedFlag(s: EngineState, x: Samples)
    requires s.firstReleased <= x.now
    ensures Tick(s, x).state.hasRotateInPressed <==>
              s.hasRotateInPressed || (Tick(s, x).state.hasPressed && Tick(s, x).rotate.Some?)
  {
  }

  /** A detent end while the key is held gives ClickedRotate carrying the
      already-updated position. */
  lemma HeldRotationIsClickedRotate(s: EngineState, x: Samples)
    requires s.firstReleased <= x.now && s.hasPressed
    requires x.keyFirst == s.keyPrevious || x.keySettled == s.keyPrevious
    requires x.aFirst != s.aPrevious && x.aSettled != s.aPrevious && x.aSettled == High
    ensures Tick(s, x).state.hasRotateInPressed
    ensures x.b == Low ==>
              Tick(s, x).event == ClickedRotate(Cw, WrappingAdd(s.position, 1), 1)
    ensures x.b == High ==>
              Tick(s, x).event == ClickedRotate(Ccw, WrappingSub(s.position, 1), -1)
  {
  }

  /** Once a rotation has been seen while the key was held, the flag stays up
      for every later tick and no Clicked is ever produced or sent again. */
  lemma {:induction false} RotatedWhilePressedSuppressesClicks(s: EngineState, xs: seq<Samples>)
    requires ClockFrom(s.firstReleased, xs) && s.hasRotateInPressed
    decreases |xs|
    ensures forall i :: 0 <= i < |xs| ==>
              Run(s, xs)[i].state.hasRotateInPressed && Run(s, xs)[i].event != Clicked
    ensures Clicked !in Published(Run(s, xs))
  {
    if xs != [] {
      var r := Tick(s, xs[0]);
      ClockFromLower(r.state.firstReleased, xs[0].now, xs[1..]);
      var rest := Run(r.state, xs[1..]);
      var t := Run(s, xs);
      assert t == [r] + rest;
      assert t[1..] == rest;
      RotatedWhilePressedSuppressesClicks(r.state, xs[1..]);
      forall i | 0 <= i < |xs|
        ensures t[i].state.hasRotateInPressed && t[i].event != Clicked
      {
        if i > 0 {
          assert t[i] == rest[i - 1];
        }
      }
    }
  }

  /** Samples of a tick where A and B rest at `a` / High and the key reads
      `key` cleanly at time `t`. */
  function KeyOnly(a: Level, key: Level, t: nat): (x: Samples)
  {
    Samples(a, a, High, key, key, key, t)
  }

  /** Samples of a tick where A reads `a` cleanly, B reads `b`, and the key
      rests at `key`, at time `t`. */
  function PhaseOnly(a: Level, b: Level, key: Level, t: nat): (x: Samples)
  {
    Samples(a, a, b, key, key, key, t)
  }

  /** An idle engine: key up, no press, second press or rotation pending. */
  predicate Idle(s: EngineState)
  {
    s.keyPrevious == High && !s.hasPressed && !s.hasTwicePressed && !s.hasRotateInPressed
  }

  /** One clockwise detent from rest at position 0 sends Rotate(Cw, 1, +1). */
  lemma ClockwiseDetentScenario(s: EngineState, t1: nat, t2: nat)
    requires Idle(s) && s.aPrevious == High && s.position == 0
    requires s.firstReleased <= t1 <= t2
    ensures var xs := [PhaseOnly(Low, High, High, t1), PhaseOnly(High, Low, High, t2)];
      ClockFrom(s.firstReleased, xs) && Published(Run(s, xs)) == [Rotate(Cw, 1, 1)]
  {
  }

  /** Runs the four ticks of two press/release cycles of the key. */
  lemma TwoCycles(s: EngineState, t1: nat, t2: nat, t3: nat, t4: nat)
    returns (r1: TickResult, r2: TickResult, r3: TickResult, r4: TickResult)
    requires Idle(s) && s.firstReleased <= t1 <= t2 <= t3 <= t4
    ensures var a := s.aPrevious;
      var xs := [KeyOnly(a, Low, t1), KeyOnly(a, High, t2), KeyOnly(a, Low, t3), KeyOnly(a, High, t4)];
      ClockFrom(s.firstReleased, xs) && Run(s, xs) == [r1, r2, r3, r4] &&
      Published(Run(s, xs)) == Publish(r1.event) + Publish(r2.event) + Publish(r3.event) + Publish(r4.event)
    ensures r1 == Tick(s, KeyOnly(s.aPrevious, Low, t1))
    ensures r2.state.firstReleased <= t3 && r2 == Tick(r1.state, KeyOnly(s.aPrevious, High, t2))
    ensures r3.state.firstReleased <= t4 && r3 == Tick(r2.state, KeyOnly(s.aPrevious, Low, t3))
    ensures r4 == Tick(r3.state, KeyOnly(s.aPrevious, High, t4))
  {
    var a := s.aPrevious;
    var xs := [KeyOnly(a, Low, t1), KeyOnly(a, High, t2), KeyOnly(a, Low, t3), KeyOnly(a, High, t4)];
    r1 := Tick(s, xs[0]);
    r2 := Tick(r1.state, xs[1]);
    r3 := Tick(r2.state, xs[2]);
    r4 := Tick(r3.state, xs[3]);
    assert ClockFrom(t4, xs[3..]) by { assert xs[3..][1..] == []; }
    assert ClockFrom(t3, xs[2..]) by { assert xs[2..][1..] == xs[3..]; }
    assert ClockFrom(t2, xs[1..]) by { assert xs[1..][1..] == xs[2..]; }
    assert ClockFrom(s.firstReleased, xs);
    assert xs[1..][1..][1..][1..] == [];
    assert Run(r3.state, xs[3..]) == [r4];
    assert xs[2..][1..] == xs[3..];
    assert Run(r2.state, xs[2..]) == [r3, r4];
    assert xs[1..][1..] == xs[2..];
    assert Run(r1.state, xs[1..]) == [r2, r3, r4];
    assert Run(s, xs) == [r1, r2, r3, r4];
    assert Published([r4]) == Publish(r4.event);
    assert Published([r3, r4]) == Publish(r3.event) + Published([r4]);
    assert Published([r2, r3, r4]) == Publish(r2.event) + Published([r3, r4]);
  }

  /** A second press within the window of the first release: the first cycle
      sends Clicked, the second DoubleClicked. */
  lemma DoubleClickScenario(s: EngineState, t1: nat, t2: nat, t3: nat, t4: nat)
    requires Idle(s) && s.firstReleased + DOUBLE_PRESSED_MS < t1 <= t2 <= t3 <= t4
    requires t3 - t2 <= DOUBLE_PRESSED_MS
    ensures var a := s.aPrevious;
      var xs := [KeyOnly(a, Low, t1), KeyOnly(a, High, t2), KeyOnly(a, Low, t3), KeyOnly(a, High, t4)];
      ClockFrom(s.firstReleased, xs) && Published(Run(s, xs)) == [Clicked, DoubleClicked]
  {
    var r1, r2, r3, r4 := TwoCycles(s, t1, t2, t3, t4);
    assert r1.press == Some(Pressed) && r1.event == Empty;
    assert r2.press == Some(Released) && r2.event == Clicked && r2.state.firstReleased == t2;
    assert r3.press == Some(TwicePressed) && r3.event == Empty;
    assert r4.press == Some(TwiceReleased) && r4.event == DoubleClicked;
  }

  /** A second press after the window: two independent Clicked events. */
  lemma TwoClicksScenario(s: EngineState, t1: nat, t2: nat, t3: nat, t4: nat)
    requires Idle(s) && s.firstReleased + DOUBLE_PRESSED_MS < t1 <= t2 <= t3 <= t4
    requires t3 - t2 > DOUBLE_PRESSED_MS
    ensures var a := s.aPrevious;
      var xs := [KeyOnly(a, Low, t1), KeyOnly(a, High, t2), KeyOnly(a, Low, t3), KeyOnly(a, High, t4)];
      ClockFrom(s.firstReleased, xs) && Published(Run(s, xs)) == [Clicked, Clicked]
  {
    var r1, r2, r3, r4 := TwoCycles(s, t1, t2, t3, t4);
    assert r1.press == Some(Pressed) && r1.event == Empty;
    assert r2.press == Some(Released) && r2.event == Clicked && r2.state.firstReleased == t2;
    assert r3.press == Some(Pressed) && r3.event == Empty;
    assert r4.press == Some(Released) && r4.event == Clicked;
  }

  /** The release moment starts at the start-up clock reading, so a single
      press and release whose press comes within the window of start-up is
      reported as a double click. */
  lemma StartupPressIsSecondPress(a: Level, e: nat, t1: nat, t2: nat)
    requires e <= t1 <= t2 && t1 - e <= DOUBLE_PRESSED_MS
    ensures var xs := [KeyOnly(a, Low, t1), KeyOnly(a, High, t2)];
      ClockFrom(e, xs) && Published(Run(Initial(a, High, e), xs)) == [DoubleClicked]
  {
  }
}
