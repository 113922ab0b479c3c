/**
  The stateless shutter evaluator over the reals: envelopes of open, closed, periodic and random waves,
  and the parameter update that integrates phase. Random jitter is any function of the event index into [0, 1).
*/
module ShutterContract {
  import opened Prelude

  datatype Wave =
    | Unsupported | Open | Closed | Strobe | Pulse | PulseOpen | PulseClose | Duration | Frequency | Mode
    | RandomStrobe | RandomPulse | RandomOpen | RandomClose

  /** Jitter by key and event index; the key is what the source hashes: seed, activation and function. */
  datatype JitterKey = JitterKey(seed: nat, activation: int, functionId: int)
  type Jitter = (JitterKey, int) -> real

  ghost predicate InUnitInterval(jitter: Jitter) {
    forall key, e :: 0.0 <= jitter(key, e) < 1.0
  }

  datatype Parameters = Parameters(
    wave: Wave, functionId: int, revision: nat, status: int, frequency: real, duration: real, duty: real,
    offset: real, phase: real, reference: real, activation: int, seed: nat)
  {
    function Key(): JitterKey {
      JitterKey(seed, activation, functionId)
    }
  }

  const COUNTER_LIMIT: real := 9223372036854775805.0

  predicate Random(w: Wave) {
    w.RandomStrobe? || w.RandomPulse? || w.RandomOpen? || w.RandomClose?
  }

  predicate Periodic(w: Wave) {
    w.Strobe? || w.Pulse? || w.PulseOpen? || w.PulseClose? || Random(w)
  }

  function Shape(w: Wave): Wave {
    match w
    case RandomStrobe => Strobe
    case RandomPulse => Pulse
    case RandomOpen => PulseOpen
    case RandomClose => PulseClose
    case other => other
  }

  function Clamp01(x: real): real {
    if x < 0.0 then 0.0 else if x > 1.0 then 1.0 else x
  }

  function Fraction(x: real): (r: real)
    ensures 0.0 <= r < 1.0
  {
    x - x.Floor as real
  }

  function ShapeValue(shape: Wave, x: real): real {
    match shape
    case Pulse => 1.0 - AbsReal(2.0 * x - 1.0)
    case PulseOpen => x
    case PulseClose => 1.0 - x
    case _ => 1.0
  }

  function EventStart(jitter: Jitter, key: JitterKey, e: int): real {
    e as real + 0.25 + 0.5 * jitter(key, e)
  }

  function Cycles(p: Parameters, now: real): real {
    p.phase + MaxReal(now - p.reference, 0.0) * p.frequency
  }

  function Width(p: Parameters): real {
    var shape := Shape(p.wave);
    if Random(p.wave) && shape == Strobe then MaxReal(0.0, p.duration * p.frequency)
    else Clamp01(if shape == Strobe then p.duration * p.frequency else p.duty)
  }

  /** What one event contributes at a position, given where it starts. */
  function Contribution(shape: Wave, width: real, local: real): real
    requires width > 0.0
  {
    if 0.0 <= local < width then ShapeValue(shape, local / width) else 0.0
  }

  function CandidateAt(shape: Wave, width: real, position: real, jitter: Jitter, key: JitterKey, e: int): real
    requires width > 0.0
  {
    if e < 0 then 0.0 else Contribution(shape, width, position - EventStart(jitter, key, e))
  }

  function Candidates(shape: Wave, width: real, position: real, jitter: Jitter, key: JitterKey): real
    requires width > 0.0
  {
    var index := position.Floor;
    MaxReal(MaxReal(0.0, CandidateAt(shape, width, position, jitter, key, index - 1)),
        CandidateAt(shape, width, position, jitter, key, index))
  }

  function RandomAt(shape: Wave, width: real, offset: real, cycles: real, jitter: Jitter, key: JitterKey): real
    requires width > 0.0
  {
    if shape == Strobe && width >= 1.75 && 0.0 <= offset <= 1.0 then 1.0 else
      var position := cycles - offset + width;
      if position < 0.0 || position >= COUNTER_LIMIT then 0.0
      else Candidates(shape, width, position, jitter, key)
  }

  function PeriodicAt(shape: Wave, width: real, offset: real, cycles: real): real
    requires width > 0.0
  {
    var local := Fraction(Fraction(cycles) - (offset - width));
    if local >= width then 0.0 else ShapeValue(shape, local / width)
  }

  function Envelope(p: Parameters, jitter: Jitter, now: real): real {
    if p.wave == Closed then 0.0
    else if !Periodic(p.wave) || p.frequency <= 0.0 then 1.0
    else if Width(p) <= 0.0 then 0.0
    else if Random(p.wave) then RandomAt(Shape(p.wave), Width(p), p.offset, Cycles(p, now), jitter, p.Key())
    else PeriodicAt(Shape(p.wave), Width(p), p.offset, Cycles(p, now))
  }

  /** The evaluator's loop over the two candidate events. */
  method RandomPeak(shape: Wave, width: real, position: real, jitter: Jitter, key: JitterKey) returns (r: real)
    requires width > 0.0
    ensures r == Candidates(shape, width, position, jitter, key)
  {
    var index := position.Floor;
    r := 0.0;
    for event := index - 1 to index + 1
      invariant r == (if event == index - 1 then 0.0
        else if event == index then MaxReal(0.0, CandidateAt(shape, width, position, jitter, key, index - 1))
        else Candidates(shape, width, position, jitter, key))
    {
      if event >= 0 {
        var local := position - EventStart(jitter, key, event);
        if local >= 0.0 && local < width {
          r := MaxReal(r, ShapeValue(shape, local / width));
        }
      }
    }
  }

  method RandomValue(shape: Wave, width: real, offset: real, cycles: real, jitter: Jitter, key: JitterKey) returns (r: real)
    requires width > 0.0
    ensures r == RandomAt(shape, width, offset, cycles, jitter, key)
  {
    if shape == Strobe && width >= 1.75 && 0.0 <= offset <= 1.0 {
      return 1.0;
    }
    var position := cycles - offset + width;
    if position < 0.0 || position >= COUNTER_LIMIT {
      return 0.0;
    }
    r := RandomPeak(shape, width, position, jitter, key);
  }

  method PeriodicValue(shape: Wave, width: real, offset: real, cycles: real) returns (r: real)
    requires width > 0.0
    ensures r == PeriodicAt(shape, width, offset, cycles)
  {
    var local := Fraction(Fraction(cycles) - (offset - width));
    return if local >= width then 0.0 else ShapeValue(shape, local / width);
  }

  /** The evaluator as written. */
  method ShutterEnvelope(p: Parameters, jitter: Jitter, now: real) returns (r: real)
    ensures r == Envelope(p, jitter, now)
    ensures Shows(p, jitter, now, r)
  {
    EnvelopeShows(p, jitter, now);
    if p.wave == Closed {
      return 0.0;
    }
    if !Periodic(p.wave) || p.frequency <= 0.0 {
      return 1.0;
    }
    var cycles := Cycles(p, now);
    var shape, width := Shape(p.wave), Width(p);
    if width <= 0.0 {
      return 0.0;
    }
    if Random(p.wave) {
      r := RandomValue(shape, width, p.offset, cycles, jitter, p.Key());
      return r;
    }
    r := PeriodicValue(shape, width, p.offset, cycles);
  }

  // ----- what a shutter shows -----

  /** The light at the fraction `x` of a flash window: square, triangle, rising and falling ramp, random or not. */
  function Profile(w: Wave, x: real): real {
    match w
    case Pulse => if x <= 0.5 then 2.0 * x else 2.0 - 2.0 * x
    case RandomPulse => if x <= 0.5 then 2.0 * x else 2.0 - 2.0 * x
    case PulseOpen => x
    case RandomOpen => x
    case PulseClose => 1.0 - x
    case RandomClose => 1.0 - x
    case _ => 1.0
  }

  /** How many cycles have passed: the phase, and the frequency times the time since the reference. */
  function Elapsed(p: Parameters, now: real): real {
    if now <= p.reference then p.phase else p.phase + p.frequency * (now - p.reference)
  }

  /**
    How much of a cycle a flash lasts: duration times frequency for square flashes, at most a whole cycle unless random;
    the duty, between nothing and a whole cycle, for the others.
  */
  function FlashWindow(p: Parameters): real {
    match p.wave
    case Strobe =>
      if p.duration * p.frequency < 0.0 then 0.0 else if p.duration * p.frequency > 1.0 then 1.0 else p.duration * p.frequency
    case RandomStrobe => if p.duration * p.frequency < 0.0 then 0.0 else p.duration * p.frequency
    case _ => if p.duty < 0.0 then 0.0 else if p.duty > 1.0 then 1.0 else p.duty
  }

  /** One flash per cycle, which ends `offset` into the cycle. */
  predicate PeriodicShows(p: Parameters, now: real, r: real)
    requires FlashWindow(p) > 0.0
  {
    var position := Elapsed(p, now) - p.offset + FlashWindow(p);
    var local := position - position.Floor as real;
    r == if local < FlashWindow(p) then Profile(p.wave, local / FlashWindow(p)) else 0.0
  }

  /** The light that random event `e` alone would show. */
  function EventShows(p: Parameters, jitter: Jitter, now: real, e: int): real
    requires FlashWindow(p) > 0.0
  {
    var position := Elapsed(p, now) - p.offset + FlashWindow(p);
    var local := position - (e as real + 0.25 + 0.5 * jitter(JitterKey(p.seed, p.activation, p.functionId), e));
    if 0.0 <= local < FlashWindow(p) then Profile(p.wave, local / FlashWindow(p)) else 0.0
  }

  /** One flash per random event from event 0 on; the brightest one shows. */
  ghost predicate RandomShows(p: Parameters, jitter: Jitter, now: real, r: real)
    requires FlashWindow(p) > 0.0
  {
    && r >= 0.0 && (forall e: nat :: EventShows(p, jitter, now, e) <= r)
    && (r == 0.0 || exists e: nat :: EventShows(p, jitter, now, e) == r)
  }

  /** Flashes so long that one always covers the next. */
  predicate Overlapping(p: Parameters) {
    p.wave.RandomStrobe? && FlashWindow(p) >= 1.75 && 0.0 <= p.offset <= 1.0
  }

  /** A random wave shows its brightest event; overlapping flashes never go dark, the others do outside the counter. */
  ghost predicate RandomWaveShows(p: Parameters, jitter: Jitter, now: real, r: real)
    requires FlashWindow(p) > 0.0
  {
    var position := Elapsed(p, now) - p.offset + FlashWindow(p);
    && (Overlapping(p) ==> r == 1.0)
    && (!Overlapping(p) && (position < 0.0 || position >= COUNTER_LIMIT) ==> r == 0.0)
    && (InUnitInterval(jitter) && p.phase >= 0.0 && position < COUNTER_LIMIT ==> RandomShows(p, jitter, now, r))
  }

  /** A closed shutter is dark, one that does not move is open, a moving one flashes. */
  ghost predicate Shows(p: Parameters, jitter: Jitter, now: real, r: real) {
    match p.wave
    case Closed => r == 0.0
    case Open => r == 1.0
    case Unsupported => r == 1.0
    case Duration => r == 1.0
    case Frequency => r == 1.0
    case Mode => r == 1.0
    case _ =>
      if p.frequency <= 0.0 then r == 1.0
      else if FlashWindow(p) <= 0.0 then r == 0.0
      else if p.wave.Strobe? || p.wave.Pulse? || p.wave.PulseOpen? || p.wave.PulseClose? then PeriodicShows(p, now, r)
      else RandomWaveShows(p, jitter, now, r)
  }

  lemma ProfileIsShape(w: Wave, x: real)
    ensures Profile(w, x) == ShapeValue(Shape(w), x)
  {
  }

  lemma ElapsedIsCycles(p: Parameters, now: real)
    ensures Elapsed(p, now) == Cycles(p, now)
  {
  }

  lemma WindowIsWidth(p: Parameters)
    requires Periodic(p.wave)
    ensures FlashWindow(p) == Width(p)
  {
  }

  lemma EventIsContribution(p: Parameters, jitter: Jitter, now: real, e: int)
    requires Periodic(p.wave) && Width(p) > 0.0
    ensures FlashWindow(p) > 0.0
    ensures EventShows(p, jitter, now, e) ==
              Contribution(Shape(p.wave), Width(p),
                Cycles(p, now) - p.offset + Width(p) - EventStart(jitter, p.Key(), e))
  {
    WindowIsWidth(p);
    ElapsedIsCycles(p, now);
    var local := Cycles(p, now) - p.offset + Width(p) - EventStart(jitter, p.Key(), e);
    if 0.0 <= local < Width(p) {
      ProfileIsShape(p.wave, local / Width(p));
    }
  }

  lemma RandomEnvelopeShows(p: Parameters, jitter: Jitter, now: real)
    requires InUnitInterval(jitter) && Random(p.wave) && p.frequency > 0.0 && Width(p) > 0.0 && p.phase >= 0.0
    requires Cycles(p, now) - p.offset + Width(p) < COUNTER_LIMIT
    ensures FlashWindow(p) > 0.0 && RandomShows(p, jitter, now, Envelope(p, jitter, now))
  {
    WindowIsWidth(p);
    RandomEnvelopeIsThePeak(p, jitter, now);
    var f := (e: int) => Contribution(Shape(p.wave), Width(p),
                           Cycles(p, now) - p.offset + Width(p) - EventStart(jitter, p.Key(), e));
    var r := Envelope(p, jitter, now);
    forall e: nat ensures EventShows(p, jitter, now, e) == f(e) && EventShows(p, jitter, now, e) <= r {
      EventIsContribution(p, jitter, now, e);
      assert From(Some(0), e);
    }
    if r != 0.0 {
      var e :| From(Some(0), e) && f(e) == r;
      EventIsContribution(p, jitter, now, e);
      var n: nat := e;
      assert EventShows(p, jitter, now, n) == r;
    }
  }

  lemma PeriodicEnvelopeShows(p: Parameters, jitter: Jitter, now: real)
    requires Periodic(p.wave) && !Random(p.wave) && p.frequency > 0.0 && Width(p) > 0.0
    ensures FlashWindow(p) > 0.0 && PeriodicShows(p, now, Envelope(p, jitter, now))
  {
    WindowIsWidth(p);
    ElapsedIsCycles(p, now);
    ShiftedFraction(Cycles(p, now), p.offset - Width(p));
    var local := Fraction(Cycles(p, now) - (p.offset - Width(p)));
    if local < Width(p) {
      ProfileIsShape(p.wave, local / Width(p));
    }
  }

  lemma EnvelopeShows(p: Parameters, jitter: Jitter, now: real)
    ensures Shows(p, jitter, now, Envelope(p, jitter, now))
  {
    if Periodic(p.wave) && p.frequency > 0.0 {
      WindowIsWidth(p);
      ElapsedIsCycles(p, now);
      if Width(p) > 0.0 {
        if !Random(p.wave) {
          PeriodicEnvelopeShows(p, jitter, now);
        } else if InUnitInterval(jitter) && p.phase >= 0.0 && Cycles(p, now) - p.offset + Width(p) < COUNTER_LIMIT {
          RandomEnvelopeShows(p, jitter, now);
        }
      }
    }
  }

  // ----- the reference definition: all events at once -----

  predicate From(first: Option<int>, e: int) {
    first.Some? ==> first.value <= e
  }

  /** `v` is the largest of 0 and all the contributions `f` gives to events from `first` on. */
  ghost predicate IsPeak(v: real, f: int -> real, first: Option<int>) {
    && v >= 0.0 && (forall e :: From(first, e) ==> f(e) <= v)
    && (v == 0.0 || exists e :: From(first, e) && f(e) == v)
  }

  lemma ShapeWithin(shape: Wave, x: real)
    requires 0.0 <= x < 1.0
    ensures 0.0 <= ShapeValue(shape, x) <= 1.0
  {
  }

  lemma DivideWithin(local: real, width: real)
    requires 0.0 <= local < width
    ensures 0.0 <= local / width < 1.0
  {
  }

  lemma ContributionWithin(shape: Wave, width: real, local: real)
    requires width > 0.0
    ensures 0.0 <= Contribution(shape, width, local) <= 1.0
  {
    if 0.0 <= local < width {
      DivideWithin(local, width);
      ShapeWithin(shape, local / width);
    }
  }

  /** Every envelope lies in [0, 1]. */
  lemma EnvelopeWithin(p: Parameters, jitter: Jitter, now: real)
    ensures 0.0 <= Envelope(p, jitter, now) <= 1.0
  {
    if p.wave != Closed && Periodic(p.wave) && p.frequency > 0.0 && Width(p) > 0.0 {
      var shape, width := Shape(p.wave), Width(p);
      if Random(p.wave) {
        var position := Cycles(p, now) - p.offset + width;
        forall e ensures 0.0 <= CandidateAt(shape, width, position, jitter, p.Key(), e) <= 1.0 {
          ContributionWithin(shape, width, position - EventStart(jitter, p.Key(), e));
        }
      } else {
        ContributionWithin(shape, width, Fraction(Fraction(Cycles(p, now)) - (p.offset - width)));
      }
    }
  }

  /** An event before the two candidates never shows more than they do. */
  lemma EarlierEventsAreCovered(shape: Wave, width: real, position: real, jitter: Jitter, key: JitterKey, e: int)
    requires InUnitInterval(jitter) && 0.0 < width && (width <= 1.0 || shape == Strobe)
    requires 0 <= e <= position.Floor - 2
    ensures Contribution(shape, width, position - EventStart(jitter, key, e)) <=
              Candidates(shape, width, position, jitter, key)
  {
    var index := position.Floor;
    var local := position - EventStart(jitter, key, e);
    assert 0.0 <= jitter(key, e) < 1.0 && 0.0 <= jitter(key, index - 1) < 1.0;
    assert local > 1.25;
    if local < width {
      var next := position - EventStart(jitter, key, index - 1);
      assert 0.0 <= next < local;
      assert Contribution(shape, width, next) == 1.0;
    }
  }

  lemma LaterEventsAreSilent(shape: Wave, width: real, position: real, jitter: Jitter, key: JitterKey, e: int)
    requires InUnitInterval(jitter) && 0.0 < width && e > position.Floor
    ensures Contribution(shape, width, position - EventStart(jitter, key, e)) == 0.0
  {
    assert 0.0 <= jitter(key, e) < 1.0;
  }

  /** Two candidates suffice: the result is the peak over every event from 0 on. */
  lemma TwoCandidatesSuffice(shape: Wave, width: real, position: real, jitter: Jitter, key: JitterKey)
    requires InUnitInterval(jitter) && 0.0 < width && (width <= 1.0 || shape == Strobe)
    ensures IsPeak(if position < 0.0 then 0.0 else Candidates(shape, width, position, jitter, key),
              e => Contribution(shape, width, position - EventStart(jitter, key, e)), Some(0))
  {
    var f := (e: int) => Contribution(shape, width, position - EventStart(jitter, key, e));
    var index := position.Floor;
    var v := if position < 0.0 then 0.0 else Candidates(shape, width, position, jitter, key);
    forall e: int | From(Some(0), e) ensures f(e) <= v {
      if e > index {
        LaterEventsAreSilent(shape, width, position, jitter, key, e);
      } else if e <= index - 2 {
        EarlierEventsAreCovered(shape, width, position, jitter, key, e);
      }
    }
    if v > 0.0 {
      assert v == CandidateAt(shape, width, position, jitter, key, index - 1) ||
             v == CandidateAt(shape, width, position, jitter, key, index);
      var e := if v == CandidateAt(shape, width, position, jitter, key, index) then index else index - 1;
      assert From(Some(0), e) && f(e) == v;
    }
  }

  /** A flash window of at least 1.75 cycles always has a flash in it once the first one is due. */
  lemma LongFlashesOverlap(width: real, position: real, jitter: Jitter, key: JitterKey)
    requires InUnitInterval(jitter) && width >= 1.75 && position >= 0.75
    ensures Candidates(Strobe, width, position, jitter, key) == 1.0
  {
    var index := position.Floor;
    var e := if index == 0 then 0 else index - 1;
    assert 0.0 <= jitter(key, e) < 1.0;
    assert 0.0 <= position - EventStart(jitter, key, e) < width;
    forall x ensures CandidateAt(Strobe, width, position, jitter, key, x) <= 1.0 {
      ContributionWithin(Strobe, width, position - EventStart(jitter, key, x));
    }
  }

  /**
    A random wave shows exactly the peak over all its events, although only two are ever examined
    and long flashes are not examined at all.
  */
  lemma RandomEnvelopeIsThePeak(p: Parameters, jitter: Jitter, now: real)
    requires InUnitInterval(jitter) && Random(p.wave) && p.frequency > 0.0 && Width(p) > 0.0
    requires p.phase >= 0.0
    requires Cycles(p, now) - p.offset + Width(p) < COUNTER_LIMIT
    ensures IsPeak(Envelope(p, jitter, now),
              e => Contribution(Shape(p.wave), Width(p),
                     Cycles(p, now) - p.offset + Width(p) - EventStart(jitter, p.Key(), e)),
              Some(0))
  {
    ElapsedIsNonNegative(now - p.reference, p.frequency);
    RandomPeakAt(Shape(p.wave), Width(p), p.offset, Cycles(p, now), jitter, p.Key());
  }

  /** The same for any number of elapsed cycles. */
  lemma RandomPeakAt(shape: Wave, width: real, offset: real, cycles: real, jitter: Jitter, key: JitterKey)
    requires InUnitInterval(jitter) && width > 0.0 && (width <= 1.0 || shape == Strobe) && cycles >= 0.0
    requires cycles - offset + width < COUNTER_LIMIT
    ensures IsPeak(RandomAt(shape, width, offset, cycles, jitter, key),
              e => Contribution(shape, width, cycles - offset + width - EventStart(jitter, key, e)), Some(0))
  {
    var position := cycles - offset + width;
    TwoCandidatesSuffice(shape, width, position, jitter, key);
    if shape == Strobe && width >= 1.75 && 0.0 <= offset <= 1.0 {
      LongFlashesOverlap(width, position, jitter, key);
    }
  }

  lemma ElapsedIsNonNegative(elapsed: real, frequency: real)
    requires frequency >= 0.0
    ensures MaxReal(elapsed, 0.0) * frequency >= 0.0
  {
  }

  /** A periodic wave shows exactly the peak over one flash per cycle, ending `offset` into it, for all cycles. */
  lemma PeriodicEnvelopeIsThePeak(p: Parameters, jitter: Jitter, now: real)
    requires Periodic(p.wave) && !Random(p.wave) && p.frequency > 0.0 && Width(p) > 0.0
    ensures IsPeak(Envelope(p, jitter, now),
              k => Contribution(p.wave, Width(p), Cycles(p, now) - (k as real + p.offset - Width(p))), None)
  {
    var width := Width(p);
    var f := (k: int) => Contribution(p.wave, width, Cycles(p, now) - (k as real + p.offset - width));
    var along := Cycles(p, now) - (p.offset - width);
    var v := Envelope(p, jitter, now);
    ShiftedFraction(Cycles(p, now), p.offset - width);
    assert f(along.Floor) == v;
    ContributionWithin(p.wave, width, Fraction(along));
    forall k | From(None, k) ensures f(k) <= v {
      if k != along.Floor {
        assert f(k) == 0.0;
      }
    }
    assert From(None, along.Floor);
  }

  lemma ShiftedFraction(x: real, shift: real)
    ensures Fraction(Fraction(x) - shift) == Fraction(x - shift)
  {
    var y := Fraction(x) - shift;
    assert y == x - shift - x.Floor as real;
    FloorShift(y, x.Floor);
  }

  lemma FloorShift(y: real, k: int)
    ensures (y + k as real).Floor == y.Floor + k
  {
  }

  /** Consecutive random events are between half and one and a half nominal cycles apart. */
  lemma RandomIntervalsAreBounded(jitter: Jitter, key: JitterKey, e: int)
    requires InUnitInterval(jitter)
    ensures 0.5 < EventStart(jitter, key, e + 1) - EventStart(jitter, key, e) < 1.5
  {
    assert 0.0 <= jitter(key, e) < 1.0 && 0.0 <= jitter(key, e + 1) < 1.0;
  }

  // ----- parameter updates -----

  predicate SameState(a: Parameters, b: Parameters) {
    && a.functionId == b.functionId && a.wave == b.wave && a.frequency == b.frequency && a.duration == b.duration
    && a.duty == b.duty && a.offset == b.offset && a.status == b.status
  }

  predicate Continues(held: Parameters, next: Parameters) {
    held.revision > 0 && held.functionId == next.functionId && held.wave == next.wave
  }

  function Updated(held: Parameters, next: Parameters, now: real): Parameters {
    if held.revision > 0 && SameState(held, next) then held else
      var accumulated := Cycles(held, now);
      next.(phase := if !Continues(held, next) then 0.0
              else if Random(next.wave) then accumulated else Fraction(accumulated),
            activation := if Continues(held, next) then held.activation else held.revision + 1,
            reference := now, revision := held.revision + 1)
  }

  /**
    What an edit does: a held shutter that agrees with the request in every field a controller sets stays as it is;
    otherwise the request is taken over with the next revision, and a function that keeps running in the same wave keeps
    its activation and its cycles, while any other starts afresh.
  */
  ghost predicate Edited(held: Parameters, next: Parameters, now: real, r: Parameters, changed: bool) {
    var keepsOn := held.revision > 0 && held.functionId == next.functionId && held.wave == next.wave;
    && (changed <==> !(&& keepsOn && held.frequency == next.frequency && held.duration == next.duration
                       && held.duty == next.duty && held.offset == next.offset && held.status == next.status))
    && (!changed ==> r == held)
    && (changed ==>
          && r == next.(phase := r.phase, activation := r.activation, reference := now, revision := held.revision + 1)
          && (!keepsOn ==> r.phase == 0.0 && r.activation == held.revision + 1)
          && (keepsOn ==> r.activation == held.activation)
          && (keepsOn && Random(next.wave) ==> r.phase == Elapsed(held, now))
          && (keepsOn && !Random(next.wave) ==> r.phase == Elapsed(held, now) - Elapsed(held, now).Floor as real))
  }

  lemma UpdatedIsEdited(held: Parameters, next: Parameters, now: real)
    ensures Edited(held, next, now, Updated(held, next, now), !(held.revision > 0 && SameState(held, next)))
  {
    ElapsedIsCycles(held, now);
  }

  class HeldShutter {
    var held: Parameters

    constructor (initial: Parameters)
      ensures held == initial
    {
      held := initial;
    }

    method Update(next: Parameters, now: real) returns (changed: bool)
      modifies this
      ensures held == Updated(old(held), next, now)
      ensures Edited(old(held), next, now, held, changed)
    {
      UpdatedIsEdited(held, next, now);
      if held.revision > 0 && SameState(held, next) {
        return false;
      }
      var continuing := held.revision > 0 && held.functionId == next.functionId && held.wave == next.wave;
      var accumulated := held.phase + MaxReal(now - held.reference, 0.0) * held.frequency;
      assert accumulated == Cycles(held, now);
      var phase := if continuing then (if Random(next.wave) then accumulated else Fraction(accumulated)) else 0.0;
      var activation := if continuing then held.activation else held.revision + 1;
      held := next.(phase := phase, activation := activation, reference := now, revision := held.revision + 1);
      return true;
    }
  }

  datatype Edit = Edit(next: Parameters, now: real)

  function Run(held: Parameters, edits: seq<Edit>): Parameters
    decreases edits
  {
    if edits == [] then held else Run(Updated(held, edits[0].next, edits[0].now), edits[1..])
  }

  /** Edits of one function and wave at non-decreasing times between `start` and `end`. */
  predicate Continuous(held: Parameters, edits: seq<Edit>, start: real, end: real)
    decreases edits
  {
    if edits == [] then start <= end else
      && edits[0].next.functionId == held.functionId && edits[0].next.wave == held.wave
      && start <= edits[0].now && Continuous(held, edits[1..], edits[0].now, end)
  }

  /** The integral of the frequency in force from `start` to `end`. */
  function Integral(frequency: real, edits: seq<Edit>, start: real, end: real): real
    decreases edits
  {
    if edits == [] then frequency * (end - start) else
      frequency * (edits[0].now - start) + Integral(edits[0].next.frequency, edits[1..], edits[0].now, end)
  }

  lemma CyclesAdvance(held: Parameters, start: real, end: real)
    requires held.reference <= start <= end
    ensures Cycles(held, end) == Cycles(held, start) + held.frequency * (end - start)
  {
    assert (end - held.reference) * held.frequency ==
        (start - held.reference) * held.frequency + held.frequency * (end - start);
  }

  lemma ContinuousFor(held: Parameters, other: Parameters, edits: seq<Edit>, start: real, end: real)
    requires held.functionId == other.functionId && held.wave == other.wave
    ensures Continuous(held, edits, start, end) == Continuous(other, edits, start, end)
    decreases edits
  {
  }

  /**
    Phase is the integral of frequency over any run of edits of one running function and wave: exactly for random
    waves, up to whole cycles otherwise. The activation identity never changes on the way.
  */
  lemma {:induction false} PhaseIsTheIntegral(held: Parameters, edits: seq<Edit>, start: real, end: real)
    returns (wholeCycles: int)
    requires held.revision > 0 && held.reference <= start && Continuous(held, edits, start, end)
    ensures var r := Run(held, edits);
            && Cycles(r, end) + wholeCycles as real ==
                 Cycles(held, start) + Integral(held.frequency, edits, start, end)
            && (Random(held.wave) ==> wholeCycles == 0)
            && r.activation == held.activation && r.wave == held.wave && r.functionId == held.functionId
            && r.revision > 0 && r.reference <= end
    decreases edits
  {
    if edits == [] {
      CyclesAdvance(held, start, end);
      wholeCycles := 0;
    } else {
      var next := Updated(held, edits[0].next, edits[0].now);
      var here := FirstEdit(held, edits, start, end);
      var rest := PhaseIsTheIntegral(next, edits[1..], edits[0].now, end);
      wholeCycles := here + rest;
      PhaseStep(held, next, Run(next, edits[1..]), edits, start, end, here, rest);
    }
  }

  lemma PhaseStep(held: Parameters, next: Parameters, r: Parameters, edits: seq<Edit>, start: real, end: real,
                  here: int, rest: int)
    requires edits != [] && next.frequency == edits[0].next.frequency
    requires Cycles(next, edits[0].now) + here as real ==
               Cycles(held, start) + held.frequency * (edits[0].now - start)
    requires Cycles(r, end) + rest as real ==
               Cycles(next, edits[0].now) + Integral(next.frequency, edits[1..], edits[0].now, end)
    ensures Cycles(r, end) + (here + rest) as real == Cycles(held, start) + Integral(held.frequency, edits, start, end)
  {
  }

  lemma FirstEdit(held: Parameters, edits: seq<Edit>, start: real, end: real) returns (wholeCycles: int)
    requires held.revision > 0 && held.reference <= start && edits != [] && Continuous(held, edits, start, end)
    ensures var now := edits[0].now;
            var next := Updated(held, edits[0].next, now);
            && Cycles(next, now) + wholeCycles as real == Cycles(held, start) + held.frequency * (now - start)
            && (Random(held.wave) ==> wholeCycles == 0)
            && next.activation == held.activation && next.wave == held.wave && next.functionId == held.functionId
            && next.frequency == edits[0].next.frequency && next.revision > 0 && next.reference <= now
            && Continuous(next, edits[1..], now, end)
  {
    var now := edits[0].now;
    CyclesAdvance(held, start, now);
    ContinuousFor(held, Updated(held, edits[0].next, now), edits[1..], now, end);
    wholeCycles := EditKeepsCycles(held, edits[0].next, now);
  }

  lemma EditKeepsCycles(held: Parameters, next: Parameters, now: real) returns (wholeCycles: int)
    requires Continues(held, next) && held.reference <= now
    ensures var r := Updated(held, next, now);
            && Cycles(r, now) + wholeCycles as real == Cycles(held, now)
            && (Random(held.wave) ==> wholeCycles == 0)
            && r.activation == held.activation && r.wave == held.wave && r.functionId == held.functionId
            && r.frequency == next.frequency && r.revision > 0 && r.reference <= now
  {
    var r := Updated(held, next, now);
    if SameState(held, next) || Random(held.wave) {
      wholeCycles := 0;
    } else {
      wholeCycles := Cycles(held, now).Floor;
      assert r.phase == Fraction(Cycles(held, now)) && r.reference == now;
    }
  }

  /** With non-negative frequencies the phase never becomes negative, as the long-flash shortcut relies on. */
  lemma PhaseStaysNonNegative(held: Parameters, next: Parameters, now: real)
    requires held.phase >= 0.0 && held.frequency >= 0.0
    ensures Updated(held, next, now).phase >= 0.0
  {
    ElapsedIsNonNegative(now - held.reference, held.frequency);
  }

  /**
    An edit of a running wave that keeps its width, duty and offset (as a frequency-only edit of a pulse or ramp does)
    leaves the envelope unchanged at the instant of the edit.
  */
  lemma FrequencyEditIsSeamless(held: Parameters, next: Parameters, jitter: Jitter, now: real)
    requires Continues(held, next) && held.frequency > 0.0 && next.frequency > 0.0
    requires next.offset == held.offset && next.seed == held.seed && Width(next) == Width(held)
    ensures Envelope(Updated(held, next, now), jitter, now) == Envelope(held, jitter, now)
  {
    var r := Updated(held, next, now);
    if r != held && Periodic(held.wave) {
      assert Cycles(r, now) == (if Random(held.wave) then Cycles(held, now) else Fraction(Cycles(held, now)));
      assert r.Key() == held.Key();
      assert Width(r) == Width(held);
      FractionTwice(Cycles(held, now));
    }
  }

  lemma FractionTwice(x: real)
    ensures Fraction(Fraction(x)) == Fraction(x)
  {
  }

  /** In particular a frequency-only edit of a pulse or ramp is invisible when it happens. */
  lemma PulseFrequencyEditIsSeamless(held: Parameters, frequency: real, jitter: Jitter, now: real)
    requires held.revision > 0 && held.frequency > 0.0 && frequency > 0.0
    requires Periodic(held.wave) && Shape(held.wave) != Strobe
    ensures Envelope(Updated(held, held.(frequency := frequency), now), jitter, now) == Envelope(held, jitter, now)
  {
    FrequencyEditIsSeamless(held, held.(frequency := frequency), jitter, now);
  }
}
