/**
 The ultrasonic echo machine of Challenge2: a timer function that sends a trigger and an interrupt handler that
 times the echo share one flag. The timer function is split into steps between which an interrupt can come, and
 the handler into reading the clock and acting on the flag, between which another processor can run the timer.
 */
module Echo {
  import opened CInt

  /** Where the timer function stands: outside, after taking the flag, after the trigger pulse. */
  datatype Timer = Outside | Taken | Pulsed

  /** The clock reading of a handler that has not acted yet. */
  datatype Stamp = Unstamped | Stamped(at: int)

  /** The pulse a distance was computed from, and the end of the trigger it answers. */
  datatype Echo = NoEcho | Echo(trigger: int, rise: int, fall: int)

  /** `flag`, `start`, `stop` and `distance` are the driver's; `triggers` and `measurements` count, `triggered` is
      when the last trigger ended. */
  datatype State = State(flag: int, start: int, stop: int, distance: int, timer: Timer, stamp: Stamp,
                         triggers: nat, measurements: nat, triggered: int, echo: Echo)

  /** Times are in nanoseconds; `level` is the echo pin when the handler looks at it. The handler is not entered again
      before it is left. */
  datatype Event = TimerStep(at: int) | Clock(at: int) | Handle(at: int, level: bool) | SensorStart(at: int)

  const INITIAL := State(3, 0, 0, 0, Outside, Unstamped, 0, 0, 0, NoEcho)

  /** ktime_to_us, the cast to int and the division by 58. */
  function Centimetres(ns: int): int {
    TruncDiv(ToInt(TruncDiv(ns, 1000)), 58)
  }

  function TimerStepOf(s: State, at: int): State {
    match s.timer
    case Outside => if s.flag == 3 then s.(start := 1, stop := 1, flag := 0, timer := Taken) else s
    case Taken => s.(timer := Pulsed, triggers := s.triggers + 1, triggered := at)
    case Pulsed => s.(flag := 1, timer := Outside)
  }

  /** What the handler does with its clock reading. */
  function EdgeOf(s: State, at: int, level: bool): State {
    if s.flag == 1 then (if level then s.(start := at, flag := 2) else s)
    else if s.flag == 2 && !level then
      s.(stop := at, distance := Centimetres(at - s.start), flag := 3, measurements := s.measurements + 1,
         echo := Echo(s.triggered, s.start, at))
    else s
  }

  function Step(s: State, e: Event): State {
    match e
    case TimerStep(at) => TimerStepOf(s, at)
    case Clock(at) => if s.stamp.Unstamped? then s.(stamp := Stamped(at)) else s
    case Handle(_, level) => if s.stamp.Stamped? then EdgeOf(s, s.stamp.at, level).(stamp := Unstamped) else s
    case SensorStart(at) => s.(distance := 0, echo := NoEcho)
  }

  function Run(events: seq<Event>): State {
    if events == [] then INITIAL else Step(Run(events[..|events| - 1]), events[|events| - 1])
  }

  // Over every run.

  /** A trigger is outstanding exactly between its pulse and its measurement, and the flag says which. */
  ghost predicate Paired(s: State) {
    && (s.timer.Taken? || s.timer.Pulsed? <==> s.flag == 0) && 0 <= s.flag <= 3
    && s.triggers == s.measurements + if s.flag == 3 || s.timer.Taken? then 0 else 1
  }

  /** Triggers minus measurements is 0 or 1, and outside the timer function it is 0 exactly when the flag is 3. */
  lemma {:induction false} TriggersAnswered(events: seq<Event>)
    ensures var s := Run(events);
            && 0 <= s.triggers - s.measurements <= 1
            && (s.timer.Outside? ==> (s.triggers == s.measurements <==> s.flag == 3))
            && Paired(s)
  {
    if events != [] {
      TriggersAnswered(events[..|events| - 1]);
    }
  }

  ghost predicate Monotone(events: seq<Event>) {
    forall i, j :: 0 <= i < j < |events| ==> events[i].at <= events[j].at
  }

  /** The i-th event is the end of a trigger pulse. */
  ghost predicate Triggers(events: seq<Event>, i: nat) {
    i < |events| && events[i].TimerStep? && Run(events[..i]).timer.Taken?
  }

  /** Event i is the last trigger before event n. */
  ghost predicate LastTrigger(events: seq<Event>, i: nat, n: nat) {
    Triggers(events, i) && i < n && forall q :: i < q < n ==> !Triggers(events, q)
  }

  /** The trigger outstanding after these events was sent at event i. */
  ghost predicate Awaits(events: seq<Event>, i: nat) {
    LastTrigger(events, i, |events|) && events[i].at == Run(events).triggered
  }

  /** The handler that is active after these events read the clock at event j. */
  ghost predicate Reading(events: seq<Event>, j: nat) {
    && j < |events| && events[j].Clock? && Run(events[..j]).stamp.Unstamped?
    && Run(events).stamp == Stamped(events[j].at) && forall q :: j < q < |events| ==> !events[q].Handle?
  }

  /** Event h is the handler acting on its clock reading j, with the pin at a level and the flag at a value. */
  ghost predicate Acts(events: seq<Event>, j: nat, h: nat, flag: int, level: bool) {
    && h < |events| && events[h].Handle? && events[h].level == level
    && Reading(events[..h], j) && Run(events[..h]).flag == flag
  }

  /** The rise being timed was read at event j and accepted at event h, after trigger i. */
  ghost predicate Timing(events: seq<Event>, i: nat, j: nat, h: nat) {
    Awaits(events, i) && i < h && Acts(events, j, h, 1, true) && Run(events).start == events[j].at
  }

  /** The clock readings and actions behind a distance. */
  datatype Trace = Trace(trigger: nat, riseRead: nat, rise: nat, fallRead: nat, fall: nat)

  /** The distance comes from a rise and a fall that were accepted in this order after the last trigger before them. */
  ghost predicate Measured(events: seq<Event>, t: Trace) {
    && t.trigger < t.rise < t.fallRead < t.fall < |events| && LastTrigger(events, t.trigger, t.fall)
    && Acts(events, t.riseRead, t.rise, 1, true) && Acts(events, t.fallRead, t.fall, 2, false)
    && t.riseRead < t.rise
    && Run(events).echo == Echo(events[t.trigger].at, events[t.riseRead].at, events[t.fallRead].at)
    && Run(events).distance == Centimetres(events[t.fallRead].at - events[t.riseRead].at)
  }

  ghost predicate Explained(events: seq<Event>) {
    var s := Run(events);
    && (s.timer.Pulsed? || s.flag == 1 ==> exists i: nat :: Awaits(events, i))
    && (s.stamp.Stamped? ==> exists j: nat :: Reading(events, j))
    && (s.flag == 2 ==> exists i: nat, j: nat, h: nat :: Timing(events, i, j, h))
    && (s.echo.NoEcho? ==> s.distance == 0)
    && (s.echo.Echo? ==> exists t: Trace :: Measured(events, t))
  }

  lemma TriggersLater(events: seq<Event>, e: Event, i: nat, n: nat)
    requires LastTrigger(events, i, n) && n <= |events|
    ensures LastTrigger(events + [e], i, n)
  {
    forall q | 0 <= q < n ensures Triggers(events + [e], q) <==> Triggers(events, q) {
      assert (events + [e])[..q] == events[..q];
    }
  }

  /** A trigger that is outstanding stays the last one while no new pulse is sent. */
  lemma StillLast(events: seq<Event>, e: Event, i: nat)
    requires LastTrigger(events, i, |events|) && !(e.TimerStep? && Run(events).timer.Taken?)
    ensures LastTrigger(events + [e], i, |events| + 1)
  {
    TriggersLater(events, e, i, |events|);
    assert (events + [e])[..|events|] == events;
    assert !Triggers(events + [e], |events|);
  }

  lemma RunSnoc(events: seq<Event>, e: Event)
    ensures Run(events + [e]) == Step(Run(events), e)
  {
    assert (events + [e])[..|events|] == events;
  }

  lemma ActsLater(events: seq<Event>, e: Event, j: nat, h: nat, flag: int, level: bool)
    requires Acts(events, j, h, flag, level)
    ensures Acts(events + [e], j, h, flag, level)
  {
    assert (events + [e])[..h] == events[..h];
  }

  lemma AwaitsStep(events: seq<Event>, e: Event) returns (i: nat)
    requires Explained(events) && Paired(Run(events))
    requires var t := Step(Run(events), e); t.timer.Pulsed? || t.flag == 1
    ensures Awaits(events + [e], i)
  {
    var s := Run(events);
    RunSnoc(events, e);
    if s.timer.Taken? && e.TimerStep? {
      i := |events|;
      assert (events + [e])[..|events|] == events;
    } else {
      i :| Awaits(events, i);
      StillLast(events, e, i);
    }
  }

  lemma ReadingStep(events: seq<Event>, e: Event) returns (j: nat)
    requires Explained(events) && Step(Run(events), e).stamp.Stamped?
    ensures Reading(events + [e], j)
  {
    RunSnoc(events, e);
    hide Run;
    if Run(events).stamp.Unstamped? {
      j := |events|;
      assert (events + [e])[..|events|] == events;
    } else {
      j :| Reading(events, j);
      assert (events + [e])[..j] == events[..j];
    }
  }

  lemma TimingStep(events: seq<Event>, e: Event) returns (i: nat, j: nat, h: nat)
    requires Explained(events) && Paired(Run(events)) && Step(Run(events), e).flag == 2
    ensures Timing(events + [e], i, j, h)
  {
    RunSnoc(events, e);
    if Run(events).flag == 1 {
      i :| Awaits(events, i);
      j :| Reading(events, j);
      h := |events|;
      assert (events + [e])[..h] == events;
    } else {
      i, j, h :| Timing(events, i, j, h);
      ActsLater(events, e, j, h, 1, true);
    }
    StillLast(events, e, i);
  }

  /** The handler acts on a fall that was awaited. */
  predicate Completes(s: State, e: Event) {
    s.flag == 2 && s.stamp.Stamped? && e.Handle? && !e.level
  }

  lemma ActsNow(events: seq<Event>, e: Event, k: nat)
    requires Reading(events, k) && e.Handle?
    ensures Acts(events + [e], k, |events|, Run(events).flag, e.level)
  {
    assert (events + [e])[..|events|] == events;
  }

  /** A handler reads the clock after the handler before it has acted. */
  lemma ReadAfterActing(events: seq<Event>, j: nat, h: nat, k: nat)
    requires Acts(events, j, h, 1, true) && Reading(events, k)
    ensures j < h < k
  {
  }

  lemma CompletesStep(s: State, e: Event)
    requires Completes(s, e)
    ensures Step(s, e).echo == Echo(s.triggered, s.start, s.stamp.at)
    ensures Step(s, e).distance == Centimetres(s.stamp.at - s.start)
  {
  }

  lemma MeasuredBy(events: seq<Event>, e: Event, i: nat, j: nat, h: nat, k: nat)
    requires Timing(events, i, j, h) && Reading(events, k) && Completes(Run(events), e)
    ensures Measured(events + [e], Trace(i, j, h, k, |events|))
  {
    hide Run, Step, Acts, LastTrigger;
    ReadAfterActing(events, j, h, k);
    ActsNow(events, e, k);
    TriggersLater(events, e, i, |events|);
    ActsLater(events, e, j, h, 1, true);
    RunSnoc(events, e);
    CompletesStep(Run(events), e);
  }

  /** A measurement just made. */
  lemma MeasuredNow(events: seq<Event>, e: Event) returns (t: Trace)
    requires Explained(events) && Completes(Run(events), e)
    ensures Measured(events + [e], t) && t.riseRead < |events| && t.fallRead < |events| && t.fall == |events|
    ensures (events + [e])[t.riseRead].at == Run(events).start
    ensures Run(events).stamp == Stamped((events + [e])[t.fallRead].at)
  {
    hide Run;
    var i, j, h :| Timing(events, i, j, h);
    var k: nat :| Reading(events, k);
    MeasuredBy(events, e, i, j, h, k);
    t := Trace(i, j, h, k, |events|);
    hide Measured, Timing;
  }

  /** A measurement made before. */
  lemma MeasuredBefore(events: seq<Event>, e: Event, t: Trace)
    requires Measured(events, t)
    requires Run(events + [e]).echo == Run(events).echo && Run(events + [e]).distance == Run(events).distance
    ensures Measured(events + [e], t)
  {
    TriggersLater(events, e, t.trigger, t.fall);
    ActsLater(events, e, t.riseRead, t.rise, 1, true);
    ActsLater(events, e, t.fallRead, t.fall, 2, false);
  }

  lemma OtherwiseKept(s: State, e: Event)
    requires !Completes(s, e) && Step(s, e).echo.Echo?
    ensures Step(s, e).echo == s.echo && Step(s, e).distance == s.distance
  {
  }

  lemma MeasuredStep(events: seq<Event>, e: Event) returns (t: Trace)
    requires Explained(events) && Step(Run(events), e).echo.Echo?
    ensures Measured(events + [e], t)
  {
    if Completes(Run(events), e) {
      t := MeasuredNow(events, e);
    } else {
      RunSnoc(events, e);
      OtherwiseKept(Run(events), e);
      hide Run, Step;
      t :| Measured(events, t);
      MeasuredBefore(events, e, t);
    }
  }

  lemma ExplainedStep(events: seq<Event>, e: Event)
    requires Explained(events) && Paired(Run(events))
    ensures Explained(events + [e])
  {
    RunSnoc(events, e);
    var t := Step(Run(events), e);
    if t.timer.Pulsed? || t.flag == 1 { var i := AwaitsStep(events, e); }
    if t.stamp.Stamped? { var j := ReadingStep(events, e); }
    if t.flag == 2 { var i, j, h := TimingStep(events, e); }
    if t.echo.Echo? { var trace := MeasuredStep(events, e); }
  }

  lemma {:induction false} ExplainedAlways(events: seq<Event>)
    ensures Explained(events)
  {
    if events != [] {
      var before := events[..|events| - 1];
      assert events == before + [events[|events| - 1]];
      ExplainedAlways(before);
      TriggersAnswered(before);
      ExplainedStep(before, events[|events| - 1]);
    }
  }

  /** A centimetre is 58 microseconds. */
  lemma CentimetreIs(ns: nat)
    requires ns < 1000 * 0x8000_0000
    ensures 58000 * Centimetres(ns) <= ns < 58000 * (Centimetres(ns) + 1)
  {
  }

  /** On a monotone clock a distance is 0, or the time between the clock readings for a rise and for a later fall, both
      accepted after the last trigger before them, in units of 58 microseconds, for pulses whose microseconds fit an int. */
  lemma DistanceIsMeasured(events: seq<Event>) returns (t: Trace)
    requires Monotone(events) && Run(events).distance != 0
    ensures t.trigger < t.rise < t.fallRead < t.fall < |events| && LastTrigger(events, t.trigger, t.fall)
    ensures Acts(events, t.riseRead, t.rise, 1, true) && Acts(events, t.fallRead, t.fall, 2, false)
    ensures t.riseRead < t.rise && events[t.trigger].at <= events[t.rise].at <= events[t.fallRead].at
    ensures var ns := events[t.fallRead].at - events[t.riseRead].at;
            ns < 1000 * 0x8000_0000 ==> 58000 * Run(events).distance <= ns < 58000 * (Run(events).distance + 1)
  {
    ExplainedAlways(events);
    t :| Measured(events, t);
    assert t.riseRead < t.fallRead < |events|;
    var ns := events[t.fallRead].at - events[t.riseRead].at;
    if ns < 1000 * 0x8000_0000 { CentimetreIs(ns); }
    hide Run, Acts, LastTrigger, Centimetres;
  }

  // Whether the rise itself comes after the trigger.

  /** No timer step comes between a handler's clock reading and its action, as when one processor runs both. */
  ghost predicate Serial(events: seq<Event>) {
    forall n :: 0 <= n < |events| ==> SerialAt(events, n)
  }

  ghost predicate SerialAt(events: seq<Event>, n: nat)
    requires n < |events|
  {
    events[n].TimerStep? ==> Run(events[..n]).stamp.Unstamped?
  }

  ghost predicate InTime(s: State, now: int) {
    && s.triggered <= now && (s.stamp.Stamped? ==> s.triggered <= s.stamp.at)
    && (s.flag == 2 ==> s.triggered <= s.start) && (s.echo.Echo? ==> s.echo.trigger <= s.echo.rise)
  }

  /** Clock readings start at 0. */
  ghost predicate Clocked(events: seq<Event>) {
    Monotone(events) && forall i :: 0 <= i < |events| ==> events[i].at >= 0
  }

  lemma {:induction false} SerialInTime(events: seq<Event>)
    requires Clocked(events) && Serial(events)
    ensures InTime(Run(events), if events == [] then 0 else events[|events| - 1].at)
  {
    if events != [] {
      var before, e := events[..|events| - 1], events[|events| - 1];
      forall n | 0 <= n < |before| ensures SerialAt(before, n) {
        assert SerialAt(events, n) && before[..n] == events[..n];
      }
      SerialInTime(before);
      TriggersAnswered(before);
      assert SerialAt(events, |before|);
      assert before != [] ==> before[|before| - 1].at <= e.at;
    }
  }

  /** In every run, serial or not, the rise of a measurement was read no earlier than its trigger ended. */
  ghost predicate RiseFollowsTrigger(overlap: bool) {
    forall events :: Clocked(events) && (overlap || Serial(events)) && Run(events).echo.Echo?
      ==> Run(events).echo.trigger <= Run(events).echo.rise
  }

  /** A handler that reads the clock before the pulse ends and acts after it, on another processor, times a rise that
      its trigger did not cause. */
  lemma OverlapTimesEarlyRise() returns (events: seq<Event>)
    ensures Clocked(events) && Run(events).echo == Echo(2, 1, 58001) && Run(events).distance == 1
  {
    var a, b, c, d, e := TimerStep(0), Clock(1), TimerStep(2), TimerStep(3), Handle(4, true);
    assert Run([]) == INITIAL;
    RunSnoc([], a);
    RunSnoc([a], b);
    RunSnoc([a, b], c);
    RunSnoc([a, b, c], d);
    RunSnoc([a, b, c, d], e);
    assert [] + [a] == [a] && [a] + [b] == [a, b] && [a, b] + [c] == [a, b, c] && [a, b, c] + [d] == [a, b, c, d];
    var rise := [a, b, c, d] + [e];
    assert Run(rise) == State(2, 1, 1, 0, Outside, Unstamped, 1, 0, 2, NoEcho);
    RunSnoc(rise, Clock(58001));
    RunSnoc(rise + [Clock(58001)], Handle(58002, false));
    events := rise + [Clock(58001)] + [Handle(58002, false)];
    assert Centimetres(58000) == 1;
  }

  /** The rise comes after the trigger exactly when no handler overlaps a step of the timer function. */
  lemma RiseFollowsTriggerExactly(overlap: bool)
    ensures RiseFollowsTrigger(overlap) <==> !overlap
  {
    if overlap {
      var events := OverlapTimesEarlyRise();
      assert Run(events).echo.Echo?;
    } else {
      forall events | Clocked(events) && Serial(events) && Run(events).echo.Echo?
        ensures Run(events).echo.trigger <= Run(events).echo.rise
      {
        SerialInTime(events);
      }
    }
  }

  // The driver.

  /** While the timer function runs, a handler that acts changes nothing else, so the function is as good as atomic. */
  lemma EdgesIgnored(events: seq<Event>, e: Event)
    requires !Run(events).timer.Outside? && e.Handle?
    ensures Run(events + [e]) == Run(events).(stamp := Unstamped)
  {
    TriggersAnswered(events);
    RunSnoc(events, e);
  }

  /** Triggers not yet answered by a measurement. */
  function Outstanding(events: seq<Event>): int {
    Run(events).triggers - Run(events).measurements
  }

  lemma TimerRun(events: seq<Event>, a: Event, b: Event, c: Event)
    requires Run(events).timer.Outside? && Run(events).flag == 3 && a.TimerStep? && b.TimerStep? && c.TimerStep?
    ensures var all := events + [a, b, c]; var s := Run(events);
            && Run(all) == s.(start := 1, stop := 1, flag := 1, triggers := s.triggers + 1, triggered := b.at)
            && LastTrigger(all, |events| + 1, |all|)
  {
    var one, two, all := events + [a], events + [a] + [b], events + [a] + [b] + [c];
    RunSnoc(events, a);
    RunSnoc(one, b);
    RunSnoc(two, c);
    assert events + [a, b, c] == all;
    assert all[..|events| + 1] == one && all[..|events| + 2] == two;
  }

  lemma StartRun(events: seq<Event>, at: int)
    ensures Run(events + [SensorStart(at)]) == Run(events).(distance := 0, echo := NoEcho)
    ensures Outstanding(events + [SensorStart(at)]) == Outstanding(events)
  {
    RunSnoc(events, SensorStart(at));
  }

  /** A handler that nothing interrupts. */
  lemma EdgeRun(events: seq<Event>, at: int, acted: int, level: bool) returns (t: Trace)
    requires Run(events).timer.Outside? && Run(events).stamp.Unstamped?
    ensures var all := events + [Clock(at), Handle(acted, level)];
            && Run(all) == EdgeOf(Run(events), at, level) && Outstanding(all) == (if Run(all).flag == 3 then 0 else 1)
            && (Run(events).flag == 2 && !level ==>
                  && Measured(all, t) && t.fall == |all| - 1 && t.riseRead < |all| && t.fallRead < |all|
                  && all[t.riseRead].at == Run(events).start && all[t.fallRead].at == at)
  {
    hide Explained, Measured;
    t := Trace(0, 0, 0, 0, 0);
    var one, all := events + [Clock(at)], events + [Clock(at)] + [Handle(acted, level)];
    assert events + [Clock(at), Handle(acted, level)] == all;
    RunSnoc(events, Clock(at));
    RunSnoc(one, Handle(acted, level));
    TriggersAnswered(all);
    if Run(events).flag == 2 && !level {
      ExplainedAlways(one);
      t := MeasuredNow(one, Handle(acted, level));
    }
  }

  /** The driver's variables, changed in place by the timer function and the interrupt handler; `events` is what has
      happened to them. */
  class Driver {
    var flag: int
    var start: int
    var stop: int
    var distance: int
    ghost var events: seq<Event>

    /** The variables are what the events have made of them, and neither function is running. */
    ghost predicate Valid()
      reads this
    {
      var s := Run(events);
      s.timer.Outside? && s.stamp.Unstamped? && flag == s.flag && start == s.start && stop == s.stop && distance == s.distance
    }

    constructor ()
      ensures Valid() && events == []
    {
      flag, start, stop, distance, events := 3, 0, 0, 0, [];
    }

    /** sensor_timer_func: an idle machine sends a trigger and waits for its echo. */
    method SensorTimerFunc(taken: int, pulsed: int, armed: int)
      requires Valid()
      modifies this
      ensures Valid() && distance == old(distance)
      ensures Outstanding(events) == if flag == 3 then 0 else 1
      ensures old(flag) == 3 ==>
                && events == old(events) + [TimerStep(taken), TimerStep(pulsed), TimerStep(armed)]
                && flag == 1 && start == stop == 1 && LastTrigger(events, |events| - 2, |events|)
      ensures old(flag) != 3 ==> events == old(events) + [TimerStep(taken)] && flag == old(flag) && start == old(start)
    {
      if flag == 3 {
        TimerRun(events, TimerStep(taken), TimerStep(pulsed), TimerStep(armed));
        start := 1;
        stop := 1;
        flag := 0;
        flag := 1;
        events := events + [TimerStep(taken), TimerStep(pulsed), TimerStep(armed)];
      } else {
        RunSnoc(events, TimerStep(taken));
        events := events + [TimerStep(taken)];
      }
      TriggersAnswered(events);
    }

    /** ultra_isr: a rise after a trigger starts the timing, the fall after it gives the distance. A measurement is
        that of the trace. */
    method UltraIsr(at: int, acted: int, level: bool) returns (ghost t: Trace)
      requires Valid()
      modifies this
      ensures Valid() && events == old(events) + [Clock(at), Handle(acted, level)]
      ensures Outstanding(events) == if flag == 3 then 0 else 1
      ensures if old(flag) == 1 && level then
                flag == 2 && start == at && distance == old(distance)
              else if old(flag) == 2 && !level then
                && flag == 3 && start == old(start) && distance == Centimetres(at - start)
                && (0 <= at - start < 1000 * 0x8000_0000 ==> 58000 * distance <= at - start < 58000 * (distance + 1))
                && Measured(events, t) && t.fall == |events| - 1
                && events[t.riseRead].at == start && events[t.fallRead].at == at
              else
                flag == old(flag) && start == old(start) && distance == old(distance)
    {
      hide Measured, Run, Centimetres;
      t := EdgeRun(events, at, acted, level);
      if 0 <= at - start < 1000 * 0x8000_0000 { CentimetreIs(at - start); }
      events := events + [Clock(at), Handle(acted, level)];
      if flag == 1 {
        if level {
          start := at;
          flag := 2;
        }
      } else if flag == 2 {
        if !level {
          stop := at;
          distance := Centimetres(stop - start);
          flag := 3;
        }
      }
    }

    /** The distance is reset when the sensor is started; the machine goes on. */
    method SensorStart(at: int)
      requires Valid()
      modifies this`distance, this`events
      ensures Valid() && events == old(events) + [Event.SensorStart(at)] && distance == 0
      ensures Outstanding(events) == Outstanding(old(events))
    {
      StartRun(events, at);
      events := events + [Event.SensorStart(at)];
      distance := 0;
    }
  }
}
