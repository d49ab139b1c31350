/**
 Lab10/simple_rcu as a step machine: readers take the pointer once and dereference it twice; one writer at a
 time (the spin lock) publishes a new cell, waits for a grace period and frees the old one.
 */
module RcuCell {

  type Addr = nat

  /** A read: the pointer it took, the value it printed first, and the number of writes at its start. `version`
      is the number of writes when it took the pointer. */
  datatype Reader =
    | Outside
    | Entered(since: nat)
    | Holding(ptr: Addr, since: nat, version: nat)
    | Printed(ptr: Addr, first: int, since: nat, version: nat)
    | Done(first: int, second: int, since: nat, version: nat, until: nat)

  datatype Writer =
    | Unlocked
    | Filled(cell: Addr)
    | Assigned(prior: Addr)
    | Syncing(prior: Addr, waitFor: set<nat>)

  /** `log` is the value at load time followed by the values written, in the order of the pointer assignments. */
  datatype State = State(heap: map<Addr, int>, ptr: Addr, log: seq<int>, readers: seq<Reader>, writer: Writer)

  datatype Event = Enter(r: nat) | Read(r: nat) | Lock(arg: int, room: Addr) | Write

  function Start(readers: nat): State {
    State(map[0 := 0], 0, [0], seq(readers, i => Outside), Unlocked)
  }

  predicate IsInside(me: Reader) { me.Entered? || me.Holding? || me.Printed? }

  function Inside(readers: seq<Reader>): set<nat> {
    set r | 0 <= r < |readers| && IsInside(readers[r])
  }

  function Deref(s: State, a: Addr): int {
    if a in s.heap then s.heap[a] else 0
  }

  /** The number of writes so far. */
  function Latest(s: State): nat {
    if s.log == [] then 0 else |s.log| - 1
  }

  function ReadStep(s: State, r: nat): State
    requires r < |s.readers|
  {
    match s.readers[r]
    case Outside => s
    case Entered(since) => s.(readers := s.readers[r := Holding(s.ptr, since, Latest(s))])
    case Holding(p, since, v) => s.(readers := s.readers[r := Printed(p, Deref(s, p), since, v)])
    case Printed(p, first, since, v) =>
      var writer := if s.writer.Syncing? then s.writer.(waitFor := s.writer.waitFor - {r}) else s.writer;
      s.(readers := s.readers[r := Done(first, Deref(s, p), since, v, Latest(s))], writer := writer)
    case Done(_, _, _, _, _) => s
  }

  function Step(s: State, e: Event): State {
    match e
    case Enter(r) =>
      if r < |s.readers| && !IsInside(s.readers[r]) then s.(readers := s.readers[r := Entered(Latest(s))]) else s
    case Read(r) => if r < |s.readers| then ReadStep(s, r) else s
    case Lock(arg, room) =>
      if s.writer.Unlocked? && room !in s.heap then s.(heap := s.heap[room := arg], writer := Filled(room)) else s
    case Write =>
      match s.writer
      case Unlocked => s
      case Filled(cell) => s.(ptr := cell, log := s.log + [Deref(s, cell)], writer := Assigned(s.ptr))
      case Assigned(prior) => s.(writer := Syncing(prior, Inside(s.readers)))
      case Syncing(prior, waitFor) =>
        if waitFor == {} then s.(heap := s.heap - {prior}, writer := Unlocked) else s
  }

  function Run(s: State, events: seq<Event>): State {
    if events == [] then s else Step(Run(s, events[..|events| - 1]), events[|events| - 1])
  }

  /** Cell a is allocated and holds the value of the given version: it is the current cell or the one before. */
  ghost predicate HoldsVersion(s: State, a: Addr, v: nat) {
    && a in s.heap && v < |s.log| && s.heap[a] == s.log[v]
    && (if a == s.ptr then v == |s.log| - 1
        else (s.writer.Assigned? || s.writer.Syncing?) && a == s.writer.prior && v == |s.log| - 2)
  }

  ghost predicate WriterSound(s: State) {
    match s.writer
    case Unlocked => s.heap.Keys == {s.ptr}
    case Filled(cell) => s.heap.Keys == {s.ptr, cell} && cell != s.ptr
    case Assigned(prior) => s.heap.Keys == {s.ptr, prior} && prior != s.ptr && |s.log| >= 2 && s.heap[prior] == s.log[|s.log| - 2]
    case Syncing(prior, waitFor) =>
      && s.heap.Keys == {s.ptr, prior} && prior != s.ptr && |s.log| >= 2 && s.heap[prior] == s.log[|s.log| - 2]
      && (forall r :: 0 <= r < |s.readers| && (s.readers[r].Holding? || s.readers[r].Printed?) && s.readers[r].ptr == prior
            ==> r in waitFor)
      && forall r :: r in waitFor ==> r < |s.readers| && IsInside(s.readers[r])
  }

  ghost predicate ReaderSound(s: State, me: Reader) {
    match me
    case Outside => true
    case Entered(since) => since < |s.log|
    case Holding(p, since, v) => since <= v && HoldsVersion(s, p, v)
    case Printed(p, first, since, v) => since <= v && HoldsVersion(s, p, v) && first == s.log[v]
    case Done(first, second, since, v, until) => since <= v <= until < |s.log| && first == second == s.log[v]
  }

  ghost predicate Inv(s: State) {
    && s.log != [] && s.ptr in s.heap && s.heap[s.ptr] == s.log[|s.log| - 1] && WriterSound(s)
    && forall r :: 0 <= r < |s.readers| ==> ReaderSound(s, s.readers[r])
  }

  lemma ReaderKept(s: State, e: Event, r: nat)
    requires Inv(s) && r < |s.readers|
    ensures ReaderSound(Step(s, e), Step(s, e).readers[r])
  {
    assert ReaderSound(s, s.readers[r]);
  }

  lemma StepInv(s: State, e: Event)
    requires Inv(s)
    ensures Inv(Step(s, e))
  {
    var s' := Step(s, e);
    forall r: nat | r < |s.readers| ensures ReaderSound(s', s'.readers[r]) {
      ReaderKept(s, e, r);
    }
    assert WriterSound(s');
  }

  lemma {:induction false} RunInv(s: State, events: seq<Event>)
    requires Inv(s)
    ensures Inv(Run(s, events)) && |Run(s, events).readers| == |s.readers|
  {
    if events != [] {
      RunInv(s, events[..|events| - 1]);
      StepInv(Run(s, events[..|events| - 1]), events[|events| - 1]);
    }
  }

  /** While a read is inside its critical section its pointer stays dereferenceable, and once printed the value
      behind it does not change. */
  lemma HeldCellIsLive(n: nat, events: seq<Event>, r: nat)
    requires r < n
    ensures var s := Run(Start(n), events);
            && |s.readers| == n
            && (s.readers[r].Holding? || s.readers[r].Printed? ==> s.readers[r].ptr in s.heap)
            && (s.readers[r].Printed? ==> s.heap[s.readers[r].ptr] == s.readers[r].first)
  {
    RunInv(Start(n), events);
    assert ReaderSound(Run(Start(n), events), Run(Start(n), events).readers[r]);
  }

  /** Reader r stays inside its read in every state of the run. */
  ghost predicate StaysInside(s: State, events: seq<Event>, r: nat) {
    forall j :: 0 <= j <= |events| ==> InsideAt(s, events, r, j)
  }

  ghost predicate InsideAt(s: State, events: seq<Event>, r: nat, j: nat)
    requires j <= |events|
  {
    r < |Run(s, events[..j]).readers| && IsInside(Run(s, events[..j]).readers[r])
  }

  /** How many of the events are steps of reader r. */
  function OwnSteps(r: nat, events: seq<Event>): nat {
    if events == [] then 0
    else OwnSteps(r, events[..|events| - 1]) + if events[|events| - 1] == Read(r) then 1 else 0
  }

  function Progress(me: Reader): nat {
    match me case Holding(_, _, _) => 1 case Printed(_, _, _, _) => 2 case _ => 0
  }

  lemma InsidePrefix(s: State, events: seq<Event>, r: nat)
    requires events != []
    ensures StaysInside(s, events, r) <==> StaysInside(s, events[..|events| - 1], r) && InsideAt(s, events, r, |events|)
  {
    var before := events[..|events| - 1];
    assert forall j :: 0 <= j <= |before| ==> events[..j] == before[..j];
    assert forall j :: 0 <= j <= |before| ==> (InsideAt(s, events, r, j) <==> InsideAt(s, before, r, j));
  }

  lemma {:induction false} ReadProgress(s: State, events: seq<Event>, r: nat)
    requires StaysInside(s, events, r) && r < |s.readers| && s.readers[r].Entered?
    ensures var t := Run(s, events);
            r < |t.readers| && IsInside(t.readers[r]) && Progress(t.readers[r]) == OwnSteps(r, events)
  {
    assert events[..|events|] == events;
    assert InsideAt(s, events, r, |events|);
    if events != [] {
      InsidePrefix(s, events, r);
      ReadProgress(s, events[..|events| - 1], r);
    }
  }

  /** A step of the writer leaves every reader where it is, and a step of a reader leaves the other readers, the memory
      and the published values alone; of the writer it changes nothing but whom a grace period waits for. */
  lemma StepsAreLocal(s: State, e: Event, r: nat)
    requires r < |s.readers|
    ensures var t := Step(s, e);
            && |t.readers| == |s.readers|
            && (e != Read(r) && (e != Enter(r) || IsInside(s.readers[r])) ==> t.readers[r] == s.readers[r])
            && (e.Enter? || e.Read? ==>
                  && t.heap == s.heap && t.ptr == s.ptr && t.log == s.log
                  && (t.writer == s.writer || (s.writer.Syncing? && t.writer == Syncing(s.writer.prior, t.writer.waitFor))))
  {
  }

  /** However the writer interferes, a read is over with its third own step, and not before. */
  lemma ReadEnds(n: nat, before: seq<Event>, r: nat, during: seq<Event>)
    requires var s := Run(Start(n), before); r < |s.readers| && !IsInside(s.readers[r])
    requires StaysInside(Step(Run(Start(n), before), Enter(r)), during, r)
    ensures OwnSteps(r, during) <= 2
    ensures var t := Step(Run(Step(Run(Start(n), before), Enter(r)), during), Read(r));
            r < |t.readers| && if OwnSteps(r, during) == 2 then t.readers[r].Done? else IsInside(t.readers[r])
  {
    ReadProgress(Step(Run(Start(n), before), Enter(r)), during, r);
  }

  lemma {:induction false} SameStart(s: State, events: seq<Event>, r: nat)
    requires StaysInside(s, events, r) && r < |s.readers| && s.readers[r].Entered?
    ensures var t := Run(s, events);
            r < |t.readers| && IsInside(t.readers[r]) && t.readers[r].since == s.readers[r].since
  {
    assert events[..|events|] == events;
    assert InsideAt(s, events, r, |events|);
    if events != [] {
      InsidePrefix(s, events, r);
      SameStart(s, events[..|events| - 1], r);
    }
  }

  /** Every version between two states was the published one in between. */
  lemma {:induction false} EveryVersionWasPublished(s: State, events: seq<Event>, v: nat) returns (j: nat)
    requires Inv(s) && Latest(s) <= v <= Latest(Run(s, events))
    ensures j <= |events| && Latest(Run(s, events[..j])) == v
    ensures Run(s, events[..j]).log <= Run(s, events).log
  {
    assert events[..|events|] == events;
    if Latest(Run(s, events)) == v {
      j := |events|;
    } else {
      var before := events[..|events| - 1];
      RunInv(s, before);
      j := EveryVersionWasPublished(s, before, v);
      assert before[..j] == events[..j];
      assert Run(s, before).log <= Run(s, events).log;
    }
  }

  /** Both dereferences of a read give the same value, and at some instant between the start and the end of the
      read that value was the published one. */
  lemma ReadIsLinearizable(n: nat, before: seq<Event>, r: nat, during: seq<Event>) returns (j: nat)
    requires var s := Run(Start(n), before); r < |s.readers| && !IsInside(s.readers[r])
    requires var s := Step(Run(Start(n), before), Enter(r));
             StaysInside(s, during, r) && r < |Step(Run(s, during), Read(r)).readers| && Step(Run(s, during), Read(r)).readers[r].Done?
    ensures j <= |during|
    ensures var s := Step(Run(Start(n), before), Enter(r));
            var outcome, t := Step(Run(s, during), Read(r)).readers[r], Run(s, during[..j]);
            outcome.first == outcome.second && t.ptr in t.heap && t.heap[t.ptr] == outcome.first
  {
    RunInv(Start(n), before);
    var s0 := Run(Start(n), before);
    var s := Step(s0, Enter(r));
    StepInv(s0, Enter(r));
    SameStart(s, during, r);
    RunInv(s, during);
    var t := Run(s, during);
    StepInv(t, Read(r));
    assert ReaderSound(t, t.readers[r]);
    j := EveryVersionWasPublished(s, during, t.readers[r].version);
    RunInv(s, during[..j]);
  }

  /** At most two cells are ever allocated, one of them the published one, and it alone when no writer is active. */
  lemma LiveCells(n: nat, events: seq<Event>)
    ensures var s := Run(Start(n), events);
            && 1 <= |s.heap| <= 2 && s.log != [] && s.ptr in s.heap && s.heap[s.ptr] == s.log[|s.log| - 1]
            && (s.writer.Unlocked? ==> s.heap.Keys == {s.ptr})
  {
    RunInv(Start(n), events);
    var s := Run(Start(n), events);
    var other := match s.writer case Filled(c) => c case Assigned(c) => c case Syncing(c, _) => c case Unlocked => s.ptr;
    assert s.heap.Keys == {s.ptr, other};
    assert |s.heap| == |s.heap.Keys|;
  }

  /** No other writer has the lock: it is held in every state of the run. */
  ghost predicate StaysLocked(s: State, events: seq<Event>) {
    forall j :: 0 <= j <= |events| ==> LockedAt(s, events, j)
  }

  ghost predicate LockedAt(s: State, events: seq<Event>, j: nat)
    requires j <= |events|
  {
    !Run(s, events[..j]).writer.Unlocked?
  }

  /** While a write is under way, its cell holds its argument before the assignment, and after it the argument is
      the one value appended. */
  ghost predicate WritesOnly(log: seq<int>, ptr: Addr, arg: int, room: Addr, s: State) {
    if s.writer.Filled? then s.writer.cell == room && room in s.heap && s.heap[room] == arg && s.log == log && s.ptr == ptr
    else s.log == log + [arg] && s.ptr == room
  }

  lemma {:induction false} WriteUnderWay(s: State, arg: int, room: Addr, during: seq<Event>)
    requires s.writer.Unlocked? && room !in s.heap && StaysLocked(Step(s, Lock(arg, room)), during)
    ensures WritesOnly(s.log, s.ptr, arg, room, Run(Step(s, Lock(arg, room)), during))
  {
    var locked := Step(s, Lock(arg, room));
    if during != [] {
      var before := during[..|during| - 1];
      LockedPrefix(locked, during);
      WriteUnderWay(s, arg, room, before);
      assert before[..|before|] == before && LockedAt(locked, before, |before|);
    }
  }

  /** A write, from taking the lock to giving it back and whatever readers do meanwhile, appends exactly its argument
      to the published values, and only its cell is left. */
  lemma WriteAppendsItsArgument(n: nat, before: seq<Event>, arg: int, room: Addr, during: seq<Event>, e: Event)
    requires var s := Run(Start(n), before); s.writer.Unlocked? && room !in s.heap
    requires var s := Step(Run(Start(n), before), Lock(arg, room));
             StaysLocked(s, during) && Step(Run(s, during), e).writer.Unlocked?
    ensures var s := Run(Start(n), before);
            var t := Step(Run(Step(s, Lock(arg, room)), during), e);
            t.log == s.log + [arg] && t.ptr == room && t.heap == map[room := arg]
  {
    var s := Run(Start(n), before);
    var locked := Step(s, Lock(arg, room));
    RunInv(Start(n), before);
    StepInv(s, Lock(arg, room));
    RunInv(locked, during);
    WriteUnderWay(s, arg, room, during);
    assert during[..|during|] == during;
    assert LockedAt(locked, during, |during|);
    StepInv(Run(locked, during), e);
    var t := Step(Run(locked, during), e);
    assert t.heap.Keys == {room} && t.heap[room] == arg;
  }

  lemma LockedPrefix(s: State, events: seq<Event>)
    requires StaysLocked(s, events) && events != []
    ensures StaysLocked(s, events[..|events| - 1]) && !Run(s, events).writer.Unlocked?
  {
    var before := events[..|events| - 1];
    forall j | 0 <= j <= |before| ensures LockedAt(s, before, j) {
      assert LockedAt(s, events, j) && events[..j] == before[..j];
    }
    assert LockedAt(s, events, |events|) && events[..|events|] == events;
  }

  /** How many of the events are steps of the writer. */
  function Writes(events: seq<Event>): nat {
    if events == [] then 0 else Writes(events[..|events| - 1]) + if events[|events| - 1].Write? then 1 else 0
  }

  /** However readers interfere, the first own step of a write publishes its argument, the second begins its grace
      period, and until it ends nothing else is published. */
  lemma {:induction false} WriteAdvances(s: State, arg: int, room: Addr, during: seq<Event>)
    requires s.writer.Unlocked? && room !in s.heap && StaysLocked(Step(s, Lock(arg, room)), during)
    ensures var t := Run(Step(s, Lock(arg, room)), during);
            && (t.writer.Syncing? <==> Writes(during) >= 2)
            && t.log == (if Writes(during) == 0 then s.log else s.log + [arg])
            && t.ptr == (if Writes(during) == 0 then s.ptr else room)
  {
    var locked := Step(s, Lock(arg, room));
    WriteUnderWay(s, arg, room, during);
    if during != [] {
      var before := during[..|during| - 1];
      LockedPrefix(locked, during);
      WriteUnderWay(s, arg, room, before);
      WriteAdvances(s, arg, room, before);
      assert before[..|before|] == before && LockedAt(locked, before, |before|);
    }
  }

  lemma GraceStep(s: State, e: Event, r: nat)
    requires Inv(s) && s.writer.Syncing? && !Step(s, e).writer.Unlocked?
    ensures var t := Step(s, e);
            && t.writer.Syncing? && t.writer.prior == s.writer.prior
            && (r in t.writer.waitFor <==> r in s.writer.waitFor && r < |t.readers| && IsInside(t.readers[r]))
  {
  }

  /** While a grace period lasts, it waits for the readers that have been inside since it began. */
  lemma {:induction false} GraceWaits(s: State, during: seq<Event>, r: nat)
    requires Inv(s) && s.writer.Syncing? && s.writer.waitFor == Inside(s.readers) && StaysLocked(s, during)
    ensures var t := Run(s, during);
            t.writer.Syncing? && t.writer.prior == s.writer.prior && (r in t.writer.waitFor <==> StaysInside(s, during, r))
  {
    hide Inv, Step;
    assert during[..|during|] == during;
    if during == [] {
      assert InsideAt(s, during, r, 0) <==> r in Inside(s.readers);
    } else {
      var before := during[..|during| - 1];
      LockedPrefix(s, during);
      GraceWaits(s, before, r);
      RunInv(s, before);
      GraceStep(Run(s, before), during[|during| - 1], r);
      InsidePrefix(s, during, r);
    }
  }

  /** A grace period ends, and frees the old cell, exactly when no reader has been inside ever since it began: readers
      that came later are not waited for. */
  lemma GracePeriodExactly(n: nat, before: seq<Event>, during: seq<Event>)
    requires Run(Start(n), before).writer.Assigned?
    requires StaysLocked(Step(Run(Start(n), before), Event.Write), during)
    ensures var s := Run(Start(n), before);
            var began := Step(s, Event.Write);
            var t := Step(Run(began, during), Event.Write);
            && (t.writer.Unlocked? <==> forall i: nat :: i < n ==> !StaysInside(began, during, i))
            && (if t.writer.Unlocked? then s.writer.prior !in t.heap else s.writer.prior in t.heap)
  {
    var s := Run(Start(n), before);
    var began := Step(s, Event.Write);
    RunInv(Start(n), before);
    StepInv(s, Event.Write);
    GraceWaits(began, during, 0);
    forall i: nat ensures i in Run(began, during).writer.waitFor <==> StaysInside(began, during, i) {
      GraceWaits(began, during, i);
    }
    RunInv(began, during);
    var t := Run(began, during);
    assert t.writer.waitFor == {} <==> forall i: nat :: i < n ==> i !in t.writer.waitFor;
  }

  // The two commands with nobody else running, on a cell that they change in place.

  lemma RunSnoc(s: State, events: seq<Event>, e: Event)
    ensures Run(s, events + [e]) == Step(Run(s, events), e)
  {
    assert (events + [e])[..|events|] == events;
  }

  lemma RunFour(s: State, a: Event, b: Event, c: Event, d: Event)
    ensures Run(s, [a, b, c, d]) == Step(Step(Step(Step(s, a), b), c), d)
  {
    assert Run(s, []) == s;
    RunSnoc(s, [], a);
    RunSnoc(s, [a], b);
    RunSnoc(s, [a, b], c);
    RunSnoc(s, [a, b, c], d);
    assert [] + [a] == [a] && [a] + [b] == [a, b] && [a, b] + [c] == [a, b, c] && [a, b, c] + [d] == [a, b, c, d];
  }

  class Device {
    var heap: map<Addr, int>
    var ptr: Addr
    ghost var log: seq<int>

    /** The step machine in this memory, with some readers and no writer. */
    ghost function With(readers: seq<Reader>): State
      reads this
    {
      State(heap, ptr, log, readers, Unlocked)
    }

    ghost predicate Valid()
      reads this
    {
      Inv(With([]))
    }

    constructor ()
      ensures Valid() && With([]) == Start(0)
    {
      heap, ptr, log := map[0 := 0], 0, [0];
    }

    /** IOCTL_READ: both values printed are the one last written, as a run of a reader that nobody interrupts. */
    method ReadData() returns (first: int, second: int)
      requires Valid()
      ensures first == second == log[|log| - 1]
      ensures var v := |log| - 1;
              Run(With([Outside]), [Enter(0), Read(0), Read(0), Read(0)]) == With([Done(first, second, v, v, v)])
    {
      var taken := ptr;
      first := heap[taken];
      second := heap[taken];
      RunFour(With([Outside]), Enter(0), Read(0), Read(0), Read(0));
    }

    /** IOCTL_WRITE: the new cell is published and the old one freed, as a run of the writer's four steps. */
    method WriteData(arg: int, room: Addr)
      requires Valid() && room !in heap
      modifies this
      ensures Valid() && ptr == room && heap == map[room := arg] && log == old(log) + [arg]
      ensures With([]) == Run(old(With([])), [Lock(arg, room), Event.Write, Event.Write, Event.Write])
    {
      RunFour(With([]), Lock(arg, room), Event.Write, Event.Write, Event.Write);
      heap := heap[room := arg];
      var prior := ptr;
      ptr, log := room, log + [arg];
      heap := heap - {prior};
    }
  }
}
