/**
 The counter of Lab5/block2 as a step machine: the test of the wait and the decrement that follows it are
 separate steps, and producers update the counter before they wake anybody.
 */
module WaitCounter {
  import opened Tally

  /** Where a call stands. Testing and Asleep are on the wait queue; `woken` is set by a wake-up. A signal takes a
      sleeper off the queue, and it tests once more before it gives up. */
  datatype Pc =
    | Idle
    | Testing(exclusive: bool, woken: bool)
    | Asleep(exclusive: bool, woken: bool)
    | Signalled
    | Decrement
    | Produce(arg: int, all: bool)
    | Wake(all: bool)

  /** The commands, and what the environment decides: a signal, or which exclusive waiter a wake-up reaches. */
  datatype Choice =
    | Wait(exclusive: bool)
    | WakeUp(arg: int, all: bool)
    | Undefined
    | Signal
    | Go(pick: nat)

  datatype Move = Move(p: nat, choice: Choice)

  datatype State = State(data: int, procs: seq<Pc>)

  function Start(n: nat): State {
    State(0, seq(n, i => Idle))
  }

  predicate Sleeper(pc: Pc, exclusive: bool) {
    (pc.Testing? || pc.Asleep?) && pc.exclusive == exclusive && !pc.woken
  }

  function Rouse(pc: Pc): Pc {
    match pc
    case Testing(x, _) => Testing(x, true)
    case Asleep(x, _) => Asleep(x, true)
    case _ => pc
  }

  /** The exclusive sleeper a plain wake-up reaches: the environment's pick, or else the first there is. */
  function Reached(procs: seq<Pc>, pick: nat): nat {
    if pick < |procs| && Sleeper(procs[pick], true) then pick else FirstExclusive(procs)
  }

  function FirstExclusive(procs: seq<Pc>): (i: nat)
    ensures i <= |procs| && (i < |procs| ==> Sleeper(procs[i], true))
    ensures forall j :: 0 <= j < i ==> !Sleeper(procs[j], true)
  {
    if procs == [] then 0
    else if Sleeper(procs[0], true) then 0
    else
      var rest := FirstExclusive(procs[1..]);
      assert forall j :: 0 < j < 1 + rest ==> procs[j] == procs[1..][j - 1];
      1 + rest
  }

  /** A wake-up reaches every ordinary waiter, and either all exclusive ones or one of them. */
  function RouseAll(procs: seq<Pc>, all: bool, pick: nat): seq<Pc> {
    var one := Reached(procs, pick);
    seq(|procs|, i requires 0 <= i < |procs| =>
      if all || i == one || Sleeper(procs[i], false) then Rouse(procs[i]) else procs[i])
  }

  function Pick(c: Choice): nat {
    if c.Go? then c.pick else 0
  }

  /** The next place of a process that is not producing or waking. */
  function Next(pc: Pc, data: int, c: Choice): Pc {
    match pc
    case Idle =>
      (match c
       case Wait(x) => Testing(x, false)
       case WakeUp(arg, all) => Produce(arg, all)
       case Undefined => Decrement
       case _ => Idle)
    case Testing(x, woken) => if data > 0 then Decrement else Asleep(x, woken)
    case Asleep(x, woken) => if c == Signal then Signalled else if woken then Testing(x, false) else pc
    case Signalled => if data > 0 then Decrement else Idle
    case Decrement => Idle
    case Produce(_, all) => Wake(all)
    case Wake(_) => Idle
  }

  function Step(s: State, mv: Move): State {
    if mv.p >= |s.procs| then s
    else
      var pc := s.procs[mv.p];
      var procs := s.procs[mv.p := Next(pc, s.data, mv.choice)];
      match pc
      case Decrement => State(s.data - 1, procs)
      case Produce(arg, _) => State(s.data + arg, procs)
      case Wake(all) => s.(procs := RouseAll(procs, all, Pick(mv.choice)))
      case _ => s.(procs := procs)
  }

  function Run(s: State, moves: seq<Move>): (r: State)
    ensures |r.procs| == |s.procs|
    decreases |moves|
  {
    if moves == [] then s else Run(Step(s, moves[0]), moves[1..])
  }

  lemma {:induction false} RunConcat(s: State, a: seq<Move>, b: seq<Move>)
    ensures Run(s, a + b) == Run(Run(s, a), b)
    decreases |a|
  {
    if a == [] {
      assert a + b == b;
    } else {
      assert (a + b)[1..] == a[1..] + b;
      RunConcat(Step(s, a[0]), a[1..], b);
    }
  }

  // Conservation.

  function Added(pc: Pc, data: int, c: Choice): int { if pc == Idle && c.WakeUp? then c.arg else 0 }

  function Entered(pc: Pc, data: int, c: Choice): int { if pc == Idle && (c.Wait? || c.Undefined?) then 1 else 0 }

  function Left(pc: Pc, data: int, c: Choice): int { if pc.Signalled? && data <= 0 then 1 else 0 }

  /** What the moves of a run contribute, each taken with the place its process stands at and the counter: arguments of producer
      calls, consumer calls begun, waits ended by a signal. */
  function Tallied(w: (Pc, int, Choice) -> int, s: State, moves: seq<Move>): int
    decreases |moves|
  {
    if moves == [] then 0
    else (if moves[0].p < |s.procs| then w(s.procs[moves[0].p], s.data, moves[0].choice) else 0)
         + Tallied(w, Step(s, moves[0]), moves[1..])
  }

  /** The argument of a producer call that has not updated the counter yet. */
  function Owed(pc: Pc): int { if pc.Produce? then pc.arg else 0 }

  function Consuming(pc: Pc): int { if pc.Testing? || pc.Asleep? || pc.Signalled? || pc.Decrement? then 1 else 0 }

  function Balance(s: State): int { s.data + Sum(Owed, s.procs) - Sum(Consuming, s.procs) }

  lemma MovedSum(w: Pc -> int, s: State, mv: Move)
    requires mv.p < |s.procs| && forall pc :: w(Rouse(pc)) == w(pc)
    ensures Sum(w, Step(s, mv).procs) == Sum(w, s.procs) - w(s.procs[mv.p]) + w(Next(s.procs[mv.p], s.data, mv.choice))
  {
    var procs := s.procs[mv.p := Next(s.procs[mv.p], s.data, mv.choice)];
    SumUpdate(w, s.procs, mv.p, Next(s.procs[mv.p], s.data, mv.choice));
    SumSame(w, Step(s, mv).procs, procs);
  }

  lemma BalanceStep(s: State, mv: Move)
    requires mv.p < |s.procs|
    ensures var pc := s.procs[mv.p];
            Balance(Step(s, mv))
            == Balance(s) + Added(pc, s.data, mv.choice) - Entered(pc, s.data, mv.choice) + Left(pc, s.data, mv.choice)
  {
    MovedSum(Owed, s, mv);
    MovedSum(Consuming, s, mv);
  }

  lemma {:induction false} BalanceRun(s: State, moves: seq<Move>)
    ensures Balance(Run(s, moves))
            == Balance(s) + Tallied(Added, s, moves) - Tallied(Entered, s, moves) + Tallied(Left, s, moves)
    decreases |moves|
  {
    if moves != [] {
      if moves[0].p < |s.procs| { BalanceStep(s, moves[0]); }
      BalanceRun(Step(s, moves[0]), moves[1..]);
    }
  }

  /** In every run, whatever the commands and arguments, my_data is the sum of the producer calls' arguments, without
      those not yet added, minus the consumer calls that are through: begun, not ended by a signal, and not under way. */
  lemma Conserved(n: nat, moves: seq<Move>)
    ensures var s, t := Start(n), Run(Start(n), moves);
            t.data == (Tallied(Added, s, moves) - Sum(Owed, t.procs))
                      - (Tallied(Entered, s, moves) - Tallied(Left, s, moves) - Sum(Consuming, t.procs))
  {
    SumZero(Owed, Start(n).procs);
    SumZero(Consuming, Start(n).procs);
    BalanceRun(Start(n), moves);
  }

  // The lower bound.

  function Passed(pc: Pc): int { if pc.Decrement? then 1 else 0 }

  ghost predicate AtMost(limit: nat, s: State, moves: seq<Move>)
    decreases |moves|
  {
    Sum(Consuming, s.procs) <= limit && (moves != [] ==> AtMost(limit, Step(s, moves[0]), moves[1..]))
  }

  /** Which commands a run may use besides waits and producers with non-negative arguments. */
  ghost predicate Uses(moves: seq<Move>, undefined: bool, negative: bool, one: bool) {
    forall i :: 0 <= i < |moves| ==> Allowed(moves[i].choice, undefined, negative, one)
  }

  predicate Allowed(c: Choice, undefined: bool, negative: bool, one: bool) {
    (c.Undefined? ==> undefined) && (c.WakeUp? ==> (c.arg < 0 ==> negative) && (!c.all ==> one))
  }

  predicate ProducesNonNegative(pc: Pc) { pc.Produce? ==> pc.arg >= 0 }

  /** Every consumer that passed the test still has a share in the bound until it decrements. */
  ghost predicate Bounded(limit: nat, s: State) {
    s.data - Sum(Passed, s.procs) >= 1 - limit && forall p :: 0 <= p < |s.procs| ==> ProducesNonNegative(s.procs[p])
  }

  lemma BoundedStep(limit: nat, s: State, mv: Move)
    requires Bounded(limit, s) && Allowed(mv.choice, false, false, true)
    requires Sum(Consuming, Step(s, mv).procs) <= limit
    ensures Bounded(limit, Step(s, mv))
  {
    if mv.p < |s.procs| {
      var procs := Step(s, mv).procs;
      MovedSum(Passed, s, mv);
      SumLeq(Passed, procs, Consuming, procs);
      assert ProducesNonNegative(s.procs[mv.p]);
    }
  }

  lemma {:induction false} BoundedRun(limit: nat, s: State, moves: seq<Move>)
    requires Bounded(limit, s) && AtMost(limit, s, moves) && Uses(moves, false, false, true)
    ensures Bounded(limit, Run(s, moves))
    decreases |moves|
  {
    if moves != [] {
      assert Allowed(moves[0].choice, false, false, true);
      BoundedStep(limit, s, moves[0]);
      forall i | 0 <= i < |moves[1..]| ensures Allowed(moves[1..][i].choice, false, false, true) {
        assert moves[1..][i] == moves[i + 1];
      }
      BoundedRun(limit, Step(s, moves[0]), moves[1..]);
    }
  }

  /** With the four commands, non-negative arguments and at most N >= 1 consumers in flight, my_data never
      falls below 1 - N. */
  lemma LowerBound(limit: nat, n: nat, moves: seq<Move>)
    requires limit >= 1 && AtMost(limit, Start(n), moves) && Uses(moves, false, false, true)
    ensures Run(Start(n), moves).data >= 1 - limit
  {
    SumZero(Passed, Start(n).procs);
    BoundedRun(limit, Start(n), moves);
    var procs := Run(Start(n), moves).procs;
    SumZero((pc: Pc) => 0, procs);
    SumLeq((pc: Pc) => 0, procs, Passed, procs);
  }

  // The bound is reached, and needs its conditions.

  /** Consumers only: with the counter at 1, every one of them passes the test before any decrements. */
  lemma {:induction false} PassAll(s: State, k: nat) returns (moves: seq<Move>)
    requires k <= |s.procs| && s.data > 0 && forall p :: 0 <= p < k ==> s.procs[p] == Idle
    ensures Uses(moves, false, false, false)
    ensures Run(s, moves) == s.(procs := seq(|s.procs|, i requires 0 <= i < |s.procs| => if i < k then Decrement else s.procs[i]))
  {
    if k == 0 {
      moves := [];
      assert Run(s, moves).procs == s.procs;
    } else {
      var before := PassAll(s, k - 1);
      var t := Run(s, before);
      var more := [Move(k - 1, Wait(false)), Move(k - 1, Go(0))];
      moves := before + more;
      RunConcat(s, before, more);
      TwoMoves(t, more[0], more[1]);
      assert Run(t, more).procs == t.procs[k - 1 := Decrement];
    }
  }

  lemma TwoMoves(s: State, a: Move, b: Move)
    ensures Run(s, [a, b]) == Step(Step(s, a), b)
  {
    assert [a, b][1..] == [b];
    assert Run(Step(s, a), [b]) == Run(Step(Step(s, a), b), []);
  }

  lemma {:induction false} DecrementAll(s: State, k: nat) returns (moves: seq<Move>)
    requires k <= |s.procs| && forall p :: 0 <= p < k ==> s.procs[p] == Decrement
    ensures Uses(moves, false, false, false) && Run(s, moves).data == s.data - k
    decreases k
  {
    if k == 0 {
      moves := [];
    } else {
      var mv := Move(k - 1, Go(0));
      var rest := DecrementAll(Step(s, mv), k - 1);
      moves := [mv] + rest;
      assert moves[1..] == rest;
    }
  }

  lemma {:induction false} FewConsumers(limit: nat, s: State, moves: seq<Move>)
    requires |s.procs| <= limit
    ensures AtMost(limit, s, moves)
    decreases |moves|
  {
    SumAtMost(Consuming, 1, s.procs);
    if moves != [] {
      FewConsumers(limit, Step(s, moves[0]), moves[1..]);
    }
  }

  /** The bound is sharp: N consumers can bring my_data to 1 - N. */
  lemma LowerBoundIsReached(limit: nat) returns (moves: seq<Move>)
    requires limit >= 1
    ensures AtMost(limit, Start(limit), moves) && Uses(moves, false, false, true)
    ensures Run(Start(limit), moves).data == 1 - limit
  {
    var s := Start(limit);
    var a, b, c := Move(0, WakeUp(1, true)), Move(0, Go(0)), Move(0, Go(0));
    var s1 := Step(s, a);
    var s2 := Step(s1, b);
    var s3 := Step(s2, c);
    assert s3.procs == s.procs && s3.data == 1;
    var pass := PassAll(s3, limit);
    var down := DecrementAll(Run(s3, pass), limit);
    moves := [a] + ([b, c] + (pass + down));
    RunConcat(s3, pass, down);
    RunConcat(s1, [b, c], pass + down);
    TwoMoves(s1, b, c);
    assert moves[1..] == [b, c] + (pass + down);
    FewConsumers(limit, s, moves);
  }

  /** my_data stays at 1 - N or above in every run of the commands named. */
  ghost predicate BoundHolds(undefined: bool, negative: bool) {
    forall limit: nat, n: nat, moves :: limit >= 1 && AtMost(limit, Start(n), moves) && Uses(moves, undefined, negative, true)
      ==> Run(Start(n), moves).data >= 1 - limit
  }

  /** The bound holds exactly when neither a negative argument nor an undefined command, which falls through to
      the decrement, is used. */
  lemma BoundHoldsExactly(undefined: bool, negative: bool)
    ensures BoundHolds(undefined, negative) <==> !undefined && !negative
  {
    if !undefined && !negative {
      forall limit: nat, n: nat, moves | limit >= 1 && AtMost(limit, Start(n), moves) && Uses(moves, undefined, negative, true)
        ensures Run(Start(n), moves).data >= 1 - limit
      {
        LowerBound(limit, n, moves);
      }
    } else {
      var a := Move(0, if undefined then Undefined else WakeUp(-1, true));
      var moves := [a, Move(0, Go(0))];
      TwoMoves(Start(1), a, moves[1]);
      FewConsumers(1, Start(1), moves);
      assert Uses(moves, undefined, negative, true);
      assert Step(Step(Start(1), a), moves[1]).data == -1;
    }
  }

  // Wake-ups.

  /** A wait called by an idle process takes a unit when there is one, and else sleeps as the kind of waiter it is. */
  lemma WaitGoes(s: State, p: nat, exclusive: bool, a: nat, b: nat)
    requires p < |s.procs| && s.procs[p] == Idle
    ensures s.data > 0 ==> Run(s, [Move(p, Wait(exclusive)), Move(p, Go(a)), Move(p, Go(b))]) == s.(data := s.data - 1)
    ensures s.data <= 0 ==>
              Run(s, [Move(p, Wait(exclusive)), Move(p, Go(a))]) == s.(procs := s.procs[p := Asleep(exclusive, false)])
  {
    ThreeMoves(s, Move(p, Wait(exclusive)), Move(p, Go(a)), Move(p, Go(b)));
    TwoMoves(s, Move(p, Wait(exclusive)), Move(p, Go(a)));
    hide Run;
    var testing := Step(s, Move(p, Wait(exclusive)));
    assert testing == s.(procs := s.procs[p := Testing(exclusive, false)]);
    if s.data > 0 {
      assert Step(testing, Move(p, Go(a))) == s.(procs := s.procs[p := Decrement]);
      assert s.procs[p := Decrement][p := Idle] == s.procs;
    }
  }

  /** A producer adds its argument before it wakes as it was told, and an undefined command takes a unit at once. */
  lemma ProducerGoes(s: State, p: nat, arg: int, all: bool, a: nat)
    requires p < |s.procs| && s.procs[p] == Idle
    ensures Run(s, [Move(p, WakeUp(arg, all)), Move(p, Go(a))]) == State(s.data + arg, s.procs[p := Wake(all)])
    ensures Run(s, [Move(p, Undefined), Move(p, Go(a))]) == s.(data := s.data - 1)
  {
    TwoMoves(s, Move(p, WakeUp(arg, all)), Move(p, Go(a)));
    TwoMoves(s, Move(p, Undefined), Move(p, Go(a)));
    hide Run;
    assert Step(s, Move(p, WakeUp(arg, all))) == s.(procs := s.procs[p := Produce(arg, all)]);
    assert Step(s, Move(p, Undefined)) == s.(procs := s.procs[p := Decrement]);
    assert s.procs[p := Decrement][p := Idle] == s.procs;
  }

  /** A wake-up marks every ordinary waiter as woken. It marks all exclusive ones, or else exactly one that was not woken
      yet, if there is any, and that may be any of them. It changes nothing else. */
  lemma WakeReaches(s: State, p: nat, all: bool, pick: nat) returns (one: nat)
    requires p < |s.procs| && s.procs[p] == Wake(all)
    ensures var t := Step(s, Move(p, Go(pick)));
            && t.data == s.data && |t.procs| == |s.procs| && t.procs[p] == Idle
            && forall q :: 0 <= q < |s.procs| && q != p ==>
                 t.procs[q] == match s.procs[q]
                               case Testing(x, woken) => Testing(x, woken || !x || all || q == one)
                               case Asleep(x, woken) => Asleep(x, woken || !x || all || q == one)
                               case pc => pc
    ensures one <= |s.procs|
    ensures if one < |s.procs| then s.procs[one] in {Testing(true, false), Asleep(true, false)}
            else forall q :: 0 <= q < |s.procs| ==> s.procs[q] !in {Testing(true, false), Asleep(true, false)}
    ensures pick < |s.procs| && s.procs[pick] in {Testing(true, false), Asleep(true, false)} ==> one == pick
  {
    one := Reached(s.procs[p := Idle], pick);
    if one == |s.procs| {
      forall q | 0 <= q < |s.procs| ensures s.procs[q] !in {Testing(true, false), Asleep(true, false)} {
        assert !Sleeper(s.procs[p := Idle][q], true);
      }
    }
  }

  /** No other step changes where another process stands. */
  lemma OthersKept(s: State, mv: Move, q: nat)
    requires mv.p < |s.procs| && q < |s.procs| && q != mv.p && !s.procs[mv.p].Wake?
    ensures |Step(s, mv).procs| == |s.procs| && Step(s, mv).procs[q] == s.procs[q]
  {
    hide Next;
  }

  /** A waiter that was woken takes a unit and is through with three steps of its own when there is one, and sleeps
      again, not woken, with two when there is none. A wake-up during the test is not lost. */
  lemma WokenGetsUp(s: State, p: nat, exclusive: bool, a: nat, b: nat, c: nat)
    requires p < |s.procs|
    ensures s.procs[p] == Asleep(exclusive, true) && s.data > 0 ==>
              Run(s, [Move(p, Go(a)), Move(p, Go(b)), Move(p, Go(c))]) == State(s.data - 1, s.procs[p := Idle])
    ensures s.procs[p] == Asleep(exclusive, true) && s.data <= 0 ==>
              Run(s, [Move(p, Go(a)), Move(p, Go(b))]) == s.(procs := s.procs[p := Asleep(exclusive, false)])
    ensures s.procs[p] == Asleep(exclusive, false) ==> Step(s, Move(p, Go(a))) == s
    ensures s.procs[p] == Testing(exclusive, true) && s.data <= 0 ==>
              Step(s, Move(p, Go(a))) == s.(procs := s.procs[p := Asleep(exclusive, true)])
  {
    ThreeMoves(s, Move(p, Go(a)), Move(p, Go(b)), Move(p, Go(c)));
    TwoMoves(s, Move(p, Go(a)), Move(p, Go(b)));
  }

  /** A signal ends a sleep, woken or not: the waiter still takes a unit when there is one, and else leaves the counter
      alone. */
  lemma SignalEndsWait(s: State, p: nat, exclusive: bool, woken: bool, b: nat, c: nat)
    requires p < |s.procs| && s.procs[p] == Asleep(exclusive, woken)
    ensures s.data > 0 ==>
              Run(s, [Move(p, Signal), Move(p, Go(b)), Move(p, Go(c))]) == State(s.data - 1, s.procs[p := Idle])
    ensures s.data <= 0 ==> Run(s, [Move(p, Signal), Move(p, Go(b))]) == s.(procs := s.procs[p := Idle])
  {
    ThreeMoves(s, Move(p, Signal), Move(p, Go(b)), Move(p, Go(c)));
    TwoMoves(s, Move(p, Signal), Move(p, Go(b)));
    hide Run;
    var signalled := Step(s, Move(p, Signal));
    assert signalled == s.(procs := s.procs[p := Signalled]);
    assert s.procs[p := Signalled][p := Idle] == s.procs[p := Idle];
    if s.data > 0 {
      assert Step(signalled, Move(p, Go(b))) == s.(procs := s.procs[p := Decrement]);
      assert s.procs[p := Decrement][p := Idle] == s.procs[p := Idle];
    }
  }

  lemma ThreeMoves(s: State, a: Move, b: Move, c: Move)
    ensures Run(s, [a, b, c]) == Step(Step(Step(s, a), b), c)
  {
    assert [a, b, c][1..] == [b, c];
    TwoMoves(Step(s, a), b, c);
  }

  /** A producer stands between its update and a wake-up that reaches waiters of this kind. */
  predicate OwesWake(pc: Pc, exclusive: bool) {
    pc.Wake? && (exclusive ==> pc.all)
  }

  /** No waiter of this kind sleeps, not woken, on a positive counter unless a producer still owes its wake-up. */
  ghost predicate NoneForgotten(s: State, exclusive: bool) {
    forall p :: 0 <= p < |s.procs| && s.procs[p] == Asleep(exclusive, false) && s.data > 0 ==> SomeoneOwes(s, exclusive)
  }

  ghost predicate SomeoneOwes(s: State, exclusive: bool) {
    exists q :: 0 <= q < |s.procs| && OwesWake(s.procs[q], exclusive)
  }

  /** Only wake-ups of all waiters are under way. */
  ghost predicate OnlyAll(s: State) {
    forall p :: 0 <= p < |s.procs| ==> (s.procs[p].Produce? || s.procs[p].Wake?) ==> s.procs[p].all
  }

  lemma ForgottenStep(s: State, mv: Move, exclusive: bool)
    requires NoneForgotten(s, exclusive) && (exclusive ==> OnlyAll(s))
    ensures NoneForgotten(Step(s, mv), exclusive)
  {
    hide Reached;
    var s' := Step(s, mv);
    forall p | 0 <= p < |s'.procs| && s'.procs[p] == Asleep(exclusive, false) && s'.data > 0
      ensures SomeoneOwes(s', exclusive)
    {
      if mv.p < |s.procs| && s.procs[mv.p].Produce? {
        assert OwesWake(s'.procs[mv.p], exclusive);
      } else {
        assert s.procs[p] == s'.procs[p] && s.data > 0;
        var q :| 0 <= q < |s.procs| && OwesWake(s.procs[q], exclusive);
        assert q != mv.p;
        assert OwesWake(s'.procs[q], exclusive);
      }
    }
  }

  lemma {:induction false} ForgottenRun(s: State, moves: seq<Move>, exclusive: bool)
    requires NoneForgotten(s, exclusive) && (exclusive ==> OnlyAll(s) && Uses(moves, true, true, false))
    ensures NoneForgotten(Run(s, moves), exclusive)
    decreases |moves|
  {
    if moves != [] {
      ForgottenStep(s, moves[0], exclusive);
      if exclusive {
        assert Allowed(moves[0].choice, true, true, false);
        forall i | 0 <= i < |moves[1..]| ensures Allowed(moves[1..][i].choice, true, true, false) {
          assert moves[1..][i] == moves[i + 1];
        }
      }
      ForgottenRun(Step(s, moves[0]), moves[1..], exclusive);
    }
  }

  /** The guarantee for one kind of waiter, over every run with or without plain WAKE_UP. */
  ghost predicate Guaranteed(exclusive: bool, one: bool) {
    forall n: nat, moves :: Uses(moves, true, true, one) ==> NoneForgotten(Run(Start(n), moves), exclusive)
  }

  /** Ordinary waiters are never left asleep on a positive counter, whatever the commands; exclusive waiters are
      not, exactly when every producer wakes all. */
  lemma WakeupsGuaranteedExactly(exclusive: bool, one: bool)
    ensures Guaranteed(exclusive, one) <==> !exclusive || !one
  {
    if !exclusive || !one {
      forall n: nat, moves | Uses(moves, true, true, one) ensures NoneForgotten(Run(Start(n), moves), exclusive) {
        ForgottenRun(Start(n), moves, exclusive);
      }
    } else {
      var moves := ForgottenExclusive();
      assert Uses(moves, true, true, one);
      var s := Run(Start(3), moves);
      assert s.procs[1] == Asleep(true, false) && !SomeoneOwes(s, true);
    }
  }

  lemma Extend(n: nat, moves: seq<Move>, mv: Move, s: State) returns (more: seq<Move>)
    requires Run(Start(n), moves) == s && Uses(moves, false, false, true) && Allowed(mv.choice, false, false, true)
    ensures Run(Start(n), more) == Step(s, mv) && Uses(more, false, false, true)
  {
    more := moves + [mv];
    RunConcat(Start(n), moves, [mv]);
    assert Run(s, [mv]) == Run(Step(s, mv), []);
  }

  /** Two exclusive waiters fall asleep on the initial counter. */
  lemma TwoAsleep() returns (moves: seq<Move>)
    ensures Uses(moves, false, false, true)
    ensures Run(Start(3), moves) == State(0, [Asleep(true, false), Asleep(true, false), Idle])
  {
    var s := Start(3);
    assert s.procs == [Idle, Idle, Idle];
    moves := Extend(3, [], Move(0, Wait(true)), s);
    s := State(0, [Testing(true, false), Idle, Idle]);
    moves := Extend(3, moves, Move(0, Go(0)), s);
    s := State(0, [Asleep(true, false), Idle, Idle]);
    moves := Extend(3, moves, Move(1, Wait(true)), s);
    s := State(0, [Asleep(true, false), Testing(true, false), Idle]);
    moves := Extend(3, moves, Move(1, Go(0)), s);
  }

  /** A plain wake-up adds two units and reaches one of them. */
  lemma OneReached() returns (moves: seq<Move>)
    ensures Uses(moves, false, false, true)
    ensures Run(Start(3), moves) == State(2, [Asleep(true, true), Asleep(true, false), Idle])
  {
    moves := TwoAsleep();
    var s := State(0, [Asleep(true, false), Asleep(true, false), Idle]);
    moves := Extend(3, moves, Move(2, WakeUp(2, false)), s);
    s := State(0, [Asleep(true, false), Asleep(true, false), Produce(2, false)]);
    moves := Extend(3, moves, Move(2, Go(0)), s);
    s := State(2, [Asleep(true, false), Asleep(true, false), Wake(false)]);
    moves := Extend(3, moves, Move(2, Go(0)), s);
    assert Step(s, Move(2, Go(0))).procs == [Asleep(true, true), Asleep(true, false), Idle];
  }

  /** The one that was woken takes a unit; the other stays asleep beside the second unit, with nobody left to
      wake it. */
  lemma ForgottenExclusive() returns (moves: seq<Move>)
    ensures Uses(moves, false, false, true) && Run(Start(3), moves).procs == [Idle, Asleep(true, false), Idle]
    ensures Run(Start(3), moves).data == 1
  {
    moves := OneReached();
    var s := State(2, [Asleep(true, true), Asleep(true, false), Idle]);
    moves := Extend(3, moves, Move(0, Go(0)), s);
    s := State(2, [Testing(true, false), Asleep(true, false), Idle]);
    moves := Extend(3, moves, Move(0, Go(0)), s);
    s := State(2, [Decrement, Asleep(true, false), Idle]);
    moves := Extend(3, moves, Move(0, Go(0)), s);
  }

  // One call with nobody else running, on a counter that it changes in place.

  /** The steps of a call on its own; a wait on a counter that is not positive is ended by a signal. */
  function Alone(call: Choice, positive: bool): seq<Move> {
    [Move(0, call)]
    + (match call
       case Wait(_) => if positive then [Move(0, Go(0)), Move(0, Go(0))] else [Move(0, Go(0)), Move(0, Signal), Move(0, Go(0))]
       case WakeUp(_, _) => [Move(0, Go(0)), Move(0, Go(0))]
       case _ => [Move(0, Go(0))])
  }

  lemma AlonePasses(s: State, exclusive: bool)
    requires s.procs == [Idle] && s.data > 0
    ensures Run(s, Alone(Wait(exclusive), true)) == s.(data := s.data - 1)
  {
    assert Alone(Wait(exclusive), true) == [Move(0, Wait(exclusive)), Move(0, Go(0)), Move(0, Go(0))];
    WaitGoes(s, 0, exclusive, 0, 0);
  }

  lemma AloneGivesUp(s: State, exclusive: bool)
    requires s.procs == [Idle] && s.data <= 0
    ensures Run(s, Alone(Wait(exclusive), false)) == s
  {
    var to, out := [Move(0, Wait(exclusive)), Move(0, Go(0))], [Move(0, Signal), Move(0, Go(0))];
    assert Alone(Wait(exclusive), false) == to + out;
    RunConcat(s, to, out);
    WaitGoes(s, 0, exclusive, 0, 0);
    var asleep := s.(procs := s.procs[0 := Asleep(exclusive, false)]);
    SignalEndsWait(asleep, 0, exclusive, false, 0, 0);
    assert asleep.procs[0 := Idle] == s.procs;
  }

  lemma AloneWakes(s: State, arg: int, all: bool)
    requires s.procs == [Idle]
    ensures Run(s, Alone(WakeUp(arg, all), s.data > 0)) == s.(data := s.data + arg)
  {
    var to, out := [Move(0, WakeUp(arg, all)), Move(0, Go(0))], [Move(0, Go(0))];
    assert Alone(WakeUp(arg, all), s.data > 0) == to + out;
    RunConcat(s, to, out);
    ProducerGoes(s, 0, arg, all, 0);
    var t := State(s.data + arg, s.procs[0 := Wake(all)]);
    var one := WakeReaches(t, 0, all, 0);
    assert Run(t, out) == Run(Step(t, Move(0, Go(0))), []);
  }

  lemma AloneFallsThrough(s: State)
    requires s.procs == [Idle]
    ensures Run(s, Alone(Undefined, s.data > 0)) == s.(data := s.data - 1)
  {
    assert Alone(Undefined, s.data > 0) == [Move(0, Undefined), Move(0, Go(0))];
    ProducerGoes(s, 0, 0, true, 0);
  }

  class Device {
    var myData: int

    /** The step machine with this counter and one idle process. */
    ghost function Now(): State
      reads this
    {
      State(myData, [Idle])
    }

    constructor ()
      ensures Now() == Start(1)
    {
      myData := 0;
    }

    /** simple_block_2_ioctl; a wait that a signal ended returns before the decrement. */
    method Ioctl(call: Choice) returns (interrupted: bool, ret: int)
      requires call.Wait? || call.WakeUp? || call.Undefined?
      modifies this
      ensures Now() == Run(old(Now()), Alone(call, old(myData) > 0))
      ensures interrupted <==> call.Wait? && old(myData) <= 0
      ensures match call
              case Wait(_) => myData == if old(myData) > 0 then old(myData) - 1 else old(myData)
              case WakeUp(arg, _) => myData == old(myData) + arg
              case _ => myData == old(myData) - 1
      ensures if interrupted then ret < 0 else ret == myData
    {
      match call {
        case Wait(exclusive) =>
          if myData <= 0 {
            AloneGivesUp(Now(), exclusive);
            return true, -1;
          }
          AlonePasses(Now(), exclusive);
        case WakeUp(arg, all) =>
          AloneWakes(Now(), arg, all);
          myData := myData + arg;
          return false, myData;
        case _ =>
          AloneFallsThrough(Now());
      }
      myData := myData - 1;
      return false, myData;
    }
  }
}
