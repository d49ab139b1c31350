/**
 What ku_ipc loses when receives of one queue overlap between selecting and unlinking, and that one receive in
 flight is exactly what its order, its exactly-once delivery and its pointers need.
 */
module IpcOverlap {
  import opened Tally
  import opened Messages
  import opened IpcProtocol
  import opened IpcFifo
  import opened IpcAccounts
  import opened IpcReach

  /** One process that sends and two that receive. */
  const PAIR := Cast(1, 2, false)

  /** Any two receives that want the same queued message, with room for it, can both deliver it, and bring
      queue_count to -1 with the message still queued. */
  lemma OverlappingReceivesDeliverTwice(m: Message, r: Receive, q: Receive) returns (s: State)
    requires Wanted(r.typ, m.mtype) && Wanted(q.typ, m.mtype) && |m.body| <= r.cap && |m.body| <= q.cap
    requires |m.body| <= PAYLOAD
    ensures Reaches(PAIR, 3, s) && Calm(s)
    ensures var x := Node(0, m);
            && s.appended == [x] && s.delivered == [x, x] && s.list == [x] && s.count == -1
            && |s.procs| == 3 && s.procs[1] == s.procs[2] == Unlink(x)
  {
    var x := Node(0, m);
    ReachesStart(PAIR, 3);
    SendAlone(PAIR, 3, Start(3), 0, m);
    s := Sent(Start(3), m);
    ReceiveAlone(PAIR, 3, s, 1, r, 0);
    s := Taken(s, 1, x);
    ReceiveAlone(PAIR, 3, s, 2, q, 0);
    s := Taken(s, 2, x);
  }

  /** The second of them then unlinks and frees an entry that the first has already freed. */
  lemma OverlapUsesFreedEntry(m: Message, r: Receive, q: Receive) returns (s: State)
    requires Wanted(r.typ, m.mtype) && Wanted(q.typ, m.mtype) && |m.body| <= r.cap && |m.body| <= q.cap
    requires |m.body| <= PAYLOAD
    ensures Reaches(PAIR, 3, s) && s.fault
  {
    var x := Node(0, m);
    var t := OverlappingReceivesDeliverTwice(m, r, q);
    AtSelf(t, 1);
    UnlinkAlone(PAIR, 3, t, 1, x);
    var u := At(t.(list := Without(t.list, x), removed := t.removed + [x]), 1, WakeSenders);
    assert u.procs[2] == Unlink(x) && u.list == [];
    ReachesStep(PAIR, 3, u, Move(2, Go));
    s := Step(u, Move(2, Go));
  }

  lemma WaitBegins(r: Receive) returns (t: State)
    requires r.typ == 0 && r.wait
    ensures Reaches(PAIR, 3, t) && Calm(t) && t.appended == t.list == [] && t.count == t.vol == 0
    ensures t.procs == [Idle, WaitSearch(r, false), Idle]
  {
    t := Start(3);
    ReachesStart(PAIR, 3);
    AtSelf(t, 1);
    ReachesQuiet(PAIR, 3, t, t, 1, Idle, CallReceive(r), Goto(Search(r)));
    ReachesQuiet(PAIR, 3, t, t, 1, Search(r), Go, Goto(WaitSearch(r, false)));
    t := At(t, 1, WaitSearch(r, false));
  }

  /** A receive of any message waits, is woken by a send, and finds its condition true. */
  lemma WaitSucceeds(m: Message, r: Receive) returns (t: State)
    requires r.typ == 0 && r.wait && |m.body| <= PAYLOAD
    ensures Reaches(PAIR, 3, t) && Calm(t) && t.list == [Node(0, m)] && t.procs == [Idle, TakeFirst(r), Idle]
  {
    t := WaitBegins(r);
    SendAlone(PAIR, 3, t, 0, m);
    t := Sent(t, m);
    AtSelf(t, 1);
    ReachesQuiet(PAIR, 3, t, t, 1, WaitSearch(r, true), Go, Goto(TakeFirst(r)));
    t := At(t, 1, TakeFirst(r));
  }

  /** Another receive takes the only message. */
  lemma OtherTakes(t: State, x: Node, r: Receive, q: Receive) returns (s: State)
    requires Reaches(PAIR, 3, t) && Calm(t) && t.list == [x] && t.procs == [Idle, TakeFirst(r), Idle]
    requires Wanted(q.typ, x.msg.mtype) && |x.msg.body| <= q.cap
    ensures Reaches(PAIR, 3, s) && Calm(s) && s.list == [] && s.procs == [Idle, TakeFirst(r), WakeSenders]
  {
    ReceiveAlone(PAIR, 3, t, 2, q, 0);
    var u := Taken(t, 2, x);
    AtSelf(u, 2);
    UnlinkAlone(PAIR, 3, u, 2, x);
    s := At(u.(list := Without(u.list, x), removed := u.removed + [x]), 2, WakeSenders);
  }

  /** A receive of any message can find the queue empty after its wait succeeded, when another receive takes the
      only message in between, and selects the null entry. */
  lemma OverlapSelectsNull(m: Message, r: Receive, q: Receive) returns (s: State)
    requires r.typ == 0 && r.wait && Wanted(q.typ, m.mtype) && |m.body| <= q.cap && |m.body| <= PAYLOAD
    ensures Reaches(PAIR, 3, s) && !s.fault && |s.procs| == 3 && s.procs[1] == NullSelected
  {
    var t := WaitSucceeds(m, r);
    t := OtherTakes(t, Node(0, m), r, q);
    AtSelf(t, 1);
    ReachesQuiet(PAIR, 3, t, t, 1, TakeFirst(r), Go, Goto(NullSelected));
    s := At(t, 1, NullSelected);
  }

  // How many receives may be in flight.

  lemma OneReceiveHolds(s: State)
    requires AtMostReceiving(1, s)
    ensures OneHolder(s)
  {
    forall p: nat, q: nat | p < q < |s.procs| ensures !(Holds(s.procs[p]) && Holds(s.procs[q])) {
      var rest := s.procs[p := Idle];
      SumUpdate(Receiving, s.procs, p, Idle);
      SumUpdate(Receiving, rest, q, Idle);
      var none := rest[q := Idle];
      SumZero((pc: Pc) => 0, none);
      SumLeq((pc: Pc) => 0, none, Receiving, none);
    }
  }

  lemma {:induction false} OneReceiveRun(limit: nat, s: State, moves: seq<Move>)
    requires limit <= 1 && Along(t => AtMostReceiving(limit, t), s, moves)
    ensures Along(OneHolder, s, moves)
    decreases |moves|
  {
    assert AtMostReceiving(limit, s);
    OneReceiveHolds(s);
    if moves != [] {
      OneReceiveRun(limit, Step(s, moves[0]), moves[1..]);
    }
  }

  /** A property holds in every reachable state of the runs with at most so many receives in flight. */
  ghost predicate HoldsUpTo(limit: nat, P: State -> bool) {
    forall n: nat, moves :: Along(s => AtMostReceiving(limit, s), Start(n), moves) ==> P(Run(Start(n), moves))
  }

  /** A state that two receivers reach is a counterexample for every limit above one. */
  lemma FailsFromTwo(limit: nat, P: State -> bool, s: State)
    requires limit >= 2 && Reaches(PAIR, 3, s) && !P(s)
    ensures !HoldsUpTo(limit, P)
  {
    var moves := RunThere(PAIR, 3, s);
    assert Along(t => AtMostReceiving(2, t), Start(3), moves);
    MoreReceivesAllowed(2, limit, Start(3), moves);
    assert !P(Run(Start(3), moves));
  }

  ghost predicate EachTypeInOrder(s: State) {
    forall t :: InOrder(t, s.appended, s.delivered, Undelivered(s))
  }

  ghost predicate EachOnce(s: State) {
    forall i :: 0 <= i < |s.appended| ==>
      multiset(s.delivered)[s.appended[i]] + multiset(Undelivered(s))[s.appended[i]] == 1
  }

  ghost predicate NoFreedEntryUsed(s: State) { !s.fault }

  ghost predicate NoNullSelected(s: State) {
    forall p :: 0 <= p < |s.procs| ==> s.procs[p] != NullSelected
  }

  lemma TwiceIsNotInOrder(s: State, m: Message)
    requires s.appended == [Node(0, m)] && s.delivered == [Node(0, m), Node(0, m)]
    ensures !EachTypeInOrder(s)
  {
    var once, t := [Node(0, m)], m.mtype;
    assert s.delivered == once + once;
    OfTypeConcat(t, once, once);
    assert OfType(t, once) == once + OfType(t, []) == once;
    assert |OfType(t, s.delivered)| == 2 && |OfType(t, s.appended)| == 1;
    assert !InOrder(t, s.appended, s.delivered, Undelivered(s));
  }

  lemma TwiceIsNotOnce(s: State, m: Message)
    requires s.appended == [Node(0, m)] && s.delivered == [Node(0, m), Node(0, m)]
    ensures !EachOnce(s)
  {
    assert multiset(s.delivered)[s.appended[0]] == 2;
  }

  /** Order within each type, and delivery exactly once, hold exactly when no two receives are in flight at once. */
  lemma DeliveryExactly(limit: nat)
    ensures HoldsUpTo(limit, EachTypeInOrder) <==> limit <= 1
    ensures HoldsUpTo(limit, EachOnce) <==> limit <= 1
  {
    if limit <= 1 {
      forall n: nat, moves | Along(s => AtMostReceiving(limit, s), Start(n), moves)
        ensures EachTypeInOrder(Run(Start(n), moves)) && EachOnce(Run(Start(n), moves))
      {
        var s := Run(Start(n), moves);
        OneReceiveRun(limit, Start(n), moves);
        forall t ensures InOrder(t, s.appended, s.delivered, Undelivered(s)) { PerTypeFifo(n, moves, t); }
        forall i: nat | i < |s.appended|
          ensures multiset(s.delivered)[s.appended[i]] + multiset(Undelivered(s))[s.appended[i]] == 1
        {
          ExactlyOnce(n, moves, i);
        }
      }
    } else {
      var m, r := Message(1, []), Receive(0, 0, false, false);
      var s := OverlappingReceivesDeliverTwice(m, r, r);
      TwiceIsNotInOrder(s, m);
      TwiceIsNotOnce(s, m);
      FailsFromTwo(limit, EachTypeInOrder, s);
      FailsFromTwo(limit, EachOnce, s);
    }
  }

  /** No freed entry is used, and no null entry selected, exactly when no two receives are in flight at once. */
  lemma PointersExactly(limit: nat)
    ensures HoldsUpTo(limit, NoFreedEntryUsed) <==> limit <= 1
    ensures HoldsUpTo(limit, NoNullSelected) <==> limit <= 1
  {
    if limit <= 1 {
      forall n: nat, moves | Along(s => AtMostReceiving(limit, s), Start(n), moves)
        ensures NoFreedEntryUsed(Run(Start(n), moves)) && NoNullSelected(Run(Start(n), moves))
      {
        OneReceiveRun(limit, Start(n), moves);
        NothingUndefined(n, moves);
        forall p: nat | p < n ensures Run(Start(n), moves).procs[p] != NullSelected {
          EntriesAreValid(n, moves, p);
        }
      }
    } else {
      var m, r := Message(1, []), Receive(0, 0, true, false);
      var s := OverlapUsesFreedEntry(m, r, r);
      FailsFromTwo(limit, NoFreedEntryUsed, s);
      var t := OverlapSelectsNull(m, r, r);
      assert !NoNullSelected(t);
      FailsFromTwo(limit, NoNullSelected, t);
    }
  }
}
