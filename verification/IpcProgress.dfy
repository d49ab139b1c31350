/** What a call of ku_ipc does once its tests are behind it, over every run and whatever other processes do meanwhile. */
module IpcProgress {
  import opened Messages
  import opened IpcProtocol
  import opened IpcWakeups

  /** A send that was admitted, a send whose copy failed, a receive that has delivered its entry. */
  datatype Course = Sending(m: Message) | Undoing(m: Message) | Receiving(node: Node)

  /** The steps of a course up to the return. */
  function Length(c: Course): nat {
    match c case Sending(_) => 5 case Undoing(_) => 3 case Receiving(_) => 4
  }

  /** Where a call stands after so many steps of its course. */
  function Place(c: Course, k: nat): Pc {
    match c
    case Sending(m) =>
      if k == 0 then AddVol(m) else if k == 1 then AddCount(m) else if k == 2 then CopyIn(m)
      else if k == 3 then Append(m) else if k == 4 then WakeReceivers else Idle
    case Undoing(m) =>
      if k == 0 then UndoVol(m) else if k == 1 then UndoCount(m) else if k == 2 then WakeSenders else Idle
    case Receiving(node) =>
      if k == 0 then SubVol(node) else if k == 1 then SubCount(node) else if k == 2 then Unlink(node)
      else if k == 3 then WakeSenders else Idle
  }

  /** The move is a step of process p that uses no bad entry. */
  predicate Own(s: State, mv: Move, p: nat) { mv.p == p && Acts(s, mv) }

  function OwnSteps(s: State, moves: seq<Move>, p: nat): nat
    decreases |moves|
  {
    if moves == [] then 0 else (if Own(s, moves[0], p) then 1 else 0) + OwnSteps(Step(s, moves[0]), moves[1..], p)
  }

  /** No copy of process p fails. */
  ghost predicate Copies(moves: seq<Move>, p: nat) {
    forall i :: 0 <= i < |moves| && moves[i].p == p ==> moves[i].choice != Fail
  }

  /** Since state s the message was appended, or the entry unlinked. */
  ghost predicate Happened(s: State, t: State, c: Course) {
    match c
    case Sending(m) => exists i :: |s.appended| <= i < |t.appended| && t.appended[i].msg == m
    case Undoing(_) => true
    case Receiving(node) => exists i :: |s.removed| <= i < |t.removed| && t.removed[i] == node
  }

  /** The step of a course that appends or unlinks. */
  function Effective(c: Course): nat { if c.Sending? then 3 else 2 }

  lemma HistoryGrows(s: State, mv: Move)
    ensures s.appended <= Step(s, mv).appended && s.removed <= Step(s, mv).removed
  {
    hide ProcessStep;
  }

  lemma {:induction false} HistoryKept(s: State, moves: seq<Move>)
    ensures s.appended <= Run(s, moves).appended && s.removed <= Run(s, moves).removed
    decreases |moves|
  {
    if moves != [] {
      HistoryGrows(s, moves[0]);
      HistoryKept(Step(s, moves[0]), moves[1..]);
    }
  }

  /** A step of another process, or one that p cannot take, leaves p where it is. */
  lemma OthersStep(s: State, mv: Move, p: nat, c: Course, k: nat)
    requires p < |s.procs| && s.procs[p] == Place(c, k) && !Own(s, mv, p)
    ensures |Step(s, mv).procs| == |s.procs| && Step(s, mv).procs[p] == Place(c, k)
  {
    if mv.p < |s.procs| && mv.p != p {
      OthersRoused(s, mv, p);
      hide ProcessStep, Step;
    }
  }

  lemma OwnStep(s: State, mv: Move, p: nat, c: Course, k: nat)
    requires p < |s.procs| && s.procs[p] == Place(c, k) && k < Length(c) && Own(s, mv, p) && mv.choice != Fail
    ensures var e := ProcessStep(Place(c, k), s, mv.choice);
            && e.pc == Place(c, k + 1)
            && (k == Effective(c) ==>
                  match c case Sending(m) => e.op == Push(m) case Undoing(_) => true case Receiving(x) => e.op == Remove(x))
  {
    hide FirstWanted, Wanted;
  }

  lemma Applied(s: State, mv: Move, p: nat, c: Course, k: nat)
    requires p < |s.procs| && s.procs[p] == Place(c, k) && k < Length(c) && Own(s, mv, p) && mv.choice != Fail
    ensures var t := Step(s, mv);
            && |t.procs| == |s.procs| && t.procs[p] == Place(c, k + 1) && (k == Effective(c) ==> Happened(s, t, c))
  {
    OwnStep(s, mv, p, c, k);
    var e, t := ProcessStep(Place(c, k), s, mv.choice), Step(s, mv);
    hide ProcessStep;
    assert t.procs[p] == Rouse(e.wake, e.pc);
    assert e.op.Push? ==> t.appended[|s.appended|].msg == e.op.msg;
    assert e.op.Remove? ==> t.removed[|s.removed|] == e.op.node;
  }

  lemma StillHappened(s: State, mv: Move, t: State, c: Course)
    requires Happened(Step(s, mv), t, c)
    ensures Happened(s, t, c)
  {
    HistoryGrows(s, mv);
    hide Step;
  }

  lemma HappenedLater(s: State, t: State, moves: seq<Move>, c: Course)
    requires Happened(s, t, c)
    ensures Happened(s, Run(t, moves), c)
  {
    HistoryKept(t, moves);
  }

  lemma CopiesRest(moves: seq<Move>, p: nat)
    requires Copies(moves, p) && moves != []
    ensures Copies(moves[1..], p) && (moves[0].p == p ==> moves[0].choice != Fail)
  {
    assert forall i :: 0 <= i < |moves[1..]| ==> moves[1..][i] == moves[i + 1];
  }

  /** Whatever others do meanwhile, a send that was admitted appends its message, one whose copy failed takes itself out of
      the accounts, and a receive that has delivered its entry unlinks it: each of its own steps is the next one of its
      course, and it returns with the last. */
  lemma {:induction false} CourseGoesOn(s: State, moves: seq<Move>, p: nat, c: Course, k: nat)
    requires p < |s.procs| && s.procs[p] == Place(c, k) && k + OwnSteps(s, moves, p) <= Length(c) && Copies(moves, p)
    ensures var t, j := Run(s, moves), k + OwnSteps(s, moves, p);
            t.procs[p] == Place(c, j) && (k <= Effective(c) < j ==> Happened(s, t, c))
    decreases |moves|
  {
    if moves != [] {
      hide Step, Place, Happened, Own, Copies, Length;
      var mv, next, rest := moves[0], Step(s, moves[0]), moves[1..];
      assert Run(s, moves) == Run(next, rest);
      assert OwnSteps(s, moves, p) == (if Own(s, mv, p) then 1 else 0) + OwnSteps(next, rest, p);
      hide Run, OwnSteps;
      CopiesRest(moves, p);
      if Own(s, mv, p) {
        Applied(s, mv, p, c, k);
        CourseGoesOn(next, rest, p, c, k + 1);
        if k == Effective(c) { HappenedLater(s, next, rest, c); }
      } else {
        OthersStep(s, mv, p, c, k);
        CourseGoesOn(next, rest, p, c, k);
      }
      if Happened(next, Run(next, rest), c) { StillHappened(s, mv, Run(next, rest), c); }
    }
  }
}
