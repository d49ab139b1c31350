/**
 One queue of Challenge1/ku_ipc.c as a step machine: any number of processes open and close it and run
 message_send and message_receive, and every read or write of the shared queue is one atomic step; an open or a
 close changes the registry in one. A process is known by its number. The two updates under the
 spin lock are steps of their own, between which every other process can move but none can take the lock. A
 process that uses an entry which is no longer in the list, and so freed, or a null entry stops the machine with
 `fault` set: nothing is said about what the code does after that.
 */
module IpcProtocol {
  import opened Messages
  import opened Registry

  /** A list entry: `id` is its position in the order of all list_add_tail calls. */
  datatype Node = Node(id: nat, msg: Message)

  datatype Receive = Receive(typ: int, cap: nat, wait: bool, noerror: bool)

  /** Where a process stands. `woken` is the flag wake_up sets on a process that is on a wait queue. */
  datatype Pc =
    | Idle
    // message_send
    | TestCount(m: Message, wait: bool)
    | TestVol(m: Message, wait: bool)
    | WaitCount(m: Message, woken: bool)
    | WaitVol(m: Message, woken: bool)
    | SendAsleep(m: Message, woken: bool)
    | SignalCount(m: Message)
    | SignalVol(m: Message)
    | AddVol(m: Message)
    | AddCount(m: Message)
    | CopyIn(m: Message)
    | Append(m: Message)
    | WakeReceivers
    | UndoVol(m: Message)
    | UndoCount(m: Message)
    // message_receive
    | Search(r: Receive)
    | WaitSearch(r: Receive, woken: bool)
    | RecvAsleep(r: Receive, woken: bool)
    | SignalSearch(r: Receive)
    | TakeFirst(r: Receive)
    | Selected(r: Receive, node: Node)
    | SubVol(node: Node)
    | SubCount(node: Node)
    | Unlink(node: Node)
    | NullSelected
    // both: the rollback of a failed copy and the end of a receive
    | WakeSenders
    // both: the close that a signal forces
    | Closing

  /** What the environment decides at a step: which call starts, whether a copy fails or a signal arrives. */
  datatype Choice =
    | Go
    | Fail
    | Signal
    | CallOpen(excl: bool)
    | CallClose
    | CallSend(msg: Message, waits: bool)
    | CallReceive(recv: Receive)

  datatype Move = Move(p: nat, choice: Choice)

  /** Deliver: the entry was copied to the receiver. Remove: it was unlinked and freed. Enter and Leave: the process
      opens and closes the queue. */
  datatype QueueOp =
    | Keep
    | Push(msg: Message)
    | Deliver(node: Node)
    | Remove(node: Node)
    | Enter(excl: bool)
    | Leave

  datatype Wake = Nobody | Senders | Receivers

  datatype Effect = Effect(pc: Pc, dCount: int, dVol: int, op: QueueOp, wake: Wake)

  /** The queue, its registry, the processes, the history of entries appended, copied to a receiver and removed, and whether a
      freed or null entry has been used. */
  datatype State = State(list: seq<Node>, count: int, vol: int, users: seq<int>, procs: seq<Pc>,
                         appended: seq<Node>, delivered: seq<Node>, removed: seq<Node>, fault: bool)

  function Start(n: nat): State {
    State([], 0, 0, [], seq(n, i => Idle), [], [], [], false)
  }

  function NodeType(x: Node): int { x.msg.mtype }

  function NodeSize(x: Node): int { |x.msg.body| }

  function Goto(pc: Pc): Effect { Effect(pc, 0, 0, Keep, Nobody) }

  /** One step of a process, as a function of its pc and the shared values it reads. */
  function ProcessStep(pc: Pc, s: State, c: Choice): Effect {
    match pc
    case Idle =>
      (match c
       case CallOpen(excl) => Effect(Idle, 0, 0, Enter(excl), Nobody)
       case CallClose => Effect(Idle, 0, 0, Leave, Nobody)
       case CallSend(m, waits) => Goto(TestCount(m, waits))
       case CallReceive(r) => Goto(Search(r))
       case _ => Goto(Idle))
    // message_send
    case TestCount(m, wait) =>
      Goto(if s.count <= MAXMSG then TestVol(m, wait) else if wait then WaitCount(m, false) else Idle)
    case TestVol(m, wait) =>
      Goto(if s.vol + |m.body| < MAXVOL then AddVol(m) else if wait then WaitCount(m, false) else Idle)
    case WaitCount(m, woken) =>
      Goto(if s.count <= MAXMSG then WaitVol(m, woken) else SendAsleep(m, woken))
    case WaitVol(m, woken) =>
      Goto(if s.vol + |m.body| < MAXVOL then AddVol(m) else SendAsleep(m, woken))
    case SendAsleep(m, woken) =>
      Goto(if c == Signal then SignalCount(m) else if woken then WaitCount(m, false) else pc)
    // a signal ends the wait only if the condition is still false
    case SignalCount(m) => Goto(if s.count <= MAXMSG then SignalVol(m) else Closing)
    case SignalVol(m) => Goto(if s.vol + |m.body| < MAXVOL then AddVol(m) else Closing)
    case AddVol(m) => Effect(AddCount(m), 0, |m.body|, Keep, Nobody)
    case AddCount(m) => Effect(CopyIn(m), 1, 0, Keep, Nobody)
    case CopyIn(m) => Goto(if c == Fail then UndoVol(m) else Append(m))
    case Append(m) => Effect(WakeReceivers, 0, 0, Push(m), Nobody)
    case WakeReceivers => Effect(Idle, 0, 0, Keep, Receivers)
    case UndoVol(m) => Effect(UndoCount(m), 0, -|m.body|, Keep, Nobody)
    case UndoCount(m) => Effect(WakeSenders, -1, 0, Keep, Nobody)
    // message_receive
    case Search(r) =>
      var i := FirstWanted(r.typ, NodeType, s.list);
      Goto(if i < |s.list| then Selected(r, s.list[i]) else if r.wait then WaitSearch(r, false) else Idle)
    case WaitSearch(r, woken) =>
      var i := FirstWanted(r.typ, NodeType, s.list);
      Goto(if i == |s.list| then RecvAsleep(r, woken) else if r.typ == 0 then TakeFirst(r) else Selected(r, s.list[i]))
    case RecvAsleep(r, woken) =>
      Goto(if c == Signal then SignalSearch(r) else if woken then WaitSearch(r, false) else pc)
    case SignalSearch(r) =>
      var i := FirstWanted(r.typ, NodeType, s.list);
      Goto(if i == |s.list| then Closing else if r.typ == 0 then TakeFirst(r) else Selected(r, s.list[i]))
    case TakeFirst(r) =>
      Goto(if s.list == [] then NullSelected else Selected(r, s.list[0]))
    case Selected(r, node) =>
      if (|node.msg.body| > r.cap && !r.noerror) || c == Fail then Goto(Idle)
      else Effect(SubVol(node), 0, 0, Deliver(node), Nobody)
    case SubVol(node) => Effect(SubCount(node), 0, -|node.msg.body|, Keep, Nobody)
    case SubCount(node) => Effect(Unlink(node), -1, 0, Keep, Nobody)
    case Unlink(node) => Effect(WakeSenders, 0, 0, Remove(node), Nobody)
    case NullSelected => Goto(NullSelected)
    // both
    case WakeSenders => Effect(Idle, 0, 0, Keep, Senders)
    case Closing => Effect(Idle, 0, 0, Leave, Nobody)
  }

  /** wake_up: every process on that wait queue becomes runnable. */
  function Rouse(w: Wake, pc: Pc): Pc {
    match pc
    case WaitCount(m, _) => if w == Senders then WaitCount(m, true) else pc
    case WaitVol(m, _) => if w == Senders then WaitVol(m, true) else pc
    case SendAsleep(m, _) => if w == Senders then SendAsleep(m, true) else pc
    case WaitSearch(r, _) => if w == Receivers then WaitSearch(r, true) else pc
    case RecvAsleep(r, _) => if w == Receivers then RecvAsleep(r, true) else pc
    case _ => pc
  }

  function RouseAll(w: Wake, procs: seq<Pc>): seq<Pc> {
    seq(|procs|, i requires 0 <= i < |procs| => Rouse(w, procs[i]))
  }

  function Without(list: seq<Node>, node: Node): seq<Node> {
    if list == [] then [] else if list[0] == node then list[1..] else [list[0]] + Without(list[1..], node)
  }

  lemma {:induction false} WithoutWithin(list: seq<Node>, node: Node)
    ensures forall x :: x in Without(list, node) ==> x in list
  {
    if list != [] && list[0] != node {
      WithoutWithin(list[1..], node);
    }
  }

  function Apply(s: State, p: nat, e: Effect): State
    requires p < |s.procs|
  {
    var procs := RouseAll(e.wake, s.procs[p := e.pc]);
    var s' := s.(count := s.count + e.dCount, vol := s.vol + e.dVol, procs := procs);
    match e.op
    case Keep => s'
    case Push(m) =>
      var node := Node(|s.appended|, m);
      s'.(list := s.list + [node], appended := s.appended + [node])
    case Deliver(node) => s'.(delivered := s.delivered + [node])
    case Remove(node) => s'.(list := Without(s.list, node), removed := s.removed + [node])
    case Enter(excl) => if Admits(s.users, p, excl) then s'.(users := s.users + [p]) else s'
    case Leave => s'.(users := Removed(s.users, p), count := CountAfterClose(s.users, p, s'.count))
  }

  /** Between the two updates that the spin lock covers. */
  predicate InLock(pc: Pc) { pc.AddCount? || pc.UndoCount? || pc.SubCount? }

  /** The next step takes the spin lock. */
  predicate Acquires(pc: Pc) { pc.AddVol? || pc.UndoVol? || pc.SubVol? }

  predicate Unheld(procs: seq<Pc>) {
    forall p :: 0 <= p < |procs| ==> !InLock(procs[p])
  }

  /** The next step uses an entry that has been freed, or the null entry. */
  predicate UsesBadEntry(pc: Pc, list: seq<Node>) {
    match pc
    case Selected(_, node) => node !in list
    case SubVol(node) => node !in list
    case Unlink(node) => node !in list
    case NullSelected => true
    case _ => false
  }

  /** Process p can take a step: nothing is undefined yet, and it does not spin on the lock. */
  predicate CanStep(s: State, p: nat) {
    p < |s.procs| && !s.fault && (Acquires(s.procs[p]) ==> Unheld(s.procs))
  }

  /** The move is a step of its process that uses no bad entry. */
  predicate Acts(s: State, mv: Move) {
    CanStep(s, mv.p) && !UsesBadEntry(s.procs[mv.p], s.list)
  }

  function Step(s: State, mv: Move): State {
    if !CanStep(s, mv.p) then s
    else if UsesBadEntry(s.procs[mv.p], s.list) then s.(fault := true)
    else Apply(s, mv.p, ProcessStep(s.procs[mv.p], s, mv.choice))
  }

  /** The state s with process p at pc. */
  function At(s: State, p: nat, pc: Pc): State
    requires p < |s.procs|
  {
    s.(procs := s.procs[p := pc])
  }

  /** Nobody is in the lock and nothing undefined has happened. */
  ghost predicate Calm(s: State) {
    !s.fault && Unheld(s.procs)
  }

  lemma AtSelf(s: State, p: nat)
    requires p < |s.procs|
    ensures At(s, p, s.procs[p]) == s
  {
    assert s.procs[p := s.procs[p]] == s.procs;
  }

  /** A step that wakes nobody and leaves the list alone changes its own pc and the accounts only. */
  lemma QuietStep(s: State, t: State, p: nat, pc: Pc, c: Choice, e: Effect)
    requires p < |s.procs| && CanStep(At(s, p, pc), p) && !UsesBadEntry(pc, s.list)
    requires e == ProcessStep(pc, s, c) && e.wake == Nobody && e.op == Keep
    requires t == s.(count := s.count + e.dCount, vol := s.vol + e.dVol)
    ensures Step(At(s, p, pc), Move(p, c)) == At(t, p, e.pc)
  {
    assert s.procs[p := pc][p := e.pc] == s.procs[p := e.pc];
    assert RouseAll(Nobody, s.procs[p := e.pc]) == s.procs[p := e.pc];
  }

  function Run(s: State, moves: seq<Move>): (r: State)
    ensures |r.procs| == |s.procs|
    decreases |moves|
  {
    if moves == [] then s else Run(Step(s, moves[0]), moves[1..])
  }

  /** A property of every state a run visits. */
  ghost predicate Along(P: State -> bool, s: State, moves: seq<Move>)
    decreases |moves|
  {
    P(s) && (moves != [] ==> Along(P, Step(s, moves[0]), moves[1..]))
  }

  lemma {:induction false} RunConcat(s: State, a: seq<Move>, b: seq<Move>)
    ensures Run(s, a + b) == Run(Run(s, a), b)
    decreases |a|
  {
    if a == [] {
      assert a + b == b;
    } else {
      assert (a + b)[1..] == a[1..] + b;
      RunConcat(Step(s, a[0]), a[1..], b);
    }
  }

  lemma {:induction false} LockRun(s: State, moves: seq<Move>)
    requires OneInLock(s)
    ensures OneInLock(Run(s, moves))
    decreases |moves|
  {
    if moves != [] {
      LockStep(s, moves[0]);
      LockRun(Step(s, moves[0]), moves[1..]);
    }
  }

  /** The spin lock excludes: in every reachable state at most one process is between the two updates. */
  lemma LockExcludes(n: nat, moves: seq<Move>, p: nat, q: nat)
    requires p < q < n
    ensures var procs := Run(Start(n), moves).procs; !(InLock(procs[p]) && InLock(procs[q]))
  {
    LockRun(Start(n), moves);
  }

  ghost predicate OneInLock(s: State) {
    forall p, q :: 0 <= p < q < |s.procs| ==> !(InLock(s.procs[p]) && InLock(s.procs[q]))
  }

  lemma TakesLock(pc: Pc, s: State, c: Choice)
    ensures InLock(ProcessStep(pc, s, c).pc) ==> Acquires(pc)
  {
  }

  lemma AppliedPc(s: State, p: nat, e: Effect, q: nat)
    requires p < |s.procs| && q < |s.procs|
    ensures |Apply(s, p, e).procs| == |s.procs|
    ensures InLock(Apply(s, p, e).procs[q]) <==> InLock(if q == p then e.pc else s.procs[q])
  {
    assert Apply(s, p, e).procs[q] == Rouse(e.wake, if q == p then e.pc else s.procs[q]);
  }

  lemma LockStep(s: State, mv: Move)
    requires OneInLock(s)
    ensures OneInLock(Step(s, mv))
  {
    if Acts(s, mv) {
      var e := ProcessStep(s.procs[mv.p], s, mv.choice);
      TakesLock(s.procs[mv.p], s, mv.choice);
      forall q: nat | q < |s.procs|
        ensures InLock(Step(s, mv).procs[q]) <==> InLock(if q == mv.p then e.pc else s.procs[q])
      {
        AppliedPc(s, mv.p, e, q);
      }
    }
  }

  /** A process that spins on the lock is let go by the next step of the one that holds it, whatever that step is told. */
  lemma LockIsReleased(n: nat, moves: seq<Move>, p: nat, c: Choice) returns (q: nat)
    requires var s := Run(Start(n), moves); p < n && !s.fault && !CanStep(s, p)
    ensures var s := Run(Start(n), moves); q < n && InLock(s.procs[q]) && CanStep(Step(s, Move(q, c)), p)
  {
    var s := Run(Start(n), moves);
    LockRun(Start(n), moves);
    q :| q < n && InLock(s.procs[q]);
    var e := ProcessStep(s.procs[q], s, c);
    TakesLock(s.procs[q], s, c);
    forall i: nat | i < n ensures !InLock(Step(s, Move(q, c)).procs[i]) {
      AppliedPc(s, q, e, i);
    }
    assert Step(s, Move(q, c)).procs[p] == Rouse(e.wake, s.procs[p]);
  }

  // The registry.

  /** At most so many processes have the queue open. */
  ghost predicate AtMostUsers(limit: nat, s: State) {
    |s.users| <= limit
  }

  ghost predicate Slots(s: State) {
    Distinct(s.users) && |s.users| <= MAXPROC
  }

  lemma SlotsStep(s: State, mv: Move)
    requires Slots(s)
    ensures Slots(Step(s, mv))
  {
    if Acts(s, mv) && ProcessStep(s.procs[mv.p], s, mv.choice).op.Leave? {
      RemovedIsOthers(s.users, mv.p);
    }
  }

  /** From a successful test to the unlink, a receiver relies on the entry it found. */
  predicate Holds(pc: Pc) {
    pc.TakeFirst? || pc.Selected? || pc.SubVol? || pc.SubCount? || pc.Unlink?
  }

  /** At most one receiver stands between its successful search and its list_del. */
  ghost predicate OneHolder(s: State) {
    forall p, q :: 0 <= p < q < |s.procs| ==> !(Holds(s.procs[p]) && Holds(s.procs[q]))
  }
}
