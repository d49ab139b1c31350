/** What queue_count and queue_vol mean, and how far they can run past their limits, over every interleaving. */
module IpcAccounts {
  import opened Tally
  import opened Messages
  import opened Registry
  import opened IpcProtocol

  /** What a process has put into queue_count beyond the list: a send that accounted but has neither
      appended nor rolled back adds one, a receive that un-accounted but has not unlinked takes one. */
  function CountShare(pc: Pc): int {
    match pc
    case CopyIn(_) => 1
    case Append(_) => 1
    case UndoVol(_) => 1
    case UndoCount(_) => 1
    case Unlink(_) => -1
    case _ => 0
  }

  /** The matching share of queue_vol. */
  function VolShare(pc: Pc): int {
    match pc
    case AddCount(m) => |m.body|
    case CopyIn(m) => |m.body|
    case Append(m) => |m.body|
    case UndoVol(m) => |m.body|
    case SubCount(node) => -|node.msg.body|
    case Unlink(node) => -|node.msg.body|
    case _ => 0
  }

  ghost predicate Accounted(s: State) {
    && s.count == |s.list| + Sum(CountShare, s.procs)
    && s.vol == Sum(NodeSize, s.list) + Sum(VolShare, s.procs)
  }

  lemma {:induction false} WithoutSum(list: seq<Node>, node: Node)
    requires node in list
    ensures |Without(list, node)| == |list| - 1
    ensures Sum(NodeSize, Without(list, node)) == Sum(NodeSize, list) - NodeSize(node)
  {
    if list[0] != node {
      WithoutSum(list[1..], node);
      assert ([list[0]] + Without(list[1..], node))[1..] == Without(list[1..], node);
    }
  }

  /** Waking processes changes no weight that ignores the woken flag. */
  lemma RousedSum(w: Pc -> int, wake: Wake, procs: seq<Pc>, p: nat, pc: Pc)
    requires p < |procs|
    requires forall x :: w(Rouse(wake, x)) == w(x)
    ensures Sum(w, RouseAll(wake, procs[p := pc])) == Sum(w, procs) - w(procs[p]) + w(pc)
  {
    SumUpdate(w, procs, p, pc);
    SumSame(w, RouseAll(wake, procs[p := pc]), procs[p := pc]);
  }

  lemma LocalShares(pc: Pc, s: State, c: Choice)
    ensures var e := ProcessStep(pc, s, c);
            var entries := if e.op.Push? then 1 else if e.op.Remove? then -1 else 0;
            var volume := if e.op.Push? then |e.op.msg.body| else if e.op.Remove? then -NodeSize(e.op.node) else 0;
            && e.dCount == entries + CountShare(e.pc) - CountShare(pc)
            && e.dVol == volume + VolShare(e.pc) - VolShare(pc)
  {
  }

  lemma RemovesOwn(pc: Pc, s: State, c: Choice)
    ensures var e := ProcessStep(pc, s, c); e.op.Remove? ==> pc == Unlink(e.op.node)
  {
  }

  lemma AccountedStep(s: State, mv: Move)
    requires Accounted(s) && |s.users| < MAXPROC
    ensures Accounted(Step(s, mv))
  {
    hide ProcessStep, Sum, Removed;
    if Acts(s, mv) {
      var e := ProcessStep(s.procs[mv.p], s, mv.choice);
      LocalShares(s.procs[mv.p], s, mv.choice);
      RemovesOwn(s.procs[mv.p], s, mv.choice);
      RousedSum(CountShare, e.wake, s.procs, mv.p, e.pc);
      RousedSum(VolShare, e.wake, s.procs, mv.p, e.pc);
      match e.op
      case Push(m) =>
        SumConcat(NodeSize, s.list, [Node(|s.appended|, m)]);
        SumOne(NodeSize, Node(|s.appended|, m));
      case Remove(node) =>
        WithoutSum(s.list, node);
      case _ =>
    }
  }

  lemma StartSums(n: nat, w: Pc -> int)
    requires w(Idle) == 0
    ensures Sum(w, Start(n).procs) == 0
  {
    SumZero(w, Start(n).procs);
  }

  lemma {:induction false} AccountedRun(users: nat, s: State, moves: seq<Move>)
    requires Accounted(s) && users < MAXPROC && Along(t => AtMostUsers(users, t), s, moves)
    ensures Accounted(Run(s, moves))
    decreases |moves|
  {
    if moves != [] {
      AccountedStep(s, moves[0]);
      AccountedRun(users, Step(s, moves[0]), moves[1..]);
    }
  }

  /** In every reachable state, with any number of senders and receivers and fewer than 16 users, queue_count is the
      list length plus the sends in between minus the receives in between, and queue_vol is the matching sum of
      sizes. */
  lemma ConcurrentAccounting(users: nat, n: nat, moves: seq<Move>)
    requires users < MAXPROC && Along(s => AtMostUsers(users, s), Start(n), moves)
    ensures Accounted(Run(Start(n), moves))
  {
    StartSums(n, CountShare);
    StartSums(n, VolShare);
    AccountedRun(users, Start(n), moves);
  }

  /** Sends that have passed the count test and not yet counted themselves. */
  function Pending(pc: Pc): int {
    if pc.TestVol? || pc.WaitVol? || pc.SignalVol? || pc.AddVol? || pc.AddCount? then 1 else 0
  }

  /** Send calls in progress, up to their last change of the accounts. */
  function Sending(pc: Pc): int {
    if pc.TestCount? || pc.TestVol? || pc.WaitCount? || pc.WaitVol? || pc.SendAsleep? || pc.SignalCount? || pc.SignalVol? || pc.AddVol? || pc.AddCount?
       || pc.CopyIn? || pc.Append? || pc.UndoVol? || pc.UndoCount? then 1 else 0
  }

  ghost predicate AtMost(limit: nat, s: State) {
    Sum(Sending, s.procs) <= limit
  }

  /** Receive calls in progress, up to their list_del. */
  function Receiving(pc: Pc): int {
    if pc.Search? || pc.WaitSearch? || pc.RecvAsleep? || pc.SignalSearch? || pc.NullSelected? || Holds(pc) then 1 else 0
  }

  ghost predicate AtMostReceiving(limit: nat, s: State) {
    Sum(Receiving, s.procs) <= limit
  }

  /** A send is counted only after it was pending, and becomes pending only below the limit. */
  lemma OwnPending(pc: Pc, s: State, c: Choice)
    ensures var e := ProcessStep(pc, s, c);
            && (e.dCount + Pending(e.pc) <= Pending(pc) || (s.count <= MAXMSG && e.dCount == 0))
            && (e.op.Leave? ==> e.dCount == 0) && Pending(e.pc) <= Sending(e.pc)
  {
  }

  lemma OvershootStep(s: State, mv: Move, limit: nat)
    requires s.count + Sum(Pending, s.procs) <= MAXMSG + limit
    requires AtMost(limit, Step(s, mv))
    ensures Step(s, mv).count + Sum(Pending, Step(s, mv).procs) <= MAXMSG + limit
  {
    hide Removed, Sum;
    if Acts(s, mv) {
      var e, procs := ProcessStep(s.procs[mv.p], s, mv.choice), Step(s, mv).procs;
      OwnPending(s.procs[mv.p], s, mv.choice);
      RousedSum(Pending, e.wake, s.procs, mv.p, e.pc);
      SumLeq(Pending, procs, Sending, procs);
      hide ProcessStep;
    }
  }

  lemma {:induction false} OvershootRun(s: State, moves: seq<Move>, limit: nat)
    requires s.count + Sum(Pending, s.procs) <= MAXMSG + limit
    requires Along(t => AtMost(limit, t), s, moves)
    ensures var r := Run(s, moves); r.count + Sum(Pending, r.procs) <= MAXMSG + limit
    decreases |moves|
  {
    if moves != [] {
      OvershootStep(s, moves[0], limit);
      OvershootRun(Step(s, moves[0]), moves[1..], limit);
    }
  }

  lemma PendingNonNegative(procs: seq<Pc>)
    ensures Sum(Pending, procs) >= 0
  {
    SumZero((pc: Pc) => 0, procs);
    SumLeq((pc: Pc) => 0, procs, Pending, procs);
  }

  /** With at most N sends in flight at any time, queue_count never exceeds MAXMSG + N. */
  lemma CountOvershoot(n: nat, moves: seq<Move>, limit: nat)
    requires Along(s => AtMost(limit, s), Start(n), moves)
    ensures Run(Start(n), moves).count <= MAXMSG + limit
  {
    StartSums(n, Pending);
    OvershootRun(Start(n), moves, limit);
    PendingNonNegative(Run(Start(n), moves).procs);
  }
}
