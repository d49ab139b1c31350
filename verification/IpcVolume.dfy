/**
 The volume limit of ku_ipc under the size limit of the library: how large queue_vol gets, and with how many
 sends and receives in flight the volume test can ever refuse a message. Several receives of one entry each take
 one off queue_count, so receives in flight make room for more messages than the limit meant.
 */
module IpcVolume {
  import opened Tally
  import opened Messages
  import opened Registry
  import opened IpcProtocol
  import opened IpcAccounts

  /** Every message handed in by a call respects the library's limit. */
  ghost predicate LibrarySized(moves: seq<Move>) {
    forall i :: 0 <= i < |moves| ==> moves[i].choice.CallSend? ==> |moves[i].choice.msg.body| <= PAYLOAD
  }

  predicate Small(pc: Pc) {
    match pc
    case TestCount(m, _) => |m.body| <= PAYLOAD
    case TestVol(m, _) => |m.body| <= PAYLOAD
    case WaitCount(m, _) => |m.body| <= PAYLOAD
    case WaitVol(m, _) => |m.body| <= PAYLOAD
    case SendAsleep(m, _) => |m.body| <= PAYLOAD
    case SignalCount(m) => |m.body| <= PAYLOAD
    case SignalVol(m) => |m.body| <= PAYLOAD
    case AddVol(m) => |m.body| <= PAYLOAD
    case AddCount(m) => |m.body| <= PAYLOAD
    case CopyIn(m) => |m.body| <= PAYLOAD
    case Append(m) => |m.body| <= PAYLOAD
    case UndoVol(m) => |m.body| <= PAYLOAD
    case _ => true
  }

  ghost predicate Sized(s: State) {
    && (forall x :: x in s.list ==> NodeSize(x) <= PAYLOAD)
    && (forall p :: 0 <= p < |s.procs| ==> Small(s.procs[p]))
  }

  lemma SmallStep(pc: Pc, s: State, c: Choice)
    requires Small(pc) && (c.CallSend? ==> |c.msg.body| <= PAYLOAD)
    ensures var e := ProcessStep(pc, s, c); Small(e.pc) && (e.op.Push? ==> |e.op.msg.body| <= PAYLOAD)
  {
  }

  lemma SizedStep(s: State, mv: Move)
    requires Sized(s) && (mv.choice.CallSend? ==> |mv.choice.msg.body| <= PAYLOAD)
    ensures Sized(Step(s, mv))
  {
    if Acts(s, mv) {
      var s', e := Step(s, mv), ProcessStep(s.procs[mv.p], s, mv.choice);
      SmallStep(s.procs[mv.p], s, mv.choice);
      if e.op.Remove? { WithoutWithin(s.list, e.op.node); }
      forall p: nat | p < |s'.procs| ensures Small(s'.procs[p]) {
        assert s'.procs[p] == Rouse(e.wake, if p == mv.p then e.pc else s.procs[p]);
      }
    }
  }

  // Receives whose entry was unlinked by another receive.

  /** 1 for a receive that relies on an entry which is no longer queued. */
  function Stale(list: seq<Node>, pc: Pc): int {
    match pc
    case Selected(_, node) => if node in list then 0 else 1
    case SubVol(node) => if node in list then 0 else 1
    case SubCount(node) => if node in list then 0 else 1
    case Unlink(node) => if node in list then 0 else 1
    case _ => 0
  }

  function StaleIn(list: seq<Node>): Pc -> int { pc => Stale(list, pc) }

  /** Of as many receives as may be in flight, never all are stale: an entry becomes stale for others only by the
      list_del that ends the receive which does it. */
  ghost predicate SomeFresh(receives: nat, s: State) {
    Sum(StaleIn(s.list), s.procs) <= receives - 1
  }

  lemma OwnStale(s: State, pc: Pc, c: Choice)
    ensures Stale(s.list, ProcessStep(pc, s, c).pc) <= Stale(s.list, pc)
  {
  }

  /** As long as nothing is unlinked, no receive becomes stale. */
  lemma StaleKept(s: State, mv: Move, q: nat)
    requires Acts(s, mv) && q < |s.procs| && !ProcessStep(s.procs[mv.p], s, mv.choice).op.Remove?
    ensures Stale(Step(s, mv).list, Step(s, mv).procs[q]) <= Stale(s.list, s.procs[q])
  {
    var s', e := Step(s, mv), ProcessStep(s.procs[mv.p], s, mv.choice);
    OwnStale(s, s.procs[mv.p], mv.choice);
    assert s'.procs[q] == Rouse(e.wake, if q == mv.p then e.pc else s.procs[q]);
    assert s.list <= s'.list;
  }

  lemma StaleStep(receives: nat, s: State, mv: Move)
    requires receives >= 1 && SomeFresh(receives, s) && AtMostReceiving(receives, s)
    ensures SomeFresh(receives, Step(s, mv))
  {
    hide Removed, Sum;
    var s' := Step(s, mv);
    if Acts(s, mv) {
      var e := ProcessStep(s.procs[mv.p], s, mv.choice);
      if e.op.Remove? {
        RousedSum(Receiving, e.wake, s.procs, mv.p, e.pc);
        SumLeq(StaleIn(s'.list), s'.procs, Receiving, s'.procs);
      } else {
        forall q | 0 <= q < |s.procs| ensures StaleIn(s'.list)(s'.procs[q]) <= StaleIn(s.list)(s.procs[q]) {
          StaleKept(s, mv, q);
        }
        SumLeq(StaleIn(s'.list), s'.procs, StaleIn(s.list), s.procs);
      }
    }
  }

  // The bound.

  /** Sends that have added their size and not yet their count. */
  function Counting(pc: Pc): int { if pc.AddCount? then 1 else 0 }

  function Unlinking(pc: Pc): int { if pc.Unlink? then 1 else 0 }

  function Weight(pc: Pc): int { CountShare(pc) + Counting(pc) }

  function VolAllowance(pc: Pc): int { PAYLOAD * (Weight(pc) + Unlinking(pc)) }

  lemma AllowanceSum(procs: seq<Pc>)
    ensures Sum(VolAllowance, procs) == PAYLOAD * (Sum(CountShare, procs) + Sum(Counting, procs) + Sum(Unlinking, procs))
  {
    SumScaled(PAYLOAD, Weight, Unlinking, VolAllowance, procs);
    SumScaled(1, CountShare, Counting, Weight, procs);
  }

  lemma SharesAllowed(procs: seq<Pc>)
    requires forall p :: 0 <= p < |procs| ==> Small(procs[p])
    ensures Sum(VolShare, procs) <= Sum(VolAllowance, procs)
  {
    SumLeq(VolShare, procs, VolAllowance, procs);
  }

  /** A receiver about to unlink a queued entry has taken that entry's size out of the volume. */
  lemma FreshUnlink(s: State, p: nat)
    requires Sized(s) && p < |s.procs| && s.procs[p].Unlink? && s.procs[p].node in s.list
    ensures Sum(NodeSize, s.list) + Sum(VolShare, s.procs) <= PAYLOAD * (|s.list| - 1) + Sum(VolAllowance, s.procs)
  {
    var node, rest := s.procs[p].node, s.procs[p := Idle];
    WithoutSum(s.list, node);
    WithoutWithin(s.list, node);
    assert forall i :: 0 <= i < |s.list| - 1 ==> Without(s.list, node)[i] in s.list;
    SumAtMost(NodeSize, PAYLOAD, Without(s.list, node));
    SumUpdate(VolShare, s.procs, p, Idle);
    SumUpdate(VolAllowance, s.procs, p, Idle);
    SharesAllowed(rest);
  }

  lemma SomeFreshUnlink(receives: nat, s: State) returns (p: nat)
    requires SomeFresh(receives, s) && Sum(Unlinking, s.procs) >= receives
    ensures p < |s.procs| && s.procs[p].Unlink? && s.procs[p].node in s.list
  {
    if forall q :: 0 <= q < |s.procs| ==> Unlinking(s.procs[q]) <= StaleIn(s.list)(s.procs[q]) {
      SumLeq(Unlinking, s.procs, StaleIn(s.list), s.procs);
      assert false;
    } else {
      p :| 0 <= p < |s.procs| && Unlinking(s.procs[p]) > StaleIn(s.list)(s.procs[p]);
    }
  }

  /** queue_vol is at most 128 bytes for every message counted or about to be counted, and for every receive in
      flight but one. */
  lemma VolumePerMessage(receives: nat, s: State)
    requires Accounted(s) && Sized(s) && receives >= 1 && SomeFresh(receives, s) && AtMostReceiving(receives, s)
    ensures s.vol <= PAYLOAD * (s.count + Sum(Counting, s.procs) + receives - 1)
  {
    AllowanceSum(s.procs);
    if Sum(Unlinking, s.procs) <= receives - 1 {
      SumAtMost(NodeSize, PAYLOAD, s.list);
      SharesAllowed(s.procs);
    } else {
      SumLeq(Unlinking, s.procs, Receiving, s.procs);
      var p := SomeFreshUnlink(receives, s);
      FreshUnlink(s, p);
    }
  }

  // Over every run.

  function AtLeastOne(n: nat): nat { if n == 0 then 1 else n }

  ghost predicate Limited(sends: nat, receives: nat, s: State) {
    && Accounted(s) && Sized(s) && SomeFresh(AtLeastOne(receives), s)
    && s.count + Sum(Pending, s.procs) <= MAXMSG + sends
  }

  /** The runs the limits are about: library-sized messages, so many sends and receives in flight at a time, and so
      many users. */
  ghost predicate LibraryRun(sends: nat, receives: nat, users: nat, n: nat, moves: seq<Move>) {
    && LibrarySized(moves)
    && Along(s => AtMostUsers(users, s), Start(n), moves)
    && Along(s => AtMost(sends, s), Start(n), moves)
    && Along(s => AtMostReceiving(receives, s), Start(n), moves)
  }

  lemma {:induction false} LimitedRun(sends: nat, receives: nat, users: nat, s: State, moves: seq<Move>)
    requires Limited(sends, receives, s) && LibrarySized(moves)
    requires users < MAXPROC && Along(t => AtMostUsers(users, t), s, moves)
    requires Along(t => AtMost(sends, t), s, moves) && Along(t => AtMostReceiving(receives, t), s, moves)
    ensures Limited(sends, receives, Run(s, moves))
    ensures AtMost(sends, Run(s, moves)) && AtMostReceiving(receives, Run(s, moves))
    decreases |moves|
  {
    assert AtMost(sends, s) && AtMostReceiving(receives, s) && AtMostUsers(users, s);
    if moves != [] {
      var s' := Step(s, moves[0]);
      assert AtMost(sends, s');
      AccountedStep(s, moves[0]);
      SizedStep(s, moves[0]);
      StaleStep(AtLeastOne(receives), s, moves[0]);
      OvershootStep(s, moves[0], sends);
      forall i | 0 <= i < |moves[1..]|
        ensures moves[1..][i].choice.CallSend? ==> |moves[1..][i].choice.msg.body| <= PAYLOAD
      {
        assert moves[1..][i] == moves[i + 1];
      }
      LimitedRun(sends, receives, users, s', moves[1..]);
    }
  }

  lemma Reached(sends: nat, receives: nat, users: nat, n: nat, moves: seq<Move>) returns (s: State)
    requires LibraryRun(sends, receives, users, n, moves) && users < MAXPROC
    ensures s == Run(Start(n), moves) && Limited(sends, receives, s) && AtMost(sends, s) && AtMostReceiving(receives, s)
    ensures s.vol <= PAYLOAD * (s.count + Sum(Counting, s.procs) + AtLeastOne(receives) - 1)
  {
    s := Run(Start(n), moves);
    StartSums(n, CountShare);
    StartSums(n, VolShare);
    StartSums(n, Pending);
    StartSums(n, StaleIn([]));
    LimitedRun(sends, receives, users, Start(n), moves);
    VolumePerMessage(AtLeastOne(receives), s);
  }

  /** queue_vol stays within 128 bytes for each message that the sends in flight, and the receives in flight but
      one, allow beyond KUIPC_MAXMSG. */
  lemma VolumeOvershoot(sends: nat, receives: nat, users: nat, n: nat, moves: seq<Move>)
    requires LibraryRun(sends, receives, users, n, moves) && users < MAXPROC
    ensures Run(Start(n), moves).vol <= PAYLOAD * (MAXMSG + sends + AtLeastOne(receives) - 1)
  {
    var s := Reached(sends, receives, users, n, moves);
    SumLeq(Counting, s.procs, Pending, s.procs);
  }

  /** A sender is at its volume test and the test refuses it. */
  ghost predicate VolumeRefuses(s: State) {
    exists p :: 0 <= p < |s.procs| && (s.procs[p].TestVol? || s.procs[p].WaitVol? || s.procs[p].SignalVol?)
             && s.vol + |s.procs[p].m.body| >= MAXVOL
  }

  lemma SenderCounts(sends: nat, s: State, p: nat)
    requires AtMost(sends, s) && p < |s.procs|
    ensures Sending(s.procs[p]) <= sends
  {
    SumUpdate(Sending, s.procs, p, Idle);
    SumZero((pc: Pc) => 0, s.procs[p := Idle]);
    SumLeq((pc: Pc) => 0, s.procs[p := Idle], Sending, s.procs[p := Idle]);
  }

  lemma NeverRefused(sends: nat, receives: nat, users: nat, n: nat, moves: seq<Move>)
    requires LibraryRun(sends, receives, users, n, moves)
    requires sends + AtLeastOne(receives) <= 10 && users < MAXPROC
    ensures !VolumeRefuses(Run(Start(n), moves))
  {
    var s := Reached(sends, receives, users, n, moves);
    forall p | 0 <= p < |s.procs| && (s.procs[p].TestVol? || s.procs[p].WaitVol? || s.procs[p].SignalVol?)
      ensures s.vol + |s.procs[p].m.body| < MAXVOL
    {
      var rest := s.procs[p := Idle];
      SumUpdate(Counting, s.procs, p, Idle);
      SumUpdate(Pending, s.procs, p, Idle);
      SumLeq(Counting, rest, Pending, rest);
      assert Small(s.procs[p]);
    }
  }

  // No send, or a single one at a time.

  lemma {:induction false} AtEnd(sends: nat, s: State, moves: seq<Move>)
    requires Along(t => AtMost(sends, t), s, moves)
    ensures AtMost(sends, Run(s, moves))
    decreases |moves|
  {
    assert AtMost(sends, s);
    if moves != [] {
      AtEnd(sends, Step(s, moves[0]), moves[1..]);
    }
  }

  lemma NoSendNoRefusal(receives: nat, users: nat, n: nat, moves: seq<Move>)
    requires LibraryRun(0, receives, users, n, moves)
    ensures !VolumeRefuses(Run(Start(n), moves))
  {
    var s := Run(Start(n), moves);
    AtEnd(0, Start(n), moves);
    forall p: nat | p < |s.procs| ensures Sending(s.procs[p]) == 0 {
      SenderCounts(0, s, p);
    }
  }

  /** The volume is below its limit and stays so when the sends that passed their test add to it. */
  ghost predicate Below(s: State) {
    s.vol < MAXVOL && forall p :: 0 <= p < |s.procs| && s.procs[p].AddVol? ==> s.vol + |s.procs[p].m.body| < MAXVOL
  }

  lemma TwoSending(s: State, p: nat, q: nat)
    requires p < |s.procs| && q < |s.procs| && p != q && AtMost(1, s) && Sending(s.procs[p]) == 1
    ensures Sending(s.procs[q]) == 0
  {
    var rest := s.procs[p := Idle];
    SumUpdate(Sending, s.procs, p, Idle);
    SumUpdate(Sending, rest, q, Idle);
    SumZero((pc: Pc) => 0, rest[q := Idle]);
    SumLeq((pc: Pc) => 0, rest[q := Idle], Sending, rest[q := Idle]);
  }

  lemma BelowStep(s: State, mv: Move)
    requires Below(s) && AtMost(1, s)
    ensures Below(Step(s, mv))
  {
    if Acts(s, mv) {
      var s', e := Step(s, mv), ProcessStep(s.procs[mv.p], s, mv.choice);
      assert e.dVol > 0 ==> s.procs[mv.p].AddVol? && Sending(s.procs[mv.p]) == 1;
      forall p: nat | p < |s'.procs| && s'.procs[p].AddVol? ensures s'.vol + |s'.procs[p].m.body| < MAXVOL {
        assert s'.procs[p] == Rouse(e.wake, if p == mv.p then e.pc else s.procs[p]);
        if p != mv.p {
          TwoSending(s, p, mv.p);
        }
      }
    }
  }

  lemma {:induction false} BelowRun(s: State, moves: seq<Move>)
    requires Below(s) && Along(t => AtMost(1, t), s, moves)
    ensures Below(Run(s, moves))
    decreases |moves|
  {
    if moves != [] {
      assert AtMost(1, s);
      BelowStep(s, moves[0]);
      BelowRun(Step(s, moves[0]), moves[1..]);
    }
  }

  lemma StaysBelow(sends: nat, receives: nat, users: nat, n: nat, moves: seq<Move>)
    requires LibraryRun(sends, receives, users, n, moves)
    requires sends <= 1 || (sends + AtLeastOne(receives) <= 10 && users < MAXPROC)
    ensures Run(Start(n), moves).vol < MAXVOL
  {
    if sends <= 1 {
      MoreSendsAllowed(sends, 1, Start(n), moves);
      BelowRun(Start(n), moves);
    } else {
      VolumeOvershoot(sends, receives, users, n, moves);
    }
  }

  lemma {:induction false} MoreSendsAllowed(few: nat, sends: nat, s: State, moves: seq<Move>)
    requires few <= sends && Along(t => AtMost(few, t), s, moves)
    ensures Along(t => AtMost(sends, t), s, moves)
    decreases |moves|
  {
    assert AtMost(few, s);
    if moves != [] {
      MoreSendsAllowed(few, sends, Step(s, moves[0]), moves[1..]);
    }
  }
}
