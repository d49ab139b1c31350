/** A call of the step machine that nobody interrupts does what the sequential mailbox says. */
module IpcSolo {
  import opened Messages
  import opened Registry
  import opened IpcProtocol
  import opened IpcMailbox

  function Msgs(list: seq<Node>): seq<Message> {
    seq(|list|, i requires 0 <= i < |list| => list[i].msg)
  }

  /** The step machine's queue as a mailbox. */
  function QueueOf(s: State): Queue {
    Queue(Msgs(s.list), s.users, s.count, s.vol)
  }

  /** Process p runs on its own until its call returns, for at most k steps; the environment answers every
      question with c, so `Fail` is a copy that fails. */
  function Finish(s: State, p: nat, c: Choice, k: nat): State
    decreases k
  {
    if k == 0 || p >= |s.procs| || s.procs[p] == Idle then s else Finish(Step(s, Move(p, c)), p, c, k - 1)
  }

  lemma FinishStep(s: State, p: nat, c: Choice, k: nat)
    requires p < |s.procs| && s.procs[p] != Idle && k >= 1
    ensures Finish(s, p, c, k) == Finish(Step(s, Move(p, c)), p, c, k - 1)
  {
  }

  /** A step that wakes nobody and leaves the list alone. */
  lemma Quiet(s: State, t: State, p: nat, pc: Pc, c: Choice, e: Effect, k: nat)
    requires p < |s.procs| && Calm(s) && !UsesBadEntry(pc, s.list) && pc != Idle && k >= 1
    requires e == ProcessStep(pc, s, c) && e.wake == Nobody && e.op == Keep
    requires t == s.(count := s.count + e.dCount, vol := s.vol + e.dVol)
    ensures Finish(At(s, p, pc), p, c, k) == Finish(At(t, p, e.pc), p, c, k - 1)
  {
    assert Acquires(pc) ==> Unheld(s.procs[p := pc]);
    QuietStep(s, t, p, pc, c, e);
    FinishStep(At(s, p, pc), p, c, k);
  }

  /** A step that changes only where the process stands. */
  lemma Silent(s: State, p: nat, pc: Pc, c: Choice, next: Pc, k: nat)
    requires p < |s.procs| && Calm(s) && !UsesBadEntry(pc, s.list) && pc != Idle && k >= 1
    requires ProcessStep(pc, s, c) == Goto(next)
    ensures Finish(At(s, p, pc), p, c, k) == Finish(At(s, p, next), p, c, k - 1)
  {
    Quiet(s, s, p, pc, c, Goto(next), k);
  }

  lemma Started(s: State, p: nat, call: Choice, pc: Pc)
    requires p < |s.procs| && Calm(s) && s.procs[p] == Idle && ProcessStep(Idle, s, call) == Goto(pc)
    ensures Step(s, Move(p, call)) == At(s, p, pc)
  {
    AtSelf(s, p);
    QuietStep(s, s, p, Idle, call, Goto(pc));
  }

  /** A call that returned has nothing left to do. */
  lemma Returned(s: State, p: nat, c: Choice, k: nat)
    requires p < |s.procs| && s.procs[p] == Idle
    ensures At(s, p, Idle) == s && Finish(s, p, c, k) == s
  {
    AtSelf(s, p);
  }

  /** The last step of a call: the wake-up. */
  lemma Woken(s: State, p: nat, pc: Pc, c: Choice, k: nat) returns (t: State)
    requires p < |s.procs| && !s.fault && (pc == WakeSenders || pc == WakeReceivers) && k >= 1
    ensures Finish(At(s, p, pc), p, c, k) == t && |t.procs| == |s.procs| && t.procs[p] == Idle
    ensures t.list == s.list && t.users == s.users && t.count == s.count && t.vol == s.vol && t.delivered == s.delivered
  {
    t := Step(At(s, p, pc), Move(p, c));
    assert t.procs[p] == Idle;
    FinishStep(At(s, p, pc), p, c, k);
    Returned(t, p, c, k - 1);
  }

  lemma SendRefused(s: State, p: nat, m: Message, c: Choice, k: nat)
    requires p < |s.procs| && Calm(s) && s.procs[p] == Idle && Full(s.count, s.vol, |m.body|) && k >= 2
    ensures Finish(Step(s, Move(p, CallSend(m, false))), p, c, k) == s
  {
    hide Finish, Step;
    Started(s, p, CallSend(m, false), TestCount(m, false));
    if s.count <= MAXMSG {
      Silent(s, p, TestCount(m, false), c, TestVol(m, false), k);
      Silent(s, p, TestVol(m, false), c, Idle, k - 1);
      Returned(s, p, c, k - 2);
    } else {
      Silent(s, p, TestCount(m, false), c, Idle, k);
      Returned(s, p, c, k - 1);
    }
  }

  /** The queue after a close by process p. */
  function Closed(s: State, p: nat): State {
    s.(users := Removed(s.users, p), count := CountAfterClose(s.users, p, s.count))
  }

  lemma LeaveStep(s: State, p: nat)
    requires p < |s.procs| && Calm(s) && s.procs[p] == Idle
    ensures Step(At(s, p, Closing), Move(p, Signal)) == Closed(s, p)
  {
    hide LastIndex;
    var before := At(s, p, Closing);
    assert before.procs[p := Idle] == s.procs;
    assert RouseAll(Nobody, s.procs) == s.procs;
  }

  /** The close that a signal forces. */
  lemma ClosingEnds(s: State, p: nat, k: nat)
    requires p < |s.procs| && Calm(s) && s.procs[p] == Idle && k >= 1
    ensures Finish(At(s, p, Closing), p, Signal, k) == Closed(s, p)
  {
    hide Finish, Step;
    FinishStep(At(s, p, Closing), p, Signal, k);
    LeaveStep(s, p);
    Returned(Closed(s, p), p, Signal, k - 1);
  }

  /** A signal ends the sleep of a send that still has no room. */
  lemma AsleepEnds(s: State, p: nat, m: Message, woken: bool, k: nat)
    requires p < |s.procs| && Calm(s) && s.procs[p] == Idle && Full(s.count, s.vol, |m.body|) && k >= 4
    ensures Finish(At(s, p, SendAsleep(m, woken)), p, Signal, k) == Closed(s, p)
  {
    hide Finish, Step;
    Silent(s, p, SendAsleep(m, woken), Signal, SignalCount(m), k);
    if s.count <= MAXMSG {
      Silent(s, p, SignalCount(m), Signal, SignalVol(m), k - 1);
      Silent(s, p, SignalVol(m), Signal, Closing, k - 2);
      ClosingEnds(s, p, k - 3);
    } else {
      Silent(s, p, SignalCount(m), Signal, Closing, k - 1);
      ClosingEnds(s, p, k - 2);
    }
  }

  /** A waiting send without room tests twice at most and falls asleep; a wake-up that came meanwhile is not forgotten. */
  lemma RefusedSleeps(s: State, p: nat, m: Message, woken: bool, pc: Pc, c: Choice, k: nat) returns (j: nat)
    requires p < |s.procs| && Calm(s) && k >= 2
    requires (pc == WaitCount(m, woken) && s.count > 10) || s.vol + |m.body| >= 2560
    requires pc == WaitCount(m, woken) || pc == WaitVol(m, woken)
    ensures k - 2 <= j < k
    ensures Finish(At(s, p, pc), p, c, k) == Finish(At(s, p, SendAsleep(m, woken)), p, c, j)
  {
    hide Finish, Step;
    j := k;
    if pc.WaitCount? && s.count <= MAXMSG {
      Silent(s, p, pc, c, WaitVol(m, woken), k);
      j := k - 1;
    }
    Silent(s, p, if j < k then WaitVol(m, woken) else pc, c, SendAsleep(m, woken), j);
    j := j - 1;
  }

  /** A send that has to wait sleeps until a signal ends it, and closes the queue. */
  lemma SendSleeps(s: State, p: nat, m: Message, k: nat)
    requires p < |s.procs| && Calm(s) && s.procs[p] == Idle && Full(s.count, s.vol, |m.body|) && k >= 8
    ensures Finish(Step(s, Move(p, CallSend(m, true))), p, Signal, k) == Closed(s, p)
  {
    hide Finish, Step;
    Started(s, p, CallSend(m, true), TestCount(m, true));
    var j := k - 1;
    if s.count <= MAXMSG {
      Silent(s, p, TestCount(m, true), Signal, TestVol(m, true), k);
      Silent(s, p, TestVol(m, true), Signal, WaitCount(m, false), k - 1);
      j := k - 2;
    } else {
      Silent(s, p, TestCount(m, true), Signal, WaitCount(m, false), k);
    }
    j := RefusedSleeps(s, p, m, false, WaitCount(m, false), Signal, j);
    AsleepEnds(s, p, m, false, j);
  }

  lemma SendAccounts(s: State, u: State, p: nat, m: Message, c: Choice, k: nat)
    requires p < |s.procs| && Calm(s) && k >= 2 && u == s.(count := s.count + 1, vol := s.vol + |m.body|)
    ensures Finish(At(s, p, AddVol(m)), p, c, k) == Finish(At(u, p, CopyIn(m)), p, c, k - 2)
  {
    hide Finish, Step;
    var v := s.(vol := s.vol + |m.body|);
    Quiet(s, v, p, AddVol(m), c, Effect(AddCount(m), 0, |m.body|, Keep, Nobody), k);
    Quiet(v, u, p, AddCount(m), c, Effect(CopyIn(m), 1, 0, Keep, Nobody), k - 1);
  }

  lemma SendRollsBack(s: State, p: nat, m: Message, k: nat) returns (t: State)
    requires p < |s.procs| && Calm(s) && k >= 4
    ensures Finish(At(s, p, CopyIn(m)), p, Fail, k) == t && |t.procs| == |s.procs| && t.procs[p] == Idle
    ensures t.list == s.list && t.users == s.users && t.count == s.count - 1 && t.vol == s.vol - |m.body|
  {
    hide Finish, Step;
    var u := s.(vol := s.vol - |m.body|);
    var v := u.(count := u.count - 1);
    Silent(s, p, CopyIn(m), Fail, UndoVol(m), k);
    Quiet(s, u, p, UndoVol(m), Fail, Effect(UndoCount(m), 0, -|m.body|, Keep, Nobody), k - 1);
    Quiet(u, v, p, UndoCount(m), Fail, Effect(WakeSenders, -1, 0, Keep, Nobody), k - 2);
    t := Woken(v, p, WakeSenders, Fail, k - 3);
  }

  lemma AppendStep(s: State, v: State, p: nat, m: Message, c: Choice)
    requires p < |s.procs| && !s.fault
    requires var x := Node(|s.appended|, m); v == s.(list := s.list + [x], appended := s.appended + [x])
    ensures Step(At(s, p, Append(m)), Move(p, c)) == At(v, p, WakeReceivers)
  {
    var before := At(s, p, Append(m));
    assert before.procs[p := WakeReceivers] == s.procs[p := WakeReceivers];
    assert Step(before, Move(p, c)) == Apply(before, p, Effect(WakeReceivers, 0, 0, Push(m), Nobody));
    assert RouseAll(Nobody, s.procs[p := WakeReceivers]) == s.procs[p := WakeReceivers];
  }

  lemma SendAppends(s: State, p: nat, m: Message, c: Choice, k: nat) returns (t: State)
    requires p < |s.procs| && Calm(s) && c != Fail && k >= 3
    ensures Finish(At(s, p, CopyIn(m)), p, c, k) == t && |t.procs| == |s.procs| && t.procs[p] == Idle
    ensures t.list == s.list + [Node(|s.appended|, m)] && t.users == s.users && t.count == s.count && t.vol == s.vol
  {
    hide Finish;
    var x := Node(|s.appended|, m);
    var v := s.(list := s.list + [x], appended := s.appended + [x]);
    Silent(s, p, CopyIn(m), c, Append(m), k);
    AppendStep(s, v, p, m, c);
    FinishStep(At(s, p, Append(m)), p, c, k - 1);
    t := Woken(v, p, WakeReceivers, c, k - 2);
  }

  /** What a send that found room does: the message is appended and counted, unless its copy fails, and then nothing
      has changed. */
  ghost predicate SentOrUndone(s: State, t: State, p: nat, m: Message, copied: bool) {
    && |t.procs| == |s.procs| && p < |t.procs| && t.procs[p] == Idle && t.users == s.users
    && (if copied
        then t.list == s.list + [Node(|s.appended|, m)] && t.count == s.count + 1 && t.vol == s.vol + |m.body|
        else t.list == s.list && t.count == s.count && t.vol == s.vol)
  }

  lemma SendGoes(s: State, p: nat, m: Message, c: Choice, k: nat) returns (t: State)
    requires p < |s.procs| && Calm(s) && k >= 6
    ensures t == Finish(At(s, p, AddVol(m)), p, c, k) && SentOrUndone(s, t, p, m, c != Fail)
  {
    hide Finish, Step;
    var u := s.(count := s.count + 1, vol := s.vol + |m.body|);
    SendAccounts(s, u, p, m, c, k);
    if c != Fail {
      t := SendAppends(u, p, m, c, k - 2);
    } else {
      t := SendRollsBack(u, p, m, k - 2);
    }
  }

  /** The process is at a test of a send for room. */
  predicate TestsRoom(pc: Pc, m: Message) {
    (pc.TestCount? || pc.TestVol? || pc.WaitCount? || pc.WaitVol? || pc.SignalCount? || pc.SignalVol?) && pc.m == m
  }

  /** The count has already been tested. */
  predicate AtVolume(pc: Pc) { pc.TestVol? || pc.WaitVol? || pc.SignalVol? }

  /** The second test that follows the first. */
  function ThenVolume(pc: Pc): Pc {
    match pc
    case TestCount(m, wait) => TestVol(m, wait)
    case WaitCount(m, woken) => WaitVol(m, woken)
    case SignalCount(m) => SignalVol(m)
    case _ => pc
  }

  /** A send that finds room, at its first tests, while it waits or after a signal, goes through with its call. */
  lemma AdmittedSend(s: State, p: nat, m: Message, pc: Pc, c: Choice, k: nat) returns (t: State)
    requires p < |s.procs| && Calm(s) && k >= 8 && TestsRoom(pc, m)
    requires (s.count <= 10 || AtVolume(pc)) && s.vol + |m.body| < 2560
    ensures t == Finish(At(s, p, pc), p, c, k) && SentOrUndone(s, t, p, m, c != Fail)
  {
    hide Finish, Step;
    var j := k;
    if !AtVolume(pc) {
      Silent(s, p, pc, c, ThenVolume(pc), k);
      j := k - 1;
    }
    Silent(s, p, ThenVolume(pc), c, AddVol(m), j);
    t := SendGoes(s, p, m, c, j - 1);
  }

  lemma {:induction false} StaysAsleep(s: State, p: nat, pc: Pc, c: Choice, k: nat)
    requires p < |s.procs| && Calm(s) && (pc.SendAsleep? || pc.RecvAsleep?) && !pc.woken && c != Signal
    ensures Finish(At(s, p, pc), p, c, k) == At(s, p, pc)
  {
    if k > 0 {
      Silent(s, p, pc, c, pc, k);
      StaysAsleep(s, p, pc, c, k - 1);
    }
  }

  /** A sleeping send that is woken or gets a signal: if it finds room it goes through with its call; if it finds none
      it sleeps again, or after a signal closes the queue. */
  lemma ResumedSend(s: State, p: nat, m: Message, woken: bool, c: Choice, k: nat) returns (t: State)
    requires p < |s.procs| && Calm(s) && s.procs[p] == Idle && (woken || c == Signal) && k >= 9
    ensures t == Finish(At(s, p, SendAsleep(m, woken)), p, c, k)
    ensures if s.count <= 10 && s.vol + |m.body| < 2560 then SentOrUndone(s, t, p, m, c != Fail)
            else if c == Signal then t == Closed(s, p)
            else t == At(s, p, SendAsleep(m, false))
  {
    hide Finish, Step;
    if Full(s.count, s.vol, |m.body|) {
      if c == Signal {
        AsleepEnds(s, p, m, woken, k);
        t := Closed(s, p);
      } else {
        Silent(s, p, SendAsleep(m, true), c, WaitCount(m, false), k);
        var j := RefusedSleeps(s, p, m, false, WaitCount(m, false), c, k - 1);
        StaysAsleep(s, p, SendAsleep(m, false), c, j);
        t := At(s, p, SendAsleep(m, false));
      }
    } else {
      var pc := if c == Signal then SignalCount(m) else WaitCount(m, false);
      Silent(s, p, SendAsleep(m, woken), c, pc, k);
      t := AdmittedSend(s, p, m, pc, c, k - 1);
    }
  }

  /** An uninterrupted message_send is the mailbox's send, for one that has to wait up to the signal that ends its
      sleep. */
  lemma SoloSend(s: State, p: nat, m: Message, wait: bool, copied: bool, k: nat) returns (t: State)
    requires p < |s.procs| && Calm(s) && s.procs[p] == Idle && k >= 8
    ensures var sleeps := wait && Full(s.count, s.vol, |m.body|);
            t == Finish(Step(s, Move(p, CallSend(m, wait))), p, if sleeps then Signal else if copied then Go else Fail, k)
    ensures |t.procs| == |s.procs| && t.procs[p] == Idle
    ensures QueueOf(t) == Send(QueueOf(s), p, m, wait, copied).q
  {
    hide Finish, Step;
    if Full(s.count, s.vol, |m.body|) {
      if wait {
        SendSleeps(s, p, m, k);
        t := Closed(s, p);
        MailboxCloses(s, p);
      } else {
        SendRefused(s, p, m, if copied then Go else Fail, k);
        t := s;
      }
    } else {
      Started(s, p, CallSend(m, wait), TestCount(m, wait));
      t := AdmittedSend(s, p, m, TestCount(m, wait), if copied then Go else Fail, k);
      assert Msgs(s.list + [Node(|s.appended|, m)]) == Msgs(s.list) + [m];
    }
  }

  lemma MailboxCloses(s: State, p: nat)
    ensures QueueOf(Closed(s, p)) == Close(QueueOf(s), p).q
  {
  }

  /** An open or a close is the mailbox's. */
  lemma SoloRegistry(s: State, p: nat, qid: int)
    requires p < |s.procs| && Calm(s) && s.procs[p] == Idle
    ensures QueueOf(Step(s, Move(p, CallOpen(false)))) == Create(QueueOf(s), qid, p).q
    ensures QueueOf(Step(s, Move(p, CallOpen(true)))) == Excl(QueueOf(s), qid, p).q
    ensures QueueOf(Step(s, Move(p, CallClose))) == Close(QueueOf(s), p).q
  {
    assert s.users == [] ==> s.users + [p] == [p];
  }

  lemma {:induction false} SameSelection(list: seq<Node>, typ: int)
    ensures FirstWanted(typ, NodeType, list) == FirstWanted(typ, TypeOf, Msgs(list))
  {
    if list != [] {
      assert Msgs(list)[1..] == Msgs(list[1..]);
      SameSelection(list[1..], typ);
    }
  }

  lemma {:induction false} WithoutAt(list: seq<Node>, i: nat)
    requires i < |list| && forall j :: 0 <= j < i ==> list[j] != list[i]
    ensures Without(list, list[i]) == list[..i] + list[i + 1..]
  {
    if i > 0 {
      assert list[0] != list[i];
      WithoutAt(list[1..], i - 1);
      assert list[..i] == [list[0]] + list[1..][..i - 1];
    }
  }

  lemma ReceiveDelivers(s: State, u: State, p: nat, r: IpcProtocol.Receive, node: Node, c: Choice, k: nat)
    requires p < |s.procs| && Calm(s) && node in s.list && (|node.msg.body| <= r.cap || r.noerror) && c != Fail && k >= 1
    requires u == s.(delivered := s.delivered + [node])
    ensures Finish(At(s, p, Selected(r, node)), p, c, k) == Finish(At(u, p, SubVol(node)), p, c, k - 1)
  {
    var before := At(s, p, Selected(r, node));
    assert before.procs[p := SubVol(node)] == s.procs[p := SubVol(node)];
    assert Step(before, Move(p, c)) == Apply(before, p, Effect(SubVol(node), 0, 0, Deliver(node), Nobody));
    assert RouseAll(Nobody, s.procs[p := SubVol(node)]) == s.procs[p := SubVol(node)];
    FinishStep(before, p, c, k);
  }

  lemma ReceiveUnaccounts(s: State, u: State, p: nat, node: Node, c: Choice, k: nat)
    requires p < |s.procs| && Calm(s) && node in s.list && k >= 2
    requires u == s.(count := s.count - 1, vol := s.vol - |node.msg.body|)
    ensures Finish(At(s, p, SubVol(node)), p, c, k) == Finish(At(u, p, Unlink(node)), p, c, k - 2)
  {
    hide Finish, Step;
    var v := s.(vol := s.vol - |node.msg.body|);
    Quiet(s, v, p, SubVol(node), c, Effect(SubCount(node), 0, -|node.msg.body|, Keep, Nobody), k);
    Quiet(v, u, p, SubCount(node), c, Effect(Unlink(node), -1, 0, Keep, Nobody), k - 1);
  }

  lemma UnlinkStep(s: State, v: State, p: nat, node: Node, c: Choice)
    requires p < |s.procs| && !s.fault && node in s.list
    requires v == s.(list := Without(s.list, node), removed := s.removed + [node])
    ensures Step(At(s, p, Unlink(node)), Move(p, c)) == At(v, p, WakeSenders)
  {
    hide Without;
    var before := At(s, p, Unlink(node));
    assert before.procs[p := WakeSenders] == s.procs[p := WakeSenders];
    assert Step(before, Move(p, c)) == Apply(before, p, Effect(WakeSenders, 0, 0, Remove(node), Nobody));
    assert RouseAll(Nobody, s.procs[p := WakeSenders]) == s.procs[p := WakeSenders];
  }

  lemma ReceiveUnlinks(s: State, p: nat, node: Node, c: Choice, k: nat) returns (t: State)
    requires p < |s.procs| && !s.fault && node in s.list && k >= 2
    ensures Finish(At(s, p, Unlink(node)), p, c, k) == t && |t.procs| == |s.procs| && t.procs[p] == Idle
    ensures t.list == Without(s.list, node) && t.users == s.users && t.count == s.count && t.vol == s.vol
    ensures t.delivered == s.delivered
  {
    hide Finish;
    var v := s.(list := Without(s.list, node), removed := s.removed + [node]);
    UnlinkStep(s, v, p, node, c);
    FinishStep(At(s, p, Unlink(node)), p, c, k);
    t := Woken(v, p, WakeSenders, c, k - 1);
  }

  /** A receive that finds nothing and does not wait. */
  lemma ReceiveMisses(s: State, p: nat, r: IpcProtocol.Receive, c: Choice, k: nat)
    requires p < |s.procs| && Calm(s) && s.procs[p] == Idle && k >= 1
    requires FirstWanted(r.typ, NodeType, s.list) == |s.list| && !r.wait
    ensures Finish(Step(s, Move(p, CallReceive(r))), p, c, k) == s
  {
    hide Finish, Step;
    Started(s, p, CallReceive(r), Search(r));
    Silent(s, p, Search(r), c, Idle, k);
    Returned(s, p, c, k - 1);
  }

  lemma SelectedRefused(s: State, p: nat, r: IpcProtocol.Receive, node: Node, c: Choice, k: nat)
    requires p < |s.procs| && Calm(s) && s.procs[p] == Idle && node in s.list && k >= 1
    requires (|node.msg.body| > r.cap && !r.noerror) || c == Fail
    ensures Finish(At(s, p, Selected(r, node)), p, c, k) == s
  {
    hide Finish, Step;
    Silent(s, p, Selected(r, node), c, Idle, k);
    Returned(s, p, c, k - 1);
  }

  /** A waiting receive without an entry falls asleep; a wake-up that came meanwhile is not forgotten. */
  lemma MissedSleeps(s: State, p: nat, r: IpcProtocol.Receive, woken: bool, c: Choice, k: nat)
    requires p < |s.procs| && Calm(s) && FirstWanted(r.typ, NodeType, s.list) == |s.list| && k >= 1
    ensures Finish(At(s, p, WaitSearch(r, woken)), p, c, k) == Finish(At(s, p, RecvAsleep(r, woken)), p, c, k - 1)
  {
    hide Finish, Step;
    Silent(s, p, WaitSearch(r, woken), c, RecvAsleep(r, woken), k);
  }

  lemma SleepEnds(s: State, p: nat, r: IpcProtocol.Receive, woken: bool, k: nat)
    requires p < |s.procs| && Calm(s) && s.procs[p] == Idle && FirstWanted(r.typ, NodeType, s.list) == |s.list| && k >= 3
    ensures Finish(At(s, p, RecvAsleep(r, woken)), p, Signal, k) == Closed(s, p)
  {
    hide Finish, Step;
    Silent(s, p, RecvAsleep(r, woken), Signal, SignalSearch(r), k);
    Silent(s, p, SignalSearch(r), Signal, Closing, k - 1);
    ClosingEnds(s, p, k - 2);
  }

  /** A receive that has to wait sleeps until a signal ends it, and closes the queue. */
  lemma ReceiveSleeps(s: State, p: nat, r: IpcProtocol.Receive, k: nat)
    requires p < |s.procs| && Calm(s) && s.procs[p] == Idle && k >= 5
    requires r.wait && FirstWanted(r.typ, NodeType, s.list) == |s.list|
    ensures Finish(Step(s, Move(p, CallReceive(r))), p, Signal, k) == Closed(s, p)
  {
    hide Finish, Step;
    Started(s, p, CallReceive(r), Search(r));
    Silent(s, p, Search(r), Signal, WaitSearch(r, false), k);
    MissedSleeps(s, p, r, false, Signal, k - 1);
    SleepEnds(s, p, r, false, k - 2);
  }

  /** What a receive that found entry i does: it is delivered and taken out of the list and the accounts, unless it
      does not fit or its copy fails, and then nothing has changed. */
  ghost predicate TakenOrLeft(s: State, t: State, p: nat, r: IpcProtocol.Receive, i: nat, copied: bool)
    requires i < |s.list|
  {
    var m := s.list[i].msg;
    && |t.procs| == |s.procs| && p < |t.procs| && t.procs[p] == Idle && t.users == s.users
    && (if (|m.body| <= r.cap || r.noerror) && copied
        then t.list == s.list[..i] + s.list[i + 1..] && t.count == s.count - 1 && t.vol == s.vol - |m.body|
             && t.delivered == s.delivered + [s.list[i]]
        else t.list == s.list && t.count == s.count && t.vol == s.vol && t.delivered == s.delivered)
  }

  lemma ReceiveGoes(s: State, p: nat, r: IpcProtocol.Receive, i: nat, c: Choice, k: nat) returns (t: State)
    requires p < |s.procs| && Calm(s) && s.procs[p] == Idle && i == FirstWanted(r.typ, NodeType, s.list) < |s.list| && k >= 5
    ensures t == Finish(At(s, p, Selected(r, s.list[i])), p, c, k) && TakenOrLeft(s, t, p, r, i, c != Fail)
  {
    hide Finish, Step;
    var node := s.list[i];
    if (|node.msg.body| <= r.cap || r.noerror) && c != Fail {
      var v := s.(delivered := s.delivered + [node]);
      var u := v.(count := v.count - 1, vol := v.vol - |node.msg.body|);
      ReceiveDelivers(s, v, p, r, node, c, k);
      ReceiveUnaccounts(v, u, p, node, c, k - 1);
      t := ReceiveUnlinks(u, p, node, c, k - 3);
      WithoutAt(s.list, i);
    } else {
      SelectedRefused(s, p, r, node, c, k);
      t := s;
    }
  }

  /** The process is at a search of a receive for its entry. */
  predicate Searches(pc: Pc, r: IpcProtocol.Receive) {
    pc == Search(r) || pc == WaitSearch(r, true) || pc == WaitSearch(r, false) || pc == SignalSearch(r)
    || (pc == TakeFirst(r) && r.typ == 0)
  }

  /** A receive whose entry is there, at its first search, while it waits or after a signal, goes through with its call. */
  lemma FoundReceive(s: State, p: nat, r: IpcProtocol.Receive, pc: Pc, i: nat, c: Choice, k: nat) returns (t: State)
    requires p < |s.procs| && Calm(s) && s.procs[p] == Idle && k >= 7 && Searches(pc, r)
    requires i == FirstWanted(r.typ, NodeType, s.list) < |s.list|
    ensures t == Finish(At(s, p, pc), p, c, k) && TakenOrLeft(s, t, p, r, i, c != Fail)
  {
    hide Finish, Step;
    var j := k;
    if r.typ == 0 {
      assert i == 0 by { assert Wanted(0, NodeType(s.list[0])); }
      if pc.WaitSearch? || pc.SignalSearch? {
        Silent(s, p, pc, c, TakeFirst(r), k);
        j := k - 1;
      }
    }
    Silent(s, p, if j < k then TakeFirst(r) else pc, c, Selected(r, s.list[i]), j);
    t := ReceiveGoes(s, p, r, i, c, j - 1);
  }

  /** A sleeping receive that is woken or gets a signal: if a wanted entry is queued it takes the first one; if none is
      it sleeps again, or after a signal closes the queue. */
  lemma ResumedReceive(s: State, p: nat, r: IpcProtocol.Receive, woken: bool, c: Choice, k: nat) returns (t: State)
    requires p < |s.procs| && Calm(s) && s.procs[p] == Idle && (woken || c == Signal) && k >= 8
    ensures t == Finish(At(s, p, RecvAsleep(r, woken)), p, c, k)
    ensures var i := FirstWanted(r.typ, NodeType, s.list);
            if i < |s.list| then TakenOrLeft(s, t, p, r, i, c != Fail)
            else if c == Signal then t == Closed(s, p)
            else t == At(s, p, RecvAsleep(r, false))
  {
    hide Finish, Step;
    var i := FirstWanted(r.typ, NodeType, s.list);
    if c == Signal && i == |s.list| {
      SleepEnds(s, p, r, woken, k);
      t := Closed(s, p);
    } else if i == |s.list| {
      Silent(s, p, RecvAsleep(r, true), c, WaitSearch(r, false), k);
      MissedSleeps(s, p, r, false, c, k - 1);
      StaysAsleep(s, p, RecvAsleep(r, false), c, k - 2);
      t := At(s, p, RecvAsleep(r, false));
    } else {
      var pc := if c == Signal then SignalSearch(r) else WaitSearch(r, false);
      Silent(s, p, RecvAsleep(r, woken), c, pc, k);
      t := FoundReceive(s, p, r, pc, i, c, k - 1);
    }
  }

  /** The mailbox's receive picks the same message and leaves the same queue. */
  lemma MailboxTakes(s: State, t: State, r: IpcProtocol.Receive, i: nat, pid: int)
    requires i == FirstWanted(r.typ, NodeType, s.list) < |s.list| && (|s.list[i].msg.body| <= r.cap || r.noerror)
    requires t.list == s.list[..i] + s.list[i + 1..] && t.users == s.users
    requires t.count == s.count - 1 && t.vol == s.vol - |s.list[i].msg.body|
    ensures QueueOf(t)
            == IpcMailbox.Receive(QueueOf(s), pid, r.typ, r.cap, r.wait, r.noerror, true).q
  {
    SameSelection(s.list, r.typ);
    assert Msgs(t.list) == Msgs(s.list)[..i] + Msgs(s.list)[i + 1..];
  }

  /** An uninterrupted message_receive is the mailbox's receive, for one that has to wait up to the signal that ends its
      sleep. */
  lemma SoloReceive(s: State, p: nat, r: IpcProtocol.Receive, copied: bool, k: nat) returns (t: State)
    requires p < |s.procs| && Calm(s) && s.procs[p] == Idle && k >= 7
    ensures var sleeps := r.wait && FirstWanted(r.typ, NodeType, s.list) == |s.list|;
            t == Finish(Step(s, Move(p, CallReceive(r))), p, if sleeps then Signal else if copied then Go else Fail, k)
    ensures |t.procs| == |s.procs| && t.procs[p] == Idle
    ensures QueueOf(t) == IpcMailbox.Receive(QueueOf(s), p, r.typ, r.cap, r.wait, r.noerror, copied).q
  {
    hide Finish, Step;
    var i := FirstWanted(r.typ, NodeType, s.list);
    var c := if copied then Go else Fail;
    SameSelection(s.list, r.typ);
    if i < |s.list| {
      Started(s, p, CallReceive(r), Search(r));
      t := FoundReceive(s, p, r, Search(r), i, c, k);
      if (|s.list[i].msg.body| <= r.cap || r.noerror) && copied {
        MailboxTakes(s, t, r, i, p);
      } else {
        assert Msgs(t.list) == Msgs(s.list);
      }
    } else if r.wait {
      ReceiveSleeps(s, p, r, k);
      t := Closed(s, p);
      MailboxCloses(s, p);
    } else {
      ReceiveMisses(s, p, r, c, k);
      t := s;
    }
  }
}
