/** No lost wake-up in ku_ipc, over every interleaving and any number of senders and receivers. */
module IpcWakeups {
  import opened Messages
  import opened Registry
  import opened IpcProtocol

  /** The process has freed room in the queue, or is about to finish freeing it, and will wake the senders. */
  predicate WillWakeSenders(pc: Pc) {
    pc.UndoCount? || pc.SubCount? || pc.Unlink? || pc.WakeSenders?
  }

  predicate WillWakeReceivers(pc: Pc) { pc.WakeReceivers? }

  /** A sender asleep although it would be admitted has been woken, or some process still owes it a wake_up. */
  ghost predicate SenderSafe(s: State, p: nat)
    requires p < |s.procs|
  {
    s.procs[p].SendAsleep? ==>
      s.procs[p].woken || Full(s.count, s.vol, |s.procs[p].m.body|)
      || exists q :: 0 <= q < |s.procs| && WillWakeSenders(s.procs[q])
  }

  /** A receiver asleep although a wanted message is queued has been woken, or some process still owes it a wake_up. */
  ghost predicate ReceiverSafe(s: State, p: nat)
    requires p < |s.procs|
  {
    s.procs[p].RecvAsleep? ==>
      s.procs[p].woken || FirstWanted(s.procs[p].r.typ, NodeType, s.list) == |s.list|
      || exists q :: 0 <= q < |s.procs| && WillWakeReceivers(s.procs[q])
  }

  ghost predicate SendersSafe(s: State) {
    forall p :: 0 <= p < |s.procs| ==> SenderSafe(s, p)
  }

  ghost predicate ReceiversSafe(s: State) {
    forall p :: 0 <= p < |s.procs| ==> ReceiverSafe(s, p)
  }

  lemma UnlinkWantsLess(typ: int, list: seq<Node>, node: Node)
    requires FirstWanted(typ, NodeType, list) == |list|
    ensures FirstWanted(typ, NodeType, Without(list, node)) == |Without(list, node)|
  {
    WithoutWithin(list, node);
    forall x | x in Without(list, node) ensures !Wanted(typ, NodeType(x)) {
      var i :| 0 <= i < |list| && list[i] == x;
    }
  }

  /** What one step does to the two wait conditions: room appears only on the way to waking the senders,
      a new entry only on the way to waking the receivers, and a promise to wake ends by waking. */
  ghost predicate KeepsPromises(pc: Pc, s: State, e: Effect) {
    && (e.dCount < 0 || e.dVol < 0 ==> WillWakeSenders(e.pc))
    && (WillWakeSenders(pc) ==> WillWakeSenders(e.pc) || e.wake == Senders)
    && (e.op.Push? ==> WillWakeReceivers(e.pc))
    && (WillWakeReceivers(pc) ==> e.wake == Receivers)
    && (e.pc.SendAsleep? && !e.pc.woken ==>
          e.dCount == e.dVol == 0 && (pc == e.pc || Full(s.count, s.vol, |e.pc.m.body|)))
    && (e.pc.RecvAsleep? && !e.pc.woken ==>
          !e.op.Push? && !e.op.Remove? && (pc == e.pc || FirstWanted(e.pc.r.typ, NodeType, s.list) == |s.list|))
  }

  lemma StepKeepsPromises(pc: Pc, s: State, c: Choice)
    ensures KeepsPromises(pc, s, ProcessStep(pc, s, c))
  {
  }

  /** What a step does to another process: a wake_up marks every waiter on its queue as woken, and nothing else changes. */
  lemma WakeReaches(s: State, mv: Move, q: nat)
    requires mv.p < |s.procs| && q < |s.procs| && q != mv.p
    ensures var senders := CanStep(s, mv.p) && s.procs[mv.p] == WakeSenders;
            var receivers := CanStep(s, mv.p) && s.procs[mv.p] == WakeReceivers;
            && |Step(s, mv).procs| == |s.procs|
            && Step(s, mv).procs[q] == match s.procs[q]
                                       case WaitCount(m, woken) => WaitCount(m, woken || senders)
                                       case WaitVol(m, woken) => WaitVol(m, woken || senders)
                                       case SendAsleep(m, woken) => SendAsleep(m, woken || senders)
                                       case WaitSearch(r, woken) => WaitSearch(r, woken || receivers)
                                       case RecvAsleep(r, woken) => RecvAsleep(r, woken || receivers)
                                       case pc => pc
  {
    WakesOnly(s.procs[mv.p], s, mv.choice);
    OthersRoused(s, mv, q);
    hide ProcessStep, Step;
  }

  lemma OthersRoused(s: State, mv: Move, q: nat)
    requires mv.p < |s.procs| && q < |s.procs| && q != mv.p
    ensures |Step(s, mv).procs| == |s.procs|
    ensures Step(s, mv).procs[q]
            == if Acts(s, mv) then Rouse(ProcessStep(s.procs[mv.p], s, mv.choice).wake, s.procs[q]) else s.procs[q]
  {
    hide ProcessStep, Rouse;
  }

  lemma WakesOnly(pc: Pc, s: State, c: Choice)
    ensures ProcessStep(pc, s, c).wake == if pc == WakeSenders then Senders else if pc == WakeReceivers then Receivers else Nobody
  {
    hide FirstWanted;
  }

  /** An owed wake_up stays owed until it comes, and then every sleeper on that queue is woken. */
  lemma OwedToSenders(s: State, i: nat, e: Effect, p: nat, q: nat)
    requires i < |s.procs| && p < |s.procs| && q < |s.procs| && KeepsPromises(s.procs[i], s, e)
    requires WillWakeSenders(s.procs[q]) && Apply(s, i, e).procs[p].SendAsleep?
    ensures SenderSafe(Apply(s, i, e), p)
  {
    var s' := Apply(s, i, e);
    assert s'.procs[p] == Rouse(e.wake, if p == i then e.pc else s.procs[p]);
    assert s'.procs[q] == Rouse(e.wake, if q == i then e.pc else s.procs[q]);
    if !s'.procs[p].woken { assert WillWakeSenders(s'.procs[q]); }
  }

  lemma SenderRemembered(s: State, i: nat, e: Effect, p: nat)
    requires i < |s.procs| && p < |s.procs| && KeepsPromises(s.procs[i], s, e) && SenderSafe(s, p)
    requires |s.users| < MAXPROC
    ensures SenderSafe(Apply(s, i, e), p)
  {
    var s' := Apply(s, i, e);
    if s'.procs[p].SendAsleep? && !s'.procs[p].woken {
      assert s'.procs[p] == Rouse(e.wake, if p == i then e.pc else s.procs[p]);
      if e.dCount < 0 || e.dVol < 0 {
        assert s'.procs[i] == Rouse(e.wake, e.pc);
        assert WillWakeSenders(s'.procs[i]);
      } else if q :| 0 <= q < |s.procs| && WillWakeSenders(s.procs[q]) {
        OwedToSenders(s, i, e, p, q);
      }
    }
  }

  lemma OwedToReceivers(s: State, i: nat, e: Effect, p: nat, q: nat)
    requires i < |s.procs| && p < |s.procs| && q < |s.procs| && KeepsPromises(s.procs[i], s, e)
    requires WillWakeReceivers(s.procs[q]) && Apply(s, i, e).procs[p].RecvAsleep?
    ensures ReceiverSafe(Apply(s, i, e), p)
  {
    var s' := Apply(s, i, e);
    assert s'.procs[p] == Rouse(e.wake, if p == i then e.pc else s.procs[p]);
    assert s'.procs[q] == Rouse(e.wake, if q == i then e.pc else s.procs[q]);
    if !s'.procs[p].woken { assert WillWakeReceivers(s'.procs[q]); }
  }

  lemma StillUnwanted(s: State, i: nat, e: Effect, typ: int)
    requires i < |s.procs| && !e.op.Push? && FirstWanted(typ, NodeType, s.list) == |s.list|
    ensures FirstWanted(typ, NodeType, Apply(s, i, e).list) == |Apply(s, i, e).list|
  {
    if e.op.Remove? { UnlinkWantsLess(typ, s.list, e.op.node); }
  }

  /** A receiver that sleeps after a step, and to whom nobody owed a wake_up, had nothing to wait for before it. */
  lemma NothingWanted(s: State, i: nat, e: Effect, p: nat)
    requires i < |s.procs| && p < |s.procs| && KeepsPromises(s.procs[i], s, e) && ReceiverSafe(s, p)
    requires Apply(s, i, e).procs[p].RecvAsleep? && !Apply(s, i, e).procs[p].woken
    requires forall q :: 0 <= q < |s.procs| ==> !WillWakeReceivers(s.procs[q])
    ensures FirstWanted(Apply(s, i, e).procs[p].r.typ, NodeType, s.list) == |s.list|
  {
    assert Apply(s, i, e).procs[p] == Rouse(e.wake, if p == i then e.pc else s.procs[p]);
  }

  lemma ReceiverRemembered(s: State, i: nat, e: Effect, p: nat)
    requires i < |s.procs| && p < |s.procs| && KeepsPromises(s.procs[i], s, e) && ReceiverSafe(s, p)
    ensures ReceiverSafe(Apply(s, i, e), p)
  {
    var s' := Apply(s, i, e);
    if s'.procs[p].RecvAsleep? && !s'.procs[p].woken {
      if e.op.Push? {
        assert s'.procs[i] == Rouse(e.wake, e.pc);
        assert WillWakeReceivers(s'.procs[i]);
      } else if q :| 0 <= q < |s.procs| && WillWakeReceivers(s.procs[q]) {
        OwedToReceivers(s, i, e, p, q);
      } else {
        NothingWanted(s, i, e, p);
        StillUnwanted(s, i, e, s'.procs[p].r.typ);
      }
    }
  }

  lemma SendersSafeStep(s: State, mv: Move)
    requires SendersSafe(s) && |s.users| < MAXPROC
    ensures SendersSafe(Step(s, mv))
  {
    var s' := Step(s, mv);
    forall p: nat | p < |s'.procs| ensures SenderSafe(s', p) {
      assert SenderSafe(s, p);
      if Acts(s, mv) {
        StepKeepsPromises(s.procs[mv.p], s, mv.choice);
        SenderRemembered(s, mv.p, ProcessStep(s.procs[mv.p], s, mv.choice), p);
      }
    }
  }

  lemma ReceiversSafeStep(s: State, mv: Move)
    requires ReceiversSafe(s)
    ensures ReceiversSafe(Step(s, mv))
  {
    var s' := Step(s, mv);
    forall p: nat | p < |s'.procs| ensures ReceiverSafe(s', p) {
      assert ReceiverSafe(s, p);
      if Acts(s, mv) {
        StepKeepsPromises(s.procs[mv.p], s, mv.choice);
        ReceiverRemembered(s, mv.p, ProcessStep(s.procs[mv.p], s, mv.choice), p);
      }
    }
  }

  lemma {:induction false} SendersSafeRun(users: nat, s: State, moves: seq<Move>)
    requires SendersSafe(s) && users < MAXPROC && Along(t => AtMostUsers(users, t), s, moves)
    ensures SendersSafe(Run(s, moves))
    decreases |moves|
  {
    if moves != [] {
      SendersSafeStep(s, moves[0]);
      SendersSafeRun(users, Step(s, moves[0]), moves[1..]);
    }
  }

  lemma {:induction false} ReceiversSafeRun(s: State, moves: seq<Move>)
    requires ReceiversSafe(s)
    ensures ReceiversSafe(Run(s, moves))
    decreases |moves|
  {
    if moves != [] {
      ReceiversSafeStep(s, moves[0]);
      ReceiversSafeRun(Step(s, moves[0]), moves[1..]);
    }
  }

  /** With fewer than 16 users, a sender asleep and not woken, although it would now be admitted, has a process on its
      way to wake_up. */
  lemma NoLostSenderWakeup(users: nat, n: nat, moves: seq<Move>, p: nat)
    requires p < n && users < MAXPROC && Along(s => AtMostUsers(users, s), Start(n), moves)
    requires var s := Run(Start(n), moves);
             s.procs[p].SendAsleep? && !s.procs[p].woken && !Full(s.count, s.vol, |s.procs[p].m.body|)
    ensures var s := Run(Start(n), moves);
            exists q :: 0 <= q < n && q != p && WillWakeSenders(s.procs[q])
  {
    SendersSafeRun(users, Start(n), moves);
    assert SenderSafe(Run(Start(n), moves), p);
  }

  /** A receiver asleep and not woken, although a wanted message is queued, has a sender about to wake it. */
  lemma NoLostReceiverWakeup(n: nat, moves: seq<Move>, p: nat)
    requires p < n
    requires var s := Run(Start(n), moves);
             s.procs[p].RecvAsleep? && !s.procs[p].woken && FirstWanted(s.procs[p].r.typ, NodeType, s.list) < |s.list|
    ensures var s := Run(Start(n), moves);
            exists q :: 0 <= q < n && q != p && WillWakeReceivers(s.procs[q])
  {
    ReceiversSafeRun(Start(n), moves);
    assert ReceiverSafe(Run(Start(n), moves), p);
  }
}
