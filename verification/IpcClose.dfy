/**
 What ku_ipc loses when a queue with all 16 slots in use is closed by one of its users: queue_count is overwritten
 and nobody is woken. Fewer than 16 users are exactly what the accounts and the senders' wake-ups need.
 */
module IpcClose {
  import opened Tally
  import opened Messages
  import opened Registry
  import opened IpcProtocol
  import opened IpcAccounts
  import opened IpcWakeups
  import opened IpcReach
  import opened IpcLimits

  /** A message is queued and queue_count reads 0. */
  lemma CloseSpoilsAccounts() returns (t: State)
    ensures Reaches(Cast(1, 0, true), MAXPROC, t) && !t.fault && !Accounted(t)
    ensures |t.list| == 1 && t.count == 0 && forall p :: 0 <= p < |t.procs| ==> t.procs[p] == Idle
  {
    var cast, m := Cast(1, 0, true), Message(1, []);
    var s := Register(cast, MAXPROC, MAXPROC);
    SendAlone(cast, MAXPROC, s, 0, m);
    s := Sent(s, m);
    assert s.users[0] == 0;
    ReachRegistry(cast, MAXPROC, s, 0, CallClose);
    t := s.(users := Removed(s.users, 0), count := 0);
    SumZero(CountShare, t.procs);
  }

  /** A sender sleeps on a full queue. */
  lemma SenderSleeps() returns (t: State, m: Message)
    ensures Reaches(Cast(2, 0, true), MAXPROC, t) && Calm(t) && t.users == seq(MAXPROC, i => i)
    ensures |m.body| == PAYLOAD && t.count == MAXMSG + 1 && t.vol == PAYLOAD * (MAXMSG + 1)
    ensures t.procs == Start(MAXPROC).procs[1 := SendAsleep(m, false)]
  {
    var cast := Cast(2, 0, true);
    m := FullSize();
    var s := Register(cast, MAXPROC, MAXPROC);
    s := Fill(cast, MAXPROC, s, m, MAXMSG + 1);
    AtSelf(s, 1);
    ReachesQuiet(cast, MAXPROC, s, s, 1, Idle, CallSend(m, true), Goto(TestCount(m, true)));
    ReachesQuiet(cast, MAXPROC, s, s, 1, TestCount(m, true), Go, Goto(WaitCount(m, false)));
    ReachesQuiet(cast, MAXPROC, s, s, 1, WaitCount(m, false), Go, Goto(SendAsleep(m, false)));
    t := At(s, 1, SendAsleep(m, false));
  }

  /** The close makes its condition true, and no process is on its way to wake it. */
  lemma CloseForgetsSender() returns (t: State)
    ensures Reaches(Cast(2, 0, true), MAXPROC, t) && !t.fault && |t.procs| == MAXPROC && t.procs[1].SendAsleep?
    ensures !t.procs[1].woken && !Full(t.count, t.vol, |t.procs[1].m.body|)
    ensures forall q :: 0 <= q < |t.procs| ==> !WillWakeSenders(t.procs[q])
  {
    var s, m := SenderSleeps();
    assert s.users[0] == 0;
    ReachRegistry(Cast(2, 0, true), MAXPROC, s, 0, CallClose);
    t := s.(users := Removed(s.users, 0), count := 0);
  }

  /** A property holds in every reachable state of the runs with at most so many users. */
  ghost predicate HoldsWithUsers(limit: nat, P: State -> bool) {
    forall n: nat, moves :: Along(s => AtMostUsers(limit, s), Start(n), moves) ==> P(Run(Start(n), moves))
  }

  lemma FailsFromSixteen(limit: nat, P: State -> bool, cast: Cast, s: State)
    requires limit >= MAXPROC && Reaches(cast, MAXPROC, s) && !P(s)
    ensures !HoldsWithUsers(limit, P)
  {
    var moves := RunThere(cast, MAXPROC, s);
    assert Along(t => AtMostUsers(Users(cast), t), Start(MAXPROC), moves);
    MoreUsersAllowed(Users(cast), limit, Start(MAXPROC), moves);
    assert !P(Run(Start(MAXPROC), moves));
  }

  /** The accounts are exact in every run exactly when fewer than 16 users have the queue open at a time. */
  lemma AccountsExactly(users: nat)
    ensures HoldsWithUsers(users, Accounted) <==> users < MAXPROC
  {
    if users < MAXPROC {
      forall n: nat, moves | Along(s => AtMostUsers(users, s), Start(n), moves) ensures Accounted(Run(Start(n), moves)) {
        ConcurrentAccounting(users, n, moves);
      }
    } else {
      var s := CloseSpoilsAccounts();
      FailsFromSixteen(users, Accounted, Cast(1, 0, true), s);
    }
  }

  /** No sender is left asleep without a process on its way to wake it, in every run, exactly when fewer than 16 users
      have the queue open at a time. */
  lemma WakeupsExactly(users: nat)
    ensures HoldsWithUsers(users, SendersSafe) <==> users < MAXPROC
  {
    if users < MAXPROC {
      forall n: nat, moves | Along(s => AtMostUsers(users, s), Start(n), moves) ensures SendersSafe(Run(Start(n), moves)) {
        SendersSafeRun(users, Start(n), moves);
      }
    } else {
      var s := CloseForgetsSender();
      assert !SenderSafe(s, 1);
      FailsFromSixteen(users, SendersSafe, Cast(2, 0, true), s);
    }
  }
}
