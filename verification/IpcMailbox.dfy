/**
 One ku_ipc queue as seen by calls that run one after the other: the mailbox its entry points act on,
 and what those calls guarantee together.
 */
module IpcMailbox {
  import opened Tally
  import opened Messages
  import opened Registry

  datatype Queue = Queue(list: seq<Message>, users: seq<int>, count: int, vol: int)

  const EMPTY := Queue([], [], 0, 0)

  datatype Reply = Reply(q: Queue, ret: int, bytes: seq<byte>)

  function Refuse(q: Queue): Reply { Reply(q, -1, []) }

  function Create(q: Queue, qid: int, pid: int): Reply {
    if Admits(q.users, pid, false) then Reply(q.(users := q.users + [pid]), qid, []) else Refuse(q)
  }

  function Excl(q: Queue, qid: int, pid: int): Reply {
    if Admits(q.users, pid, true) then Reply(q.(users := [pid]), qid, []) else Refuse(q)
  }

  function Close(q: Queue, pid: int): Reply {
    if pid in q.users
    then Reply(q.(users := Removed(q.users, pid), count := CountAfterClose(q.users, pid, q.count)), 0, [])
    else Refuse(q)
  }

  /** A send on its own: a wait that nobody can end but a signal closes the queue for the caller. */
  function Send(q: Queue, pid: int, m: Message, wait: bool, copied: bool): Reply {
    if Full(q.count, q.vol, |m.body|) then Refuse(if wait then Close(q, pid).q else q)
    else if !copied then Refuse(q)
    else Reply(q.(list := q.list + [m], count := q.count + 1, vol := q.vol + |m.body|), 0, [])
  }

  function Receive(q: Queue, pid: int, typ: int, cap: nat, wait: bool, noerror: bool, copied: bool): Reply {
    var i := FirstWanted(typ, TypeOf, q.list);
    if i == |q.list| then Refuse(if wait then Close(q, pid).q else q)
    else
      var m := q.list[i];
      if (|m.body| > cap && !noerror) || !copied then Refuse(q)
      else
        var n := if |m.body| > cap then cap else |m.body|;
        Reply(q.(list := q.list[..i] + q.list[i + 1..], count := q.count - 1, vol := q.vol - |m.body|), n, m.body[..n])
  }

  /** The message a receive selects fits the caller's buffer. */
  predicate Fits(q: Queue, typ: int, cap: nat) {
    var i := FirstWanted(typ, TypeOf, q.list);
    i < |q.list| && |q.list[i].body| <= cap
  }

  /** The caller's array after some bytes are copied to it. A message that fits is copied with one byte more than it
      has, whatever follows it in the kernel's memory. */
  function Overwritten(had: seq<byte>, bytes: seq<byte>, over: bool, stray: byte): (r: seq<byte>)
    requires |bytes| <= |had|
    ensures |r| == |had| && bytes <= r
    ensures forall i :: |bytes| < i < |had| ==> r[i] == had[i]
    ensures |bytes| < |had| ==> r[|bytes|] == if over then stray else had[|bytes|]
  {
    if over && |bytes| < |had| then bytes + [stray] + had[|bytes| + 1..] else bytes + had[|bytes|..]
  }

  datatype Call =
    | DoCreate(pid: int)
    | DoExcl(pid: int)
    | DoClose(pid: int)
    | DoSend(pid: int, m: Message, wait: bool, copied: bool)
    | DoReceive(pid: int, typ: int, cap: nat, wait: bool, noerror: bool, copied: bool)

  function Perform(q: Queue, c: Call): Reply {
    match c
    case DoCreate(pid) => Create(q, 0, pid)
    case DoExcl(pid) => Excl(q, 0, pid)
    case DoClose(pid) => Close(q, pid)
    case DoSend(pid, m, wait, copied) => Send(q, pid, m, wait, copied)
    case DoReceive(pid, typ, cap, wait, noerror, copied) => Receive(q, pid, typ, cap, wait, noerror, copied)
  }

  function After(q: Queue, calls: seq<Call>): Queue {
    if calls == [] then q else Perform(After(q, calls[..|calls| - 1]), calls[|calls| - 1]).q
  }

  // What the calls reply.

  /** A send replies 0 exactly when the queue has room and the copy succeeds; then its message is the last one and is
      counted, and else it replies -1 and changes nothing, except that a wait ends with a close. */
  lemma SendReplies(q: Queue, pid: int, m: Message, wait: bool, copied: bool)
    ensures var r := Send(q, pid, m, wait, copied);
            && r.ret == (if q.count <= 10 && q.vol + |m.body| < 2560 && copied then 0 else -1)
            && r.q.list == (if r.ret == 0 then q.list + [m] else q.list)
            && (r.ret == 0 ==> r.q.count == q.count + 1 && r.q.vol == q.vol + |m.body| && r.q.users == q.users)
            && (r.ret == -1 ==>
                  r.q == if (q.count <= 10 && q.vol + |m.body| < 2560) || !wait then q else Close(q, pid).q)
  {
    hide Removed;
  }

  /** A receive replies with the number of bytes it copied, and takes its message out, exactly when it finds one that
      fits or may be cut and the copy succeeds; else it replies -1 and changes nothing, except that a wait ends
      with a close. */
  lemma ReceiveReplies(q: Queue, pid: int, typ: int, cap: nat, wait: bool, noerror: bool, copied: bool)
    ensures var i, r := FirstWanted(typ, TypeOf, q.list), Receive(q, pid, typ, cap, wait, noerror, copied);
            if i < |q.list| && (|q.list[i].body| <= cap || noerror) && copied
            then
              && r.ret == (if |q.list[i].body| <= cap then |q.list[i].body| else cap) && r.bytes == q.list[i].body[..r.ret]
              && r.q.list == q.list[..i] + q.list[i + 1..] && r.q.users == q.users
              && r.q.count == q.count - 1 && r.q.vol == q.vol - |q.list[i].body|
            else
              r.ret == -1 && r.bytes == [] && r.q == if i < |q.list| || !wait then q else Close(q, pid).q
  {
    hide FirstWanted, Removed;
  }

  // What send and receive do for each other.

  lemma FirstWantedSnoc(typ: int, list: seq<Message>, m: Message)
    requires FirstWanted(typ, TypeOf, list) == |list| && Wanted(typ, m.mtype)
    ensures FirstWanted(typ, TypeOf, list + [m]) == |list|
  {
    assert (list + [m])[|list|] == m;
    assert forall i :: 0 <= i < |list| ==> (list + [m])[i] == list[i];
  }

  /** An admitted message that a receive asks for and no older one answers comes back as it was sent, cut to
      the caller's buffer, and the queue is as it was before the send: the whole message and its whole size
      leave the accounts even when only a prefix is returned. Without NOERROR a buffer that is too small leaves
      the queue with the message in it. */
  lemma SendThenReceive(q: Queue, p: int, m: Message, w: bool, r: int, typ: int, cap: nat, wait: bool, noerror: bool)
    requires !Full(q.count, q.vol, |m.body|)
    requires FirstWanted(typ, TypeOf, q.list) == |q.list| && Wanted(typ, m.mtype)
    ensures var n, full := if |m.body| <= cap then |m.body| else cap, Send(q, p, m, w, true).q;
            Receive(full, r, typ, cap, wait, noerror, true)
            == if |m.body| <= cap || noerror then Reply(q, n, m.body[..n]) else Refuse(full)
  {
    FirstWantedSnoc(typ, q.list, m);
    assert q.list + [m] == q.list + [m] + [];
    assert (q.list + [m])[..|q.list|] == q.list;
  }

  // The registry.

  ghost predicate Registered(q: Queue) {
    Distinct(q.users) && |q.users| <= MAXPROC
  }

  /** Close takes out exactly the caller and keeps the order of everyone else. */
  lemma CloseRemovesCaller(q: Queue, pid: int)
    requires Registered(q)
    ensures forall i :: 0 <= i < |q.users| && q.users[i] == pid ==> Close(q, pid).q.users == q.users[..i] + q.users[i + 1..]
    ensures pid !in q.users ==> Close(q, pid).q == q
    ensures Close(q, pid).ret == (if pid in q.users then 0 else -1)
    ensures Close(q, pid).q.list == q.list && Close(q, pid).q.vol == q.vol
    ensures Close(q, pid).q.count == if pid in q.users && |q.users| == 16 then 0 else q.count
    ensures pid !in Close(q, pid).q.users && Distinct(Close(q, pid).q.users)
  {
    RemovedIsOthers(q.users, pid);
    forall i | 0 <= i < |q.users| && q.users[i] == pid
      ensures Close(q, pid).q.users == q.users[..i] + q.users[i + 1..]
    {
      OthersSplit(q.users, pid, i);
    }
  }

  /** Every run of calls keeps the registry free of duplicates and within its 16 slots, closes forced by
      signals included. */
  lemma {:induction false} RegistryAlways(calls: seq<Call>)
    ensures Registered(After(EMPTY, calls))
  {
    if calls != [] {
      RegistryAlways(calls[..|calls| - 1]);
      var q := After(EMPTY, calls[..|calls| - 1]);
      var c := calls[|calls| - 1];
      CloseRemovesCaller(q, c.pid);
    }
  }

  // The accounts.

  ghost predicate Balanced(q: Queue) {
    q.count == |q.list| && q.vol == Sum(SizeOf, q.list)
  }

  lemma {:induction false} SumWithout(list: seq<Message>, i: nat)
    requires i < |list|
    ensures Sum(SizeOf, list[..i] + list[i + 1..]) == Sum(SizeOf, list) - |list[i].body|
  {
    assert list == list[..i] + ([list[i]] + list[i + 1..]);
    SumConcat(SizeOf, list[..i], [list[i]] + list[i + 1..]);
    SumConcat(SizeOf, [list[i]], list[i + 1..]);
    SumConcat(SizeOf, list[..i], list[i + 1..]);
  }

  /** A call that registers a close while all 16 slots are taken and messages are queued. */
  ghost predicate ClobbersCount(q: Queue, c: Call) {
    && |q.users| == MAXPROC && q.list != [] && c.pid in q.users
    && match c
       case DoClose(_) => true
       case DoSend(_, m, wait, _) => wait && Full(q.count, q.vol, |m.body|)
       case DoReceive(_, typ, _, wait, _, _) => wait && FirstWanted(typ, TypeOf, q.list) == |q.list|
       case _ => false
  }

  lemma CloseBalance(q: Queue, pid: int)
    requires Balanced(q)
    ensures Balanced(Close(q, pid).q) <==> !(|q.users| == MAXPROC && q.list != [] && pid in q.users)
  {
    hide Sum, Removed;
  }

  /** The accounts survive a call exactly when it does not close a queue with 16 users and queued messages. */
  lemma BalanceKeptExactly(q: Queue, c: Call)
    requires Balanced(q)
    ensures Balanced(Perform(q, c).q) <==> !ClobbersCount(q, c)
  {
    CloseBalance(q, c.pid);
    match c
    case DoSend(_, m, _, _) =>
      SumConcat(SizeOf, q.list, [m]);
      assert Sum(SizeOf, [m]) == |m.body|;
      hide Close, Sum;
    case DoReceive(_, typ, _, _, _, _) =>
      if FirstWanted(typ, TypeOf, q.list) < |q.list| {
        SumWithout(q.list, FirstWanted(typ, TypeOf, q.list));
      }
      hide Close, Sum, FirstWanted;
    case _ =>
      hide Sum;
  }

  lemma {:induction false} ManyUsers(k: nat) returns (calls: seq<Call>)
    requires k <= MAXPROC
    ensures After(EMPTY, calls) == EMPTY.(users := seq(k, i => i))
    ensures forall i :: 0 <= i < |calls| ==> calls[i].DoCreate?
  {
    if k == 0 {
      calls := [];
    } else {
      var before := ManyUsers(k - 1);
      calls := before + [DoCreate(k - 1)];
      assert calls[..|calls| - 1] == before;
    }
  }

  /** Such a close does happen: sixteen users, one message, and the count reads 0. */
  lemma CountCanBeClobbered() returns (calls: seq<Call>)
    ensures var q := After(EMPTY, calls); |q.list| == 1 && q.count == 0
  {
    var users := ManyUsers(MAXPROC);
    var q := After(EMPTY, users);
    var sent := users + [DoSend(0, Message(1, []), false, true)];
    assert sent[..|sent| - 1] == users;
    calls := sent + [DoClose(MAXPROC - 1)];
    assert calls[..|calls| - 1] == sent;
    assert q.users[MAXPROC - 1] == MAXPROC - 1;
  }

  /** No call of the run clobbers queue_count, and every message has the library's size. */
  ghost predicate Careful(calls: seq<Call>) {
    && (forall k :: 0 <= k < |calls| ==> !ClobbersCount(After(EMPTY, calls[..k]), calls[k]))
    && (forall k :: 0 <= k < |calls| ==> calls[k].DoSend? ==> |calls[k].m.body| <= PAYLOAD)
  }

  /** The accounts are exact, every message has the library's size and there are at most MAXMSG + 1 of them. */
  ghost predicate WithinLimits(q: Queue) {
    Balanced(q) && |q.list| <= MAXMSG + 1 && forall m :: m in q.list ==> |m.body| <= PAYLOAD
  }

  lemma LimitsStep(q: Queue, c: Call)
    requires WithinLimits(q) && !ClobbersCount(q, c) && (c.DoSend? ==> |c.m.body| <= PAYLOAD)
    ensures WithinLimits(Perform(q, c).q)
  {
    BalanceKeptExactly(q, c);
  }

  lemma {:induction false} LimitsRun(calls: seq<Call>)
    requires Careful(calls)
    ensures WithinLimits(After(EMPTY, calls))
  {
    if calls != [] {
      var before, c := calls[..|calls| - 1], calls[|calls| - 1];
      forall k | 0 <= k < |before|
        ensures !ClobbersCount(After(EMPTY, before[..k]), before[k])
        ensures before[k].DoSend? ==> |before[k].m.body| <= PAYLOAD
      {
        assert before[..k] == calls[..k] && before[k] == calls[k];
      }
      LimitsRun(before);
      LimitsStep(After(EMPTY, before), c);
    }
  }

  // How many users.

  /** Every message of the run has the library's size, and no more than so many users are registered at a time. */
  ghost predicate LibraryCalls(users: nat, calls: seq<Call>) {
    && (forall k :: 0 <= k < |calls| ==> calls[k].DoSend? ==> |calls[k].m.body| <= PAYLOAD)
    && (forall k :: 0 <= k <= |calls| ==> |After(EMPTY, calls[..k]).users| <= users)
  }

  /** The accounts are exact, and a send is refused, whatever its size, at MAXMSG + 1 messages and at no fewer. */
  ghost predicate KeepsLimits(q: Queue) {
    && Balanced(q) && |q.list| <= MAXMSG + 1 && q.vol <= PAYLOAD * |q.list|
    && forall size :: 0 <= size <= PAYLOAD ==> (Full(q.count, q.vol, size) <==> |q.list| == MAXMSG + 1)
  }

  ghost predicate LimitsUpTo(users: nat) {
    forall calls :: LibraryCalls(users, calls) ==> KeepsLimits(After(EMPTY, calls))
  }

  lemma FewUsersKeepLimits(users: nat, calls: seq<Call>)
    requires LibraryCalls(users, calls) && users < MAXPROC
    ensures KeepsLimits(After(EMPTY, calls))
  {
    forall k | 0 <= k < |calls| ensures !ClobbersCount(After(EMPTY, calls[..k]), calls[k]) {
      assert |After(EMPTY, calls[..k]).users| <= users;
    }
    LimitsRun(calls);
    SumAtMost(SizeOf, PAYLOAD, After(EMPTY, calls).list);
  }

  lemma {:induction false} SendMany(before: seq<Call>, k: nat) returns (calls: seq<Call>)
    requires var q := After(EMPTY, before); q.count + k <= MAXMSG + 1 && q.vol == 0
    requires forall i :: 0 <= i < |before| ==> before[i].DoSend? ==> |before[i].m.body| <= PAYLOAD
    ensures var q, r := After(EMPTY, before), After(EMPTY, calls);
            r.users == q.users && |r.list| == |q.list| + k && r.count == q.count + k && r.vol == 0
    ensures forall i :: 0 <= i < |calls| ==> calls[i].DoSend? ==> |calls[i].m.body| <= PAYLOAD
  {
    if k == 0 {
      calls := before;
    } else {
      var most := SendMany(before, k - 1);
      calls := most + [DoSend(0, Message(1, []), false, true)];
      assert calls[..|calls| - 1] == most;
    }
  }

  /** Sixteen users, a full queue, a close, and one more send. */
  lemma LimitIsPassed() returns (calls: seq<Call>)
    ensures LibraryCalls(MAXPROC, calls) && |After(EMPTY, calls).list| == MAXMSG + 2
  {
    var users := ManyUsers(MAXPROC);
    var full := SendMany(users, MAXMSG + 1);
    var closed := full + [DoClose(MAXPROC - 1)];
    assert After(EMPTY, full).users[MAXPROC - 1] == MAXPROC - 1;
    assert closed[..|closed| - 1] == full;
    calls := SendMany(closed, 1);
    forall k | 0 <= k <= |calls| ensures |After(EMPTY, calls[..k]).users| <= MAXPROC {
      RegistryAlways(calls[..k]);
    }
  }

  /** Called one after the other, the library's sends fill a queue to MAXMSG + 1 messages and no further, with the
      volume limit out of reach and the accounts exact, exactly when fewer than 16 users are registered at a time. */
  lemma SequentialLimits(users: nat)
    ensures LimitsUpTo(users) <==> users < MAXPROC
  {
    if users < MAXPROC {
      forall calls | LibraryCalls(users, calls) ensures KeepsLimits(After(EMPTY, calls)) {
        FewUsersKeepLimits(users, calls);
      }
    } else {
      var calls := LimitIsPassed();
      assert LibraryCalls(users, calls);
      assert !KeepsLimits(After(EMPTY, calls));
    }
  }
}
