/**
 Runs of the ku_ipc step machine built piece by piece, for results that say something does happen. Some processes
 only send and some only receive, so the calls in flight are counted by their roles.
 */
module IpcReach {
  import opened Tally
  import opened Messages
  import opened Registry
  import opened IpcProtocol
  import opened IpcAccounts
  import opened IpcVolume

  /** The first `senders` processes make library-sized sends, the next `receivers` ones receives; all of them open and
      close the queue if `opens` says so. */
  datatype Cast = Cast(senders: nat, receivers: nat, opens: bool)

  predicate Sends(cast: Cast, p: nat) { p < cast.senders }

  predicate Receives(cast: Cast, p: nat) { cast.senders <= p < cast.senders + cast.receivers }

  /** No copy fails and no signal comes. */
  predicate InRole(cast: Cast, mv: Move) {
    match mv.choice
    case Go => true
    case CallOpen(_) => cast.opens
    case CallClose => cast.opens
    case CallSend(m, _) => Sends(cast, mv.p) && |m.body| <= PAYLOAD
    case CallReceive(_) => Receives(cast, mv.p)
    case _ => false
  }

  ghost predicate InRoles(cast: Cast, moves: seq<Move>) {
    forall i :: 0 <= i < |moves| ==> InRole(cast, moves[i])
  }

  predicate PcInRole(cast: Cast, p: nat, pc: Pc) {
    && Sending(pc) <= (if Sends(cast, p) then 1 else 0) && Receiving(pc) <= (if Receives(cast, p) then 1 else 0)
    && !pc.Closing? && !pc.SignalCount? && !pc.SignalVol? && !pc.SignalSearch?
  }

  ghost predicate KeepRoles(cast: Cast, s: State) {
    && Slots(s) && (!cast.opens ==> s.users == [])
    && forall p :: 0 <= p < |s.procs| ==> PcInRole(cast, p, s.procs[p])
  }

  lemma OwnRole(cast: Cast, s: State, p: nat, pc: Pc, c: Choice)
    requires PcInRole(cast, p, pc) && InRole(cast, Move(p, c))
    ensures var e := ProcessStep(pc, s, c); PcInRole(cast, p, e.pc) && (e.op.Enter? || e.op.Leave? ==> cast.opens)
  {
  }

  lemma RolesStep(cast: Cast, s: State, mv: Move)
    requires KeepRoles(cast, s) && InRole(cast, mv)
    ensures KeepRoles(cast, Step(s, mv))
  {
    SlotsStep(s, mv);
    if Acts(s, mv) {
      var s', e := Step(s, mv), ProcessStep(s.procs[mv.p], s, mv.choice);
      OwnRole(cast, s, mv.p, s.procs[mv.p], mv.choice);
      forall p: nat | p < |s'.procs| ensures PcInRole(cast, p, s'.procs[p]) {
        assert s'.procs[p] == Rouse(e.wake, if p == mv.p then e.pc else s.procs[p]);
      }
    }
  }

  /** The users that a run in these roles can have. */
  function Users(cast: Cast): nat { if cast.opens then MAXPROC else 0 }

  lemma RolesCount(cast: Cast, s: State)
    requires KeepRoles(cast, s)
    ensures AtMost(cast.senders, s) && AtMostReceiving(cast.receivers, s) && AtMostUsers(Users(cast), s)
  {
    SumWindow(Sending, s.procs, 0, cast.senders);
    SumWindow(Receiving, s.procs, cast.senders, cast.receivers);
  }

  lemma {:induction false} RolesRun(cast: Cast, s: State, moves: seq<Move>)
    requires InRoles(cast, moves) && KeepRoles(cast, s)
    ensures Along(t => AtMost(cast.senders, t), s, moves)
    ensures Along(t => AtMostReceiving(cast.receivers, t), s, moves)
    ensures Along(t => AtMostUsers(Users(cast), t), s, moves)
    decreases |moves|
  {
    RolesCount(cast, s);
    if moves != [] {
      RolesStep(cast, s, moves[0]);
      RolesRun(cast, Step(s, moves[0]), moves[1..]);
    }
  }

  lemma {:induction false} MoreReceivesAllowed(few: nat, receives: nat, s: State, moves: seq<Move>)
    requires few <= receives && Along(t => AtMostReceiving(few, t), s, moves)
    ensures Along(t => AtMostReceiving(receives, t), s, moves)
    decreases |moves|
  {
    assert AtMostReceiving(few, s);
    if moves != [] {
      MoreReceivesAllowed(few, receives, Step(s, moves[0]), moves[1..]);
    }
  }

  lemma {:induction false} MoreUsersAllowed(few: nat, users: nat, s: State, moves: seq<Move>)
    requires few <= users && Along(t => AtMostUsers(few, t), s, moves)
    ensures Along(t => AtMostUsers(users, t), s, moves)
    decreases |moves|
  {
    assert AtMostUsers(few, s);
    if moves != [] {
      MoreUsersAllowed(few, users, Step(s, moves[0]), moves[1..]);
    }
  }

  /** Some run of n processes, in their roles, ends in t. */
  ghost predicate Reaches(cast: Cast, n: nat, t: State) {
    exists moves :: InRoles(cast, moves) && Run(Start(n), moves) == t
  }

  /** Such a run keeps to so many sends and receives in flight, and users. */
  lemma RunThere(cast: Cast, n: nat, t: State) returns (moves: seq<Move>)
    requires Reaches(cast, n, t)
    ensures LibraryRun(cast.senders, cast.receivers, Users(cast), n, moves) && Run(Start(n), moves) == t
  {
    moves :| InRoles(cast, moves) && Run(Start(n), moves) == t;
    RolesRun(cast, Start(n), moves);
    LibraryRoles(cast, moves);
  }

  lemma LibraryRoles(cast: Cast, moves: seq<Move>)
    requires InRoles(cast, moves)
    ensures LibrarySized(moves)
  {
    forall i | 0 <= i < |moves| && moves[i].choice.CallSend? ensures |moves[i].choice.msg.body| <= PAYLOAD {
      assert InRole(cast, moves[i]);
    }
  }

  lemma ReachesStart(cast: Cast, n: nat)
    ensures Reaches(cast, n, Start(n))
  {
    assert InRoles(cast, []) && Run(Start(n), []) == Start(n);
  }

  lemma ReachesStep(cast: Cast, n: nat, t: State, mv: Move)
    requires Reaches(cast, n, t) && InRole(cast, mv)
    ensures Reaches(cast, n, Step(t, mv))
  {
    var moves :| InRoles(cast, moves) && Run(Start(n), moves) == t;
    RunConcat(Start(n), moves, [mv]);
    assert Run(t, [mv]) == Step(t, mv);
    assert InRoles(cast, moves + [mv]);
  }

  lemma AtAgain(s: State, p: nat, a: Pc, b: Pc)
    requires p < |s.procs|
    ensures At(At(s, p, a), p, b) == At(s, p, b)
  {
    assert s.procs[p := a][p := b] == s.procs[p := b];
  }

  lemma ReachesQuiet(cast: Cast, n: nat, s: State, t: State, p: nat, pc: Pc, c: Choice, e: Effect)
    requires p < |s.procs| && Calm(s) && Reaches(cast, n, At(s, p, pc)) && InRole(cast, Move(p, c))
    requires e == ProcessStep(pc, s, c) && e.wake == Nobody && e.op == Keep && !UsesBadEntry(pc, s.list)
    requires t == s.(count := s.count + e.dCount, vol := s.vol + e.dVol)
    ensures Reaches(cast, n, At(t, p, e.pc)) && Calm(t)
  {
    assert CanStep(At(s, p, pc), p) by {
      assert Acquires(pc) ==> Unheld(s.procs[p := pc]);
    }
    QuietStep(s, t, p, pc, c, e);
    ReachesStep(cast, n, At(s, p, pc), Move(p, c));
  }

  // A send.

  lemma ReachCounted(cast: Cast, n: nat, s: State, p: nat, m: Message)
    requires Reaches(cast, n, s) && Calm(s) && |m.body| <= PAYLOAD && Sends(cast, p)
    requires p < |s.procs| && s.procs[p] == Idle && s.count <= MAXMSG
    ensures Reaches(cast, n, At(s, p, TestVol(m, false)))
  {
    AtSelf(s, p);
    ReachesQuiet(cast, n, s, s, p, Idle, CallSend(m, false), Goto(TestCount(m, false)));
    ReachesQuiet(cast, n, s, s, p, TestCount(m, false), Go, Goto(TestVol(m, false)));
  }

  lemma ReachAdmitted(cast: Cast, n: nat, s: State, p: nat, m: Message)
    requires Reaches(cast, n, s) && Calm(s) && |m.body| <= PAYLOAD && Sends(cast, p)
    requires p < |s.procs| && s.procs[p] == Idle && !Full(s.count, s.vol, |m.body|)
    ensures Reaches(cast, n, At(s, p, AddVol(m)))
  {
    ReachCounted(cast, n, s, p, m);
    ReachesQuiet(cast, n, s, s, p, TestVol(m, false), Go, Goto(AddVol(m)));
  }

  /** The two updates under the lock, with nobody in between. */
  lemma ReachAccounted(cast: Cast, n: nat, s: State, t: State, p: nat, m: Message)
    requires p < |s.procs| && Calm(s) && Reaches(cast, n, At(s, p, AddVol(m)))
    requires t == s.(count := s.count + 1, vol := s.vol + |m.body|)
    ensures Reaches(cast, n, At(t, p, CopyIn(m)))
  {
    var u := s.(vol := s.vol + |m.body|);
    ReachesQuiet(cast, n, s, u, p, AddVol(m), Go, Effect(AddCount(m), 0, |m.body|, Keep, Nobody));
    ReachesQuiet(cast, n, u, t, p, AddCount(m), Go, Effect(CopyIn(m), 1, 0, Keep, Nobody));
  }

  /** The copy and the append. */
  lemma ReachPushed(cast: Cast, n: nat, s: State, t: State, p: nat, m: Message)
    requires p < |s.procs| && Calm(s) && Reaches(cast, n, At(s, p, CopyIn(m)))
    requires t == s.(list := s.list + [Node(|s.appended|, m)], appended := s.appended + [Node(|s.appended|, m)])
    ensures Reaches(cast, n, At(t, p, WakeReceivers))
  {
    ReachesQuiet(cast, n, s, s, p, CopyIn(m), Go, Goto(Append(m)));
    ReachesStep(cast, n, At(s, p, Append(m)), Move(p, Go));
    assert Step(At(s, p, Append(m)), Move(p, Go)).procs == s.procs[p := WakeReceivers];
  }

  /** The wake-up that ends a call. */
  lemma ReachWoken(cast: Cast, n: nat, s: State, p: nat, pc: Pc)
    requires p < |s.procs| && s.procs[p] == Idle && Calm(s) && Reaches(cast, n, At(s, p, pc))
    requires pc == WakeReceivers || pc == WakeSenders
    ensures var wake := if pc.WakeReceivers? then Receivers else Senders;
            Reaches(cast, n, s.(procs := RouseAll(wake, s.procs))) && Calm(s.(procs := RouseAll(wake, s.procs)))
  {
    ReachesStep(cast, n, At(s, p, pc), Move(p, Go));
    assert s.procs[p := pc][p := Idle] == s.procs;
  }

  /** The queue after a send of m that nobody interrupted. */
  function Sent(s: State, m: Message): State {
    s.(list := s.list + [Node(|s.appended|, m)], count := s.count + 1, vol := s.vol + |m.body|,
       procs := RouseAll(Receivers, s.procs), appended := s.appended + [Node(|s.appended|, m)])
  }

  /** An idle process that is admitted and not interrupted appends its message, accounts for it and
      wakes the receivers. */
  lemma SendAlone(cast: Cast, n: nat, s: State, p: nat, m: Message)
    requires Reaches(cast, n, s) && Calm(s) && |m.body| <= PAYLOAD && Sends(cast, p)
    requires p < |s.procs| && s.procs[p] == Idle && !Full(s.count, s.vol, |m.body|)
    ensures Reaches(cast, n, Sent(s, m)) && Calm(Sent(s, m))
  {
    var u := s.(count := s.count + 1, vol := s.vol + |m.body|);
    ReachAdmitted(cast, n, s, p, m);
    ReachAccounted(cast, n, s, u, p, m);
    var w := u.(list := u.list + [Node(|u.appended|, m)], appended := u.appended + [Node(|u.appended|, m)]);
    ReachPushed(cast, n, u, w, p, m);
    ReachWoken(cast, n, w, p, WakeReceivers);
  }

  // A receive.

  /** Process p has copied the entry to its caller, left the accounts and not yet unlinked the entry. */
  function Taken(s: State, p: nat, node: Node): State
    requires p < |s.procs|
  {
    At(s.(count := s.count - 1, vol := s.vol - |node.msg.body|, delivered := s.delivered + [node]), p, Unlink(node))
  }

  lemma ReachDelivered(cast: Cast, n: nat, s: State, p: nat, r: Receive, node: Node)
    requires p < |s.procs| && Calm(s) && Reaches(cast, n, At(s, p, Selected(r, node)))
    requires node in s.list && |node.msg.body| <= r.cap
    ensures Reaches(cast, n, At(s.(delivered := s.delivered + [node]), p, SubVol(node)))
  {
    ReachesStep(cast, n, At(s, p, Selected(r, node)), Move(p, Go));
    AtAgain(s, p, Selected(r, node), SubVol(node));
    assert Step(At(s, p, Selected(r, node)), Move(p, Go)).procs == s.procs[p := SubVol(node)];
  }

  lemma ReachUnaccounted(cast: Cast, n: nat, s: State, t: State, p: nat, node: Node)
    requires p < |s.procs| && Calm(s) && Reaches(cast, n, At(s, p, SubVol(node))) && node in s.list
    requires t == s.(count := s.count - 1, vol := s.vol - |node.msg.body|)
    ensures Reaches(cast, n, At(t, p, Unlink(node)))
  {
    var u := s.(vol := s.vol - |node.msg.body|);
    ReachesQuiet(cast, n, s, u, p, SubVol(node), Go, Effect(SubCount(node), 0, -|node.msg.body|, Keep, Nobody));
    ReachesQuiet(cast, n, u, t, p, SubCount(node), Go, Effect(Unlink(node), -1, 0, Keep, Nobody));
  }

  /** An idle process that finds an entry and has room for it goes, alone, up to its list_del. */
  lemma ReceiveAlone(cast: Cast, n: nat, s: State, p: nat, r: Receive, i: nat)
    requires Reaches(cast, n, s) && Calm(s) && Receives(cast, p) && p < |s.procs| && s.procs[p] == Idle
    requires i == FirstWanted(r.typ, NodeType, s.list) < |s.list| && |s.list[i].msg.body| <= r.cap
    ensures Reaches(cast, n, Taken(s, p, s.list[i])) && Calm(Taken(s, p, s.list[i]))
  {
    var node := s.list[i];
    AtSelf(s, p);
    ReachesQuiet(cast, n, s, s, p, Idle, CallReceive(r), Goto(Search(r)));
    ReachesQuiet(cast, n, s, s, p, Search(r), Go, Goto(Selected(r, node)));
    ReachDelivered(cast, n, s, p, r, node);
    var u := s.(delivered := s.delivered + [node]);
    ReachUnaccounted(cast, n, u, u.(count := s.count - 1, vol := s.vol - |node.msg.body|), p, node);
  }

  /** The list_del that follows. */
  lemma UnlinkAlone(cast: Cast, n: nat, s: State, p: nat, node: Node)
    requires p < |s.procs| && Calm(s) && Reaches(cast, n, At(s, p, Unlink(node))) && node in s.list
    ensures Reaches(cast, n, At(s.(list := Without(s.list, node), removed := s.removed + [node]), p, WakeSenders))
  {
    ReachesStep(cast, n, At(s, p, Unlink(node)), Move(p, Go));
    assert Step(At(s, p, Unlink(node)), Move(p, Go)).procs == s.procs[p := WakeSenders];
  }

  // Opens and closes.

  /** An open or a close by an idle process. */
  lemma ReachRegistry(cast: Cast, n: nat, s: State, p: nat, c: Choice)
    requires Reaches(cast, n, s) && Calm(s) && cast.opens && p < |s.procs| && s.procs[p] == Idle
    requires c.CallOpen? || c.CallClose?
    ensures var users := if c.CallClose? then Removed(s.users, p) else if Admits(s.users, p, c.excl) then s.users + [p] else s.users;
            var t := s.(users := users, count := if c.CallClose? then CountAfterClose(s.users, p, s.count) else s.count);
            Reaches(cast, n, t) && Calm(t)
  {
    ReachesStep(cast, n, s, Move(p, c));
    assert s.procs[p := Idle] == s.procs;
    assert RouseAll(Nobody, s.procs) == s.procs;
  }
}
