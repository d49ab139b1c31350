/** How far the limits of ku_ipc can be passed: runs that reach the bounds, and when exactly the limits hold. */
module IpcLimits {
  import opened Messages
  import opened Registry
  import opened IpcProtocol
  import opened IpcAccounts
  import opened IpcVolume
  import opened IpcReach

  /** No receiver waits for a message, so a send wakes nobody. */
  ghost predicate NobodyWaits(s: State) {
    forall p :: 0 <= p < |s.procs| ==> Rouse(Receivers, s.procs[p]) == s.procs[p]
  }

  /** Full-size messages, sent one after the other by process 0. */
  lemma {:induction false} Fill(cast: Cast, n: nat, s: State, m: Message, k: nat) returns (t: State)
    requires Reaches(cast, n, s) && Calm(s) && NobodyWaits(s) && |m.body| == PAYLOAD
    requires cast.senders >= 1 && |s.procs| >= 1 && s.procs[0] == Idle
    requires s.count + k <= MAXMSG + 1 && (k > 0 ==> s.vol + PAYLOAD * k < MAXVOL)
    ensures Reaches(cast, n, t) && Calm(t) && t.procs == s.procs
    ensures t.count == s.count + k && t.vol == s.vol + PAYLOAD * k && t.users == s.users
  {
    if k == 0 {
      t := s;
    } else {
      var u := Fill(cast, n, s, m, k - 1);
      SendAlone(cast, n, u, 0, m);
      t := Sent(u, m);
      assert t.procs == s.procs;
    }
  }

  /** The processes below k have been admitted and have added nothing yet. */
  lemma {:induction false} LineUp(cast: Cast, n: nat, s: State, m: Message, k: nat) returns (t: State)
    requires Reaches(cast, n, s) && Calm(s) && |m.body| == PAYLOAD && k <= cast.senders && k <= |s.procs|
    requires (forall p :: 0 <= p < k ==> s.procs[p] == Idle) && (k > 0 ==> !Full(s.count, s.vol, PAYLOAD))
    ensures Reaches(cast, n, t) && Calm(t) && t.count == s.count && t.vol == s.vol && |t.procs| == |s.procs|
    ensures forall p :: 0 <= p < k ==> t.procs[p] == AddVol(m)
    ensures forall p :: k <= p < |s.procs| ==> t.procs[p] == s.procs[p]
    decreases k
  {
    if k == 0 {
      t := s;
    } else {
      var u := LineUp(cast, n, s, m, k - 1);
      ReachAdmitted(cast, n, u, k - 1, m);
      t := At(u, k - 1, AddVol(m));
    }
  }

  /** Each of them enters the accounts, one after the other: all passed the test before any was counted. */
  lemma {:induction false} AddAll(cast: Cast, n: nat, s: State, m: Message, k: nat) returns (t: State)
    requires Reaches(cast, n, s) && Calm(s) && |m.body| == PAYLOAD && k <= |s.procs|
    requires forall p :: 0 <= p < k ==> s.procs[p] == AddVol(m)
    ensures Reaches(cast, n, t) && Calm(t) && |t.procs| == |s.procs|
    ensures t.count == s.count + k && t.vol == s.vol + PAYLOAD * k
    ensures forall p :: k <= p < |s.procs| ==> t.procs[p] == s.procs[p]
    decreases k
  {
    if k == 0 {
      t := s;
    } else {
      var u := AddAll(cast, n, s, m, k - 1);
      AtSelf(u, k - 1);
      var v := u.(count := u.count + 1, vol := u.vol + |m.body|);
      ReachAccounted(cast, n, u, v, k - 1, m);
      t := At(v, k - 1, CopyIn(m));
    }
  }

  /** k receivers hold the one empty message, each out of the accounts, and none has unlinked it. */
  ghost predicate Held(cast: Cast, s: State, x: Node, k: nat) {
    && cast.senders + k <= |s.procs| && s.list == [x] && |x.msg.body| == 0 && s.count == 1 - k && s.vol == 0
    && (forall p :: cast.senders <= p < cast.senders + k ==> s.procs[p] == Unlink(x))
    && (forall p :: 0 <= p < |s.procs| && !(cast.senders <= p < cast.senders + k) ==> s.procs[p] == Idle)
  }

  lemma {:induction false} Hold(cast: Cast, n: nat, k: nat) returns (t: State, x: Node)
    requires cast.senders >= 1 && k <= cast.receivers && n >= cast.senders + k
    ensures Reaches(cast, n, t) && Calm(t) && |t.procs| == n && Held(cast, t, x, k)
  {
    if k == 0 {
      ReachesStart(cast, n);
      SendAlone(cast, n, Start(n), 0, Message(1, []));
      t, x := Sent(Start(n), Message(1, [])), Node(0, Message(1, []));
    } else {
      var s;
      s, x := Hold(cast, n, k - 1);
      ReceiveAlone(cast, n, s, cast.senders + k - 1, Receive(0, 0, false, false), 0);
      t := Taken(s, cast.senders + k - 1, x);
    }
  }

  /** The receives that make 11 calls in flight with these sends; beside ten sends none are needed. */
  function Crowding(sends: nat): nat {
    if sends >= 10 then 0 else 11 - sends
  }

  /** A queue at its message limit with far more volume than that many messages have. */
  lemma Crowd(sends: nat, m: Message) returns (n: nat, t: State)
    requires 1 <= sends <= 10 && |m.body| == PAYLOAD
    ensures n == sends + Crowding(sends) && Reaches(Cast(sends, Crowding(sends), false), n, t)
    ensures Calm(t) && |t.procs| == n && forall p :: 0 <= p < sends ==> t.procs[p] == Idle
    ensures t.count == MAXMSG && t.vol == PAYLOAD * (20 - sends)
  {
    n := sends + Crowding(sends);
    var s;
    if sends == 10 {
      ReachesStart(Cast(sends, 0, false), n);
      s := Start(n);
    } else {
      var x;
      s, x := Hold(Cast(sends, Crowding(sends), false), n, Crowding(sends));
    }
    t := Fill(Cast(sends, Crowding(sends), false), n, s, m, 20 - sends);
  }

  /** All 16 slots in use, by processes that are idle. */
  lemma {:induction false} Register(cast: Cast, n: nat, k: nat) returns (t: State)
    requires cast.opens && k <= n && k <= MAXPROC
    ensures Reaches(cast, n, t) && Calm(t) && t == Start(n).(users := seq(k, i => i))
  {
    if k == 0 {
      ReachesStart(cast, n);
      t := Start(n);
    } else {
      var s := Register(cast, n, k - 1);
      ReachRegistry(cast, n, s, k - 1, CallOpen(false));
      t := s.(users := s.users + [k - 1]);
    }
  }

  /** A full queue whose count a close has set to 0, and then more messages: 18 of them, full-size. */
  lemma Clobbered(sends: nat, m: Message) returns (t: State)
    requires 1 <= sends <= 2 && |m.body| == PAYLOAD
    ensures Reaches(Cast(sends, 0, true), MAXPROC, t) && Calm(t) && |t.procs| == MAXPROC
    ensures t.count == 7 && t.vol == PAYLOAD * 18 && forall p :: 0 <= p < |t.procs| ==> t.procs[p] == Idle
  {
    var cast := Cast(sends, 0, true);
    var s := Register(cast, MAXPROC, MAXPROC);
    s := Fill(cast, MAXPROC, s, m, MAXMSG + 1);
    assert s.users[0] == 0;
    ReachRegistry(cast, MAXPROC, s, 0, CallClose);
    var u := s.(users := Removed(s.users, 0), count := 0);
    t := Fill(cast, MAXPROC, u, m, 7);
  }

  lemma FullSize() returns (m: Message)
    ensures |m.body| == PAYLOAD
  {
    m := Message(1, seq(PAYLOAD, i => 0 as byte));
  }

  /** The count bound is sharp: N senders can bring queue_count to KUIPC_MAXMSG + N. */
  lemma CountOvershootIsReached(sends: nat) returns (moves: seq<Move>)
    requires sends >= 1
    ensures LibraryRun(sends, 0, 0, sends, moves) && Run(Start(sends), moves).count == MAXMSG + sends
  {
    var m := FullSize();
    var cast := Cast(sends, 0, false);
    ReachesStart(cast, sends);
    var s := Fill(cast, sends, Start(sends), m, MAXMSG);
    s := LineUp(cast, sends, s, m, sends);
    s := AddAll(cast, sends, s, m, sends);
    moves := RunThere(cast, sends, s);
  }

  /** From a queue with room for one more message, all but one of the senders pass their tests, the last one reaches
      its volume test, and the others add their sizes. */
  lemma LastOneRefused(cast: Cast, n: nat, s: State, m: Message) returns (t: State)
    requires Reaches(cast, n, s) && Calm(s) && |m.body| == PAYLOAD && 1 <= cast.senders <= |s.procs|
    requires (forall p :: 0 <= p < cast.senders ==> s.procs[p] == Idle) && s.count <= MAXMSG
    requires s.vol + PAYLOAD * (cast.senders - 1) < MAXVOL <= s.vol + PAYLOAD * cast.senders
    ensures Reaches(cast, n, t) && !t.fault && VolumeRefuses(t)
  {
    var last := cast.senders - 1;
    var u := LineUp(cast, n, s, m, last);
    ReachCounted(cast, n, u, last, m);
    t := At(u, last, TestVol(m, false));
    t := AddAll(cast, n, t, m, last);
    assert t.procs[last] == TestVol(m, false);
  }

  /** With 11 sends and receives in flight, or ten sends, the volume test can refuse a sender. One send at a time
      is enough if ten receivers hold the same empty message. */
  lemma RefusalIsReached(sends: nat) returns (n: nat, moves: seq<Move>)
    requires 1 <= sends <= 10
    ensures LibraryRun(sends, Crowding(sends), 0, n, moves)
    ensures !Run(Start(n), moves).fault && VolumeRefuses(Run(Start(n), moves))
  {
    var m := FullSize();
    var s;
    n, s := Crowd(sends, m);
    var cast := Cast(sends, Crowding(sends), false);
    var t := LastOneRefused(cast, n, s, m);
    moves := RunThere(cast, n, t);
  }

  /** With as many in flight, two of them sends, queue_vol can reach its limit. */
  lemma VolumeLimitIsReached(sends: nat) returns (n: nat, moves: seq<Move>)
    requires 2 <= sends <= 10
    ensures LibraryRun(sends, Crowding(sends), 0, n, moves)
    ensures !Run(Start(n), moves).fault && Run(Start(n), moves).vol == MAXVOL
  {
    var m := FullSize();
    var s;
    n, s := Crowd(sends, m);
    var cast := Cast(sends, Crowding(sends), false);
    s := LineUp(cast, n, s, m, sends);
    s := AddAll(cast, n, s, m, sends);
    moves := RunThere(cast, n, s);
  }

  /** With 16 users one send at a time is enough for a refusal, and nobody has to receive. */
  lemma CloseLeadsToRefusal() returns (moves: seq<Move>)
    ensures LibraryRun(1, 0, MAXPROC, MAXPROC, moves)
    ensures !Run(Start(MAXPROC), moves).fault && VolumeRefuses(Run(Start(MAXPROC), moves))
  {
    var m := FullSize();
    var s := Clobbered(1, m);
    var cast := Cast(1, 0, true);
    s := Fill(cast, MAXPROC, s, m, 1);
    var t := LastOneRefused(cast, MAXPROC, s, m);
    moves := RunThere(cast, MAXPROC, t);
  }

  /** And two sends for the volume to reach its limit. */
  lemma CloseLeadsToVolumeLimit() returns (moves: seq<Move>)
    ensures LibraryRun(2, 0, MAXPROC, MAXPROC, moves)
    ensures !Run(Start(MAXPROC), moves).fault && Run(Start(MAXPROC), moves).vol == MAXVOL
  {
    var m := FullSize();
    var s := Clobbered(2, m);
    var cast := Cast(2, 0, true);
    s := LineUp(cast, MAXPROC, s, m, 2);
    s := AddAll(cast, MAXPROC, s, m, 2);
    moves := RunThere(cast, MAXPROC, s);
  }

  lemma MoreAllowed(sends: nat, receives: nat, users: nat, fewSends: nat, fewReceives: nat, fewUsers: nat,
                    n: nat, moves: seq<Move>)
    requires LibraryRun(fewSends, fewReceives, fewUsers, n, moves)
    requires fewSends <= sends && fewReceives <= receives && fewUsers <= users
    ensures LibraryRun(sends, receives, users, n, moves)
  {
    MoreSendsAllowed(fewSends, sends, Start(n), moves);
    MoreReceivesAllowed(fewReceives, receives, Start(n), moves);
    MoreUsersAllowed(fewUsers, users, Start(n), moves);
  }

  /** With so many sends and receives in flight and so many users, the volume test never decides anything. */
  ghost predicate VolumeTestInert(sends: nat, receives: nat, users: nat) {
    forall n: nat, moves :: LibraryRun(sends, receives, users, n, moves) ==> !VolumeRefuses(Run(Start(n), moves))
  }

  /** With library-sized messages the volume test decides nothing exactly when there are no sends, or fewer than 16
      users and no more than ten sends and receives in flight (at least one receive counted). */
  lemma VolumeTestExactlyInert(sends: nat, receives: nat, users: nat)
    ensures VolumeTestInert(sends, receives, users)
            <==> sends == 0 || (sends + AtLeastOne(receives) <= 10 && users < MAXPROC)
  {
    if sends == 0 || (sends + AtLeastOne(receives) <= 10 && users < MAXPROC) {
      forall n: nat, moves | LibraryRun(sends, receives, users, n, moves) ensures !VolumeRefuses(Run(Start(n), moves)) {
        if sends == 0 {
          NoSendNoRefusal(receives, users, n, moves);
        } else {
          NeverRefused(sends, receives, users, n, moves);
        }
      }
    } else if users < MAXPROC {
      var few := if sends <= 10 then sends else 10;
      var n, moves := RefusalIsReached(few);
      MoreAllowed(sends, receives, users, few, Crowding(few), 0, n, moves);
    } else {
      var moves := CloseLeadsToRefusal();
      MoreAllowed(sends, receives, users, 1, 0, MAXPROC, MAXPROC, moves);
    }
  }

  /** With so many sends and receives in flight and so many users, queue_vol stays below KUIPC_MAXVOL. */
  ghost predicate VolumeBounded(sends: nat, receives: nat, users: nat) {
    forall n: nat, moves :: LibraryRun(sends, receives, users, n, moves) ==> Run(Start(n), moves).vol < MAXVOL
  }

  /** The volume keeps to its limit exactly when sends come one at a time, or there are fewer than 16 users and no more
      than ten calls in flight. */
  lemma VolumeExactlyBounded(sends: nat, receives: nat, users: nat)
    ensures VolumeBounded(sends, receives, users)
            <==> sends <= 1 || (sends + AtLeastOne(receives) <= 10 && users < MAXPROC)
  {
    if sends <= 1 || (sends + AtLeastOne(receives) <= 10 && users < MAXPROC) {
      forall n: nat, moves | LibraryRun(sends, receives, users, n, moves) ensures Run(Start(n), moves).vol < MAXVOL {
        StaysBelow(sends, receives, users, n, moves);
      }
    } else if users < MAXPROC {
      var few := if sends <= 10 then sends else 10;
      var n, moves := VolumeLimitIsReached(few);
      MoreAllowed(sends, receives, users, few, Crowding(few), 0, n, moves);
    } else {
      var moves := CloseLeadsToVolumeLimit();
      MoreAllowed(sends, receives, users, 2, 0, MAXPROC, MAXPROC, moves);
    }
  }
}
