/** Order and exactly-once delivery of ku_ipc messages, over every interleaving. */
module IpcFifo {
  import opened Messages
  import opened IpcProtocol

  /** The entries of one message type, in order. */
  function OfType(t: int, list: seq<Node>): seq<Node> {
    if list == [] then []
    else (if NodeType(list[0]) == t then [list[0]] else []) + OfType(t, list[1..])
  }

  lemma {:induction false} OfTypeConcat(t: int, a: seq<Node>, b: seq<Node>)
    ensures OfType(t, a + b) == OfType(t, a) + OfType(t, b)
  {
    if a == [] {
      assert a + b == b;
    } else {
      var head := if NodeType(a[0]) == t then [a[0]] else [];
      assert (a + b)[0] == a[0] && (a + b)[1..] == a[1..] + b;
      OfTypeConcat(t, a[1..], b);
      assert head + (OfType(t, a[1..]) + OfType(t, b)) == head + OfType(t, a[1..]) + OfType(t, b);
    }
  }

  /** The entry is queued and no earlier entry has its type. */
  ghost predicate Leads(list: seq<Node>, node: Node) {
    exists i :: 0 <= i < |list| && LeadsAt(list, node, i)
  }

  ghost predicate LeadsAt(list: seq<Node>, node: Node, i: nat) {
    i < |list| && list[i] == node && forall j :: 0 <= j < i ==> NodeType(list[j]) != NodeType(node)
  }

  /** Whatever entry the selection rule picks, it is the oldest of its own type. */
  lemma SelectionLeads(list: seq<Node>, typ: int)
    requires FirstWanted(typ, NodeType, list) < |list|
    ensures Leads(list, list[FirstWanted(typ, NodeType, list)])
  {
    assert LeadsAt(list, list[FirstWanted(typ, NodeType, list)], FirstWanted(typ, NodeType, list));
  }

  /** Unlinking the oldest entry of its type moves it from the front of that type's queue and no other. */
  lemma {:induction false} UnlinkKeepsOrder(list: seq<Node>, node: Node, t: int)
    requires Leads(list, node)
    ensures OfType(t, list) == (if NodeType(node) == t then [node] else []) + OfType(t, Without(list, node))
  {
    var i :| 0 <= i < |list| && LeadsAt(list, node, i);
    if list[0] != node {
      assert LeadsAt(list[1..], node, i - 1);
      UnlinkKeepsOrder(list[1..], node, t);
    }
  }

  lemma {:induction false} UnlinkKeepsMembers(list: seq<Node>, node: Node)
    requires node in list
    ensures multiset(list) == multiset{node} + multiset(Without(list, node))
  {
    assert list == [list[0]] + list[1..];
    if list[0] != node {
      UnlinkKeepsMembers(list[1..], node);
    }
  }

  /** What a process that relies on an entry knows about the queue. */
  ghost predicate Sound(list: seq<Node>, pc: Pc) {
    match pc
    case TakeFirst(_) => list != []
    case Selected(_, node) => Leads(list, node)
    case SubVol(node) => Leads(list, node)
    case SubCount(node) => Leads(list, node)
    case Unlink(node) => Leads(list, node)
    case NullSelected => false
    case _ => true
  }

  /** Within type t, the appended entries are those taken out followed by those still there. */
  ghost predicate InOrder(t: int, appended: seq<Node>, out: seq<Node>, left: seq<Node>) {
    OfType(t, appended) == OfType(t, out) + OfType(t, left)
  }

  ghost predicate Conserved(appended: seq<Node>, out: seq<Node>, left: seq<Node>) {
    multiset(appended) == multiset(out) + multiset(left)
  }

  /** The entry a process has copied to its caller and not yet unlinked. */
  function Mine(pc: Pc): seq<Node> {
    if pc.SubVol? || pc.SubCount? || pc.Unlink? then [pc.node] else []
  }

  function InHand(procs: seq<Pc>): seq<Node> {
    if procs == [] then [] else Mine(procs[0]) + InHand(procs[1..])
  }

  function WithoutAll(list: seq<Node>, nodes: seq<Node>): seq<Node>
    decreases |nodes|
  {
    if nodes == [] then list else WithoutAll(Without(list, nodes[0]), nodes[1..])
  }

  /** The queued entries that no receiver has copied yet. */
  function Undelivered(s: State): seq<Node> {
    WithoutAll(s.list, InHand(s.procs))
  }

  ghost predicate Ordered(s: State) {
    && !s.fault
    && (forall p :: 0 <= p < |s.procs| ==> Sound(s.list, s.procs[p]))
    && (forall i :: 0 <= i < |s.appended| ==> s.appended[i].id == i)
    && Conserved(s.appended, s.removed, s.list) && s.delivered == s.removed + InHand(s.procs)
    && forall t :: InOrder(t, s.appended, s.removed, s.list)
  }

  // What is in hand.

  lemma {:induction false} SameInHand(a: seq<Pc>, b: seq<Pc>)
    requires |a| == |b| && forall i :: 0 <= i < |a| ==> Mine(a[i]) == Mine(b[i])
    ensures InHand(a) == InHand(b)
  {
    if a != [] {
      SameInHand(a[1..], b[1..]);
    }
  }

  lemma {:induction false} NothingInHand(procs: seq<Pc>)
    requires forall i :: 0 <= i < |procs| ==> Mine(procs[i]) == []
    ensures InHand(procs) == []
  {
    if procs != [] {
      NothingInHand(procs[1..]);
    }
  }

  lemma {:induction false} OneInHand(procs: seq<Pc>, p: nat)
    requires p < |procs| && forall q :: 0 <= q < |procs| && q != p ==> Mine(procs[q]) == []
    ensures InHand(procs) == Mine(procs[p])
  {
    if p == 0 {
      NothingInHand(procs[1..]);
    } else {
      assert Mine(procs[0]) == [];
      OneInHand(procs[1..], p - 1);
    }
  }

  /** A step of the one receiver that relies on an entry changes what is in hand as it changes its own. */
  lemma InHandStep(s: State, p: nat, e: Effect)
    requires p < |s.procs| && OneHolder(s) && (Mine(e.pc) != Mine(s.procs[p]) ==> Holds(s.procs[p]))
    ensures var after := Apply(s, p, e).procs;
            if Mine(e.pc) == Mine(s.procs[p]) then InHand(after) == InHand(s.procs)
            else InHand(s.procs) == Mine(s.procs[p]) && InHand(after) == Mine(e.pc)
  {
    var after := Apply(s, p, e).procs;
    forall q | 0 <= q < |after| ensures Mine(after[q]) == Mine(if q == p then e.pc else s.procs[q]) {
      assert after[q] == Rouse(e.wake, if q == p then e.pc else s.procs[q]);
    }
    if Mine(e.pc) == Mine(s.procs[p]) {
      SameInHand(after, s.procs);
    } else {
      assert forall q :: 0 <= q < |s.procs| && q != p ==> !Holds(s.procs[q]);
      OneInHand(s.procs, p);
      OneInHand(after, p);
    }
  }

  lemma LeadsPush(list: seq<Node>, x: Node, node: Node)
    requires Leads(list, node)
    ensures Leads(list + [x], node)
  {
    var i :| 0 <= i < |list| && LeadsAt(list, node, i);
    assert LeadsAt(list + [x], node, i);
  }

  /** A step moves the entry that a receiver has in hand only when it delivers or unlinks it. */
  lemma OwnStepHands(s: State, pc: Pc, c: Choice)
    ensures var e := ProcessStep(pc, s, c);
            && (e.op.Remove? ==> Mine(pc) == [e.op.node] && !Holds(e.pc))
            && (e.op.Push? ==> !Holds(e.pc) && Mine(pc) == Mine(e.pc) == [])
            && (e.op.Deliver? ==> Holds(pc) && Mine(pc) == [] && Mine(e.pc) == [e.op.node])
            && (!e.op.Push? && !e.op.Deliver? && !e.op.Remove? ==> Mine(pc) == Mine(e.pc))
  {
    hide FirstWanted;
  }

  /** A step of a process keeps what that process relies on. */
  lemma OwnStepSound(s: State, pc: Pc, c: Choice)
    requires Sound(s.list, pc)
    ensures var e := ProcessStep(pc, s, c);
            && (e.op.Remove? ==> Mine(pc) == [e.op.node] && Leads(s.list, e.op.node) && !Holds(e.pc) && !e.pc.NullSelected?)
            && (e.op.Push? ==> !Holds(e.pc) && !e.pc.NullSelected?)
            && (e.op.Deliver? ==> Holds(pc) && Mine(pc) == [] && Mine(e.pc) == [e.op.node])
            && (e.op.Push? ==> Mine(pc) == Mine(e.pc) == [])
            && (!e.op.Push? && !e.op.Deliver? && !e.op.Remove? ==> Mine(pc) == Mine(e.pc))
            && (!e.op.Push? && !e.op.Remove? ==> Sound(s.list, e.pc))
            && !UsesBadEntry(pc, s.list)
  {
    OwnStepHands(s, pc, c);
    hide FirstWanted, Mine, Holds;
    match pc
    case Search(r) =>
      if FirstWanted(r.typ, NodeType, s.list) < |s.list| { SelectionLeads(s.list, r.typ); }
    case WaitSearch(r, _) =>
      if FirstWanted(r.typ, NodeType, s.list) < |s.list| { SelectionLeads(s.list, r.typ); }
    case SignalSearch(r) =>
      if FirstWanted(r.typ, NodeType, s.list) < |s.list| { SelectionLeads(s.list, r.typ); }
    case TakeFirst(r) =>
      assert LeadsAt(s.list, s.list[0], 0);
    case _ =>
  }

  /** Nor does it spoil what another process relies on, as long as only one receiver relies on anything. */
  lemma OtherStepSound(s: State, mv: Move, p: nat)
    requires mv.p < |s.procs| && p < |s.procs| && p != mv.p
    requires Sound(s.list, s.procs[mv.p]) && Sound(s.list, s.procs[p]) && OneHolder(s)
    ensures Sound(Step(s, mv).list, s.procs[p])
  {
    var e := ProcessStep(s.procs[mv.p], s, mv.choice);
    OwnStepSound(s, s.procs[mv.p], mv.choice);
    if Holds(s.procs[p]) && e.op.Push? && !s.procs[p].TakeFirst? {
      LeadsPush(s.list, Node(|s.appended|, e.op.msg), s.procs[p].node);
    }
  }

  lemma RousedSound(list: seq<Node>, w: Wake, pc: Pc)
    ensures Sound(list, Rouse(w, pc)) <==> Sound(list, pc)
    ensures !Holds(pc) && !pc.NullSelected? ==> Sound(list, pc)
  {
  }

  lemma SoundStep(s: State, mv: Move, p: nat)
    requires Ordered(s) && OneHolder(s) && p < |s.procs|
    ensures Sound(Step(s, mv).list, Step(s, mv).procs[p])
  {
    hide ProcessStep, OfType, Sound;
    if CanStep(s, mv.p) {
      var e := ProcessStep(s.procs[mv.p], s, mv.choice);
      OwnStepSound(s, s.procs[mv.p], mv.choice);
      assert Step(s, mv).procs[p] == Rouse(e.wake, if p == mv.p then e.pc else s.procs[p]);
      RousedSound(Step(s, mv).list, e.wake, if p == mv.p then e.pc else s.procs[p]);
      if p != mv.p { OtherStepSound(s, mv, p); }
    }
  }

  lemma PushInOrder(t: int, appended: seq<Node>, out: seq<Node>, left: seq<Node>, x: Node)
    requires InOrder(t, appended, out, left)
    ensures InOrder(t, appended + [x], out, left + [x])
  {
    OfTypeConcat(t, appended, [x]);
    OfTypeConcat(t, left, [x]);
  }

  lemma TakeInOrder(t: int, appended: seq<Node>, out: seq<Node>, left: seq<Node>, x: Node)
    requires InOrder(t, appended, out, left) && Leads(left, x)
    ensures InOrder(t, appended, out + [x], Without(left, x))
  {
    OfTypeConcat(t, out, [x]);
    UnlinkKeepsOrder(left, x, t);
    var front, rest := OfType(t, [x]), OfType(t, Without(left, x));
    assert front == if NodeType(x) == t then [x] else [];
    assert OfType(t, out) + (front + rest) == OfType(t, out) + front + rest;
  }

  lemma PushConserved(appended: seq<Node>, out: seq<Node>, left: seq<Node>, x: Node)
    requires Conserved(appended, out, left)
    ensures Conserved(appended + [x], out, left + [x])
  {
  }

  lemma TakeConserved(appended: seq<Node>, out: seq<Node>, left: seq<Node>, x: Node)
    requires Conserved(appended, out, left) && Leads(left, x)
    ensures Conserved(appended, out + [x], Without(left, x))
  {
    UnlinkKeepsMembers(left, x);
  }

  lemma HistoryStep(s: State, mv: Move)
    requires Ordered(s) && OneHolder(s) && CanStep(s, mv.p)
    ensures var s' := Step(s, mv);
            && Conserved(s'.appended, s'.removed, s'.list)
            && forall t :: InOrder(t, s'.appended, s'.removed, s'.list)
  {
    hide ProcessStep, OfType, InHand, Without, InOrder, Conserved, Sound, Rouse;
    OwnStepSound(s, s.procs[mv.p], mv.choice);
    var e := ProcessStep(s.procs[mv.p], s, mv.choice);
    match e.op
    case Push(m) =>
      var x := Node(|s.appended|, m);
      PushConserved(s.appended, s.removed, s.list, x);
      forall t ensures InOrder(t, s.appended + [x], s.removed, s.list + [x]) {
        PushInOrder(t, s.appended, s.removed, s.list, x);
      }
    case Remove(x) =>
      TakeConserved(s.appended, s.removed, s.list, x);
      forall t ensures InOrder(t, s.appended, s.removed + [x], Without(s.list, x)) {
        TakeInOrder(t, s.appended, s.removed, s.list, x);
      }
    case _ =>
  }

  lemma DeliveredStep(s: State, mv: Move)
    requires Ordered(s) && OneHolder(s) && CanStep(s, mv.p)
    ensures var s' := Step(s, mv); !s'.fault && s'.delivered == s'.removed + InHand(s'.procs)
  {
    hide ProcessStep, OfType, InHand, Without;
    var e := ProcessStep(s.procs[mv.p], s, mv.choice);
    OwnStepSound(s, s.procs[mv.p], mv.choice);
    InHandStep(s, mv.p, e);
  }

  lemma IdsStep(s: State, mv: Move)
    requires forall i :: 0 <= i < |s.appended| ==> s.appended[i].id == i
    ensures forall i :: 0 <= i < |Step(s, mv).appended| ==> Step(s, mv).appended[i].id == i
    ensures |Step(s, mv).procs| == |s.procs| && (!CanStep(s, mv.p) ==> Step(s, mv) == s)
  {
    hide ProcessStep;
  }

  lemma OrderedStep(s: State, mv: Move)
    requires Ordered(s) && OneHolder(s)
    ensures Ordered(Step(s, mv))
  {
    hide Step, OfType, Sound, InHand;
    var s' := Step(s, mv);
    IdsStep(s, mv);
    if CanStep(s, mv.p) {
      forall p: nat | p < |s'.procs| ensures Sound(s'.list, s'.procs[p]) { SoundStep(s, mv, p); }
      DeliveredStep(s, mv);
      HistoryStep(s, mv);
    }
  }

  lemma {:induction false} OrderedRun(s: State, moves: seq<Move>)
    requires Ordered(s) && Along(OneHolder, s, moves)
    ensures Ordered(Run(s, moves)) && OneHolder(Run(s, moves))
    decreases |moves|
  {
    if moves != [] {
      OrderedStep(s, moves[0]);
      OrderedRun(Step(s, moves[0]), moves[1..]);
    }
  }

  lemma StartOrdered(n: nat)
    ensures Ordered(Start(n))
  {
    NothingInHand(Start(n).procs);
  }

  /** With one receiver relying on an entry at most one entry is in hand, and it is the oldest of its type. */
  lemma AtMostOneInHand(s: State)
    requires Ordered(s) && OneHolder(s)
    ensures InHand(s.procs) == [] || (|InHand(s.procs)| == 1 && Leads(s.list, InHand(s.procs)[0]))
  {
    if p :| 0 <= p < |s.procs| && Mine(s.procs[p]) != [] {
      assert Sound(s.list, s.procs[p]);
      OneInHand(s.procs, p);
    } else {
      NothingInHand(s.procs);
    }
  }

  lemma UndeliveredInOrder(s: State, t: int)
    requires Ordered(s) && OneHolder(s)
    ensures InOrder(t, s.appended, s.delivered, Undelivered(s)) && Conserved(s.appended, s.delivered, Undelivered(s))
  {
    AtMostOneInHand(s);
    assert InOrder(t, s.appended, s.removed, s.list);
    if InHand(s.procs) == [] {
      assert s.delivered == s.removed;
    } else {
      var x := InHand(s.procs)[0];
      assert InHand(s.procs) == [x];
      TakeInOrder(t, s.appended, s.removed, s.list, x);
      TakeConserved(s.appended, s.removed, s.list, x);
      assert WithoutAll(s.list, [x]) == WithoutAll(Without(s.list, x), []);
    }
  }

  /** In every run with one selecting receiver at a time, each type is delivered first in, first out,
      without loss or repetition, whatever mix of receive types was used. */
  lemma PerTypeFifo(n: nat, moves: seq<Move>, t: int)
    requires Along(OneHolder, Start(n), moves)
    ensures var s := Run(Start(n), moves);
            OfType(t, s.appended) == OfType(t, s.delivered) + OfType(t, Undelivered(s))
  {
    StartOrdered(n);
    OrderedRun(Start(n), moves);
    UndeliveredInOrder(Run(Start(n), moves), t);
  }

  /** Every appended entry is, exactly once, either delivered or waiting to be. */
  lemma ExactlyOnce(n: nat, moves: seq<Move>, i: nat)
    requires Along(OneHolder, Start(n), moves)
    requires i < |Run(Start(n), moves).appended|
    ensures var s := Run(Start(n), moves);
            multiset(s.delivered)[s.appended[i]] + multiset(Undelivered(s))[s.appended[i]] == 1
  {
    StartOrdered(n);
    OrderedRun(Start(n), moves);
    var s := Run(Start(n), moves);
    UndeliveredInOrder(s, 0);
    DistinctIds(s.appended, i);
  }

  lemma DistinctIds(a: seq<Node>, i: nat)
    requires i < |a| && forall k :: 0 <= k < |a| ==> a[k].id == k
    ensures multiset(a)[a[i]] == 1
  {
    assert a == a[..i] + [a[i]] + a[i + 1..];
    assert a[i] !in a[..i] && a[i] !in a[i + 1..];
  }

  /** No freed or null entry was used. */
  lemma NothingUndefined(n: nat, moves: seq<Move>)
    requires Along(OneHolder, Start(n), moves)
    ensures !Run(Start(n), moves).fault
  {
    StartOrdered(n);
    OrderedRun(Start(n), moves);
  }

  /** Nor is any process about to use one: what a receiver relies on is still queued, and one that was woken
      does not find the queue empty. */
  lemma EntriesAreValid(n: nat, moves: seq<Move>, p: nat)
    requires Along(OneHolder, Start(n), moves) && p < n
    ensures var s := Run(Start(n), moves); !UsesBadEntry(s.procs[p], s.list)
  {
    StartOrdered(n);
    OrderedRun(Start(n), moves);
    var s := Run(Start(n), moves);
    assert Sound(s.list, s.procs[p]);
  }
}
