/**
 Lab10/simple_rculist as a step machine: readers walk the list without a lock while one writer at a time
 (the spin lock) copies a node, replaces it, waits for a grace period and frees the old one. Every load of
 a `next` pointer, every look at a node and every phase of the writer is one atomic step.
 */
module RcuList {

  type Addr = nat

  /** The list head, a static object. */
  const HEAD: Addr := 0

  const INITIAL := 100

  /** A node's fields; `version` is the number of updates published for its id when it was made. */
  datatype Cell = Cell(id: nat, data: nat, version: nat)

  /** `heap` holds the allocated nodes, `next` their links and the head's, `order` the nodes linked in, slot by
      slot, `updates` the number of updates published for each id, `modulus` the range of unsigned long. */
  datatype Memory = Memory(ids: seq<nat>, modulus: nat, heap: map<Addr, Cell>, next: map<Addr, Addr>,
                           order: seq<Addr>, updates: seq<nat>)

  /** A read in progress or its outcome. `since` and `until` are the update counts of all ids at its start and end. */
  datatype Reader =
    | Ready
    | Walking(target: nat, pos: Addr, loaded: bool, visited: seq<nat>, since: seq<nat>)
    | Found(target: nat, data: nat, visited: seq<nat>, since: seq<nat>, until: seq<nat>)
    | NotFound(target: nat, visited: seq<nat>)

  /** `k` is the number of nodes passed, so the slot of the node the writer is at. */
  datatype Writer =
    | Unlocked
    | Scanning(target: nat, pos: Addr, k: nat)
    | Copied(gone: Addr, k: nat, copy: Addr)
    | Replaced(gone: Addr, k: nat)
    | Syncing(gone: Addr, k: nat, waitFor: set<nat>)

  datatype State = State(mem: Memory, readers: seq<Reader>, writer: Writer)

  /** Enter: rcu_read_lock of a read. Read: the next step of a reader. Lock: the writer's spin_lock. Write: the
      next step of the writer; `room` is what kmalloc returns if the step allocates. */
  datatype Event = Enter(r: nat, target: nat) | Read(r: nat) | Lock(target: nat) | Write(room: Addr)

  predicate Distinct(s: seq<nat>) {
    forall i, j :: 0 <= i < j < |s| ==> s[i] != s[j]
  }

  function Members(order: seq<Addr>): set<Addr> { set a | a in order }

  /** Address of slot i; past the last slot the list is back at its head. */
  function Slot(order: seq<Addr>, i: nat): Addr {
    if i < |order| then order[i] else HEAD
  }

  /** unsigned long after so many increments of the initial value. */
  function Value(modulus: nat, version: nat): nat {
    if modulus == 0 then 0 else (INITIAL + version) % modulus
  }

  /** The list as the module builds it, node i at address i + 1. */
  function Start(ids: seq<nat>, modulus: nat, readers: nat): State {
    var order := seq(|ids|, i => i + 1);
    var mem := Memory(ids, modulus,
                      map a | a in Members(order) :: Cell(if 1 <= a <= |ids| then ids[a - 1] else 0, INITIAL, 0),
                      map a | a in Members(order) + {HEAD} :: (if a < |ids| then a + 1 else HEAD),
                      order, seq(|ids|, i => 0));
    State(mem, seq(readers, i => Ready), Unlocked)
  }

  function NextOf(m: Memory, a: Addr): Addr {
    if a in m.next then m.next[a] else HEAD
  }

  /** The next state of a reader on its own: it loads a link, or looks at the node it loaded. */
  function Advance(m: Memory, me: Reader): Reader {
    if !me.Walking? then me
    else if !me.loaded then
      var next := NextOf(m, me.pos);
      if next == HEAD then NotFound(me.target, me.visited) else me.(pos := next, loaded := true)
    else
      var cell := if me.pos in m.heap then m.heap[me.pos] else Cell(0, 0, 0);
      var visited := me.visited + [cell.id];
      if cell.id == me.target then Found(me.target, cell.data, visited, me.since, m.updates)
      else me.(loaded := false, visited := visited)
  }

  /** The readers inside their read-side critical section. */
  function Inside(readers: seq<Reader>): set<nat> {
    set r | 0 <= r < |readers| && readers[r].Walking?
  }

  function ReadStep(s: State, r: nat): State
    requires r < |s.readers|
  {
    var me := Advance(s.mem, s.readers[r]);
    var writer := if s.writer.Syncing? && !me.Walking? then s.writer.(waitFor := s.writer.waitFor - {r}) else s.writer;
    s.(readers := s.readers[r := me], writer := writer)
  }

  /** kmalloc and memcpy of the node, with its data increased. */
  function Copy(m: Memory, a: Addr, room: Addr): Memory
    requires a in m.heap
  {
    var cell := m.heap[a];
    var data := if cell.data + 1 == m.modulus then 0 else cell.data + 1;
    m.(heap := m.heap[room := Cell(cell.id, data, cell.version + 1)], next := m.next[room := NextOf(m, a)])
  }

  /** list_replace_rcu of the node in slot k: one store to the link before it. */
  function Replace(m: Memory, k: nat, copy: Addr): Memory
    requires k < |m.order| == |m.updates|
  {
    m.(next := m.next[(if k == 0 then HEAD else m.order[k - 1]) := copy], order := m.order[k := copy],
       updates := m.updates[k := m.updates[k] + 1])
  }

  function Free(m: Memory, a: Addr): Memory {
    m.(heap := m.heap - {a}, next := m.next - {a})
  }

  function WriteStep(s: State, room: Addr): State {
    match s.writer
    case Unlocked => s
    case Scanning(target, pos, k) =>
      if pos !in s.mem.heap then s.(writer := Unlocked)
      else if s.mem.heap[pos].id != target then s.(writer := Scanning(target, NextOf(s.mem, pos), k + 1))
      else if room == HEAD || room in s.mem.heap then s
      else s.(mem := Copy(s.mem, pos, room), writer := Copied(pos, k, room))
    case Copied(gone, k, copy) =>
      if k < |s.mem.order| == |s.mem.updates| then s.(mem := Replace(s.mem, k, copy), writer := Replaced(gone, k)) else s
    case Replaced(gone, k) => s.(writer := Syncing(gone, k, Inside(s.readers)))
    case Syncing(gone, k, waitFor) =>
      if waitFor == {} then s.(mem := Free(s.mem, gone), writer := Unlocked) else s
  }

  function Step(s: State, e: Event): State {
    match e
    case Enter(r, target) =>
      if r < |s.readers| && !s.readers[r].Walking?
      then s.(readers := s.readers[r := Walking(target, HEAD, false, [], s.mem.updates)]) else s
    case Read(r) => if r < |s.readers| then ReadStep(s, r) else s
    case Lock(target) =>
      if s.writer.Unlocked? then s.(writer := Scanning(target, NextOf(s.mem, HEAD), 0)) else s
    case Write(room) => WriteStep(s, room)
  }

  function Run(s: State, events: seq<Event>): State {
    if events == [] then s else Step(Run(s, events[..|events| - 1]), events[|events| - 1])
  }

  // The invariant.

  /** The node that is out of the list and not yet freed, and the slot it had; HEAD when there is none. */
  datatype Gone = Gone(a: Addr, k: nat)

  function Retired(w: Writer): Gone {
    match w
    case Replaced(a, k) => Gone(a, k)
    case Syncing(a, k, _) => Gone(a, k)
    case _ => Gone(HEAD, 0)
  }

  /** The list carries the same ids for ever, and each id's data is 100 plus the number of its updates. */
  ghost predicate Listed(m: Memory) {
    && |m.order| == |m.ids| == |m.updates| && Distinct(m.order) && m.modulus > INITIAL
    && HEAD in m.next && m.next[HEAD] == Slot(m.order, 0)
    && forall k :: 0 <= k < |m.order| ==> ListedAt(m, k)
  }

  ghost predicate ListedAt(m: Memory, k: nat)
    requires k < |m.order| == |m.ids| == |m.updates|
  {
    Holds(m, m.order[k], k, m.updates[k])
  }

  /** Node a holds the given version of the id of slot k, and links to the next slot. */
  ghost predicate Holds(m: Memory, a: Addr, k: nat, version: nat)
    requires k < |m.order| == |m.ids|
  {
    && a != HEAD && a in m.next && m.next[a] == Slot(m.order, k + 1)
    && a in m.heap && m.heap[a] == Cell(m.ids[k], Value(m.modulus, version), version)
  }

  /** What is allocated besides the list: a copy not yet linked, or one retired node that holds the version
      before the current one and still leads into the list. */
  ghost predicate WriterSound(m: Memory, w: Writer)
    requires Listed(m)
  {
    match w
    case Unlocked => m.heap.Keys == Members(m.order)
    case Scanning(_, pos, k) => m.heap.Keys == Members(m.order) && k <= |m.order| && pos == Slot(m.order, k)
    case Copied(gone, k, copy) =>
      && k < |m.order| && gone == m.order[k] && copy !in m.order
      && m.heap.Keys == Members(m.order) + {copy} && Holds(m, copy, k, m.updates[k] + 1)
    case Replaced(gone, k) => RetiredSound(m, gone, k)
    case Syncing(gone, k, _) => RetiredSound(m, gone, k)
  }

  ghost predicate RetiredSound(m: Memory, gone: Addr, k: nat)
    requires Listed(m)
  {
    && k < |m.order| && gone !in m.order && m.updates[k] >= 1
    && m.heap.Keys == Members(m.order) + {gone} && Holds(m, gone, k, m.updates[k] - 1)
  }

  /** A grace period waits for readers inside, among them every reader that stands on the retired node. */
  ghost predicate GraceSound(readers: seq<Reader>, w: Writer) {
    w.Syncing? ==>
      && (forall r :: 0 <= r < |readers| && readers[r].Walking? && readers[r].pos == w.gone ==> r in w.waitFor)
      && (forall r :: r in w.waitFor ==> 0 <= r < |readers| && readers[r].Walking?)
  }

  /** A node in slot k of the list, or the retired node that had slot k. */
  ghost predicate StandsOn(m: Memory, gone: Gone, pos: Addr, k: nat) {
    k < |m.order| && pos in m.heap && pos != HEAD && (pos == m.order[k] || gone == Gone(pos, k))
  }

  /** Where a reader stands, what it has visited, and how old what it sees can be. */
  ghost predicate ReaderSound(m: Memory, gone: Gone, me: Reader)
    requires Listed(m)
  {
    match me
    case Ready => true
    case Walking(target, pos, loaded, visited, since) =>
      && visited <= m.ids && target !in visited
      && |since| == |m.ids| && (forall i :: 0 <= i < |m.ids| ==> since[i] <= m.updates[i])
      && (if loaded then SeesRecent(m, gone, me, |visited|)
          else if visited == [] then pos == HEAD
          else SeesRecent(m, gone, me, |visited| - 1))
    case Found(target, data, visited, since, until) =>
      && visited != [] && visited <= m.ids && |since| == |until| == |m.ids|
      && FoundSound(m.modulus, target, data, visited, since, until)
    case NotFound(target, visited) => visited == m.ids && target !in m.ids
  }

  ghost predicate SeesRecent(m: Memory, gone: Gone, me: Reader, k: nat)
    requires Listed(m) && me.Walking? && |me.since| == |m.ids|
  {
    StandsOn(m, gone, me.pos, k) && me.since[k] <= m.heap[me.pos].version <= m.updates[k]
  }

  /** The id was found at the last visited place and nowhere before, and its data is that of a version published
      no earlier than the read began and no later than it ended. */
  ghost predicate FoundSound(modulus: nat, target: nat, data: nat, visited: seq<nat>, since: seq<nat>, until: seq<nat>)
    requires 0 < |visited| <= |since| == |until|
  {
    var k := |visited| - 1;
    && visited[k] == target && target !in visited[..k]
    && exists v :: since[k] <= v <= until[k] && data == Value(modulus, v)
  }

  ghost predicate Inv(s: State) {
    && Listed(s.mem) && WriterSound(s.mem, s.writer) && GraceSound(s.readers, s.writer)
    && forall r :: 0 <= r < |s.readers| ==> ReaderSound(s.mem, Retired(s.writer), s.readers[r])
  }

  lemma StartInv(ids: seq<nat>, modulus: nat, readers: nat)
    requires modulus > INITIAL
    ensures Inv(Start(ids, modulus, readers))
  {
    var m := Start(ids, modulus, readers).mem;
    assert m.heap.Keys == Members(m.order);
    forall k | 0 <= k < |ids| ensures ListedAt(m, k) {
      assert m.order[k] in m.order;
    }
  }

  // Readers.

  /** Loading a link leads from the head, a list node or the retired node to the node of the next slot. */
  lemma LoadLands(m: Memory, w: Writer, me: Reader)
    requires Listed(m) && WriterSound(m, w) && ReaderSound(m, Retired(w), me) && me.Walking? && !me.loaded
    ensures me.pos in m.next && m.next[me.pos] == Slot(m.order, |me.visited|)
  {
    if me.visited != [] {
      assert ListedAt(m, |me.visited| - 1);
    }
  }

  lemma AdvanceSound(m: Memory, w: Writer, me: Reader)
    requires Listed(m) && WriterSound(m, w) && ReaderSound(m, Retired(w), me)
    ensures ReaderSound(m, Retired(w), Advance(m, me))
  {
    if me.Walking? {
      var k := |me.visited|;
      if !me.loaded {
        LoadLands(m, w, me);
        if k < |m.order| { assert ListedAt(m, k); }
      } else {
        assert ListedAt(m, k);
        assert me.visited + [m.ids[k]] == m.ids[..k + 1];
      }
    }
  }

  /** A read moves the writer at most out of its wait for the reader, and its wait stays sound. */
  lemma ReadLeavesWriter(s: State, r: nat)
    requires Listed(s.mem) && WriterSound(s.mem, s.writer) && GraceSound(s.readers, s.writer)
    requires r < |s.readers| && ReaderSound(s.mem, Retired(s.writer), s.readers[r])
    ensures var t := Step(s, Read(r));
            && t.mem == s.mem && Retired(t.writer) == Retired(s.writer) && t.readers == s.readers[r := Advance(s.mem, s.readers[r])]
            && WriterSound(t.mem, t.writer) && GraceSound(t.readers, t.writer)
  {
    var me := s.readers[r];
    if me.Walking? && !me.loaded { LoadLands(s.mem, s.writer, me); }
    hide ReaderSound, ListedAt;
  }

  lemma ReadInv(s: State, r: nat)
    requires Inv(s)
    ensures Inv(Step(s, Read(r)))
  {
    if r < |s.readers| {
      assert ReaderSound(s.mem, Retired(s.writer), s.readers[r]);
      AdvanceSound(s.mem, s.writer, s.readers[r]);
      ReadLeavesWriter(s, r);
      hide Step, Advance, Listed, WriterSound, ReaderSound, GraceSound;
    }
  }

  lemma EnterInv(s: State, r: nat, target: nat)
    requires Inv(s)
    ensures Inv(Step(s, Enter(r, target)))
  {
  }

  // The writer.

  lemma CopyListed(m: Memory, k: nat, room: Addr)
    requires Listed(m) && k < |m.order| && m.heap.Keys == Members(m.order) && room != HEAD && room !in m.heap
    ensures Listed(Copy(m, m.order[k], room)) && Holds(Copy(m, m.order[k], room), room, k, m.updates[k] + 1)
  {
    var m' := Copy(m, m.order[k], room);
    assert ListedAt(m, k);
    assert room !in Members(m.order);
    forall j | 0 <= j < |m'.order| ensures ListedAt(m', j) {
      assert ListedAt(m, j) && m.order[j] in Members(m.order);
    }
    Increment(m.modulus, m.updates[k]);
  }

  /** One more update is one more increment, with unsigned wrap-around. */
  lemma Increment(modulus: nat, version: nat)
    requires modulus > INITIAL
    ensures var d := Value(modulus, version); Value(modulus, version + 1) == if d + 1 == modulus then 0 else d + 1
  {
    var n := INITIAL + version;
    assert n == modulus * (n / modulus) + n % modulus;
    if n % modulus + 1 == modulus {
      assert n + 1 == modulus * (n / modulus + 1);
      ModUnique(n + 1, modulus, n / modulus + 1, 0);
    } else {
      ModUnique(n + 1, modulus, n / modulus, n % modulus + 1);
    }
  }

  lemma ModUnique(n: nat, d: nat, q: nat, r: nat)
    requires r < d && n == d * q + r
    ensures n % d == r
  {
    var p, m := n / d, n % d;
    assert n == d * p + m;
    assert d * (p - q) == r - m by { assert d * (p - q) == d * p - d * q; }
    SmallMultiple(d, p - q, r - m);
  }

  lemma SmallMultiple(d: nat, x: int, y: int)
    requires 0 < d + y && y < d && d * x == y
    ensures y == 0
  {
    assert x >= 1 ==> d * x >= d;
    assert x <= -1 ==> d * x <= 0 - d;
  }

  lemma ReplaceListed(m: Memory, k: nat, copy: Addr)
    requires Listed(m) && k < |m.order| && WriterSound(m, Copied(m.order[k], k, copy))
    ensures Listed(Replace(m, k, copy)) && RetiredSound(Replace(m, k, copy), m.order[k], k)
  {
    var m' := Replace(m, k, copy);
    forall j | 0 <= j < |m'.order| ensures ListedAt(m', j) {
      assert ListedAt(m, j);
      assert j > 0 ==> m.order[j - 1] in m.order;
    }
    assert ListedAt(m, k);
    if k > 0 { assert ListedAt(m, k - 1); }
    assert Members(m'.order) + {m.order[k]} == Members(m.order) + {copy} by {
      forall a ensures a in Members(m'.order) + {m.order[k]} <==> a in Members(m.order) + {copy} {
        if a in m.order { var j :| 0 <= j < |m.order| && m.order[j] == a; assert j != k ==> m'.order[j] == a; }
        if a in m'.order { var j :| 0 <= j < |m'.order| && m'.order[j] == a; }
        assert m'.order[k] == copy;
      }
    }
  }

  lemma FreeListed(m: Memory, gone: Addr, k: nat)
    requires Listed(m) && RetiredSound(m, gone, k)
    ensures Listed(Free(m, gone)) && Free(m, gone).heap.Keys == Members(m.order)
  {
    var m' := Free(m, gone);
    forall j | 0 <= j < |m.order| ensures ListedAt(m', j) {
      assert ListedAt(m, j) && m.order[j] in m.order;
    }
  }

  /** Readers stay sound when the writer copies, replaces or frees. */
  lemma CopyKeepsReader(m: Memory, k: nat, room: Addr, me: Reader)
    requires Listed(m) && k < |m.order| && room !in m.heap && m.order[k] in m.heap && Listed(Copy(m, m.order[k], room))
    requires ReaderSound(m, Gone(HEAD, 0), me)
    ensures ReaderSound(Copy(m, m.order[k], room), Gone(HEAD, 0), me)
  {
  }

  lemma ReplaceKeepsReader(m: Memory, k: nat, copy: Addr, me: Reader)
    requires Listed(m) && k < |m.order| && Listed(Replace(m, k, copy))
    requires ReaderSound(m, Gone(HEAD, 0), me)
    ensures ReaderSound(Replace(m, k, copy), Gone(m.order[k], k), me)
  {
  }

  lemma FreeKeepsReader(m: Memory, gone: Addr, k: nat, me: Reader)
    requires Listed(m) && RetiredSound(m, gone, k) && Listed(Free(m, gone))
    requires ReaderSound(m, Gone(gone, k), me) && (me.Walking? ==> me.pos != gone)
    ensures ReaderSound(Free(m, gone), Gone(HEAD, 0), me)
  {
  }

  lemma CopyInv(s: State, target: nat, pos: Addr, k: nat, room: Addr)
    requires Inv(s) && s.writer == Scanning(target, pos, k)
    ensures Inv(Step(s, Write(room)))
  {
    var m, s' := s.mem, Step(s, Write(room));
    if k < |m.order| {
      assert ListedAt(m, k);
      if m.heap[pos].id == target && room != HEAD && room !in m.heap {
        CopyListed(m, k, room);
        forall r | 0 <= r < |s.readers| ensures ReaderSound(s'.mem, Retired(s'.writer), s.readers[r]) {
          CopyKeepsReader(m, k, room, s.readers[r]);
        }
      }
    } else {
      HeadNotAllocated(m);
    }
  }

  lemma WriteInv(s: State, room: Addr)
    requires Inv(s)
    ensures Inv(Step(s, Write(room)))
  {
    var m, s' := s.mem, Step(s, Write(room));
    match s.writer
    case Unlocked =>
    case Scanning(target, pos, k) =>
      CopyInv(s, target, pos, k, room);
    case Copied(gone, k, copy) =>
      ReplaceListed(m, k, copy);
      forall r | 0 <= r < |s.readers| ensures ReaderSound(s'.mem, Retired(s'.writer), s.readers[r]) {
        ReplaceKeepsReader(m, k, copy, s.readers[r]);
      }
    case Replaced(gone, k) =>
    case Syncing(gone, k, waitFor) =>
      if waitFor == {} {
        FreeListed(m, gone, k);
        forall r | 0 <= r < |s.readers| ensures ReaderSound(s'.mem, Retired(s'.writer), s.readers[r]) {
          FreeKeepsReader(m, gone, k, s.readers[r]);
        }
      }
  }

  lemma HeadNotAllocated(m: Memory)
    requires Listed(m) && m.heap.Keys == Members(m.order)
    ensures HEAD !in m.heap
  {
    forall k | 0 <= k < |m.order| ensures m.order[k] != HEAD {
      assert ListedAt(m, k);
    }
  }

  lemma StepInv(s: State, e: Event)
    requires Inv(s)
    ensures Inv(Step(s, e))
  {
    match e
    case Enter(r, target) => EnterInv(s, r, target);
    case Read(r) => ReadInv(s, r);
    case Lock(target) =>
    case Write(room) => WriteInv(s, room);
  }

  lemma {:induction false} RunInv(s: State, events: seq<Event>)
    requires Inv(s)
    ensures Inv(Run(s, events))
  {
    if events != [] {
      RunInv(s, events[..|events| - 1]);
      StepInv(Run(s, events[..|events| - 1]), events[|events| - 1]);
    }
  }

  // What the module promises, over every run.

  lemma Reached(ids: seq<nat>, modulus: nat, n: nat, events: seq<Event>) returns (s: State)
    requires modulus > INITIAL
    ensures s == Run(Start(ids, modulus, n), events) && Inv(s)
    ensures s.mem.ids == ids && s.mem.modulus == modulus && |s.readers| == n
  {
    s := Run(Start(ids, modulus, n), events);
    StartInv(ids, modulus, n);
    RunInv(Start(ids, modulus, n), events);
    SameIds(Start(ids, modulus, n), events);
  }

  /** The node a reader stands on may be dereferenced, and its link leads to the head or into the list. */
  ghost predicate OnLiveNode(s: State, pos: Addr) {
    && (pos == HEAD || pos in s.mem.order || pos == Retired(s.writer).a)
    && (pos != HEAD ==> pos in s.mem.heap) && pos in s.mem.next
    && (s.mem.next[pos] == HEAD || s.mem.next[pos] in s.mem.order)
  }

  lemma WalkingOnLiveNode(s: State, me: Reader)
    requires Inv(s) && ReaderSound(s.mem, Retired(s.writer), me) && me.Walking?
    ensures OnLiveNode(s, me.pos)
  {
    var k := if me.loaded then |me.visited| else |me.visited| - 1;
    if k >= 0 { assert ListedAt(s.mem, k); }
  }

  /** In every reachable state each reader stands on the head, on a list node or on the only retired node; that
      node is allocated and its link leads to the head or into the list. At most one node is allocated besides
      the list. */
  lemma ReadersStandOnLiveNodes(ids: seq<nat>, modulus: nat, n: nat, events: seq<Event>, r: nat)
    requires modulus > INITIAL && r < n
    ensures var s := Run(Start(ids, modulus, n), events);
            && |s.readers| == n && |s.mem.heap| <= |ids| + 1
            && (s.readers[r].Walking? ==> OnLiveNode(s, s.readers[r].pos))
  {
    var s := Reached(ids, modulus, n, events);
    HeapSize(s.mem, s.writer);
    assert ReaderSound(s.mem, Retired(s.writer), s.readers[r]);
    if s.readers[r].Walking? { WalkingOnLiveNode(s, s.readers[r]); }
  }

  lemma HeapSize(m: Memory, w: Writer)
    requires Listed(m) && WriterSound(m, w)
    ensures |m.heap| <= |m.ids| + 1
  {
    MembersSize(m.order);
    var extra := match w case Copied(_, _, a) => {a} case Replaced(a, _) => {a} case Syncing(a, _, _) => {a} case _ => {};
    assert m.heap.Keys == Members(m.order) + extra;
    assert |m.heap.Keys| <= |Members(m.order)| + |extra|;
  }

  lemma {:induction false} MembersSize(order: seq<Addr>)
    ensures |Members(order)| <= |order|
  {
    if order != [] {
      var last := order[|order| - 1];
      assert order == order[..|order| - 1] + [last];
      assert Members(order) == Members(order[..|order| - 1]) + {last};
      MembersSize(order[..|order| - 1]);
    } else {
      assert Members(order) == {};
    }
  }

  lemma {:induction false} SameIds(s: State, events: seq<Event>)
    ensures var t := Run(s, events); t.mem.ids == s.mem.ids && t.mem.modulus == s.mem.modulus && |t.readers| == |s.readers|
  {
    if events != [] {
      SameIds(s, events[..|events| - 1]);
    }
  }

  /** kfree happens only when no reader stands on the node. */
  lemma FreeOnlyUnread(ids: seq<nat>, modulus: nat, n: nat, events: seq<Event>, e: Event, a: Addr, r: nat)
    requires modulus > INITIAL && r < |Run(Start(ids, modulus, n), events).readers|
    requires var s := Run(Start(ids, modulus, n), events); a in s.mem.heap && a !in Step(s, e).mem.heap
    ensures var s := Run(Start(ids, modulus, n), events);
            a !in s.mem.order && !(s.readers[r].Walking? && s.readers[r].pos == a)
  {
    var s := Reached(ids, modulus, n, events);
  }

  /** The list reads, slot by slot, the ids it was built with, each with 100 plus the number of its updates. */
  lemma ListContents(ids: seq<nat>, modulus: nat, n: nat, events: seq<Event>, k: nat)
    requires modulus > INITIAL && k < |ids|
    ensures var m := Run(Start(ids, modulus, n), events).mem;
            && |m.order| == |m.updates| == |ids| && m.order[k] in m.heap && m.order[k] in m.next
            && m.heap[m.order[k]].id == ids[k] && m.heap[m.order[k]].data == (100 + m.updates[k]) % modulus
            && m.next[m.order[k]] == Slot(m.order, k + 1)
  {
    var s := Reached(ids, modulus, n, events);
    assert ListedAt(s.mem, k);
  }

  // Reads.

  /** A finished read has visited ids in list order, each once: all of them when it found nothing, and up to
      the first one it looked for when it did. */
  lemma WalkOrder(ids: seq<nat>, modulus: nat, n: nat, events: seq<Event>, r: nat)
    requires modulus > INITIAL && r < |Run(Start(ids, modulus, n), events).readers|
    ensures match Run(Start(ids, modulus, n), events).readers[r]
            case NotFound(target, visited) => visited == ids && target !in ids
            case Found(target, _, visited, _, _) =>
              visited != [] && visited <= ids && visited[|visited| - 1] == target && target !in visited[..|visited| - 1]
            case Walking(target, _, _, visited, _) => visited <= ids && target !in visited
            case Ready => true
  {
    var s := Reached(ids, modulus, n, events);
    assert ReaderSound(s.mem, Retired(s.writer), s.readers[r]);
  }

  /** How many of the events are steps of reader r. */
  function OwnSteps(r: nat, events: seq<Event>): nat {
    if events == [] then 0
    else OwnSteps(r, events[..|events| - 1]) + if events[|events| - 1] == Read(r) then 1 else 0
  }

  /** Reader r stays inside its read in every state of the run. */
  ghost predicate StaysInside(s: State, events: seq<Event>, r: nat) {
    forall j :: 0 <= j <= |events| ==> InsideAt(s, events, r, j)
  }

  ghost predicate InsideAt(s: State, events: seq<Event>, r: nat, j: nat)
    requires j <= |events|
  {
    r < |Run(s, events[..j]).readers| && Run(s, events[..j]).readers[r].Walking?
  }

  function Progress(me: Reader): nat
    requires me.Walking?
  {
    2 * |me.visited| + if me.loaded then 1 else 0
  }

  /** While a read lasts, each of its steps makes progress and nobody else's does; what it remembers of its
      start does not change. */
  lemma {:induction false} ReadProgress(s: State, events: seq<Event>, r: nat)
    requires StaysInside(s, events, r) && r < |s.readers| && s.readers[r].Walking?
    ensures var t := Run(s, events);
            && r < |t.readers| && t.readers[r].Walking?
            && Progress(t.readers[r]) == Progress(s.readers[r]) + OwnSteps(r, events)
            && t.readers[r].since == s.readers[r].since && t.readers[r].target == s.readers[r].target
  {
    assert events[..|events|] == events;
    assert InsideAt(s, events, r, |events|);
    if events != [] {
      var before := events[..|events| - 1];
      forall j | 0 <= j <= |before| ensures InsideAt(s, before, r, j) {
        assert InsideAt(s, events, r, j) && events[..j] == before[..j];
      }
      ReadProgress(s, before, r);
    }
  }

  /** However the writer interferes, a read over n ids is over after 2n + 1 of its own steps. */
  lemma ReadEnds(ids: seq<nat>, modulus: nat, n: nat, before: seq<Event>, r: nat, target: nat, during: seq<Event>)
    requires modulus > INITIAL
    requires var s := Run(Start(ids, modulus, n), before);
             r < |s.readers| && !s.readers[r].Walking? && StaysInside(Step(s, Enter(r, target)), during, r)
    ensures OwnSteps(r, during) <= 2 * |ids|
  {
    var s := Reached(ids, modulus, n, before);
    var entered := Step(s, Enter(r, target));
    StepInv(s, Enter(r, target));
    assert InsideAt(entered, during, r, 0);
    ReadProgress(entered, during, r);
    RunInv(entered, during);
    SameIds(entered, during);
    var t := Run(entered, during);
    assert ReaderSound(t.mem, Retired(t.writer), t.readers[r]);
  }

  lemma {:induction false} EveryVersionWasCurrent(s: State, events: seq<Event>, k: nat, v: nat) returns (j: nat)
    requires Inv(s) && k < |s.mem.updates| && s.mem.updates[k] <= v
    requires |Run(s, events).mem.updates| == |s.mem.updates| && v <= Run(s, events).mem.updates[k]
    ensures j <= |events| && |Run(s, events[..j]).mem.updates| == |s.mem.updates|
    ensures Run(s, events[..j]).mem.updates[k] == v
  {
    assert events[..|events|] == events;
    if Run(s, events).mem.updates[k] == v {
      j := |events|;
    } else {
      var before := events[..|events| - 1];
      RunInv(s, before);
      SameIds(s, before);
      j := EveryVersionWasCurrent(s, before, k, v);
      assert before[..j] == events[..j];
    }
  }

  /** Reads are linearizable: the data a read returns for an id was, at some instant between its start and its
      end, the data of that id in the list. */
  lemma ReadIsLinearizable(ids: seq<nat>, modulus: nat, n: nat, before: seq<Event>, r: nat, target: nat, during: seq<Event>)
    returns (j: nat, k: nat)
    requires modulus > INITIAL
    requires var s := Run(Start(ids, modulus, n), before);
             r < |s.readers| && !s.readers[r].Walking? && StaysInside(Step(s, Enter(r, target)), during, r)
    requires var s := Step(Run(Start(ids, modulus, n), before), Enter(r, target));
             r < |Step(Run(s, during), Read(r)).readers| && Step(Run(s, during), Read(r)).readers[r].Found?
    ensures j <= |during|
    ensures var s := Step(Run(Start(ids, modulus, n), before), Enter(r, target));
            var outcome, m := Step(Run(s, during), Read(r)).readers[r], Run(s, during[..j]).mem;
            && k < |m.order| == |ids| && ids[k] == target && target !in ids[..k]
            && m.order[k] in m.heap && outcome.target == target && m.heap[m.order[k]].data == outcome.data
  {
    var s0 := Reached(ids, modulus, n, before);
    var s := Step(s0, Enter(r, target));
    StepInv(s0, Enter(r, target));
    assert InsideAt(s, during, r, 0);
    ReadProgress(s, during, r);
    RunInv(s, during);
    SameIds(s, during);
    var t := Run(s, during);
    var t' := Step(t, Read(r));
    StepInv(t, Read(r));
    var outcome := t'.readers[r];
    assert ReaderSound(t'.mem, Retired(t'.writer), outcome);
    k := |outcome.visited| - 1;
    var v :| outcome.since[k] <= v <= outcome.until[k] && outcome.data == Value(modulus, v);
    j := EveryVersionWasCurrent(s, during, k, v);
    RunInv(s, during[..j]);
    SameIds(s, during[..j]);
    assert ListedAt(Run(s, during[..j]).mem, k);
  }

  /** A step of the writer leaves every reader where it is, and a step of a reader leaves the other readers and the
      memory alone; of the writer it changes nothing but whom a grace period waits for. */
  lemma StepsAreLocal(s: State, e: Event, r: nat)
    requires r < |s.readers|
    ensures var t := Step(s, e);
            && |t.readers| == |s.readers|
            && (e != Read(r) && !(e.Enter? && e.r == r && !s.readers[r].Walking?) ==> t.readers[r] == s.readers[r])
            && (e.Enter? || e.Read? ==>
                  && t.mem == s.mem
                  && (t.writer == s.writer || (s.writer.Syncing? && t.writer == Syncing(s.writer.gone, s.writer.k, t.writer.waitFor))))
  {
    hide Advance;
  }

  /** However the writer interferes, a read that is over has found its id exactly when the list carries it. */
  lemma ReadFindsExactly(ids: seq<nat>, modulus: nat, n: nat, before: seq<Event>, r: nat, target: nat, during: seq<Event>)
    requires modulus > INITIAL
    requires var s := Run(Start(ids, modulus, n), before);
             r < |s.readers| && !s.readers[r].Walking? && StaysInside(Step(s, Enter(r, target)), during, r)
    requires var t := Step(Run(Step(Run(Start(ids, modulus, n), before), Enter(r, target)), during), Read(r));
             r < |t.readers| && !t.readers[r].Walking?
    ensures var t := Step(Run(Step(Run(Start(ids, modulus, n), before), Enter(r, target)), during), Read(r));
            if target in ids then t.readers[r].Found? && t.readers[r].target == target
            else t.readers[r] == NotFound(target, ids)
  {
    var s0 := Reached(ids, modulus, n, before);
    var s := Step(s0, Enter(r, target));
    StepInv(s0, Enter(r, target));
    assert InsideAt(s, during, r, 0);
    ReadProgress(s, during, r);
    RunInv(s, during);
    SameIds(s, during);
    var t := Step(Run(s, during), Read(r));
    StepInv(Run(s, during), Read(r));
    assert ReaderSound(t.mem, Retired(t.writer), t.readers[r]);
  }

  // Updates.

  /** The writer that has the lock keeps it in every state of the run. */
  ghost predicate StaysLocked(s: State, events: seq<Event>) {
    forall j :: 0 <= j <= |events| ==> LockedAt(s, events, j)
  }

  ghost predicate LockedAt(s: State, events: seq<Event>, j: nat)
    requires j <= |events|
  {
    !Run(s, events[..j]).writer.Unlocked?
  }

  lemma LockedPrefix(s: State, events: seq<Event>)
    requires StaysLocked(s, events) && events != []
    ensures StaysLocked(s, events[..|events| - 1]) && !Run(s, events).writer.Unlocked?
  {
    var before := events[..|events| - 1];
    forall j | 0 <= j <= |before| ensures LockedAt(s, before, j) {
      assert LockedAt(s, events, j) && events[..j] == before[..j];
    }
    assert LockedAt(s, events, |events|) && events[..|events|] == events;
  }

  /** Slot k is the first one with the id, or past the last slot when there is none. */
  predicate IsFirst(ids: seq<nat>, id: nat, k: nat) {
    k <= |ids| && id !in ids[..k] && (k < |ids| ==> ids[k] == id)
  }

  /** The one change of an update: the node of slot k is another one, and its id counts one update more. */
  ghost predicate Changed(was: Memory, m: Memory, k: nat) {
    && k < |was.order| == |was.updates| == |m.order|
    && m.order == was.order[k := m.order[k]] && m.order[k] != was.order[k]
    && m.updates == was.updates[k := was.updates[k] + 1]
  }

  predicate SameList(was: Memory, m: Memory) {
    m.order == was.order && m.updates == was.updates
  }

  /** How far an update of an id whose first slot is `slot` has come. */
  ghost predicate UnderWay(was: Memory, target: nat, slot: nat, s: State) {
    match s.writer
    case Unlocked => if slot < |s.mem.ids| then Changed(was, s.mem, slot) else SameList(was, s.mem)
    case Scanning(id, _, k) => id == target && k <= slot && SameList(was, s.mem)
    case Copied(_, k, _) => k == slot && SameList(was, s.mem)
    case Replaced(_, k) => k == slot && Changed(was, s.mem, slot)
    case Syncing(_, k, _) => k == slot && Changed(was, s.mem, slot)
  }

  lemma UnderWayStep(was: Memory, target: nat, slot: nat, s: State, e: Event)
    requires Inv(s) && IsFirst(s.mem.ids, target, slot) && !s.writer.Unlocked? && UnderWay(was, target, slot, s)
    ensures UnderWay(was, target, slot, Step(s, e))
  {
    if s.writer.Scanning? {
      var k := s.writer.k;
      if k < |s.mem.order| {
        assert ListedAt(s.mem, k);
        assert k < slot ==> s.mem.ids[k] in s.mem.ids[..slot];
      } else {
        HeadNotAllocated(s.mem);
      }
    }
  }

  lemma {:induction false} UnderWayRun(target: nat, slot: nat, s: State, during: seq<Event>)
    requires Inv(s) && s.writer.Unlocked? && IsFirst(s.mem.ids, target, slot) && StaysLocked(Step(s, Lock(target)), during)
    ensures UnderWay(s.mem, target, slot, Run(Step(s, Lock(target)), during))
  {
    if during != [] {
      var locked, before := Step(s, Lock(target)), during[..|during| - 1];
      LockedPrefix(locked, during);
      UnderWayRun(target, slot, s, before);
      StepInv(s, Lock(target));
      RunInv(locked, before);
      SameIds(locked, before);
      assert before[..|before|] == before && LockedAt(locked, before, |before|);
      UnderWayStep(s.mem, target, slot, Run(locked, before), during[|during| - 1]);
    }
  }

  /** An update, from taking the lock to giving it back and whatever readers do meanwhile, puts a new node in the first
      slot with its id, whose data goes up by one, and changes nothing else; an id that is not listed changes nothing.
      The node that was replaced is not allocated any more. */
  lemma UpdateChangesItsId(ids: seq<nat>, modulus: nat, n: nat, before: seq<Event>, target: nat, during: seq<Event>, e: Event, k: nat)
    requires modulus > INITIAL && Run(Start(ids, modulus, n), before).writer.Unlocked?
    requires var s := Step(Run(Start(ids, modulus, n), before), Lock(target));
             StaysLocked(s, during) && Step(Run(s, during), e).writer.Unlocked?
    requires k <= |ids| && target !in ids[..k] && (k < |ids| ==> ids[k] == target)
    ensures var m := Run(Start(ids, modulus, n), before).mem;
            var m' := Step(Run(Step(Run(Start(ids, modulus, n), before), Lock(target)), during), e).mem;
            && |m.order| == |m.updates| == |m'.order| == |ids| && m'.heap.Keys == Members(m'.order)
            && (k == |ids| ==> m'.order == m.order && m'.updates == m.updates)
            && (k < |ids| ==> && m'.updates == m.updates[k := m.updates[k] + 1]
                              && m'.order == m.order[k := m'.order[k]] && m'.order[k] != m.order[k])
  {
    hide Start, Step, Run, StaysLocked, WriterSound, GraceSound, ReaderSound, ListedAt;
    var s := Reached(ids, modulus, n, before);
    var locked := Step(s, Lock(target));
    StepInv(s, Lock(target));
    StepIds(s, Lock(target));
    UnderWayRun(target, k, s, during);
    RunInv(locked, during);
    SameIds(locked, during);
    var t := Run(locked, during);
    StillLocked(locked, during);
    UnderWayStep(s.mem, target, k, t, e);
    StepInv(t, e);
    StepIds(t, e);
    UnlockedHeap(Step(t, e));
  }

  lemma StillLocked(s: State, events: seq<Event>)
    requires StaysLocked(s, events)
    ensures !Run(s, events).writer.Unlocked?
  {
    assert events[..|events|] == events && LockedAt(s, events, |events|);
  }

  lemma StepIds(s: State, e: Event)
    ensures Step(s, e).mem.ids == s.mem.ids
  {
  }

  lemma UnlockedHeap(s: State)
    requires Inv(s) && s.writer.Unlocked?
    ensures s.mem.heap.Keys == Members(s.mem.order) && |s.mem.order| == |s.mem.updates| == |s.mem.ids|
  {
  }

  lemma GraceStep(s: State, e: Event, r: nat)
    requires GraceSound(s.readers, s.writer) && s.writer.Syncing? && !Step(s, e).writer.Unlocked?
    ensures var t := Step(s, e);
            && t.writer.Syncing? && t.writer.gone == s.writer.gone
            && (r in t.writer.waitFor <==> r in s.writer.waitFor && r < |t.readers| && t.readers[r].Walking?)
  {
  }

  lemma InsidePrefix(s: State, events: seq<Event>, r: nat)
    requires events != []
    ensures StaysInside(s, events, r) <==> StaysInside(s, events[..|events| - 1], r) && InsideAt(s, events, r, |events|)
  {
    var before := events[..|events| - 1];
    assert forall j :: 0 <= j <= |before| ==> events[..j] == before[..j];
    assert forall j :: 0 <= j <= |before| ==> (InsideAt(s, events, r, j) <==> InsideAt(s, before, r, j));
  }

  /** While a grace period lasts, it waits for the readers that have been inside since it began. */
  lemma {:induction false} GraceWaits(s: State, during: seq<Event>, r: nat)
    requires Inv(s) && s.writer.Syncing? && s.writer.waitFor == Inside(s.readers) && StaysLocked(s, during)
    ensures var t := Run(s, during);
            t.writer.Syncing? && t.writer.gone == s.writer.gone && (r in t.writer.waitFor <==> StaysInside(s, during, r))
  {
    hide Listed, WriterSound, ReaderSound, Step, GraceSound;
    assert during[..|during|] == during;
    if during == [] {
      assert InsideAt(s, during, r, 0) <==> r in Inside(s.readers);
    } else {
      var before := during[..|during| - 1];
      LockedPrefix(s, during);
      GraceWaits(s, before, r);
      RunInv(s, before);
      GraceStep(Run(s, before), during[|during| - 1], r);
      InsidePrefix(s, during, r);
    }
  }

  /** How many of the events are steps of the writer. */
  function Writes(events: seq<Event>): nat {
    if events == [] then 0 else Writes(events[..|events| - 1]) + if events[|events| - 1].Write? then 1 else 0
  }

  /** kmalloc finds free memory whenever the writer asks for it. */
  ghost predicate RoomFree(s: State, events: seq<Event>) {
    forall j :: 0 <= j < |events| && events[j].Write? ==> IsFree(Run(s, events[..j]).mem, events[j].room)
  }

  predicate IsFree(m: Memory, room: Addr) { room != HEAD && room !in m.heap }

  /** How far the writer has come in a list of n ids. */
  function Stage(n: nat, w: Writer): nat {
    match w
    case Unlocked => 0
    case Scanning(_, _, k) => k
    case Copied(_, _, _) => n + 1
    case Replaced(_, _) => n + 2
    case Syncing(_, _, _) => n + 3
  }

  lemma StageStep(s: State, e: Event)
    requires Inv(s) && !s.writer.Unlocked? && !s.writer.Syncing? && !Step(s, e).writer.Unlocked?
    requires e.Write? ==> IsFree(s.mem, e.room)
    ensures Stage(|s.mem.ids|, Step(s, e).writer) >= Stage(|s.mem.ids|, s.writer) + if e.Write? then 1 else 0
  {
    if s.writer.Scanning? && s.writer.k < |s.mem.order| {
      assert ListedAt(s.mem, s.writer.k);
    }
  }

  lemma {:induction false} StageRun(s: State, during: seq<Event>)
    requires Inv(s) && StaysLocked(s, during) && RoomFree(s, during)
    ensures var t := Run(s, during);
            t.writer.Syncing? || Stage(|s.mem.ids|, t.writer) >= Stage(|s.mem.ids|, s.writer) + Writes(during)
  {
    if during != [] {
      var before, e := during[..|during| - 1], during[|during| - 1];
      LockedPrefix(s, during);
      StillLocked(s, before);
      forall j | 0 <= j < |before| && before[j].Write? ensures IsFree(Run(s, before[..j]).mem, before[j].room) {
        assert during[..j] == before[..j] && during[j] == before[j];
      }
      StageRun(s, before);
      RunInv(s, before);
      SameIds(s, before);
      if Run(s, before).writer.Syncing? {
        GraceStep(Run(s, before), e, 0);
      } else {
        StageStep(Run(s, before), e);
      }
    }
  }

  /** However readers interfere, a writer on n ids begins its grace period or gives the lock back within n + 3 of its
      own steps. */
  lemma UpdateReachesGrace(ids: seq<nat>, modulus: nat, n: nat, before: seq<Event>, target: nat, during: seq<Event>)
    requires modulus > INITIAL && Run(Start(ids, modulus, n), before).writer.Unlocked?
    requires var s := Step(Run(Start(ids, modulus, n), before), Lock(target));
             StaysLocked(s, during) && RoomFree(s, during) && !Run(s, during).writer.Syncing?
    ensures Writes(during) <= |ids| + 2
  {
    var s := Reached(ids, modulus, n, before);
    var locked := Step(s, Lock(target));
    StepInv(s, Lock(target));
    StepIds(s, Lock(target));
    StageRun(locked, during);
    RunInv(locked, during);
    SameIds(locked, during);
    StageBound(Run(locked, during));
  }

  lemma StageBound(s: State)
    requires Inv(s) && !s.writer.Syncing?
    ensures Stage(|s.mem.ids|, s.writer) <= |s.mem.ids| + 2
  {
  }

  /** A grace period ends, and frees the replaced node, exactly when no reader has been inside ever since it began:
      readers that came later are not waited for. */
  lemma GracePeriodExactly(ids: seq<nat>, modulus: nat, n: nat, before: seq<Event>, room: Addr, during: seq<Event>, r: Addr)
    requires modulus > INITIAL && Run(Start(ids, modulus, n), before).writer.Replaced?
    requires StaysLocked(Step(Run(Start(ids, modulus, n), before), Write(room)), during)
    ensures var s := Run(Start(ids, modulus, n), before);
            var began := Step(s, Write(room));
            var t := Step(Run(began, during), Write(r));
            && (t.writer.Unlocked? <==> forall i: nat :: i < n ==> !StaysInside(began, during, i))
            && (if t.writer.Unlocked? then s.writer.gone !in t.mem.heap else s.writer.gone in t.mem.heap)
  {
    var s := Reached(ids, modulus, n, before);
    var began := Step(s, Write(room));
    StepInv(s, Write(room));
    GraceWaits(began, during, 0);
    forall i: nat ensures i in Run(began, during).writer.waitFor <==> StaysInside(began, during, i) {
      GraceWaits(began, during, i);
    }
    RunInv(began, during);
    SameIds(began, during);
    var t := Run(began, during);
    assert t.writer.Syncing?;
    assert t.writer.waitFor == {} <==> forall i: nat :: i < n ==> i !in t.writer.waitFor;
  }
}
