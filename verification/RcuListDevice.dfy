/** The two ioctl commands of Lab10/simple_rculist with nobody else running, on a list that they change in place. */
module RcuListDevice {
  import opened RcuList

  /** Slot of the first node with an id, or the number of slots. */
  function FirstWith(ids: seq<nat>, id: nat): (k: nat)
    ensures k <= |ids| && (k < |ids| ==> ids[k] == id) && id !in ids[..k]
  {
    if ids == [] then 0 else if ids[0] == id then 0
    else
      var rest := FirstWith(ids[1..], id);
      assert ids[..1 + rest] == [ids[0]] + ids[1..][..rest];
      1 + rest
  }

  lemma {:induction false} FirstIs(ids: seq<nat>, id: nat, k: nat)
    requires IsFirst(ids, id, k)
    ensures FirstWith(ids, id) == k
  {
    if k > 0 {
      assert ids[0] in ids[..k];
      assert ids[1..][..k - 1] == ids[..k][1..];
      FirstIs(ids[1..], id, k - 1);
    }
  }

  lemma RunSnoc(s: State, events: seq<Event>, e: Event)
    ensures Run(s, events + [e]) == Step(Run(s, events), e)
  {
    assert (events + [e])[..|events|] == events;
  }

  /** The four writer steps that replace a node when nobody reads. */
  lemma Replacing(m: Memory, id: nat, pos: Addr, k: nat, room: Addr)
    requires pos in m.heap && m.heap[pos].id == id && room != HEAD && room !in m.heap && k < |m.order| == |m.updates|
    ensures var c, w := Copy(m, pos, room), Write(room); var r := Replace(c, k, room);
            && Step(State(m, [], Scanning(id, pos, k)), w) == State(c, [], Copied(pos, k, room))
            && Step(State(c, [], Copied(pos, k, room)), w) == State(r, [], Replaced(pos, k))
            && Step(State(r, [], Replaced(pos, k)), w) == State(r, [], Syncing(pos, k, {}))
            && Step(State(r, [], Syncing(pos, k, {})), w) == State(Free(r, pos), [], Unlocked)
  {
    assert Inside([]) == {};
  }

  lemma RunFour(s: State, events: seq<Event>, w: Event, a: State, b: State, c: State, d: State, e: State)
    requires Run(s, events) == a && Step(a, w) == b && Step(b, w) == c && Step(c, w) == d && Step(d, w) == e
    ensures Run(s, events + [w] + [w] + [w] + [w]) == e
  {
    RunSnoc(s, events, w);
    RunSnoc(s, events + [w], w);
    RunSnoc(s, events + [w] + [w], w);
    RunSnoc(s, events + [w] + [w] + [w], w);
  }

  /** The events are one UPDATE call of the id: the lock, and then steps of the writer. */
  ghost predicate OneUpdate(events: seq<Event>, id: nat) {
    events != [] && events[0] == Lock(id) && forall i :: 0 < i < |events| ==> events[i].Write?
  }

  /** The writer's scan past k slots without the id. */
  lemma {:induction false} ScanRun(m: Memory, id: nat, k: nat) returns (events: seq<Event>)
    requires Listed(m) && k <= |m.ids| && id !in m.ids[..k]
    ensures Run(State(m, [], Unlocked), events) == State(m, [], Scanning(id, Slot(m.order, k), k)) && OneUpdate(events, id)
  {
    var s := State(m, [], Unlocked);
    if k == 0 {
      events := [Lock(id)];
      assert Run(s, []) == s;
      RunSnoc(s, [], Lock(id));
    } else {
      assert m.ids[k - 1] in m.ids[..k] && m.ids[..k][..k - 1] == m.ids[..k - 1];
      var before := ScanRun(m, id, k - 1);
      assert ListedAt(m, k - 1);
      RunSnoc(s, before, Write(HEAD));
      events := before + [Write(HEAD)];
    }
  }

  /** The scan that found nothing lets the lock go. */
  lemma MissRun(m: Memory, id: nat) returns (events: seq<Event>)
    requires Listed(m) && m.heap.Keys == Members(m.order) && id !in m.ids
    ensures Run(State(m, [], Unlocked), events) == State(m, [], Unlocked) && OneUpdate(events, id)
  {
    var before := ScanRun(m, id, |m.ids|);
    HeadNotAllocated(m);
    RunSnoc(State(m, [], Unlocked), before, Write(HEAD));
    events := before + [Write(HEAD)];
  }

  lemma SwapRun(s: State, events: seq<Event>, m: Memory, id: nat, pos: Addr, k: nat, room: Addr) returns (more: seq<Event>)
    requires Run(s, events) == State(m, [], Scanning(id, pos, k)) && OneUpdate(events, id)
    requires pos in m.heap && m.heap[pos].id == id && room != HEAD && room !in m.heap && k < |m.order| == |m.updates|
    ensures Run(s, more) == State(Free(Replace(Copy(m, pos, room), k, room), pos), [], Unlocked) && OneUpdate(more, id)
  {
    Replacing(m, id, pos, k, room);
    var w, c := Write(room), Copy(m, pos, room);
    var r := Replace(c, k, room);
    RunFour(s, events, w, State(m, [], Scanning(id, pos, k)), State(c, [], Copied(pos, k, room)),
            State(r, [], Replaced(pos, k)), State(r, [], Syncing(pos, k, {})), State(Free(r, pos), [], Unlocked));
    more := events + [w] + [w] + [w] + [w];
  }

  /** One more step of the only reader. */
  lemma ReadSnoc(m: Memory, before: seq<Event>, me: Reader)
    requires Run(State(m, [Ready], Unlocked), before) == State(m, [me], Unlocked)
    ensures Run(State(m, [Ready], Unlocked), before + [Read(0)]) == State(m, [Advance(m, me)], Unlocked)
  {
    RunSnoc(State(m, [Ready], Unlocked), before, Read(0));
    assert [me][0 := Advance(m, me)] == [Advance(m, me)];
  }

  /** A read's place after k slots without the id. */
  function Passed(m: Memory, id: nat, k: nat): Reader
    requires k <= |m.ids| == |m.order|
  {
    Walking(id, if k == 0 then HEAD else m.order[k - 1], false, m.ids[..k], m.updates)
  }

  /** The load that follows, and the look at the node it leads to. */
  lemma Passing(m: Memory, id: nat, k: nat)
    requires Listed(m) && k <= |m.ids|
    ensures var me := Advance(m, Passed(m, id, k));
            if k == |m.ids| then me == NotFound(id, m.ids)
            else
              && m.order[k] in m.heap && m.heap[m.order[k]].id == m.ids[k]
              && Advance(m, me) == if m.ids[k] == id
                                   then Found(id, m.heap[m.order[k]].data, m.ids[..k + 1], m.updates, m.updates)
                                   else Passed(m, id, k + 1)
  {
    if k > 0 { assert ListedAt(m, k - 1); }
    if k < |m.ids| {
      assert ListedAt(m, k);
      assert m.ids[..k] + [m.ids[k]] == m.ids[..k + 1];
    } else {
      assert m.ids[..k] == m.ids;
    }
  }

  /** The events are one READ call of the id. */
  ghost predicate OneRead(events: seq<Event>, id: nat) {
    events != [] && events[0] == Enter(0, id) && forall i :: 0 < i < |events| ==> events[i] == Read(0)
  }

  lemma {:induction false} WalkRun(m: Memory, id: nat, k: nat) returns (events: seq<Event>)
    requires Listed(m) && k <= |m.ids| && id !in m.ids[..k]
    ensures Run(State(m, [Ready], Unlocked), events) == State(m, [Passed(m, id, k)], Unlocked) && OneRead(events, id)
  {
    var s := State(m, [Ready], Unlocked);
    if k == 0 {
      events := [Enter(0, id)];
      assert Run(s, []) == s;
      RunSnoc(s, [], Enter(0, id));
      assert [Ready][0 := Passed(m, id, 0)] == [Passed(m, id, 0)];
    } else {
      hide Run, Step, Listed, Advance, Passed;
      assert m.ids[k - 1] in m.ids[..k] && m.ids[..k][..k - 1] == m.ids[..k - 1];
      var before := WalkRun(m, id, k - 1);
      Passing(m, id, k - 1);
      ReadSnoc(m, before, Passed(m, id, k - 1));
      ReadSnoc(m, before + [Read(0)], Advance(m, Passed(m, id, k - 1)));
      events := before + [Read(0)] + [Read(0)];
    }
  }

  /** The run of a read that nobody interferes with. */
  lemma ReadRun(m: Memory, id: nat, k: nat) returns (events: seq<Event>)
    requires Listed(m) && IsFirst(m.ids, id, k)
    ensures k < |m.ids| ==> m.order[k] in m.heap && m.heap[m.order[k]].id == id
    ensures Run(State(m, [Ready], Unlocked), events)
            == State(m, [if k == |m.ids| then NotFound(id, m.ids)
                         else Found(id, m.heap[m.order[k]].data, m.ids[..k + 1], m.updates, m.updates)], Unlocked)
    ensures OneRead(events, id)
  {
    var before := WalkRun(m, id, k);
    hide Run, Step, Advance, Passed;
    Passing(m, id, k);
    ReadSnoc(m, before, Passed(m, id, k));
    events := before + [Read(0)];
    if k < |m.ids| {
      ReadSnoc(m, events, Advance(m, Passed(m, id, k)));
      events := events + [Read(0)];
    }
  }

  class TestList {
    var mem: Memory

    ghost predicate Valid()
      reads this
    {
      Listed(mem) && mem.heap.Keys == Members(mem.order)
    }

    constructor (ids: seq<nat>, modulus: nat)
      requires modulus > INITIAL
      ensures Valid() && mem == RcuList.Start(ids, modulus, 0).mem
    {
      StartInv(ids, modulus, 0);
      mem := RcuList.Start(ids, modulus, 0).mem;
    }

    /** IOCTL_READ: the data of the first node with the id. The call is a run of one reader of the step machine. */
    method ReadId(id: nat) returns (found: bool, data: nat, ghost events: seq<Event>)
      requires Valid()
      ensures found <==> id in mem.ids
      ensures found ==> data == (100 + mem.updates[FirstWith(mem.ids, id)]) % mem.modulus
      ensures var k, u := FirstWith(mem.ids, id), mem.updates;
              Run(State(mem, [Ready], Unlocked), events)
              == State(mem, [if found then Found(id, data, mem.ids[..k + 1], u, u) else NotFound(id, mem.ids)], Unlocked)
      ensures events != [] && events[0] == Enter(0, id) && forall i :: 0 < i < |events| ==> events[i] == Read(0)
    {
      found, data := false, 0;
      var pos := NextOf(mem, HEAD);
      ghost var k := 0;
      if 0 < |mem.ids| { assert ListedAt(mem, 0); }
      while pos != HEAD
        invariant k <= |mem.ids| && pos == Slot(mem.order, k) && id !in mem.ids[..k]
        invariant pos == HEAD ==> k == |mem.ids|
        decreases |mem.ids| - k
      {
        assert ListedAt(mem, k);
        if mem.heap[pos].id == id {
          FirstIs(mem.ids, id, k);
          events := ReadRun(mem, id, k);
          return true, mem.heap[pos].data, events;
        }
        pos := NextOf(mem, pos);
        k := k + 1;
        if k < |mem.ids| { assert ListedAt(mem, k); }
      }
      assert mem.ids[..k] == mem.ids;
      FirstIs(mem.ids, id, k);
      events := ReadRun(mem, id, k);
    }

    /** kmalloc, memcpy, list_replace_rcu and kfree of the node in slot k. */
    method SwapNode(pos: Addr, k: nat, room: Addr)
      requires Valid() && room != HEAD && room !in mem.heap && k < |mem.order| && pos == mem.order[k]
      requires pos in mem.heap
      modifies this
      ensures Valid() && mem == Free(Replace(Copy(old(mem), pos, room), k, room), pos)
    {
      CopyListed(mem, k, room);
      mem := Copy(mem, pos, room);
      ReplaceListed(mem, k, room);
      mem := Replace(mem, k, room);
      FreeListed(mem, pos, k);
      mem := Free(mem, pos);
    }

    /** IOCTL_UPDATE: the node is replaced by a copy with its data increased, and freed. The call is a run of the
        step machine without readers. */
    method UpdateId(id: nat, room: Addr) returns (found: bool, ghost events: seq<Event>)
      requires Valid() && room != HEAD && room !in mem.heap
      modifies this
      ensures Valid() && mem.ids == old(mem.ids) && mem.modulus == old(mem.modulus)
      ensures var k := FirstWith(old(mem.ids), id);
              && (found <==> k < |old(mem.ids)|)
              && (found ==> mem.updates == old(mem.updates)[k := old(mem.updates)[k] + 1] && mem.order == old(mem.order)[k := room])
              && (!found ==> mem == old(mem))
      ensures Run(State(old(mem), [], Unlocked), events) == State(mem, [], Unlocked)
      ensures events != [] && events[0] == Lock(id) && forall i :: 0 < i < |events| ==> events[i].Write?
    {
      hide Step, Run;
      var pos := NextOf(mem, HEAD);
      var k := 0;
      found := false;
      if 0 < |mem.ids| { assert ListedAt(mem, 0); }
      while pos != HEAD
        invariant mem == old(mem) && k <= |mem.ids| && pos == Slot(mem.order, k) && id !in mem.ids[..k]
        invariant pos == HEAD ==> k == |mem.ids|
        decreases |mem.ids| - k
      {
        assert ListedAt(mem, k);
        if mem.heap[pos].id == id {
          FirstIs(mem.ids, id, k);
          found := true;
          events := ScanRun(mem, id, k);
          events := SwapRun(State(mem, [], Unlocked), events, mem, id, pos, k, room);
          SwapNode(pos, k, room);
          return;
        }
        pos := NextOf(mem, pos);
        k := k + 1;
        if k < |mem.ids| { assert ListedAt(mem, k); }
      }
      assert mem.ids[..k] == mem.ids;
      FirstIs(mem.ids, id, k);
      events := MissRun(mem, id);
    }
  }
}
