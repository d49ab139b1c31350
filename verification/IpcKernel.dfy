/** The entry points of Challenge1/ku_ipc.c on their own data: ten queues, changed in place. */
module IpcKernel {
  import opened Messages
  import opened Registry
  import opened IpcMailbox

  const MAX_QUEUE_LENGTH := 10

  /** struct ku_msg_queue. */
  class MsgQueue {
    var list: seq<Message>
    const usingPid: array<int>
    var queueCount: int
    var queueVol: int
    var pidIndex: nat

    ghost predicate Valid()
      reads this
    {
      usingPid.Length == MAXPROC && pidIndex <= MAXPROC
    }

    ghost function State(): Queue
      requires Valid()
      reads this, usingPid
    {
      Queue(list, usingPid[..pidIndex], queueCount, queueVol)
    }

    constructor ()
      ensures Valid() && State() == EMPTY && fresh(usingPid)
    {
      usingPid := new int[MAXPROC];
      list, queueCount, queueVol, pidIndex := [], 0, 0, 0;
    }

    /** check_pid: whether the caller is not yet registered. */
    method CheckPid(pid: int) returns (unused: bool)
      requires Valid()
      ensures unused <==> pid !in State().users
    {
      var i := 0;
      while i < pidIndex
        invariant i <= pidIndex
        invariant pid !in usingPid[..i]
      {
        if usingPid[i] == pid {
          return false;
        }
        i := i + 1;
      }
      return true;
    }

    method GetCreate(qid: int, pid: int) returns (ret: int)
      requires Valid()
      modifies this, usingPid
      ensures Valid()
      ensures Reply(State(), ret, []) == Create(old(State()), qid, pid)
      ensures var users := old(State()).users;
              if |users| != 16 && pid !in users then ret == qid && State().users == users + [pid]
              else ret == -1 && State() == old(State())
    {
      if pidIndex == MAXPROC {
        return -1;
      }
      var unused := CheckPid(pid);
      if !unused {
        return -1;
      }
      usingPid[pidIndex] := pid;
      pidIndex := pidIndex + 1;
      return qid;
    }

    method GetExcl(qid: int, pid: int) returns (ret: int)
      requires Valid()
      modifies this, usingPid
      ensures Valid()
      ensures Reply(State(), ret, []) == Excl(old(State()), qid, pid)
      ensures if old(State()).users == [] then ret == qid && State().users == [pid]
              else ret == -1 && State() == old(State())
    {
      if pidIndex != 0 {
        return -1;
      }
      usingPid[pidIndex] := pid;
      pidIndex := pidIndex + 1;
      return qid;
    }

    /** The scan of message_close: it runs to the end and keeps the last slot of the caller. */
    method LastSlot(pid: int) returns (flag: int)
      requires Valid()
      ensures flag == LastIndex(State().users, pid)
    {
      flag := -1;
      var i := 0;
      while i < pidIndex
        invariant i <= pidIndex
        invariant -1 <= flag < i
        invariant flag >= 0 ==> usingPid[..pidIndex][flag] == pid
        invariant forall j :: flag < j < i ==> usingPid[..pidIndex][j] != pid
      {
        if usingPid[i] == pid {
          flag := i;
        }
        i := i + 1;
      }
    }

    /** The shift of message_close: the slots after `flag` move one down. */
    method ShiftDown(flag: nat)
      requires Valid() && flag < pidIndex
      modifies usingPid
      ensures usingPid[..pidIndex - 1] == old(usingPid[..flag] + usingPid[flag + 1..pidIndex])
    {
      var i := flag;
      while i < pidIndex - 1
        invariant flag <= i <= pidIndex - 1
        invariant forall j :: 0 <= j < flag ==> usingPid[j] == old(usingPid[j])
        invariant forall j :: flag <= j < i ==> usingPid[j] == old(usingPid[j + 1])
        invariant forall j :: i < j < pidIndex ==> usingPid[j] == old(usingPid[j])
      {
        usingPid[i] := usingPid[i + 1];
        i := i + 1;
      }
    }

    /** message_close: the last slot of the caller is shifted out, and the slot after the last one cleared. */
    method MessageClose(pid: int) returns (ret: int)
      requires Valid()
      modifies this, usingPid
      ensures Valid()
      ensures Reply(State(), ret, []) == Close(old(State()), pid)
      ensures ret == (if pid in old(State()).users then 0 else -1) && list == old(list) && queueVol == old(queueVol)
      ensures queueCount == if ret == 0 && old(pidIndex) == 16 then 0 else old(queueCount)
      ensures var users, i := old(State()).users, LastIndex(old(State()).users, pid);
              State().users == if ret == 0 && i >= 0 then users[..i] + users[i + 1..] else users
    {
      ghost var users := State().users;
      var flag := LastSlot(pid);
      assert Removed(users, pid) == if flag < 0 then users else users[..flag] + users[flag + 1..];
      hide LastIndex, Removed;
      if flag == -1 {
        return -1;
      }
      ShiftDown(flag);
      assert usingPid[..pidIndex - 1] == users[..flag] + users[flag + 1..];
      // using_pid[pid_index--] = 0: one past the last used slot, which is queue_count when all 16 are used.
      if pidIndex == MAXPROC {
        queueCount := 0;
      } else {
        usingPid[pidIndex] := 0;
      }
      pidIndex := pidIndex - 1;
      return 0;
    }

    /** message_send with nobody else running: a blocked wait can only end by a signal. A negative size, which the
        library never passes, makes the copy fail. */
    method MessageSend(pid: int, mtype: int, str: array<byte>, size: int, isWait: bool, copied: bool) returns (ret: int)
      requires Valid() && size <= str.Length
      modifies this, usingPid
      ensures Valid()
      ensures size >= 0 ==>
                var r := Send(old(State()), pid, Message(mtype, old(str[..size])), isWait, copied);
                State() == r.q && ret == r.ret
      ensures size < 0 ==>
                var q := old(State());
                ret == -1 && State() == if isWait && Full(q.count, q.vol, size) then Close(q, pid).q else q
      ensures ret == if old(queueCount) <= 10 && old(queueVol) + size < 2560 && size >= 0 && copied then 0 else -1
      ensures list == if ret == 0 then old(list) + [Message(mtype, old(str[..size]))] else old(list)
      ensures ret == 0 ==> queueCount == old(queueCount) + 1 && queueVol == old(queueVol) + size
      ensures ret == 0 ==> State().users == old(State()).users
    {
      if queueCount > MAXMSG || queueVol + size >= MAXVOL {
        if isWait {
          var _ := MessageClose(pid);
        }
        return -1;
      }
      queueVol := queueVol + size;
      queueCount := queueCount + 1;
      if size < 0 || !copied {
        queueVol := queueVol - size;
        queueCount := queueCount - 1;
        return -1;
      }
      list := list + [Message(mtype, str[..size])];
      return 0;
    }

    /** find_current_list, and the first entry for type 0: the position of the entry, or -1. */
    method FindCurrentList(typ: int) returns (pos: int)
      ensures var i := FirstWanted(typ, TypeOf, list); pos == if i == |list| then -1 else i
      ensures -1 <= pos < |list| && Picks(typ, list, pos)
    {
      if typ == 0 {
        assert list != [] ==> Wanted(typ, TypeOf(list[0]));
        return if list == [] then -1 else 0;
      }
      pos := 0;
      while pos < |list|
        invariant 0 <= pos <= |list|
        invariant forall j :: 0 <= j < pos ==> !Wanted(typ, TypeOf(list[j]))
      {
        if typ > 0 && list[pos].mtype == typ {
          return;
        } else if typ < 0 && list[pos].mtype < -typ {
          return;
        }
        pos := pos + 1;
      }
      return -1;
    }

    /** The copy to the caller and the unlinking of the entry. */
    method Deliver(at: nat, str: array<byte>, size: nat, over: bool, stray: byte)
      requires Valid() && at < |list| && size <= |list[at].body| && size <= str.Length
      modifies this, str
      ensures Valid() && State().users == old(State()).users
      ensures str[..] == Overwritten(old(str[..]), old(list)[at].body[..size], over, stray)
      ensures list == old(list)[..at] + old(list)[at + 1..]
      ensures queueCount == old(queueCount) - 1 && queueVol == old(queueVol) - |old(list)[at].body|
    {
      var m := list[at];
      forall i | 0 <= i < size {
        str[i] := m.body[i];
      }
      if over && size < str.Length {
        str[size] := stray;
      }
      queueVol := queueVol - |m.body|;
      queueCount := queueCount - 1;
      list := list[..at] + list[at + 1..];
    }

    /** message_receive with nobody else running; a failed copy leaves the caller's buffer alone. `stray` is what
        follows the message in the kernel's memory, `pos` where the message was that it selected. */
    method MessageReceive(pid: int, typ: int, str: array<byte>, cap: nat, isWait: bool, isNoerror: bool, copied: bool,
                          stray: byte)
      returns (ret: int, ghost pos: int)
      requires Valid() && cap <= str.Length
      modifies this, usingPid, str
      ensures Valid()
      ensures var r := Receive(old(State()), pid, typ, cap, isWait, isNoerror, copied);
              && State() == r.q && ret == r.ret
              && str[..] == Overwritten(old(str[..]), r.bytes, ret >= 0 && Fits(old(State()), typ, cap), stray)
      ensures -1 <= pos < |old(list)| && Picks(typ, old(list), pos)
      ensures if pos >= 0 && (|old(list)[pos].body| <= cap || isNoerror) && copied
              then
                && ret == (if |old(list)[pos].body| <= cap then |old(list)[pos].body| else cap)
                && str[..ret] == old(list)[pos].body[..ret] && list == old(list)[..pos] + old(list)[pos + 1..]
                && queueCount == old(queueCount) - 1 && queueVol == old(queueVol) - |old(list)[pos].body|
              else
                ret == -1 && list == old(list) && queueVol == old(queueVol) && str[..] == old(str[..])
      ensures pos >= 0 && ret == -1 ==> State() == old(State())
    {
      ReceiveReplies(State(), pid, typ, cap, isWait, isNoerror, copied);
      hide Receive, Send, FirstWanted, Wanted, Picks;
      var at := FindCurrentList(typ);
      pos := at;
      if at == -1 {
        if isWait {
          var _ := MessageClose(pid);
        }
        return -1, pos;
      }
      var m := list[at];
      var size := |m.body|;
      if |m.body| > cap {
        if !isNoerror {
          return -1, pos;
        }
        size := cap;
      }
      if !copied {
        return -1, pos;
      }
      Deliver(at, str, size, |m.body| <= cap, stray);
      return size, pos;
    }
  }
}
