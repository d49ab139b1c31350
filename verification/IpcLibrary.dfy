/** The calls of Challenge1/ku_ipc_lib.c: argument checks, the choice of ioctl command, and its dispatch. */
module IpcLibrary {
  import opened Messages
  import opened IpcMailbox
  import opened IpcKernel

  const KU_IPC_CREATE: bv32 := 1
  const KU_IPC_EXCL: bv32 := 2
  const KU_IPC_NOWAIT: bv32 := 4
  const KU_MSG_NOERROR: bv32 := 8

  datatype Command =
    | SendWait | SendNowait
    | ReceiveWaitError | ReceiveNowaitError | ReceiveWaitNoerror | ReceiveNowaitNoerror

  function ReceiveCommand(flags: bv32): Command {
    if flags & KU_IPC_NOWAIT != 0 && flags & KU_MSG_NOERROR != 0 then ReceiveNowaitNoerror
    else if flags & KU_IPC_NOWAIT != 0 then ReceiveNowaitError
    else if flags & KU_MSG_NOERROR != 0 then ReceiveWaitNoerror
    else ReceiveWaitError
  }

  /** The is_wait argument the ioctl dispatch passes on for a command. */
  predicate IsWait(cmd: Command) {
    match cmd
    case SendWait => true
    case SendNowait => false
    case ReceiveWaitError => true
    case ReceiveNowaitError => false
    case ReceiveWaitNoerror => true
    case ReceiveNowaitNoerror => false
  }

  predicate IsNoerror(cmd: Command) {
    match cmd
    case ReceiveWaitNoerror => true
    case ReceiveNowaitNoerror => true
    case _ => false
  }

  predicate BadQueueId(msqid: int) {
    msqid < 0 || msqid > 9
  }

  /** struct ku_msg_rcv_buf, the caller's message buffer. */
  class UserBuf {
    var mtype: int
    const str: array<byte>

    constructor (mtype: int)
      ensures this.mtype == mtype && str.Length == PAYLOAD && fresh(str)
    {
      this.mtype := mtype;
      str := new byte[PAYLOAD](i => 0);
    }
  }

  /** The device: ten queues that share nothing. */
  class Device {
    const queues: seq<MsgQueue>

    ghost predicate Valid()
      reads this, queues
    {
      && |queues| == MAX_QUEUE_LENGTH
      && (forall i :: 0 <= i < |queues| ==> queues[i].Valid())
      && (forall i, j :: 0 <= i < j < |queues| ==> queues[i] != queues[j] && queues[i].usingPid != queues[j].usingPid)
    }

    /** ku_ipc_init: ten empty queues. */
    constructor ()
      ensures Valid() && fresh(queues)
      ensures forall i :: 0 <= i < |queues| ==> fresh(queues[i].usingPid) && StateOf(i) == EMPTY
    {
      var made: seq<MsgQueue> := [];
      while |made| < MAX_QUEUE_LENGTH
        invariant |made| <= MAX_QUEUE_LENGTH && fresh(made)
        invariant forall i :: 0 <= i < |made| ==>
          made[i].Valid() && fresh(made[i].usingPid) && made[i].State() == EMPTY
        invariant forall i, j :: 0 <= i < j < |made| ==> made[i] != made[j] && made[i].usingPid != made[j].usingPid
      {
        var queue := new MsgQueue();
        made := made + [queue];
      }
      queues := made;
    }

    ghost function StateOf(i: nat): Queue
      requires Valid() && i < |queues|
      reads this, queues, queues[i].usingPid
    {
      queues[i].State()
    }
  }

  /** A process that linked the library: `fd` is its global, `pid` what the kernel sees as current->pid. */
  class Client {
    const dev: Device
    const pid: int
    var fd: int

    constructor (dev: Device, pid: int)
      ensures this.dev == dev && this.pid == pid && fd == 0
    {
      this.dev := dev;
      this.pid := pid;
      fd := 0;
    }

    /** `handle` is what open() returns: a descriptor, or -1, on which every ioctl fails. Descriptor 0 registers the
        caller and leaves `fd` as if nothing had been opened. */
    method MsgGet(key: int, msgflg: bv32, handle: int) returns (ret: int)
      requires dev.Valid() && handle >= -1
      modifies this`fd, dev.queues, set i | 0 <= i < |dev.queues| :: dev.queues[i].usingPid
      ensures dev.Valid()
      ensures var opens := 0 <= key <= 9 && (msgflg & 1 != 0 || msgflg & 2 != 0) && old(fd) == 0 && handle >= 0;
              if opens then
                var r := if msgflg & 1 != 0 then Create(old(dev.StateOf(key)), key, pid)
                         else Excl(old(dev.StateOf(key)), key, pid);
                Reply(dev.StateOf(key), ret, []) == r && fd == (if ret == -1 then 0 else handle)
              else
                ret == -1 && fd == old(fd)
      ensures forall i :: 0 <= i < 10 && (i != key || ret == -1) ==> dev.StateOf(i) == old(dev.StateOf(i))
    {
      if BadQueueId(key) || !(msgflg & KU_IPC_CREATE != 0 || msgflg & KU_IPC_EXCL != 0) {
        return -1;
      } else if fd != 0 {
        return -1;
      }
      fd := handle;
      if fd == -1 {
        ret := -1;
      } else if msgflg & KU_IPC_CREATE != 0 {
        ret := dev.queues[key].GetCreate(key, pid);
      } else {
        ret := dev.queues[key].GetExcl(key, pid);
      }
      if ret == -1 {
        fd := 0;
      }
    }

    method MsgClose(msqid: int) returns (ret: int)
      requires dev.Valid()
      modifies dev.queues, set i | 0 <= i < |dev.queues| :: dev.queues[i].usingPid
      ensures dev.Valid()
      ensures if !(0 <= msqid <= 9) || fd == 0 then ret == -1
              else Reply(dev.StateOf(msqid), ret, []) == Close(old(dev.StateOf(msqid)), pid)
      ensures forall i :: 0 <= i < 10 && (i != msqid || fd == 0) ==> dev.StateOf(i) == old(dev.StateOf(i))
    {
      if BadQueueId(msqid) || fd == 0 {
        return -1;
      }
      ret := dev.queues[msqid].MessageClose(pid);
    }

    /** `copied` says whether the kernel's copy from the caller succeeds. */
    method MsgSnd(msqid: int, msgp: UserBuf, msgsz: int, msgflg: bv32, copied: bool) returns (ret: int)
      requires dev.Valid() && msgp.str.Length == PAYLOAD
      modifies dev.queues, set i | 0 <= i < |dev.queues| :: dev.queues[i].usingPid
      ensures dev.Valid()
      ensures var accepted := 0 <= msqid <= 9 && (msgflg & 4 != 0 || msgflg == 0) && fd != 0 && 0 <= msgsz <= 128;
              if accepted then
                var r := Send(old(dev.StateOf(msqid)), pid, Message(old(msgp.mtype), old(msgp.str[..msgsz])), msgflg == 0, copied);
                && dev.StateOf(msqid) == r.q && ret == r.ret
                && ret == (if old(dev.StateOf(msqid)).count <= 10 && old(dev.StateOf(msqid)).vol + msgsz < 2560 && copied then 0 else -1)
                && dev.StateOf(msqid).list
                   == old(dev.StateOf(msqid)).list + if ret == 0 then [Message(old(msgp.mtype), old(msgp.str[..msgsz]))] else []
              else
                ret == -1 && forall i :: 0 <= i < 10 ==> dev.StateOf(i) == old(dev.StateOf(i))
      ensures forall i :: 0 <= i < 10 && i != msqid ==> dev.StateOf(i) == old(dev.StateOf(i))
    {
      if BadQueueId(msqid) || !(msgflg & KU_IPC_NOWAIT != 0 || msgflg == 0) || fd == 0 {
        return -1;
      } else if msgsz < 0 || msgsz > PAYLOAD {
        return -1;
      }
      var cmd := if msgflg & KU_IPC_NOWAIT != 0 then SendNowait else SendWait;
      ret := dev.queues[msqid].MessageSend(pid, msgp.mtype, msgp.str, msgsz, IsWait(cmd), copied);
    }

    method MsgRcv(msqid: int, msgp: UserBuf, msgsz: int, msgtyp: int, msgflg: bv32, copied: bool, stray: byte)
      returns (ret: int)
      requires dev.Valid() && msgp.str.Length == PAYLOAD
      modifies msgp, msgp.str, dev.queues, set i | 0 <= i < |dev.queues| :: dev.queues[i].usingPid
      ensures dev.Valid()
      ensures var accepted := 0 <= msqid <= 9 && fd != 0 && 0 <= msgsz <= 128;
              if accepted then
                var r := Receive(old(dev.StateOf(msqid)), pid, msgtyp, msgsz,
                                 msgflg & 4 == 0, msgflg & 8 != 0, copied);
                && dev.StateOf(msqid) == r.q && ret == r.ret && msgp.mtype == msgtyp
                && msgp.str[..] == Overwritten(old(msgp.str[..]), r.bytes,
                                               ret >= 0 && Fits(old(dev.StateOf(msqid)), msgtyp, msgsz), stray)
              else
                ret == -1 && unchanged(msgp.str) && forall i :: 0 <= i < 10 ==> dev.StateOf(i) == old(dev.StateOf(i))
      ensures forall i :: 0 <= i < 10 && i != msqid ==> dev.StateOf(i) == old(dev.StateOf(i))
    {
      if BadQueueId(msqid) || fd == 0 {
        return -1;
      } else if msgsz < 0 || msgsz > PAYLOAD {
        return -1;
      }
      msgp.mtype := msgtyp;
      var cmd := ReceiveCommand(msgflg);
      assert IsWait(cmd) == (msgflg & KU_IPC_NOWAIT == 0) && IsNoerror(cmd) == (msgflg & KU_MSG_NOERROR != 0);
      hide Receive, Overwritten, FirstWanted, Wanted, Picks, Fits, ReceiveCommand, IsWait, IsNoerror;
      ghost var pos;
      ghost var had, buffer := dev.StateOf(msqid), msgp.str[..];
      ret, pos := dev.queues[msqid].MessageReceive(pid, msgtyp, msgp.str, msgsz, IsWait(cmd), IsNoerror(cmd), copied, stray);
      assert dev.Valid() && forall i :: 0 <= i < 10 && i != msqid ==> dev.StateOf(i) == old(dev.StateOf(i));
      assert had == old(dev.StateOf(msqid)) && buffer == old(msgp.str[..]);
    }
  }

  /** What a receive leaves in the caller's buffer after the send it answers. */
  lemma Exchanged(q: Queue, sender: int, m: Message, wait: bool, receiver: int, typ: int, cap: nat, waits: bool, noerror: bool,
                  text: seq<byte>, got: seq<byte>)
    requires !Full(q.count, q.vol, |m.body|) && FirstWanted(typ, TypeOf, q.list) == |q.list| && Wanted(typ, m.mtype)
    requires (|m.body| <= cap || noerror) && m.body <= text
    requires Receive(Send(q, sender, m, wait, true).q, receiver, typ, cap, waits, noerror, true).bytes <= got
    ensures var n, r := if |m.body| <= cap then |m.body| else cap,
                        Receive(Send(q, sender, m, wait, true).q, receiver, typ, cap, waits, noerror, true);
            r.q == q && r.ret == n && got[..n] == text[..n]
  {
    SendThenReceive(q, sender, m, wait, receiver, typ, cap, waits, noerror);
  }

  /** End to end: what one process sends, another receives, cut to its buffer, and the queue ends as it began. */
  method Exchange(a: Client, b: Client, msqid: int, from: UserBuf, into: UserBuf, n: nat, sflags: bv32,
                  cap: nat, typ: int, rflags: bv32, stray: byte)
    returns (ret: int)
    requires a.dev == b.dev && a.dev.Valid() && a.fd != 0 && b.fd != 0 && 0 <= msqid <= 9
    requires from != into && from.str != into.str && from.str.Length == PAYLOAD && into.str.Length == PAYLOAD
    requires n <= PAYLOAD && cap <= PAYLOAD && (n <= cap || rflags & 8 != 0)
    requires sflags & 4 != 0 || sflags == 0
    requires var q := a.dev.StateOf(msqid);
             !Full(q.count, q.vol, n) && FirstWanted(typ, TypeOf, q.list) == |q.list| && Wanted(typ, from.mtype)
    modifies into, into.str, a.dev.queues, set i | 0 <= i < |a.dev.queues| :: a.dev.queues[i].usingPid
    ensures a.dev.Valid()
    ensures ret == (if n <= cap then n else cap) && into.str[..][..ret] == old(from.str[..])[..ret]
    ensures forall i :: 0 <= i < 10 ==> a.dev.StateOf(i) == old(a.dev.StateOf(i))
  {
    hide Send, Receive, FirstWanted;
    ghost var q, m := a.dev.StateOf(msqid), Message(from.mtype, from.str[..n]);
    ghost var text := from.str[..];
    var sent := a.MsgSnd(msqid, from, n, sflags, true);
    assert sent == 0;
    ghost var full := a.dev.StateOf(msqid);
    assert full == Send(q, a.pid, m, sflags == 0, true).q;
    ret := b.MsgRcv(msqid, into, cap, typ, rflags, true, stray);
    Exchanged(q, a.pid, m, sflags == 0, b.pid, typ, cap, rflags & KU_IPC_NOWAIT == 0, rflags & KU_MSG_NOERROR != 0,
              text, into.str[..]);
    assert a.dev.StateOf(msqid) == q;
  }
}
