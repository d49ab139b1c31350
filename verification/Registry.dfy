/** The registry of a ku_ipc queue: the pids in the used slots of using_pid, in slot order. */
module Registry {

  const MAXPROC := 16

  ghost predicate Distinct(users: seq<int>) {
    forall i, j :: 0 <= i < j < |users| ==> users[i] != users[j]
  }

  /** An exclusive open needs an empty registry, any other a free slot and a caller that has none. */
  predicate Admits(users: seq<int>, pid: int, excl: bool) {
    if excl then users == [] else |users| != MAXPROC && pid !in users
  }

  function LastIndex(users: seq<int>, pid: int): (i: int)
    ensures -1 <= i < |users|
    ensures i >= 0 ==> users[i] == pid
    ensures forall j :: i < j < |users| ==> users[j] != pid
  {
    if users == [] then -1
    else if users[|users| - 1] == pid then |users| - 1
    else LastIndex(users[..|users| - 1], pid)
  }

  /** The registry after a close: the last slot of the caller is shifted out. */
  function Removed(users: seq<int>, pid: int): seq<int> {
    var i := LastIndex(users, pid);
    if i < 0 then users else users[..i] + users[i + 1..]
  }

  /** A close clears the slot after the last used one. With all 16 slots in use that is the next field of the
      structure, queue_count. */
  function CountAfterClose(users: seq<int>, pid: int, count: int): int {
    if pid in users && |users| == MAXPROC then 0 else count
  }

  function Others(users: seq<int>, pid: int): seq<int> {
    if users == [] then [] else (if users[0] == pid then [] else [users[0]]) + Others(users[1..], pid)
  }

  lemma {:induction false} OthersSplit(users: seq<int>, pid: int, i: nat)
    requires i < |users| && users[i] == pid && Distinct(users)
    ensures Others(users, pid) == users[..i] + users[i + 1..]
  {
    if i == 0 {
      forall j | 0 <= j < |users[1..]| ensures users[1..][j] != pid { assert users[1..][j] == users[j + 1]; }
      NoneOther(users[1..], pid);
    } else {
      assert users[0] != pid;
      assert users[1..][i - 1] == users[i];
      OthersSplit(users[1..], pid, i - 1);
      assert users[..i] == [users[0]] + users[1..][..i - 1];
      assert users[1..][i - 1 + 1..] == users[i + 1..];
    }
  }

  lemma {:induction false} NoneOther(users: seq<int>, pid: int)
    requires forall j :: 0 <= j < |users| ==> users[j] != pid
    ensures Others(users, pid) == users
  {
    if users != [] {
      NoneOther(users[1..], pid);
    }
  }

  /** A close takes out exactly the caller and keeps the order of everyone else. */
  lemma RemovedIsOthers(users: seq<int>, pid: int)
    requires Distinct(users)
    ensures Removed(users, pid) == Others(users, pid)
    ensures pid !in Removed(users, pid) && Distinct(Removed(users, pid))
  {
    hide Others, LastIndex;
    var i := LastIndex(users, pid);
    if i >= 0 {
      OthersSplit(users, pid, i);
    } else {
      NoneOther(users, pid);
    }
  }
}
