/** Messages, the limits of Challenge1/ku_ipc.h, and the rule by which a receive picks a message. */
module Messages {

  const MAXMSG := 10
  const MAXVOL := 2560
  const PAYLOAD := 128

  newtype byte = x: int | 0 <= x < 256

  /** A queued message: its type and the bytes copied from the sender. */
  datatype Message = Message(mtype: int, body: seq<byte>)

  function TypeOf(m: Message): int { m.mtype }

  function SizeOf(m: Message): int { |m.body| }

  /** The selection rule: 0 takes anything, t takes type t, and -t takes any type strictly below t. */
  predicate Wanted(typ: int, mtype: int) {
    typ == 0 || (typ > 0 && mtype == typ) || (typ < 0 && mtype < -typ)
  }

  /** Position of the first wanted element, or the length of the list when there is none. */
  function FirstWanted<T>(typ: int, key: T -> int, list: seq<T>): (r: nat)
    ensures r <= |list|
    ensures r < |list| ==> Wanted(typ, key(list[r]))
    ensures forall i :: 0 <= i < r ==> !Wanted(typ, key(list[i]))
  {
    if list == [] then 0
    else if Wanted(typ, key(list[0])) then 0
    else
      var rest := FirstWanted(typ, key, list[1..]);
      assert forall i :: 0 < i < 1 + rest ==> list[i] == list[1..][i - 1];
      1 + rest
  }

  /** What a receive selects: for 0 the first entry, for t > 0 the first one of type t, and for -t the first one of a
      type below t, which there is exactly when not every type is t or more. */
  lemma SelectionRule<T>(typ: int, key: T -> int, list: seq<T>)
    ensures var i := FirstWanted(typ, key, list);
            && (typ == 0 ==> i == 0)
            && (typ > 0 ==> (if i < |list| then key(list[i]) == typ else true) && forall j :: 0 <= j < i ==> key(list[j]) != typ)
            && (typ < 0 ==> (if i < |list| then key(list[i]) < -typ else true) && forall j :: 0 <= j < i ==> key(list[j]) >= -typ)
            && 0 <= i <= |list|
  {
  }

  /** The entry a receive takes, in terms of the types: `pos` is its position, -1 when there is none. */
  ghost predicate Picks(typ: int, list: seq<Message>, pos: int) {
    && -1 <= pos < |list| && (typ == 0 ==> pos == if list == [] then -1 else 0)
    && (typ > 0 ==> (pos >= 0 ==> list[pos].mtype == typ)
                    && forall j :: 0 <= j < (if pos < 0 then |list| else pos) ==> list[j].mtype != typ)
    && (typ < 0 ==> (pos >= 0 ==> list[pos].mtype < -typ)
                    && forall j :: 0 <= j < (if pos < 0 then |list| else pos) ==> list[j].mtype >= -typ)
  }

  /** The refusal test of a send: the message limit is exceeded or the volume limit would be reached. */
  predicate Full(count: int, vol: int, size: int) {
    count > MAXMSG || vol + size >= MAXVOL
  }
}
