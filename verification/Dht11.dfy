/**
 The decoder of Lab12/dht: run lengths on a wire become 40 bits and a checksum. The wire is the level of the
 pin after so many udelay(1) ticks, counted from the moment the pin becomes an input.
 */
module Dht11 {

  const MAX_TIMING := 85
  const TIMEOUT := 255
  const THRESHOLD := 16

  type Wire = nat -> bool

  /** How many ticks the wire keeps a level from tick t, counted up to a limit. */
  function RunLength(pin: Wire, t: nat, level: bool, limit: nat): (n: nat)
    ensures n <= limit
    decreases limit, t
  {
    if limit == 0 || pin(t) != level then 0 else 1 + RunLength(pin, t + 1, level, limit - 1)
  }

  /** The run lengths the reader completes from its i-th on, before a run times out or the rounds are used up. */
  function Scan(pin: Wire, t: nat, level: bool, i: nat): seq<nat>
    requires i <= MAX_TIMING
    decreases MAX_TIMING - i, t
  {
    if i == MAX_TIMING then []
    else
      var n := RunLength(pin, t, level, TIMEOUT);
      if n == TIMEOUT then [] else [n] + Scan(pin, t + n, pin(t + n), i + 1)
  }

  lemma ScanStep(pin: Wire, t: nat, level: bool, i: nat, n: nat)
    requires i < MAX_TIMING && n == RunLength(pin, t, level, TIMEOUT)
    ensures Scan(pin, t, level, i) == if n == TIMEOUT then [] else [n] + Scan(pin, t + n, pin(t + n), i + 1)
  {
  }

  /** From tick t the wire carries these runs, levels alternating, and then an idle level for 255 ticks. */
  ghost predicate Carries(pin: Wire, t: nat, level: bool, runs: seq<nat>)
    decreases |runs|
  {
    if runs == [] then forall u :: t <= u < t + 255 ==> pin(u) == level
    else (forall u :: t <= u < t + runs[0] ==> pin(u) == level) && Carries(pin, t + runs[0], !level, runs[1..])
  }

  /** Every run is shorter than a timeout, and none but the first is empty. */
  ghost predicate Timed(runs: seq<nat>) {
    forall i :: 0 <= i < |runs| ==> runs[i] < 255 && (i > 0 ==> runs[i] >= 1)
  }

  lemma {:induction false} RunIs(pin: Wire, t: nat, level: bool, limit: nat, n: nat)
    requires n <= limit && forall u :: t <= u < t + n ==> pin(u) == level
    requires n < limit ==> pin(t + n) != level
    ensures RunLength(pin, t, level, limit) == n
    decreases n
  {
    if n > 0 {
      RunIs(pin, t + 1, level, limit - 1, n - 1);
    }
  }

  lemma Begins(pin: Wire, t: nat, level: bool, runs: seq<nat>)
    requires Carries(pin, t, level, runs) && (runs != [] ==> runs[0] >= 1)
    ensures pin(t) == level
  {
  }

  /** The decoder's rounds see exactly the runs on the wire. */
  lemma {:induction false} ScanCarried(pin: Wire, t: nat, level: bool, runs: seq<nat>, i: nat)
    requires Carries(pin, t, level, runs) && Timed(runs) && i + |runs| <= MAX_TIMING
    ensures Scan(pin, t, level, i) == runs
    decreases |runs|
  {
    if runs == [] {
      if i < MAX_TIMING { RunIs(pin, t, level, TIMEOUT, TIMEOUT); }
    } else {
      var rest := runs[1..];
      assert rest != [] ==> rest[0] == runs[1];
      Begins(pin, t + runs[0], !level, rest);
      RunIs(pin, t, level, TIMEOUT, runs[0]);
      ScanCarried(pin, t + runs[0], !level, rest, i + 1);
    }
  }

  lemma {:induction false} RunLevels(pin: Wire, t: nat, level: bool, limit: nat)
    ensures var n := RunLength(pin, t, level, limit);
            && (forall u :: t <= u < t + n ==> pin(u) == level) && (n < limit ==> pin(t + n) != level)
            && (limit > 0 && pin(t) == level ==> n >= 1)
    decreases limit
  {
    if limit > 0 && pin(t) == level {
      RunLevels(pin, t + 1, level, limit - 1);
    }
  }

  /** A run followed by runs. */
  lemma RunsFollow(pin: Wire, t: nat, level: bool, n: nat, rest: seq<nat>)
    requires n < TIMEOUT && (forall u :: t <= u < t + n ==> pin(u) == level)
    requires Carries(pin, t + n, !level, rest) && Timed(rest) && (rest != [] ==> rest[0] >= 1)
    ensures Carries(pin, t, level, [n] + rest) && Timed([n] + rest)
  {
    assert ([n] + rest)[1..] == rest;
    forall k | 1 <= k < |[n] + rest| ensures 1 <= ([n] + rest)[k] < TIMEOUT {
      assert ([n] + rest)[k] == rest[k - 1];
    }
  }

  /** And when a round times out, the runs completed before it are on the wire. */
  lemma {:induction false} ScanCarries(pin: Wire, t: nat, level: bool, i: nat)
    requires i <= MAX_TIMING && |Scan(pin, t, level, i)| < MAX_TIMING - i
    ensures var runs := Scan(pin, t, level, i);
            Carries(pin, t, level, runs) && Timed(runs) && (pin(t) == level && runs != [] ==> runs[0] >= 1)
    decreases MAX_TIMING - i
  {
    hide RunLength, Scan;
    var n := RunLength(pin, t, level, TIMEOUT);
    RunLevels(pin, t, level, TIMEOUT);
    ScanStep(pin, t, level, i, n);
    if n != TIMEOUT {
      ScanCarries(pin, t + n, !level, i + 1);
      var rest := Scan(pin, t + n, !level, i + 1);
      RunsFollow(pin, t, level, n, rest);
    }
  }

  /** Fewer than 85 runs on the wire, none as long as a timeout, and then an idle level for a whole timeout. */
  ghost predicate Ends(pin: Wire, start: nat) {
    exists runs :: |runs| < 85 && Timed(runs) && Carries(pin, start, true, runs)
  }

  /** The wire ends exactly when one of the 85 rounds of the decoder times out. */
  lemma EndsExactly(pin: Wire, start: nat)
    ensures Ends(pin, start) <==> |Scan(pin, start, true, 0)| < MAX_TIMING
  {
    if |Scan(pin, start, true, 0)| < MAX_TIMING {
      ScanCarries(pin, start, true, 0);
    } else if runs :| |runs| < MAX_TIMING && Timed(runs) && Carries(pin, start, true, runs) {
      ScanCarried(pin, start, true, runs, 0);
    }
  }

  /** The bits in a list of run lengths: every other run from the fifth on. */
  function Bits(runs: seq<nat>): seq<bool> {
    seq(if |runs| <= 4 then 0 else (|runs| - 3) / 2, k requires 0 <= k < (|runs| - 3) / 2 => runs[4 + 2 * k] > THRESHOLD)
  }

  /** A number from its bits, most significant first. */
  function Fold(bits: seq<bool>): nat {
    if bits == [] then 0 else 2 * Fold(bits[..|bits| - 1]) + if bits[|bits| - 1] then 1 else 0
  }

  function Min(a: nat, b: nat): nat { if a < b then a else b }

  /** Byte b of a bit list that may be incomplete. */
  function Byte(bits: seq<bool>, b: nat): nat {
    Fold(bits[Min(8 * b, |bits|)..Min(8 * b + 8, |bits|)])
  }

  function Bytes(bits: seq<bool>): seq<nat> {
    [Byte(bits, 0), Byte(bits, 1), Byte(bits, 2), Byte(bits, 3), Byte(bits, 4)]
  }

  /** The acceptance test: enough bits, and the checksum of the first four bytes in the fifth. */
  predicate Accepted(bits: seq<bool>) {
    |bits| >= 40 && ChecksumOk(Bytes(bits))
  }

  predicate ChecksumOk(d: seq<int>)
    requires |d| == 5
  {
    d[4] == (d[0] + d[1] + d[2] + d[3]) % 256
  }

  lemma BitsSnoc(runs: seq<nat>, n: nat)
    ensures Bits(runs + [n]) == Bits(runs) + if |runs| >= 4 && |runs| % 2 == 0 then [n > THRESHOLD] else []
  {
  }

  lemma ByteSnoc(bits: seq<bool>, bit: bool, b: nat)
    ensures Byte(bits + [bit], b) == if |bits| / 8 == b then 2 * Byte(bits, b) + (if bit then 1 else 0) else Byte(bits, b)
  {
    var lo, hi := Min(8 * b, |bits|), Min(8 * b + 8, |bits|);
    var part := (bits + [bit])[Min(8 * b, |bits| + 1)..Min(8 * b + 8, |bits| + 1)];
    if |bits| / 8 == b {
      assert part == bits[lo..hi] + [bit];
      assert part[..|part| - 1] == bits[lo..hi];
    } else {
      assert part == bits[lo..hi];
    }
  }

  /** One bit shifted into the byte it belongs to. */
  function Push(d: seq<int>, j: nat, bit: bool): (r: seq<int>)
    requires |d| == 5
    ensures |r| == 5
  {
    if j < 40 then d[j / 8 := d[j / 8] * 2 + if bit then 1 else 0] else d
  }

  /** What shifting the bits in one by one leaves in the five bytes. */
  function Shifted(bits: seq<bool>): (d: seq<int>)
    ensures |d| == 5
  {
    if bits == [] then [0, 0, 0, 0, 0] else Push(Shifted(bits[..|bits| - 1]), |bits| - 1, bits[|bits| - 1])
  }

  lemma ShiftedSnoc(bits: seq<bool>, bit: bool)
    ensures Shifted(bits + [bit]) == Push(Shifted(bits), |bits|, bit)
  {
    var more := bits + [bit];
    assert more[..|more| - 1] == bits;
  }

  /** Bit by bit or byte by byte, the result is the same. */
  lemma {:induction false} ShiftedBytes(bits: seq<bool>, b: nat)
    requires b < 5
    ensures Shifted(bits)[b] == Byte(bits, b)
  {
    if bits != [] {
      var before, last := bits[..|bits| - 1], bits[|bits| - 1];
      assert bits == before + [last];
      ShiftedBytes(before, b);
      ByteSnoc(before, last, b);
    }
  }

  lemma NextRun(runs: seq<nat>, i: nat, n: nat, rest: seq<nat>)
    requires i <= |runs| && runs[i..] == [n] + rest
    ensures i < |runs| && runs[..i + 1] == runs[..i] + [n] && runs[i + 1..] == rest
  {
    assert runs[i..][0] == n && runs[i..][1..] == rest;
  }

  lemma BitsCount(runs: seq<nat>)
    requires |runs| < MAX_TIMING
    ensures |Bits(runs)| <= 40
  {
  }

  /** The next run adds a bit, or it does not. */
  lemma BitsStep(runs: seq<nat>, i: nat, n: nat)
    requires i < |runs| < MAX_TIMING && runs[..i + 1] == runs[..i] + [n]
    ensures var bits, more := Bits(runs[..i]), Bits(runs[..i + 1]);
            if i >= 4 && i % 2 == 0
            then |bits| < 40 && |more| == |bits| + 1 && Shifted(more) == Push(Shifted(bits), |bits|, n > THRESHOLD)
            else more == bits
  {
    BitsSnoc(runs[..i], n);
    ShiftedSnoc(Bits(runs[..i]), n > THRESHOLD);
    hide Push, Shifted;
  }

  lemma ReadOut(bits: seq<bool>)
    ensures Shifted(bits) == Bytes(bits)
  {
    forall b: nat | b < 5 ensures Shifted(bits)[b] == Bytes(bits)[b] {
      ShiftedBytes(bits, b);
    }
  }

  class Sensor {
    const data: array<int>

    constructor ()
      ensures data.Length == 5 && fresh(data)
    {
      data := new int[5];
    }

    /** The inner loop: wait, a tick at a time, until the level changes or the count times out. */
    static method CountRun(pin: Wire, start: nat, lastState: bool) returns (counter: nat, t: nat)
      ensures counter == RunLength(pin, start, lastState, TIMEOUT) && t == start + counter
    {
      counter, t := 0, start;
      while pin(t) == lastState
        invariant t == start + counter && counter < TIMEOUT
        invariant RunLength(pin, start, lastState, TIMEOUT) == counter + RunLength(pin, t, lastState, TIMEOUT - counter)
        decreases TIMEOUT - counter
      {
        counter := counter + 1;
        t := t + 1;
        if counter == TIMEOUT {
          break;
        }
      }
    }

    /** Shift one bit into the byte it belongs to. */
    method PushBit(j: nat, counter: nat)
      requires data.Length == 5 && j < 40
      modifies data
      ensures data[..] == Push(old(data[..]), j, counter > THRESHOLD)
    {
      data[j / 8] := data[j / 8] * 2;
      if counter > THRESHOLD {
        data[j / 8] := data[j / 8] + 1;
      }
    }

    /** The decoding loop of dht11_read, from the tick at which the pin becomes an input. A round must time out,
        as it does exactly on the wires that end: a 41st bit would be stored past the five bytes. */
    method Decode(pin: Wire, start: nat) returns (j: nat)
      requires data.Length == 5 && |Scan(pin, start, true, 0)| < MAX_TIMING
      modifies data
      ensures j == |Bits(Scan(pin, start, true, 0))| <= 40
      ensures data[..] == Shifted(Bits(Scan(pin, start, true, 0)))
    {
      hide Scan, RunLength, Push;
      var lastState, t, i := true, start, 0;
      j := 0;
      data[0], data[1], data[2], data[3], data[4] := 0, 0, 0, 0, 0;
      ghost var runs := Scan(pin, start, true, 0);
      assert Bits(runs[..0]) == [] && Shifted([]) == [0, 0, 0, 0, 0];
      hide Bits, Shifted;
      while i < MAX_TIMING
        invariant i <= |runs| && runs[i..] == Scan(pin, t, lastState, i)
        invariant j == |Bits(runs[..i])| && data[..] == Shifted(Bits(runs[..i]))
      {
        ghost var from, level := t, lastState;
        var counter;
        counter, t := CountRun(pin, t, lastState);
        lastState := pin(t);
        ScanStep(pin, from, level, i, counter);
        if counter == TIMEOUT {
          break;
        }
        NextRun(runs, i, counter, Scan(pin, t, lastState, i + 1));
        BitsStep(runs, i, counter);
        if i >= 4 && i % 2 == 0 {
          PushBit(j, counter);
          j := j + 1;
        }
        i := i + 1;
      }
      assert runs[..i] == runs;
      BitsCount(runs);
    }

    /** The test at the end of dht11_read. */
    method Check(j: nat) returns (good: bool)
      requires data.Length == 5
      ensures good <==> j >= 40 && data[4] == (data[0] + data[1] + data[2] + data[3]) % 256
    {
      good := j >= 40 && data[4] == (data[0] + data[1] + data[2] + data[3]) % 256;
    }

    /** dht11_read after the start signal: the bytes and whether they are accepted. */
    method Read(pin: Wire, start: nat) returns (good: bool, j: nat)
      requires data.Length == 5 && Ends(pin, start)
      modifies data
      ensures j == |Bits(Scan(pin, start, true, 0))| <= 40
      ensures data[..] == Bytes(Bits(Scan(pin, start, true, 0)))
      ensures good <==> Accepted(Bits(Scan(pin, start, true, 0)))
      ensures good <==> j >= 40 && data[4] == (data[0] + data[1] + data[2] + data[3]) % 256
    {
      EndsExactly(pin, start);
      hide Scan, Bits, Shifted, Ends, Byte;
      j := Decode(pin, start);
      ReadOut(Bits(Scan(pin, start, true, 0)));
      good := Check(j);
    }
  }
}
