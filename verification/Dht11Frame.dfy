/** What the DHT11 decoder makes of a frame: round trip, rejection of misread bits, and the limit of its buffer. */
module Dht11Frame {
  import opened Dht11

  /** The n low bits of a number, most significant first. */
  function ToBits(v: nat, n: nat): (s: seq<bool>)
    ensures |s| == n
  {
    if n == 0 then [] else ToBits(v / 2, n - 1) + [v % 2 == 1]
  }

  function Pow2(n: nat): (r: nat)
    ensures r >= 1
  {
    if n == 0 then 1 else 2 * Pow2(n - 1)
  }

  lemma {:induction false} FoldToBits(v: nat, n: nat)
    requires v < Pow2(n)
    ensures Fold(ToBits(v, n)) == v
  {
    if n > 0 {
      FoldToBits(v / 2, n - 1);
      assert ToBits(v, n)[..n - 1] == ToBits(v / 2, n - 1);
    }
  }

  /** Five bytes. */
  ghost predicate IsFrame(d: seq<nat>) {
    |d| == 5 && forall b :: 0 <= b < 5 ==> d[b] < 256
  }

  /** The 40 bits the sensor sends. */
  function Encode(d: seq<nat>): (s: seq<bool>)
    requires |d| == 5
    ensures |s| == 40
  {
    ToBits(d[0], 8) + ToBits(d[1], 8) + ToBits(d[2], 8) + ToBits(d[3], 8) + ToBits(d[4], 8)
  }

  lemma HalfThenShift(v: nat, m: nat)
    requires m < 7
    ensures v / 2 / Pow2(m) == v / Pow2(m + 1)
  {
    assert Pow2(0) == 1 && Pow2(1) == 2 && Pow2(2) == 4 && Pow2(3) == 8;
    assert Pow2(4) == 16 && Pow2(5) == 32 && Pow2(6) == 64 && Pow2(7) == 128;
  }

  lemma {:induction false} ToBitsAt(v: nat, n: nat, i: nat)
    requires i < n <= 8
    ensures ToBits(v, n)[i] <==> v / Pow2(n - 1 - i) % 2 == 1
  {
    if i < n - 1 {
      ToBitsAt(v / 2, n - 1, i);
      HalfThenShift(v, n - 2 - i);
    }
  }

  /** The bytes are sent in order, each with its most significant bit first. */
  lemma BitOrder(d: seq<nat>, k: nat)
    requires |d| == 5 && k < 40
    ensures Encode(d)[k] <==> d[k / 8] / Pow2(7 - k % 8) % 2 == 1
  {
    assert Encode(d)[k] == ToBits(d[k / 8], 8)[k % 8];
    ToBitsAt(d[k / 8], 8, k % 8);
  }

  lemma DecodeEncode(d: seq<nat>)
    requires IsFrame(d)
    ensures Bytes(Encode(d)) == d
  {
    var s := Encode(d);
    forall b: nat | b < 5 ensures Byte(s, b) == d[b] {
      assert s[8 * b..8 * b + 8] == ToBits(d[b], 8);
      FoldToBits(d[b], 8);
    }
  }

  /** Eighty-four runs: two header pairs, then a low run and a high run per bit, and a last low run. A high run of up to
      16 ticks is a 0 and a longer one a 1. */
  ghost predicate Sends(runs: seq<nat>, bits: seq<bool>) {
    |runs| == 84 && |bits| == 40 && forall k :: 0 <= k < 40 ==> if bits[k] then runs[4 + 2 * k] >= 17 else runs[4 + 2 * k] <= 16
  }

  /** On any wire with at most 84 runs, whole frames or not, the bits are the high runs from the fifth run on: 0 for up
      to 16 ticks, 1 for more. */
  lemma WireBits(pin: Wire, start: nat, runs: seq<nat>)
    requires Timed(runs) && Carries(pin, start, true, runs) && |runs| <= 84
    ensures var bits := Bits(Scan(pin, start, true, 0));
            && |bits| == (if |runs| <= 4 then 0 else (|runs| - 3) / 2)
            && forall k :: 0 <= k < |bits| ==> if bits[k] then runs[4 + 2 * k] >= 17 else runs[4 + 2 * k] <= 16
  {
    ScanCarried(pin, start, true, runs, 0);
  }

  lemma BitsSent(pin: Wire, start: nat, runs: seq<nat>, bits: seq<bool>)
    requires Timed(runs) && Carries(pin, start, true, runs) && Sends(runs, bits)
    ensures Scan(pin, start, true, 0) == runs && Bits(runs) == bits
  {
    ScanCarried(pin, start, true, runs, 0);
    WireBits(pin, start, runs);
  }

  /** A frame is decoded to the five bytes that were sent, and accepted exactly when its checksum is right. */
  method ReadFrame(sensor: Sensor, pin: Wire, start: nat, ghost runs: seq<nat>, ghost d: seq<nat>) returns (good: bool, j: nat)
    requires sensor.data.Length == 5
    requires IsFrame(d) && Timed(runs) && Carries(pin, start, true, runs) && Sends(runs, Encode(d))
    modifies sensor.data
    ensures sensor.data[..] == d && j == 40 && (good <==> d[4] == (d[0] + d[1] + d[2] + d[3]) % 256)
  {
    BitsSent(pin, start, runs, Encode(d));
    EndsExactly(pin, start);
    DecodeEncode(d);
    good, j := sensor.Read(pin, start);
  }

  /** The round trip over every timing: whatever run lengths the sensor uses within the limits, the reader's
      rounds stay within the buffer and give back the bytes. */
  lemma RoundTrip(pin: Wire, start: nat, runs: seq<nat>, d: seq<nat>)
    requires IsFrame(d) && Timed(runs) && Carries(pin, start, true, runs) && Sends(runs, Encode(d))
    ensures var seen := Scan(pin, start, true, 0);
            && |seen| < 85 && |Bits(seen)| == 40 && Bytes(Bits(seen)) == d
            && (Accepted(Bits(seen)) <==> d[4] == (d[0] + d[1] + d[2] + d[3]) % 256)
  {
    BitsSent(pin, start, runs, Encode(d));
    DecodeEncode(d);
  }

  // Misread bits.

  lemma {:induction false} FoldInjective(s: seq<bool>, t: seq<bool>)
    requires |s| == |t|
    ensures Fold(s) == Fold(t) ==> s == t
    ensures Fold(s) < Pow2(|s|)
  {
    if s != [] {
      var n := |s| - 1;
      FoldInjective(s[..n], t[..n]);
      assert s == s[..n] + [s[n]] && t == t[..n] + [t[n]];
    }
  }

  /** A byte with a bit changed is another byte. */
  lemma ChangedByte(s: seq<bool>, t: seq<bool>, b: nat, k: nat)
    requires |s| == |t| == 40 && b < 5 && 8 * b <= k < 8 * b + 8 && s[k] != t[k]
    ensures Byte(s, b) != Byte(t, b)
  {
    var u, v := s[8 * b..8 * b + 8], t[8 * b..8 * b + 8];
    assert u[k - 8 * b] == s[k] && v[k - 8 * b] == t[k];
    FoldInjective(u, v);
  }

  lemma SameByte(s: seq<bool>, t: seq<bool>, b: nat)
    requires |s| == |t| == 40 && b < 5 && forall k :: 8 * b <= k < 8 * b + 8 ==> s[k] == t[k]
    ensures Byte(s, b) == Byte(t, b)
  {
    assert s[8 * b..8 * b + 8] == t[8 * b..8 * b + 8];
  }

  lemma ByteRange(s: seq<bool>, b: nat)
    requires |s| == 40 && b < 5
    ensures Byte(s, b) < 256
  {
    FoldInjective(s[8 * b..8 * b + 8], s[8 * b..8 * b + 8]);
  }

  lemma MisreadByte(s: seq<bool>, bits: seq<bool>, b: nat, c: nat)
    requires |s| == |bits| == 40 && b < 5 && c < 5 && bits != s
    requires forall k :: 0 <= k < 40 && k / 8 != b ==> bits[k] == s[k]
    ensures Byte(bits, c) < 256 && (c == b <==> Byte(bits, c) != Byte(s, c))
  {
    ByteRange(bits, c);
    if c != b {
      SameByte(bits, s, c);
    } else {
      var k :| 0 <= k < 40 && bits[k] != s[k];
      ChangedByte(bits, s, b, k);
    }
  }

  /** A valid frame in which bits of one byte only, data or checksum, were read wrongly is rejected. */
  lemma MisreadByteRejected(pin: Wire, start: nat, runs: seq<nat>, d: seq<nat>, bits: seq<bool>, b: nat)
    requires IsFrame(d) && d[4] == (d[0] + d[1] + d[2] + d[3]) % 256 && b < 5
    requires Timed(runs) && Carries(pin, start, true, runs) && Sends(runs, bits)
    requires forall k :: 0 <= k < 40 && k / 8 != b ==> bits[k] == Encode(d)[k]
    requires bits != Encode(d)
    ensures !Accepted(Bits(Scan(pin, start, true, 0)))
  {
    BitsSent(pin, start, runs, bits);
    DecodeEncode(d);
    var e := Bytes(bits);
    forall c: nat | c < 5 ensures e[c] < 256 && (c == b <==> e[c] != d[c]) {
      MisreadByte(Encode(d), bits, b, c);
      assert e[c] == Byte(bits, c) && d[c] == Bytes(Encode(d))[c] == Byte(Encode(d), c);
    }
    ChecksumChanges(d, e, b);
  }

  /** Changing one byte of a valid frame spoils the checksum. */
  lemma ChecksumChanges(d: seq<nat>, e: seq<nat>, b: nat)
    requires IsFrame(d) && IsFrame(e) && ChecksumOk(d) && b < 5 && e[b] != d[b]
    requires forall c :: 0 <= c < 5 && c != b ==> e[c] == d[c]
    ensures !ChecksumOk(e)
  {
  }

  /** In particular a single bit read on the wrong side of the threshold is always noticed. */
  lemma MisreadBitRejected(pin: Wire, start: nat, runs: seq<nat>, d: seq<nat>, k: nat)
    requires IsFrame(d) && d[4] == (d[0] + d[1] + d[2] + d[3]) % 256 && k < 40
    requires Timed(runs) && Carries(pin, start, true, runs) && Sends(runs, Encode(d)[k := !Encode(d)[k]])
    ensures !Accepted(Bits(Scan(pin, start, true, 0)))
  {
    var bits := Encode(d)[k := !Encode(d)[k]];
    assert bits[k] != Encode(d)[k];
    MisreadByteRejected(pin, start, runs, d, bits, k / 8);
  }

  // The buffer.

  lemma {:induction false} ScanLength(pin: Wire, t: nat, level: bool, i: nat)
    requires i <= MAX_TIMING
    ensures |Scan(pin, t, level, i)| <= MAX_TIMING - i
    decreases MAX_TIMING - i
  {
    if i < MAX_TIMING {
      var n := RunLength(pin, t, level, TIMEOUT);
      ScanStep(pin, t, level, i, n);
      if n != TIMEOUT {
        ScanLength(pin, t + n, pin(t + n), i + 1);
      }
    }
  }

  /** The decoder stores at most 40 bits exactly on the wires that end, and 41 on the others. */
  lemma BufferExactly(pin: Wire, start: nat)
    ensures |Bits(Scan(pin, start, true, 0))| <= 40 <==> Ends(pin, start)
    ensures |Bits(Scan(pin, start, true, 0))| <= 41
  {
    EndsExactly(pin, start);
    ScanLength(pin, start, true, 0);
  }

  // A wire for any list of runs, so that frames exist.

  /** The level u ticks into a list of runs that starts with the given level. */
  function LevelAt(runs: seq<nat>, level: bool, u: nat): bool
    decreases |runs|
  {
    if runs == [] then level else if u < runs[0] then level else LevelAt(runs[1..], !level, u - runs[0])
  }

  lemma {:induction false} WireCarries(pin: Wire, t: nat, level: bool, runs: seq<nat>)
    requires forall u :: t <= u ==> pin(u) == LevelAt(runs, level, u - t)
    ensures Carries(pin, t, level, runs)
    decreases |runs|
  {
    if runs != [] {
      var next := t + runs[0];
      forall u | next <= u ensures pin(u) == LevelAt(runs[1..], !level, u - next) {
        assert u - t - runs[0] == u - next;
      }
      WireCarries(pin, next, !level, runs[1..]);
    }
  }

  /** Every five bytes have a frame: 12 or 70 ticks for a bit, 50 between bits. */
  lemma FrameExists(d: seq<nat>) returns (pin: Wire, runs: seq<nat>)
    requires IsFrame(d)
    ensures Timed(runs) && Carries(pin, 0, true, runs) && Sends(runs, Encode(d))
  {
    var bits := Encode(d);
    runs := seq(84, i requires 0 <= i < 84 =>
      if i < 4 then 80 else if i % 2 == 1 then 50 else if bits[(i - 4) / 2] then 70 else 12);
    var rs := runs;
    pin := (u: nat) => LevelAt(rs, true, u);
    WireCarries(pin, 0, true, runs);
  }

  /** A wire that keeps changing lets all 85 rounds complete, and the 41st bit is past the buffer. */
  lemma RestlessWireOverruns() returns (pin: Wire)
    ensures |Bits(Scan(pin, 0, true, 0))| == 41
  {
    var runs: seq<nat> := seq(MAX_TIMING, i => 1);
    pin := (u: nat) => LevelAt(runs, true, u);
    WireCarries(pin, 0, true, runs);
    ScanCarried(pin, 0, true, runs, 0);
  }
}
