/**
 The stepper of Lab11/ch11: coil tables driven forwards and backwards, and the rotor they pull. Positions are
 half-steps; row j of the tables pulls the rotor to the nearest position congruent to j modulo 8.
 */
module Stepper {
  import opened CInt
  import opened Tally

  const STEPS := 8
  const ONEROUND := 512

  const BLUE := [1, 1, 0, 0, 0, 0, 0, 1]
  const PINK := [0, 1, 1, 1, 0, 0, 0, 0]
  const YELLOW := [0, 0, 0, 1, 1, 1, 0, 0]
  const ORANGE := [0, 0, 0, 0, 0, 1, 1, 1]

  datatype Coils = Coils(p1: int, p2: int, p3: int, p4: int)

  function Row(j: nat): Coils
    requires j < STEPS
  {
    Coils(BLUE[j], PINK[j], YELLOW[j], ORANGE[j])
  }

  const OFF := Coils(0, 0, 0, 0)

  /** The tables are a half-step sequence: from row to row, around the cycle, exactly one coil changes, some coil
      is always on, and no row repeats. */
  lemma RowsAreHalfSteps(j: nat, k: nat)
    requires j < STEPS && k < STEPS
    ensures Row(j) != OFF && (Row(j) == Row(k) ==> j == k)
    ensures Changes(Row(j), Row((j + 1) % STEPS)) == 1
  {
  }

  /** Which pins are on in which row. */
  lemma RowPins(j: nat)
    requires j < 8
    ensures Row(j).p1 == (if j == 7 || j == 0 || j == 1 then 1 else 0)
    ensures Row(j).p2 == (if 1 <= j <= 3 then 1 else 0)
    ensures Row(j).p3 == (if 3 <= j <= 5 then 1 else 0)
    ensures Row(j).p4 == (if 5 <= j <= 7 then 1 else 0)
  {
  }

  function Changes(a: Coils, b: Coils): nat {
    (if a.p1 != b.p1 then 1 else 0) + (if a.p2 != b.p2 then 1 else 0)
    + (if a.p3 != b.p3 then 1 else 0) + (if a.p4 != b.p4 then 1 else 0)
  }

  /** The row the coils show, or -1 when they show none. */
  function RowOf(c: Coils): (j: int)
    ensures -1 <= j < STEPS
    ensures j >= 0 ==> Row(j) == c
    ensures j == -1 ==> forall k :: 0 <= k < STEPS ==> Row(k) != c
  {
    if c == Row(0) then 0 else if c == Row(1) then 1 else if c == Row(2) then 2 else if c == Row(3) then 3
    else if c == Row(4) then 4 else if c == Row(5) then 5 else if c == Row(6) then 6 else if c == Row(7) then 7
    else -1
  }

  lemma RowOfRow(j: nat)
    requires j < STEPS
    ensures RowOf(Row(j)) == j && RowOf(Coils(BLUE[j], PINK[j], YELLOW[j], ORANGE[j])) == j
  {
    RowsAreHalfSteps(j, if RowOf(Row(j)) < 0 then j else RowOf(Row(j)));
  }

  /** Where the rotor goes when row j is energised: the nearest place in phase j. Exactly opposite, it stays. */
  function Pull(pos: int, j: nat): (r: int)
    requires j < STEPS
    ensures (pos - j) % STEPS != 4 ==> (r - j) % STEPS == 0 && -3 <= r - pos <= 3
  {
    var d := (j - pos) % STEPS;
    if d < 4 then pos + d else if d > 4 then pos + d - STEPS else pos
  }

  /** How many times the outer loop runs for a rotation by so many degrees. */
  function Cycles(degree: int): nat {
    var n := TruncDiv(ToInt(ONEROUND * degree), 360);
    if n < 0 then 0 else n
  }

  /** The rotor after rows are energised one after the other. */
  function Drive(pos: int, rows: seq<nat>): int
    requires forall i :: 0 <= i < |rows| ==> rows[i] < STEPS
  {
    if rows == [] then pos else Pull(Drive(pos, rows[..|rows| - 1]), rows[|rows| - 1])
  }

  /** Every row on the way moves the rotor by at most one half-step. */
  ghost predicate Gentle(pos: int, rows: seq<nat>)
    requires forall i :: 0 <= i < |rows| ==> rows[i] < STEPS
  {
    rows != [] ==>
      && Gentle(pos, rows[..|rows| - 1])
      && -1 <= Drive(pos, rows) - Drive(pos, rows[..|rows| - 1]) <= 1
  }

  /** Rows 0 up to k - 1. */
  function Up(k: nat): (rows: seq<nat>)
    requires k <= STEPS
    ensures |rows| == k && forall i :: 0 <= i < |rows| ==> rows[i] < STEPS
  {
    seq(k, i => i)
  }

  /** The k last rows, from 7 down. */
  function Down(k: nat): (rows: seq<nat>)
    requires k <= STEPS
    ensures |rows| == k && forall i :: 0 <= i < |rows| ==> rows[i] < STEPS
  {
    seq(k, i requires 0 <= i < k => STEPS - 1 - i)
  }

  /** The rows of n turns of the outer loop. */
  function Forwards(n: nat): (rows: seq<nat>)
    ensures forall i :: 0 <= i < |rows| ==> rows[i] < STEPS
  {
    if n == 0 then [] else Forwards(n - 1) + Up(STEPS)
  }

  function Backwards(n: nat): (rows: seq<nat>)
    ensures forall i :: 0 <= i < |rows| ==> rows[i] < STEPS
  {
    if n == 0 then [] else Backwards(n - 1) + Down(STEPS)
  }

  lemma UpSnoc(before: seq<nat>, k: nat)
    requires k < STEPS
    ensures before + Up(k + 1) == before + Up(k) + [k]
  {
    assert Up(k + 1) == Up(k) + [k];
  }

  lemma DownSnoc(before: seq<nat>, k: nat)
    requires k < STEPS
    ensures before + Down(k + 1) == before + Down(k) + [STEPS - 1 - k]
  {
    assert Down(k + 1) == Down(k) + [STEPS - 1 - k];
  }

  lemma ForwardsSnoc(before: seq<nat>, n: nat)
    ensures before + Forwards(n + 1) == before + Forwards(n) + Up(STEPS)
  {
  }

  lemma BackwardsSnoc(before: seq<nat>, n: nat)
    ensures before + Backwards(n + 1) == before + Backwards(n) + Down(STEPS)
  {
  }

  /** A forward turn energises rows 0 to 7 one after the other and a backward turn rows 7 to 0, each row once, and the
      next turn starts over. */
  lemma {:induction false} RowsInOrder(n: nat, i: nat)
    requires i < 8 * n
    ensures |Forwards(n)| == |Backwards(n)| == 8 * n && Forwards(n)[i] == i % 8 && Backwards(n)[i] == 7 - i % 8
  {
    var f, b, k := Forwards(n - 1), Backwards(n - 1), i - 8 * (n - 1);
    assert Forwards(n) == f + Up(8) && Backwards(n) == b + Down(8);
    if n > 1 { RowsInOrder(n - 1, if k < 0 then i else 0); }
    hide Forwards, Backwards;
    assert |f| == |b| == 8 * (n - 1);
    if k >= 0 {
      assert (f + Up(8))[i] == Up(8)[k] == k && (b + Down(8))[i] == Down(8)[k] == 7 - k;
      assert i % 8 == k;
    }
  }

  datatype Rotation = Rotation(degree: int, direction: int)

  /** The rows that moveDegree energises. */
  function RowsOf(r: Rotation): (rows: seq<nat>)
    ensures forall i :: 0 <= i < |rows| ==> rows[i] < STEPS
  {
    if r.direction == 0 then Forwards(Cycles(r.degree))
    else if r.direction == 1 then Backwards(Cycles(r.degree))
    else []
  }

  function AllRows(moves: seq<Rotation>): (rows: seq<nat>)
    ensures forall i :: 0 <= i < |rows| ==> rows[i] < STEPS
  {
    if moves == [] then [] else AllRows(moves[..|moves| - 1]) + RowsOf(moves[|moves| - 1])
  }

  // The motor.

  class Motor {
    var coils: Coils
    var pos: int
    ghost var rows: seq<nat>

    /** The rotor is where the energised rows have pulled it from its first position. */
    ghost predicate Valid()
      reads this
    {
      (forall i :: 0 <= i < |rows| ==> rows[i] < STEPS) && pos == Drive(-1, rows)
    }

    /** A rotor at rest just before row 0. */
    constructor ()
      ensures Valid() && rows == [] && pos == -1
    {
      coils, pos, rows := OFF, -1, [];
    }

    /** setstep: the pins change and the rotor follows. */
    method SetStep(p1: int, p2: int, p3: int, p4: int)
      requires Valid()
      modifies this
      ensures Valid() && coils == Coils(p1, p2, p3, p4)
      ensures rows == old(rows) + if RowOf(coils) >= 0 then [RowOf(coils)] else []
    {
      coils := Coils(p1, p2, p3, p4);
      var j := RowOf(coils);
      if j >= 0 {
        DriveSnoc(-1, rows, j);
        pos := Pull(pos, j);
        rows := rows + [j];
      }
    }

    method Forward(degree: int)
      requires Valid()
      modifies this
      ensures Valid() && coils == OFF && rows == old(rows) + Forwards(Cycles(degree))
    {
      assert Forwards(0) == [] && Up(0) == [];
      assert RowOf(OFF) == -1;
      hide Forwards, Up, Drive, Row, RowOf, ToInt, TruncDiv;
      var i := 0;
      while i < TruncDiv(ToInt(ONEROUND * degree), 360)
        invariant 0 <= i <= Cycles(degree) && Valid() && rows == old(rows) + Forwards(i)
      {
        var j := 0;
        ghost var before := rows;
        while j < STEPS
          invariant 0 <= j <= STEPS && Valid() && rows == before + Up(j)
        {
          RowOfRow(j);
          SetStep(BLUE[j], PINK[j], YELLOW[j], ORANGE[j]);
          UpSnoc(before, j);
          j := j + 1;
        }
        ForwardsSnoc(old(rows), i);
        i := i + 1;
      }
      SetStep(0, 0, 0, 0);
    }

    method Backward(degree: int)
      requires Valid()
      modifies this
      ensures Valid() && coils == OFF && rows == old(rows) + Backwards(Cycles(degree))
    {
      assert Backwards(0) == [] && Down(0) == [];
      assert RowOf(OFF) == -1;
      hide Backwards, Down, Drive, Row, RowOf, ToInt, TruncDiv;
      var i := 0;
      while i < TruncDiv(ToInt(ONEROUND * degree), 360)
        invariant 0 <= i <= Cycles(degree) && Valid() && rows == old(rows) + Backwards(i)
      {
        var j := STEPS - 1;
        ghost var before := rows;
        while j >= 0
          invariant -1 <= j < STEPS && Valid() && rows == before + Down(STEPS - 1 - j)
        {
          RowOfRow(j);
          SetStep(BLUE[j], PINK[j], YELLOW[j], ORANGE[j]);
          DownSnoc(before, STEPS - 1 - j);
          j := j - 1;
        }
        BackwardsSnoc(old(rows), i);
        i := i + 1;
      }
      SetStep(0, 0, 0, 0);
    }

    method MoveDegree(r: Rotation)
      requires Valid()
      modifies this
      ensures Valid() && rows == old(rows) + RowsOf(r)
    {
      if r.direction == 0 {
        Forward(r.degree);
      } else if r.direction == 1 {
        Backward(r.degree);
      }
    }

    /** Any run of rotations leaves the rotor where NoDrift says. */
    method Perform(moves: seq<Rotation>)
      requires Valid() && rows == []
      modifies this
      ensures Valid() && rows == AllRows(moves)
      ensures pos == 8 * (Total(moves, 0) - Total(moves, 1)) - (if LastForward(moves) then 1 else 0)
    {
      var i := 0;
      while i < |moves|
        invariant 0 <= i <= |moves| && Valid() && rows == AllRows(moves[..i])
      {
        MoveDegree(moves[i]);
        assert moves[..i + 1][..i] == moves[..i];
        i := i + 1;
      }
      assert moves[..i] == moves;
      NoDrift(moves);
    }
  }

  // No drift.

  lemma {:induction false} DriveConcat(pos: int, a: seq<nat>, b: seq<nat>)
    requires (forall i :: 0 <= i < |a| ==> a[i] < STEPS) && (forall i :: 0 <= i < |b| ==> b[i] < STEPS)
    ensures Drive(pos, a + b) == Drive(Drive(pos, a), b)
    ensures Gentle(pos, a + b) <==> Gentle(pos, a) && Gentle(Drive(pos, a), b)
  {
    if b == [] {
      assert a + b == a;
    } else {
      assert (a + b)[..|a + b| - 1] == a + b[..|b| - 1];
      DriveConcat(pos, a, b[..|b| - 1]);
    }
  }

  lemma DriveSnoc(pos: int, rows: seq<nat>, j: nat)
    requires j < STEPS && forall i :: 0 <= i < |rows| ==> rows[i] < STEPS
    ensures Drive(pos, rows + [j]) == Pull(Drive(pos, rows), j)
    ensures Gentle(pos, rows + [j]) <==> Gentle(pos, rows) && -1 <= Pull(Drive(pos, rows), j) - Drive(pos, rows) <= 1
  {
    assert (rows + [j])[..|rows|] == rows;
  }

  /** Row k pulls the rotor up from phase k - 1, down from phase k + 1, and holds it in phase k. */
  lemma PullFromBelow(m: int, k: nat)
    requires k < STEPS
    ensures Pull(STEPS * m + k - 1, k) == STEPS * m + k
  {
    assert (k - (STEPS * m + k - 1)) % STEPS == (1 + STEPS * (-m)) % STEPS == 1;
  }

  lemma PullHolds(m: int, k: nat)
    requires k < STEPS
    ensures Pull(STEPS * m + k, k) == STEPS * m + k
  {
    assert (k - (STEPS * m + k)) % STEPS == (STEPS * (-m)) % STEPS == 0;
  }

  lemma PullFromAbove(m: int, k: nat)
    requires k < STEPS
    ensures Pull(STEPS * m + k + 1, k) == STEPS * m + k
  {
    assert (k - (STEPS * m + k + 1)) % STEPS == (STEPS * (-m - 1) + 7) % STEPS == 7;
  }

  lemma PullNear(m: int, k: nat, pos: int)
    requires k < STEPS && -1 <= pos - (STEPS * m + k) <= 1
    ensures Pull(pos, k) == STEPS * m + k
  {
    PullFromBelow(m, k);
    PullHolds(m, k);
    PullFromAbove(m, k);
  }

  /** From rest in phase 7 or 0, the rows of a forward cycle take the rotor along one half-step at a time. */
  lemma {:induction false} DriveUp(m: int, phase: int, k: nat)
    requires (phase == -1 || phase == 0) && k <= STEPS
    ensures Drive(STEPS * m + phase, Up(k)) == STEPS * m + (if k == 0 then phase else k - 1)
    ensures Gentle(STEPS * m + phase, Up(k))
  {
    if k > 0 {
      DriveUp(m, phase, k - 1);
      assert Up(k) == Up(k - 1) + [k - 1];
      DriveSnoc(STEPS * m + phase, Up(k - 1), k - 1);
      PullNear(m, k - 1, Drive(STEPS * m + phase, Up(k - 1)));
    }
  }

  lemma {:induction false} DriveDown(m: int, phase: int, k: nat)
    requires (phase == -1 || phase == 0) && k <= STEPS
    ensures Drive(STEPS * m + phase, Down(k)) == STEPS * m - (if k == 0 then -phase else k)
    ensures Gentle(STEPS * m + phase, Down(k))
  {
    if k > 0 {
      DriveDown(m, phase, k - 1);
      assert Down(k) == Down(k - 1) + [STEPS - k];
      DriveSnoc(STEPS * m + phase, Down(k - 1), STEPS - k);
      PullNear(m - 1, STEPS - k, Drive(STEPS * m + phase, Down(k - 1)));
    }
  }

  /** One more turn of the outer loop. */
  lemma TurnUp(pos: int, rows: seq<nat>, m: int, phase: int)
    requires (phase == -1 || phase == 0) && forall i :: 0 <= i < |rows| ==> rows[i] < STEPS
    requires Drive(pos, rows) == STEPS * m + phase && Gentle(pos, rows)
    ensures Drive(pos, rows + Up(STEPS)) == STEPS * (m + 1) - 1 && Gentle(pos, rows + Up(STEPS))
  {
    DriveConcat(pos, rows, Up(STEPS));
    DriveUp(m, phase, STEPS);
  }

  lemma TurnDown(pos: int, rows: seq<nat>, m: int, phase: int)
    requires (phase == -1 || phase == 0) && forall i :: 0 <= i < |rows| ==> rows[i] < STEPS
    requires Drive(pos, rows) == STEPS * m + phase && Gentle(pos, rows)
    ensures Drive(pos, rows + Down(STEPS)) == STEPS * (m - 1) && Gentle(pos, rows + Down(STEPS))
  {
    DriveConcat(pos, rows, Down(STEPS));
    DriveDown(m, phase, STEPS);
  }

  lemma {:induction false} ForwardCycles(m: int, phase: int, n: nat)
    requires phase == -1 || phase == 0
    ensures Drive(STEPS * m + phase, Forwards(n)) == STEPS * (m + n) + (if n == 0 then phase else -1)
    ensures Gentle(STEPS * m + phase, Forwards(n))
  {
    if n > 0 {
      ForwardCycles(m, phase, n - 1);
      TurnUp(STEPS * m + phase, Forwards(n - 1), m + n - 1, if n == 1 then phase else -1);
    }
  }

  lemma {:induction false} BackwardCycles(m: int, phase: int, n: nat)
    requires phase == -1 || phase == 0
    ensures Drive(STEPS * m + phase, Backwards(n)) == STEPS * (m - n) + (if n == 0 then phase else 0)
    ensures Gentle(STEPS * m + phase, Backwards(n))
  {
    if n > 0 {
      BackwardCycles(m, phase, n - 1);
      TurnDown(STEPS * m + phase, Backwards(n - 1), m - n + 1, if n == 1 then phase else 0);
    }
  }

  /** Cycles run in one direction over a run of rotations. */
  function Total(moves: seq<Rotation>, direction: int): nat {
    if moves == [] then 0
    else Total(moves[..|moves| - 1], direction)
         + if moves[|moves| - 1].direction == direction then Cycles(moves[|moves| - 1].degree) else 0
  }

  /** The last rotation that ran any cycle was forward, or none did. */
  predicate LastForward(moves: seq<Rotation>) {
    if moves == [] then true
    else
      var r := moves[|moves| - 1];
      if (r.direction == 0 || r.direction == 1) && Cycles(r.degree) > 0 then r.direction == 0
      else LastForward(moves[..|moves| - 1])
  }

  /** Over any run of rotations the rotor ends eight half-steps per net cycle away, one less after a forward
      move, and no energised row ever moves it by more than one half-step. */
  lemma {:induction false} NoDrift(moves: seq<Rotation>)
    ensures Drive(-1, AllRows(moves)) == 8 * (Total(moves, 0) - Total(moves, 1)) - (if LastForward(moves) then 1 else 0)
    ensures Gentle(-1, AllRows(moves))
  {
    if moves != [] {
      var before, r := moves[..|moves| - 1], moves[|moves| - 1];
      NoDrift(before);
      DriveConcat(-1, AllRows(before), RowsOf(r));
      var m, phase := Total(before, 0) - Total(before, 1), if LastForward(before) then -1 else 0;
      if r.direction == 0 {
        ForwardCycles(m, phase, Cycles(r.degree));
      } else if r.direction == 1 {
        BackwardCycles(m, phase, Cycles(r.degree));
      }
    }
  }

  // Lost fractions of a cycle.

  function CyclesOf(degree: int): int { Cycles(degree) }

  function Identity(degree: int): int { degree }

  lemma Wraps(x: nat)
    ensures if x < 0x8000_0000 then ToInt(x) == x else ToInt(x) <= x - 0x1_0000_0000
  {
    var r := ToInt(x);
    var q := (x - r) / 0x1_0000_0000;
    assert x - r == 0x1_0000_0000 * q;
  }

  /** A rotation loses less than a cycle, and nothing when it is a multiple of 45 degrees, exactly when the loop bound
      does not overflow. */
  lemma LostPart(degree: nat)
    ensures 512 * degree < 0x8000_0000 <==> 360 * Cycles(degree) <= 512 * degree < 360 * (Cycles(degree) + 1)
    ensures 512 * degree < 0x8000_0000 && degree % 45 == 0 ==> 360 * Cycles(degree) == 512 * degree
  {
    Wraps(512 * degree);
    var r := ToInt(ONEROUND * degree);
    var q := TruncDiv(r, 360);
    assert Cycles(degree) == if q < 0 then 0 else q;
    hide ToInt, TruncDiv, Cycles;
    if degree % 45 == 0 { EvenTurn(degree); }
  }

  lemma EvenTurn(degree: nat)
    requires degree % 45 == 0
    ensures 512 * degree == 360 * (64 * (degree / 45))
  {
    assert degree == 45 * (degree / 45);
  }

  /** A rotation by no or by a negative angle does nothing, as long as the product fits. */
  lemma NoTurn(degree: int)
    requires -0x8000_0000 <= 512 * degree <= 0
    ensures Cycles(degree) == 0
  {
  }

  /** Splitting a rotation into n moves loses less than a cycle per move, and nothing when every move is a
      multiple of 45 degrees. */
  lemma {:induction false} SplitRotation(degrees: seq<int>)
    requires forall i :: 0 <= i < |degrees| ==> 0 <= 512 * degrees[i] < 0x8000_0000
    ensures var c, d := Sum(CyclesOf, degrees), Sum(Identity, degrees);
            && 360 * c <= 512 * d
            && (degrees != [] ==> 512 * d < 360 * (c + |degrees|))
            && ((forall i :: 0 <= i < |degrees| ==> degrees[i] % 45 == 0) ==> 360 * c == 512 * d)
  {
    if degrees != [] {
      SplitRotation(degrees[1..]);
      LostPart(degrees[0]);
    }
  }

  lemma TotalSnoc(moves: seq<Rotation>, r: Rotation)
    ensures Total(moves + [r], 0) == Total(moves, 0) + if r.direction == 0 then Cycles(r.degree) else 0
    ensures Total(moves + [r], 1) == Total(moves, 1) + if r.direction == 1 then Cycles(r.degree) else 0
    ensures r.direction == 0 && Cycles(r.degree) > 0 ==> LastForward(moves + [r])
  {
    assert (moves + [r])[..|moves|] == moves;
  }

  lemma InitRotations(a: Rotation, b: Rotation, c: Rotation, d: Rotation)
    requires a == Rotation(90, 0) && b == c == Rotation(45, 0) && d == Rotation(180, 0)
    ensures var moves := [a, b, c, d]; Total(moves, 0) == ONEROUND && Total(moves, 1) == 0 && LastForward(moves)
  {
    assert Cycles(90) == 128 && Cycles(45) == 64 && Cycles(180) == 256;
    var none: seq<Rotation> := [];
    TotalSnoc(none, a);
    TotalSnoc(none + [a], b);
    TotalSnoc(none + [a] + [b], c);
    TotalSnoc(none + [a] + [b] + [c], d);
    assert [a, b, c, d] == none + [a] + [b] + [c] + [d];
  }

  /** The rotations of ch11_init make one full round. */
  method Init() returns (motor: Motor)
    ensures motor.Valid() && motor.pos == 8 * 512 - 1
  {
    var a, b, c, d := Rotation(90, 0), Rotation(45, 0), Rotation(45, 0), Rotation(180, 0);
    motor := new Motor();
    InitRotations(a, b, c, d);
    motor.Perform([a, b, c, d]);
  }
}
