/** The permutation Keccak-f[1600] of FIPS 202, section 3, and the in-place code that computes it. A state is 25 lanes
    of 64 bits; lane (x, y) is at x + 5 * y. */
module Keccak {
  type Lane = bv64

  function Xor(a: Lane, b: Lane): Lane { a ^ b }
  function And(a: Lane, b: Lane): Lane { a & b }
  function Not(a: Lane): Lane { !a }

  function Rol(x: Lane, s: nat): Lane
    requires s < 64
  {
    (x << s) | (x >> (64 - s))
  }

  /** The sum without carry, and the product with the complement, on every bit. */
  lemma BitsAre(a: Lane, b: Lane)
    ensures Xor(a, b) == (a | b) & !(a & b)
    ensures And(Not(a), b) == !(a | !b)
  {
  }

  /** Rotations put the bits that fall out at one end back in at the other, by every amount that occurs. */
  lemma RolRotates(x: Lane)
    ensures Rol(x, 1) == x.RotateLeft(1) && Rol(x, 2) == x.RotateLeft(2) && Rol(x, 3) == x.RotateLeft(3)
    ensures Rol(x, 6) == x.RotateLeft(6) && Rol(x, 8) == x.RotateLeft(8) && Rol(x, 10) == x.RotateLeft(10)
    ensures Rol(x, 14) == x.RotateLeft(14) && Rol(x, 15) == x.RotateLeft(15) && Rol(x, 18) == x.RotateLeft(18)
    ensures Rol(x, 20) == x.RotateLeft(20) && Rol(x, 21) == x.RotateLeft(21) && Rol(x, 25) == x.RotateLeft(25)
    ensures Rol(x, 27) == x.RotateLeft(27) && Rol(x, 28) == x.RotateLeft(28) && Rol(x, 36) == x.RotateLeft(36)
    ensures Rol(x, 39) == x.RotateLeft(39) && Rol(x, 41) == x.RotateLeft(41) && Rol(x, 43) == x.RotateLeft(43)
    ensures Rol(x, 44) == x.RotateLeft(44) && Rol(x, 45) == x.RotateLeft(45) && Rol(x, 55) == x.RotateLeft(55)
    ensures Rol(x, 56) == x.RotateLeft(56) && Rol(x, 61) == x.RotateLeft(61) && Rol(x, 62) == x.RotateLeft(62)
  {
  }

  // ----- the standard

  function X(i: nat): nat { i % 5 }
  function Y(i: nat): nat { i / 5 }

  /** The lane at (x, y) and its coordinates. */
  lemma Cell(x: nat, y: nat)
    requires x < 5 && y < 5
    ensures X(5 * y + x) == x && Y(5 * y + x) == y
    ensures forall i: nat :: X(i) == x && Y(i) == y ==> i == 5 * y + x
  {
  }

  lemma Coordinates()
    ensures forall i: nat :: X(i) < 5 && (i < 25 ==> Y(i) < 5)
  {
  }

  /** Section 3.2.1: every lane is XORed with the parities of two columns, one of them rotated. */
  function Column(a: seq<Lane>, x: nat): Lane
    requires |a| == 25 && x < 5
  {
    Xor(Xor(Xor(Xor(a[x], a[x + 5]), a[x + 10]), a[x + 15]), a[x + 20])
  }

  function Spread(a: seq<Lane>, x: nat): Lane
    requires |a| == 25 && x < 5
  {
    Xor(Column(a, (x + 4) % 5), Rol(Column(a, (x + 1) % 5), 1))
  }

  function Theta(a: seq<Lane>): (r: seq<Lane>)
    requires |a| == 25
    ensures |r| == 25
  {
    seq(25, i requires 0 <= i < 25 => Xor(a[i], Spread(a, X(i))))
  }

  /** Section 3.2.2: along the walk (1, 0), ..., (x, y), (y, 2x + 3y), ... lane number t is rotated by
      (t + 1)(t + 2) / 2. */
  function Next(i: nat): (r: nat)
    requires i < 25
    ensures r < 25
  {
    Y(i) + 5 * ((2 * X(i) + 3 * Y(i)) % 5)
  }

  function Walk(t: nat): (r: nat)
    ensures r < 25
  {
    if t == 0 then 1 else Next(Walk(t - 1))
  }

  function Offset(t: nat): (r: nat)
    ensures r < 64
  {
    (t + 1) * (t + 2) / 2 % 64
  }

  function RhoSteps(a: seq<Lane>, t: nat): (r: seq<Lane>)
    requires |a| == 25
    ensures |r| == 25
  {
    if t == 0 then a else RhoSteps(a, t - 1)[Walk(t - 1) := Rol(a[Walk(t - 1)], Offset(t - 1))]
  }

  function Rho(a: seq<Lane>): (r: seq<Lane>)
    requires |a| == 25
    ensures |r| == 25
  {
    RhoSteps(a, 24)
  }

  /** Section 3.2.3: lane (x, y) comes from (x + 3y, x). */
  function From(i: nat): (r: nat)
    requires i < 25
    ensures r < 25
  {
    (X(i) + 3 * Y(i)) % 5 + 5 * X(i)
  }

  function Pi(a: seq<Lane>): (r: seq<Lane>)
    requires |a| == 25
    ensures |r| == 25
  {
    seq(25, i requires 0 <= i < 25 => a[From(i)])
  }

  /** Section 3.2.4: the lanes of a row are combined. */
  function InRow(x: nat, y: nat): (r: nat)
    requires y < 5
    ensures r < 25
  {
    5 * y + x % 5
  }

  function Combined(a: seq<Lane>, i: nat): Lane
    requires |a| == 25 && i < 25
  {
    Xor(a[i], And(Not(a[InRow(X(i) + 1, Y(i))]), a[InRow(X(i) + 2, Y(i))]))
  }

  function Chi(a: seq<Lane>): (r: seq<Lane>)
    requires |a| == 25
    ensures |r| == 25
  {
    seq(25, i requires 0 <= i < 25 => Combined(a, i))
  }

  /** Section 3.2.5: the shift register behind the round constants, and the constant of a round. */
  function Lfsr(r: bv8): bv8 { if r & 0x80 != 0 then (r << 1) ^ 0x71 else r << 1 }

  function LfsrAt(t: nat): bv8 { if t == 0 then 1 else Lfsr(LfsrAt(t - 1)) }

  /** The register's output bit, put at the position with the given weight. */
  function Low(r: bv8, weight: Lane): Lane { if r & 1 == 1 then weight else 0 }

  function RoundBit(t: nat, weight: Lane): Lane { Low(LfsrAt(t), weight) }

  function Join(a: Lane, b: Lane, c: Lane, d: Lane, e: Lane, f: Lane, g: Lane): Lane { a | b | c | d | e | f | g }

  /** The bits at positions 0, 1, 3, 7, 15, 31 and 63 are the next seven outputs. */
  function RoundConstant(i: nat): Lane {
    Join(RoundBit(7 * i, 0x1), RoundBit(7 * i + 1, 0x2), RoundBit(7 * i + 2, 0x8), RoundBit(7 * i + 3, 0x80),
         RoundBit(7 * i + 4, 0x8000), RoundBit(7 * i + 5, 0x8000_0000), RoundBit(7 * i + 6, 0x8000_0000_0000_0000))
  }

  function Iota(a: seq<Lane>, c: Lane): (r: seq<Lane>)
    requires |a| == 25
    ensures |r| == 25
  {
    a[0 := Xor(a[0], c)]
  }

  /** Section 3.3: the first n of 24 rounds. */
  function Rounds(a: seq<Lane>, n: nat): (r: seq<Lane>)
    requires |a| == 25
    ensures |r| == 25
  {
    if n == 0 then a else Iota(Chi(Pi(Rho(Theta(Rounds(a, n - 1))))), RoundConstant(n - 1))
  }

  function KeccakF(a: seq<Lane>): (r: seq<Lane>)
    requires |a| == 25
    ensures |r| == 25
  {
    Rounds(a, 24)
  }

  // ----- the tables of the code

  /** The lane written at each step. */
  function PiTable(k: nat): (r: nat)
    requires k < 24
    ensures 0 < r < 25
  {
    match k
    case 0 => 10 case 1 => 7 case 2 => 11 case 3 => 17 case 4 => 18 case 5 => 3 case 6 => 5 case 7 => 16
    case 8 => 8 case 9 => 21 case 10 => 24 case 11 => 4 case 12 => 15 case 13 => 23 case 14 => 19 case 15 => 13
    case 16 => 12 case 17 => 2 case 18 => 20 case 19 => 14 case 20 => 22 case 21 => 9 case 22 => 6 case 23 => 1
  }

  /** The rotation at each step. */
  function RhoTable(k: nat): (r: nat)
    requires k < 24
    ensures r < 64
  {
    match k
    case 0 => 1 case 1 => 3 case 2 => 6 case 3 => 10 case 4 => 15 case 5 => 21 case 6 => 28 case 7 => 36
    case 8 => 45 case 9 => 55 case 10 => 2 case 11 => 14 case 12 => 27 case 13 => 41 case 14 => 56 case 15 => 8
    case 16 => 25 case 17 => 43 case 18 => 62 case 19 => 18 case 20 => 39 case 21 => 61 case 22 => 20 case 23 => 44
  }

  const RC: seq<Lane> := [
    0x1, 0x8082, 0x8000_0000_0000_808a, 0x8000_0000_8000_8000, 0x808b, 0x8000_0001, 0x8000_0000_8000_8081,
    0x8000_0000_0000_8009, 0x8a, 0x88, 0x8000_8009, 0x8000_000a, 0x8000_808b, 0x8000_0000_0000_008b,
    0x8000_0000_0000_8089, 0x8000_0000_0000_8003, 0x8000_0000_0000_8002, 0x8000_0000_0000_0080, 0x800a,
    0x8000_0000_8000_000a, 0x8000_0000_8000_8081, 0x8000_0000_0000_8080, 0x8000_0001, 0x8000_0000_8000_8008]

  /** At which step each lane but the first is written. */
  ghost function StepOf(d: nat): (r: nat)
    requires 0 < d < 25
    ensures r < 24
  {
    match d
    case 1 => 23 case 2 => 17 case 3 => 5 case 4 => 11 case 5 => 6 case 6 => 22 case 7 => 1 case 8 => 8
    case 9 => 21 case 10 => 0 case 11 => 2 case 12 => 16 case 13 => 15 case 14 => 19 case 15 => 12 case 16 => 7
    case 17 => 3 case 18 => 4 case 19 => 14 case 20 => 18 case 21 => 9 case 22 => 20 case 23 => 13 case 24 => 10
  }

  lemma LaneRow(k: nat)
    requires k < 24
    ensures PiTable(k) == Next(if k == 0 then 1 else PiTable(k - 1))
  {
    if k < 12 { LaneRowFront(k); } else if k < 18 { LaneRowMiddle(k); } else { LaneRowBack(k); }
  }

  lemma LaneRowFront(k: nat)
    requires k < 12
    ensures PiTable(k) == Next(if k == 0 then 1 else PiTable(k - 1))
  {
    match k
    case 0 => case 1 => case 2 => case 3 => case 4 => case 5 => case 6 => case 7 => case 8 => case 9 => case 10 =>
    case 11 =>
  }

  lemma LaneRowMiddle(k: nat)
    requires 12 <= k < 18
    ensures PiTable(k) == Next(PiTable(k - 1))
  {
    match k
    case 12 => case 13 => case 14 => case 15 => case 16 => case 17 =>
  }

  lemma LaneRowBack(k: nat)
    requires 18 <= k < 24
    ensures PiTable(k) == Next(PiTable(k - 1))
  {
    match k
    case 18 => case 19 => case 20 => case 21 => case 22 => case 23 =>
  }

  lemma StepRow(k: nat)
    requires k < 24
    ensures StepOf(PiTable(k)) == k
  {
    match k
    case 0 => case 1 => case 2 => case 3 => case 4 => case 5 => case 6 => case 7 => case 8 => case 9 => case 10 =>
    case 11 => case 12 => case 13 => case 14 => case 15 => case 16 => case 17 => case 18 => case 19 => case 20 =>
    case 21 => case 22 => case 23 =>
  }

  lemma OffsetRow(k: nat)
    requires k < 24
    ensures RhoTable(k) == Offset(k)
  {
    if k < 12 { OffsetRowFront(k); } else { OffsetRowBack(k); }
  }

  lemma OffsetRowFront(k: nat)
    requires k < 12
    ensures RhoTable(k) == Offset(k)
  {
    match k
    case 0 => case 1 => case 2 => case 3 => case 4 => case 5 => case 6 => case 7 => case 8 => case 9 => case 10 =>
    case 11 =>
  }

  lemma OffsetRowBack(k: nat)
    requires 12 <= k < 24
    ensures RhoTable(k) == Offset(k)
  {
    match k
    case 12 => case 13 => case 14 => case 15 => case 16 => case 17 => case 18 => case 19 => case 20 => case 21 =>
    case 22 => case 23 =>
  }

  /** The code's table is the walk of the standard, one step ahead. */
  lemma {:induction false} TableIsWalk(k: nat)
    requires k < 24
    ensures Walk(k + 1) == PiTable(k)
  {
    hide PiTable, StepOf, Next;
    LaneRow(k);
    if k > 0 {
      TableIsWalk(k - 1);
    }
  }

  /** Every lane but the first is on the walk. */
  lemma WalkCovers(d: nat)
    requires 0 < d < 25
    ensures PiTable(StepOf(d)) == d
  {
    match d
    case 1 => case 2 => case 3 => case 4 => case 5 => case 6 => case 7 => case 8 => case 9 => case 10 => case 11 =>
    case 12 => case 13 => case 14 => case 15 => case 16 => case 17 => case 18 => case 19 => case 20 => case 21 =>
    case 22 => case 23 => case 24 =>
  }

  /** Moving along the walk is what pi does to positions. */
  lemma FromNext(i: nat)
    requires i < 25
    ensures From(Next(i)) == i
  {
    hide X, Y, From, Next;
    Coordinates();
    OwnCell(i);
    FromNextCell(X(i), Y(i));
  }

  lemma FromNextCell(x: nat, y: nat)
    requires x < 5 && y < 5
    ensures From(Next(5 * y + x)) == 5 * y + x
  {
    hide X, Y;
    Cell(x, y);
    var z := (2 * x + 3 * y) % 5;
    Cell(y, z);
    BackAgain(x, y);
  }

  lemma BackAgain(x: nat, y: nat)
    requires x < 5 && y < 5
    ensures (y + 3 * ((2 * x + 3 * y) % 5)) % 5 == x
  {
    var z, q := (2 * x + 3 * y) % 5, (2 * x + 3 * y) / 5;
    assert y + 3 * z == x + 5 * (x + 2 * y - 3 * q);
    Modulo(x, x + 2 * y - 3 * q);
  }

  lemma OwnCell(i: nat)
    ensures i == 5 * Y(i) + X(i)
  {
  }

  lemma Modulo(x: nat, k: int)
    requires x < 5
    ensures (x + 5 * k) % 5 == x
  {
  }

  /** The step at which a lane is read; the last lane written is the first one read. */
  ghost function ReadAt(d: nat): nat
    requires d < 25
  {
    if d <= 1 then 0 else StepOf(d) + 1
  }

  lemma WalkIsRead(t: nat)
    requires t < 24
    ensures ReadAt(Walk(t)) == t && Walk(t) != 0
  {
    hide Next, PiTable, StepOf;
    if t > 0 {
      TableIsWalk(t - 1);
      StepRow(t - 1);
      assert StepOf(1) == 23 by { StepOfFirst(); }
    }
  }

  lemma StepOfFirst()
    ensures StepOf(1) == 23
  {
  }

  /** What the rotations of section 3.2.2 leave in each lane. */
  lemma {:induction false} RhoAt(a: seq<Lane>, t: nat, j: nat)
    requires |a| == 25 && t <= 24 && j < t
    ensures RhoSteps(a, t)[Walk(j)] == Rol(a[Walk(j)], Offset(j)) && RhoSteps(a, t)[0] == a[0]
  {
    hide Rol, Offset, Walk, ReadAt;
    WalkIsRead(t - 1);
    WalkIsRead(j);
    if j < t - 1 {
      RhoAt(a, t - 1, j);
    } else if t > 1 {
      RhoAt(a, t - 1, 0);
    }
  }

  // ----- the code

  method ColumnParity(a: array<Lane>, x: nat) returns (c: Lane)
    requires a.Length == 25 && x < 5
    ensures c == Column(a[..], x)
  {
    c := 0;
    c := Xor(c, a[x]);
    c := Xor(c, a[x + 5]);
    c := Xor(c, a[x + 10]);
    c := Xor(c, a[x + 15]);
    c := Xor(c, a[x + 20]);
    XorZero(a[x]);
  }

  lemma XorZero(a: Lane)
    ensures Xor(0, a) == a
  {
  }

  method ThetaInPlace(a: array<Lane>, b: array<Lane>)
    requires a.Length == 25 && b.Length == 5 && a != b
    modifies a, b
    ensures a[..] == Theta(old(a[..]))
  {
    hide Xor, Rol, Column, X, Y;
    Coordinates();
    for x := 0 to 5
      invariant a[..] == old(a[..])
      invariant forall k :: 0 <= k < x ==> b[k] == Column(old(a[..]), k)
    {
      b[x] := ColumnParity(a, x);
    }
    ghost var was := a[..];
    for x := 0 to 5
      invariant forall k :: 0 <= k < 5 ==> b[k] == Column(was, k)
      invariant forall i :: 0 <= i < 25 ==> a[i] == if X(i) < x then Xor(was[i], Spread(was, X(i))) else was[i]
    {
      for y := 0 to 5
        invariant forall k :: 0 <= k < 5 ==> b[k] == Column(was, k)
        invariant forall i :: 0 <= i < 25 ==>
          a[i] == if X(i) < x || (X(i) == x && Y(i) < y) then Xor(was[i], Spread(was, X(i))) else was[i]
      {
        Cell(x, y);
        a[5 * y + x] := Xor(a[5 * y + x], Xor(b[(x + 4) % 5], Rol(b[(x + 1) % 5], 1)));
      }
    }
  }

  /** The lane written at a step: where the lane read at that step goes. */
  ghost function Target(j: nat): (r: nat)
    ensures r < 25
  {
    Walk(j + 1)
  }

  /** After k steps: the lanes written so far hold what they should, the others what they did. */
  ghost predicate Moved(was: seq<Lane>, now: seq<Lane>, k: nat) {
    && |was| == 25 && |now| == 25 && now[0] == was[0]
    && forall j :: 0 <= j < 24 ==> now[Target(j)] == if j < k then Rol(was[Walk(j)], Offset(j)) else was[Target(j)]
  }

  lemma MoveOne(was: seq<Lane>, now: seq<Lane>, k: nat, t: Lane)
    requires Moved(was, now, k) && k < 24 && t == was[Walk(k)]
    ensures PiTable(k) == Walk(k + 1) && now[PiTable(k)] == was[Walk(k + 1)]
    ensures Moved(was, now[PiTable(k) := Rol(t, RhoTable(k))], k + 1)
  {
    hide Rol, Next, Offset, Walk, PiTable, RhoTable;
    TableIsWalk(k);
    OffsetRow(k);
    OtherTargets(k);
    assert Target(k) == PiTable(k);
  }

  /** One pass over the lanes, carrying a single one along, does both the rotations and the permutation of lanes. */
  method RhoPiInPlace(a: array<Lane>, b: array<Lane>)
    requires a.Length == 25 && b.Length == 5 && a != b
    modifies a, b
    ensures a[..] == Pi(Rho(old(a[..])))
  {
    assert Walk(0) == 1;
    hide Rol, Rho, Pi, Walk, PiTable, RhoTable, Target, Offset;
    ghost var was := a[..];
    var t := a[1];
    var k := 0;
    while k < 24
      invariant k <= 24 && t == was[Walk(k)] && Moved(was, a[..], k)
    {
      ghost var before := a[..];
      MoveOne(was, before, k, t);
      hide Moved;
      b[0] := a[PiTable(k)];
      a[PiTable(k)] := Rol(t, RhoTable(k));
      assert a[..] == before[PiTable(k) := Rol(t, RhoTable(k))];
      t := b[0];
      k := k + 1;
    }
    RhoPiIs(was, a[..]);
  }

  lemma OtherTargets(k: nat)
    requires k < 24
    ensures Target(k) != 0
    ensures forall j :: 0 <= j < 24 && j != k ==> Target(j) != Target(k)
  {
    hide Next, Walk, PiTable, StepOf;
    TableIsWalk(k);
    StepRow(k);
    forall j | 0 <= j < 24 && j != k ensures Target(j) != Target(k) {
      TableIsWalk(j);
      StepRow(j);
    }
  }

  lemma RhoPiIs(was: seq<Lane>, now: seq<Lane>)
    requires |was| == 25 && |now| == 25 && now[0] == was[0]
    requires forall j :: 0 <= j < 24 ==> now[Target(j)] == Rol(was[Walk(j)], Offset(j))
    ensures now == Pi(Rho(was))
  {
    hide Rol, Offset, Rho, From, Walk, Target;
    forall d | 0 <= d < 25 ensures now[d] == Rho(was)[From(d)] {
      if d == 0 {
        RhoLane(was, 0);
        FromOrigin();
      } else {
        LaneIs(was, now, d);
      }
    }
    assert now == Pi(Rho(was));
  }

  lemma FromOrigin()
    ensures From(0) == 0
  {
  }

  lemma RhoLane(a: seq<Lane>, j: nat)
    requires |a| == 25 && j < 24
    ensures Rho(a)[Walk(j)] == Rol(a[Walk(j)], Offset(j)) && Rho(a)[0] == a[0]
  {
    hide Rol, Offset, Walk, RhoSteps;
    RhoAt(a, 24, j);
  }

  lemma LaneIs(was: seq<Lane>, now: seq<Lane>, d: nat)
    requires |was| == 25 && |now| == 25 && 0 < d < 25
    requires forall j :: 0 <= j < 24 ==> now[Target(j)] == Rol(was[Walk(j)], Offset(j))
    ensures now[d] == Rho(was)[From(d)]
  {
    hide Rol, Offset, Rho, From, Next, PiTable, StepOf;
    WalkCovers(d);
    var j := StepOf(d);
    TableIsWalk(j);
    FromNext(Walk(j));
    RhoLane(was, j);
    assert Target(j) == d == Next(Walk(j));
  }

  method ChiInPlace(a: array<Lane>, b: array<Lane>)
    requires a.Length == 25 && b.Length == 5 && a != b
    modifies a, b
    ensures a[..] == Chi(old(a[..]))
  {
    hide Xor, And, Not, X, Y, Combined;
    Coordinates();
    ghost var was := a[..];
    for y := 0 to 5
      invariant forall i :: 0 <= i < 25 ==> a[i] == if Y(i) < y then Combined(was, i) else was[i]
    {
      CopyRow(a, b, y, was);
      for x := 0 to 5
        invariant forall k :: 0 <= k < 5 ==> b[k] == was[InRow(k, y)]
        invariant forall i :: 0 <= i < 25 ==>
          a[i] == if Y(i) < y || (Y(i) == y && X(i) < x) then Combined(was, i) else was[i]
      {
        Cell(x, y);
        CombinedAt(was, x, y);
        a[5 * y + x] := Xor(b[x], And(Not(b[(x + 1) % 5]), b[(x + 2) % 5]));
      }
    }
  }

  lemma CombinedAt(a: seq<Lane>, x: nat, y: nat)
    requires |a| == 25 && x < 5 && y < 5
    ensures Combined(a, 5 * y + x) ==
      Xor(a[InRow(x, y)], And(Not(a[InRow((x + 1) % 5, y)]), a[InRow((x + 2) % 5, y)]))
  {
    hide Xor, And, Not, X, Y, InRow;
    Cell(x, y);
    InRowOf(x, y);
    InRowOf(x + 1, y);
    InRowOf(x + 2, y);
  }

  lemma InRowOf(x: nat, y: nat)
    requires y < 5
    ensures InRow(x % 5, y) == InRow(x, y) && (x < 5 ==> InRow(x, y) == 5 * y + x)
  {
  }

  method CopyRow(a: array<Lane>, b: array<Lane>, y: nat, ghost was: seq<Lane>)
    requires a.Length == 25 && b.Length == 5 && a != b && y < 5 && |was| == 25
    requires forall i :: 0 <= i < 25 && Y(i) == y ==> a[i] == was[i]
    modifies b
    ensures forall k :: 0 <= k < 5 ==> b[k] == was[InRow(k, y)]
  {
    for x := 0 to 5
      invariant forall k :: 0 <= k < x ==> b[k] == was[InRow(k, y)]
    {
      b[x] := a[5 * y + x];
    }
  }

  /** The whole permutation: 24 rounds, each in place. */
  method Permute(a: array<Lane>)
    requires a.Length == 25
    modifies a
    ensures a[..] == KeccakF(old(a[..]))
  {
    hide Theta, Rho, Pi, Chi, RoundConstant, Xor;
    var b := new Lane[5](i => 0);
    for i := 0 to 24
      invariant a[..] == Rounds(old(a[..]), i)
    {
      ThetaInPlace(a, b);
      RhoPiInPlace(a, b);
      ChiInPlace(a, b);
      ConstantIs(i);
      ghost var before := a[..];
      a[0] := Xor(a[0], RC[i]);
      assert a[..] == Iota(before, RC[i]);
    }
  }

  // ----- the round constants

  /** The shift register at the beginning of each round. */
  ghost function Seed(i: nat): bv8
    requires i < 24
  {
    match i
    case 0 => 0x1 case 1 => 0x80 case 2 => 0xd8 case 3 => 0x1a case 4 => 0xdf case 5 => 0x9
    case 6 => 0x35 case 7 => 0x4f case 8 => 0xca case 9 => 0x70 case 10 => 0x41 case 11 => 0xec
    case 12 => 0xd5 case 13 => 0xcd case 14 => 0x63 case 15 => 0xab case 16 => 0xaa case 17 => 0x2a
    case 18 => 0xf2 case 19 => 0xe8 case 20 => 0x37 case 21 => 0x3e case 22 => 0xb case 23 => 0x44
  }

  /** The constant that follows from the register at the beginning of the round. */
  ghost function Constant(r: bv8): Lane {
    var r1 := Lfsr(r); var r2 := Lfsr(r1); var r3 := Lfsr(r2);
    var r4 := Lfsr(r3); var r5 := Lfsr(r4); var r6 := Lfsr(r5);
    Join(Low(r, 0x1), Low(r1, 0x2), Low(r2, 0x8), Low(r3, 0x80), Low(r4, 0x8000), Low(r5, 0x8000_0000),
         Low(r6, 0x8000_0000_0000_0000))
  }

  ghost function SevenOn(r: bv8): bv8 { Lfsr(Lfsr(Lfsr(Lfsr(Lfsr(Lfsr(Lfsr(r))))))) }

  lemma SeedsFollow()
    ensures SevenOn(0x1) == 0x80 && SevenOn(0x80) == 0xd8 && SevenOn(0xd8) == 0x1a && SevenOn(0x1a) == 0xdf
    ensures SevenOn(0xdf) == 0x9 && SevenOn(0x9) == 0x35 && SevenOn(0x35) == 0x4f && SevenOn(0x4f) == 0xca
    ensures SevenOn(0xca) == 0x70 && SevenOn(0x70) == 0x41 && SevenOn(0x41) == 0xec && SevenOn(0xec) == 0xd5
    ensures SevenOn(0xd5) == 0xcd && SevenOn(0xcd) == 0x63 && SevenOn(0x63) == 0xab && SevenOn(0xab) == 0xaa
    ensures SevenOn(0xaa) == 0x2a && SevenOn(0x2a) == 0xf2 && SevenOn(0xf2) == 0xe8 && SevenOn(0xe8) == 0x37
    ensures SevenOn(0x37) == 0x3e && SevenOn(0x3e) == 0xb && SevenOn(0xb) == 0x44
  {
  }

  lemma SeedConstants()
    ensures Constant(0x1) == 0x1 && Constant(0x80) == 0x8082
    ensures Constant(0xd8) == 0x8000_0000_0000_808a && Constant(0x1a) == 0x8000_0000_8000_8000
    ensures Constant(0xdf) == 0x808b && Constant(0x9) == 0x8000_0001
    ensures Constant(0x35) == 0x8000_0000_8000_8081 && Constant(0x4f) == 0x8000_0000_0000_8009
    ensures Constant(0xca) == 0x8a && Constant(0x70) == 0x88
  {
  }

  lemma LaterSeedConstants()
    ensures Constant(0x41) == 0x8000_8009 && Constant(0xec) == 0x8000_000a
    ensures Constant(0xd5) == 0x8000_808b && Constant(0xcd) == 0x8000_0000_0000_008b
    ensures Constant(0x63) == 0x8000_0000_0000_8089 && Constant(0xab) == 0x8000_0000_0000_8003
    ensures Constant(0xaa) == 0x8000_0000_0000_8002 && Constant(0x2a) == 0x8000_0000_0000_0080
    ensures Constant(0xf2) == 0x800a && Constant(0xe8) == 0x8000_0000_8000_000a
    ensures Constant(0x37) == 0x8000_0000_8000_8081 && Constant(0x3e) == 0x8000_0000_0000_8080
    ensures Constant(0xb) == 0x8000_0001 && Constant(0x44) == 0x8000_0000_8000_8008
  {
  }

  lemma SeedRow(i: nat)
    requires i < 24
    ensures |RC| == 24 && RC[i] == Constant(Seed(i)) && (i < 23 ==> Seed(i + 1) == SevenOn(Seed(i)))
  {
    hide Constant, SevenOn;
    SeedsFollow();
    SeedConstants();
    LaterSeedConstants();
    match i
    case 0 => case 1 => case 2 => case 3 => case 4 => case 5 => case 6 => case 7 => case 8 => case 9 => case 10 =>
    case 11 => case 12 => case 13 => case 14 => case 15 => case 16 => case 17 => case 18 => case 19 => case 20 =>
    case 21 => case 22 => case 23 =>
  }

  lemma LfsrUnrolled(t: nat)
    ensures LfsrAt(t + 1) == Lfsr(LfsrAt(t))
  {
  }

  lemma SevenLater(i: nat)
    ensures LfsrAt(7 * i + 7) == SevenOn(LfsrAt(7 * i)) && RoundConstant(i) == Constant(LfsrAt(7 * i))
  {
    hide Lfsr, LfsrAt, Low, Join;
    var t := 7 * i;
    LfsrUnrolled(t);
    LfsrUnrolled(t + 1);
    LfsrUnrolled(t + 2);
    LfsrUnrolled(t + 3);
    LfsrUnrolled(t + 4);
    LfsrUnrolled(t + 5);
    LfsrUnrolled(t + 6);
  }

  lemma FirstSeed()
    ensures LfsrAt(0) == Seed(0)
  {
  }

  lemma {:induction false} SeedIs(i: nat)
    requires i < 24
    ensures LfsrAt(7 * i) == Seed(i)
  {
    hide LfsrAt, Seed, SevenOn, Constant, RoundConstant;
    if i == 0 {
      FirstSeed();
    } else {
      SeedIs(i - 1);
      SeedRow(i - 1);
      SevenLater(i - 1);
      assert 7 * (i - 1) + 7 == 7 * i;
    }
  }

  /** The code's constants are the ones the standard derives. */
  lemma ConstantIs(i: nat)
    requires i < 24
    ensures |RC| == 24 && RC[i] == RoundConstant(i)
  {
    hide LfsrAt, Seed, SevenOn, Constant, RoundConstant;
    SeedIs(i);
    SeedRow(i);
    SevenLater(i);
  }
}
