/** The state of the permutation as the hash sees it: 200 bytes, eight to a lane, the least significant first. */
module KeccakBytes {
  import Keccak

  type Byte = bv8
  type Lane = Keccak.Lane

  const STATE_SIZE := 200

  function Rest(l: Lane): Lane { l >> 8 }
  function LowByte(l: Lane): Byte { (l & 0xff) as bv8 }
  function Prepend(b: Byte, l: Lane): Lane { (b as bv64) | (l << 8) }

  function JoinBytes(s: seq<Byte>): Lane {
    if s == [] then 0 else Prepend(s[0], JoinBytes(s[1..]))
  }

  function ByteOf(l: Lane, j: nat): Byte {
    if j == 0 then LowByte(l) else ByteOf(Rest(l), j - 1)
  }

  /** The first byte is the least significant one. */
  lemma LittleEndian()
    ensures JoinBytes([0x01, 0x23, 0x45, 0x67, 0x89, 0xab, 0xcd, 0xef]) == 0xefcd_ab89_6745_2301
    ensures ByteOf(0xefcd_ab89_6745_2301, 0) == 0x01 && ByteOf(0xefcd_ab89_6745_2301, 7) == 0xef
  {
    var s: seq<Byte> := [0x01, 0x23, 0x45, 0x67, 0x89, 0xab, 0xcd, 0xef];
    assert s[7..] == [0xef] && JoinBytes(s[7..]) == 0xef;
    assert JoinBytes(s[6..]) == 0xefcd;
    assert JoinBytes(s[5..]) == 0xefcdab;
    assert JoinBytes(s[4..]) == 0xefcdab89;
    assert JoinBytes(s[3..]) == 0xefcdab8967;
    assert JoinBytes(s[2..]) == 0xefcdab896745;
    assert JoinBytes(s[1..]) == 0xefcdab89674523;
    assert s[0..] == s;
  }

  function ToLanes(s: seq<Byte>): (r: seq<Lane>)
    requires |s| == STATE_SIZE
    ensures |r| == 25
  {
    seq(25, i requires 0 <= i < 25 => JoinBytes(s[8 * i..8 * i + 8]))
  }

  function ToBytes(lanes: seq<Lane>): (r: seq<Byte>)
    requires |lanes| == 25
    ensures |r| == STATE_SIZE
  {
    seq(STATE_SIZE, k requires 0 <= k < STATE_SIZE => ByteOf(lanes[k / 8], k % 8))
  }

  // ----- the two views are inverse

  /** Nothing is set above the lowest n bytes. */
  ghost predicate Fits(l: Lane, n: nat) {
    if n == 0 then l == 0 else Fits(Rest(l), n - 1)
  }

  lemma {:induction false} ZeroFits(n: nat)
    ensures Fits(0, n)
  {
    if n > 0 {
      assert Rest(0) == 0;
      ZeroFits(n - 1);
    }
  }

  lemma {:induction false} FitsMore(l: Lane, n: nat)
    requires Fits(l, n)
    ensures Fits(l, n + 1)
  {
    if n == 0 {
      ZeroFits(1);
    } else {
      FitsMore(Rest(l), n - 1);
    }
  }

  lemma {:induction false} FitsIn(l: Lane, n: nat, m: nat)
    requires Fits(l, n) && n <= m
    ensures Fits(l, m)
    decreases m - n
  {
    if n < m {
      FitsMore(l, n);
      FitsIn(l, n + 1, m);
    }
  }

  lemma SevenBytes(l: Lane)
    requires Fits(l, 7)
    ensures l >> 56 == 0
  {
    var l2 := Rest(Rest(l));
    var l4 := Rest(Rest(l2));
    var l6 := Rest(Rest(l4));
    hide Rest;
    assert Fits(Rest(l), 6);
    assert Fits(l2, 5);
    assert Fits(Rest(l2), 4);
    assert Fits(l4, 3);
    assert Fits(Rest(l4), 2);
    assert Fits(l6, 1);
    assert Fits(Rest(l6), 0);
    SevenShifts(l);
  }

  lemma SevenShifts(l: Lane)
    ensures Rest(Rest(Rest(Rest(Rest(Rest(Rest(l))))))) == l >> 56
  {
  }

  lemma AllFit(l: Lane)
    ensures Fits(l, 8)
  {
    EightShifts(l);
    hide Rest;
    var l2 := Rest(Rest(l));
    var l4 := Rest(Rest(l2));
    var l6 := Rest(Rest(l4));
    assert Fits(Rest(Rest(l6)), 0);
    assert Fits(l6, 2);
    assert Fits(l4, 4);
    assert Fits(l2, 6);
  }

  lemma EightShifts(l: Lane)
    ensures Rest(Rest(Rest(Rest(Rest(Rest(Rest(Rest(l)))))))) == 0
  {
  }

  lemma PrependParts(b: Byte, l: Lane)
    requires l >> 56 == 0
    ensures LowByte(Prepend(b, l)) == b && Rest(Prepend(b, l)) == l
  {
  }

  lemma PrependAgain(l: Lane)
    ensures Prepend(LowByte(l), Rest(l)) == l
  {
  }

  lemma {:induction false} JoinFits(s: seq<Byte>)
    requires |s| <= 8
    ensures Fits(JoinBytes(s), |s|)
    ensures s != [] ==> LowByte(JoinBytes(s)) == s[0] && Rest(JoinBytes(s)) == JoinBytes(s[1..])
    decreases |s|
  {
    if s != [] {
      JoinFits(s[1..]);
      FitsIn(JoinBytes(s[1..]), |s| - 1, 7);
      SevenBytes(JoinBytes(s[1..]));
      PrependParts(s[0], JoinBytes(s[1..]));
    }
  }

  lemma {:induction false} ByteOfJoin(s: seq<Byte>, j: nat)
    requires j < |s| <= 8
    ensures ByteOf(JoinBytes(s), j) == s[j]
    decreases j
  {
    hide LowByte, Rest, Prepend;
    JoinFits(s);
    if j > 0 {
      ByteOfJoin(s[1..], j - 1);
    }
  }

  function Bytes(l: Lane, n: nat): (r: seq<Byte>)
    ensures |r| == n && forall j :: 0 <= j < n ==> r[j] == ByteOf(l, j)
  {
    seq(n, (j: nat) => ByteOf(l, j))
  }

  lemma {:induction false} JoinOfBytes(l: Lane, n: nat)
    requires Fits(l, n)
    ensures JoinBytes(Bytes(l, n)) == l
    decreases n
  {
    if n > 0 {
      JoinOfBytes(Rest(l), n - 1);
      assert Bytes(l, n)[1..] == Bytes(Rest(l), n - 1);
      PrependAgain(l);
    }
  }

  /** Seeing the bytes as lanes and the lanes as bytes again loses nothing. */
  lemma BytesRoundTrip(s: seq<Byte>)
    requires |s| == STATE_SIZE
    ensures ToBytes(ToLanes(s)) == s
  {
    hide JoinBytes, ByteOf;
    forall k | 0 <= k < STATE_SIZE ensures ToBytes(ToLanes(s))[k] == s[k] {
      var lane := s[8 * (k / 8)..8 * (k / 8) + 8];
      assert lane[k % 8] == s[k];
      ByteOfJoin(lane, k % 8);
    }
  }

  lemma LanesRoundTrip(lanes: seq<Lane>)
    requires |lanes| == 25
    ensures ToLanes(ToBytes(lanes)) == lanes
  {
    hide JoinBytes, ByteOf, ToBytes, Fits;
    forall i | 0 <= i < 25 ensures ToLanes(ToBytes(lanes))[i] == lanes[i] {
      LaneBytes(lanes, i);
      AllFit(lanes[i]);
      JoinOfBytes(lanes[i], 8);
    }
  }

  lemma LaneBytes(lanes: seq<Lane>, i: nat)
    requires |lanes| == 25 && i < 25
    ensures ToBytes(lanes)[8 * i..8 * i + 8] == Bytes(lanes[i], 8)
  {
    hide ByteOf;
    var slice := ToBytes(lanes)[8 * i..8 * i + 8];
    forall j | 0 <= j < 8 ensures slice[j] == ByteOf(lanes[i], j) {
      assert slice[j] == ToBytes(lanes)[8 * i + j];
      assert (8 * i + j) / 8 == i && (8 * i + j) % 8 == j;
    }
  }

  // ----- the permutation on bytes

  /** What it does to anything but a whole state does not matter. */
  function KeccakF(s: seq<Byte>): (r: seq<Byte>)
    ensures |r| == |s|
  {
    if |s| != STATE_SIZE then s else ToBytes(Keccak.KeccakF(ToLanes(s)))
  }

  /** View the bytes as lanes, permute the lanes in place, and view them as bytes again. */
  method Permute(a: array<Byte>)
    requires a.Length == STATE_SIZE
    modifies a
    ensures a[..] == KeccakF(old(a[..]))
  {
    hide ToLanes, ToBytes, Keccak.KeccakF;
    var lanes := ReadLanes(a);
    Keccak.Permute(lanes);
    WriteBytes(lanes, a);
  }

  method ReadLanes(a: array<Byte>) returns (lanes: array<Lane>)
    requires a.Length == STATE_SIZE
    ensures fresh(lanes) && lanes.Length == 25 && lanes[..] == ToLanes(a[..])
  {
    hide JoinBytes;
    lanes := new Lane[25](i => 0);
    var bytes := a[..];
    for i := 0 to 25
      invariant forall k :: 0 <= k < i ==> lanes[k] == JoinBytes(bytes[8 * k..8 * k + 8])
    {
      lanes[i] := JoinBytes(bytes[8 * i..8 * i + 8]);
    }
  }

  method WriteBytes(lanes: array<Lane>, a: array<Byte>)
    requires lanes.Length == 25 && a.Length == STATE_SIZE
    modifies a
    ensures a[..] == ToBytes(lanes[..])
  {
    hide ByteOf;
    for k := 0 to STATE_SIZE
      invariant forall i :: 0 <= i < k ==> a[i] == ByteOf(lanes[i / 8], i % 8)
    {
      a[k] := ByteOf(lanes[k / 8], k % 8);
    }
  }
}
