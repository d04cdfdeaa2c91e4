/** The sponge construction of FIPS 202, section 4, over byte strings, and the block-by-block hash that computes it. */
module Sponge {
  import opened Arithmetic
  import opened KeccakBytes

  /** A permutation of the state; any function on 200 bytes will do. */
  ghost predicate IsPermutation(p: seq<Byte> -> seq<Byte>) {
    forall s :: |s| == STATE_SIZE ==> |p(s)| == STATE_SIZE
  }

  lemma KeccakIsPermutation()
    ensures IsPermutation(KeccakF)
  {
  }

  function Xor(a: Byte, b: Byte): Byte { a ^ b }

  /** The sum without carry, on every bit. */
  lemma XorIs(a: Byte, b: Byte)
    ensures Xor(a, b) == (a | b) & !(a & b)
  {
  }

  function Zeros(n: nat): (r: seq<Byte>)
    ensures |r| == n
  {
    seq(n, i => 0)
  }

  /** XOR a block into the front of the state. */
  function XorFront(state: seq<Byte>, block: seq<Byte>): (r: seq<Byte>)
    requires |block| <= |state|
    ensures |r| == |state|
    ensures forall i :: 0 <= i < |state| ==> r[i] == if i < |block| then Xor(state[i], block[i]) else state[i]
  {
    seq(|state|, i requires 0 <= i < |state| => if i < |block| then Xor(state[i], block[i]) else state[i])
  }

  /** Section 5.1 with the hexadecimal form of appendix B.2: the domain bits and the first padding bit in `delim`, the
      last padding bit in the last byte; when they fall into one byte, both are in it. */
  function Padding(length: nat, rate: nat, delim: Byte): (r: seq<Byte>)
    requires rate > 0
    ensures |r| == rate - length % rate
    ensures length < rate ==> |r| == rate - length
  {
    var q := rate - length % rate;
    if q == 1 then [Xor(delim, 0x80)] else [delim] + Zeros(q - 2) + [0x80]
  }

  /** Section 4, steps 1 to 6: absorb whole blocks. */
  ghost function Absorb(p: seq<Byte> -> seq<Byte>, state: seq<Byte>, rate: nat, message: seq<Byte>): (r: seq<Byte>)
    requires IsPermutation(p) && 0 < rate < STATE_SIZE && |state| == STATE_SIZE
    ensures |r| == STATE_SIZE
    decreases |message|
  {
    if |message| < rate then state
    else Absorb(p, p(XorFront(state, message[..rate])), rate, message[rate..])
  }

  /** Section 4, steps 7 to 10: squeeze until there is enough. */
  ghost function Squeeze(p: seq<Byte> -> seq<Byte>, state: seq<Byte>, rate: nat, n: nat): (r: seq<Byte>)
    requires IsPermutation(p) && 0 < rate < STATE_SIZE && |state| == STATE_SIZE
    ensures |r| == n
    decreases n
  {
    if n <= rate then state[..n] else state[..rate] + Squeeze(p, p(state), rate, n - rate)
  }

  ghost function SpongeHash(p: seq<Byte> -> seq<Byte>, rate: nat, delim: Byte, message: seq<Byte>,
                            n: nat): (r: seq<Byte>)
    requires IsPermutation(p) && 0 < rate < STATE_SIZE
    ensures |r| == n
  {
    Squeeze(p, Absorb(p, Zeros(STATE_SIZE), rate, message + Padding(|message|, rate, delim)), rate, n)
  }

  /** Byte i of the last, padded block, for the part after the message. */
  lemma PaddedByte(rest: nat, rate: nat, delim: Byte, i: nat)
    requires rest <= i < rate
    ensures var b := Padding(rest, rate, delim)[i - rest];
      b == Xor(if i == rest then delim else 0, if i == rate - 1 then 0x80 else 0)
  {
    assert rest % rate == rest;
    XorZero(delim);
  }

  /** Absorbing the last, padded block is XORing its three parts in one after the other. */
  lemma LastBlock(state: seq<Byte>, rest: seq<Byte>, rate: nat, delim: Byte)
    requires 0 < rate <= |state| && |rest| < rate
    ensures |Padding(|rest|, rate, delim)| == rate - |rest|
    ensures XorFront(Marked(state, |rest|, rate, delim), rest) == XorFront(state, rest + Padding(|rest|, rate, delim))
  {
    assert |rest| % rate == |rest|;
    hide Padding, XorFront, Xor;
    var marked := Marked(state, |rest|, rate, delim);
    var block := rest + Padding(|rest|, rate, delim);
    forall i | 0 <= i < |state| ensures XorFront(marked, rest)[i] == XorFront(state, block)[i] {
      LastByte(state, rest, rate, delim, i);
    }
    assert XorFront(marked, rest) == XorFront(state, block);
  }

  /** The state with the delimiter and the end of the padding XORed in. */
  function Marked(state: seq<Byte>, at: nat, rate: nat, delim: Byte): (r: seq<Byte>)
    requires at < rate <= |state|
    ensures |r| == |state|
    ensures forall i :: 0 <= i < |state| ==>
      r[i] == Xor(Xor(state[i], if i == at then delim else 0), if i == rate - 1 then 0x80 else 0)
  {
    var r := state[at := Xor(state[at], delim)];
    assert forall i :: 0 <= i < |state| && i != at ==> state[i] == Xor(state[i], 0);
    assert forall i :: 0 <= i < |state| && i != rate - 1 ==> r[i] == Xor(r[i], 0);
    r[rate - 1 := Xor(r[rate - 1], 0x80)]
  }

  lemma LastByte(state: seq<Byte>, rest: seq<Byte>, rate: nat, delim: Byte, i: nat)
    requires |rest| < rate <= |state| && i < |state| && |Padding(|rest|, rate, delim)| == rate - |rest|
    ensures XorFront(Marked(state, |rest|, rate, delim), rest)[i] ==
      XorFront(state, rest + Padding(|rest|, rate, delim))[i]
  {
    hide Padding, XorFront, Marked, Xor;
    var pad := Padding(|rest|, rate, delim);
    XorParts(state[i], if i == |rest| then delim else 0, if i == rate - 1 then 0x80 else 0);
    if |rest| <= i < rate {
      PaddedByte(|rest|, rate, delim, i);
      assert (rest + pad)[i] == pad[i - |rest|];
    } else if i < |rest| {
      assert (rest + pad)[i] == rest[i];
    }
  }

  lemma XorParts(a: Byte, b: Byte, c: Byte)
    ensures Xor(a, Xor(b, c)) == Xor(Xor(a, b), c)
    ensures b == 0 ==> Xor(a, b) == a
    ensures c == 0 ==> Xor(Xor(a, b), c) == Xor(a, b)
  {
  }

  lemma XorZero(a: Byte)
    ensures Xor(a, 0) == a && Xor(0, a) == a
  {
  }

  lemma PaddingDependsOnRest(length: nat, rate: nat, delim: Byte)
    requires rate > 0 && length >= rate
    ensures Padding(length, rate, delim) == Padding(length - rate, rate, delim)
  {
    ModMinus(length, rate);
  }

  /** XOR `len` bytes of the input, from `from` on, into the state. */
  method XorIn(a: array<Byte>, input: seq<Byte>, from: nat, len: nat)
    requires len <= a.Length && from + len <= |input|
    modifies a
    ensures a[..] == XorFront(old(a[..]), input[from..from + len])
  {
    for i := 0 to len
      invariant forall k :: 0 <= k < a.Length ==> a[k] == if k < i then Xor(old(a[k]), input[from + k]) else old(a[k])
    {
      a[i] := Xor(a[i], input[from + i]);
    }
  }

  /** Copy the front of the state to the output. */
  method SetOut(a: array<Byte>, output: array<Byte>, from: nat, len: nat)
    requires a != output && len <= a.Length && from + len <= output.Length
    modifies output
    ensures output[from..from + len] == a[..len]
    ensures forall k :: 0 <= k < output.Length && !(from <= k < from + len) ==> output[k] == old(output[k])
  {
    for i := 0 to len
      invariant forall k :: 0 <= k < i ==> output[from + k] == a[k]
      invariant forall k :: 0 <= k < output.Length && !(from <= k < from + i) ==> output[k] == old(output[k])
    {
      output[from + i] := a[i];
    }
  }

  lemma AbsorbStep(p: seq<Byte> -> seq<Byte>, state: seq<Byte>, rate: nat, input: seq<Byte>, from: nat, delim: Byte)
    requires IsPermutation(p) && 0 < rate < STATE_SIZE && |state| == STATE_SIZE && from + rate <= |input|
    ensures Absorb(p, state, rate, input[from..] + Padding(|input| - from, rate, delim)) ==
      Absorb(p, p(XorFront(state, input[from..from + rate])), rate,
             input[from + rate..] + Padding(|input| - from - rate, rate, delim))
  {
    PaddingDependsOnRest(|input| - from, rate, delim);
    hide Padding, XorFront;
    var padding := Padding(|input| - from, rate, delim);
    assert (input[from..] + padding)[..rate] == input[from..from + rate];
    assert (input[from..] + padding)[rate..] == input[from + rate..] + padding;
  }

  /** Fold full blocks of the input into the state; returns where the last, partial block begins. */
  method AbsorbFullBlocks(a: array<Byte>, input: seq<Byte>, rate: nat, ghost delim: Byte)
    returns (from: nat)
    requires 0 < rate < STATE_SIZE && a.Length == STATE_SIZE
    modifies a
    ensures from <= |input| && |input| - from < rate
    ensures Absorb(KeccakF, old(a[..]), rate, input + Padding(|input|, rate, delim)) ==
            Absorb(KeccakF, a[..], rate, input[from..] + Padding(|input| - from, rate, delim))
  {
    hide KeccakF, Absorb, Padding, XorFront, IsPermutation;
    KeccakIsPermutation();
    from := 0;
    var left := |input|;
    ghost var goal := Absorb(KeccakF, a[..], rate, input + Padding(|input|, rate, delim));
    assert input[0..] == input;
    while left >= rate
      invariant 0 <= left && from + left == |input|
      invariant goal == Absorb(KeccakF, a[..], rate, input[from..] + Padding(left, rate, delim))
      decreases left
    {
      AbsorbStep(KeccakF, a[..], rate, input, from, delim);
      XorIn(a, input, from, rate);
      Permute(a);
      from, left := from + rate, left - rate;
    }
  }

  /** Fill the output block by block. */
  method SqueezeOut(a: array<Byte>, output: array<Byte>, rate: nat)
    requires 0 < rate < STATE_SIZE && a.Length == STATE_SIZE && a != output
    modifies a, output
    ensures output[..] == Squeeze(KeccakF, old(a[..]), rate, output.Length)
  {
    hide Squeeze, KeccakF, IsPermutation;
    KeccakIsPermutation();
    var from, left := 0, output.Length;
    ghost var goal, written: seq<Byte> := Squeeze(KeccakF, a[..], rate, output.Length), [];
    while left >= rate
      invariant 0 <= from && 0 <= left && from + left == output.Length
      invariant output[..from] == written && goal == written + Squeeze(KeccakF, a[..], rate, left)
      decreases left
    {
      ghost var state := a[..];
      SqueezeStep(KeccakF, state, rate, left);
      Associate(written, state[..rate], Squeeze(KeccakF, KeccakF(state), rate, left - rate));
      SetOut(a, output, from, rate);
      WrittenMore(output[..], written, state[..rate], from);
      Permute(a);
      written := written + state[..rate];
      from, left := from + rate, left - rate;
    }
    SqueezeStep(KeccakF, a[..], rate, left);
    SetOut(a, output, from, left);
    WrittenMore(output[..], written, a[..left], from);
    assert output[..] == output[..from + left];
  }

  lemma Associate(a: seq<Byte>, b: seq<Byte>, c: seq<Byte>)
    ensures a + (b + c) == a + b + c
  {
  }

  lemma WrittenMore(output: seq<Byte>, written: seq<Byte>, more: seq<Byte>, from: nat)
    requires from + |more| <= |output| && |written| == from
    requires output[from..from + |more|] == more && forall k :: 0 <= k < from ==> output[k] == written[k]
    ensures output[..from + |more|] == written + more
  {
  }

  lemma SqueezeStep(p: seq<Byte> -> seq<Byte>, state: seq<Byte>, rate: nat, left: nat)
    requires IsPermutation(p) && 0 < rate < STATE_SIZE && |state| == STATE_SIZE
    ensures left >= rate ==> Squeeze(p, state, rate, left) == state[..rate] + Squeeze(p, p(state), rate, left - rate)
    ensures left < rate ==> Squeeze(p, state, rate, left) == state[..left]
  {
  }

  /** The hash of the input is the plain sponge over the padded message; a rate that fills the state is refused. */
  method Hash(output: array<Byte>, input: seq<Byte>, rate: nat, delim: Byte) returns (ok: bool)
    requires rate > 0
    modifies output
    ensures ok == (rate < STATE_SIZE)
    ensures ok ==> output[..] == SpongeHash(KeccakF, rate, delim, input, output.Length)
    ensures !ok ==> output[..] == old(output[..])
  {
    hide Absorb, Squeeze, XorFront, Padding, Zeros, Xor, KeccakF, IsPermutation;
    KeccakIsPermutation();
    if rate >= STATE_SIZE { return false; }
    var a := new Byte[STATE_SIZE](i => 0);
    AllZeros(a[..]);
    var from := AbsorbFullBlocks(a, input, rate, delim);
    var left := |input| - from;
    ghost var state, rest := a[..], input[from..];
    a[left] := Xor(a[left], delim);
    assert a[..] == state[left := Xor(state[left], delim)];
    ghost var marked := a[..];
    a[rate - 1] := Xor(a[rate - 1], 0x80);
    assert a[..] == marked[rate - 1 := Xor(marked[rate - 1], 0x80)];
    XorIn(a, input, from, left);
    assert input[from..from + left] == rest;
    LastBlock(state, rest, rate, delim);
    Permute(a);
    LastAbsorb(KeccakF, state, rate, rest + Padding(left, rate, delim));
    SqueezeOut(a, output, rate);
    return true;
  }

  lemma AllZeros(s: seq<Byte>)
    requires forall i :: 0 <= i < |s| ==> s[i] == 0
    ensures s == Zeros(|s|)
  {
  }

  lemma LastAbsorb(p: seq<Byte> -> seq<Byte>, state: seq<Byte>, rate: nat, block: seq<Byte>)
    requires IsPermutation(p) && 0 < rate < STATE_SIZE && |state| == STATE_SIZE && |block| == rate
    ensures Absorb(p, state, rate, block) == p(XorFront(state, block))
  {
    assert block[..rate] == block && block[rate..] == [];
    assert Absorb(p, p(XorFront(state, block)), rate, []) == p(XorFront(state, block));
  }
}
