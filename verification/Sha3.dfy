/** The SHA-3 instances: fixed rates and delimiters. */
module Sha3 {
  import opened Sponge
  import opened KeccakBytes

  /** The digest of section 6 of FIPS 202: a capacity of twice the security strength. */
  ghost function Digest(bits: nat, delim: Byte, message: seq<Byte>, n: nat): (r: seq<Byte>)
    requires 4 <= bits < 800
    ensures |r| == n
  {
    SpongeHash(KeccakF, 200 - bits / 4, delim, message, n)
  }

  /** A shorter output is the front of a longer one. */
  lemma {:induction false} SqueezePrefix(p: seq<Byte> -> seq<Byte>, state: seq<Byte>, rate: nat, n: nat, k: nat)
    requires IsPermutation(p) && 0 < rate < STATE_SIZE && |state| == STATE_SIZE && k <= n
    ensures Squeeze(p, state, rate, k) == Squeeze(p, state, rate, n)[..k]
    decreases n
  {
    if n > rate && k > rate {
      SqueezePrefix(p, p(state), rate, n - rate, k - rate);
    }
  }

  /** Fixed-length digests: more than the digest is refused, less is its front. */
  method HashFixed(bits: nat, delim: Byte, output: array<Byte>, input: seq<Byte>) returns (ok: bool)
    requires 4 <= bits < 800
    modifies output
    ensures ok == (output.Length <= bits / 8)
    ensures ok ==> output[..] == Digest(bits, delim, input, bits / 8)[..output.Length]
    ensures !ok ==> output[..] == old(output[..])
  {
    hide Absorb, Squeeze, KeccakF, Padding;
    if output.Length > bits / 8 { return false; }
    var rate := 200 - bits / 4;
    ok := Hash(output, input, rate, delim);
    SqueezePrefix(KeccakF, Absorb(KeccakF, Zeros(STATE_SIZE), rate, input + Padding(|input|, rate, delim)), rate,
                  bits / 8, output.Length);
  }

  /** Extendable output: any length. */
  method Shake(bits: nat, output: array<Byte>, input: seq<Byte>) returns (ok: bool)
    requires 4 <= bits < 800
    modifies output
    ensures ok && output[..] == Digest(bits, 0x1f, input, output.Length)
  {
    ok := Hash(output, input, 200 - bits / 4, 0x1f);
  }

  /** The 256-bit digest with the original padding, into a buffer of exactly its size. */
  method Keccak256(input: seq<Byte>, output: array<Byte>) returns (ok: bool)
    modifies output
    ensures ok == (output.Length == 32)
    ensures ok ==> output[..] == SpongeHash(KeccakF, 136, 0x01, input, 32)
    ensures !ok ==> output[..] == old(output[..])
  {
    if output.Length != 32 { return false; }
    ok := HashFixed(256, 0x01, output, input);
  }
}
