/**
 * `to_pcm16`: float samples clipped to [-1, 1], scaled by 32767 and cast to
 * int16, and the little-endian int16 bytes that `tobytes()` hands to the WAV
 * writer. Samples are `real`: the float32 rounding of the product is not
 * modelled, the cast's truncation toward zero is.
 */
module Pcm {

  /** The largest magnitude `to_pcm16` produces: 1.0 scaled by 32767. */
  const MaxSample: int := 32767

  /** Truncation toward zero, as numpy's cast of a float to an integer type. */
  function Trunc(y: real): (n: int)
    ensures y >= 0.0 ==> n as real <= y < n as real + 1.0
    ensures y < 0.0 ==> n as real - 1.0 < y <= n as real
  {
    if y >= 0.0 then y.Floor else -((-y).Floor)
  }

  /** `np.clip(x, -1.0, 1.0)`. */
  function Clip(x: real): (c: real)
    ensures -1.0 <= c <= 1.0
    ensures -1.0 <= x <= 1.0 ==> c == x
    ensures x > 1.0 ==> c == 1.0
    ensures x < -1.0 ==> c == -1.0
  {
    if x < -1.0 then -1.0 else if x > 1.0 then 1.0 else x
  }

  /** One sample of `to_pcm16`. */
  function ToPcm16(x: real): (v: int)
    ensures -MaxSample <= v <= MaxSample
    ensures x >= 1.0 ==> v == MaxSample
    ensures x <= -1.0 ==> v == -MaxSample
    ensures 0.0 <= x <= 1.0 ==> v as real <= x * 32767.0 < v as real + 1.0
    ensures -1.0 <= x < 0.0 ==> v as real - 1.0 < x * 32767.0 <= v as real
  {
    Trunc(Clip(x) * 32767.0)
  }

  /** Truncation toward zero makes the conversion odd: a sample and its negation map to opposite values. */
  lemma ToPcm16IsOdd(x: real)
    ensures ToPcm16(-x) == -ToPcm16(x)
  {
  }

  /** The conversion never reorders samples. */
  lemma ToPcm16Monotonic(x: real, y: real)
    requires x <= y
    ensures ToPcm16(x) <= ToPcm16(y)
  {
  }

  /**
   * Converting a sample, reading the int16 back as a float (v / 32767) and
   * converting again gives the same int16: a second pass loses nothing more.
   */
  lemma ToPcm16RoundTrip(x: real)
    ensures ToPcm16((ToPcm16(x) as real) / 32767.0) == ToPcm16(x)
  {
    var v := ToPcm16(x);
    var back := (v as real) / 32767.0;
    assert back * 32767.0 == v as real;
  }

  /** `to_pcm16` over a flattened block. */
  function Pcm16(xs: seq<real>): (vs: seq<int>)
    ensures |vs| == |xs|
    decreases |xs|
  {
    if xs == [] then [] else [ToPcm16(xs[0])] + Pcm16(xs[1..])
  }

  /** Every sample of a block is converted on its own, in place, and lands in the int16 range. */
  lemma {:induction false} Pcm16At(xs: seq<real>)
    ensures forall i :: 0 <= i < |xs| ==> Pcm16(xs)[i] == ToPcm16(xs[i])
    ensures forall i :: 0 <= i < |xs| ==> -MaxSample <= Pcm16(xs)[i] <= MaxSample
    decreases |xs|
  {
    if xs != [] {
      Pcm16At(xs[1..]);
      forall i | 1 <= i < |xs|
        ensures Pcm16(xs)[i] == ToPcm16(xs[i])
      {
        assert Pcm16(xs)[i] == Pcm16(xs[1..])[i - 1];
      }
    }
  }

  lemma {:induction false} Pcm16Append(a: seq<real>, b: seq<real>)
    ensures Pcm16(a + b) == Pcm16(a) + Pcm16(b)
    decreases |a|
  {
    if a == [] {
      assert a + b == b;
    } else {
      assert (a + b)[1..] == a[1..] + b;
      Pcm16Append(a[1..], b);
    }
  }

  newtype byte = b: int | 0 <= b < 256

  predicate InInt16(v: int) {
    -32768 <= v < 32768
  }

  /** One int16 as two little-endian two's-complement bytes (the value taken modulo 2^16). */
  function Le16(v: int): (bs: seq<byte>)
    ensures |bs| == 2
  {
    var u := v % 65536;
    [(u % 256) as byte, (u / 256) as byte]
  }

  /** Reading two little-endian bytes back as an int16. */
  function FromLe16(lo: byte, hi: byte): (v: int)
    ensures InInt16(v)
  {
    var u := lo as int + 256 * hi as int;
    if u >= 32768 then u - 65536 else u
  }

  lemma Le16RoundTrip(v: int)
    requires InInt16(v)
    ensures FromLe16(Le16(v)[0], Le16(v)[1]) == v
  {
  }

  /** `tobytes()` of an int16 array: the samples' bytes, in order. */
  function Bytes(vs: seq<int>): (bs: seq<byte>)
    ensures |bs| == 2 * |vs|
    decreases |vs|
  {
    if vs == [] then [] else Le16(vs[0]) + Bytes(vs[1..])
  }

  /** The int16 samples that a little-endian byte string holds. */
  function Samples(bs: seq<byte>): (vs: seq<int>)
    requires |bs| % 2 == 0
    ensures |vs| == |bs| / 2
    decreases |bs|
  {
    if bs == [] then [] else [FromLe16(bs[0], bs[1])] + Samples(bs[2..])
  }

  lemma {:induction false} BytesAppend(a: seq<int>, b: seq<int>)
    ensures Bytes(a + b) == Bytes(a) + Bytes(b)
    decreases |a|
  {
    if a != [] {
      assert (a + b)[1..] == a[1..] + b;
      BytesAppend(a[1..], b);
    } else {
      assert a + b == b;
    }
  }

  /** The bytes written to the WAV file read back as exactly the samples converted. */
  lemma {:induction false} SamplesOfBytes(vs: seq<int>)
    requires forall i :: 0 <= i < |vs| ==> InInt16(vs[i])
    ensures Samples(Bytes(vs)) == vs
    decreases |vs|
  {
    if vs != [] {
      var bs := Bytes(vs);
      assert bs[2..] == Bytes(vs[1..]);
      Le16RoundTrip(vs[0]);
      SamplesOfBytes(vs[1..]);
    }
  }

  /** What `wf.writeframes(to_pcm16(x).tobytes())` appends for the flattened block `xs`. */
  function Pcm16Bytes(xs: seq<real>): (bs: seq<byte>)
    ensures |bs| == 2 * |xs|
  {
    Bytes(Pcm16(xs))
  }

  /** The bytes written for a block decode to the block's PCM16 conversion, sample by sample. */
  lemma Pcm16BytesDecode(xs: seq<real>)
    ensures |Pcm16Bytes(xs)| % 2 == 0
    ensures Samples(Pcm16Bytes(xs)) == Pcm16(xs)
  {
    Pcm16At(xs);
    SamplesOfBytes(Pcm16(xs));
  }

  lemma Pcm16BytesAppend(a: seq<real>, b: seq<real>)
    ensures Pcm16Bytes(a + b) == Pcm16Bytes(a) + Pcm16Bytes(b)
  {
    Pcm16Append(a, b);
    BytesAppend(Pcm16(a), Pcm16(b));
  }

  /** The samples of the first `n` blocks, one after the other. */
  function Concat(blocks: seq<seq<real>>, n: nat): seq<real>
    requires n <= |blocks|
  {
    if n == 0 then [] else Concat(blocks, n - 1) + blocks[n - 1]
  }

  /** The bytes of the first `n` blocks, each converted and written on its own. */
  function WrittenBytes(blocks: seq<seq<real>>, n: nat): seq<byte>
    requires n <= |blocks|
  {
    if n == 0 then [] else WrittenBytes(blocks, n - 1) + Pcm16Bytes(blocks[n - 1])
  }

  /** Converting block by block writes the same bytes as converting everything at once. */
  lemma {:induction false} WrittenBytesAtOnce(blocks: seq<seq<real>>, n: nat)
    requires n <= |blocks|
    ensures WrittenBytes(blocks, n) == Pcm16Bytes(Concat(blocks, n))
  {
    if n > 0 {
      WrittenBytesAtOnce(blocks, n - 1);
      Pcm16BytesAppend(Concat(blocks, n - 1), blocks[n - 1]);
    } else {
      var none: seq<real> := [];
      assert |Pcm16Bytes(none)| == 0;
    }
  }
}
