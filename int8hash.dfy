/**
 * `Int8Hash`: a text's SHAKE-128 digest, shortened to 8 bytes, read as a
 * signed big-endian 64-bit integer, and the list and dictionary builders on
 * top of it. The digest itself is a parameter.
 */
module Int8Hash {

  type Byte = b: int | 0 <= b < 256

  const BYTES: nat := 8
  const BITS: nat := BYTES * 8
  const BITS_MINUS1: nat := BITS - 1

  function Pow2(n: nat): (r: nat)
    ensures r > 0
  {
    if n == 0 then 1 else 2 * Pow2(n - 1)
  }

  const MIN: int := -(Pow2(BITS_MINUS1) as int)
  const MAX: int := Pow2(BITS_MINUS1) - 1

  /** The bounds are those of a signed 64-bit integer. */
  lemma Bounds()
    ensures MIN == -9223372036854775808 && MAX == 9223372036854775807
  {
    assert Pow2(3) == 8 && Pow2(4) == 16;
    Pow2Add(4, 3);
    assert Pow2(7) == 128;
    Pow2Add(4, 4);
    assert Pow2(8) == 256;
    Pow2Add(8, 7);
    assert Pow2(15) == 32768;
    Pow2Add(8, 8);
    assert Pow2(16) == 65536;
    Pow2Add(16, 15);
    assert Pow2(31) == 2147483648;
    Pow2Add(16, 16);
    assert Pow2(32) == 4294967296;
    Pow2Add(32, 31);
    assert Pow2(63) == 9223372036854775808;
  }

  lemma {:induction false} Pow2Add(a: nat, b: nat)
    ensures Pow2(a + b) == Pow2(a) * Pow2(b)
  {
    if b > 0 {
      Pow2Add(a, b - 1);
      assert Pow2(a + b) == 2 * Pow2(a + b - 1);
    }
  }

  /** A digest of `BYTES` bytes. */
  type Digest = d: seq<Byte> | |d| == BYTES witness [0, 0, 0, 0, 0, 0, 0, 0]

  /** `hashlib.shake_128(text.encode()).digest(BYTES)`, whose code is not part of this model. */
  type Shake = string -> Digest

  /** `int.from_bytes(bs, byteorder='big')`: the unsigned big-endian value. */
  function Unsigned(bs: seq<Byte>): nat {
    if bs == [] then 0 else Unsigned(bs[..|bs| - 1]) * 256 + bs[|bs| - 1]
  }

  /** `n.to_bytes(w, byteorder='big')` for `n < 256^w`: `w` bytes, most significant first. */
  function ToBytes(n: nat, w: nat): (bs: seq<Byte>)
    ensures |bs| == w
  {
    if w == 0 then [] else ToBytes(n / 256, w - 1) + [n % 256]
  }

  lemma {:induction false} UnsignedBound(bs: seq<Byte>)
    ensures Unsigned(bs) < Pow2(8 * |bs|)
  {
    if bs != [] {
      var n := |bs| - 1;
      UnsignedBound(bs[..n]);
      Pow2Add(8 * n, 8);
      assert Pow2(8) == 256;
      assert Pow2(8 * |bs|) == Pow2(8 * n) * 256;
    }
  }

  /** The first byte carries the weight `256^(|bs|-1)`. */
  lemma {:induction false} UnsignedHead(bs: seq<Byte>)
    requires |bs| > 0
    ensures Unsigned(bs) == bs[0] * Pow2(8 * (|bs| - 1)) + Unsigned(bs[1..])
  {
    if |bs| > 1 {
      var n := |bs| - 1;
      var init, tail := bs[..n], bs[1..];
      UnsignedHead(init);
      assert init[1..] == tail[..n - 1];
      var p := Pow2(8 * (n - 1));
      Pow2Add(8 * (n - 1), 8);
      assert Pow2(8) == 256;
      assert Pow2(8 * n) == p * 256;
      assert Unsigned(init) == bs[0] * p + Unsigned(tail[..n - 1]);
      assert Unsigned(tail) == Unsigned(tail[..n - 1]) * 256 + bs[n];
      Regroup(bs[0], p, Unsigned(tail[..n - 1]), bs[n]);
    }
  }

  lemma Regroup(a: int, p: int, c: int, d: int)
    ensures (a * p + c) * 256 + d == a * (p * 256) + (c * 256 + d)
  {
  }

  lemma {:induction false} UnsignedOfToBytes(n: nat, w: nat)
    requires n < Pow2(8 * w)
    ensures Unsigned(ToBytes(n, w)) == n
  {
    if w > 0 {
      Pow2Add(8 * (w - 1), 8);
      assert Pow2(8) == 256;
      UnsignedOfToBytes(n / 256, w - 1);
      var bs := ToBytes(n, w);
      assert bs[..|bs| - 1] == ToBytes(n / 256, w - 1);
    }
  }

  lemma {:induction false} ToBytesOfUnsigned(bs: seq<Byte>)
    ensures ToBytes(Unsigned(bs), |bs|) == bs
  {
    if bs != [] {
      var init := bs[..|bs| - 1];
      ToBytesOfUnsigned(init);
      var v := Unsigned(bs);
      assert v / 256 == Unsigned(init) && v % 256 == bs[|bs| - 1];
      assert bs == init + [bs[|bs| - 1]];
    }
  }

  /** `int.from_bytes(bs, byteorder='big', signed=True)`: two's complement when the top bit is set. */
  function Signed(bs: seq<Byte>): int {
    if |bs| > 0 && bs[0] >= 128 then Unsigned(bs) - Pow2(8 * |bs|) else Unsigned(bs)
  }

  /** `v.to_bytes(BYTES, byteorder='big', signed=True)` for a value in range. */
  function SignedToBytes(v: int): (bs: Digest)
    requires MIN <= v <= MAX
  {
    ToBytes(if v < 0 then v + Pow2(BITS) else v, BYTES)
  }

  /** The sign of the value is the top bit of the first byte. */
  lemma TopBit(bs: seq<Byte>)
    requires |bs| > 0
    ensures bs[0] >= 128 <==> Unsigned(bs) >= Pow2(8 * |bs| - 1)
  {
    var n := |bs| - 1;
    UnsignedHead(bs);
    UnsignedBound(bs[1..]);
    Pow2Add(8 * n, 7);
    assert Pow2(7) == 128;
    var p := Pow2(8 * n);
    assert Pow2(8 * |bs| - 1) == 128 * p;
    if bs[0] >= 128 {
      MulMono(128, bs[0], p);
    } else {
      MulMono(bs[0], 127, p);
    }
  }

  lemma MulMono(a: int, b: int, p: nat)
    requires a <= b
    ensures a * p <= b * p
  {
  }

  /** `as_int`: the digest's signed value. It always lies in `[MIN, MAX]`, so the assertion never fails. */
  function AsInt(shake: Shake, text: string): (r: int)
    ensures MIN <= r <= MAX
  {
    var d := shake(text);
    UnsignedBound(d);
    TopBit(d);
    Pow2Add(BITS_MINUS1, 1);
    Signed(d)
  }

  /** Reading back the bytes of a value in range gives the value. */
  lemma SignedOfSignedToBytes(v: int)
    requires MIN <= v <= MAX
    ensures Signed(SignedToBytes(v)) == v
  {
    Pow2Add(BITS_MINUS1, 1);
    var u := if v < 0 then v + Pow2(BITS) else v;
    UnsignedOfToBytes(u, BYTES);
    TopBit(SignedToBytes(v));
  }

  /** Writing back the value of a digest gives the digest. */
  lemma SignedToBytesOfSigned(d: Digest)
    ensures MIN <= Signed(d) <= MAX && SignedToBytes(Signed(d)) == d
  {
    UnsignedBound(d);
    TopBit(d);
    Pow2Add(BITS_MINUS1, 1);
    ToBytesOfUnsigned(d);
  }

  /** `as_list`: the hash of each text, in order. */
  function AsList(shake: Shake, texts: seq<string>): (r: seq<int>)
    ensures |r| == |texts|
    ensures forall i :: 0 <= i < |texts| ==> r[i] == AsInt(shake, texts[i])
  {
    if texts == [] then [] else [AsInt(shake, texts[0])] + AsList(shake, texts[1..])
  }

  /** The index of the last text with hash `h`, or -1. */
  function LastWithHash(shake: Shake, texts: seq<string>, h: int): (i: int)
    ensures -1 <= i < |texts|
    ensures i >= 0 ==> AsInt(shake, texts[i]) == h
    ensures forall j :: i < j < |texts| ==> AsInt(shake, texts[j]) != h
  {
    if texts == [] then -1
    else if AsInt(shake, texts[|texts| - 1]) == h then |texts| - 1
    else LastWithHash(shake, texts[..|texts| - 1], h)
  }

  /** `as_dict`: each text under its hash, a later text replacing an earlier one with the same hash. */
  function AsDict(shake: Shake, texts: seq<string>): map<int, string> {
    if texts == [] then map[]
    else
      var last := texts[|texts| - 1];
      AsDict(shake, texts[..|texts| - 1])[AsInt(shake, last) := last]
  }

  /**
   * The keys of `as_dict` are the hashes of the texts, and each key maps to the
   * last text with that hash.
   */
  lemma {:induction false} AsDictSpec(shake: Shake, texts: seq<string>)
    ensures var d := AsDict(shake, texts);
      && d.Keys == (set t | t in texts :: AsInt(shake, t))
      && (forall h :: h in d ==> LastWithHash(shake, texts, h) >= 0 && d[h] == texts[LastWithHash(shake, texts, h)])
  {
    if texts != [] {
      var n := |texts| - 1;
      var init, last := texts[..n], texts[n];
      AsDictSpec(shake, init);
      assert texts == init + [last];
      var d := AsDict(shake, texts);
      assert d.Keys == (set t | t in init :: AsInt(shake, t)) + {AsInt(shake, last)};
      forall h | h in d ensures LastWithHash(shake, texts, h) >= 0 && d[h] == texts[LastWithHash(shake, texts, h)] {
        if h != AsInt(shake, last) {
          assert LastWithHash(shake, texts, h) == LastWithHash(shake, init, h);
        }
      }
    }
  }
}
