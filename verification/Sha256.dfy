/** The streaming SHA-256 of sha256.cpp: 64-byte buffer, running length, padding fed through Update. */
module Sha256 {
  import opened Fips180

  // ---- one block ----

  method Expand(w16: bv32, w15: bv32, w7: bv32, w2: bv32) returns (w: bv32)
    ensures w == Extend(w2, w7, w15, w16)
  {
    hide Add, Rotr;
    var s0 := Rotr(w15, 7) ^ Rotr(w15, 18) ^ (w15 >> 3);
    var s1 := Rotr(w2, 17) ^ Rotr(w2, 19) ^ (w2 >> 10);
    w := Add(Add(Add(w16, s0), w7), s1);
  }

  /** The message schedule w[0..64] of one block. */
  method Schedule(p: array<bv8>) returns (w: array<bv32>)
    requires p.Length == BLOCK
    ensures fresh(w) && w.Length == 64
    ensures forall t | 0 <= t < 64 :: w[t] == W(p[..], t)
  {
    hide Extend, BigEndian;
    w := new bv32[64];
    ghost var block := p[..];
    for i := 0 to 16
      invariant forall t | 0 <= t < i :: w[t] == W(block, t)
    {
      w[i] := BigEndian(p[i * 4], p[i * 4 + 1], p[i * 4 + 2], p[i * 4 + 3]);
    }
    for i := 16 to 64
      invariant forall t | 0 <= t < i :: w[t] == W(block, t)
    {
      w[i] := Expand(w[i - 16], w[i - 15], w[i - 7], w[i - 2]);
    }
  }

  method MixE(v: Vars) returns (S1: bv32, ch: bv32)
    ensures S1 == BigSigma1(v.e) && ch == Ch(v.e, v.f, v.g)
  {
    hide Rotr;
    S1 := Rotr(v.e, 6) ^ Rotr(v.e, 11) ^ Rotr(v.e, 25);
    ch := (v.e & v.f) ^ (!v.e & v.g);
  }

  method MixA(v: Vars) returns (S0: bv32, mj: bv32)
    ensures S0 == BigSigma0(v.a) && mj == Maj(v.a, v.b, v.c)
  {
    hide Rotr;
    S0 := Rotr(v.a, 2) ^ Rotr(v.a, 13) ^ Rotr(v.a, 22);
    mj := (v.a & v.b) ^ (v.a & v.c) ^ (v.b & v.c);
  }

  method Step(v: Vars, k: bv32, w: bv32) returns (r: Vars)
    ensures r == Round(v, k, w)
  {
    hide Add, BigSigma0, BigSigma1, Ch, Maj;
    var S1, ch := MixE(v);
    var S0, mj := MixA(v);
    var t1 := Add(Add(Add(Add(v.h, S1), ch), k), w);
    var t2 := Add(S0, mj);
    r := Vars(Add(t1, t2), v.a, v.b, v.c, Add(v.d, t1), v.e, v.f, v.g);
  }

  method AddInto(h: array<bv32>, v: Vars)
    requires h.Length == 8
    modifies h
    ensures h[..] == AddVars(old(h[..]), v)
  {
    hide Add, Part;
    for i := 0 to 8
      invariant forall k | 0 <= k < 8 ::
                  h[k] == if k < i then Add(old(h[k]), Part(v, k)) else old(h[k])
    {
      h[i] := Add(h[i], Part(v, i));
    }
  }

  method Block(h: array<bv32>, p: array<bv8>)
    requires h.Length == 8 && p.Length == BLOCK
    modifies h
    ensures h[..] == Compress(old(h[..]), p[..])
  {
    hide Round, W, Constant, AddVars;
    var w := Schedule(p);
    ghost var h0, block := h[..], p[..];
    var v := Vars(h[0], h[1], h[2], h[3], h[4], h[5], h[6], h[7]);
    for i := 0 to 64
      invariant v == Rounds(h0, block, i)
      invariant h[..] == h0
      invariant forall t | 0 <= t < 64 :: w[t] == W(block, t)
    {
      v := Step(v, Constant(i), w[i]);
    }
    AddInto(h, v);
  }

  // ---- the stream ----

  /** The chaining value covers the whole blocks of `fed`; the buffer starts with the rest. */
  ghost predicate Holds(h: seq<bv32>, buf: seq<bv8>, n: nat, fed: seq<bv8>)
    requires |h| == 8 && |buf| == BLOCK
  {
    && n == |fed| % BLOCK
    && buf[..n] == fed[|fed| - n..]
    && h == Chain(fed[..|fed| - n])
  }

  lemma HoldsMore(h: seq<bv32>, buf: seq<bv8>, n: nat, fed: seq<bv8>, buf': seq<bv8>, chunk: seq<bv8>)
    requires |h| == 8 && |buf| == |buf'| == BLOCK && Holds(h, buf, n, fed)
    requires n + |chunk| <= BLOCK && buf'[..n + |chunk|] == buf[..n] + chunk
    ensures n + |chunk| < BLOCK ==> Holds(h, buf', n + |chunk|, fed + chunk)
    ensures n + |chunk| == BLOCK ==> Holds(Compress(h, buf'), buf', 0, fed + chunk)
  {
    hide Compress;
    var fed' := fed + chunk;
    var whole := |fed| - n;
    assert fed'[..whole] == fed[..whole];
    assert fed'[whole..] == fed[whole..] + chunk;
    assert |fed| == BLOCK * (|fed| / BLOCK) + n;
    if n + |chunk| == BLOCK {
      assert |fed'| == BLOCK * (|fed| / BLOCK + 1);
      assert fed'[..|fed'|] == fed' && buf'[..BLOCK] == buf';
    }
  }

  lemma ModAdd(a: nat, b: nat)
    ensures (a % TWO_64 + b) % TWO_64 == (a + b) % TWO_64
  {
  }

  class Hasher {
    const h: array<bv32>
    const buf: array<bv8>
    var len: nat // uint64_t
    var n: nat
    ghost var fed: seq<bv8> // every byte given to Update so far

    ghost predicate Absorbed()
      reads `n, `fed, h, buf
      ensures Absorbed() ==> n == |fed| % BLOCK && h.Length == 8 && buf.Length == BLOCK
    {
      h.Length == 8 && buf.Length == BLOCK && Holds(h[..], buf[..], n, fed)
    }

    ghost predicate Valid()
      reads this, h, buf
    {
      Absorbed() && len == |fed| % TWO_64
    }

    constructor ()
      ensures Valid() && fed == []
      ensures fresh(h) && fresh(buf)
    {
      h := new bv32[8](i requires 0 <= i < 8 => H0[i]);
      buf := new bv8[BLOCK];
      len, n, fed := 0, 0, [];
      new;
      assert h[..] == H0;
    }

    /** One turn of Update's loop: copy at most the free space, compress when the buffer is full. */
    method Absorb(chunk: seq<bv8>)
      requires Absorbed() && |chunk| <= BLOCK - n
      modifies `n, `fed, h, buf
      ensures Absorbed() && fed == old(fed) + chunk
    {
      hide Holds;
      for i := 0 to |chunk|
        invariant forall k | 0 <= k < n :: buf[k] == old(buf[k])
        invariant forall k | n <= k < n + i :: buf[k] == chunk[k - n]
        modifies buf
      {
        buf[n + i] := chunk[i];
      }
      assert buf[..n + |chunk|] == old(buf[..n]) + chunk;
      assert h[..] == old(h[..]);
      HoldsMore(h[..], old(buf[..]), n, fed, buf[..], chunk);
      n := n + |chunk|;
      fed := fed + chunk;
      if n == BLOCK {
        Block(h, buf);
        n := 0;
      }
    }

    method Update(p: seq<bv8>)
      requires Valid()
      modifies this, h, buf
      ensures Valid() && fed == old(fed) + p
    {
      hide Absorbed;
      ModAdd(|fed|, |p|);
      len := (len + |p|) % TWO_64;
      var off := 0;
      while off < |p|
        invariant off <= |p|
        invariant Absorbed() && fed == old(fed) + p[..off]
        invariant len == (|old(fed)| + |p|) % TWO_64
      {
        var take := if BLOCK - n < |p| - off then BLOCK - n else |p| - off;
        Absorb(p[off..off + take]);
        assert p[..off + take] == p[..off] + p[off..off + take];
        off := off + take;
      }
    }

    /** The 0x80 byte, zero bytes one at a time until 56 bytes are pending, then the bit length. */
    method FeedPadding()
      requires Valid()
      modifies this, h, buf
      ensures Valid() && fed == Pad(old(fed)) && n == 0
    {
      hide Absorbed, LengthField, BytesOf, ZeroCount;
      ghost var msg := fed;
      var bits := len * 8 % TWO_64;
      Update([0x80]);
      ghost var zeros := 0;
      while n != 56
        invariant Valid() && zeros <= ZeroCount(|msg|)
        invariant fed == msg + [0x80] + Zeros(zeros)
        decreases ZeroCount(|msg|) - zeros
      {
        LastZero(|msg|, zeros);
        Update([0]);
        zeros := zeros + 1;
        assert Zeros(zeros) == Zeros(zeros - 1) + [0];
      }
      LastZero(|msg|, zeros);
      var l := LengthBytes(bits);
      FieldOfLength(|msg|);
      Update(l);
      PaddingIsLeast(msg);
    }

    /** Writes the digest of everything fed; the hasher has then also been fed the padding. */
    method Final(out: array<bv8>)
      requires Valid() && out.Length == 32 && out != buf
      modifies this, h, buf, out
      ensures out[..] == Digest(old(fed))
      ensures Valid() && fed == Pad(old(fed))
    {
      hide Chain, Pad, Serialize;
      FeedPadding();
      assert fed[..|fed|] == fed;
      Emit(h, out);
    }
  }

  lemma WrappedLength(bytes: nat)
    ensures bytes % TWO_64 * 8 % TWO_64 == 8 * bytes % TWO_64
  {
    var q, r := bytes / TWO_64, bytes % TWO_64;
    assert 8 * bytes == 8 * r + TWO_64 * (8 * q);
  }

  lemma FieldOfLength(bytes: nat)
    ensures BytesOf(bytes % TWO_64 * 8 % TWO_64, 8) == LengthField(bytes)
  {
    hide BytesOf;
    WrappedLength(bytes);
  }

  method LengthBytes(bits: nat) returns (l: seq<bv8>)
    ensures l == BytesOf(bits, 8)
  {
    hide ToByte, BytesOf, ShiftBytes;
    l := [];
    for i := 0 to 8
      invariant l == BytesOf(bits, 8)[..i]
    {
      BytesOfAt(bits, 8, i);
      l := l + [ToByte(ShiftBytes(bits, 7 - i) % 256)];
    }
  }

  method Emit(h: array<bv32>, out: array<bv8>)
    requires h.Length == 8 && out.Length == 32
    modifies out
    ensures out[..] == Serialize(h[..])
  {
    hide ByteOf;
    for i := 0 to 8
      invariant forall k | 0 <= k < 4 * i :: out[k] == ByteOf(h[k / 4], k % 4)
    {
      out[i * 4], out[i * 4 + 1] := ByteOf(h[i], 0), ByteOf(h[i], 1);
      out[i * 4 + 2], out[i * 4 + 3] := ByteOf(h[i], 2), ByteOf(h[i], 3);
    }
  }

  /** Any way of cutting a message into Update calls gives the digest of the whole message. */
  method DigestOfPieces(pieces: seq<seq<bv8>>) returns (digest: seq<bv8>)
    ensures digest == Digest(Concat(pieces))
  {
    hide Hasher.Absorbed, Digest;
    var s := new Hasher();
    var out := new bv8[32];
    for i := 0 to |pieces|
      invariant s.Valid() && s.fed == Concat(pieces[..i])
      invariant fresh(s) && fresh(s.h) && fresh(s.buf) && s.buf != out
    {
      s.Update(pieces[i]);
      assert pieces[..i + 1][..i] == pieces[..i];
    }
    assert pieces[..|pieces|] == pieces;
    s.Final(out);
    digest := out[..];
  }

  function Concat(pieces: seq<seq<bv8>>): seq<bv8> {
    if pieces == [] then [] else Concat(pieces[..|pieces| - 1]) + pieces[|pieces| - 1]
  }
}
