/** The streaming MD5 object: a 64-byte buffer, four registers and a two-word bit counter. */
module Md5 {
  import opened Bits
  import opened Md5Spec
  import opened Md5Transform

  // ---- blocks ---------------------------------------------------------------------------------

  lemma {:induction false} WordsAppend(a: seq<Byte>, b: seq<Byte>)
    requires |a| % 4 == 0
    ensures Words(a + b) == Words(a) + Words(b)
    decreases |a|
  {
    if a == [] {
      assert a + b == b;
    } else {
      WordsAppend(a[4..], b);
      assert (a + b)[4..] == a[4..] + b;
    }
  }

  lemma {:induction false} ChainAppend(q: Regs, a: seq<Word>, b: seq<Word>)
    requires |a| % 16 == 0
    ensures Chain(q, a + b) == Chain(Chain(q, a), b)
    decreases |a|
  {
    hide Block;
    if a == [] {
      assert a + b == b;
    } else {
      ChainAppend(Block(q, a[..16]), a[16..], b);
      assert (a + b)[..16] == a[..16] && (a + b)[16..] == a[16..] + b;
    }
  }

  lemma ChainBlock(q: Regs, x: seq<Word>)
    requires |x| == 16
    ensures Chain(q, x) == Block(q, x)
  {
    hide Block;
    assert x[..16] == x && x[16..] == [];
    assert Chain(Block(q, x), []) == Block(q, x);
  }

  /** The registers after the whole blocks of a byte string. */
  function Absorb(q: Regs, m: seq<Byte>): Regs { Chain(q, Words(m)) }

  lemma WholeWords(n: nat)
    requires n % 64 == 0
    ensures n % 4 == 0 && n / 4 % 16 == 0
  {
    var k := n / 64;
    assert n == 4 * (16 * k);
    assert n / 4 == 16 * k;
  }

  lemma AbsorbBlock(q: Regs, m: seq<Byte>, blk: seq<Byte>)
    requires |m| % 64 == 0 && |blk| == 64
    ensures Absorb(q, m + blk) == Block(Absorb(q, m), Words(blk))
  {
    hide Block, Words;
    WholeWords(|m|);
    WordsAppend(m, blk);
    ChainAppend(q, Words(m), Words(blk));
    ChainBlock(Absorb(q, m), Words(blk));
  }

  // ---- the bit counter ----------------------------------------------------------------------------

  /** The two counter words hold the message length in bits modulo 2^64. */
  predicate CounterOk(b0: nat, b1: nat, n: nat) {
    b0 < TWO32 && b1 < TWO32 && b0 + TWO32 * b1 == 8 * n % TWO64
  }

  function Carry(b0: nat, b0': nat): nat { if b0' < b0 then 1 else 0 }

  lemma LowWord(b0: nat, len: nat)
    requires b0 < TWO32 && len < TWO32
    ensures var b0' := (b0 + 8 * len % TWO32) % TWO32;
      b0 + 8 * len == b0' + TWO32 * (Carry(b0, b0') + len / 0x2000_0000)
  {
    var lo := 8 * len % TWO32;
    assert 8 * len == lo + TWO32 * (len / 0x2000_0000);
  }

  lemma Wrap(low: nat, high: nat)
    requires low < TWO32
    ensures (low + TWO32 * high) % TWO64 == low + TWO32 * (high % TWO32)
  {
    var k := high / TWO32;
    assert low + TWO32 * high == low + TWO32 * (high % TWO32) + TWO64 * k;
  }

  lemma SumModulo(a: nat, b: nat)
    ensures (a % TWO64 + b) % TWO64 == (a + b) % TWO64
  {
    var k := a / TWO64;
    assert a + b == a % TWO64 + b + TWO64 * k;
  }

  /** Adding a length to the counter, with the carry found by comparison. */
  lemma CounterStep(b0: nat, b1: nat, n: nat, len: nat)
    requires CounterOk(b0, b1, n) && len < TWO32
    ensures var b0' := (b0 + 8 * len % TWO32) % TWO32;
      CounterOk(b0', ((b1 + Carry(b0, b0')) % TWO32 + len / 0x2000_0000) % TWO32, n + len)
  {
    var b0' := (b0 + 8 * len % TWO32) % TWO32;
    var c, h := Carry(b0, b0'), len / 0x2000_0000;
    LowWord(b0, len);
    ModSum(b1 + c, h);
    Wrap(b0', b1 + c + h);
    SumModulo(8 * n, 8 * len);
    assert 8 * n % TWO64 + 8 * len == b0' + TWO32 * (b1 + c + h);
    assert 8 * n + 8 * len == 8 * (n + len);
  }

  lemma CounterRange(b0: nat, b1: nat, n: nat)
    requires CounterOk(b0, b1, n)
    ensures b1 < TWO32 && b1 % TWO32 == b1
  {
  }

  /** The number of buffered bytes is read off the low word. */
  lemma TailLength(b0: nat, b1: nat, n: nat)
    requires CounterOk(b0, b1, n)
    ensures b0 / 8 % 64 == n % 64
  {
    var k := 8 * n / TWO64;
    assert 8 * n == b0 + TWO32 * b1 + TWO64 * k;
    assert b0 == 8 * (n - 0x2000_0000 * b1 - 0x2000_0000_0000_0000 * k);
    assert b0 / 8 == n - 0x2000_0000 * b1 - 0x2000_0000_0000_0000 * k;
    DropMultiple(n, 0x80_0000 * b1 + 0x80_0000_0000_0000 * k);
  }

  lemma DropMultiple(n: nat, m: nat)
    requires 64 * m <= n
    ensures (n - 64 * m) % 64 == n % 64
  {
    var q := n / 64;
    assert n - 64 * m == 64 * (q - m) + n % 64;
  }

  // ---- the object ---------------------------------------------------------------------------------

  function Full(n: nat): (f: nat)
    ensures f <= n && f % 64 == 0 && f == n - n % 64
  {
    n - n % 64
  }

  /** memcpy or memset into the block buffer. */
  method Fill(dst: array<Byte>, at: nat, src: seq<Byte>)
    requires at + |src| <= dst.Length
    modifies dst
    ensures dst[..] == old(dst[..at]) + src + old(dst[at + |src|..])
  {
    forall i | at <= i < at + |src| { dst[i] := src[i - at]; }
  }

  class Md5 {
    const buf: array<Word>
    const input: array<Byte>
    var bits0: nat
    var bits1: nat
    var isInit: bool
    var result: seq<Byte>
    ghost var msg: seq<Byte>      // everything hashed since the last MD5Init

    /** The state between two calls of MD5Update. */
    ghost predicate Valid()
      reads this, buf, input
    {
      && Shaped() && CounterOk(bits0, bits1, |msg|)
      && buf[..] == FromRegs(Absorb(Init(), msg[..Full(|msg|)]))
      && input[..|msg| % 64] == msg[Full(|msg|)..]
    }

    ghost predicate Shaped()
      reads this
    {
      buf.Length == 4 && input.Length == 64
    }

    constructor ()
      ensures Shaped() && fresh(buf) && fresh(input) && !isInit && result == []
    {
      buf := new Word[4];
      input := new Byte[64];
      bits0, bits1, isInit, result, msg := 0, 0, false, [], [];
    }

    method MD5Init()
      requires Shaped()
      modifies this`bits0, this`bits1, this`msg, buf
      ensures Valid() && msg == []
    {
      hide ToWord, Chain;
      var q := Init();
      buf[0], buf[1], buf[2], buf[3] := q.a, q.b, q.c, q.d;
      bits0, bits1, msg := 0, 0, [];
      AbsorbNothing(q);
    }

    /** The whole block buffer goes through MD5Transform. */
    method TransformInput(ghost done: seq<Byte>)
      requires Shaped() && |done| % 64 == 0 && buf[..] == FromRegs(Absorb(Init(), done))
      modifies buf
      ensures buf[..] == FromRegs(Absorb(Init(), done + input[..]))
    {
      hide Block, Words, Chain, Init;
      AbsorbBlock(Init(), done, input[..]);
      Transform(buf, Words(input[..]));
    }

    method CountBits(len: nat)
      requires CounterOk(bits0, bits1, |msg|) && len < TWO32
      modifies this`bits0, this`bits1
      ensures CounterOk(bits0, bits1, |msg| + len)
    {
      hide CounterOk;
      var t := bits0;
      CounterStep(bits0, bits1, |msg|, len);
      CounterRange(bits0, bits1, |msg|);
      bits0 := (t + 8 * len % TWO32) % TWO32;
      if bits0 < t { bits1 := (bits1 + 1) % TWO32; }
      bits1 := (bits1 + len / 0x2000_0000) % TWO32;
    }

    /** The loop over the 64-byte chunks of the data. */
    method WholeBlocks(data: seq<Byte>, start: nat, ghost d0: seq<Byte>) returns (off: nat, ghost done: seq<Byte>)
      requires Shaped() && start <= |data| && |d0| % 64 == 0 && buf[..] == FromRegs(Absorb(Init(), d0))
      modifies buf, input
      ensures start <= off <= |data| && |data| - off < 64 && |done| % 64 == 0
      ensures done + data[off..] == d0 + data[start..]
      ensures buf[..] == FromRegs(Absorb(Init(), done))
    {
      hide Chain, Words, Init;
      off, done := start, d0;
      var len := |data| - start;
      while len >= 64
        invariant start <= off <= |data| && off + len == |data| && |done| % 64 == 0
        invariant done + data[off..] == d0 + data[start..]
        invariant buf[..] == FromRegs(Absorb(Init(), done))
      {
        Fill(input, 0, data[off..off + 64]);
        assert input[..] == data[off..off + 64];
        TransformInput(done);
        NextBlock(done, input[..]);
        assert data[off..] == data[off..off + 64] + data[off + 64..];
        done := done + input[..];
        off, len := off + 64, len - 64;
      }
    }

    /** Leading bytes that complete the buffered block. */
    method CompleteBlock(data: seq<Byte>, t: nat, ghost d0: seq<Byte>)
      requires Shaped() && 0 < t < 64 && 64 - t <= |data| && |d0| % 64 == 0
      requires buf[..] == FromRegs(Absorb(Init(), d0))
      modifies buf, input
      ensures |d0 + old(input[..t]) + data[..64 - t]| % 64 == 0
      ensures buf[..] == FromRegs(Absorb(Init(), d0 + old(input[..t]) + data[..64 - t]))
    {
      hide Chain, Words, Init;
      Fill(input, t, data[..64 - t]);
      ghost var blk := old(input[..t]) + data[..64 - t];
      assert input[..] == blk;
      TransformInput(d0);
      NextBlock(d0, blk);
      assert d0 + blk == d0 + old(input[..t]) + data[..64 - t];
    }

    /** Whatever way a message is cut into updates, the state is that of the whole message. */
    method MD5Update(data: seq<Byte>)
      requires Valid() && |data| < TWO32
      modifies this`bits0, this`bits1, this`msg, buf, input
      ensures Valid() && msg == old(msg) + data
    {
      hide Chain, Words, Init, CounterOk;
      var t := bits0 / 8 % 64;
      TailLength(bits0, bits1, |msg|);
      CountBits(|data|);
      ghost var done := msg[..Full(|msg|)];
      ghost var tail := input[..t];
      assert msg == done + tail;
      msg := msg + data;
      if 0 < t && |data| < 64 - t {
        Fill(input, t, data);
        Cut(done, tail + data);
        assert msg == done + (tail + data);
        assert input[..t + |data|] == tail + data;
      } else {
        var off := 0;
        if t != 0 {
          CompleteBlock(data, t, done);
          off := 64 - t;
          done := done + tail + data[..off];
        }
        assert msg == done + data[off..];
        off, done := WholeBlocks(data, off, done);
        Fill(input, 0, data[off..]);
        Cut(done, data[off..]);
      }
    }

    /** Padding up to 56 bytes of the last block, through an extra block if there is no room. */
    method Pad() returns (ghost done: seq<Byte>)
      requires Valid()
      modifies buf, input
      ensures |done| % 64 == 0 && buf[..] == FromRegs(Absorb(Init(), done))
      ensures Padded(msg) == done + input[..56]
    {
      hide Chain, Words, Init, Padded;
      var count := bits0 / 8 % 64;
      TailLength(bits0, bits1, |msg|);
      done := msg[..Full(|msg|)];
      ghost var tail := input[..count];
      assert msg == done + tail;
      PaddedCut(done, tail);
      input[count] := ONE_BIT;
      assert input[..count + 1] == tail + [ONE_BIT];
      var p, left := count + 1, 64 - 1 - count;
      if left < 8 {
        Fill(input, p, NoBytes(left));
        assert input[..] == tail + [ONE_BIT] + NoBytes(left);
        TransformInput(done);
        NextBlock(done, input[..]);
        done := done + input[..];
        Fill(input, 0, NoBytes(56));
        assert input[..56] == NoBytes(56);
      } else {
        Fill(input, p, NoBytes(left - 8));
        assert input[..56] == tail + [ONE_BIT] + NoBytes(left - 8);
      }
    }

    /** The digest is that of everything added since MD5Init, by sections 3.1 to 3.5 of RFC 1321. */
    method MD5Final() returns (digest: seq<Byte>)
      requires Valid()
      modifies this`bits0, this`bits1, this`msg, buf, input
      ensures digest == Digest(old(msg)) && Shaped()
    {
      hide Chain, Words, Init, Padded, Block, ToWord, CounterOk, LengthWords, BytesOf;
      ghost var done := Pad();
      CounterWords(bits0, bits1, |msg|);
      LastBlock(Init(), done, input[..56], LengthWords(|msg|));
      Transform(buf, Words(input[..56]) + [ToWord(bits0), ToWord(bits1)]);
      digest := BytesOf(buf[0]) + BytesOf(buf[1]) + BytesOf(buf[2]) + BytesOf(buf[3]);
      bits0, bits1, msg := 0, 0, [];
      forall i | 0 <= i < 64 { input[i] := NO_BITS; }
      forall i | 0 <= i < 4 { buf[i] := Zero(32); }
    }

    /** addToMD5: starts a new message if none is being hashed. */
    method Add(data: seq<Byte>)
      requires Shaped() && |data| < TWO32 && (isInit ==> Valid())
      modifies this, buf, input
      ensures Valid() && isInit && result == old(result)
      ensures msg == (if old(isInit) then old(msg) else []) + data
    {
      if !isInit {
        MD5Init();
        isInit := true;
      }
      MD5Update(data);
    }

    /** finishMD5: the digest of the current message, or the previous result if there is none. */
    method Finish() returns (r: seq<Byte>)
      requires Shaped() && (isInit ==> Valid())
      modifies this, buf, input
      ensures Shaped() && !isInit && r == result
      ensures r == if old(isInit) then Digest(old(msg)) else old(result)
    {
      hide Digest, Chain, Init;
      if isInit {
        result := MD5Final();
        isInit := false;
      }
      r := result;
    }
  }

  function Concat(chunks: seq<seq<Byte>>): seq<Byte> {
    if chunks == [] then [] else Concat(chunks[..|chunks| - 1]) + chunks[|chunks| - 1]
  }

  /** For every split of a message into updates, the result is the digest of the whole. */
  method HashChunks(chunks: seq<seq<Byte>>) returns (r: seq<Byte>)
    requires chunks != [] && forall i :: 0 <= i < |chunks| ==> |chunks[i]| < TWO32
    ensures r == Digest(Concat(chunks))
  {
    hide Digest, Chain, Init;
    var h := new Md5();
    for i := 0 to |chunks|
      invariant h.Shaped() && fresh(h) && fresh(h.buf) && fresh(h.input)
      invariant h.isInit == (i > 0) && (i > 0 ==> h.Valid() && h.msg == Concat(chunks[..i]))
    {
      h.Add(chunks[i]);
      assert chunks[..i + 1][..i] == chunks[..i];
    }
    assert chunks[..|chunks|] == chunks;
    r := h.Finish();
  }

  function NoBytes(k: nat): seq<Byte> { seq(k, _ => NO_BITS) }

  /** The padding of a message cut after its last whole block: in one block, or in two. */
  lemma PaddedCut(d: seq<Byte>, r: seq<Byte>)
    requires |d| % 64 == 0 && |r| < 64
    ensures |r| < 56 ==> Padded(d + r) == d + (r + [ONE_BIT] + NoBytes(55 - |r|))
    ensures |r| >= 56 ==> Padded(d + r) == d + (r + [ONE_BIT] + NoBytes(63 - |r|)) + NoBytes(56)
  {
    Cut(d, r);
    var z := Zeros(|d + r|);
    assert z == if |r| < 56 then 55 - |r| else 119 - |r| by { ZerosOf(|d + r|, |r|); }
  }

  lemma ZerosOf(n: nat, c: nat)
    requires n % 64 == c
    ensures Zeros(n) == if c < 56 then 55 - c else 119 - c
  {
    var k := n / 64;
    assert 55 - n == 55 - c - 64 * k;
  }

  /** The last block of a digest: 56 bytes of message and padding, then the length. */
  lemma LastBlock(q: Regs, d: seq<Byte>, p: seq<Byte>, l: seq<Word>)
    requires |d| % 64 == 0 && |p| == 56 && |l| == 2
    ensures Chain(q, Words(d + p) + l) == Block(Absorb(q, d), Words(p) + l)
  {
    hide Block, Words;
    WholeWords(|d|);
    WordsAppend(d, p);
    assert Words(d) + Words(p) + l == Words(d) + (Words(p) + l);
    ChainAppend(q, Words(d), Words(p) + l);
    ChainBlock(Absorb(q, d), Words(p) + l);
  }

  lemma CounterWords(b0: nat, b1: nat, n: nat)
    requires CounterOk(b0, b1, n)
    ensures LengthWords(n) == [ToWord(b0), ToWord(b1)]
  {
    hide ToWord;
    var bits := b0 + TWO32 * b1;
    assert bits % TWO32 == b0 && bits / TWO32 == b1;
  }

  lemma NextBlock(d: seq<Byte>, b: seq<Byte>)
    requires |d| % 64 == 0 && |b| == 64
    ensures |d + b| % 64 == 0
  {
    var k := |d| / 64;
    assert |d + b| == 64 * (k + 1);
  }

  /** A message cut after its last whole block. */
  lemma Cut(d: seq<Byte>, r: seq<Byte>)
    requires |d| % 64 == 0 && |r| < 64
    ensures Full(|d + r|) == |d| && |d + r| % 64 == |r| && (d + r)[..|d|] == d && (d + r)[|d|..] == r
  {
    var k := |d| / 64;
    assert |d + r| == 64 * k + |r|;
  }

  lemma AbsorbNothing(q: Regs)
    ensures Absorb(q, []) == q
  {
  }
}
