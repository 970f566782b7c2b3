/** The MD5 message digest as sections 3.1 to 3.5 of RFC 1321 define it. */
module Md5Spec {
  import opened Bits

  datatype Regs = Regs(a: Word, b: Word, c: Word, d: Word)

  // ---- section 2: words of four bytes, low-order byte first --------------------------------

  function WordOf(b0: Byte, b1: Byte, b2: Byte, b3: Byte): Word { b0 + b1 + b2 + b3 }

  function BytesOf(w: Word): seq<Byte> { [w[..8], w[8..16], w[16..24], w[24..]] }

  /** The whole words of a byte string. */
  function Words(s: seq<Byte>): (r: seq<Word>)
    ensures |r| == |s| / 4
  {
    if |s| < 4 then [] else [WordOf(s[0], s[1], s[2], s[3])] + Words(s[4..])
  }

  // ---- section 3.4: the four rounds ----------------------------------------------------------

  function F(x: Word, y: Word, z: Word): Word { Or(And(x, y), And(Not(x), z)) }
  function G(x: Word, y: Word, z: Word): Word { Or(And(x, z), And(y, Not(z))) }
  function H(x: Word, y: Word, z: Word): Word { Xor(Xor(x, y), z) }
  function I(x: Word, y: Word, z: Word): Word { Xor(y, Or(x, Not(z))) }

  function Mix(round: nat, x: Word, y: Word, z: Word): Word {
    if round == 0 then F(x, y, z)
    else if round == 1 then G(x, y, z)
    else if round == 2 then H(x, y, z)
    else I(x, y, z)
  }

  /** Which word of the block operation i of a round takes. */
  function WordIndex(round: nat, i: nat): (k: nat)
    ensures k < 16
  {
    if round == 0 then i % 16
    else if round == 1 then (5 * i + 1) % 16
    else if round == 2 then (3 * i + 5) % 16
    else (7 * i) % 16
  }

  function Pick(j: nat, s0: nat, s1: nat, s2: nat, s3: nat): nat {
    if j == 0 then s0 else if j == 1 then s1 else if j == 2 then s2 else s3
  }

  function Shift(round: nat, i: nat): (s: nat)
    ensures s <= 32
  {
    if round == 0 then Pick(i % 4, 7, 12, 17, 22)
    else if round == 1 then Pick(i % 4, 5, 9, 14, 20)
    else if round == 2 then Pick(i % 4, 4, 11, 16, 23)
    else Pick(i % 4, 6, 10, 15, 21)
  }

  /** T[i]: the integer part of 4294967296 times abs(sin(i)), i in radians. */
  function Table(round: nat, i: nat): nat {
    if round == 0 then Table0(i % 16)
    else if round == 1 then Table1(i % 16)
    else if round == 2 then Table2(i % 16)
    else Table3(i % 16)
  }

  function Table0(i: nat): nat {
    match i
    case 0 => 0xd76aa478 case 1 => 0xe8c7b756
    case 2 => 0x242070db case 3 => 0xc1bdceee
    case 4 => 0xf57c0faf case 5 => 0x4787c62a
    case 6 => 0xa8304613 case 7 => 0xfd469501
    case 8 => 0x698098d8 case 9 => 0x8b44f7af
    case 10 => 0xffff5bb1 case 11 => 0x895cd7be
    case 12 => 0x6b901122 case 13 => 0xfd987193
    case 14 => 0xa679438e case _ => 0x49b40821
  }

  function Table1(i: nat): nat {
    match i
    case 0 => 0xf61e2562 case 1 => 0xc040b340
    case 2 => 0x265e5a51 case 3 => 0xe9b6c7aa
    case 4 => 0xd62f105d case 5 => 0x02441453
    case 6 => 0xd8a1e681 case 7 => 0xe7d3fbc8
    case 8 => 0x21e1cde6 case 9 => 0xc33707d6
    case 10 => 0xf4d50d87 case 11 => 0x455a14ed
    case 12 => 0xa9e3e905 case 13 => 0xfcefa3f8
    case 14 => 0x676f02d9 case _ => 0x8d2a4c8a
  }

  function Table2(i: nat): nat {
    match i
    case 0 => 0xfffa3942 case 1 => 0x8771f681
    case 2 => 0x6d9d6122 case 3 => 0xfde5380c
    case 4 => 0xa4beea44 case 5 => 0x4bdecfa9
    case 6 => 0xf6bb4b60 case 7 => 0xbebfbc70
    case 8 => 0x289b7ec6 case 9 => 0xeaa127fa
    case 10 => 0xd4ef3085 case 11 => 0x04881d05
    case 12 => 0xd9d4d039 case 13 => 0xe6db99e5
    case 14 => 0x1fa27cf8 case _ => 0xc4ac5665
  }

  function Table3(i: nat): nat {
    match i
    case 0 => 0xf4292244 case 1 => 0x432aff97
    case 2 => 0xab9423a7 case 3 => 0xfc93a039
    case 4 => 0x655b59c3 case 5 => 0x8f0ccc92
    case 6 => 0xffeff47d case 7 => 0x85845dd1
    case 8 => 0x6fa87e4f case 9 => 0xfe2ce6e0
    case 10 => 0xa3014314 case 11 => 0x4e0811a1
    case 12 => 0xf7537e82 case 13 => 0xbd3af235
    case 14 => 0x2ad7d2bb case _ => 0xeb86d391
  }

  function Constant(round: nat, i: nat): Word { ToWord(Table(round, i)) }

  /** [abcd k s i]: a = b + ((a + Mix(b, c, d) + X[k] + T[i]) <<< s). */
  function NewA(a: Word, b: Word, mix: Word, xk: Word, t: Word, s: nat): Word
    requires s <= 32
  {
    Add(b, Rotate(Add(Add(Add(a, mix), xk), t), s))
  }

  /** One operation; the registers then rotate, so the next one is again [abcd k s i]. */
  function Op(round: nat, i: nat, q: Regs, x: seq<Word>): Regs
    requires |x| == 16
  {
    var mix := Mix(round, q.b, q.c, q.d);
    Regs(q.d, NewA(q.a, q.b, mix, x[WordIndex(round, i)], Constant(round, i), Shift(round, i)), q.b, q.c)
  }

  /** The first n operations of a round. */
  function Round(round: nat, n: nat, q: Regs, x: seq<Word>): Regs
    requires |x| == 16
    decreases n
  {
    if n == 0 then q else Op(round, n - 1, Round(round, n - 1, q, x), x)
  }

  function AddRegs(q: Regs, r: Regs): Regs {
    Regs(Add(q.a, r.a), Add(q.b, r.b), Add(q.c, r.c), Add(q.d, r.d))
  }

  function Block(q: Regs, x: seq<Word>): Regs
    requires |x| == 16
  {
    AddRegs(q, Round(3, 16, Round(2, 16, Round(1, 16, Round(0, 16, q, x), x), x), x))
  }

  /** All 16-word blocks in order. */
  function Chain(q: Regs, x: seq<Word>): Regs
    decreases |x|
  {
    if |x| < 16 then q else Chain(Block(q, x[..16]), x[16..])
  }

  // ---- sections 3.1 to 3.3 and 3.5 ------------------------------------------------------------

  function Init(): Regs {
    Regs(ToWord(0x67452301), ToWord(0xefcdab89), ToWord(0x98badcfe), ToWord(0x10325476))
  }

  const ONE_BIT: Byte := FromNat(0x80, 8)
  const NO_BITS: Byte := FromNat(0, 8)

  /** Zero bytes after the first padding byte, so that the length is 56 modulo 64. */
  function Zeros(n: nat): (z: nat)
    ensures z < 64 && (n + 1 + z) % 64 == 56
  {
    (55 - n) % 64
  }

  function Padded(m: seq<Byte>): (p: seq<Byte>)
    ensures |p| % 64 == 56
  {
    m + [ONE_BIT] + seq(Zeros(|m|), _ => NO_BITS)
  }

  /** The length in bits modulo 2^64, low-order word first. */
  function LengthWords(n: nat): seq<Word> {
    var bits := 8 * n % TWO64;
    [ToWord(bits % TWO32), ToWord(bits / TWO32)]
  }

  function Output(q: Regs): seq<Byte> {
    BytesOf(q.a) + BytesOf(q.b) + BytesOf(q.c) + BytesOf(q.d)
  }

  function Digest(m: seq<Byte>): seq<Byte> {
    Output(Chain(Init(), Words(Padded(m)) + LengthWords(|m|)))
  }
}
