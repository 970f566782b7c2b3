/** MD5Transform: 64 unrolled steps on four registers. */
module Md5Transform {
  import opened Bits
  import opened Md5Spec

  // ---- the core functions in their optimized form -------------------------------------------

  function F1(x: Word, y: Word, z: Word): Word { Xor(z, And(x, Xor(y, z))) }
  function F2(x: Word, y: Word, z: Word): Word { F1(z, x, y) }
  function F3(x: Word, y: Word, z: Word): Word { Xor(Xor(x, y), z) }
  function F4(x: Word, y: Word, z: Word): Word { Xor(y, Or(x, Not(z))) }

  function Core(round: nat, x: Word, y: Word, z: Word): Word {
    if round == 0 then F1(x, y, z)
    else if round == 1 then F2(x, y, z)
    else if round == 2 then F3(x, y, z)
    else F4(x, y, z)
  }

  /** F1 to F4 are the functions F, G, H and I of section 3.4 of RFC 1321. */
  lemma CoreFunctions(round: nat, x: Word, y: Word, z: Word)
    ensures Core(round, x, y, z) == Mix(round, x, y, z)
  {
    assert F1(x, y, z) == F(x, y, z);
    assert F2(x, y, z) == G(x, y, z);
  }

  /** The MD5STEP macro: the new value of w. */
  function Step(core: Word, w: Word, x: Word, data: Word, s: nat): Word
    requires s <= 32
  {
    var v := Add(w, Add(core, data));
    Add(Or(Shl(v, s), Shr(v, 32 - s)), x)
  }

  lemma StepIsNewA(m: Word, a: Word, b: Word, xk: Word, t: Word, s: nat)
    requires s <= 32
    ensures Step(m, a, b, Add(xk, t), s) == NewA(a, b, m, xk, t, s)
  {
    AddAssociates(m, xk, t);
    AddAssociates(a, Add(m, xk), t);
    AddAssociates(a, m, xk);
    var v := Add(Add(Add(a, m), xk), t);
    RotateByShifts(v, s);
    AddCommutes(Rotate(v, s), b);
  }

  /** Four consecutive steps of one round, on the registers a, d, c, b in turn. */
  function FourSteps(round: nat, q: Regs, d0: Word, d1: Word, d2: Word, d3: Word,
                     s0: nat, s1: nat, s2: nat, s3: nat): Regs
    requires s0 <= 32 && s1 <= 32 && s2 <= 32 && s3 <= 32
  {
    var a := Step(Core(round, q.b, q.c, q.d), q.a, q.b, d0, s0);
    var d := Step(Core(round, a, q.b, q.c), q.d, a, d1, s1);
    var c := Step(Core(round, d, a, q.b), q.c, d, d2, s2);
    var b := Step(Core(round, c, d, a), q.b, c, d3, s3);
    Regs(a, b, c, d)
  }

  lemma OneStep(round: nat, i: nat, q: Regs, x: seq<Word>, data: Word)
    requires |x| == 16 && data == Add(x[WordIndex(round, i)], Constant(round, i))
    ensures Op(round, i, q, x)
         == Regs(q.d, Step(Core(round, q.b, q.c, q.d), q.a, q.b, data, Shift(round, i)), q.b, q.c)
  {
    CoreFunctions(round, q.b, q.c, q.d);
    StepIsNewA(Mix(round, q.b, q.c, q.d), q.a, q.b, x[WordIndex(round, i)], Constant(round, i), Shift(round, i));
  }

  /** Four unrolled steps on a, d, c, b are four operations on rotating registers. */
  lemma FourStepsIsRound(round: nat, n: nat, q0: Regs, x: seq<Word>, d0: Word, d1: Word, d2: Word, d3: Word)
    requires |x| == 16
    requires d0 == Add(x[WordIndex(round, n)], Constant(round, n))
    requires d1 == Add(x[WordIndex(round, n + 1)], Constant(round, n + 1))
    requires d2 == Add(x[WordIndex(round, n + 2)], Constant(round, n + 2))
    requires d3 == Add(x[WordIndex(round, n + 3)], Constant(round, n + 3))
    ensures FourSteps(round, Round(round, n, q0, x), d0, d1, d2, d3,
                      Shift(round, n), Shift(round, n + 1), Shift(round, n + 2), Shift(round, n + 3))
         == Round(round, n + 4, q0, x)
  {
    hide Step, Core, Op, Add, WordIndex, Constant, Shift;
    var q := Round(round, n, q0, x);
    var q1 := Op(round, n, q, x);
    var q2 := Op(round, n + 1, q1, x);
    var q3 := Op(round, n + 2, q2, x);
    OneStep(round, n, q, x, d0);
    OneStep(round, n + 1, q1, x, d1);
    OneStep(round, n + 2, q2, x, d2);
    OneStep(round, n + 3, q3, x, d3);
    assert Round(round, n + 1, q0, x) == q1;
    assert Round(round, n + 2, q0, x) == q2;
    assert Round(round, n + 3, q0, x) == q3;
  }

  /** One input word plus the constant of its step. */
  function In(x: seq<Word>, k: nat, t: nat): Word
    requires k < |x|
  {
    Add(x[k], ToWord(t))
  }

  /** One MD5STEP line as written: input word, constant, shift. */
  datatype Line = Line(k: nat, t: nat, s: nat)

  /** A line agrees with operation i of the standard. */
  predicate Fits(round: nat, i: nat, l: Line) {
    l.k == WordIndex(round, i) && l.t == Table(round, i) && l.s == Shift(round, i)
  }

  /** The four MD5STEP lines that follow operation n of a round. */
  method Four(round: nat, ghost n: nat, ghost q0: Regs, q: Regs, x: seq<Word>, l0: Line, l1: Line, l2: Line, l3: Line)
    returns (r: Regs)
    requires |x| == 16 && q == Round(round, n, q0, x)
    requires Fits(round, n, l0) && Fits(round, n + 1, l1) && Fits(round, n + 2, l2) && Fits(round, n + 3, l3)
    ensures r == Round(round, n + 4, q0, x)
  {
    hide Round, Add, FourSteps, ToWord, Table, WordIndex;
    var d0, d1, d2, d3 := In(x, l0.k, l0.t), In(x, l1.k, l1.t), In(x, l2.k, l2.t), In(x, l3.k, l3.t);
    r := FourSteps(round, q, d0, d1, d2, d3, l0.s, l1.s, l2.s, l3.s);
    FourStepsIsRound(round, n, q0, x, d0, d1, d2, d3);
  }

  lemma RoundStarts(round: nat, q: Regs, x: seq<Word>)
    requires |x| == 16
    ensures Round(round, 0, q, x) == q
  {
  }

  method FirstRound(q: Regs, x: seq<Word>) returns (r: Regs)
    requires |x| == 16
    ensures r == Round(0, 16, q, x)
  {
    hide Round;
    RoundStarts(0, q, x);
    r := Four(0, 0, q, q, x, Line(0, 0xd76aa478, 7), Line(1, 0xe8c7b756, 12),
              Line(2, 0x242070db, 17), Line(3, 0xc1bdceee, 22));
    r := Four(0, 4, q, r, x, Line(4, 0xf57c0faf, 7), Line(5, 0x4787c62a, 12),
              Line(6, 0xa8304613, 17), Line(7, 0xfd469501, 22));
    r := Four(0, 8, q, r, x, Line(8, 0x698098d8, 7), Line(9, 0x8b44f7af, 12),
              Line(10, 0xffff5bb1, 17), Line(11, 0x895cd7be, 22));
    r := Four(0, 12, q, r, x, Line(12, 0x6b901122, 7), Line(13, 0xfd987193, 12),
              Line(14, 0xa679438e, 17), Line(15, 0x49b40821, 22));
  }

  method SecondRound(q: Regs, x: seq<Word>) returns (r: Regs)
    requires |x| == 16
    ensures r == Round(1, 16, q, x)
  {
    hide Round;
    RoundStarts(1, q, x);
    r := Four(1, 0, q, q, x, Line(1, 0xf61e2562, 5), Line(6, 0xc040b340, 9),
              Line(11, 0x265e5a51, 14), Line(0, 0xe9b6c7aa, 20));
    r := Four(1, 4, q, r, x, Line(5, 0xd62f105d, 5), Line(10, 0x02441453, 9),
              Line(15, 0xd8a1e681, 14), Line(4, 0xe7d3fbc8, 20));
    r := Four(1, 8, q, r, x, Line(9, 0x21e1cde6, 5), Line(14, 0xc33707d6, 9),
              Line(3, 0xf4d50d87, 14), Line(8, 0x455a14ed, 20));
    r := Four(1, 12, q, r, x, Line(13, 0xa9e3e905, 5), Line(2, 0xfcefa3f8, 9),
              Line(7, 0x676f02d9, 14), Line(12, 0x8d2a4c8a, 20));
  }

  method ThirdRound(q: Regs, x: seq<Word>) returns (r: Regs)
    requires |x| == 16
    ensures r == Round(2, 16, q, x)
  {
    hide Round;
    RoundStarts(2, q, x);
    r := Four(2, 0, q, q, x, Line(5, 0xfffa3942, 4), Line(8, 0x8771f681, 11),
              Line(11, 0x6d9d6122, 16), Line(14, 0xfde5380c, 23));
    r := Four(2, 4, q, r, x, Line(1, 0xa4beea44, 4), Line(4, 0x4bdecfa9, 11),
              Line(7, 0xf6bb4b60, 16), Line(10, 0xbebfbc70, 23));
    r := Four(2, 8, q, r, x, Line(13, 0x289b7ec6, 4), Line(0, 0xeaa127fa, 11),
              Line(3, 0xd4ef3085, 16), Line(6, 0x04881d05, 23));
    r := Four(2, 12, q, r, x, Line(9, 0xd9d4d039, 4), Line(12, 0xe6db99e5, 11),
              Line(15, 0x1fa27cf8, 16), Line(2, 0xc4ac5665, 23));
  }

  method FourthRound(q: Regs, x: seq<Word>) returns (r: Regs)
    requires |x| == 16
    ensures r == Round(3, 16, q, x)
  {
    hide Round;
    RoundStarts(3, q, x);
    r := Four(3, 0, q, q, x, Line(0, 0xf4292244, 6), Line(7, 0x432aff97, 10),
              Line(14, 0xab9423a7, 15), Line(5, 0xfc93a039, 21));
    r := Four(3, 4, q, r, x, Line(12, 0x655b59c3, 6), Line(3, 0x8f0ccc92, 10),
              Line(10, 0xffeff47d, 15), Line(1, 0x85845dd1, 21));
    r := Four(3, 8, q, r, x, Line(8, 0x6fa87e4f, 6), Line(15, 0xfe2ce6e0, 10),
              Line(6, 0xa3014314, 15), Line(13, 0x4e0811a1, 21));
    r := Four(3, 12, q, r, x, Line(4, 0xf7537e82, 6), Line(11, 0xbd3af235, 10),
              Line(2, 0x2ad7d2bb, 15), Line(9, 0xeb86d391, 21));
  }

  /** MD5Transform refines the block function of the standard. */
  method Transform(buf: array<Word>, x: seq<Word>)
    requires buf.Length == 4 && |x| == 16
    modifies buf
    ensures buf[..] == FromRegs(Block(old(ToRegs(buf[..])), x))
  {
    hide Round, Add;
    var q := ToRegs(buf[..]);
    var r := FirstRound(q, x);
    r := SecondRound(r, x);
    r := ThirdRound(r, x);
    r := FourthRound(r, x);
    buf[0] := Add(buf[0], r.a);
    buf[1] := Add(buf[1], r.b);
    buf[2] := Add(buf[2], r.c);
    buf[3] := Add(buf[3], r.d);
  }

  function ToRegs(b: seq<Word>): Regs
    requires |b| == 4
  {
    Regs(b[0], b[1], b[2], b[3])
  }

  function FromRegs(q: Regs): seq<Word> { [q.a, q.b, q.c, q.d] }
}
