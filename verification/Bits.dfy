/** Machine words as bit strings, least significant bit first. */
module Bits {

  type Word = b: seq<bool> | |b| == 32 witness seq(32, _ => false)
  type Byte = b: seq<bool> | |b| == 8 witness seq(8, _ => false)

  const TWO32: nat := 0x1_0000_0000
  const TWO64: nat := 0x1_0000_0000_0000_0000

  function Pow2(k: nat): (p: nat)
    ensures p > 0
  {
    if k == 0 then 1 else 2 * Pow2(k - 1)
  }

  function FromNat(n: nat, k: nat): (b: seq<bool>)
    ensures |b| == k
  {
    if k == 0 then [] else [n % 2 == 1] + FromNat(n / 2, k - 1)
  }

  function ToNat(b: seq<bool>): nat {
    if b == [] then 0 else (if b[0] then 1 else 0) + 2 * ToNat(b[1..])
  }

  lemma {:induction false} ToFrom(n: nat, k: nat)
    requires n < Pow2(k)
    ensures ToNat(FromNat(n, k)) == n
  {
    if k > 0 {
      ToFrom(n / 2, k - 1);
      assert FromNat(n, k)[1..] == FromNat(n / 2, k - 1);
    }
  }

  lemma Pow32()
    ensures Pow2(32) == TWO32
  {
    assert Pow2(8) == 256;
    assert Pow2(16) == 65536;
    assert Pow2(24) == 0x100_0000;
  }

  function ToWord(n: nat): Word { FromNat(n, 32) }

  // ---- machine operations ------------------------------------------------------------------

  function And(x: Word, y: Word): Word { seq(32, i requires 0 <= i < 32 => x[i] && y[i]) }
  function Or(x: Word, y: Word): Word { seq(32, i requires 0 <= i < 32 => x[i] || y[i]) }
  function Xor(x: Word, y: Word): Word { seq(32, i requires 0 <= i < 32 => x[i] != y[i]) }
  function Not(x: Word): Word { seq(32, i requires 0 <= i < 32 => !x[i]) }

  function Zero(k: nat): (z: seq<bool>)
    ensures |z| == k
  {
    seq(k, _ => false)
  }

  function Shl(w: Word, s: nat): Word
    requires s <= 32
  {
    Zero(s) + w[..32 - s]
  }

  function Shr(w: Word, s: nat): Word
    requires s <= 32
  {
    w[s..] + Zero(s)
  }

  /** Circular shift to the left. */
  function Rotate(w: Word, s: nat): Word
    requires s <= 32
  {
    w[32 - s..] + w[..32 - s]
  }

  /** Addition modulo 2^32. */
  function Add(x: Word, y: Word): Word {
    ToWord((ToNat(x) + ToNat(y)) % TWO32)
  }

  lemma RotateByShifts(w: Word, s: nat)
    requires s <= 32
    ensures Or(Shl(w, s), Shr(w, 32 - s)) == Rotate(w, s)
  {
  }

  lemma AddValue(x: Word, y: Word)
    ensures ToNat(Add(x, y)) == (ToNat(x) + ToNat(y)) % TWO32
  {
    Pow32();
    ToFrom((ToNat(x) + ToNat(y)) % TWO32, 32);
  }

  lemma AddCommutes(x: Word, y: Word)
    ensures Add(x, y) == Add(y, x)
  {
  }

  lemma ModSum(a: nat, b: nat)
    ensures (a % TWO32 + b) % TWO32 == (a + b) % TWO32
  {
  }

  lemma AddAssociates(x: Word, y: Word, z: Word)
    ensures Add(Add(x, y), z) == Add(x, Add(y, z))
  {
    hide ToNat, ToWord;
    var a, b, c := ToNat(x), ToNat(y), ToNat(z);
    AddValue(x, y);
    AddValue(y, z);
    SumAssociates(a, b, c);
  }

  lemma SumAssociates(a: nat, b: nat, c: nat)
    ensures ((a + b) % TWO32 + c) % TWO32 == (a + (b + c) % TWO32) % TWO32
  {
    ModSum(a + b, c);
    ModSum(b + c, a);
  }
}
