/** 15-bit words and the integer operators the opcodes apply to them.
    Python integers are unbounded and, in this machine, never negative, so values are `nat`;
    the operators below are Python's on non-negative integers. */
module Words {

  /** Word arithmetic is modulo 2^15. */
  const Modulus: nat := 32768
  const MaxWord: nat := 32767
  /** Raw operand values RegisterBase .. RegisterBase + RegisterCount - 1 name registers 0..7. */
  const RegisterBase: nat := 32768
  const RegisterCount: nat := 8

  type RegIndex = i: nat | i < RegisterCount

  predicate IsWord(x: int) { 0 <= x < Modulus }

  predicate IsRegisterRef(num: int) { RegisterBase <= num < RegisterBase + RegisterCount }

  function Pow2(k: nat): (r: nat)
    ensures r >= 1
  {
    if k == 0 then 1 else 2 * Pow2(k - 1)
  }

  /** Python's `x & y`, built bit by bit from the least significant bit. */
  function BitAnd(x: nat, y: nat): (r: nat)
    ensures r <= x && r <= y
    decreases x
  {
    if x == 0 || y == 0 then 0
    else 2 * BitAnd(x / 2, y / 2) + (if x % 2 == 1 && y % 2 == 1 then 1 else 0)
  }

  /** Python's `x | y`, built bit by bit from the least significant bit. */
  function BitOr(x: nat, y: nat): (r: nat)
    ensures x <= r && y <= r && r <= x + y
    decreases x + y
  {
    if x == 0 then y
    else if y == 0 then x
    else 2 * BitOr(x / 2, y / 2) + (if x % 2 == 1 || y % 2 == 1 then 1 else 0)
  }

  /** Python's `(~x) % 32768`: `~x` is `-x - 1`, and with a positive divisor Python's `%`
      and Dafny's both give the non-negative remainder. */
  function Not15(x: nat): (r: nat)
    ensures r == MaxWord - x % Modulus
  {
    var complement: int := -(x as int) - 1;
    complement % Modulus
  }

  lemma Pow2Of15()
    ensures Pow2(15) == Modulus
  {
    assert Pow2(4) == 16;
    assert Pow2(8) == 256;
    assert Pow2(12) == 4096;
  }

  /** Reducing modulo 2^15 yields a word, and a word is its own reduction. */
  lemma ReduceToWord(x: nat)
    ensures IsWord(x % Modulus)
    ensures IsWord(x) ==> x % Modulus == x
    ensures (x % Modulus) % Modulus == x % Modulus
  {
  }

  /** On a word, the 15-bit complement is `32767 - b`. */
  lemma NotIsComplement(b: nat)
    requires IsWord(b)
    ensures Not15(b) == MaxWord - b
    ensures IsWord(Not15(b))
  {
  }

  /** Complementing twice gives the word back. */
  lemma NotInvolution(b: nat)
    requires IsWord(b)
    ensures Not15(Not15(b)) == b
  {
    NotIsComplement(b);
    NotIsComplement(Not15(b));
  }

  /** `x | y` of two k-bit numbers is a k-bit number. */
  lemma {:induction false} BitOrBound(x: nat, y: nat, k: nat)
    requires x < Pow2(k) && y < Pow2(k)
    ensures BitOr(x, y) < Pow2(k)
    decreases x + y
  {
    if x != 0 && y != 0 {
      assert k > 0;
      BitOrBound(x / 2, y / 2, k - 1);
    }
  }

  /** A k-bit number and its k-bit complement share no bit and together cover all k bits. */
  lemma {:induction false} ComplementBits(x: nat, k: nat)
    requires x < Pow2(k)
    ensures BitAnd(x, Pow2(k) - 1 - x) == 0
    ensures BitOr(x, Pow2(k) - 1 - x) == Pow2(k) - 1
    decreases k
  {
    var y := Pow2(k) - 1 - x;
    if x != 0 && y != 0 {
      assert k > 0;
      var h := Pow2(k - 1);
      assert x / 2 < h;
      assert y / 2 == h - 1 - x / 2;
      ComplementBits(x / 2, k - 1);
    }
  }

  /** On words, `(b & c) % 32768` and `(b | c) % 32768` are just `b & c` and `b | c`. */
  lemma BitOpsOnWords(b: nat, c: nat)
    requires IsWord(b) && IsWord(c)
    ensures BitAnd(b, c) % Modulus == BitAnd(b, c)
    ensures BitOr(b, c) % Modulus == BitOr(b, c)
  {
    Pow2Of15();
    BitOrBound(b, c, 15);
  }

  /** A word and its complement: `b & ~b` is 0 and `b | ~b` is 32767. */
  lemma WordAndComplement(b: nat)
    requires IsWord(b)
    ensures BitAnd(b, Not15(b)) == 0
    ensures BitOr(b, Not15(b)) == MaxWord
  {
    Pow2Of15();
    NotIsComplement(b);
    ComplementBits(b, 15);
  }
}
