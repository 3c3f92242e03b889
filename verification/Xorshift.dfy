/**
  The generator behind the jitter, on words of bits with the least significant bit first: one
  step is a bijection, and the number drawn from a word lies in [0, 1).
*/
module Xorshift {
  type Word = seq<bool>

  function Zeros(n: nat): (r: Word)
    ensures |r| == n && forall i | 0 <= i < n :: !r[i]
  {
    seq(n, _ => false)
  }

  function Xor(a: Word, b: Word): (r: Word)
    requires |a| == |b|
    ensures |r| == |a| && forall i {:trigger r[i]} | 0 <= i < |r| :: r[i] == (a[i] != b[i])
  {
    seq(|a|, i requires 0 <= i < |a| == |b| => a[i] != b[i])
  }

  /** The bit k places below. */
  predicate Lower(x: Word, i: nat, k: nat)
    requires i < |x|
  {
    i >= k && x[i - k]
  }

  /** The bit k places above. */
  predicate Upper(x: Word, i: nat, k: nat)
    requires i < |x|
  {
    i + k < |x| && x[i + k]
  }

  function Shl(x: Word, k: nat): (r: Word)
    ensures |r| == |x| && forall i {:trigger r[i]} | 0 <= i < |x| :: r[i] == Lower(x, i, k)
  {
    if k <= |x| then Zeros(k) + x[..|x| - k] else Zeros(|x|)
  }

  function Shr(x: Word, k: nat): (r: Word)
    ensures |r| == |x| && forall i {:trigger r[i]} | 0 <= i < |x| :: r[i] == Upper(x, i, k)
  {
    if k <= |x| then x[k..] + Zeros(k) else Zeros(|x|)
  }

  /** x ^= x << 13; x ^= x >> 7; x ^= x << 17. */
  function Next(x: Word): (r: Word)
    ensures |r| == |x|
  {
    var a := Xor(x, Shl(x, 13));
    var b := Xor(a, Shr(a, 7));
    Xor(b, Shl(b, 17))
  }

  /** Every bit is determined by the lower ones. */
  function UndoLeft(y: Word, k: nat): (x: Word)
    requires k > 0
    ensures |x| == |y|
    ensures forall i | 0 <= i < |y| :: y[i] == (x[i] != Lower(x, i, k))
  {
    if y == [] then []
    else
      var n := |y| - 1;
      var low := UndoLeft(y[..n], k);
      var x := low + [y[n] != (n >= k && low[n - k])];
      assert forall i | 0 <= i < n :: Lower(x, i, k) == Lower(low, i, k);
      x
  }

  function Rev(x: Word): (r: Word)
    ensures |r| == |x| && forall i {:trigger r[i]} | 0 <= i < |x| :: r[i] == x[|x| - 1 - i]
  {
    seq(|x|, i requires 0 <= i < |x| => x[|x| - 1 - i])
  }

  /** A right shift is a left shift seen from the other end. */
  function UndoRight(y: Word, k: nat): (x: Word)
    requires k > 0
    ensures |x| == |y|
  {
    Rev(UndoLeft(Rev(y), k))
  }

  function Previous(z: Word): (r: Word)
    ensures |r| == |z|
  {
    UndoLeft(UndoRight(UndoLeft(z, 17), 7), 13)
  }

  lemma {:induction false} LeftUnique(a: Word, b: Word, k: nat, n: nat)
    requires k > 0 && n <= |a| == |b|
    requires forall i | 0 <= i < |a| :: (a[i] != Lower(a, i, k)) == (b[i] != Lower(b, i, k))
    ensures forall i | 0 <= i < n :: a[i] == b[i]
  {
    if n > 0 {
      LeftUnique(a, b, k, n - 1);
    }
  }

  lemma LeftUndone(x: Word, k: nat)
    requires k > 0
    ensures UndoLeft(Xor(x, Shl(x, k)), k) == x && Xor(UndoLeft(x, k), Shl(UndoLeft(x, k), k)) == x
  {
    LeftUnique(UndoLeft(Xor(x, Shl(x, k)), k), x, k, |x|);
  }

  lemma RevRev(x: Word)
    ensures Rev(Rev(x)) == x
  {
  }

  lemma MirrorBit(x: Word, k: nat, i: nat)
    requires i < |x|
    ensures Upper(x, |x| - 1 - i, k) == Lower(Rev(x), i, k)
  {
  }

  lemma Mirror(x: Word, k: nat)
    ensures Rev(Xor(x, Shr(x, k))) == Xor(Rev(x), Shl(Rev(x), k))
  {
    var a, b := Rev(Xor(x, Shr(x, k))), Xor(Rev(x), Shl(Rev(x), k));
    forall i | 0 <= i < |x|
      ensures a[i] == b[i]
    {
      MirrorBit(x, k, i);
    }
  }

  lemma RightUndone(x: Word, k: nat)
    requires k > 0
    ensures UndoRight(Xor(x, Shr(x, k)), k) == x && Xor(UndoRight(x, k), Shr(UndoRight(x, k), k)) == x
  {
    RevRev(x);
    Mirror(x, k);
    LeftUndone(Rev(x), k);
    var w := UndoLeft(Rev(x), k);
    RevRev(w);
    Mirror(Rev(w), k);
    RevRev(Xor(Rev(w), Shr(Rev(w), k)));
  }

  /** One step is a bijection on words, and only the zero word is stuck at zero. */
  lemma NextIsBijective(x: Word)
    ensures Previous(Next(x)) == x && Next(Previous(x)) == x
    ensures Next(x) == Zeros(|x|) <==> x == Zeros(|x|)
  {
    PreviousUndoes(x);
    NextUndoes(x);
    PreviousUndoes(Zeros(|x|));
    ZeroStays(|x|);
  }

  lemma PreviousUndoes(x: Word)
    ensures Previous(Next(x)) == x
  {
    var a := Xor(x, Shl(x, 13));
    var b := Xor(a, Shr(a, 7));
    LeftUndone(x, 13);
    RightUndone(a, 7);
    LeftUndone(b, 17);
  }

  lemma NextUndoes(z: Word)
    ensures Next(Previous(z)) == z
  {
    var b := UndoLeft(z, 17);
    var a := UndoRight(b, 7);
    LeftUndone(z, 17);
    RightUndone(b, 7);
    LeftUndone(a, 13);
  }

  lemma ZeroStays(n: nat)
    ensures Next(Zeros(n)) == Zeros(n)
  {
    var z := Zeros(n);
    assert Shl(z, 13) == z;
    assert Xor(z, z) == z;
    assert Shr(z, 7) == z;
    assert Shl(z, 17) == z;
  }

  function Value(x: Word): nat {
    if x == [] then 0 else (if x[0] then 1 else 0) + 2 * Value(x[1..])
  }

  function Pow2(n: nat): (r: nat)
    ensures r > 0
  {
    if n == 0 then 1 else 2 * Pow2(n - 1)
  }

  lemma {:induction false} ValueBound(x: Word)
    ensures Value(x) < Pow2(|x|)
  {
    if x != [] {
      ValueBound(x[1..]);
    }
  }

  function Fraction(part: nat, whole: nat): (r: real)
    requires part < whole
    ensures 0.0 <= r < 1.0
  {
    part as real / whole as real
  }

  /** The top 53 bits of a word, as a fraction of their range. */
  function Unit(x: Word): (u: real)
    requires |x| == 64
    ensures 0.0 <= u < 1.0
  {
    ValueBound(x[11..]);
    Fraction(Value(x[11..]), Pow2(53))
  }

  /** One bit at place n is worth 2 to the n-th, and words add up bit by bit. */
  lemma {:induction false} ValueOfBit(n: nat, x: Word)
    ensures Value(Zeros(n) + [true] + x) == Pow2(n) + Value(Zeros(n) + [false] + x)
    ensures Value(Zeros(n)) == 0
    ensures n == 10 ==> Pow2(n) == 1024
  {
    if n > 0 {
      ValueOfBit(n - 1, x);
      assert (Zeros(n) + [true] + x)[1..] == Zeros(n - 1) + [true] + x;
      assert (Zeros(n) + [false] + x)[1..] == Zeros(n - 1) + [false] + x;
      assert Zeros(n)[1..] == Zeros(n - 1);
    }
  }

  /** Dropping the low n bits is dividing by 2 to the n-th and rounding down. */
  lemma {:induction false} ValueDrop(x: Word, n: nat)
    requires n <= |x|
    ensures Value(x[n..]) * Pow2(n) <= Value(x) < (Value(x[n..]) + 1) * Pow2(n)
  {
    if n > 0 {
      ValueDrop(x, n - 1);
      assert x[n - 1..][1..] == x[n..];
      Halve(Value(x), Value(x[n..]), Value(x[n - 1..]), Pow2(n - 1));
    } else {
      assert x[0..] == x;
    }
  }

  lemma Halve(v: nat, high: nat, more: nat, p: nat)
    requires more * p <= v < (more + 1) * p && 2 * high <= more <= 2 * high + 1
    ensures high * (2 * p) <= v < (high + 1) * (2 * p)
  {
    assert (2 * high) * p <= more * p && (more + 1) * p <= (2 * high + 2) * p;
  }

  /** The number drawn is the word's value, shifted right by 11 and divided by 2 to the 53rd. */
  lemma UnitIs(x: Word)
    requires |x| == 64
    ensures Unit(x) == (Value(x) / 2048) as real / 9007199254740992.0
  {
    var v, high := Value(x), Value(x[11..]);
    assert high * 2048 <= v < (high + 1) * 2048 by {
      ValueDrop(x, 11);
      Pow2Known();
    }
    assert v / 2048 == high;
    Pow2Known();
  }

  lemma Pow2Two(n: nat)
    ensures Pow2(n + 2) == 4 * Pow2(n)
  {
    assert Pow2(n + 2) == 2 * Pow2(n + 1);
  }

  lemma Pow2Ten(n: nat)
    ensures Pow2(n + 10) == 1024 * Pow2(n)
  {
    Pow2Two(n);
    Pow2Two(n + 2);
    Pow2Two(n + 4);
    Pow2Two(n + 6);
    Pow2Two(n + 8);
  }

  lemma Pow2Known()
    ensures Pow2(11) == 2048 && Pow2(53) == 9007199254740992
  {
    Pow2Ten(1);
    Pow2Ten(3);
    Pow2Ten(13);
    Pow2Ten(23);
    Pow2Ten(33);
    Pow2Ten(43);
  }

  /** The thread's generator state. */
  class Generator {
    var state: Word

    ghost predicate Valid()
      reads this
    {
      |state| == 64 && state != Zeros(64)
    }

    constructor (seed: Word)
      requires |seed| == 64
      ensures Valid() && state == [true] + seed[1..]
    {
      var word := [true] + seed[1..];
      assert word[0] && !Zeros(64)[0];
      state := word;
    }

    /** Advances the state, which never reaches zero, and draws the top 53 bits as a number in [0, 1). */
    method UnitRandom() returns (u: real)
      requires Valid()
      modifies this
      ensures Valid() && state == Next(old(state)) && old(state) == Previous(state)
      ensures u == Unit(state) && 0.0 <= u < 1.0
    {
      NextIsBijective(state);
      state := Next(state);
      u := Unit(state);
    }
  }
}
