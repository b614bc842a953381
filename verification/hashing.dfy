/** The dictionary's string hash (`genHash`): a left fold over the characters
    that starts at 29 and multiplies by nine before adding each character code,
    in Java `int` arithmetic, which silently wraps around at 32 bits. */
module Hashing {

  const Modulus: int := 0x1_0000_0000
  const MinInt: int := -0x8000_0000
  const MaxInt: int := 0x7FFF_FFFF

  /** A Java `int` value. */
  predicate InIntRange(x: int) { MinInt <= x <= MaxInt }

  /** The Java `int` that an exact integer result wraps around to. */
  function Wrap(x: int): (r: int)
    ensures InIntRange(r)
    ensures (r - x) % Modulus == 0
    ensures InIntRange(x) ==> r == x
  {
    (x - MinInt) % Modulus + MinInt
  }

  /** Java `a + b` on two `int`s. */
  function IntAdd(a: int, b: int): int { Wrap(a + b) }

  /** Java `a << 3` on an `int`: multiplication by eight, wrapped. */
  function IntShl3(a: int): int { Wrap(a * 8) }

  /** Two integers that differ by a multiple of 2^32 wrap to the same `int`. */
  lemma WrapCongruent(x: int, y: int)
    requires (x - y) % Modulus == 0
    ensures Wrap(x) == Wrap(y)
  {
    var rx, ry := Wrap(x), Wrap(y);
    assert (rx - ry) % Modulus == 0 by {
      assert rx - ry == (rx - x) - (ry - y) + (x - y);
    }
    assert -Modulus < rx - ry < Modulus;
  }

  /** One step of the hash: `h * 9 + code`, wrapped to an `int`. */
  function Step(h: int, c: char): (r: int)
    ensures InIntRange(r)
  {
    Wrap(9 * h + c as int)
  }

  /** The hash of `s` when the running value is `h` before its first character. */
  function HashFrom(h: int, s: string): (r: int)
    requires InIntRange(h)
    ensures InIntRange(r)
    ensures s == [] ==> r == h
    decreases s
  {
    if s == [] then h else HashFrom(Step(h, s[0]), s[1..])
  }

  /** The hash of a word as `genHash` computes it. */
  function Hash(s: string): (r: int)
    ensures InIntRange(r)
  {
    HashFrom(29, s)
  }

  /** Wrapping an operand first does not change a wrapped sum. */
  lemma WrapAddLeft(x: int, y: int)
    ensures Wrap(Wrap(x) + y) == Wrap(x + y)
  {
    assert ((Wrap(x) + y) - (x + y)) % Modulus == 0 by {
      assert (Wrap(x) + y) - (x + y) == Wrap(x) - x;
    }
    WrapCongruent(Wrap(x) + y, x + y);
  }

  /** The statement Java executes, `((h << 3) + h) + c`, with each operator
      wrapping on its own, is the single wrapped step `9h + c`. */
  lemma JavaStepIsStep(h: int, c: char)
    requires InIntRange(h)
    ensures IntAdd(IntAdd(IntShl3(h), h), c as int) == Step(h, c)
  {
    WrapAddLeft(8 * h, h);
    assert 8 * h + h == 9 * h;
    WrapAddLeft(9 * h, c as int);
  }

  /** Hashing a concatenation continues from the hash of the first part. */
  lemma {:induction false} HashFromAppend(h: int, s: string, t: string)
    requires InIntRange(h)
    ensures HashFrom(h, s + t) == HashFrom(HashFrom(h, s), t)
    decreases s
  {
    if s == [] {
      assert s + t == t;
    } else {
      assert (s + t)[0] == s[0] && (s + t)[1..] == s[1..] + t;
      HashFromAppend(Step(h, s[0]), s[1..], t);
    }
  }

  /** Appending one character applies one more step to the hash. */
  lemma HashSnoc(s: string, c: char)
    ensures Hash(s + [c]) == Step(Hash(s), c)
  {
    HashFromAppend(29, s, [c]);
  }

  /** `genHash`: the loop of the source, one Java statement per character. */
  method GenHash(e: string) returns (hash: int)
    ensures hash == Hash(e)
  {
    hash := 29;
    var i := 0;
    while i < |e|
      invariant 0 <= i <= |e|
      invariant InIntRange(hash)
      invariant HashFrom(hash, e[i..]) == Hash(e)
    {
      JavaStepIsStep(hash, e[i]);
      assert e[i..][1..] == e[i + 1..];
      hash := IntAdd(IntAdd(IntShl3(hash), hash), e[i] as int);
      i := i + 1;
    }
  }

  /** The empty word hashes to the seed, and single letters to `29 * 9 + code`. */
  lemma HashExamples()
    ensures Hash("") == 29
    ensures Hash("a") == 358
    ensures Hash("ab") == 3320
  {
    HashSnoc("a", 'b');
  }

  /** Ten letters are enough to overflow: the hash of "misspelled" has
      wrapped around to a negative `int`. */
  lemma HashWrapsAround()
    ensures Hash("misspelled") == -1839846937
  {
    assert HashFrom(-681646037, "d") == -1839846937;
    assert HashFrom(1833135894, "ed") == -1839846937;
    assert HashFrom(203681754, "led") == -1839846937;
    assert HashFrom(22631294, "lled") == -1839846937;
    assert HashFrom(2514577, "elled") == -1839846937;
    assert HashFrom(279385, "pelled") == -1839846937;
    assert HashFrom(31030, "spelled") == -1839846937;
    assert HashFrom(3435, "sspelled") == -1839846937;
    assert HashFrom(370, "isspelled") == -1839846937;
  }
}
