/**
 * The string hash of the consumer-group sample (samples/consumerGroupParallel.py).
 * It is the key function of the hash-partitioned parallel region: each
 * character code is folded into a 32-bit accumulator as `h = (31*h + ord(c)) & 0xFFFFFFFF`,
 * and the final accumulator is read back as a two's-complement signed 32-bit value.
 */
module StringHash {

  /** 2^32: the modulus of the accumulator. */
  const Modulus: int := 0x1_0000_0000
  /** 2^31: the offset used to read the accumulator as a signed value. */
  const Half: int := 0x8000_0000

  /** Python's `x & 0xFFFFFFFF`: Python's integers behave as infinite two's
      complement, so this keeps the low 32 bits, the residue of x modulo 2^32 in
      [0, 2^32). Dafny's `%` with a positive divisor is never negative and gives
      that residue for every x, negative ones included. */
  function Mask32(x: int): (r: int)
    ensures 0 <= r < Modulus
    ensures (x - r) % Modulus == 0
    ensures 0 <= x < Modulus ==> r == x
  {
    x % Modulus
  }

  /** Python's `ord(c)`: the character's code point, a Unicode scalar value. */
  function Ord(c: char): (n: nat)
    ensures n < 0x11_0000 && !(0xD800 <= n < 0xE000)
  {
    c as int
  }

  /** The accumulator after folding every character of s, left to right. */
  function Unsigned(s: string): (h: int)
    ensures 0 <= h < Modulus
  {
    if s == [] then 0 else Mask32(31 * Unsigned(s[..|s| - 1]) + Ord(s[|s| - 1]))
  }

  /** The return expression `((h + 0x80000000) & 0xFFFFFFFF) - 0x80000000`. */
  function ToSigned(h: int): (r: int)
    ensures -Half <= r < Half
    ensures Mask32(r) == Mask32(h)
  {
    var r := Mask32(h + Half) - Half;
    assert r == (h + Half) % Modulus - Half;
    var q := (h + Half) / Modulus;
    assert h + Half == q * Modulus + (r + Half);
    assert r == (-q) * Modulus + h;
    ModAddMultiple(-q, h);
    r
  }

  /** The value of `string_hashcode(s)`. */
  function Hash(s: string): (r: int)
    ensures -Half <= r < Half
    ensures Mask32(r) == Unsigned(s)
  {
    ToSigned(Unsigned(s))
  }

  /** 31^n. */
  function Pow31(n: nat): nat
  {
    if n == 0 then 1 else 31 * Pow31(n - 1)
  }

  /** The closed form, without any reduction: the sum of ord(s[j]) * 31^(|s|-1-j). */
  function Poly(s: string): nat
  {
    if s == [] then 0 else Ord(s[0]) * Pow31(|s| - 1) + Poly(s[1..])
  }

  /** The two's-complement reading of an unsigned 32-bit value, written by cases. */
  function Signed32(u: int): int
  {
    if u < Half then u else u - Modulus
  }

  /** One fold step with wrap-around on SIGNED 32-bit arithmetic, as a language
      whose `int` is 32 bits wide computes `31*h + c`. */
  function WrapSigned(x: int): int
  {
    Signed32(Mask32(x))
  }

  /** The same hash computed entirely in signed 32-bit arithmetic. */
  function SignedFold(s: string): int
  {
    if s == [] then 0 else WrapSigned(31 * SignedFold(s[..|s| - 1]) + Ord(s[|s| - 1]))
  }

  /** `string_hashcode` itself: a loop over the characters that reassigns h. */
  method StringHashcode(s: string) returns (r: int)
    ensures r == Hash(s)
    ensures -Half <= r < Half
    ensures r == Signed32(Poly(s) % Modulus)
    ensures s == [] ==> r == 0
  {
    var h := 0;
    for i := 0 to |s|
      invariant 0 <= h < Modulus
      invariant h == Unsigned(s[..i])
    {
      assert s[..i + 1][..i] == s[..i];
      h := Mask32(31 * h + Ord(s[i]));
    }
    assert s[..|s|] == s;
    r := Mask32(h + Half) - Half;
    ToSignedCases(h);
    UnsignedClosedForm(s);
  }

  // ---------------------------------------------------------------------------
  // Modular arithmetic

  /** Adding a multiple of the modulus does not change the residue. */
  lemma ModAddMultiple(k: int, y: int)
    ensures (k * Modulus + y) % Modulus == y % Modulus
  {
    var q := y / Modulus;
    var r := y % Modulus;
    assert y == q * Modulus + r;
    assert k * Modulus + y == (k + q) * Modulus + r;
  }

  /** Reducing the accumulator before a fold step gives the same residue as
      reducing after it. */
  lemma FoldStepMod(x: int, c: int)
    ensures (31 * (x % Modulus) + c) % Modulus == (31 * x + c) % Modulus
  {
    var q := x / Modulus;
    assert x == q * Modulus + x % Modulus;
    assert 31 * x + c == (31 * q) * Modulus + (31 * (x % Modulus) + c);
    ModAddMultiple(31 * q, 31 * (x % Modulus) + c);
  }

  // ---------------------------------------------------------------------------
  // Properties

  /** The final step maps h to h when h < 2^31 and to h - 2^32 otherwise. */
  lemma ToSignedCases(h: int)
    requires 0 <= h < Modulus
    ensures ToSigned(h) == Signed32(h)
    ensures -Half <= ToSigned(h) < Half
  {
    if h < Half {
      assert 0 <= h + Half < Modulus;
    } else {
      assert h + Half == 1 * Modulus + (h - Half);
      ModAddMultiple(1, h - Half);
    }
  }

  /** Every hash is a signed 32-bit value. */
  lemma HashRange(s: string)
    ensures -Half <= Hash(s) < Half
  {
    ToSignedCases(Unsigned(s));
  }

  /** The empty string hashes to 0. */
  lemma HashEmpty()
    ensures Hash([]) == 0
  {
  }

  /** Appending a character is one fold step of the accumulator: the hash is a
      left fold over the string. */
  lemma {:induction false} UnsignedAppend(s: string, c: char)
    ensures Unsigned(s + [c]) == (31 * Unsigned(s) + Ord(c)) % Modulus
  {
    assert (s + [c])[..|s + [c]| - 1] == s;
  }

  /** The closed form multiplied out from the end: appending c multiplies by 31
      and adds ord(c). */
  lemma {:induction false} PolyAppend(s: string, c: char)
    ensures Poly(s + [c]) == 31 * Poly(s) + Ord(c)
  {
    if s == [] {
      assert [] + [c] == [c];
      assert [c][1..] == [];
    } else {
      calc {
        Poly(s + [c]);
        { assert (s + [c])[0] == s[0] && (s + [c])[1..] == s[1..] + [c]; }
        Ord(s[0]) * Pow31(|s|) + Poly(s[1..] + [c]);
        { PolyAppend(s[1..], c); }
        Ord(s[0]) * (31 * Pow31(|s| - 1)) + 31 * Poly(s[1..]) + Ord(c);
        31 * (Ord(s[0]) * Pow31(|s| - 1) + Poly(s[1..])) + Ord(c);
        31 * Poly(s) + Ord(c);
      }
    }
  }

  /** Loop invariant of the source: the accumulator after k characters is the
      closed-form sum over those characters, reduced modulo 2^32. */
  lemma {:induction false} UnsignedClosedForm(s: string)
    ensures Unsigned(s) == Poly(s) % Modulus
  {
    if s != [] {
      var t, c := s[..|s| - 1], s[|s| - 1];
      assert s == t + [c];
      UnsignedClosedForm(t);
      PolyAppend(t, c);
      FoldStepMod(Poly(t), Ord(c));
    }
  }

  /** The hash in closed form. */
  lemma HashClosedForm(s: string)
    ensures Hash(s) == Signed32(Poly(s) % Modulus)
  {
    UnsignedClosedForm(s);
    ToSignedCases(Unsigned(s));
  }

  /** Masking to 32 bits at every step and reading the result as signed once at
      the end agrees with wrapping in signed 32-bit arithmetic at every step: a
      32-bit `int` implementation folding over the same code points computes the
      same hash. (One folding over UTF-16 code units differs for characters
      above U+FFFF.) */
  lemma {:induction false} HashIsSignedFold(s: string)
    ensures Hash(s) == SignedFold(s)
  {
    if s == [] {
    } else {
      var t, c := s[..|s| - 1], s[|s| - 1];
      HashIsSignedFold(t);
      var u := Unsigned(t);
      ToSignedCases(u);
      // SignedFold(t) == u or u - 2^32: both fold to the same residue
      if u >= Half {
        assert 31 * SignedFold(t) + Ord(c) == (-31) * Modulus + (31 * u + Ord(c));
        ModAddMultiple(-31, 31 * u + Ord(c));
      }
      ToSignedCases(Unsigned(s));
    }
  }

  /** Equal keys give equal hashes. Every Dafny function has this property; what
      makes it hold of the Python callable is `StringHashcode`'s `ensures r ==
      Hash(s)`: each call computes the same value from the string alone, with no
      hidden state, which is what the hash-partitioned routing relies on to send
      every key to one channel. */
  lemma HashDeterministic(k1: string, k2: string)
    requires k1 == k2
    ensures Hash(k1) == Hash(k2)
  {
  }

  /** The signed reading loses nothing: on 32-bit accumulators it is injective,
      so distinct accumulators give distinct hashes. */
  lemma ToSignedInjective(h1: int, h2: int)
    requires 0 <= h1 < Modulus && 0 <= h2 < Modulus
    ensures ToSigned(h1) == ToSigned(h2) <==> h1 == h2
  {
    ToSignedCases(h1);
    ToSignedCases(h2);
  }
}
