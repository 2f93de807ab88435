/** The GNU symbol hash: `h = 33 * h + c` from 5381 on, in unsigned 32-bit arithmetic. */
module GnuHash {
  import opened Vitals

  const WORD32: nat := 0x1_0000_0000
  const SEED: nat := 5381

  type Word32 = n: int | 0 <= n < WORD32

  function Wrap(n: int): (w: Word32) {
    n % WORD32
  }

  function Power33(n: nat): nat {
    if n == 0 then 1 else 33 * Power33(n - 1)
  }

  /** The characters as digits of a base 33 numeral, without any wrap-around. */
  function Digits(s: CString): nat {
    if s == [] then 0 else s[0] as int * Power33(|s| - 1) + Digits(s[1..])
  }

  /** The closed form: 5381 * 33^n plus c_i * 33^(n-1-i) for every character, modulo 2^32. */
  function Hash(s: CString): (h: Word32) {
    Wrap(SEED * Power33(|s|) + Digits(s))
  }

  /** The hash so far times 33, plus the character; each operation wraps around. */
  function Step(h: Word32, c: char): Word32 {
    Wrap(Wrap(Wrap(h * 32) + h) + c as int)
  }

  lemma StepWraps(n: int, c: char)
    ensures Step(Wrap(n), c) == Wrap(33 * n + c as int)
  {
    var q := n / WORD32;
    assert n == q * WORD32 + Wrap(n);
    WrapDrops(Wrap(n) * 32, Wrap(n));
    WrapDrops(Wrap(n) * 32 + Wrap(n), c as int);
    WrapShift(33 * Wrap(n) + c as int, 33 * q);
  }

  lemma WrapShift(n: int, q: int)
    ensures Wrap(n + q * WORD32) == Wrap(n)
  {
  }

  lemma WrapDrops(n: int, m: int)
    ensures Wrap(Wrap(n) + m) == Wrap(n + m)
  {
  }

  /** One more digit behind the others. */
  lemma {:induction false} DigitsSnoc(s: CString, t: CString)
    requires |s| > 0 && t == s[..|s| - 1]
    ensures Digits(s) == 33 * Digits(t) + s[|s| - 1] as int
  {
    if |s| > 1 {
      assert s[1..][..|s| - 2] == t[1..];
      DigitsSnoc(s[1..], t[1..]);
      assert s[1..][|s| - 2] == s[|s| - 1] && t[0] == s[0];
      NextDigit(s[0] as int, |s| - 2, Digits(t[1..]), s[|s| - 1] as int);
    }
  }

  lemma NextDigit(c: int, n: nat, rest: int, last: int)
    ensures c * Power33(n + 1) + (33 * rest + last) == 33 * (c * Power33(n) + rest) + last
  {
  }

  method Compute(s: CString) returns (h: Word32)
    ensures h == Hash(s)
  {
    h := SEED;
    var i := 0;
    while At(s, i) != '\0'
      invariant i <= |s| && h == Hash(s[..i])
      decreases |s| - i
    {
      assert s[..i + 1][..i] == s[..i];
      DigitsSnoc(s[..i + 1], s[..i]);
      StepWraps(SEED * Power33(i) + Digits(s[..i]), At(s, i));
      h := Step(h, At(s, i));
      i := i + 1;
    }
    assert s[..i] == s;
  }

  /** A name whose hash needs all 32 bits. */
  lemma SyscallHash()
    ensures Hash("syscall") == 0xbac2_12a0
  {
    var s: CString := "syscall";
    assert Power33(3) == 35937 && Power33(6) == 1291467969 && Power33(7) == 42618442977;
    assert Digits(s[6..]) == 108 && Digits(s[5..]) == 3672 && Digits(s[4..]) == 109305;
    assert s[6..][1..] == [] && s[5..][1..] == s[6..] && s[4..][1..] == s[5..] && s[3..][1..] == s[4..];
    assert s[2..][1..] == s[3..] && s[1..][1..] == s[2..];
  }

  lemma {:induction false} PowersMultiply(m: nat, n: nat)
    ensures Power33(m + n) == Power33(m) * Power33(n)
  {
    if m > 0 {
      PowersMultiply(m - 1, n);
      var p, q := Power33(m - 1), Power33(n);
      assert 33 * (p * q) == (33 * p) * q;
    }
  }

  lemma Distribute(c: int, p: int, q: int, d: int)
    ensures c * (p * q) + d * q == (c * p + d) * q
  {
  }

  lemma {:induction false} DigitsOfConcatenation(a: CString, b: CString, ab: CString)
    requires ab == a + b
    ensures Digits(ab) == Digits(a) * Power33(|b|) + Digits(b)
  {
    if a == [] {
      assert ab == b;
    } else {
      assert ab[1..] == a[1..] + b;
      DigitsOfConcatenation(a[1..], b, ab[1..]);
      hide Power33;
      PowersMultiply(|a| - 1, |b|);
      Distribute(a[0] as int, Power33(|a| - 1), Power33(|b|), Digits(a[1..]));
    }
  }

  lemma WrapFactor(n: int, q: int, e: int)
    ensures Wrap(n * q + e) == Wrap(Wrap(n) * q + e)
  {
    var k := n / WORD32;
    Distribute(1, k * WORD32, q, Wrap(n));
    assert k * WORD32 * q == k * q * WORD32;
    hide Wrap;
    WrapShift(Wrap(n) * q + e, k * q);
  }

  /** The hash of a concatenation needs nothing of the prefix but its hash. */
  lemma HashOfConcatenation(a: CString, b: CString, ab: CString)
    requires ab == a + b
    ensures Hash(ab) == Wrap(Hash(a) * Power33(|b|) + Digits(b))
  {
    hide Wrap, Power33, Digits;
    DigitsOfConcatenation(a, b, ab);
    PowersMultiply(|a|, |b|);
    Distribute(SEED, Power33(|a|), Power33(|b|), Digits(a));
    WrapFactor(SEED * Power33(|a|) + Digits(a), Power33(|b|), Digits(b));
  }
}
