/**
 The SysV symbol hash as the library computes it, in 64-bit arithmetic, and the 32-bit hash of the System V gABI,
 chapter 5, "Hash Table", with which linkers build the tables.
 */
module ElfHash {
  import opened Vitals

  type Bytes = seq<bv8>

  /** Each character as an unsigned byte. */
  function Codes(s: CString): (codes: Bytes)
    ensures |codes| == |s|
  {
    seq(|s|, i requires 0 <= i < |s| => s[i] as bv8)
  }

  // ---- one character ----

  function Low(h: bv64): bv64 {
    h & 0xffff_ffff
  }

  function High(h: bv64): bv64 {
    h >> 32
  }

  function Sum(h: bv64, c: bv8): bv64 {
    (h << 4) + c as bv64
  }

  /** Clears bits 28 to 31 and folds them back into bits 4 to 7; when they are clear nothing happens. */
  function Fold(h: bv64): bv64 {
    (h ^ ((h & 0xf000_0000) >> 24)) & !(h & 0xf000_0000)
  }

  function Step64(h: bv64, c: bv8): bv64 {
    Fold(Sum(h, c))
  }

  /** The same step in unsigned 32-bit arithmetic. */
  function Step32(h: bv64, c: bv8): bv64 {
    Fold(Low(Sum(h, c)))
  }

  function Hash64(s: Bytes): bv64 {
    if s == [] then 0 else Step64(Hash64(s[..|s| - 1]), s[|s| - 1])
  }

  function Hash32(s: Bytes): bv64 {
    if s == [] then 0 else Step32(Hash32(s[..|s| - 1]), s[|s| - 1])
  }

  lemma NoNibble(h: bv64)
    requires h & 0xf000_0000 == 0
    ensures h == h ^ ((h & 0xf000_0000) >> 24)
  {
  }

  /** The high nibble, if there is one, is folded in 24 bits further down and cleared. */
  method FoldIn(h: bv64) returns (r: bv64)
    ensures r == Fold(h)
  {
    var high := h & 0xf000_0000;
    if high != 0 {
      return (h ^ (high >> 24)) & !high;
    }
    NoNibble(h);
    return h & !high;
  }

  method Compute(s: CString) returns (h: bv64)
    ensures h == Hash64(Codes(s))
  {
    hide Sum, Fold;
    ghost var codes := Codes(s);
    h := 0;
    var i := 0;
    while At(s, i) != '\0'
      invariant i <= |s| && h == Hash64(codes[..i])
      decreases |s| - i
    {
      assert codes[..i + 1][..i] == codes[..i];
      var sum := Sum(h, At(s, i) as bv8);
      h := FoldIn(sum);
      i := i + 1;
    }
    assert codes[..i] == codes;
  }

  // ---- the two halves of the accumulator ----

  lemma FoldHalves(h: bv64)
    ensures Low(Fold(h)) == Fold(Low(h)) < 0x1000_0000
    ensures High(Fold(h)) == High(h)
  {
  }

  lemma LowSum(h: bv64, c: bv8)
    ensures Low(Sum(h, c)) == Low(Sum(Low(h), c))
  {
  }

  /** What adding the character puts into bit 32 and above. */
  function CarryOut(h: bv64, c: bv8): bv64 {
    High(Sum(h, c))
  }

  /** The high half one character later: shifted by a nibble, with the new carry behind it. */
  function Shifted(u: bv64, carry: bv64): bv64 {
    Low(u << 4) | carry
  }

  lemma HighSum(h: bv64, c: bv8)
    requires Low(h) < 0x1000_0000
    ensures High(Sum(h, c)) == Shifted(High(h), CarryOut(Low(h), c))
    ensures CarryOut(Low(h), c) <= 1
  {
  }

  /** One character, seen as two halves: the low one is the 32-bit hash, the high one shifts carries up and out. */
  lemma StepHalves(h: bv64, c: bv8)
    requires Low(h) < 0x1000_0000
    ensures Low(Step64(h, c)) == Step32(Low(h), c) < 0x1000_0000
    ensures High(Step64(h, c)) == Shifted(High(h), CarryOut(Low(h), c))
    ensures CarryOut(Low(h), c) <= 1
  {
    hide Low, High, Sum, Fold, CarryOut, Shifted;
    LowSum(h, c);
    HighSum(h, c);
    FoldHalves(Sum(h, c));
  }

  /** After every character the low 32 bits of the accumulator are the gABI accumulator, which stays below 2^28. */
  lemma {:induction false} LowHalfIsGabiHash(s: Bytes)
    ensures Low(Hash64(s)) == Hash32(s) < 0x1000_0000
  {
    if s == [] {
      assert Low(0) == 0;
    } else {
      hide Low, High, Sum, Fold, CarryOut, Shifted;
      LowHalfIsGabiHash(s[..|s| - 1]);
      StepHalves(Hash64(s[..|s| - 1]), s[|s| - 1]);
    }
  }

  // ---- when the two hashes differ ----

  /** The addition of character `k` leaves a bit at position 32. */
  predicate Carries(s: Bytes, k: nat)
    requires k < |s|
  {
    CarryOut(Hash32(s[..k]), s[k]) != 0
  }

  /** The low `d` nibbles. */
  function Nibbles(d: nat): bv64 {
    if d == 0 then 0 else Widen(Nibbles(d - 1))
  }

  function Widen(mask: bv64): bv64 {
    (mask << 4) | 15
  }

  predicate Clear(u: bv64, mask: bv64) {
    u & mask == 0
  }

  lemma NibblesFit(d: nat)
    requires d <= 7
    ensures Nibbles(d) <= 0x0fff_ffff
  {
    assert Nibbles(4) == 0xffff;
    assert Nibbles(7) == 0x0fff_ffff;
  }

  lemma AllNibbles(u: bv64)
    ensures ZeroIn(u, 8) <==> Low(u) == 0
  {
    assert Nibbles(4) == 0xffff;
    assert Nibbles(8) == 0xffff_ffff;
  }

  predicate ZeroIn(u: bv64, d: nat) {
    Clear(u, Nibbles(d))
  }

  lemma ShiftedMask(u: bv64, m: bv64, c: bv64)
    requires m <= 0x0fff_ffff && c <= 1
    ensures Clear(Shifted(u, c), Widen(m)) <==> c == 0 && Clear(u, m)
  {
    hide *;
    if c == 0 {
      NothingCarried(u, m);
    } else {
      SomethingCarried(u, m);
    }
  }

  lemma NothingCarried(u: bv64, m: bv64)
    requires m <= 0x0fff_ffff
    ensures Clear(Shifted(u, 0), Widen(m)) <==> Clear(u, m)
  {
  }

  lemma SomethingCarried(u: bv64, m: bv64)
    ensures !Clear(Shifted(u, 1), Widen(m))
  {
  }

  lemma ShiftedZero(u: bv64, d: nat, c: bv64)
    requires 0 < d <= 8 && c <= 1
    ensures ZeroIn(Shifted(u, c), d) <==> c == 0 && ZeroIn(u, d - 1)
  {
    hide Shifted, Widen, Clear;
    NibblesFit(d - 1);
    ShiftedMask(u, Nibbles(d - 1), c);
  }

  /** The low `d` nibbles of the high half are zero exactly when none of the last `d` characters carried. */
  lemma {:induction false} LastCarries(s: Bytes, d: nat)
    requires d <= 8
    ensures ZeroIn(High(Hash64(s)), d) <==> forall k | 0 <= k < |s| && |s| - d <= k :: !Carries(s, k)
  {
    if s == [] || d == 0 {
      assert High(0) == 0;
    } else {
      hide Low, High, Sum, Fold, CarryOut, Step64, Step32, Shifted, ZeroIn;
      var n := |s| - 1;
      var before, c := s[..n], s[n];
      LowHalfIsGabiHash(before);
      StepHalves(Hash64(before), c);
      LastCarries(before, d - 1);
      ShiftedZero(High(Hash64(before)), d, CarryOut(Hash32(before), c));
      assert Carries(s, n) <==> CarryOut(Hash32(before), c) != 0;
      forall k | 0 <= k < n
        ensures Carries(s, k) <==> Carries(before, k)
      {
        assert s[..k] == before[..k];
      }
    }
  }

  lemma HalfOfHalf(h: bv64)
    ensures Low(h) == h <==> Low(High(h)) == 0
  {
  }

  /**
   The 64-bit hash is the gABI hash exactly when none of the last eight characters carried; an older carry has been
   shifted out by then.
   */
  lemma HashesAgree(s: Bytes)
    ensures Hash64(s) == Hash32(s) <==> forall k | 0 <= k < |s| && |s| - 8 <= k :: !Carries(s, k)
  {
    hide Hash64, Hash32, Carries, Low, High, ZeroIn;
    LowHalfIsGabiHash(s);
    LastCarries(s, 8);
    AllNibbles(High(Hash64(s)));
    HalfOfHalf(Hash64(s));
  }

  /** A name whose last character makes the hash fold, and both hashes of it. */
  lemma SyscallHash()
    ensures Hash64(Codes("syscall")) == 0xb09_985c && Hash32(Codes("syscall")) == 0xb09_985c
  {
    var s: Bytes := [0x73, 0x79, 0x73, 0x63, 0x61, 0x6c, 0x6c];
    assert Codes("syscall") == s;
    SixCharacters(s[..6]);
    assert s[..7] == s;
  }

  lemma SixCharacters(s: Bytes)
    requires s == [0x73, 0x79, 0x73, 0x63, 0x61, 0x6c]
    ensures Hash64(s) == 0x7b0_997c && Hash32(s) == 0x7b0_997c
  {
    assert s[..1][..0] == [] && s[..2][..1] == s[..1] && s[..3][..2] == s[..2] && s[..4][..3] == s[..3];
    assert s[..5][..4] == s[..4] && s[..6][..5] == s[..5] && s[..6] == s;
    assert Hash64(s[..1]) == 0x73 && Hash32(s[..1]) == 0x73;
    assert Hash64(s[..2]) == 0x7a9 && Hash32(s[..2]) == 0x7a9;
    assert Hash64(s[..3]) == 0x7b03 && Hash32(s[..3]) == 0x7b03;
    assert Hash64(s[..4]) == 0x7_b093 && Hash32(s[..4]) == 0x7_b093;
    assert Hash64(s[..5]) == 0x7b_0991 && Hash32(s[..5]) == 0x7b_0991;
  }

  /** Seven bytes whose last addition carries: the 64-bit hash exceeds 32 bits. */
  lemma HashCanExceed32Bits()
    ensures Hash64([0xff, 0x0f, 0x0f, 0x0f, 0x0f, 0x0f, 0x12]) == 0x1_0000_0002
    ensures Hash32([0xff, 0x0f, 0x0f, 0x0f, 0x0f, 0x0f, 0x12]) == 2
  {
    var s: Bytes := [0xff, 0x0f, 0x0f, 0x0f, 0x0f, 0x0f, 0x12];
    assert s[..1][..0] == [] && s[..2][..1] == s[..1] && s[..3][..2] == s[..2] && s[..4][..3] == s[..3];
    assert s[..5][..4] == s[..4] && s[..6][..5] == s[..5] && s[..7][..6] == s[..6] && s[..7] == s;
    assert Hash64(s[..1]) == 0xff && Hash32(s[..1]) == 0xff;
    assert Hash64(s[..2]) == 0xfff && Hash32(s[..2]) == 0xfff;
    assert Hash64(s[..3]) == 0xffff && Hash32(s[..3]) == 0xffff;
    assert Hash64(s[..4]) == 0xf_ffff && Hash32(s[..4]) == 0xf_ffff;
    assert Hash64(s[..5]) == 0xff_ffff && Hash32(s[..5]) == 0xff_ffff;
    assert Hash64(s[..6]) == 0xfff_ffff && Hash32(s[..6]) == 0xfff_ffff;
  }
}
