/** Lookup through the GNU hash section: a Bloom filter, buckets, and chains that end at a set terminator bit. */
module GnuTable {
  import opened Bytes
  import opened Vitals
  import opened GnuHash
  import opened SymbolTables

  /** Entry `j` of `chains` describes the symbol `symoffset + j`; only those symbols are hashed. */
  datatype Table = Table(symoffset: nat, shift: nat, bloom: seq<bv64>, buckets: seq<nat>, chains: seq<Word32>)

  /** OutOfTable: the next chain word lies outside the section, so what the program reads is undefined. */
  datatype Answer = Found(index: nat) | Missing | OutOfTable

  const BITS: nat := 64

  // ---- the Bloom filter ----

  function Power2(n: nat): (p: nat)
    ensures p > 0
  {
    if n == 0 then 1 else 2 * Power2(n - 1)
  }

  function Mask(k: nat): bv64
    requires k < BITS
  {
    1 << k
  }

  /** The word has some bit of the mask. */
  predicate Meets(word: bv64, mask: bv64) {
    word & mask != 0
  }

  predicate HasBit(word: bv64, k: nat)
    requires k < BITS
  {
    Meets(word, Mask(k))
  }

  function Joined(word: bv64, a: bv64, b: bv64): bv64 {
    word | a | b
  }

  function WordOf(h: Word32, size: nat): (w: nat)
    requires size > 0
    ensures w < size
  {
    h / BITS % size
  }

  function FirstBit(h: Word32): (k: nat)
    ensures k < BITS
  {
    h % BITS
  }

  function SecondBit(h: Word32, shift: nat): (k: nat)
    ensures k < BITS
  {
    h / Power2(shift) % BITS
  }

  /** Both bits of the hash are set in its filter word. */
  predicate Passes(bloom: seq<bv64>, shift: nat, h: Word32)
    requires |bloom| > 0
  {
    var word := bloom[WordOf(h, |bloom|)];
    HasBit(word, FirstBit(h)) && HasBit(word, SecondBit(h, shift))
  }

  /** A filter of `size` words that holds the given hashes. */
  function Filter(hashes: seq<Word32>, size: nat, shift: nat): (bloom: seq<bv64>)
    requires size > 0
    ensures |bloom| == size
  {
    if hashes == [] then seq(size, i => 0)
    else
      var h := hashes[0];
      var rest := Filter(hashes[1..], size, shift);
      var w := WordOf(h, size);
      rest[w := Joined(rest[w], Mask(FirstBit(h)), Mask(SecondBit(h, shift)))]
  }

  lemma MaskSet(k: nat)
    requires k < BITS
    ensures Mask(k) != 0
  {
  }

  lemma JoinedMeets(word: bv64, a: bv64, b: bv64, m: bv64)
    ensures Meets(word, m) || (m != 0 && (m == a || m == b)) ==> Meets(Joined(word, a, b), m)
  {
  }

  lemma JoinedHasBits(word: bv64, i: nat, j: nat, k: nat)
    requires i < BITS && j < BITS && k < BITS
    ensures HasBit(word, k) || k == i || k == j ==> HasBit(Joined(word, Mask(i), Mask(j)), k)
  {
    MaskSet(k);
    hide Mask, Meets, Joined;
    JoinedMeets(word, Mask(i), Mask(j), Mask(k));
  }

  /** No false negatives: a filter lets every hash pass that was put into it. */
  lemma {:induction false} FilterNeverRejects(hashes: seq<Word32>, size: nat, shift: nat, i: nat)
    requires size > 0 && i < |hashes|
    ensures Passes(Filter(hashes, size, shift), shift, hashes[i])
  {
    hide HasBit, Mask, Joined, WordOf, FirstBit, SecondBit;
    var h, g := hashes[0], hashes[i];
    var word := Filter(hashes[1..], size, shift)[WordOf(h, size)];
    JoinedHasBits(word, FirstBit(h), SecondBit(h, shift), FirstBit(g));
    JoinedHasBits(word, FirstBit(h), SecondBit(h, shift), SecondBit(g, shift));
    if i > 0 {
      FilterNeverRejects(hashes[1..], size, shift, i - 1);
    }
  }

  /**
   What the filter asks of a hash, digit by digit: its word is given by the digits above bit 6, one bit by the lowest
   six bits, the other by six bits above the shift.
   */
  lemma FilterAsks(bloom: seq<bv64>, shift: nat, h: Word32, a: nat, w: nat, i: nat, d: nat, j: nat, low: nat)
    requires w < |bloom| && i < 64 && h == (a * |bloom| + w) * 64 + i
    requires j < 64 && low < Power2(shift) && h == (d * 64 + j) * Power2(shift) + low
    ensures Passes(bloom, shift, h) <==> HasBit(bloom[w], i) && HasBit(bloom[w], j)
  {
    hide Power2, WordOf, FirstBit, SecondBit, HasBit;
    FilterPlaces(|bloom|, shift, h, a, w, i, d, j, low);
  }

  lemma FilterPlaces(size: nat, shift: nat, h: Word32, a: nat, w: nat, i: nat, d: nat, j: nat, low: nat)
    requires w < size && i < 64 && h == (a * size + w) * 64 + i
    requires j < 64 && low < Power2(shift) && h == (d * 64 + j) * Power2(shift) + low
    ensures WordOf(h, size) == w && FirstBit(h) == i && SecondBit(h, shift) == j
  {
    hide Power2;
    Divided(h, 64, a * size + w, i);
    Divided(a * size + w, size, a, w);
    Divided(h, Power2(shift), d * 64 + j, low);
    Divided(d * 64 + j, 64, d, j);
  }

  // ---- well-formed sections ----

  /** The hash of symbol `i`. */
  function HashOf(symtab: seq<Symbol>, i: nat): Word32
    requires i < |symtab|
  {
    Hash(symtab[i].name)
  }

  function BucketOf(t: Table, h: Word32): (b: nat)
    requires |t.buckets| > 0
    ensures b < |t.buckets|
  {
    h % |t.buckets|
  }

  /** The bucket of a hash is its remainder. */
  lemma BucketIs(t: Table, h: Word32, q: nat, b: nat)
    requires b < |t.buckets| && h == q * |t.buckets| + b
    ensures BucketOf(t, h) == b
  {
    Divided(h, |t.buckets|, q, b);
  }

  function SymbolBucket(t: Table, symtab: seq<Symbol>, i: nat): (b: nat)
    requires |t.buckets| > 0 && i < |symtab|
    ensures b < |t.buckets|
  {
    BucketOf(t, HashOf(symtab, i))
  }

  predicate Sized(t: Table, symtab: seq<Symbol>) {
    && |t.bloom| > 0 && |t.buckets| > 0 && t.shift < 32
    && 1 <= t.symoffset && |symtab| == t.symoffset + |t.chains|
  }

  /** Hashed symbols are grouped by bucket, the bucket numbers ascending. */
  ghost predicate Grouped(t: Table, symtab: seq<Symbol>)
    requires Sized(t, symtab)
  {
    forall i, j | t.symoffset <= i < j < |symtab| :: SymbolBucket(t, symtab, i) <= SymbolBucket(t, symtab, j)
  }

  /** A chain word is the hash with bit 0 replaced by the terminator: set on the last symbol of a bucket. */
  predicate ChainWord(t: Table, symtab: seq<Symbol>, i: nat)
    requires Sized(t, symtab) && t.symoffset <= i < |symtab|
  {
    var word := t.chains[i - t.symoffset];
    && word / 2 == HashOf(symtab, i) / 2
    && (word % 2 == 1 <==>
        i + 1 == |symtab| || SymbolBucket(t, symtab, i) != SymbolBucket(t, symtab, i + 1))
  }

  ghost predicate ChainWords(t: Table, symtab: seq<Symbol>)
    requires Sized(t, symtab)
  {
    forall i | t.symoffset <= i < |symtab| :: ChainWord(t, symtab, i)
  }

  /** `i` is the lowest hashed symbol of bucket `b`. */
  ghost predicate Heads(t: Table, symtab: seq<Symbol>, b: nat, i: nat)
    requires Sized(t, symtab)
  {
    && t.symoffset <= i < |symtab| && SymbolBucket(t, symtab, i) == b
    && forall j | t.symoffset <= j < i :: SymbolBucket(t, symtab, j) != b
  }

  /** A bucket holds its lowest symbol, and 0 when it is empty. */
  ghost predicate BucketWords(t: Table, symtab: seq<Symbol>)
    requires Sized(t, symtab)
  {
    forall b | 0 <= b < |t.buckets| ::
      if t.buckets[b] == 0
      then forall i | t.symoffset <= i < |symtab| :: SymbolBucket(t, symtab, i) != b
      else Heads(t, symtab, b, t.buckets[b])
  }

  ghost predicate WellFormed(t: Table, symtab: seq<Symbol>) {
    && Sized(t, symtab)
    && Grouped(t, symtab) && ChainWords(t, symtab) && BucketWords(t, symtab)
    && forall i | t.symoffset <= i < |symtab| :: Passes(t.bloom, t.shift, HashOf(symtab, i))
  }

  // ---- the lookup ----

  /**
   The linear scan over the hashed symbols. A name that is not there is missed properly unless the filter lets it
   pass into an empty bucket: the program then takes 0 for the index of a symbol.
   */
  function Lookup(t: Table, symtab: seq<Symbol>, name: CString): Answer
    requires Sized(t, symtab)
  {
    match LinearScan(symtab, name, t.symoffset)
    case Some(i) => Found(i)
    case None => if WalksEmptyBucket(t, name) then OutOfTable else Missing
  }

  predicate WalksEmptyBucket(t: Table, name: CString)
    requires |t.bloom| > 0 && |t.buckets| > 0
  {
    Passes(t.bloom, t.shift, Hash(name)) && t.buckets[BucketOf(t, Hash(name))] == 0
  }

  lemma RejectedIsAbsent(t: Table, symtab: seq<Symbol>, name: CString)
    requires WellFormed(t, symtab) && !Passes(t.bloom, t.shift, Hash(name))
    ensures LinearScan(symtab, name, t.symoffset) == None
  {
    hide Passes;
    forall i | t.symoffset <= i < |symtab|
      ensures symtab[i].name != name
    {
      assert Passes(t.bloom, t.shift, HashOf(symtab, i));
    }
  }

  /** Nothing lies before a bucket's first symbol, and nothing at all in an empty bucket. */
  lemma BeforeTheBucket(t: Table, symtab: seq<Symbol>, name: CString)
    requires WellFormed(t, symtab)
    ensures var b := BucketOf(t, Hash(name));
      if t.buckets[b] == 0 then
        LinearScan(symtab, name, t.symoffset) == None
      else
        Heads(t, symtab, b, t.buckets[b]) && forall j | t.symoffset <= j < t.buckets[b] :: symtab[j].name != name
  {
    hide Passes, Hash;
    var b := BucketOf(t, Hash(name));
    assert forall j | t.symoffset <= j < |symtab| && symtab[j].name == name :: SymbolBucket(t, symtab, j) == b;
  }

  /** Behind a terminator no symbol belongs to the bucket any more. */
  lemma BehindTheTerminator(t: Table, symtab: seq<Symbol>, name: CString, idx: nat)
    requires WellFormed(t, symtab) && t.symoffset <= idx < |symtab|
    requires SymbolBucket(t, symtab, idx) == BucketOf(t, Hash(name))
    requires t.chains[idx - t.symoffset] % 2 == 1
    ensures forall j | idx < j < |symtab| :: symtab[j].name != name
  {
    hide Passes, Hash, BucketOf;
    forall j | idx < j < |symtab|
      ensures symtab[j].name != name
    {
      assert SymbolBucket(t, symtab, idx + 1) <= SymbolBucket(t, symtab, j);
      assert ChainWord(t, symtab, idx);
      assert SymbolBucket(t, symtab, idx + 1) > SymbolBucket(t, symtab, idx);
    }
  }

  method Find(t: Table, symtab: seq<Symbol>, name: CString) returns (r: Answer)
    requires WellFormed(t, symtab)
    ensures r == Lookup(t, symtab, name)
    ensures r.Found? ==> t.symoffset <= r.index < |symtab| && symtab[r.index].name == name
    ensures r.Found? ==> forall i | t.symoffset <= i < r.index :: symtab[i].name != name
    ensures !r.Found? ==> forall i | t.symoffset <= i < |symtab| :: symtab[i].name != name
    ensures r.OutOfTable? <==>
      !r.Found? && Passes(t.bloom, t.shift, Hash(name)) && t.buckets[Hash(name) % |t.buckets|] == 0
  {
    hide HasBit, WordOf, FirstBit, SecondBit, Hash;
    var h := GnuHash.Compute(name);
    var word := t.bloom[WordOf(h, |t.bloom|)];
    if !HasBit(word, FirstBit(h)) || !HasBit(word, SecondBit(h, t.shift)) {
      RejectedIsAbsent(t, symtab, name);
      return Missing;
    }
    BeforeTheBucket(t, symtab, name);
    var idx: nat := t.buckets[BucketOf(t, h)];
    if idx < t.symoffset {
      return OutOfTable;
    }
    while true
      invariant t.symoffset <= idx < |symtab| && SymbolBucket(t, symtab, idx) == BucketOf(t, h)
      invariant forall j | t.symoffset <= j < idx :: symtab[j].name != name
      decreases |symtab| - idx
    {
      var chainhash := t.chains[idx - t.symoffset];
      if chainhash / 2 == h / 2 {
        var same := Streq(symtab[idx].name, name);
        if same {
          LowestIsScanned(symtab, name, t.symoffset, idx);
          return Found(idx);
        }
      }
      assert ChainWord(t, symtab, idx);
      if chainhash % 2 == 1 {
        BehindTheTerminator(t, symtab, name, idx);
        return Missing;
      }
      idx := idx + 1;
    }
  }

  lemma TwoNames()
    ensures Hash("a") == 177670 && Hash("s") == 177688 && Power2(6) == 64
    ensures HasBit(0x100_0040, 6) && HasBit(0x100_0040, 24)
  {
    assert Hash("a") == 177670 && Hash("s") == 177688;
    assert Power2(6) == 64;
    hide Hash;
    assert HasBit(0x100_0040, 6) && HasBit(0x100_0040, 24);
  }

  /** A well-formed section and an absent name on which the chain walk leaves the section. */
  lemma EmptyBucketIsWalked() returns (t: Table, symtab: seq<Symbol>, name: CString)
    ensures WellFormed(t, symtab) && LinearScan(symtab, name, 0) == None
    ensures Lookup(t, symtab, name) == OutOfTable
  {
    name := "s";
    symtab := [Symbol([], 0, 0), Symbol("a", 16, 8)];
    t := Table(1, 6, [0x100_0040], [0, 0, 1, 0], [177671]);
    TwoNames();
    hide Hash, Power2, HasBit;
    assert Passes(t.bloom, t.shift, 177670) && Passes(t.bloom, t.shift, 177688);
    hide Passes;
    assert HashOf(symtab, 1) == 177670;
    assert SymbolBucket(t, symtab, 1) == 2;
  }
}
