/** Lookup through the bucket and chain index of the System V gABI, chapter 5, "Hash Table". */
module SysvTable {
  import opened Bytes
  import opened Vitals
  import opened ElfHash
  import opened SymbolTables

  datatype Table = Table(buckets: seq<nat>, chains: seq<nat>)

  const STN_UNDEF: nat := 0

  /** Links stay inside the symbol table, and following one always lowers the rank, so no chain is circular. */
  ghost predicate Acyclic(t: Table, rank: seq<nat>) {
    && |t.buckets| > 0
    && |rank| == |t.chains| > 0
    && (forall b | 0 <= b < |t.buckets| :: t.buckets[b] < |t.chains|)
    && (forall i | 0 < i < |t.chains| :: t.chains[i] < |t.chains|)
    && (forall i | 0 < i < |t.chains| && t.chains[i] != STN_UNDEF :: rank[t.chains[i]] < rank[i])
  }

  /** The indices visited from `si` on. */
  ghost function Chain(t: Table, rank: seq<nat>, si: nat): seq<nat>
    requires Acyclic(t, rank) && si < |t.chains|
    decreases rank[si]
  {
    if si == STN_UNDEF then [] else
      [si] + if t.chains[si] == STN_UNDEF then [] else Chain(t, rank, t.chains[si])
  }

  predicate Inside(chain: seq<nat>, n: nat) {
    forall k | 0 <= k < |chain| :: 0 < chain[k] < n
  }

  lemma {:induction false} ChainsHoldSymbols(t: Table, rank: seq<nat>, si: nat)
    requires Acyclic(t, rank) && si < |t.chains|
    ensures Inside(Chain(t, rank, si), |t.chains|)
    decreases rank[si]
  {
    if si != STN_UNDEF && t.chains[si] != STN_UNDEF {
      ChainsHoldSymbols(t, rank, t.chains[si]);
    }
  }

  /** The first index along a chain that carries the name. */
  function FirstNamed(symtab: seq<Symbol>, chain: seq<nat>, name: CString): (r: Option<nat>)
    requires Inside(chain, |symtab|)
    ensures r.Some? ==> r.value in chain && r.value < |symtab| && symtab[r.value].name == name
    ensures r.None? ==> forall k | 0 <= k < |chain| :: symtab[chain[k]].name != name
  {
    if chain == [] then None
    else if symtab[chain[0]].name == name then Some(chain[0])
    else FirstNamed(symtab, chain[1..], name)
  }

  function Bucket(h: bv64, nbuckets: nat): (b: nat)
    requires nbuckets > 0
    ensures b < nbuckets
  {
    h as int % nbuckets
  }

  /** The chain the lookup of a name walks: its bucket is chosen with the 64-bit hash. */
  ghost function Searched(t: Table, rank: seq<nat>, name: CString): seq<nat>
    requires Acyclic(t, rank)
  {
    Chain(t, rank, t.buckets[Bucket(Hash64(Codes(name)), |t.buckets|)])
  }

  ghost function Lookup(t: Table, rank: seq<nat>, symtab: seq<Symbol>, name: CString): Option<nat>
    requires Acyclic(t, rank) && |symtab| == |t.chains|
  {
    ChainsHoldSymbols(t, rank, t.buckets[Bucket(Hash64(Codes(name)), |t.buckets|)]);
    FirstNamed(symtab, Searched(t, rank, name), name)
  }

  method Find(t: Table, symtab: seq<Symbol>, name: CString, ghost rank: seq<nat>) returns (r: Option<nat>)
    requires Acyclic(t, rank) && |symtab| == |t.chains|
    ensures r == Lookup(t, rank, symtab, name)
  {
    hide Bucket, Hash64;
    var h := ElfHash.Compute(name);
    var si: nat := t.buckets[Bucket(h, |t.buckets|)];
    ChainsHoldSymbols(t, rank, si);
    while si != STN_UNDEF
      invariant si < |t.chains|
      invariant Inside(Chain(t, rank, si), |t.chains|)
      invariant FirstNamed(symtab, Chain(t, rank, si), name) == Lookup(t, rank, symtab, name)
      decreases if si == STN_UNDEF then 0 else rank[si] + 1
    {
      var here := Streq(symtab[si].name, name);
      if here {
        return Some(si);
      }
      assert Chain(t, rank, si)[1..] == Chain(t, rank, t.chains[si]);
      ChainsHoldSymbols(t, rank, t.chains[si]);
      si := t.chains[si];
    }
    return None;
  }

  // ---- the walk, link by link ----

  /** From the bucket on, every index is followed by the one its chain word names, up to the undefined symbol. */
  predicate IsWalk(t: Table, path: seq<nat>, b: nat)
    requires b < |t.buckets|
  {
    && path != [] && path[0] == t.buckets[b] && path[|path| - 1] == STN_UNDEF
    && forall k | 0 <= k < |path| - 1 ::
         STN_UNDEF != path[k] < |t.chains| && path[k + 1] == t.chains[path[k]]
  }

  /** The chain of an index, with the undefined symbol at its end. */
  lemma {:induction false} ChainIsWalked(t: Table, rank: seq<nat>, path: seq<nat>)
    requires Acyclic(t, rank) && path != [] && path[0] < |t.chains| && path[|path| - 1] == STN_UNDEF
    requires forall k | 0 <= k < |path| - 1 :: STN_UNDEF != path[k] < |t.chains| && path[k + 1] == t.chains[path[k]]
    ensures Chain(t, rank, path[0]) + [STN_UNDEF] == path
    decreases |path|
  {
    if |path| > 1 {
      assert path[1..][0] == path[1] == t.chains[path[0]];
      ChainIsWalked(t, rank, path[1..]);
      assert path == [path[0]] + path[1..];
    }
  }

  lemma {:induction false} FirstOnPath(symtab: seq<Symbol>, chain: seq<nat>, name: CString, k: nat)
    requires Inside(chain, |symtab|) && k < |chain| && symtab[chain[k]].name == name
    requires forall j | 0 <= j < k :: symtab[chain[j]].name != name
    ensures FirstNamed(symtab, chain, name) == Some(chain[k])
  {
    if k > 0 {
      FirstOnPath(symtab, chain[1..], name, k - 1);
    }
  }

  /**
   What the lookup finds, link by link: with `n` buckets and a hash of `q * n + b`, it is the first symbol of that name
   on the walk from bucket `b`.
   */
  lemma LookupWalks(t: Table, rank: seq<nat>, symtab: seq<Symbol>, name: CString, q: nat, b: nat, path: seq<nat>)
    requires Acyclic(t, rank) && |symtab| == |t.chains| && b < |t.buckets|
    requires Hash64(Codes(name)) as int == q * |t.buckets| + b && IsWalk(t, path, b)
    ensures forall k | 0 <= k < |path| - 1 && symtab[path[k]].name == name ::
      (forall j | 0 <= j < k :: symtab[path[j]].name != name) ==> Lookup(t, rank, symtab, name) == Some(path[k])
    ensures (forall k | 0 <= k < |path| - 1 :: symtab[path[k]].name != name) ==> Lookup(t, rank, symtab, name) == None
  {
    hide Hash64, Codes;
    Divided(Hash64(Codes(name)) as int, |t.buckets|, q, b);
    ChainIsWalked(t, rank, path);
    ChainsHoldSymbols(t, rank, path[0]);
    var chain := Searched(t, rank, name);
    assert chain == path[..|path| - 1];
    forall k | && 0 <= k < |chain| && symtab[chain[k]].name == name
               && forall j | 0 <= j < k :: symtab[chain[j]].name != name
      ensures Lookup(t, rank, symtab, name) == Some(chain[k])
    {
      FirstOnPath(symtab, chain, name, k);
    }
  }

  /** Every bucket has such a walk. */
  lemma {:induction false} WalkExists(t: Table, rank: seq<nat>, b: nat) returns (path: seq<nat>)
    requires Acyclic(t, rank) && b < |t.buckets|
    ensures IsWalk(t, path, b)
  {
    path := [t.buckets[b]];
    while path[|path| - 1] != STN_UNDEF
      invariant path != [] && path[0] == t.buckets[b] && path[|path| - 1] < |t.chains|
      invariant forall k | 0 <= k < |path| - 1 ::
        STN_UNDEF != path[k] < |t.chains| && path[k + 1] == t.chains[path[k]]
      decreases if path[|path| - 1] == STN_UNDEF then 0 else rank[path[|path| - 1]] + 1
    {
      path := path + [t.chains[path[|path| - 1]]];
    }
  }

  // ---- tables as linkers build them ----

  /** Every symbol sits in the chain of the bucket its 32-bit hash selects, and in no other. */
  ghost predicate Built(t: Table, rank: seq<nat>, symtab: seq<Symbol>) {
    && Acyclic(t, rank)
    && |symtab| == |t.chains|
    && forall b, i | 0 <= b < |t.buckets| && 0 < i < |symtab| ::
         i in Chain(t, rank, t.buckets[b]) <==> Hash32(Codes(symtab[i].name)) as int % |t.buckets| == b
  }

  /** Both hashes of the name select the same bucket. */
  predicate BucketsAgree(t: Table, name: CString)
    requires |t.buckets| > 0
  {
    Hash64(Codes(name)) as int % |t.buckets| == Hash32(Codes(name)) as int % |t.buckets|
  }

  /** A name is found exactly when it is defined and both hashes agree on its bucket. */
  lemma FoundWhenBucketsAgree(t: Table, rank: seq<nat>, symtab: seq<Symbol>, name: CString)
    requires Built(t, rank, symtab)
    ensures var r := Lookup(t, rank, symtab, name);
      && (r.Some? <==> Defined(symtab, name) && BucketsAgree(t, name))
      && (r.Some? ==> 0 < r.value < |symtab| && symtab[r.value].name == name)
  {
    hide Hash64, Hash32, Codes;
    var b := Bucket(Hash64(Codes(name)), |t.buckets|);
    ChainsHoldSymbols(t, rank, t.buckets[b]);
    var scan := LinearScan(symtab, name, 1);
    if scan.Some? {
      assert scan.value in Searched(t, rank, name) <==> BucketsAgree(t, name);
    }
  }

  /** With one symbol per name the lookup is the linear scan, except for a name whose hashes disagree on the bucket. */
  lemma LookupIsLinearScan(t: Table, rank: seq<nat>, symtab: seq<Symbol>, name: CString)
    requires Built(t, rank, symtab) && NamesDiffer(symtab)
    ensures Lookup(t, rank, symtab, name) == if BucketsAgree(t, name) then LinearScan(symtab, name, 1) else None
  {
    hide BucketsAgree;
    FoundWhenBucketsAgree(t, rank, symtab, name);
  }

  /** A defined name is found whenever none of its last eight characters makes the 64-bit hash carry. */
  lemma CarryFreeNamesAreFound(t: Table, rank: seq<nat>, symtab: seq<Symbol>, name: CString)
    requires Built(t, rank, symtab)
    requires forall k | 0 <= k < |name| && |name| - 8 <= k :: !Carries(Codes(name), k)
    ensures Lookup(t, rank, symtab, name).Some? <==> Defined(symtab, name)
  {
    hide Hash64, Hash32, Carries, Lookup;
    FoundWhenBucketsAgree(t, rank, symtab, name);
    HashesAgree(Codes(name));
  }

  /** A correctly built table in which the lookup misses a defined name: the hashes 0x100000002 and 2 disagree. */
  lemma CarryingNameIsMissed(name: CString) returns (t: Table, rank: seq<nat>, symtab: seq<Symbol>)
    requires Codes(name) == [0xff, 0x0f, 0x0f, 0x0f, 0x0f, 0x0f, 0x12]
    ensures Built(t, rank, symtab) && Defined(symtab, name)
    ensures Lookup(t, rank, symtab, name) == None
  {
    t, rank, symtab := Table([0, 0, 1], [0, 0]), [0, 0], [Symbol([], 0, 0), Symbol(name, 16, 8)];
    HashCanExceed32Bits();
    hide Hash64, Hash32, Codes;
    assert Bucket(0x1_0000_0002, 3) == 0 && Bucket(2, 3) == 2;
    hide Bucket;
    assert Chain(t, rank, 1) == [1];
    assert Chain(t, rank, 0) == [];
    assert symtab[1].name == name;
    FoundWhenBucketsAgree(t, rank, symtab, name);
  }
}
