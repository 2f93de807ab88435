/** A dynamic symbol table, and the linear scan that every index over it has to agree with. */
module SymbolTables {
  import opened Bytes
  import opened Vitals

  datatype Symbol = Symbol(name: CString, value: nat, size: nat)

  /** The lowest index from `from` on that carries the name. */
  function LinearScan(symtab: seq<Symbol>, name: CString, from: nat): (r: Option<nat>)
    ensures r.Some? ==> from <= r.value < |symtab| && symtab[r.value].name == name
    ensures r.Some? ==> forall i | from <= i < r.value :: symtab[i].name != name
    ensures r.None? ==> forall i | from <= i < |symtab| :: symtab[i].name != name
    decreases |symtab| - from
  {
    if from >= |symtab| then None
    else if symtab[from].name == name then Some(from)
    else LinearScan(symtab, name, from + 1)
  }

  lemma LowestIsScanned(symtab: seq<Symbol>, name: CString, from: nat, k: nat)
    requires from <= k < |symtab| && symtab[k].name == name
    requires forall i | from <= i < k :: symtab[i].name != name
    ensures LinearScan(symtab, name, from) == Some(k)
  {
  }

  /** Some symbol carries the name; index 0 is the undefined symbol and never counts. */
  predicate Defined(symtab: seq<Symbol>, name: CString) {
    LinearScan(symtab, name, 1).Some?
  }

  predicate NamesDiffer(symtab: seq<Symbol>) {
    forall i, j | 1 <= i < j < |symtab| :: symtab[i].name != symtab[j].name
  }
}
