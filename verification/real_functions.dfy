/** Finding the real definition of a function over the loaded modules. */
module RealFunctions {
  import opened Bytes
  import opened Vitals
  import opened SymbolTables
  import GnuTable
  import SysvTable

  /** What a loaded module's dynamic section offers; `rank` witnesses that the SysV chains are not circular. */
  datatype Library = Library(
    base: nat,
    symtab: Option<seq<Symbol>>,
    gnu: Option<GnuTable.Table>,
    sysv: Option<SysvTable.Table>)

  type Ranks = seq<seq<nat>>

  /** Outside: some lookup left its hash section, so the result is undefined. */
  datatype Address = At(address: nat) | Null | Outside

  ghost predicate ValidLibrary(lib: Library, rank: seq<nat>) {
    lib.symtab.Some? ==>
      && (lib.gnu.Some? ==> GnuTable.WellFormed(lib.gnu.value, lib.symtab.value))
      && (lib.sysv.Some? ==>
            SysvTable.Acyclic(lib.sysv.value, rank) && |lib.symtab.value| == |lib.sysv.value.chains|)
  }

  ghost predicate Valid(libs: seq<Library>, ranks: Ranks) {
    && |ranks| == |libs|
    && forall m | 0 <= m < |libs| :: ValidLibrary(libs[m], ranks[m])
  }

  /** The answer of one module: its GNU index whenever it has one, its SysV index otherwise. */
  ghost function SymbolIn(lib: Library, rank: seq<nat>, name: CString): (r: GnuTable.Answer)
    requires ValidLibrary(lib, rank)
    ensures r.Found? ==> lib.symtab.Some? && r.index < |lib.symtab.value| && lib.symtab.value[r.index].name == name
  {
    if lib.symtab.None? then GnuTable.Missing
    else if lib.gnu.Some? then GnuTable.Lookup(lib.gnu.value, lib.symtab.value, name)
    else if lib.sysv.Some? then
      match SysvTable.Lookup(lib.sysv.value, rank, lib.symtab.value, name)
      case Some(i) => GnuTable.Found(i)
      case None => GnuTable.Missing
    else GnuTable.Missing
  }

  method LookupDyn(lib: Library, name: CString, ghost rank: seq<nat>) returns (r: GnuTable.Answer)
    requires ValidLibrary(lib, rank)
    ensures r == SymbolIn(lib, rank, name)
    ensures lib.symtab.None? ==> r == GnuTable.Missing
    ensures lib.symtab.Some? && lib.gnu.Some? ==> r == GnuTable.Lookup(lib.gnu.value, lib.symtab.value, name)
    ensures lib.symtab.Some? && lib.gnu.None? && lib.sysv.Some? ==>
      var si := SysvTable.Lookup(lib.sysv.value, rank, lib.symtab.value, name);
      if si.Some? then r == GnuTable.Found(si.value) else r == GnuTable.Missing
    ensures lib.gnu.None? && lib.sysv.None? ==> r == GnuTable.Missing
  {
    hide GnuTable.Lookup, SysvTable.Lookup, GnuTable.WellFormed;
    if lib.symtab.None? {
      return GnuTable.Missing;
    }
    if lib.gnu.Some? {
      r := GnuTable.Find(lib.gnu.value, lib.symtab.value, name);
      return;
    }
    if lib.sysv.Some? {
      var si := SysvTable.Find(lib.sysv.value, lib.symtab.value, name, rank);
      return if si.Some? then GnuTable.Found(si.value) else GnuTable.Missing;
    }
    return GnuTable.Missing;
  }

  /** The symbol's value plus the load address of its module, as the 64-bit addition yields it. */
  function AddressOf(lib: Library, index: nat): Address
    requires lib.symtab.Some? && index < |lib.symtab.value|
  {
    At((lib.symtab.value[index].value + lib.base) % SIZE_LIMIT)
  }

  /** Modules whose lookup yields nothing, or a symbol of size 0, are passed over. */
  ghost function RealAddress(libs: seq<Library>, ranks: Ranks, name: CString): Address
    requires Valid(libs, ranks)
  {
    if libs == [] then Null
    else
      assert ValidLibrary(libs[0], ranks[0]);
      var r := SymbolIn(libs[0], ranks[0], name);
      if r.OutOfTable? then Outside
      else if r.Found? && libs[0].symtab.value[r.index].size != 0 then AddressOf(libs[0], r.index)
      else RealAddress(libs[1..], ranks[1..], name)
  }

  /**
   The walk over the loaded modules. Module `at` decides: its symbol has a size, and the address is the symbol's value
   plus the load address, modulo 2^64; those in front of it have no such symbol.
   */
  method GetRealFn(libs: seq<Library>, name: CString, ghost ranks: Ranks) returns (r: Address, ghost at: nat)
    requires Valid(libs, ranks)
    ensures r == RealAddress(libs, ranks, name)
    ensures at <= |libs| && (r == Null <==> at == |libs|)
    ensures forall k | 0 <= k < at ::
      var a := SymbolIn(libs[k], ranks[k], name);
      !a.OutOfTable? && (a.Found? ==> libs[k].symtab.value[a.index].size == 0)
    ensures at < |libs| ==>
      var a := SymbolIn(libs[at], ranks[at], name);
      && (r == Outside <==> a.OutOfTable?)
      && (r != Outside ==>
            && a.Found? && libs[at].symtab.value[a.index].size > 0
            && var sum := libs[at].symtab.value[a.index].value + libs[at].base;
               r.At? && r.address < SIZE_LIMIT && (sum - r.address) % SIZE_LIMIT == 0
               && (sum < SIZE_LIMIT ==> r.address == sum))
  {
    hide SymbolIn, ValidLibrary;
    var lm := 0;
    while lm < |libs|
      invariant lm <= |libs|
      invariant RealAddress(libs[lm..], ranks[lm..], name) == RealAddress(libs, ranks, name)
      invariant forall k | 0 <= k < lm ::
        var a := SymbolIn(libs[k], ranks[k], name);
        !a.OutOfTable? && (a.Found? ==> libs[k].symtab.value[a.index].size == 0)
    {
      assert libs[lm..][1..] == libs[lm + 1..] && ranks[lm..][1..] == ranks[lm + 1..];
      var sym := LookupDyn(libs[lm], name, ranks[lm]);
      if sym.OutOfTable? {
        return Outside, lm;
      }
      if sym.Found? && libs[lm].symtab.value[sym.index].size != 0 {
        return AddressOf(libs[lm], sym.index), lm;
      }
      lm := lm + 1;
    }
    return Null, lm;
  }

  // ---- the reference: a linear scan per module ----

  /** The symbols an index covers: GNU sections only those from their offset on, SysV ones all but index 0. */
  function ScanIn(lib: Library, name: CString): Option<nat> {
    if lib.symtab.None? then None
    else if lib.gnu.Some? then LinearScan(lib.symtab.value, name, lib.gnu.value.symoffset)
    else if lib.sysv.Some? then LinearScan(lib.symtab.value, name, 1)
    else None
  }

  /** A GNU walk stays in its section; a SysV index was built properly over distinct names, and the hashes agree. */
  ghost predicate Faithful(lib: Library, rank: seq<nat>, name: CString)
    requires ValidLibrary(lib, rank)
  {
    lib.symtab.Some? ==>
      if lib.gnu.Some? then !GnuTable.WalksEmptyBucket(lib.gnu.value, name)
      else lib.sysv.Some? ==>
        && NamesDiffer(lib.symtab.value)
        && SysvTable.Built(lib.sysv.value, rank, lib.symtab.value)
        && SysvTable.BucketsAgree(lib.sysv.value, name)
  }

  /** Either index answers as the linear scan. */
  lemma IndexIsLinearScan(lib: Library, rank: seq<nat>, name: CString)
    requires ValidLibrary(lib, rank) && Faithful(lib, rank, name)
    ensures SymbolIn(lib, rank, name)
         == match ScanIn(lib, name)
            case Some(i) => GnuTable.Found(i)
            case None => GnuTable.Missing
  {
    hide GnuTable.WalksEmptyBucket, SysvTable.BucketsAgree, SysvTable.Lookup;
    if lib.symtab.Some? && lib.gnu.None? && lib.sysv.Some? {
      SysvTable.LookupIsLinearScan(lib.sysv.value, rank, lib.symtab.value, name);
    }
  }

  /** The linear scan of the module yields a symbol of non-zero size. */
  predicate ScanDefines(lib: Library, name: CString) {
    var i := ScanIn(lib, name);
    i.Some? && lib.symtab.value[i.value].size != 0
  }

  /** The 64-bit sum of the load address and the value of the symbol that the scan of the module yields. */
  predicate LiesIn(lib: Library, name: CString, r: Address)
    requires ScanDefines(lib, name)
  {
    var sum := lib.symtab.value[ScanIn(lib, name).value].value + lib.base;
    r.At? && r.address < SIZE_LIMIT && (sum - r.address) % SIZE_LIMIT == 0
  }

  /** `r` is the address in the first module that defines the name, NULL when none does. */
  ghost predicate FirstDefinition(libs: seq<Library>, name: CString, r: Address) {
    || (r == Null && forall k | 0 <= k < |libs| :: !ScanDefines(libs[k], name))
    || exists m | 0 <= m < |libs| ::
         && ScanDefines(libs[m], name) && LiesIn(libs[m], name, r)
         && forall k | 0 <= k < m :: !ScanDefines(libs[k], name)
  }

  lemma DefinitionBehind(libs: seq<Library>, name: CString, r: Address)
    requires libs != [] && !ScanDefines(libs[0], name) && FirstDefinition(libs[1..], name, r)
    ensures FirstDefinition(libs, name, r)
  {
    var rest := libs[1..];
    if r == Null && forall k | 0 <= k < |rest| :: !ScanDefines(rest[k], name) {
      assert forall k | 0 < k < |libs| :: libs[k] == rest[k - 1];
    } else {
      var m :| && 0 <= m < |rest| && ScanDefines(rest[m], name)
               && LiesIn(rest[m], name, r)
               && forall k | 0 <= k < m :: !ScanDefines(rest[k], name);
      hide ScanDefines, ScanIn, LiesIn;
      assert libs[m + 1] == rest[m];
      assert forall k | 0 < k < m + 1 :: libs[k] == rest[k - 1];
    }
  }

  /** No module before the `m`th defines the name. */
  predicate ReachesModule(libs: seq<Library>, name: CString, m: nat)
    requires m <= |libs|
  {
    forall k | 0 <= k < m :: !ScanDefines(libs[k], name)
  }

  /**
   With faithful indexes up to the first module that defines the name, the walk returns what linear scans in module
   order would.
   */
  lemma {:induction false} WalkIsLinearScan(libs: seq<Library>, ranks: Ranks, name: CString)
    requires Valid(libs, ranks)
    requires forall m | 0 <= m < |libs| && ReachesModule(libs, name, m) :: Faithful(libs[m], ranks[m], name)
    ensures FirstDefinition(libs, name, RealAddress(libs, ranks, name))
  {
    if libs != [] {
      assert ReachesModule(libs, name, 0);
      IndexIsLinearScan(libs[0], ranks[0], name);
      if ScanDefines(libs[0], name) {
        hide SymbolIn, ValidLibrary, Faithful, ScanIn;
        assert LiesIn(libs[0], name, AddressOf(libs[0], ScanIn(libs[0], name).value));
      } else {
        hide SymbolIn, ValidLibrary, Faithful, ScanIn, ScanDefines, AddressOf, FirstDefinition;
        forall m | 0 <= m < |libs[1..]| && ReachesModule(libs[1..], name, m)
          ensures Faithful(libs[1..][m], ranks[1..][m], name)
        {
          assert forall k | 0 < k < m + 1 :: libs[k] == libs[1..][k - 1];
          assert ReachesModule(libs, name, m + 1);
        }
        WalkIsLinearScan(libs[1..], ranks[1..], name);
        DefinitionBehind(libs, name, RealAddress(libs[1..], ranks[1..], name));
      }
    }
  }
}
