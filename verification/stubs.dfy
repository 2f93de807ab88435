/** Stub objects: the heap blocks they own, the table slots they patch, and their words in the machine's memory. */
module Stubs {
  import opened Bytes
  import opened CHeap
  import opened Context
  import opened Machine
  import opened Transparency
  import opened Vitals
  import Got
  import Targets

  /**
   The slots a lookup in one module found, and the addresses the system gives: of the code in the trampoline's page,
   and of the stub's struct.
   */
  datatype Site = Site(places: seq<nat>, trampoline: Pointer, address: Pointer)

  /** What a page holds behind the header: the code fits in there. */
  const PAGE_REST: nat := 0xff0

  /** The words the library writes for a stub: the header in front of the code, and the first fields of the struct. */
  function WordsOf(trampoline: Pointer, address: Pointer): set<int> {
    {trampoline - 0x10 as int, trampoline - 8 as int, address as int, address + 8 as int, address + 0x10 as int,
     address + 0x18 as int}
  }

  function SiteWords(site: Site): set<int> {
    WordsOf(site.trampoline, site.address)
  }

  class Stub {
    const ctx: object?
    const name: array<char>
    const path: Option<CString>
    const offsets: array<Got.PltOffset>
    const trampoline: Pointer
    const address: Pointer
    ghost const routine: Pointer
    var next: Stub?

    constructor (ctx: object?, name: array<char>, path: Option<CString>, offsets: array<Got.PltOffset>,
                 trampoline: Pointer, address: Pointer, ghost routine: Pointer)
      ensures this.ctx == ctx && this.name == name && this.path == path && this.offsets == offsets
      ensures this.trampoline == trampoline && this.address == address && this.routine == routine && next == null
    {
      this.ctx := ctx;
      this.name := name;
      this.path := path;
      this.offsets := offsets;
      this.trampoline := trampoline;
      this.address := address;
      this.routine := routine;
      this.next := null;
    }

    ghost function Blocks(): (blocks: set<object>) {
      {this, name, offsets}
    }

    /** The stub as the table sees it. */
    ghost function Hook(): Got.Stub
      reads offsets
    {
      Got.Stub(offsets[..], trampoline)
    }

    ghost function Words(): set<int> {
      WordsOf(trampoline, address)
    }
  }

  /** The system's promise: the words are not in use, they do not overlap, and none of them lies in the stack. */
  predicate FreshSite(sys: System, reserved: set<int>, site: Site) {
    var t, a := site.trampoline as int, site.address as int;
    && 0x10 <= t && t + PAGE_REST <= SIZE_LIMIT && a + 0x20 <= SIZE_LIMIT
    && {t - 0x10, t - 8} !! {a, a + 8, a + 0x10, a + 0x18}
    && SiteWords(site) !! reserved
    && forall w <- SiteWords(site) :: w < sys.bottom || w >= sys.top
  }

  /** The stub's words in memory: its header names it and its routine, its struct the entry points and its mock. */
  ghost predicate Loaded(sys: System, mem: Memory, s: Stub, ctx: Pointer) {
    && InPlace(sys, mem, s.trampoline, s.address, s.routine) && s.trampoline + PAGE_REST <= SIZE_LIMIT
    && LiesAt(sys, mem, s.address + 0x18, ctx)
  }

  /** Memory has not changed outside these words. */
  ghost predicate OnlyWords(before: Memory, after: Memory, words: set<int>) {
    forall a | a !in words :: Fetch(after, a) == Fetch(before, a)
  }

  /** The fields of the stub's struct and the trampoline's page, in memory. */
  method WriteWords(m: Processor, sys: System, site: Site, ctx: Pointer, routine: Pointer)
    requires FreshSite(sys, m.reserved, site)
    modifies m`mem, m`reserved
    ensures InPlace(sys, m.mem, site.trampoline, site.address, routine) && site.trampoline + PAGE_REST <= SIZE_LIMIT
    ensures LiesAt(sys, m.mem, site.address + 0x18, ctx)
    ensures OnlyWords(old(m.mem), m.mem, SiteWords(site)) && m.reserved == old(m.reserved) + SiteWords(site)
  {
    var a := site.address as int;
    m.mem := m.mem[a := sys.ctxAsked][a + 8 := sys.setCtx][a + 0x10 := sys.getCtx][a + 0x18 := ctx];
    var start := CreateTrampoline(m, site.trampoline - 0x10, site.address, routine);
    m.reserved := m.reserved + SiteWords(site);
  }

  /** The name in front of the '@', terminated. */
  ghost predicate Named(name: array<char>, target: CString)
    reads name
  {
    var n := |Targets.Split(target).0|;
    n < name.Length && name[..n] == Targets.Split(target).0 && name[n] == '\0'
  }

  method CopyTarget(heap: Heap, target: CString) returns (name: array<char>, path: Option<CString>)
    modifies heap
    ensures fresh(name) && heap.live == old(heap.live) + {name}
    ensures Named(name, target) && path == Targets.StubPath(target)
  {
    name := new char[|target| + 1];
    heap.Allocated(name);
    heap.Use(name);
    path := Targets.CutName(name, target);
  }

  /** The search for the library begins with reading the path; what it finds is given by the site. */
  method LookUp(target: CString, path: Option<CString>) returns (panicked: bool)
    requires path == Targets.StubPath(target)
    ensures panicked <==> Targets.Unreadable(target)
  {
    if path.None? {
      return false;
    }
    var selector := Targets.GetSelector(path.value);
    return selector.None?;
  }

  /**
   Creates a stub for a target; a lookup that found nothing means failure, and one for a scope that cannot be read ends
   the program in a panic. When creation fails, the copy of the name is not freed. Both thread-local variables are
   cleared in any case.
   */
  method Create(heap: Heap, slots: array<Got.Fn>, m: Processor, sys: System, target: CString, ctx: object?,
                ctxAddress: Pointer, routine: Pointer, site: Site)
    returns (stub: Stub?, panicked: bool, ghost leaked: object)
    requires Got.PlacesIn(slots[..], site.places)
    requires site.places != [] ==> FreshSite(sys, m.reserved, site)
    modifies heap, slots, m`mem, m`tls, m`reserved
    ensures m.tls == Tls(0, NULL)
    ensures panicked <==> Targets.Unreadable(target)
    ensures stub == null <==> panicked || site.places == []
    ensures stub == null ==>
      && fresh(leaked) && slots[..] == old(slots[..]) && heap.live == old(heap.live) + {leaked}
      && m.mem == old(m.mem) && m.reserved == old(m.reserved)
    ensures stub != null ==>
      && fresh(stub) && fresh(stub.Blocks()) && heap.live == old(heap.live) + stub.Blocks() && stub in heap.live
      && (slots[..], stub.Hook()) == Got.Create(old(slots[..]), site.places, site.trampoline)
      && stub.ctx == ctx && stub.next == null && stub.path == Targets.StubPath(target)
      && stub.trampoline == site.trampoline && stub.address == site.address && stub.routine == routine
      && Named(stub.name, target)
    ensures stub != null ==>
      && Loaded(sys, m.mem, stub, ctxAddress) && OnlyWords(old(m.mem), m.mem, SiteWords(site))
      && m.reserved == old(m.reserved) + SiteWords(site) && stub.Words() == SiteWords(site)
  {
    hide Loaded, InPlace, LiesAt, OnlyWords, FreshSite, SiteWords, Named, Targets.StubPath, Targets.Unreadable;
    m.tls := Tls(0, NULL);
    var name, path := CopyTarget(heap, target);
    leaked := name;
    panicked := LookUp(target, path);
    if panicked {
      return null, true, name;
    }
    if |site.places| == 0 {
      return null, false, name;
    }
    var offsets := NewOffsets(heap, site.places);
    stub := new Stub(ctx, name, path, offsets, site.trampoline, site.address, routine);
    heap.Allocated(stub);
    WriteWords(m, sys, site, ctxAddress, routine);
    LoadedNow(sys, m.mem, stub, site, ctxAddress);
    heap.Use(offsets);
    Got.SetOffsets(slots, offsets, offsets.Length, site.trampoline);
  }

  lemma LoadedNow(sys: System, mem: Memory, s: Stub, site: Site, ctx: Pointer)
    requires s.trampoline == site.trampoline && s.address == site.address && s.trampoline + PAGE_REST <= SIZE_LIMIT
    requires InPlace(sys, mem, s.trampoline, s.address, s.routine) && LiesAt(sys, mem, s.address + 0x18, ctx)
    ensures Loaded(sys, mem, s, ctx) && s.Words() == SiteWords(site)
  {
  }

  method NewOffsets(heap: Heap, places: seq<nat>) returns (offsets: array<Got.PltOffset>)
    modifies heap
    ensures fresh(offsets) && offsets[..] == Got.Fresh(places) && heap.live == old(heap.live) + {offsets}
  {
    offsets := new Got.PltOffset[|places|](i requires 0 <= i < |places| => Got.PltOffset(places[i], 0));
    heap.Allocated(offsets);
  }

  /**
   Resets the slots and gives back the three blocks; the words in memory may be handed out again. The invalid stub,
   which is NULL, crashes the program.
   */
  method Destroy(heap: Heap, slots: array<Got.Fn>, m: Processor, stub: Stub?) returns (crashed: bool)
    requires stub != null ==>
      && slots as object != stub.offsets && Got.InTable(slots[..], stub.Hook().offsets) && stub.Blocks() <= heap.live
    modifies heap, slots, m`reserved
    ensures crashed <==> stub == null
    ensures crashed ==>
      slots[..] == old(slots[..]) && heap.live == old(heap.live) && m.reserved == old(m.reserved)
    ensures !crashed ==>
      && slots[..] == Got.Destroy(old(slots[..]), stub.Hook())
      && heap.live == old(heap.live) - stub.Blocks() && m.reserved == old(m.reserved) - stub.Words()
  {
    crashed := stub == null;
    if crashed {
      return;
    }
    heap.Use(stub);
    heap.Use(stub.offsets);
    Got.ResetOffsets(slots, stub.offsets, stub.offsets.Length);
    heap.Use(stub);
    heap.Free(stub.offsets);
    heap.Use(stub);
    m.reserved := m.reserved - WordsOf(stub.trampoline, stub.address);
    heap.Free(stub.name);
    heap.Free(stub);
  }
}
