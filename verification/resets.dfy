/**
 mmk_reset: from a function pointer, or from the name of a patched function, to the mock behind it. The function is
 called with the question pending; the trampoline's header names the stub, and the stub's struct its mock.
 */
module Resets {
  import opened Bytes
  import opened CHeap
  import opened Context
  import opened Machine
  import opened Transparency
  import opened Freeing
  import opened HookLists
  import opened MockContexts
  import opened Lifetimes
  import opened Stubs
  import Got
  import GotRuns

  /** How the user names the mock: by what mmk_mock returned, or by a function whose calls go through a table slot. */
  datatype Way = Handle | Name(slot: nat)

  /** The caller of mmk_reset: its registers, and what the three C routines will leave behind. */
  datatype Caller = Caller(gpr: seq<Word>, xmm: seq<Vector>, high: seq<Vector>, afterSet: Clobber, afterAsked: Clobber,
                           afterGet: Clobber)

  /** Distance from the trampoline's start to the address its first call pushes. */
  type Gap = n: int | 0 <= n <= 0x10

  function WorldAt(sys: System, caller: Caller, fn: Pointer, gap: Gap): World
    requires fn + gap < SIZE_LIMIT
  {
    World(sys, fn + gap, caller.afterSet, caller.afterAsked, caller.afterGet)
  }

  /** The routines are three, and the caller's stack pointer leaves room in the stack. */
  predicate ValidCaller(sys: System, c: Caller) {
    && sys.setCtx != sys.ctxAsked && sys.setCtx != sys.getCtx && sys.ctxAsked != sys.getCtx
    && |c.gpr| == 16 && |c.xmm| == 16 && |c.high| == 16
    && ValidClobber(c.afterSet) && ValidClobber(c.afterAsked) && ValidClobber(c.afterGet)
    && sys.bottom + ROOM <= c.gpr[RSP] <= sys.top && c.gpr[RSP] + 8 < SIZE_LIMIT
  }

  /** The function is the trampoline of stub `i` of the mock. */
  ghost predicate LeadsTo(mock: Mock, fn: Pointer, i: nat)
    reads mock
  {
    i < |mock.stubList| && mock.stubList[i].trampoline == fn
  }

  /**
   `mmk_reset(fn)` for a function that leads to a stub of `mock`. The code knows neither: it finds the stub by calling
   `fn`, the mock's address in the stub, and tears down the mock that lives there.
   */
  method MmkReset(heap: Heap, slots: array<Got.Fn>, m: Processor, sys: System, caller: Caller, gap: Gap, fn: Pointer,
                  mockAt: map<Pointer, Mock>, ghost mock: Mock, ghost i: nat)
    requires mock.Valid() && heap !in mock.Repr && slots !in mock.Repr && m !in mock.Repr
    requires mock.Owned() <= heap.live && AllInTable(slots[..], mock.stubList)
    requires LeadsTo(mock, fn, i) && InMemory(sys, m.mem, mock)
    requires mock.address in mockAt && mockAt[mock.address] == mock
    requires ValidCaller(sys, caller)
    modifies heap, slots, m
    ensures heap.live == old(heap.live) - old(mock.Owned())
    ensures slots[..] == DestroyedInOrder(old(slots[..]), mock.stubList)
    ensures m.reserved == old(m.reserved) - StubWords(mock.stubList)
    ensures m.tls == Tls(0, mock.stubList[i].address) && OnlyStack(sys, old(m.mem), m.mem)
  {
    hide Mock.Valid, Mock.Owned, Loaded, InPlace, Fetch, AllInTable, DestroyedInOrder, StubWords, ValidClobber;
    ghost var s := mock.stubList[i];
    assert Loaded(sys, m.mem, s, mock.address);
    m.gpr, m.xmm, m.high := caller.gpr, caller.xmm, caller.high;
    var stub := AskLoaded(m, sys, caller, gap, fn, s, mock.address);
    StubIsLive(heap, mock, i);
    heap.Use(s);
    var ctx := Fetch(m.mem, stub as int + 0x18);
    mockAt[ctx].Destroy(heap, slots, m);
  }

  lemma StubIsLive(heap: Heap, mock: Mock, i: nat)
    requires mock.Valid() && mock.Owned() <= heap.live && i < |mock.stubList|
    ensures mock.stubList[i] in heap.live
  {
    StubBlocksHas(mock.stubList);
  }

  /** `mmk_ask_ctx` on a trampoline whose words are in memory; the stub's own words stay as they are. */
  method AskLoaded(m: Processor, sys: System, caller: Caller, gap: Gap, fn: Pointer, ghost s: Stub, ghost ctx: Pointer)
    returns (stub: Pointer)
    requires Loaded(sys, m.mem, s, ctx) && s.trampoline == fn && ValidCaller(sys, caller)
    requires m.gpr == caller.gpr && m.xmm == caller.xmm && m.high == caller.high
    modifies m`gpr, m`xmm, m`high, m`zero, m`mem, m`tls, m`trace, m`pc, m`exit
    ensures stub == s.address && m.tls == Tls(0, stub) && OnlyStack(sys, old(m.mem), m.mem)
    ensures Fetch(m.mem, stub as int + 0x18) == ctx
  {
    var w := WorldAt(sys, caller, fn, gap);
    stub := AskCtx(m, w, -(gap as int), s.address, s.routine);
  }

  /**
   A call of the mocked function: the trampoline enters the stubs' routine, which looks up its mock by
   `mmk_stub_context(mmk_ctx())`. Zero from `mmk_ctx_asked` must come with a clear upper half of rax.
   */
  method MmkCall(heap: Heap, m: Processor, sys: System, caller: Caller, gap: Gap, fn: Pointer,
                 mockAt: map<Pointer, Mock>, ghost mock: Mock, ghost i: nat)
    returns (found: Mock)
    requires mock.Valid() && m !in mock.Repr && mock.Owned() <= heap.live
    requires LeadsTo(mock, fn, i) && InMemory(sys, m.mem, mock)
    requires mock.address in mockAt && mockAt[mock.address] == mock
    requires ValidCaller(sys, caller) && caller.afterAsked.upper == 0 && m.tls.asked == 0
    modifies m`gpr, m`xmm, m`high, m`zero, m`mem, m`tls, m`trace, m`pc, m`exit
    ensures found == mock && m.exit == Jumped(mock.stubList[i].routine)
    ensures m.tls == Tls(0, mock.stubList[i].address) && OnlyStack(sys, old(m.mem), m.mem)
    ensures Valid(m.Snapshot()) && m.gpr[RSP] == caller.gpr[RSP]
  {
    hide Mock.Valid, Mock.Owned, Loaded, InPlace, Fetch, ValidClobber;
    ghost var s := mock.stubList[i];
    assert Loaded(sys, m.mem, s, mock.address);
    m.gpr, m.xmm, m.high := caller.gpr, caller.xmm, caller.high;
    var ctx := EnterLoaded(m, sys, caller, gap, fn, s, mock.address);
    StubIsLive(heap, mock, i);
    heap.Use(s);
    found := mockAt[Fetch(m.mem, ctx as int + 0x18)];
  }

  /** The routine is entered, and `mmk_ctx()` gives it its stub. */
  method EnterLoaded(m: Processor, sys: System, caller: Caller, gap: Gap, fn: Pointer, ghost s: Stub,
                     ghost ctx: Pointer)
    returns (stub: Pointer)
    requires Loaded(sys, m.mem, s, ctx) && s.trampoline == fn && ValidCaller(sys, caller)
    requires m.gpr == caller.gpr && m.xmm == caller.xmm && m.high == caller.high
    requires m.tls.asked == 0 && caller.afterAsked.upper == 0
    modifies m`gpr, m`xmm, m`high, m`zero, m`mem, m`tls, m`trace, m`pc, m`exit
    ensures stub == s.address && m.tls == Tls(0, stub) && OnlyStack(sys, old(m.mem), m.mem)
    ensures m.exit == Jumped(s.routine) && Valid(m.Snapshot()) && m.gpr[RSP] == caller.gpr[RSP]
    ensures Fetch(m.mem, stub as int + 0x18) == ctx
  {
    var w := WorldAt(sys, caller, fn, gap);
    CallThrough(m, w, -(gap as int), s.address, s.routine);
    stub := m.tls.ctx;
  }

  /** A way to call a mocked function, and the mocks that live at addresses. `handle` is what mmk_mock returned. */
  datatype Line = Line(sys: System, gap: Gap, caller: Caller, way: Way, handle: Pointer, mockAt: map<Pointer, Mock>)

  /** The address that is called. */
  function Target(line: Line, table: seq<Got.Fn>): Got.Fn
    requires line.way.Name? ==> line.way.slot < |table|
  {
    match line.way
    case Handle => line.handle
    case Name(x) => table[x]
  }

  /** The function leads to a stub of the mock, and zero from `mmk_ctx_asked` comes with a clear upper half of rax. */
  ghost predicate Connected(line: Line, table: seq<Got.Fn>, mem: Memory, mock: Mock)
    reads mock
  {
    && ValidCaller(line.sys, line.caller) && line.caller.afterAsked.upper == 0
    && mock.address in line.mockAt && line.mockAt[mock.address] == mock && InMemory(line.sys, mem, mock)
    && (line.way.Name? ==> line.way.slot < |table|)
    && exists i | 0 <= i < |mock.stubList| :: mock.stubList[i].trampoline == Target(line, table)
  }

  /** A call of a mocked function, up to the body of the stub. */
  method Ring(heap: Heap, slots: array<Got.Fn>, m: Processor, line: Line, ghost mock: Mock) returns (found: Mock)
    requires mock.Valid() && m !in mock.Repr && mock.Owned() <= heap.live
    requires Connected(line, slots[..], m.mem, mock) && m.tls.asked == 0
    modifies m`gpr, m`xmm, m`high, m`zero, m`mem, m`tls, m`trace, m`pc, m`exit
    ensures found == mock && OnlyStack(line.sys, old(m.mem), m.mem) && m.tls.asked == 0
  {
    hide Mock.Valid, Mock.Owned, InMemory, OnlyStack, ValidCaller;
    ghost var i :| 0 <= i < |mock.stubList| && mock.stubList[i].trampoline == Target(line, slots[..]);
    var fn: Got.Fn := line.handle;
    if line.way.Name? {
      fn := slots[line.way.slot];
    }
    found := MmkCall(heap, m, line.sys, line.caller, line.gap, fn, line.mockAt, mock, i);
  }
}
