/**
 A test program at work: mocks are created, called, checked and reset in any order, through function pointers and
 through the names of patched functions.
 */
module Runs {
  import opened Bytes
  import CallRecords
  import opened CHeap
  import opened Context
  import opened Machine
  import opened ParamStructs
  import opened Transparency
  import opened Freeing
  import opened HookLists
  import opened MockContexts
  import opened Sessions
  import opened Scripts
  import opened ScriptRuns
  import opened Stubs
  import opened Lifetimes
  import opened Resets
  import opened Programs
  import opened ProgramTables
  import opened SlotHistories
  import Got
  import GotRuns

  // ---- what holds between two statements ----

  /** The heap blocks of a mock, all its objects, and its stubs. */
  datatype Part = Part(own: set<object>, all: set<object>, stubs: seq<Stub>)

  /** Mock `k` is well formed, it is what the statements so far made of it, and its log has room for `room` calls. */
  ghost predicate Reflects(mock: Mock, k: nat, s: Progress, room: nat, part: Part)
    reads mock, part.all
  {
    && mock.Repr == part.all && mock.stubList == part.stubs && mock.Valid() && mock.Owned() == part.own
    && mock.log.Room(room)
    && mock.Contracts() == DefsIn(s.ops, k) && mock.Calls() == CallsIn(s.ops, k)
    && k in s.live && k < |s.setups| && mock.layout == s.setups[k].layout && mock.address == s.setups[k].address
    && Hooked(mock, s.live[k]) && StubWords(mock.stubList) == PlannedWords(s.setups[k])
  }

  ghost predicate AllReflect(mocks: map<nat, Mock>, s: Progress, room: nat, parts: map<nat, Part>, all: set<object>)
    reads all
  {
    forall k | k in mocks ::
      k in parts && mocks[k] in parts[k].all && parts[k].all <= all && Reflects(mocks[k], k, s, room, parts[k])
  }

  /** All heap blocks that belong to mocks. */
  ghost function Owned(parts: map<nat, Part>): set<object> {
    set k, o | k in parts && o in parts[k].own :: o
  }

  lemma Redistributed(live: set<object>, rest: set<object>, parts: map<nat, Part>, k: nat, part: Part)
    requires live == rest + Owned(parts) && k in parts && rest !! parts[k].own
    requires forall l | l in parts && l != k :: parts[l].own !! parts[k].own
    ensures live - parts[k].own + part.own == rest + Owned(parts[k := part])
  {
    var after := parts[k := part];
    forall o: object
      ensures o in live - parts[k].own + part.own <==> o in rest + Owned(after)
    {
      if o in Owned(parts) && o !in parts[k].own {
        var l :| l in parts && o in parts[l].own;
        assert l in after && o in after[l].own;
      }
      if o in part.own {
        assert k in after && o in after[k].own;
      }
      if o in Owned(after) {
        var l :| l in after && o in after[l].own;
        assert l != k ==> o in parts[l].own;
      }
    }
  }

  lemma Withdrawn(live: set<object>, rest: set<object>, parts: map<nat, Part>, k: nat)
    requires live == rest + Owned(parts) && k in parts && rest !! parts[k].own
    requires forall l | l in parts && l != k :: parts[l].own !! parts[k].own
    ensures live - parts[k].own == rest + Owned(parts - {k})
  {
    Redistributed(live, rest, parts, k, Part({}, {}, []));
    var emptied, without := parts[k := Part({}, {}, [])], parts - {k};
    forall o: object
      ensures o in Owned(emptied) <==> o in Owned(without)
    {
      if o in Owned(emptied) {
        var l :| l in emptied && o in emptied[l].own;
        assert l in without && o in without[l].own;
      }
      if o in Owned(without) {
        var l :| l in without && o in without[l].own;
        assert l in emptied && o in emptied[l].own;
      }
    }
    assert Owned(emptied) == Owned(without);
  }

  lemma Added(parts: map<nat, Part>, k: nat, part: Part)
    requires k !in parts
    ensures Owned(parts[k := part]) == Owned(parts) + part.own
  {
    var after := parts[k := part];
    forall o: object
      ensures o in Owned(after) <==> o in Owned(parts) + part.own
    {
      if o in Owned(parts) {
        var l :| l in parts && o in parts[l].own;
        assert l in after && o in after[l].own;
      }
      if o in part.own {
        assert k in after && o in after[k].own;
      }
    }
  }

  /** No two mocks have the same address. */
  ghost predicate AddressesDiffer(mocks: map<nat, Mock>) {
    forall k, l | k in mocks && l in mocks && k != l :: mocks[k].address != mocks[l].address
  }

  /** Which mock lives at an address. */
  function MockAt(mocks: map<nat, Mock>): (at: map<Pointer, Mock>)
    requires AddressesDiffer(mocks)
    ensures forall k | k in mocks :: mocks[k].address in at && at[mocks[k].address] == mocks[k]
  {
    map k | k in mocks :: mocks[k].address := mocks[k]
  }

  /** The words of these stubs are in memory. */
  ghost predicate StubsInMemory(sys: System, mem: Memory, stubs: seq<Stub>, address: Pointer) {
    forall i | 0 <= i < |stubs| :: Loaded(sys, mem, stubs[i], address)
  }

  ghost predicate AllInMemory(sys: System, mem: Memory, parts: map<nat, Part>, setups: seq<Setup>) {
    forall k | k in parts :: k < |setups| && StubsInMemory(sys, mem, parts[k].stubs, setups[k].address)
  }

  /** The words lie outside the stack. */
  lemma MemoryStays(sys: System, before: Memory, after: Memory, stubs: seq<Stub>, address: Pointer)
    requires StubsInMemory(sys, before, stubs, address) && OnlyStack(sys, before, after)
    ensures StubsInMemory(sys, after, stubs, address)
  {
    hide Fetch;
    forall i | 0 <= i < |stubs|
      ensures Loaded(sys, after, stubs[i], address)
    {
      assert Loaded(sys, before, stubs[i], address);
    }
  }

  lemma AllMemoryStays(sys: System, before: Memory, after: Memory, parts: map<nat, Part>, setups: seq<Setup>)
    requires OnlyStack(sys, before, after) && AllInMemory(sys, before, parts, setups)
    ensures AllInMemory(sys, after, parts, setups)
  {
    hide StubsInMemory, OnlyStack;
    forall k | k in parts
      ensures k < |setups| && StubsInMemory(sys, after, parts[k].stubs, setups[k].address)
    {
      MemoryStays(sys, before, after, parts[k].stubs, setups[k].address);
    }
  }

  lemma {:induction false} WordsOfStubs(stubs: seq<Stub>)
    ensures forall i | 0 <= i < |stubs| :: stubs[i].Words() <= StubWords(stubs)
  {
    hide Stub.Words;
    if stubs != [] {
      WordsOfStubs(stubs[1..]);
      assert forall i | 0 < i < |stubs| :: stubs[i] == stubs[1..][i - 1];
    }
  }

  /** Words written elsewhere. */
  lemma MemoryKept(sys: System, before: Memory, after: Memory, words: set<int>, stubs: seq<Stub>, address: Pointer)
    requires StubsInMemory(sys, before, stubs, address) && OnlyWords(before, after, words)
    requires StubWords(stubs) !! words
    ensures StubsInMemory(sys, after, stubs, address)
  {
    WordsOfStubs(stubs);
    hide Loaded, OnlyWords, StubWords, Stub.Words;
    forall i | 0 <= i < |stubs|
      ensures Loaded(sys, after, stubs[i], address)
    {
      LoadedStays(sys, before, after, stubs[i], address, words);
    }
  }

  ghost predicate WordsApart(parts: map<nat, Part>, words: set<int>) {
    forall k | k in parts :: StubWords(parts[k].stubs) !! words
  }

  lemma AllMemoryKept(sys: System, before: Memory, after: Memory, words: set<int>, parts: map<nat, Part>,
                      setups: seq<Setup>)
    requires AllInMemory(sys, before, parts, setups) && OnlyWords(before, after, words)
    requires WordsApart(parts, words)
    ensures AllInMemory(sys, after, parts, setups)
  {
    hide StubsInMemory, OnlyWords, StubWords;
    forall k | k in parts
      ensures k < |setups| && StubsInMemory(sys, after, parts[k].stubs, setups[k].address)
    {
      MemoryKept(sys, before, after, words, parts[k].stubs, setups[k].address);
    }
  }

  // ---- from a function to its mock ----

  /** The function leads to a stub with one of these hooks. */
  ghost predicate ByHook(slots: seq<Got.Fn>, hooks: seq<Got.Stub>, way: Way) {
    && hooks != []
    && (way.Name? ==>
          way.slot < |slots| && exists j | 0 <= j < |hooks| :: hooks[j].trampoline == slots[way.slot])
  }

  /** The address the statement calls: the handle `ctx->stubs->trampoline`, or what the slot holds. */
  method Resolve(heap: Heap, slots: array<Got.Fn>, mock: Mock, way: Way, ghost hooks: seq<Got.Stub>)
    returns (fn: Pointer, ghost i: nat)
    requires mock.Valid() && mock.Owned() <= heap.live && Hooked(mock, hooks) && ByHook(slots[..], hooks, way)
    ensures LeadsTo(mock, fn, i)
  {
    HooksAreStubs(mock, hooks);
    StubsOfMock(heap, mock);
    match way
    case Handle =>
      heap.Use(mock);
      var stub := mock.stubs;
      heap.Use(stub);
      fn, i := stub.trampoline, 0;
    case Name(x) =>
      i :| 0 <= i < |hooks| && hooks[i].trampoline == slots[..][x];
      fn := slots[x];
  }

  lemma HooksAreStubs(mock: Mock, hooks: seq<Got.Stub>)
    requires mock.Valid() && Hooked(mock, hooks)
    ensures |hooks| == |mock.stubList|
    ensures forall i | 0 <= i < |hooks| :: hooks[i].trampoline == mock.stubList[i].trampoline
  {
    StubBlocksHas(mock.stubList);
  }

  lemma StubsOfMock(heap: Heap, mock: Mock)
    requires mock.Valid() && mock.Owned() <= heap.live && mock.stubList != []
    ensures mock in heap.live && mock.stubs == mock.stubList[0] && mock.stubs in heap.live
  {
    StubBlocksHas(mock.stubList);
  }

  // ---- a statement on its own mock ----

  /** The mock of the statement, and no table slot, is affected. */
  method PerformOn(heap: Heap, slots: array<Got.Fn>, m: Processor, line: Line, t: Thread, ghost mock: Mock, op: Op,
                   ghost s: Progress, ghost room: nat, ghost part: Part)
    returns (out: Output)
    requires Reflects(mock, op.mock, s, room + 1, part) && t.Idle() && part.own <= heap.live
    requires heap !in part.all && t !in part.all && m !in part.all
    requires Connected(line, slots[..], m.mem, mock) && m.tls.asked == 0
    requires op.mock < |s.setups| && ArgsFit(s.setups[op.mock].layout, op.args)
    requires op.Invoke? ==> |op.garbage| == s.setups[op.mock].layout.size
    modifies t, heap, part.all, m`gpr, m`xmm, m`high, m`zero, m`mem, m`tls, m`trace, m`pc, m`exit
    ensures OnlyStack(line.sys, old(m.mem), m.mem) && m.tls.asked == 0 && m !in mock.Repr
    ensures Reflects(mock, op.mock, s.(ops := s.ops + [op]), room, Part(mock.Owned(), mock.Repr, part.stubs))
    ensures t.Idle() && mock in mock.Repr && mock.Owned() <= mock.Repr
    ensures heap !in mock.Repr && t !in mock.Repr && fresh(mock.Repr - part.all)
    ensures heap.live == old(heap.live) - part.own + mock.Owned()
    ensures out == Scripts.Answer(s.ops, op)
  {
    OwnedInRepr(mock);
    hide Mock.Valid, Mock.Owned, Mock.Contracts, Mock.Calls, Hooked, DefsIn, CallsIn, Scripts.Answer, ArgsFit,
         StubWords, PlannedWords, Connected, OnlyStack;
    out := PerformHooked(heap, slots, m, line, t, mock, op, s.ops, room, s.live[op.mock]);
    OwnedInRepr(mock);
  }

  /** A statement on another mock. */
  lemma ReflectsLater(mock: Mock, k: nat, s: Progress, op: Op, room: nat, part: Part)
    requires Reflects(mock, k, s, room + 1, part) && op.mock != k
    ensures Reflects(mock, k, s.(ops := s.ops + [op]), room, part)
  {
    OneMore(s.ops, op, k);
    hide Mock.Valid, Mock.Owned, Mock.Contracts, Mock.Calls, Hooked, DefsIn, CallsIn, StubWords, PlannedWords;
  }

  // ---- a statement that creates or resets another mock ----

  lemma ReflectsStill(mock: Mock, k: nat, s: Progress, t: Progress, room: nat, part: Part)
    requires Reflects(mock, k, s, room + 1, part) && k in t.live && k in s.live && t.live[k] == s.live[k]
    requires t.ops == s.ops && |s.setups| <= |t.setups| && (k < |s.setups| ==> t.setups[k] == s.setups[k])
    ensures Reflects(mock, k, t, room, part)
  {
    hide Mock.Valid, Mock.Owned, Mock.Contracts, Mock.Calls, Hooked, DefsIn, CallsIn, StubWords, PlannedWords;
  }

  /** What a successful creation makes of table and stubs. */
  lemma MadeAsHooked(sys: System, mock: Mock, c: Setup, before: seq<Got.Fn>, after: seq<Got.Fn>, was: Memory,
                     mem: Memory)
    requires mock.Valid() && GotRuns.HooksIn(before, Plan(c)) && Made(sys, mock, c, before, after, was, mem)
    ensures after == HookAll(before, Plan(c)).0 && Hooked(mock, HookAll(before, Plan(c)).1)
    ensures StubWords(mock.stubList) == PlannedWords(c) && StubsInMemory(sys, mem, mock.stubList, mock.address)
    ensures OnlyWords(was, mem, PlannedWords(c))
  {
    StubBlocksHas(mock.stubList);
    hide Mock.Valid, HookAll, StubWords, PlannedWords, OnlyWords, Loaded, Plan;
  }

  lemma UncalledReflects(mock: Mock, k: nat, t: Progress, room: nat)
    requires mock.Valid() && mock.Contracts() == [] && mock.Calls() == [] && RoomFor(mock.layout, room)
    requires forall i | 0 <= i < |t.ops| :: t.ops[i].mock < k
    requires k < |t.setups| && mock.layout == t.setups[k].layout && mock.address == t.setups[k].address
    requires k in t.live && Hooked(mock, t.live[k]) && StubWords(mock.stubList) == PlannedWords(t.setups[k])
    ensures Reflects(mock, k, t, room, Part(mock.Owned(), mock.Repr, mock.stubList))
  {
    NothingYet(t.ops, k);
    NewMockHasRoom(mock, room);
    hide Mock.Valid, Mock.Owned, Mock.Contracts, Mock.Calls, Hooked, StubWords, PlannedWords, RoomFor, DefsIn, CallsIn;
  }

  lemma NewReflects(sys: System, mock: Mock, c: Setup, s: Progress, room: nat, after: seq<Got.Fn>, was: Memory,
                    mem: Memory)
    requires mock.Valid() && mock.Contracts() == [] && mock.Calls() == []
    requires mock.layout == c.layout && mock.address == c.address && RoomFor(c.layout, room) && c.scope.places != []
    requires GotRuns.HooksIn(s.table, Plan(c)) && Made(sys, mock, c, s.table, after, was, mem) && Numbered(s)
    ensures Next(s, Create(c)).table == after
    ensures Reflects(mock, |s.setups|, Next(s, Create(c)), room, Part(mock.Owned(), mock.Repr, mock.stubList))
  {
    hide Mock.Valid, Mock.Owned, Mock.Contracts, Mock.Calls, HookAll, Hooked, StubWords, PlannedWords, OnlyWords, Plan,
         StubsInMemory, Made, Leaks, Reflects, RoomFor;
    MadeAsHooked(sys, mock, c, s.table, after, was, mem);
    UncalledReflects(mock, |s.setups|, Next(s, Create(c)), room);
  }

  /** What is known of a new mock, and of the memory it took. */
  ghost predicate NewPart(sys: System, mock: Mock, part: Part, c: Setup, s: Progress, room: nat, was: Memory,
                          mem: Memory)
    reads mock, part.all
  {
    && mock in part.all && Reflects(mock, |s.setups|, Next(s, Create(c)), room, part)
    && StubsInMemory(sys, mem, part.stubs, c.address) && OnlyWords(was, mem, PlannedWords(c))
  }

  method MakeMock(heap: Heap, slots: array<Got.Fn>, m: Processor, sys: System, c: Setup, ghost s: Progress,
                  ghost room: nat)
    returns (mock: Mock?, ghost part: Part, ghost lost: object?)
    requires Allowed(sys, s, Create(c), room + 1) && m.reserved == s.words && slots[..] == s.table && Numbered(s)
    modifies heap, slots, m`mem, m`tls, m`reserved
    ensures m.tls.asked == 0 && slots[..] == Next(s, Create(c)).table && m.reserved == Next(s, Create(c)).words
    ensures (mock == null <==> c.scope.places == []) && (lost == null <==> !Leaks(c))
    ensures lost != null ==> fresh(lost) && lost !in part.all
    ensures heap.live == old(heap.live) + part.own + Lifetimes.Lost(lost) && fresh(part.all) && part.own <= part.all
    ensures mock == null ==> part == Part({}, {}, []) && m.mem == old(m.mem)
    ensures mock != null ==> NewPart(sys, mock, part, c, s, room, old(m.mem), m.mem)
  {
    hide Mock.Valid, Mock.Owned, Mock.Contracts, Mock.Calls, Reflects, HookAll, StubsInMemory, PlannedWords, Leaks,
         Made, Plan, RoomFor, Creatable, Numbered;
    PlanFits(s.table, sys, s.words, c);
    ghost var was := m.mem;
    var panicked;
    mock, panicked, lost := CreateMock(heap, slots, m, sys, c);
    if mock == null {
      part := Part({}, {}, []);
    } else {
      AllowedLater(sys, s, Create(c), room + 1, room);
      NewReflects(sys, mock, c, s, room, slots[..], was, m.mem);
      MadeAsHooked(sys, mock, c, s.table, slots[..], was, m.mem);
      OwnedInRepr(mock);
      part := Part(mock.Owned(), mock.Repr, mock.stubList);
    }
  }

  // ---- blocks that nobody frees ----

  ghost function Blocks(lost: seq<object>): set<object> {
    set i | 0 <= i < |lost| :: lost[i]
  }

  ghost predicate Distinct(lost: seq<object>) {
    forall i, j | 0 <= i < j < |lost| :: lost[i] != lost[j]
  }

  lemma NoneLost(rest: set<object>)
    ensures Blocks([]) == {} && rest + Blocks([]) == rest && Distinct([])
  {
  }

  lemma OneMoreLost(lost: seq<object>, block: object?)
    requires Distinct(lost) && (block != null ==> block !in Blocks(lost))
    ensures Lifetimes.Lost(block) == if block == null then {} else {block}
    ensures block != null ==> Distinct(lost + [block]) && Blocks(lost + [block]) == Blocks(lost) + {block}
  {
    if block != null {
      var all := lost + [block];
      assert forall i | 0 <= i < |lost| :: lost[i] in Blocks(lost) && all[i] == lost[i];
      assert all[|lost|] in Blocks(all);
      forall o | o in Blocks(lost)
        ensures o in Blocks(all)
      {
        var i :| 0 <= i < |lost| && lost[i] == o;
        assert all[i] == o;
      }
    }
  }

  class Process {
    const heap: Heap
    const slots: array<Got.Fn>
    const thread: Thread
    const m: Processor
    const sys: System
    const gap: Gap

    /** The mocks that live, by the order of their creation. */
    var mocks: map<nat, Mock>
    var created: nat

    /** What belongs to which mock, and the heap blocks that belong to none. */
    ghost var parts: map<nat, Part>
    ghost var rest: set<object>

    ghost var Repr: set<object>

    /** The mocks share nothing with each other or with the rest of the heap. */
    ghost predicate Separate(parts: map<nat, Part>, rest: set<object>, all: set<object>) {
      && heap in all && slots in all && thread in all && m !in all && this !in all
      && (forall k | k in parts :: parts[k].own <= parts[k].all <= all && parts[k].all !! rest)
      && (forall k | k in parts :: heap !in parts[k].all && slots !in parts[k].all && thread !in parts[k].all)
      && (forall k, l | k in parts && l in parts && k != l :: parts[k].all !! parts[l].all)
    }

    /**
     No session is open, the live mocks are what the program made of them, the table is as the program says, and the
     heap holds what there is besides and what the live mocks own.
     */
    ghost predicate Holds(s: Progress, room: nat, mocks: map<nat, Mock>, created: nat, parts: map<nat, Part>,
                          rest: set<object>, all: set<object>)
      reads heap, slots, thread, all
    {
      && Separate(parts, rest, all) && AllReflect(mocks, s, room, parts, all)
      && thread.Idle() && mocks.Keys == s.live.Keys == parts.Keys && Sound(s) && Numbered(s)
      && slots[..] == s.table && created == |s.setups| && heap.live == rest + Owned(parts)
    }

    ghost predicate Quiet(s: Progress, room: nat)
      reads this, heap, slots, thread, Repr
    {
      Holds(s, room, mocks, created, parts, rest, Repr)
    }

    /** Besides, no question is pending, and the words of all live mocks, and no others, are in memory. */
    ghost predicate Between(s: Progress, room: nat)
      reads this, heap, slots, thread, m, Repr
    {
      Quiet(s, room) && m.tls.asked == 0 && m.reserved == s.words && AllInMemory(sys, m.mem, parts, s.setups)
    }

    /** What `Quiet` says of one mock. */
    lemma About(s: Progress, room: nat, k: nat)
      requires Quiet(s, room) && k in mocks
      ensures k in parts && Reflects(mocks[k], k, s, room, parts[k]) && k in s.live && HooksMatch(s, k) && Sound(s)
      ensures parts[k].own <= parts[k].all <= Repr && mocks[k] in Repr && m !in Repr && this !in Repr
      ensures heap in Repr && slots in Repr && thread in Repr
      ensures heap !in parts[k].all && slots !in parts[k].all && thread !in parts[k].all && m !in parts[k].all
      ensures thread.Idle()
    {
      hide Reflects, HooksMatch, Owned;
    }

    /** Its blocks are allocated, and no other owner has them. */
    lemma OwnersApart(s: Progress, room: nat, k: nat)
      requires Quiet(s, room) && k in mocks
      ensures k in parts && parts[k].own <= heap.live && rest !! parts[k].own
      ensures forall l | l in parts && l != k :: parts[l].own !! parts[k].own
    {
      hide Reflects, HooksMatch, AllReflect, Sound;
      assert forall o | o in parts[k].own :: o in Owned(parts);
      assert parts[k].own <= parts[k].all;
      forall l | l in parts && l != k
        ensures parts[l].own !! parts[k].own
      {
        assert parts[l].own <= parts[l].all && parts[k].all !! parts[l].all;
      }
    }

    lemma MocksDiffer(s: Progress, room: nat)
      requires Quiet(s, room)
      ensures AddressesDiffer(mocks)
    {
      hide Quiet, HooksMatch, Hooked, Mock.Valid, Mock.Owned, DefsIn, CallsIn, PlannedWords, StubWords;
      forall k, l | k in mocks && l in mocks && k != l
        ensures mocks[k].address != mocks[l].address
      {
        About(s, room, k);
        About(s, room, l);
        assert MemoryApart(s.setups[k], s.setups[l]);
      }
    }

    /** Nothing has been mocked yet. */
    constructor (heap: Heap, slots: array<Got.Fn>, thread: Thread, m: Processor, sys: System, gap: Gap,
                 ghost room: nat)
      requires thread.Idle() && m.tls.asked == 0
      ensures this.heap == heap && this.slots == slots && this.thread == thread && this.m == m && this.sys == sys
      ensures Between(Start(slots[..], m.reserved), room) && rest == heap.live && fresh(Repr - {heap, slots, thread})
    {
      this.heap, this.slots, this.thread, this.m, this.sys, this.gap := heap, slots, thread, m, sys, gap;
      mocks, created := map[], 0;
      parts, rest, Repr := map[], heap.live, {heap, slots, thread};
    }

    // ---- a call, up to the body of the stub ----

    /** What finding mock `k` takes. */
    ghost predicate Reachable(k: nat, way: Way, hooks: seq<Got.Stub>)
      reads this, Repr
    {
      && k in mocks && mocks[k] in Repr && mocks[k].Repr <= Repr && heap in Repr && slots in Repr
      && AddressesDiffer(mocks) && ByHook(slots[..], hooks, way)
      && mocks[k].Valid() && heap !in mocks[k].Repr && slots !in mocks[k].Repr && m !in mocks[k].Repr
      && mocks[k].Owned() <= mocks[k].Repr && mocks[k].Owned() <= heap.live && Hooked(mocks[k], hooks)
    }

    lemma CanReach(s: Progress, room: nat, k: nat, way: Way)
      requires Quiet(s, room) && LeadsThere(s, k, way)
      ensures k in mocks && k in parts && k in s.live && Reachable(k, way, s.live[k])
      ensures k < |s.setups| && mocks[k].stubList == parts[k].stubs && mocks[k].address == s.setups[k].address
      ensures mocks[k].Owned() == parts[k].own && StubWords(mocks[k].stubList) == PlannedWords(s.setups[k])
      ensures m !in Repr && mocks[k] in Repr
    {
      MocksDiffer(s, room);
      About(s, room, k);
      OwnersApart(s, room, k);
      OwnedInRepr(mocks[k]);
    }

    /** How a statement calls a function of mock `k`. */
    method LineTo(k: nat, r: Reach, ghost hooks: seq<Got.Stub>) returns (line: Line)
      requires Reachable(k, r.way, hooks) && InMemory(sys, m.mem, mocks[k])
      requires ValidCaller(sys, r.caller) && r.caller.afterAsked.upper == 0
      ensures line.sys == sys && Connected(line, slots[..], m.mem, mocks[k])
    {
      hide AddressesDiffer, InMemory, ValidCaller, Mock.Valid, Mock.Owned, Hooked;
      HooksAreStubs(mocks[k], hooks);
      StubsOfMock(heap, mocks[k]);
      heap.Use(mocks[k]);
      var stub := mocks[k].stubs;
      heap.Use(stub);
      line := Line(sys, gap, r.caller, r.way, stub.trampoline, MockAt(mocks));
    }

    // ---- a statement on a mock ----

    /** A mock has given up blocks and got new ones. */
    lemma StaysSeparate(k: nat, part: Part)
      requires Separate(parts, rest, Repr) && k in parts && part.own <= part.all && m !in part.all && this !in part.all
      requires heap !in part.all && slots !in part.all && thread !in part.all
      requires part.all - parts[k].all !! Repr && part.all - parts[k].all !! rest
      ensures Separate(parts[k := part], rest, Repr + part.all)
    {
      var after := parts[k := part];
      assert parts[k].all <= Repr;
      forall l | l in after
        ensures after[l].own <= after[l].all <= Repr + part.all && after[l].all !! rest
        ensures l != k ==> after[l].all !! part.all
      {
        assert l != k ==> after[l] == parts[l] && parts[l].all !! parts[k].all && parts[l].all <= Repr;
      }
    }

    /** The other mocks are apart from this one and from all that a statement on it changes. */
    lemma Others(s: Progress, room: nat, k: nat)
      requires Quiet(s, room) && k in mocks
      ensures forall l | l in mocks && l != k ::
        && l in parts && mocks[l] in parts[l].all && parts[l].all <= Repr && parts[l].all !! parts[k].all
        && heap !in parts[l].all && thread !in parts[l].all && m !in parts[l].all
        && Reflects(mocks[l], l, s, room, parts[l])
    {
      hide Reflects, Sound, Owned;
    }

    lemma ReflectTogether(k: nat, part: Part, s: Progress, room: nat)
      requires k in mocks && mocks[k] in part.all && Reflects(mocks[k], k, s, room, part)
      requires forall l | l in mocks && l != k ::
        l in parts && mocks[l] in parts[l].all && parts[l].all <= Repr && Reflects(mocks[l], l, s, room, parts[l])
      ensures AllReflect(mocks, s, room, parts[k := part], Repr + part.all)
    {
      hide Reflects;
    }

    /** A statement on mock `op.mock`; the others stay as they are. */
    method PerformAmong(line: Line, op: Op, ghost s: Progress, ghost room: nat, ghost was: Part)
      returns (out: Output, ghost part: Part)
      requires Quiet(s, room + 1) && op.mock in mocks
      requires Connected(line, slots[..], m.mem, mocks[op.mock]) && m.tls.asked == 0
      requires op.mock in parts && parts[op.mock] == was
      requires op.mock < |s.setups| && ArgsFit(s.setups[op.mock].layout, op.args)
      requires op.Invoke? ==> |op.garbage| == s.setups[op.mock].layout.size
      modifies thread, heap, was.all, m`gpr, m`xmm, m`high, m`zero, m`mem, m`tls, m`trace, m`pc, m`exit
      ensures OnlyStack(line.sys, old(m.mem), m.mem) && m.tls.asked == 0
      ensures AllReflect(mocks, s.(ops := s.ops + [op]), room, parts[op.mock := part], Repr + part.all)
      ensures fresh(part.all - was.all) && part.own <= part.all && part.stubs == was.stubs
      ensures heap !in part.all && slots !in part.all && thread !in part.all && m !in part.all && this !in part.all
      ensures heap.live == old(heap.live) - was.own + part.own && slots[..] == old(slots[..])
      ensures thread.Idle() && out == Scripts.Answer(s.ops, op)
    {
      hide Quiet, Holds, AllReflect, Reflects, Sound, HooksMatch, Owned, ArgsFit, Mock.Owned, Connected, OnlyStack;
      About(s, room + 1, op.mock);
      OwnersApart(s, room + 1, op.mock);
      Others(s, room + 1, op.mock);
      ghost var mock := mocks[op.mock];
      out := PerformOn(heap, slots, m, line, thread, mock, op, s, room, was);
      part := Part(mock.Owned(), mock.Repr, was.stubs);
      forall l | l in mocks && l != op.mock
        ensures Reflects(mocks[l], l, s.(ops := s.ops + [op]), room, parts[l])
      {
        ReflectsLater(mocks[l], l, s, op, room, parts[l]);
      }
      ReflectTogether(op.mock, part, s.(ops := s.ops + [op]), room);
    }

    lemma SoundWithOp(s: Progress, op: Op)
      requires Sound(s) && Numbered(s) && op.mock < |s.setups|
      ensures Sound(s.(ops := s.ops + [op])) && Numbered(s.(ops := s.ops + [op]))
    {
      hide MemoryApart, PlannedWords;
      var t := s.(ops := s.ops + [op]);
      forall k <- t.live
        ensures HooksMatch(t, k)
      {
        assert HooksMatch(s, k);
      }
    }

    method DoQuietly(line: Line, op: Op, ghost s: Progress, ghost room: nat) returns (out: Output)
      requires Quiet(s, room + 1) && op.mock in mocks && op.mock < |s.setups|
      requires Connected(line, slots[..], m.mem, mocks[op.mock]) && m.tls.asked == 0
      requires ArgsFit(s.setups[op.mock].layout, op.args)
      requires op.Invoke? ==> |op.garbage| == s.setups[op.mock].layout.size
      modifies `parts, `Repr, Repr, m`gpr, m`xmm, m`high, m`zero, m`mem, m`tls, m`trace, m`pc, m`exit
      ensures OnlyStack(line.sys, old(m.mem), m.mem) && m.tls.asked == 0
      ensures Quiet(s.(ops := s.ops + [op]), room) && fresh(Repr - old(Repr)) && rest == old(rest)
      ensures parts.Keys == old(parts.Keys) && forall k | k in parts :: parts[k].stubs == old(parts)[k].stubs
      ensures out == Scripts.Answer(s.ops, op)
    {
      hide Separate, AllReflect, Sound, HooksMatch, Owned, ArgsFit, Reflects, Connected, OnlyStack;
      About(s, room + 1, op.mock);
      OwnersApart(s, room + 1, op.mock);
      SoundWithOp(s, op);
      ghost var was, live := parts[op.mock], heap.live;
      ghost var part;
      out, part := PerformAmong(line, op, s, room, was);
      StaysSeparate(op.mock, part);
      Redistributed(live, rest, parts, op.mock, part);
      parts, Repr := parts[op.mock := part], Repr + part.all;
    }

    /** The words of memory are those of the same stubs. */
    lemma SameStubsInMemory(before: map<nat, Part>, mem: Memory, setups: seq<Setup>)
      requires AllInMemory(sys, mem, before, setups)
      requires parts.Keys == before.Keys && forall k | k in parts :: parts[k].stubs == before[k].stubs
      ensures AllInMemory(sys, mem, parts, setups)
    {
      hide StubsInMemory;
    }

    /** A definition, check or call; its session is open when the function is called. */
    method RunDo(op: Op, r: Reach, ghost s: Progress, ghost room: nat) returns (out: Output)
      requires Between(s, room + 1) && Allowed(sys, s, Do(op, r), room + 1)
      modifies `parts, `Repr, Repr, m
      ensures Between(Next(s, Do(op, r)), room) && fresh(Repr - old(Repr)) && rest == old(rest)
      ensures out == Scripts.Answer(s.ops, op)
    {
      hide Quiet, LeadsThere, ValidCaller, ArgsFit, Loaded, Reachable, Connected, OnlyStack;
      ghost var was, before := m.mem, parts;
      CanReach(s, room + 1, op.mock, r.way);
      var line := LineTo(op.mock, r, s.live[op.mock]);
      out := DoQuietly(line, op, s, room);
      AllMemoryStays(sys, was, m.mem, before, s.setups);
      SameStubsInMemory(before, m.mem, s.setups);
    }

    // ---- creation ----

    /** A mock whose objects are all new; a block that nobody will free may be new, too. */
    lemma NewIsSeparate(k: nat, part: Part, lost: object?)
      requires Separate(parts, rest, Repr) && k !in parts && part.own <= part.all && m !in part.all && this !in part.all
      requires part.all !! Repr && part.all !! rest && (lost != null ==> lost !in Repr && lost !in part.all)
      ensures Separate(parts[k := part], rest + Lifetimes.Lost(lost), Repr + part.all)
    {
      var after := parts[k := part];
      forall l | l in after
        ensures after[l].own <= after[l].all <= Repr + part.all && after[l].all !! rest + Lifetimes.Lost(lost)
        ensures l != k ==> after[l].all !! part.all
      {
        assert l != k ==> after[l] == parts[l] && parts[l].all <= Repr;
      }
    }

    lemma LossIsSeparate(lost: object?)
      requires Separate(parts, rest, Repr) && (lost != null ==> lost !in Repr)
      ensures Separate(parts, rest + Lifetimes.Lost(lost), Repr)
    {
      forall l | l in parts
        ensures parts[l].all !! rest + Lifetimes.Lost(lost)
      {
        assert parts[l].all <= Repr;
      }
    }

    /** Whatever becomes of table and hooks, the mocks that lived before are what they were. */
    lemma OldReflect(s: Progress, c: Setup, room: nat)
      requires AllReflect(mocks, s, room + 1, parts, Repr) && mocks.Keys == s.live.Keys && |s.setups| !in s.live
      ensures AllReflect(mocks, Next(s, Create(c)), room, parts, Repr)
    {
      hide Reflects;
      var t := Next(s, Create(c));
      assert t.ops == s.ops && t.live.Keys <= s.live.Keys + {|s.setups|};
      forall l | l in mocks
        ensures Reflects(mocks[l], l, t, room, parts[l])
      {
        ReflectsStill(mocks[l], l, s, t, room, parts[l]);
      }
    }

    /** mmk_mock; the mocks that live stay as they are. */
    method CreateAmong(c: Setup, ghost s: Progress, ghost room: nat)
      returns (mock: Mock?, ghost part: Part, ghost lost: object?)
      requires Quiet(s, room + 1) && Allowed(sys, s, Create(c), room + 1) && m.reserved == s.words
      modifies heap, slots, m
      ensures m.tls.asked == 0 && thread.Idle() && slots[..] == Next(s, Create(c)).table
      ensures m.reserved == Next(s, Create(c)).words && AllReflect(mocks, Next(s, Create(c)), room, parts, Repr)
      ensures (mock == null <==> c.scope.places == []) && (lost == null <==> !Leaks(c))
      ensures lost != null ==> fresh(lost) && lost !in part.all
      ensures heap.live == old(heap.live) + part.own + Lifetimes.Lost(lost) && fresh(part.all) && part.own <= part.all
      ensures mock == null ==> part == Part({}, {}, []) && m.mem == old(m.mem)
      ensures mock != null ==> NewPart(sys, mock, part, c, s, room, old(m.mem), m.mem)
    {
      hide Reflects, Owned, Next, Allowed, Sound, NewPart, Leaks, Numbered;
      NewNumber(s);
      mock, part, lost := MakeMock(heap, slots, m, sys, c, s, room);
      OldReflect(s, c, room);
    }

    /** The words a new mock takes are not those of a mock that lives. */
    lemma NewWords(s: Progress, room: nat, c: Setup)
      requires Quiet(s, room) && Allowed(sys, s, Create(c), room)
      ensures WordsApart(parts, PlannedWords(c))
    {
      PlannedWordsAreFresh(sys, s, c);
      hide Quiet, HooksMatch, Allowed, PlannedWords, StubWords, MemoryApart, Mock.Valid, Mock.Owned, DefsIn, CallsIn;
      forall k | k in parts
        ensures StubWords(parts[k].stubs) !! PlannedWords(c)
      {
        assert k in mocks by {
          assert Quiet(s, room);
        }
        About(s, room, k);
        assert PlannedWords(s.setups[k]) <= s.words;
      }
    }

    lemma StillBetween(s: Progress, c: Setup, room: nat, n: nat)
      requires Sound(s) && Numbered(s) && Allowed(sys, s, Create(c), n)
      ensures Sound(Next(s, Create(c))) && Numbered(Next(s, Create(c)))
      ensures Next(s, Create(c)).setups == s.setups + [c]
      ensures Next(s, Create(c)).live.Keys == s.live.Keys + if c.scope.places == [] then {} else {|s.setups|}
    {
      SoundNext(sys, s, Create(c), n);
      PlanFits(s.table, sys, s.words, c);
      hide Sound, HookAll, Plan, PlannedWords, Leaks, Creatable;
    }

    lemma Outside(s: Progress, room: nat)
      requires Quiet(s, room)
      ensures this !in Repr && m !in Repr && heap in Repr && slots in Repr && thread in Repr
      ensures created == |s.setups|
    {
    }

    lemma MoreReflect(mock: Mock, k: nat, s: Progress, room: nat, part: Part)
      requires AllReflect(mocks, s, room, parts, Repr) && k !in mocks && mock in part.all
      requires Reflects(mock, k, s, room, part)
      ensures AllReflect(mocks[k := mock], s, room, parts[k := part], Repr + part.all)
    {
      hide Reflects;
    }

    lemma Adopted(mock: Mock, c: Setup, s: Progress, room: nat, part: Part, lost: object?, live: set<object>)
      requires Separate(parts, rest, Repr) && parts.Keys == mocks.Keys == s.live.Keys && live == rest + Owned(parts)
      requires Sound(s) && Numbered(s) && Allowed(sys, s, Create(c), room + 1) && c.scope.places != []
      requires created == |s.setups| && slots[..] == Next(s, Create(c)).table && thread.Idle()
      requires AllReflect(mocks, Next(s, Create(c)), room, parts, Repr)
      requires mock in part.all && Reflects(mock, |s.setups|, Next(s, Create(c)), room, part)
      requires part.own <= part.all && part.all !! Repr && part.all !! rest && m !in part.all && this !in part.all
      requires lost != null ==> lost !in Repr && lost !in part.all
      requires heap.live == live + part.own + Lifetimes.Lost(lost)
      ensures Holds(Next(s, Create(c)), room, mocks[created := mock], created + 1, parts[created := part],
                    rest + Lifetimes.Lost(lost), Repr + part.all)
    {
      hide Sound, Numbered, Allowed, Next, AllReflect, Reflects, Owned, Separate, Lifetimes.Lost;
      NewNumber(s);
      StillBetween(s, c, room, room + 1);
      NewIsSeparate(created, part, lost);
      MoreReflect(mock, created, Next(s, Create(c)), room, part);
      Added(parts, created, part);
    }

    lemma Declined(c: Setup, s: Progress, room: nat, lost: object?, live: set<object>)
      requires Separate(parts, rest, Repr) && parts.Keys == mocks.Keys == s.live.Keys && live == rest + Owned(parts)
      requires Sound(s) && Numbered(s) && Allowed(sys, s, Create(c), room + 1) && c.scope.places == []
      requires created == |s.setups| && slots[..] == Next(s, Create(c)).table && thread.Idle()
      requires AllReflect(mocks, Next(s, Create(c)), room, parts, Repr)
      requires (lost != null ==> lost !in Repr) && heap.live == live + Lifetimes.Lost(lost)
      ensures Holds(Next(s, Create(c)), room, mocks, created + 1, parts, rest + Lifetimes.Lost(lost), Repr)
    {
      hide Sound, Numbered, Allowed, Next, AllReflect, Reflects, Owned, Separate, Lifetimes.Lost;
      StillBetween(s, c, room, room + 1);
      LossIsSeparate(lost);
    }

    method CreateQuietly(c: Setup, ghost s: Progress, ghost room: nat)
      returns (mock: Mock?, ghost part: Part, ghost lost: object?)
      requires Quiet(s, room + 1) && Allowed(sys, s, Create(c), room + 1) && m.reserved == s.words
      modifies heap, slots, m
      ensures m.tls.asked == 0 && m.reserved == Next(s, Create(c)).words
      ensures (mock == null <==> c.scope.places == []) && (lost == null <==> !Leaks(c))
      ensures (lost != null ==> fresh(lost)) && fresh(part.all)
      ensures mock == null ==>
        && m.mem == old(m.mem) && part.all == {}
        && Holds(Next(s, Create(c)), room, mocks, created + 1, parts, rest + Lifetimes.Lost(lost), Repr + part.all)
      ensures mock != null ==>
        && StubsInMemory(sys, m.mem, part.stubs, c.address) && OnlyWords(old(m.mem), m.mem, PlannedWords(c))
        && Holds(Next(s, Create(c)), room, mocks[created := mock], created + 1, parts[created := part],
                 rest + Lifetimes.Lost(lost), Repr + part.all)
    {
      hide Sound, Numbered, Allowed, Next, AllReflect, StubsInMemory, Reflects, OnlyWords, PlannedWords, Leaks, Owned,
           Separate, Lifetimes.Lost;
      ghost var live := heap.live;
      Outside(s, room + 1);
      mock, part, lost := CreateAmong(c, s, room);
      if mock != null {
        Adopted(mock, c, s, room, part, lost, live);
      } else {
        Declined(c, s, room, lost, live);
        assert Repr + part.all == Repr;
      }
    }

    method RunCreate(c: Setup, ghost s: Progress, ghost room: nat) returns (valid: bool, ghost lost: object?)
      requires Between(s, room + 1) && Allowed(sys, s, Create(c), room + 1)
      modifies `mocks, `created, `parts, `rest, `Repr, heap, slots, m
      ensures Between(Next(s, Create(c)), room) && fresh(Repr - old(Repr))
      ensures valid <==> c.scope.places != []
      ensures rest == old(rest) + Lifetimes.Lost(lost) && (lost == null <==> !Leaks(c))
      ensures lost != null ==> fresh(lost)
    {
      hide Quiet, Allowed, Next, StubsInMemory, OnlyWords, PlannedWords, Leaks, Lifetimes.Lost, AllInMemory, WordsApart,
           Holds;
      ghost var was := m.mem;
      NextSetups(c, s, room + 1);
      NewWords(s, room + 1, c);
      Outside(s, room + 1);
      var mock;
      ghost var part;
      mock, part, lost := CreateQuietly(c, s, room);
      valid := mock != null;
      if mock != null {
        AllMemoryKept(sys, was, m.mem, PlannedWords(c), parts, s.setups);
        MoreInMemory(m.mem, c, s, part);
        mocks, parts := mocks[created := mock], parts[created := part];
      }
      created, rest, Repr := created + 1, rest + Lifetimes.Lost(lost), Repr + part.all;
      QuietAgain(Next(s, Create(c)), room);
    }

    lemma QuietAgain(s: Progress, room: nat)
      requires Holds(s, room, mocks, created, parts, rest, Repr)
      ensures Quiet(s, room)
    {
    }

    lemma MoreInMemory(mem: Memory, c: Setup, s: Progress, part: Part)
      requires AllInMemory(sys, mem, parts, s.setups) && StubsInMemory(sys, mem, part.stubs, c.address)
      ensures AllInMemory(sys, mem, parts[|s.setups| := part], s.setups + [c])
    {
    }

    lemma NextSetups(c: Setup, s: Progress, n: nat)
      requires Allowed(sys, s, Create(c), n)
      ensures Next(s, Create(c)).setups == s.setups + [c]
      ensures forall mem | AllInMemory(sys, mem, parts, s.setups) :: AllInMemory(sys, mem, parts, s.setups + [c])
    {
      PlanFits(s.table, sys, s.words, c);
    }

    // ---- mmk_reset ----

    lemma StubsUnhook(mock: Mock, hooks: seq<Got.Stub>)
      requires mock.Valid() && Hooked(mock, hooks) && StubsIn(slots[..], hooks)
      ensures AllInTable(slots[..], mock.stubList)
      ensures DestroyedInOrder(slots[..], mock.stubList) == UnhookAll(slots[..], hooks)
    {
      StubBlocksHas(mock.stubList);
      DestroyedIsUnhooked(slots[..], mock.stubList);
    }

    method Unmock(k: nat, r: Reach, ghost hooks: seq<Got.Stub>)
      requires Reachable(k, r.way, hooks) && InMemory(sys, m.mem, mocks[k])
      requires ValidCaller(sys, r.caller) && StubsIn(slots[..], hooks)
      modifies heap, slots, m
      ensures heap.live == old(heap.live) - old(mocks[k].Owned())
      ensures slots[..] == UnhookAll(old(slots[..]), hooks)
      ensures m.reserved == old(m.reserved) - StubWords(mocks[k].stubList)
      ensures OnlyStack(sys, old(m.mem), m.mem) && m.tls.asked == 0
    {
      hide AddressesDiffer, InMemory, ValidCaller, OnlyStack, Mock.Valid, Mock.Owned, Hooked, LeadsTo, ByHook, StubsIn,
           AllInTable, DestroyedInOrder, UnhookAll, StubWords;
      StubsUnhook(mocks[k], hooks);
      var fn;
      ghost var i;
      fn, i := Resolve(heap, slots, mocks[k], r.way, hooks);
      MmkReset(heap, slots, m, sys, r.caller, gap, fn, MockAt(mocks), mocks[k], i);
    }

    lemma OthersReflect(k: nat, s: Progress, t: Progress, room: nat)
      requires AllReflect(mocks, s, room + 1, parts, Repr) && mocks.Keys == s.live.Keys && t.ops == s.ops
      requires t.setups == s.setups && t.live == s.live - {k}
      ensures AllReflect(mocks - {k}, t, room, parts - {k}, Repr)
    {
      hide Reflects;
      forall l | l in mocks && l != k
        ensures Reflects(mocks[l], l, t, room, parts[l])
      {
        ReflectsStill(mocks[l], l, s, t, room, parts[l]);
      }
    }

    lemma ResetProgress(s: Progress, k: nat, r: Reach, t: Progress)
      requires Sound(s) && Numbered(s) && k in s.live && t == Next(s, Reset(k, r))
      ensures HooksMatch(s, k) && Sound(t) && Numbered(t)
      ensures t == s.(live := s.live - {k}, table := UnhookAll(s.table, s.live[k]),
                      words := s.words - PlannedWords(s.setups[k]))
    {
      SoundAfterReset(s, k, r);
    }

    /** One mock fewer. */
    lemma Removed(k: nat, r: Reach, s: Progress, room: nat, live: set<object>)
      requires Separate(parts, rest, Repr) && AllReflect(mocks, s, room + 1, parts, Repr) && thread.Idle()
      requires mocks.Keys == s.live.Keys == parts.Keys && Sound(s) && Numbered(s) && created == |s.setups| && k in mocks
      requires live == rest + Owned(parts) && heap.live == live - parts[k].own
      requires rest !! parts[k].own && forall l | l in parts && l != k :: parts[l].own !! parts[k].own
      requires slots[..] == Next(s, Reset(k, r)).table
      ensures Holds(Next(s, Reset(k, r)), room, mocks - {k}, created, parts - {k}, rest, Repr)
    {
      hide Sound, Numbered, Next, AllReflect, Owned, UnhookAll, HooksMatch, PlannedWords, Separate;
      ResetProgress(s, k, r, Next(s, Reset(k, r)));
      OthersReflect(k, s, Next(s, Reset(k, r)), room);
      Withdrawn(live, rest, parts, k);
      FewerSeparate(k);
    }

    lemma FewerSeparate(k: nat)
      requires Separate(parts, rest, Repr)
      ensures Separate(parts - {k}, rest, Repr)
    {
    }

    method ResetQuietly(k: nat, r: Reach, ghost s: Progress, ghost room: nat)
      requires Quiet(s, room + 1) && LeadsThere(s, k, r.way) && k in mocks && InMemory(sys, m.mem, mocks[k])
      requires m.reserved == s.words && ValidCaller(sys, r.caller)
      modifies heap, slots, m
      ensures Holds(Next(s, Reset(k, r)), room, mocks - {k}, created, parts - {k}, rest, Repr)
      ensures m.reserved == Next(s, Reset(k, r)).words && OnlyStack(sys, old(m.mem), m.mem) && m.tls.asked == 0
    {
      hide Sound, Numbered, Next, StubsInMemory, Reflects, OnlyStack, PlannedWords, Owned, Reachable, InMemory,
           ValidCaller, LeadsThere, HooksMatch, UnhookAll, Mock.Owned;
      ghost var live := heap.live;
      CanReach(s, room + 1, k, r.way);
      About(s, room + 1, k);
      OwnersApart(s, room + 1, k);
      ResetProgress(s, k, r, Next(s, Reset(k, r)));
      Unmock(k, r, s.live[k]);
      Removed(k, r, s, room, live);
    }

    lemma FewerInMemory(mem: Memory, k: nat, setups: seq<Setup>)
      requires AllInMemory(sys, mem, parts, setups)
      ensures AllInMemory(sys, mem, parts - {k}, setups)
    {
      hide StubsInMemory;
    }

    method RunReset(k: nat, r: Reach, ghost s: Progress, ghost room: nat)
      requires Between(s, room + 1) && Allowed(sys, s, Reset(k, r), room + 1)
      modifies `mocks, `parts, heap, slots, m
      ensures Between(Next(s, Reset(k, r)), room)
    {
      hide Quiet, Holds, Next, OnlyStack, LeadsThere, Reachable, ValidCaller, Loaded;
      ghost var was := m.mem;
      Outside(s, room + 1);
      CanReach(s, room + 1, k, r.way);
      NextOfReset(s, k, r);
      ResetQuietly(k, r, s, room);
      AllMemoryStays(sys, was, m.mem, parts, s.setups);
      FewerInMemory(m.mem, k, s.setups);
      mocks, parts := mocks - {k}, parts - {k};
      QuietAgain(Next(s, Reset(k, r)), room);
    }

    lemma NextOfReset(s: Progress, k: nat, r: Reach)
      ensures Next(s, Reset(k, r)).setups == s.setups
    {
    }

    // ---- programs ----

    lemma NoLoss(rest: set<object>)
      ensures rest + Lifetimes.Lost(null) == rest
    {
    }

    /** One statement of a program. A block that nobody will free is new. */
    method RunStatement(p: Statement, ghost s: Progress, ghost room: nat) returns (out: Outcome, ghost lost: object?)
      requires Between(s, room + 1) && Allowed(sys, s, p, room + 1)
      modifies this, Repr, heap, slots, m
      ensures Between(Next(s, p), room) && fresh(Repr - old(Repr)) && out == OutcomeOf(s, p)
      ensures rest == old(rest) + Lifetimes.Lost(lost) && (lost != null ==> fresh(lost))
      ensures Next(s, p).lost == s.lost + if lost == null then 0 else 1
    {
      hide Between, Allowed, Next, Leaks, Lifetimes.Lost, Scripts.Answer;
      NoLoss(rest);
      LossesCounted(sys, s, p, room + 1);
      match p
      case Create(c) =>
        var valid;
        valid, lost := RunCreate(c, s, room);
        out := Created(valid);
      case Do(op, r) =>
        lost := null;
        var output := RunDo(op, r, s, room);
        out := Done(output);
      case Reset(k, r) =>
        lost := null;
        RunReset(k, r, s, room);
        out := Gone;
    }

    /**
     Any program, with creations and resets anywhere: every statement comes to what is documented, and afterwards the
     mocks that live, the table, the memory and the heap are as the program says, with no session open.
     */
    method RunProgram(ps: seq<Statement>, ghost start: Progress) returns (outs: seq<Outcome>, ghost lost: seq<object>)
      requires Between(start, |ps|) && Legal(sys, start, ps)
      modifies this, Repr, heap, slots, m
      ensures outs == Outcomes(start, ps) && Between(After(start, ps), 0)
      ensures rest == old(rest) + Blocks(lost) && Distinct(lost) && fresh(Blocks(lost))
      ensures start.lost + |lost| == After(start, ps).lost
    {
      hide *;
      outs, lost := [], [];
      var i := 0;
      NoneLost(rest);
      NothingRun(start, ps);
      while i < |ps|
        invariant 0 <= i <= |ps| && outs == Outcomes(start, ps[..i])
        invariant Between(After(start, ps[..i]), |ps| - i) && fresh(Repr - old(Repr))
        invariant rest == old(rest) + Blocks(lost) && Distinct(lost) && fresh(Blocks(lost))
        invariant start.lost + |lost| == After(start, ps[..i]).lost
      {
        ghost var block;
        var out;
        OneMoreRun(sys, start, ps, i);
        out, block := RunStatement(ps[i], After(start, ps[..i]), |ps| - i - 1);
        outs := outs + [out];
        OneMoreLost(lost, block);
        if block != null {
          lost := lost + [block];
        }
        i := i + 1;
      }
      assert ps[..i] == ps;
    }
  }

  /** What `Between` says of everything outside the mocks. */
  lemma Observed(p: Process, s: Progress, room: nat)
    requires p.Between(s, room)
    ensures p.thread.Idle() && p.m.tls.asked == 0 && p.slots[..] == s.table && p.m.reserved == s.words
    ensures p.heap.live == p.rest + Owned(p.parts) && (s.live == map[] ==> Owned(p.parts) == {})
  {
  }

  /**
   A test program from its first statement to its last. Once no mock lives, the heap holds what it held before and one
   block for each failed stub, and the words of memory are as before. With trampolines at new addresses, the offset
   table is the original one exactly when every slot has been given back; if no live stub's slot is ever patched again,
   it is once no mock lives.
   */
  method TestProgram(heap: Heap, slots: array<Got.Fn>, thread: Thread, m: Processor, sys: System, gap: Gap,
                     ps: seq<Statement>)
    returns (outs: seq<Outcome>, ghost lost: seq<object>)
    requires thread.Idle() && m.tls.asked == 0 && Legal(sys, Start(slots[..], m.reserved), ps)
    modifies heap, slots, thread, m
    ensures var start := Start(old(slots[..]), old(m.reserved));
      && outs == Outcomes(start, ps)
      && var s := After(start, ps);
         && thread.Idle() && m.tls.asked == 0 && slots[..] == s.table && m.reserved == s.words
         && Distinct(lost) && fresh(Blocks(lost)) && |lost| == CallRecords.CountWhere(ps, Loses)
         && (s.live == map[] ==> heap.live == old(heap.live) + Blocks(lost) && m.reserved == old(m.reserved))
         && (AlwaysApart(start, ps) ==>
               && GotRuns.Invariant(old(slots[..]), TableState(s))
               && (s.live == map[] ==> slots[..] == old(slots[..])))
         && (AllNew(old(slots[..]), ps) ==> (slots[..] == old(slots[..]) <==> AllGivenBack(ps, slots.Length)))
  {
    hide *;
    ghost var table, words := slots[..], m.reserved;
    ghost var start := Start(table, words);
    NothingLostYet(table, words);
    var p := new Process(heap, slots, thread, m, sys, gap, |ps|);
    outs, lost := p.RunProgram(ps, start);
    Observed(p, After(start, ps), 0);
    LossesAreFailedStubs(sys, start, ps);
    WordsAreKept(sys, table, words, ps);
    if AlwaysApart(start, ps) {
      TableIsKept(sys, table, words, ps);
    }
    if AllNew(table, ps) {
      TableIsGivenBack(sys, table, words, ps);
    }
  }

  lemma NothingLostYet(table: seq<Got.Fn>, words: set<int>)
    ensures Start(table, words).lost == 0
  {
  }
}
