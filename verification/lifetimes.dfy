/** The life of a mock from mmk_mock to mmk_reset: its stubs, its table slots, its blocks and its words in memory. */
module Lifetimes {
  import opened Bytes
  import opened CHeap
  import opened Context
  import opened Machine
  import opened Vitals
  import opened ParamStructs
  import CallLogs
  import ContractLists
  import opened Freeing
  import opened HookLists
  import opened MockContexts
  import opened Stubs
  import Got
  import GotRuns
  import Targets

  /**
   One mock: its target and its parameters, where the lookups of its two stubs lead, the routine of its stubs, the
   address malloc gives its context, and whether the user asked for an invalid mock instead of a panic.
   */
  datatype Setup = Setup(target: CString, layout: Layout, scope: Site, main: Site, routine: Pointer, address: Pointer,
                         noabort: bool)

  /** The first stub cannot be created. */
  predicate Fails(s: Setup) {
    Targets.Unreadable(s.target) || s.scope.places == []
  }


  /** A second stub is attempted unless the target names the main executable itself. */
  predicate TriesMain(s: Setup) {
    !Fails(s) && !Targets.SelfOnly(s.target)
  }

  predicate TwoStubs(s: Setup) {
    TriesMain(s) && s.main.places != []
  }

  /** Some stub could not be created; its copy of the name is lost. */
  predicate Leaks(s: Setup) {
    Fails(s) || (TriesMain(s) && s.main.places == [])
  }

  lemma FailsWhen(s: Setup)
    ensures Fails(s) <==> Targets.Unreadable(s.target) || s.scope.places == []
    ensures Leaks(s) <==>
      Targets.Unreadable(s.target) || s.scope.places == [] || (!Targets.SelfOnly(s.target) && s.main.places == [])
  {
  }

  function HookAt(site: Site): GotRuns.Hook {
    GotRuns.Hook(site.places, site.trampoline)
  }

  /** The block that is lost with a failed stub, if there is one. */
  ghost function Lost(block: object?): set<object> {
    if block == null then {} else {block}
  }

  /** What the mock patches, in order. */
  function Plan(s: Setup): (hooks: seq<GotRuns.Hook>) {
    if s.scope.places == [] then []
    else if TwoStubs(s) then [HookAt(s.scope), HookAt(s.main)]
    else [HookAt(s.scope)]
  }

  function PlannedWords(s: Setup): set<int> {
    if s.scope.places == [] then {}
    else if TwoStubs(s) then SiteWords(s.scope) + SiteWords(s.main)
    else SiteWords(s.scope)
  }

  /** What the lookups and the system promise about a mock to be created. */
  predicate Creatable(slots: seq<Got.Fn>, sys: System, reserved: set<int>, s: Setup) {
    && ValidLayout(s.layout)
    && Got.PlacesIn(slots, s.scope.places) && Got.PlacesIn(slots, s.main.places)
    && (s.scope.places != [] ==> FreshSite(sys, reserved, s.scope))
    && (TwoStubs(s) ==> FreshSite(sys, reserved + SiteWords(s.scope), s.main))
  }

  /** A heap-allocated copy of the name in front of the '@'. */
  method CopyName(heap: Heap, target: CString) returns (name: array<char>, self: bool)
    modifies heap
    ensures fresh(name) && heap.live == old(heap.live) + {name}
    ensures name[..] == Targets.Split(target).0 + ['\0']
    ensures self == Targets.SelfOnly(target)
  {
    var nameEnd := Vitals.Strchr(target, '@');
    var size := if nameEnd.Some? then nameEnd.value else |target|;
    name := new char[size + 1];
    heap.Allocated(name);
    heap.Use(name);
    Vitals.Strncpy(name, target, size);
    name[size] := '\0';
    assert name[..size] == target[..size];
    self := Targets.IsSelfTarget(target);
  }

  /** Hangs a new stub at the end of a mock's list. */
  method Attach(heap: Heap, mock: Mock, stub: Stub)
    requires mock.Valid() && mock.stubList == [] && stub.next == null && mock in heap.live
    requires stub.Blocks() !! mock.Repr
    modifies mock`stubs, mock`stubList, mock`stubBlocks, mock`Repr
    ensures mock.Valid() && mock.stubs == stub && mock.stubList == [stub]
    ensures mock.Repr == old(mock.Repr) + stub.Blocks()
    ensures mock.Contracts() == old(mock.Contracts()) && mock.Calls() == old(mock.Calls())
    ensures mock.Owned() == old(mock.Owned()) + stub.Blocks()
  {
    heap.Use(mock);
    mock.stubs := stub;
    mock.stubList := [stub];
    mock.stubBlocks := stub.Blocks();
    mock.Repr := mock.Repr + stub.Blocks();
    assert mock.stubList[1..] == [];
  }

  lemma OneStubBlocks(stub: Stub)
    ensures StubBlocks([stub]) == stub.Blocks() && StubWords([stub]) == stub.Words()
  {
    assert [stub][1..] == [];
  }

  method LinkTwo(heap: Heap, first: Stub, second: Stub)
    requires second.next == null && first.Blocks() !! second.Blocks() && first in heap.live
    modifies first`next
    ensures StubList(first, [first, second])
    ensures StubBlocks([first, second]) == first.Blocks() + second.Blocks()
  {
    OneStubBlocks(second);
    heap.Use(first);
    first.next := second;
    assert [first, second][1..] == [second] && [second][1..] == [];
  }

  method AttachSecond(heap: Heap, mock: Mock, first: Stub, second: Stub)
    requires mock.Valid() && mock.stubs == first && mock.stubList == [first] && second.next == null
    requires second.Blocks() !! mock.Repr && first in heap.live
    modifies first`next, mock`stubList, mock`stubBlocks, mock`Repr
    ensures mock.Valid() && mock.stubs == first && mock.stubList == [first, second]
    ensures mock.Repr == old(mock.Repr) + second.Blocks()
    ensures mock.Contracts() == old(mock.Contracts()) && mock.Calls() == old(mock.Calls())
    ensures mock.Owned() == old(mock.Owned()) + second.Blocks()
  {
    hide CallLogs.CallLog.Valid, ContractLists.ContractList.Valid, ContractLists.ContractList.Contracts, CallsOf;
    OneStubBlocks(first);
    LinkTwo(heap, first, second);
    mock.stubList := [first, second];
    mock.stubBlocks := mock.stubBlocks + second.Blocks();
    mock.Repr := mock.Repr + second.Blocks();
  }

  // ---- creating the stubs of a mock ----

  /** The first stub of a mock, where its target says. */
  method StubInScope(heap: Heap, slots: array<Got.Fn>, m: Processor, sys: System, s: Setup, mock: Mock)
    returns (stub: Stub?, panicked: bool, ghost lost: object?)
    requires mock.Valid() && heap !in mock.Repr && slots !in mock.Repr && m !in mock.Repr
    requires mock.stubList == [] && mock in heap.live
    requires Got.PlacesIn(slots[..], s.scope.places)
    requires s.scope.places != [] ==> FreshSite(sys, m.reserved, s.scope)
    modifies heap, slots, m`mem, m`tls, m`reserved, mock`stubs, mock`stubList, mock`stubBlocks, mock`Repr
    ensures m.tls == Tls(0, NULL) && (panicked <==> Targets.Unreadable(s.target))
    ensures stub == null <==> Fails(s)
    ensures mock.Valid() && mock.Contracts() == old(mock.Contracts()) && mock.Calls() == old(mock.Calls())
    ensures stub == null ==>
      && mock.Repr == old(mock.Repr) && mock.Owned() == old(mock.Owned()) && slots[..] == old(slots[..])
      && lost != null && fresh(lost) && lost !in mock.Repr && heap.live == old(heap.live) + {lost}
      && m.mem == old(m.mem) && m.reserved == old(m.reserved)
    ensures stub != null ==>
      && lost == null && fresh(stub) && fresh(stub.Blocks()) && mock.Repr == old(mock.Repr) + stub.Blocks()
      && heap.live == old(heap.live) + stub.Blocks() && mock.Owned() == old(mock.Owned()) + stub.Blocks()
      && mock.stubs == stub && mock.stubList == [stub] && stub.ctx == mock
      && (slots[..], stub.Hook()) == Got.Create(old(slots[..]), s.scope.places, s.scope.trampoline)
    ensures stub != null ==>
      && stub in heap.live && stub.Words() == SiteWords(s.scope) && stub.trampoline == s.scope.trampoline
      && stub.path == Targets.StubPath(s.target) && Named(stub.name, s.target)
      && stub.routine == s.routine && stub.address == s.scope.address
      && Loaded(sys, m.mem, stub, mock.address) && OnlyWords(old(m.mem), m.mem, SiteWords(s.scope))
      && m.reserved == old(m.reserved) + SiteWords(s.scope)
  {
    hide *;
    FailsWhen(s);
    ghost var name: object;
    stub, panicked, name := Stubs.Create(heap, slots, m, sys, s.target, mock, mock.address, s.routine, s.scope);
    if stub == null {
      lost := name;
    } else {
      lost := null;
      Attach(heap, mock, stub);
    }
  }

  /** A stub for the name alone bears the same name. */
  lemma BareNamed(name: array<char>, target: CString)
    ensures Named(name, Targets.Split(target).0) <==> Named(name, target)
  {
    Targets.SplitPlain(Targets.Split(target).0);
  }

  /** The second stub of a mock, for the bare name in the main executable. */
  method StubInMain(heap: Heap, slots: array<Got.Fn>, m: Processor, sys: System, s: Setup, name: CString, mock: Mock,
                    first: Stub)
    returns (ghost lost: object?)
    requires mock.Valid() && heap !in mock.Repr && slots !in mock.Repr && m !in mock.Repr
    requires mock.stubs == first && mock.stubList == [first]
    requires first in heap.live && Got.PlacesIn(slots[..], s.main.places)
    requires s.main.places != [] ==> FreshSite(sys, m.reserved, s.main)
    requires name == Targets.Split(s.target).0 && Named(first.name, s.target)
    modifies heap, slots, m`mem, m`tls, m`reserved, first`next, mock`stubList, mock`stubBlocks, mock`Repr
    ensures m.tls == Tls(0, NULL)
    ensures mock.Valid() && mock.Contracts() == old(mock.Contracts()) && mock.Calls() == old(mock.Calls())
    ensures first.Hook() == old(first.Hook())
    ensures s.main.places == [] ==>
      && lost != null && fresh(lost) && lost !in mock.Repr && heap.live == old(heap.live) + {lost}
      && mock.stubList == [first] && mock.Repr == old(mock.Repr) && mock.Owned() == old(mock.Owned())
      && slots[..] == old(slots[..]) && m.mem == old(m.mem) && m.reserved == old(m.reserved)
    ensures s.main.places != [] ==>
      && lost == null && |mock.stubList| == 2 && mock.stubList[0] == first
      && fresh(mock.stubList[1].Blocks()) && heap.live == old(heap.live) + mock.stubList[1].Blocks()
      && mock.Repr == old(mock.Repr) + mock.stubList[1].Blocks()
      && mock.Owned() == old(mock.Owned()) + mock.stubList[1].Blocks()
      && var second := mock.stubList[1];
         && second.ctx == mock && Loaded(sys, m.mem, second, mock.address) && second.Words() == SiteWords(s.main)
         && (slots[..], second.Hook()) == Got.Create(old(slots[..]), s.main.places, s.main.trampoline)
         && OnlyWords(old(m.mem), m.mem, SiteWords(s.main)) && m.reserved == old(m.reserved) + SiteWords(s.main)
         && second.path == None && Named(second.name, s.target) && second.trampoline == s.main.trampoline
         && second.routine == s.routine && second.address == s.main.address
    ensures Named(first.name, s.target)
  {
    hide *;
    Targets.BareNameIsReadable(s.target);
    ghost var copy: object;
    var second, panicked;
    second, panicked, copy := Stubs.Create(heap, slots, m, sys, name, mock, mock.address, s.routine, s.main);
    if second == null {
      lost := copy;
    } else {
      lost := null;
      BareNamed(second.name, s.target);
      AttachSecond(heap, mock, first, second);
    }
  }

  // ---- what creation achieves ----

  /** All stubs belong to the mock, and table and stubs are as hooking the plan makes them. */
  ghost predicate Stubbed(mock: Mock, s: Setup, before: seq<Got.Fn>, after: seq<Got.Fn>)
    requires GotRuns.HooksIn(before, Plan(s))
    reads mock, set i | 0 <= i < |mock.stubList| :: mock.stubList[i].offsets
  {
    && (forall i | 0 <= i < |mock.stubList| :: mock.stubList[i].ctx == mock)
    && (after, HooksOf(mock.stubList)) == HookAll(before, Plan(s))
  }

  /** The words of all stubs of the mock are in memory. */
  ghost predicate InMemory(sys: System, mem: Memory, mock: Mock)
    reads mock
  {
    forall i | 0 <= i < |mock.stubList| :: Loaded(sys, mem, mock.stubList[i], mock.address)
  }

  lemma LoadedStays(sys: System, before: Memory, after: Memory, s: Stub, ctx: Pointer, words: set<int>)
    requires Loaded(sys, before, s, ctx) && OnlyWords(before, after, words) && s.Words() !! words
    ensures Loaded(sys, after, s, ctx)
  {
    hide Fetch;
  }

  lemma LayoutIsValid(slots: seq<Got.Fn>, sys: System, reserved: set<int>, s: Setup)
    requires Creatable(slots, sys, reserved, s)
    ensures ValidLayout(s.layout)
  {
  }

  lemma PlanFits(slots: seq<Got.Fn>, sys: System, reserved: set<int>, s: Setup)
    requires Creatable(slots, sys, reserved, s)
    ensures GotRuns.HooksIn(slots, Plan(s))
  {
  }

  lemma {:induction false} HookOneOrTwo(slots: seq<Got.Fn>, a: GotRuns.Hook, b: GotRuns.Hook)
    requires Got.PlacesIn(slots, a.places) && Got.PlacesIn(slots, b.places)
    ensures var (one, first) := Got.Create(slots, a.places, a.trampoline);
      && HookAll(slots, [a]) == (one, [first])
      && var (two, second) := Got.Create(one, b.places, b.trampoline);
         HookAll(slots, [a, b]) == (two, [first, second])
  {
    hide Got.Create;
    var (one, first) := Got.Create(slots, a.places, a.trampoline);
    var (two, second) := Got.Create(one, b.places, b.trampoline);
    assert [a][..0] == [] && [a, b][..1] == [a];
    assert HookAll(slots, [a]).1 == [] + [first] == [first];
    assert HookAll(slots, [a, b]).1 == [first] + [second] == [first, second];
  }

  lemma StubbedOnce(mock: Mock, s: Setup, before: seq<Got.Fn>, after: seq<Got.Fn>)
    requires GotRuns.HooksIn(before, Plan(s)) && s.scope.places != [] && !TwoStubs(s)
    requires Got.PlacesIn(before, s.scope.places)
    requires |mock.stubList| == 1 && mock.stubList[0].ctx == mock
    requires mock.stubList[0].Words() == SiteWords(s.scope)
    requires (after, mock.stubList[0].Hook()) == Got.Create(before, s.scope.places, s.scope.trampoline)
    ensures Stubbed(mock, s, before, after) && StubWords(mock.stubList) == PlannedWords(s)
  {
    hide Got.Create;
    HookOneOrTwo(before, HookAt(s.scope), HookAt(s.scope));
    assert HooksOf(mock.stubList) == [mock.stubList[0].Hook()];
    assert mock.stubList == [mock.stubList[0]];
    OneStubBlocks(mock.stubList[0]);
  }

  lemma StubbedTwice(mock: Mock, s: Setup, before: seq<Got.Fn>, one: seq<Got.Fn>, after: seq<Got.Fn>)
    requires GotRuns.HooksIn(before, Plan(s)) && s.scope.places != [] && TwoStubs(s)
    requires Got.PlacesIn(before, s.scope.places)
    requires |mock.stubList| == 2 && mock.stubList[0].ctx == mock == mock.stubList[1].ctx
    requires mock.stubList[0].Words() == SiteWords(s.scope) && mock.stubList[1].Words() == SiteWords(s.main)
    requires (one, mock.stubList[0].Hook()) == Got.Create(before, s.scope.places, s.scope.trampoline)
    requires Got.PlacesIn(one, s.main.places)
    requires (after, mock.stubList[1].Hook()) == Got.Create(one, s.main.places, s.main.trampoline)
    ensures Stubbed(mock, s, before, after) && StubWords(mock.stubList) == PlannedWords(s)
  {
    hide Got.Create;
    HookOneOrTwo(before, HookAt(s.scope), HookAt(s.main));
    assert HooksOf(mock.stubList) == [mock.stubList[0].Hook(), mock.stubList[1].Hook()];
    assert mock.stubList[1..] == [mock.stubList[1]];
    OneStubBlocks(mock.stubList[1]);
  }

  /** Table, stubs and memory after a successful creation, and the words it took. */
  ghost predicate Made(sys: System, mock: Mock, s: Setup, before: seq<Got.Fn>, after: seq<Got.Fn>, was: Memory,
                       mem: Memory)
    requires GotRuns.HooksIn(before, Plan(s))
    reads mock, set i | 0 <= i < |mock.stubList| :: mock.stubList[i].offsets
  {
    && Stubbed(mock, s, before, after) && InMemory(sys, mem, mock)
    && StubWords(mock.stubList) == PlannedWords(s) && OnlyWords(was, mem, PlannedWords(s))
  }

  lemma MadeOnce(sys: System, mock: Mock, s: Setup, before: seq<Got.Fn>, after: seq<Got.Fn>, was: Memory, mem: Memory)
    requires GotRuns.HooksIn(before, Plan(s)) && s.scope.places != [] && !TwoStubs(s)
    requires Got.PlacesIn(before, s.scope.places)
    requires |mock.stubList| == 1 && mock.stubList[0].ctx == mock
    requires mock.stubList[0].Words() == SiteWords(s.scope)
    requires (after, mock.stubList[0].Hook()) == Got.Create(before, s.scope.places, s.scope.trampoline)
    requires Loaded(sys, mem, mock.stubList[0], mock.address) && OnlyWords(was, mem, SiteWords(s.scope))
    ensures Made(sys, mock, s, before, after, was, mem) && PlannedWords(s) == SiteWords(s.scope)
  {
    hide Got.Create, Loaded, OnlyWords, SiteWords;
    StubbedOnce(mock, s, before, after);
  }

  lemma MadeTwice(sys: System, mock: Mock, s: Setup, before: seq<Got.Fn>, one: seq<Got.Fn>, after: seq<Got.Fn>,
                  was: Memory, between: Memory, mem: Memory)
    requires GotRuns.HooksIn(before, Plan(s)) && s.scope.places != [] && TwoStubs(s)
    requires Got.PlacesIn(before, s.scope.places)
    requires |mock.stubList| == 2 && mock.stubList[0].ctx == mock == mock.stubList[1].ctx
    requires mock.stubList[0].Words() == SiteWords(s.scope) && mock.stubList[1].Words() == SiteWords(s.main)
    requires SiteWords(s.main) !! SiteWords(s.scope)
    requires (one, mock.stubList[0].Hook()) == Got.Create(before, s.scope.places, s.scope.trampoline)
    requires Got.PlacesIn(one, s.main.places)
    requires (after, mock.stubList[1].Hook()) == Got.Create(one, s.main.places, s.main.trampoline)
    requires Loaded(sys, between, mock.stubList[0], mock.address) && Loaded(sys, mem, mock.stubList[1], mock.address)
    requires OnlyWords(was, between, SiteWords(s.scope)) && OnlyWords(between, mem, SiteWords(s.main))
    ensures Made(sys, mock, s, before, after, was, mem) && PlannedWords(s) == SiteWords(s.scope) + SiteWords(s.main)
  {
    hide Got.Create, Loaded, SiteWords, Fetch;
    LoadedStays(sys, between, mem, mock.stubList[0], mock.address, SiteWords(s.main));
    StubbedTwice(mock, s, before, one, after);
  }

  /**
   The first stub is for the target as it stands, a second one for the bare name in the main executable; both have that
   name.
   */
  ghost predicate Labelled(mock: Mock, s: Setup)
    reads mock, set i | 0 <= i < |mock.stubList| :: mock.stubList[i].name
  {
    && |mock.stubList| == (if TwoStubs(s) then 2 else 1)
    && (forall i | 0 <= i < |mock.stubList| ::
          Named(mock.stubList[i].name, s.target) && mock.stubList[i].routine == s.routine)
    && mock.stubList[0].path == Targets.StubPath(s.target)
    && mock.stubList[0].trampoline == s.scope.trampoline && mock.stubList[0].address == s.scope.address
    && (TwoStubs(s) ==>
          && mock.stubList[1].path == None
          && mock.stubList[1].trampoline == s.main.trampoline && mock.stubList[1].address == s.main.address)
  }

  /** The second stub, where one is tried; the first is in place. */
  method TryMain(heap: Heap, slots: array<Got.Fn>, m: Processor, sys: System, s: Setup, bare: CString, mock: Mock,
                 stub: Stub, ghost before: seq<Got.Fn>, ghost was: Memory, ghost taken: set<int>)
    returns (ghost added: set<object>, ghost lost: object?)
    requires mock.Valid() && heap !in mock.Repr && slots !in mock.Repr && m !in mock.Repr
    requires mock.stubs == stub && mock.stubList == [stub] && stub.ctx == mock && stub in heap.live
    requires GotRuns.HooksIn(before, Plan(s)) && TriesMain(s)
    requires Got.PlacesIn(before, s.scope.places) && Got.PlacesIn(slots[..], s.main.places)
    requires s.main.places != [] ==> FreshSite(sys, m.reserved, s.main)
    requires bare == Targets.Split(s.target).0 && Named(stub.name, s.target)
    requires stub.path == Targets.StubPath(s.target) && stub.routine == s.routine
    requires stub.trampoline == s.scope.trampoline && stub.address == s.scope.address
    requires (slots[..], stub.Hook()) == Got.Create(before, s.scope.places, s.scope.trampoline)
    requires stub.Words() == SiteWords(s.scope) && Loaded(sys, m.mem, stub, mock.address)
    requires OnlyWords(was, m.mem, SiteWords(s.scope)) && m.reserved == taken + SiteWords(s.scope)
    modifies heap, slots, m`mem, m`tls, m`reserved, stub`next, mock`stubList, mock`stubBlocks, mock`Repr
    ensures m.tls == Tls(0, NULL)
    ensures mock.Valid() && mock.Contracts() == old(mock.Contracts()) && mock.Calls() == old(mock.Calls())
    ensures mock.Repr == old(mock.Repr) + added && mock.Owned() == old(mock.Owned()) + added && fresh(added)
    ensures heap.live == old(heap.live) + added + Lost(lost) && (lost == null <==> !Leaks(s))
    ensures lost != null ==> fresh(lost) && lost !in mock.Repr
    ensures Made(sys, mock, s, before, slots[..], was, m.mem) && m.reserved == taken + PlannedWords(s)
    ensures Labelled(mock, s)
  {
    hide Mock.Valid, Mock.Owned, Mock.Contracts, Mock.Calls, Got.Create, Loaded, SiteWords, Made, Stub.Blocks,
         Stub.Words, OnlyWords, PlannedWords, Plan, Targets.SelfOnly, Targets.Unreadable, Targets.Split,
         Targets.StubPath, Named;
    ghost var one, between := slots[..], m.mem;
    FreshIsApart(sys, m.reserved, taken, s);
    lost := StubInMain(heap, slots, m, sys, s, bare, mock, stub);
    added := if s.main.places == [] then {} else mock.stubList[1].Blocks();
    if s.main.places == [] {
      MadeOnce(sys, mock, s, before, slots[..], was, m.mem);
    } else {
      MadeTwice(sys, mock, s, before, one, slots[..], was, between, m.mem);
    }
  }

  lemma FreshIsApart(sys: System, reserved: set<int>, taken: set<int>, s: Setup)
    requires s.main.places != [] ==> FreshSite(sys, reserved, s.main)
    requires reserved == taken + SiteWords(s.scope)
    ensures s.main.places != [] ==> SiteWords(s.main) !! SiteWords(s.scope)
  {
  }

  /** The stub the target asks for, and the one in the main executable where that is another place. */
  method StubsFor(heap: Heap, slots: array<Got.Fn>, m: Processor, sys: System, s: Setup, bare: CString, self: bool,
                  mock: Mock)
    returns (ok: bool, panicked: bool, ghost added: set<object>, ghost lost: object?)
    requires mock.Valid() && heap !in mock.Repr && slots !in mock.Repr && m !in mock.Repr && mock.stubList == []
    requires mock in heap.live && Creatable(slots[..], sys, m.reserved, s) && GotRuns.HooksIn(slots[..], Plan(s))
    requires self == Targets.SelfOnly(s.target) && bare == Targets.Split(s.target).0
    modifies heap, slots, m`mem, m`tls, m`reserved, mock`stubs, mock`stubList, mock`stubBlocks, mock`Repr
    ensures m.tls == Tls(0, NULL) && (panicked <==> Targets.Unreadable(s.target))
    ensures ok <==> !Fails(s)
    ensures mock.Valid() && mock.Contracts() == old(mock.Contracts()) && mock.Calls() == old(mock.Calls())
    ensures mock.Repr == old(mock.Repr) + added && mock.Owned() == old(mock.Owned()) + added && fresh(added)
    ensures heap.live == old(heap.live) + added + Lost(lost) && (lost == null <==> !Leaks(s))
    ensures lost != null ==> fresh(lost) && lost !in mock.Repr
    ensures !ok ==> slots[..] == old(slots[..]) && m.mem == old(m.mem) && m.reserved == old(m.reserved)
    ensures !ok ==> added == {}
    ensures ok ==> Made(sys, mock, s, old(slots[..]), slots[..], old(m.mem), m.mem)
    ensures ok ==> m.reserved == old(m.reserved) + PlannedWords(s) && Labelled(mock, s)
  {
    hide Mock.Valid, Mock.Owned, Mock.Contracts, Mock.Calls, Got.Create, Loaded, SiteWords, Made, Stub.Blocks,
         Stub.Words, OnlyWords, Plan, Targets.SelfOnly, Targets.Unreadable, Targets.Split, Targets.StubPath, Named;
    ghost var before, was, taken := slots[..], m.mem, m.reserved;
    var stub;
    stub, panicked, lost := StubInScope(heap, slots, m, sys, s, mock);
    ok := stub != null;
    added := if ok then stub.Blocks() else {};
    if ok && !self {
      ghost var more;
      more, lost := TryMain(heap, slots, m, sys, s, bare, mock, stub, before, was, taken);
      added := added + more;
    } else if ok {
      MadeOnce(sys, mock, s, before, slots[..], was, m.mem);
    }
  }

  /** What a mock whose creation has come this far says about itself and the table. */
  lemma MadeTable(sys: System, mock: Mock, s: Setup, before: seq<Got.Fn>, after: seq<Got.Fn>, was: Memory, mem: Memory)
    requires !Fails(s) && GotRuns.HooksIn(before, Plan(s)) && Labelled(mock, s)
    requires Made(sys, mock, s, before, after, was, mem)
    ensures |mock.stubList| == (if !Targets.SelfOnly(s.target) && s.main.places != [] then 2 else 1)
    ensures forall i | 0 <= i < |mock.stubList| ::
      Named(mock.stubList[i].name, s.target) && mock.stubList[i].routine == s.routine
    ensures mock.stubList[0].path == Targets.StubPath(s.target)
    ensures mock.stubList[0].trampoline == s.scope.trampoline && mock.stubList[0].address == s.scope.address
    ensures |mock.stubList| == 2 ==>
      && mock.stubList[1].path == None
      && mock.stubList[1].trampoline == s.main.trampoline && mock.stubList[1].address == s.main.address
    ensures |after| == |before| && forall x | 0 <= x < |after| ::
      after[x] == if |mock.stubList| == 2 && x in s.main.places then s.main.trampoline
                  else if x in s.scope.places then s.scope.trampoline
                  else before[x]
  {
    hide Named, Targets.SelfOnly, Targets.StubPath, Got.Create;
    PlannedTable(before, s);
  }

  lemma PlannedTable(before: seq<Got.Fn>, s: Setup)
    requires !Fails(s) && GotRuns.HooksIn(before, Plan(s))
    ensures forall x | 0 <= x < |before| ::
      HookAll(before, Plan(s)).0[x] == if TwoStubs(s) && x in s.main.places then s.main.trampoline
                                       else if x in s.scope.places then s.scope.trampoline
                                       else before[x]
  {
    hide Got.Create, HookAll;
    var scope, main := HookAt(s.scope), HookAt(s.main);
    assert Plan(s)[0] == scope && (TwoStubs(s) ==> Plan(s)[1] == main);
    HookOneOrTwo(before, scope, if TwoStubs(s) then main else scope);
    var one := Got.Create(before, s.scope.places, s.scope.trampoline).0;
    forall x | 0 <= x < |before|
      ensures HookAll(before, Plan(s)).0[x] == if TwoStubs(s) && x in s.main.places then s.main.trampoline
                                               else if x in s.scope.places then s.scope.trampoline
                                               else before[x]
    {
      CreatedSlot(before, s.scope.places, s.scope.trampoline, x);
      if TwoStubs(s) {
        CreatedSlot(one, s.main.places, s.main.trampoline, x);
      }
    }
  }

  lemma CreatedSlot(slots: seq<Got.Fn>, places: seq<nat>, trampoline: Pointer, x: nat)
    requires Got.PlacesIn(slots, places) && x < |slots|
    ensures Got.Create(slots, places, trampoline).0[x] == if x in places then trampoline else slots[x]
  {
    Got.PatchedSlot(slots, Got.Fresh(places), trampoline, |places|, x);
    HitsPlaces(places, x);
  }

  lemma NameReturned(live: set<object>, name: object, added: set<object>, lost: object?)
    requires name !in live && name !in added && name != lost
    ensures live + {name} + added + Lost(lost) - {name} == live + added + Lost(lost)
  {
  }

  /** The stubs of a new mock. The copy of the name is needed only meanwhile. */
  method CreateStubs(heap: Heap, slots: array<Got.Fn>, m: Processor, sys: System, s: Setup, mock: Mock)
    returns (ok: bool, panicked: bool, ghost added: set<object>, ghost lost: object?)
    requires mock.Valid() && heap !in mock.Repr && slots !in mock.Repr && m !in mock.Repr && mock.stubList == []
    requires mock in heap.live && Creatable(slots[..], sys, m.reserved, s) && GotRuns.HooksIn(slots[..], Plan(s))
    modifies heap, slots, m`mem, m`tls, m`reserved, mock`stubs, mock`stubList, mock`stubBlocks, mock`Repr
    ensures m.tls == Tls(0, NULL) && (panicked <==> Targets.Unreadable(s.target))
    ensures ok <==> !Fails(s)
    ensures mock.Valid() && mock.Contracts() == old(mock.Contracts()) && mock.Calls() == old(mock.Calls())
    ensures mock.Repr == old(mock.Repr) + added && mock.Owned() == old(mock.Owned()) + added && fresh(added)
    ensures (!panicked ==> heap.live == old(heap.live) + added + Lost(lost)) && (lost == null <==> !Leaks(s))
    ensures lost != null ==> fresh(lost) && lost !in mock.Repr
    ensures !ok ==> slots[..] == old(slots[..]) && m.mem == old(m.mem) && m.reserved == old(m.reserved)
    ensures !ok ==> added == {}
    ensures ok ==> Made(sys, mock, s, old(slots[..]), slots[..], old(m.mem), m.mem)
    ensures ok ==> m.reserved == old(m.reserved) + PlannedWords(s) && Labelled(mock, s)
  {
    var bare := Targets.Split(s.target).0;
    hide *;
    ghost var live := heap.live;
    var name, self := CopyName(heap, s.target);
    ok, panicked, added, lost := StubsFor(heap, slots, m, sys, s, bare, self, mock);
    if panicked {
      return;
    }
    NameReturned(live, name, added, lost);
    heap.Free(name);
  }

  /**
   mmk_mock. A scope that cannot be read ends in panic, whatever was requested. Apart from that a failing first stub
   ends in panic or, on request, in an invalid mock; a failing second one is passed over. Exactly one block is lost when
   some stub failed, the copy of its name, and none when none did.
   */
  method CreateMock(heap: Heap, slots: array<Got.Fn>, m: Processor, sys: System, s: Setup)
    returns (mock: Mock?, panicked: bool, ghost lost: object?)
    requires Creatable(slots[..], sys, m.reserved, s) && GotRuns.HooksIn(slots[..], Plan(s))
    modifies heap, slots, m`mem, m`tls, m`reserved
    ensures m.tls == Tls(0, NULL)
    ensures panicked <==> Targets.Unreadable(s.target) || (s.scope.places == [] && !s.noabort)
    ensures mock == null <==> Targets.Unreadable(s.target) || s.scope.places == []
    ensures (lost == null <==> !Leaks(s)) && (lost != null ==> fresh(lost))
    ensures lost != null <==>
      Targets.Unreadable(s.target) || s.scope.places == [] || (!Targets.SelfOnly(s.target) && s.main.places == [])
    ensures mock == null ==> slots[..] == old(slots[..]) && m.mem == old(m.mem) && m.reserved == old(m.reserved)
    ensures mock == null && !panicked ==> heap.live == old(heap.live) + Lost(lost)
    ensures mock != null ==>
      && mock.Valid() && fresh(mock.Repr) && mock.Contracts() == [] && mock.Calls() == []
      && mock.layout == s.layout && mock.address == s.address
      && heap.live == old(heap.live) + mock.Owned() + Lost(lost) && (lost != null ==> lost !in mock.Repr)
      && Made(sys, mock, s, old(slots[..]), slots[..], old(m.mem), m.mem)
      && m.reserved == old(m.reserved) + PlannedWords(s)
    ensures mock != null ==>
      && |mock.stubList| == (if !Targets.SelfOnly(s.target) && s.main.places != [] then 2 else 1)
      && (forall i | 0 <= i < |mock.stubList| ::
            Named(mock.stubList[i].name, s.target) && mock.stubList[i].routine == s.routine)
      && mock.stubList[0].path == Targets.StubPath(s.target)
      && mock.stubList[0].trampoline == s.scope.trampoline && mock.stubList[0].address == s.scope.address
      && (|mock.stubList| == 2 ==>
            && mock.stubList[1].path == None
            && mock.stubList[1].trampoline == s.main.trampoline && mock.stubList[1].address == s.main.address)
      && forall x | 0 <= x < slots.Length ::
           slots[x] == if |mock.stubList| == 2 && x in s.main.places then s.main.trampoline
                       else if x in s.scope.places then s.scope.trampoline
                       else old(slots[..])[x]
  {
    hide *;
    FailsWhen(s);
    LayoutIsValid(slots[..], sys, m.reserved, s);
    var ctx := new Mock(s.layout, s.address);
    OwnedInRepr(ctx);
    ghost var live := heap.live;
    heap.Allocated(ctx);
    var ok;
    ghost var added;
    ok, panicked, added, lost := CreateStubs(heap, slots, m, sys, s, ctx);
    if panicked {
      return null, true, lost;
    }
    if !ok {
      if s.noabort {
        OwnedInRepr(ctx);
        NameReturned(live, ctx, {}, lost);
        heap.Free(ctx);
        return null, false, lost;
      }
      return null, true, lost;
    }
    MadeTable(sys, ctx, s, old(slots[..]), slots[..], old(m.mem), m.mem);
    return ctx, false, lost;
  }
}
