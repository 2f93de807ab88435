/** Giving back the blocks of linked lists, each exactly once. */
module Freeing {
  import opened CHeap
  import opened Matchers
  import opened Mocks
  import opened Stubs
  import opened HookLists
  import opened Machine
  import Got

  /** Walks a list, keeping each node's successor before the node is freed. */
  method FreeMatchers(heap: Heap, head: Matcher?, ghost chain: seq<Matcher>)
    requires Linked(head, chain) && ChainSet(chain) <= heap.live
    modifies heap
    ensures heap.live == old(heap.live) - ChainSet(chain)
  {
    var m := head;
    ghost var i := 0;
    while m != null
      invariant i <= |chain| && m == if i < |chain| then chain[i] else null
      invariant heap.live == old(heap.live) - ChainSet(chain[..i])
      decreases |chain| - i
    {
      assert m in heap.live by {
        assert m in ChainSet(chain);
        assert m !in ChainSet(chain[..i]);
      }
      heap.Use(m);
      var next := m.next;
      heap.Free(m);
      assert ChainSet(chain[..i + 1]) == ChainSet(chain[..i]) + {m};
      m := next;
      i := i + 1;
    }
    assert chain[..i] == chain;
  }

  /** Frees every binding and every matcher of its list, in the order of the two nested loops. */
  method FreeBindings(heap: Heap, params: Binding?, ghost bs: seq<Binding>, ghost chains: seq<seq<Matcher>>,
                      ghost arity: nat)
    requires BindingList(params, bs, chains, arity)
    requires Items(bs) <= heap.live && Nodes(chains) <= heap.live
    modifies heap
    ensures heap.live == old(heap.live) - Items(bs) - Nodes(chains)
  {
    hide BindingList, Items, Nodes, ChainSet;
    var p := params;
    ghost var rest, restChains := bs, chains;
    while p != null
      invariant BindingList(p, rest, restChains, arity)
      invariant Items(rest) <= heap.live && Nodes(restChains) <= heap.live
      invariant heap.live - Items(rest) - Nodes(restChains) == old(heap.live) - Items(bs) - Nodes(chains)
      decreases |rest|
    {
      p := FreeBinding(heap, p, rest, restChains, arity);
      rest, restChains := rest[1..], restChains[1..];
    }
    NoBindings(rest, restChains, arity);
  }

  /** One round of the outer loop. */
  method FreeBinding(heap: Heap, p: Binding, ghost bs: seq<Binding>, ghost chains: seq<seq<Matcher>>, ghost arity: nat)
    returns (pnext: Binding?)
    requires BindingList(p, bs, chains, arity)
    requires Items(bs) <= heap.live && Nodes(chains) <= heap.live
    modifies heap
    ensures bs != [] && chains != [] && BindingList(pnext, bs[1..], chains[1..], arity)
    ensures heap.live == old(heap.live) - {p} - ChainSet(chains[0])
    ensures Items(bs) == {p} + Items(bs[1..]) && p !in Items(bs[1..])
    ensures Nodes(chains) == ChainSet(chains[0]) + Nodes(chains[1..]) && ChainSet(chains[0]) !! Nodes(chains[1..])
  {
    heap.Use(p);
    pnext := p.next;
    heap.Use(p);
    FreeMatchers(heap, p.matcherCtx, chains[0]);
    heap.Free(p);
  }

  lemma NoBindings(bs: seq<Binding>, chains: seq<seq<Matcher>>, arity: nat)
    requires BindingList(null, bs, chains, arity)
    ensures Items(bs) == {} && Nodes(chains) == {}
  {
  }

  // ---- the stubs of a mock ----

  ghost function StubBlocks(ss: seq<Stub>): set<object> {
    if ss == [] then {} else ss[0].Blocks() + StubBlocks(ss[1..])
  }

  /** The words of memory that belong to the stubs. */
  ghost function StubWords(ss: seq<Stub>): set<int> {
    if ss == [] then {} else ss[0].Words() + StubWords(ss[1..])
  }

  ghost predicate StubList(s: Stub?, ss: seq<Stub>)
    reads ss
    decreases |ss|
  {
    if ss == [] then s == null
    else s == ss[0] && ss[0].Blocks() !! StubBlocks(ss[1..]) && StubList(s.next, ss[1..])
  }

  ghost predicate AllInTable(slots: seq<Got.Fn>, ss: seq<Stub>)
    reads set i | 0 <= i < |ss| :: ss[i].offsets
  {
    forall i | 0 <= i < |ss| :: Got.InTable(slots, ss[i].Hook().offsets)
  }

  /** The stubs as the table sees them. */
  ghost function HooksOf(ss: seq<Stub>): (hooks: seq<Got.Stub>)
    reads set i | 0 <= i < |ss| :: ss[i].offsets
    ensures |hooks| == |ss| && forall i | 0 <= i < |ss| :: hooks[i] == ss[i].Hook()
    decreases |ss|
  {
    if ss == [] then []
    else
      assert forall i | 0 <= i < |ss[1..]| :: ss[1..][i] == ss[i + 1];
      [ss[0].Hook()] + HooksOf(ss[1..])
  }

  /** The table after the stubs were destroyed in list order. */
  ghost function DestroyedInOrder(slots: seq<Got.Fn>, ss: seq<Stub>): (r: seq<Got.Fn>)
    requires AllInTable(slots, ss)
    reads set i | 0 <= i < |ss| :: ss[i].offsets
    decreases |ss|
  {
    if ss == [] then slots
    else
      assert forall i | 0 <= i < |ss[1..]| :: ss[1..][i] == ss[i + 1];
      DestroyedInOrder(Got.Destroy(slots, ss[0].Hook()), ss[1..])
  }

  lemma {:induction false} DestroyedIsUnhooked(slots: seq<Got.Fn>, ss: seq<Stub>)
    requires StubsIn(slots, HooksOf(ss))
    ensures AllInTable(slots, ss) && DestroyedInOrder(slots, ss) == UnhookAll(slots, HooksOf(ss))
    decreases |ss|
  {
    assert forall i | 0 <= i < |ss| :: HooksOf(ss)[i] == ss[i].Hook();
    if ss != [] {
      assert HooksOf(ss)[1..] == HooksOf(ss[1..]);
      DestroyedIsUnhooked(Got.Destroy(slots, ss[0].Hook()), ss[1..]);
    }
  }

  method DestroyStubs(heap: Heap, slots: array<Got.Fn>, m: Processor, stubs: Stub?, ghost ss: seq<Stub>)
    requires StubList(stubs, ss) && AllInTable(slots[..], ss)
    requires StubBlocks(ss) <= heap.live
    modifies heap, slots, m`reserved
    ensures heap.live == old(heap.live) - StubBlocks(ss) && m.reserved == old(m.reserved) - StubWords(ss)
    ensures slots[..] == DestroyedInOrder(old(slots[..]), ss)
  {
    hide AllInTable, DestroyedInOrder, Stub.Blocks, Stub.Words;
    var s := stubs;
    ghost var rest := ss;
    while s != null
      invariant StubList(s, rest) && AllInTable(slots[..], rest)
      invariant StubBlocks(rest) <= heap.live
      invariant heap.live - StubBlocks(rest) == old(heap.live) - StubBlocks(ss)
      invariant m.reserved - StubWords(rest) == old(m.reserved) - StubWords(ss)
      invariant DestroyedInOrder(slots[..], rest) == DestroyedInOrder(old(slots[..]), ss)
      decreases |rest|
    {
      HeadIsLive(heap, s, rest);
      heap.Use(s);
      var next := s.next;
      DestroyOne(heap, slots, m, s, rest);
      s := next;
      rest := rest[1..];
    }
    NoneToDestroy(slots[..]);
  }

  lemma HeadIsLive(heap: Heap, s: Stub, ss: seq<Stub>)
    requires StubList(s, ss) && StubBlocks(ss) <= heap.live
    ensures s in heap.live
  {
  }

  lemma NoneToDestroy(slots: seq<Got.Fn>)
    ensures AllInTable(slots, []) && DestroyedInOrder(slots, []) == slots && StubBlocks([]) == {}
    ensures StubWords([]) == {}
  {
  }

  method DestroyOne(heap: Heap, slots: array<Got.Fn>, m: Processor, s: Stub, ghost rest: seq<Stub>)
    requires StubList(s, rest) && AllInTable(slots[..], rest)
    requires StubBlocks(rest) <= heap.live
    modifies heap, slots, m`reserved
    ensures m.reserved == old(m.reserved) - s.Words() && StubWords(rest) == s.Words() + StubWords(rest[1..])
    ensures StubList(s.next, rest[1..]) && AllInTable(slots[..], rest[1..])
    ensures heap.live == old(heap.live) - s.Blocks()
    ensures StubBlocks(rest) == s.Blocks() + StubBlocks(rest[1..]) && s.Blocks() !! StubBlocks(rest[1..])
    ensures DestroyedInOrder(slots[..], rest[1..]) == old(DestroyedInOrder(slots[..], rest))
  {
    assert forall i | 0 <= i < |rest[1..]| :: rest[1..][i] == rest[i + 1];
    var crashed := Stubs.Destroy(heap, slots, m, s);
  }
}
