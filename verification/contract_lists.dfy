/** The contracts of one mock, as the list of bindings hanging off its context. */
module ContractLists {
  import opened Bytes
  import opened CHeap
  import opened Patterns
  import opened Matchers
  import opened Contracts
  import opened Mocks
  import opened Freeing

  lemma ItemsHas(bs: seq<Binding>)
    ensures forall i | 0 <= i < |bs| :: bs[i] in Items(bs)
  {
    if bs != [] {
      ItemsHas(bs[1..]);
    }
  }

  lemma NodesHas(chains: seq<seq<Matcher>>)
    ensures forall i, j | 0 <= i < |chains| && 0 <= j < |chains[i]| :: chains[i][j] in Nodes(chains)
  {
    if chains != [] {
      NodesHas(chains[1..]);
    }
  }

  method NewBinding(heap: Heap, result: Result, args: seq<int>) returns (bind: Binding)
    modifies heap
    ensures fresh(bind) && bind.result == result && bind.params == args
    ensures heap.live == old(heap.live) + {bind}
  {
    bind := new Binding(result, args);
    heap.Allocated(bind);
  }

  /** A binding in front of a list whose nodes are all different from its own. */
  lemma Prepended(bind: Binding, bs: seq<Binding>, chains: seq<seq<Matcher>>, chain: seq<Matcher>, arity: nat)
    requires BindingList(bind.next, bs, chains, arity) && MatcherList(bind.matcherCtx, chain) && |bind.params| == arity
    requires bind !in Items(bs) && ChainSet(chain) !! Nodes(chains)
    ensures BindingList(bind, [bind] + bs, [chain] + chains, arity)
    ensures Defs(bind, [bind] + bs, [chain] + chains, arity)
         == Defs(bind.next, bs, chains, arity) + [Contract(bind.result, Specs(chain), bind.params)]
    ensures Items([bind] + bs) == Items(bs) + {bind} && Nodes([chain] + chains) == Nodes(chains) + ChainSet(chain)
  {
    assert ([bind] + bs)[1..] == bs && ([chain] + chains)[1..] == chains;
  }

  /** The field params of a mock context. */
  class ContractList {
    var params: Binding?
    ghost const arity: nat
    ghost var bindings: seq<Binding>
    ghost var chains: seq<seq<Matcher>>

    /** The heap blocks of all bindings and their matchers. */
    ghost var blocks: set<object>

    ghost predicate Valid()
      reads this, blocks
    {
      ItemsHas(bindings);
      NodesHas(chains);
      blocks == Items(bindings) + Nodes(chains) && BindingList(params, bindings, chains, arity)
    }

    /** The contracts in order of definition. */
    ghost function Contracts(): seq<Contract>
      requires Valid()
      reads this, blocks
    {
      ItemsHas(bindings);
      NodesHas(chains);
      Defs(params, bindings, chains, arity)
    }

    constructor (ghost arity: nat)
      ensures Valid() && Contracts() == [] && this.arity == arity && blocks == {}
    {
      this.params := null;
      this.arity := arity;
      this.bindings, this.chains, this.blocks := [], [], {};
    }

    /** What the contracts make of a call; nothing changes. */
    method Decide(heap: Heap, args: seq<int>, env: Env) returns (e: Effect)
      requires Valid() && |args| == arity && blocks <= heap.live
      ensures e == CallEffect(old(Contracts()), args, env)
    {
      ItemsHas(bindings);
      NodesHas(chains);
      e := Dispatch(heap, params, args, env, bindings, chains, arity);
    }

    /** Links a new binding with the session's matchers in front of the others. */
    method WhenImpl(heap: Heap, bind: Binding, head: Matcher, ghost chain: seq<Matcher>)
      requires Valid() && MatcherList(head, chain) && |bind.params| == arity && bind in heap.live
      requires ChainSet(chain) !! blocks && bind !in blocks
      modifies this, bind
      ensures Valid() && blocks == old(blocks) + ChainSet(chain) + {bind}
      ensures Contracts() == old(Contracts()) + [Contract(bind.result, old(Specs(chain)), bind.params)]
    {
      ItemsHas(bindings);
      NodesHas(chains);
      hide BindingList, Defs, Items, Nodes, MatcherList;
      heap.Use(bind);
      bind.matcherCtx := head;
      bind.next := params;
      Prepended(bind, bindings, chains, chain, arity);
      params := bind;
      bindings := [bind] + bindings;
      chains := [chain] + chains;
      blocks := blocks + ChainSet(chain) + {bind};
    }

    method Free(heap: Heap)
      requires Valid() && blocks <= heap.live
      modifies heap
      ensures heap.live == old(heap.live) - blocks
    {
      FreeBindings(heap, params, bindings, chains, arity);
    }
  }
}
