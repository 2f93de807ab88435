/** Mock contexts: the list of contracts, the call log, and the body that every stub of a mock runs. */
module Mocks {
  import opened Bytes
  import opened CHeap
  import opened CallRecords
  import opened CallLogs
  import opened Patterns
  import opened Matchers
  import opened ParamStructs
  import opened Contracts

  /** One contract as it is stored: its matchers are a list of their own. */
  class Binding {
    const result: Result
    const params: seq<int>
    var matcherCtx: Matcher?
    var next: Binding?

    constructor (result: Result, params: seq<int>)
      ensures this.result == result && this.params == params && matcherCtx == null && next == null
    {
      this.result := result;
      this.params := params;
      matcherCtx := null;
      next := null;
    }
  }

  // ---- the list of bindings ----

  ghost function Nodes(chains: seq<seq<Matcher>>): set<Matcher> {
    if chains == [] then {} else (set i | 0 <= i < |chains[0]| :: chains[0][i]) + Nodes(chains[1..])
  }

  ghost function Items(bs: seq<Binding>): set<Binding> {
    if bs == [] then {} else {bs[0]} + Items(bs[1..])
  }

  /** From `p` the next pointers lead through `bs`, whose matcher lists are `chains`; nothing is shared. */
  ghost predicate BindingList(p: Binding?, bs: seq<Binding>, chains: seq<seq<Matcher>>, arity: nat)
    reads bs, set i, j | 0 <= i < |chains| && 0 <= j < |chains[i]| :: chains[i][j]
    decreases |bs|
  {
    && |bs| == |chains|
    && if bs == [] then p == null
       else
         && p == bs[0] && |p.params| == arity
         && MatcherList(p.matcherCtx, chains[0])
         && p !in Items(bs[1..])
         && (forall i | 0 <= i < |chains[0]| :: chains[0][i] !in Nodes(chains[1..]))
         && BindingList(p.next, bs[1..], chains[1..], arity)
  }

  ghost function ContractOf(b: Binding, chain: seq<Matcher>): Contract
    requires chain != []
    reads chain
  {
    Contract(b.result, Specs(chain), b.params)
  }

  /** The contracts in order of definition: the list holds the newest one first. */
  ghost function Defs(p: Binding?, bs: seq<Binding>, chains: seq<seq<Matcher>>, arity: nat): (cs: seq<Contract>)
    requires BindingList(p, bs, chains, arity)
    reads bs, set i, j | 0 <= i < |chains| && 0 <= j < |chains[i]| :: chains[i][j]
    ensures |cs| == |bs|
    decreases |bs|
  {
    if bs == [] then [] else Defs(p.next, bs[1..], chains[1..], arity) + [ContractOf(bs[0], chains[0])]
  }

  lemma FirstBinding(heap: Heap, param: Binding, bs: seq<Binding>, chains: seq<seq<Matcher>>, arity: nat)
    requires BindingList(param, bs, chains, arity) && Items(bs) <= heap.live && Nodes(chains) <= heap.live
    ensures bs != [] && chains != [] && param in heap.live && BindingList(param.next, bs[1..], chains[1..], arity)
    ensures Items(bs[1..]) <= heap.live && Nodes(chains[1..]) <= heap.live
    ensures param.matcherCtx != null && MatcherList(param.matcherCtx, chains[0])
    ensures ChainSet(chains[0]) <= heap.live && |param.params| == arity
    ensures Defs(param, bs, chains, arity)
         == Defs(param.next, bs[1..], chains[1..], arity)
            + [Contract(param.result, Specs(chains[0]), param.params)]
  {
    assert ChainSet(chains[0]) <= Nodes(chains);
    assert param in Items(bs);
  }

  /** One round of the dispatch loop: does the first binding of the list cover the call? */
  method TryMatch(heap: Heap, param: Binding, args: seq<int>, env: Env,
                  ghost bs: seq<Binding>, ghost chains: seq<seq<Matcher>>, ghost arity: nat) returns (fits: bool)
    requires BindingList(param, bs, chains, arity) && |args| == arity
    requires Items(bs) <= heap.live && Nodes(chains) <= heap.live
    ensures bs != [] && chains != [] && param in heap.live && BindingList(param.next, bs[1..], chains[1..], arity)
    ensures Items(bs[1..]) <= heap.live && Nodes(chains[1..]) <= heap.live
    ensures var defs := Defs(param, bs, chains, arity);
      && defs == old(Defs(param, bs, chains, arity)) && defs != []
      && defs[..|defs| - 1] == Defs(param.next, bs[1..], chains[1..], arity)
      && defs[|defs| - 1].result == param.result
      && fits == Covers(defs[|defs| - 1], args, env)
  {
    hide BindingList, Defs, Items, Nodes, MatcherList, Specs, ChainSet;
    FirstBinding(heap, param, bs, chains, arity);
    heap.Use(param);
    fits := FitsPattern(heap, param.matcherCtx, param.params, args, env, chains[0]);
  }

  /** Goes through the bindings, newest first, up to the first one that covers the call. */
  method Dispatch(heap: Heap, params: Binding?, args: seq<int>, env: Env,
                  ghost bs: seq<Binding>, ghost chains: seq<seq<Matcher>>, ghost arity: nat) returns (e: Effect)
    requires BindingList(params, bs, chains, arity) && |args| == arity
    requires Items(bs) <= heap.live && Nodes(chains) <= heap.live
    ensures e == CallEffect(old(Defs(params, bs, chains, arity)), args, env)
  {
    hide BindingList, Defs, Items, Nodes, Latest, Promised, Covers;
    ghost var defs := Defs(params, bs, chains, arity);
    var param := params;
    ghost var rest, restChains := bs, chains;
    while param != null
      invariant BindingList(param, rest, restChains, arity)
      invariant Items(rest) <= heap.live && Nodes(restChains) <= heap.live
      invariant CallEffect(defs, args, env) == CallEffect(Defs(param, rest, restChains, arity), args, env)
      decreases |rest|
    {
      var fits := TryMatch(heap, param, args, env, rest, restChains, arity);
      LatestFirst(Defs(param, rest, restChains, arity), args, env);
      heap.Use(param);
      if fits {
        e := Perform(param.result, env);
        return;
      }
      param := param.next;
      rest, restChains := rest[1..], restChains[1..];
    }
    NoDefinitions(rest, restChains, arity, args, env);
    return NOTHING;
  }

  /** The last definition decides when it covers the call, and does not matter when it does not. */
  lemma LatestFirst(defs: seq<Contract>, args: seq<int>, env: Env)
    requires defs != []
    ensures CallEffect(defs, args, env)
         == if Covers(defs[|defs| - 1], args, env) then Promised(defs[|defs| - 1].result, env)
            else CallEffect(defs[..|defs| - 1], args, env)
  {
  }

  lemma NoDefinitions(bs: seq<Binding>, chains: seq<seq<Matcher>>, arity: nat, args: seq<int>, env: Env)
    requires BindingList(null, bs, chains, arity)
    ensures CallEffect(Defs(null, bs, chains, arity), args, env) == NOTHING
  {
  }

  // ---- counting calls in the log ----

  /** Whether a logged call fits a pattern. */
  ghost predicate KeyAccepted(l: Layout, ms: seq<Spec>, refs: seq<int>, env: Env, key: Key) {
    ValidLayout(l) && WORD + |key| == l.size && Accepts(ms, refs, KeyParams(l, key), env)
  }

  ghost function Fit(l: Layout, ms: seq<Spec>, refs: seq<int>, env: Env): Key -> bool {
    key => KeyAccepted(l, ms, refs, env, key)
  }

  /** The parameters and the times of record `i`, read from memory at `p`. */
  method ReadRecord(heap: Heap, callData: array<byte>, p: nat, l: Layout,
                    ghost top: nat, ghost es: seq<Entry>, ghost i: nat) returns (times: nat, args: seq<int>)
    requires ValidLayout(l) && Image(callData[..], top, es, l.size) && callData in heap.live
    requires i < |es| && p == RecordStart(es, i) + WORD
    ensures WORD + |es[i].key| == l.size && times == es[i].times && args == KeyParams(l, es[i].key)
  {
    ghost var mem := callData[..];
    RecordInImage(mem, top, es, l.size, i);
    heap.Use(callData);
    times := WordAt(callData[..], p);
    args := Params(l, callData[p..p + l.size]);
    assert mem[p..p + l.size][WORD..] == mem[p + WORD..p + l.size];
    ParamsIgnoreTimes(l, callData[p..p + l.size], WordBytes(0) + es[i].key);
  }

  /** The verify loop of the stub body: every record is tried once, and the times of those that fit are added up. */
  method CountRecords(heap: Heap, callData: array?<byte>, callDataTop: nat, l: Layout, head: Matcher, refs: seq<int>,
                      env: Env, ghost chain: seq<Matcher>, ghost ms: seq<Spec>, ghost es: seq<Entry>)
    returns (times: nat)
    requires ValidLayout(l) && |refs| == |l.fields| && MatcherList(head, chain) && ms == Specs(chain)
    requires ChainSet(chain) <= heap.live && (callData != null ==> callData in heap.live)
    requires if callData == null then es == [] else Image(callData[..], callDataTop, es, l.size)
    ensures times == TimesWhere(es, Fit(l, ms, refs, env))
  {
    hide Image, MatcherList, TimesWhere, ValidLayout;
    TimesWhereNone(es, Fit(l, ms, refs, env));
    ghost var fit := Fit(l, ms, refs, env);
    times := 0;
    ghost var i := 0;
    var p := ParamsBegin(callData, callDataTop, es, l.size);
    while p.Some?
      invariant i <= |es| && (i < |es| ==> callData != null)
      invariant p == if i < |es| then Some(RecordStart(es, i) + WORD) else None
      invariant times == TimesWhere(es[..i], fit)
      decreases |es| - i
    {
      var t, args := ReadRecord(heap, callData, p.value, l, callDataTop, es, i);
      var fits := FitsPattern(heap, head, refs, args, env, chain);
      TimesWhereNext(es, fit, i);
      if fits {
        times := times + t;
      }
      heap.Use(callData);
      p := ParamsNext(callData, callDataTop, p.value, es, l.size, i);
      i := i + 1;
    }
    assert es[..i] == es;
  }

  lemma TimesWhereNone(es: seq<Entry>, p: Key -> bool)
    ensures TimesWhere(es[..0], p) == 0
  {
  }

  lemma TimesWhereNext(es: seq<Entry>, p: Key -> bool, i: nat)
    requires i < |es|
    ensures TimesWhere(es[..i + 1], p) == TimesWhere(es[..i], p) + if p(es[i].key) then es[i].times else 0
  {
    assert es[..i + 1] == es[..i] + [es[i]];
    TimesWhereSplit(es[..i], [es[i]], p);
    assert [es[i]][1..] == [];
  }
}
