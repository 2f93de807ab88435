/** The linked list of matchers that a session builds while the arguments of its call are evaluated. */
module Matchers {
  import opened Patterns
  import opened CHeap

  class Matcher {
    var kind: bv32
    var prio: nat
    var data: nat
    var next: Matcher?

    /** What the node says as a matcher; a list head is no matcher and its fields only tell the kind of session. */
    ghost var spec: Spec

    constructor (kind: bv32, prio: nat, data: nat, ghost spec: Spec)
      ensures this.kind == kind && this.prio == prio && this.data == data && next == null
      ensures this.spec == spec
    {
      this.kind := kind;
      this.prio := prio;
      this.data := data;
      this.next := null;
      this.spec := spec;
    }

    ghost predicate Means()
      reads this
    {
      kind == Mask(spec.kind) && prio == spec.prio && data == spec.predicate_
    }
  }

  /** From `head` the next pointers lead through exactly the nodes of `chain`, and the nodes are pairwise different. */
  ghost predicate Linked(head: Matcher?, chain: seq<Matcher>)
    reads chain
  {
    && (head == if chain == [] then null else chain[0])
    && (forall i {:trigger chain[i].next} | 0 <= i < |chain| - 1 :: chain[i].next == chain[i + 1])
    && (chain != [] ==> chain[|chain| - 1].next == null)
    && (forall i, j | 0 <= i < j < |chain| :: chain[i] != chain[j])
  }

  /** A linked list whose first node is the session's head and whose other nodes are matchers. */
  ghost predicate MatcherList(head: Matcher?, chain: seq<Matcher>)
    reads chain
  {
    chain != [] && Linked(head, chain) && forall i | 1 <= i < |chain| :: chain[i].Means()
  }

  ghost function Specs(chain: seq<Matcher>): (ms: seq<Spec>)
    requires chain != []
    reads chain
    ensures |ms| == |chain| - 1
    ensures forall i | 0 <= i < |ms| :: ms[i] == chain[i + 1].spec
  {
    seq(|chain| - 1, i requires 0 <= i < |chain| - 1 reads chain => chain[i + 1].spec)
  }

  ghost function ChainSet(chain: seq<Matcher>): (nodes: set<Matcher>)
    ensures forall i | 0 <= i < |chain| :: chain[i] in nodes
  {
    set i | 0 <= i < |chain| :: chain[i]
  }

  /** A value judged by one node: the bit tests of the stub body agree with the comparison the mask is named after. */
  method Judge(heap: Heap, m: Matcher, ref: int, v: int, env: Env) returns (ok: bool)
    requires m.Means() && m in heap.live
    ensures ok <==> Satisfies(m.spec, ref, v, env)
    ensures m.spec.kind == Any ==> ok
    ensures m.spec.kind == That ==> (ok <==> env.holds(m.spec.predicate_, v))
    ensures m.spec.kind == Eq ==> (ok <==> v == ref)
    ensures m.spec.kind == Neq ==> (ok <==> v < ref || ref < v)
    ensures m.spec.kind == Lt ==> (ok <==> v < ref)
    ensures m.spec.kind == Leq ==> (ok <==> !(ref < v))
    ensures m.spec.kind == Gt ==> (ok <==> ref < v)
    ensures m.spec.kind == Geq ==> (ok <==> !(v < ref))
  {
    heap.Use(m);
    if m.kind == Mask(Any) {
    } else if m.kind & BIT_CMP != 0 {
      if v == ref && m.kind & BIT_EQ == 0 {
        return false;
      }
      if v < ref && m.kind & BIT_LT == 0 {
        return false;
      }
      if v > ref && m.kind & BIT_GT == 0 {
        return false;
      }
    } else if m.kind == Mask(That) {
      if !env.holds(m.data, v) {
        return false;
      }
    }
    return true;
  }

  /**
   The parameters of one call, one after the other, against the matchers behind `head` and the reference values.
   Each parameter moves on to the next matcher while there is one, and is compared for equality afterwards.
   */
  method FitsPattern(heap: Heap, head: Matcher, refs: seq<int>, args: seq<int>, env: Env, ghost chain: seq<Matcher>)
    returns (ok: bool)
    requires MatcherList(head, chain) && ChainSet(chain) <= heap.live && |refs| == |args|
    ensures ok <==> Accepts(Specs(chain), refs, args, env)
  {
    ghost var ms := Specs(chain);
    var m := head;
    var n := 0;
    ghost var at := 0;
    while n < |args|
      invariant n <= |args|
      invariant at < |chain| && m == chain[at] && at == if n < |chain| then n else |chain| - 1
      invariant forall k | 0 <= k < n :: AcceptsParam(ms, refs, args, env, k)
    {
      heap.Use(m);
      if m.next != null {
        m := m.next;
        at := at + 1;
        assert m == chain[at] && at == n + 1 && m.spec == ms[n];
        var good := Judge(heap, m, refs[n], args[n], env);
        if !good {
          assert !AcceptsParam(ms, refs, args, env, n);
          return false;
        }
      } else {
        assert at == |chain| - 1 && n >= |ms|;
        if args[n] != refs[n] {
          assert !AcceptsParam(ms, refs, args, env, n);
          return false;
        }
      }
      n := n + 1;
    }
    return true;
  }

  /** The last node whose priority lies below that of a matcher with priority `counter`; the head if there is none. */
  method FindPlace(heap: Heap, head: Matcher, counter: nat, ghost chain: seq<Matcher>)
    returns (prev: Matcher, ghost at: nat)
    requires MatcherList(head, chain) && ChainSet(chain) <= heap.live
    ensures 1 <= at <= |chain| && prev == chain[at - 1]
    ensures forall i | 1 <= i < at :: chain[i].prio < counter
    ensures at < |chain| ==> chain[at].prio >= counter
  {
    prev := head;
    at := 1;
    heap.Use(head);
    var m := head.next;
    assert chain[0] == head;
    while m != null
      invariant 1 <= at <= |chain|
      invariant prev == chain[at - 1]
      invariant m == if at < |chain| then chain[at] else null
      invariant forall i | 1 <= i < at :: chain[i].prio < counter
      decreases |chain| - at
    {
      heap.Use(m);
      if m.prio >= counter {
        return;
      }
      prev := m;
      m := m.next;
      at := at + 1;
    }
  }

  /** Links `out` in behind node `at - 1`. */
  method LinkBehind(heap: Heap, head: Matcher, prev: Matcher, out: Matcher, ghost at: nat, ghost chain: seq<Matcher>)
    requires MatcherList(head, chain) && 1 <= at <= |chain| && prev == chain[at - 1]
    requires prev in heap.live && out in heap.live
    requires out !in chain && out.Means()
    modifies prev`next, out`next
    ensures MatcherList(head, Splice(chain, at, out))
    ensures Specs(Splice(chain, at, out)) == Splice(old(Specs(chain)), at - 1, out.spec)
  {
    hide Splice, Mask;
    ghost var after := Splice(chain, at, out);
    heap.Use(prev);
    heap.Use(out);
    out.next := prev.next;
    prev.next := out;
  }

  /** The place found in the list is the one of the sorted insertion. */
  lemma PlaceOfInsertion(head: Matcher, chain: seq<Matcher>, m: Spec, at: nat)
    requires MatcherList(head, chain) && 1 <= at <= |chain|
    requires forall i | 1 <= i < at :: chain[i].prio < m.prio
    requires at < |chain| ==> chain[at].prio >= m.prio
    ensures Insert(Specs(chain), m) == Splice(Specs(chain), at - 1, m)
  {
    var ms := Specs(chain);
    assert forall i | 1 <= i < |chain| :: chain[i].prio == ms[i - 1].prio;
    InsertAt(ms, m, at - 1);
  }

  /** The walk to a new node's place, and the two links. */
  method LinkSorted(heap: Heap, head: Matcher, node: Matcher, ghost chain: seq<Matcher>) returns (ghost at: nat)
    requires MatcherList(head, chain) && ChainSet(chain) <= heap.live
    requires node !in chain && node in heap.live && node.Means() && node.spec.prio == node.prio
    modifies node`next, chain`next
    ensures 1 <= at <= |chain| && MatcherList(head, Splice(chain, at, node))
    ensures Specs(Splice(chain, at, node)) == Insert(old(Specs(chain)), node.spec)
  {
    hide MatcherList, Insert, Splice, Specs;
    var prev;
    heap.Use(node);
    prev, at := FindPlace(heap, head, node.prio, chain);
    PlaceOfInsertion(head, chain, node.spec, at);
    assert prev in ChainSet(chain);
    LinkBehind(heap, head, prev, node, at, chain);
  }

  /**
   Puts a new node into the list behind `head`, in front of the first matcher whose priority is not lower. The head
   stays, and the nodes there before are the same objects in the same order.
   */
  method AddData(heap: Heap, head: Matcher, kind: Kind, counter: nat, data: nat, ghost chain: seq<Matcher>)
    returns (ghost out: Matcher, ghost at: nat)
    requires MatcherList(head, chain) && ChainSet(chain) <= heap.live
    modifies heap, chain`next
    ensures fresh(out) && 1 <= at <= |chain| && MatcherList(head, Splice(chain, at, out))
    ensures Specs(Splice(chain, at, out)) == Insert(old(Specs(chain)), Spec(kind, counter, data))
    ensures heap.live == old(heap.live) + {out}
  {
    hide MatcherList, Insert, Splice, Specs, ChainSet;
    var node := new Matcher(Mask(kind), counter, data, Spec(kind, counter, data));
    out := node;
    heap.Allocated(out);
    at := LinkSorted(heap, head, node, chain);
  }
}
