/** Stubs created one after the other and destroyed in the same order, as the mocks of a test are. */
module HookLists {
  import opened Got
  import opened GotRuns

  predicate StubsIn(slots: seq<Fn>, stubs: seq<Stub>) {
    forall k | 0 <= k < |stubs| :: InTable(slots, stubs[k].offsets)
  }

  /** The table and the stubs after all hooks were created in order. */
  function HookAll(slots: seq<Fn>, hooks: seq<Hook>): (r: (seq<Fn>, seq<Stub>))
    requires HooksIn(slots, hooks)
    ensures |r.0| == |slots| && |r.1| == |hooks| && StubsIn(r.0, r.1)
    decreases |hooks|
  {
    if hooks == [] then (slots, [])
    else
      var n := |hooks| - 1;
      var (before, stubs) := HookAll(slots, hooks[..n]);
      var (after, stub) := Create(before, hooks[n].places, hooks[n].trampoline);
      (after, stubs + [stub])
  }

  /** The table after the stubs were destroyed in list order. */
  function UnhookAll(slots: seq<Fn>, stubs: seq<Stub>): (r: seq<Fn>)
    requires StubsIn(slots, stubs)
    ensures |r| == |slots|
    decreases |stubs|
  {
    if stubs == [] then slots else UnhookAll(Destroy(slots, stubs[0]), stubs[1..])
  }

  lemma {:induction false} HookMore(slots: seq<Fn>, a: seq<Hook>, b: seq<Hook>)
    requires HooksIn(slots, a) && HooksIn(slots, b)
    ensures HooksIn(slots, a + b)
    ensures var (s, stubs) := HookAll(slots, a);
      HookAll(slots, a + b) == (HookAll(s, b).0, stubs + HookAll(s, b).1)
    decreases |b|
  {
    hide Create;
    var (s, stubs) := HookAll(slots, a);
    if b == [] {
      assert a + b == a && stubs + [] == stubs;
    } else {
      var n := |b| - 1;
      HookMore(slots, a, b[..n]);
      assert (a + b)[..|a| + n] == a + b[..n] && (a + b)[|a| + n] == b[n];
      var (before, more) := HookAll(s, b[..n]);
      var (after, stub) := Create(before, b[n].places, b[n].trampoline);
      assert stubs + more + [stub] == stubs + (more + [stub]);
    }
  }

  lemma {:induction false} UnhookMore(slots: seq<Fn>, a: seq<Stub>, b: seq<Stub>)
    requires StubsIn(slots, a) && StubsIn(slots, b)
    ensures StubsIn(slots, a + b) && UnhookAll(slots, a + b) == UnhookAll(UnhookAll(slots, a), b)
    decreases |a|
  {
    if a == [] {
      assert a + b == b;
    } else {
      UnhookMore(Destroy(slots, a[0]), a[1..], b);
      assert (a + b)[1..] == a[1..] + b;
    }
  }

  function Flat<T>(lists: seq<seq<T>>): seq<T> {
    if lists == [] then [] else lists[0] + Flat(lists[1..])
  }

  lemma {:induction false} FlatMore<T>(lists: seq<seq<T>>, last: seq<T>)
    ensures Flat(lists + [last]) == Flat(lists) + last
  {
    if lists == [] {
      assert (lists + [last])[1..] == [];
    } else {
      assert (lists + [last])[1..] == lists[1..] + [last];
      FlatMore(lists[1..], last);
    }
  }

  // ---- what is left of a table when hooks are undone in the order in which they were made ----

  /** No slot is patched twice. */
  ghost predicate AllApart(hooks: seq<Hook>) {
    && (forall k | 0 <= k < |hooks| :: NoDuplicates(hooks[k].places))
    && (forall k, l | 0 <= k < l < |hooks| :: PlacesApart(hooks[k].places, hooks[l].places))
  }

  ghost predicate PlacesApart(a: seq<nat>, b: seq<nat>) {
    forall i, j | 0 <= i < |a| && 0 <= j < |b| :: a[i] != b[j]
  }

  /** The trampolines' addresses are new to the table. */
  predicate NewTrampolines(original: seq<Fn>, hooks: seq<Hook>) {
    forall k | 0 <= k < |hooks| :: hooks[k].trampoline !in original
  }

  predicate Listed(hooks: seq<Hook>, x: nat) {
    exists k | 0 <= k < |hooks| :: x in hooks[k].places
  }

  predicate ListedTwice(places: seq<nat>, x: nat) {
    exists i, j | 0 <= i < j < |places| :: places[i] == x && places[j] == x
  }

  /** Slot `x` is patched twice, by one hook or by two. */
  predicate Doubled(hooks: seq<Hook>, x: nat) {
    if hooks == [] then false
    else
      var before, last := hooks[..|hooks| - 1], hooks[|hooks| - 1].places;
      Doubled(before, x) || ListedTwice(last, x) || (x in last && Listed(before, x))
  }

  lemma ListedLast(hooks: seq<Hook>, x: nat)
    requires hooks != []
    ensures var n := |hooks| - 1;
      Listed(hooks, x) <==> x in hooks[n].places || Listed(hooks[..n], x)
  {
    var n := |hooks| - 1;
    if Listed(hooks, x) && x !in hooks[n].places {
      var k :| 0 <= k < |hooks| && x in hooks[k].places;
      assert hooks[..n][k] == hooks[k];
    }
  }

  lemma {:induction false} DoubledIsListed(hooks: seq<Hook>, x: nat)
    requires Doubled(hooks, x)
    ensures Listed(hooks, x)
  {
    ListedLast(hooks, x);
    if Doubled(hooks[..|hooks| - 1], x) {
      DoubledIsListed(hooks[..|hooks| - 1], x);
    }
  }

  /** A hooked slot holds an address that is new to the table. */
  lemma {:induction false} HookedContents(original: seq<Fn>, hooks: seq<Hook>, x: nat)
    requires HooksIn(original, hooks) && NewTrampolines(original, hooks) && x < |original|
    ensures var value := HookAll(original, hooks).0[x];
      if Listed(hooks, x) then value !in original else value == original[x]
  {
    if hooks != [] {
      var n := |hooks| - 1;
      var before := HookAll(original, hooks[..n]).0;
      HookedContents(original, hooks[..n], x);
      ListedLast(hooks, x);
      PatchedSlot(before, Fresh(hooks[n].places), hooks[n].trampoline, |hooks[n].places|, x);
      HitsPlaces(hooks[n].places, x);
    }
  }

  lemma HitsPlaces(places: seq<nat>, x: nat)
    ensures Hits(Fresh(places), |places|, x) <==> x in places
  {
    if x in places {
      var i :| 0 <= i < |places| && places[i] == x;
      assert Fresh(places)[i].slot == x;
    }
  }

  /** What a stub writes back does not depend on what the table holds by then. */
  lemma {:induction false} RestoredSame(one: seq<Fn>, other: seq<Fn>, offsets: seq<PltOffset>, n: nat, x: nat)
    requires |one| == |other| && InTable(one, offsets) && n <= |offsets| && x < |one| && Hits(offsets, n, x)
    ensures Restored(one, offsets, n)[x] == Restored(other, offsets, n)[x]
  {
    if offsets[n - 1].slot != x {
      RestoredSame(one, other, offsets, n - 1, x);
    }
  }

  /** The last hook of a slot, undone: the contents before it, or its own trampoline when it listed the slot twice. */
  lemma LastUndone(before: seq<Fn>, now: seq<Fn>, hook: Hook, x: nat)
    requires PlacesIn(before, hook.places) && |now| == |before| && x in hook.places
    ensures var stub := Create(before, hook.places, hook.trampoline).1;
      Destroy(now, stub)[x] == if ListedTwice(hook.places, x) then hook.trampoline else before[x]
  {
    var (after, stub) := Create(before, hook.places, hook.trampoline);
    var i :| 0 <= i < |hook.places| && hook.places[i] == x;
    assert stub.offsets[i].slot == x;
    PlaceAfter(before, hook.places, hook.trampoline, i);
    RestoredSame(now, after, stub.offsets, |stub.offsets|, x);
    TwinIsListedTwice(hook.places, i);
  }

  lemma TwinIsListedTwice(places: seq<nat>, i: nat)
    requires i < |places|
    ensures Twin(places, i) <==> ListedTwice(places, places[i])
  {
    if Twin(places, i) {
      var k :| 0 <= k < |places| && k != i && places[k] == places[i];
      assert k < i || i < k;
    }
  }

  lemma OtherSlot(before: seq<Fn>, now: seq<Fn>, hook: Hook, x: nat)
    requires PlacesIn(before, hook.places) && |now| == |before| && x < |now| && x !in hook.places
    ensures Destroy(now, Create(before, hook.places, hook.trampoline).1)[x] == now[x]
  {
    var stub := Create(before, hook.places, hook.trampoline).1;
    assert forall i | 0 <= i < |stub.offsets| :: stub.offsets[i].slot == hook.places[i];
    RestoredElsewhere(now, stub.offsets, |stub.offsets|, x);
  }

  /** Slot by slot: untouched, given back, or left with an address that was never in the table. */
  lemma {:induction false} UndoneContents(original: seq<Fn>, now: seq<Fn>, hooks: seq<Hook>, x: nat)
    requires HooksIn(original, hooks) && NewTrampolines(original, hooks) && x < |original| == |now|
    ensures StubsIn(now, HookAll(original, hooks).1)
    ensures var value := UnhookAll(now, HookAll(original, hooks).1)[x];
      if !Listed(hooks, x) then value == now[x]
      else if Doubled(hooks, x) then value !in original
      else value == original[x]
  {
    if hooks != [] {
      hide Create, Destroy;
      var n := |hooks| - 1;
      var hook := hooks[n];
      var (before, stubs) := HookAll(original, hooks[..n]);
      var (after, stub) := Create(before, hook.places, hook.trampoline);
      assert HookAll(original, hooks).1 == stubs + [stub];
      UndoneContents(original, now, hooks[..n], x);
      UnhookMore(now, stubs, [stub]);
      UnhookSingle(UnhookAll(now, stubs), stub);
      ListedLast(hooks, x);
      HookedContents(original, hooks[..n], x);
      if x in hook.places {
        LastUndone(before, UnhookAll(now, stubs), hook, x);
        if Doubled(hooks[..n], x) {
          DoubledIsListed(hooks[..n], x);
        }
      } else {
        OtherSlot(before, UnhookAll(now, stubs), hook, x);
      }
    }
  }

  lemma UnhookSingle(slots: seq<Fn>, stub: Stub)
    requires InTable(slots, stub.offsets)
    ensures UnhookAll(slots, [stub]) == Destroy(slots, stub)
  {
    assert [stub][1..] == [];
  }

  lemma {:induction false} DoubledIsNotApart(hooks: seq<Hook>, x: nat)
    requires Doubled(hooks, x)
    ensures !AllApart(hooks)
  {
    var n := |hooks| - 1;
    if Doubled(hooks[..n], x) {
      DoubledIsNotApart(hooks[..n], x);
    } else if !ListedTwice(hooks[n].places, x) {
      var k :| 0 <= k < n && x in hooks[..n][k].places;
      assert !PlacesApart(hooks[k].places, hooks[n].places);
    }
  }

  /** The last hook lists a slot of an earlier one. */
  lemma SharedWithLast(hooks: seq<Hook>) returns (x: nat)
    requires hooks != [] && AllApart(hooks[..|hooks| - 1]) && NoDuplicates(hooks[|hooks| - 1].places)
    requires !AllApart(hooks)
    ensures x in hooks[|hooks| - 1].places && Listed(hooks[..|hooks| - 1], x)
  {
    hide NoDuplicates, PlacesApart;
    var n := |hooks| - 1;
    forall k, l | 0 <= k < l < n
      ensures PlacesApart(hooks[k].places, hooks[l].places)
    {
      assert hooks[..n][k] == hooks[k] && hooks[..n][l] == hooks[l];
    }
    assert forall k | 0 <= k < n :: hooks[..n][k] == hooks[k];
    var k, l :| 0 <= k < l < |hooks| && !PlacesApart(hooks[k].places, hooks[l].places);
    x := CommonPlace(hooks[k].places, hooks[n].places);
    assert x in hooks[..n][k].places;
  }

  lemma CommonPlace(a: seq<nat>, b: seq<nat>) returns (x: nat)
    requires !PlacesApart(a, b)
    ensures x in a && x in b
  {
    var i, j :| 0 <= i < |a| && 0 <= j < |b| && a[i] == b[j];
    x := a[i];
  }

  lemma {:induction false} NotApartIsDoubled(original: seq<Fn>, hooks: seq<Hook>) returns (x: nat)
    requires HooksIn(original, hooks) && !AllApart(hooks)
    ensures x < |original| && Doubled(hooks, x)
  {
    hide AllApart, Listed;
    SomeHooks(hooks);
    var n := |hooks| - 1;
    if !AllApart(hooks[..n]) {
      x := NotApartIsDoubled(original, hooks[..n]);
    } else if !NoDuplicates(hooks[n].places) {
      var i, j :| 0 <= i < j < |hooks[n].places| && hooks[n].places[i] == hooks[n].places[j];
      x := hooks[n].places[i];
    } else {
      x := SharedWithLast(hooks);
    }
  }

  lemma SomeHooks(hooks: seq<Hook>)
    requires !AllApart(hooks)
    ensures hooks != []
  {
  }

  /**
   Hooks undone in the order in which they were made give the table back exactly when no slot is patched twice; the
   trampolines' addresses are new to the table.
   */
  lemma SameOrderRestores(original: seq<Fn>, hooks: seq<Hook>)
    requires HooksIn(original, hooks) && NewTrampolines(original, hooks)
    ensures var (slots, stubs) := HookAll(original, hooks); UnhookAll(slots, stubs) == original <==> AllApart(hooks)
  {
    var (slots, stubs) := HookAll(original, hooks);
    var back := UnhookAll(slots, stubs);
    if AllApart(hooks) {
      forall x | 0 <= x < |original|
        ensures back[x] == original[x]
      {
        if Doubled(hooks, x) {
          DoubledIsNotApart(hooks, x);
        }
        HookedContents(original, hooks, x);
        UndoneContents(original, slots, hooks, x);
      }
    } else {
      var x := NotApartIsDoubled(original, hooks);
      DoubledIsListed(hooks, x);
      UndoneContents(original, slots, hooks, x);
    }
  }
}
