/** Whole lives of stubs over one table: when every slot gets its original contents back. */
module GotRuns {
  import opened Got

  // ---- one stub ----

  /** The last place equal to `places[i]`. */
  lemma LastTwin(places: seq<nat>, i: nat) returns (k: nat)
    requires i < |places|
    ensures i <= k < |places| && places[k] == places[i]
    ensures forall j | k < j < |places| :: places[j] != places[i]
  {
    k := |places| - 1;
    while places[k] != places[i]
      invariant i <= k < |places|
      invariant forall j | k < j < |places| :: places[j] != places[i]
      decreases k
    {
      k := k - 1;
    }
  }

  /**
   Creating a stub and destroying it puts the table back exactly when no slot was listed twice, unless the slot held
   that very trampoline already. With a slot listed twice the second save keeps the trampoline.
   */
  lemma DestroyUndoesCreate(slots: seq<Fn>, places: seq<nat>, trampoline: Fn)
    requires PlacesIn(slots, places)
    ensures var (after, stub) := Create(slots, places, trampoline);
      Destroy(after, stub) == slots
      <==> forall i, j | 0 <= i < j < |places| && places[i] == places[j] :: slots[places[i]] == trampoline
  {
    var (after, stub) := Create(slots, places, trampoline);
    var back := Destroy(after, stub);
    if back == slots {
      forall i, j | 0 <= i < j < |places| && places[i] == places[j]
        ensures slots[places[i]] == trampoline
      {
        assert Twin(places, i);
        PlaceAfter(slots, places, trampoline, i);
      }
    } else {
      var x :| 0 <= x < |slots| && back[x] != slots[x];
      if !Owns(stub, x) {
        Untouched(slots, places, trampoline, x);
      }
      var i :| 0 <= i < |places| && places[i] == x;
      PlaceAfter(slots, places, trampoline, i);
      var k :| 0 <= k < |places| && k != i && places[k] == places[i];
    }
  }

  /** `places[i]` is listed once more. */
  ghost predicate Twin(places: seq<nat>, i: nat)
    requires i < |places|
  {
    exists k | 0 <= k < |places| && k != i :: places[k] == places[i]
  }

  lemma PlaceAfter(slots: seq<Fn>, places: seq<nat>, trampoline: Fn, i: nat)
    requires PlacesIn(slots, places) && i < |places|
    ensures var (after, stub) := Create(slots, places, trampoline);
      Destroy(after, stub)[places[i]] == if Twin(places, i) then trampoline else slots[places[i]]
  {
    var k := LastTwin(places, i);
    FinalContents(slots, places, trampoline, k);
    if Twin(places, i) {
      var j :| 0 <= j < |places| && j != i && places[j] == places[i];
      assert i < k || j < k;
    }
  }

  lemma Untouched(slots: seq<Fn>, places: seq<nat>, trampoline: Fn, x: nat)
    requires PlacesIn(slots, places) && x < |slots|
    requires !Owns(Create(slots, places, trampoline).1, x)
    ensures var (after, stub) := Create(slots, places, trampoline); Destroy(after, stub)[x] == slots[x]
  {
    var (after, stub) := Create(slots, places, trampoline);
    RestoredElsewhere(after, stub.offsets, |places|, x);
    PatchedSlot(slots, Fresh(places), trampoline, |places|, x);
    assert forall i | 0 <= i < |places| :: stub.offsets[i].slot == Fresh(places)[i].slot;
  }

  lemma FinalContents(slots: seq<Fn>, places: seq<nat>, trampoline: Fn, k: nat)
    requires PlacesIn(slots, places) && k < |places|
    requires forall j | k < j < |places| :: places[j] != places[k]
    ensures var (after, stub) := Create(slots, places, trampoline);
      Destroy(after, stub)[places[k]]
      == if exists j | 0 <= j < k :: places[j] == places[k] then trampoline else slots[places[k]]
  {
    var (after, stub) := Create(slots, places, trampoline);
    RestoredLast(after, stub.offsets, |places|, k);
    PatchedSaves(slots, Fresh(places), trampoline, |places|, k);
    assert Hits(Fresh(places), k, places[k]) <==> exists j | 0 <= j < k :: places[j] == places[k] by {
      assert forall j | 0 <= j < k :: Fresh(places)[j].slot == places[j];
    }
  }

  // ---- arbitrary interleavings ----

  datatype Event = Created(id: nat, places: seq<nat>, trampoline: Fn) | Destroyed(id: nat)

  datatype State = State(slots: seq<Fn>, live: map<nat, Stub>)

  predicate Enabled(s: State, e: Event) {
    match e
    case Created(id, places, _) => id !in s.live && PlacesIn(s.slots, places)
    case Destroyed(id) => id in s.live && InTable(s.slots, s.live[id].offsets)
  }

  function Step(s: State, e: Event): State
    requires Enabled(s, e)
  {
    match e
    case Created(id, places, trampoline) =>
      var r := Create(s.slots, places, trampoline);
      State(r.0, s.live[id := r.1])
    case Destroyed(id) =>
      State(Destroy(s.slots, s.live[id]), s.live - {id})
  }

  /** A new stub lists no slot twice and no slot that a live stub owns. */
  ghost predicate OwnPlaces(s: State, e: Event) {
    e.Created? ==>
      && NoDuplicates(e.places)
      && forall id, i | id in s.live && 0 <= i < |e.places| :: !Owns(s.live[id], e.places[i])
  }

  /** Every event of the run can happen where it stands, and live stubs never share a slot. */
  ghost predicate Run(s: State, events: seq<Event>)
    decreases |events|
  {
    events != [] ==> Enabled(s, events[0]) && OwnPlaces(s, events[0]) && Run(Step(s, events[0]), events[1..])
  }

  function Execute(s: State, events: seq<Event>): State
    requires Run(s, events)
    decreases |events|
  {
    if events == [] then s else Execute(Step(s, events[0]), events[1..])
  }

  /** A live stub has its trampoline in each of its slots and the original contents of each saved. */
  ghost predicate StubIntact(original: seq<Fn>, slots: seq<Fn>, stub: Stub) {
    && InTable(slots, stub.offsets) && |slots| == |original|
    && (forall i, j | 0 <= i < j < |stub.offsets| :: stub.offsets[i].slot != stub.offsets[j].slot)
    && (forall i | 0 <= i < |stub.offsets| ::
          slots[stub.offsets[i].slot] == stub.trampoline && stub.offsets[i].oldval == original[stub.offsets[i].slot])
  }

  ghost predicate Apart(a: Stub, b: Stub) {
    forall i, j | 0 <= i < |a.offsets| && 0 <= j < |b.offsets| :: a.offsets[i].slot != b.offsets[j].slot
  }

  ghost predicate Unowned(s: State, x: nat) {
    forall id | id in s.live :: !Owns(s.live[id], x)
  }

  ghost predicate Invariant(original: seq<Fn>, s: State) {
    && |s.slots| == |original|
    && (forall id | id in s.live :: StubIntact(original, s.slots, s.live[id]))
    && (forall a, b | a in s.live && b in s.live && a != b :: Apart(s.live[a], s.live[b]))
    && (forall x | 0 <= x < |s.slots| && Unowned(s, x) :: s.slots[x] == original[x])
  }

  lemma CreatePreserves(original: seq<Fn>, s: State, id: nat, places: seq<nat>, trampoline: Fn)
    requires Invariant(original, s)
    requires Enabled(s, Created(id, places, trampoline)) && OwnPlaces(s, Created(id, places, trampoline))
    ensures Invariant(original, Step(s, Created(id, places, trampoline)))
  {
    var e := Created(id, places, trampoline);
    var s' := Step(s, e);
    var stub := s'.live[id];
    CreateEach(s.slots, places, trampoline);
    forall i | 0 <= i < |places|
      ensures s.slots[places[i]] == original[places[i]]
    {
      assert Unowned(s, places[i]);
    }
    assert StubIntact(original, s'.slots, stub);
    forall a | a in s.live
      ensures Apart(s.live[a], stub) && Apart(stub, s.live[a])
      ensures StubIntact(original, s'.slots, s'.live[a])
    {
      var other := s.live[a];
      forall i, j | 0 <= i < |other.offsets| && 0 <= j < |places|
        ensures other.offsets[i].slot != places[j]
      {
        assert !Owns(other, places[j]);
      }
      forall i | 0 <= i < |other.offsets|
        ensures s'.slots[other.offsets[i].slot] == s.slots[other.offsets[i].slot]
      {
        assert !Owns(stub, other.offsets[i].slot);
      }
    }
    forall x | 0 <= x < |s.slots| && Unowned(s', x)
      ensures s'.slots[x] == original[x]
    {
      assert !Owns(s'.live[id], x);
      assert forall a | a in s.live :: s'.live[a] == s.live[a];
      assert Unowned(s, x);
    }
  }

  lemma DestroyPreserves(original: seq<Fn>, s: State, id: nat)
    requires Invariant(original, s) && id in s.live
    ensures Enabled(s, Destroyed(id)) && Invariant(original, Step(s, Destroyed(id)))
  {
    var s' := Step(s, Destroyed(id));
    var stub := s.live[id];
    DestroyEach(s.slots, stub);
    forall a | a in s'.live
      ensures StubIntact(original, s'.slots, s'.live[a])
    {
      var other := s.live[a];
      assert Apart(other, stub);
      forall i | 0 <= i < |other.offsets|
        ensures s'.slots[other.offsets[i].slot] == s.slots[other.offsets[i].slot]
      {
        assert !Owns(stub, other.offsets[i].slot);
      }
    }
    forall x | 0 <= x < |s.slots| && Unowned(s', x)
      ensures s'.slots[x] == original[x]
    {
      if Owns(stub, x) {
        var i :| 0 <= i < |stub.offsets| && stub.offsets[i].slot == x;
      } else {
        forall a | a in s.live
          ensures !Owns(s.live[a], x)
        {
          assert a != id ==> a in s'.live && s'.live[a] == s.live[a];
        }
        assert Unowned(s, x);
      }
    }
  }

  /** What holds between any two events of any run. */
  lemma {:induction false} RunKeepsInvariant(original: seq<Fn>, s: State, events: seq<Event>)
    requires Invariant(original, s) && Run(s, events)
    ensures Invariant(original, Execute(s, events))
    decreases |events|
  {
    if events != [] {
      match events[0] {
        case Created(id, places, trampoline) => CreatePreserves(original, s, id, places, trampoline);
        case Destroyed(id) => DestroyPreserves(original, s, id);
      }
      RunKeepsInvariant(original, Step(s, events[0]), events[1..]);
    }
  }

  /**
   From an unpatched table, whatever the interleaving: a slot holds its owner's trampoline or its original contents,
   and the table is back as it was once no stub is left.
   */
  lemma EveryRunRestores(original: seq<Fn>, events: seq<Event>)
    requires Run(State(original, map[]), events)
    ensures var s := Execute(State(original, map[]), events);
      && Invariant(original, s)
      && (s.live == map[] ==> s.slots == original)
  {
    var start := State(original, map[]);
    RunKeepsInvariant(original, start, events);
    var s := Execute(start, events);
    if s.live == map[] {
      forall x | 0 <= x < |original|
        ensures s.slots[x] == original[x]
      {
        assert Unowned(s, x);
      }
    }
  }

  // ---- stubs that share slots ----

  datatype Hook = Hook(places: seq<nat>, trampoline: Fn)

  predicate HooksIn(slots: seq<Fn>, hooks: seq<Hook>) {
    forall k | 0 <= k < |hooks| :: PlacesIn(slots, hooks[k].places)
  }

  /** Creates all of `hooks` in order, then destroys them in the reverse order. */
  function CreateThenUnwind(slots: seq<Fn>, hooks: seq<Hook>): (r: seq<Fn>)
    requires HooksIn(slots, hooks)
    ensures |r| == |slots|
    decreases |hooks|
  {
    if hooks == [] then slots
    else
      var (after, stub) := Create(slots, hooks[0].places, hooks[0].trampoline);
      Destroy(CreateThenUnwind(after, hooks[1..]), stub)
  }

  /** Destroying in reverse order restores the table even when the stubs share slots. */
  lemma {:induction false} ReverseOrderRestores(slots: seq<Fn>, hooks: seq<Hook>)
    requires HooksIn(slots, hooks)
    requires forall k | 0 <= k < |hooks| :: NoDuplicates(hooks[k].places)
    ensures CreateThenUnwind(slots, hooks) == slots
    decreases |hooks|
  {
    if hooks != [] {
      var (after, stub) := Create(slots, hooks[0].places, hooks[0].trampoline);
      ReverseOrderRestores(after, hooks[1..]);
      DestroyUndoesCreate(slots, hooks[0].places, hooks[0].trampoline);
    }
  }

  /** Two stubs created one after the other and destroyed in the order in which they were created. */
  function CreateTwoDestroyInOrder(slots: seq<Fn>, first: Hook, second: Hook): seq<Fn>
    requires PlacesIn(slots, first.places) && PlacesIn(slots, second.places)
  {
    var (one, a) := Create(slots, first.places, first.trampoline);
    var (two, b) := Create(one, second.places, second.trampoline);
    Destroy(Destroy(two, a), b)
  }

  /**
   A mock destroys its stubs in creation order. That restores the table exactly when the two stubs have no slot in
   common (a shared slot would have to hold the first trampoline before the first stub was created).
   */
  lemma CreationOrderRestores(slots: seq<Fn>, first: Hook, second: Hook)
    requires PlacesIn(slots, first.places) && PlacesIn(slots, second.places)
    requires NoDuplicates(first.places) && NoDuplicates(second.places)
    ensures CreateTwoDestroyInOrder(slots, first, second) == slots
      <==> forall i, j | 0 <= i < |first.places| && 0 <= j < |second.places| && first.places[i] == second.places[j] ::
             slots[first.places[i]] == first.trampoline
  {
    var (one, a) := Create(slots, first.places, first.trampoline);
    var (two, b) := Create(one, second.places, second.trampoline);
    var back := Destroy(Destroy(two, a), b);
    CreateEach(slots, first.places, first.trampoline);
    CreateEach(one, second.places, second.trampoline);
    DestroyEach(two, a);
    DestroyEach(Destroy(two, a), b);
    forall j | 0 <= j < |second.places|
      ensures back[second.places[j]] == one[second.places[j]]
    {
      assert b.offsets[j].slot == second.places[j];
    }
    forall x | 0 <= x < |slots| && !Owns(b, x)
      ensures back[x] == slots[x]
    {
      if Owns(a, x) {
        var i :| 0 <= i < |a.offsets| && a.offsets[i].slot == x;
      }
    }
    forall x | 0 <= x < |slots| && !Owns(a, x)
      ensures one[x] == slots[x]
    {
    }
    if back == slots {
      forall i, j | 0 <= i < |first.places| && 0 <= j < |second.places| && first.places[i] == second.places[j]
        ensures slots[first.places[i]] == first.trampoline
      {
        assert one[first.places[i]] == first.trampoline;
      }
    } else {
      var x :| 0 <= x < |slots| && back[x] != slots[x];
      assert Owns(b, x) && Owns(a, x);
      var i :| 0 <= i < |a.offsets| && a.offsets[i].slot == x;
      var j :| 0 <= j < |b.offsets| && b.offsets[j].slot == x;
      assert first.places[i] == second.places[j];
    }
  }

  /** A slot patched by both stubs of a mock is left holding the first trampoline, whose page is gone by then. */
  lemma SharedSlotKeepsTrampoline()
    ensures CreateTwoDestroyInOrder([7], Hook([0], 100), Hook([0], 200)) == [100]
  {
    var slots: seq<Fn> := [7];
    CreateEach(slots, [0], 100);
    var (one, a) := Create(slots, [0], 100);
    CreateEach(one, [0], 200);
    var (two, b) := Create(one, [0], 200);
    DestroyEach(two, a);
    DestroyEach(Destroy(two, a), b);
    assert b.offsets[0] == PltOffset(0, 100);
  }
}
