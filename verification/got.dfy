/** Patching the slots of a global offset table with a stub's trampoline, and putting the old contents back. */
module Got {

  /** A code address; 0 is NULL. */
  type Fn = nat

  /** Which slot a stub patches and what the slot held before; a NULL oldval means nothing was saved yet. */
  datatype PltOffset = PltOffset(slot: nat, oldval: Fn)

  predicate InTable(slots: seq<Fn>, offsets: seq<PltOffset>) {
    forall i | 0 <= i < |offsets| :: offsets[i].slot < |slots|
  }

  // ---- the two loops ----

  function Saved(slots: seq<Fn>, o: PltOffset): PltOffset
    requires o.slot < |slots|
  {
    if o.oldval == 0 then PltOffset(o.slot, slots[o.slot]) else o
  }

  /** The table and the offsets after the first `n` offsets were patched. */
  function Patched(slots: seq<Fn>, offsets: seq<PltOffset>, newval: Fn, n: nat): (r: (seq<Fn>, seq<PltOffset>))
    requires InTable(slots, offsets) && n <= |offsets|
    ensures |r.0| == |slots| && |r.1| == |offsets|
    ensures forall i | 0 <= i < |offsets| :: r.1[i].slot == offsets[i].slot
    ensures forall i | n <= i < |offsets| :: r.1[i] == offsets[i]
  {
    if n == 0 then (slots, offsets)
    else
      var r := Patched(slots, offsets, newval, n - 1);
      (r.0[offsets[n - 1].slot := newval], r.1[n - 1 := Saved(r.0, offsets[n - 1])])
  }

  /** The table after the first `n` offsets were put back. */
  function Restored(slots: seq<Fn>, offsets: seq<PltOffset>, n: nat): (r: seq<Fn>)
    requires InTable(slots, offsets) && n <= |offsets|
    ensures |r| == |slots|
  {
    if n == 0 then slots
    else Restored(slots, offsets, n - 1)[offsets[n - 1].slot := offsets[n - 1].oldval]
  }

  method SetOffsets(slots: array<Fn>, offsets: array<PltOffset>, nbOff: nat, newval: Fn)
    requires slots as object != offsets && nbOff == offsets.Length && InTable(slots[..], offsets[..])
    modifies slots, offsets
    ensures slots[..] == Patched(old(slots[..]), old(offsets[..]), newval, nbOff).0
    ensures offsets[..] == Patched(old(slots[..]), old(offsets[..]), newval, nbOff).1
  {
    ghost var table, places := slots[..], offsets[..];
    var i := 0;
    while i < nbOff
      invariant i <= nbOff
      invariant slots[..] == Patched(table, places, newval, i).0
      invariant offsets[..] == Patched(table, places, newval, i).1
    {
      assert offsets[..][i] == places[i];
      if offsets[i].oldval == 0 {
        offsets[i] := PltOffset(offsets[i].slot, slots[offsets[i].slot]);
      }
      slots[offsets[i].slot] := newval;
      i := i + 1;
    }
  }

  method ResetOffsets(slots: array<Fn>, offsets: array<PltOffset>, nbOff: nat)
    requires slots as object != offsets && nbOff == offsets.Length && InTable(slots[..], offsets[..])
    modifies slots
    ensures slots[..] == Restored(old(slots[..]), offsets[..], nbOff)
  {
    var i := 0;
    while i < nbOff
      invariant i <= nbOff
      invariant slots[..] == Restored(old(slots[..]), offsets[..], i)
    {
      slots[offsets[i].slot] := offsets[i].oldval;
      i := i + 1;
    }
  }

  // ---- what they do to each slot ----

  ghost predicate Hits(offsets: seq<PltOffset>, n: nat, x: nat)
    requires n <= |offsets|
  {
    exists i | 0 <= i < n :: offsets[i].slot == x
  }

  lemma {:induction false} PatchedSlot(slots: seq<Fn>, offsets: seq<PltOffset>, newval: Fn, n: nat, x: nat)
    requires InTable(slots, offsets) && n <= |offsets| && x < |slots|
    ensures Patched(slots, offsets, newval, n).0[x] == if Hits(offsets, n, x) then newval else slots[x]
  {
    if n > 0 {
      PatchedSlot(slots, offsets, newval, n - 1, x);
    }
  }

  /** What has been saved before stays. */
  lemma {:induction false} PatchedKeeps(slots: seq<Fn>, offsets: seq<PltOffset>, newval: Fn, n: nat, i: nat)
    requires InTable(slots, offsets) && i < |offsets| && n <= |offsets| && offsets[i].oldval != 0
    ensures Patched(slots, offsets, newval, n).1[i] == offsets[i]
  {
    if n > 0 {
      PatchedKeeps(slots, offsets, newval, n - 1, i);
    }
  }

  /** What is saved at offset `i`: the slot's own contents the first time a slot is met, the new value after that. */
  lemma {:induction false} PatchedSaves(slots: seq<Fn>, offsets: seq<PltOffset>, newval: Fn, n: nat, i: nat)
    requires InTable(slots, offsets) && i < n <= |offsets| && offsets[i].oldval == 0
    ensures Patched(slots, offsets, newval, n).1[i].oldval
         == if Hits(offsets, i, offsets[i].slot) then newval else slots[offsets[i].slot]
  {
    if i < n - 1 {
      PatchedSaves(slots, offsets, newval, n - 1, i);
    } else {
      PatchedSlot(slots, offsets, newval, n - 1, offsets[i].slot);
    }
  }

  lemma {:induction false} RestoredElsewhere(slots: seq<Fn>, offsets: seq<PltOffset>, n: nat, x: nat)
    requires InTable(slots, offsets) && n <= |offsets| && x < |slots|
    requires !Hits(offsets, n, x)
    ensures Restored(slots, offsets, n)[x] == slots[x]
  {
    if n > 0 {
      RestoredElsewhere(slots, offsets, n - 1, x);
    }
  }

  /** The last offset on a slot decides what it holds after a reset. */
  lemma {:induction false} RestoredLast(slots: seq<Fn>, offsets: seq<PltOffset>, n: nat, i: nat)
    requires InTable(slots, offsets) && i < n <= |offsets|
    requires forall j | i < j < n :: offsets[j].slot != offsets[i].slot
    ensures Restored(slots, offsets, n)[offsets[i].slot] == offsets[i].oldval
  {
    if i < n - 1 {
      RestoredLast(slots, offsets, n - 1, i);
    }
  }

  // ---- creating and destroying one stub ----

  datatype Stub = Stub(offsets: seq<PltOffset>, trampoline: Fn)

  /** The offsets a lookup returns: nothing is saved in them yet. */
  function Fresh(places: seq<nat>): (offsets: seq<PltOffset>)
    ensures |offsets| == |places|
    ensures forall i | 0 <= i < |places| :: offsets[i] == PltOffset(places[i], 0)
  {
    seq(|places|, i requires 0 <= i < |places| => PltOffset(places[i], 0))
  }

  predicate PlacesIn(slots: seq<Fn>, places: seq<nat>) {
    forall i | 0 <= i < |places| :: places[i] < |slots|
  }

  predicate NoDuplicates(places: seq<nat>) {
    forall i, j | 0 <= i < j < |places| :: places[i] != places[j]
  }

  ghost predicate Owns(stub: Stub, x: nat) {
    Hits(stub.offsets, |stub.offsets|, x)
  }

  /** Creating a stub patches its places; the stub keeps what was there. */
  function Create(slots: seq<Fn>, places: seq<nat>, trampoline: Fn): (r: (seq<Fn>, Stub))
    requires PlacesIn(slots, places)
    ensures |r.0| == |slots| && InTable(r.0, r.1.offsets)
    ensures |r.1.offsets| == |places| && forall i | 0 <= i < |places| :: r.1.offsets[i].slot == places[i]
  {
    var r := Patched(slots, Fresh(places), trampoline, |places|);
    (r.0, Stub(r.1, trampoline))
  }

  function Destroy(slots: seq<Fn>, stub: Stub): (r: seq<Fn>)
    requires InTable(slots, stub.offsets)
    ensures |r| == |slots|
  {
    Restored(slots, stub.offsets, |stub.offsets|)
  }

  /** A stub without duplicate places: its slots hold its trampoline, the others are as before, and it saved each. */
  lemma CreateEach(slots: seq<Fn>, places: seq<nat>, trampoline: Fn)
    requires PlacesIn(slots, places) && NoDuplicates(places)
    ensures var (after, stub) := Create(slots, places, trampoline);
      && (forall i | 0 <= i < |places| :: after[places[i]] == trampoline)
      && (forall x | 0 <= x < |slots| && !Owns(stub, x) :: after[x] == slots[x])
      && (forall i | 0 <= i < |places| :: stub.offsets[i] == PltOffset(places[i], slots[places[i]]))
  {
    var offsets := Fresh(places);
    var (after, stub) := Create(slots, places, trampoline);
    forall x | 0 <= x < |slots|
      ensures after[x] == if Owns(stub, x) then trampoline else slots[x]
    {
      PatchedSlot(slots, offsets, trampoline, |places|, x);
      assert Owns(stub, x) <==> Hits(offsets, |places|, x) by {
        assert forall i | 0 <= i < |places| :: stub.offsets[i].slot == offsets[i].slot;
      }
    }
    forall i | 0 <= i < |places|
      ensures after[places[i]] == trampoline && stub.offsets[i] == PltOffset(places[i], slots[places[i]])
    {
      assert stub.offsets[i].slot == places[i];
      PatchedSaves(slots, offsets, trampoline, |places|, i);
      assert !Hits(offsets, i, places[i]);
    }
  }

  /** Destroying a stub without duplicate places writes what it saved, and nothing else. */
  lemma DestroyEach(slots: seq<Fn>, stub: Stub)
    requires InTable(slots, stub.offsets)
    requires forall i, j | 0 <= i < j < |stub.offsets| :: stub.offsets[i].slot != stub.offsets[j].slot
    ensures forall i | 0 <= i < |stub.offsets| :: Destroy(slots, stub)[stub.offsets[i].slot] == stub.offsets[i].oldval
    ensures forall x | 0 <= x < |slots| && !Owns(stub, x) :: Destroy(slots, stub)[x] == slots[x]
  {
    forall i | 0 <= i < |stub.offsets|
      ensures Destroy(slots, stub)[stub.offsets[i].slot] == stub.offsets[i].oldval
    {
      RestoredLast(slots, stub.offsets, |stub.offsets|, i);
    }
    forall x | 0 <= x < |slots| && !Owns(stub, x)
      ensures Destroy(slots, stub)[x] == slots[x]
    {
      RestoredElsewhere(slots, stub.offsets, |stub.offsets|, x);
    }
  }
}
