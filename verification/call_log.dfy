/** The growable byte buffer in which a mock records the calls made to it, and the iterator over its records. */
module CallLogs {
  import opened Bytes
  import opened CallRecords
  import opened CHeap
  import Vitals

  const PAGE: nat := 4096

  // ---- the buffer as a value ----

  /** The first `top` bytes of `mem` are the records `es`, each of them `size` bytes behind its length word. */
  ghost predicate Image(mem: seq<byte>, top: nat, es: seq<Entry>, size: nat) {
    && WORD <= size < SIZE_LIMIT
    && top <= |mem| && mem[..top] == Encode(es)
    && forall i | 0 <= i < |es| :: es[i].times < SIZE_LIMIT && WORD + |es[i].key| == size
  }

  /** Record `i` in memory, and where the next one starts. */
  lemma RecordInImage(mem: seq<byte>, top: nat, es: seq<Entry>, size: nat, i: nat)
    requires Image(mem, top, es, size) && i < |es|
    ensures RecordStart(es, i) + WORD + size == RecordStart(es, i + 1) <= top
    ensures WordAt(mem, RecordStart(es, i)) == size
    ensures WordAt(mem, RecordStart(es, i) + WORD) == es[i].times
    ensures mem[RecordStart(es, i) + 2 * WORD..RecordStart(es, i) + WORD + size] == es[i].key
    ensures i + 1 < |es| ==> RecordStart(es, i + 1) + WORD + size <= top
    ensures i + 1 == |es| ==> RecordStart(es, i + 1) == top
  {
    assert Encode(es) <= mem;
    RecordFields(mem, es, i);
    if i + 1 < |es| {
      EncodeAt(es, i + 1);
    } else {
      EncodeEnd(es);
    }
  }

  lemma EmptyImage(mem: seq<byte>, top: nat, es: seq<Entry>, size: nat)
    requires Image(mem, top, es, size)
    ensures top == 0 <==> es == []
  {
    if es != [] {
      EncodeAt(es, 0);
    }
  }

  /** Writing the times word of record `i`. */
  lemma StoreTimes(mem: seq<byte>, top: nat, es: seq<Entry>, size: nat, i: nat, t: nat)
    requires Image(mem, top, es, size) && i < |es|
    ensures RecordStart(es, i) + 2 * WORD <= top
    ensures Store(mem, RecordStart(es, i) + WORD, WordBytes(t))[..top] == Encode(es[i := Entry(t, es[i].key)])
  {
    RecordInImage(mem, top, es, size, i);
    EncodeSetTimes(es, i, t);
    var s := RecordStart(es, i) + WORD;
    assert Store(mem, s, WordBytes(t))[..top] == Store(mem[..top], s, WordBytes(t));
  }

  lemma IncrementInImage(mem: seq<byte>, top: nat, es: seq<Entry>, size: nat, i: nat)
    requires Image(mem, top, es, size) && i < |es|
    ensures RecordStart(es, i) + 2 * WORD <= |mem|
    ensures var p := RecordStart(es, i) + WORD;
            Store(mem, p, WordBytes(WordAt(mem, p) + 1))[..top] == Encode(es[i := Entry(es[i].times + 1, es[i].key)])
  {
    RecordInImage(mem, top, es, size, i);
    StoreTimes(mem, top, es, size, i, es[i].times + 1);
  }

  /** The three stores that write a new record with times 1. */
  lemma StoreRecord(mem: seq<byte>, top: nat, len: seq<byte>, params: seq<byte>, one: seq<byte>)
    requires |len| == |one| == WORD <= |params| && top + WORD + |params| <= |mem|
    ensures Store(Store(Store(mem, top, len), top + WORD, params), top + WORD, one)[..top + WORD + |params|]
         == mem[..top] + (len + (one + params[WORD..]))
  {
  }

  // ---- the routines on the buffer ----

  /** A store through a size_t pointer into a buffer. */
  method StoreWord(heap: Heap, a: array<byte>, off: nat, w: nat)
    requires off + WORD <= a.Length && a in heap.live
    modifies a
    ensures a[..] == Store(old(a[..]), off, WordBytes(w))
  {
    var bytes := WordBytes(w);
    heap.Use(a);
    forall i | 0 <= i < WORD {
      a[off + i] := bytes[i];
    }
  }

  /** Position of the first record's payload; None is NULL. */
  function ParamsBegin(callData: array?<byte>, callDataTop: nat, ghost es: seq<Entry>,
                       ghost size: nat): (p: Option<nat>)
    requires if callData == null then es == [] else Image(callData[..], callDataTop, es, size)
    reads callData
    ensures p == if es == [] then None else Some(RecordStart(es, 0) + WORD)
  {
    if callData == null then None
    else
      EmptyImage(callData[..], callDataTop, es, size);
      if callDataTop == 0 then None else Some(WORD)
  }

  /** From the payload of record `i` to that of the next one, by the length word in front of it. */
  function ParamsNext(callData: array<byte>, callDataTop: nat, prev: nat,
                      ghost es: seq<Entry>, ghost size: nat, ghost i: nat): (p: Option<nat>)
    requires Image(callData[..], callDataTop, es, size)
    requires i < |es| && prev == RecordStart(es, i) + WORD
    reads callData
    ensures p == if i + 1 < |es| then Some(RecordStart(es, i + 1) + WORD) else None
  {
    RecordInImage(callData[..], callDataTop, es, size, i);
    var ptr := prev + WordAt(callData[..], prev - WORD) + WORD;
    if ptr >= callDataTop then None else Some(ptr)
  }

  /** Adds one to the times of record `i`, in place. */
  method IncrementTimes(heap: Heap, callData: array<byte>, p: nat, ghost top: nat, ghost es: seq<Entry>,
                        ghost size: nat, ghost i: nat)
    requires callData in heap.live
    requires Image(callData[..], top, es, size) && i < |es| && p == RecordStart(es, i) + WORD
    modifies callData
    ensures callData[..][..top] == Encode(es[i := Entry(es[i].times + 1, es[i].key)])
  {
    hide *;
    IncrementInImage(callData[..], top, es, size, i);
    heap.Use(callData);
    var times := WordAt(callData[..], p);
    StoreWord(heap, callData, p, times + 1);
  }

  /** Compares record `i` with `key`, leaving out its times word. */
  method CompareParams(heap: Heap, callData: array<byte>, callDataTop: nat, p: nat, key: Key, size: nat,
                       ghost es: seq<Entry>, ghost i: nat) returns (res: int)
    requires callData in heap.live
    requires Image(callData[..], callDataTop, es, size) && WORD + |key| == size
    requires i < |es| && p == RecordStart(es, i) + WORD
    ensures res == 0 <==> es[i].key == key
  {
    RecordInImage(callData[..], callDataTop, es, size, i);
    heap.Use(callData);
    res := Vitals.Memcmp(callData, p + WORD, key, size - WORD);
    assert callData[p + WORD..p + size] == callData[..][p + WORD..p + size];
  }

  /** Walks the records up to the first one whose bytes behind the times word are `key`. */
  method FindRecord(heap: Heap, callData: array<byte>, callDataTop: nat, key: Key, size: nat, ghost es: seq<Entry>)
    returns (p: Option<nat>, ghost i: nat)
    requires callData in heap.live
    requires Image(callData[..], callDataTop, es, size) && WORD + |key| == size
    ensures i <= |es| && forall j | 0 <= j < i :: es[j].key != key
    ensures p.Some? ==> i < |es| && es[i].key == key && p.value == RecordStart(es, i) + WORD
    ensures p.None? ==> i == |es|
    ensures p.Some? <==> HasKey(es, key)
  {
    i := 0;
    p := ParamsBegin(callData, callDataTop, es, size);
    while p.Some?
      invariant i <= |es|
      invariant p == if i < |es| then Some(RecordStart(es, i) + WORD) else None
      invariant forall j | 0 <= j < i :: es[j].key != key
      decreases |es| - i
    {
      var res := CompareParams(heap, callData, callDataTop, p.value, key, size, es, i);
      if res == 0 {
        return;
      }
      heap.Use(callData);
      p := ParamsNext(callData, callDataTop, p.value, es, size, i);
      i := i + 1;
    }
  }

  /**
   Looks for a record with the bytes of `params` behind the times word and counts the call there. One is found
   exactly when a call with these bytes has a record already.
   */
  method FindAndIncCallMatching(heap: Heap, callData: array<byte>, callDataTop: nat, params: seq<byte>, size: nat,
                                ghost es: seq<Entry>) returns (found: bool)
    requires callData in heap.live
    requires Image(callData[..], callDataTop, es, size) && |params| == size
    modifies callData
    ensures found <==> HasKey(es, params[WORD..])
    ensures found ==> callData[..][..callDataTop] == Encode(Register(es, params[WORD..]))
    ensures !found ==> callData[..] == old(callData[..])
  {
    var p, i := FindRecord(heap, callData, callDataTop, params[WORD..], size, es);
    if p.None? {
      return false;
    }
    RegisterExisting(es, params[WORD..], i);
    IncrementTimes(heap, callData, p.value, callDataTop, es, size, i);
    return true;
  }

  /** A new record with times 1 behind the last one; the earlier bytes stay. */
  method WriteRecord(heap: Heap, callData: array<byte>, top: nat, params: seq<byte>, size: nat)
    requires |params| == size >= WORD && callData in heap.live
    requires top + size + WORD <= callData.Length
    modifies callData
    ensures callData[..][..top + size + WORD] == old(callData[..])[..top] + Record(Entry(1, params[WORD..]))
  {
    var len := WordBytes(size);
    ghost var one := WordBytes(1);
    StoreRecord(callData[..], top, len, params, one);
    CopyWhole(heap, callData, top, len);
    CopyWhole(heap, callData, top + WORD, params);
    StoreWord(heap, callData, top + WORD, 1);
  }

  method CopyWhole(heap: Heap, dst: array<byte>, off: nat, src: seq<byte>)
    requires off + |src| <= dst.Length && dst in heap.live
    modifies dst
    ensures dst[..] == Store(old(dst[..]), off, src)
  {
    assert src[..|src|] == src;
    heap.Use(dst);
    Vitals.Memcpy(dst, off, src, |src|);
  }

  /** A larger block with the old contents in front; the old block is freed. */
  method Realloc(heap: Heap, old_: array<byte>, size: nat) returns (a: array<byte>)
    requires old_ in heap.live && old_.Length <= size
    modifies heap
    ensures fresh(a) && a.Length == size
    ensures a[..][..old_.Length] == old_[..]
    ensures heap.live == old(heap.live) - {old_} + {a}
  {
    a := new byte[size];
    heap.Use(old_);
    forall i | 0 <= i < old_.Length {
      a[i] := old_[i];
    }
    heap.Free(old_);
    heap.Allocated(a);
  }

  /** The fields call_data, call_data_top and call_data_size of a mock context. */
  class CallLog {
    var callData: array?<byte>
    var callDataTop: nat
    var callDataSize: nat

    /** sizeof (reg_params), the same for every call of one mock. */
    ghost const recordSize: nat

    /** The keys of all calls registered so far, oldest first. */
    ghost var history: seq<Key>

    ghost predicate Valid()
      reads this, callData
    {
      && WORD <= recordSize < SIZE_LIMIT && |history| < SIZE_LIMIT
      && (forall i | 0 <= i < |history| :: WORD + |history[i]| == recordSize)
      && if callData == null then
           callDataTop == callDataSize == 0 && history == []
         else
           && callData.Length == callDataSize == PAGE * (callDataTop / PAGE + 1)
           && callData[..][..callDataTop] == Encode(LogOf(history))
    }

    /** `n` more calls overflow neither a counter nor an address. */
    ghost predicate Room(n: nat)
      reads this
    {
      |history| + n < SIZE_LIMIT && callDataTop + Needed(n, recordSize + WORD) + PAGE < SIZE_LIMIT
    }

    lemma RoomForOne(n: nat)
      requires Room(n + 1)
      ensures Room(1)
    {
      assert Needed(1, recordSize + WORD) == Needed(0, recordSize + WORD) + recordSize + WORD;
    }

    /** The heap blocks this log owns. */
    ghost function Blocks(): set<object>
      reads this
    {
      if callData == null then {} else {callData}
    }

    constructor (ghost size: nat)
      requires WORD <= size < SIZE_LIMIT
      ensures Valid() && history == [] && recordSize == size && callData == null
    {
      callData := null;
      callDataTop := 0;
      callDataSize := 0;
      recordSize := size;
      history := [];
    }

    lemma ValidImage()
      requires Valid() && callData != null
      ensures Image(callData[..], callDataTop, LogOf(history), recordSize)
    {
      LogFits(history, recordSize);
    }

    /** The buffer appears with the first call. */
    method InitBuffer(heap: Heap)
      requires Valid() && Blocks() <= heap.live
      modifies this`callData, this`callDataSize, heap
      ensures Valid() && callData != null && (callData == old(callData) || fresh(callData))
      ensures heap.live == old(heap.live) - old(Blocks()) + Blocks()
    {
      if callData == null {
        callData := new byte[PAGE];
        callDataSize := PAGE;
        heap.Allocated(callData);
      }
    }

    /** Makes room for one more record of `size` bytes; the records so far are kept. */
    method Grow(heap: Heap, size: nat)
      requires Valid() && callData != null && callData in heap.live
      modifies this`callData, this`callDataSize, heap
      ensures callData != null && callData.Length == callDataSize == PAGE * ((callDataTop + size + WORD) / PAGE + 1)
      ensures callData == old(callData) || fresh(callData)
      ensures callDataTop <= old(callData.Length)
      ensures callData[..][..callDataTop] == old(callData[..][..callDataTop])
      ensures heap.live == old(heap.live) - {old(callData)} + {callData}
    {
      assert callDataTop < callDataSize;
      if callDataTop + size + WORD >= callDataSize {
        callDataSize := GrownSize(callDataSize, callDataTop + size + WORD);
        callData := Realloc(heap, callData, callDataSize);
      } else {
        SamePage(callDataTop, size + WORD);
      }
    }

    /** A record for a call whose bytes were never seen. */
    method Append(heap: Heap, params: seq<byte>, size: nat)
      requires Valid() && callData != null && callData in heap.live
      requires |params| == size == recordSize
      requires |history| + 1 < SIZE_LIMIT && !HasKey(LogOf(history), params[WORD..])
      modifies this`callData, this`callDataSize, this`callDataTop, this`history, callData, heap
      ensures Valid() && history == old(history) + [params[WORD..]]
      ensures heap.live == old(heap.live) - {old(callData)} + {callData}
      ensures callData != null && (callData == old(callData) || fresh(callData))
      ensures callDataTop == old(callDataTop) + size + WORD
    {
      LogAppend(history, params[WORD..]);
      hide Encode, LogOf, HasKey, Record;
      ghost var after := Encode(LogOf(history + [params[WORD..]]));
      Grow(heap, size);
      WriteRecord(heap, callData, callDataTop, params, size);
      assert callData[..][..callDataTop + size + WORD] == after;
      callDataTop := callDataTop + (size + WORD);
      history := history + [params[WORD..]];
    }

    /**
     Registers one call. The caller's struct is `params`; its times word is ignored, and the rest is the key.
     Room means that counters and addresses do not wrap.
     */
    method RegisterCall(heap: Heap, params: seq<byte>, size: nat)
      requires Valid() && Blocks() <= heap.live
      requires |params| == size == recordSize
      requires Room(1)
      modifies this, callData, heap
      ensures Valid() && history == old(history) + [params[WORD..]]
      ensures heap.live == old(heap.live) - old(Blocks()) + Blocks()
      ensures callData != null && (callData == old(callData) || fresh(callData))
      ensures callDataTop <= old(callDataTop) + size + WORD
    {
      InitBuffer(heap);
      ghost var es, key := LogOf(history), params[WORD..];
      ValidImage();
      var found := FindAndIncCallMatching(heap, callData, callDataTop, params, size, es);
      if found {
        history := history + [key];
        LogRegister(old(history), key);
        return;
      }
      Append(heap, params, size);
    }
  }

  lemma LogRegister(history: seq<Key>, key: Key)
    ensures LogOf(history + [key]) == Register(LogOf(history), key)
  {
    assert (history + [key])[..|history|] == history;
  }

  lemma LogAppend(history: seq<Key>, key: Key)
    requires !HasKey(LogOf(history), key)
    ensures Encode(LogOf(history + [key])) == Encode(LogOf(history)) + Record(Entry(1, key))
  {
    assert (history + [key])[..|history|] == history;
    RegisterNew(LogOf(history), key);
    EncodeAppend(LogOf(history), Entry(1, key));
  }

  /** A record that leaves room behind it does not reach the next page boundary. */
  lemma SamePage(top: nat, n: nat)
    requires top + n < PAGE * (top / PAGE + 1)
    ensures (top + n) / PAGE == top / PAGE
  {
  }

  /** Bytes that `n` records take. */
  function Needed(n: nat, size: nat): nat {
    if n == 0 then 0 else Needed(n - 1, size) + size
  }

  /** Adds pages until `needed` bytes leave room behind them: the least such multiple of the page size. */
  method GrownSize(size: nat, needed: nat) returns (grown: nat)
    requires size % PAGE == 0 && size <= needed
    ensures grown == PAGE * (needed / PAGE + 1)
    ensures grown % 4096 == 0 && needed < grown <= needed + 4096
  {
    grown := size;
    while needed >= grown
      invariant grown % PAGE == 0 && grown <= needed + PAGE
      decreases needed + PAGE - grown
    {
      grown := grown + PAGE;
    }
  }

  /** Every record of a log fits its words and has the size of the mock's parameter struct. */
  lemma LogFits(history: seq<Key>, size: nat)
    requires |history| < SIZE_LIMIT && forall i | 0 <= i < |history| :: WORD + |history[i]| == size
    ensures forall i | 0 <= i < |LogOf(history)| ::
      0 < LogOf(history)[i].times < SIZE_LIMIT && WORD + |LogOf(history)[i].key| == size
  {
    LogCountsCalls(history);
    KeysComeFromCalls(history);
    forall i | 0 <= i < |LogOf(history)|
      ensures 0 < LogOf(history)[i].times <= |history| && WORD + |LogOf(history)[i].key| == size
    {
      var e := LogOf(history)[i];
      assert e in LogOf(history);
      assert multiset(history)[e.key] <= |multiset(history)|;
    }
  }
}
