/**
 The meaning of a call log: the records that a history of calls leaves behind, and the bytes they are stored as.
 A record is a length word followed by the payload; the payload is a times word followed by the key, that is, by
 everything in the parameter struct behind its times field.
 */
module CallRecords {
  import opened Bytes

  type Key = seq<byte>

  datatype Entry = Entry(times: nat, key: Key)

  // ---- from a history of calls to records ----

  /** One more call made with `key`: counted in the record that has this key, or else in a new last record. */
  function Register(es: seq<Entry>, key: Key): (r: seq<Entry>) {
    if es == [] then [Entry(1, key)]
    else if es[0].key == key then [Entry(es[0].times + 1, key)] + es[1..]
    else [es[0]] + Register(es[1..], key)
  }

  /** The records left by the calls of `history`, oldest call first. */
  function LogOf(history: seq<Key>): seq<Entry> {
    if history == [] then []
    else Register(LogOf(history[..|history| - 1]), history[|history| - 1])
  }

  ghost predicate HasKey(es: seq<Entry>, key: Key) {
    exists i | 0 <= i < |es| :: es[i].key == key
  }

  ghost predicate DistinctKeys(es: seq<Entry>) {
    forall i, j | 0 <= i < j < |es| :: es[i].key != es[j].key
  }

  function TotalTimes(es: seq<Entry>): nat {
    if es == [] then 0 else es[0].times + TotalTimes(es[1..])
  }

  /** Sum of the times of the records whose key satisfies `p`. */
  function TimesWhere(es: seq<Entry>, p: Key -> bool): nat {
    if es == [] then 0 else (if p(es[0].key) then es[0].times else 0) + TimesWhere(es[1..], p)
  }

  /** How many calls of `history` satisfy `p`. */
  function CountWhere<T>(history: seq<T>, p: T -> bool): nat {
    if history == [] then 0
    else CountWhere(history[..|history| - 1], p) + (if p(history[|history| - 1]) then 1 else 0)
  }

  /** The position at which `Register` counts a call whose key is already there. */
  lemma {:induction false} RegisterExisting(es: seq<Entry>, key: Key, i: nat)
    requires i < |es| && es[i].key == key
    requires forall j | 0 <= j < i :: es[j].key != key
    ensures Register(es, key) == es[i := Entry(es[i].times + 1, key)]
  {
    if i > 0 {
      RegisterExisting(es[1..], key, i - 1);
      assert es == [es[0]] + es[1..];
    }
  }

  lemma {:induction false} RegisterNew(es: seq<Entry>, key: Key)
    requires !HasKey(es, key)
    ensures Register(es, key) == es + [Entry(1, key)]
  {
    if es != [] {
      assert es[0].key != key;
      assert forall i | 0 <= i < |es[1..]| :: es[1..][i] == es[i + 1];
      RegisterNew(es[1..], key);
      assert es == [es[0]] + es[1..];
    }
  }

  /** Registering either counts in place or appends; in both cases keys stay distinct. */
  lemma RegisterCases(es: seq<Entry>, key: Key) returns (at: nat)
    ensures at <= |es|
    ensures forall j | 0 <= j < at :: es[j].key != key
    ensures at < |es| ==> es[at].key == key && Register(es, key) == es[at := Entry(es[at].times + 1, key)]
    ensures at == |es| ==> !HasKey(es, key) && Register(es, key) == es + [Entry(1, key)]
  {
    at := 0;
    while at < |es| && es[at].key != key
      invariant at <= |es|
      invariant forall j | 0 <= j < at :: es[j].key != key
    {
      at := at + 1;
    }
    if at < |es| {
      RegisterExisting(es, key, at);
    } else {
      RegisterNew(es, key);
    }
  }

  /**
   What the log says about the calls: the keys are pairwise distinct, every call has a record, and a record's times
   is the number of calls made with exactly its bytes.
   */
  lemma {:induction false} LogCountsCalls(history: seq<Key>)
    ensures DistinctKeys(LogOf(history))
    ensures forall e | e in LogOf(history) :: e.times == multiset(history)[e.key] > 0
    ensures forall k | k in history :: HasKey(LogOf(history), k)
  {
    if history != [] {
      var before, key := history[..|history| - 1], history[|history| - 1];
      assert history == before + [key];
      LogCountsCalls(before);
      var es := LogOf(before);
      var at := RegisterCases(es, key);
      var after := LogOf(history);
      assert after == Register(es, key);
      forall i | 0 <= i < |after|
        ensures after[i].times == multiset(history)[after[i].key] > 0
      {
        if i < |es| {
          assert es[i] in es;
          assert i != at ==> es[i].key != key;
        } else {
          assert key !in before;
        }
      }
      forall k | k in history
        ensures HasKey(after, k)
      {
        if k in before {
          var i :| 0 <= i < |es| && es[i].key == k;
          assert after[i].key == k;
        } else {
          assert k == key;
          assert after[at].key == k;
        }
      }
    }
  }

  lemma {:induction false} KeysComeFromCalls(history: seq<Key>)
    ensures forall e | e in LogOf(history) :: e.key in history
    ensures |LogOf(history)| <= |history|
  {
    if history != [] {
      var before, key := history[..|history| - 1], history[|history| - 1];
      assert history == before + [key];
      KeysComeFromCalls(before);
      var at := RegisterCases(LogOf(before), key);
    }
  }

  lemma {:induction false} TimesWhereSplit(a: seq<Entry>, b: seq<Entry>, p: Key -> bool)
    ensures TimesWhere(a + b, p) == TimesWhere(a, p) + TimesWhere(b, p)
  {
    if a == [] {
      assert a + b == b;
    } else {
      TimesWhereSplit(a[1..], b, p);
      assert (a + b)[1..] == a[1..] + b;
    }
  }

  lemma {:induction false} TimesWhereRegister(es: seq<Entry>, key: Key, p: Key -> bool)
    ensures TimesWhere(Register(es, key), p) == TimesWhere(es, p) + (if p(key) then 1 else 0)
  {
    if es != [] && es[0].key != key {
      TimesWhereRegister(es[1..], key, p);
    }
  }

  /**
   Merging calls loses nothing: whatever property of keys one asks about, summing the times of the records that
   have it gives the number of calls that had it.
   */
  lemma {:induction false} TimesWhereIsCount(history: seq<Key>, p: Key -> bool)
    ensures TimesWhere(LogOf(history), p) == CountWhere(history, p)
  {
    if history != [] {
      var before, key := history[..|history| - 1], history[|history| - 1];
      TimesWhereIsCount(before, p);
      TimesWhereRegister(LogOf(before), key, p);
    }
  }

  predicate AnyKey(key: Key) {
    true
  }

  lemma {:induction false} TotalIsTimesWhere(es: seq<Entry>)
    ensures TotalTimes(es) == TimesWhere(es, AnyKey)
  {
    if es != [] {
      TotalIsTimesWhere(es[1..]);
    }
  }

  lemma {:induction false} CountAll(history: seq<Key>)
    ensures CountWhere(history, AnyKey) == |history|
  {
    if history != [] {
      CountAll(history[..|history| - 1]);
    }
  }

  /** The times of all records together account for every call registered, once. */
  lemma TotalTimesIsCalls(history: seq<Key>)
    ensures TotalTimes(LogOf(history)) == |history|
  {
    TotalIsTimesWhere(LogOf(history));
    TimesWhereIsCount(history, AnyKey);
    CountAll(history);
  }

  // ---- from records to bytes ----

  function Payload(e: Entry): (s: seq<byte>)
    ensures |s| == WORD + |e.key|
  {
    WordBytes(e.times) + e.key
  }

  function Record(e: Entry): (s: seq<byte>)
    ensures |s| == 2 * WORD + |e.key|
  {
    WordBytes(WORD + |e.key|) + Payload(e)
  }

  function Encode(es: seq<Entry>): seq<byte> {
    if es == [] then [] else Record(es[0]) + Encode(es[1..])
  }

  /** Where the length word of record `i` starts; for `i == |es|` the end of the log. */
  ghost function RecordStart(es: seq<Entry>, i: nat): nat
    requires i <= |es|
  {
    |Encode(es[..i])|
  }

  /** Every number in the record fits its size_t. */
  predicate Fits(e: Entry) {
    e.times < SIZE_LIMIT && WORD + |e.key| < SIZE_LIMIT
  }

  lemma {:induction false} EncodeSplit(a: seq<Entry>, b: seq<Entry>)
    ensures Encode(a + b) == Encode(a) + Encode(b)
  {
    if a == [] {
      assert a + b == b;
    } else {
      EncodeSplit(a[1..], b);
      assert (a + b)[1..] == a[1..] + b;
      assert (a + b)[0] == a[0];
    }
  }

  /** The log is what precedes record `i`, then record `i`, then the rest. */
  lemma EncodeAt(es: seq<Entry>, i: nat)
    requires i < |es|
    ensures Encode(es) == Encode(es[..i]) + Record(es[i]) + Encode(es[i + 1..])
    ensures RecordStart(es, i + 1) == RecordStart(es, i) + |Record(es[i])| <= |Encode(es)|
  {
    assert es == es[..i] + [es[i]] + es[i + 1..];
    EncodeSplit(es[..i], [es[i]]);
    EncodeSplit(es[..i] + [es[i]], es[i + 1..]);
    assert es[..i + 1] == es[..i] + [es[i]];
    assert Encode([es[i]]) == Record(es[i]);
  }

  lemma EncodeEnd(es: seq<Entry>)
    ensures RecordStart(es, |es|) == |Encode(es)|
  {
    assert es[..|es|] == es;
  }

  lemma SliceOf(mem: seq<byte>, pre: seq<byte>, mid: seq<byte>, post: seq<byte>)
    requires pre + mid + post <= mem
    ensures mem[|pre|..|pre| + |mid|] == mid
  {
    assert mem[|pre|..|pre| + |mid|] == (pre + mid + post)[|pre|..|pre| + |mid|];
  }

  /** What the memory of a log holds at the fields of record `i`. */
  lemma RecordFields(mem: seq<byte>, es: seq<Entry>, i: nat)
    requires Encode(es) <= mem && i < |es| && Fits(es[i])
    ensures RecordStart(es, i) + 2 * WORD + |es[i].key| == RecordStart(es, i + 1) <= |Encode(es)|
    ensures WordAt(mem, RecordStart(es, i)) == WORD + |es[i].key|
    ensures WordAt(mem, RecordStart(es, i) + WORD) == es[i].times
    ensures mem[RecordStart(es, i) + 2 * WORD..RecordStart(es, i + 1)] == es[i].key
  {
    EncodeAt(es, i);
    var pre, post := Encode(es[..i]), Encode(es[i + 1..]);
    var len, times, key := WordBytes(WORD + |es[i].key|), WordBytes(es[i].times), es[i].key;
    RecordSlices(mem, pre, len, times, key, post);
    WordRoundTrip(WORD + |es[i].key|);
    WordRoundTrip(es[i].times);
  }

  lemma RecordSlices(mem: seq<byte>, pre: seq<byte>, len: seq<byte>, times: seq<byte>, key: seq<byte>, post: seq<byte>)
    requires pre + (len + (times + key)) + post <= mem
    ensures mem[|pre|..|pre| + |len|] == len
    ensures mem[|pre| + |len|..|pre| + |len| + |times|] == times
    ensures mem[|pre| + |len| + |times|..|pre| + |len| + |times| + |key|] == key
  {
    assert pre + (len + (times + key)) + post == pre + len + (times + key + post);
    SliceOf(mem, pre, len, times + key + post);
    assert pre + (len + (times + key)) + post == (pre + len) + times + (key + post);
    SliceOf(mem, pre + len, times, key + post);
    assert pre + (len + (times + key)) + post == (pre + len + times) + key + post;
    SliceOf(mem, pre + len + times, key, post);
  }

  /** Overwriting the times word of record `i` changes that record's times and nothing else. */
  lemma EncodeSetTimes(es: seq<Entry>, i: nat, t: nat)
    requires i < |es|
    requires RecordStart(es, i) + 2 * WORD <= |Encode(es)|
    ensures Encode(es[i := Entry(t, es[i].key)]) == Store(Encode(es), RecordStart(es, i) + WORD, WordBytes(t))
  {
    var es' := es[i := Entry(t, es[i].key)];
    var pre, post, k := Encode(es[..i]), Encode(es[i + 1..]), es[i].key;
    var len := WordBytes(WORD + |k|);
    assert Encode(es) == pre + (len + (WordBytes(es[i].times) + k)) + post by {
      EncodeAt(es, i);
    }
    assert Encode(es') == pre + (len + (WordBytes(t) + k)) + post by {
      EncodeAt(es', i);
      assert es'[..i] == es[..i] && es'[i + 1..] == es[i + 1..];
    }
    StoreMiddle(pre, len, WordBytes(es[i].times), WordBytes(t), k, post);
  }

  lemma StoreMiddle(pre: seq<byte>, len: seq<byte>, old_: seq<byte>, new_: seq<byte>, key: seq<byte>, post: seq<byte>)
    requires |old_| == |new_|
    ensures pre + (len + (new_ + key)) + post
         == Store(pre + (len + (old_ + key)) + post, |pre| + |len|, new_)
  {
    var a := pre + (len + (old_ + key)) + post;
    assert a == (pre + len) + old_ + (key + post);
    assert a[..|pre| + |len|] == pre + len;
    assert a[|pre| + |len| + |old_|..] == key + post;
  }

  lemma EncodeAppend(es: seq<Entry>, e: Entry)
    ensures Encode(es + [e]) == Encode(es) + Record(e)
  {
    EncodeSplit(es, [e]);
  }

  /** The bytes of a log determine its records. */
  lemma {:induction false} EncodeInjective(a: seq<Entry>, b: seq<Entry>)
    requires forall e | e in a :: Fits(e)
    requires forall e | e in b :: Fits(e)
    requires Encode(a) == Encode(b)
    ensures a == b
  {
    if a == [] || b == [] {
      assert |Encode(a)| == 0;
      assert a == b;
    } else {
      RecordFields(Encode(a), a, 0);
      RecordFields(Encode(b), b, 0);
      assert a[0] == b[0];
      assert Encode(a[1..]) == Encode(a)[|Record(a[0])|..] == Encode(b[1..]);
      EncodeInjective(a[1..], b[1..]);
      assert a == [a[0]] + a[1..] && b == [b[0]] + b[1..];
    }
  }
}
