/** The parameter struct of a mock: where the arguments of a call lie in the bytes that are logged. */
module ParamStructs {
  import opened Bytes

  /** Size of the fields in front of the parameters: times, va_args_sz and va_args. */
  const HEADER: nat := 3 * WORD

  datatype Field = Field(offset: nat, size: nat, signed: bool)

  /** Fields in declaration order and sizeof the whole struct; bytes that belong to no field are padding. */
  datatype Layout = Layout(fields: seq<Field>, size: nat)

  predicate ValidLayout(l: Layout) {
    && HEADER <= l.size < SIZE_LIMIT
    && (forall i | 0 <= i < |l.fields| ::
          HEADER <= l.fields[i].offset && l.fields[i].offset + l.fields[i].size <= l.size)
    && (forall i, j | 0 <= i < j < |l.fields| :: l.fields[i].offset + l.fields[i].size <= l.fields[j].offset)
  }

  /** Values the field's type can hold. */
  predicate InRange(f: Field, v: int) {
    if f.signed then 0 <= 2 * v + Pow256(f.size) && 2 * v < Pow256(f.size) else 0 <= v < Pow256(f.size)
  }

  /** Two's complement for signed types. */
  function ToField(f: Field, v: int): (s: seq<byte>)
    requires InRange(f, v)
    ensures |s| == f.size
  {
    ToLE(if v < 0 then v + Pow256(f.size) else v, f.size)
  }

  function FromField(f: Field, s: seq<byte>): (v: int)
    requires |s| == f.size
    ensures InRange(f, v)
  {
    var u := FromLE(s);
    if f.signed && 2 * u >= Pow256(f.size) then u - Pow256(f.size) else u
  }

  lemma FieldRoundTrip(f: Field, v: int)
    requires InRange(f, v)
    ensures FromField(f, ToField(f, v)) == v
  {
    FromToLE(if v < 0 then v + Pow256(f.size) else v, f.size);
  }

  /** The sign of a field is its topmost bit, and what a field stands for differs from its bytes by whole turns only. */
  lemma SignIsTopBit(f: Field, s: seq<byte>)
    requires |s| == f.size > 0
    ensures FromField(f, s) < 0 <==> f.signed && s[f.size - 1] >= 128
    ensures FromField(f, s) == FromLE(s) || FromField(f, s) == FromLE(s) - Pow256(f.size)
  {
    TopByte(s);
  }

  lemma {:induction false} TopByte(s: seq<byte>)
    requires s != []
    ensures 2 * FromLE(s) >= Pow256(|s|) <==> s[|s| - 1] >= 128
  {
    if |s| > 1 {
      TopByte(s[1..]);
      assert s[1..][|s| - 2] == s[|s| - 1];
      EvenPower(|s| - 1);
    } else {
      assert Pow256(1) == 256 && FromLE(s[1..]) == 0;
    }
  }

  lemma EvenPower(n: nat)
    requires n > 0
    ensures Pow256(n) % 2 == 0
  {
  }

  predicate ArgsFit(l: Layout, args: seq<int>) {
    |args| == |l.fields| && forall i | 0 <= i < |args| :: InRange(l.fields[i], args[i])
  }

  /** `p->paramN` for a struct with the bytes `s`. */
  function Param(l: Layout, s: seq<byte>, n: nat): int
    requires ValidLayout(l) && |s| == l.size && n < |l.fields|
  {
    var f := l.fields[n];
    FromField(f, s[f.offset..f.offset + f.size])
  }

  /** All parameters of a struct. */
  function Params(l: Layout, s: seq<byte>): (args: seq<int>)
    requires ValidLayout(l) && |s| == l.size
    ensures ArgsFit(l, args)
  {
    seq(|l.fields|, n requires 0 <= n < |l.fields| => Param(l, s, n))
  }

  /** The parameters of a logged call: its key is the struct without the times word. */
  function KeyParams(l: Layout, key: seq<byte>): (args: seq<int>)
    requires ValidLayout(l) && WORD + |key| == l.size
    ensures ArgsFit(l, args)
  {
    Params(l, WordBytes(0) + key)
  }

  lemma SliceBehind(s: seq<byte>, n: nat, from: nat, to: nat)
    requires n <= from <= to <= |s|
    ensures s[from..to] == s[n..][from - n..to - n]
  {
  }

  /** The parameters do not depend on the times word. */
  lemma ParamsIgnoreTimes(l: Layout, s: seq<byte>, t: seq<byte>)
    requires ValidLayout(l) && |s| == |t| == l.size && s[WORD..] == t[WORD..]
    ensures Params(l, s) == Params(l, t)
  {
    forall n | 0 <= n < |l.fields|
      ensures Param(l, s, n) == Param(l, t, n)
    {
      var f := l.fields[n];
      SliceBehind(s, WORD, f.offset, f.offset + f.size);
      SliceBehind(t, WORD, f.offset, f.offset + f.size);
    }
  }

  // ---- the designated initializer ----

  /** The header fields are zero; then the first `n` parameters are stored. Padding keeps what was in `garbage`. */
  function Initialized(l: Layout, args: seq<int>, garbage: seq<byte>, n: nat): (s: seq<byte>)
    requires ValidLayout(l) && ArgsFit(l, args) && |garbage| == l.size && n <= |l.fields|
    ensures |s| == l.size
  {
    if n == 0 then Store(garbage, 0, ToLE(0, HEADER))
    else
      var f := l.fields[n - 1];
      Store(Initialized(l, args, garbage, n - 1), f.offset, ToField(f, args[n - 1]))
  }

  function StructBytes(l: Layout, args: seq<int>, garbage: seq<byte>): (s: seq<byte>)
    requires ValidLayout(l) && ArgsFit(l, args) && |garbage| == l.size
    ensures |s| == l.size
  {
    Initialized(l, args, garbage, |l.fields|)
  }

  lemma {:induction false} InitializedField(l: Layout, args: seq<int>, garbage: seq<byte>, n: nat, k: nat)
    requires ValidLayout(l) && ArgsFit(l, args) && |garbage| == l.size && k < n <= |l.fields|
    ensures var f := l.fields[k]; Initialized(l, args, garbage, n)[f.offset..f.offset + f.size] == ToField(f, args[k])
  {
    if k < n - 1 {
      InitializedField(l, args, garbage, n - 1, k);
      var f, g := l.fields[k], l.fields[n - 1];
      var s, t := Initialized(l, args, garbage, n - 1), Initialized(l, args, garbage, n);
      assert f.offset + f.size <= g.offset;
      assert t[f.offset..f.offset + f.size] == s[f.offset..f.offset + f.size];
    }
  }

  /** The fields in front of the parameters are zero. */
  lemma {:induction false} HeaderIsZero(l: Layout, args: seq<int>, garbage: seq<byte>, n: nat, k: nat)
    requires ValidLayout(l) && ArgsFit(l, args) && |garbage| == l.size && n <= |l.fields| && k < HEADER
    ensures Initialized(l, args, garbage, n)[k] == 0
  {
    if n > 0 {
      HeaderIsZero(l, args, garbage, n - 1, k);
    } else {
      ByteOfLE(0, HEADER, k);
      assert Initialized(l, args, garbage, 0)[0..HEADER][k] == ToLE(0, HEADER)[k];
    }
  }

  /** Whatever the padding holds, the struct built for a call gives back its arguments. */
  lemma StructHoldsArgs(l: Layout, args: seq<int>, garbage: seq<byte>)
    requires ValidLayout(l) && ArgsFit(l, args) && |garbage| == l.size
    ensures Params(l, StructBytes(l, args, garbage)) == args
    ensures KeyParams(l, StructBytes(l, args, garbage)[WORD..]) == args
  {
    var s := StructBytes(l, args, garbage);
    forall n | 0 <= n < |l.fields|
      ensures Param(l, s, n) == args[n]
    {
      InitializedField(l, args, garbage, |l.fields|, n);
      FieldRoundTrip(l.fields[n], args[n]);
    }
    ParamsIgnoreTimes(l, s, WordBytes(0) + s[WORD..]);
  }
}
