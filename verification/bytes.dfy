/** Bytes, little-endian machine words, and byte memory as a value. */
module Bytes {

  datatype Option<+T> = None | Some(value: T)

  type byte = x: int | 0 <= x < 256

  /** sizeof (size_t) on a 64-bit target. */
  const WORD: nat := 8

  /** One more than the largest size_t. */
  const SIZE_LIMIT: nat := 0x1_0000_0000_0000_0000

  function Pow256(n: nat): (p: nat)
    ensures p > 0
  {
    if n == 0 then 1 else 256 * Pow256(n - 1)
  }

  lemma Pow256Word()
    ensures Pow256(WORD) == SIZE_LIMIT
  {
    assert Pow256(2) == 0x1_0000;
    assert Pow256(4) == 0x1_0000_0000;
    assert Pow256(6) == 0x1_0000_0000_0000;
  }

  /** The unsigned number a little-endian byte string stands for. */
  function FromLE(s: seq<byte>): (w: nat)
    ensures w < Pow256(|s|)
  {
    if s == [] then 0 else s[0] + 256 * FromLE(s[1..])
  }

  /** The low `n` bytes of `w`, least significant first. */
  function ToLE(w: nat, n: nat): (s: seq<byte>)
    ensures |s| == n
  {
    if n == 0 then [] else [w % 256] + ToLE(w / 256, n - 1)
  }

  /** Byte `k` stands for multiples of 256 to the power of `k`. */
  lemma {:induction false} ByteOfLE(w: nat, n: nat, k: nat)
    requires k < n
    ensures ToLE(w, n)[k] == w / Pow256(k) % 256
  {
    if k > 0 {
      ByteOfLE(w / 256, n - 1, k - 1);
      DividedTwice(w, Pow256(k - 1));
    }
  }

  lemma DividedTwice(w: nat, p: nat)
    requires p > 0
    ensures w / 256 / p == w / (256 * p)
  {
    var q, r := w / 256 / p, w / 256 % p;
    var low := w % 256;
    assert w / 256 == q * p + r && w == 256 * (w / 256) + low;
    assert w == q * (256 * p) + (256 * r + low);
    Divided(w, 256 * p, q, 256 * r + low);
  }

  lemma {:induction false} FromToLE(w: nat, n: nat)
    requires w < Pow256(n)
    ensures FromLE(ToLE(w, n)) == w
  {
    if n > 0 {
      FromToLE(w / 256, n - 1);
      assert ToLE(w, n)[1..] == ToLE(w / 256, n - 1);
    }
  }

  lemma {:induction false} ToFromLE(s: seq<byte>)
    ensures ToLE(FromLE(s), |s|) == s
  {
    if s != [] {
      ToFromLE(s[1..]);
      var w := FromLE(s[1..]);
      assert FromLE(s) == s[0] + 256 * w;
      assert FromLE(s) % 256 == s[0] && FromLE(s) / 256 == w;
      assert s == [s[0]] + s[1..];
    }
  }

  /** Quotient and remainder are the only numbers that make up `h`. */
  lemma Divided(h: nat, n: nat, q: nat, b: nat)
    requires b < n && h == q * n + b
    ensures h / n == q && h % n == b
  {
    var p, r := h / n, h % n;
    assert p * n + r == h;
    if p > q {
      Multiple(p - q, n);
    } else if p < q {
      Multiple(q - p, n);
    }
  }

  lemma Multiple(k: nat, n: nat)
    requires k > 0
    ensures k * n >= n
  {
  }

  /** The size_t at offset `off`. */
  function WordAt(s: seq<byte>, off: nat): nat
    requires off + WORD <= |s|
  {
    FromLE(s[off..off + WORD])
  }

  function WordBytes(w: nat): (s: seq<byte>)
    ensures |s| == WORD
  {
    ToLE(w, WORD)
  }

  lemma WordRoundTrip(w: nat)
    requires w < SIZE_LIMIT
    ensures FromLE(WordBytes(w)) == w
  {
    Pow256Word();
    FromToLE(w, WORD);
  }

  /** `s` with `data` written over it at `off`. */
  function Store(s: seq<byte>, off: nat, data: seq<byte>): (t: seq<byte>)
    requires off + |data| <= |s|
    ensures |t| == |s|
    ensures t[off..off + |data|] == data
    ensures forall i | 0 <= i < |s| && !(off <= i < off + |data|) :: t[i] == s[i]
  {
    s[..off] + data + s[off + |data|..]
  }
}
