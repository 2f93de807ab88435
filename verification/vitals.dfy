/** The memory and string routines the library carries so that it never calls a function it may have mocked. */
module Vitals {
  import opened Bytes

  /** A C string without its terminator: no NUL inside, every character one byte wide. */
  type CString = s: string | forall i | 0 <= i < |s| :: 0 < s[i] as int < 256

  /** What `*(s + i)` reads: the terminator sits right behind the last character and nothing may be read after it. */
  function At(s: CString, i: nat): char
    requires i <= |s|
  {
    if i < |s| then s[i] else '\0'
  }

  /** The `char` (signed on this target) a byte holds. */
  function SignedChar(b: byte): int {
    if b < 128 then b else b - 256
  }

  function Min(a: nat, b: nat): nat {
    if a <= b then a else b
  }

  /** Position of the first `c` in `s`. */
  function IndexOf(s: string, c: char): (r: Option<nat>)
    ensures r.Some? ==> r.value < |s| && s[r.value] == c && c !in s[..r.value]
    ensures r.None? ==> c !in s
  {
    if s == [] then None
    else if s[0] == c then Some(0)
    else
      match IndexOf(s[1..], c)
      case Some(i) => Some(i + 1)
      case None => None
  }

  lemma IndexOfUnique(s: string, c: char, i: nat)
    requires i < |s| && s[i] == c && c !in s[..i]
    ensures IndexOf(s, c) == Some(i)
  {
    assert c in s;
  }

  /** `r` tells how `a` and `b` compare, as signed characters, at their first difference. */
  ghost predicate Ordered(a: seq<byte>, b: seq<byte>, r: int)
    requires |a| == |b|
  {
    exists k: nat | k < |a| ::
      && a[..k] == b[..k] && a[k] != b[k]
      && r == if (if (a[k] < 128) == (b[k] < 128) then a[k] < b[k] else a[k] >= 128) then -1 else 1
  }

  method Memcmp(s1: array<byte>, off: nat, s2: seq<byte>, n: nat) returns (r: int)
    requires off + n <= s1.Length && n <= |s2|
    ensures r == 0 <==> s1[off..off + n] == s2[..n]
    ensures r != 0 ==> Ordered(s1[off..off + n], s2[..n], r)
  {
    var i := 0;
    while i < n
      invariant i <= n
      invariant s1[off..off + i] == s2[..i]
    {
      if s1[off + i] != s2[i] {
        assert s1[off..off + n][..i] == s1[off..off + i];
        assert s2[..n][..i] == s2[..i];
        assert s1[off..off + n][i] != s2[..n][i];
        return if SignedChar(s1[off + i]) < SignedChar(s2[i]) then -1 else 1;
      }
      i := i + 1;
    }
    return 0;
  }

  method Memcpy(dst: array<byte>, off: nat, src: seq<byte>, n: nat)
    requires off + n <= dst.Length && n <= |src|
    modifies dst
    ensures dst[..] == Store(old(dst[..]), off, src[..n])
  {
    var i := 0;
    while i < n
      invariant i <= n
      invariant dst[..] == Store(old(dst[..]), off, src[..i])
    {
      dst[off + i] := src[i];
      i := i + 1;
    }
  }

  /** Whether `src` starts with the first `n` characters of `ref` (with all of `ref` when it is shorter). */
  method Strneq(src: CString, ref: CString, n: nat) returns (r: bool)
    ensures r <==> ref[..Min(n, |ref|)] <= src
  {
    var i := 0;
    while At(src, i) != '\0' && At(ref, i) != '\0' && i < n
      invariant i <= n && i <= |src| && i <= |ref|
      invariant src[..i] == ref[..i]
      decreases n - i
    {
      if At(src, i) != At(ref, i) {
        assert ref[..Min(n, |ref|)][i] != src[i];
        return false;
      }
      i := i + 1;
    }
    if i < n && i < |ref| {
      assert |ref[..Min(n, |ref|)]| > |src|;
    }
    return i == n || At(ref, i) == '\0';
  }

  method Streq(src: CString, ref: CString) returns (r: bool)
    ensures r <==> src == ref
  {
    var i := 0;
    while At(src, i) != '\0' && At(ref, i) != '\0'
      invariant i <= |src| && i <= |ref|
      invariant src[..i] == ref[..i]
      decreases |src| - i
    {
      if At(src, i) != At(ref, i) {
        return false;
      }
      i := i + 1;
    }
    assert src[..i] == ref[..i];
    if i == |src| && i == |ref| {
      assert src == src[..i] && ref == ref[..i];
    }
    return At(ref, i) == At(src, i);
  }

  /** NULL is None. The terminator itself is never found. */
  method Strchr(buf: CString, c: char) returns (r: Option<nat>)
    ensures r == IndexOf(buf, c)
  {
    var i := 0;
    while At(buf, i) != '\0'
      invariant i <= |buf|
      invariant c !in buf[..i]
      decreases |buf| - i
    {
      if At(buf, i) == c {
        IndexOfUnique(buf, c, i);
        return Some(i);
      }
      i := i + 1;
    }
    assert buf[..i] == buf;
    return None;
  }

  method Strlen(s: CString) returns (len: nat)
    ensures len == |s|
  {
    len := 0;
    while At(s, len) != '\0'
      invariant len <= |s|
      decreases |s| - len
    {
      len := len + 1;
    }
  }

  /** Copies at most `n` characters and always writes the terminator, so `dst` must have room for it. */
  method Strncpy(dst: array<char>, src: CString, n: nat)
    requires Min(n, |src|) < dst.Length
    modifies dst
    ensures dst[..Min(n, |src|)] == src[..Min(n, |src|)]
    ensures dst[Min(n, |src|)] == '\0'
    ensures forall k | Min(n, |src|) < k < dst.Length :: dst[k] == old(dst[k])
  {
    var i := 0;
    while At(src, i) != '\0' && i < n
      invariant i <= Min(n, |src|)
      invariant dst[..i] == src[..i]
      invariant forall k | i <= k < dst.Length :: dst[k] == old(dst[k])
      decreases n - i
    {
      dst[i] := At(src, i);
      i := i + 1;
    }
    dst[i] := '\0';
  }

  method Strcpy(dst: array<char>, src: CString)
    requires |src| < dst.Length
    modifies dst
    ensures dst[..|src|] == src && dst[|src|] == '\0'
    ensures forall k | |src| < k < dst.Length :: dst[k] == old(dst[k])
  {
    var i := 0;
    while At(src, i) != '\0'
      invariant i <= |src|
      invariant dst[..i] == src[..i]
      invariant forall k | i <= k < dst.Length :: dst[k] == old(dst[k])
      decreases |src| - i
    {
      dst[i] := At(src, i);
      i := i + 1;
    }
    dst[i] := '\0';
  }
}
