/** The C runtime routines the freestanding kernel provides for the compiler: memcmp, memcpy, memset. */
module Shims {
  import opened Words

  /** What memcmp computes over two byte sequences of one length: the difference of the first pair of
      bytes that differ, or 0 when there is none. */
  function Compare(a: seq<byte>, b: seq<byte>): int
    requires |a| == |b|
  {
    if |a| == 0 then 0
    else if a[0] != b[0] then a[0] as int - b[0] as int
    else Compare(a[1..], b[1..])
  }

  /** Unsigned lexicographic order, stated independently of Compare: a smaller byte at the first
      position where the sequences differ. */
  ghost predicate LexLess(a: seq<byte>, b: seq<byte>)
    requires |a| == |b|
  {
    exists i :: 0 <= i < |a| && a[..i] == b[..i] && a[i] < b[i]
  }

  /** Compare is 0 exactly on equal sequences. */
  lemma {:induction false} CompareZeroIffEqual(a: seq<byte>, b: seq<byte>)
    requires |a| == |b|
    ensures Compare(a, b) == 0 <==> a == b
  {
    if |a| > 0 && a[0] == b[0] {
      CompareZeroIffEqual(a[1..], b[1..]);
      assert a == [a[0]] + a[1..] && b == [b[0]] + b[1..];
    }
  }

  /** On unequal sequences Compare is the difference at the first mismatch. */
  lemma {:induction false} CompareFirstMismatch(a: seq<byte>, b: seq<byte>, i: nat)
    requires |a| == |b| && i < |a|
    requires a[..i] == b[..i] && a[i] != b[i]
    ensures Compare(a, b) == a[i] as int - b[i] as int
  {
    if i > 0 {
      assert a[0] == a[..i][0] == b[..i][0] == b[0];
      assert a[1..][..i - 1] == a[1..i] == b[1..i] == b[1..][..i - 1];
      CompareFirstMismatch(a[1..], b[1..], i - 1);
    }
  }

  /** The sign of Compare orders the sequences as unsigned bytes. */
  lemma CompareNegativeIffLexLess(a: seq<byte>, b: seq<byte>)
    requires |a| == |b|
    ensures Compare(a, b) < 0 <==> LexLess(a, b)
  {
    if LexLess(a, b) {
      var i :| 0 <= i < |a| && a[..i] == b[..i] && a[i] < b[i];
      CompareFirstMismatch(a, b, i);
    } else if Compare(a, b) < 0 {
      CompareZeroIffEqual(a, b);
      var i := FirstMismatch(a, b);
      CompareFirstMismatch(a, b, i);
      assert LexLess(a, b);
    }
  }

  /** The first position where two unequal sequences of one length differ. */
  lemma FirstMismatch(a: seq<byte>, b: seq<byte>) returns (i: nat)
    requires |a| == |b| && a != b
    ensures i < |a| && a[..i] == b[..i] && a[i] != b[i]
  {
    assert a[..|a|] == a && b[..|b|] == b;
    i := 0;
    while i < |a| && a[i] == b[i]
      invariant i <= |a| && a[..i] == b[..i]
    {
      assert a[..i + 1] == a[..i] + [a[i]];
      assert b[..i + 1] == b[..i] + [b[i]];
      i := i + 1;
    }
  }

  /** memcmp: compares the first n bytes of two buffers and returns the difference at the first
      mismatch, or 0. */
  method Memcmp(s1: array<byte>, s2: array<byte>, n: nat) returns (r: i32)
    requires n <= s1.Length && n <= s2.Length
    ensures r == 0 <==> s1[..n] == s2[..n]
    ensures r != 0 ==> exists i :: 0 <= i < n && s1[..i] == s2[..i] && r as int == s1[i] as int - s2[i] as int
    ensures r as int == Compare(s1[..n], s2[..n])
  {
    var i := 0;
    while i < n
      invariant i <= n
      invariant s1[..i] == s2[..i]
    {
      var a := s1[i];
      var b := s2[i];
      if a != b {
        assert s1[..n][..i] == s1[..i] && s2[..n][..i] == s2[..i];
        CompareFirstMismatch(s1[..n], s2[..n], i);
        return (a as int - b as int) as i32;
      }
      assert s1[..i + 1] == s1[..i] + [a] && s2[..i + 1] == s2[..i] + [b];
      i := i + 1;
    }
    assert s1[..n] == s2[..n];
    CompareZeroIffEqual(s1[..n], s2[..n]);
    r := 0;
  }

  /** memcpy: copies n bytes from s to d and returns d. The two buffers may be the same array. */
  method Memcpy(d: array<byte>, s: array<byte>, n: nat) returns (r: array<byte>)
    requires n <= d.Length && n <= s.Length
    modifies d
    ensures r == d
    ensures forall i :: 0 <= i < n ==> d[i] == old(s[i])
    ensures forall i :: n <= i < d.Length ==> d[i] == old(d[i])
  {
    var i := 0;
    while i < n
      invariant i <= n
      invariant forall k :: 0 <= k < i ==> d[k] == old(s[k])
      invariant forall k :: i <= k < d.Length ==> d[k] == old(d[k])
      invariant forall k :: i <= k < s.Length ==> s[k] == old(s[k])
    {
      d[i] := s[i];
      i := i + 1;
    }
    r := d;
  }

  /** The byte `c as u8` keeps of an i32: its low eight bits. */
  function LowByte(c: i32): (b: byte)
    ensures b as int % 0x100 == c as int % 0x100
  {
    (c as int % 0x100) as byte
  }

  /** The unsigned value of an i32's 32-bit two's-complement bit pattern. */
  function Pattern(c: i32): (u: int)
    ensures 0 <= u < 0x1_0000_0000
    ensures 0 <= c ==> u == c as int
  {
    if c < 0 then c as int + 0x1_0000_0000 else c as int
  }

  /** `c as u8` keeps the least significant of the four bytes that store c in two's complement. */
  lemma LowByteIsLowestByte(c: i32)
    ensures LowByte(c) == Bytes32(Pattern(c))[0]
  {
  }

  /** memset: writes the low byte of c into the first n bytes of s and returns s. */
  method Memset(s: array<byte>, c: i32, n: nat) returns (r: array<byte>)
    requires n <= s.Length
    modifies s
    ensures r == s
    ensures forall i :: 0 <= i < n ==> s[i] == LowByte(c)
    ensures forall i :: n <= i < s.Length ==> s[i] == old(s[i])
  {
    var i := 0;
    while i < n
      invariant i <= n
      invariant forall k :: 0 <= k < i ==> s[k] == LowByte(c)
      invariant forall k :: i <= k < s.Length ==> s[k] == old(s[k])
    {
      s[i] := LowByte(c);
      i := i + 1;
    }
    r := s;
  }
}
