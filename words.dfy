/** Machine words of the x86-64 target and the small wrappers the other modules share. */
module Words {

  newtype byte = x: int | 0 <= x < 0x100
  newtype u16 = x: int | 0 <= x < 0x1_0000
  newtype u32 = x: int | 0 <= x < 0x1_0000_0000
  newtype u64 = x: int | 0 <= x < 0x1_0000_0000_0000_0000
  newtype i32 = x: int | -0x8000_0000 <= x < 0x8000_0000

  const TWO_64: int := 0x1_0000_0000_0000_0000

  datatype Option<T> = None | Some(value: T)

  /** Little-endian 16-bit value stored at s[i], s[i+1]. */
  function Le16(s: seq<byte>, i: nat): (v: int)
    requires i + 2 <= |s|
    ensures 0 <= v < 0x1_0000
  {
    s[i] as int + 0x100 * s[i + 1] as int
  }

  /** Little-endian 32-bit value stored at s[i] .. s[i+3]. */
  function Le32(s: seq<byte>, i: nat): (v: int)
    requires i + 4 <= |s|
    ensures 0 <= v < 0x1_0000_0000
  {
    Le16(s, i) + 0x1_0000 * Le16(s, i + 2)
  }

  /** The two bytes of a 16-bit value, low byte first. */
  function Bytes16(v: int): (r: seq<byte>)
    requires 0 <= v < 0x1_0000
    ensures |r| == 2 && Le16(r, 0) == v
  {
    [(v % 0x100) as byte, (v / 0x100) as byte]
  }

  /** The four bytes of a 32-bit value, low byte first. */
  function Bytes32(v: int): (r: seq<byte>)
    requires 0 <= v < 0x1_0000_0000
    ensures |r| == 4 && Le32(r, 0) == v
  {
    var lo := Bytes16(v % 0x1_0000);
    var hi := Bytes16(v / 0x1_0000);
    assert Le16(lo + hi, 0) == Le16(lo, 0);
    assert Le16(lo + hi, 2) == Le16(hi, 0);
    lo + hi
  }

  /** Splitting a stored 16-bit value gives back its two bytes. */
  lemma Bytes16Le16(s: seq<byte>, i: nat)
    requires i + 2 <= |s|
    ensures Bytes16(Le16(s, i)) == s[i..i + 2]
  {
  }

  /** Splitting a stored 32-bit value gives back its four bytes. */
  lemma Bytes32Le32(s: seq<byte>, i: nat)
    requires i + 4 <= |s|
    ensures Bytes32(Le32(s, i)) == s[i..i + 4]
  {
    Bytes16Le16(s, i);
    Bytes16Le16(s, i + 2);
    assert Le32(s, i) % 0x1_0000 == Le16(s, i);
    assert Le32(s, i) / 0x1_0000 == Le16(s, i + 2);
    assert s[i..i + 4] == s[i..i + 2] + s[i + 2..i + 4];
  }

  /** Two sequences storing the same 16-bit value at i hold the same two bytes there. */
  lemma Le16Determines(r: seq<byte>, s: seq<byte>, i: nat)
    requires i + 2 <= |r| && i + 2 <= |s| && Le16(r, i) == Le16(s, i)
    ensures r[i] == s[i] && r[i + 1] == s[i + 1]
  {
    Bytes16Le16(r, i);
    Bytes16Le16(s, i);
    assert r[i..i + 2] == s[i..i + 2];
    assert r[i] == r[i..i + 2][0] && s[i] == s[i..i + 2][0];
    assert r[i + 1] == r[i..i + 2][1] && s[i + 1] == s[i..i + 2][1];
  }

  /** Two sequences storing the same 32-bit value at i hold the same four bytes there. */
  lemma Le32Determines(r: seq<byte>, s: seq<byte>, i: nat)
    requires i + 4 <= |r| && i + 4 <= |s| && Le32(r, i) == Le32(s, i)
    ensures r[i] == s[i] && r[i + 1] == s[i + 1] && r[i + 2] == s[i + 2] && r[i + 3] == s[i + 3]
  {
    assert Le16(r, i) == Le32(r, i) % 0x1_0000 == Le16(s, i);
    assert Le16(r, i + 2) == Le32(r, i) / 0x1_0000 == Le16(s, i + 2);
    Le16Determines(r, s, i);
    Le16Determines(r, s, i + 2);
  }
}
