/** The kernel's entry-point helpers: the time-stamp counter read and the 64-bit linear congruential
    generator whose state is the global SEED. */
module KernelMain {
  import opened Words

  /** The multiplier and increment of Knuth's MMIX generator. */
  const LCG_MUL: int := 6364136223846793005
  const LCG_INC: int := 1442695040888963407
  /** The inverse of LCG_MUL modulo 2^64 (LCG_MUL * LCG_MUL_INV == 1 + 0x5a4a7b9e1c9e1ea3 * 2^64). */
  const LCG_MUL_INV: int := 13877824140714322085

  /** The value SEED holds before seed_rng runs. */
  const SEED_INIT: u64 := 12345

  /** rdtsc's result: the EDX half shifted into the upper 32 bits, OR-ed with RAX. The instruction
      clears the upper halves of both registers, and then the two halves are recovered from the result. */
  function Rdtsc(rax: bv64, rdx: bv64): (r: bv64)
    ensures rax < 0x1_0000_0000 && rdx < 0x1_0000_0000 ==> r >> 32 == rdx && r & 0xFFFF_FFFF == rax
  {
    (rdx << 32) | rax
  }

  lemma ModShift(x: int, y: int)
    ensures (x + y * TWO_64) % TWO_64 == x % TWO_64
  {
  }

  /** One step of next_rand: wrapping multiplication followed by wrapping addition. */
  function Lcg(s: u64): (r: u64)
    ensures r as int == (s as int * LCG_MUL + LCG_INC) % TWO_64
  {
    var t := s as int * LCG_MUL;
    ModShift(t % TWO_64 + LCG_INC, t / TWO_64);
    ((t % TWO_64 + LCG_INC) % TWO_64) as u64
  }

  /** The step backwards: subtract the increment, multiply by the inverse multiplier. */
  function Unstep(r: u64): u64
  {
    (((r as int - LCG_INC) * LCG_MUL_INV) % TWO_64) as u64
  }

  /** The generator step is a bijection on 64-bit states: Unstep undoes it. */
  lemma UnstepLcg(s: u64)
    ensures Unstep(Lcg(s)) == s
  {
    var t := s as int * LCG_MUL;
    var q := (t + LCG_INC) / TWO_64;
    var r := (t + LCG_INC) % TWO_64;
    assert Lcg(s) as int == r;
    assert (r - LCG_INC) * LCG_MUL_INV == s as int * (LCG_MUL * LCG_MUL_INV) + (-(q * LCG_MUL_INV)) * TWO_64;
    ModShift(s as int * (LCG_MUL * LCG_MUL_INV), -(q * LCG_MUL_INV));
    var k := (LCG_MUL * LCG_MUL_INV - 1) / TWO_64;
    assert LCG_MUL * LCG_MUL_INV == 1 + k * TWO_64;
    assert s as int * (LCG_MUL * LCG_MUL_INV) == s as int + (s as int * k) * TWO_64;
    ModShift(s as int, s as int * k);
  }

  /** Lcg and Unstep are mutually inverse in the other order too. */
  lemma LcgUnstep(r: u64)
    ensures Lcg(Unstep(r)) == r
  {
    var u := Unstep(r);
    var x := (r as int - LCG_INC) * LCG_MUL_INV;
    var q := x / TWO_64;
    assert u as int == x - q * TWO_64;
    var k := (LCG_MUL * LCG_MUL_INV - 1) / TWO_64;
    assert LCG_MUL * LCG_MUL_INV == 1 + k * TWO_64;
    assert u as int * LCG_MUL + LCG_INC
        == r as int + ((r as int - LCG_INC) * k - q * LCG_MUL) * TWO_64;
    ModShift(r as int, (r as int - LCG_INC) * k - q * LCG_MUL);
  }

  /** The state after k steps from s. */
  function LcgIter(s: u64, k: nat): u64
    decreases k
  {
    if k == 0 then s else LcgIter(Lcg(s), k - 1)
  }

  /** Taking k + 1 steps is taking k steps and then one more. */
  lemma {:induction false} LcgIterLast(s: u64, k: nat)
    ensures LcgIter(s, k + 1) == Lcg(LcgIter(s, k))
    decreases k
  {
    if k > 0 {
      LcgIterLast(Lcg(s), k - 1);
    }
  }

  /** The global SEED together with the routines that read and write it. */
  class Rng {
    var seed: u64

    /** The static initialiser: SEED starts at 12345. */
    constructor ()
      ensures seed == SEED_INIT
    {
      seed := SEED_INIT;
    }

    /** seed_rng: SEED takes the time-stamp counter, given here by the two halves rdtsc reads. */
    method SeedRng(rax: bv64, rdx: bv64)
      modifies this
      ensures seed as bv64 == Rdtsc(rax, rdx)
    {
      seed := Rdtsc(rax, rdx) as u64;
    }

    /** next_rand: advances SEED by one generator step and returns the new SEED. */
    method NextRand() returns (r: u64)
      modifies this
      ensures seed == Lcg(old(seed)) && r == seed
    {
      seed := Lcg(seed);
      r := seed;
    }
  }

  /** Steps compose: j calls of next_rand followed by k more leave the seed where j + k calls from the
      start leave it, so the k-th output after any point depends only on the seed at that point. */
  lemma {:induction false} LcgIterAdd(s: u64, j: nat, k: nat)
    ensures LcgIter(LcgIter(s, j), k) == LcgIter(s, j + k)
    decreases j
  {
    if j > 0 {
      LcgIterAdd(Lcg(s), j - 1, k);
    }
  }
}
