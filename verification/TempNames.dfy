/**
 The suffixes of temporary files (crates/mjolnir-image/src/store.rs): a process id and
 a counter mixed into one number.
 */
module TempNames {
  import opened Arith

  type Pid = u32
  type Count = u64

  const HALF: int := 0x1_0000_0000

  /** Exclusive or of the lowest `bits` bits. */
  function Xor(a: nat, b: nat, bits: nat): nat {
    if bits == 0 then 0 else 2 * Xor(a / 2, b / 2, bits - 1) + (a % 2 + b % 2) % 2
  }

  /**
   The process id shifted to the high half, xored with the process's counter. The
   shifted id has an empty low half, so the two halves are mixed separately.
   */
  function UniqueSuffix(pid: Pid, count: Count): nat {
    Xor(pid, count / HALF, 32) * HALF + count % HALF
  }

  function Pow2(n: nat): nat {
    if n == 0 then 1 else 2 * Pow2(n - 1)
  }

  lemma {:induction false} XorWithZero(a: nat, bits: nat)
    requires a < Pow2(bits)
    ensures Xor(a, 0, bits) == a
  {
    if bits > 0 {
      XorWithZero(a / 2, bits - 1);
    }
  }

  lemma Pow2Of32()
    ensures Pow2(32) == HALF
  {
    assert Pow2(8) == 0x100;
    assert Pow2(16) == 0x1_0000;
    assert Pow2(24) == 0x100_0000;
  }

  lemma HalvesOf(half: nat, q: nat, r: nat)
    ensures (2 * half * q + r) / 2 == half * q + r / 2
    ensures (2 * half * q + r) % 2 == r % 2
  {
    DivModUnique(2 * half * q + r, 2, half * q + r / 2, r % 2);
  }

  lemma XorWithEmptyBit(a: nat, b: nat, bits: nat)
    ensures Xor(2 * a, b, bits + 1) == 2 * Xor(a, b / 2, bits) + b % 2
  {
    DivModUnique(2 * a, 2, a, 0);
  }

  lemma TwiceOver(x: nat, half: nat)
    ensures x * half >= 0 && x * (2 * half) == 2 * (x * half) >= 0 && half * x == x * half
    ensures 2 * half * x == x * (2 * half)
  {
  }

  /** With the lowest `k` bits of one side empty, the two halves are mixed separately. */
  lemma {:induction false} XorByHalves(a: nat, q: nat, r: nat, k: nat, bits: nat)
    requires r < Pow2(k)
    ensures Pow2(k) * a >= 0 && Pow2(k) * q + r >= 0
    ensures Xor(Pow2(k) * a, Pow2(k) * q + r, k + bits) == Pow2(k) * Xor(a, q, bits) + r
  {
    if k > 0 {
      var half := Pow2(k - 1);
      XorByHalves(a, q, r / 2, k - 1, bits);
      TwiceOver(a, half);
      TwiceOver(q, half);
      TwiceOver(Xor(a, q, bits), half);
      HalvesOf(half, q, r);
      XorWithEmptyBit(half * a, 2 * half * q + r, k - 1 + bits);
    }
  }

  /** The two halves together are the exclusive or of the shifted process id and the counter. */
  lemma SuffixIsXor(pid: Pid, count: Count)
    ensures UniqueSuffix(pid, count) == Xor(pid * HALF, count, 64)
  {
    Pow2Of32();
    XorByHalves(pid, count / HALF, count % HALF, 32, 32);
  }

  lemma EarlySuffix(pid: Pid, count: Count)
    requires count < HALF
    ensures UniqueSuffix(pid, count) == pid * HALF + count
  {
    Pow2Of32();
    XorWithZero(pid, 32);
  }

  /** While counters stay below 2^32, a suffix tells the process and the call. */
  lemma SuffixesDiffer(p: Pid, c: Count, q: Pid, d: Count)
    requires c < HALF && d < HALF && UniqueSuffix(p, c) == UniqueSuffix(q, d)
    ensures p == q && c == d
  {
    EarlySuffix(p, c);
    EarlySuffix(q, d);
    DivModUnique(p * HALF + c, HALF, p, c);
    DivModUnique(q * HALF + d, HALF, q, d);
  }

  /** Past that, the counter of one process runs into the id of another. */
  lemma LongRunningProcessesClash()
    ensures UniqueSuffix(6, HALF) == UniqueSuffix(7, 0)
  {
    Pow2Of32();
    XorWithZero(7, 32);
    assert Xor(3, 0, 31) == 3 by {
      XorWithZero(3, 31);
    }
  }

  /** Among calls whose counters stay below `n`, no two of any processes choose the same suffix. */
  ghost predicate SuffixesUniqueBelow(n: int) {
    forall p: Pid, q: Pid, c: Count, d: Count :: c < n && d < n && UniqueSuffix(p, c) == UniqueSuffix(q, d) ==>
      p == q && c == d
  }

  /** The source says suffixes never coincide; that holds for the first 2^32 calls of each process and no more. */
  lemma SuffixesUniqueIff(n: nat)
    requires n <= U64_MAX + 1
    ensures SuffixesUniqueBelow(n) <==> n <= HALF
  {
    if n <= HALF {
      forall p: Pid, q: Pid, c: Count, d: Count | c < n && d < n && UniqueSuffix(p, c) == UniqueSuffix(q, d)
        ensures p == q && c == d
      {
        SuffixesDiffer(p, c, q, d);
      }
    } else {
      LongRunningProcessesClash();
      var p: Pid, q: Pid, c: Count, d: Count := 6, 7, HALF, 0;
      assert UniqueSuffix(p, c) == UniqueSuffix(q, d);
    }
  }

  /** The counter of a process is an atomic 64 bit number that wraps. */
  function NextCount(count: Count): Count {
    if count == U64_MAX then 0 else count + 1
  }
}
