/** Where the constants of SHA-256 come from: roots of the first primes (sections 4.2.2 and 5.3.3 of FIPS 180-4). */
module Fips180Constants {
  import F = Fips180

  const TWO32 := 0x1_0000_0000

  /** `bits` are the first 32 bits behind the point of the cube root of p, whose whole part is a. */
  predicate CubeRootBits(p: nat, a: nat, bits: nat) {
    var x := a * TWO32 + bits;
    && a * a * a <= p < (a + 1) * (a + 1) * (a + 1) && bits < TWO32
    && x * x * x <= p * TWO32 * TWO32 * TWO32 < (x + 1) * (x + 1) * (x + 1)
  }

  predicate SquareRootBits(p: nat, a: nat, bits: nat) {
    var x := a * TWO32 + bits;
    a * a <= p < (a + 1) * (a + 1) && bits < TWO32 && x * x <= p * TWO32 * TWO32 < (x + 1) * (x + 1)
  }

  /** The initial hash value, from the primes up to 19. */
  lemma SquareRoots()
    ensures SquareRootBits(2, 1, F.H0.a) && SquareRootBits(3, 1, F.H0.b) && SquareRootBits(5, 2, F.H0.c)
    ensures SquareRootBits(7, 2, F.H0.d) && SquareRootBits(11, 3, F.H0.e) && SquareRootBits(13, 3, F.H0.f)
    ensures SquareRootBits(17, 4, F.H0.g) && SquareRootBits(19, 4, F.H0.h)
  {
  }

  // The round constants, from the primes up to 311.

  lemma CubeRoots0To7()
    ensures CubeRootBits(2, 1, F.K0[0]) && CubeRootBits(3, 1, F.K0[1])
    ensures CubeRootBits(5, 1, F.K0[2]) && CubeRootBits(7, 1, F.K0[3])
    ensures CubeRootBits(11, 2, F.K0[4]) && CubeRootBits(13, 2, F.K0[5])
    ensures CubeRootBits(17, 2, F.K0[6]) && CubeRootBits(19, 2, F.K0[7])
  {
  }

  lemma CubeRoots8To15()
    ensures CubeRootBits(23, 2, F.K0[8]) && CubeRootBits(29, 3, F.K0[9])
    ensures CubeRootBits(31, 3, F.K0[10]) && CubeRootBits(37, 3, F.K0[11])
    ensures CubeRootBits(41, 3, F.K0[12]) && CubeRootBits(43, 3, F.K0[13])
    ensures CubeRootBits(47, 3, F.K0[14]) && CubeRootBits(53, 3, F.K0[15])
  {
  }

  lemma CubeRoots16To23()
    ensures CubeRootBits(59, 3, F.K1[0]) && CubeRootBits(61, 3, F.K1[1])
    ensures CubeRootBits(67, 4, F.K1[2]) && CubeRootBits(71, 4, F.K1[3])
    ensures CubeRootBits(73, 4, F.K1[4]) && CubeRootBits(79, 4, F.K1[5])
    ensures CubeRootBits(83, 4, F.K1[6]) && CubeRootBits(89, 4, F.K1[7])
  {
  }

  lemma CubeRoots24To31()
    ensures CubeRootBits(97, 4, F.K1[8]) && CubeRootBits(101, 4, F.K1[9])
    ensures CubeRootBits(103, 4, F.K1[10]) && CubeRootBits(107, 4, F.K1[11])
    ensures CubeRootBits(109, 4, F.K1[12]) && CubeRootBits(113, 4, F.K1[13])
    ensures CubeRootBits(127, 5, F.K1[14]) && CubeRootBits(131, 5, F.K1[15])
  {
  }

  lemma CubeRoots32To39()
    ensures CubeRootBits(137, 5, F.K2[0]) && CubeRootBits(139, 5, F.K2[1])
    ensures CubeRootBits(149, 5, F.K2[2]) && CubeRootBits(151, 5, F.K2[3])
    ensures CubeRootBits(157, 5, F.K2[4]) && CubeRootBits(163, 5, F.K2[5])
    ensures CubeRootBits(167, 5, F.K2[6]) && CubeRootBits(173, 5, F.K2[7])
  {
  }

  lemma CubeRoots40To47()
    ensures CubeRootBits(179, 5, F.K2[8]) && CubeRootBits(181, 5, F.K2[9])
    ensures CubeRootBits(191, 5, F.K2[10]) && CubeRootBits(193, 5, F.K2[11])
    ensures CubeRootBits(197, 5, F.K2[12]) && CubeRootBits(199, 5, F.K2[13])
    ensures CubeRootBits(211, 5, F.K2[14]) && CubeRootBits(223, 6, F.K2[15])
  {
  }

  lemma CubeRoots48To55()
    ensures CubeRootBits(227, 6, F.K3[0]) && CubeRootBits(229, 6, F.K3[1])
    ensures CubeRootBits(233, 6, F.K3[2]) && CubeRootBits(239, 6, F.K3[3])
    ensures CubeRootBits(241, 6, F.K3[4]) && CubeRootBits(251, 6, F.K3[5])
    ensures CubeRootBits(257, 6, F.K3[6]) && CubeRootBits(263, 6, F.K3[7])
  {
  }

  lemma CubeRoots56To63()
    ensures CubeRootBits(269, 6, F.K3[8]) && CubeRootBits(271, 6, F.K3[9])
    ensures CubeRootBits(277, 6, F.K3[10]) && CubeRootBits(281, 6, F.K3[11])
    ensures CubeRootBits(283, 6, F.K3[12]) && CubeRootBits(293, 6, F.K3[13])
    ensures CubeRootBits(307, 6, F.K3[14]) && CubeRootBits(311, 6, F.K3[15])
  {
  }
}
