/** What FIPS 180-4 says of its constants and functions beyond their definition, and its example digest of "abc". */
module FipsFacts {
  import opened Fips180

  // ---- sections 4.2.2 and 5.3.3: where the constants come from ----

  const TWO_32 := 0x1_0000_0000

  /** `n` is the first 32 fractional bits of the cube root of `p`, whose integer part is `whole`. */
  predicate CubeRoot(n: nat, p: nat, whole: nat) {
    var k := whole * TWO_32 + n;
    whole * whole * whole <= p < (whole + 1) * (whole + 1) * (whole + 1)
    && k * k * k <= p * TWO_32 * TWO_32 * TWO_32 < (k + 1) * (k + 1) * (k + 1)
  }

  predicate SquareRoot(n: nat, p: nat, whole: nat) {
    var k := whole * TWO_32 + n;
    whole * whole <= p < (whole + 1) * (whole + 1) && k * k <= p * TWO_32 * TWO_32 < (k + 1) * (k + 1)
  }

  /** The round constants are the cube roots of the first 64 primes, in this order. */
  lemma CubeRoots0()
    ensures CubeRoot(Constant(0) as nat, 2, 1) && CubeRoot(Constant(1) as nat, 3, 1)
    ensures CubeRoot(Constant(2) as nat, 5, 1) && CubeRoot(Constant(3) as nat, 7, 1)
  {
  }

  /** The primes from 11 to 19. */
  lemma CubeRoots1()
    ensures CubeRoot(Constant(4) as nat, 11, 2) && CubeRoot(Constant(5) as nat, 13, 2)
    ensures CubeRoot(Constant(6) as nat, 17, 2) && CubeRoot(Constant(7) as nat, 19, 2)
  {
  }

  /** The primes from 23 to 37. */
  lemma CubeRoots2()
    ensures CubeRoot(Constant(8) as nat, 23, 2) && CubeRoot(Constant(9) as nat, 29, 3)
    ensures CubeRoot(Constant(10) as nat, 31, 3) && CubeRoot(Constant(11) as nat, 37, 3)
  {
  }

  /** The primes from 41 to 53. */
  lemma CubeRoots3()
    ensures CubeRoot(Constant(12) as nat, 41, 3) && CubeRoot(Constant(13) as nat, 43, 3)
    ensures CubeRoot(Constant(14) as nat, 47, 3) && CubeRoot(Constant(15) as nat, 53, 3)
  {
  }

  /** The primes from 59 to 71. */
  lemma CubeRoots4()
    ensures CubeRoot(Constant(16) as nat, 59, 3) && CubeRoot(Constant(17) as nat, 61, 3)
    ensures CubeRoot(Constant(18) as nat, 67, 4) && CubeRoot(Constant(19) as nat, 71, 4)
  {
  }

  /** The primes from 73 to 89. */
  lemma CubeRoots5()
    ensures CubeRoot(Constant(20) as nat, 73, 4) && CubeRoot(Constant(21) as nat, 79, 4)
    ensures CubeRoot(Constant(22) as nat, 83, 4) && CubeRoot(Constant(23) as nat, 89, 4)
  {
  }

  /** The primes from 97 to 107. */
  lemma CubeRoots6()
    ensures CubeRoot(Constant(24) as nat, 97, 4) && CubeRoot(Constant(25) as nat, 101, 4)
    ensures CubeRoot(Constant(26) as nat, 103, 4) && CubeRoot(Constant(27) as nat, 107, 4)
  {
  }

  /** The primes from 109 to 131. */
  lemma CubeRoots7()
    ensures CubeRoot(Constant(28) as nat, 109, 4) && CubeRoot(Constant(29) as nat, 113, 4)
    ensures CubeRoot(Constant(30) as nat, 127, 5) && CubeRoot(Constant(31) as nat, 131, 5)
  {
  }

  /** The primes from 137 to 151. */
  lemma CubeRoots8()
    ensures CubeRoot(Constant(32) as nat, 137, 5) && CubeRoot(Constant(33) as nat, 139, 5)
    ensures CubeRoot(Constant(34) as nat, 149, 5) && CubeRoot(Constant(35) as nat, 151, 5)
  {
  }

  /** The primes from 157 to 173. */
  lemma CubeRoots9()
    ensures CubeRoot(Constant(36) as nat, 157, 5) && CubeRoot(Constant(37) as nat, 163, 5)
    ensures CubeRoot(Constant(38) as nat, 167, 5) && CubeRoot(Constant(39) as nat, 173, 5)
  {
  }

  /** The primes from 179 to 193. */
  lemma CubeRoots10()
    ensures CubeRoot(Constant(40) as nat, 179, 5) && CubeRoot(Constant(41) as nat, 181, 5)
    ensures CubeRoot(Constant(42) as nat, 191, 5) && CubeRoot(Constant(43) as nat, 193, 5)
  {
  }

  /** The primes from 197 to 223. */
  lemma CubeRoots11()
    ensures CubeRoot(Constant(44) as nat, 197, 5) && CubeRoot(Constant(45) as nat, 199, 5)
    ensures CubeRoot(Constant(46) as nat, 211, 5) && CubeRoot(Constant(47) as nat, 223, 6)
  {
  }

  /** The primes from 227 to 239. */
  lemma CubeRoots12()
    ensures CubeRoot(Constant(48) as nat, 227, 6) && CubeRoot(Constant(49) as nat, 229, 6)
    ensures CubeRoot(Constant(50) as nat, 233, 6) && CubeRoot(Constant(51) as nat, 239, 6)
  {
  }

  /** The primes from 241 to 263. */
  lemma CubeRoots13()
    ensures CubeRoot(Constant(52) as nat, 241, 6) && CubeRoot(Constant(53) as nat, 251, 6)
    ensures CubeRoot(Constant(54) as nat, 257, 6) && CubeRoot(Constant(55) as nat, 263, 6)
  {
  }

  /** The primes from 269 to 281. */
  lemma CubeRoots14()
    ensures CubeRoot(Constant(56) as nat, 269, 6) && CubeRoot(Constant(57) as nat, 271, 6)
    ensures CubeRoot(Constant(58) as nat, 277, 6) && CubeRoot(Constant(59) as nat, 281, 6)
  {
  }

  /** The primes from 283 to 311. */
  lemma CubeRoots15()
    ensures CubeRoot(Constant(60) as nat, 283, 6) && CubeRoot(Constant(61) as nat, 293, 6)
    ensures CubeRoot(Constant(62) as nat, 307, 6) && CubeRoot(Constant(63) as nat, 311, 6)
  {
  }

  /** The initial hash value is the square roots of the first eight primes. */
  lemma SquareRoots()
    ensures SquareRoot(H0[0] as nat, 2, 1) && SquareRoot(H0[1] as nat, 3, 1)
    ensures SquareRoot(H0[2] as nat, 5, 2) && SquareRoot(H0[3] as nat, 7, 2)
    ensures SquareRoot(H0[4] as nat, 11, 3) && SquareRoot(H0[5] as nat, 13, 3)
    ensures SquareRoot(H0[6] as nat, 17, 4) && SquareRoot(H0[7] as nat, 19, 4)
  {
  }

  // ---- section 4.1.2: what the functions do ----

  /** Bit by bit, Ch chooses y where x is set and z elsewhere. */
  lemma ChChooses(x: bv32, y: bv32, z: bv32)
    ensures Ch(x, y, z) & x == y & x && Ch(x, y, z) & !x == z & !x
  {
  }

  /** Bit by bit, Maj follows two that agree. */
  lemma MajFollows(x: bv32, z: bv32)
    ensures Maj(x, x, z) == Maj(x, z, x) == Maj(z, x, x) == x
  {
  }

  // ---- the example of one block, "abc" ----

  const ABC: seq<bv8> := [0x61, 0x62, 0x63]

  lemma FirstWord(block: seq<bv8>, t: nat, a: bv8, b: bv8, c: bv8, d: bv8)
    requires |block| == BLOCK && t < 16 && block[4 * t..4 * t + 4] == [a, b, c, d]
    ensures W(block, t) == BigEndian(a, b, c, d)
  {
    hide BigEndian;
    var part := block[4 * t..4 * t + 4];
    assert part[0] == a && part[1] == b && part[2] == c && part[3] == d;
  }

  lemma AbcBlock()
    ensures |Pad(ABC)| == BLOCK && Pad(ABC)[..4] == [0x61, 0x62, 0x63, 0x80] && Pad(ABC)[60..] == [0, 0, 0, 24]
    ensures forall i | 4 <= i < 60 :: Pad(ABC)[i] == 0
  {
    LengthOfAbc();
    hide LengthField;
    assert Pad(ABC) == [0x61, 0x62, 0x63, 0x80] + Zeros(52) + [0, 0, 0, 0, 0, 0, 0, 24];
  }

  /** The words of the padded message. */
  lemma AbcWords()
    ensures |Pad(ABC)| == BLOCK
    ensures W(Pad(ABC), 0) == 0x61626380 && W(Pad(ABC), 15) == 24
    ensures forall t | 1 <= t < 15 :: W(Pad(ABC), t) == 0
  {
    AbcBlock();
    hide Pad, W;
    var p := Pad(ABC);
    FirstWord(p, 0, 0x61, 0x62, 0x63, 0x80);
    FirstWord(p, 15, 0, 0, 0, 24);
    forall t | 1 <= t < 15 ensures W(p, t) == 0 {
      assert p[4 * t..4 * t + 4] == [0, 0, 0, 0];
      FirstWord(p, t, 0, 0, 0, 0);
    }
  }

  lemma LengthOfAbc()
    ensures LengthField(3) == [0, 0, 0, 0, 0, 0, 0, 24]
  {
    assert BytesOf(0, 7) == [0, 0, 0, 0, 0, 0, 0];
  }

  lemma Next(block: seq<bv8>, t: nat)
    requires |block| == BLOCK && t < 64
    ensures Rounds(H0, block, t + 1) == Round(Rounds(H0, block, t), Constant(t), W(block, t))
  {
  }

  lemma Word(block: seq<bv8>, t: nat, w: bv32)
    requires |block| == BLOCK && 16 <= t < 64
    requires Extend(W(block, t - 2), W(block, t - 7), W(block, t - 15), W(block, t - 16)) == w
    ensures W(block, t) == w
  {
  }

  lemma Words16(block: seq<bv8>)
    requires |block| == BLOCK
    requires W(block, 0) == 0x61626380 && W(block, 1) == 0x0 && W(block, 2) == 0x0 && W(block, 3) == 0x0
    requires W(block, 4) == 0x0 && W(block, 5) == 0x0 && W(block, 6) == 0x0 && W(block, 7) == 0x0
    requires W(block, 8) == 0x0 && W(block, 9) == 0x0 && W(block, 10) == 0x0 && W(block, 11) == 0x0
    requires W(block, 12) == 0x0 && W(block, 13) == 0x0 && W(block, 14) == 0x0 && W(block, 15) == 0x18
    ensures W(block, 16) == 0x61626380 && W(block, 17) == 0xf0000 && W(block, 18) == 0x7da86405 && W(block, 19) == 0x600003c6
    ensures W(block, 20) == 0x3e9d7b78 && W(block, 21) == 0x183fc00 && W(block, 22) == 0x12dcbfdb && W(block, 23) == 0xe2e2c38e
  {
    hide W;
    Word(block, 16, 0x61626380);
    Word(block, 17, 0xf0000);
    Word(block, 18, 0x7da86405);
    Word(block, 19, 0x600003c6);
    Word(block, 20, 0x3e9d7b78);
    Word(block, 21, 0x183fc00);
    Word(block, 22, 0x12dcbfdb);
    Word(block, 23, 0xe2e2c38e);
  }

  lemma Words24(block: seq<bv8>)
    requires |block| == BLOCK
    requires W(block, 8) == 0x0 && W(block, 9) == 0x0 && W(block, 10) == 0x0 && W(block, 11) == 0x0
    requires W(block, 12) == 0x0 && W(block, 13) == 0x0 && W(block, 14) == 0x0 && W(block, 15) == 0x18
    requires W(block, 16) == 0x61626380 && W(block, 17) == 0xf0000 && W(block, 18) == 0x7da86405 && W(block, 19) == 0x600003c6
    requires W(block, 20) == 0x3e9d7b78 && W(block, 21) == 0x183fc00 && W(block, 22) == 0x12dcbfdb && W(block, 23) == 0xe2e2c38e
    ensures W(block, 24) == 0xc8215c1a && W(block, 25) == 0xb73679a2 && W(block, 26) == 0xe5bc3909 && W(block, 27) == 0x32663c5b
    ensures W(block, 28) == 0x9d209d67 && W(block, 29) == 0xec8726cb && W(block, 30) == 0x702138a4 && W(block, 31) == 0xd3b7973b
  {
    hide W;
    Word(block, 24, 0xc8215c1a);
    Word(block, 25, 0xb73679a2);
    Word(block, 26, 0xe5bc3909);
    Word(block, 27, 0x32663c5b);
    Word(block, 28, 0x9d209d67);
    Word(block, 29, 0xec8726cb);
    Word(block, 30, 0x702138a4);
    Word(block, 31, 0xd3b7973b);
  }

  lemma Words32(block: seq<bv8>)
    requires |block| == BLOCK
    requires W(block, 16) == 0x61626380 && W(block, 17) == 0xf0000 && W(block, 18) == 0x7da86405 && W(block, 19) == 0x600003c6
    requires W(block, 20) == 0x3e9d7b78 && W(block, 21) == 0x183fc00 && W(block, 22) == 0x12dcbfdb && W(block, 23) == 0xe2e2c38e
    requires W(block, 24) == 0xc8215c1a && W(block, 25) == 0xb73679a2 && W(block, 26) == 0xe5bc3909 && W(block, 27) == 0x32663c5b
    requires W(block, 28) == 0x9d209d67 && W(block, 29) == 0xec8726cb && W(block, 30) == 0x702138a4 && W(block, 31) == 0xd3b7973b
    ensures W(block, 32) == 0x93f5997f && W(block, 33) == 0x3b68ba73 && W(block, 34) == 0xaff4ffc1 && W(block, 35) == 0xf10a5c62
    ensures W(block, 36) == 0xa8b3996 && W(block, 37) == 0x72af830a && W(block, 38) == 0x9409e33e && W(block, 39) == 0x24641522
  {
    hide W;
    Word(block, 32, 0x93f5997f);
    Word(block, 33, 0x3b68ba73);
    Word(block, 34, 0xaff4ffc1);
    Word(block, 35, 0xf10a5c62);
    Word(block, 36, 0xa8b3996);
    Word(block, 37, 0x72af830a);
    Word(block, 38, 0x9409e33e);
    Word(block, 39, 0x24641522);
  }

  lemma Words40(block: seq<bv8>)
    requires |block| == BLOCK
    requires W(block, 24) == 0xc8215c1a && W(block, 25) == 0xb73679a2 && W(block, 26) == 0xe5bc3909 && W(block, 27) == 0x32663c5b
    requires W(block, 28) == 0x9d209d67 && W(block, 29) == 0xec8726cb && W(block, 30) == 0x702138a4 && W(block, 31) == 0xd3b7973b
    requires W(block, 32) == 0x93f5997f && W(block, 33) == 0x3b68ba73 && W(block, 34) == 0xaff4ffc1 && W(block, 35) == 0xf10a5c62
    requires W(block, 36) == 0xa8b3996 && W(block, 37) == 0x72af830a && W(block, 38) == 0x9409e33e && W(block, 39) == 0x24641522
    ensures W(block, 40) == 0x9f47bf94 && W(block, 41) == 0xf0a64f5a && W(block, 42) == 0x3e246a79 && W(block, 43) == 0x27333ba3
    ensures W(block, 44) == 0xc4763f2 && W(block, 45) == 0x840abf27 && W(block, 46) == 0x7a290d5d && W(block, 47) == 0x65c43da
  {
    hide W;
    Word(block, 40, 0x9f47bf94);
    Word(block, 41, 0xf0a64f5a);
    Word(block, 42, 0x3e246a79);
    Word(block, 43, 0x27333ba3);
    Word(block, 44, 0xc4763f2);
    Word(block, 45, 0x840abf27);
    Word(block, 46, 0x7a290d5d);
    Word(block, 47, 0x65c43da);
  }

  lemma Words48(block: seq<bv8>)
    requires |block| == BLOCK
    requires W(block, 32) == 0x93f5997f && W(block, 33) == 0x3b68ba73 && W(block, 34) == 0xaff4ffc1 && W(block, 35) == 0xf10a5c62
    requires W(block, 36) == 0xa8b3996 && W(block, 37) == 0x72af830a && W(block, 38) == 0x9409e33e && W(block, 39) == 0x24641522
    requires W(block, 40) == 0x9f47bf94 && W(block, 41) == 0xf0a64f5a && W(block, 42) == 0x3e246a79 && W(block, 43) == 0x27333ba3
    requires W(block, 44) == 0xc4763f2 && W(block, 45) == 0x840abf27 && W(block, 46) == 0x7a290d5d && W(block, 47) == 0x65c43da
    ensures W(block, 48) == 0xfb3e89cb && W(block, 49) == 0xcc7617db && W(block, 50) == 0xb9e66c34 && W(block, 51) == 0xa9993667
    ensures W(block, 52) == 0x84badedd && W(block, 53) == 0xc21462bc && W(block, 54) == 0x1487472c && W(block, 55) == 0xb20f7a99
  {
    hide W;
    Word(block, 48, 0xfb3e89cb);
    Word(block, 49, 0xcc7617db);
    Word(block, 50, 0xb9e66c34);
    Word(block, 51, 0xa9993667);
    Word(block, 52, 0x84badedd);
    Word(block, 53, 0xc21462bc);
    Word(block, 54, 0x1487472c);
    Word(block, 55, 0xb20f7a99);
  }

  lemma Words56(block: seq<bv8>)
    requires |block| == BLOCK
    requires W(block, 40) == 0x9f47bf94 && W(block, 41) == 0xf0a64f5a && W(block, 42) == 0x3e246a79 && W(block, 43) == 0x27333ba3
    requires W(block, 44) == 0xc4763f2 && W(block, 45) == 0x840abf27 && W(block, 46) == 0x7a290d5d && W(block, 47) == 0x65c43da
    requires W(block, 48) == 0xfb3e89cb && W(block, 49) == 0xcc7617db && W(block, 50) == 0xb9e66c34 && W(block, 51) == 0xa9993667
    requires W(block, 52) == 0x84badedd && W(block, 53) == 0xc21462bc && W(block, 54) == 0x1487472c && W(block, 55) == 0xb20f7a99
    ensures W(block, 56) == 0xef57b9cd && W(block, 57) == 0xebe6b238 && W(block, 58) == 0x9fe3095e && W(block, 59) == 0x78bc8d4b
    ensures W(block, 60) == 0xa43fcf15 && W(block, 61) == 0x668b2ff8 && W(block, 62) == 0xeeaba2cc && W(block, 63) == 0x12b1edeb
  {
    hide W;
    Word(block, 56, 0xef57b9cd);
    Word(block, 57, 0xebe6b238);
    Word(block, 58, 0x9fe3095e);
    Word(block, 59, 0x78bc8d4b);
    Word(block, 60, 0xa43fcf15);
    Word(block, 61, 0x668b2ff8);
    Word(block, 62, 0xeeaba2cc);
    Word(block, 63, 0x12b1edeb);
  }

  lemma Steps0()
    ensures Round(Vars(0x6a09e667, 0xbb67ae85, 0x3c6ef372, 0xa54ff53a, 0x510e527f, 0x9b05688c, 0x1f83d9ab, 0x5be0cd19),
                  0x428a2f98, 0x61626380)
         == Vars(0x5d6aebcd, 0x6a09e667, 0xbb67ae85, 0x3c6ef372, 0xfa2a4622, 0x510e527f, 0x9b05688c, 0x1f83d9ab)
    ensures Round(Vars(0x5d6aebcd, 0x6a09e667, 0xbb67ae85, 0x3c6ef372, 0xfa2a4622, 0x510e527f, 0x9b05688c, 0x1f83d9ab),
                  0x71374491, 0x0)
         == Vars(0x5a6ad9ad, 0x5d6aebcd, 0x6a09e667, 0xbb67ae85, 0x78ce7989, 0xfa2a4622, 0x510e527f, 0x9b05688c)
    ensures Round(Vars(0x5a6ad9ad, 0x5d6aebcd, 0x6a09e667, 0xbb67ae85, 0x78ce7989, 0xfa2a4622, 0x510e527f, 0x9b05688c),
                  0xb5c0fbcf, 0x0)
         == Vars(0xc8c347a7, 0x5a6ad9ad, 0x5d6aebcd, 0x6a09e667, 0xf92939eb, 0x78ce7989, 0xfa2a4622, 0x510e527f)
    ensures Round(Vars(0xc8c347a7, 0x5a6ad9ad, 0x5d6aebcd, 0x6a09e667, 0xf92939eb, 0x78ce7989, 0xfa2a4622, 0x510e527f),
                  0xe9b5dba5, 0x0)
         == Vars(0xd550f666, 0xc8c347a7, 0x5a6ad9ad, 0x5d6aebcd, 0x24e00850, 0xf92939eb, 0x78ce7989, 0xfa2a4622)
    ensures Round(Vars(0xd550f666, 0xc8c347a7, 0x5a6ad9ad, 0x5d6aebcd, 0x24e00850, 0xf92939eb, 0x78ce7989, 0xfa2a4622),
                  0x3956c25b, 0x0)
         == Vars(0x4409a6a, 0xd550f666, 0xc8c347a7, 0x5a6ad9ad, 0x43ada245, 0x24e00850, 0xf92939eb, 0x78ce7989)
    ensures Round(Vars(0x4409a6a, 0xd550f666, 0xc8c347a7, 0x5a6ad9ad, 0x43ada245, 0x24e00850, 0xf92939eb, 0x78ce7989),
                  0x59f111f1, 0x0)
         == Vars(0x2b4209f5, 0x4409a6a, 0xd550f666, 0xc8c347a7, 0x714260ad, 0x43ada245, 0x24e00850, 0xf92939eb)
    ensures Round(Vars(0x2b4209f5, 0x4409a6a, 0xd550f666, 0xc8c347a7, 0x714260ad, 0x43ada245, 0x24e00850, 0xf92939eb),
                  0x923f82a4, 0x0)
         == Vars(0xe5030380, 0x2b4209f5, 0x4409a6a, 0xd550f666, 0x9b27a401, 0x714260ad, 0x43ada245, 0x24e00850)
    ensures Round(Vars(0xe5030380, 0x2b4209f5, 0x4409a6a, 0xd550f666, 0x9b27a401, 0x714260ad, 0x43ada245, 0x24e00850),
                  0xab1c5ed5, 0x0)
         == Vars(0x85a07b5f, 0xe5030380, 0x2b4209f5, 0x4409a6a, 0xc657a79, 0x9b27a401, 0x714260ad, 0x43ada245)
  {
  }

  lemma Constants0()
    ensures Constant(0) == 0x428a2f98 && Constant(1) == 0x71374491 && Constant(2) == 0xb5c0fbcf && Constant(3) == 0xe9b5dba5
    ensures Constant(4) == 0x3956c25b && Constant(5) == 0x59f111f1 && Constant(6) == 0x923f82a4 && Constant(7) == 0xab1c5ed5
  {
  }

  lemma Rounds0(block: seq<bv8>)
    requires |block| == BLOCK
    requires Rounds(H0, block, 0)
         == Vars(0x6a09e667, 0xbb67ae85, 0x3c6ef372, 0xa54ff53a, 0x510e527f, 0x9b05688c, 0x1f83d9ab, 0x5be0cd19)
    requires W(block, 0) == 0x61626380 && W(block, 1) == 0x0 && W(block, 2) == 0x0 && W(block, 3) == 0x0
    requires W(block, 4) == 0x0 && W(block, 5) == 0x0 && W(block, 6) == 0x0 && W(block, 7) == 0x0
    ensures Rounds(H0, block, 8)
         == Vars(0x85a07b5f, 0xe5030380, 0x2b4209f5, 0x4409a6a, 0xc657a79, 0x9b27a401, 0x714260ad, 0x43ada245)
  {
    hide W, Rounds, Round, Constant;
    Steps0();
    Constants0();
    Next(block, 0); Next(block, 1); Next(block, 2); Next(block, 3);
    Next(block, 4); Next(block, 5); Next(block, 6); Next(block, 7);
  }

  lemma Steps8()
    ensures Round(Vars(0x85a07b5f, 0xe5030380, 0x2b4209f5, 0x4409a6a, 0xc657a79, 0x9b27a401, 0x714260ad, 0x43ada245),
                  0xd807aa98, 0x0)
         == Vars(0x8e04ecb9, 0x85a07b5f, 0xe5030380, 0x2b4209f5, 0x32ca2d8c, 0xc657a79, 0x9b27a401, 0x714260ad)
    ensures Round(Vars(0x8e04ecb9, 0x85a07b5f, 0xe5030380, 0x2b4209f5, 0x32ca2d8c, 0xc657a79, 0x9b27a401, 0x714260ad),
                  0x12835b01, 0x0)
         == Vars(0x8c87346b, 0x8e04ecb9, 0x85a07b5f, 0xe5030380, 0x1cc92596, 0x32ca2d8c, 0xc657a79, 0x9b27a401)
    ensures Round(Vars(0x8c87346b, 0x8e04ecb9, 0x85a07b5f, 0xe5030380, 0x1cc92596, 0x32ca2d8c, 0xc657a79, 0x9b27a401),
                  0x243185be, 0x0)
         == Vars(0x4798a3f4, 0x8c87346b, 0x8e04ecb9, 0x85a07b5f, 0x436b23e8, 0x1cc92596, 0x32ca2d8c, 0xc657a79)
    ensures Round(Vars(0x4798a3f4, 0x8c87346b, 0x8e04ecb9, 0x85a07b5f, 0x436b23e8, 0x1cc92596, 0x32ca2d8c, 0xc657a79),
                  0x550c7dc3, 0x0)
         == Vars(0xf71fc5a9, 0x4798a3f4, 0x8c87346b, 0x8e04ecb9, 0x816fd6e9, 0x436b23e8, 0x1cc92596, 0x32ca2d8c)
    ensures Round(Vars(0xf71fc5a9, 0x4798a3f4, 0x8c87346b, 0x8e04ecb9, 0x816fd6e9, 0x436b23e8, 0x1cc92596, 0x32ca2d8c),
                  0x72be5d74, 0x0)
         == Vars(0x87912990, 0xf71fc5a9, 0x4798a3f4, 0x8c87346b, 0x1e578218, 0x816fd6e9, 0x436b23e8, 0x1cc92596)
    ensures Round(Vars(0x87912990, 0xf71fc5a9, 0x4798a3f4, 0x8c87346b, 0x1e578218, 0x816fd6e9, 0x436b23e8, 0x1cc92596),
                  0x80deb1fe, 0x0)
         == Vars(0xd932eb16, 0x87912990, 0xf71fc5a9, 0x4798a3f4, 0x745a48de, 0x1e578218, 0x816fd6e9, 0x436b23e8)
    ensures Round(Vars(0xd932eb16, 0x87912990, 0xf71fc5a9, 0x4798a3f4, 0x745a48de, 0x1e578218, 0x816fd6e9, 0x436b23e8),
                  0x9bdc06a7, 0x0)
         == Vars(0xc0645fde, 0xd932eb16, 0x87912990, 0xf71fc5a9, 0xb92f20c, 0x745a48de, 0x1e578218, 0x816fd6e9)
    ensures Round(Vars(0xc0645fde, 0xd932eb16, 0x87912990, 0xf71fc5a9, 0xb92f20c, 0x745a48de, 0x1e578218, 0x816fd6e9),
                  0xc19bf174, 0x18)
         == Vars(0xb0fa238e, 0xc0645fde, 0xd932eb16, 0x87912990, 0x7590dcd, 0xb92f20c, 0x745a48de, 0x1e578218)
  {
  }

  lemma Constants8()
    ensures Constant(8) == 0xd807aa98 && Constant(9) == 0x12835b01 && Constant(10) == 0x243185be && Constant(11) == 0x550c7dc3
    ensures Constant(12) == 0x72be5d74 && Constant(13) == 0x80deb1fe && Constant(14) == 0x9bdc06a7 && Constant(15) == 0xc19bf174
  {
  }

  lemma Rounds8(block: seq<bv8>)
    requires |block| == BLOCK
    requires Rounds(H0, block, 8)
         == Vars(0x85a07b5f, 0xe5030380, 0x2b4209f5, 0x4409a6a, 0xc657a79, 0x9b27a401, 0x714260ad, 0x43ada245)
    requires W(block, 8) == 0x0 && W(block, 9) == 0x0 && W(block, 10) == 0x0 && W(block, 11) == 0x0
    requires W(block, 12) == 0x0 && W(block, 13) == 0x0 && W(block, 14) == 0x0 && W(block, 15) == 0x18
    ensures Rounds(H0, block, 16)
         == Vars(0xb0fa238e, 0xc0645fde, 0xd932eb16, 0x87912990, 0x7590dcd, 0xb92f20c, 0x745a48de, 0x1e578218)
  {
    hide W, Rounds, Round, Constant;
    Steps8();
    Constants8();
    Next(block, 8); Next(block, 9); Next(block, 10); Next(block, 11);
    Next(block, 12); Next(block, 13); Next(block, 14); Next(block, 15);
  }

  lemma Steps16()
    ensures Round(Vars(0xb0fa238e, 0xc0645fde, 0xd932eb16, 0x87912990, 0x7590dcd, 0xb92f20c, 0x745a48de, 0x1e578218),
                  0xe49b69c1, 0x61626380)
         == Vars(0x21da9a9b, 0xb0fa238e, 0xc0645fde, 0xd932eb16, 0x8034229c, 0x7590dcd, 0xb92f20c, 0x745a48de)
    ensures Round(Vars(0x21da9a9b, 0xb0fa238e, 0xc0645fde, 0xd932eb16, 0x8034229c, 0x7590dcd, 0xb92f20c, 0x745a48de),
                  0xefbe4786, 0xf0000)
         == Vars(0xc2fbd9d1, 0x21da9a9b, 0xb0fa238e, 0xc0645fde, 0x846ee454, 0x8034229c, 0x7590dcd, 0xb92f20c)
    ensures Round(Vars(0xc2fbd9d1, 0x21da9a9b, 0xb0fa238e, 0xc0645fde, 0x846ee454, 0x8034229c, 0x7590dcd, 0xb92f20c),
                  0xfc19dc6, 0x7da86405)
         == Vars(0xfe777bbf, 0xc2fbd9d1, 0x21da9a9b, 0xb0fa238e, 0xcc899961, 0x846ee454, 0x8034229c, 0x7590dcd)
    ensures Round(Vars(0xfe777bbf, 0xc2fbd9d1, 0x21da9a9b, 0xb0fa238e, 0xcc899961, 0x846ee454, 0x8034229c, 0x7590dcd),
                  0x240ca1cc, 0x600003c6)
         == Vars(0xe1f20c33, 0xfe777bbf, 0xc2fbd9d1, 0x21da9a9b, 0xb0638179, 0xcc899961, 0x846ee454, 0x8034229c)
    ensures Round(Vars(0xe1f20c33, 0xfe777bbf, 0xc2fbd9d1, 0x21da9a9b, 0xb0638179, 0xcc899961, 0x846ee454, 0x8034229c),
                  0x2de92c6f, 0x3e9d7b78)
         == Vars(0x9dc68b63, 0xe1f20c33, 0xfe777bbf, 0xc2fbd9d1, 0x8ada8930, 0xb0638179, 0xcc899961, 0x846ee454)
    ensures Round(Vars(0x9dc68b63, 0xe1f20c33, 0xfe777bbf, 0xc2fbd9d1, 0x8ada8930, 0xb0638179, 0xcc899961, 0x846ee454),
                  0x4a7484aa, 0x183fc00)
         == Vars(0xc2606d6d, 0x9dc68b63, 0xe1f20c33, 0xfe777bbf, 0xe1257970, 0x8ada8930, 0xb0638179, 0xcc899961)
    ensures Round(Vars(0xc2606d6d, 0x9dc68b63, 0xe1f20c33, 0xfe777bbf, 0xe1257970, 0x8ada8930, 0xb0638179, 0xcc899961),
                  0x5cb0a9dc, 0x12dcbfdb)
         == Vars(0xa7a3623f, 0xc2606d6d, 0x9dc68b63, 0xe1f20c33, 0x49f5114a, 0xe1257970, 0x8ada8930, 0xb0638179)
    ensures Round(Vars(0xa7a3623f, 0xc2606d6d, 0x9dc68b63, 0xe1f20c33, 0x49f5114a, 0xe1257970, 0x8ada8930, 0xb0638179),
                  0x76f988da, 0xe2e2c38e)
         == Vars(0xc5d53d8d, 0xa7a3623f, 0xc2606d6d, 0x9dc68b63, 0xaa47c347, 0x49f5114a, 0xe1257970, 0x8ada8930)
  {
  }

  lemma Constants16()
    ensures Constant(16) == 0xe49b69c1 && Constant(17) == 0xefbe4786 && Constant(18) == 0xfc19dc6 && Constant(19) == 0x240ca1cc
    ensures Constant(20) == 0x2de92c6f && Constant(21) == 0x4a7484aa && Constant(22) == 0x5cb0a9dc && Constant(23) == 0x76f988da
  {
  }

  lemma Rounds16(block: seq<bv8>)
    requires |block| == BLOCK
    requires Rounds(H0, block, 16)
         == Vars(0xb0fa238e, 0xc0645fde, 0xd932eb16, 0x87912990, 0x7590dcd, 0xb92f20c, 0x745a48de, 0x1e578218)
    requires W(block, 16) == 0x61626380 && W(block, 17) == 0xf0000 && W(block, 18) == 0x7da86405 && W(block, 19) == 0x600003c6
    requires W(block, 20) == 0x3e9d7b78 && W(block, 21) == 0x183fc00 && W(block, 22) == 0x12dcbfdb && W(block, 23) == 0xe2e2c38e
    ensures Rounds(H0, block, 24)
         == Vars(0xc5d53d8d, 0xa7a3623f, 0xc2606d6d, 0x9dc68b63, 0xaa47c347, 0x49f5114a, 0xe1257970, 0x8ada8930)
  {
    hide W, Rounds, Round, Constant;
    Steps16();
    Constants16();
    Next(block, 16); Next(block, 17); Next(block, 18); Next(block, 19);
    Next(block, 20); Next(block, 21); Next(block, 22); Next(block, 23);
  }

  lemma Steps24()
    ensures Round(Vars(0xc5d53d8d, 0xa7a3623f, 0xc2606d6d, 0x9dc68b63, 0xaa47c347, 0x49f5114a, 0xe1257970, 0x8ada8930),
                  0x983e5152, 0xc8215c1a)
         == Vars(0x1c2c2838, 0xc5d53d8d, 0xa7a3623f, 0xc2606d6d, 0x2823ef91, 0xaa47c347, 0x49f5114a, 0xe1257970)
    ensures Round(Vars(0x1c2c2838, 0xc5d53d8d, 0xa7a3623f, 0xc2606d6d, 0x2823ef91, 0xaa47c347, 0x49f5114a, 0xe1257970),
                  0xa831c66d, 0xb73679a2)
         == Vars(0xcde8037d, 0x1c2c2838, 0xc5d53d8d, 0xa7a3623f, 0x14383d8e, 0x2823ef91, 0xaa47c347, 0x49f5114a)
    ensures Round(Vars(0xcde8037d, 0x1c2c2838, 0xc5d53d8d, 0xa7a3623f, 0x14383d8e, 0x2823ef91, 0xaa47c347, 0x49f5114a),
                  0xb00327c8, 0xe5bc3909)
         == Vars(0xb62ec4bc, 0xcde8037d, 0x1c2c2838, 0xc5d53d8d, 0xc74c6516, 0x14383d8e, 0x2823ef91, 0xaa47c347)
    ensures Round(Vars(0xb62ec4bc, 0xcde8037d, 0x1c2c2838, 0xc5d53d8d, 0xc74c6516, 0x14383d8e, 0x2823ef91, 0xaa47c347),
                  0xbf597fc7, 0x32663c5b)
         == Vars(0x77d37528, 0xb62ec4bc, 0xcde8037d, 0x1c2c2838, 0xedffbff8, 0xc74c6516, 0x14383d8e, 0x2823ef91)
    ensures Round(Vars(0x77d37528, 0xb62ec4bc, 0xcde8037d, 0x1c2c2838, 0xedffbff8, 0xc74c6516, 0x14383d8e, 0x2823ef91),
                  0xc6e00bf3, 0x9d209d67)
         == Vars(0x363482c9, 0x77d37528, 0xb62ec4bc, 0xcde8037d, 0x6112a3b7, 0xedffbff8, 0xc74c6516, 0x14383d8e)
    ensures Round(Vars(0x363482c9, 0x77d37528, 0xb62ec4bc, 0xcde8037d, 0x6112a3b7, 0xedffbff8, 0xc74c6516, 0x14383d8e),
                  0xd5a79147, 0xec8726cb)
         == Vars(0xa0060b30, 0x363482c9, 0x77d37528, 0xb62ec4bc, 0xade79437, 0x6112a3b7, 0xedffbff8, 0xc74c6516)
    ensures Round(Vars(0xa0060b30, 0x363482c9, 0x77d37528, 0xb62ec4bc, 0xade79437, 0x6112a3b7, 0xedffbff8, 0xc74c6516),
                  0x6ca6351, 0x702138a4)
         == Vars(0xea992a22, 0xa0060b30, 0x363482c9, 0x77d37528, 0x109ab3a, 0xade79437, 0x6112a3b7, 0xedffbff8)
    ensures Round(Vars(0xea992a22, 0xa0060b30, 0x363482c9, 0x77d37528, 0x109ab3a, 0xade79437, 0x6112a3b7, 0xedffbff8),
                  0x14292967, 0xd3b7973b)
         == Vars(0x73b33bf5, 0xea992a22, 0xa0060b30, 0x363482c9, 0xba591112, 0x109ab3a, 0xade79437, 0x6112a3b7)
  {
  }

  lemma Constants24()
    ensures Constant(24) == 0x983e5152 && Constant(25) == 0xa831c66d && Constant(26) == 0xb00327c8 && Constant(27) == 0xbf597fc7
    ensures Constant(28) == 0xc6e00bf3 && Constant(29) == 0xd5a79147 && Constant(30) == 0x6ca6351 && Constant(31) == 0x14292967
  {
  }

  lemma Rounds24(block: seq<bv8>)
    requires |block| == BLOCK
    requires Rounds(H0, block, 24)
         == Vars(0xc5d53d8d, 0xa7a3623f, 0xc2606d6d, 0x9dc68b63, 0xaa47c347, 0x49f5114a, 0xe1257970, 0x8ada8930)
    requires W(block, 24) == 0xc8215c1a && W(block, 25) == 0xb73679a2 && W(block, 26) == 0xe5bc3909 && W(block, 27) == 0x32663c5b
    requires W(block, 28) == 0x9d209d67 && W(block, 29) == 0xec8726cb && W(block, 30) == 0x702138a4 && W(block, 31) == 0xd3b7973b
    ensures Rounds(H0, block, 32)
         == Vars(0x73b33bf5, 0xea992a22, 0xa0060b30, 0x363482c9, 0xba591112, 0x109ab3a, 0xade79437, 0x6112a3b7)
  {
    hide W, Rounds, Round, Constant;
    Steps24();
    Constants24();
    Next(block, 24); Next(block, 25); Next(block, 26); Next(block, 27);
    Next(block, 28); Next(block, 29); Next(block, 30); Next(block, 31);
  }

  lemma Steps32()
    ensures Round(Vars(0x73b33bf5, 0xea992a22, 0xa0060b30, 0x363482c9, 0xba591112, 0x109ab3a, 0xade79437, 0x6112a3b7),
                  0x27b70a85, 0x93f5997f)
         == Vars(0x98e12507, 0x73b33bf5, 0xea992a22, 0xa0060b30, 0x9cd9f5f6, 0xba591112, 0x109ab3a, 0xade79437)
    ensures Round(Vars(0x98e12507, 0x73b33bf5, 0xea992a22, 0xa0060b30, 0x9cd9f5f6, 0xba591112, 0x109ab3a, 0xade79437),
                  0x2e1b2138, 0x3b68ba73)
         == Vars(0xfe604df5, 0x98e12507, 0x73b33bf5, 0xea992a22, 0x59249dd3, 0x9cd9f5f6, 0xba591112, 0x109ab3a)
    ensures Round(Vars(0xfe604df5, 0x98e12507, 0x73b33bf5, 0xea992a22, 0x59249dd3, 0x9cd9f5f6, 0xba591112, 0x109ab3a),
                  0x4d2c6dfc, 0xaff4ffc1)
         == Vars(0xa9a7738c, 0xfe604df5, 0x98e12507, 0x73b33bf5, 0x85f3833, 0x59249dd3, 0x9cd9f5f6, 0xba591112)
    ensures Round(Vars(0xa9a7738c, 0xfe604df5, 0x98e12507, 0x73b33bf5, 0x85f3833, 0x59249dd3, 0x9cd9f5f6, 0xba591112),
                  0x53380d13, 0xf10a5c62)
         == Vars(0x65a0cfe4, 0xa9a7738c, 0xfe604df5, 0x98e12507, 0xf4b002d6, 0x85f3833, 0x59249dd3, 0x9cd9f5f6)
    ensures Round(Vars(0x65a0cfe4, 0xa9a7738c, 0xfe604df5, 0x98e12507, 0xf4b002d6, 0x85f3833, 0x59249dd3, 0x9cd9f5f6),
                  0x650a7354, 0xa8b3996)
         == Vars(0x41a65cb1, 0x65a0cfe4, 0xa9a7738c, 0xfe604df5, 0x772a26b, 0xf4b002d6, 0x85f3833, 0x59249dd3)
    ensures Round(Vars(0x41a65cb1, 0x65a0cfe4, 0xa9a7738c, 0xfe604df5, 0x772a26b, 0xf4b002d6, 0x85f3833, 0x59249dd3),
                  0x766a0abb, 0x72af830a)
         == Vars(0x34df1604, 0x41a65cb1, 0x65a0cfe4, 0xa9a7738c, 0xa507a53d, 0x772a26b, 0xf4b002d6, 0x85f3833)
    ensures Round(Vars(0x34df1604, 0x41a65cb1, 0x65a0cfe4, 0xa9a7738c, 0xa507a53d, 0x772a26b, 0xf4b002d6, 0x85f3833),
                  0x81c2c92e, 0x9409e33e)
         == Vars(0x6dc57a8a, 0x34df1604, 0x41a65cb1, 0x65a0cfe4, 0xf0781bc8, 0xa507a53d, 0x772a26b, 0xf4b002d6)
    ensures Round(Vars(0x6dc57a8a, 0x34df1604, 0x41a65cb1, 0x65a0cfe4, 0xf0781bc8, 0xa507a53d, 0x772a26b, 0xf4b002d6),
                  0x92722c85, 0x24641522)
         == Vars(0x79ea687a, 0x6dc57a8a, 0x34df1604, 0x41a65cb1, 0x1efbc0a0, 0xf0781bc8, 0xa507a53d, 0x772a26b)
  {
  }

  lemma Constants32()
    ensures Constant(32) == 0x27b70a85 && Constant(33) == 0x2e1b2138 && Constant(34) == 0x4d2c6dfc && Constant(35) == 0x53380d13
    ensures Constant(36) == 0x650a7354 && Constant(37) == 0x766a0abb && Constant(38) == 0x81c2c92e && Constant(39) == 0x92722c85
  {
  }

  lemma Rounds32(block: seq<bv8>)
    requires |block| == BLOCK
    requires Rounds(H0, block, 32)
         == Vars(0x73b33bf5, 0xea992a22, 0xa0060b30, 0x363482c9, 0xba591112, 0x109ab3a, 0xade79437, 0x6112a3b7)
    requires W(block, 32) == 0x93f5997f && W(block, 33) == 0x3b68ba73 && W(block, 34) == 0xaff4ffc1 && W(block, 35) == 0xf10a5c62
    requires W(block, 36) == 0xa8b3996 && W(block, 37) == 0x72af830a && W(block, 38) == 0x9409e33e && W(block, 39) == 0x24641522
    ensures Rounds(H0, block, 40)
         == Vars(0x79ea687a, 0x6dc57a8a, 0x34df1604, 0x41a65cb1, 0x1efbc0a0, 0xf0781bc8, 0xa507a53d, 0x772a26b)
  {
    hide W, Rounds, Round, Constant;
    Steps32();
    Constants32();
    Next(block, 32); Next(block, 33); Next(block, 34); Next(block, 35);
    Next(block, 36); Next(block, 37); Next(block, 38); Next(block, 39);
  }

  lemma Steps40()
    ensures Round(Vars(0x79ea687a, 0x6dc57a8a, 0x34df1604, 0x41a65cb1, 0x1efbc0a0, 0xf0781bc8, 0xa507a53d, 0x772a26b),
                  0xa2bfe8a1, 0x9f47bf94)
         == Vars(0xd6670766, 0x79ea687a, 0x6dc57a8a, 0x34df1604, 0x26352d63, 0x1efbc0a0, 0xf0781bc8, 0xa507a53d)
    ensures Round(Vars(0xd6670766, 0x79ea687a, 0x6dc57a8a, 0x34df1604, 0x26352d63, 0x1efbc0a0, 0xf0781bc8, 0xa507a53d),
                  0xa81a664b, 0xf0a64f5a)
         == Vars(0xdf46652f, 0xd6670766, 0x79ea687a, 0x6dc57a8a, 0x838b2711, 0x26352d63, 0x1efbc0a0, 0xf0781bc8)
    ensures Round(Vars(0xdf46652f, 0xd6670766, 0x79ea687a, 0x6dc57a8a, 0x838b2711, 0x26352d63, 0x1efbc0a0, 0xf0781bc8),
                  0xc24b8b70, 0x3e246a79)
         == Vars(0x17aa0dfe, 0xdf46652f, 0xd6670766, 0x79ea687a, 0xdecd4715, 0x838b2711, 0x26352d63, 0x1efbc0a0)
    ensures Round(Vars(0x17aa0dfe, 0xdf46652f, 0xd6670766, 0x79ea687a, 0xdecd4715, 0x838b2711, 0x26352d63, 0x1efbc0a0),
                  0xc76c51a3, 0x27333ba3)
         == Vars(0x9d4baf93, 0x17aa0dfe, 0xdf46652f, 0xd6670766, 0xfda24c2e, 0xdecd4715, 0x838b2711, 0x26352d63)
    ensures Round(Vars(0x9d4baf93, 0x17aa0dfe, 0xdf46652f, 0xd6670766, 0xfda24c2e, 0xdecd4715, 0x838b2711, 0x26352d63),
                  0xd192e819, 0xc4763f2)
         == Vars(0x26628815, 0x9d4baf93, 0x17aa0dfe, 0xdf46652f, 0xa80f11f0, 0xfda24c2e, 0xdecd4715, 0x838b2711)
    ensures Round(Vars(0x26628815, 0x9d4baf93, 0x17aa0dfe, 0xdf46652f, 0xa80f11f0, 0xfda24c2e, 0xdecd4715, 0x838b2711),
                  0xd6990624, 0x840abf27)
         == Vars(0x72ab4b91, 0x26628815, 0x9d4baf93, 0x17aa0dfe, 0xb7755da1, 0xa80f11f0, 0xfda24c2e, 0xdecd4715)
    ensures Round(Vars(0x72ab4b91, 0x26628815, 0x9d4baf93, 0x17aa0dfe, 0xb7755da1, 0xa80f11f0, 0xfda24c2e, 0xdecd4715),
                  0xf40e3585, 0x7a290d5d)
         == Vars(0xa14c14b0, 0x72ab4b91, 0x26628815, 0x9d4baf93, 0xd57b94a9, 0xb7755da1, 0xa80f11f0, 0xfda24c2e)
    ensures Round(Vars(0xa14c14b0, 0x72ab4b91, 0x26628815, 0x9d4baf93, 0xd57b94a9, 0xb7755da1, 0xa80f11f0, 0xfda24c2e),
                  0x106aa070, 0x65c43da)
         == Vars(0x4172328d, 0xa14c14b0, 0x72ab4b91, 0x26628815, 0xfecf0bc6, 0xd57b94a9, 0xb7755da1, 0xa80f11f0)
  {
  }

  lemma Constants40()
    ensures Constant(40) == 0xa2bfe8a1 && Constant(41) == 0xa81a664b && Constant(42) == 0xc24b8b70 && Constant(43) == 0xc76c51a3
    ensures Constant(44) == 0xd192e819 && Constant(45) == 0xd6990624 && Constant(46) == 0xf40e3585 && Constant(47) == 0x106aa070
  {
  }

  lemma Rounds40(block: seq<bv8>)
    requires |block| == BLOCK
    requires Rounds(H0, block, 40)
         == Vars(0x79ea687a, 0x6dc57a8a, 0x34df1604, 0x41a65cb1, 0x1efbc0a0, 0xf0781bc8, 0xa507a53d, 0x772a26b)
    requires W(block, 40) == 0x9f47bf94 && W(block, 41) == 0xf0a64f5a && W(block, 42) == 0x3e246a79 && W(block, 43) == 0x27333ba3
    requires W(block, 44) == 0xc4763f2 && W(block, 45) == 0x840abf27 && W(block, 46) == 0x7a290d5d && W(block, 47) == 0x65c43da
    ensures Rounds(H0, block, 48)
         == Vars(0x4172328d, 0xa14c14b0, 0x72ab4b91, 0x26628815, 0xfecf0bc6, 0xd57b94a9, 0xb7755da1, 0xa80f11f0)
  {
    hide W, Rounds, Round, Constant;
    Steps40();
    Constants40();
    Next(block, 40); Next(block, 41); Next(block, 42); Next(block, 43);
    Next(block, 44); Next(block, 45); Next(block, 46); Next(block, 47);
  }

  lemma Steps48()
    ensures Round(Vars(0x4172328d, 0xa14c14b0, 0x72ab4b91, 0x26628815, 0xfecf0bc6, 0xd57b94a9, 0xb7755da1, 0xa80f11f0),
                  0x19a4c116, 0xfb3e89cb)
         == Vars(0x5757ceb, 0x4172328d, 0xa14c14b0, 0x72ab4b91, 0xbd714038, 0xfecf0bc6, 0xd57b94a9, 0xb7755da1)
    ensures Round(Vars(0x5757ceb, 0x4172328d, 0xa14c14b0, 0x72ab4b91, 0xbd714038, 0xfecf0bc6, 0xd57b94a9, 0xb7755da1),
                  0x1e376c08, 0xcc7617db)
         == Vars(0xf11bfaa8, 0x5757ceb, 0x4172328d, 0xa14c14b0, 0x6e5c390c, 0xbd714038, 0xfecf0bc6, 0xd57b94a9)
    ensures Round(Vars(0xf11bfaa8, 0x5757ceb, 0x4172328d, 0xa14c14b0, 0x6e5c390c, 0xbd714038, 0xfecf0bc6, 0xd57b94a9),
                  0x2748774c, 0xb9e66c34)
         == Vars(0x7a0508a1, 0xf11bfaa8, 0x5757ceb, 0x4172328d, 0x52f1ccf7, 0x6e5c390c, 0xbd714038, 0xfecf0bc6)
    ensures Round(Vars(0x7a0508a1, 0xf11bfaa8, 0x5757ceb, 0x4172328d, 0x52f1ccf7, 0x6e5c390c, 0xbd714038, 0xfecf0bc6),
                  0x34b0bcb5, 0xa9993667)
         == Vars(0x886e7a22, 0x7a0508a1, 0xf11bfaa8, 0x5757ceb, 0x49231c1e, 0x52f1ccf7, 0x6e5c390c, 0xbd714038)
    ensures Round(Vars(0x886e7a22, 0x7a0508a1, 0xf11bfaa8, 0x5757ceb, 0x49231c1e, 0x52f1ccf7, 0x6e5c390c, 0xbd714038),
                  0x391c0cb3, 0x84badedd)
         == Vars(0x101fd28f, 0x886e7a22, 0x7a0508a1, 0xf11bfaa8, 0x529e7d00, 0x49231c1e, 0x52f1ccf7, 0x6e5c390c)
    ensures Round(Vars(0x101fd28f, 0x886e7a22, 0x7a0508a1, 0xf11bfaa8, 0x529e7d00, 0x49231c1e, 0x52f1ccf7, 0x6e5c390c),
                  0x4ed8aa4a, 0xc21462bc)
         == Vars(0xf5702fdb, 0x101fd28f, 0x886e7a22, 0x7a0508a1, 0x9f4787c3, 0x529e7d00, 0x49231c1e, 0x52f1ccf7)
    ensures Round(Vars(0xf5702fdb, 0x101fd28f, 0x886e7a22, 0x7a0508a1, 0x9f4787c3, 0x529e7d00, 0x49231c1e, 0x52f1ccf7),
                  0x5b9cca4f, 0x1487472c)
         == Vars(0x3ec45cdb, 0xf5702fdb, 0x101fd28f, 0x886e7a22, 0xe50e1b4f, 0x9f4787c3, 0x529e7d00, 0x49231c1e)
    ensures Round(Vars(0x3ec45cdb, 0xf5702fdb, 0x101fd28f, 0x886e7a22, 0xe50e1b4f, 0x9f4787c3, 0x529e7d00, 0x49231c1e),
                  0x682e6ff3, 0xb20f7a99)
         == Vars(0x38cc9913, 0x3ec45cdb, 0xf5702fdb, 0x101fd28f, 0x54cb266b, 0xe50e1b4f, 0x9f4787c3, 0x529e7d00)
  {
  }

  lemma Constants48()
    ensures Constant(48) == 0x19a4c116 && Constant(49) == 0x1e376c08 && Constant(50) == 0x2748774c && Constant(51) == 0x34b0bcb5
    ensures Constant(52) == 0x391c0cb3 && Constant(53) == 0x4ed8aa4a && Constant(54) == 0x5b9cca4f && Constant(55) == 0x682e6ff3
  {
  }

  lemma Rounds48(block: seq<bv8>)
    requires |block| == BLOCK
    requires Rounds(H0, block, 48)
         == Vars(0x4172328d, 0xa14c14b0, 0x72ab4b91, 0x26628815, 0xfecf0bc6, 0xd57b94a9, 0xb7755da1, 0xa80f11f0)
    requires W(block, 48) == 0xfb3e89cb && W(block, 49) == 0xcc7617db && W(block, 50) == 0xb9e66c34 && W(block, 51) == 0xa9993667
    requires W(block, 52) == 0x84badedd && W(block, 53) == 0xc21462bc && W(block, 54) == 0x1487472c && W(block, 55) == 0xb20f7a99
    ensures Rounds(H0, block, 56)
         == Vars(0x38cc9913, 0x3ec45cdb, 0xf5702fdb, 0x101fd28f, 0x54cb266b, 0xe50e1b4f, 0x9f4787c3, 0x529e7d00)
  {
    hide W, Rounds, Round, Constant;
    Steps48();
    Constants48();
    Next(block, 48); Next(block, 49); Next(block, 50); Next(block, 51);
    Next(block, 52); Next(block, 53); Next(block, 54); Next(block, 55);
  }

  lemma Steps56()
    ensures Round(Vars(0x38cc9913, 0x3ec45cdb, 0xf5702fdb, 0x101fd28f, 0x54cb266b, 0xe50e1b4f, 0x9f4787c3, 0x529e7d00),
                  0x748f82ee, 0xef57b9cd)
         == Vars(0xfcd1887b, 0x38cc9913, 0x3ec45cdb, 0xf5702fdb, 0x9b5e906c, 0x54cb266b, 0xe50e1b4f, 0x9f4787c3)
    ensures Round(Vars(0xfcd1887b, 0x38cc9913, 0x3ec45cdb, 0xf5702fdb, 0x9b5e906c, 0x54cb266b, 0xe50e1b4f, 0x9f4787c3),
                  0x78a5636f, 0xebe6b238)
         == Vars(0xc062d46f, 0xfcd1887b, 0x38cc9913, 0x3ec45cdb, 0x7e44008e, 0x9b5e906c, 0x54cb266b, 0xe50e1b4f)
    ensures Round(Vars(0xc062d46f, 0xfcd1887b, 0x38cc9913, 0x3ec45cdb, 0x7e44008e, 0x9b5e906c, 0x54cb266b, 0xe50e1b4f),
                  0x84c87814, 0x9fe3095e)
         == Vars(0xffb70472, 0xc062d46f, 0xfcd1887b, 0x38cc9913, 0x6d83bfc6, 0x7e44008e, 0x9b5e906c, 0x54cb266b)
    ensures Round(Vars(0xffb70472, 0xc062d46f, 0xfcd1887b, 0x38cc9913, 0x6d83bfc6, 0x7e44008e, 0x9b5e906c, 0x54cb266b),
                  0x8cc70208, 0x78bc8d4b)
         == Vars(0xb6ae8fff, 0xffb70472, 0xc062d46f, 0xfcd1887b, 0xb21bad3d, 0x6d83bfc6, 0x7e44008e, 0x9b5e906c)
    ensures Round(Vars(0xb6ae8fff, 0xffb70472, 0xc062d46f, 0xfcd1887b, 0xb21bad3d, 0x6d83bfc6, 0x7e44008e, 0x9b5e906c),
                  0x90befffa, 0xa43fcf15)
         == Vars(0xb85e2ce9, 0xb6ae8fff, 0xffb70472, 0xc062d46f, 0x961f4894, 0xb21bad3d, 0x6d83bfc6, 0x7e44008e)
    ensures Round(Vars(0xb85e2ce9, 0xb6ae8fff, 0xffb70472, 0xc062d46f, 0x961f4894, 0xb21bad3d, 0x6d83bfc6, 0x7e44008e),
                  0xa4506ceb, 0x668b2ff8)
         == Vars(0x4d24d6c, 0xb85e2ce9, 0xb6ae8fff, 0xffb70472, 0x948d25b6, 0x961f4894, 0xb21bad3d, 0x6d83bfc6)
    ensures Round(Vars(0x4d24d6c, 0xb85e2ce9, 0xb6ae8fff, 0xffb70472, 0x948d25b6, 0x961f4894, 0xb21bad3d, 0x6d83bfc6),
                  0xbef9a3f7, 0xeeaba2cc)
         == Vars(0xd39a2165, 0x4d24d6c, 0xb85e2ce9, 0xb6ae8fff, 0xfb121210, 0x948d25b6, 0x961f4894, 0xb21bad3d)
    ensures Round(Vars(0xd39a2165, 0x4d24d6c, 0xb85e2ce9, 0xb6ae8fff, 0xfb121210, 0x948d25b6, 0x961f4894, 0xb21bad3d),
                  0xc67178f2, 0x12b1edeb)
         == Vars(0x506e3058, 0xd39a2165, 0x4d24d6c, 0xb85e2ce9, 0x5ef50f24, 0xfb121210, 0x948d25b6, 0x961f4894)
  {
  }

  lemma Constants56()
    ensures Constant(56) == 0x748f82ee && Constant(57) == 0x78a5636f && Constant(58) == 0x84c87814 && Constant(59) == 0x8cc70208
    ensures Constant(60) == 0x90befffa && Constant(61) == 0xa4506ceb && Constant(62) == 0xbef9a3f7 && Constant(63) == 0xc67178f2
  {
  }

  lemma Rounds56(block: seq<bv8>)
    requires |block| == BLOCK
    requires Rounds(H0, block, 56)
         == Vars(0x38cc9913, 0x3ec45cdb, 0xf5702fdb, 0x101fd28f, 0x54cb266b, 0xe50e1b4f, 0x9f4787c3, 0x529e7d00)
    requires W(block, 56) == 0xef57b9cd && W(block, 57) == 0xebe6b238 && W(block, 58) == 0x9fe3095e && W(block, 59) == 0x78bc8d4b
    requires W(block, 60) == 0xa43fcf15 && W(block, 61) == 0x668b2ff8 && W(block, 62) == 0xeeaba2cc && W(block, 63) == 0x12b1edeb
    ensures Rounds(H0, block, 64)
         == Vars(0x506e3058, 0xd39a2165, 0x4d24d6c, 0xb85e2ce9, 0x5ef50f24, 0xfb121210, 0x948d25b6, 0x961f4894)
  {
    hide W, Rounds, Round, Constant;
    Steps56();
    Constants56();
    Next(block, 56); Next(block, 57); Next(block, 58); Next(block, 59);
    Next(block, 60); Next(block, 61); Next(block, 62); Next(block, 63);
  }

  lemma AbcRounds(block: seq<bv8>)
    requires |block| == BLOCK && W(block, 0) == 0x61626380 && W(block, 15) == 24
    requires forall t | 1 <= t < 15 :: W(block, t) == 0
    ensures Rounds(H0, block, 64)
         == Vars(0x506e3058, 0xd39a2165, 0x4d24d6c, 0xb85e2ce9, 0x5ef50f24, 0xfb121210, 0x948d25b6, 0x961f4894)
  {
    assert Rounds(H0, block, 0) == Vars(0x6a09e667, 0xbb67ae85, 0x3c6ef372, 0xa54ff53a, 0x510e527f, 0x9b05688c, 0x1f83d9ab, 0x5be0cd19);
    hide W, Rounds;
    Words16(block);
    Words24(block);
    Words32(block);
    Words40(block);
    Words48(block);
    Words56(block);
    Rounds0(block);
    Rounds8(block);
    Rounds16(block);
    Rounds24(block);
    Rounds32(block);
    Rounds40(block);
    Rounds48(block);
    Rounds56(block);
  }

  /** The hash value of the padded message. */
  lemma AbcHash()
    ensures |Pad(ABC)| == BLOCK
    ensures Chain(Pad(ABC)) == [0xba7816bf, 0x8f01cfea, 0x414140de, 0x5dae2223, 0xb00361a3, 0x96177a9c, 0xb410ff61, 0xf20015ad]
  {
    AbcWords();
    var p := Pad(ABC);
    AbcRounds(p);
    hide W, Rounds, Pad;
    assert p[|p| - BLOCK..] == p && p[..|p| - BLOCK] == [] && Chain([]) == H0;
  }

  lemma BytesBack(x: bv32)
    ensures BigEndian(ByteOf(x, 0), ByteOf(x, 1), ByteOf(x, 2), ByteOf(x, 3)) == x
  {
  }

  /** The digest is the hash value, each word with its most significant byte first. */
  lemma SerializeBack(hash: seq<bv32>, i: nat)
    requires |hash| == 8 && i < 8
    ensures var d := Serialize(hash); BigEndian(d[4 * i], d[4 * i + 1], d[4 * i + 2], d[4 * i + 3]) == hash[i]
  {
    hide ByteOf, BigEndian;
    BytesBack(hash[i]);
  }

  /** The digest of "abc", in words. */
  lemma AbcDigest(i: nat)
    requires i < 8
    ensures var d := Digest(ABC);
            BigEndian(d[4 * i], d[4 * i + 1], d[4 * i + 2], d[4 * i + 3])
            == [0xba7816bf, 0x8f01cfea, 0x414140de, 0x5dae2223, 0xb00361a3, 0x96177a9c, 0xb410ff61, 0xf20015ad][i]
  {
    hide Serialize, Chain, Pad, BigEndian;
    AbcHash();
    SerializeBack(Chain(Pad(ABC)), i);
  }
}
