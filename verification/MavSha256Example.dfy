/** The first example of FIPS 180-4: the SHA-256 digest of "abc", computed round by round. */
module MavSha256Example {
  import opened Words
  import opened Arithmetic
  import opened MavSha256

  const ABC: Bytes := [0x61, 0x62, 0x63]

  /** The message with its padding is one block. */
  function AbcBlock(): (r: Bytes)
    ensures |r| == 64
  {
    ABC + Padding(24, 52)
  }

  lemma AbcFourBytes()
    ensures FourBytes(24) == [0, 0, 0, 24] && FourBytes(0) == [0, 0, 0, 0]
  {
  }

  lemma AbcLength()
    ensures LengthBytes(24) == [0, 0, 0, 0, 0, 0, 0, 24]
  {
    hide FourBytes;
    AbcFourBytes();
    DivModIs(24, TWO32, 0, 24);
    DivModIs(0, TWO32, 0, 0);
  }

  /** The words of the block. */
  lemma AbcWords(t: nat)
    requires t < 16
    ensures BlockWord(AbcBlock(), t) == if t == 0 then 0x61626380 else if t == 15 then 24 else 0
  {
    AbcLength();
    hide LengthBytes;
    var b := AbcBlock();
    assert b[0] == 0x61 && b[1] == 0x62 && b[2] == 0x63 && b[3] == 0x80;
    assert b == (ABC + [0x80]) + Zeros(52) + LengthBytes(24);
    assert forall i :: 4 <= i < 63 ==> b[i] == 0;
    assert b[63] == 24;
  }

  /** A block with these words. */
  predicate HasWords(b: Bytes) {
    && |b| == 64
    && BlockWord(b, 0) == 0x61626380 && BlockWord(b, 1) == 0x00000000
    && BlockWord(b, 2) == 0x00000000 && BlockWord(b, 3) == 0x00000000
    && BlockWord(b, 4) == 0x00000000 && BlockWord(b, 5) == 0x00000000
    && BlockWord(b, 6) == 0x00000000 && BlockWord(b, 7) == 0x00000000
    && BlockWord(b, 8) == 0x00000000 && BlockWord(b, 9) == 0x00000000
    && BlockWord(b, 10) == 0x00000000 && BlockWord(b, 11) == 0x00000000
    && BlockWord(b, 12) == 0x00000000 && BlockWord(b, 13) == 0x00000000
    && BlockWord(b, 14) == 0x00000000 && BlockWord(b, 15) == 0x00000018
  }

  lemma AbcHasWords()
    ensures HasWords(AbcBlock())
  {
    hide BlockWord, AbcBlock;
    forall t: nat | t < 16
      ensures BlockWord(AbcBlock(), t) == if t == 0 then 0x61626380 else if t == 15 then 24 else 0
    {
      AbcWords(t);
    }
  }

  lemma NextWord(b: Bytes, t: nat)
    requires HasWords(b) && t >= 16
    ensures W(b, t) == Sum4(SmallSigma1(W(b, t - 2)), W(b, t - 7), SmallSigma0(W(b, t - 15)), W(b, t - 16))
  {
    hide Sum4, SmallSigma0, SmallSigma1, BlockWord;
  }

  lemma AbcWords0To7(b: Bytes)
    requires HasWords(b)
    ensures W(b, 0) == 0x61626380 && W(b, 1) == 0x00000000 && W(b, 2) == 0x00000000 && W(b, 3) == 0x00000000
    ensures W(b, 4) == 0x00000000 && W(b, 5) == 0x00000000 && W(b, 6) == 0x00000000 && W(b, 7) == 0x00000000
  {
    hide BlockWord;
  }

  lemma AbcWords8To15(b: Bytes)
    requires HasWords(b)
    ensures W(b, 8) == 0x00000000 && W(b, 9) == 0x00000000 && W(b, 10) == 0x00000000 && W(b, 11) == 0x00000000
    ensures W(b, 12) == 0x00000000 && W(b, 13) == 0x00000000 && W(b, 14) == 0x00000000 && W(b, 15) == 0x00000018
  {
    hide BlockWord;
  }

  lemma AbcWords16To23(b: Bytes)
    requires HasWords(b)
    ensures W(b, 16) == 0x61626380 && W(b, 17) == 0x000f0000 && W(b, 18) == 0x7da86405 && W(b, 19) == 0x600003c6
    ensures W(b, 20) == 0x3e9d7b78 && W(b, 21) == 0x0183fc00 && W(b, 22) == 0x12dcbfdb && W(b, 23) == 0xe2e2c38e
  {
    hide W, HasWords;
    AbcWords0To7(b);
    AbcWords8To15(b);
    NextWord(b, 16);
    assert Sum4(SmallSigma1(0x00000000), 0x00000000, SmallSigma0(0x00000000), 0x61626380) == 0x61626380;
    NextWord(b, 17);
    assert Sum4(SmallSigma1(0x00000018), 0x00000000, SmallSigma0(0x00000000), 0x00000000) == 0x000f0000;
    NextWord(b, 18);
    assert Sum4(SmallSigma1(0x61626380), 0x00000000, SmallSigma0(0x00000000), 0x00000000) == 0x7da86405;
    NextWord(b, 19);
    assert Sum4(SmallSigma1(0x000f0000), 0x00000000, SmallSigma0(0x00000000), 0x00000000) == 0x600003c6;
    NextWord(b, 20);
    assert Sum4(SmallSigma1(0x7da86405), 0x00000000, SmallSigma0(0x00000000), 0x00000000) == 0x3e9d7b78;
    NextWord(b, 21);
    assert Sum4(SmallSigma1(0x600003c6), 0x00000000, SmallSigma0(0x00000000), 0x00000000) == 0x0183fc00;
    NextWord(b, 22);
    assert Sum4(SmallSigma1(0x3e9d7b78), 0x00000018, SmallSigma0(0x00000000), 0x00000000) == 0x12dcbfdb;
    NextWord(b, 23);
    assert Sum4(SmallSigma1(0x0183fc00), 0x61626380, SmallSigma0(0x00000000), 0x00000000) == 0xe2e2c38e;
  }

  lemma AbcWords24To31(b: Bytes)
    requires HasWords(b)
    ensures W(b, 24) == 0xc8215c1a && W(b, 25) == 0xb73679a2 && W(b, 26) == 0xe5bc3909 && W(b, 27) == 0x32663c5b
    ensures W(b, 28) == 0x9d209d67 && W(b, 29) == 0xec8726cb && W(b, 30) == 0x702138a4 && W(b, 31) == 0xd3b7973b
  {
    hide W, HasWords;
    AbcWords8To15(b);
    AbcWords16To23(b);
    NextWord(b, 24);
    assert Sum4(SmallSigma1(0x12dcbfdb), 0x000f0000, SmallSigma0(0x00000000), 0x00000000) == 0xc8215c1a;
    NextWord(b, 25);
    assert Sum4(SmallSigma1(0xe2e2c38e), 0x7da86405, SmallSigma0(0x00000000), 0x00000000) == 0xb73679a2;
    NextWord(b, 26);
    assert Sum4(SmallSigma1(0xc8215c1a), 0x600003c6, SmallSigma0(0x00000000), 0x00000000) == 0xe5bc3909;
    NextWord(b, 27);
    assert Sum4(SmallSigma1(0xb73679a2), 0x3e9d7b78, SmallSigma0(0x00000000), 0x00000000) == 0x32663c5b;
    NextWord(b, 28);
    assert Sum4(SmallSigma1(0xe5bc3909), 0x0183fc00, SmallSigma0(0x00000000), 0x00000000) == 0x9d209d67;
    NextWord(b, 29);
    assert Sum4(SmallSigma1(0x32663c5b), 0x12dcbfdb, SmallSigma0(0x00000000), 0x00000000) == 0xec8726cb;
    NextWord(b, 30);
    assert Sum4(SmallSigma1(0x9d209d67), 0xe2e2c38e, SmallSigma0(0x00000018), 0x00000000) == 0x702138a4;
    NextWord(b, 31);
    assert Sum4(SmallSigma1(0xec8726cb), 0xc8215c1a, SmallSigma0(0x61626380), 0x00000018) == 0xd3b7973b;
  }

  lemma AbcWords32To39(b: Bytes)
    requires HasWords(b)
    ensures W(b, 32) == 0x93f5997f && W(b, 33) == 0x3b68ba73 && W(b, 34) == 0xaff4ffc1 && W(b, 35) == 0xf10a5c62
    ensures W(b, 36) == 0x0a8b3996 && W(b, 37) == 0x72af830a && W(b, 38) == 0x9409e33e && W(b, 39) == 0x24641522
  {
    hide W, HasWords;
    AbcWords16To23(b);
    AbcWords24To31(b);
    NextWord(b, 32);
    assert Sum4(SmallSigma1(0x702138a4), 0xb73679a2, SmallSigma0(0x000f0000), 0x61626380) == 0x93f5997f;
    NextWord(b, 33);
    assert Sum4(SmallSigma1(0xd3b7973b), 0xe5bc3909, SmallSigma0(0x7da86405), 0x000f0000) == 0x3b68ba73;
    NextWord(b, 34);
    assert Sum4(SmallSigma1(0x93f5997f), 0x32663c5b, SmallSigma0(0x600003c6), 0x7da86405) == 0xaff4ffc1;
    NextWord(b, 35);
    assert Sum4(SmallSigma1(0x3b68ba73), 0x9d209d67, SmallSigma0(0x3e9d7b78), 0x600003c6) == 0xf10a5c62;
    NextWord(b, 36);
    assert Sum4(SmallSigma1(0xaff4ffc1), 0xec8726cb, SmallSigma0(0x0183fc00), 0x3e9d7b78) == 0x0a8b3996;
    NextWord(b, 37);
    assert Sum4(SmallSigma1(0xf10a5c62), 0x702138a4, SmallSigma0(0x12dcbfdb), 0x0183fc00) == 0x72af830a;
    NextWord(b, 38);
    assert Sum4(SmallSigma1(0x0a8b3996), 0xd3b7973b, SmallSigma0(0xe2e2c38e), 0x12dcbfdb) == 0x9409e33e;
    NextWord(b, 39);
    assert Sum4(SmallSigma1(0x72af830a), 0x93f5997f, SmallSigma0(0xc8215c1a), 0xe2e2c38e) == 0x24641522;
  }

  lemma AbcWords40To47(b: Bytes)
    requires HasWords(b)
    ensures W(b, 40) == 0x9f47bf94 && W(b, 41) == 0xf0a64f5a && W(b, 42) == 0x3e246a79 && W(b, 43) == 0x27333ba3
    ensures W(b, 44) == 0x0c4763f2 && W(b, 45) == 0x840abf27 && W(b, 46) == 0x7a290d5d && W(b, 47) == 0x065c43da
  {
    hide W, HasWords;
    AbcWords24To31(b);
    AbcWords32To39(b);
    NextWord(b, 40);
    assert Sum4(SmallSigma1(0x9409e33e), 0x3b68ba73, SmallSigma0(0xb73679a2), 0xc8215c1a) == 0x9f47bf94;
    NextWord(b, 41);
    assert Sum4(SmallSigma1(0x24641522), 0xaff4ffc1, SmallSigma0(0xe5bc3909), 0xb73679a2) == 0xf0a64f5a;
    NextWord(b, 42);
    assert Sum4(SmallSigma1(0x9f47bf94), 0xf10a5c62, SmallSigma0(0x32663c5b), 0xe5bc3909) == 0x3e246a79;
    NextWord(b, 43);
    assert Sum4(SmallSigma1(0xf0a64f5a), 0x0a8b3996, SmallSigma0(0x9d209d67), 0x32663c5b) == 0x27333ba3;
    NextWord(b, 44);
    assert Sum4(SmallSigma1(0x3e246a79), 0x72af830a, SmallSigma0(0xec8726cb), 0x9d209d67) == 0x0c4763f2;
    NextWord(b, 45);
    assert Sum4(SmallSigma1(0x27333ba3), 0x9409e33e, SmallSigma0(0x702138a4), 0xec8726cb) == 0x840abf27;
    NextWord(b, 46);
    assert Sum4(SmallSigma1(0x0c4763f2), 0x24641522, SmallSigma0(0xd3b7973b), 0x702138a4) == 0x7a290d5d;
    NextWord(b, 47);
    assert Sum4(SmallSigma1(0x840abf27), 0x9f47bf94, SmallSigma0(0x93f5997f), 0xd3b7973b) == 0x065c43da;
  }

  lemma AbcWords48To55(b: Bytes)
    requires HasWords(b)
    ensures W(b, 48) == 0xfb3e89cb && W(b, 49) == 0xcc7617db && W(b, 50) == 0xb9e66c34 && W(b, 51) == 0xa9993667
    ensures W(b, 52) == 0x84badedd && W(b, 53) == 0xc21462bc && W(b, 54) == 0x1487472c && W(b, 55) == 0xb20f7a99
  {
    hide W, HasWords;
    AbcWords32To39(b);
    AbcWords40To47(b);
    NextWord(b, 48);
    assert Sum4(SmallSigma1(0x7a290d5d), 0xf0a64f5a, SmallSigma0(0x3b68ba73), 0x93f5997f) == 0xfb3e89cb;
    NextWord(b, 49);
    assert Sum4(SmallSigma1(0x065c43da), 0x3e246a79, SmallSigma0(0xaff4ffc1), 0x3b68ba73) == 0xcc7617db;
    NextWord(b, 50);
    assert Sum4(SmallSigma1(0xfb3e89cb), 0x27333ba3, SmallSigma0(0xf10a5c62), 0xaff4ffc1) == 0xb9e66c34;
    NextWord(b, 51);
    assert Sum4(SmallSigma1(0xcc7617db), 0x0c4763f2, SmallSigma0(0x0a8b3996), 0xf10a5c62) == 0xa9993667;
    NextWord(b, 52);
    assert Sum4(SmallSigma1(0xb9e66c34), 0x840abf27, SmallSigma0(0x72af830a), 0x0a8b3996) == 0x84badedd;
    NextWord(b, 53);
    assert Sum4(SmallSigma1(0xa9993667), 0x7a290d5d, SmallSigma0(0x9409e33e), 0x72af830a) == 0xc21462bc;
    NextWord(b, 54);
    assert Sum4(SmallSigma1(0x84badedd), 0x065c43da, SmallSigma0(0x24641522), 0x9409e33e) == 0x1487472c;
    NextWord(b, 55);
    assert Sum4(SmallSigma1(0xc21462bc), 0xfb3e89cb, SmallSigma0(0x9f47bf94), 0x24641522) == 0xb20f7a99;
  }

  lemma AbcWords56To63(b: Bytes)
    requires HasWords(b)
    ensures W(b, 56) == 0xef57b9cd && W(b, 57) == 0xebe6b238 && W(b, 58) == 0x9fe3095e && W(b, 59) == 0x78bc8d4b
    ensures W(b, 60) == 0xa43fcf15 && W(b, 61) == 0x668b2ff8 && W(b, 62) == 0xeeaba2cc && W(b, 63) == 0x12b1edeb
  {
    hide W, HasWords;
    AbcWords40To47(b);
    AbcWords48To55(b);
    NextWord(b, 56);
    assert Sum4(SmallSigma1(0x1487472c), 0xcc7617db, SmallSigma0(0xf0a64f5a), 0x9f47bf94) == 0xef57b9cd;
    NextWord(b, 57);
    assert Sum4(SmallSigma1(0xb20f7a99), 0xb9e66c34, SmallSigma0(0x3e246a79), 0xf0a64f5a) == 0xebe6b238;
    NextWord(b, 58);
    assert Sum4(SmallSigma1(0xef57b9cd), 0xa9993667, SmallSigma0(0x27333ba3), 0x3e246a79) == 0x9fe3095e;
    NextWord(b, 59);
    assert Sum4(SmallSigma1(0xebe6b238), 0x84badedd, SmallSigma0(0x0c4763f2), 0x27333ba3) == 0x78bc8d4b;
    NextWord(b, 60);
    assert Sum4(SmallSigma1(0x9fe3095e), 0xc21462bc, SmallSigma0(0x840abf27), 0x0c4763f2) == 0xa43fcf15;
    NextWord(b, 61);
    assert Sum4(SmallSigma1(0x78bc8d4b), 0x1487472c, SmallSigma0(0x7a290d5d), 0x840abf27) == 0x668b2ff8;
    NextWord(b, 62);
    assert Sum4(SmallSigma1(0xa43fcf15), 0xb20f7a99, SmallSigma0(0x065c43da), 0x7a290d5d) == 0xeeaba2cc;
    NextWord(b, 63);
    assert Sum4(SmallSigma1(0x668b2ff8), 0xef57b9cd, SmallSigma0(0xfb3e89cb), 0x065c43da) == 0x12b1edeb;
  }

  lemma NextRounds(b: Bytes, n: nat)
    requires HasWords(b)
    ensures Rounds(Initial(), b, 0) == Initial()
    ensures Rounds(Initial(), b, n + 1) == Round(Rounds(Initial(), b, n), n, W(b, n))
  {
    hide Initial, W, Round, BlockWord;
  }

  lemma AbcInitial()
    ensures Initial() == Hash(0x6a09e667, 0xbb67ae85, 0x3c6ef372, 0xa54ff53a,
                           0x510e527f, 0x9b05688c, 0x1f83d9ab, 0x5be0cd19)
  {
  }

  lemma AbcConstants0()
    ensures K(0) == 0x428a2f98 && K(1) == 0x71374491 && K(2) == 0xb5c0fbcf && K(3) == 0xe9b5dba5
    ensures K(4) == 0x3956c25b && K(5) == 0x59f111f1 && K(6) == 0x923f82a4 && K(7) == 0xab1c5ed5
  {
  }

  lemma AbcRounds8(b: Bytes)
    requires HasWords(b)
    ensures Rounds(Initial(), b, 8)
         == Hash(0x85a07b5f, 0xe5030380, 0x2b4209f5, 0x04409a6a,
                 0x0c657a79, 0x9b27a401, 0x714260ad, 0x43ada245)
  {
    hide W, K, Initial, HasWords, Rounds;
    AbcInitial();
    AbcWords0To7(b);
    AbcConstants0();
    NextRounds(b, 0);
    assert Round(Hash(0x6a09e667, 0xbb67ae85, 0x3c6ef372, 0xa54ff53a,
                      0x510e527f, 0x9b05688c, 0x1f83d9ab, 0x5be0cd19), 0, 0x61626380)
           == Hash(0x5d6aebcd, 0x6a09e667, 0xbb67ae85, 0x3c6ef372, 0xfa2a4622, 0x510e527f, 0x9b05688c, 0x1f83d9ab);
    NextRounds(b, 1);
    assert Round(Hash(0x5d6aebcd, 0x6a09e667, 0xbb67ae85, 0x3c6ef372,
                      0xfa2a4622, 0x510e527f, 0x9b05688c, 0x1f83d9ab), 1, 0x00000000)
           == Hash(0x5a6ad9ad, 0x5d6aebcd, 0x6a09e667, 0xbb67ae85, 0x78ce7989, 0xfa2a4622, 0x510e527f, 0x9b05688c);
    NextRounds(b, 2);
    assert Round(Hash(0x5a6ad9ad, 0x5d6aebcd, 0x6a09e667, 0xbb67ae85,
                      0x78ce7989, 0xfa2a4622, 0x510e527f, 0x9b05688c), 2, 0x00000000)
           == Hash(0xc8c347a7, 0x5a6ad9ad, 0x5d6aebcd, 0x6a09e667, 0xf92939eb, 0x78ce7989, 0xfa2a4622, 0x510e527f);
    NextRounds(b, 3);
    assert Round(Hash(0xc8c347a7, 0x5a6ad9ad, 0x5d6aebcd, 0x6a09e667,
                      0xf92939eb, 0x78ce7989, 0xfa2a4622, 0x510e527f), 3, 0x00000000)
           == Hash(0xd550f666, 0xc8c347a7, 0x5a6ad9ad, 0x5d6aebcd, 0x24e00850, 0xf92939eb, 0x78ce7989, 0xfa2a4622);
    NextRounds(b, 4);
    assert Round(Hash(0xd550f666, 0xc8c347a7, 0x5a6ad9ad, 0x5d6aebcd,
                      0x24e00850, 0xf92939eb, 0x78ce7989, 0xfa2a4622), 4, 0x00000000)
           == Hash(0x04409a6a, 0xd550f666, 0xc8c347a7, 0x5a6ad9ad, 0x43ada245, 0x24e00850, 0xf92939eb, 0x78ce7989);
    NextRounds(b, 5);
    assert Round(Hash(0x04409a6a, 0xd550f666, 0xc8c347a7, 0x5a6ad9ad,
                      0x43ada245, 0x24e00850, 0xf92939eb, 0x78ce7989), 5, 0x00000000)
           == Hash(0x2b4209f5, 0x04409a6a, 0xd550f666, 0xc8c347a7, 0x714260ad, 0x43ada245, 0x24e00850, 0xf92939eb);
    NextRounds(b, 6);
    assert Round(Hash(0x2b4209f5, 0x04409a6a, 0xd550f666, 0xc8c347a7,
                      0x714260ad, 0x43ada245, 0x24e00850, 0xf92939eb), 6, 0x00000000)
           == Hash(0xe5030380, 0x2b4209f5, 0x04409a6a, 0xd550f666, 0x9b27a401, 0x714260ad, 0x43ada245, 0x24e00850);
    NextRounds(b, 7);
    assert Round(Hash(0xe5030380, 0x2b4209f5, 0x04409a6a, 0xd550f666,
                      0x9b27a401, 0x714260ad, 0x43ada245, 0x24e00850), 7, 0x00000000)
           == Hash(0x85a07b5f, 0xe5030380, 0x2b4209f5, 0x04409a6a, 0x0c657a79, 0x9b27a401, 0x714260ad, 0x43ada245);
  }

  lemma AbcConstants8()
    ensures K(8) == 0xd807aa98 && K(9) == 0x12835b01 && K(10) == 0x243185be && K(11) == 0x550c7dc3
    ensures K(12) == 0x72be5d74 && K(13) == 0x80deb1fe && K(14) == 0x9bdc06a7 && K(15) == 0xc19bf174
  {
  }

  lemma AbcRounds16(b: Bytes)
    requires HasWords(b)
    ensures Rounds(Initial(), b, 16)
         == Hash(0xb0fa238e, 0xc0645fde, 0xd932eb16, 0x87912990,
                 0x07590dcd, 0x0b92f20c, 0x745a48de, 0x1e578218)
  {
    hide W, K, Initial, HasWords, Rounds;
    AbcRounds8(b);
    AbcWords8To15(b);
    AbcConstants8();
    NextRounds(b, 8);
    assert Round(Hash(0x85a07b5f, 0xe5030380, 0x2b4209f5, 0x04409a6a,
                      0x0c657a79, 0x9b27a401, 0x714260ad, 0x43ada245), 8, 0x00000000)
           == Hash(0x8e04ecb9, 0x85a07b5f, 0xe5030380, 0x2b4209f5, 0x32ca2d8c, 0x0c657a79, 0x9b27a401, 0x714260ad);
    NextRounds(b, 9);
    assert Round(Hash(0x8e04ecb9, 0x85a07b5f, 0xe5030380, 0x2b4209f5,
                      0x32ca2d8c, 0x0c657a79, 0x9b27a401, 0x714260ad), 9, 0x00000000)
           == Hash(0x8c87346b, 0x8e04ecb9, 0x85a07b5f, 0xe5030380, 0x1cc92596, 0x32ca2d8c, 0x0c657a79, 0x9b27a401);
    NextRounds(b, 10);
    assert Round(Hash(0x8c87346b, 0x8e04ecb9, 0x85a07b5f, 0xe5030380,
                      0x1cc92596, 0x32ca2d8c, 0x0c657a79, 0x9b27a401), 10, 0x00000000)
           == Hash(0x4798a3f4, 0x8c87346b, 0x8e04ecb9, 0x85a07b5f, 0x436b23e8, 0x1cc92596, 0x32ca2d8c, 0x0c657a79);
    NextRounds(b, 11);
    assert Round(Hash(0x4798a3f4, 0x8c87346b, 0x8e04ecb9, 0x85a07b5f,
                      0x436b23e8, 0x1cc92596, 0x32ca2d8c, 0x0c657a79), 11, 0x00000000)
           == Hash(0xf71fc5a9, 0x4798a3f4, 0x8c87346b, 0x8e04ecb9, 0x816fd6e9, 0x436b23e8, 0x1cc92596, 0x32ca2d8c);
    NextRounds(b, 12);
    assert Round(Hash(0xf71fc5a9, 0x4798a3f4, 0x8c87346b, 0x8e04ecb9,
                      0x816fd6e9, 0x436b23e8, 0x1cc92596, 0x32ca2d8c), 12, 0x00000000)
           == Hash(0x87912990, 0xf71fc5a9, 0x4798a3f4, 0x8c87346b, 0x1e578218, 0x816fd6e9, 0x436b23e8, 0x1cc92596);
    NextRounds(b, 13);
    assert Round(Hash(0x87912990, 0xf71fc5a9, 0x4798a3f4, 0x8c87346b,
                      0x1e578218, 0x816fd6e9, 0x436b23e8, 0x1cc92596), 13, 0x00000000)
           == Hash(0xd932eb16, 0x87912990, 0xf71fc5a9, 0x4798a3f4, 0x745a48de, 0x1e578218, 0x816fd6e9, 0x436b23e8);
    NextRounds(b, 14);
    assert Round(Hash(0xd932eb16, 0x87912990, 0xf71fc5a9, 0x4798a3f4,
                      0x745a48de, 0x1e578218, 0x816fd6e9, 0x436b23e8), 14, 0x00000000)
           == Hash(0xc0645fde, 0xd932eb16, 0x87912990, 0xf71fc5a9, 0x0b92f20c, 0x745a48de, 0x1e578218, 0x816fd6e9);
    NextRounds(b, 15);
    assert Round(Hash(0xc0645fde, 0xd932eb16, 0x87912990, 0xf71fc5a9,
                      0x0b92f20c, 0x745a48de, 0x1e578218, 0x816fd6e9), 15, 0x00000018)
           == Hash(0xb0fa238e, 0xc0645fde, 0xd932eb16, 0x87912990, 0x07590dcd, 0x0b92f20c, 0x745a48de, 0x1e578218);
  }

  lemma AbcConstants16()
    ensures K(16) == 0xe49b69c1 && K(17) == 0xefbe4786 && K(18) == 0x0fc19dc6 && K(19) == 0x240ca1cc
    ensures K(20) == 0x2de92c6f && K(21) == 0x4a7484aa && K(22) == 0x5cb0a9dc && K(23) == 0x76f988da
  {
  }

  lemma AbcRounds24(b: Bytes)
    requires HasWords(b)
    ensures Rounds(Initial(), b, 24)
         == Hash(0xc5d53d8d, 0xa7a3623f, 0xc2606d6d, 0x9dc68b63,
                 0xaa47c347, 0x49f5114a, 0xe1257970, 0x8ada8930)
  {
    hide W, K, Initial, HasWords, Rounds;
    AbcRounds16(b);
    AbcWords16To23(b);
    AbcConstants16();
    NextRounds(b, 16);
    assert Round(Hash(0xb0fa238e, 0xc0645fde, 0xd932eb16, 0x87912990,
                      0x07590dcd, 0x0b92f20c, 0x745a48de, 0x1e578218), 16, 0x61626380)
           == Hash(0x21da9a9b, 0xb0fa238e, 0xc0645fde, 0xd932eb16, 0x8034229c, 0x07590dcd, 0x0b92f20c, 0x745a48de);
    NextRounds(b, 17);
    assert Round(Hash(0x21da9a9b, 0xb0fa238e, 0xc0645fde, 0xd932eb16,
                      0x8034229c, 0x07590dcd, 0x0b92f20c, 0x745a48de), 17, 0x000f0000)
           == Hash(0xc2fbd9d1, 0x21da9a9b, 0xb0fa238e, 0xc0645fde, 0x846ee454, 0x8034229c, 0x07590dcd, 0x0b92f20c);
    NextRounds(b, 18);
    assert Round(Hash(0xc2fbd9d1, 0x21da9a9b, 0xb0fa238e, 0xc0645fde,
                      0x846ee454, 0x8034229c, 0x07590dcd, 0x0b92f20c), 18, 0x7da86405)
           == Hash(0xfe777bbf, 0xc2fbd9d1, 0x21da9a9b, 0xb0fa238e, 0xcc899961, 0x846ee454, 0x8034229c, 0x07590dcd);
    NextRounds(b, 19);
    assert Round(Hash(0xfe777bbf, 0xc2fbd9d1, 0x21da9a9b, 0xb0fa238e,
                      0xcc899961, 0x846ee454, 0x8034229c, 0x07590dcd), 19, 0x600003c6)
           == Hash(0xe1f20c33, 0xfe777bbf, 0xc2fbd9d1, 0x21da9a9b, 0xb0638179, 0xcc899961, 0x846ee454, 0x8034229c);
    NextRounds(b, 20);
    assert Round(Hash(0xe1f20c33, 0xfe777bbf, 0xc2fbd9d1, 0x21da9a9b,
                      0xb0638179, 0xcc899961, 0x846ee454, 0x8034229c), 20, 0x3e9d7b78)
           == Hash(0x9dc68b63, 0xe1f20c33, 0xfe777bbf, 0xc2fbd9d1, 0x8ada8930, 0xb0638179, 0xcc899961, 0x846ee454);
    NextRounds(b, 21);
    assert Round(Hash(0x9dc68b63, 0xe1f20c33, 0xfe777bbf, 0xc2fbd9d1,
                      0x8ada8930, 0xb0638179, 0xcc899961, 0x846ee454), 21, 0x0183fc00)
           == Hash(0xc2606d6d, 0x9dc68b63, 0xe1f20c33, 0xfe777bbf, 0xe1257970, 0x8ada8930, 0xb0638179, 0xcc899961);
    NextRounds(b, 22);
    assert Round(Hash(0xc2606d6d, 0x9dc68b63, 0xe1f20c33, 0xfe777bbf,
                      0xe1257970, 0x8ada8930, 0xb0638179, 0xcc899961), 22, 0x12dcbfdb)
           == Hash(0xa7a3623f, 0xc2606d6d, 0x9dc68b63, 0xe1f20c33, 0x49f5114a, 0xe1257970, 0x8ada8930, 0xb0638179);
    NextRounds(b, 23);
    assert Round(Hash(0xa7a3623f, 0xc2606d6d, 0x9dc68b63, 0xe1f20c33,
                      0x49f5114a, 0xe1257970, 0x8ada8930, 0xb0638179), 23, 0xe2e2c38e)
           == Hash(0xc5d53d8d, 0xa7a3623f, 0xc2606d6d, 0x9dc68b63, 0xaa47c347, 0x49f5114a, 0xe1257970, 0x8ada8930);
  }

  lemma AbcConstants24()
    ensures K(24) == 0x983e5152 && K(25) == 0xa831c66d && K(26) == 0xb00327c8 && K(27) == 0xbf597fc7
    ensures K(28) == 0xc6e00bf3 && K(29) == 0xd5a79147 && K(30) == 0x06ca6351 && K(31) == 0x14292967
  {
  }

  lemma AbcRounds32(b: Bytes)
    requires HasWords(b)
    ensures Rounds(Initial(), b, 32)
         == Hash(0x73b33bf5, 0xea992a22, 0xa0060b30, 0x363482c9,
                 0xba591112, 0x0109ab3a, 0xade79437, 0x6112a3b7)
  {
    hide W, K, Initial, HasWords, Rounds;
    AbcRounds24(b);
    AbcWords24To31(b);
    AbcConstants24();
    NextRounds(b, 24);
    assert Round(Hash(0xc5d53d8d, 0xa7a3623f, 0xc2606d6d, 0x9dc68b63,
                      0xaa47c347, 0x49f5114a, 0xe1257970, 0x8ada8930), 24, 0xc8215c1a)
           == Hash(0x1c2c2838, 0xc5d53d8d, 0xa7a3623f, 0xc2606d6d, 0x2823ef91, 0xaa47c347, 0x49f5114a, 0xe1257970);
    NextRounds(b, 25);
    assert Round(Hash(0x1c2c2838, 0xc5d53d8d, 0xa7a3623f, 0xc2606d6d,
                      0x2823ef91, 0xaa47c347, 0x49f5114a, 0xe1257970), 25, 0xb73679a2)
           == Hash(0xcde8037d, 0x1c2c2838, 0xc5d53d8d, 0xa7a3623f, 0x14383d8e, 0x2823ef91, 0xaa47c347, 0x49f5114a);
    NextRounds(b, 26);
    assert Round(Hash(0xcde8037d, 0x1c2c2838, 0xc5d53d8d, 0xa7a3623f,
                      0x14383d8e, 0x2823ef91, 0xaa47c347, 0x49f5114a), 26, 0xe5bc3909)
           == Hash(0xb62ec4bc, 0xcde8037d, 0x1c2c2838, 0xc5d53d8d, 0xc74c6516, 0x14383d8e, 0x2823ef91, 0xaa47c347);
    NextRounds(b, 27);
    assert Round(Hash(0xb62ec4bc, 0xcde8037d, 0x1c2c2838, 0xc5d53d8d,
                      0xc74c6516, 0x14383d8e, 0x2823ef91, 0xaa47c347), 27, 0x32663c5b)
           == Hash(0x77d37528, 0xb62ec4bc, 0xcde8037d, 0x1c2c2838, 0xedffbff8, 0xc74c6516, 0x14383d8e, 0x2823ef91);
    NextRounds(b, 28);
    assert Round(Hash(0x77d37528, 0xb62ec4bc, 0xcde8037d, 0x1c2c2838,
                      0xedffbff8, 0xc74c6516, 0x14383d8e, 0x2823ef91), 28, 0x9d209d67)
           == Hash(0x363482c9, 0x77d37528, 0xb62ec4bc, 0xcde8037d, 0x6112a3b7, 0xedffbff8, 0xc74c6516, 0x14383d8e);
    NextRounds(b, 29);
    assert Round(Hash(0x363482c9, 0x77d37528, 0xb62ec4bc, 0xcde8037d,
                      0x6112a3b7, 0xedffbff8, 0xc74c6516, 0x14383d8e), 29, 0xec8726cb)
           == Hash(0xa0060b30, 0x363482c9, 0x77d37528, 0xb62ec4bc, 0xade79437, 0x6112a3b7, 0xedffbff8, 0xc74c6516);
    NextRounds(b, 30);
    assert Round(Hash(0xa0060b30, 0x363482c9, 0x77d37528, 0xb62ec4bc,
                      0xade79437, 0x6112a3b7, 0xedffbff8, 0xc74c6516), 30, 0x702138a4)
           == Hash(0xea992a22, 0xa0060b30, 0x363482c9, 0x77d37528, 0x0109ab3a, 0xade79437, 0x6112a3b7, 0xedffbff8);
    NextRounds(b, 31);
    assert Round(Hash(0xea992a22, 0xa0060b30, 0x363482c9, 0x77d37528,
                      0x0109ab3a, 0xade79437, 0x6112a3b7, 0xedffbff8), 31, 0xd3b7973b)
           == Hash(0x73b33bf5, 0xea992a22, 0xa0060b30, 0x363482c9, 0xba591112, 0x0109ab3a, 0xade79437, 0x6112a3b7);
  }

  lemma AbcConstants32()
    ensures K(32) == 0x27b70a85 && K(33) == 0x2e1b2138 && K(34) == 0x4d2c6dfc && K(35) == 0x53380d13
    ensures K(36) == 0x650a7354 && K(37) == 0x766a0abb && K(38) == 0x81c2c92e && K(39) == 0x92722c85
  {
  }

  lemma AbcRounds40(b: Bytes)
    requires HasWords(b)
    ensures Rounds(Initial(), b, 40)
         == Hash(0x79ea687a, 0x6dc57a8a, 0x34df1604, 0x41a65cb1,
                 0x1efbc0a0, 0xf0781bc8, 0xa507a53d, 0x0772a26b)
  {
    hide W, K, Initial, HasWords, Rounds;
    AbcRounds32(b);
    AbcWords32To39(b);
    AbcConstants32();
    NextRounds(b, 32);
    assert Round(Hash(0x73b33bf5, 0xea992a22, 0xa0060b30, 0x363482c9,
                      0xba591112, 0x0109ab3a, 0xade79437, 0x6112a3b7), 32, 0x93f5997f)
           == Hash(0x98e12507, 0x73b33bf5, 0xea992a22, 0xa0060b30, 0x9cd9f5f6, 0xba591112, 0x0109ab3a, 0xade79437);
    NextRounds(b, 33);
    assert Round(Hash(0x98e12507, 0x73b33bf5, 0xea992a22, 0xa0060b30,
                      0x9cd9f5f6, 0xba591112, 0x0109ab3a, 0xade79437), 33, 0x3b68ba73)
           == Hash(0xfe604df5, 0x98e12507, 0x73b33bf5, 0xea992a22, 0x59249dd3, 0x9cd9f5f6, 0xba591112, 0x0109ab3a);
    NextRounds(b, 34);
    assert Round(Hash(0xfe604df5, 0x98e12507, 0x73b33bf5, 0xea992a22,
                      0x59249dd3, 0x9cd9f5f6, 0xba591112, 0x0109ab3a), 34, 0xaff4ffc1)
           == Hash(0xa9a7738c, 0xfe604df5, 0x98e12507, 0x73b33bf5, 0x085f3833, 0x59249dd3, 0x9cd9f5f6, 0xba591112);
    NextRounds(b, 35);
    assert Round(Hash(0xa9a7738c, 0xfe604df5, 0x98e12507, 0x73b33bf5,
                      0x085f3833, 0x59249dd3, 0x9cd9f5f6, 0xba591112), 35, 0xf10a5c62)
           == Hash(0x65a0cfe4, 0xa9a7738c, 0xfe604df5, 0x98e12507, 0xf4b002d6, 0x085f3833, 0x59249dd3, 0x9cd9f5f6);
    NextRounds(b, 36);
    assert Round(Hash(0x65a0cfe4, 0xa9a7738c, 0xfe604df5, 0x98e12507,
                      0xf4b002d6, 0x085f3833, 0x59249dd3, 0x9cd9f5f6), 36, 0x0a8b3996)
           == Hash(0x41a65cb1, 0x65a0cfe4, 0xa9a7738c, 0xfe604df5, 0x0772a26b, 0xf4b002d6, 0x085f3833, 0x59249dd3);
    NextRounds(b, 37);
    assert Round(Hash(0x41a65cb1, 0x65a0cfe4, 0xa9a7738c, 0xfe604df5,
                      0x0772a26b, 0xf4b002d6, 0x085f3833, 0x59249dd3), 37, 0x72af830a)
           == Hash(0x34df1604, 0x41a65cb1, 0x65a0cfe4, 0xa9a7738c, 0xa507a53d, 0x0772a26b, 0xf4b002d6, 0x085f3833);
    NextRounds(b, 38);
    assert Round(Hash(0x34df1604, 0x41a65cb1, 0x65a0cfe4, 0xa9a7738c,
                      0xa507a53d, 0x0772a26b, 0xf4b002d6, 0x085f3833), 38, 0x9409e33e)
           == Hash(0x6dc57a8a, 0x34df1604, 0x41a65cb1, 0x65a0cfe4, 0xf0781bc8, 0xa507a53d, 0x0772a26b, 0xf4b002d6);
    NextRounds(b, 39);
    assert Round(Hash(0x6dc57a8a, 0x34df1604, 0x41a65cb1, 0x65a0cfe4,
                      0xf0781bc8, 0xa507a53d, 0x0772a26b, 0xf4b002d6), 39, 0x24641522)
           == Hash(0x79ea687a, 0x6dc57a8a, 0x34df1604, 0x41a65cb1, 0x1efbc0a0, 0xf0781bc8, 0xa507a53d, 0x0772a26b);
  }

  lemma AbcConstants40()
    ensures K(40) == 0xa2bfe8a1 && K(41) == 0xa81a664b && K(42) == 0xc24b8b70 && K(43) == 0xc76c51a3
    ensures K(44) == 0xd192e819 && K(45) == 0xd6990624 && K(46) == 0xf40e3585 && K(47) == 0x106aa070
  {
  }

  lemma AbcRounds48(b: Bytes)
    requires HasWords(b)
    ensures Rounds(Initial(), b, 48)
         == Hash(0x4172328d, 0xa14c14b0, 0x72ab4b91, 0x26628815,
                 0xfecf0bc6, 0xd57b94a9, 0xb7755da1, 0xa80f11f0)
  {
    hide W, K, Initial, HasWords, Rounds;
    AbcRounds40(b);
    AbcWords40To47(b);
    AbcConstants40();
    NextRounds(b, 40);
    assert Round(Hash(0x79ea687a, 0x6dc57a8a, 0x34df1604, 0x41a65cb1,
                      0x1efbc0a0, 0xf0781bc8, 0xa507a53d, 0x0772a26b), 40, 0x9f47bf94)
           == Hash(0xd6670766, 0x79ea687a, 0x6dc57a8a, 0x34df1604, 0x26352d63, 0x1efbc0a0, 0xf0781bc8, 0xa507a53d);
    NextRounds(b, 41);
    assert Round(Hash(0xd6670766, 0x79ea687a, 0x6dc57a8a, 0x34df1604,
                      0x26352d63, 0x1efbc0a0, 0xf0781bc8, 0xa507a53d), 41, 0xf0a64f5a)
           == Hash(0xdf46652f, 0xd6670766, 0x79ea687a, 0x6dc57a8a, 0x838b2711, 0x26352d63, 0x1efbc0a0, 0xf0781bc8);
    NextRounds(b, 42);
    assert Round(Hash(0xdf46652f, 0xd6670766, 0x79ea687a, 0x6dc57a8a,
                      0x838b2711, 0x26352d63, 0x1efbc0a0, 0xf0781bc8), 42, 0x3e246a79)
           == Hash(0x17aa0dfe, 0xdf46652f, 0xd6670766, 0x79ea687a, 0xdecd4715, 0x838b2711, 0x26352d63, 0x1efbc0a0);
    NextRounds(b, 43);
    assert Round(Hash(0x17aa0dfe, 0xdf46652f, 0xd6670766, 0x79ea687a,
                      0xdecd4715, 0x838b2711, 0x26352d63, 0x1efbc0a0), 43, 0x27333ba3)
           == Hash(0x9d4baf93, 0x17aa0dfe, 0xdf46652f, 0xd6670766, 0xfda24c2e, 0xdecd4715, 0x838b2711, 0x26352d63);
    NextRounds(b, 44);
    assert Round(Hash(0x9d4baf93, 0x17aa0dfe, 0xdf46652f, 0xd6670766,
                      0xfda24c2e, 0xdecd4715, 0x838b2711, 0x26352d63), 44, 0x0c4763f2)
           == Hash(0x26628815, 0x9d4baf93, 0x17aa0dfe, 0xdf46652f, 0xa80f11f0, 0xfda24c2e, 0xdecd4715, 0x838b2711);
    NextRounds(b, 45);
    assert Round(Hash(0x26628815, 0x9d4baf93, 0x17aa0dfe, 0xdf46652f,
                      0xa80f11f0, 0xfda24c2e, 0xdecd4715, 0x838b2711), 45, 0x840abf27)
           == Hash(0x72ab4b91, 0x26628815, 0x9d4baf93, 0x17aa0dfe, 0xb7755da1, 0xa80f11f0, 0xfda24c2e, 0xdecd4715);
    NextRounds(b, 46);
    assert Round(Hash(0x72ab4b91, 0x26628815, 0x9d4baf93, 0x17aa0dfe,
                      0xb7755da1, 0xa80f11f0, 0xfda24c2e, 0xdecd4715), 46, 0x7a290d5d)
           == Hash(0xa14c14b0, 0x72ab4b91, 0x26628815, 0x9d4baf93, 0xd57b94a9, 0xb7755da1, 0xa80f11f0, 0xfda24c2e);
    NextRounds(b, 47);
    assert Round(Hash(0xa14c14b0, 0x72ab4b91, 0x26628815, 0x9d4baf93,
                      0xd57b94a9, 0xb7755da1, 0xa80f11f0, 0xfda24c2e), 47, 0x065c43da)
           == Hash(0x4172328d, 0xa14c14b0, 0x72ab4b91, 0x26628815, 0xfecf0bc6, 0xd57b94a9, 0xb7755da1, 0xa80f11f0);
  }

  lemma AbcConstants48()
    ensures K(48) == 0x19a4c116 && K(49) == 0x1e376c08 && K(50) == 0x2748774c && K(51) == 0x34b0bcb5
    ensures K(52) == 0x391c0cb3 && K(53) == 0x4ed8aa4a && K(54) == 0x5b9cca4f && K(55) == 0x682e6ff3
  {
  }

  lemma AbcRounds56(b: Bytes)
    requires HasWords(b)
    ensures Rounds(Initial(), b, 56)
         == Hash(0x38cc9913, 0x3ec45cdb, 0xf5702fdb, 0x101fd28f,
                 0x54cb266b, 0xe50e1b4f, 0x9f4787c3, 0x529e7d00)
  {
    hide W, K, Initial, HasWords, Rounds;
    AbcRounds48(b);
    AbcWords48To55(b);
    AbcConstants48();
    NextRounds(b, 48);
    assert Round(Hash(0x4172328d, 0xa14c14b0, 0x72ab4b91, 0x26628815,
                      0xfecf0bc6, 0xd57b94a9, 0xb7755da1, 0xa80f11f0), 48, 0xfb3e89cb)
           == Hash(0x05757ceb, 0x4172328d, 0xa14c14b0, 0x72ab4b91, 0xbd714038, 0xfecf0bc6, 0xd57b94a9, 0xb7755da1);
    NextRounds(b, 49);
    assert Round(Hash(0x05757ceb, 0x4172328d, 0xa14c14b0, 0x72ab4b91,
                      0xbd714038, 0xfecf0bc6, 0xd57b94a9, 0xb7755da1), 49, 0xcc7617db)
           == Hash(0xf11bfaa8, 0x05757ceb, 0x4172328d, 0xa14c14b0, 0x6e5c390c, 0xbd714038, 0xfecf0bc6, 0xd57b94a9);
    NextRounds(b, 50);
    assert Round(Hash(0xf11bfaa8, 0x05757ceb, 0x4172328d, 0xa14c14b0,
                      0x6e5c390c, 0xbd714038, 0xfecf0bc6, 0xd57b94a9), 50, 0xb9e66c34)
           == Hash(0x7a0508a1, 0xf11bfaa8, 0x05757ceb, 0x4172328d, 0x52f1ccf7, 0x6e5c390c, 0xbd714038, 0xfecf0bc6);
    NextRounds(b, 51);
    assert Round(Hash(0x7a0508a1, 0xf11bfaa8, 0x05757ceb, 0x4172328d,
                      0x52f1ccf7, 0x6e5c390c, 0xbd714038, 0xfecf0bc6), 51, 0xa9993667)
           == Hash(0x886e7a22, 0x7a0508a1, 0xf11bfaa8, 0x05757ceb, 0x49231c1e, 0x52f1ccf7, 0x6e5c390c, 0xbd714038);
    NextRounds(b, 52);
    assert Round(Hash(0x886e7a22, 0x7a0508a1, 0xf11bfaa8, 0x05757ceb,
                      0x49231c1e, 0x52f1ccf7, 0x6e5c390c, 0xbd714038), 52, 0x84badedd)
           == Hash(0x101fd28f, 0x886e7a22, 0x7a0508a1, 0xf11bfaa8, 0x529e7d00, 0x49231c1e, 0x52f1ccf7, 0x6e5c390c);
    NextRounds(b, 53);
    assert Round(Hash(0x101fd28f, 0x886e7a22, 0x7a0508a1, 0xf11bfaa8,
                      0x529e7d00, 0x49231c1e, 0x52f1ccf7, 0x6e5c390c), 53, 0xc21462bc)
           == Hash(0xf5702fdb, 0x101fd28f, 0x886e7a22, 0x7a0508a1, 0x9f4787c3, 0x529e7d00, 0x49231c1e, 0x52f1ccf7);
    NextRounds(b, 54);
    assert Round(Hash(0xf5702fdb, 0x101fd28f, 0x886e7a22, 0x7a0508a1,
                      0x9f4787c3, 0x529e7d00, 0x49231c1e, 0x52f1ccf7), 54, 0x1487472c)
           == Hash(0x3ec45cdb, 0xf5702fdb, 0x101fd28f, 0x886e7a22, 0xe50e1b4f, 0x9f4787c3, 0x529e7d00, 0x49231c1e);
    NextRounds(b, 55);
    assert Round(Hash(0x3ec45cdb, 0xf5702fdb, 0x101fd28f, 0x886e7a22,
                      0xe50e1b4f, 0x9f4787c3, 0x529e7d00, 0x49231c1e), 55, 0xb20f7a99)
           == Hash(0x38cc9913, 0x3ec45cdb, 0xf5702fdb, 0x101fd28f, 0x54cb266b, 0xe50e1b4f, 0x9f4787c3, 0x529e7d00);
  }

  lemma AbcConstants56()
    ensures K(56) == 0x748f82ee && K(57) == 0x78a5636f && K(58) == 0x84c87814 && K(59) == 0x8cc70208
    ensures K(60) == 0x90befffa && K(61) == 0xa4506ceb && K(62) == 0xbef9a3f7 && K(63) == 0xc67178f2
  {
  }

  lemma AbcRounds64(b: Bytes)
    requires HasWords(b)
    ensures Rounds(Initial(), b, 64)
         == Hash(0x506e3058, 0xd39a2165, 0x04d24d6c, 0xb85e2ce9,
                 0x5ef50f24, 0xfb121210, 0x948d25b6, 0x961f4894)
  {
    hide W, K, Initial, HasWords, Rounds;
    AbcRounds56(b);
    AbcWords56To63(b);
    AbcConstants56();
    NextRounds(b, 56);
    assert Round(Hash(0x38cc9913, 0x3ec45cdb, 0xf5702fdb, 0x101fd28f,
                      0x54cb266b, 0xe50e1b4f, 0x9f4787c3, 0x529e7d00), 56, 0xef57b9cd)
           == Hash(0xfcd1887b, 0x38cc9913, 0x3ec45cdb, 0xf5702fdb, 0x9b5e906c, 0x54cb266b, 0xe50e1b4f, 0x9f4787c3);
    NextRounds(b, 57);
    assert Round(Hash(0xfcd1887b, 0x38cc9913, 0x3ec45cdb, 0xf5702fdb,
                      0x9b5e906c, 0x54cb266b, 0xe50e1b4f, 0x9f4787c3), 57, 0xebe6b238)
           == Hash(0xc062d46f, 0xfcd1887b, 0x38cc9913, 0x3ec45cdb, 0x7e44008e, 0x9b5e906c, 0x54cb266b, 0xe50e1b4f);
    NextRounds(b, 58);
    assert Round(Hash(0xc062d46f, 0xfcd1887b, 0x38cc9913, 0x3ec45cdb,
                      0x7e44008e, 0x9b5e906c, 0x54cb266b, 0xe50e1b4f), 58, 0x9fe3095e)
           == Hash(0xffb70472, 0xc062d46f, 0xfcd1887b, 0x38cc9913, 0x6d83bfc6, 0x7e44008e, 0x9b5e906c, 0x54cb266b);
    NextRounds(b, 59);
    assert Round(Hash(0xffb70472, 0xc062d46f, 0xfcd1887b, 0x38cc9913,
                      0x6d83bfc6, 0x7e44008e, 0x9b5e906c, 0x54cb266b), 59, 0x78bc8d4b)
           == Hash(0xb6ae8fff, 0xffb70472, 0xc062d46f, 0xfcd1887b, 0xb21bad3d, 0x6d83bfc6, 0x7e44008e, 0x9b5e906c);
    NextRounds(b, 60);
    assert Round(Hash(0xb6ae8fff, 0xffb70472, 0xc062d46f, 0xfcd1887b,
                      0xb21bad3d, 0x6d83bfc6, 0x7e44008e, 0x9b5e906c), 60, 0xa43fcf15)
           == Hash(0xb85e2ce9, 0xb6ae8fff, 0xffb70472, 0xc062d46f, 0x961f4894, 0xb21bad3d, 0x6d83bfc6, 0x7e44008e);
    NextRounds(b, 61);
    assert Round(Hash(0xb85e2ce9, 0xb6ae8fff, 0xffb70472, 0xc062d46f,
                      0x961f4894, 0xb21bad3d, 0x6d83bfc6, 0x7e44008e), 61, 0x668b2ff8)
           == Hash(0x04d24d6c, 0xb85e2ce9, 0xb6ae8fff, 0xffb70472, 0x948d25b6, 0x961f4894, 0xb21bad3d, 0x6d83bfc6);
    NextRounds(b, 62);
    assert Round(Hash(0x04d24d6c, 0xb85e2ce9, 0xb6ae8fff, 0xffb70472,
                      0x948d25b6, 0x961f4894, 0xb21bad3d, 0x6d83bfc6), 62, 0xeeaba2cc)
           == Hash(0xd39a2165, 0x04d24d6c, 0xb85e2ce9, 0xb6ae8fff, 0xfb121210, 0x948d25b6, 0x961f4894, 0xb21bad3d);
    NextRounds(b, 63);
    assert Round(Hash(0xd39a2165, 0x04d24d6c, 0xb85e2ce9, 0xb6ae8fff,
                      0xfb121210, 0x948d25b6, 0x961f4894, 0xb21bad3d), 63, 0x12b1edeb)
           == Hash(0x506e3058, 0xd39a2165, 0x04d24d6c, 0xb85e2ce9, 0x5ef50f24, 0xfb121210, 0x948d25b6, 0x961f4894);
  }

  lemma AbcHash()
    ensures (var h := AfterBlocks(AbcBlock(), 1); h.a == 0xba7816bf && h.b == 0x8f01cfea)
  {
    hide Rounds, Initial, HasWords, AbcBlock;
    var b := AbcBlock();
    AbcHasWords();
    AbcRounds64(b);
    AbcInitial();
    assert b[64 * (1 - 1)..64 * 1] == b;
    assert AfterBlocks(b, 1) == Compress(Initial(), b);
  }

  lemma AbcPadding()
    ensures FewestZeros(3, 52)
  {
    DivModIs(3 + 1 + 52 + 8, 64, 1, 0);
    forall y: nat | y < 52
      ensures !Fills(3, y)
    {
      DivModIs(3 + 1 + y + 8, 64, 0, 3 + 1 + y + 8);
    }
  }

  /** The first 48 bits of the digest of "abc". */
  lemma AbcDigest()
    ensures IsSha256First48(ABC, [0xba, 0x78, 0x16, 0xbf, 0x8f, 0x01])
  {
    hide AfterBlocks, FewestZeros, Padding;
    AbcHash();
    AbcPadding();
    assert ABC + Padding(Bits(|ABC|), 52) == AbcBlock();
    assert First48(AfterBlocks(AbcBlock(), 1)) == [0xba, 0x78, 0x16, 0xbf, 0x8f, 0x01];
  }
}
