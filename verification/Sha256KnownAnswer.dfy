/**
 The known answer of the standard's first example, the digest of the three bytes of "abc": what its
 computation passes through, word by word and round by round.
 */
module Sha256KnownAnswer {
  import opened Sha256Properties
  import opened Sha256Spec
  import opened Sponges

  const ABC: seq<Byte> := [0x61, 0x62, 0x63]

  /** "abc" padded to one block. */
  const ABC_BLOCK: Block := ABC + [0x80] + Zeros(52) + [0, 0, 0, 0, 0, 0, 0, 0x18]

  // ---------- The message schedule ----------

  /** Eight words of the schedule of the block, from word t on. */
  predicate Words(t: nat, w0: Word, w1: Word, w2: Word, w3: Word, w4: Word, w5: Word, w6: Word, w7: Word)
    requires t + 8 <= 64
  {
    Schedule(ABC_BLOCK, t) == w0 && Schedule(ABC_BLOCK, t + 1) == w1
    && Schedule(ABC_BLOCK, t + 2) == w2 && Schedule(ABC_BLOCK, t + 3) == w3
    && Schedule(ABC_BLOCK, t + 4) == w4 && Schedule(ABC_BLOCK, t + 5) == w5
    && Schedule(ABC_BLOCK, t + 6) == w6 && Schedule(ABC_BLOCK, t + 7) == w7
  }

  /** The first sixteen are those of the block. */
  lemma FirstWords()
    ensures Words(0, 0x61626380, 0x00000000, 0x00000000, 0x00000000, 0x00000000, 0x00000000, 0x00000000, 0x00000000)
    ensures Words(8, 0x00000000, 0x00000000, 0x00000000, 0x00000000, 0x00000000, 0x00000000, 0x00000000, 0x00000018)
  {
    hide Schedule;
    ScheduleStarts(ABC_BLOCK, 0);
    ScheduleStarts(ABC_BLOCK, 1);
    ScheduleStarts(ABC_BLOCK, 2);
    ScheduleStarts(ABC_BLOCK, 3);
    ScheduleStarts(ABC_BLOCK, 4);
    ScheduleStarts(ABC_BLOCK, 5);
    ScheduleStarts(ABC_BLOCK, 6);
    ScheduleStarts(ABC_BLOCK, 7);
    ScheduleStarts(ABC_BLOCK, 8);
    ScheduleStarts(ABC_BLOCK, 9);
    ScheduleStarts(ABC_BLOCK, 10);
    ScheduleStarts(ABC_BLOCK, 11);
    ScheduleStarts(ABC_BLOCK, 12);
    ScheduleStarts(ABC_BLOCK, 13);
    ScheduleStarts(ABC_BLOCK, 14);
    ScheduleStarts(ABC_BLOCK, 15);
  }

  lemma Words16()
    requires Words(0, 0x61626380, 0x00000000, 0x00000000, 0x00000000, 0x00000000, 0x00000000, 0x00000000, 0x00000000)
    requires Words(8, 0x00000000, 0x00000000, 0x00000000, 0x00000000, 0x00000000, 0x00000000, 0x00000000, 0x00000018)
    ensures Words(16, 0x61626380, 0x000f0000, 0x7da86405, 0x600003c6, 0x3e9d7b78, 0x0183fc00, 0x12dcbfdb, 0xe2e2c38e)
  {
    hide Schedule;
    ScheduleContinues(ABC_BLOCK, 16);
    ScheduleContinues(ABC_BLOCK, 17);
    ScheduleContinues(ABC_BLOCK, 18);
    ScheduleContinues(ABC_BLOCK, 19);
    ScheduleContinues(ABC_BLOCK, 20);
    ScheduleContinues(ABC_BLOCK, 21);
    ScheduleContinues(ABC_BLOCK, 22);
    ScheduleContinues(ABC_BLOCK, 23);
  }

  lemma Words24()
    requires Words(8, 0x00000000, 0x00000000, 0x00000000, 0x00000000, 0x00000000, 0x00000000, 0x00000000, 0x00000018)
    requires Words(16, 0x61626380, 0x000f0000, 0x7da86405, 0x600003c6, 0x3e9d7b78, 0x0183fc00, 0x12dcbfdb, 0xe2e2c38e)
    ensures Words(24, 0xc8215c1a, 0xb73679a2, 0xe5bc3909, 0x32663c5b, 0x9d209d67, 0xec8726cb, 0x702138a4, 0xd3b7973b)
  {
    hide Schedule;
    ScheduleContinues(ABC_BLOCK, 24);
    ScheduleContinues(ABC_BLOCK, 25);
    ScheduleContinues(ABC_BLOCK, 26);
    ScheduleContinues(ABC_BLOCK, 27);
    ScheduleContinues(ABC_BLOCK, 28);
    ScheduleContinues(ABC_BLOCK, 29);
    ScheduleContinues(ABC_BLOCK, 30);
    ScheduleContinues(ABC_BLOCK, 31);
  }

  lemma Words32()
    requires Words(16, 0x61626380, 0x000f0000, 0x7da86405, 0x600003c6, 0x3e9d7b78, 0x0183fc00, 0x12dcbfdb, 0xe2e2c38e)
    requires Words(24, 0xc8215c1a, 0xb73679a2, 0xe5bc3909, 0x32663c5b, 0x9d209d67, 0xec8726cb, 0x702138a4, 0xd3b7973b)
    ensures Words(32, 0x93f5997f, 0x3b68ba73, 0xaff4ffc1, 0xf10a5c62, 0x0a8b3996, 0x72af830a, 0x9409e33e, 0x24641522)
  {
    hide Schedule;
    ScheduleContinues(ABC_BLOCK, 32);
    ScheduleContinues(ABC_BLOCK, 33);
    ScheduleContinues(ABC_BLOCK, 34);
    ScheduleContinues(ABC_BLOCK, 35);
    ScheduleContinues(ABC_BLOCK, 36);
    ScheduleContinues(ABC_BLOCK, 37);
    ScheduleContinues(ABC_BLOCK, 38);
    ScheduleContinues(ABC_BLOCK, 39);
  }

  lemma Words40()
    requires Words(24, 0xc8215c1a, 0xb73679a2, 0xe5bc3909, 0x32663c5b, 0x9d209d67, 0xec8726cb, 0x702138a4, 0xd3b7973b)
    requires Words(32, 0x93f5997f, 0x3b68ba73, 0xaff4ffc1, 0xf10a5c62, 0x0a8b3996, 0x72af830a, 0x9409e33e, 0x24641522)
    ensures Words(40, 0x9f47bf94, 0xf0a64f5a, 0x3e246a79, 0x27333ba3, 0x0c4763f2, 0x840abf27, 0x7a290d5d, 0x065c43da)
  {
    hide Schedule;
    ScheduleContinues(ABC_BLOCK, 40);
    ScheduleContinues(ABC_BLOCK, 41);
    ScheduleContinues(ABC_BLOCK, 42);
    ScheduleContinues(ABC_BLOCK, 43);
    ScheduleContinues(ABC_BLOCK, 44);
    ScheduleContinues(ABC_BLOCK, 45);
    ScheduleContinues(ABC_BLOCK, 46);
    ScheduleContinues(ABC_BLOCK, 47);
  }

  lemma Words48()
    requires Words(32, 0x93f5997f, 0x3b68ba73, 0xaff4ffc1, 0xf10a5c62, 0x0a8b3996, 0x72af830a, 0x9409e33e, 0x24641522)
    requires Words(40, 0x9f47bf94, 0xf0a64f5a, 0x3e246a79, 0x27333ba3, 0x0c4763f2, 0x840abf27, 0x7a290d5d, 0x065c43da)
    ensures Words(48, 0xfb3e89cb, 0xcc7617db, 0xb9e66c34, 0xa9993667, 0x84badedd, 0xc21462bc, 0x1487472c, 0xb20f7a99)
  {
    hide Schedule;
    ScheduleContinues(ABC_BLOCK, 48);
    ScheduleContinues(ABC_BLOCK, 49);
    ScheduleContinues(ABC_BLOCK, 50);
    ScheduleContinues(ABC_BLOCK, 51);
    ScheduleContinues(ABC_BLOCK, 52);
    ScheduleContinues(ABC_BLOCK, 53);
    ScheduleContinues(ABC_BLOCK, 54);
    ScheduleContinues(ABC_BLOCK, 55);
  }

  lemma Words56()
    requires Words(40, 0x9f47bf94, 0xf0a64f5a, 0x3e246a79, 0x27333ba3, 0x0c4763f2, 0x840abf27, 0x7a290d5d, 0x065c43da)
    requires Words(48, 0xfb3e89cb, 0xcc7617db, 0xb9e66c34, 0xa9993667, 0x84badedd, 0xc21462bc, 0x1487472c, 0xb20f7a99)
    ensures Words(56, 0xef57b9cd, 0xebe6b238, 0x9fe3095e, 0x78bc8d4b, 0xa43fcf15, 0x668b2ff8, 0xeeaba2cc, 0x12b1edeb)
  {
    hide Schedule;
    ScheduleContinues(ABC_BLOCK, 56);
    ScheduleContinues(ABC_BLOCK, 57);
    ScheduleContinues(ABC_BLOCK, 58);
    ScheduleContinues(ABC_BLOCK, 59);
    ScheduleContinues(ABC_BLOCK, 60);
    ScheduleContinues(ABC_BLOCK, 61);
    ScheduleContinues(ABC_BLOCK, 62);
    ScheduleContinues(ABC_BLOCK, 63);
  }

  // ---------- The rounds ----------

  /** Eight round constants, from round t on. */
  predicate Constants(t: nat, k0: Word, k1: Word, k2: Word, k3: Word, k4: Word, k5: Word, k6: Word, k7: Word)
    requires t + 8 <= 64
  {
    |K| == 64 && K[t] == k0 && K[t + 1] == k1 && K[t + 2] == k2 && K[t + 3] == k3
    && K[t + 4] == k4 && K[t + 5] == k5 && K[t + 6] == k6 && K[t + 7] == k7
  }

  predicate After(t: nat, s: State)
    requires t <= 64
  {
    Rounds(ABC_BLOCK, INITIAL_HASH, t) == s
  }

  lemma OneRound(t: nat, s: State)
    requires t < 64 && |K| == 64
    requires Round(Rounds(ABC_BLOCK, INITIAL_HASH, t), K[t], Schedule(ABC_BLOCK, t)) == s
    ensures After(t + 1, s)
  {
    hide Round, Rounds, Schedule, K;
    RoundsContinue(ABC_BLOCK, INITIAL_HASH, t);
  }

  lemma Rounds0()
    requires Words(0, 0x61626380, 0x00000000, 0x00000000, 0x00000000, 0x00000000, 0x00000000, 0x00000000, 0x00000000)
    requires Constants(0, 0x428a2f98, 0x71374491, 0xb5c0fbcf, 0xe9b5dba5, 0x3956c25b, 0x59f111f1, 0x923f82a4,
                       0xab1c5ed5)
    requires After(0, State(0x6a09e667, 0xbb67ae85, 0x3c6ef372, 0xa54ff53a, 0x510e527f, 0x9b05688c, 0x1f83d9ab,
                            0x5be0cd19))
    ensures After(8, State(0x85a07b5f, 0xe5030380, 0x2b4209f5, 0x04409a6a, 0x0c657a79, 0x9b27a401, 0x714260ad,
                           0x43ada245))
  {
    hide Rounds, Schedule, K;
    OneRound(0, State(
      0x5d6aebcd, 0x6a09e667, 0xbb67ae85, 0x3c6ef372, 0xfa2a4622, 0x510e527f, 0x9b05688c, 0x1f83d9ab));
    OneRound(1, State(
      0x5a6ad9ad, 0x5d6aebcd, 0x6a09e667, 0xbb67ae85, 0x78ce7989, 0xfa2a4622, 0x510e527f, 0x9b05688c));
    OneRound(2, State(
      0xc8c347a7, 0x5a6ad9ad, 0x5d6aebcd, 0x6a09e667, 0xf92939eb, 0x78ce7989, 0xfa2a4622, 0x510e527f));
    OneRound(3, State(
      0xd550f666, 0xc8c347a7, 0x5a6ad9ad, 0x5d6aebcd, 0x24e00850, 0xf92939eb, 0x78ce7989, 0xfa2a4622));
    OneRound(4, State(
      0x04409a6a, 0xd550f666, 0xc8c347a7, 0x5a6ad9ad, 0x43ada245, 0x24e00850, 0xf92939eb, 0x78ce7989));
    OneRound(5, State(
      0x2b4209f5, 0x04409a6a, 0xd550f666, 0xc8c347a7, 0x714260ad, 0x43ada245, 0x24e00850, 0xf92939eb));
    OneRound(6, State(
      0xe5030380, 0x2b4209f5, 0x04409a6a, 0xd550f666, 0x9b27a401, 0x714260ad, 0x43ada245, 0x24e00850));
    OneRound(7, State(
      0x85a07b5f, 0xe5030380, 0x2b4209f5, 0x04409a6a, 0x0c657a79, 0x9b27a401, 0x714260ad, 0x43ada245));
  }

  lemma Rounds8()
    requires Words(8, 0x00000000, 0x00000000, 0x00000000, 0x00000000, 0x00000000, 0x00000000, 0x00000000, 0x00000018)
    requires Constants(8, 0xd807aa98, 0x12835b01, 0x243185be, 0x550c7dc3, 0x72be5d74, 0x80deb1fe, 0x9bdc06a7,
                       0xc19bf174)
    requires After(8, State(0x85a07b5f, 0xe5030380, 0x2b4209f5, 0x04409a6a, 0x0c657a79, 0x9b27a401, 0x714260ad,
                            0x43ada245))
    ensures After(16, State(0xb0fa238e, 0xc0645fde, 0xd932eb16, 0x87912990, 0x07590dcd, 0x0b92f20c, 0x745a48de,
                            0x1e578218))
  {
    hide Rounds, Schedule, K;
    OneRound(8, State(
      0x8e04ecb9, 0x85a07b5f, 0xe5030380, 0x2b4209f5, 0x32ca2d8c, 0x0c657a79, 0x9b27a401, 0x714260ad));
    OneRound(9, State(
      0x8c87346b, 0x8e04ecb9, 0x85a07b5f, 0xe5030380, 0x1cc92596, 0x32ca2d8c, 0x0c657a79, 0x9b27a401));
    OneRound(10, State(
      0x4798a3f4, 0x8c87346b, 0x8e04ecb9, 0x85a07b5f, 0x436b23e8, 0x1cc92596, 0x32ca2d8c, 0x0c657a79));
    OneRound(11, State(
      0xf71fc5a9, 0x4798a3f4, 0x8c87346b, 0x8e04ecb9, 0x816fd6e9, 0x436b23e8, 0x1cc92596, 0x32ca2d8c));
    OneRound(12, State(
      0x87912990, 0xf71fc5a9, 0x4798a3f4, 0x8c87346b, 0x1e578218, 0x816fd6e9, 0x436b23e8, 0x1cc92596));
    OneRound(13, State(
      0xd932eb16, 0x87912990, 0xf71fc5a9, 0x4798a3f4, 0x745a48de, 0x1e578218, 0x816fd6e9, 0x436b23e8));
    OneRound(14, State(
      0xc0645fde, 0xd932eb16, 0x87912990, 0xf71fc5a9, 0x0b92f20c, 0x745a48de, 0x1e578218, 0x816fd6e9));
    OneRound(15, State(
      0xb0fa238e, 0xc0645fde, 0xd932eb16, 0x87912990, 0x07590dcd, 0x0b92f20c, 0x745a48de, 0x1e578218));
  }

  lemma Rounds16()
    requires Words(16, 0x61626380, 0x000f0000, 0x7da86405, 0x600003c6, 0x3e9d7b78, 0x0183fc00, 0x12dcbfdb, 0xe2e2c38e)
    requires Constants(16, 0xe49b69c1, 0xefbe4786, 0x0fc19dc6, 0x240ca1cc, 0x2de92c6f, 0x4a7484aa, 0x5cb0a9dc,
                       0x76f988da)
    requires After(16, State(0xb0fa238e, 0xc0645fde, 0xd932eb16, 0x87912990, 0x07590dcd, 0x0b92f20c, 0x745a48de,
                             0x1e578218))
    ensures After(24, State(0xc5d53d8d, 0xa7a3623f, 0xc2606d6d, 0x9dc68b63, 0xaa47c347, 0x49f5114a, 0xe1257970,
                            0x8ada8930))
  {
    hide Rounds, Schedule, K;
    OneRound(16, State(
      0x21da9a9b, 0xb0fa238e, 0xc0645fde, 0xd932eb16, 0x8034229c, 0x07590dcd, 0x0b92f20c, 0x745a48de));
    OneRound(17, State(
      0xc2fbd9d1, 0x21da9a9b, 0xb0fa238e, 0xc0645fde, 0x846ee454, 0x8034229c, 0x07590dcd, 0x0b92f20c));
    OneRound(18, State(
      0xfe777bbf, 0xc2fbd9d1, 0x21da9a9b, 0xb0fa238e, 0xcc899961, 0x846ee454, 0x8034229c, 0x07590dcd));
    OneRound(19, State(
      0xe1f20c33, 0xfe777bbf, 0xc2fbd9d1, 0x21da9a9b, 0xb0638179, 0xcc899961, 0x846ee454, 0x8034229c));
    OneRound(20, State(
      0x9dc68b63, 0xe1f20c33, 0xfe777bbf, 0xc2fbd9d1, 0x8ada8930, 0xb0638179, 0xcc899961, 0x846ee454));
    OneRound(21, State(
      0xc2606d6d, 0x9dc68b63, 0xe1f20c33, 0xfe777bbf, 0xe1257970, 0x8ada8930, 0xb0638179, 0xcc899961));
    OneRound(22, State(
      0xa7a3623f, 0xc2606d6d, 0x9dc68b63, 0xe1f20c33, 0x49f5114a, 0xe1257970, 0x8ada8930, 0xb0638179));
    OneRound(23, State(
      0xc5d53d8d, 0xa7a3623f, 0xc2606d6d, 0x9dc68b63, 0xaa47c347, 0x49f5114a, 0xe1257970, 0x8ada8930));
  }

  lemma Rounds24()
    requires Words(24, 0xc8215c1a, 0xb73679a2, 0xe5bc3909, 0x32663c5b, 0x9d209d67, 0xec8726cb, 0x702138a4, 0xd3b7973b)
    requires Constants(24, 0x983e5152, 0xa831c66d, 0xb00327c8, 0xbf597fc7, 0xc6e00bf3, 0xd5a79147, 0x06ca6351,
                       0x14292967)
    requires After(24, State(0xc5d53d8d, 0xa7a3623f, 0xc2606d6d, 0x9dc68b63, 0xaa47c347, 0x49f5114a, 0xe1257970,
                             0x8ada8930))
    ensures After(32, State(0x73b33bf5, 0xea992a22, 0xa0060b30, 0x363482c9, 0xba591112, 0x0109ab3a, 0xade79437,
                            0x6112a3b7))
  {
    hide Rounds, Schedule, K;
    OneRound(24, State(
      0x1c2c2838, 0xc5d53d8d, 0xa7a3623f, 0xc2606d6d, 0x2823ef91, 0xaa47c347, 0x49f5114a, 0xe1257970));
    OneRound(25, State(
      0xcde8037d, 0x1c2c2838, 0xc5d53d8d, 0xa7a3623f, 0x14383d8e, 0x2823ef91, 0xaa47c347, 0x49f5114a));
    OneRound(26, State(
      0xb62ec4bc, 0xcde8037d, 0x1c2c2838, 0xc5d53d8d, 0xc74c6516, 0x14383d8e, 0x2823ef91, 0xaa47c347));
    OneRound(27, State(
      0x77d37528, 0xb62ec4bc, 0xcde8037d, 0x1c2c2838, 0xedffbff8, 0xc74c6516, 0x14383d8e, 0x2823ef91));
    OneRound(28, State(
      0x363482c9, 0x77d37528, 0xb62ec4bc, 0xcde8037d, 0x6112a3b7, 0xedffbff8, 0xc74c6516, 0x14383d8e));
    OneRound(29, State(
      0xa0060b30, 0x363482c9, 0x77d37528, 0xb62ec4bc, 0xade79437, 0x6112a3b7, 0xedffbff8, 0xc74c6516));
    OneRound(30, State(
      0xea992a22, 0xa0060b30, 0x363482c9, 0x77d37528, 0x0109ab3a, 0xade79437, 0x6112a3b7, 0xedffbff8));
    OneRound(31, State(
      0x73b33bf5, 0xea992a22, 0xa0060b30, 0x363482c9, 0xba591112, 0x0109ab3a, 0xade79437, 0x6112a3b7));
  }

  lemma Rounds32()
    requires Words(32, 0x93f5997f, 0x3b68ba73, 0xaff4ffc1, 0xf10a5c62, 0x0a8b3996, 0x72af830a, 0x9409e33e, 0x24641522)
    requires Constants(32, 0x27b70a85, 0x2e1b2138, 0x4d2c6dfc, 0x53380d13, 0x650a7354, 0x766a0abb, 0x81c2c92e,
                       0x92722c85)
    requires After(32, State(0x73b33bf5, 0xea992a22, 0xa0060b30, 0x363482c9, 0xba591112, 0x0109ab3a, 0xade79437,
                             0x6112a3b7))
    ensures After(40, State(0x79ea687a, 0x6dc57a8a, 0x34df1604, 0x41a65cb1, 0x1efbc0a0, 0xf0781bc8, 0xa507a53d,
                            0x0772a26b))
  {
    hide Rounds, Schedule, K;
    OneRound(32, State(
      0x98e12507, 0x73b33bf5, 0xea992a22, 0xa0060b30, 0x9cd9f5f6, 0xba591112, 0x0109ab3a, 0xade79437));
    OneRound(33, State(
      0xfe604df5, 0x98e12507, 0x73b33bf5, 0xea992a22, 0x59249dd3, 0x9cd9f5f6, 0xba591112, 0x0109ab3a));
    OneRound(34, State(
      0xa9a7738c, 0xfe604df5, 0x98e12507, 0x73b33bf5, 0x085f3833, 0x59249dd3, 0x9cd9f5f6, 0xba591112));
    OneRound(35, State(
      0x65a0cfe4, 0xa9a7738c, 0xfe604df5, 0x98e12507, 0xf4b002d6, 0x085f3833, 0x59249dd3, 0x9cd9f5f6));
    OneRound(36, State(
      0x41a65cb1, 0x65a0cfe4, 0xa9a7738c, 0xfe604df5, 0x0772a26b, 0xf4b002d6, 0x085f3833, 0x59249dd3));
    OneRound(37, State(
      0x34df1604, 0x41a65cb1, 0x65a0cfe4, 0xa9a7738c, 0xa507a53d, 0x0772a26b, 0xf4b002d6, 0x085f3833));
    OneRound(38, State(
      0x6dc57a8a, 0x34df1604, 0x41a65cb1, 0x65a0cfe4, 0xf0781bc8, 0xa507a53d, 0x0772a26b, 0xf4b002d6));
    OneRound(39, State(
      0x79ea687a, 0x6dc57a8a, 0x34df1604, 0x41a65cb1, 0x1efbc0a0, 0xf0781bc8, 0xa507a53d, 0x0772a26b));
  }

  lemma Rounds40()
    requires Words(40, 0x9f47bf94, 0xf0a64f5a, 0x3e246a79, 0x27333ba3, 0x0c4763f2, 0x840abf27, 0x7a290d5d, 0x065c43da)
    requires Constants(40, 0xa2bfe8a1, 0xa81a664b, 0xc24b8b70, 0xc76c51a3, 0xd192e819, 0xd6990624, 0xf40e3585,
                       0x106aa070)
    requires After(40, State(0x79ea687a, 0x6dc57a8a, 0x34df1604, 0x41a65cb1, 0x1efbc0a0, 0xf0781bc8, 0xa507a53d,
                             0x0772a26b))
    ensures After(48, State(0x4172328d, 0xa14c14b0, 0x72ab4b91, 0x26628815, 0xfecf0bc6, 0xd57b94a9, 0xb7755da1,
                            0xa80f11f0))
  {
    hide Rounds, Schedule, K;
    OneRound(40, State(
      0xd6670766, 0x79ea687a, 0x6dc57a8a, 0x34df1604, 0x26352d63, 0x1efbc0a0, 0xf0781bc8, 0xa507a53d));
    OneRound(41, State(
      0xdf46652f, 0xd6670766, 0x79ea687a, 0x6dc57a8a, 0x838b2711, 0x26352d63, 0x1efbc0a0, 0xf0781bc8));
    OneRound(42, State(
      0x17aa0dfe, 0xdf46652f, 0xd6670766, 0x79ea687a, 0xdecd4715, 0x838b2711, 0x26352d63, 0x1efbc0a0));
    OneRound(43, State(
      0x9d4baf93, 0x17aa0dfe, 0xdf46652f, 0xd6670766, 0xfda24c2e, 0xdecd4715, 0x838b2711, 0x26352d63));
    OneRound(44, State(
      0x26628815, 0x9d4baf93, 0x17aa0dfe, 0xdf46652f, 0xa80f11f0, 0xfda24c2e, 0xdecd4715, 0x838b2711));
    OneRound(45, State(
      0x72ab4b91, 0x26628815, 0x9d4baf93, 0x17aa0dfe, 0xb7755da1, 0xa80f11f0, 0xfda24c2e, 0xdecd4715));
    OneRound(46, State(
      0xa14c14b0, 0x72ab4b91, 0x26628815, 0x9d4baf93, 0xd57b94a9, 0xb7755da1, 0xa80f11f0, 0xfda24c2e));
    OneRound(47, State(
      0x4172328d, 0xa14c14b0, 0x72ab4b91, 0x26628815, 0xfecf0bc6, 0xd57b94a9, 0xb7755da1, 0xa80f11f0));
  }

  lemma Rounds48()
    requires Words(48, 0xfb3e89cb, 0xcc7617db, 0xb9e66c34, 0xa9993667, 0x84badedd, 0xc21462bc, 0x1487472c, 0xb20f7a99)
    requires Constants(48, 0x19a4c116, 0x1e376c08, 0x2748774c, 0x34b0bcb5, 0x391c0cb3, 0x4ed8aa4a, 0x5b9cca4f,
                       0x682e6ff3)
    requires After(48, State(0x4172328d, 0xa14c14b0, 0x72ab4b91, 0x26628815, 0xfecf0bc6, 0xd57b94a9, 0xb7755da1,
                             0xa80f11f0))
    ensures After(56, State(0x38cc9913, 0x3ec45cdb, 0xf5702fdb, 0x101fd28f, 0x54cb266b, 0xe50e1b4f, 0x9f4787c3,
                            0x529e7d00))
  {
    hide Rounds, Schedule, K;
    OneRound(48, State(
      0x05757ceb, 0x4172328d, 0xa14c14b0, 0x72ab4b91, 0xbd714038, 0xfecf0bc6, 0xd57b94a9, 0xb7755da1));
    OneRound(49, State(
      0xf11bfaa8, 0x05757ceb, 0x4172328d, 0xa14c14b0, 0x6e5c390c, 0xbd714038, 0xfecf0bc6, 0xd57b94a9));
    OneRound(50, State(
      0x7a0508a1, 0xf11bfaa8, 0x05757ceb, 0x4172328d, 0x52f1ccf7, 0x6e5c390c, 0xbd714038, 0xfecf0bc6));
    OneRound(51, State(
      0x886e7a22, 0x7a0508a1, 0xf11bfaa8, 0x05757ceb, 0x49231c1e, 0x52f1ccf7, 0x6e5c390c, 0xbd714038));
    OneRound(52, State(
      0x101fd28f, 0x886e7a22, 0x7a0508a1, 0xf11bfaa8, 0x529e7d00, 0x49231c1e, 0x52f1ccf7, 0x6e5c390c));
    OneRound(53, State(
      0xf5702fdb, 0x101fd28f, 0x886e7a22, 0x7a0508a1, 0x9f4787c3, 0x529e7d00, 0x49231c1e, 0x52f1ccf7));
    OneRound(54, State(
      0x3ec45cdb, 0xf5702fdb, 0x101fd28f, 0x886e7a22, 0xe50e1b4f, 0x9f4787c3, 0x529e7d00, 0x49231c1e));
    OneRound(55, State(
      0x38cc9913, 0x3ec45cdb, 0xf5702fdb, 0x101fd28f, 0x54cb266b, 0xe50e1b4f, 0x9f4787c3, 0x529e7d00));
  }

  lemma Rounds56()
    requires Words(56, 0xef57b9cd, 0xebe6b238, 0x9fe3095e, 0x78bc8d4b, 0xa43fcf15, 0x668b2ff8, 0xeeaba2cc, 0x12b1edeb)
    requires Constants(56, 0x748f82ee, 0x78a5636f, 0x84c87814, 0x8cc70208, 0x90befffa, 0xa4506ceb, 0xbef9a3f7,
                       0xc67178f2)
    requires After(56, State(0x38cc9913, 0x3ec45cdb, 0xf5702fdb, 0x101fd28f, 0x54cb266b, 0xe50e1b4f, 0x9f4787c3,
                             0x529e7d00))
    ensures After(64, State(0x506e3058, 0xd39a2165, 0x04d24d6c, 0xb85e2ce9, 0x5ef50f24, 0xfb121210, 0x948d25b6,
                            0x961f4894))
  {
    hide Rounds, Schedule, K;
    OneRound(56, State(
      0xfcd1887b, 0x38cc9913, 0x3ec45cdb, 0xf5702fdb, 0x9b5e906c, 0x54cb266b, 0xe50e1b4f, 0x9f4787c3));
    OneRound(57, State(
      0xc062d46f, 0xfcd1887b, 0x38cc9913, 0x3ec45cdb, 0x7e44008e, 0x9b5e906c, 0x54cb266b, 0xe50e1b4f));
    OneRound(58, State(
      0xffb70472, 0xc062d46f, 0xfcd1887b, 0x38cc9913, 0x6d83bfc6, 0x7e44008e, 0x9b5e906c, 0x54cb266b));
    OneRound(59, State(
      0xb6ae8fff, 0xffb70472, 0xc062d46f, 0xfcd1887b, 0xb21bad3d, 0x6d83bfc6, 0x7e44008e, 0x9b5e906c));
    OneRound(60, State(
      0xb85e2ce9, 0xb6ae8fff, 0xffb70472, 0xc062d46f, 0x961f4894, 0xb21bad3d, 0x6d83bfc6, 0x7e44008e));
    OneRound(61, State(
      0x04d24d6c, 0xb85e2ce9, 0xb6ae8fff, 0xffb70472, 0x948d25b6, 0x961f4894, 0xb21bad3d, 0x6d83bfc6));
    OneRound(62, State(
      0xd39a2165, 0x04d24d6c, 0xb85e2ce9, 0xb6ae8fff, 0xfb121210, 0x948d25b6, 0x961f4894, 0xb21bad3d));
    OneRound(63, State(
      0x506e3058, 0xd39a2165, 0x04d24d6c, 0xb85e2ce9, 0x5ef50f24, 0xfb121210, 0x948d25b6, 0x961f4894));
  }

  // ---------- From the rounds to the digest ----------

  lemma Constants0()
    ensures Constants(0, 0x428a2f98, 0x71374491, 0xb5c0fbcf, 0xe9b5dba5, 0x3956c25b, 0x59f111f1, 0x923f82a4, 0xab1c5ed5)
    ensures Constants(8, 0xd807aa98, 0x12835b01, 0x243185be, 0x550c7dc3, 0x72be5d74, 0x80deb1fe, 0x9bdc06a7, 0xc19bf174)
  {
  }

  lemma Constants16()
    ensures Constants(16, 0xe49b69c1, 0xefbe4786, 0x0fc19dc6, 0x240ca1cc, 0x2de92c6f, 0x4a7484aa, 0x5cb0a9dc,
                      0x76f988da)
    ensures Constants(24, 0x983e5152, 0xa831c66d, 0xb00327c8, 0xbf597fc7, 0xc6e00bf3, 0xd5a79147, 0x06ca6351,
                      0x14292967)
  {
  }

  lemma Constants32()
    ensures Constants(32, 0x27b70a85, 0x2e1b2138, 0x4d2c6dfc, 0x53380d13, 0x650a7354, 0x766a0abb, 0x81c2c92e,
                      0x92722c85)
    ensures Constants(40, 0xa2bfe8a1, 0xa81a664b, 0xc24b8b70, 0xc76c51a3, 0xd192e819, 0xd6990624, 0xf40e3585,
                      0x106aa070)
  {
  }

  lemma Constants48()
    ensures Constants(48, 0x19a4c116, 0x1e376c08, 0x2748774c, 0x34b0bcb5, 0x391c0cb3, 0x4ed8aa4a, 0x5b9cca4f,
                      0x682e6ff3)
    ensures Constants(56, 0x748f82ee, 0x78a5636f, 0x84c87814, 0x8cc70208, 0x90befffa, 0xa4506ceb, 0xbef9a3f7,
                      0xc67178f2)
  {
  }

  lemma AllRounds()
    ensures After(64, State(0x506e3058, 0xd39a2165, 0x04d24d6c, 0xb85e2ce9, 0x5ef50f24, 0xfb121210, 0x948d25b6,
                            0x961f4894))
  {
    hide Words, Constants, After, Rounds;
    FirstWords();
    Words16();
    Words24();
    Words32();
    Words40();
    Words48();
    Words56();
    StartOfRounds();
    Constants0();
    Rounds0();
    Rounds8();
    Constants16();
    Rounds16();
    Rounds24();
    Constants32();
    Rounds32();
    Rounds40();
    Constants48();
    Rounds48();
    Rounds56();
  }

  lemma StartOfRounds()
    ensures After(0, State(0x6a09e667, 0xbb67ae85, 0x3c6ef372, 0xa54ff53a, 0x510e527f, 0x9b05688c, 0x1f83d9ab,
                           0x5be0cd19))
  {
    hide Round, Schedule;
  }

  const ABC_HASH := State(
    0xba7816bf, 0x8f01cfea, 0x414140de, 0x5dae2223, 0xb00361a3, 0x96177a9c, 0xb410ff61, 0xf20015ad)

  lemma AbcCompressed()
    ensures Compress(INITIAL_HASH, ABC_BLOCK) == ABC_HASH
  {
    hide Rounds;
    AllRounds();
  }

  lemma AbcWordBytes()
    ensures WordBytes(0xba7816bf) == [0xba, 0x78, 0x16, 0xbf]
    ensures WordBytes(0x8f01cfea) == [0x8f, 0x01, 0xcf, 0xea]
    ensures WordBytes(0x414140de) == [0x41, 0x41, 0x40, 0xde]
    ensures WordBytes(0x5dae2223) == [0x5d, 0xae, 0x22, 0x23]
    ensures WordBytes(0xb00361a3) == [0xb0, 0x03, 0x61, 0xa3]
    ensures WordBytes(0x96177a9c) == [0x96, 0x17, 0x7a, 0x9c]
    ensures WordBytes(0xb410ff61) == [0xb4, 0x10, 0xff, 0x61]
    ensures WordBytes(0xf20015ad) == [0xf2, 0x00, 0x15, 0xad]
  {
  }

  lemma HalfTheDigest()
    ensures DigestPrefix(ABC_HASH, 4) == [
              0xba, 0x78, 0x16, 0xbf, 0x8f, 0x01, 0xcf, 0xea, 0x41, 0x41, 0x40, 0xde, 0x5d, 0xae, 0x22, 0x23]
  {
    AbcWordBytes();
    hide WordBytes;
    assert DigestPrefix(ABC_HASH, 1) == DigestPrefix(ABC_HASH, 0) + WordBytes(0xba7816bf);
    assert DigestPrefix(ABC_HASH, 2) == DigestPrefix(ABC_HASH, 1) + WordBytes(0x8f01cfea);
    assert DigestPrefix(ABC_HASH, 3) == DigestPrefix(ABC_HASH, 2) + WordBytes(0x414140de);
    assert DigestPrefix(ABC_HASH, 4) == DigestPrefix(ABC_HASH, 3) + WordBytes(0x5dae2223);
  }

  lemma AbcDigest()
    ensures Digest(ABC_HASH) == [
              0xba, 0x78, 0x16, 0xbf, 0x8f, 0x01, 0xcf, 0xea, 0x41, 0x41, 0x40, 0xde, 0x5d, 0xae, 0x22, 0x23,
              0xb0, 0x03, 0x61, 0xa3, 0x96, 0x17, 0x7a, 0x9c, 0xb4, 0x10, 0xff, 0x61, 0xf2, 0x00, 0x15, 0xad]
  {
    HalfTheDigest();
    AbcWordBytes();
    hide WordBytes;
    assert DigestPrefix(ABC_HASH, 6) == DigestPrefix(ABC_HASH, 4) + WordBytes(0xb00361a3) + WordBytes(0x96177a9c);
    assert DigestPrefix(ABC_HASH, 8) == DigestPrefix(ABC_HASH, 6) + WordBytes(0xb410ff61) + WordBytes(0xf20015ad);
  }

  lemma AbcIsPadded()
    ensures ABC + Padding(3) == ABC_BLOCK
  {
    assert LengthField(24) == [0, 0, 0, 0, 0, 0, 0, 0x18];
  }

  /** The digest of "abc" is the one that the standard's example gives. */
  lemma Sha256OfAbc()
    ensures Sha256([0x61, 0x62, 0x63]) == [
              0xba, 0x78, 0x16, 0xbf, 0x8f, 0x01, 0xcf, 0xea, 0x41, 0x41, 0x40, 0xde, 0x5d, 0xae, 0x22, 0x23,
              0xb0, 0x03, 0x61, 0xa3, 0x96, 0x17, 0x7a, 0x9c, 0xb4, 0x10, 0xff, 0x61, 0xf2, 0x00, 0x15, 0xad]
  {
    hide Compress, HashBlocks, Digest, Padding;
    AbcIsPadded();
    HashOneBlock(INITIAL_HASH, ABC_BLOCK);
    AbcCompressed();
    AbcDigest();
  }
}
