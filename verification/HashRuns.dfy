/** The rounds of three one-block messages, written out: "abc", the 40 bytes of the
    work and nonce of output/sol1-out.txt, and the 32 bytes of their hash. */
module HashRuns {
  import opened MachineOps
  import opened MachineSha

  datatype Example = Abc | Inner | Outer

  /** The scheduled words of an example. */
  function W(x: Example, i: nat): (r: Eight)
  {
    match x case Abc => AbcW(i) case Inner => InnerW(i) case Outer => OuterW(i)
  }

  /** The values that register a takes, eight rounds to the row. */
  function A(x: Example, i: nat): (r: Eight)
  {
    match x case Abc => AbcA(i) case Inner => InnerA(i) case Outer => OuterA(i)
  }

  /** The values that register e takes. */
  function E(x: Example, i: nat): (r: Eight)
  {
    match x case Abc => AbcE(i) case Inner => InnerE(i) case Outer => OuterE(i)
  }

  /** Ends with the initial registers d, c, b and a. */
  function StartA(): (r: Eight)
  {
    Eight(0, 0, 0, 0, 0xa54ff53a, 0x3c6ef372, 0xbb67ae85, 0x6a09e667)
  }

  /** Ends with the initial registers h, g, f and e. */
  function StartE(): (r: Eight)
  {
    Eight(0, 0, 0, 0, 0x5be0cd19, 0x1f83d9ab, 0x9b05688c, 0x510e527f)
  }

  /** The row before. */
  function BeforeA(x: Example, i: nat): (r: Eight)
  {
    if i == 0 then StartA() else A(x, i - 1)
  }

  function BeforeE(x: Example, i: nat): (r: Eight)
  {
    if i == 0 then StartE() else E(x, i - 1)
  }

  function AbcW(i: nat): (r: Eight)
  {
    if i < 4 then
      if i < 2 then
        if i == 0 then Eight(0x61626380, 0x00000000, 0x00000000, 0x00000000, 0x00000000, 0x00000000, 0x00000000, 0x00000000)
        else Eight(0x00000000, 0x00000000, 0x00000000, 0x00000000, 0x00000000, 0x00000000, 0x00000000, 0x00000018)
      else
        if i == 2 then Eight(0x61626380, 0x000f0000, 0x7da86405, 0x600003c6, 0x3e9d7b78, 0x0183fc00, 0x12dcbfdb, 0xe2e2c38e)
        else Eight(0xc8215c1a, 0xb73679a2, 0xe5bc3909, 0x32663c5b, 0x9d209d67, 0xec8726cb, 0x702138a4, 0xd3b7973b)
    else
      if i < 6 then
        if i == 4 then Eight(0x93f5997f, 0x3b68ba73, 0xaff4ffc1, 0xf10a5c62, 0x0a8b3996, 0x72af830a, 0x9409e33e, 0x24641522)
        else Eight(0x9f47bf94, 0xf0a64f5a, 0x3e246a79, 0x27333ba3, 0x0c4763f2, 0x840abf27, 0x7a290d5d, 0x065c43da)
      else
        if i == 6 then Eight(0xfb3e89cb, 0xcc7617db, 0xb9e66c34, 0xa9993667, 0x84badedd, 0xc21462bc, 0x1487472c, 0xb20f7a99)
        else Eight(0xef57b9cd, 0xebe6b238, 0x9fe3095e, 0x78bc8d4b, 0xa43fcf15, 0x668b2ff8, 0xeeaba2cc, 0x12b1edeb)
  }

  function AbcA(i: nat): (r: Eight)
  {
    if i < 4 then
      if i < 2 then
        if i == 0 then Eight(0x5d6aebcd, 0x5a6ad9ad, 0xc8c347a7, 0xd550f666, 0x04409a6a, 0x2b4209f5, 0xe5030380, 0x85a07b5f)
        else Eight(0x8e04ecb9, 0x8c87346b, 0x4798a3f4, 0xf71fc5a9, 0x87912990, 0xd932eb16, 0xc0645fde, 0xb0fa238e)
      else
        if i == 2 then Eight(0x21da9a9b, 0xc2fbd9d1, 0xfe777bbf, 0xe1f20c33, 0x9dc68b63, 0xc2606d6d, 0xa7a3623f, 0xc5d53d8d)
        else Eight(0x1c2c2838, 0xcde8037d, 0xb62ec4bc, 0x77d37528, 0x363482c9, 0xa0060b30, 0xea992a22, 0x73b33bf5)
    else
      if i < 6 then
        if i == 4 then Eight(0x98e12507, 0xfe604df5, 0xa9a7738c, 0x65a0cfe4, 0x41a65cb1, 0x34df1604, 0x6dc57a8a, 0x79ea687a)
        else Eight(0xd6670766, 0xdf46652f, 0x17aa0dfe, 0x9d4baf93, 0x26628815, 0x72ab4b91, 0xa14c14b0, 0x4172328d)
      else
        if i == 6 then Eight(0x05757ceb, 0xf11bfaa8, 0x7a0508a1, 0x886e7a22, 0x101fd28f, 0xf5702fdb, 0x3ec45cdb, 0x38cc9913)
        else Eight(0xfcd1887b, 0xc062d46f, 0xffb70472, 0xb6ae8fff, 0xb85e2ce9, 0x04d24d6c, 0xd39a2165, 0x506e3058)
  }

  function AbcE(i: nat): (r: Eight)
  {
    if i < 4 then
      if i < 2 then
        if i == 0 then Eight(0xfa2a4622, 0x78ce7989, 0xf92939eb, 0x24e00850, 0x43ada245, 0x714260ad, 0x9b27a401, 0x0c657a79)
        else Eight(0x32ca2d8c, 0x1cc92596, 0x436b23e8, 0x816fd6e9, 0x1e578218, 0x745a48de, 0x0b92f20c, 0x07590dcd)
      else
        if i == 2 then Eight(0x8034229c, 0x846ee454, 0xcc899961, 0xb0638179, 0x8ada8930, 0xe1257970, 0x49f5114a, 0xaa47c347)
        else Eight(0x2823ef91, 0x14383d8e, 0xc74c6516, 0xedffbff8, 0x6112a3b7, 0xade79437, 0x0109ab3a, 0xba591112)
    else
      if i < 6 then
        if i == 4 then Eight(0x9cd9f5f6, 0x59249dd3, 0x085f3833, 0xf4b002d6, 0x0772a26b, 0xa507a53d, 0xf0781bc8, 0x1efbc0a0)
        else Eight(0x26352d63, 0x838b2711, 0xdecd4715, 0xfda24c2e, 0xa80f11f0, 0xb7755da1, 0xd57b94a9, 0xfecf0bc6)
      else
        if i == 6 then Eight(0xbd714038, 0x6e5c390c, 0x52f1ccf7, 0x49231c1e, 0x529e7d00, 0x9f4787c3, 0xe50e1b4f, 0x54cb266b)
        else Eight(0x9b5e906c, 0x7e44008e, 0x6d83bfc6, 0xb21bad3d, 0x961f4894, 0x948d25b6, 0xfb121210, 0x5ef50f24)
  }

  function InnerW(i: nat): (r: Eight)
  {
    if i < 4 then
      if i < 2 then
        if i == 0 then Eight(0x00000000, 0x19d6689c, 0x085ae165, 0x831e934f, 0xf763ae46, 0xa218a6c1, 0x72b3f1b6, 0x0a8ce26f)
        else Eight(0x10000000, 0x23212147, 0x80000000, 0x00000000, 0x00000000, 0x00000000, 0x00000000, 0x00000140)
      else
        if i == 2 then Eight(0xc44f88fe, 0x0da11494, 0x69629a39, 0xa48d91bc, 0xd45cbc94, 0xbbb811ed, 0x248121aa, 0xdbe1f41c)
        else Eight(0x94fe39ce, 0x623eea71, 0x0089392a, 0x7ccacf76, 0x77687408, 0x62cbe4f9, 0x90cae38a, 0x2b3849f0)
    else
      if i < 6 then
        if i == 4 then Eight(0xc0a90006, 0x1567f8d2, 0x90187be7, 0x3b7233a1, 0x324efa8e, 0xc4e10b28, 0x51a083fd, 0x4310d545)
        else Eight(0x501b9579, 0x7ccce9ac, 0x44c044f8, 0x9c18107c, 0x6ede4dfd, 0x7e5db205, 0xba83d959, 0x4047291c)
      else
        if i == 6 then Eight(0x2dd1ea4b, 0x8fc0d338, 0xbe89005a, 0xc2b7f601, 0x5c9629b3, 0x55bd5e81, 0x1b95f932, 0x9365c051)
        else Eight(0x90a1304c, 0x7c8ba5da, 0xb428422a, 0x0370bbff, 0x57cf05b2, 0x36e77b68, 0xab33a7e9, 0x0d3053c2)
  }

  function InnerA(i: nat): (r: Eight)
  {
    if i < 4 then
      if i < 2 then
        if i == 0 then Eight(0xfc08884d, 0x94afcb2c, 0x61d9b935, 0xdbd199ce, 0x2173ad5e, 0x9a75e058, 0x4626db91, 0x35534bac)
        else Eight(0x98f210e0, 0x1062b0d0, 0xa0bc3bec, 0x0cefe6db, 0xbc3100a2, 0x03e352c9, 0x3f3c6e05, 0x910beb09)
      else
        if i == 2 then Eight(0x8dc11488, 0xe7198bd8, 0xcfbd2d4c, 0xac3934aa, 0xb5fa5871, 0x24ae3aba, 0x6ef553fc, 0x40b82eb1)
        else Eight(0x01fabbae, 0xa1d3ed86, 0x4555e25f, 0x10607292, 0x42697d51, 0x5690927d, 0x3d9572c9, 0x21205e89)
    else
      if i < 6 then
        if i == 4 then Eight(0x1e0b9a0e, 0x0fedd818, 0x462df8d8, 0x584291b4, 0xf46f3944, 0x7e558d14, 0x9c610835, 0xf0ce1f2a)
        else Eight(0x4022db24, 0xf7945bcf, 0x58349c62, 0xce347549, 0xd18af1e3, 0x77ddbe8c, 0x0656d4de, 0xb2b48ba5)
      else
        if i == 6 then Eight(0x4dd08af3, 0xa23857df, 0xb3a67317, 0xb80954cd, 0x17a03de2, 0x4829110e, 0x3d05138a, 0xdc02f185)
        else Eight(0x21069c8b, 0x334f76ba, 0xf39ccbb2, 0x443ac62c, 0x30df2194, 0xd4e2e5ad, 0xbc4dc112, 0x136a1f91)
  }

  function InnerE(i: nat): (r: Eight)
  {
    if i < 4 then
      if i < 2 then
        if i == 0 then Eight(0x98c7e2a2, 0xb7c81ab2, 0x5dd3b766, 0x5a184201, 0x0cbd18ef, 0xa13b59d7, 0x18b62198, 0xf83f3958)
        else Eight(0x86d22a02, 0x2cea73bd, 0xce15973d, 0xa9ab480f, 0x09bb6bb0, 0xf96db55f, 0x7719777f, 0x906b98c5)
      else
        if i == 2 then Eight(0x23245648, 0xca8d677b, 0x88c1d623, 0xc0700c67, 0x69f8b8de, 0x167b8b11, 0xb5e80541, 0x76e13575)
        else Eight(0x8e1a0df8, 0xcda9d34b, 0x2658973c, 0xbb1e8688, 0xb1cf7e83, 0x981e049a, 0xac837d96, 0x4e07c9d3)
    else
      if i < 6 then
        if i == 4 then Eight(0xed698a72, 0xafe2e165, 0x003e2842, 0x0a8ae9e4, 0x321843a2, 0xedfa2c5f, 0x4544a7e9, 0xaa173056)
        else Eight(0xbb345cbb, 0x6341a6e0, 0x9119b3da, 0xc75f4931, 0x2b6323f3, 0x4681658f, 0xe77f9ae6, 0xacd30c88)
      else
        if i == 6 then Eight(0x04d8bcc3, 0x4c7c0a65, 0x60204141, 0xd9752d63, 0xc60bcd5d, 0x4cb1b8ff, 0x1a4634a8, 0x6f8cb08a)
        else Eight(0xebbd7dd9, 0x080772ab, 0xfac23b99, 0x5ad07333, 0x1352d618, 0x1b837a54, 0x872efde9, 0x12522b4e)
  }

  function OuterW(i: nat): (r: Eight)
  {
    if i < 4 then
      if i < 2 then
        if i == 0 then Eight(0x7d7405f8, 0x77b56f97, 0x1151d91f, 0xd62f16ce, 0x63607dcd, 0x22346675, 0x3b0753ff, 0x6f33a331)
        else Eight(0x80000000, 0x00000000, 0x00000000, 0x00000000, 0x00000000, 0x00000000, 0x00000000, 0x00000100)
      else
        if i == 2 then Eight(0xf97020b8, 0xc2a4cc5c, 0x68a1223c, 0x5f9dfe9d, 0x1043bb68, 0x90a873d0, 0x6dd8b8b2, 0xb15a5446)
        else Eight(0x8df8d9d5, 0xc928fa4f, 0xd7910812, 0x72a012f7, 0x35e74948, 0x7912b7b2, 0xff1aba05, 0x021cebe5)
    else
      if i < 6 then
        if i == 4 then Eight(0x5fdd8281, 0xc00ef710, 0x9b347c71, 0x77d2b7ab, 0xeaa721b4, 0xe44c8ca4, 0xf32438dc, 0x76095e4a)
        else Eight(0xa175bcd4, 0x66a92548, 0x9d48f88b, 0x57e0f535, 0x43e4b2fc, 0x8afd07b1, 0x35144d1d, 0x308350bb)
      else
        if i == 6 then Eight(0xf9ed1413, 0x0eeb4fdb, 0x11ca98a2, 0x46b957fe, 0x0b4d937d, 0x44281342, 0x6d3b2639, 0x4e2847b0)
        else Eight(0x7d6c51eb, 0xde62cc5c, 0xe3f8654c, 0x7f0544c3, 0xf9ea121e, 0x32ae2b99, 0x730f0eaf, 0xfc6d3dff)
  }

  function OuterA(i: nat): (r: Eight)
  {
    if i < 4 then
      if i < 2 then
        if i == 0 then Eight(0x797c8e45, 0x6228df9a, 0xfe6b3bfd, 0x5be56772, 0x219779f4, 0x572d78fc, 0x340de4b4, 0x98f1be16)
        else Eight(0x2dae9fa6, 0xa675ee63, 0x929b1eca, 0x049dcef5, 0x5775e657, 0x2a95323c, 0x74087376, 0x7f0c7eae)
      else
        if i == 2 then Eight(0x65f99f2d, 0xd17322f0, 0xf1ed6ada, 0x0be0e2ce, 0xa000b114, 0x7c545f56, 0xd9f5ea9a, 0x5b186611)
        else Eight(0x23b2e154, 0xbad65cc0, 0x93a9e11c, 0x997efa88, 0x53fa9c94, 0x9bbb937f, 0x89156f88, 0x3ad3cdc6)
    else
      if i < 6 then
        if i == 4 then Eight(0xe8f21e5e, 0x816f564f, 0xd66f90de, 0x59092bbe, 0xa5c44e1d, 0x33b6ec4a, 0x8cc77161, 0x0096a11d)
        else Eight(0x962723ff, 0xc4ba3fea, 0xb15585a6, 0xdced6e65, 0x4a9da918, 0xbfd784f7, 0x9b7a439c, 0x1dfc67bc)
      else
        if i == 6 then Eight(0x08f70497, 0xe652ad4a, 0x2d97f3b7, 0xea7f9c11, 0xab548371, 0xa25ae200, 0x43ea748b, 0x1ee962a0)
        else Eight(0x61776588, 0x64e217fd, 0xc0d9406a, 0x76b7271a, 0xb52389b9, 0x98e24e59, 0xcd8dfd68, 0x96d97a0b)
  }

  function OuterE(i: nat): (r: Eight)
  {
    if i < 4 then
      if i < 2 then
        if i == 0 then Eight(0x163be89a, 0x44dc2737, 0x8882cd13, 0x3eebe39d, 0xe7b438a7, 0xa34bda62, 0x770990b5, 0xa099a302)
        else Eight(0xaaa72a7b, 0xf4d1567e, 0xcc797eaa, 0xb8467509, 0xbcd233d9, 0x896eb261, 0x3080c33f, 0xe61875df)
      else
        if i == 2 then Eight(0xe418b512, 0x4095d86e, 0x012b1f44, 0x39ec786a, 0x1d158dcc, 0x098520a8, 0x6ec6b598, 0x39a26f5b)
        else Eight(0x628aa02b, 0x11b0e4ba, 0xa04a23fd, 0xb559e7ff, 0xd1bd2e30, 0xa8688de5, 0xed64ee9b, 0x2cd7f745)
    else
      if i < 6 then
        if i == 4 then Eight(0xf1a6ae20, 0xf3a4de5c, 0xc712c12c, 0x463fb714, 0xce28dddb, 0xd734ecc9, 0xfca585b6, 0xbde12442)
        else Eight(0x290ab7e3, 0x0cef8319, 0x12dfd1cf, 0x71d67694, 0x5a1b71b0, 0x7ef2b83c, 0xd7965b4f, 0x8bd61b2d)
      else
        if i == 6 then Eight(0xe8955f78, 0x51940fe7, 0x22a55f57, 0xd2921152, 0x6192d7a4, 0xba003f44, 0x74083d53, 0x889b6d32)
        else Eight(0x52b156e1, 0xd9c8a219, 0x3153f5d1, 0x5e4b45ff, 0x37c5d222, 0x5a6db776, 0x3bf6fbd2, 0x801c23a9)
  }

  // ------------------------------------------------------------ every entry follows

  /** One round, told by the words that it reads and the two that it makes. */
  predicate RoundHolds(d: bv32, c: bv32, b: bv32, a: bv32, h: bv32, g: bv32, f: bv32, e: bv32,
                       k: bv32, w: bv32, a': bv32, e': bv32)
  {
    a' == NewAW(a, b, c, e, f, g, h, k, w) && e' == NewEW(d, e, f, g, h, k, w)
  }

  predicate OctetHolds(p: Eight, q: Eight, k: Eight, w: Eight, a: Eight, e: Eight)
  {
    && RoundHolds(p.x4, p.x5, p.x6, p.x7, q.x4, q.x5, q.x6, q.x7, k.x0, w.x0, a.x0, e.x0)
    && RoundHolds(p.x5, p.x6, p.x7, a.x0, q.x5, q.x6, q.x7, e.x0, k.x1, w.x1, a.x1, e.x1)
    && RoundHolds(p.x6, p.x7, a.x0, a.x1, q.x6, q.x7, e.x0, e.x1, k.x2, w.x2, a.x2, e.x2)
    && RoundHolds(p.x7, a.x0, a.x1, a.x2, q.x7, e.x0, e.x1, e.x2, k.x3, w.x3, a.x3, e.x3)
    && RoundHolds(a.x0, a.x1, a.x2, a.x3, e.x0, e.x1, e.x2, e.x3, k.x4, w.x4, a.x4, e.x4)
    && RoundHolds(a.x1, a.x2, a.x3, a.x4, e.x1, e.x2, e.x3, e.x4, k.x5, w.x5, a.x5, e.x5)
    && RoundHolds(a.x2, a.x3, a.x4, a.x5, e.x2, e.x3, e.x4, e.x5, k.x6, w.x6, a.x6, e.x6)
    && RoundHolds(a.x3, a.x4, a.x5, a.x6, e.x3, e.x4, e.x5, e.x6, k.x7, w.x7, a.x7, e.x7)
  }

  predicate WordsHold(p: Eight, q: Eight, w: Eight)
  {
    && w.x0 == NextWordW(q.x6, q.x1, p.x1, p.x0)
    && w.x1 == NextWordW(q.x7, q.x2, p.x2, p.x1)
    && w.x2 == NextWordW(w.x0, q.x3, p.x3, p.x2)
    && w.x3 == NextWordW(w.x1, q.x4, p.x4, p.x3)
    && w.x4 == NextWordW(w.x2, q.x5, p.x5, p.x4)
    && w.x5 == NextWordW(w.x3, q.x6, p.x6, p.x5)
    && w.x6 == NextWordW(w.x4, q.x7, p.x7, p.x6)
    && w.x7 == NextWordW(w.x5, w.x0, q.x0, p.x7)
  }

  lemma Abc0() ensures OctetHolds(StartA(), StartE(), KRowW(0), AbcW(0), AbcA(0), AbcE(0)) {}
  lemma Abc1() ensures OctetHolds(AbcA(0), AbcE(0), KRowW(1), AbcW(1), AbcA(1), AbcE(1)) {}
  lemma Abc2() ensures OctetHolds(AbcA(1), AbcE(1), KRowW(2), AbcW(2), AbcA(2), AbcE(2)) {}
  lemma Abc3() ensures OctetHolds(AbcA(2), AbcE(2), KRowW(3), AbcW(3), AbcA(3), AbcE(3)) {}
  lemma Abc4() ensures OctetHolds(AbcA(3), AbcE(3), KRowW(4), AbcW(4), AbcA(4), AbcE(4)) {}
  lemma Abc5() ensures OctetHolds(AbcA(4), AbcE(4), KRowW(5), AbcW(5), AbcA(5), AbcE(5)) {}
  lemma Abc6() ensures OctetHolds(AbcA(5), AbcE(5), KRowW(6), AbcW(6), AbcA(6), AbcE(6)) {}
  lemma Abc7() ensures OctetHolds(AbcA(6), AbcE(6), KRowW(7), AbcW(7), AbcA(7), AbcE(7)) {}
  lemma AbcWords2() ensures WordsHold(AbcW(0), AbcW(1), AbcW(2)) {}
  lemma AbcWords3() ensures WordsHold(AbcW(1), AbcW(2), AbcW(3)) {}
  lemma AbcWords4() ensures WordsHold(AbcW(2), AbcW(3), AbcW(4)) {}
  lemma AbcWords5() ensures WordsHold(AbcW(3), AbcW(4), AbcW(5)) {}
  lemma AbcWords6() ensures WordsHold(AbcW(4), AbcW(5), AbcW(6)) {}
  lemma AbcWords7() ensures WordsHold(AbcW(5), AbcW(6), AbcW(7)) {}

  lemma Inner0() ensures OctetHolds(StartA(), StartE(), KRowW(0), InnerW(0), InnerA(0), InnerE(0)) {}
  lemma Inner1() ensures OctetHolds(InnerA(0), InnerE(0), KRowW(1), InnerW(1), InnerA(1), InnerE(1)) {}
  lemma Inner2() ensures OctetHolds(InnerA(1), InnerE(1), KRowW(2), InnerW(2), InnerA(2), InnerE(2)) {}
  lemma Inner3() ensures OctetHolds(InnerA(2), InnerE(2), KRowW(3), InnerW(3), InnerA(3), InnerE(3)) {}
  lemma Inner4() ensures OctetHolds(InnerA(3), InnerE(3), KRowW(4), InnerW(4), InnerA(4), InnerE(4)) {}
  lemma Inner5() ensures OctetHolds(InnerA(4), InnerE(4), KRowW(5), InnerW(5), InnerA(5), InnerE(5)) {}
  lemma Inner6() ensures OctetHolds(InnerA(5), InnerE(5), KRowW(6), InnerW(6), InnerA(6), InnerE(6)) {}
  lemma Inner7() ensures OctetHolds(InnerA(6), InnerE(6), KRowW(7), InnerW(7), InnerA(7), InnerE(7)) {}
  lemma InnerWords2() ensures WordsHold(InnerW(0), InnerW(1), InnerW(2)) {}
  lemma InnerWords3() ensures WordsHold(InnerW(1), InnerW(2), InnerW(3)) {}
  lemma InnerWords4() ensures WordsHold(InnerW(2), InnerW(3), InnerW(4)) {}
  lemma InnerWords5() ensures WordsHold(InnerW(3), InnerW(4), InnerW(5)) {}
  lemma InnerWords6() ensures WordsHold(InnerW(4), InnerW(5), InnerW(6)) {}
  lemma InnerWords7() ensures WordsHold(InnerW(5), InnerW(6), InnerW(7)) {}

  lemma Outer0() ensures OctetHolds(StartA(), StartE(), KRowW(0), OuterW(0), OuterA(0), OuterE(0)) {}
  lemma Outer1() ensures OctetHolds(OuterA(0), OuterE(0), KRowW(1), OuterW(1), OuterA(1), OuterE(1)) {}
  lemma Outer2() ensures OctetHolds(OuterA(1), OuterE(1), KRowW(2), OuterW(2), OuterA(2), OuterE(2)) {}
  lemma Outer3() ensures OctetHolds(OuterA(2), OuterE(2), KRowW(3), OuterW(3), OuterA(3), OuterE(3)) {}
  lemma Outer4() ensures OctetHolds(OuterA(3), OuterE(3), KRowW(4), OuterW(4), OuterA(4), OuterE(4)) {}
  lemma Outer5() ensures OctetHolds(OuterA(4), OuterE(4), KRowW(5), OuterW(5), OuterA(5), OuterE(5)) {}
  lemma Outer6() ensures OctetHolds(OuterA(5), OuterE(5), KRowW(6), OuterW(6), OuterA(6), OuterE(6)) {}
  lemma Outer7() ensures OctetHolds(OuterA(6), OuterE(6), KRowW(7), OuterW(7), OuterA(7), OuterE(7)) {}
  lemma OuterWords2() ensures WordsHold(OuterW(0), OuterW(1), OuterW(2)) {}
  lemma OuterWords3() ensures WordsHold(OuterW(1), OuterW(2), OuterW(3)) {}
  lemma OuterWords4() ensures WordsHold(OuterW(2), OuterW(3), OuterW(4)) {}
  lemma OuterWords5() ensures WordsHold(OuterW(3), OuterW(4), OuterW(5)) {}
  lemma OuterWords6() ensures WordsHold(OuterW(4), OuterW(5), OuterW(6)) {}
  lemma OuterWords7() ensures WordsHold(OuterW(5), OuterW(6), OuterW(7)) {}

  lemma AbcOctets(i: nat)
    requires i < 8
    ensures Octet(Abc, i)
  {
    hide OctetHolds, AbcA, AbcE, AbcW, KRowW, StartA, StartE;
    match i
    case 0 => Abc0();
    case 1 => Abc1();
    case 2 => Abc2();
    case 3 => Abc3();
    case 4 => Abc4();
    case 5 => Abc5();
    case 6 => Abc6();
    case _ => Abc7();
  }

  lemma AbcWordOctets(i: nat)
    requires 2 <= i < 8
    ensures WordOctet(Abc, i)
  {
    hide WordsHold, AbcW;
    match i
    case 2 => AbcWords2();
    case 3 => AbcWords3();
    case 4 => AbcWords4();
    case 5 => AbcWords5();
    case 6 => AbcWords6();
    case _ => AbcWords7();
  }

  lemma InnerOctets(i: nat)
    requires i < 8
    ensures Octet(Inner, i)
  {
    hide OctetHolds, InnerA, InnerE, InnerW, KRowW, StartA, StartE;
    match i
    case 0 => Inner0();
    case 1 => Inner1();
    case 2 => Inner2();
    case 3 => Inner3();
    case 4 => Inner4();
    case 5 => Inner5();
    case 6 => Inner6();
    case _ => Inner7();
  }

  lemma InnerWordOctets(i: nat)
    requires 2 <= i < 8
    ensures WordOctet(Inner, i)
  {
    hide WordsHold, InnerW;
    match i
    case 2 => InnerWords2();
    case 3 => InnerWords3();
    case 4 => InnerWords4();
    case 5 => InnerWords5();
    case 6 => InnerWords6();
    case _ => InnerWords7();
  }

  lemma OuterOctets(i: nat)
    requires i < 8
    ensures Octet(Outer, i)
  {
    hide OctetHolds, OuterA, OuterE, OuterW, KRowW, StartA, StartE;
    match i
    case 0 => Outer0();
    case 1 => Outer1();
    case 2 => Outer2();
    case 3 => Outer3();
    case 4 => Outer4();
    case 5 => Outer5();
    case 6 => Outer6();
    case _ => Outer7();
  }

  lemma OuterWordOctets(i: nat)
    requires 2 <= i < 8
    ensures WordOctet(Outer, i)
  {
    hide WordsHold, OuterW;
    match i
    case 2 => OuterWords2();
    case 3 => OuterWords3();
    case 4 => OuterWords4();
    case 5 => OuterWords5();
    case 6 => OuterWords6();
    case _ => OuterWords7();
  }

  predicate Octet(x: Example, i: nat)
  {
    OctetHolds(BeforeA(x, i), BeforeE(x, i), KRowW(i), W(x, i), A(x, i), E(x, i))
  }

  predicate WordOctet(x: Example, i: nat)
    requires i >= 2
  {
    WordsHold(W(x, i - 2), W(x, i - 1), W(x, i))
  }

  lemma OctetsHold(x: Example, i: nat)
    requires i < 8
    ensures Octet(x, i) && (i >= 2 ==> WordOctet(x, i))
  {
    hide Octet, WordOctet;
    match x
    case Abc => AbcOctets(i); if i >= 2 { AbcWordOctets(i); }
    case Inner => InnerOctets(i); if i >= 2 { InnerWordOctets(i); }
    case Outer => OuterOctets(i); if i >= 2 { OuterWordOctets(i); }
  }

  // ------------------------------------------------------------ the runs

  /** The sixteen words of the block. */
  function Words(x: Example): (ws: seq<bv32>)
    ensures |ws| == 16
  {
    seq(16, t requires 0 <= t < 16 => At(W(x, t / 8), t % 8))
  }

  /** The registers after a row. */
  function Ends(a: Eight, e: Eight): (r: RegsW)
  {
    RegsW(a.x7, a.x6, a.x5, a.x4, e.x7, e.x6, e.x5, e.x4)
  }

  function Start(): (r: RegsW)
  {
    Ends(StartA(), StartE())
  }

  predicate RowScheduled(ws: seq<bv32>, t: nat, w: Eight)
    requires |ws| == 16
  {
    && ScheduleW(ws, t) == w.x0 && ScheduleW(ws, t + 1) == w.x1
    && ScheduleW(ws, t + 2) == w.x2 && ScheduleW(ws, t + 3) == w.x3
    && ScheduleW(ws, t + 4) == w.x4 && ScheduleW(ws, t + 5) == w.x5
    && ScheduleW(ws, t + 6) == w.x6 && ScheduleW(ws, t + 7) == w.x7
  }

  lemma LaterWord(ws: seq<bv32>, t: nat)
    requires |ws| == 16 && t >= 16
    ensures ScheduleW(ws, t) == NextWordW(ScheduleW(ws, t - 2), ScheduleW(ws, t - 7), ScheduleW(ws, t - 15), ScheduleW(ws, t - 16))
  {
    hide NextWordW;
  }

  lemma NextRow(ws: seq<bv32>, t: nat, p: Eight, q: Eight, w: Eight)
    requires |ws| == 16 && RowScheduled(ws, t, p) && RowScheduled(ws, t + 8, q) && WordsHold(p, q, w)
    ensures RowScheduled(ws, t + 16, w)
  {
    hide NextWordW, ScheduleW;
    LaterWord(ws, t + 16);
    LaterWord(ws, t + 17);
    LaterWord(ws, t + 18);
    LaterWord(ws, t + 19);
    LaterWord(ws, t + 20);
    LaterWord(ws, t + 21);
    LaterWord(ws, t + 22);
    LaterWord(ws, t + 23);
  }

  lemma FirstWord(x: Example, i: nat, j: nat)
    requires i < 2 && j < 8
    ensures ScheduleW(Words(x), 8 * i + j) == At(W(x, i), j)
  {
    hide At, W;
  }

  lemma FirstRow(x: Example, i: nat)
    requires i < 2
    ensures RowScheduled(Words(x), 8 * i, W(x, i))
  {
    hide W, ScheduleW, Words;
    FirstWord(x, i, 0);
    FirstWord(x, i, 1);
    FirstWord(x, i, 2);
    FirstWord(x, i, 3);
    FirstWord(x, i, 4);
    FirstWord(x, i, 5);
    FirstWord(x, i, 6);
    FirstWord(x, i, 7);
  }

  lemma {:induction false} RowsScheduled(x: Example, i: nat)
    requires i < 8
    ensures RowScheduled(Words(x), 8 * i, W(x, i))
  {
    hide RowScheduled, Words, W, WordsHold;
    if i < 2 {
      FirstRow(x, i);
    } else {
      RowsScheduled(x, i - 2);
      RowsScheduled(x, i - 1);
      OctetsHold(x, i);
      NextRow(Words(x), 8 * (i - 2), W(x, i - 2), W(x, i - 1), W(x, i));
    }
  }

  lemma KAt(i: nat, j: nat)
    requires j < 8
    ensures KW(8 * i + j) == At(KRowW(i), j)
  {
    hide KRowW, At;
  }

  predicate KRowAt(t: nat, k: Eight)
  {
    && KW(t) == k.x0 && KW(t + 1) == k.x1 && KW(t + 2) == k.x2 && KW(t + 3) == k.x3
    && KW(t + 4) == k.x4 && KW(t + 5) == k.x5 && KW(t + 6) == k.x6 && KW(t + 7) == k.x7
  }

  lemma KRowIs(i: nat)
    ensures KRowAt(8 * i, KRowW(i))
  {
    hide KRowW, KW;
    KAt(i, 0);
    KAt(i, 1);
    KAt(i, 2);
    KAt(i, 3);
    KAt(i, 4);
    KAt(i, 5);
    KAt(i, 6);
    KAt(i, 7);
  }

  lemma OneRound(r: RegsW, ws: seq<bv32>, t: nat, s: RegsW, a: bv32, e: bv32, s': RegsW)
    requires |ws| == 16 && RoundsW(r, ws, t) == s
    requires a == NewAW(s.a, s.b, s.c, s.e, s.f, s.g, s.h, KW(t), ScheduleW(ws, t))
    requires e == NewEW(s.d, s.e, s.f, s.g, s.h, KW(t), ScheduleW(ws, t))
    requires s' == RegsW(a, s.a, s.b, s.c, e, s.e, s.f, s.g)
    ensures RoundsW(r, ws, t + 1) == s'
  {
    hide NewAW, NewEW, KW, ScheduleW;
  }

  lemma EightRounds(r: RegsW, ws: seq<bv32>, t: nat, p: Eight, q: Eight, k: Eight, w: Eight, a: Eight, e: Eight)
    requires |ws| == 16 && RoundsW(r, ws, t) == Ends(p, q)
    requires OctetHolds(p, q, k, w, a, e) && RowScheduled(ws, t, w)
    requires KRowAt(t, k)
    ensures RoundsW(r, ws, t + 8) == Ends(a, e)
  {
    hide NewAW, NewEW, KW, ScheduleW, RoundsW;
    var s1 := RegsW(a.x0, p.x7, p.x6, p.x5, e.x0, q.x7, q.x6, q.x5);
    var s2 := RegsW(a.x1, a.x0, p.x7, p.x6, e.x1, e.x0, q.x7, q.x6);
    var s3 := RegsW(a.x2, a.x1, a.x0, p.x7, e.x2, e.x1, e.x0, q.x7);
    var s4 := RegsW(a.x3, a.x2, a.x1, a.x0, e.x3, e.x2, e.x1, e.x0);
    var s5 := RegsW(a.x4, a.x3, a.x2, a.x1, e.x4, e.x3, e.x2, e.x1);
    var s6 := RegsW(a.x5, a.x4, a.x3, a.x2, e.x5, e.x4, e.x3, e.x2);
    var s7 := RegsW(a.x6, a.x5, a.x4, a.x3, e.x6, e.x5, e.x4, e.x3);
    OneRound(r, ws, t, Ends(p, q), a.x0, e.x0, s1);
    OneRound(r, ws, t + 1, s1, a.x1, e.x1, s2);
    OneRound(r, ws, t + 2, s2, a.x2, e.x2, s3);
    OneRound(r, ws, t + 3, s3, a.x3, e.x3, s4);
    OneRound(r, ws, t + 4, s4, a.x4, e.x4, s5);
    OneRound(r, ws, t + 5, s5, a.x5, e.x5, s6);
    OneRound(r, ws, t + 6, s6, a.x6, e.x6, s7);
    OneRound(r, ws, t + 7, s7, a.x7, e.x7, Ends(a, e));
  }

  lemma RowRuns(x: Example, i: nat)
    requires i < 8
    requires RoundsW(Start(), Words(x), 8 * i) == Ends(BeforeA(x, i), BeforeE(x, i))
    ensures RoundsW(Start(), Words(x), 8 * i + 8) == Ends(A(x, i), E(x, i))
  {
    hide OctetHolds, RowScheduled, RoundsW, Words, A, E, W, BeforeA, BeforeE, KRowAt, KRowW, Start, Ends;
    OctetsHold(x, i);
    RowsScheduled(x, i);
    KRowIs(i);
    EightRounds(Start(), Words(x), 8 * i, BeforeA(x, i), BeforeE(x, i), KRowW(i), W(x, i), A(x, i), E(x, i));
  }

  lemma {:induction false} RowsRun(x: Example, i: nat)
    requires i <= 8
    ensures RoundsW(Start(), Words(x), 8 * i) == Ends(BeforeA(x, i), BeforeE(x, i))
  {
    hide RoundsW, Words, A, E, StartA, StartE, Ends;
    if i == 0 {
      NoRounds(Start(), Words(x), 8 * i);
    } else {
      RowsRun(x, i - 1);
      RowRuns(x, i - 1);
    }
  }

  lemma NoRounds(r: RegsW, ws: seq<bv32>, t: nat)
    requires |ws| == 16 && t == 0
    ensures RoundsW(r, ws, t) == r
  {
  }

  /** The hash value that the processor makes of the block. */
  lemma Compressed(x: Example)
    ensures CompressW(Start(), Words(x)) == AddRegsW(Start(), Ends(A(x, 7), E(x, 7)))
  {
    hide RoundsW, Words, A, E, StartA, StartE, Ends, AddRegsW;
    var i := 8;
    RowsRun(x, i);
  }
}
