/** A known answer: the first example that goes with FIPS 180-4, the SHA-384 of "abc", with its
    message schedule and its working variables. */
module Sha384Example {
  import opened Bytes
  import opened Fips180
  import opened Sha384Engine
  import Sha384Stream

  const ABC: seq<byte> := [97, 98, 99]

  /** The message schedule of the example. */
  function Wt(i: nat): Word
    requires i < 80
  {
    if i < 8 then [0x6162638000000000, 0x0000000000000000, 0x0000000000000000, 0x0000000000000000,
       0x0000000000000000, 0x0000000000000000, 0x0000000000000000, 0x0000000000000000][i]
    else if i < 16 then [0x0000000000000000, 0x0000000000000000, 0x0000000000000000, 0x0000000000000000,
       0x0000000000000000, 0x0000000000000000, 0x0000000000000000, 0x0000000000000018][i - 8]
    else if i < 24 then [0x6162638000000000, 0x00030000000000c0, 0x0a9699a24c700003, 0x00000c0060000603,
       0x549ef62639858996, 0x00c0003300003c00, 0x1497007a8a0e9dbc, 0x62e56500cc0780f0][i - 16]
    else if i < 32 then [0x7760dd475a538797, 0xf1554b711c1c0003, 0xca2993a4345d9ff2, 0x5e0e66b5c783dd32,
       0xe25a625d00494b62, 0x9f44486fb1e4fbd2, 0xb31b8c2b06085f2f, 0x0e987660934142f6][i - 24]
    else if i < 40 then [0xa4af2cfd09fbb924, 0xad289e2e0bd53186, 0x3c74563aa2f9673e, 0x6ccdcd14cc14b53f,
       0xc3f925b337f22bde, 0x5bcc77a75ad95b54, 0x3ec2257adca09a52, 0x28246960001fc5eb][i - 32]
    else if i < 48 then [0x04e33a75ce2be88a, 0x7d5314b3c359e0e7, 0xaef7a285ff251266, 0x0b8472581deea04f,
       0xb174e26eddc7b033, 0x5d63bae58ddd88de, 0x4c044007b744ccbb, 0xe6a9aa4d74dc7d43][i - 40]
    else if i < 56 then [0xebeaf1237248019c, 0x361e80b2d00f3193, 0x2e9839125df3b175, 0x3319629293ad5363,
       0x9cbc5d89ac1b89d5, 0x275e23ffeeca50b7, 0x3b80d680bf69ef58, 0x0d0696933945a125][i - 48]
    else if i < 64 then [0x7533eabcb786ff00, 0xb89826cee6fbf0e5, 0x249b4fbcad623e9f, 0x4aea9df2b02d6f1e,
       0x2cc57475a55e8d8f, 0xb2574ae938d8be89, 0xc1b35a57b16d6aea, 0xcc4918b5949206bb][i - 56]
    else if i < 72 then [0x5099c3add79f90ec, 0x5ea81d78e7660bf1, 0xebee6267405ac2a9, 0xb01f21926108a4ab,
       0x786433dd2fe65556, 0xc54a6eaa24a0552c, 0xb3c8f1530bdbaa9e, 0xbb8abfe56f469338][i - 64]
    else [0xf63d4265cc1c5a78, 0xbe8355ea73129afb, 0x49e2db8ebdcfbeb5, 0x82269d4a883a3d99,
       0xfdf53df3011f362b, 0x464af5671d71c12e, 0xe449b68198ec611c, 0x92aeeed1a7bcf7d2][i - 72]
  }

  predicate WordFits(t: nat)
    requires 16 <= t < 80
  {
    Extend(Wt(t - 2), Wt(t - 7), Wt(t - 15), Wt(t - 16)) == Wt(t)
  }

  /** One round: x and y are the new a and e, the others move on. */
  predicate Turn(a: Word, b: Word, c: Word, d: Word, e: Word, f: Word, g: Word, h: Word, k: Word, w: Word,
                 x: Word, y: Word) {
    Round(State(a, b, c, d, e, f, g, h), k, w) == State(x, a, b, c, y, e, f, g)
  }

  // The arithmetic, on numbers only.
  lemma Turns0()
    ensures Turn(0xcbbb9d5dc1059ed8, 0x629a292a367cd507, 0x9159015a3070dd17, 0x152fecd8f70e5939, 0x67332667ffc00b31,
                 0x8eb44a8768581511, 0xdb0c2e0d64f98fa7, 0x47b5481dbefa4fa4, 0x428a2f98d728ae22, 0x6162638000000000,
                 0x470994ad30873f88, 0xbd03f724be6075f9)
    ensures Turn(0x470994ad30873f88, 0xcbbb9d5dc1059ed8, 0x629a292a367cd507, 0x9159015a3070dd17, 0xbd03f724be6075f9,
                 0x67332667ffc00b31, 0x8eb44a8768581511, 0xdb0c2e0d64f98fa7, 0x7137449123ef65cd, 0x0000000000000000,
                 0x2e91230306a12ae0, 0x5e1b4e1695372b9e)
    ensures Turn(0x2e91230306a12ae0, 0x470994ad30873f88, 0xcbbb9d5dc1059ed8, 0x629a292a367cd507, 0x5e1b4e1695372b9e,
                 0xbd03f724be6075f9, 0x67332667ffc00b31, 0x8eb44a8768581511, 0xb5c0fbcfec4d3b2f, 0x0000000000000000,
                 0xeebe5d379be707ad, 0x54074a65aef34336)
    ensures Turn(0xeebe5d379be707ad, 0x2e91230306a12ae0, 0x470994ad30873f88, 0xcbbb9d5dc1059ed8, 0x54074a65aef34336,
                 0x5e1b4e1695372b9e, 0xbd03f724be6075f9, 0x67332667ffc00b31, 0xe9b5dba58189dbbc, 0x0000000000000000,
                 0xe308483153e15ad6, 0x086c5b2d36a89178)
    ensures Turn(0xe308483153e15ad6, 0xeebe5d379be707ad, 0x2e91230306a12ae0, 0x470994ad30873f88, 0x086c5b2d36a89178,
                 0x54074a65aef34336, 0x5e1b4e1695372b9e, 0xbd03f724be6075f9, 0x3956c25bf348b538, 0x0000000000000000,
                 0x3a7a023c593d8479, 0x8aa1144850633794)
    ensures Turn(0x3a7a023c593d8479, 0xe308483153e15ad6, 0xeebe5d379be707ad, 0x2e91230306a12ae0, 0x8aa1144850633794,
                 0x086c5b2d36a89178, 0x54074a65aef34336, 0x5e1b4e1695372b9e, 0x59f111f1b605d019, 0x0000000000000000,
                 0x333199a85f92b052, 0x7a6316f0ef047ce7)
    ensures Turn(0x333199a85f92b052, 0x3a7a023c593d8479, 0xe308483153e15ad6, 0xeebe5d379be707ad, 0x7a6316f0ef047ce7,
                 0x8aa1144850633794, 0x086c5b2d36a89178, 0x54074a65aef34336, 0x923f82a4af194f9b, 0x0000000000000000,
                 0x76f0741213dd2ef6, 0x74063cba385f0675)
    ensures Turn(0x76f0741213dd2ef6, 0x333199a85f92b052, 0x3a7a023c593d8479, 0xe308483153e15ad6, 0x74063cba385f0675,
                 0x7a6316f0ef047ce7, 0x8aa1144850633794, 0x086c5b2d36a89178, 0xab1c5ed5da6d8118, 0x0000000000000000,
                 0x02f2a04d3aab1629, 0x1688b9bf14980fc0)
  {
  }

  lemma Turns8()
    ensures Turn(0x02f2a04d3aab1629, 0x76f0741213dd2ef6, 0x333199a85f92b052, 0x3a7a023c593d8479, 0x1688b9bf14980fc0,
                 0x74063cba385f0675, 0x7a6316f0ef047ce7, 0x8aa1144850633794, 0xd807aa98a3030242, 0x0000000000000000,
                 0x73e5b2a1704a0349, 0xfd00139f705907d0)
    ensures Turn(0x73e5b2a1704a0349, 0x02f2a04d3aab1629, 0x76f0741213dd2ef6, 0x333199a85f92b052, 0xfd00139f705907d0,
                 0x1688b9bf14980fc0, 0x74063cba385f0675, 0x7a6316f0ef047ce7, 0x12835b0145706fbe, 0x0000000000000000,
                 0xbf3f67ba12882648, 0x652e311d4f0a4257)
    ensures Turn(0xbf3f67ba12882648, 0x73e5b2a1704a0349, 0x02f2a04d3aab1629, 0x76f0741213dd2ef6, 0x652e311d4f0a4257,
                 0xfd00139f705907d0, 0x1688b9bf14980fc0, 0x74063cba385f0675, 0x243185be4ee4b28c, 0x0000000000000000,
                 0x33254508bb2ea48d, 0x9e18991c4f39f0ba)
    ensures Turn(0x33254508bb2ea48d, 0xbf3f67ba12882648, 0x73e5b2a1704a0349, 0x02f2a04d3aab1629, 0x9e18991c4f39f0ba,
                 0x652e311d4f0a4257, 0xfd00139f705907d0, 0x1688b9bf14980fc0, 0x550c7dc3d5ffb4e2, 0x0000000000000000,
                 0xc1fdb2a0205ea0e5, 0x04732e8bc4044582)
    ensures Turn(0xc1fdb2a0205ea0e5, 0x33254508bb2ea48d, 0xbf3f67ba12882648, 0x73e5b2a1704a0349, 0x04732e8bc4044582,
                 0x9e18991c4f39f0ba, 0x652e311d4f0a4257, 0xfd00139f705907d0, 0x72be5d74f27b896f, 0x0000000000000000,
                 0x185f9ff038a50f39, 0x8b4acfc4d2b8afe6)
    ensures Turn(0x185f9ff038a50f39, 0xc1fdb2a0205ea0e5, 0x33254508bb2ea48d, 0xbf3f67ba12882648, 0x8b4acfc4d2b8afe6,
                 0x04732e8bc4044582, 0x9e18991c4f39f0ba, 0x652e311d4f0a4257, 0x80deb1fe3b1696b1, 0x0000000000000000,
                 0xe5f06744c0d7563a, 0x2fa93d1ce9523015)
    ensures Turn(0xe5f06744c0d7563a, 0x185f9ff038a50f39, 0xc1fdb2a0205ea0e5, 0x33254508bb2ea48d, 0x2fa93d1ce9523015,
                 0x8b4acfc4d2b8afe6, 0x04732e8bc4044582, 0x9e18991c4f39f0ba, 0x9bdc06a725c71235, 0x0000000000000000,
                 0x7e32dc0e9f414783, 0x3a9950aaa5e75884)
    ensures Turn(0x7e32dc0e9f414783, 0xe5f06744c0d7563a, 0x185f9ff038a50f39, 0xc1fdb2a0205ea0e5, 0x3a9950aaa5e75884,
                 0x2fa93d1ce9523015, 0x8b4acfc4d2b8afe6, 0x04732e8bc4044582, 0xc19bf174cf692694, 0x0000000000000018,
                 0x1eab6159ae87ef6d, 0x153b895cfbc436c5)
  {
  }

  lemma Turns16()
    ensures Turn(0x1eab6159ae87ef6d, 0x7e32dc0e9f414783, 0xe5f06744c0d7563a, 0x185f9ff038a50f39, 0x153b895cfbc436c5,
                 0x3a9950aaa5e75884, 0x2fa93d1ce9523015, 0x8b4acfc4d2b8afe6, 0xe49b69c19ef14ad2, 0x6162638000000000,
                 0x33ef2cebbf1739aa, 0x9d1a64baf1d366aa)
    ensures Turn(0x33ef2cebbf1739aa, 0x1eab6159ae87ef6d, 0x7e32dc0e9f414783, 0xe5f06744c0d7563a, 0x9d1a64baf1d366aa,
                 0x153b895cfbc436c5, 0x3a9950aaa5e75884, 0x2fa93d1ce9523015, 0xefbe4786384f25e3, 0x00030000000000c0,
                 0x7df1b65f1b87d6ca, 0x5b6e369d36e8e181)
    ensures Turn(0x7df1b65f1b87d6ca, 0x33ef2cebbf1739aa, 0x1eab6159ae87ef6d, 0x7e32dc0e9f414783, 0x5b6e369d36e8e181,
                 0x9d1a64baf1d366aa, 0x153b895cfbc436c5, 0x3a9950aaa5e75884, 0x0fc19dc68b8cd5b5, 0x0a9699a24c700003,
                 0x63a24014a34bb0f6, 0xe13e610eae680d85)
    ensures Turn(0x63a24014a34bb0f6, 0x7df1b65f1b87d6ca, 0x33ef2cebbf1739aa, 0x1eab6159ae87ef6d, 0xe13e610eae680d85,
                 0x5b6e369d36e8e181, 0x9d1a64baf1d366aa, 0x153b895cfbc436c5, 0x240ca1cc77ac9c65, 0x00000c0060000603,
                 0xf1aabd313309509b, 0x674385f0d87db94f)
    ensures Turn(0xf1aabd313309509b, 0x63a24014a34bb0f6, 0x7df1b65f1b87d6ca, 0x33ef2cebbf1739aa, 0x674385f0d87db94f,
                 0xe13e610eae680d85, 0x5b6e369d36e8e181, 0x9d1a64baf1d366aa, 0x2de92c6f592b0275, 0x549ef62639858996,
                 0x9ba737ae88a72c64, 0x3fc2614c43906c0f)
    ensures Turn(0x9ba737ae88a72c64, 0xf1aabd313309509b, 0x63a24014a34bb0f6, 0x7df1b65f1b87d6ca, 0x3fc2614c43906c0f,
                 0x674385f0d87db94f, 0xe13e610eae680d85, 0x5b6e369d36e8e181, 0x4a7484aa6ea6e483, 0x00c0003300003c00,
                 0x042c2dc9a5bf558a, 0x19316bebc88e01f2)
    ensures Turn(0x042c2dc9a5bf558a, 0x9ba737ae88a72c64, 0xf1aabd313309509b, 0x63a24014a34bb0f6, 0x19316bebc88e01f2,
                 0x3fc2614c43906c0f, 0x674385f0d87db94f, 0xe13e610eae680d85, 0x5cb0a9dcbd41fbd4, 0x1497007a8a0e9dbc,
                 0x7799c75acc748c0f, 0xa7bbd65bf64f58c8)
    ensures Turn(0x7799c75acc748c0f, 0x042c2dc9a5bf558a, 0x9ba737ae88a72c64, 0xf1aabd313309509b, 0xa7bbd65bf64f58c8,
                 0x19316bebc88e01f2, 0x3fc2614c43906c0f, 0x674385f0d87db94f, 0x76f988da831153b5, 0x62e56500cc0780f0,
                 0xccf99a80f92bf002, 0xe52a24fae4e8fc9b)
  {
  }

  lemma Turns24()
    ensures Turn(0xccf99a80f92bf002, 0x7799c75acc748c0f, 0x042c2dc9a5bf558a, 0x9ba737ae88a72c64, 0xe52a24fae4e8fc9b,
                 0xa7bbd65bf64f58c8, 0x19316bebc88e01f2, 0x3fc2614c43906c0f, 0x983e5152ee66dfab, 0x7760dd475a538797,
                 0xae993474363efe68, 0x587f308d58681928)
    ensures Turn(0xae993474363efe68, 0xccf99a80f92bf002, 0x7799c75acc748c0f, 0x042c2dc9a5bf558a, 0x587f308d58681928,
                 0xe52a24fae4e8fc9b, 0xa7bbd65bf64f58c8, 0x19316bebc88e01f2, 0xa831c66d2db43210, 0xf1554b711c1c0003,
                 0x335063d1a2aec92f, 0xc2d6d65e38c6ea79)
    ensures Turn(0x335063d1a2aec92f, 0xae993474363efe68, 0xccf99a80f92bf002, 0x7799c75acc748c0f, 0xc2d6d65e38c6ea79,
                 0x587f308d58681928, 0xe52a24fae4e8fc9b, 0xa7bbd65bf64f58c8, 0xb00327c898fb213f, 0xca2993a4345d9ff2,
                 0x53a78b0cca01ba37, 0x3b65a26c3c92c8f3)
    ensures Turn(0x53a78b0cca01ba37, 0x335063d1a2aec92f, 0xae993474363efe68, 0xccf99a80f92bf002, 0x3b65a26c3c92c8f3,
                 0xc2d6d65e38c6ea79, 0x587f308d58681928, 0xe52a24fae4e8fc9b, 0xbf597fc7beef0ee4, 0x5e0e66b5c783dd32,
                 0xab7ffa529f622930, 0xb9d8a2f2762901ea)
    ensures Turn(0xab7ffa529f622930, 0x53a78b0cca01ba37, 0x335063d1a2aec92f, 0xae993474363efe68, 0xb9d8a2f2762901ea,
                 0x3b65a26c3c92c8f3, 0xc2d6d65e38c6ea79, 0x587f308d58681928, 0xc6e00bf33da88fc2, 0xe25a625d00494b62,
                 0xe428bb43afe3d63e, 0x6a8527525f898726)
    ensures Turn(0xe428bb43afe3d63e, 0xab7ffa529f622930, 0x53a78b0cca01ba37, 0x335063d1a2aec92f, 0x6a8527525f898726,
                 0xb9d8a2f2762901ea, 0x3b65a26c3c92c8f3, 0xc2d6d65e38c6ea79, 0xd5a79147930aa725, 0x9f44486fb1e4fbd2,
                 0xbbed541a5128088c, 0x7973aadbde294be9)
    ensures Turn(0xbbed541a5128088c, 0xe428bb43afe3d63e, 0xab7ffa529f622930, 0x53a78b0cca01ba37, 0x7973aadbde294be9,
                 0x6a8527525f898726, 0xb9d8a2f2762901ea, 0x3b65a26c3c92c8f3, 0x06ca6351e003826f, 0xb31b8c2b06085f2f,
                 0x4c5c38df7ec8baf4, 0x422ceea0200e9ee4)
    ensures Turn(0x4c5c38df7ec8baf4, 0xbbed541a5128088c, 0xe428bb43afe3d63e, 0xab7ffa529f622930, 0x422ceea0200e9ee4,
                 0x7973aadbde294be9, 0x6a8527525f898726, 0xb9d8a2f2762901ea, 0x142929670a0e6e70, 0x0e987660934142f6,
                 0x4ba456ec244033ed, 0x7cf40857056d86b0)
  {
  }

  lemma Turns32()
    ensures Turn(0x4ba456ec244033ed, 0x4c5c38df7ec8baf4, 0xbbed541a5128088c, 0xe428bb43afe3d63e, 0x7cf40857056d86b0,
                 0x422ceea0200e9ee4, 0x7973aadbde294be9, 0x6a8527525f898726, 0x27b70a8546d22ffc, 0xa4af2cfd09fbb924,
                 0xaa4a6ab2ac5f5dd8, 0xad2b1ecfb5bfc556)
    ensures Turn(0xaa4a6ab2ac5f5dd8, 0x4ba456ec244033ed, 0x4c5c38df7ec8baf4, 0xbbed541a5128088c, 0xad2b1ecfb5bfc556,
                 0x7cf40857056d86b0, 0x422ceea0200e9ee4, 0x7973aadbde294be9, 0x2e1b21385c26c926, 0xad289e2e0bd53186,
                 0x9cb941f2ced774b3, 0x029f66c7b4569bf0)
    ensures Turn(0x9cb941f2ced774b3, 0xaa4a6ab2ac5f5dd8, 0x4ba456ec244033ed, 0x4c5c38df7ec8baf4, 0x029f66c7b4569bf0,
                 0xad2b1ecfb5bfc556, 0x7cf40857056d86b0, 0x422ceea0200e9ee4, 0x4d2c6dfc5ac42aed, 0x3c74563aa2f9673e,
                 0x39265f358594de27, 0x3f7b1c260c82e54f)
    ensures Turn(0x39265f358594de27, 0x9cb941f2ced774b3, 0xaa4a6ab2ac5f5dd8, 0x4ba456ec244033ed, 0x3f7b1c260c82e54f,
                 0x029f66c7b4569bf0, 0xad2b1ecfb5bfc556, 0x7cf40857056d86b0, 0x53380d139d95b3df, 0x6ccdcd14cc14b53f,
                 0x09cca487d39b02a1, 0x4a22b37b58a5b1b0)
    ensures Turn(0x09cca487d39b02a1, 0x39265f358594de27, 0x9cb941f2ced774b3, 0xaa4a6ab2ac5f5dd8, 0x4a22b37b58a5b1b0,
                 0x3f7b1c260c82e54f, 0x029f66c7b4569bf0, 0xad2b1ecfb5bfc556, 0x650a73548baf63de, 0xc3f925b337f22bde,
                 0xd48d97ce438cf4f0, 0xa239e00b8baa0410)
    ensures Turn(0xd48d97ce438cf4f0, 0x09cca487d39b02a1, 0x39265f358594de27, 0x9cb941f2ced774b3, 0xa239e00b8baa0410,
                 0x4a22b37b58a5b1b0, 0x3f7b1c260c82e54f, 0x029f66c7b4569bf0, 0x766a0abb3c77b2a8, 0x5bcc77a75ad95b54,
                 0xd6f41e25a8b634d6, 0x25755cb8179dd0b0)
    ensures Turn(0xd6f41e25a8b634d6, 0xd48d97ce438cf4f0, 0x09cca487d39b02a1, 0x39265f358594de27, 0x25755cb8179dd0b0,
                 0xa239e00b8baa0410, 0x4a22b37b58a5b1b0, 0x3f7b1c260c82e54f, 0x81c2c92e47edaee6, 0x3ec2257adca09a52,
                 0x54078334358573b4, 0x0e419fb0802b0efc)
    ensures Turn(0x54078334358573b4, 0xd6f41e25a8b634d6, 0xd48d97ce438cf4f0, 0x09cca487d39b02a1, 0x0e419fb0802b0efc,
                 0x25755cb8179dd0b0, 0xa239e00b8baa0410, 0x4a22b37b58a5b1b0, 0x92722c851482353b, 0x28246960001fc5eb,
                 0xdb24f9a03f4fff6b, 0xd30e99b4b394b090)
  {
  }

  lemma Turns40()
    ensures Turn(0xdb24f9a03f4fff6b, 0x54078334358573b4, 0xd6f41e25a8b634d6, 0xd48d97ce438cf4f0, 0xd30e99b4b394b090,
                 0x0e419fb0802b0efc, 0x25755cb8179dd0b0, 0xa239e00b8baa0410, 0xa2bfe8a14cf10364, 0x04e33a75ce2be88a,
                 0x3604c53a845efc37, 0x791b2b4af7338b99)
    ensures Turn(0x3604c53a845efc37, 0xdb24f9a03f4fff6b, 0x54078334358573b4, 0xd6f41e25a8b634d6, 0x791b2b4af7338b99,
                 0xd30e99b4b394b090, 0x0e419fb0802b0efc, 0x25755cb8179dd0b0, 0xa81a664bbc423001, 0x7d5314b3c359e0e7,
                 0xf41b1c0eee89bdc6, 0xe319b77d9e4e87f9)
    ensures Turn(0xf41b1c0eee89bdc6, 0x3604c53a845efc37, 0xdb24f9a03f4fff6b, 0x54078334358573b4, 0xe319b77d9e4e87f9,
                 0x791b2b4af7338b99, 0xd30e99b4b394b090, 0x0e419fb0802b0efc, 0xc24b8b70d0f89791, 0xaef7a285ff251266,
                 0x36644ae374632e3a, 0x458250878a3972b2)
    ensures Turn(0x36644ae374632e3a, 0xf41b1c0eee89bdc6, 0x3604c53a845efc37, 0xdb24f9a03f4fff6b, 0x458250878a3972b2,
                 0xe319b77d9e4e87f9, 0x791b2b4af7338b99, 0xd30e99b4b394b090, 0xc76c51a30654be30, 0x0b8472581deea04f,
                 0x88806f6ae9fcd65b, 0xcfde2e6ea54fa576)
    ensures Turn(0x88806f6ae9fcd65b, 0x36644ae374632e3a, 0xf41b1c0eee89bdc6, 0x3604c53a845efc37, 0xcfde2e6ea54fa576,
                 0x458250878a3972b2, 0xe319b77d9e4e87f9, 0x791b2b4af7338b99, 0xd192e819d6ef5218, 0xb174e26eddc7b033,
                 0x51dcaa36995c301d, 0xe37f778353998050)
    ensures Turn(0x51dcaa36995c301d, 0x88806f6ae9fcd65b, 0x36644ae374632e3a, 0xf41b1c0eee89bdc6, 0xe37f778353998050,
                 0xcfde2e6ea54fa576, 0x458250878a3972b2, 0xe319b77d9e4e87f9, 0xd69906245565a910, 0x5d63bae58ddd88de,
                 0xef5e3885a2f238df, 0x740e347f24e18fda)
    ensures Turn(0xef5e3885a2f238df, 0x51dcaa36995c301d, 0x88806f6ae9fcd65b, 0x36644ae374632e3a, 0x740e347f24e18fda,
                 0xe37f778353998050, 0xcfde2e6ea54fa576, 0x458250878a3972b2, 0xf40e35855771202a, 0x4c044007b744ccbb,
                 0xeb3753f4283f4818, 0x0ae48cf840bb8be9)
    ensures Turn(0xeb3753f4283f4818, 0xef5e3885a2f238df, 0x51dcaa36995c301d, 0x88806f6ae9fcd65b, 0x0ae48cf840bb8be9,
                 0x740e347f24e18fda, 0xe37f778353998050, 0xcfde2e6ea54fa576, 0x106aa07032bbd1b8, 0xe6a9aa4d74dc7d43,
                 0xa6998d63a5d09e04, 0xe21095012ee0b72a)
  {
  }

  lemma Turns48()
    ensures Turn(0xa6998d63a5d09e04, 0xeb3753f4283f4818, 0xef5e3885a2f238df, 0x51dcaa36995c301d, 0xe21095012ee0b72a,
                 0x0ae48cf840bb8be9, 0x740e347f24e18fda, 0xe37f778353998050, 0x19a4c116b8d2d0c8, 0xebeaf1237248019c,
                 0xd3698fb64df175b0, 0xc2f0b90ffce80739)
    ensures Turn(0xd3698fb64df175b0, 0xa6998d63a5d09e04, 0xeb3753f4283f4818, 0xef5e3885a2f238df, 0xc2f0b90ffce80739,
                 0xe21095012ee0b72a, 0x0ae48cf840bb8be9, 0x740e347f24e18fda, 0x1e376c085141ab53, 0x361e80b2d00f3193,
                 0x317a3b295b991914, 0x1cadff2e6cb5aa4d)
    ensures Turn(0x317a3b295b991914, 0xd3698fb64df175b0, 0xa6998d63a5d09e04, 0xeb3753f4283f4818, 0x1cadff2e6cb5aa4d,
                 0xc2f0b90ffce80739, 0xe21095012ee0b72a, 0x0ae48cf840bb8be9, 0x2748774cdf8eeb99, 0x2e9839125df3b175,
                 0x0941da08148ba463, 0x833eb9a4bb5a073e)
    ensures Turn(0x0941da08148ba463, 0x317a3b295b991914, 0xd3698fb64df175b0, 0xa6998d63a5d09e04, 0x833eb9a4bb5a073e,
                 0x1cadff2e6cb5aa4d, 0xc2f0b90ffce80739, 0xe21095012ee0b72a, 0x34b0bcb5e19b48a8, 0x3319629293ad5363,
                 0x494ac238d68c3d0b, 0x80c8fc138e645028)
    ensures Turn(0x494ac238d68c3d0b, 0x0941da08148ba463, 0x317a3b295b991914, 0xd3698fb64df175b0, 0x80c8fc138e645028,
                 0x833eb9a4bb5a073e, 0x1cadff2e6cb5aa4d, 0xc2f0b90ffce80739, 0x391c0cb3c5c95a63, 0x9cbc5d89ac1b89d5,
                 0xc87e9168db9e97de, 0x65cf7f6a829aca04)
    ensures Turn(0xc87e9168db9e97de, 0x494ac238d68c3d0b, 0x0941da08148ba463, 0x317a3b295b991914, 0x65cf7f6a829aca04,
                 0x80c8fc138e645028, 0x833eb9a4bb5a073e, 0x1cadff2e6cb5aa4d, 0x4ed8aa4ae3418acb, 0x275e23ffeeca50b7,
                 0xedb4448879391dbb, 0x7729c85475dd318f)
    ensures Turn(0xedb4448879391dbb, 0xc87e9168db9e97de, 0x494ac238d68c3d0b, 0x0941da08148ba463, 0x7729c85475dd318f,
                 0x65cf7f6a829aca04, 0x80c8fc138e645028, 0x833eb9a4bb5a073e, 0x5b9cca4f7763e373, 0x3b80d680bf69ef58,
                 0x073775c2456dc7db, 0xa9cca0b6266b1d77)
    ensures Turn(0x073775c2456dc7db, 0xedb4448879391dbb, 0xc87e9168db9e97de, 0x494ac238d68c3d0b, 0xa9cca0b6266b1d77,
                 0x7729c85475dd318f, 0x65cf7f6a829aca04, 0x80c8fc138e645028, 0x682e6ff3d6b2b8a3, 0x0d0696933945a125,
                 0x54de8857b24afaf7, 0x8de51cff2ae4b068)
  {
  }

  lemma Turns56()
    ensures Turn(0x54de8857b24afaf7, 0x073775c2456dc7db, 0xedb4448879391dbb, 0xc87e9168db9e97de, 0x8de51cff2ae4b068,
                 0xa9cca0b6266b1d77, 0x7729c85475dd318f, 0x65cf7f6a829aca04, 0x748f82ee5defb2fc, 0x7533eabcb786ff00,
                 0x8a9cdd80f7f09c05, 0xa60ba5e9ebaeb96a)
    ensures Turn(0x8a9cdd80f7f09c05, 0x54de8857b24afaf7, 0x073775c2456dc7db, 0xedb4448879391dbb, 0xa60ba5e9ebaeb96a,
                 0x8de51cff2ae4b068, 0xa9cca0b6266b1d77, 0x7729c85475dd318f, 0x78a5636f43172f60, 0xb89826cee6fbf0e5,
                 0x3eeb22a7524d8d7f, 0xe2e6830b139df58f)
    ensures Turn(0x3eeb22a7524d8d7f, 0x8a9cdd80f7f09c05, 0x54de8857b24afaf7, 0x073775c2456dc7db, 0xe2e6830b139df58f,
                 0xa60ba5e9ebaeb96a, 0x8de51cff2ae4b068, 0xa9cca0b6266b1d77, 0x84c87814a1f0ab72, 0x249b4fbcad623e9f,
                 0x0ed77c9cde8883d3, 0x38413a2052387a9e)
    ensures Turn(0x0ed77c9cde8883d3, 0x3eeb22a7524d8d7f, 0x8a9cdd80f7f09c05, 0x54de8857b24afaf7, 0x38413a2052387a9e,
                 0xe2e6830b139df58f, 0xa60ba5e9ebaeb96a, 0x8de51cff2ae4b068, 0x8cc702081a6439ec, 0x4aea9df2b02d6f1e,
                 0xe64e4135f9d30dbc, 0x45b640454c75c349)
    ensures Turn(0xe64e4135f9d30dbc, 0x0ed77c9cde8883d3, 0x3eeb22a7524d8d7f, 0x8a9cdd80f7f09c05, 0x45b640454c75c349,
                 0x38413a2052387a9e, 0xe2e6830b139df58f, 0xa60ba5e9ebaeb96a, 0x90befffa23631e28, 0x2cc57475a55e8d8f,
                 0x1ca93a293d544328, 0xefbef83a35c0319e)
    ensures Turn(0x1ca93a293d544328, 0xe64e4135f9d30dbc, 0x0ed77c9cde8883d3, 0x3eeb22a7524d8d7f, 0xefbef83a35c0319e,
                 0x45b640454c75c349, 0x38413a2052387a9e, 0xe2e6830b139df58f, 0xa4506cebde82bde9, 0xb2574ae938d8be89,
                 0x3dc764f89e54043a, 0xa57784945550cf94)
    ensures Turn(0x3dc764f89e54043a, 0x1ca93a293d544328, 0xe64e4135f9d30dbc, 0x0ed77c9cde8883d3, 0xa57784945550cf94,
                 0xefbef83a35c0319e, 0x45b640454c75c349, 0x38413a2052387a9e, 0xbef9a3f7b2c67915, 0xc1b35a57b16d6aea,
                 0x56fb5883f1c87a05, 0xf5198a41eb80e022)
    ensures Turn(0x56fb5883f1c87a05, 0x3dc764f89e54043a, 0x1ca93a293d544328, 0xe64e4135f9d30dbc, 0xf5198a41eb80e022,
                 0xa57784945550cf94, 0xefbef83a35c0319e, 0x45b640454c75c349, 0xc67178f2e372532b, 0xcc4918b5949206bb,
                 0x24a1124262a331c7, 0x06edacae6e7b54ad)
  {
  }

  lemma Turns64()
    ensures Turn(0x24a1124262a331c7, 0x56fb5883f1c87a05, 0x3dc764f89e54043a, 0x1ca93a293d544328, 0x06edacae6e7b54ad,
                 0xf5198a41eb80e022, 0xa57784945550cf94, 0xefbef83a35c0319e, 0xca273eceea26619c, 0x5099c3add79f90ec,
                 0xeb85d19201c89694, 0x9ced24983eec8723)
    ensures Turn(0xeb85d19201c89694, 0x24a1124262a331c7, 0x56fb5883f1c87a05, 0x3dc764f89e54043a, 0x9ced24983eec8723,
                 0x06edacae6e7b54ad, 0xf5198a41eb80e022, 0xa57784945550cf94, 0xd186b8c721c0c207, 0x5ea81d78e7660bf1,
                 0xcc981ab3a59c1db4, 0xeac5516336bc8882)
    ensures Turn(0xcc981ab3a59c1db4, 0xeb85d19201c89694, 0x24a1124262a331c7, 0x56fb5883f1c87a05, 0xeac5516336bc8882,
                 0x9ced24983eec8723, 0x06edacae6e7b54ad, 0xf5198a41eb80e022, 0xeada7dd6cde0eb1e, 0xebee6267405ac2a9,
                 0xceef5d997e148b44, 0x617bbf70bb165212)
    ensures Turn(0xceef5d997e148b44, 0xcc981ab3a59c1db4, 0xeb85d19201c89694, 0x24a1124262a331c7, 0x617bbf70bb165212,
                 0xeac5516336bc8882, 0x9ced24983eec8723, 0x06edacae6e7b54ad, 0xf57d4f7fee6ed178, 0xb01f21926108a4ab,
                 0x689edf608a8e3f14, 0x3280d88472c100fd)
    ensures Turn(0x689edf608a8e3f14, 0xceef5d997e148b44, 0xcc981ab3a59c1db4, 0xeb85d19201c89694, 0x3280d88472c100fd,
                 0x617bbf70bb165212, 0xeac5516336bc8882, 0x9ced24983eec8723, 0x06f067aa72176fba, 0x786433dd2fe65556,
                 0x1e6e0255ab88079f, 0xf2001138439902b1)
    ensures Turn(0x1e6e0255ab88079f, 0x689edf608a8e3f14, 0xceef5d997e148b44, 0xcc981ab3a59c1db4, 0xf2001138439902b1,
                 0x3280d88472c100fd, 0x617bbf70bb165212, 0xeac5516336bc8882, 0x0a637dc5a2c898a6, 0xc54a6eaa24a0552c,
                 0x8c5d3b7fdad66e70, 0x90d18ec8b69f0345)
    ensures Turn(0x8c5d3b7fdad66e70, 0x1e6e0255ab88079f, 0x689edf608a8e3f14, 0xceef5d997e148b44, 0x90d18ec8b69f0345,
                 0xf2001138439902b1, 0x3280d88472c100fd, 0x617bbf70bb165212, 0x113f9804bef90dae, 0xb3c8f1530bdbaa9e,
                 0x32e5ed8655871e9b, 0x51105f6241313777)
    ensures Turn(0x32e5ed8655871e9b, 0x8c5d3b7fdad66e70, 0x1e6e0255ab88079f, 0x689edf608a8e3f14, 0x51105f6241313777,
                 0x90d18ec8b69f0345, 0xf2001138439902b1, 0x3280d88472c100fd, 0x1b710b35131c471b, 0xbb8abfe56f469338,
                 0xbcd5061679be7336, 0x454b99f654443ad0)
  {
  }

  lemma Turns72()
    ensures Turn(0xbcd5061679be7336, 0x32e5ed8655871e9b, 0x8c5d3b7fdad66e70, 0x1e6e0255ab88079f, 0x454b99f654443ad0,
                 0x51105f6241313777, 0x90d18ec8b69f0345, 0xf2001138439902b1, 0x28db77f523047d84, 0xf63d4265cc1c5a78,
                 0xe7d913b6678e78ef, 0x1ff613b5aa63776e)
    ensures Turn(0xe7d913b6678e78ef, 0xbcd5061679be7336, 0x32e5ed8655871e9b, 0x8c5d3b7fdad66e70, 0x1ff613b5aa63776e,
                 0x454b99f654443ad0, 0x51105f6241313777, 0x90d18ec8b69f0345, 0x32caab7b40c72493, 0xbe8355ea73129afb,
                 0xe6b8cb8dfa3475ab, 0x2e75f34303d39bb0)
    ensures Turn(0xe6b8cb8dfa3475ab, 0xe7d913b6678e78ef, 0xbcd5061679be7336, 0x32e5ed8655871e9b, 0x2e75f34303d39bb0,
                 0x1ff613b5aa63776e, 0x454b99f654443ad0, 0x51105f6241313777, 0x3c9ebe0a15c9bebc, 0x49e2db8ebdcfbeb5,
                 0xfdd4a30e168c4ae5, 0x83a35dbe2a64fc26)
    ensures Turn(0xfdd4a30e168c4ae5, 0xe6b8cb8dfa3475ab, 0xe7d913b6678e78ef, 0xbcd5061679be7336, 0x83a35dbe2a64fc26,
                 0x2e75f34303d39bb0, 0x1ff613b5aa63776e, 0x454b99f654443ad0, 0x431d67c49c100d4c, 0x82269d4a883a3d99,
                 0x12aeb6268dfa3e14, 0xf660943b276786f7)
    ensures Turn(0x12aeb6268dfa3e14, 0xfdd4a30e168c4ae5, 0xe6b8cb8dfa3475ab, 0xe7d913b6678e78ef, 0xf660943b276786f7,
                 0x83a35dbe2a64fc26, 0x2e75f34303d39bb0, 0x1ff613b5aa63776e, 0x4cc5d4becb3e42b6, 0xfdf53df3011f362b,
                 0x055b73814cf102b4, 0xc4b149710f5d6a71)
    ensures Turn(0x055b73814cf102b4, 0x12aeb6268dfa3e14, 0xfdd4a30e168c4ae5, 0xe6b8cb8dfa3475ab, 0xc4b149710f5d6a71,
                 0xf660943b276786f7, 0x83a35dbe2a64fc26, 0x2e75f34303d39bb0, 0x597f299cfc657e2a, 0x464af5671d71c12e,
                 0x95d33150de6df44c, 0xc7f7bff08ebf0d30)
    ensures Turn(0x95d33150de6df44c, 0x055b73814cf102b4, 0x12aeb6268dfa3e14, 0xfdd4a30e168c4ae5, 0xc7f7bff08ebf0d30,
                 0xc4b149710f5d6a71, 0xf660943b276786f7, 0x83a35dbe2a64fc26, 0x5fcb6fab3ad6faec, 0xe449b68198ec611c,
                 0x5306143f64497b00, 0xca06a219cc701096)
    ensures Turn(0x5306143f64497b00, 0x95d33150de6df44c, 0x055b73814cf102b4, 0x12aeb6268dfa3e14, 0xca06a219cc701096,
                 0xc7f7bff08ebf0d30, 0xc4b149710f5d6a71, 0xf660943b276786f7, 0x6c44198c4a475817, 0x92aeeed1a7bcf7d2,
                 0xff44d7e1849dbfb3, 0x1952e0c3a227c0f2)
  {
  }

  lemma Sums16()
    ensures Extend(0x0000000000000000, 0x0000000000000000, 0x0000000000000000, 0x6162638000000000) == 0x6162638000000000
    ensures Extend(0x0000000000000018, 0x0000000000000000, 0x0000000000000000, 0x0000000000000000) == 0x00030000000000c0
    ensures Extend(0x6162638000000000, 0x0000000000000000, 0x0000000000000000, 0x0000000000000000) == 0x0a9699a24c700003
    ensures Extend(0x00030000000000c0, 0x0000000000000000, 0x0000000000000000, 0x0000000000000000) == 0x00000c0060000603
    ensures Extend(0x0a9699a24c700003, 0x0000000000000000, 0x0000000000000000, 0x0000000000000000) == 0x549ef62639858996
    ensures Extend(0x00000c0060000603, 0x0000000000000000, 0x0000000000000000, 0x0000000000000000) == 0x00c0003300003c00
    ensures Extend(0x549ef62639858996, 0x0000000000000018, 0x0000000000000000, 0x0000000000000000) == 0x1497007a8a0e9dbc
    ensures Extend(0x00c0003300003c00, 0x6162638000000000, 0x0000000000000000, 0x0000000000000000) == 0x62e56500cc0780f0
    ensures Extend(0x1497007a8a0e9dbc, 0x00030000000000c0, 0x0000000000000000, 0x0000000000000000) == 0x7760dd475a538797
    ensures Extend(0x62e56500cc0780f0, 0x0a9699a24c700003, 0x0000000000000000, 0x0000000000000000) == 0xf1554b711c1c0003
    ensures Extend(0x7760dd475a538797, 0x00000c0060000603, 0x0000000000000000, 0x0000000000000000) == 0xca2993a4345d9ff2
    ensures Extend(0xf1554b711c1c0003, 0x549ef62639858996, 0x0000000000000000, 0x0000000000000000) == 0x5e0e66b5c783dd32
    ensures Extend(0xca2993a4345d9ff2, 0x00c0003300003c00, 0x0000000000000000, 0x0000000000000000) == 0xe25a625d00494b62
    ensures Extend(0x5e0e66b5c783dd32, 0x1497007a8a0e9dbc, 0x0000000000000000, 0x0000000000000000) == 0x9f44486fb1e4fbd2
    ensures Extend(0xe25a625d00494b62, 0x62e56500cc0780f0, 0x0000000000000018, 0x0000000000000000) == 0xb31b8c2b06085f2f
    ensures Extend(0x9f44486fb1e4fbd2, 0x7760dd475a538797, 0x6162638000000000, 0x0000000000000018) == 0x0e987660934142f6
  {
  }

  lemma Sums32()
    ensures Extend(0xb31b8c2b06085f2f, 0xf1554b711c1c0003, 0x00030000000000c0, 0x6162638000000000) == 0xa4af2cfd09fbb924
    ensures Extend(0x0e987660934142f6, 0xca2993a4345d9ff2, 0x0a9699a24c700003, 0x00030000000000c0) == 0xad289e2e0bd53186
    ensures Extend(0xa4af2cfd09fbb924, 0x5e0e66b5c783dd32, 0x00000c0060000603, 0x0a9699a24c700003) == 0x3c74563aa2f9673e
    ensures Extend(0xad289e2e0bd53186, 0xe25a625d00494b62, 0x549ef62639858996, 0x00000c0060000603) == 0x6ccdcd14cc14b53f
    ensures Extend(0x3c74563aa2f9673e, 0x9f44486fb1e4fbd2, 0x00c0003300003c00, 0x549ef62639858996) == 0xc3f925b337f22bde
    ensures Extend(0x6ccdcd14cc14b53f, 0xb31b8c2b06085f2f, 0x1497007a8a0e9dbc, 0x00c0003300003c00) == 0x5bcc77a75ad95b54
    ensures Extend(0xc3f925b337f22bde, 0x0e987660934142f6, 0x62e56500cc0780f0, 0x1497007a8a0e9dbc) == 0x3ec2257adca09a52
    ensures Extend(0x5bcc77a75ad95b54, 0xa4af2cfd09fbb924, 0x7760dd475a538797, 0x62e56500cc0780f0) == 0x28246960001fc5eb
    ensures Extend(0x3ec2257adca09a52, 0xad289e2e0bd53186, 0xf1554b711c1c0003, 0x7760dd475a538797) == 0x04e33a75ce2be88a
    ensures Extend(0x28246960001fc5eb, 0x3c74563aa2f9673e, 0xca2993a4345d9ff2, 0xf1554b711c1c0003) == 0x7d5314b3c359e0e7
    ensures Extend(0x04e33a75ce2be88a, 0x6ccdcd14cc14b53f, 0x5e0e66b5c783dd32, 0xca2993a4345d9ff2) == 0xaef7a285ff251266
    ensures Extend(0x7d5314b3c359e0e7, 0xc3f925b337f22bde, 0xe25a625d00494b62, 0x5e0e66b5c783dd32) == 0x0b8472581deea04f
    ensures Extend(0xaef7a285ff251266, 0x5bcc77a75ad95b54, 0x9f44486fb1e4fbd2, 0xe25a625d00494b62) == 0xb174e26eddc7b033
    ensures Extend(0x0b8472581deea04f, 0x3ec2257adca09a52, 0xb31b8c2b06085f2f, 0x9f44486fb1e4fbd2) == 0x5d63bae58ddd88de
    ensures Extend(0xb174e26eddc7b033, 0x28246960001fc5eb, 0x0e987660934142f6, 0xb31b8c2b06085f2f) == 0x4c044007b744ccbb
    ensures Extend(0x5d63bae58ddd88de, 0x04e33a75ce2be88a, 0xa4af2cfd09fbb924, 0x0e987660934142f6) == 0xe6a9aa4d74dc7d43
  {
  }

  lemma Sums48()
    ensures Extend(0x4c044007b744ccbb, 0x7d5314b3c359e0e7, 0xad289e2e0bd53186, 0xa4af2cfd09fbb924) == 0xebeaf1237248019c
    ensures Extend(0xe6a9aa4d74dc7d43, 0xaef7a285ff251266, 0x3c74563aa2f9673e, 0xad289e2e0bd53186) == 0x361e80b2d00f3193
    ensures Extend(0xebeaf1237248019c, 0x0b8472581deea04f, 0x6ccdcd14cc14b53f, 0x3c74563aa2f9673e) == 0x2e9839125df3b175
    ensures Extend(0x361e80b2d00f3193, 0xb174e26eddc7b033, 0xc3f925b337f22bde, 0x6ccdcd14cc14b53f) == 0x3319629293ad5363
    ensures Extend(0x2e9839125df3b175, 0x5d63bae58ddd88de, 0x5bcc77a75ad95b54, 0xc3f925b337f22bde) == 0x9cbc5d89ac1b89d5
    ensures Extend(0x3319629293ad5363, 0x4c044007b744ccbb, 0x3ec2257adca09a52, 0x5bcc77a75ad95b54) == 0x275e23ffeeca50b7
    ensures Extend(0x9cbc5d89ac1b89d5, 0xe6a9aa4d74dc7d43, 0x28246960001fc5eb, 0x3ec2257adca09a52) == 0x3b80d680bf69ef58
    ensures Extend(0x275e23ffeeca50b7, 0xebeaf1237248019c, 0x04e33a75ce2be88a, 0x28246960001fc5eb) == 0x0d0696933945a125
    ensures Extend(0x3b80d680bf69ef58, 0x361e80b2d00f3193, 0x7d5314b3c359e0e7, 0x04e33a75ce2be88a) == 0x7533eabcb786ff00
    ensures Extend(0x0d0696933945a125, 0x2e9839125df3b175, 0xaef7a285ff251266, 0x7d5314b3c359e0e7) == 0xb89826cee6fbf0e5
    ensures Extend(0x7533eabcb786ff00, 0x3319629293ad5363, 0x0b8472581deea04f, 0xaef7a285ff251266) == 0x249b4fbcad623e9f
    ensures Extend(0xb89826cee6fbf0e5, 0x9cbc5d89ac1b89d5, 0xb174e26eddc7b033, 0x0b8472581deea04f) == 0x4aea9df2b02d6f1e
    ensures Extend(0x249b4fbcad623e9f, 0x275e23ffeeca50b7, 0x5d63bae58ddd88de, 0xb174e26eddc7b033) == 0x2cc57475a55e8d8f
    ensures Extend(0x4aea9df2b02d6f1e, 0x3b80d680bf69ef58, 0x4c044007b744ccbb, 0x5d63bae58ddd88de) == 0xb2574ae938d8be89
    ensures Extend(0x2cc57475a55e8d8f, 0x0d0696933945a125, 0xe6a9aa4d74dc7d43, 0x4c044007b744ccbb) == 0xc1b35a57b16d6aea
    ensures Extend(0xb2574ae938d8be89, 0x7533eabcb786ff00, 0xebeaf1237248019c, 0xe6a9aa4d74dc7d43) == 0xcc4918b5949206bb
  {
  }

  lemma Sums64()
    ensures Extend(0xc1b35a57b16d6aea, 0xb89826cee6fbf0e5, 0x361e80b2d00f3193, 0xebeaf1237248019c) == 0x5099c3add79f90ec
    ensures Extend(0xcc4918b5949206bb, 0x249b4fbcad623e9f, 0x2e9839125df3b175, 0x361e80b2d00f3193) == 0x5ea81d78e7660bf1
    ensures Extend(0x5099c3add79f90ec, 0x4aea9df2b02d6f1e, 0x3319629293ad5363, 0x2e9839125df3b175) == 0xebee6267405ac2a9
    ensures Extend(0x5ea81d78e7660bf1, 0x2cc57475a55e8d8f, 0x9cbc5d89ac1b89d5, 0x3319629293ad5363) == 0xb01f21926108a4ab
    ensures Extend(0xebee6267405ac2a9, 0xb2574ae938d8be89, 0x275e23ffeeca50b7, 0x9cbc5d89ac1b89d5) == 0x786433dd2fe65556
    ensures Extend(0xb01f21926108a4ab, 0xc1b35a57b16d6aea, 0x3b80d680bf69ef58, 0x275e23ffeeca50b7) == 0xc54a6eaa24a0552c
    ensures Extend(0x786433dd2fe65556, 0xcc4918b5949206bb, 0x0d0696933945a125, 0x3b80d680bf69ef58) == 0xb3c8f1530bdbaa9e
    ensures Extend(0xc54a6eaa24a0552c, 0x5099c3add79f90ec, 0x7533eabcb786ff00, 0x0d0696933945a125) == 0xbb8abfe56f469338
    ensures Extend(0xb3c8f1530bdbaa9e, 0x5ea81d78e7660bf1, 0xb89826cee6fbf0e5, 0x7533eabcb786ff00) == 0xf63d4265cc1c5a78
    ensures Extend(0xbb8abfe56f469338, 0xebee6267405ac2a9, 0x249b4fbcad623e9f, 0xb89826cee6fbf0e5) == 0xbe8355ea73129afb
    ensures Extend(0xf63d4265cc1c5a78, 0xb01f21926108a4ab, 0x4aea9df2b02d6f1e, 0x249b4fbcad623e9f) == 0x49e2db8ebdcfbeb5
    ensures Extend(0xbe8355ea73129afb, 0x786433dd2fe65556, 0x2cc57475a55e8d8f, 0x4aea9df2b02d6f1e) == 0x82269d4a883a3d99
    ensures Extend(0x49e2db8ebdcfbeb5, 0xc54a6eaa24a0552c, 0xb2574ae938d8be89, 0x2cc57475a55e8d8f) == 0xfdf53df3011f362b
    ensures Extend(0x82269d4a883a3d99, 0xb3c8f1530bdbaa9e, 0xc1b35a57b16d6aea, 0xb2574ae938d8be89) == 0x464af5671d71c12e
    ensures Extend(0xfdf53df3011f362b, 0xbb8abfe56f469338, 0xcc4918b5949206bb, 0xc1b35a57b16d6aea) == 0xe449b68198ec611c
    ensures Extend(0x464af5671d71c12e, 0xf63d4265cc1c5a78, 0x5099c3add79f90ec, 0xcc4918b5949206bb) == 0x92aeeed1a7bcf7d2
  {
  }

  // The schedule, in terms of the table.
  lemma Words16()
    ensures WordFits(16) && WordFits(17) && WordFits(18) && WordFits(19)
    ensures WordFits(20) && WordFits(21) && WordFits(22) && WordFits(23)
    ensures WordFits(24) && WordFits(25) && WordFits(26) && WordFits(27)
    ensures WordFits(28) && WordFits(29) && WordFits(30) && WordFits(31)
  {
    hide Extend;
    Sums16();
  }

  lemma Words32()
    ensures WordFits(32) && WordFits(33) && WordFits(34) && WordFits(35)
    ensures WordFits(36) && WordFits(37) && WordFits(38) && WordFits(39)
    ensures WordFits(40) && WordFits(41) && WordFits(42) && WordFits(43)
    ensures WordFits(44) && WordFits(45) && WordFits(46) && WordFits(47)
  {
    hide Extend;
    Sums32();
  }

  lemma Words48()
    ensures WordFits(48) && WordFits(49) && WordFits(50) && WordFits(51)
    ensures WordFits(52) && WordFits(53) && WordFits(54) && WordFits(55)
    ensures WordFits(56) && WordFits(57) && WordFits(58) && WordFits(59)
    ensures WordFits(60) && WordFits(61) && WordFits(62) && WordFits(63)
  {
    hide Extend;
    Sums48();
  }

  lemma Words64()
    ensures WordFits(64) && WordFits(65) && WordFits(66) && WordFits(67)
    ensures WordFits(68) && WordFits(69) && WordFits(70) && WordFits(71)
    ensures WordFits(72) && WordFits(73) && WordFits(74) && WordFits(75)
    ensures WordFits(76) && WordFits(77) && WordFits(78) && WordFits(79)
  {
    hide Extend;
    Sums64();
  }

  lemma EveryWord(t: nat)
    requires 16 <= t < 80
    ensures WordFits(t)
  {
    hide WordFits;
    if t < 32 { Words16(); }
    else if t < 48 { Words32(); }
    else if t < 64 { Words48(); }
    else if t < 80 { Words64(); }
  }

  // ----- the one block ---------------------------------------------------------------

  lemma Block()
    ensures Pad(ABC) == [97, 98, 99, 0x80] + Zeros(123) + [24]
  {
    LengthOfAbc();
    assert BigEndian(24, 16) == Zeros(15) + [24];
    assert ABC + [0x80] + Zeros(108) + (Zeros(15) + [24]) == [97, 98, 99, 0x80] + Zeros(123) + [24];
  }

  lemma LengthOfAbc()
    ensures BigEndian(24, 16) == Zeros(15) + [24]
  {
    hide Pow256;
    SmallestPower();
    forall i | 0 <= i < 15 ensures BigEndian(24, 16)[i] == 0 {
      PowerIsLarge(15 - i);
      Quotient(Pow256(15 - i));
    }
  }

  lemma Quotient(p: nat)
    requires p >= 256
    ensures 24 / p % 256 == 0
  {
  }

  lemma SmallestPower()
    ensures Pow256(0) == 1
  {
  }

  lemma PowerIsLarge(k: nat)
    requires k >= 1
    ensures Pow256(k) >= 256
  {
  }

  lemma WordOfZeros()
    ensures WordOf(Zeros(8)) == 0
  {
    WordOfWordBytes(0);
    assert WordBytes(0) == Zeros(8);
  }

  lemma FirstWords(t: nat)
    requires t < 16
    ensures W(Pad(ABC), t) == Wt(t)
  {
    hide WordOf, Wt;
    Block();
    var b := Pad(ABC)[8 * t..8 * t + 8];
    TableStart(t);
    if t == 0 {
      WordOfWordBytes(0x6162638000000000);
      FirstBytes();
      assert b == [97, 98, 99, 0x80, 0, 0, 0, 0];
    } else if t < 15 {
      WordOfZeros();
      assert b == Zeros(8);
    } else {
      WordOfWordBytes(24);
      LastBytes();
      assert b == [0, 0, 0, 0, 0, 0, 0, 24];
    }
  }

  lemma FirstBytes()
    ensures WordBytes(0x6162638000000000) == [97, 98, 99, 0x80, 0, 0, 0, 0]
  {
  }

  lemma LastBytes()
    ensures WordBytes(24) == [0, 0, 0, 0, 0, 0, 0, 24]
  {
  }

  lemma TableStart(t: nat)
    requires t < 16
    ensures Wt(t) == if t == 0 then 0x6162638000000000 else if t < 15 then 0 else 24
  {
  }

  lemma ScheduleOfAbc(t: nat)
    requires t < 80
    ensures W(Pad(ABC), t) == Wt(t)
  {
    hide Wt, Extend, Pad;
    Block();
    if t < 16 {
      FirstWords(t);
    } else {
      ScheduleOfAbc(t - 2);
      ScheduleOfAbc(t - 7);
      ScheduleOfAbc(t - 15);
      ScheduleOfAbc(t - 16);
      EveryWord(t);
    }
  }

  // The working variables after every eighth round, and after the fourth and the twelfth.
  lemma Rounds0a(w: seq<Word>)
    requires |w| == ROUNDS && forall i :: 0 <= i < ROUNDS ==> w[i] == Wt(i)
    ensures Rounds(IV, w[..4])
         == State(0xe308483153e15ad6, 0xeebe5d379be707ad, 0x2e91230306a12ae0, 0x470994ad30873f88,
                  0x086c5b2d36a89178, 0x54074a65aef34336, 0x5e1b4e1695372b9e, 0xbd03f724be6075f9)
  {
    hide Round, Rounds;
    Turns0();
    NoRounds(w);
    RoundsSnoc(IV, w, 0); RoundsSnoc(IV, w, 1); RoundsSnoc(IV, w, 2); RoundsSnoc(IV, w, 3);
  }

  lemma Rounds0(w: seq<Word>)
    requires |w| == ROUNDS && forall i :: 0 <= i < ROUNDS ==> w[i] == Wt(i)
    ensures Rounds(IV, w[..8])
         == State(0x02f2a04d3aab1629, 0x76f0741213dd2ef6, 0x333199a85f92b052, 0x3a7a023c593d8479,
                  0x1688b9bf14980fc0, 0x74063cba385f0675, 0x7a6316f0ef047ce7, 0x8aa1144850633794)
  {
    hide Round, Rounds;
    Turns0();
    Rounds0a(w);
    RoundsSnoc(IV, w, 4); RoundsSnoc(IV, w, 5); RoundsSnoc(IV, w, 6); RoundsSnoc(IV, w, 7);
  }

  lemma Rounds8a(w: seq<Word>)
    requires |w| == ROUNDS && forall i :: 0 <= i < ROUNDS ==> w[i] == Wt(i)
    ensures Rounds(IV, w[..12])
         == State(0xc1fdb2a0205ea0e5, 0x33254508bb2ea48d, 0xbf3f67ba12882648, 0x73e5b2a1704a0349,
                  0x04732e8bc4044582, 0x9e18991c4f39f0ba, 0x652e311d4f0a4257, 0xfd00139f705907d0)
  {
    hide Round, Rounds;
    Turns8();
    Rounds0(w);
    RoundsSnoc(IV, w, 8); RoundsSnoc(IV, w, 9); RoundsSnoc(IV, w, 10); RoundsSnoc(IV, w, 11);
  }

  lemma Rounds8(w: seq<Word>)
    requires |w| == ROUNDS && forall i :: 0 <= i < ROUNDS ==> w[i] == Wt(i)
    ensures Rounds(IV, w[..16])
         == State(0x1eab6159ae87ef6d, 0x7e32dc0e9f414783, 0xe5f06744c0d7563a, 0x185f9ff038a50f39,
                  0x153b895cfbc436c5, 0x3a9950aaa5e75884, 0x2fa93d1ce9523015, 0x8b4acfc4d2b8afe6)
  {
    hide Round, Rounds;
    Turns8();
    Rounds8a(w);
    RoundsSnoc(IV, w, 12); RoundsSnoc(IV, w, 13); RoundsSnoc(IV, w, 14); RoundsSnoc(IV, w, 15);
  }

  lemma Rounds16(w: seq<Word>)
    requires |w| == ROUNDS && forall i :: 0 <= i < ROUNDS ==> w[i] == Wt(i)
    ensures Rounds(IV, w[..24])
         == State(0xccf99a80f92bf002, 0x7799c75acc748c0f, 0x042c2dc9a5bf558a, 0x9ba737ae88a72c64,
                  0xe52a24fae4e8fc9b, 0xa7bbd65bf64f58c8, 0x19316bebc88e01f2, 0x3fc2614c43906c0f)
  {
    hide Round, Rounds;
    Turns16();
    Rounds8(w);
    RoundsSnoc(IV, w, 16); RoundsSnoc(IV, w, 17); RoundsSnoc(IV, w, 18); RoundsSnoc(IV, w, 19);
    RoundsSnoc(IV, w, 20); RoundsSnoc(IV, w, 21); RoundsSnoc(IV, w, 22); RoundsSnoc(IV, w, 23);
  }

  lemma Rounds24(w: seq<Word>)
    requires |w| == ROUNDS && forall i :: 0 <= i < ROUNDS ==> w[i] == Wt(i)
    ensures Rounds(IV, w[..32])
         == State(0x4ba456ec244033ed, 0x4c5c38df7ec8baf4, 0xbbed541a5128088c, 0xe428bb43afe3d63e,
                  0x7cf40857056d86b0, 0x422ceea0200e9ee4, 0x7973aadbde294be9, 0x6a8527525f898726)
  {
    hide Round, Rounds;
    Turns24();
    Rounds16(w);
    RoundsSnoc(IV, w, 24); RoundsSnoc(IV, w, 25); RoundsSnoc(IV, w, 26); RoundsSnoc(IV, w, 27);
    RoundsSnoc(IV, w, 28); RoundsSnoc(IV, w, 29); RoundsSnoc(IV, w, 30); RoundsSnoc(IV, w, 31);
  }

  lemma Rounds32(w: seq<Word>)
    requires |w| == ROUNDS && forall i :: 0 <= i < ROUNDS ==> w[i] == Wt(i)
    ensures Rounds(IV, w[..40])
         == State(0xdb24f9a03f4fff6b, 0x54078334358573b4, 0xd6f41e25a8b634d6, 0xd48d97ce438cf4f0,
                  0xd30e99b4b394b090, 0x0e419fb0802b0efc, 0x25755cb8179dd0b0, 0xa239e00b8baa0410)
  {
    hide Round, Rounds;
    Turns32();
    Rounds24(w);
    RoundsSnoc(IV, w, 32); RoundsSnoc(IV, w, 33); RoundsSnoc(IV, w, 34); RoundsSnoc(IV, w, 35);
    RoundsSnoc(IV, w, 36); RoundsSnoc(IV, w, 37); RoundsSnoc(IV, w, 38); RoundsSnoc(IV, w, 39);
  }

  lemma Rounds40(w: seq<Word>)
    requires |w| == ROUNDS && forall i :: 0 <= i < ROUNDS ==> w[i] == Wt(i)
    ensures Rounds(IV, w[..48])
         == State(0xa6998d63a5d09e04, 0xeb3753f4283f4818, 0xef5e3885a2f238df, 0x51dcaa36995c301d,
                  0xe21095012ee0b72a, 0x0ae48cf840bb8be9, 0x740e347f24e18fda, 0xe37f778353998050)
  {
    hide Round, Rounds;
    Turns40();
    Rounds32(w);
    RoundsSnoc(IV, w, 40); RoundsSnoc(IV, w, 41); RoundsSnoc(IV, w, 42); RoundsSnoc(IV, w, 43);
    RoundsSnoc(IV, w, 44); RoundsSnoc(IV, w, 45); RoundsSnoc(IV, w, 46); RoundsSnoc(IV, w, 47);
  }

  lemma Rounds48(w: seq<Word>)
    requires |w| == ROUNDS && forall i :: 0 <= i < ROUNDS ==> w[i] == Wt(i)
    ensures Rounds(IV, w[..56])
         == State(0x54de8857b24afaf7, 0x073775c2456dc7db, 0xedb4448879391dbb, 0xc87e9168db9e97de,
                  0x8de51cff2ae4b068, 0xa9cca0b6266b1d77, 0x7729c85475dd318f, 0x65cf7f6a829aca04)
  {
    hide Round, Rounds;
    Turns48();
    Rounds40(w);
    RoundsSnoc(IV, w, 48); RoundsSnoc(IV, w, 49); RoundsSnoc(IV, w, 50); RoundsSnoc(IV, w, 51);
    RoundsSnoc(IV, w, 52); RoundsSnoc(IV, w, 53); RoundsSnoc(IV, w, 54); RoundsSnoc(IV, w, 55);
  }

  lemma Rounds56(w: seq<Word>)
    requires |w| == ROUNDS && forall i :: 0 <= i < ROUNDS ==> w[i] == Wt(i)
    ensures Rounds(IV, w[..64])
         == State(0x24a1124262a331c7, 0x56fb5883f1c87a05, 0x3dc764f89e54043a, 0x1ca93a293d544328,
                  0x06edacae6e7b54ad, 0xf5198a41eb80e022, 0xa57784945550cf94, 0xefbef83a35c0319e)
  {
    hide Round, Rounds;
    Turns56();
    Rounds48(w);
    RoundsSnoc(IV, w, 56); RoundsSnoc(IV, w, 57); RoundsSnoc(IV, w, 58); RoundsSnoc(IV, w, 59);
    RoundsSnoc(IV, w, 60); RoundsSnoc(IV, w, 61); RoundsSnoc(IV, w, 62); RoundsSnoc(IV, w, 63);
  }

  lemma Rounds64(w: seq<Word>)
    requires |w| == ROUNDS && forall i :: 0 <= i < ROUNDS ==> w[i] == Wt(i)
    ensures Rounds(IV, w[..72])
         == State(0xbcd5061679be7336, 0x32e5ed8655871e9b, 0x8c5d3b7fdad66e70, 0x1e6e0255ab88079f,
                  0x454b99f654443ad0, 0x51105f6241313777, 0x90d18ec8b69f0345, 0xf2001138439902b1)
  {
    hide Round, Rounds;
    Turns64();
    Rounds56(w);
    RoundsSnoc(IV, w, 64); RoundsSnoc(IV, w, 65); RoundsSnoc(IV, w, 66); RoundsSnoc(IV, w, 67);
    RoundsSnoc(IV, w, 68); RoundsSnoc(IV, w, 69); RoundsSnoc(IV, w, 70); RoundsSnoc(IV, w, 71);
  }

  lemma Rounds72(w: seq<Word>)
    requires |w| == ROUNDS && forall i :: 0 <= i < ROUNDS ==> w[i] == Wt(i)
    ensures Rounds(IV, w[..80])
         == State(0xff44d7e1849dbfb3, 0x5306143f64497b00, 0x95d33150de6df44c, 0x055b73814cf102b4,
                  0x1952e0c3a227c0f2, 0xca06a219cc701096, 0xc7f7bff08ebf0d30, 0xc4b149710f5d6a71)
  {
    hide Round, Rounds;
    Turns72();
    Rounds64(w);
    RoundsSnoc(IV, w, 72); RoundsSnoc(IV, w, 73); RoundsSnoc(IV, w, 74); RoundsSnoc(IV, w, 75);
    RoundsSnoc(IV, w, 76); RoundsSnoc(IV, w, 77); RoundsSnoc(IV, w, 78); RoundsSnoc(IV, w, 79);
  }

  lemma NoRounds(w: seq<Word>)
    requires |w| <= ROUNDS
    ensures Rounds(IV, w[..0]) == IV
  {
    assert w[..0] == [];
  }

  lemma FinalWords()
    ensures Add(IV, State(0xff44d7e1849dbfb3, 0x5306143f64497b00, 0x95d33150de6df44c, 0x055b73814cf102b4,
                          0x1952e0c3a227c0f2, 0xca06a219cc701096, 0xc7f7bff08ebf0d30, 0xc4b149710f5d6a71))
         == State(0xcb00753f45a35e8b, 0xb5a03d699ac65007, 0x272c32ab0eded163, 0x1a8b605a43ff5bed,
                  0x8086072ba1e7cc23, 0x58baeca134c825a7, 0xa303edfdf3b89cd7, 0x0c66918ece57ba15)
  {
  }

  lemma DigestBytes()
    ensures WordBytes(0xcb00753f45a35e8b) == [0xcb, 0x00, 0x75, 0x3f, 0x45, 0xa3, 0x5e, 0x8b]
    ensures WordBytes(0xb5a03d699ac65007) == [0xb5, 0xa0, 0x3d, 0x69, 0x9a, 0xc6, 0x50, 0x07]
    ensures WordBytes(0x272c32ab0eded163) == [0x27, 0x2c, 0x32, 0xab, 0x0e, 0xde, 0xd1, 0x63]
    ensures WordBytes(0x1a8b605a43ff5bed) == [0x1a, 0x8b, 0x60, 0x5a, 0x43, 0xff, 0x5b, 0xed]
    ensures WordBytes(0x8086072ba1e7cc23) == [0x80, 0x86, 0x07, 0x2b, 0xa1, 0xe7, 0xcc, 0x23]
    ensures WordBytes(0x58baeca134c825a7) == [0x58, 0xba, 0xec, 0xa1, 0x34, 0xc8, 0x25, 0xa7]
  {
  }

  lemma WordsOfAbc()
    ensures Sha384Words([97, 98, 99])
         == State(0xcb00753f45a35e8b, 0xb5a03d699ac65007, 0x272c32ab0eded163, 0x1a8b605a43ff5bed,
                  0x8086072ba1e7cc23, 0x58baeca134c825a7, 0xa303edfdf3b89cd7, 0x0c66918ece57ba15)
  {
    hide Round, W, Rounds, Add, Wt, Pad;
    Block();
    var block := Pad(ABC);
    assert block[..128] == block && block[128..] == [];
    assert Absorb(IV, block) == Absorb(Compress(IV, block[..128]), block[128..]);
    var w := Schedule(block);
    forall i | 0 <= i < ROUNDS ensures w[i] == Wt(i) { ScheduleOfAbc(i); }
    Rounds72(w);
    assert w[..80] == w;
    FinalWords();
  }

  /** The digest of the example. */
  lemma KnownDigest()
    ensures Sha384([97, 98, 99])
         == [0xcb, 0x00, 0x75, 0x3f, 0x45, 0xa3, 0x5e, 0x8b, 0xb5, 0xa0, 0x3d, 0x69, 0x9a, 0xc6, 0x50, 0x07,
             0x27, 0x2c, 0x32, 0xab, 0x0e, 0xde, 0xd1, 0x63, 0x1a, 0x8b, 0x60, 0x5a, 0x43, 0xff, 0x5b, 0xed,
             0x80, 0x86, 0x07, 0x2b, 0xa1, 0xe7, 0xcc, 0x23, 0x58, 0xba, 0xec, 0xa1, 0x34, 0xc8, 0x25, 0xa7]
  {
    hide Sha384Words, WordBytes;
    WordsOfAbc();
    DigestBytes();
  }

  /** The same for the engine: its SHA384 on the three bytes writes these 48. */
  method EngineOnExample(output: array<byte>)
    requires output.Length == 64
    modifies output
    ensures output[..48]
         == [0xcb, 0x00, 0x75, 0x3f, 0x45, 0xa3, 0x5e, 0x8b, 0xb5, 0xa0, 0x3d, 0x69, 0x9a, 0xc6, 0x50, 0x07,
             0x27, 0x2c, 0x32, 0xab, 0x0e, 0xde, 0xd1, 0x63, 0x1a, 0x8b, 0x60, 0x5a, 0x43, 0xff, 0x5b, 0xed,
             0x80, 0x86, 0x07, 0x2b, 0xa1, 0xe7, 0xcc, 0x23, 0x58, 0xba, 0xec, 0xa1, 0x34, 0xc8, 0x25, 0xa7]
  {
    hide Sha384, Sha384Words, StateBytes;
    KnownDigest();
    Sha384Stream.Sha384Into([97, 98, 99], output);
  }
}
