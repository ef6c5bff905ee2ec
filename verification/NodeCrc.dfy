/** The hash of the Node.js client, whose table is written out as 256 literals. */
module NodeCrc {

  import opened Crc64

  // The literals, sixteen to a row: Row<high>(low) is the entry at 16 * high + low.

  function Row0(low: bv8): bv64
  {
    if low == 0 then 0x0000000000000000 else if low == 1 then 0x7f6ef0c830358979 else
    if low == 2 then 0xfedde190606b12f2 else if low == 3 then 0x81b31158505e9b8b else
    if low == 4 then 0xc962e5739841b68f else if low == 5 then 0xb60c15bba8743ff6 else
    if low == 6 then 0x37bf04e3f82aa47d else if low == 7 then 0x48d1f42bc81f2d04 else
    if low == 8 then 0xa61cecb46814fe75 else if low == 9 then 0xd9721c7c5821770c else
    if low == 10 then 0x58c10d24087fec87 else if low == 11 then 0x27affdec384a65fe else
    if low == 12 then 0x6f7e09c7f05548fa else if low == 13 then 0x1010f90fc060c183 else
    if low == 14 then 0x91a3e857903e5a08 else 0xeecd189fa00bd371
  }

  function Row1(low: bv8): bv64
  {
    if low == 0 then 0x78e0ff3b88be6f81 else if low == 1 then 0x078e0ff3b88be6f8 else
    if low == 2 then 0x863d1eabe8d57d73 else if low == 3 then 0xf953ee63d8e0f40a else
    if low == 4 then 0xb1821a4810ffd90e else if low == 5 then 0xceecea8020ca5077 else
    if low == 6 then 0x4f5ffbd87094cbfc else if low == 7 then 0x30310b1040a14285 else
    if low == 8 then 0xdefc138fe0aa91f4 else if low == 9 then 0xa192e347d09f188d else
    if low == 10 then 0x2021f21f80c18306 else if low == 11 then 0x5f4f02d7b0f40a7f else
    if low == 12 then 0x179ef6fc78eb277b else if low == 13 then 0x68f0063448deae02 else
    if low == 14 then 0xe943176c18803589 else 0x962de7a428b5bcf0
  }

  function Row2(low: bv8): bv64
  {
    if low == 0 then 0xf1c1fe77117cdf02 else if low == 1 then 0x8eaf0ebf2149567b else
    if low == 2 then 0x0f1c1fe77117cdf0 else if low == 3 then 0x7072ef2f41224489 else
    if low == 4 then 0x38a31b04893d698d else if low == 5 then 0x47cdebccb908e0f4 else
    if low == 6 then 0xc67efa94e9567b7f else if low == 7 then 0xb9100a5cd963f206 else
    if low == 8 then 0x57dd12c379682177 else if low == 9 then 0x28b3e20b495da80e else
    if low == 10 then 0xa900f35319033385 else if low == 11 then 0xd66e039b2936bafc else
    if low == 12 then 0x9ebff7b0e12997f8 else if low == 13 then 0xe1d10778d11c1e81 else
    if low == 14 then 0x606216208142850a else 0x1f0ce6e8b1770c73
  }

  function Row3(low: bv8): bv64
  {
    if low == 0 then 0x8921014c99c2b083 else if low == 1 then 0xf64ff184a9f739fa else
    if low == 2 then 0x77fce0dcf9a9a271 else if low == 3 then 0x08921014c99c2b08 else
    if low == 4 then 0x4043e43f0183060c else if low == 5 then 0x3f2d14f731b68f75 else
    if low == 6 then 0xbe9e05af61e814fe else if low == 7 then 0xc1f0f56751dd9d87 else
    if low == 8 then 0x2f3dedf8f1d64ef6 else if low == 9 then 0x50531d30c1e3c78f else
    if low == 10 then 0xd1e00c6891bd5c04 else if low == 11 then 0xae8efca0a188d57d else
    if low == 12 then 0xe65f088b6997f879 else if low == 13 then 0x9931f84359a27100 else
    if low == 14 then 0x1882e91b09fcea8b else 0x67ec19d339c963f2
  }

  function Row4(low: bv8): bv64
  {
    if low == 0 then 0xd75adabd7a6e2d6f else if low == 1 then 0xa8342a754a5ba416 else
    if low == 2 then 0x29873b2d1a053f9d else if low == 3 then 0x56e9cbe52a30b6e4 else
    if low == 4 then 0x1e383fcee22f9be0 else if low == 5 then 0x6156cf06d21a1299 else
    if low == 6 then 0xe0e5de5e82448912 else if low == 7 then 0x9f8b2e96b271006b else
    if low == 8 then 0x71463609127ad31a else if low == 9 then 0x0e28c6c1224f5a63 else
    if low == 10 then 0x8f9bd7997211c1e8 else if low == 11 then 0xf0f5275142244891 else
    if low == 12 then 0xb824d37a8a3b6595 else if low == 13 then 0xc74a23b2ba0eecec else
    if low == 14 then 0x46f932eaea507767 else 0x3997c222da65fe1e
  }

  function Row5(low: bv8): bv64
  {
    if low == 0 then 0xafba2586f2d042ee else if low == 1 then 0xd0d4d54ec2e5cb97 else
    if low == 2 then 0x5167c41692bb501c else if low == 3 then 0x2e0934dea28ed965 else
    if low == 4 then 0x66d8c0f56a91f461 else if low == 5 then 0x19b6303d5aa47d18 else
    if low == 6 then 0x980521650afae693 else if low == 7 then 0xe76bd1ad3acf6fea else
    if low == 8 then 0x09a6c9329ac4bc9b else if low == 9 then 0x76c839faaaf135e2 else
    if low == 10 then 0xf77b28a2faafae69 else if low == 11 then 0x8815d86aca9a2710 else
    if low == 12 then 0xc0c42c4102850a14 else if low == 13 then 0xbfaadc8932b0836d else
    if low == 14 then 0x3e19cdd162ee18e6 else 0x41773d1952db919f
  }

  function Row6(low: bv8): bv64
  {
    if low == 0 then 0x269b24ca6b12f26d else if low == 1 then 0x59f5d4025b277b14 else
    if low == 2 then 0xd846c55a0b79e09f else if low == 3 then 0xa72835923b4c69e6 else
    if low == 4 then 0xeff9c1b9f35344e2 else if low == 5 then 0x90973171c366cd9b else
    if low == 6 then 0x1124202993385610 else if low == 7 then 0x6e4ad0e1a30ddf69 else
    if low == 8 then 0x8087c87e03060c18 else if low == 9 then 0xffe938b633338561 else
    if low == 10 then 0x7e5a29ee636d1eea else if low == 11 then 0x0134d92653589793 else
    if low == 12 then 0x49e52d0d9b47ba97 else if low == 13 then 0x368bddc5ab7233ee else
    if low == 14 then 0xb738cc9dfb2ca865 else 0xc8563c55cb19211c
  }

  function Row7(low: bv8): bv64
  {
    if low == 0 then 0x5e7bdbf1e3ac9dec else if low == 1 then 0x21152b39d3991495 else
    if low == 2 then 0xa0a63a6183c78f1e else if low == 3 then 0xdfc8caa9b3f20667 else
    if low == 4 then 0x97193e827bed2b63 else if low == 5 then 0xe877ce4a4bd8a21a else
    if low == 6 then 0x69c4df121b863991 else if low == 7 then 0x16aa2fda2bb3b0e8 else
    if low == 8 then 0xf86737458bb86399 else if low == 9 then 0x8709c78dbb8deae0 else
    if low == 10 then 0x06bad6d5ebd3716b else if low == 11 then 0x79d4261ddbe6f812 else
    if low == 12 then 0x3105d23613f9d516 else if low == 13 then 0x4e6b22fe23cc5c6f else
    if low == 14 then 0xcfd833a67392c7e4 else 0xb0b6c36e43a74e9d
  }

  function Row8(low: bv8): bv64
  {
    if low == 0 then 0x9a6c9329ac4bc9b5 else if low == 1 then 0xe50263e19c7e40cc else
    if low == 2 then 0x64b172b9cc20db47 else if low == 3 then 0x1bdf8271fc15523e else
    if low == 4 then 0x530e765a340a7f3a else if low == 5 then 0x2c608692043ff643 else
    if low == 6 then 0xadd397ca54616dc8 else if low == 7 then 0xd2bd67026454e4b1 else
    if low == 8 then 0x3c707f9dc45f37c0 else if low == 9 then 0x431e8f55f46abeb9 else
    if low == 10 then 0xc2ad9e0da4342532 else if low == 11 then 0xbdc36ec59401ac4b else
    if low == 12 then 0xf5129aee5c1e814f else if low == 13 then 0x8a7c6a266c2b0836 else
    if low == 14 then 0x0bcf7b7e3c7593bd else 0x74a18bb60c401ac4
  }

  function Row9(low: bv8): bv64
  {
    if low == 0 then 0xe28c6c1224f5a634 else if low == 1 then 0x9de29cda14c02f4d else
    if low == 2 then 0x1c518d82449eb4c6 else if low == 3 then 0x633f7d4a74ab3dbf else
    if low == 4 then 0x2bee8961bcb410bb else if low == 5 then 0x548079a98c8199c2 else
    if low == 6 then 0xd53368f1dcdf0249 else if low == 7 then 0xaa5d9839ecea8b30 else
    if low == 8 then 0x449080a64ce15841 else if low == 9 then 0x3bfe706e7cd4d138 else
    if low == 10 then 0xba4d61362c8a4ab3 else if low == 11 then 0xc52391fe1cbfc3ca else
    if low == 12 then 0x8df265d5d4a0eece else if low == 13 then 0xf29c951de49567b7 else
    if low == 14 then 0x732f8445b4cbfc3c else 0x0c41748d84fe7545
  }

  function Row10(low: bv8): bv64
  {
    if low == 0 then 0x6bad6d5ebd3716b7 else if low == 1 then 0x14c39d968d029fce else
    if low == 2 then 0x95708ccedd5c0445 else if low == 3 then 0xea1e7c06ed698d3c else
    if low == 4 then 0xa2cf882d2576a038 else if low == 5 then 0xdda178e515432941 else
    if low == 6 then 0x5c1269bd451db2ca else if low == 7 then 0x237c997575283bb3 else
    if low == 8 then 0xcdb181ead523e8c2 else if low == 9 then 0xb2df7122e51661bb else
    if low == 10 then 0x336c607ab548fa30 else if low == 11 then 0x4c0290b2857d7349 else
    if low == 12 then 0x04d364994d625e4d else if low == 13 then 0x7bbd94517d57d734 else
    if low == 14 then 0xfa0e85092d094cbf else 0x856075c11d3cc5c6
  }

  function Row11(low: bv8): bv64
  {
    if low == 0 then 0x134d926535897936 else if low == 1 then 0x6c2362ad05bcf04f else
    if low == 2 then 0xed9073f555e26bc4 else if low == 3 then 0x92fe833d65d7e2bd else
    if low == 4 then 0xda2f7716adc8cfb9 else if low == 5 then 0xa54187de9dfd46c0 else
    if low == 6 then 0x24f29686cda3dd4b else if low == 7 then 0x5b9c664efd965432 else
    if low == 8 then 0xb5517ed15d9d8743 else if low == 9 then 0xca3f8e196da80e3a else
    if low == 10 then 0x4b8c9f413df695b1 else if low == 11 then 0x34e26f890dc31cc8 else
    if low == 12 then 0x7c339ba2c5dc31cc else if low == 13 then 0x035d6b6af5e9b8b5 else
    if low == 14 then 0x82ee7a32a5b7233e else 0xfd808afa9582aa47
  }

  function Row12(low: bv8): bv64
  {
    if low == 0 then 0x4d364994d625e4da else if low == 1 then 0x3258b95ce6106da3 else
    if low == 2 then 0xb3eba804b64ef628 else if low == 3 then 0xcc8558cc867b7f51 else
    if low == 4 then 0x8454ace74e645255 else if low == 5 then 0xfb3a5c2f7e51db2c else
    if low == 6 then 0x7a894d772e0f40a7 else if low == 7 then 0x05e7bdbf1e3ac9de else
    if low == 8 then 0xeb2aa520be311aaf else if low == 9 then 0x944455e88e0493d6 else
    if low == 10 then 0x15f744b0de5a085d else if low == 11 then 0x6a99b478ee6f8124 else
    if low == 12 then 0x224840532670ac20 else if low == 13 then 0x5d26b09b16452559 else
    if low == 14 then 0xdc95a1c3461bbed2 else 0xa3fb510b762e37ab
  }

  function Row13(low: bv8): bv64
  {
    if low == 0 then 0x35d6b6af5e9b8b5b else if low == 1 then 0x4ab846676eae0222 else
    if low == 2 then 0xcb0b573f3ef099a9 else if low == 3 then 0xb465a7f70ec510d0 else
    if low == 4 then 0xfcb453dcc6da3dd4 else if low == 5 then 0x83daa314f6efb4ad else
    if low == 6 then 0x0269b24ca6b12f26 else if low == 7 then 0x7d0742849684a65f else
    if low == 8 then 0x93ca5a1b368f752e else if low == 9 then 0xeca4aad306bafc57 else
    if low == 10 then 0x6d17bb8b56e467dc else if low == 11 then 0x12794b4366d1eea5 else
    if low == 12 then 0x5aa8bf68aecec3a1 else if low == 13 then 0x25c64fa09efb4ad8 else
    if low == 14 then 0xa4755ef8cea5d153 else 0xdb1bae30fe90582a
  }

  function Row14(low: bv8): bv64
  {
    if low == 0 then 0xbcf7b7e3c7593bd8 else if low == 1 then 0xc399472bf76cb2a1 else
    if low == 2 then 0x422a5673a732292a else if low == 3 then 0x3d44a6bb9707a053 else
    if low == 4 then 0x759552905f188d57 else if low == 5 then 0x0afba2586f2d042e else
    if low == 6 then 0x8b48b3003f739fa5 else if low == 7 then 0xf42643c80f4616dc else
    if low == 8 then 0x1aeb5b57af4dc5ad else if low == 9 then 0x6585ab9f9f784cd4 else
    if low == 10 then 0xe436bac7cf26d75f else if low == 11 then 0x9b584a0fff135e26 else
    if low == 12 then 0xd389be24370c7322 else if low == 13 then 0xace74eec0739fa5b else
    if low == 14 then 0x2d545fb4576761d0 else 0x523aaf7c6752e8a9
  }

  function Row15(low: bv8): bv64
  {
    if low == 0 then 0xc41748d84fe75459 else if low == 1 then 0xbb79b8107fd2dd20 else
    if low == 2 then 0x3acaa9482f8c46ab else if low == 3 then 0x45a459801fb9cfd2 else
    if low == 4 then 0x0d75adabd7a6e2d6 else if low == 5 then 0x721b5d63e7936baf else
    if low == 6 then 0xf3a84c3bb7cdf024 else if low == 7 then 0x8cc6bcf387f8795d else
    if low == 8 then 0x620ba46c27f3aa2c else if low == 9 then 0x1d6554a417c62355 else
    if low == 10 then 0x9cd645fc4798b8de else if low == 11 then 0xe3b8b53477ad31a7 else
    if low == 12 then 0xab69411fbfb21ca3 else if low == 13 then 0xd407b1d78f8795da else
    if low == 14 then 0x55b4a08fdfd90e51 else 0x2ada5047efec8728
  }

  function RowEntry(high: bv8, low: bv8): bv64
  {
    if high == 0 then Row0(low)
    else if high == 1 then Row1(low)
    else if high == 2 then Row2(low)
    else if high == 3 then Row3(low)
    else if high == 4 then Row4(low)
    else if high == 5 then Row5(low)
    else if high == 6 then Row6(low)
    else if high == 7 then Row7(low)
    else if high == 8 then Row8(low)
    else if high == 9 then Row9(low)
    else if high == 10 then Row10(low)
    else if high == 11 then Row11(low)
    else if high == 12 then Row12(low)
    else if high == 13 then Row13(low)
    else if high == 14 then Row14(low)
    else Row15(low)
  }

  /** `toLong`: the literal at an index. */
  function TableEntry(index: bv8): bv64
  {
    RowEntry(index >> 4, index & 15)
  }

  lemma Row0Fits(low: bv8)
    requires low < 16
    ensures Row0(low) == Xor(Row0(0), Row0(low))
  {
  }

  lemma Row1Fits(low: bv8)
    requires low < 16
    ensures Row1(low) == Xor(Row1(0), Row0(low))
  {
  }

  lemma Row2Fits(low: bv8)
    requires low < 16
    ensures Row2(low) == Xor(Row2(0), Row0(low))
  {
  }

  lemma Row3Fits(low: bv8)
    requires low < 16
    ensures Row3(low) == Xor(Row3(0), Row0(low))
  {
  }

  lemma Row4Fits(low: bv8)
    requires low < 16
    ensures Row4(low) == Xor(Row4(0), Row0(low))
  {
  }

  lemma Row5Fits(low: bv8)
    requires low < 16
    ensures Row5(low) == Xor(Row5(0), Row0(low))
  {
  }

  lemma Row6Fits(low: bv8)
    requires low < 16
    ensures Row6(low) == Xor(Row6(0), Row0(low))
  {
  }

  lemma Row7Fits(low: bv8)
    requires low < 16
    ensures Row7(low) == Xor(Row7(0), Row0(low))
  {
  }

  lemma Row8Fits(low: bv8)
    requires low < 16
    ensures Row8(low) == Xor(Row8(0), Row0(low))
  {
  }

  lemma Row9Fits(low: bv8)
    requires low < 16
    ensures Row9(low) == Xor(Row9(0), Row0(low))
  {
  }

  lemma Row10Fits(low: bv8)
    requires low < 16
    ensures Row10(low) == Xor(Row10(0), Row0(low))
  {
  }

  lemma Row11Fits(low: bv8)
    requires low < 16
    ensures Row11(low) == Xor(Row11(0), Row0(low))
  {
  }

  lemma Row12Fits(low: bv8)
    requires low < 16
    ensures Row12(low) == Xor(Row12(0), Row0(low))
  {
  }

  lemma Row13Fits(low: bv8)
    requires low < 16
    ensures Row13(low) == Xor(Row13(0), Row0(low))
  {
  }

  lemma Row14Fits(low: bv8)
    requires low < 16
    ensures Row14(low) == Xor(Row14(0), Row0(low))
  {
  }

  lemma Row15Fits(low: bv8)
    requires low < 16
    ensures Row15(low) == Xor(Row15(0), Row0(low))
  {
  }

  /** Every row is the first row, offset by its own first entry. */
  lemma LowerRowsFit(high: bv8, low: bv8)
    requires high < 8 && low < 16
    ensures RowEntry(high, low) == Xor(RowEntry(high, 0), Row0(low))
  {
    hide Xor, Row0, Row1, Row2, Row3, Row4, Row5, Row6, Row7, Row8, Row9, Row10, Row11, Row12, Row13, Row14, Row15;
    if high == 0 {
      Row0Fits(low);
    } else if high == 1 {
      Row1Fits(low);
    } else if high == 2 {
      Row2Fits(low);
    } else if high == 3 {
      Row3Fits(low);
    } else if high == 4 {
      Row4Fits(low);
    } else if high == 5 {
      Row5Fits(low);
    } else if high == 6 {
      Row6Fits(low);
    } else {
      Row7Fits(low);
    }
  }

  lemma ThirdQuarterFits(high: bv8, low: bv8)
    requires 8 <= high < 12 && low < 16
    ensures RowEntry(high, low) == Xor(RowEntry(high, 0), Row0(low))
  {
    hide Xor, Row0, Row1, Row2, Row3, Row4, Row5, Row6, Row7, Row8, Row9, Row10, Row11, Row12, Row13, Row14, Row15;
    if high == 8 {
      Row8Fits(low);
    } else if high == 9 {
      Row9Fits(low);
    } else if high == 10 {
      Row10Fits(low);
    } else {
      Row11Fits(low);
    }
  }

  lemma LastQuarterFits(high: bv8, low: bv8)
    requires 12 <= high < 16 && low < 16
    ensures RowEntry(high, low) == Xor(RowEntry(high, 0), Row0(low))
  {
    hide Xor, Row0, Row1, Row2, Row3, Row4, Row5, Row6, Row7, Row8, Row9, Row10, Row11, Row12, Row13, Row14, Row15;
    if high == 12 {
      Row12Fits(low);
    } else if high == 13 {
      Row13Fits(low);
    } else if high == 14 {
      Row14Fits(low);
    } else {
      Row15Fits(low);
    }
  }

  lemma UpperRowsFit(high: bv8, low: bv8)
    requires 8 <= high < 16 && low < 16
    ensures RowEntry(high, low) == Xor(RowEntry(high, 0), Row0(low))
  {
    hide RowEntry;
    if high < 12 {
      ThirdQuarterFits(high, low);
    } else {
      LastQuarterFits(high, low);
    }
  }

  /** The entries of the single bits, computed bit by bit. */
  lemma LowBitEntries()
    ensures Entry(0) == Row0(0) == 0
    ensures Entry(1) == Row0(1) && Entry(2) == Row0(2) && Entry(4) == Row0(4) && Entry(8) == Row0(8)
  {
  }

  lemma HighBitEntries()
    ensures Entry(16) == Row1(0) && Entry(32) == Row2(0) && Entry(64) == Row4(0) && Entry(128) == Row8(0)
  {
  }

  /** The first row and the first column follow from the single bits by linearity. */
  lemma FirstRow(low: bv8)
    requires low < 16
    ensures Row0(low) == Entry(low)
  {
    hide Entry;
    LowBitEntries();
    EntryXor(2, 1);
    EntryXor(4, 1);
    EntryXor(4, 2);
    EntryXor(4, 3);
    EntryXor(8, 1);
    EntryXor(8, 2);
    EntryXor(8, 3);
    EntryXor(8, 4);
    EntryXor(8, 5);
    EntryXor(8, 6);
    EntryXor(8, 7);
  }

  lemma FirstColumn(high: bv8)
    requires high < 16
    ensures RowEntry(high, 0) == Entry(high << 4)
  {
    hide Entry;
    LowBitEntries();
    HighBitEntries();
    EntryXor(32, 16);
    EntryXor(64, 16);
    EntryXor(64, 32);
    EntryXor(64, 48);
    EntryXor(128, 16);
    EntryXor(128, 32);
    EntryXor(128, 48);
    EntryXor(128, 64);
    EntryXor(128, 80);
    EntryXor(128, 96);
    EntryXor(128, 112);
  }

  /** The literals are the eight-step images of their indices. */
  lemma TableEntryIsEntry(index: bv8)
    ensures TableEntry(index) == Entry(index)
  {
    hide RowEntry, Entry, Row0, Xor;
    var high, low := index >> 4, index & 15;
    assert index == (high << 4) ^ low && high < 16 && low < 16;
    if high < 8 {
      LowerRowsFit(high, low);
    } else {
      UpperRowsFit(high, low);
    }
    FirstRow(low);
    FirstColumn(high);
    EntryXor(high << 4, low);
  }

  method HashBuffer(buf: seq<bv8>, offset: nat, len: nat) returns (crc: bv64)
    requires offset + len <= |buf|
    ensures crc == Checksum(buf[offset..offset + len])
  {
    hide Entry, LowByte, Xor, Feed, TableEntry, ShiftByte;
    crc := ONES;
    for i := offset to offset + len
      invariant crc == Run(ONES, buf[offset..i])
    {
      assert buf[offset..i + 1] == buf[offset..i] + [buf[i]];
      RunAppend(ONES, buf[offset..i], buf[i]);
      TableStep(crc, buf[i]);
      var index := LowByte(crc) ^ buf[i];
      TableEntryIsEntry(index);
      XorCommutes(ShiftByte(crc), TableEntry(index));
      crc := Xor(ShiftByte(crc), TableEntry(index));
    }
    crc := !crc;
  }
}
