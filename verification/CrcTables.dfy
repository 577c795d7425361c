/** The lookup tables of ngx_crc32.c. */
module CrcTables {

  /** One bit of CRC-32: shift right, and add the polynomial if a 1 falls out (section 5.5 of the PNG specification). */
  function Shift(c: bv32): bv32 { if c & 1 == 1 then 0xEDB8_8320 ^ (c >> 1) else c >> 1 }

  function Shift4(c: bv32): bv32 { Shift(Shift(Shift(Shift(c)))) }

  function Shift8(c: bv32): bv32 { Shift4(Shift4(c)) }

  /** ngx_crc32_table16 (ngx_crc32.c:26-31) */
  function Table16(i: bv4): bv32 {
    match i
    case 0 => 0x0000_0000
    case 1 => 0x1DB7_1064
    case 2 => 0x3B6E_20C8
    case 3 => 0x26D9_30AC
    case 4 => 0x76DC_4190
    case 5 => 0x6B6B_51F4
    case 6 => 0x4DB2_6158
    case 7 => 0x5005_713C
    case 8 => 0xEDB8_8320
    case 9 => 0xF00F_9344
    case 10 => 0xD6D6_A3E8
    case 11 => 0xCB61_B38C
    case 12 => 0x9B64_C2B0
    case 13 => 0x86D3_D2D4
    case 14 => 0xA00A_E278
    case _ => 0xBDBD_F21C
  }

  /** ngx_crc32_table256 (ngx_crc32.c:34-99), in rows of sixteen. */
  function Table256(i: bv8): bv32 {
    var low := (i & 0xF) as bv4;
    match i >> 4
    case 0 => Row0(low)
    case 1 => Row1(low)
    case 2 => Row2(low)
    case 3 => Row3(low)
    case 4 => Row4(low)
    case 5 => Row5(low)
    case 6 => Row6(low)
    case 7 => Row7(low)
    case 8 => Row8(low)
    case 9 => Row9(low)
    case 10 => Row10(low)
    case 11 => Row11(low)
    case 12 => Row12(low)
    case 13 => Row13(low)
    case 14 => Row14(low)
    case _ => Row15(low)
  }

  function Row0(i: bv4): bv32 {
    match i
    case 0 => 0x0000_0000
    case 1 => 0x7707_3096
    case 2 => 0xEE0E_612C
    case 3 => 0x9909_51BA
    case 4 => 0x076D_C419
    case 5 => 0x706A_F48F
    case 6 => 0xE963_A535
    case 7 => 0x9E64_95A3
    case 8 => 0x0EDB_8832
    case 9 => 0x79DC_B8A4
    case 10 => 0xE0D5_E91E
    case 11 => 0x97D2_D988
    case 12 => 0x09B6_4C2B
    case 13 => 0x7EB1_7CBD
    case 14 => 0xE7B8_2D07
    case _ => 0x90BF_1D91
  }

  function Row1(i: bv4): bv32 {
    match i
    case 0 => 0x1DB7_1064
    case 1 => 0x6AB0_20F2
    case 2 => 0xF3B9_7148
    case 3 => 0x84BE_41DE
    case 4 => 0x1ADA_D47D
    case 5 => 0x6DDD_E4EB
    case 6 => 0xF4D4_B551
    case 7 => 0x83D3_85C7
    case 8 => 0x136C_9856
    case 9 => 0x646B_A8C0
    case 10 => 0xFD62_F97A
    case 11 => 0x8A65_C9EC
    case 12 => 0x1401_5C4F
    case 13 => 0x6306_6CD9
    case 14 => 0xFA0F_3D63
    case _ => 0x8D08_0DF5
  }

  function Row2(i: bv4): bv32 {
    match i
    case 0 => 0x3B6E_20C8
    case 1 => 0x4C69_105E
    case 2 => 0xD560_41E4
    case 3 => 0xA267_7172
    case 4 => 0x3C03_E4D1
    case 5 => 0x4B04_D447
    case 6 => 0xD20D_85FD
    case 7 => 0xA50A_B56B
    case 8 => 0x35B5_A8FA
    case 9 => 0x42B2_986C
    case 10 => 0xDBBB_C9D6
    case 11 => 0xACBC_F940
    case 12 => 0x32D8_6CE3
    case 13 => 0x45DF_5C75
    case 14 => 0xDCD6_0DCF
    case _ => 0xABD1_3D59
  }

  function Row3(i: bv4): bv32 {
    match i
    case 0 => 0x26D9_30AC
    case 1 => 0x51DE_003A
    case 2 => 0xC8D7_5180
    case 3 => 0xBFD0_6116
    case 4 => 0x21B4_F4B5
    case 5 => 0x56B3_C423
    case 6 => 0xCFBA_9599
    case 7 => 0xB8BD_A50F
    case 8 => 0x2802_B89E
    case 9 => 0x5F05_8808
    case 10 => 0xC60C_D9B2
    case 11 => 0xB10B_E924
    case 12 => 0x2F6F_7C87
    case 13 => 0x5868_4C11
    case 14 => 0xC161_1DAB
    case _ => 0xB666_2D3D
  }

  function Row4(i: bv4): bv32 {
    match i
    case 0 => 0x76DC_4190
    case 1 => 0x01DB_7106
    case 2 => 0x98D2_20BC
    case 3 => 0xEFD5_102A
    case 4 => 0x71B1_8589
    case 5 => 0x06B6_B51F
    case 6 => 0x9FBF_E4A5
    case 7 => 0xE8B8_D433
    case 8 => 0x7807_C9A2
    case 9 => 0x0F00_F934
    case 10 => 0x9609_A88E
    case 11 => 0xE10E_9818
    case 12 => 0x7F6A_0DBB
    case 13 => 0x086D_3D2D
    case 14 => 0x9164_6C97
    case _ => 0xE663_5C01
  }

  function Row5(i: bv4): bv32 {
    match i
    case 0 => 0x6B6B_51F4
    case 1 => 0x1C6C_6162
    case 2 => 0x8565_30D8
    case 3 => 0xF262_004E
    case 4 => 0x6C06_95ED
    case 5 => 0x1B01_A57B
    case 6 => 0x8208_F4C1
    case 7 => 0xF50F_C457
    case 8 => 0x65B0_D9C6
    case 9 => 0x12B7_E950
    case 10 => 0x8BBE_B8EA
    case 11 => 0xFCB9_887C
    case 12 => 0x62DD_1DDF
    case 13 => 0x15DA_2D49
    case 14 => 0x8CD3_7CF3
    case _ => 0xFBD4_4C65
  }

  function Row6(i: bv4): bv32 {
    match i
    case 0 => 0x4DB2_6158
    case 1 => 0x3AB5_51CE
    case 2 => 0xA3BC_0074
    case 3 => 0xD4BB_30E2
    case 4 => 0x4ADF_A541
    case 5 => 0x3DD8_95D7
    case 6 => 0xA4D1_C46D
    case 7 => 0xD3D6_F4FB
    case 8 => 0x4369_E96A
    case 9 => 0x346E_D9FC
    case 10 => 0xAD67_8846
    case 11 => 0xDA60_B8D0
    case 12 => 0x4404_2D73
    case 13 => 0x3303_1DE5
    case 14 => 0xAA0A_4C5F
    case _ => 0xDD0D_7CC9
  }

  function Row7(i: bv4): bv32 {
    match i
    case 0 => 0x5005_713C
    case 1 => 0x2702_41AA
    case 2 => 0xBE0B_1010
    case 3 => 0xC90C_2086
    case 4 => 0x5768_B525
    case 5 => 0x206F_85B3
    case 6 => 0xB966_D409
    case 7 => 0xCE61_E49F
    case 8 => 0x5EDE_F90E
    case 9 => 0x29D9_C998
    case 10 => 0xB0D0_9822
    case 11 => 0xC7D7_A8B4
    case 12 => 0x59B3_3D17
    case 13 => 0x2EB4_0D81
    case 14 => 0xB7BD_5C3B
    case _ => 0xC0BA_6CAD
  }

  function Row8(i: bv4): bv32 {
    match i
    case 0 => 0xEDB8_8320
    case 1 => 0x9ABF_B3B6
    case 2 => 0x03B6_E20C
    case 3 => 0x74B1_D29A
    case 4 => 0xEAD5_4739
    case 5 => 0x9DD2_77AF
    case 6 => 0x04DB_2615
    case 7 => 0x73DC_1683
    case 8 => 0xE363_0B12
    case 9 => 0x9464_3B84
    case 10 => 0x0D6D_6A3E
    case 11 => 0x7A6A_5AA8
    case 12 => 0xE40E_CF0B
    case 13 => 0x9309_FF9D
    case 14 => 0x0A00_AE27
    case _ => 0x7D07_9EB1
  }

  function Row9(i: bv4): bv32 {
    match i
    case 0 => 0xF00F_9344
    case 1 => 0x8708_A3D2
    case 2 => 0x1E01_F268
    case 3 => 0x6906_C2FE
    case 4 => 0xF762_575D
    case 5 => 0x8065_67CB
    case 6 => 0x196C_3671
    case 7 => 0x6E6B_06E7
    case 8 => 0xFED4_1B76
    case 9 => 0x89D3_2BE0
    case 10 => 0x10DA_7A5A
    case 11 => 0x67DD_4ACC
    case 12 => 0xF9B9_DF6F
    case 13 => 0x8EBE_EFF9
    case 14 => 0x17B7_BE43
    case _ => 0x60B0_8ED5
  }

  function Row10(i: bv4): bv32 {
    match i
    case 0 => 0xD6D6_A3E8
    case 1 => 0xA1D1_937E
    case 2 => 0x38D8_C2C4
    case 3 => 0x4FDF_F252
    case 4 => 0xD1BB_67F1
    case 5 => 0xA6BC_5767
    case 6 => 0x3FB5_06DD
    case 7 => 0x48B2_364B
    case 8 => 0xD80D_2BDA
    case 9 => 0xAF0A_1B4C
    case 10 => 0x3603_4AF6
    case 11 => 0x4104_7A60
    case 12 => 0xDF60_EFC3
    case 13 => 0xA867_DF55
    case 14 => 0x316E_8EEF
    case _ => 0x4669_BE79
  }

  function Row11(i: bv4): bv32 {
    match i
    case 0 => 0xCB61_B38C
    case 1 => 0xBC66_831A
    case 2 => 0x256F_D2A0
    case 3 => 0x5268_E236
    case 4 => 0xCC0C_7795
    case 5 => 0xBB0B_4703
    case 6 => 0x2202_16B9
    case 7 => 0x5505_262F
    case 8 => 0xC5BA_3BBE
    case 9 => 0xB2BD_0B28
    case 10 => 0x2BB4_5A92
    case 11 => 0x5CB3_6A04
    case 12 => 0xC2D7_FFA7
    case 13 => 0xB5D0_CF31
    case 14 => 0x2CD9_9E8B
    case _ => 0x5BDE_AE1D
  }

  function Row12(i: bv4): bv32 {
    match i
    case 0 => 0x9B64_C2B0
    case 1 => 0xEC63_F226
    case 2 => 0x756A_A39C
    case 3 => 0x026D_930A
    case 4 => 0x9C09_06A9
    case 5 => 0xEB0E_363F
    case 6 => 0x7207_6785
    case 7 => 0x0500_5713
    case 8 => 0x95BF_4A82
    case 9 => 0xE2B8_7A14
    case 10 => 0x7BB1_2BAE
    case 11 => 0x0CB6_1B38
    case 12 => 0x92D2_8E9B
    case 13 => 0xE5D5_BE0D
    case 14 => 0x7CDC_EFB7
    case _ => 0x0BDB_DF21
  }

  function Row13(i: bv4): bv32 {
    match i
    case 0 => 0x86D3_D2D4
    case 1 => 0xF1D4_E242
    case 2 => 0x68DD_B3F8
    case 3 => 0x1FDA_836E
    case 4 => 0x81BE_16CD
    case 5 => 0xF6B9_265B
    case 6 => 0x6FB0_77E1
    case 7 => 0x18B7_4777
    case 8 => 0x8808_5AE6
    case 9 => 0xFF0F_6A70
    case 10 => 0x6606_3BCA
    case 11 => 0x1101_0B5C
    case 12 => 0x8F65_9EFF
    case 13 => 0xF862_AE69
    case 14 => 0x616B_FFD3
    case _ => 0x166C_CF45
  }

  function Row14(i: bv4): bv32 {
    match i
    case 0 => 0xA00A_E278
    case 1 => 0xD70D_D2EE
    case 2 => 0x4E04_8354
    case 3 => 0x3903_B3C2
    case 4 => 0xA767_2661
    case 5 => 0xD060_16F7
    case 6 => 0x4969_474D
    case 7 => 0x3E6E_77DB
    case 8 => 0xAED1_6A4A
    case 9 => 0xD9D6_5ADC
    case 10 => 0x40DF_0B66
    case 11 => 0x37D8_3BF0
    case 12 => 0xA9BC_AE53
    case 13 => 0xDEBB_9EC5
    case 14 => 0x47B2_CF7F
    case _ => 0x30B5_FFE9
  }

  function Row15(i: bv4): bv32 {
    match i
    case 0 => 0xBDBD_F21C
    case 1 => 0xCABA_C28A
    case 2 => 0x53B3_9330
    case 3 => 0x24B4_A3A6
    case 4 => 0xBAD0_3605
    case 5 => 0xCDD7_0693
    case 6 => 0x54DE_5729
    case 7 => 0x23D9_67BF
    case 8 => 0xB366_7A2E
    case 9 => 0xC461_4AB8
    case 10 => 0x5D68_1B02
    case 11 => 0x2A6F_2B94
    case 12 => 0xB40B_BE37
    case 13 => 0xC30C_8EA1
    case 14 => 0x5A05_DF1B
    case _ => 0x2D02_EF8D
  }

  /** Each entry is its own index, shifted out. */
  lemma Table16Right(i: bv4)
    ensures Table16(i) == Shift4(i as bv32)
  {}

  lemma Row0Right(i: bv4)
    ensures Row0(i) == Shift8(i as bv32 | 0x00)
  {}

  lemma Row1Right(i: bv4)
    ensures Row1(i) == Shift8(i as bv32 | 0x10)
  {}

  lemma Row2Right(i: bv4)
    ensures Row2(i) == Shift8(i as bv32 | 0x20)
  {}

  lemma Row3Right(i: bv4)
    ensures Row3(i) == Shift8(i as bv32 | 0x30)
  {}

  lemma Row4Right(i: bv4)
    ensures Row4(i) == Shift8(i as bv32 | 0x40)
  {}

  lemma Row5Right(i: bv4)
    ensures Row5(i) == Shift8(i as bv32 | 0x50)
  {}

  lemma Row6Right(i: bv4)
    ensures Row6(i) == Shift8(i as bv32 | 0x60)
  {}

  lemma Row7Right(i: bv4)
    ensures Row7(i) == Shift8(i as bv32 | 0x70)
  {}

  lemma Row8Right(i: bv4)
    ensures Row8(i) == Shift8(i as bv32 | 0x80)
  {}

  lemma Row9Right(i: bv4)
    ensures Row9(i) == Shift8(i as bv32 | 0x90)
  {}

  lemma Row10Right(i: bv4)
    ensures Row10(i) == Shift8(i as bv32 | 0xA0)
  {}

  lemma Row11Right(i: bv4)
    ensures Row11(i) == Shift8(i as bv32 | 0xB0)
  {}

  lemma Row12Right(i: bv4)
    ensures Row12(i) == Shift8(i as bv32 | 0xC0)
  {}

  lemma Row13Right(i: bv4)
    ensures Row13(i) == Shift8(i as bv32 | 0xD0)
  {}

  lemma Row14Right(i: bv4)
    ensures Row14(i) == Shift8(i as bv32 | 0xE0)
  {}

  lemma Row15Right(i: bv4)
    ensures Row15(i) == Shift8(i as bv32 | 0xF0)
  {}

  lemma Split(i: bv8, low: bv4)
    requires low == (i & 0xF) as bv4
    ensures i as bv32 == low as bv32 | ((i >> 4) as bv32 << 4)
  {}

  lemma Table256Right(i: bv8)
    ensures Table256(i) == Shift8(i as bv32)
  {
    var low := (i & 0xF) as bv4;
    Split(i, low);
    match i >> 4 {
      case 0 => Row0Right(low);
      case 1 => Row1Right(low);
      case 2 => Row2Right(low);
      case 3 => Row3Right(low);
      case 4 => Row4Right(low);
      case 5 => Row5Right(low);
      case 6 => Row6Right(low);
      case 7 => Row7Right(low);
      case 8 => Row8Right(low);
      case 9 => Row9Right(low);
      case 10 => Row10Right(low);
      case 11 => Row11Right(low);
      case 12 => Row12Right(low);
      case 13 => Row13Right(low);
      case 14 => Row14Right(low);
      case _ => Row15Right(low);
    }
  }
}
