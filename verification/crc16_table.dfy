/** The table of common/hashkit/nc_crc16.c. */
module Crc16Table {
  import opened Crc16Spec

  /** crc16tab. */
  function Table(i: short): short
    requires i < 256
  {
    if i < 0x10 then Row0(i) else
    if i < 0x20 then Row1(i) else
    if i < 0x30 then Row2(i) else
    if i < 0x40 then Row3(i) else
    if i < 0x50 then Row4(i) else
    if i < 0x60 then Row5(i) else
    if i < 0x70 then Row6(i) else
    if i < 0x80 then Row7(i) else
    if i < 0x90 then Row8(i) else
    if i < 0xa0 then Row9(i) else
    if i < 0xb0 then Row10(i) else
    if i < 0xc0 then Row11(i) else
    if i < 0xd0 then Row12(i) else
    if i < 0xe0 then Row13(i) else
    if i < 0xf0 then Row14(i) else
    Row15(i)
  }

  function Row0(i: short): short {
    match i
    case 0x00 => 0x0000 case 0x01 => 0x1021 case 0x02 => 0x2042 case 0x03 => 0x3063
    case 0x04 => 0x4084 case 0x05 => 0x50a5 case 0x06 => 0x60c6 case 0x07 => 0x70e7
    case 0x08 => 0x8108 case 0x09 => 0x9129 case 0x0a => 0xa14a case 0x0b => 0xb16b
    case 0x0c => 0xc18c case 0x0d => 0xd1ad case 0x0e => 0xe1ce case _ => 0xf1ef
  }

  function Row1(i: short): short {
    match i
    case 0x10 => 0x1231 case 0x11 => 0x0210 case 0x12 => 0x3273 case 0x13 => 0x2252
    case 0x14 => 0x52b5 case 0x15 => 0x4294 case 0x16 => 0x72f7 case 0x17 => 0x62d6
    case 0x18 => 0x9339 case 0x19 => 0x8318 case 0x1a => 0xb37b case 0x1b => 0xa35a
    case 0x1c => 0xd3bd case 0x1d => 0xc39c case 0x1e => 0xf3ff case _ => 0xe3de
  }

  function Row2(i: short): short {
    match i
    case 0x20 => 0x2462 case 0x21 => 0x3443 case 0x22 => 0x0420 case 0x23 => 0x1401
    case 0x24 => 0x64e6 case 0x25 => 0x74c7 case 0x26 => 0x44a4 case 0x27 => 0x5485
    case 0x28 => 0xa56a case 0x29 => 0xb54b case 0x2a => 0x8528 case 0x2b => 0x9509
    case 0x2c => 0xe5ee case 0x2d => 0xf5cf case 0x2e => 0xc5ac case _ => 0xd58d
  }

  function Row3(i: short): short {
    match i
    case 0x30 => 0x3653 case 0x31 => 0x2672 case 0x32 => 0x1611 case 0x33 => 0x0630
    case 0x34 => 0x76d7 case 0x35 => 0x66f6 case 0x36 => 0x5695 case 0x37 => 0x46b4
    case 0x38 => 0xb75b case 0x39 => 0xa77a case 0x3a => 0x9719 case 0x3b => 0x8738
    case 0x3c => 0xf7df case 0x3d => 0xe7fe case 0x3e => 0xd79d case _ => 0xc7bc
  }

  function Row4(i: short): short {
    match i
    case 0x40 => 0x48c4 case 0x41 => 0x58e5 case 0x42 => 0x6886 case 0x43 => 0x78a7
    case 0x44 => 0x0840 case 0x45 => 0x1861 case 0x46 => 0x2802 case 0x47 => 0x3823
    case 0x48 => 0xc9cc case 0x49 => 0xd9ed case 0x4a => 0xe98e case 0x4b => 0xf9af
    case 0x4c => 0x8948 case 0x4d => 0x9969 case 0x4e => 0xa90a case _ => 0xb92b
  }

  function Row5(i: short): short {
    match i
    case 0x50 => 0x5af5 case 0x51 => 0x4ad4 case 0x52 => 0x7ab7 case 0x53 => 0x6a96
    case 0x54 => 0x1a71 case 0x55 => 0x0a50 case 0x56 => 0x3a33 case 0x57 => 0x2a12
    case 0x58 => 0xdbfd case 0x59 => 0xcbdc case 0x5a => 0xfbbf case 0x5b => 0xeb9e
    case 0x5c => 0x9b79 case 0x5d => 0x8b58 case 0x5e => 0xbb3b case _ => 0xab1a
  }

  function Row6(i: short): short {
    match i
    case 0x60 => 0x6ca6 case 0x61 => 0x7c87 case 0x62 => 0x4ce4 case 0x63 => 0x5cc5
    case 0x64 => 0x2c22 case 0x65 => 0x3c03 case 0x66 => 0x0c60 case 0x67 => 0x1c41
    case 0x68 => 0xedae case 0x69 => 0xfd8f case 0x6a => 0xcdec case 0x6b => 0xddcd
    case 0x6c => 0xad2a case 0x6d => 0xbd0b case 0x6e => 0x8d68 case _ => 0x9d49
  }

  function Row7(i: short): short {
    match i
    case 0x70 => 0x7e97 case 0x71 => 0x6eb6 case 0x72 => 0x5ed5 case 0x73 => 0x4ef4
    case 0x74 => 0x3e13 case 0x75 => 0x2e32 case 0x76 => 0x1e51 case 0x77 => 0x0e70
    case 0x78 => 0xff9f case 0x79 => 0xefbe case 0x7a => 0xdfdd case 0x7b => 0xcffc
    case 0x7c => 0xbf1b case 0x7d => 0xaf3a case 0x7e => 0x9f59 case _ => 0x8f78
  }

  function Row8(i: short): short {
    match i
    case 0x80 => 0x9188 case 0x81 => 0x81a9 case 0x82 => 0xb1ca case 0x83 => 0xa1eb
    case 0x84 => 0xd10c case 0x85 => 0xc12d case 0x86 => 0xf14e case 0x87 => 0xe16f
    case 0x88 => 0x1080 case 0x89 => 0x00a1 case 0x8a => 0x30c2 case 0x8b => 0x20e3
    case 0x8c => 0x5004 case 0x8d => 0x4025 case 0x8e => 0x7046 case _ => 0x6067
  }

  function Row9(i: short): short {
    match i
    case 0x90 => 0x83b9 case 0x91 => 0x9398 case 0x92 => 0xa3fb case 0x93 => 0xb3da
    case 0x94 => 0xc33d case 0x95 => 0xd31c case 0x96 => 0xe37f case 0x97 => 0xf35e
    case 0x98 => 0x02b1 case 0x99 => 0x1290 case 0x9a => 0x22f3 case 0x9b => 0x32d2
    case 0x9c => 0x4235 case 0x9d => 0x5214 case 0x9e => 0x6277 case _ => 0x7256
  }

  function Row10(i: short): short {
    match i
    case 0xa0 => 0xb5ea case 0xa1 => 0xa5cb case 0xa2 => 0x95a8 case 0xa3 => 0x8589
    case 0xa4 => 0xf56e case 0xa5 => 0xe54f case 0xa6 => 0xd52c case 0xa7 => 0xc50d
    case 0xa8 => 0x34e2 case 0xa9 => 0x24c3 case 0xaa => 0x14a0 case 0xab => 0x0481
    case 0xac => 0x7466 case 0xad => 0x6447 case 0xae => 0x5424 case _ => 0x4405
  }

  function Row11(i: short): short {
    match i
    case 0xb0 => 0xa7db case 0xb1 => 0xb7fa case 0xb2 => 0x8799 case 0xb3 => 0x97b8
    case 0xb4 => 0xe75f case 0xb5 => 0xf77e case 0xb6 => 0xc71d case 0xb7 => 0xd73c
    case 0xb8 => 0x26d3 case 0xb9 => 0x36f2 case 0xba => 0x0691 case 0xbb => 0x16b0
    case 0xbc => 0x6657 case 0xbd => 0x7676 case 0xbe => 0x4615 case _ => 0x5634
  }

  function Row12(i: short): short {
    match i
    case 0xc0 => 0xd94c case 0xc1 => 0xc96d case 0xc2 => 0xf90e case 0xc3 => 0xe92f
    case 0xc4 => 0x99c8 case 0xc5 => 0x89e9 case 0xc6 => 0xb98a case 0xc7 => 0xa9ab
    case 0xc8 => 0x5844 case 0xc9 => 0x4865 case 0xca => 0x7806 case 0xcb => 0x6827
    case 0xcc => 0x18c0 case 0xcd => 0x08e1 case 0xce => 0x3882 case _ => 0x28a3
  }

  function Row13(i: short): short {
    match i
    case 0xd0 => 0xcb7d case 0xd1 => 0xdb5c case 0xd2 => 0xeb3f case 0xd3 => 0xfb1e
    case 0xd4 => 0x8bf9 case 0xd5 => 0x9bd8 case 0xd6 => 0xabbb case 0xd7 => 0xbb9a
    case 0xd8 => 0x4a75 case 0xd9 => 0x5a54 case 0xda => 0x6a37 case 0xdb => 0x7a16
    case 0xdc => 0x0af1 case 0xdd => 0x1ad0 case 0xde => 0x2ab3 case _ => 0x3a92
  }

  function Row14(i: short): short {
    match i
    case 0xe0 => 0xfd2e case 0xe1 => 0xed0f case 0xe2 => 0xdd6c case 0xe3 => 0xcd4d
    case 0xe4 => 0xbdaa case 0xe5 => 0xad8b case 0xe6 => 0x9de8 case 0xe7 => 0x8dc9
    case 0xe8 => 0x7c26 case 0xe9 => 0x6c07 case 0xea => 0x5c64 case 0xeb => 0x4c45
    case 0xec => 0x3ca2 case 0xed => 0x2c83 case 0xee => 0x1ce0 case _ => 0x0cc1
  }

  function Row15(i: short): short {
    match i
    case 0xf0 => 0xef1f case 0xf1 => 0xff3e case 0xf2 => 0xcf5d case 0xf3 => 0xdf7c
    case 0xf4 => 0xaf9b case 0xf5 => 0xbfba case 0xf6 => 0x8fd9 case 0xf7 => 0x9ff8
    case 0xf8 => 0x6e17 case 0xf9 => 0x7e36 case 0xfa => 0x4e55 case 0xfb => 0x5e74
    case 0xfc => 0x2e93 case 0xfd => 0x3eb2 case 0xfe => 0x0ed1 case _ => 0x1ef0
  }

  // ---------------------------------------------------------------- its entries

  lemma Row0Is(i: short)
    requires i < 0x10
    ensures Row0(i) == Eight(High(i))
  {
    match i
    case 0x00 => case 0x01 => case 0x02 => case 0x03 => case 0x04 => case 0x05 => case 0x06 => case 0x07 =>
    case 0x08 => case 0x09 => case 0x0a => case 0x0b => case 0x0c => case 0x0d => case 0x0e => case _ =>
  }

  lemma Row1Is(i: short)
    requires 0x10 <= i < 0x20
    ensures Row1(i) == Eight(High(i))
  {
    match i
    case 0x10 => case 0x11 => case 0x12 => case 0x13 => case 0x14 => case 0x15 => case 0x16 => case 0x17 =>
    case 0x18 => case 0x19 => case 0x1a => case 0x1b => case 0x1c => case 0x1d => case 0x1e => case _ =>
  }

  lemma Row2Is(i: short)
    requires 0x20 <= i < 0x30
    ensures Row2(i) == Eight(High(i))
  {
    match i
    case 0x20 => case 0x21 => case 0x22 => case 0x23 => case 0x24 => case 0x25 => case 0x26 => case 0x27 =>
    case 0x28 => case 0x29 => case 0x2a => case 0x2b => case 0x2c => case 0x2d => case 0x2e => case _ =>
  }

  lemma Row3Is(i: short)
    requires 0x30 <= i < 0x40
    ensures Row3(i) == Eight(High(i))
  {
    match i
    case 0x30 => case 0x31 => case 0x32 => case 0x33 => case 0x34 => case 0x35 => case 0x36 => case 0x37 =>
    case 0x38 => case 0x39 => case 0x3a => case 0x3b => case 0x3c => case 0x3d => case 0x3e => case _ =>
  }

  lemma Row4Is(i: short)
    requires 0x40 <= i < 0x50
    ensures Row4(i) == Eight(High(i))
  {
    match i
    case 0x40 => case 0x41 => case 0x42 => case 0x43 => case 0x44 => case 0x45 => case 0x46 => case 0x47 =>
    case 0x48 => case 0x49 => case 0x4a => case 0x4b => case 0x4c => case 0x4d => case 0x4e => case _ =>
  }

  lemma Row5Is(i: short)
    requires 0x50 <= i < 0x60
    ensures Row5(i) == Eight(High(i))
  {
    match i
    case 0x50 => case 0x51 => case 0x52 => case 0x53 => case 0x54 => case 0x55 => case 0x56 => case 0x57 =>
    case 0x58 => case 0x59 => case 0x5a => case 0x5b => case 0x5c => case 0x5d => case 0x5e => case _ =>
  }

  lemma Row6Is(i: short)
    requires 0x60 <= i < 0x70
    ensures Row6(i) == Eight(High(i))
  {
    match i
    case 0x60 => case 0x61 => case 0x62 => case 0x63 => case 0x64 => case 0x65 => case 0x66 => case 0x67 =>
    case 0x68 => case 0x69 => case 0x6a => case 0x6b => case 0x6c => case 0x6d => case 0x6e => case _ =>
  }

  lemma Row7Is(i: short)
    requires 0x70 <= i < 0x80
    ensures Row7(i) == Eight(High(i))
  {
    match i
    case 0x70 => case 0x71 => case 0x72 => case 0x73 => case 0x74 => case 0x75 => case 0x76 => case 0x77 =>
    case 0x78 => case 0x79 => case 0x7a => case 0x7b => case 0x7c => case 0x7d => case 0x7e => case _ =>
  }

  lemma Row8Is(i: short)
    requires 0x80 <= i < 0x90
    ensures Row8(i) == Eight(High(i))
  {
    match i
    case 0x80 => case 0x81 => case 0x82 => case 0x83 => case 0x84 => case 0x85 => case 0x86 => case 0x87 =>
    case 0x88 => case 0x89 => case 0x8a => case 0x8b => case 0x8c => case 0x8d => case 0x8e => case _ =>
  }

  lemma Row9Is(i: short)
    requires 0x90 <= i < 0xa0
    ensures Row9(i) == Eight(High(i))
  {
    match i
    case 0x90 => case 0x91 => case 0x92 => case 0x93 => case 0x94 => case 0x95 => case 0x96 => case 0x97 =>
    case 0x98 => case 0x99 => case 0x9a => case 0x9b => case 0x9c => case 0x9d => case 0x9e => case _ =>
  }

  lemma Row10Is(i: short)
    requires 0xa0 <= i < 0xb0
    ensures Row10(i) == Eight(High(i))
  {
    match i
    case 0xa0 => case 0xa1 => case 0xa2 => case 0xa3 => case 0xa4 => case 0xa5 => case 0xa6 => case 0xa7 =>
    case 0xa8 => case 0xa9 => case 0xaa => case 0xab => case 0xac => case 0xad => case 0xae => case _ =>
  }

  lemma Row11Is(i: short)
    requires 0xb0 <= i < 0xc0
    ensures Row11(i) == Eight(High(i))
  {
    match i
    case 0xb0 => case 0xb1 => case 0xb2 => case 0xb3 => case 0xb4 => case 0xb5 => case 0xb6 => case 0xb7 =>
    case 0xb8 => case 0xb9 => case 0xba => case 0xbb => case 0xbc => case 0xbd => case 0xbe => case _ =>
  }

  lemma Row12Is(i: short)
    requires 0xc0 <= i < 0xd0
    ensures Row12(i) == Eight(High(i))
  {
    match i
    case 0xc0 => case 0xc1 => case 0xc2 => case 0xc3 => case 0xc4 => case 0xc5 => case 0xc6 => case 0xc7 =>
    case 0xc8 => case 0xc9 => case 0xca => case 0xcb => case 0xcc => case 0xcd => case 0xce => case _ =>
  }

  lemma Row13Is(i: short)
    requires 0xd0 <= i < 0xe0
    ensures Row13(i) == Eight(High(i))
  {
    match i
    case 0xd0 => case 0xd1 => case 0xd2 => case 0xd3 => case 0xd4 => case 0xd5 => case 0xd6 => case 0xd7 =>
    case 0xd8 => case 0xd9 => case 0xda => case 0xdb => case 0xdc => case 0xdd => case 0xde => case _ =>
  }

  lemma Row14Is(i: short)
    requires 0xe0 <= i < 0xf0
    ensures Row14(i) == Eight(High(i))
  {
    match i
    case 0xe0 => case 0xe1 => case 0xe2 => case 0xe3 => case 0xe4 => case 0xe5 => case 0xe6 => case 0xe7 =>
    case 0xe8 => case 0xe9 => case 0xea => case 0xeb => case 0xec => case 0xed => case 0xee => case _ =>
  }

  lemma Row15Is(i: short)
    requires 0xf0 <= i <= 0xff
    ensures Row15(i) == Eight(High(i))
  {
    match i
    case 0xf0 => case 0xf1 => case 0xf2 => case 0xf3 => case 0xf4 => case 0xf5 => case 0xf6 => case 0xf7 =>
    case 0xf8 => case 0xf9 => case 0xfa => case 0xfb => case 0xfc => case 0xfd => case 0xfe => case _ =>
  }

  /** Every entry is what eight steps of the division make of its index. */
  lemma TableIs(i: short)
    requires i < 256
    ensures Table(i) == Eight(High(i))
  {
    hide Eight, Row0, Row1, Row2, Row3, Row4, Row5, Row6, Row7, Row8, Row9, Row10, Row11, Row12, Row13, Row14, Row15;
    if i < 0x10 {
      Row0Is(i);
    } else if i < 0x20 {
      Row1Is(i);
    } else if i < 0x30 {
      Row2Is(i);
    } else if i < 0x40 {
      Row3Is(i);
    } else if i < 0x50 {
      Row4Is(i);
    } else if i < 0x60 {
      Row5Is(i);
    } else if i < 0x70 {
      Row6Is(i);
    } else if i < 0x80 {
      Row7Is(i);
    } else if i < 0x90 {
      Row8Is(i);
    } else if i < 0xa0 {
      Row9Is(i);
    } else if i < 0xb0 {
      Row10Is(i);
    } else if i < 0xc0 {
      Row11Is(i);
    } else if i < 0xd0 {
      Row12Is(i);
    } else if i < 0xe0 {
      Row13Is(i);
    } else if i < 0xf0 {
      Row14Is(i);
    } else {
      Row15Is(i);
    }
  }
}
