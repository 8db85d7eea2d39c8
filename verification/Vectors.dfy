/**
 Known values: the protocol's shared vectors (protocol/v3.0-vectors.toml), the examples of
 docs/rf-control.md, and those of draft-eastlake-fnv for 32-bit FNV-1a (its appendix C).
 */
module Vectors {
  import opened Bits
  import opened Protocol
  import opened RfCommands
  import PiProtocol
  import DiagnosticRecord

  // Identifiers

  lemma IdVector(kind: u8, destination: u8, source: u8, sequence: u16)
    requires kind < 8 && destination < 32 && source < 32
    ensures var id := kind * 0x400_0000 + destination * 0x20_0000 + source * 0x1_0000 + sequence;
      MakeId(kind, destination, source, sequence) == Some(id)
      && PiProtocol.BuildId(kind, destination, source, sequence) == Some(id)
      && ParseId(id) == Some(IdFields(kind, destination, source, sequence))
  {
    hide MakeId, ParseId, PiProtocol.BuildId;
    var f := IdFields(kind, destination, source, sequence);
    MakeIdIsPositional(f);
    ParseAfterMake(f);
    PiProtocol.BuildIdAgreesWithC(kind, destination, source, sequence);
  }

  lemma SharedIds()
    ensures MakeId(2, 3, 0, 42) == Some(0x0860_002a) && PiProtocol.BuildId(2, 3, 0, 42) == Some(0x0860_002a)
    ensures MakeId(0, 31, 0, 0) == Some(0x03e0_0000) && PiProtocol.BuildId(0, 31, 0, 0) == Some(0x03e0_0000)
    ensures MakeId(5, 0, 7, 1) == Some(0x1407_0001) && PiProtocol.BuildId(5, 0, 7, 1) == Some(0x1407_0001)
  {
    hide MakeId, ParseId, PiProtocol.BuildId;
    IdVector(2, 3, 0, 42);
    IdVector(0, 31, 0, 0);
    IdVector(5, 0, 7, 1);
  }

  // Commands

  /** A controller's frame to node 3 with up to three payload bytes. */
  function ToNodeThree(kind: u8, sequence: u16, length: u8, b0: u8, b1: u8, b2: u8): Frame
    requires kind < 8
  {
    Frame(kind * 0x400_0000 + 3 * 0x20_0000 + sequence, true, false, length, [b0, b1, b2, 0, 0, 0, 0, 0])
  }

  /** The result code of a rejected vector. */
  function RejectedWith(frame: Frame): Option<u8>
  {
    match Decode(frame, 3)
    case Valid(_) => None
    case Invalid(error) => Some(ResultCode(ResultFromDecode(error)))
  }

  lemma SharedCommands()
    ensures Decode(ToNodeThree(2, 40, 1, 128, 0, 0), 3) == Valid(Command(2, 3, 0, 40, 128, 0))
    ensures Decode(ToNodeThree(3, 41, 1, 8, 0, 0), 3) == Valid(Command(3, 3, 0, 41, 0, 8))
    ensures Decode(ToNodeThree(1, 42, 2, 64, 12, 0), 3) == Valid(Command(1, 3, 0, 42, 64, 12))
    ensures Decode(ToNodeThree(0, 43, 0, 0, 0, 0), 3) == Valid(Command(0, 3, 0, 43, 0, 0))
    ensures RejectedWith(ToNodeThree(2, 44, 2, 128, 0, 0)) == Some(1)
    ensures RejectedWith(ToNodeThree(3, 45, 1, 24, 0, 0)) == Some(2)
    ensures RejectedWith(ToNodeThree(1, 46, 3, 64, 12, 0)) == Some(1)
    ensures RejectedWith(ToNodeThree(0, 47, 1, 0, 0, 0)) == Some(1)
  {
    hide MakeId, ParseId, PiProtocol.BuildId;
    IdVector(2, 3, 0, 40);
    IdVector(3, 3, 0, 41);
    IdVector(1, 3, 0, 42);
    IdVector(0, 3, 0, 43);
    IdVector(2, 3, 0, 44);
    IdVector(3, 3, 0, 45);
    IdVector(1, 3, 0, 46);
    IdVector(0, 3, 0, 47);
  }

  // Serial words

  /** Word 0x08d at address 1 is command 0x1628; 3, 8, 16 and 23 dB are the documented bytes. */
  lemma SerialWords()
    ensures MakePhaseCommand(0x08d, 1) == 0x1628
    ensures MakeVgaCommand(0) == Some(0x00) && MakeVgaCommand(3) == Some(0x0c) && MakeVgaCommand(8) == Some(0x20)
    ensures MakeVgaCommand(16) == Some(0x40) && MakeVgaCommand(23) == Some(0x5c)
  {
    hide MakePhaseCommand, MakeVgaCommand, Reversed;
    PhaseCommandFields(0x08d, 1);
    ReversedVectors();
    VgaCommandFields(0);
    VgaCommandFields(3);
    VgaCommandFields(8);
    VgaCommandFields(16);
    VgaCommandFields(23);
  }

  lemma ReversedVectors()
    ensures Reversed(0x8d, 8) == 0xb1 && Reversed(1, 4) == 8
  {
    assert Reversed(2, 2) == 1;
    assert Reversed(8, 4) == 1;
    assert Pow2(3) == 8 && Pow2(4) == 16 && Pow2(5) == 32;
    assert Reversed(0x23, 6) == 49;
    assert Pow2(7) == 128;
    assert Reversed(0x46, 7) == 49;
    assert Reversed(0, 3) == 0;
  }

  // The hash

  /** One step of the hash, worked out on the low byte. */
  lemma MixOnLowByte(high: nat, low: u8, byte: u8, mixed: u32)
    requires high < 0x100_0000
    requires (high * 256 + Xor(low, byte)) * 16777619 % 0x1_0000_0000 == mixed
    ensures DiagnosticRecord.MixByte(high * 256 + low, byte) == mixed
  {
    hide Xor, Pow2;
    Powers();
    XorFields(high, low, 0, byte, 8);
    XorZero(high);
  }

  lemma HighNibbleXors()
    ensures Xor(0xc, 0x6) == 0xa && Xor(0x9, 0x6) == 0xf && Xor(0x4, 0x6) == 0x2
  {
  }

  lemma MoreHighNibbleXors()
    ensures Xor(0xd, 0x6) == 0xb && Xor(0xe, 0x6) == 0x8 && Xor(0x8, 0x7) == 0xf
  {
  }

  lemma LowNibbleXors()
    ensures Xor(0x5, 0x1) == 0x4 && Xor(0x5, 0x6) == 0x3 && Xor(0x9, 0xf) == 0x6 && Xor(0x2, 0xf) == 0xd
    ensures Xor(0x7, 0x2) == 0x5 && Xor(0xf, 0x1) == 0xe && Xor(0xa, 0x2) == 0x8
  {
  }

  lemma ByteXor(high: nat, low: nat, h: nat, l: nat)
    requires low < 16 && l < 16
    ensures Xor(high * 16 + low, h * 16 + l) == Xor(high, h) * 16 + Xor(low, l)
  {
    hide Xor, Pow2;
    Powers();
    XorFields(high, low, h, l, 4);
  }

  lemma ByteXors()
    ensures Xor(0xc5, 0x61) == 0xa4 && Xor(0xc5, 0x66) == 0xa3 && Xor(0x99, 0x6f) == 0xf6
    ensures Xor(0x42, 0x6f) == 0x2d && Xor(0xd7, 0x62) == 0xb5 && Xor(0xef, 0x61) == 0x8e && Xor(0x8a, 0x72) == 0xf8
  {
    hide Xor;
    HighNibbleXors();
    MoreHighNibbleXors();
    LowNibbleXors();
    ByteXor(0xc, 0x5, 0x6, 0x1);
    ByteXor(0xc, 0x5, 0x6, 0x6);
    ByteXor(0x9, 0x9, 0x6, 0xf);
    ByteXor(0x4, 0x2, 0x6, 0xf);
    ByteXor(0xd, 0x7, 0x6, 0x2);
    ByteXor(0xe, 0xf, 0x6, 0x1);
    ByteXor(0x8, 0xa, 0x7, 0x2);
  }

  /** The empty string, "a" and "foobar". */
  lemma FnvVectors()
    ensures DiagnosticRecord.Fold(DiagnosticRecord.FNV_OFFSET_BASIS, []) == 0x811c_9dc5
    ensures DiagnosticRecord.Fold(DiagnosticRecord.FNV_OFFSET_BASIS, [0x61]) == 0xe40c_292c
    ensures DiagnosticRecord.Fold(DiagnosticRecord.FNV_OFFSET_BASIS, [0x66, 0x6f, 0x6f, 0x62, 0x61, 0x72]) == 0xbf9c_f968
  {
    hide DiagnosticRecord.MixByte, Xor;
    var h := DiagnosticRecord.FNV_OFFSET_BASIS;
    DiagnosticRecord.FoldOfByte(h, 0x61);
    FoldSix(h, 0x66, 0x6f, 0x6f, 0x62, 0x61, 0x72);
    ByteXors();
    MixOnLowByte(0x81_1c9d, 0xc5, 0x61, 0xe40c_292c);
    MixOnLowByte(0x81_1c9d, 0xc5, 0x66, 0xe30c_2799);
    MixOnLowByte(0xe3_0c27, 0x99, 0x6f, 0x6222_e842);
    MixOnLowByte(0x62_22e8, 0x42, 0x6f, 0xa9f3_7ed7);
    MixOnLowByte(0xa9_f37e, 0xd7, 0x62, 0x3f50_76ef);
    MixOnLowByte(0x3f_5076, 0xef, 0x61, 0x39aa_a18a);
    MixOnLowByte(0x39_aaa1, 0x8a, 0x72, 0xbf9c_f968);
  }

  lemma FoldSix(h: u32, b0: u8, b1: u8, b2: u8, b3: u8, b4: u8, b5: u8)
    ensures DiagnosticRecord.Fold(h, [b0, b1, b2, b3, b4, b5])
         == DiagnosticRecord.MixByte(DiagnosticRecord.MixByte(DiagnosticRecord.MixByte(DiagnosticRecord.MixByte(
              DiagnosticRecord.MixByte(DiagnosticRecord.MixByte(h, b0), b1), b2), b3), b4), b5)
  {
    hide DiagnosticRecord.MixByte;
    var s1, s2, s3, s4, s5 := [b0], [b0, b1], [b0, b1, b2], [b0, b1, b2, b3], [b0, b1, b2, b3, b4];
    assert [b0, b1, b2, b3, b4, b5][..5] == s5 && s5[..4] == s4 && s4[..3] == s3;
    assert s3[..2] == s2 && s2[..1] == s1;
    DiagnosticRecord.FoldOfByte(h, b0);
    assert DiagnosticRecord.Fold(h, s2) == DiagnosticRecord.MixByte(DiagnosticRecord.Fold(h, s1), b1);
    assert DiagnosticRecord.Fold(h, s3) == DiagnosticRecord.MixByte(DiagnosticRecord.Fold(h, s2), b2);
    assert DiagnosticRecord.Fold(h, s4) == DiagnosticRecord.MixByte(DiagnosticRecord.Fold(h, s3), b3);
    assert DiagnosticRecord.Fold(h, s5) == DiagnosticRecord.MixByte(DiagnosticRecord.Fold(h, s4), b4);
  }
}
