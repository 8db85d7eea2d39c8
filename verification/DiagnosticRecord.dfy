/**
 The retained diagnostic record: stm32/app/src/platform/diagnostic_record.c, with the boot
 identity of build_info.c. Both hash with 32-bit FNV-1a (section 2 of draft-eastlake-fnv).
 */
module DiagnosticRecord {
  import opened Bits
  import opened Firmware

  const FNV_OFFSET_BASIS: u32 := 2166136261
  const FNV_PRIME: u32 := 16777619
  const FNV_PRIME_INVERSE: u32 := 899433627
  const WORD: int := 0x1_0000_0000

  const MAGIC: u32 := 0x4246_4d31
  const VERSION: u32 := 1
  const LOCKOUT_THRESHOLD: u8 := 3

  datatype Record = Record(
    magic: u32, version: u32, buildId: u32, bootCount: u32, resetFlags: u32, checksum: u32,
    currentFault: u16, previousFault: u16, lastPhaseCommand: u16,
    lastVgaCommand: u8, state: u8, clockSource: u8, incompleteBoots: u8)

  function MixByte(hash: u32, value: u8): u32
  {
    Xor(hash, value) * FNV_PRIME % WORD
  }

  function Mix16(hash: u32, value: u16): u32
  {
    MixByte(MixByte(hash, value % 0x100), value / 0x100)
  }

  function Mix32(hash: u32, value: u32): u32
  {
    Mix16(Mix16(hash, value % 0x1_0000), value / 0x1_0000)
  }

  function Checksum(r: Record): u32
  {
    var h := Mix32(FNV_OFFSET_BASIS, r.magic);
    var h := Mix32(h, r.version);
    var h := Mix32(h, r.buildId);
    var h := Mix32(h, r.bootCount);
    var h := Mix32(h, r.resetFlags);
    var h := Mix16(h, r.currentFault);
    var h := Mix16(h, r.previousFault);
    var h := Mix16(h, r.lastPhaseCommand);
    var h := MixByte(h, r.lastVgaCommand);
    var h := MixByte(h, r.state);
    var h := MixByte(h, r.clockSource);
    MixByte(h, r.incompleteBoots)
  }

  function Sealed(r: Record): Record
  {
    r.(checksum := Checksum(r))
  }

  const BLANK := Record(MAGIC, VERSION, 0, 0, 0, 0, 0, 0, 0, 0, 0, 0, 0)

  function New(): Record
  {
    Sealed(BLANK)
  }

  predicate IsValid(r: Record)
  {
    r.magic == MAGIC && r.version == VERSION && r.checksum == Checksum(r)
  }

  function BeginBoot(previous: Record, resetFlags: u32, buildId: u32): Record
  {
    var r :=
      if IsValid(previous) && previous.buildId == buildId then
        previous.(
          previousFault := previous.currentFault,
          currentFault := FaultCode(NoFault),
          incompleteBoots :=
            if previous.state == StateCode(Healthy) then 0
            else if previous.incompleteBoots < 0xff then previous.incompleteBoots + 1
            else previous.incompleteBoots)
      else New();
    Sealed(r.(
      buildId := buildId,
      bootCount := (r.bootCount + 1) % WORD,
      resetFlags := resetFlags,
      state := StateCode(Booting),
      clockSource := ClockCode(ClockUnknown)))
  }

  predicate ShouldLockout(r: Record)
  {
    IsValid(r) && r.incompleteBoots >= LOCKOUT_THRESHOLD
  }

  /** The record's setters. */
  function Apply(r: Record, event: RecordEvent): Record
  {
    match event
    case SetState(state) => Sealed(r.(state := StateCode(state)))
    case SetClock(clock) => Sealed(r.(clockSource := ClockCode(clock)))
    case SetCommands(phase, vga) => Sealed(r.(lastPhaseCommand := phase, lastVgaCommand := vga))
    case SetFault(fault) => Sealed(r.(currentFault := FaultCode(fault), state := StateCode(Faulted)))
    case MarkHealthy => Sealed(r.(state := StateCode(Healthy), incompleteBoots := 0))
  }

  /** The stored checksum is not part of what it covers, so sealing makes any current-format record valid. */
  lemma SealedIsValid()
    ensures forall r: Record {:trigger Sealed(r)} :: r.magic == MAGIC && r.version == VERSION ==> IsValid(Sealed(r))
  {
    hide Mix32, Mix16, MixByte;
  }

  // The hash as a fold over bytes

  function Fold(hash: u32, bytes: seq<u8>): u32
    decreases |bytes|
  {
    if bytes == [] then hash else MixByte(Fold(hash, bytes[..|bytes| - 1]), bytes[|bytes| - 1])
  }

  lemma {:induction false} FoldJoin(hash: u32, a: seq<u8>, b: seq<u8>)
    ensures Fold(hash, a + b) == Fold(Fold(hash, a), b)
    decreases |b|
  {
    hide MixByte;
    if b == [] {
      assert a + b == a;
    } else {
      assert (a + b)[..|a + b| - 1] == a + b[..|b| - 1];
      FoldJoin(hash, a, b[..|b| - 1]);
    }
  }

  function Bytes16(value: u16): seq<u8>
  {
    [value % 0x100, value / 0x100]
  }

  function Bytes32(value: u32): seq<u8>
  {
    Bytes16(value % 0x1_0000) + Bytes16(value / 0x1_0000)
  }

  lemma FoldOfWords(hash: u32, half: u16, word: u32, byte: u8)
    ensures Fold(hash, [byte]) == MixByte(hash, byte)
    ensures Fold(hash, Bytes16(half)) == Mix16(hash, half)
    ensures Fold(hash, Bytes32(word)) == Mix32(hash, word)
  {
    hide MixByte;
    FoldOfByte(hash, byte);
    FoldOfHalf(hash, half);
    FoldOfHalf(hash, word % 0x1_0000);
    FoldOfHalf(Mix16(hash, word % 0x1_0000), word / 0x1_0000);
    FoldJoin(hash, Bytes16(word % 0x1_0000), Bytes16(word / 0x1_0000));
  }

  lemma FoldOfByte(hash: u32, byte: u8)
    ensures Fold(hash, [byte]) == MixByte(hash, byte)
  {
    hide MixByte;
    assert [byte][..0] == [];
  }

  lemma FoldOfHalf(hash: u32, half: u16)
    ensures Fold(hash, Bytes16(half)) == Mix16(hash, half)
  {
    hide MixByte;
    var low, high := half % 0x100, half / 0x100;
    assert Bytes16(half) == [low] + [high];
    FoldJoin(hash, [low], [high]);
    FoldOfByte(hash, low);
    FoldOfByte(MixByte(hash, low), high);
  }

  /** The thirty bytes the checksum covers, in the order it mixes them. */
  function Body(r: Record): seq<u8>
  {
    Words(r) + Tail(r)
  }

  function Words(r: Record): seq<u8>
  {
    Bytes32(r.magic) + Bytes32(r.version) + Bytes32(r.buildId) + Bytes32(r.bootCount) + Bytes32(r.resetFlags)
  }

  function Tail(r: Record): seq<u8>
  {
    Bytes16(r.currentFault) + Bytes16(r.previousFault) + Bytes16(r.lastPhaseCommand)
    + [r.lastVgaCommand] + [r.state] + [r.clockSource] + [r.incompleteBoots]
  }

  lemma ChecksumIsFold(r: Record)
    ensures Checksum(r) == Fold(FNV_OFFSET_BASIS, Body(r))
  {
    hide MixByte, Mix16, Mix32, Bytes16, Bytes32, Fold;
    var h0 := FNV_OFFSET_BASIS;
    var h1 := Mix32(h0, r.magic);
    var h2 := Mix32(h1, r.version);
    var h3 := Mix32(h2, r.buildId);
    var h4 := Mix32(h3, r.bootCount);
    var h5 := Mix32(h4, r.resetFlags);
    assert Fold(h0, Words(r)) == h5 by {
      FoldOfWords(h0, 0, r.magic, 0);
      FoldOfWords(h1, 0, r.version, 0);
      FoldOfWords(h2, 0, r.buildId, 0);
      FoldOfWords(h3, 0, r.bootCount, 0);
      FoldOfWords(h4, 0, r.resetFlags, 0);
      FoldJoin(h0, Bytes32(r.magic), Bytes32(r.version));
      FoldJoin(h0, Bytes32(r.magic) + Bytes32(r.version), Bytes32(r.buildId));
      FoldJoin(h0, Bytes32(r.magic) + Bytes32(r.version) + Bytes32(r.buildId), Bytes32(r.bootCount));
      FoldJoin(h0, Bytes32(r.magic) + Bytes32(r.version) + Bytes32(r.buildId) + Bytes32(r.bootCount),
               Bytes32(r.resetFlags));
    }
    FoldOfTail(r, h5);
    FoldJoin(h0, Words(r), Tail(r));
  }

  lemma FoldOfTail(r: Record, h0: u32)
    ensures Fold(h0, Tail(r))
         == MixByte(MixByte(MixByte(MixByte(Mix16(Mix16(Mix16(h0, r.currentFault), r.previousFault),
              r.lastPhaseCommand), r.lastVgaCommand), r.state), r.clockSource), r.incompleteBoots)
  {
    hide MixByte, Mix16, Bytes16, Fold;
    var h1 := Mix16(h0, r.currentFault);
    var h2 := Mix16(h1, r.previousFault);
    var h3 := Mix16(h2, r.lastPhaseCommand);
    var h4 := MixByte(h3, r.lastVgaCommand);
    var h5 := MixByte(h4, r.state);
    var h6 := MixByte(h5, r.clockSource);
    FoldOfWords(h0, r.currentFault, 0, 0);
    FoldOfWords(h1, r.previousFault, 0, 0);
    FoldOfWords(h2, r.lastPhaseCommand, 0, r.lastVgaCommand);
    FoldOfWords(h3, 0, 0, r.lastVgaCommand);
    FoldOfWords(h4, 0, 0, r.state);
    FoldOfWords(h5, 0, 0, r.clockSource);
    FoldOfWords(h6, 0, 0, r.incompleteBoots);
    var t2 := Bytes16(r.currentFault) + Bytes16(r.previousFault);
    var t3 := t2 + Bytes16(r.lastPhaseCommand);
    FoldJoin(h0, Bytes16(r.currentFault), Bytes16(r.previousFault));
    FoldJoin(h0, t2, Bytes16(r.lastPhaseCommand));
    FoldJoin(h0, t3, [r.lastVgaCommand]);
    FoldJoin(h0, t3 + [r.lastVgaCommand], [r.state]);
    FoldJoin(h0, t3 + [r.lastVgaCommand] + [r.state], [r.clockSource]);
    FoldJoin(h0, t3 + [r.lastVgaCommand] + [r.state] + [r.clockSource], [r.incompleteBoots]);
  }

  // Why one changed byte always shows

  /** Multiplying by the FNV prime can be undone modulo 2^32. */
  lemma PrimeIsInvertible(x: u32)
    ensures x * FNV_PRIME % WORD * FNV_PRIME_INVERSE % WORD == x
  {
    var r, k := x * FNV_PRIME % WORD, x * FNV_PRIME / WORD;
    var j := FNV_PRIME * FNV_PRIME_INVERSE / WORD;
    assert FNV_PRIME * FNV_PRIME_INVERSE == j * WORD + 1;
    assert x * FNV_PRIME == k * WORD + r;
    assert r * FNV_PRIME_INVERSE == (x * j - k * FNV_PRIME_INVERSE) * WORD + x;
    ModIs(r * FNV_PRIME_INVERSE, x * j - k * FNV_PRIME_INVERSE, WORD, x);
  }

  lemma XorFits(hash: u32, value: u8)
    ensures Xor(hash, value) < WORD
  {
    Powers();
    XorBound(hash, value, 32);
  }

  /** Each step of the hash can be run backwards: it is injective in the hash and in the byte. */
  lemma MixByteIsInjective(h1: u32, v1: u8, h2: u32, v2: u8)
    requires MixByte(h1, v1) == MixByte(h2, v2)
    ensures h1 == h2 <==> v1 == v2
  {
    hide Xor;
    XorFits(h1, v1);
    XorFits(h2, v2);
    PrimeIsInvertible(Xor(h1, v1));
    PrimeIsInvertible(Xor(h2, v2));
    assert Xor(h1, v1) == Xor(h2, v2);
    XorUndo(h1, v1);
    XorUndo(h2, v2);
    XorCommutes(h1, v1);
    XorCommutes(h2, v2);
    XorUndo(v1, h1);
    XorUndo(v2, h2);
  }

  /** Once two hashes differ, hashing the same bytes into both keeps them apart. */
  lemma {:induction false} FoldKeepsApart(h1: u32, h2: u32, bytes: seq<u8>)
    requires h1 != h2
    ensures Fold(h1, bytes) != Fold(h2, bytes)
    decreases |bytes|
  {
    hide MixByte;
    if bytes != [] {
      var front, last := bytes[..|bytes| - 1], bytes[|bytes| - 1];
      FoldKeepsApart(h1, h2, front);
      if Fold(h1, bytes) == Fold(h2, bytes) {
        MixByteIsInjective(Fold(h1, front), last, Fold(h2, front), last);
      }
    }
  }

  predicate DifferOnlyAt(s: seq<u8>, t: seq<u8>, i: nat)
  {
    |s| == |t| && i < |s| && s[i] != t[i] && s[..i] == t[..i] && s[i + 1..] == t[i + 1..]
  }

  /** Changing one byte, and nothing else, always changes the hash. */
  lemma OneByteChangesHash(hash: u32, s: seq<u8>, t: seq<u8>, i: nat)
    requires DifferOnlyAt(s, t, i)
    ensures Fold(hash, s) != Fold(hash, t)
  {
    hide MixByte, Fold;
    assert s == s[..i] + [s[i]] + s[i + 1..];
    assert t == s[..i] + [t[i]] + s[i + 1..];
    var h := Fold(hash, s[..i]);
    FoldJoin(hash, s[..i], [s[i]]);
    FoldJoin(hash, s[..i], [t[i]]);
    FoldOfByte(h, s[i]);
    FoldOfByte(h, t[i]);
    if MixByte(h, s[i]) == MixByte(h, t[i]) {
      MixByteIsInjective(h, s[i], h, t[i]);
    }
    FoldKeepsApart(MixByte(h, s[i]), MixByte(h, t[i]), s[i + 1..]);
    FoldJoin(hash, s[..i] + [s[i]], s[i + 1..]);
    FoldJoin(hash, s[..i] + [t[i]], s[i + 1..]);
  }

  /** Every byte of the record, the stored checksum last. */
  function AllBytes(r: Record): seq<u8>
  {
    Body(r) + Bytes32(r.checksum)
  }

  lemma BodyLength(r: Record)
    ensures |Body(r)| == 30 && |AllBytes(r)| == 34
  {
  }

  lemma Bytes32Determine(v: u32, w: u32)
    requires Bytes32(v) == Bytes32(w)
    ensures v == w
  {
    var a, b := Bytes32(v), Bytes32(w);
    assert a[0] == b[0] && a[1] == b[1] && a[2] == b[2] && a[3] == b[3];
  }

  lemma Bytes16Determine(v: u16, w: u16)
    requires Bytes16(v) == Bytes16(w)
    ensures v == w
  {
    var a, b := Bytes16(v), Bytes16(w);
    assert a[0] == b[0] && a[1] == b[1];
  }

  /** The bytes leave nothing out: two records with the same bytes are the same record. */
  lemma BytesDetermineRecord(r: Record, other: Record)
    ensures AllBytes(r) == AllBytes(other) <==> r == other
  {
    if AllBytes(r) == AllBytes(other) {
      SameWords(r, other);
      SameTail(r, other);
    }
  }

  lemma SameWords(r: Record, other: Record)
    requires AllBytes(r) == AllBytes(other)
    ensures r.magic == other.magic && r.version == other.version && r.buildId == other.buildId
    ensures r.bootCount == other.bootCount && r.resetFlags == other.resetFlags && r.checksum == other.checksum
  {
    var a, b := AllBytes(r), AllBytes(other);
    assert Bytes32(r.magic) == a[..4] && Bytes32(other.magic) == b[..4];
    assert Bytes32(r.version) == a[4..8] && Bytes32(other.version) == b[4..8];
    assert Bytes32(r.buildId) == a[8..12] && Bytes32(other.buildId) == b[8..12];
    assert Bytes32(r.bootCount) == a[12..16] && Bytes32(other.bootCount) == b[12..16];
    assert Bytes32(r.resetFlags) == a[16..20] && Bytes32(other.resetFlags) == b[16..20];
    assert Bytes32(r.checksum) == a[30..] && Bytes32(other.checksum) == b[30..];
    hide Bytes32, AllBytes;
    Bytes32Determine(r.magic, other.magic);
    Bytes32Determine(r.version, other.version);
    Bytes32Determine(r.buildId, other.buildId);
    Bytes32Determine(r.bootCount, other.bootCount);
    Bytes32Determine(r.resetFlags, other.resetFlags);
    Bytes32Determine(r.checksum, other.checksum);
  }

  lemma SameTail(r: Record, other: Record)
    requires AllBytes(r) == AllBytes(other)
    ensures r.currentFault == other.currentFault && r.previousFault == other.previousFault
    ensures r.lastPhaseCommand == other.lastPhaseCommand && r.lastVgaCommand == other.lastVgaCommand
    ensures r.state == other.state && r.clockSource == other.clockSource && r.incompleteBoots == other.incompleteBoots
  {
    var a, b := AllBytes(r), AllBytes(other);
    assert Bytes16(r.currentFault) == a[20..22] && Bytes16(other.currentFault) == b[20..22];
    assert Bytes16(r.previousFault) == a[22..24] && Bytes16(other.previousFault) == b[22..24];
    assert Bytes16(r.lastPhaseCommand) == a[24..26] && Bytes16(other.lastPhaseCommand) == b[24..26];
    assert r.lastVgaCommand == a[26] && other.lastVgaCommand == b[26];
    assert r.state == a[27] && other.state == b[27];
    assert r.clockSource == a[28] && other.clockSource == b[28];
    assert r.incompleteBoots == a[29] && other.incompleteBoots == b[29];
    hide Bytes16, AllBytes;
    Bytes16Determine(r.currentFault, other.currentFault);
    Bytes16Determine(r.previousFault, other.previousFault);
    Bytes16Determine(r.lastPhaseCommand, other.lastPhaseCommand);
  }

  /** A valid record with any one byte changed, the checksum's own bytes included, is rejected. */
  lemma OneByteChangeIsRejected(r: Record, changed: Record, i: nat)
    requires IsValid(r) && DifferOnlyAt(AllBytes(r), AllBytes(changed), i)
    ensures !IsValid(changed)
  {
    hide Checksum, Body, Bytes32, Fold;
    BodyLength(r);
    BodyLength(changed);
    ChecksumIsFold(r);
    ChecksumIsFold(changed);
    var s, t := AllBytes(r), AllBytes(changed);
    assert Body(r) == s[..30] && Body(changed) == t[..30];
    assert Bytes32(r.checksum) == s[30..] && Bytes32(changed.checksum) == t[30..];
    if i < 30 {
      assert s[30..] == s[i + 1..][29 - i..] && t[30..] == t[i + 1..][29 - i..];
      Bytes32Determine(r.checksum, changed.checksum);
      assert Body(r)[i + 1..] == s[i + 1..][..29 - i] && Body(changed)[i + 1..] == t[i + 1..][..29 - i];
      assert DifferOnlyAt(Body(r), Body(changed), i);
      OneByteChangesHash(FNV_OFFSET_BASIS, Body(r), Body(changed), i);
    } else {
      assert s[..30] == s[..i][..30] && t[..30] == t[..i][..30];
      assert s[30..][i - 30] != t[30..][i - 30];
    }
  }

  // The build identity: build_info.c

  predicate RevisionEnds(revision: seq<u8>, n: nat)
    requires n < |revision|
  {
    revision[n] == 0 && 0 !in revision[..n]
  }

  /** `firmware_build_id`: the NUL-terminated revision, then the node id. */
  method FirmwareBuildId(revision: seq<u8>, nodeId: u8) returns (hash: u32)
    requires 0 in revision
    ensures exists n :: 0 <= n < |revision| && RevisionEnds(revision, n) && hash == BuildId(revision[..n], nodeId)
  {
    hide MixByte;
    hash := FNV_OFFSET_BASIS;
    var next := 0;
    while revision[next] != 0
      invariant 0 <= next < |revision| && 0 !in revision[..next] && 0 in revision[next..]
      invariant hash == Fold(FNV_OFFSET_BASIS, revision[..next])
      decreases |revision| - next
    {
      assert revision[..next + 1] == revision[..next] + [revision[next]];
      assert revision[..next + 1][..next] == revision[..next];
      assert revision[next..] == [revision[next]] + revision[next + 1..];
      hash := MixByte(hash, revision[next]);
      next := next + 1;
    }
    assert RevisionEnds(revision, next);
    hash := MixByte(hash, nodeId);
  }

  function BuildId(revision: seq<u8>, nodeId: u8): u32
  {
    MixByte(Fold(FNV_OFFSET_BASIS, revision), nodeId)
  }

  /** The build identity is the hash of the revision's bytes followed by the node id. */
  lemma BuildIdIsFold(revision: seq<u8>, nodeId: u8)
    ensures BuildId(revision, nodeId) == Fold(FNV_OFFSET_BASIS, revision + [nodeId])
  {
    hide MixByte;
    assert (revision + [nodeId])[..|revision|] == revision;
  }

  /** One revision built for two nodes has two build identities. */
  lemma BuildIdsDistinguishNodes(revision: seq<u8>, node1: u8, node2: u8)
    ensures BuildId(revision, node1) == BuildId(revision, node2) <==> node1 == node2
  {
    hide MixByte;
    if BuildId(revision, node1) == BuildId(revision, node2) {
      var h := Fold(FNV_OFFSET_BASIS, revision);
      MixByteIsInjective(h, node1, h, node2);
    }
  }
}
