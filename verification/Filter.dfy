/** The two bxCAN acceptance banks: stm32/app/src/can/filter.c. */
module Filter {
  import opened Bits
  import opened Protocol

  const IDE_BIT: u32 := 4
  const RTR_BIT: u32 := 2

  /** A 32-bit identifier/mask bank. */
  datatype Bank = Bank(id: u32, mask: u32)

  function PackExtendedId(id: u32): u32
  {
    PackedWords(id);
    Or(Shl32(And(id, EXTENDED_ID_MAX), 3), IDE_BIT)
  }

  function PackExtendedMask(mask: u32): u32
  {
    PackedWords(mask);
    Or(Or(Shl32(And(mask, EXTENDED_ID_MAX), 3), IDE_BIT), RTR_BIT)
  }

  function UnicastBank(selfNode: u8): Bank
    requires selfNode <= BROADCAST
  {
    JoinFields(0, selfNode, CONTROLLER);
    JoinFields(0, 0x1f, 0x1f);
    Bank(
      PackExtendedId(Or(Shl32(selfNode, 21), Shl32(CONTROLLER, 16))),
      PackExtendedMask(Or(Shl32(0x1f, 21), Shl32(0x1f, 16))))
  }

  function BroadcastBank(): Bank
  {
    JoinFields(ENTER_SAFE, BROADCAST, CONTROLLER);
    JoinFields(0x7, 0x1f, 0x1f);
    Bank(
      PackExtendedId(Or(Or(Shl32(ENTER_SAFE, 26), Shl32(BROADCAST, 21)), Shl32(CONTROLLER, 16))),
      PackExtendedMask(Or(Or(Shl32(0x7, 26), Shl32(0x1f, 21)), Shl32(0x1f, 16))))
  }

  /** The filter registers the firmware programs. */
  class Registers {
    var unicast: Bank
    var broadcast: Bank

    constructor ()
      ensures unicast == Bank(0, 0) && broadcast == Bank(0, 0)
    {
      unicast := Bank(0, 0);
      broadcast := Bank(0, 0);
    }

    method Configure(selfNode: u8) returns (ok: bool)
      modifies this
      ensures ok <==> NODE_MIN <= selfNode <= NODE_MAX
      ensures ok ==> unicast == UnicastBank(selfNode) && broadcast == BroadcastBank()
      ensures !ok ==> unicast == old(unicast) && broadcast == old(broadcast)
    {
      if selfNode < NODE_MIN || selfNode > NODE_MAX {
        return false;
      }
      JoinFields(0, selfNode, CONTROLLER);
      JoinFields(0, 0x1f, 0x1f);
      var unicastId := Or(Shl32(selfNode, 21), Shl32(CONTROLLER, 16));
      var unicastMask := Or(Shl32(0x1f, 21), Shl32(0x1f, 16));
      unicast := Bank(PackExtendedId(unicastId), PackExtendedMask(unicastMask));

      JoinFields(ENTER_SAFE, BROADCAST, CONTROLLER);
      JoinFields(0x7, 0x1f, 0x1f);
      var broadcastId := Or(Or(Shl32(ENTER_SAFE, 26), Shl32(BROADCAST, 21)), Shl32(CONTROLLER, 16));
      var broadcastMask := Or(Or(Shl32(0x7, 26), Shl32(0x1f, 21)), Shl32(0x1f, 16));
      broadcast := Bank(PackExtendedId(broadcastId), PackExtendedMask(broadcastMask));
      return true;
    }
  }

  /** The word the controller compares: identifier in bits 31:3, IDE in bit 2, RTR in bit 1. */
  function FilterWord(frame: Frame): u32
    requires frame.id <= EXTENDED_ID_MAX
  {
    frame.id * 8 + (if frame.extended then IDE_BIT else 0) + (if frame.remote then RTR_BIT else 0)
  }

  /** The controller accepts a frame when no masked bit differs from the bank's identifier. */
  predicate Matches(bank: Bank, frame: Frame)
    requires frame.id <= EXTENDED_ID_MAX
  {
    And(Xor(FilterWord(frame), bank.id), bank.mask) == 0
  }

  predicate PassesFilter(frame: Frame, selfNode: u8)
    requires frame.id <= EXTENDED_ID_MAX && selfNode <= BROADCAST
  {
    Matches(UnicastBank(selfNode), frame) || Matches(BroadcastBank(), frame)
  }

  lemma JoinFields(kind: u8, destination: u8, source: u8)
    requires FieldsInRange(IdFields(kind, destination, source, 0))
    ensures Or(Shl32(destination, 21), Shl32(source, 16)) == Positional(IdFields(0, destination, source, 0))
    ensures Or(Or(Shl32(kind, 26), Shl32(destination, 21)), Shl32(source, 16))
         == Positional(IdFields(kind, destination, source, 0))
    ensures Positional(IdFields(kind, destination, source, 0)) <= EXTENDED_ID_MAX
  {
    hide Or, Shl32, Pow2;
    Powers();
    ShiftedFields(IdFields(kind, destination, source, 0));
    OrDisjoint(kind, 26, destination * 0x20_0000);
    OrDisjoint(destination, 21, source * 0x1_0000);
    OrDisjoint(kind * 32 + destination, 21, source * 0x1_0000);
  }

  lemma PackedWords(id: u32)
    ensures And(id, EXTENDED_ID_MAX) == id % 0x2000_0000
    ensures Shl32(And(id, EXTENDED_ID_MAX), 3) == id % 0x2000_0000 * 8
    ensures Or(Shl32(And(id, EXTENDED_ID_MAX), 3), IDE_BIT) == id % 0x2000_0000 * 8 + 4
    ensures Or(Or(Shl32(And(id, EXTENDED_ID_MAX), 3), IDE_BIT), RTR_BIT) == id % 0x2000_0000 * 8 + 6
  {
    hide And, Or, Shl, Pow2;
    Powers();
    AndMask(id, 29);
    var low := id % 0x2000_0000;
    ShlIsMul(low, 3);
    OrDisjoint(low, 3, 4);
    OrDisjoint(low * 2 + 1, 2, 2);
  }

  /** A filter word laid out by fields; `low` holds IDE, RTR and the reserved bit. */
  function Word(kind: nat, destination: nat, source: nat, sequence: nat, low: nat): nat
  {
    kind * 0x2000_0000 + destination * 0x100_0000 + source * 0x8_0000 + sequence * 8 + low
  }

  predicate WordFits(kind: nat, destination: nat, source: nat, sequence: nat, low: nat)
  {
    kind < 8 && destination < 32 && source < 32 && sequence < 0x1_0000 && low < 8
  }

  lemma MaskByFields(
    k: nat, d: nat, s: nat, q: nat, low: nat, mk: nat, md: nat, ms: nat, mq: nat, mlow: nat)
    requires WordFits(k, d, s, q, low) && WordFits(mk, md, ms, mq, mlow)
    ensures And(Word(k, d, s, q, low), Word(mk, md, ms, mq, mlow))
         == Word(And(k, mk), And(d, md), And(s, ms), And(q, mq), And(low, mlow))
  {
    hide And, Pow2;
    Powers();
    AndFields(q, low, mq, mlow, 3);
    AndFields(s, q * 8 + low, ms, mq * 8 + mlow, 19);
    AndFields(d, s * 0x8_0000 + q * 8 + low, md, ms * 0x8_0000 + mq * 8 + mlow, 24);
    AndFields(
      k, d * 0x100_0000 + s * 0x8_0000 + q * 8 + low,
      mk, md * 0x100_0000 + ms * 0x8_0000 + mq * 8 + mlow, 29);
  }

  /** Keeping whole fields: a field mask of all ones keeps the field, a mask of zero drops it. */
  lemma KeepFields(k: nat, d: nat, s: nat, q: nat, low: nat, keepKind: bool)
    requires WordFits(k, d, s, q, low)
    ensures And(Word(k, d, s, q, low), Word(if keepKind then 7 else 0, 31, 31, 0, 6))
         == Word(if keepKind then k else 0, d, s, 0, And(low, 6))
  {
    hide And, Pow2;
    Powers();
    MaskByFields(k, d, s, q, low, if keepKind then 7 else 0, 31, 31, 0, 6);
    AndMask(k, 3);
    AndMask(d, 5);
    AndMask(s, 5);
    AndZero(k);
    AndZero(q);
  }

  lemma WordOfFrame(frame: Frame)
    requires frame.id <= EXTENDED_ID_MAX
    ensures ParseId(frame.id).Some?
    ensures var f := ParseId(frame.id).value;
      WordFits(f.kind, f.destination, f.source, f.sequence, FrameBits(frame))
      && FilterWord(frame) == Word(f.kind, f.destination, f.source, f.sequence, FrameBits(frame))
  {
    hide And, Or, Shr, Shl32;
    MaskedFieldsFit(frame.id);
    FieldsOfId(frame.id);
  }

  function FrameBits(frame: Frame): nat
  {
    (if frame.extended then 4 else 0) + (if frame.remote then 2 else 0)
  }

  lemma PackedBank(id: u32)
    requires id <= EXTENDED_ID_MAX
    ensures PackExtendedId(id) == id * 8 + 4 && PackExtendedMask(id) == id * 8 + 6
  {
    hide And, Or, Shl32;
    PackedWords(id);
  }

  lemma BankWords(selfNode: u8)
    requires selfNode <= BROADCAST
    ensures UnicastBank(selfNode) == Bank(Word(0, selfNode, 0, 0, 4), Word(0, 31, 31, 0, 6))
    ensures BroadcastBank() == Bank(Word(0, 31, 0, 0, 4), Word(7, 31, 31, 0, 6))
  {
    hide And, Or, Shl32, PackExtendedId, PackExtendedMask;
    JoinFields(0, selfNode, CONTROLLER);
    JoinFields(0, 0x1f, 0x1f);
    JoinFields(0, BROADCAST, CONTROLLER);
    JoinFields(0x7, 0x1f, 0x1f);
    PackedBank(selfNode * 0x20_0000);
    PackedBank(0x3ff_0000);
    PackedBank(0x3e0_0000);
    PackedBank(0x1fff_0000);
  }

  lemma FieldMatch(frame: Frame, destination: nat, keepKind: bool)
    requires frame.id <= EXTENDED_ID_MAX && destination < 32
    ensures ParseId(frame.id).Some?
    ensures var f := ParseId(frame.id).value;
      Matches(Bank(Word(0, destination, 0, 0, 4), Word(if keepKind then 7 else 0, 31, 31, 0, 6)), frame)
      <==> frame.extended && !frame.remote && f.destination == destination && f.source == 0 && (keepKind ==> f.kind == 0)
  {
    hide And, Xor, ParseId, Word, FilterWord;
    WordOfFrame(frame);
    var f := ParseId(frame.id).value;
    MaskedXorIsZero(
      FilterWord(frame), Word(0, destination, 0, 0, 4), Word(if keepKind then 7 else 0, 31, 31, 0, 6));
    KeepFields(f.kind, f.destination, f.source, f.sequence, FrameBits(frame), keepKind);
    KeepFields(0, destination, 0, 0, 4, keepKind);
    LowBits();
    WordIsInjective(if keepKind then f.kind else 0, f.destination, f.source, And(FrameBits(frame), 6),
                    destination);
  }

  lemma WordIsInjective(k: nat, d: nat, s: nat, low: nat, destination: nat)
    requires WordFits(k, d, s, 0, low) && destination < 32
    ensures Word(k, d, s, 0, low) == Word(0, destination, 0, 0, 4)
            <==> k == 0 && d == destination && s == 0 && low == 4
  {
  }

  lemma LowBits()
    ensures And(0, 6) == 0 && And(2, 6) == 2 && And(4, 6) == 4 && And(6, 6) == 6
  {
  }

  /** Exactly which frames the two banks let through. */
  lemma FilterAdmits(frame: Frame, selfNode: u8)
    requires frame.id <= EXTENDED_ID_MAX && selfNode <= BROADCAST
    ensures ParseId(frame.id).Some?
    ensures var f := ParseId(frame.id).value;
      PassesFilter(frame, selfNode)
      <==> frame.extended && !frame.remote && f.source == CONTROLLER
           && (f.destination == selfNode || (f.destination == BROADCAST && f.kind == ENTER_SAFE))
  {
    hide And, ParseId, UnicastBank, BroadcastBank, Word;
    BankWords(selfNode);
    FieldMatch(frame, selfNode, false);
    FieldMatch(frame, BROADCAST, true);
  }

  /**
   The filter loses nothing the decoder would accept, and leaves the decoder only the checks
   that need the payload: no foreign, misaddressed or forbidden-broadcast frame gets through.
   */
  lemma FilterAgreesWithDecoder(frame: Frame, selfNode: u8)
    requires frame.id <= EXTENDED_ID_MAX && NODE_MIN <= selfNode <= NODE_MAX
    ensures Decode(frame, selfNode).Valid? ==> PassesFilter(frame, selfNode)
    ensures PassesFilter(frame, selfNode) && Decode(frame, selfNode).Invalid? ==>
      Decode(frame, selfNode).error in {InvalidLength, InvalidPayload, UnsupportedType}
    ensures !PassesFilter(frame, selfNode) ==>
      Decode(frame, selfNode).Invalid?
      && Decode(frame, selfNode).error in {Ignored, InvalidId, InvalidLength, BroadcastNotAllowed, UnsupportedType}
  {
    hide ParseId, PassesFilter;
    FilterAdmits(frame, selfNode);
  }
}
