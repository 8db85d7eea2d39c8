/** The wire protocol as the firmware implements it: stm32/app/src/can/protocol.c. */
module Protocol {
  import opened Bits

  datatype Option<+T> = None | Some(value: T)

  const CONTROLLER: u8 := 0
  const NODE_MIN: u8 := 1
  const NODE_MAX: u8 := 30
  const BROADCAST: u8 := 31
  const EXTENDED_ID_MAX: u32 := 0x1fff_ffff
  const MAX_DATA_LENGTH: u8 := 8
  const VGA_MAX_ATTENUATION_DB: u8 := 23

  // Message types are kept as their numeric codes: the code compares and shifts them.
  const ENTER_SAFE: u8 := 0
  const SET_COMBINED: u8 := 1
  const SET_PHASE: u8 := 2
  const SET_VGA: u8 := 3
  const PING: u8 := 4
  const STATUS: u8 := 5
  const ACK: u8 := 6
  const ERROR: u8 := 7
  const TYPE_COUNT: u8 := 8

  type Buffer = data: seq<u8> | |data| == 8
    witness [0, 0, 0, 0, 0, 0, 0, 0]

  /** `data` is the fixed eight-byte buffer; only its first `length` bytes are payload. */
  datatype Frame = Frame(id: u32, extended: bool, remote: bool, length: u8, data: Buffer)

  datatype Command = Command(
    kind: u8, destination: u8, source: u8, sequence: u16, phaseState: u8, attenuationDb: u8)

  datatype DecodeError =
    | Ignored
    | InvalidArgument
    | InvalidId
    | InvalidLength
    | InvalidPayload
    | UnsupportedType
    | BroadcastNotAllowed

  datatype Decoded = Valid(command: Command) | Invalid(error: DecodeError)

  datatype CommandResult =
    | ResultOk
    | ResultInvalidLength
    | ResultInvalidPayload
    | ResultUnsupported
    | ResultHardware
    | ResultBusy
    | ResultSequenceReuse
    | ResultBroadcastNotAllowed

  function ResultCode(result: CommandResult): u8
  {
    match result
    case ResultOk => 0
    case ResultInvalidLength => 1
    case ResultInvalidPayload => 2
    case ResultUnsupported => 3
    case ResultHardware => 4
    case ResultBusy => 5
    case ResultSequenceReuse => 6
    case ResultBroadcastNotAllowed => 7
  }

  datatype IdFields = IdFields(kind: u8, destination: u8, source: u8, sequence: u16)

  /** A left shift of a 32-bit word: bits pushed past bit 31 are lost. */
  function Shl32(x: u32, n: nat): u32
  {
    Shl(x, n) % 0x1_0000_0000
  }

  function MakeId(kind: u8, destination: u8, source: u8, sequence: u16): Option<u32>
  {
    if kind >= TYPE_COUNT then None
    else if destination > BROADCAST || source > BROADCAST then None
    else
      var value := Or(Or(Or(Shl32(kind, 26), Shl32(destination, 21)), Shl32(source, 16)), sequence);
      if value > EXTENDED_ID_MAX then None else Some(value)
  }

  function ParseId(id: u32): Option<IdFields>
  {
    if id > EXTENDED_ID_MAX then None
    else
      MaskedFieldsFit(id);
      Some(IdFields(
        And(Shr(id, 26), 0x7), And(Shr(id, 21), 0x1f), And(Shr(id, 16), 0x1f), And(id, 0xffff)))
  }

  /** The identifier as the protocol document lays it out: TYPE 28:26, DEST 25:21, SOURCE 20:16. */
  function Positional(f: IdFields): nat
  {
    f.kind * 0x400_0000 + f.destination * 0x20_0000 + f.source * 0x1_0000 + f.sequence
  }

  predicate FieldsInRange(f: IdFields)
  {
    f.kind < TYPE_COUNT && f.destination <= BROADCAST && f.source <= BROADCAST
  }

  lemma MaskedFieldsFit(id: nat)
    ensures And(Shr(id, 26), 0x7) == id / 0x400_0000 % 8
    ensures And(Shr(id, 21), 0x1f) == id / 0x20_0000 % 32
    ensures And(Shr(id, 16), 0x1f) == id / 0x1_0000 % 32
    ensures And(id, 0xffff) == id % 0x1_0000
  {
    hide And, Shr, Pow2;
    Powers();
    ShrIsDiv(id, 26);
    ShrIsDiv(id, 21);
    ShrIsDiv(id, 16);
    AndMask(Shr(id, 26), 3);
    AndMask(Shr(id, 21), 5);
    AndMask(Shr(id, 16), 5);
    AndMask(id, 16);
  }

  /** No field is wide enough for the 32-bit shift to lose a bit of it. */
  lemma ShiftedFields(f: IdFields)
    requires FieldsInRange(f)
    ensures Shl32(f.kind, 26) == Shl(f.kind, 26) == f.kind * 0x400_0000
    ensures Shl32(f.destination, 21) == Shl(f.destination, 21) == f.destination * 0x20_0000
    ensures Shl32(f.source, 16) == Shl(f.source, 16) == f.source * 0x1_0000
  {
    hide Shl, Pow2;
    Powers();
    ShlIsMul(f.kind, 26);
    ShlIsMul(f.destination, 21);
    ShlIsMul(f.source, 16);
  }

  lemma ShiftedFieldsJoin(f: IdFields)
    requires FieldsInRange(f)
    ensures Or(Or(Or(Shl32(f.kind, 26), Shl32(f.destination, 21)), Shl32(f.source, 16)), f.sequence) == Positional(f)
  {
    hide Or, Shl32, Pow2;
    Powers();
    ShiftedFields(f);
    OrDisjoint(f.kind, 26, f.destination * 0x20_0000);
    OrDisjoint(f.kind * 32 + f.destination, 21, f.source * 0x1_0000);
    OrDisjoint(f.kind * 1024 + f.destination * 32 + f.source, 16, f.sequence);
  }

  /** Exactly the tuples that fit their bit fields have an identifier, and it is the documented one. */
  lemma MakeIdIsPositional(f: IdFields)
    ensures MakeId(f.kind, f.destination, f.source, f.sequence)
         == if FieldsInRange(f) then Some(Positional(f)) else None
  {
    hide Or, Shl32;
    if FieldsInRange(f) {
      ShiftedFieldsJoin(f);
    }
  }

  /** Parsing undoes building, for every tuple of fields that has an identifier. */
  lemma ParseAfterMake(f: IdFields)
    requires FieldsInRange(f)
    ensures MakeId(f.kind, f.destination, f.source, f.sequence).Some?
    ensures ParseId(MakeId(f.kind, f.destination, f.source, f.sequence).value) == Some(f)
  {
    hide And, Or, Shr, Shl32, Positional;
    MakeIdIsPositional(f);
    PositionalFields(f);
    MaskedFieldsFit(Positional(f));
  }

  /** The bit fields of the positional sum are the fields it was made of. */
  lemma PositionalFields(f: IdFields)
    requires FieldsInRange(f)
    ensures Positional(f) <= EXTENDED_ID_MAX
    ensures Positional(f) / 0x400_0000 % 8 == f.kind
    ensures Positional(f) / 0x20_0000 % 32 == f.destination
    ensures Positional(f) / 0x1_0000 % 32 == f.source
    ensures Positional(f) % 0x1_0000 == f.sequence
  {
    var high := f.kind * 32 + f.destination;
    ModIs(Positional(f), high * 32 + f.source, 0x1_0000, f.sequence);
    ModIs(Positional(f), high, 0x20_0000, f.source * 0x1_0000 + f.sequence);
    ModIs(Positional(f), f.kind, 0x400_0000, f.destination * 0x20_0000 + f.source * 0x1_0000 + f.sequence);
    ModIs(high * 32 + f.source, high, 32, f.source);
    ModIs(high, f.kind, 32, f.destination);
  }

  /** Every 29-bit number is the positional sum of its bit fields. */
  lemma FieldsOfId(id: nat)
    requires id <= EXTENDED_ID_MAX
    ensures id == id / 0x400_0000 % 8 * 0x400_0000 + id / 0x20_0000 % 32 * 0x20_0000
                + id / 0x1_0000 % 32 * 0x1_0000 + id % 0x1_0000
  {
    var q := id / 0x1_0000;
    ModIs(id, q / 32, 0x20_0000, q % 32 * 0x1_0000 + id % 0x1_0000);
    var r := id / 0x20_0000;
    ModIs(id, r / 32, 0x400_0000, r % 32 * 0x20_0000 + q % 32 * 0x1_0000 + id % 0x1_0000);
  }

  /** Building undoes parsing, for every identifier that fits 29 bits; all others are refused. */
  lemma MakeAfterParse(id: u32)
    ensures id > EXTENDED_ID_MAX <==> ParseId(id).None?
    ensures id <= EXTENDED_ID_MAX ==>
      var f := ParseId(id).value;
      FieldsInRange(f) && MakeId(f.kind, f.destination, f.source, f.sequence) == Some(id)
  {
    hide And, Or, Shr, Shl32;
    if id <= EXTENDED_ID_MAX {
      MaskedFieldsFit(id);
      FieldsOfId(id);
      MakeIdIsPositional(ParseId(id).value);
    }
  }

  predicate StateChanging(kind: u8)
  {
    kind in {ENTER_SAFE, SET_COMBINED, SET_PHASE, SET_VGA}
  }

  function Decode(frame: Frame, selfNode: u8): Decoded
  {
    if selfNode < NODE_MIN || selfNode > NODE_MAX then Invalid(InvalidArgument)
    else if !frame.extended || frame.remote then Invalid(InvalidId)
    else if frame.length > MAX_DATA_LENGTH then Invalid(InvalidLength)
    else
      match ParseId(frame.id)
      case None => Invalid(InvalidId)
      case Some(f) =>
        if f.destination != selfNode && f.destination != BROADCAST then Invalid(Ignored)
        else if f.source != CONTROLLER then Invalid(InvalidId)
        else if f.kind > PING then Invalid(UnsupportedType)
        else if f.destination == BROADCAST && f.kind != ENTER_SAFE then Invalid(BroadcastNotAllowed)
        else DecodePayload(frame, Command(f.kind, f.destination, f.source, f.sequence, 0, 0))
  }

  function DecodePayload(frame: Frame, command: Command): Decoded
  {
    if command.kind == ENTER_SAFE then
      if frame.length != 0 then Invalid(InvalidLength) else Valid(command)
    else if command.kind == SET_COMBINED then
      if frame.length != 2 then Invalid(InvalidLength)
      else if frame.data[1] > VGA_MAX_ATTENUATION_DB then Invalid(InvalidPayload)
      else Valid(command.(phaseState := frame.data[0], attenuationDb := frame.data[1]))
    else if command.kind == SET_PHASE then
      if frame.length != 1 then Invalid(InvalidLength)
      else Valid(command.(phaseState := frame.data[0]))
    else if command.kind == SET_VGA then
      if frame.length != 1 then Invalid(InvalidLength)
      else if frame.data[0] > VGA_MAX_ATTENUATION_DB then Invalid(InvalidPayload)
      else Valid(command.(attenuationDb := frame.data[0]))
    else if command.kind == PING then
      if frame.length == 0 then Valid(command) else Invalid(InvalidLength)
    else Invalid(UnsupportedType)
  }

  function ResultFromDecode(error: DecodeError): CommandResult
  {
    match error
    case InvalidLength => ResultInvalidLength
    case BroadcastNotAllowed => ResultBroadcastNotAllowed
    case UnsupportedType => ResultUnsupported
    case _ => ResultInvalidPayload
  }

  /** ACK and ERROR share one layout: `[command type, result code]`. */
  function MakeResult(
    responseKind: u8, sourceNode: u8, destinationNode: u8, sequence: u16, commandKind: u8, result: CommandResult)
    : Option<Frame>
  {
    if commandKind >= TYPE_COUNT then None
    else
      match MakeId(responseKind, destinationNode, sourceNode, sequence)
      case None => None
      case Some(id) => Some(Frame(id, true, false, 2, [commandKind, ResultCode(result), 0, 0, 0, 0, 0, 0]))
  }

  datatype StatusPayload = StatusPayload(
    nodeId: u8, healthFlags: u8, rxDropped: u16, txDropped: u16, invalidCommands: u16)

  function MakeStatus(sourceNode: u8, destinationNode: u8, sequence: u16, status: StatusPayload): Option<Frame>
  {
    match MakeId(STATUS, destinationNode, sourceNode, sequence)
    case None => None
    case Some(id) =>
      Some(Frame(id, true, false, 8,
        [3, 0, 0, status.nodeId, status.healthFlags,
         status.rxDropped % 256, status.txDropped % 256, status.invalidCommands % 256]))
  }

  /** What the receiver of a frame reads of it: the payload bytes, not the rest of the buffer. */
  function Payload(frame: Frame): seq<u8>
    requires frame.length <= MAX_DATA_LENGTH
  {
    frame.data[..frame.length]
  }
}
