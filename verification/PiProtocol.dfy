/** The Pi's side of the wire format: pi/src/beamcontrol/protocol.py, over Python's unbounded integers. */
module PiProtocol {
  import opened Bits
  import opened Protocol

  const SEQ_MASK: u16 := 0xffff
  const RES_OK: u8 := 0
  const RES_SEQUENCE_REUSE: u8 := 6
  const PHASE_STATE_MAX: u8 := 255
  const ATTEN_DB_MAX: u8 := 23

  /** `build_id`; `None` is its `ValueError`. */
  function BuildId(kind: int, destination: int, source: int, sequence: int): Option<nat>
  {
    if !(0 <= kind <= 7 && 0 <= destination <= 31 && 0 <= source <= 31) then None
    else if !(0 <= sequence <= SEQ_MASK) then None
    else Some(Or(Or(Or(Shl(kind, 26), Shl(destination, 21)), Shl(source, 16)), And(sequence, SEQ_MASK)))
  }

  /** `parse_id` masks whatever it is given; it has no error return. */
  function Parse(id: nat): IdFields
  {
    MaskedFieldsFit(id);
    IdFields(And(Shr(id, 26), 0x7), And(Shr(id, 21), 0x1f), And(Shr(id, 16), 0x1f), And(id, 0xffff))
  }

  /** A Python argument, as far as the validators look at it. */
  datatype PyValue = PyInt(n: int) | PyBool(b: bool) | PyOther

  /** `_validated_value`; `None` is its `ValueError`. A `bool` is an `int` to Python but not to this check. */
  function ValidatedValue(value: PyValue, maximum: u8): Option<u8>
  {
    if value.PyInt? && 0 <= value.n <= maximum then Some(value.n) else None
  }

  /** The two programs agree on which tuples have an identifier, and on what it is. */
  lemma BuildIdAgreesWithC(kind: u8, destination: u8, source: u8, sequence: u16)
    ensures BuildId(kind, destination, source, sequence) == MakeId(kind, destination, source, sequence)
  {
    hide Or, And, Shl, Shl32, Positional;
    var f := IdFields(kind, destination, source, sequence);
    if FieldsInRange(f) {
      MakeIdIsPositional(f);
      ShiftedFieldsJoin(f);
      ShiftedFields(f);
      AndMask(sequence, 16);
      Powers();
    }
  }

  /** On 29-bit identifiers the two parsers read the same fields. */
  lemma ParseAgreesWithC(id: u32)
    requires id <= EXTENDED_ID_MAX
    ensures ParseId(id) == Some(Parse(id))
  {
  }
}
