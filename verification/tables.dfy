/**
  The constant configuration of the PMC stream switch: which sources each
  sink may take (its population mask), where each sink's 4-bit selector
  lives in the control word (its shift), the endpoint encodings handed to
  the switch base, and the per-sink rows of selector codes.
 */
module PmcTables {
  import opened PmcRemotes

  /** R_PMC_SSS_FIELD_LENGTH: every selector field is four bits wide. */
  const FieldLength: bv32 := 4

  /** The marker for a slot of a mapping row that holds no code. */
  const Unused: bv8 := 0xFF

  /**
    pmc_sss_population: the legal sources of each sink, one bit per source.
    The C initializer names no entry for PZM, so PZM's mask is zero; the
    entry of the NO_REMOTE slot, `[NO_REMOTE] = 0`, says that nothing may
    feed "no source", and Legal never consults it.
   */
  function Population(sink: Remote): (p: bv32)
    ensures p >> NumRemotes == 0
    ensures sink == PZM ==> p == 0
  {
    match sink
    case DMA0 => Bit(DMA0) | Bit(AES) | Bit(SBI) | Bit(PZM)
    case DMA1 => Bit(DMA1) | Bit(AES) | Bit(SBI) | Bit(PZM)
    case PTPI => Bit(DMA0) | Bit(DMA1)
    case AES => Bit(DMA0) | Bit(DMA1)
    case SHA => Bit(DMA0) | Bit(DMA1)
    case SBI => Bit(DMA0) | Bit(DMA1)
    case PZM => 0
  }

  /** Whether src is a legal source of sink: its bit is set in the sink's population. */
  predicate Legal(sink: Remote, src: Remote)
  {
    Population(sink) & Bit(src) != 0
  }

  /**
    r_pmc_cfg_sss_shifts: the bit offset of each sink's selector field;
    -1 marks PZM, which has no field in the control word.
   */
  function Shift(sink: Remote): (s: int)
    ensures s == -1 || (0 <= s <= 20 && s % 4 == 0)
    ensures s == -1 <==> sink == PZM
  {
    match sink
    case DMA0 => 0
    case DMA1 => 4
    case PTPI => 8
    case AES => 12
    case SHA => 16
    case SBI => 20
    case PZM => -1
  }

  /** Whether a sink's routing is selected through the control word. */
  predicate HasField(sink: Remote)
  {
    Shift(sink) >= 0
  }

  /**
    The offset of an addressable sink's field, as a bit-vector shift amount.
    It repeats the shift table as literals because converting the integer
    entries of Shift to bit-vectors makes every proof about extraction far
    costlier for the solver; FieldShiftAgreesWithShift ties the two together.
   */
  function FieldShift(sink: Remote): (s: bv32)
    requires HasField(sink)
    ensures s <= 32 - FieldLength
  {
    match sink
    case DMA0 => 0
    case DMA1 => 4
    case PTPI => 8
    case AES => 12
    case SHA => 16
    case SBI => 20
  }

  /** FieldShift is the shift table read as a bit-vector, and its offsets are multiples of the field width. */
  lemma FieldShiftAgreesWithShift(sink: Remote)
    requires HasField(sink)
    ensures FieldShift(sink) as int == Shift(sink)
    ensures FieldShift(sink) % FieldLength == 0
  {
    match sink
    case DMA0 =>
    case DMA1 =>
    case PTPI =>
    case AES =>
    case SHA =>
    case SBI =>
  }

  /** r_pmc_cfg_sss_encodings: each endpoint is encoded by its own ordinal. */
  function Encoding(r: Remote): (e: bv8)
    ensures e as int == Index(r)
  {
    match r
    case DMA0 => 0
    case DMA1 => 1
    case PTPI => 2
    case AES => 3
    case SHA => 4
    case SBI => 5
    case PZM => 6
  }

  /**
    pmc_sss_cfg_mapping: the row of selector codes of an addressable sink,
    one slot per source ordinal plus the NONE slot. The C table has rows
    only for DMA0..SBI, which are exactly the sinks with a field.
   */
  function Mapping(sink: Remote): (row: seq<bv8>)
    requires HasField(sink)
    ensures |row| == NumRemotes + 1
    ensures row[NoRemote] == Unused
  {
    match sink
    //         DMA0  DMA1  PTPI  AES   SHA   SBI   PZM   NONE
    case DMA0 => [0xD, 0xFF, 0xFF, 0x6, 0xFF, 0xB, 0x3, 0xFF]
    case DMA1 => [0xFF, 0x9, 0xFF, 0x7, 0xFF, 0xE, 0x4, 0xFF]
    case PTPI => [0xD, 0xA, 0xFF, 0xFF, 0xFF, 0xFF, 0xFF, 0xFF]
    case AES => [0xE, 0x5, 0xFF, 0xFF, 0xFF, 0xFF, 0xFF, 0xFF]
    case SHA => [0xC, 0x7, 0xFF, 0xFF, 0xFF, 0xFF, 0xFF, 0xFF]
    case SBI => [0x5, 0xB, 0xFF, 0xFF, 0xFF, 0xFF, 0xFF, 0xFF]
  }

  /** The code that selects src as the source of sink (Unused when none does). */
  function Code(sink: Remote, src: Remote): bv8
    requires HasField(sink)
  {
    Mapping(sink)[Index(src)]
  }

  /** Every code that is not the Unused marker fits in a 4-bit field. */
  lemma CodesFitField(sink: Remote, src: Remote)
    requires HasField(sink)
    ensures Code(sink, src) != Unused ==> Code(sink, src) < 16
  {
    match sink
    case DMA0 =>
    case DMA1 =>
    case PTPI =>
    case AES =>
    case SHA =>
    case SBI =>
  }

  /** The population mask and the mapping row agree on the legal sources of every sink. */
  lemma PopulationMatchesMapping(sink: Remote, src: Remote)
    requires HasField(sink)
    ensures Legal(sink, src) <==> Code(sink, src) != Unused
  {
    match sink
    case DMA0 =>
    case DMA1 =>
    case PTPI =>
    case AES =>
    case SHA =>
    case SBI =>
  }

  /** Within one row no two sources share a code: a code names at most one source. */
  lemma MappingInjective(sink: Remote, a: Remote, b: Remote)
    requires HasField(sink)
    requires Code(sink, a) != Unused
    requires Code(sink, a) == Code(sink, b)
    ensures a == b
  {
    match sink
    case DMA0 =>
    case DMA1 =>
    case PTPI =>
    case AES =>
    case SHA =>
    case SBI =>
  }

  /** No row uses code 0, the field value the reset word holds. */
  lemma ZeroIsNoCode(sink: Remote, src: Remote)
    requires HasField(sink)
    ensures Code(sink, src) != 0
  {
    match sink
    case DMA0 =>
    case DMA1 =>
    case PTPI =>
    case AES =>
    case SHA =>
    case SBI =>
  }
}
