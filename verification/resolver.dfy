/**
  The routing decision of the PMC stream switch: pmc_get_sss_regfield reads
  a sink's 4-bit selector out of the control word and looks it up in the
  sink's mapping row, giving the ordinal of the selected source, or
  NO_REMOTE when the selector matches no source.
 */
module PmcResolver {
  import opened PmcRemotes
  import opened PmcTables

  // ---------------------------------------------------------------------
  // 4-bit fields of a 32-bit word
  // ---------------------------------------------------------------------

  /** extract32(word, start, 4): the four bits of word starting at bit start. */
  function Extract4(word: bv32, start: bv32): (v: bv32)
    requires start <= 32 - FieldLength
    ensures v < 16
  {
    (word >> start) & 0xF
  }

  /** deposit32(word, start, 4, code): word with the four bits at start replaced by code. */
  function Deposit4(word: bv32, start: bv32, code: bv32): bv32
    requires start <= 32 - FieldLength
    requires code < 16
  {
    (word & !(0xF << start)) | (code << start)
  }

  /** Extraction reads back what deposit wrote. */
  lemma ExtractDeposit(word: bv32, start: bv32, code: bv32)
    requires start <= 32 - FieldLength
    requires code < 16
    ensures Extract4(Deposit4(word, start, code), start) == code
  {
  }

  /** Depositing into one field leaves a different, aligned field as it was. */
  lemma ExtractOtherDeposit(word: bv32, s: bv32, t: bv32, code: bv32)
    requires s <= 32 - FieldLength && t <= 32 - FieldLength
    requires s % FieldLength == 0 && t % FieldLength == 0 && s != t
    requires code < 16
    ensures Extract4(Deposit4(word, s, code), t) == Extract4(word, t)
  {
  }

  /** Extraction looks only at the four bits at start. */
  lemma ExtractReadsOnlyField(w1: bv32, w2: bv32, start: bv32)
    requires start <= 32 - FieldLength
    requires w1 & (0xF << start) == w2 & (0xF << start)
    ensures Extract4(w1, start) == Extract4(w2, start)
  {
  }

  /** A field that ends by bit 24 does not see the top byte. */
  lemma ExtractBelowHighByte(w1: bv32, w2: bv32, start: bv32)
    requires start <= 24 - FieldLength
    requires w1 & 0x00FF_FFFF == w2 & 0x00FF_FFFF
    ensures Extract4(w1, start) == Extract4(w2, start)
  {
  }

  /** Nibbles shifted to two different multiples of four share no bit. */
  lemma ShiftedNibblesDisjoint(s: bv32, t: bv32)
    requires s <= 32 - FieldLength && t <= 32 - FieldLength
    requires s % FieldLength == 0 && t % FieldLength == 0 && s != t
    ensures (0xF as bv32 << s) & (0xF as bv32 << t) == 0
  {
  }

  // ---------------------------------------------------------------------
  // The selector fields of the control word
  // ---------------------------------------------------------------------

  /** The bits of the control word that hold a sink's selector. */
  function FieldMask(sink: Remote): bv32
    requires HasField(sink)
  {
    0xF << FieldShift(sink)
  }

  /** The selector value of a sink in the control word. */
  function Field(word: bv32, sink: Remote): (v: bv32)
    requires HasField(sink)
    ensures v < 16
  {
    Extract4(word, FieldShift(sink))
  }

  /** The control word with a sink's selector set to code. */
  function SetField(word: bv32, sink: Remote, code: bv32): bv32
    requires HasField(sink)
    requires code < 16
  {
    Deposit4(word, FieldShift(sink), code)
  }

  /** After SetField the sink's selector holds code. */
  lemma SetFieldReadsBack(word: bv32, sink: Remote, code: bv32)
    requires HasField(sink)
    requires code < 16
    ensures Field(SetField(word, sink, code), sink) == code
  {
    ExtractDeposit(word, FieldShift(sink), code);
  }

  /** SetField on one sink keeps the selector of every other sink. */
  lemma SetFieldKeepsOtherFields(word: bv32, sink: Remote, code: bv32, other: Remote)
    requires HasField(sink) && HasField(other)
    requires sink != other
    requires code < 16
    ensures Field(SetField(word, sink, code), other) == Field(word, other)
  {
    var s, t := FieldShift(sink), FieldShift(other);
    FieldShiftAgreesWithShift(sink);
    FieldShiftAgreesWithShift(other);
    assert s != t;
    ExtractOtherDeposit(word, s, t, code);
  }

  /** The fields of two different sinks share no bit. */
  lemma FieldsDisjoint(a: Remote, b: Remote)
    requires HasField(a) && HasField(b)
    requires a != b
    ensures FieldMask(a) & FieldMask(b) == 0
  {
    FieldShiftAgreesWithShift(a);
    FieldShiftAgreesWithShift(b);
    ShiftedNibblesDisjoint(FieldShift(a), FieldShift(b));
  }

  // ---------------------------------------------------------------------
  // The resolver
  // ---------------------------------------------------------------------

  /**
    The scan of pmc_get_sss_regfield from ordinal i on: the first ordinal
    below NO_REMOTE whose code equals v, or NO_REMOTE. The NONE slot is
    never looked at.
   */
  function Scan(row: seq<bv8>, v: bv32, i: nat): (r: nat)
    requires |row| == NumRemotes + 1
    requires i <= NumRemotes
    ensures i <= r <= NoRemote
    ensures r < NoRemote ==> row[r] as bv32 == v
    ensures forall j :: i <= j < r ==> row[j] as bv32 != v
    decreases NumRemotes - i
  {
    if i == NumRemotes then NoRemote
    else if row[i] as bv32 == v then i
    else Scan(row, v, i + 1)
  }

  /**
    The `for (indx ...)` loop of pmc_get_sss_regfield over one mapping row:
    it breaks at the first ordinal whose code equals v and otherwise runs
    to NO_REMOTE.
   */
  method FirstMatch(row: seq<bv8>, v: bv32) returns (indx: nat)
    requires |row| == NumRemotes + 1
    ensures indx == Scan(row, v, 0)
  {
    indx := 0;
    while indx < NumRemotes
      invariant indx <= NumRemotes
      invariant forall j :: 0 <= j < indx ==> row[j] as bv32 != v
    {
      if v == row[indx] as bv32 {
        break;
      }
      indx := indx + 1;
    }
    ghost var r := Scan(row, v, 0);
    assert indx < NumRemotes ==> row[indx] as bv32 == v;
    assert !(r < indx) && !(indx < r);
  }

  /**
    The lookup half of pmc_get_sss_regfield: the ordinal of the first
    source, in ordinal order, whose code in the sink's row equals the
    selector value v, or NO_REMOTE when none does.
   */
  function Decode(sink: Remote, v: bv32): (r: nat)
    requires HasField(sink)
    ensures r <= NoRemote
    ensures r < NoRemote ==> Code(sink, FromIndex(r)) as bv32 == v
    ensures forall src :: Index(src) < r ==> Code(sink, src) as bv32 != v
  {
    Scan(Mapping(sink), v, 0)
  }

  /**
    pmc_get_sss_regfield: the ordinal of the source routed to sink by the
    control word, or NO_REMOTE; the sink's selector is extracted from the
    word and looked up in the sink's row.
   */
  function RegField(sink: Remote, word: bv32): (r: nat)
    requires HasField(sink)
    ensures r <= NoRemote
  {
    Decode(sink, Field(word, sink))
  }

  /** A selector value that decodes to a source is that source's code, and the source is legal. */
  lemma DecodedSourceIsLegal(sink: Remote, v: bv32, src: Remote)
    requires HasField(sink)
    requires v < 16
    requires Decode(sink, v) == Index(src)
    ensures Legal(sink, src) && Code(sink, src) as bv32 == v
  {
    FromIndexOfIndex(src);
    assert Code(sink, src) as bv32 == v;
    PopulationMatchesMapping(sink, src);
  }

  /** The code of a legal source decodes to that source: no earlier source shares it. */
  lemma LegalCodeDecodes(sink: Remote, v: bv32, src: Remote)
    requires HasField(sink)
    requires Legal(sink, src)
    requires Code(sink, src) as bv32 == v
    ensures Decode(sink, v) == Index(src)
  {
    PopulationMatchesMapping(sink, src);
    var r := Decode(sink, v);
    if r < Index(src) {
      MappingInjective(sink, src, FromIndex(r));
      assert false;
    }
  }

  /**
    A selector value decodes to src exactly when src is a legal source of
    the sink and v is src's code: the first-match scan finds the one source
    the code names.
   */
  lemma DecodesToIff(sink: Remote, v: bv32, src: Remote)
    requires HasField(sink)
    requires v < 16
    ensures Decode(sink, v) == Index(src) <==> Legal(sink, src) && Code(sink, src) as bv32 == v
  {
    if Decode(sink, v) == Index(src) {
      DecodedSourceIsLegal(sink, v, src);
    }
    if Legal(sink, src) && Code(sink, src) as bv32 == v {
      LegalCodeDecodes(sink, v, src);
    }
  }

  /**
    A sink resolves to src exactly when src is a legal source of the sink
    and the sink's selector holds src's code.
   */
  lemma ResolvesToIff(sink: Remote, word: bv32, src: Remote)
    requires HasField(sink)
    ensures RegField(sink, word) == Index(src)
            <==> Legal(sink, src) && Code(sink, src) as bv32 == Field(word, sink)
  {
    DecodesToIff(sink, Field(word, sink), src);
  }

  /**
    A sink resolves to NO_REMOTE exactly when its selector is the code of
    none of its legal sources; the Unused slots never match a 4-bit selector.
   */
  lemma DisconnectedIff(sink: Remote, word: bv32)
    requires HasField(sink)
    ensures RegField(sink, word) == NoRemote
            <==> forall src :: Legal(sink, src) ==> Code(sink, src) as bv32 != Field(word, sink)
  {
    var v := Field(word, sink);
    var r := Decode(sink, v);
    if r != NoRemote {
      var src := FromIndex(r);
      assert Code(sink, src) as bv32 == v;
      PopulationMatchesMapping(sink, src);
    }
  }

  /** Every resolution is the ordinal of a legal source, or NO_REMOTE. */
  lemma ResolvesToLegalSource(sink: Remote, word: bv32)
    requires HasField(sink)
    ensures RegField(sink, word) == NoRemote || Legal(sink, FromIndex(RegField(sink, word)))
  {
    var r := RegField(sink, word);
    if r != NoRemote {
      ResolvesToIff(sink, word, FromIndex(r));
    }
  }

  /**
    Round trip: writing a legal source's code into a sink's field makes the
    sink resolve to that source, whatever the rest of the word holds.
   */
  lemma RoundTrip(sink: Remote, src: Remote, word: bv32)
    requires HasField(sink)
    requires Legal(sink, src)
    ensures Code(sink, src) < 16
    ensures RegField(sink, SetField(word, sink, Code(sink, src) as bv32)) == Index(src)
  {
    PopulationMatchesMapping(sink, src);
    CodesFitField(sink, src);
    var w := SetField(word, sink, Code(sink, src) as bv32);
    SetFieldReadsBack(word, sink, Code(sink, src) as bv32);
    ResolvesToIff(sink, w, src);
  }

  /** A sink's resolution depends only on the bits of its own field. */
  lemma DependsOnlyOnOwnField(sink: Remote, w1: bv32, w2: bv32)
    requires HasField(sink)
    requires w1 & FieldMask(sink) == w2 & FieldMask(sink)
    ensures RegField(sink, w1) == RegField(sink, w2)
  {
    ExtractReadsOnlyField(w1, w2, FieldShift(sink));
    assert Field(w1, sink) == Field(w2, sink);
  }

  /** Setting one sink's field leaves the resolution of every other sink unchanged. */
  lemma SetFieldKeepsOthers(sink: Remote, other: Remote, word: bv32, code: bv32)
    requires HasField(sink) && HasField(other)
    requires sink != other
    requires code < 16
    ensures RegField(other, SetField(word, sink, code)) == RegField(other, word)
  {
    SetFieldKeepsOtherFields(word, sink, code, other);
    assert Field(SetField(word, sink, code), other) == Field(word, other);
  }

  /** Bits 24..31 of the control word belong to no field and route nothing. */
  lemma HighByteIgnored(sink: Remote, w1: bv32, w2: bv32)
    requires HasField(sink)
    requires w1 & 0x00FF_FFFF == w2 & 0x00FF_FFFF
    ensures RegField(sink, w1) == RegField(sink, w2)
  {
    FieldShiftAgreesWithShift(sink);
    ExtractBelowHighByte(w1, w2, FieldShift(sink));
    assert Field(w1, sink) == Field(w2, sink);
  }

  /** In the reset word, all zero, every addressable sink is disconnected. */
  lemma ZeroWordDisconnects(sink: Remote)
    requires HasField(sink)
    ensures RegField(sink, 0) == NoRemote
  {
    assert Field(0, sink) == 0;
    forall src | Legal(sink, src)
      ensures Code(sink, src) as bv32 != Field(0, sink)
    {
      ZeroIsNoCode(sink, src);
    }
    DisconnectedIff(sink, 0);
  }

  /** Example routes read off the AES and DMA0 rows, on a word that is otherwise zero. */
  lemma DocumentedRoutes()
    ensures RegField(AES, 0xE << 12) == Index(DMA0)
    ensures RegField(AES, 0x5 << 12) == Index(DMA1)
    ensures RegField(AES, 0x2 << 12) == NoRemote
    ensures RegField(DMA0, 0x3) == Index(PZM)
  {
    assert Field(0xE << 12, AES) == 0xE;
    assert Field(0x5 << 12, AES) == 0x5;
    assert Field(0x2 << 12, AES) == 0x2;
    assert Field(0x3, DMA0) == 0x3;
  }
}
