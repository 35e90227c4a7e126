/**
 * Unicode character properties (src/unicode.rs): the bit-packed record
 * reference `Properties`, the bracket / mirror / OpenType lookups over the
 * generated tables, the bidi and word-break bit masks and the script
 * helpers.  The generated tables themselves are parameters.
 */
module Unicode {
  import opened Options
  import opened Search

  // ---------------------------------------------------------------------------
  // Generated enumerations (only the parts this model needs)
  // ---------------------------------------------------------------------------

  /** Unicode Joining_Type. */
  datatype JoiningType = U | C | T | D | L | R

  /**
   * Unicode scripts.  The nine cursive-joining scripts are named; every other
   * script of the generated enumeration is `Unlisted`, identified by its name.
   */
  datatype Script =
    | Arabic | Mongolian | Syriac | Nko | PhagsPa | Mandaic | Manichaean
    | PsalterPahlavi | Adlam
    | Unlisted(name: string)

  /** The bidirectional character types of UAX #9, section 3.2 (Table 4). */
  datatype BidiClass =
    | L | R | AL | EN | ES | ET | AN | CS | NSM | BN | B | S | WS | ON
    | LRE | LRO | RLE | RLO | PDF | LRI | RLI | FSI | PDI
  {
    /** Discriminant of the class (`self as u32`). */
    function Ordinal(): (n: bv32)
      ensures n < 23
    {
      match this
      case L => 0   case R => 1   case AL => 2  case EN => 3  case ES => 4
      case ET => 5  case AN => 6  case CS => 7  case NSM => 8 case BN => 9
      case B => 10  case S => 11  case WS => 12 case ON => 13 case LRE => 14
      case LRO => 15 case RLE => 16 case RLO => 17 case PDF => 18
      case LRI => 19 case RLI => 20 case FSI => 21 case PDI => 22
    }

    /** The class as a 32-bit mask: the single bit at its ordinal. */
    function Mask(): (m: bv32)
      ensures forall k: bv32 :: k < 32 ==> (HasBit(m, k) <==> k == Ordinal())
    {
      BitMask(Ordinal())
    }

    /**
     * True for the classes whose presence makes bidi resolution necessary:
     * the explicit embeddings, overrides and isolate initiators, and the
     * right-to-left classes R, AL and AN.
     */
    function NeedsResolution(): (r: bool)
      ensures r <==> this in {RLE, LRE, RLO, LRO, RLI, LRI, FSI, BidiClass.R, AL, AN}
    {
      BidiMaskBits();
      (Mask() & BIDI_MASK) != 0
    }
  }

  const OVERRIDE_MASK: bv32 :=
    BidiClass.RLE.Mask() | BidiClass.LRE.Mask() | BidiClass.RLO.Mask() | BidiClass.LRO.Mask()
  const ISOLATE_MASK: bv32 := BidiClass.RLI.Mask() | BidiClass.LRI.Mask() | BidiClass.FSI.Mask()
  const EXPLICIT_MASK: bv32 := OVERRIDE_MASK | ISOLATE_MASK
  const BIDI_MASK: bv32 :=
    EXPLICIT_MASK | BidiClass.R.Mask() | BidiClass.AL.Mask() | BidiClass.AN.Mask()

  /** The bits of BIDI_MASK are exactly the ordinals of the ten classes it names. */
  lemma BidiMaskBits()
    ensures BIDI_MASK == 0x3B_C046
  {
    assert OVERRIDE_MASK == 0x3_C000 by {
      assert BidiClass.LRE.Mask() == 0x4000 && BidiClass.LRO.Mask() == 0x8000;
      assert BidiClass.RLE.Mask() == 0x1_0000 && BidiClass.RLO.Mask() == 0x2_0000;
    }
    assert ISOLATE_MASK == 0x38_0000 by {
      assert BidiClass.LRI.Mask() == 0x8_0000 && BidiClass.RLI.Mask() == 0x10_0000;
      assert BidiClass.FSI.Mask() == 0x20_0000;
    }
    assert BidiClass.R.Mask() == 0x2 && BidiClass.AL.Mask() == 0x4 && BidiClass.AN.Mask() == 0x40;
  }

  /** The Word_Break property values of UAX #29, section 4.1. */
  datatype WordBreak =
    | Other | CR | LF | Newline | Extend | ZWJ | RegionalIndicator | Format
    | Katakana | HebrewLetter | ALetter | SingleQuote | DoubleQuote
    | MidNumLet | MidLetter | MidNum | Numeric | ExtendNumLet | WSegSpace
  {
    /** Discriminant of the value (`self as u32`). */
    function Ordinal(): (n: bv32)
      ensures n < 19
    {
      match this
      case Other => 0 case CR => 1 case LF => 2 case Newline => 3
      case Extend => 4 case ZWJ => 5 case RegionalIndicator => 6
      case Format => 7 case Katakana => 8 case HebrewLetter => 9
      case ALetter => 10 case SingleQuote => 11 case DoubleQuote => 12
      case MidNumLet => 13 case MidLetter => 14 case MidNum => 15
      case Numeric => 16 case ExtendNumLet => 17 case WSegSpace => 18
    }

    /** The value as a 32-bit mask: the single bit at its ordinal. */
    function Mask(): (m: bv32)
      ensures forall k: bv32 :: k < 32 ==> (HasBit(m, k) <==> k == Ordinal())
    {
      BitMask(Ordinal())
    }
  }

  /** Bit `k` of `m` is set. */
  predicate HasBit(m: bv32, k: bv32)
    requires k < 32
  {
    (m >> k) & 1 == 1
  }

  /** `1 << ordinal`: exactly the bit at `ordinal` is set. */
  function BitMask(ordinal: bv32): (m: bv32)
    requires ordinal < 32
    ensures forall k: bv32 :: k < 32 ==> (HasBit(m, k) <==> k == ordinal)
  {
    (1 as bv32) << ordinal
  }

  /** True if the script has cursive joining. */
  function IsJoined(s: Script): (r: bool)
    ensures r <==> s in {Arabic, Mongolian, Syriac, Nko, PhagsPa, Mandaic, Manichaean, PsalterPahlavi, Adlam}
    ensures r ==> !s.Unlisted?
  {
    match s
    case Arabic | Mongolian | Syriac | Nko | PhagsPa | Mandaic | Manichaean
       | PsalterPahlavi | Adlam => true
    case Unlisted(_) => false
  }

  // ---------------------------------------------------------------------------
  // Property records and the packed record reference
  // ---------------------------------------------------------------------------

  /** Boolean flags of a property record. */
  datatype RecordFlags = RecordFlags(
    isEmoji: bool,
    isExtendedPictographic: bool,
    isOpenBracket: bool,
    isCloseBracket: bool,
    isIgnorable: bool,
    isVariationSelector: bool,
    contributesToShaping: bool,
    needsDecomp: bool)

  /**
   * One entry of the generated property table.  Enumerations that nothing in
   * this model inspects (general category, block, cluster and line break
   * classes, the Use and Myanmar classes) are carried by their ordinal.
   */
  datatype Record = Record(
    category: nat,
    block: nat,
    script: Script,
    combiningClass: uint8,
    bidiClass: BidiClass,
    joiningType: JoiningType,
    clusterBreak: nat,
    wordBreak: WordBreak,
    lineBreak: nat,
    flags: RecordFlags,
    useClass: nat,
    myanmarClass: nat)

  /** Low 13 bits: the record index. */
  const RECORD_MASK: bv16 := 0x1FFF
  /** The 3 boundary bits sit above the record index. */
  const BOUNDARY_SHIFT: bv16 := 13

  /**
   * Compact reference to the Unicode properties of a character: a record
   * index in the low 13 bits and 3 boundary bits above it.  `Properties(0)`
   * is the default.
   */
  datatype Properties = Properties(raw: bv16) {

    /** The record index: the bits under RECORD_MASK, i.e. `raw` modulo 2^13. */
    function RecordIndex(): (i: bv16)
      ensures i < 0x2000
      ensures i == raw % 0x2000
    {
      raw & RECORD_MASK
    }

    /** The 3 boundary bits: with the record index below them, they make up the whole value. */
    function Boundary(): (b: bv16)
      ensures b <= 7
      ensures raw == (b << BOUNDARY_SHIFT) | RecordIndex()
    {
      raw >> BOUNDARY_SHIFT
    }

    /**
     * The value `set_boundary(b)` leaves in the receiver: the record index
     * is kept and the boundary becomes the low 3 bits of `b`.
     */
    function SetBoundary(b: bv16): (p: Properties)
      ensures p.RecordIndex() == RecordIndex()
      ensures p.Boundary() == b & 7
    {
      KeepsRecordBits(raw, b);
      StoresBoundaryBits(raw, b);
      Properties((raw & RECORD_MASK) | ((b & 7) << BOUNDARY_SHIFT))
    }

    /** A copy of the receiver with `set_boundary(b)` applied to the copy. */
    function WithBoundary(b: bv16): (p: Properties)
      ensures p == SetBoundary(b)
    {
      var copy := this;
      copy.SetBoundary(b)
    }

    /** The record the index refers to; the boundary bits never take part in choosing it. */
    function Record(records: seq<Record>): (r: Record)
      requires RecordIndex() as int < |records|
      ensures r == records[(raw % 0x2000) as int]
    {
      records[RecordIndex() as int]
    }

    function Category(records: seq<Record>): (v: nat)
      requires RecordIndex() as int < |records|
      ensures v == records[(raw % 0x2000) as int].category
    { Record(records).category }

    function Block(records: seq<Record>): (v: nat)
      requires RecordIndex() as int < |records|
      ensures v == records[(raw % 0x2000) as int].block
    { Record(records).block }

    function Script(records: seq<Record>): (v: Script)
      requires RecordIndex() as int < |records|
      ensures v == records[(raw % 0x2000) as int].script
    { Record(records).script }

    function CombiningClass(records: seq<Record>): (v: uint8)
      requires RecordIndex() as int < |records|
      ensures v == records[(raw % 0x2000) as int].combiningClass
    { Record(records).combiningClass }

    function BidiClass(records: seq<Record>): (v: BidiClass)
      requires RecordIndex() as int < |records|
      ensures v == records[(raw % 0x2000) as int].bidiClass
    { Record(records).bidiClass }

    function JoiningType(records: seq<Record>): (v: JoiningType)
      requires RecordIndex() as int < |records|
      ensures v == records[(raw % 0x2000) as int].joiningType
    { Record(records).joiningType }

    function ClusterBreak(records: seq<Record>): (v: nat)
      requires RecordIndex() as int < |records|
      ensures v == records[(raw % 0x2000) as int].clusterBreak
    { Record(records).clusterBreak }

    function WordBreak(records: seq<Record>): (v: WordBreak)
      requires RecordIndex() as int < |records|
      ensures v == records[(raw % 0x2000) as int].wordBreak
    { Record(records).wordBreak }

    function LineBreak(records: seq<Record>): (v: nat)
      requires RecordIndex() as int < |records|
      ensures v == records[(raw % 0x2000) as int].lineBreak
    { Record(records).lineBreak }

    function Flags(records: seq<Record>): (v: RecordFlags)
      requires RecordIndex() as int < |records|
      ensures v == records[(raw % 0x2000) as int].flags
    { Record(records).flags }

    /** The Use class with the decomposition and pictographic flags. */
    function UseClass(records: seq<Record>): (v: (nat, bool, bool))
      requires RecordIndex() as int < |records|
      ensures var r := records[(raw % 0x2000) as int];
        v == (r.useClass, r.flags.needsDecomp, r.flags.isExtendedPictographic)
    {
      var r := Record(records);
      (r.useClass, r.flags.needsDecomp, r.flags.isExtendedPictographic)
    }

    /** The Myanmar class with the pictographic flag. */
    function MyanmarClass(records: seq<Record>): (v: (nat, bool))
      requires RecordIndex() as int < |records|
      ensures var r := records[(raw % 0x2000) as int];
        v == (r.myanmarClass, r.flags.isExtendedPictographic)
    {
      var r := Record(records);
      (r.myanmarClass, r.flags.isExtendedPictographic)
    }

    /** The cluster break class with the pictographic flag. */
    function ClusterClass(records: seq<Record>): (v: (nat, bool))
      requires RecordIndex() as int < |records|
      ensures var r := records[(raw % 0x2000) as int];
        v == (r.clusterBreak, r.flags.isExtendedPictographic)
    {
      var r := Record(records);
      (r.clusterBreak, r.flags.isExtendedPictographic)
    }
  }

  lemma KeepsRecordBits(raw: bv16, b: bv16)
    ensures ((raw & RECORD_MASK) | ((b & 7) << BOUNDARY_SHIFT)) & RECORD_MASK == raw & RECORD_MASK
  {}

  lemma StoresBoundaryBits(raw: bv16, b: bv16)
    ensures ((raw & RECORD_MASK) | ((b & 7) << BOUNDARY_SHIFT)) >> BOUNDARY_SHIFT == b & 7
  {}

  /**
   * Changing the boundary bits never changes what the properties say about
   * the character: every accessor reads the record through RECORD_MASK.
   */
  lemma SetBoundaryKeepsRecord(p: Properties, b: bv16, records: seq<Record>)
    requires p.RecordIndex() as int < |records|
    ensures p.SetBoundary(b).RecordIndex() as int < |records|
    ensures p.SetBoundary(b).Record(records) == p.Record(records)
    ensures p.SetBoundary(b).Category(records) == p.Category(records)
    ensures p.SetBoundary(b).Block(records) == p.Block(records)
    ensures p.SetBoundary(b).Script(records) == p.Script(records)
    ensures p.SetBoundary(b).CombiningClass(records) == p.CombiningClass(records)
    ensures p.SetBoundary(b).BidiClass(records) == p.BidiClass(records)
    ensures p.SetBoundary(b).JoiningType(records) == p.JoiningType(records)
    ensures p.SetBoundary(b).ClusterBreak(records) == p.ClusterBreak(records)
    ensures p.SetBoundary(b).WordBreak(records) == p.WordBreak(records)
    ensures p.SetBoundary(b).LineBreak(records) == p.LineBreak(records)
    ensures p.SetBoundary(b).Flags(records) == p.Flags(records)
    ensures p.SetBoundary(b).UseClass(records) == p.UseClass(records)
    ensures p.SetBoundary(b).MyanmarClass(records) == p.MyanmarClass(records)
    ensures p.SetBoundary(b).ClusterClass(records) == p.ClusterClass(records)
  {
  }

  /** Setting the boundary twice is the same as setting it to the second value. */
  lemma SetBoundaryLastWins(p: Properties, b1: bv16, b2: bv16)
    ensures p.SetBoundary(b1).SetBoundary(b2) == p.SetBoundary(b2)
  {
    KeepsRecordBits(p.raw, b1);
  }

  // ---------------------------------------------------------------------------
  // Brackets, mirrors and OpenType script tags
  // ---------------------------------------------------------------------------

  /** A pair table sorted on its first field. */
  ghost predicate SortedByFirst<V>(table: seq<(char, V)>) {
    forall i, j :: 0 <= i < j < |table| ==> table[i].0 <= table[j].0
  }

  /** A pair table sorted on its second field. */
  ghost predicate SortedBySecond(table: seq<(char, char)>) {
    forall i, j :: 0 <= i < j < |table| ==> table[i].1 <= table[j].1
  }

  /**
   * The second field of an entry whose first field is `c`, found by binary
   * search on the first field.
   */
  function PairedWith(table: seq<(char, char)>, c: char): (r: Option<char>)
    ensures r.Some? ==> (c, r.value) in table
    ensures SortedByFirst(table) ==> (r.Some? <==> exists i :: 0 <= i < |table| && table[i].0 == c)
  {
    var key := (p: (char, char)) => p.0 as int;
    assert SortedByFirst(table) ==> SortedBy(table, key);
    match BinarySearch(table, key, c as int)
    case Some(i) => Some(table[i].1)
    case None => Option.None
  }

  /**
   * The opening bracket paired with the closing bracket `c`: searches the
   * bracket table (opening, closing) on its closing field.  Only a table
   * sorted on that field makes a miss mean that no pair closes with `c`.
   */
  function OpeningBracket(brackets: seq<(char, char)>, c: char): (r: Option<char>)
    ensures r.Some? ==> (r.value, c) in brackets
    ensures SortedBySecond(brackets) ==> (r.Some? <==> exists i :: 0 <= i < |brackets| && brackets[i].1 == c)
  {
    var key := (p: (char, char)) => p.1 as int;
    assert SortedBySecond(brackets) ==> SortedBy(brackets, key);
    match BinarySearch(brackets, key, c as int)
    case Some(i) => Some(brackets[i].0)
    case None => Option.None
  }

  /**
   * A table sorted on the opening field need not be sorted on the closing
   * one, and then the search on the closing field can miss a listed pair:
   * with the pairs (U+298D, U+2990) and (U+298F, U+298E), the closing
   * bracket U+2990 is not found.
   */
  lemma OpeningBracketCanMiss()
    ensures var t := [('\U{298D}', '\U{2990}'), ('\U{298F}', '\U{298E}')];
      SortedByFirst(t) && !SortedBySecond(t) &&
      ('\U{298D}', '\U{2990}') in t && OpeningBracket(t, '\U{2990}').None?
  {
    var t := [('\U{298D}', '\U{2990}'), ('\U{298F}', '\U{298E}')];
    assert t[0].1 > t[1].1;
  }

  /**
   * The closing bracket paired with the opening bracket `c`: searches the
   * bracket table on its opening field.
   */
  function ClosingBracket(brackets: seq<(char, char)>, c: char): (r: Option<char>)
    ensures r.Some? ==> (c, r.value) in brackets
    ensures SortedByFirst(brackets) ==> (r.Some? <==> exists i :: 0 <= i < |brackets| && brackets[i].0 == c)
  {
    PairedWith(brackets, c)
  }

  /** The mirrored counterpart of `c`, from the mirror table searched on its first field. */
  function Mirror(mirrors: seq<(char, char)>, c: char): (r: Option<char>)
    ensures r.Some? ==> (c, r.value) in mirrors
    ensures SortedByFirst(mirrors) ==> (r.Some? <==> exists i :: 0 <= i < |mirrors| && mirrors[i].0 == c)
  {
    PairedWith(mirrors, c)
  }

  /** Bracket type of a character. */
  datatype BracketType = None | Open(closing: char) | Close(opening: char)

  /**
   * An opening bracket is recognised first; only a character that opens
   * nothing is looked up as a closing bracket.
   */
  function BracketTypeOf(brackets: seq<(char, char)>, c: char): (r: BracketType)
    ensures r.Open? ==> (c, r.closing) in brackets
    ensures r.Close? ==> (r.opening, c) in brackets
    ensures SortedByFirst(brackets) ==> (r.Open? <==> exists i :: 0 <= i < |brackets| && brackets[i].0 == c)
    ensures SortedByFirst(brackets) && SortedBySecond(brackets) ==>
      (r.Close? <==>
        (forall i :: 0 <= i < |brackets| ==> brackets[i].0 != c) &&
        (exists i :: 0 <= i < |brackets| && brackets[i].1 == c))
  {
    match ClosingBracket(brackets, c)
    case Some(other) => Open(other)
    case None =>
      match OpeningBracket(brackets, c)
      case Some(other) => Close(other)
      case None => BracketType.None
  }

  /** The OpenType script tag table, sorted on the tag. */
  ghost predicate SortedByTag(table: seq<(uint32, Script)>) {
    forall i, j :: 0 <= i < j < |table| ==> table[i].0 <= table[j].0
  }

  /** The script whose OpenType tag is `tag`, if the table lists it. */
  function FromOpentype(scriptsByTag: seq<(uint32, Script)>, tag: uint32): (r: Option<Script>)
    ensures r.Some? ==> (tag, r.value) in scriptsByTag
    ensures SortedByTag(scriptsByTag) ==> (r.Some? <==> exists i :: 0 <= i < |scriptsByTag| && scriptsByTag[i].0 == tag)
  {
    var key := (p: (uint32, Script)) => p.0 as int;
    assert SortedByTag(scriptsByTag) ==> SortedBy(scriptsByTag, key);
    match BinarySearch(scriptsByTag, key, tag as int)
    case Some(i) => Some(scriptsByTag[i].1)
    case None => Option.None
  }
}
