/**
 * Per-character and per-cluster information (src/cluster/info.rs):
 * `CharInfo` packs a word-boundary bit and a 2-bit line-boundary code into
 * the boundary bits of `Properties`; `ClusterInfo` is a 16-bit field that the
 * cluster engines fill in place:
 *
 *   bit 0       broken
 *   bits 1-3    whitespace
 *   bits 8-9    emoji presentation
 *   bits 13-15  boundary (bit 2 of it: word boundary, bits 0-1: line boundary)
 */
module Info {
  import Unicode
  type Properties = Unicode.Properties

  /**
   * The 2-bit code of a `LineBoundary` (`line_boundary as u16`), which is
   * what both info types store.  The enumeration and its `from_raw` belong
   * to the paragraph module, which is not part of this model, so accessors
   * return the code that `LineBoundary::from_raw` would be given.
   */
  type LineCode = b: bv16 | b <= 3

  // ---------------------------------------------------------------------------
  // CharInfo
  // ---------------------------------------------------------------------------

  /** Unicode properties of a character with its boundary analysis. */
  datatype CharInfo = CharInfo(props: Properties) {

    /** Packs the word-boundary flag (bit 2) and the line code (bits 0-1). */
    static function New(properties: Properties, isWordBoundary: bool, lineBoundary: LineCode): (r: CharInfo)
      ensures r.IsWordBoundary() == isWordBoundary
      ensures r.LineBoundary() == lineBoundary
      ensures r.props.RecordIndex() == properties.RecordIndex()
    {
      var word: bv16 := if isWordBoundary then 1 else 0;
      var boundaryBits := (word << 2) | lineBoundary;
      CharInfo(properties.WithBoundary(boundaryBits))
    }

    /** The word-boundary flag: the top one of the three boundary bits. */
    function IsWordBoundary(): (r: bool)
      ensures r <==> props.Boundary() >= 4
    {
      (props.Boundary() & 4) != 0
    }

    /** The line code: with the word flag, it makes up the whole boundary value. */
    function LineBoundary(): (r: LineCode)
      ensures props.Boundary() == (if IsWordBoundary() then 4 else 0) + r
    {
      props.Boundary() & 3
    }

    /**
     * Replaces the properties and keeps the receiver's boundary analysis:
     * the record comes from `p`, the three boundary bits from the receiver.
     */
    function WithProperties(p: Properties): (r: CharInfo)
      ensures r.props.RecordIndex() == p.RecordIndex()
      ensures r.props.Boundary() == props.Boundary()
      ensures r.IsWordBoundary() == IsWordBoundary()
      ensures r.LineBoundary() == LineBoundary()
    {
      CharInfo(p.WithBoundary(props.Boundary()))
    }
  }

  /** `CharInfo::default()`: the default `Properties`, i.e. raw value 0. */
  function DefaultCharInfo(): (r: CharInfo)
    ensures r.props.RecordIndex() == 0
    ensures !r.IsWordBoundary() && r.LineBoundary() == 0
  {
    CharInfo(Unicode.Properties(0))
  }

  // ---------------------------------------------------------------------------
  // Emoji and Whitespace
  // ---------------------------------------------------------------------------

  /** Presentation mode of an emoji cluster. */
  datatype Emoji = None | Default | Text | Color {

    /** The discriminant (`self as u16`). */
    function Code(): (c: bv16)
      ensures c <= 3
    {
      match this
      case None => 0
      case Default => 1
      case Text => 2
      case Color => 3
    }

    /** Decodes the low 2 bits of `bits`; all four codes are used. */
    static function FromRaw(bits: bv16): (e: Emoji)
      ensures e.Code() == bits & 3
    {
      match bits & 3
      case 0 => Emoji.None
      case 1 => Default
      case 2 => Text
      case _ => Color
    }
  }

  /** Decoding an emoji's code gives the emoji back. */
  lemma EmojiRoundTrip(e: Emoji)
    ensures Emoji.FromRaw(e.Code()) == e
  {
  }

  /** Whitespace content of a cluster. */
  datatype Whitespace = None | Space | NoBreakSpace | Tab | Newline | Other {

    /** The discriminant (`self as u16`). */
    function Code(): (c: bv16)
      ensures c <= 5
    {
      match this
      case None => 0
      case Space => 1
      case NoBreakSpace => 2
      case Tab => 3
      case Newline => 4
      case Other => 5
    }

    /** Space or no-break space. */
    function IsSpaceOrNbsp(): (r: bool)
      ensures r <==> 1 <= Code() <= 2
    {
      this == Space || this == NoBreakSpace
    }

    /** Decodes the low 3 bits of `bits`; the unused codes 6 and 7 decode to None. */
    static function FromRaw(bits: bv16): (w: Whitespace)
      ensures bits & 7 <= 5 ==> w.Code() == bits & 7
      ensures bits & 7 > 5 ==> w == Whitespace.None
    {
      match bits & 7
      case 0 => Whitespace.None
      case 1 => Space
      case 2 => NoBreakSpace
      case 3 => Tab
      case 4 => Newline
      case 5 => Other
      case _ => Whitespace.None
    }
  }

  /** Decoding a whitespace kind's code gives it back. */
  lemma WhitespaceRoundTrip(w: Whitespace)
    ensures Whitespace.FromRaw(w.Code()) == w
  {
  }

  // ---------------------------------------------------------------------------
  // ClusterInfo
  // ---------------------------------------------------------------------------

  // The field layout of src/cluster/info.rs:81-85: BOUND_SHIFT = 13,
  // SPACE_SHIFT = 1, EMOJI_SHIFT = 8, SPACE_MASK = 0b111, EMOJI_MASK = 0b11.
  // The bit-level functions below spell these constants out as literals, and
  // each fact about them is first proved on the bare bit-vector expression
  // (the `...Bits` lemmas), which keeps every proof a small bit-blasting one.

  /** The whitespace code: `bits >> SPACE_SHIFT & SPACE_MASK`. */
  function SpaceField(bits: bv16): bv16 { (bits >> 1) & 0x7 }

  /** The emoji code: `bits >> EMOJI_SHIFT & EMOJI_MASK`. */
  function EmojiField(bits: bv16): bv16 { (bits >> 8) & 0x3 }

  /** The boundary bits: `bits >> BOUND_SHIFT`. */
  function BoundaryField(bits: bv16): bv16 { bits >> 13 }

  /** The field after `set_broken`: bit 0 set, every other bit kept. */
  function WithBroken(bits: bv16): (r: bv16)
    ensures r & 1 != 0
    ensures r >> 1 == bits >> 1
  {
    BrokenBitSet(bits);
    BrokenKeepsOthers(bits);
    bits | 1
  }

  lemma BrokenBitSet(x: bv16) ensures (x | 1) & 1 != 0 {}
  lemma BrokenKeepsOthers(x: bv16) ensures (x | 1) >> 1 == x >> 1 {}

  /** Setting the broken bit twice is setting it once. */
  lemma BrokenIdempotent(bits: bv16)
    ensures WithBroken(WithBroken(bits)) == WithBroken(bits)
  {
    BrokenTwiceBits(bits);
  }

  lemma BrokenTwiceBits(x: bv16) ensures (x | 1) | 1 == x | 1 {}

  /** The field after `set_emoji(e)`: bits 8-9 hold the code of `e`; every other bit is kept. */
  function WithEmoji(bits: bv16, e: Emoji): (r: bv16)
    ensures EmojiField(r) == e.Code()
    ensures r & 0xFCFF == bits & 0xFCFF
  {
    EmojiBits(bits, e.Code());
    (bits & !(0x3 << 8)) | (e.Code() << 8)
  }

  lemma EmojiBits(x: bv16, c: bv16)
    requires c <= 3
    ensures (((x & !(0x3 << 8)) | (c << 8)) >> 8) & 0x3 == c
    ensures ((x & !(0x3 << 8)) | (c << 8)) & 0xFCFF == x & 0xFCFF
  {}

  /** The field after `set_space(w)`: bits 1-3 hold the code of `w`; every other bit is kept. */
  function WithSpace(bits: bv16, w: Whitespace): (r: bv16)
    ensures SpaceField(r) == w.Code()
    ensures r & 0xFFF1 == bits & 0xFFF1
  {
    SpaceBits(bits, w.Code());
    (bits & !(0x7 << 1)) | (w.Code() << 1)
  }

  lemma SpaceBits(x: bv16, c: bv16)
    requires c <= 7
    ensures (((x & !(0x7 << 1)) | (c << 1)) >> 1) & 0x7 == c
    ensures ((x & !(0x7 << 1)) | (c << 1)) & 0xFFF1 == x & 0xFFF1
  {}

  /**
   * The field after `merge_boundary(boundary)`: the low 3 bits of `boundary`
   * are ORed into bits 13-15 and bits 0-12 are kept.  (Bits of `boundary`
   * above the third are shifted out.)
   */
  function MergeBoundaryBits(bits: bv16, boundary: bv16): (r: bv16)
    ensures r & 0x1FFF == bits & 0x1FFF
    ensures BoundaryField(r) == BoundaryField(bits) | (boundary & 7)
  {
    MergeBits(bits, boundary);
    ((bits << 3) >> 3) | (((bits >> 13) | boundary) << 13)
  }

  lemma MergeBits(x: bv16, b: bv16)
    ensures (((x << 3) >> 3) | (((x >> 13) | b) << 13)) & 0x1FFF == x & 0x1FFF
    ensures (((x << 3) >> 3) | (((x >> 13) | b) << 13)) >> 13 == (x >> 13) | (b & 7)
  {}

  /** Merging two values in turn is merging their union. */
  lemma MergeAssociates(bits: bv16, a: bv16, b: bv16)
    ensures MergeBoundaryBits(MergeBoundaryBits(bits, a), b) == MergeBoundaryBits(bits, a | b)
  {
    MergeAssociatesBits(bits, a, b);
  }

  lemma MergeAssociatesBits(x: bv16, a: bv16, b: bv16)
    ensures
      var xa := ((x << 3) >> 3) | (((x >> 13) | a) << 13);
      ((xa << 3) >> 3) | (((xa >> 13) | b) << 13) == ((x << 3) >> 3) | (((x >> 13) | (a | b)) << 13)
  {}

  /** Merging is commutative in the merged values. */
  lemma MergeCommutes(bits: bv16, a: bv16, b: bv16)
    ensures MergeBoundaryBits(MergeBoundaryBits(bits, a), b) == MergeBoundaryBits(MergeBoundaryBits(bits, b), a)
  {
    MergeAssociates(bits, a, b);
    MergeAssociates(bits, b, a);
    assert a | b == b | a;
  }

  /** Merging the same value twice is merging it once. */
  lemma MergeIdempotent(bits: bv16, b: bv16)
    ensures MergeBoundaryBits(MergeBoundaryBits(bits, b), b) == MergeBoundaryBits(bits, b)
  {
    MergeIdempotentBits(bits, b);
  }

  lemma MergeIdempotentBits(x: bv16, b: bv16)
    ensures
      var xb := ((x << 3) >> 3) | (((x >> 13) | b) << 13);
      ((xb << 3) >> 3) | (((xb >> 13) | b) << 13) == xb
  {}

  /** A boundary once recorded is never cleared by a merge, nor is a word boundary. */
  lemma MergeMonotone(bits: bv16, b: bv16)
    ensures BoundaryField(bits) != 0 ==> BoundaryField(MergeBoundaryBits(bits, b)) != 0
    ensures BoundaryField(bits) & 4 != 0 ==> BoundaryField(MergeBoundaryBits(bits, b)) & 4 != 0
  {
    OrKeepsBits(BoundaryField(bits), b & 7);
  }

  lemma OrKeepsBits(f: bv16, a: bv16)
    ensures f != 0 ==> f | a != 0
    ensures f & 4 != 0 ==> (f | a) & 4 != 0
  {}

  /** The field after merging the boundary bits of each character in turn. */
  function MergeAll(bits: bv16, chars: seq<CharInfo>): bv16
    decreases |chars|
  {
    if chars == [] then bits
    else MergeAll(MergeBoundaryBits(bits, chars[0].props.Boundary()), chars[1..])
  }

  /** The OR of the boundary bits of a sequence of characters. */
  function BoundaryUnion(chars: seq<CharInfo>): (u: bv16)
    ensures u <= 7
    decreases |chars|
  {
    if chars == [] then 0
    else
      var rest := BoundaryUnion(chars[1..]);
      OrBounded(chars[0].props.Boundary(), rest);
      chars[0].props.Boundary() | rest
  }

  lemma OrBounded(a: bv16, b: bv16) requires a <= 7 && b <= 7 ensures a | b <= 7 {}

  /**
   * Merging the boundary bits of every character of a cluster in turn is
   * one merge of their union.
   */
  lemma {:induction false} MergeAllIsUnion(bits: bv16, chars: seq<CharInfo>)
    ensures MergeAll(bits, chars) == MergeBoundaryBits(bits, BoundaryUnion(chars))
    decreases |chars|
  {
    if chars == [] {
      MergeZeroBits(bits);
    } else {
      var b := chars[0].props.Boundary();
      MergeAllIsUnion(MergeBoundaryBits(bits, b), chars[1..]);
      MergeAssociates(bits, b, BoundaryUnion(chars[1..]));
    }
  }

  lemma MergeZeroBits(x: bv16) ensures ((x << 3) >> 3) | (((x >> 13) | 0) << 13) == x {}

  /** A cluster merged from zero is a word boundary iff one of its characters is. */
  lemma WordBoundaryOfCluster(chars: seq<CharInfo>)
    ensures (BoundaryField(MergeAll(0, chars)) & 4 != 0) <==>
      exists i :: 0 <= i < |chars| && chars[i].IsWordBoundary()
  {
    MergeAllIsUnion(0, chars);
    UnionFromZero(BoundaryUnion(chars));
    UnionWordBit(chars);
  }

  lemma UnionFromZero(u: bv16) requires u <= 7 ensures ((0 as bv16) >> 13) | (u & 7) == u {}

  /** The OR of the boundary bits has the word bit iff one character has it. */
  lemma {:induction false} UnionWordBit(chars: seq<CharInfo>)
    ensures (BoundaryUnion(chars) & 4 != 0) <==> exists i :: 0 <= i < |chars| && chars[i].IsWordBoundary()
    decreases |chars|
  {
    if chars != [] {
      var rest := BoundaryUnion(chars[1..]);
      UnionWordBit(chars[1..]);
      OrWordBit(chars[0].props.Boundary(), rest);
      if rest & 4 != 0 {
        var i :| 0 <= i < |chars[1..]| && chars[1..][i].IsWordBoundary();
        assert chars[i + 1].IsWordBoundary();
      }
      forall i | 1 <= i < |chars| && chars[i].IsWordBoundary()
        ensures rest & 4 != 0
      {
        assert chars[1..][i - 1] == chars[i];
      }
    }
  }

  lemma OrWordBit(a: bv16, b: bv16) ensures ((a | b) & 4 != 0) <==> (a & 4 != 0 || b & 4 != 0) {}

  lemma ZeroFields()
    ensures EmojiField(0) == 0 && SpaceField(0) == 0 && BoundaryField(0) == 0
  {}

  lemma BoundaryParts(f: bv16)
    ensures f <= 7 ==> (f != 0 <==> (f & 4 != 0 || f & 3 != 0))
  {}
}
