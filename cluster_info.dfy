/**
 * The cluster information record (`ClusterInfo` in src/cluster/info.rs), a
 * 16-bit field that the cluster engines update in place through its setters.
 * The bit-level meaning of each setter is given by the functions of `Info`.
 */
module Clusters {
  import opened Info

  /**
   * Aggregate information about a cluster, a 16-bit field that the cluster
   * engines update in place.
   */
  class ClusterInfo {
    var bits: bv16

    /** `ClusterInfo::default()`: all bits clear. */
    constructor ()
      ensures bits == 0
      ensures !IsBroken() && !IsEmoji() && !IsWhitespace() && !IsBoundary()
    {
      bits := 0;
      new;
      ZeroFields();
    }

    /** The cluster is missing an appropriate base character. */
    function IsBroken(): (r: bool)
      reads this
      ensures r <==> WithBroken(bits) == bits
    {
      bits & 1 != 0
    }

    function IsEmoji(): (r: bool)
      reads this
      ensures r <==> EmojiKind() != Emoji.None
    {
      EmojiField(bits) != 0
    }

    /** The emoji presentation stored in bits 8-9. */
    function EmojiKind(): (e: Emoji)
      reads this
      ensures e.Code() == EmojiField(bits)
    {
      Emoji.FromRaw(EmojiField(bits))
    }

    /**
     * True when bits 1-3 are non-zero; this agrees with `WhitespaceKind() != None`
     * except for the unused codes 6 and 7, which decode to None.
     */
    function IsWhitespace(): (r: bool)
      reads this
      ensures SpaceField(bits) <= 5 ==> (r <==> WhitespaceKind() != Whitespace.None)
    {
      SpaceField(bits) != 0
    }

    /** The whitespace kind stored in bits 1-3. */
    function WhitespaceKind(): (w: Whitespace)
      reads this
      ensures SpaceField(bits) <= 5 ==> w.Code() == SpaceField(bits)
      ensures SpaceField(bits) > 5 ==> w == Whitespace.None
    {
      Whitespace.FromRaw(SpaceField(bits))
    }

    /** A word or line boundary: any of bits 13-15. */
    function IsBoundary(): (r: bool)
      reads this
      ensures r <==> IsWordBoundary() || LineBoundary() != 0
    {
      BoundaryParts(BoundaryField(bits));
      BoundaryField(bits) != 0
    }

    /** The word-boundary flag: the top one of the three boundary bits. */
    function IsWordBoundary(): (r: bool)
      reads this
      ensures r <==> BoundaryField(bits) >= 4
    {
      (BoundaryField(bits) & 4) != 0
    }

    /** The line code: with the word flag, it makes up the whole boundary field. */
    function LineBoundary(): (r: LineCode)
      reads this
      ensures BoundaryField(bits) == (if IsWordBoundary() then 4 else 0) + r
    {
      BoundaryField(bits) & 3
    }

    /** Marks the cluster broken; every other bit is kept, and a broken cluster stays as it is. */
    method SetBroken()
      modifies this
      ensures bits == WithBroken(old(bits))
      ensures IsBroken()
    {
      bits := bits | 1;
    }

    /** Stores the emoji presentation in bits 8-9; every other bit is kept. */
    method SetEmoji(emoji: Emoji)
      modifies this
      ensures bits == WithEmoji(old(bits), emoji)
      ensures EmojiKind() == emoji
      ensures IsEmoji() == (emoji != Emoji.None)
    {
      bits := (bits & !(0x3 << 8)) | (emoji.Code() << 8);
      EmojiRoundTrip(emoji);
    }

    /** Stores the whitespace kind in bits 1-3; every other bit is kept. */
    method SetSpace(space: Whitespace)
      modifies this
      ensures bits == WithSpace(old(bits), space)
      ensures WhitespaceKind() == space
      ensures IsWhitespace() == (space != Whitespace.None)
    {
      bits := (bits & !(0x7 << 1)) | (space.Code() << 1);
      WhitespaceRoundTrip(space);
    }

    /**
     * A space, a no-break space (U+00A0) or a tab sets the matching kind;
     * any other character leaves the field as it was.
     */
    method SetSpaceFromChar(ch: char)
      modifies this
      ensures ch == ' ' ==> bits == WithSpace(old(bits), Whitespace.Space)
      ensures ch == '\U{A0}' ==> bits == WithSpace(old(bits), Whitespace.NoBreakSpace)
      ensures ch == '\t' ==> bits == WithSpace(old(bits), Whitespace.Tab)
      ensures ch !in {' ', '\U{A0}', '\t'} ==> bits == old(bits)
    {
      match ch {
        case ' ' => SetSpace(Whitespace.Space);
        case '\U{A0}' => SetSpace(Whitespace.NoBreakSpace);
        case '\t' => SetSpace(Whitespace.Tab);
        case _ =>
      }
    }

    /**
     * ORs the low 3 bits of `boundary` into the boundary bits; bits 0-12 are
     * kept, so a boundary once recorded is never lost.
     */
    method MergeBoundary(boundary: bv16)
      modifies this
      ensures bits == MergeBoundaryBits(old(bits), boundary)
      ensures old(IsBoundary()) ==> IsBoundary()
      ensures old(IsWordBoundary()) ==> IsWordBoundary()
    {
      MergeMonotone(bits, boundary);
      var merged := ((bits >> 13) | boundary) << 13;
      bits := ((bits << 3) >> 3) | merged;
    }
  }
}
