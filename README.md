# lipi core, modelled in Dafny

This project models four core files of lipi, a Rust library of Unicode text
analysis, and proves properties of the model:

- the packed 16-bit Unicode property reference `Properties` (a 13-bit
  record index with three boundary bits above it);
- the pure classifications of `src/unicode.rs`: the bidi and word-break bit
  masks, `needs_resolution`, the bracket, mirror and OpenType lookups and
  `is_joined`;
- the character and cluster metadata of `src/cluster/info.rs`. `CharInfo`
  is a value. `ClusterInfo` is a 16-bit field that the cluster engines
  update in place through its setters;
- the value types of the cluster parser in `src/cluster/char.rs`: `Char`,
  `SourceChar` and the ordered `ShapeClass`;
- the locale subtag iterator of `src/locale/subtag.rs`. It is a staged
  parser for the language-tag syntax of section 2.1 of RFC 5646. It yields
  language, script, region, variant, extension and private-use subtags.

Files:

- `options.dfy`: `Option` and the unsigned integer newtypes.
- `search.dfy`: the binary search that the lookups use.
- `unicode.dfy`: module `Unicode`.
- `info.dfy`: module `Info`, the value-level `CharInfo` and the bit-level
  meaning of each `ClusterInfo` setter.
- `cluster_info.dfy`: module `Clusters`, the class `ClusterInfo` with its
  setters as methods.
- `char.dfy`: module `ClusterChar`.
- `subtag.dfy`: module `Locale`.

In `Locale`, the locale string is its UTF-8 bytes. `Split` models
`str::split('-')`. The peekable part iterator is the sequence of parts not
yet taken. `Get` and `GetFrom` model `str::get`, including its
character-boundary checks.

The meaning of one call of `next` is the function `NextStep`. It resumes
the stage loop (`Resume`), and each stage's arm is `Arm`. The class
`Subtags` runs the source's loops as methods. Each method is proved to
produce exactly the `Step` those functions describe.

The generated tables (property records, bracket pairs, mirror pairs,
OpenType script tags) are parameters of the functions that read them. No
table is required to be sorted. A lookup's answer is always one the table
lists. A miss proves the key absent only when the table is sorted on the
field searched.

## Model

| member | source | states |
|---|---|---|
| Search.SearchRange | src/unicode.rs:274 | a found index lies in the searched range and holds the key; on a table sorted on the key, None means no entry of the range holds it |
| Search.BinarySearch | src/unicode.rs:274 | a returned index holds the key, and a key held by no entry gives None; on a table sorted on the key, None exactly when no entry holds it |
| Unicode.BidiClass.Mask | src/unicode.rs:368-372 | the mask has exactly one bit set, the class's ordinal |
| Unicode.WordBreak.Mask | src/unicode.rs:362-366 | the mask has exactly one bit set, the value's ordinal |
| Unicode.BitMask | src/unicode.rs:362-372 | `1 << ordinal` for an ordinal below 32 has exactly the bit at that ordinal set |
| Unicode.BidiClass.NeedsResolution | src/unicode.rs:374-383 | true exactly for RLE, LRE, RLO, LRO, RLI, LRI, FSI, R, AL and AN |
| Unicode.BidiMaskBits | src/unicode.rs:378-381 | with the discriminants of this model, the nested constants OVERRIDE_MASK, ISOLATE_MASK and EXPLICIT_MASK and the R, AL and AN masks combine to the literal BIDI_MASK 0x3B_C046 |
| Unicode.IsJoined | src/unicode.rs:341-355 | true exactly for the nine cursive-joining scripts |
| Unicode.Properties.RecordIndex | src/unicode.rs:142-146 | the record index masked by RECORD_MASK is `raw` modulo 2^13, so below 2^13 |
| Unicode.Properties.Boundary | src/unicode.rs:114-116 | the three bits above the record index: with the index they make up the whole 16-bit value, so the boundary is at most 7 |
| Unicode.Properties.SetBoundary | src/unicode.rs:118-120 | the record index is kept, and the boundary becomes `b & 0b111` |
| Unicode.Properties.WithBoundary | src/unicode.rs:109-112 | the returned copy is the receiver with `set_boundary(b)` applied; the receiver is a value and is unchanged |
| Unicode.Properties.Record | src/unicode.rs:141-146 | the record listed at `raw` modulo 2^13: the boundary bits never take part in choosing it |
| Unicode.Properties.Category | src/unicode.rs:32-35 | the category of the record at `raw` modulo 2^13 |
| Unicode.Properties.Block | src/unicode.rs:37-40 | the block of the record at `raw` modulo 2^13 |
| Unicode.Properties.Script | src/unicode.rs:42-45 | the script of the record at `raw` modulo 2^13 |
| Unicode.Properties.CombiningClass | src/unicode.rs:47-50 | the canonical combining class of the record at `raw` modulo 2^13 |
| Unicode.Properties.BidiClass | src/unicode.rs:52-55 | the bidi class of the record at `raw` modulo 2^13 |
| Unicode.Properties.JoiningType | src/unicode.rs:57-60 | the joining type of the record at `raw` modulo 2^13 |
| Unicode.Properties.ClusterBreak | src/unicode.rs:62-65 | the cluster-break class of the record at `raw` modulo 2^13 |
| Unicode.Properties.WordBreak | src/unicode.rs:67-70 | the word-break value of the record at `raw` modulo 2^13 |
| Unicode.Properties.LineBreak | src/unicode.rs:72-75 | the line-break class of the record at `raw` modulo 2^13 |
| Unicode.Properties.Flags | src/unicode.rs:77-107 | the flag set of the record at `raw` modulo 2^13, read by `is_emoji` through `contributes_to_shaping` |
| Unicode.Properties.UseClass | src/unicode.rs:122-129 | the record's Use class with its needs-decomposition and extended-pictographic flags |
| Unicode.Properties.MyanmarClass | src/unicode.rs:131-134 | the record's Myanmar class with its extended-pictographic flag |
| Unicode.Properties.ClusterClass | src/unicode.rs:136-139 | the record's cluster-break class with its extended-pictographic flag |
| Unicode.SetBoundaryKeepsRecord | src/unicode.rs:32-146 | after a boundary change, the record and every accessor over it (category through line break, flags, Use, Myanmar and cluster classes) are unchanged |
| Unicode.SetBoundaryLastWins | src/unicode.rs:118-120 | setting the boundary twice is setting it to the second value |
| Unicode.PairedWith | src/unicode.rs:280-294 | a result is the second field of a listed pair whose first field is the key; on a table sorted on the first field, Some exactly when such a pair is listed |
| Unicode.OpeningBracket | src/unicode.rs:272-278 | a result is the opening bracket of a listed pair closing with the character; on a table sorted on the closing field, Some exactly when such a pair is listed |
| Unicode.OpeningBracketCanMiss | src/unicode.rs:272-278 | on the pairs (U+298D, U+2990) and (U+298F, U+298E), sorted on the opening but not on the closing field, the search for U+2990 misses a listed pair |
| Unicode.ClosingBracket | src/unicode.rs:280-286 | a result is the closing bracket of a listed pair opening with the character; on a table sorted on the opening field, Some exactly when such a pair is listed |
| Unicode.Mirror | src/unicode.rs:288-294 | a result is the listed mirror of the character; on a table sorted on the first field, Some exactly when the character is listed |
| Unicode.BracketTypeOf | src/unicode.rs:262-270 | Open(c) pairs the character with its closing bracket c and Close(o) with its opening bracket o, both listed; sorted on the opening field, Open exactly when the character opens a pair; sorted on both fields, Close exactly when it opens none but closes one |
| Unicode.FromOpentype | src/unicode.rs:323-328 | a result is the script listed with the tag; on a table sorted on the tag, Some exactly when the tag is listed |
| Info.CharInfo.New | src/cluster/info.rs:14-36 | round trip: the word-boundary flag and the line code read back as given, and the record index of the properties is kept |
| Info.CharInfo.IsWordBoundary | src/cluster/info.rs:28-31 | the word flag is the top one of the three boundary bits |
| Info.CharInfo.LineBoundary | src/cluster/info.rs:33-36 | the line code and the word flag together make up the whole 3-bit boundary value |
| Info.CharInfo.WithProperties | src/cluster/info.rs:38-40 | the record index comes from the new properties; the receiver's three boundary bits (word flag and line code) are kept |
| Info.DefaultCharInfo | src/cluster/info.rs:8-9 | the default is record 0, with no word boundary and line code 0 |
| Info.Emoji.Code | src/cluster/info.rs:188-200 | the discriminant fits the 2-bit emoji field |
| Info.Emoji.FromRaw | src/cluster/info.rs:204-212 | the decoded emoji's code is the low two bits of the input |
| Info.EmojiRoundTrip | src/cluster/info.rs:191-212 | decoding an emoji's code gives that emoji back, for every variant |
| Info.Whitespace.Code | src/cluster/info.rs:215-231 | the discriminant is at most 5 and fits the 3-bit field |
| Info.Whitespace.IsSpaceOrNbsp | src/cluster/info.rs:235-237 | true exactly for codes 1 and 2 (space and no-break space) |
| Info.Whitespace.FromRaw | src/cluster/info.rs:240-250 | low three bits 0-5 decode to the kind with that code; 6 and 7 decode to None |
| Info.WhitespaceRoundTrip | src/cluster/info.rs:218-250 | decoding a whitespace kind's code gives that kind back, for every variant |
| Info.WithBroken | src/cluster/info.rs:133-135 | after `set_broken` bit 0 is set and every other bit is kept |
| Info.BrokenIdempotent | src/cluster/info.rs:133-135 | setting the broken bit twice is setting it once |
| Info.WithEmoji | src/cluster/info.rs:137-139 | bits 8-9 hold the emoji's code and every other bit is kept |
| Info.WithSpace | src/cluster/info.rs:141-143 | bits 1-3 hold the whitespace code and every other bit is kept |
| Info.MergeBoundaryBits | src/cluster/info.rs:155-158 | bits 0-12 are kept; the boundary bits become the old ones ORed with `boundary & 0b111` |
| Info.MergeAssociates | src/cluster/info.rs:155-158 | merging a and then b is merging `a \| b` once |
| Info.MergeCommutes | src/cluster/info.rs:155-158 | the order of two merges does not matter |
| Info.MergeIdempotent | src/cluster/info.rs:155-158 | merging the same value twice is merging it once |
| Info.MergeMonotone | src/cluster/info.rs:119-126 | a merge never clears a recorded boundary, nor a word boundary |
| Info.BoundaryUnion | src/cluster/info.rs:155-158 | the OR of the characters' boundary bits is at most 7 |
| Info.MergeAllIsUnion | src/cluster/info.rs:155-158 | merging each character's boundary bits in turn equals one merge of their union |
| Info.WordBoundaryOfCluster | src/cluster/info.rs:124-126 | a cluster merged from zero is a word boundary exactly when one of its characters is |
| Clusters.ClusterInfo.constructor | src/cluster/info.rs:88-89 | the default field is 0: not broken, not emoji, not whitespace, no boundary |
| Clusters.ClusterInfo.IsBroken | src/cluster/info.rs:93-96 | broken exactly when `set_broken` would change nothing |
| Clusters.ClusterInfo.EmojiKind | src/cluster/info.rs:103-106 | the decoded emoji's code is the stored 2-bit field, so no stored code is lost |
| Clusters.ClusterInfo.WhitespaceKind | src/cluster/info.rs:113-116 | a stored code 0-5 decodes to the kind with that code; the unused codes 6 and 7 decode to None |
| Clusters.ClusterInfo.IsWordBoundary | src/cluster/info.rs:123-126 | the word flag is the top one of the three boundary bits |
| Clusters.ClusterInfo.LineBoundary | src/cluster/info.rs:128-131 | the line code and the word flag together make up the whole boundary field |
| Clusters.ClusterInfo.IsEmoji | src/cluster/info.rs:99-106 | `is_emoji` holds exactly when `emoji()` is not None |
| Clusters.ClusterInfo.IsWhitespace | src/cluster/info.rs:108-116 | for the codes in use, `is_whitespace` holds exactly when `whitespace()` is not None |
| Clusters.ClusterInfo.IsBoundary | src/cluster/info.rs:118-131 | a boundary exactly when it is a word boundary or has a non-zero line code |
| Clusters.ClusterInfo.SetBroken | src/cluster/info.rs:133-135 | the field becomes WithBroken of the old one, and the cluster is broken |
| Clusters.ClusterInfo.SetEmoji | src/cluster/info.rs:137-139 | the field becomes WithEmoji of the old one; `emoji()` reads back the argument and `is_emoji` agrees with it |
| Clusters.ClusterInfo.SetSpace | src/cluster/info.rs:141-143 | the field becomes WithSpace of the old one; `whitespace()` reads back the argument and `is_whitespace` agrees with it |
| Clusters.ClusterInfo.SetSpaceFromChar | src/cluster/info.rs:146-153 | ' ' sets Space, U+00A0 NoBreakSpace, '\t' Tab; any other character leaves the field as it was |
| Clusters.ClusterInfo.MergeBoundary | src/cluster/info.rs:155-158 | the field becomes MergeBoundaryBits of the old one; `is_boundary` and `is_word_boundary` never revert to false |
| ClusterChar.ShapeClass.Rank | src/cluster/char.rs:41-76 | the discriminant of each of the 16 classes is below 16 |
| ClusterChar.Less | src/cluster/char.rs:41 | the derived `Ord` of `ShapeClass`, by declaration position: no class is less than itself; RankInjective, LessTotal, LessTransitive and DeclarationOrder are proved about it |
| ClusterChar.RankInjective | src/cluster/char.rs:41-76 | distinct classes have distinct discriminants |
| ClusterChar.LessTotal | src/cluster/char.rs:41-76 | the derived order is total and strict: exactly one of a < b, a == b, b < a holds |
| ClusterChar.LessTransitive | src/cluster/char.rs:41-76 | the derived order is transitive |
| ClusterChar.DeclarationOrder | src/cluster/char.rs:43-76 | Reph < Pref < Kinzi < Base < ... < Vs < Other, link by link |
| ClusterChar.DefaultShapeClass | src/cluster/char.rs:78-82 | the default is Base; exactly Reph, Pref and Kinzi order before it |
| ClusterChar.DefaultChar | src/cluster/char.rs:25-38 | NUL at offset 0 with data and glyph 0, class Base, joining type U, not ignorable, contributes to shaping |
| ClusterChar.DefaultSourceChar | src/cluster/char.rs:99-109 | NUL at offset 0, length 1, data 0, default CharInfo with record 0, no word boundary and line code 0 |
| Locale.Split | src/locale/subtag.rs:26 | at least one part; no part contains a hyphen |
| Locale.Join | src/locale/subtag.rs:26 | the joined length is the parts' lengths plus one hyphen between each pair |
| Locale.JoinSplit | src/locale/subtag.rs:26 | round trip: joining the split parts with hyphens gives the source back |
| Locale.SplitJoin | src/locale/subtag.rs:26 | round trip: splitting hyphen-free parts joined by hyphens gives the parts back |
| Locale.IsCharBoundary | src/locale/subtag.rs:43 | a boundary never lies past the end, and every index of an ASCII byte is one |
| Locale.Get | src/locale/subtag.rs:141 | None exactly for a reversed range, an end past the source, or an index that is not a character boundary; otherwise the slice between the two indices |
| Locale.GetFrom | src/locale/subtag.rs:43 | None exactly when the start is not a character boundary; otherwise the suffix of the source from the start |
| Locale.Start | src/locale/subtag.rs:22-29 | language stage, every part of the source to come, position 0; the position is that of the first part |
| Locale.ParseStage.Rank | src/locale/subtag.rs:178-186 | the derived order of the six stages maps into 0..5 |
| Locale.ExtensionRun | src/locale/subtag.rs:124-139 | the run of an extension never exceeds the parts left |
| Locale.ExtensionRunIsMaximal | src/locale/subtag.rs:124-139 | every part of the run has 2-8 bytes, and the part after it (if any) does not |
| Locale.PrivateRun | src/locale/subtag.rs:150-167 | the run of a private-use section never exceeds the parts left |
| Locale.PrivateRunIsMaximal | src/locale/subtag.rs:150-167 | every part of the run has 2-8 bytes or is a singleton other than 'x'; the part after it (if any) is neither |
| Locale.CloseSection | src/locale/subtag.rs:140-143 | the parts after the run remain; a yielded tag is the source slice from the singleton to just before the new position, of the kind asked for; with no tag the position stays |
| Locale.Arm | src/locale/subtag.rs:55-173 | an arm that hands the part on moves to a strictly later stage; one that returns never moves the stage back, consumes only parts, keeps the position when nothing is yielded, and yields the part itself or a slice of the source |
| Locale.Resume | src/locale/subtag.rs:54-174 | the stage loop terminates; the stage never moves back; the position never decreases and stays put when nothing is yielded; what is left is a suffix of the parts; a tag is the part or a source slice |
| Locale.NextStep | src/locale/subtag.rs:50-175 | with no parts left, None and no change; otherwise at least one part is consumed, the stage never moves back and `pos` never decreases |
| Locale.FirstSubtag | src/locale/subtag.rs:56-65 | the first call yields Language(first part) exactly when the first part has 2 or 3 bytes, and moves to the script stage either way |
| Locale.EmptyLocale | src/locale/subtag.rs:50-65 | the empty locale yields no subtag and leaves no parts |
| Locale.ResumeKind | src/locale/subtag.rs:54-174 | a call resumed at a stage yields that stage's kind or a later one, and leaves the stage no earlier than the kind yielded |
| Locale.SubtagsInOrder | src/locale/subtag.rs:178-186 | of two consecutive yielding calls, the second subtag's kind is no earlier than the first's (language, script, region, variant, extension, private use) |
| Locale.ScriptStep | src/locale/subtag.rs:66-72 | a Script subtag is yielded exactly for four ASCII letters; any other part falls through to the region arm in the same call |
| Locale.RegionStep | src/locale/subtag.rs:73-90 | a Region subtag is yielded exactly for two ASCII letters or three ASCII digits; any other part falls through to the variant arm in the same call |
| Locale.VariantStep | src/locale/subtag.rs:91-118 | a non-singleton at the variant stage yields Variant(part) exactly for a digit-led 4-byte or a 5-8 byte alphanumeric part, and otherwise ends with None; the stage stays and only that part is consumed |
| Locale.SingletonStep | src/locale/subtag.rs:110-116 | a singleton at the variant stage opens a private-use subtag when it is 'x' and an extension otherwise |
| Locale.AlignedStep | src/locale/subtag.rs:50-175 | from a state whose position is that of the next part, a yielded subtag covers exactly the parts consumed in the form its kind requires, and the state stays aligned |
| Locale.ResumeAligned | src/locale/subtag.rs:54-174 | the same for the stage loop, stage by stage |
| Locale.ArmAligned | src/locale/subtag.rs:55-173 | the same for one arm that returns |
| Locale.LanguageAligned | src/locale/subtag.rs:56-65 | a language subtag is the 2-3 byte part itself, and the next part is aligned |
| Locale.ScriptAligned | src/locale/subtag.rs:66-72 | a script subtag is the 4-letter part itself, and the next part is aligned |
| Locale.RegionAligned | src/locale/subtag.rs:73-90 | a region subtag is the part itself, 2 letters or 3 digits, and the next part is aligned |
| Locale.VariantAligned | src/locale/subtag.rs:91-118 | a variant subtag is the part itself, of variant form, and the next part is aligned |
| Locale.ExtensionAligned | src/locale/subtag.rs:119-144 | an extension is its singleton and the following run of 2-8 byte parts, joined by hyphens; the part after the run is aligned |
| Locale.PrivateAligned | src/locale/subtag.rs:145-172 | a private-use subtag is the 'x' and the following parts of 1-8 bytes, stopping before another 'x' singleton; the part after it is aligned |
| Locale.SectionAligned | src/locale/subtag.rs:140-143 | a closed section's tag is the join of the singleton and its run, and the part after the run is aligned |
| Locale.SingleStepAligned | src/locale/subtag.rs:60-61 | advancing past one part and its hyphen reaches the next part |
| Locale.RunAligned | src/locale/subtag.rs:123-140 | the accumulated `end` (less one, clamped to the source length) is the end of the joined run, and the source slice there is that join |
| Locale.TagIsSubstring | src/locale/subtag.rs:141-142 | every subtag yielded from a state whose parts are a suffix of the source's parts is a contiguous slice of the source |
| Locale.Subtags.constructor | src/locale/subtag.rs:22-29 | `subtags(locale)`: language stage, all parts of the source to come, position 0, aligned |
| Locale.Subtags.Remainder | src/locale/subtag.rs:42-44 | a suffix of the source: the rest from `pos` when that is a character boundary, else "" |
| Locale.Subtags.Next | src/locale/subtag.rs:50-53 | the subtag returned and the new stage, parts and position are exactly NextStep of the old state; a returned subtag's tag is a contiguous slice of the source |
| Locale.Subtags.ParsePart | src/locale/subtag.rs:54-174 | the `loop` terminates and returns exactly what Resume gives for the old state |
| Locale.Subtags.RunArm | src/locale/subtag.rs:55-173 | one pass of the loop body is Arm: it returns Arm's step, or moves to Arm's later stage with parts and position unchanged |
| Locale.Subtags.CloseExtension | src/locale/subtag.rs:119-144 | the extension arm's result and new state are CloseSection over the run, with the stage switched to private use when an 'x' singleton follows |
| Locale.Subtags.ScanExtension | src/locale/subtag.rs:123-139 | the peek loop consumes exactly the run, adds each part's length plus one to `end`, and switches to private use at a following 'x' |
| Locale.Subtags.ClosePrivate | src/locale/subtag.rs:145-172 | the private-use arm's result and new state are CloseSection over its run |
| Locale.Subtags.ScanPrivate | src/locale/subtag.rs:149-167 | the peek loop consumes exactly the run and adds each part's length plus one to `end` |

## Left out

- The cluster segmentation engines (parse, simple, complex, myanmar, cluster) are not part of this model. Their source is not among the files modelled, so no segmentation behaviour is assumed. `MergeAll` only says what merging a cluster's characters in turn would produce.
- The generated `unicode_data` tables and `get_record_index` are not part of this model. Records, bracket pairs, mirrors and OpenType tags are sequence parameters. The record index is required to be in bounds, which the source guarantees by construction. `Properties::new` and the `From` conversions are left out for the same reason.
- `Script::name`, `is_complex` and `to_opentype` are left out. Each is a plain read of a generated table.
- `compose`, `decompose` and `decompose_compatible` are left out. They call into a composition module that is not part of this model.
- The `Codepoint` trait's delegating methods and the `From` and `Deref` conversions are left out. They are one-line wrappers over the modelled functions.
- `from_u32_unchecked` is left out. Table entries are taken to be valid scalar values, so the lookups return `char` directly.
- The `fmt::Debug` impl of `ClusterInfo` is left out. It is output formatting only.
- `LineBoundary` belongs to the paragraph module, which is not part of this model. `line_boundary()` returns the 2-bit code that is handed to `LineBoundary::from_raw`, and nothing is assumed about what that maps to.
- The generated enumerations are only partly modelled. `Script` names only the nine joining scripts. The discriminant order of `BidiClass` is taken from the listing order of UAX #9 (Table 4). The order of `WordBreak` follows the values of UAX #29 (section 4.1), with Other first in place of Any. Record fields that nothing here inspects are carried as ordinals.
- Unicode.OpeningBracket: the search runs on the closing field of the bracket table, which is generated sorted on the opening field. Completeness is promised only when the table is also sorted on the closing field. The Unicode bracket pairs (U+298D, U+2990) and (U+298F, U+298E) break that order. On such a table a listed closing bracket can be missed, as `Unicode.OpeningBracketCanMiss` shows for a two-pair table. The generated table is not part of this model, so whether the real lookup misses is not claimed.
- Unicode.BracketTypeOf: the Close case is stated as an equivalence only for a table sorted on both fields, for the reason given for `Unicode.OpeningBracket`.
- The seven flag accessors of `Properties` (`is_emoji` through `contributes_to_shaping`) are the boolean fields of `Unicode.Properties.Flags`; they are not separate functions.
- Unicode.Properties.SetBoundary: `set_boundary` takes `&mut self` on a `Copy` value, so it is modelled as a function that returns the updated value rather than as an in-place update.
- Clusters.ClusterInfo.IsWhitespace: the equivalence with `whitespace() != None` is stated only for codes 0-5, because the unused codes 6 and 7 make `is_whitespace` true while they decode to None.
- Info.MergeBoundaryBits: line boundaries are combined by OR-ing their 2-bit codes, as the code does; no "most severe wins" ordering is modelled.
- Locale.NextStep: `usize` overflow of `pos` and `end` is not modelled; positions are unbounded naturals.
- Locale.AlignedStep: alignment is proved only along calls that yield a subtag. A call that returns None has still consumed its part but leaves `pos` where it was. If the caller keeps calling `next` after that None, later extension and private-use slices start at the stale position. The model computes exactly that, but no alignment property is claimed after a None.
- Locale.Split: the locale is modelled as its bytes, and it is not assumed to be valid UTF-8. The character-boundary test of `str::get` is the UTF-8 rule on the byte at the index.
