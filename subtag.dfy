/**
 * The locale subtag iterator (src/locale/subtag.rs): a staged parser that
 * walks the '-'-separated parts of a language tag (section 2.1 of RFC 5646)
 * and yields language, script, region, variant, extension and private-use
 * subtags.
 *
 * The source string is modelled as its UTF-8 bytes; `str::split('-')` as
 * `Split`, the peekable part iterator as the sequence of parts not yet
 * taken, and `str::get` with its character-boundary checks as `Get` and
 * `GetFrom`.  `NextStep` is the meaning of one call of `next`; the class
 * `Subtags` runs the loops of the source and is proved to agree with it.
 */
module Locale {
  import opened Options

  type Bytes = seq<uint8>

  const HYPHEN: uint8 := 0x2D
  const LOWER_X: uint8 := 0x78

  // ---------------------------------------------------------------------------
  // ASCII classes
  // ---------------------------------------------------------------------------

  predicate IsAsciiAlphabetic(b: uint8) { (0x41 <= b <= 0x5A) || (0x61 <= b <= 0x7A) }
  predicate IsAsciiDigit(b: uint8) { 0x30 <= b <= 0x39 }
  predicate IsAsciiAlphanumeric(b: uint8) { IsAsciiAlphabetic(b) || IsAsciiDigit(b) }

  predicate AllAlphabetic(p: Bytes) { forall i :: 0 <= i < |p| ==> IsAsciiAlphabetic(p[i]) }
  predicate AllDigits(p: Bytes) { forall i :: 0 <= i < |p| ==> IsAsciiDigit(p[i]) }
  predicate AllAlphanumeric(p: Bytes) { forall i :: 0 <= i < |p| ==> IsAsciiAlphanumeric(p[i]) }

  /** The four-byte variant form: a digit, then alphanumerics. */
  predicate IsDigitLedVariant(p: Bytes) {
    forall i :: 0 <= i < |p| ==> (i == 0 && IsAsciiDigit(p[i])) || (i > 0 && IsAsciiAlphanumeric(p[i]))
  }

  /** A singleton: a one-byte part, which opens an extension. */
  predicate IsSingleton(p: Bytes) { |p| == 1 }

  /** The singleton 'x', which opens the private-use section. */
  predicate IsPrivateSingleton(p: Bytes) { |p| == 1 && p[0] == LOWER_X }

  /** A part that continues an extension: 2 to 8 bytes. */
  predicate ExtensionPart(p: Bytes) { 2 <= |p| <= 8 }

  /** A part that continues a private-use section: 2 to 8 bytes, or a singleton other than 'x'. */
  predicate PrivatePart(p: Bytes) { 2 <= |p| <= 8 || (|p| == 1 && p[0] != LOWER_X) }
  /** Every part of `ps` may continue an extension section. */
  predicate AllExtensionParts(ps: seq<Bytes>) { forall i :: 0 <= i < |ps| ==> ExtensionPart(ps[i]) }
  /** Every part of `ps` may continue a private-use section. */
  predicate AllPrivateParts(ps: seq<Bytes>) { forall i :: 0 <= i < |ps| ==> PrivatePart(ps[i]) }

  // ---------------------------------------------------------------------------
  // Splitting and joining
  // ---------------------------------------------------------------------------

  /** `s.split('-')`: the parts between hyphens, empty ones included; "" splits into [""]. */
  function Split(s: Bytes): (parts: seq<Bytes>)
    ensures |parts| >= 1
    ensures forall i :: 0 <= i < |parts| ==> HYPHEN !in parts[i]
    decreases |s|
  {
    if s == [] then [[]]
    else if s[0] == HYPHEN then [[]] + Split(s[1..])
    else
      var rest := Split(s[1..]);
      [[s[0]] + rest[0]] + rest[1..]
  }

  /** The number of source bytes that `parts` cover, each counted with the hyphen after it. */
  function Span(parts: seq<Bytes>): nat
  {
    if parts == [] then 0 else |parts[0]| + 1 + Span(parts[1..])
  }

  /** The parts joined by hyphens. */
  function Join(parts: seq<Bytes>): (s: Bytes)
    requires |parts| >= 1
    ensures |s| == Span(parts) - 1
    decreases |parts|
  {
    if |parts| == 1 then parts[0] else parts[0] + [HYPHEN] + Join(parts[1..])
  }

  /** Splitting and joining again gives the source back. */
  lemma {:induction false} JoinSplit(s: Bytes)
    ensures Join(Split(s)) == s
    decreases |s|
  {
    if s == [] {
    } else if s[0] == HYPHEN {
      JoinSplit(s[1..]);
      var rest := Split(s[1..]);
      assert Split(s) == [[]] + rest;
      assert ([[]] + rest)[1..] == rest;
      assert s == [HYPHEN] + s[1..];
    } else {
      JoinSplit(s[1..]);
      var rest := Split(s[1..]);
      var first := [s[0]] + rest[0];
      assert Split(s) == [first] + rest[1..];
      assert s == [s[0]] + s[1..];
      if |rest| > 1 {
        assert ([first] + rest[1..])[1..] == rest[1..];
      }
    }
  }

  lemma {:induction false} SplitNoHyphen(p: Bytes)
    requires HYPHEN !in p
    ensures Split(p) == [p]
    decreases |p|
  {
    if p != [] {
      SplitNoHyphen(p[1..]);
      assert [p[0]] + p[1..] == p;
    }
  }

  lemma {:induction false} SplitAfterPart(p: Bytes, t: Bytes)
    requires HYPHEN !in p
    ensures Split(p + [HYPHEN] + t) == [p] + Split(t)
    decreases |p|
  {
    var s := p + [HYPHEN] + t;
    if p == [] {
      assert s == [HYPHEN] + t;
      assert s[1..] == t;
    } else {
      SplitAfterPart(p[1..], t);
      assert s[1..] == p[1..] + [HYPHEN] + t;
      assert [p[0]] + p[1..] == p;
    }
  }

  /** Joining hyphen-free parts and splitting again gives the parts back. */
  lemma {:induction false} SplitJoin(parts: seq<Bytes>)
    requires |parts| >= 1
    requires forall i :: 0 <= i < |parts| ==> HYPHEN !in parts[i]
    ensures Split(Join(parts)) == parts
    decreases |parts|
  {
    if |parts| == 1 {
      SplitNoHyphen(parts[0]);
    } else {
      SplitJoin(parts[1..]);
      SplitAfterPart(parts[0], Join(parts[1..]));
      assert [parts[0]] + parts[1..] == parts;
    }
  }

  lemma {:induction false} JoinAppend(a: seq<Bytes>, b: seq<Bytes>)
    requires |a| >= 1 && |b| >= 1
    ensures Join(a + b) == Join(a) + [HYPHEN] + Join(b)
    decreases |a|
  {
    if |a| == 1 {
      assert (a + b)[1..] == b;
    } else {
      JoinAppend(a[1..], b);
      assert (a + b)[1..] == a[1..] + b;
    }
  }

  /** Dropping one more element of a suffix. */
  lemma {:induction false} DropOne(s: seq<Bytes>, k: nat)
    requires k < |s|
    ensures s[k..][1..] == s[k + 1..]
  {
  }

  lemma {:induction false} SpanSnoc(parts: seq<Bytes>, k: nat)
    requires k < |parts|
    ensures Span(parts[..k + 1]) == Span(parts[..k]) + |parts[k]| + 1
    decreases k
  {
    if k > 0 {
      SpanSnoc(parts[1..], k - 1);
      assert parts[..k + 1][1..] == parts[1..][..k];
      assert parts[..k][1..] == parts[1..][..k - 1];
    } else {
      assert parts[..1][1..] == [];
    }
  }

  /** Part `k` sits in the joined string right after the parts before it. */
  lemma {:induction false} PartInJoin(parts: seq<Bytes>, k: nat)
    requires k < |parts|
    ensures Span(parts[..k]) + |parts[k]| <= |Join(parts)|
    ensures Join(parts)[Span(parts[..k])..Span(parts[..k]) + |parts[k]|] == parts[k]
    decreases k
  {
    if k > 0 {
      PartInJoin(parts[1..], k - 1);
      assert parts[..k][1..] == parts[1..][..k - 1];
      assert parts[1..][k - 1] == parts[k];
    }
  }

  // ---------------------------------------------------------------------------
  // str::get
  // ---------------------------------------------------------------------------

  /** `str::is_char_boundary`: index 0, the length, or a byte that does not continue a UTF-8 sequence. */
  predicate IsCharBoundary(s: Bytes, i: nat): (r: bool)
    ensures r ==> i <= |s|
    ensures i < |s| && s[i] < 0x80 ==> r
  {
    i == 0 || i == |s| || (i < |s| && (s[i] < 0x80 || s[i] >= 0xC0))
  }

  /** `s.get(start..end)`. */
  function Get(s: Bytes, start: nat, end: nat): (r: Option<Bytes>)
    ensures r.None? <==> end < start || |s| < end || !IsCharBoundary(s, start) || !IsCharBoundary(s, end)
    ensures r.Some? ==> start <= end <= |s| && r.value == s[start..end]
  {
    if start <= end <= |s| && IsCharBoundary(s, start) && IsCharBoundary(s, end)
    then Some(s[start..end]) else None
  }

  /** `s.get(start..)`. */
  function GetFrom(s: Bytes, start: nat): (r: Option<Bytes>)
    ensures r.Some? ==> IsSuffix(r.value, s) && |r.value| == |s| - start
    ensures r.None? <==> !IsCharBoundary(s, start)
  {
    if IsCharBoundary(s, start) then Some(s[start..]) else None
  }

  /** `a` is what is left of `b` after dropping some leading elements. */
  predicate IsSuffix<T(==)>(a: seq<T>, b: seq<T>) {
    |a| <= |b| && a == b[|b| - |a|..]
  }

  function Min(a: nat, b: nat): nat { if a <= b then a else b }

  /** `t` occurs in `s` as a contiguous slice. */
  ghost predicate IsSubstring(t: Bytes, s: Bytes) {
    exists i, j :: 0 <= i <= j <= |s| && s[i..j] == t
  }

  // ---------------------------------------------------------------------------
  // Stages, subtags and one step of the iterator
  // ---------------------------------------------------------------------------

  /** The parser stages, in the order of their derived `Ord`. */
  datatype ParseStage = Language | Script | Region | Variant | Extension | Private {
    function Rank(): (n: nat)
      ensures n <= 5
    {
      match this
      case Language => 0
      case Script => 1
      case Region => 2
      case Variant => 3
      case Extension => 4
      case Private => 5
    }
  }

  /** A subtag of a locale, holding its slice of the source. */
  datatype Subtag =
    | Language(tag: Bytes)
    | Script(tag: Bytes)
    | Region(tag: Bytes)
    | Variant(tag: Bytes)
    | Extension(tag: Bytes)
    | Private(tag: Bytes)
  {
    /** The stage whose arm yields this kind of subtag. */
    function Kind(): ParseStage {
      match this
      case Language(_) => ParseStage.Language
      case Script(_) => ParseStage.Script
      case Region(_) => ParseStage.Region
      case Variant(_) => ParseStage.Variant
      case Extension(_) => ParseStage.Extension
      case Private(_) => ParseStage.Private
    }
  }

  /** The iterator state: the stage, the parts not yet taken and the position of the next one. */
  datatype Cursor = Cursor(stage: ParseStage, parts: seq<Bytes>, pos: nat)

  /** The result of one call of `next` and the state it leaves. */
  datatype Step = Step(subtag: Option<Subtag>, next: Cursor)

  /** `subtags(locale)`: the state before the first call. */
  function Start(locale: Bytes): (c: Cursor)
    ensures c.stage == ParseStage.Language && c.parts == Split(locale) && c.pos == 0
    ensures Aligned(locale, c.parts, c.pos)
  {
    JoinSplit(locale);
    Cursor(ParseStage.Language, Split(locale), 0)
  }

  /** The number of leading parts that continue an extension. */
  function ExtensionRun(parts: seq<Bytes>): (n: nat)
    ensures n <= |parts|
  {
    if parts != [] && ExtensionPart(parts[0]) then 1 + ExtensionRun(parts[1..]) else 0
  }

  /** The run is the longest prefix of parts that continue the section. */
  lemma {:induction false} ExtensionRunIsMaximal(parts: seq<Bytes>)
    ensures AllExtensionParts(parts[..ExtensionRun(parts)])
    ensures ExtensionRun(parts) < |parts| ==> !ExtensionPart(parts[ExtensionRun(parts)])
  {
    if parts != [] && ExtensionPart(parts[0]) {
      var n := ExtensionRun(parts);
      ExtensionRunIsMaximal(parts[1..]);
      forall i | 0 <= i < n ensures ExtensionPart(parts[..n][i]) {
        if i > 0 {
          assert parts[..n][i] == parts[1..][..n - 1][i - 1];
        }
      }
    }
  }

  /** The number of leading parts that continue a private-use section. */
  function PrivateRun(parts: seq<Bytes>): (n: nat)
    ensures n <= |parts|
  {
    if parts != [] && PrivatePart(parts[0]) then 1 + PrivateRun(parts[1..]) else 0
  }

  /** The run is the longest prefix of parts that continue the section. */
  lemma {:induction false} PrivateRunIsMaximal(parts: seq<Bytes>)
    ensures AllPrivateParts(parts[..PrivateRun(parts)])
    ensures PrivateRun(parts) < |parts| ==> !PrivatePart(parts[PrivateRun(parts)])
  {
    if parts != [] && PrivatePart(parts[0]) {
      var n := PrivateRun(parts);
      PrivateRunIsMaximal(parts[1..]);
      forall i | 0 <= i < n ensures PrivatePart(parts[..n][i]) {
        if i > 0 {
          assert parts[..n][i] == parts[1..][..n - 1][i - 1];
        }
      }
    }
  }

  /**
   * The end of an extension (or, with `isPrivate`, a private-use section)
   * whose singleton `part` sits at `start` and is followed by a run of `n`
   * parts: the subtag is the source slice from the singleton to the end of
   * the run, provided that slice has character boundaries at both ends, and
   * the position moves past the hyphen after it.
   */
  function CloseSection(source: Bytes, part: Bytes, rest: seq<Bytes>, n: nat, start: nat,
                        stage: ParseStage, isPrivate: bool): (r: Step)
    requires n <= |rest|
    ensures r.next.stage == stage && r.next.parts == rest[n..]
    ensures r.subtag.None? ==> r.next.pos == start
    ensures r.subtag.Some? ==>
      start < r.next.pos <= |source| + 1 && r.subtag.value.tag == source[start..r.next.pos - 1] &&
      (r.subtag.value.Private? <==> isPrivate) && (r.subtag.value.Extension? <==> !isPrivate)
  {
    var end := Min(start + |part| + 1 + Span(rest[..n]) - 1, |source|);
    var tag := Get(source, start, end);
    if tag.None? then Step(None, Cursor(stage, rest[n..], start))
    else if isPrivate then Step(Some(Subtag.Private(tag.value)), Cursor(stage, rest[n..], end + 1))
    else Step(Some(Subtag.Extension(tag.value)), Cursor(stage, rest[n..], end + 1))
  }

  /**
   * What every arm of the `loop` in `next` guarantees for the part `part`
   * taken at `start`, with `rest` the parts after it: the stage never moves
   * back, the position never decreases (and stays put when nothing is
   * yielded), only a suffix of `rest` is left, and a yielded tag is either
   * the part itself or the slice of the source from `start` to just before
   * the new position.
   */
  ghost predicate Advances(source: Bytes, stage: ParseStage, part: Bytes, rest: seq<Bytes>, start: nat, r: Step) {
    && stage.Rank() <= r.next.stage.Rank()
    && start <= r.next.pos
    && IsSuffix(r.next.parts, rest)
    && (r.subtag.None? ==> r.next.pos == start)
    && (r.subtag.Some? ==>
          r.subtag.value.tag == part ||
          (start < r.next.pos <= |source| + 1 && r.subtag.value.tag == source[start..r.next.pos - 1]))
  }

  /** The outcome of one arm of the `loop` in `next`: return, or hand the same part on to a later stage. */
  datatype ArmResult = Return(step: Step) | FallThrough(stage: ParseStage)

  /**
   * One arm of the `loop` in `next`, for the part `part` taken at `start`
   * with `rest` the parts after it:
   *  - language: a part of 2 or 3 bytes; either way the stage becomes script;
   *  - script: four letters, else fall through to region;
   *  - region: two letters or three digits, else fall through to variant;
   *  - variant: a digit-led four-byte part or five to eight alphanumerics;
   *    a singleton falls through to private use ('x') or extension;
   *  - extension: a singleton and the run of 2-8 byte parts after it, where
   *    an 'x' singleton right after the run moves the stage to private use;
   *  - private use: the 'x' singleton and the run after it.
   */
  function Arm(source: Bytes, stage: ParseStage, part: Bytes, rest: seq<Bytes>, start: nat): (a: ArmResult)
    ensures a.FallThrough? ==> stage.Rank() < a.stage.Rank()
    ensures a.Return? ==> Advances(source, stage, part, rest, start, a.step)
  {
    match stage
    case Language =>
      if |part| == 2 || |part| == 3 then
        Return(Step(Some(Subtag.Language(part)), Cursor(ParseStage.Script, rest, start + |part| + 1)))
      else
        Return(Step(None, Cursor(ParseStage.Script, rest, start)))
    case Script =>
      if |part| == 4 && AllAlphabetic(part) then
        Return(Step(Some(Subtag.Script(part)), Cursor(ParseStage.Region, rest, start + |part| + 1)))
      else
        FallThrough(ParseStage.Region)
    case Region =>
      if (|part| == 2 && AllAlphabetic(part)) || (|part| == 3 && AllDigits(part)) then
        Return(Step(Some(Subtag.Region(part)), Cursor(ParseStage.Variant, rest, start + |part| + 1)))
      else
        FallThrough(ParseStage.Variant)
    case Variant =>
      if |part| == 4 then
        if IsDigitLedVariant(part) then
          Return(Step(Some(Subtag.Variant(part)), Cursor(ParseStage.Variant, rest, start + |part| + 1)))
        else
          Return(Step(None, Cursor(ParseStage.Variant, rest, start)))
      else if 5 <= |part| <= 8 then
        if AllAlphanumeric(part) then
          Return(Step(Some(Subtag.Variant(part)), Cursor(ParseStage.Variant, rest, start + |part| + 1)))
        else
          Return(Step(None, Cursor(ParseStage.Variant, rest, start)))
      else if |part| == 1 then
        FallThrough(if part[0] == LOWER_X then ParseStage.Private else ParseStage.Extension)
      else
        Return(Step(None, Cursor(ParseStage.Variant, rest, start)))
    case Extension =>
      if |part| != 1 then
        Return(Step(None, Cursor(ParseStage.Extension, rest, start)))
      else
        var n := ExtensionRun(rest);
        var stage' := if n < |rest| && IsPrivateSingleton(rest[n]) then ParseStage.Private else ParseStage.Extension;
        Return(CloseSection(source, part, rest, n, start, stage', false))
    case Private =>
      if !IsPrivateSingleton(part) then
        Return(Step(None, Cursor(ParseStage.Private, rest, start)))
      else
        Return(CloseSection(source, part, rest, PrivateRun(rest), start, ParseStage.Private, true))
  }

  /**
   * The `loop` in `next`, entered at `stage`: arms are tried from that
   * stage on until one returns.
   */
  function Resume(source: Bytes, stage: ParseStage, part: Bytes, rest: seq<Bytes>, start: nat): (r: Step)
    ensures stage.Rank() <= r.next.stage.Rank()
    ensures start <= r.next.pos
    ensures IsSuffix(r.next.parts, rest)
    ensures r.subtag.None? ==> r.next.pos == start
    ensures r.subtag.Some? ==>
      r.subtag.value.tag == part || (start < r.next.pos <= |source| + 1 && r.subtag.value.tag == source[start..r.next.pos - 1])
    decreases 5 - stage.Rank()
  {
    var a := Arm(source, stage, part, rest, start);
    if a.Return? then a.step else Resume(source, a.stage, part, rest, start)
  }

  /**
   * One call of `next`: nothing once the parts are exhausted; otherwise the
   * next part is taken and at least that part is consumed.
   */
  function NextStep(source: Bytes, c: Cursor): (r: Step)
    ensures c.parts == [] ==> r == Step(None, c)
    ensures c.parts != [] ==>
      |r.next.parts| < |c.parts| && IsSuffix(r.next.parts, c.parts)
    ensures c.stage.Rank() <= r.next.stage.Rank()
    ensures c.pos <= r.next.pos
  {
    if c.parts == [] then Step(None, c)
    else Resume(source, c.stage, c.parts[0], c.parts[1..], c.pos)
  }

  // ---------------------------------------------------------------------------
  // Properties of a step
  // ---------------------------------------------------------------------------

  /** The first call yields a language subtag exactly when the first part has 2 or 3 bytes. */
  lemma {:induction false} FirstSubtag(locale: Bytes)
    ensures var r := NextStep(locale, Start(locale));
      (r.subtag.Some? <==> |Split(locale)[0]| == 2 || |Split(locale)[0]| == 3) &&
      (r.subtag.Some? ==> r.subtag.value == Subtag.Language(Split(locale)[0])) &&
      r.next.stage == ParseStage.Script
  {
  }

  /**
   * Resuming at `stage` yields a subtag of that stage's kind or of a later
   * one, and leaves the stage no earlier than the kind yielded.
   */
  lemma {:induction false} ResumeKind(source: Bytes, stage: ParseStage, part: Bytes, rest: seq<Bytes>, start: nat)
    ensures var r := Resume(source, stage, part, rest, start);
      r.subtag.Some? ==> stage.Rank() <= r.subtag.value.Kind().Rank() <= r.next.stage.Rank()
    decreases 5 - stage.Rank()
  {
    var a := Arm(source, stage, part, rest, start);
    if a.FallThrough? {
      ResumeKind(source, a.stage, part, rest, start);
    }
  }

  /**
   * Subtags come out in the order of section 2.1 of RFC 5646: language,
   * script, region, variants, extensions, private use.  Of two consecutive
   * calls that both yield, the second yields a kind no earlier than the first.
   */
  lemma {:induction false} SubtagsInOrder(source: Bytes, c: Cursor)
    requires NextStep(source, c).subtag.Some?
    requires NextStep(source, NextStep(source, c).next).subtag.Some?
    ensures NextStep(source, c).subtag.value.Kind().Rank() <=
            NextStep(source, NextStep(source, c).next).subtag.value.Kind().Rank()
  {
    var r1 := NextStep(source, c);
    var c2 := r1.next;
    ResumeKind(source, c.stage, c.parts[0], c.parts[1..], c.pos);
    ResumeKind(source, c2.stage, c2.parts[0], c2.parts[1..], c2.pos);
  }

  /**
   * At the script stage a script subtag is yielded exactly for four ASCII
   * letters; any other part is handed on to the region arm in the same call.
   */
  lemma {:induction false} ScriptStep(source: Bytes, part: Bytes, rest: seq<Bytes>, start: nat)
    ensures var r := Resume(source, ParseStage.Script, part, rest, start);
      (r.subtag.Some? && r.subtag.value.Script?) <==> (|part| == 4 && AllAlphabetic(part))
    ensures !(|part| == 4 && AllAlphabetic(part)) ==>
      Resume(source, ParseStage.Script, part, rest, start) == Resume(source, ParseStage.Region, part, rest, start)
  {
    ResumeKind(source, ParseStage.Region, part, rest, start);
  }

  /**
   * At the region stage a region subtag is yielded exactly for two ASCII
   * letters or three ASCII digits; any other part is handed on to the
   * variant arm in the same call.
   */
  lemma {:induction false} RegionStep(source: Bytes, part: Bytes, rest: seq<Bytes>, start: nat)
    ensures var r := Resume(source, ParseStage.Region, part, rest, start);
      (r.subtag.Some? && r.subtag.value.Region?) <==>
      ((|part| == 2 && AllAlphabetic(part)) || (|part| == 3 && AllDigits(part)))
    ensures !((|part| == 2 && AllAlphabetic(part)) || (|part| == 3 && AllDigits(part))) ==>
      Resume(source, ParseStage.Region, part, rest, start) == Resume(source, ParseStage.Variant, part, rest, start)
  {
    ResumeKind(source, ParseStage.Variant, part, rest, start);
  }

  /**
   * At the variant stage a part that is not a singleton is either a variant
   * (four bytes led by a digit, or five to eight alphanumerics) or ends the
   * iteration; either way the stage stays at variant and only that part is
   * consumed.
   */
  lemma {:induction false} VariantStep(source: Bytes, part: Bytes, rest: seq<Bytes>, start: nat)
    requires |part| != 1
    ensures var r := Resume(source, ParseStage.Variant, part, rest, start);
      (r.subtag.Some? <==> ((|part| == 4 && IsDigitLedVariant(part)) || (5 <= |part| <= 8 && AllAlphanumeric(part)))) &&
      (r.subtag.Some? ==> r.subtag.value == Subtag.Variant(part)) &&
      r.next.stage == ParseStage.Variant && r.next.parts == rest
  {
  }

  /**
   * At the variant stage a singleton opens a section: an 'x' opens a
   * private-use subtag and any other singleton an extension.
   */
  lemma {:induction false} SingletonStep(source: Bytes, part: Bytes, rest: seq<Bytes>, start: nat)
    requires |part| == 1
    ensures var r := Resume(source, ParseStage.Variant, part, rest, start);
      r.subtag.Some? ==>
        (r.subtag.value.Private? <==> part[0] == LOWER_X) &&
        (r.subtag.value.Extension? <==> part[0] != LOWER_X)
  {
    var stage := if part[0] == LOWER_X then ParseStage.Private else ParseStage.Extension;
    assert Resume(source, ParseStage.Variant, part, rest, start) == Resume(source, stage, part, rest, start);
  }

  /** The empty locale yields no subtag and leaves nothing to parse. */
  lemma {:induction false} EmptyLocale()
    ensures NextStep([], Start([])).subtag.None?
    ensures NextStep([], Start([])).next.parts == []
  {
    assert Split([]) == [[]];
  }

  /** The form of the parts a yielded subtag covers, kind by kind. */
  ghost predicate Covers(t: Subtag, used: seq<Bytes>) {
    match t
    case Language(tag) => used == [tag] && (|tag| == 2 || |tag| == 3)
    case Script(tag) => used == [tag] && |tag| == 4 && AllAlphabetic(tag)
    case Region(tag) => used == [tag] && ((|tag| == 2 && AllAlphabetic(tag)) || (|tag| == 3 && AllDigits(tag)))
    case Variant(tag) =>
      used == [tag] && ((|tag| == 4 && IsDigitLedVariant(tag)) || (5 <= |tag| <= 8 && AllAlphanumeric(tag)))
    case Extension(tag) =>
      |used| >= 1 && IsSingleton(used[0]) && AllExtensionParts(used[1..]) &&
      tag == Join(used)
    case Private(tag) =>
      |used| >= 1 && IsPrivateSingleton(used[0]) && AllPrivateParts(used[1..]) &&
      tag == Join(used)
  }

  /** The position is that of the first remaining part, and the rest of the source is those parts. */
  ghost predicate Aligned(source: Bytes, parts: seq<Bytes>, pos: nat) {
    parts != [] ==> pos <= |source| && source[pos..] == Join(parts)
  }

  /** Taking `m` parts is taking the head and `m - 1` parts of the tail. */
  lemma {:induction false} TakeCons(ps: seq<Bytes>, m: nat)
    requires 1 <= m <= |ps|
    ensures ps[..m] == [ps[0]] + ps[1..][..m - 1]
  {
  }

  /**
   * From an aligned state, a yielded subtag covers exactly the parts the
   * call consumed, in the form its kind requires (an extension is its
   * singleton and the run of 2-8 byte parts after it, and so on), and the
   * state stays aligned.
   */
  lemma {:induction false} AlignedStep(source: Bytes, c: Cursor)
    requires Aligned(source, c.parts, c.pos)
    requires NextStep(source, c).subtag.Some?
    ensures var r := NextStep(source, c);
      Covers(r.subtag.value, c.parts[..|c.parts| - |r.next.parts|]) && Aligned(source, r.next.parts, r.next.pos)
  {
    assert c.parts != [];
    HeadTail(c.parts);
    ResumeAligned(source, c.stage, c.parts[0], c.parts[1..], c.pos);
    ResultCovers(source, c.parts, NextStep(source, c));
  }

  lemma {:induction false} HeadTail(parts: seq<Bytes>)
    requires parts != []
    ensures parts == [parts[0]] + parts[1..]
  {
  }

  /** The aligned result of resuming on the head of `parts` covers a prefix of `parts`. */
  lemma {:induction false} ResultCovers(source: Bytes, parts: seq<Bytes>, r: Step)
    requires parts != [] && r.subtag.Some? && AlignedResult(source, parts[0], parts[1..], r)
    ensures Covers(r.subtag.value, parts[..|parts| - |r.next.parts|]) && Aligned(source, r.next.parts, r.next.pos)
  {
    TakeCons(parts, |parts| - |r.next.parts|);
  }

  /** A yielded subtag covers the consumed parts in the form of its kind, and the state stays aligned. */
  ghost predicate AlignedResult(source: Bytes, part: Bytes, rest: seq<Bytes>, r: Step) {
    r.subtag.Some? ==>
      |r.next.parts| <= |rest| &&
      Covers(r.subtag.value, [part] + rest[..|rest| - |r.next.parts|]) && Aligned(source, r.next.parts, r.next.pos)
  }

  lemma {:induction false} ResumeAligned(source: Bytes, stage: ParseStage, part: Bytes, rest: seq<Bytes>, start: nat)
    requires start <= |source| && source[start..] == Join([part] + rest)
    ensures AlignedResult(source, part, rest, Resume(source, stage, part, rest, start))
    decreases 5 - stage.Rank()
  {
    var a := Arm(source, stage, part, rest, start);
    if a.Return? {
      ArmAligned(source, stage, part, rest, start);
    } else {
      ResumeAligned(source, a.stage, part, rest, start);
    }
  }

  lemma {:induction false} ArmAligned(source: Bytes, stage: ParseStage, part: Bytes, rest: seq<Bytes>, start: nat)
    requires start <= |source| && source[start..] == Join([part] + rest)
    requires Arm(source, stage, part, rest, start).Return?
    ensures AlignedResult(source, part, rest, Arm(source, stage, part, rest, start).step)
  {
    match stage {
      case Language => LanguageAligned(source, part, rest, start);
      case Script => ScriptAligned(source, part, rest, start);
      case Region => RegionAligned(source, part, rest, start);
      case Variant => VariantAligned(source, part, rest, start);
      case Extension => ExtensionAligned(source, part, rest, start);
      case Private => PrivateAligned(source, part, rest, start);
    }
  }

  /** Language arm: a subtag is the part itself. */
  lemma {:induction false} LanguageAligned(source: Bytes, part: Bytes, rest: seq<Bytes>, start: nat)
    requires start <= |source| && source[start..] == Join([part] + rest)
    requires Arm(source, ParseStage.Language, part, rest, start).Return?
    ensures AlignedResult(source, part, rest, Arm(source, ParseStage.Language, part, rest, start).step)
  {
    SingleStepAligned(source, part, rest, start);
  }

  /** Script arm: a subtag is the part itself. */
  lemma {:induction false} ScriptAligned(source: Bytes, part: Bytes, rest: seq<Bytes>, start: nat)
    requires start <= |source| && source[start..] == Join([part] + rest)
    requires Arm(source, ParseStage.Script, part, rest, start).Return?
    ensures AlignedResult(source, part, rest, Arm(source, ParseStage.Script, part, rest, start).step)
  {
    SingleStepAligned(source, part, rest, start);
  }

  /** Region arm: a subtag is the part itself. */
  lemma {:induction false} RegionAligned(source: Bytes, part: Bytes, rest: seq<Bytes>, start: nat)
    requires start <= |source| && source[start..] == Join([part] + rest)
    requires Arm(source, ParseStage.Region, part, rest, start).Return?
    ensures AlignedResult(source, part, rest, Arm(source, ParseStage.Region, part, rest, start).step)
  {
    SingleStepAligned(source, part, rest, start);
  }

  /** Variant arm: a subtag is the part itself. */
  lemma {:induction false} VariantAligned(source: Bytes, part: Bytes, rest: seq<Bytes>, start: nat)
    requires start <= |source| && source[start..] == Join([part] + rest)
    requires Arm(source, ParseStage.Variant, part, rest, start).Return?
    ensures AlignedResult(source, part, rest, Arm(source, ParseStage.Variant, part, rest, start).step)
  {
    SingleStepAligned(source, part, rest, start);
  }

  /** Extension arm: the singleton and its run of 2-8 byte parts. */
  lemma {:induction false} ExtensionAligned(source: Bytes, part: Bytes, rest: seq<Bytes>, start: nat)
    requires start <= |source| && source[start..] == Join([part] + rest)
    ensures AlignedResult(source, part, rest, Arm(source, ParseStage.Extension, part, rest, start).step)
  {
    if |part| == 1 {
      var n := ExtensionRun(rest);
      var stage' := if n < |rest| && IsPrivateSingleton(rest[n]) then ParseStage.Private else ParseStage.Extension;
      if CloseSection(source, part, rest, n, start, stage', false).subtag.Some? {
        SectionAligned(source, part, rest, n, start, stage', false);
      }
      var used := [part] + rest[..n];
      ExtensionRunIsMaximal(rest);
      assert used[1..] == rest[..n];
    }
  }

  /** Private-use arm: the 'x' singleton and its run. */
  lemma {:induction false} PrivateAligned(source: Bytes, part: Bytes, rest: seq<Bytes>, start: nat)
    requires start <= |source| && source[start..] == Join([part] + rest)
    ensures AlignedResult(source, part, rest, Arm(source, ParseStage.Private, part, rest, start).step)
  {
    if IsPrivateSingleton(part) {
      var n := PrivateRun(rest);
      if CloseSection(source, part, rest, n, start, ParseStage.Private, true).subtag.Some? {
        SectionAligned(source, part, rest, n, start, ParseStage.Private, true);
      }
      var used := [part] + rest[..n];
      PrivateRunIsMaximal(rest);
      assert used[1..] == rest[..n];
    }
  }

  /** From an aligned singleton, a closed section is the join of the singleton and its run. */
  lemma {:induction false} SectionAligned(source: Bytes, part: Bytes, rest: seq<Bytes>, n: nat, start: nat,
                       stage: ParseStage, isPrivate: bool)
    requires start <= |source| && source[start..] == Join([part] + rest)
    requires n <= |rest|
    requires CloseSection(source, part, rest, n, start, stage, isPrivate).subtag.Some?
    ensures var r := CloseSection(source, part, rest, n, start, stage, isPrivate);
      r.subtag.value.tag == Join([part] + rest[..n]) && Aligned(source, rest[n..], r.next.pos) &&
      rest[..|rest| - |rest[n..]|] == rest[..n]
  {
    RunAligned(source, part, rest, n, start);
  }

  /** A subtag that is the part itself leaves the next part aligned. */
  lemma {:induction false} SingleStepAligned(source: Bytes, part: Bytes, rest: seq<Bytes>, start: nat)
    requires start <= |source| && source[start..] == Join([part] + rest)
    ensures rest[..0] == [] && [part] + rest[..|rest| - |rest|] == [part]
    ensures Aligned(source, rest, start + |part| + 1)
  {
    if rest != [] {
      assert ([part] + rest)[1..] == rest;
      assert source[start..] == part + [HYPHEN] + Join(rest);
      assert source[start + |part| + 1..] == source[start..][|part| + 1..];
    }
  }

  /**
   * A singleton at `start` followed by `n` run parts: the slice from the
   * singleton to the end of the run is their join, and the part after the
   * run is aligned one byte later.
   */
  lemma {:induction false} RunAligned(source: Bytes, part: Bytes, rest: seq<Bytes>, n: nat, start: nat)
    requires start <= |source| && source[start..] == Join([part] + rest)
    requires n <= |rest|
    ensures var used := [part] + rest[..n];
      var end := Min(start + |part| + 1 + Span(rest[..n]) - 1, |source|);
      end == start + |Join(used)| && source[start..end] == Join(used) &&
      Aligned(source, rest[n..], end + 1)
  {
    var used := [part] + rest[..n];
    var after := rest[n..];
    ConsSplit(part, rest, n);
    var j := Join(used);
    if after == [] {
      assert used == [part] + rest;
      assert j + [] + [] == j;
      SliceOfSuffix(source, start, j, [], []);
    } else {
      JoinAppend(used, after);
      SliceOfSuffix(source, start, j, [HYPHEN], Join(after));
    }
  }

  /** Splitting `[part] + rest` after `n` parts of `rest`. */
  lemma {:induction false} ConsSplit(part: Bytes, rest: seq<Bytes>, n: nat)
    requires n <= |rest|
    ensures ([part] + rest[..n]) + rest[n..] == [part] + rest
    ensures ([part] + rest[..n])[1..] == rest[..n]
  {
    assert rest[..n] + rest[n..] == rest;
  }

  /** Where the suffix of `s` at `start` is `a + b + c`, `a` and `c` sit at their offsets. */
  lemma {:induction false} SliceOfSuffix(s: Bytes, start: nat, a: Bytes, b: Bytes, c: Bytes)
    requires start <= |s| && s[start..] == a + b + c
    ensures s[start..start + |a|] == a && s[start + |a| + |b|..] == c
  {
    assert s[start..start + |a|] == s[start..][..|a|];
    assert s[start + |a| + |b|..] == s[start..][|a| + |b|..];
  }

  /**
   * Every subtag yielded from a state whose parts are those of the source
   * not yet taken is a contiguous slice of the source.
   */
  lemma {:induction false} TagIsSubstring(source: Bytes, c: Cursor, k: nat)
    requires k <= |Split(source)| && c.parts == Split(source)[k..]
    requires NextStep(source, c).subtag.Some?
    ensures IsSubstring(NextStep(source, c).subtag.value.tag, source)
  {
    var r := Resume(source, c.stage, c.parts[0], c.parts[1..], c.pos);
    assert NextStep(source, c) == r;
    var t := r.subtag.value.tag;
    if t == c.parts[0] {
      var parts := Split(source);
      PartInJoin(parts, k);
      JoinSplit(source);
      var i := Span(parts[..k]);
      assert source[i..i + |t|] == t;
    } else {
      assert source[c.pos..r.next.pos - 1] == t;
    }
  }

  // ---------------------------------------------------------------------------
  // The iterator
  // ---------------------------------------------------------------------------

  /** Iterator over the subtags of a locale. */
  class Subtags {
    const source: Bytes
    var stage: ParseStage
    var parts: seq<Bytes>
    var pos: nat
    /** Every part of the source, and how many of them have been taken. */
    ghost const allParts: seq<Bytes>
    ghost var consumed: nat

    /** The parts are those of the source, and the remaining ones are those not yet taken. */
    ghost predicate Valid()
      reads this
    {
      allParts == Split(source) && Tracking()
    }

    /** The remaining parts are those of `allParts` not yet taken. */
    ghost predicate Tracking()
      reads this
    {
      consumed <= |allParts| && parts == allParts[consumed..]
    }

    /** `subtags(locale)`: language stage, every part still to come, position 0. */
    constructor (locale: Bytes)
      ensures source == locale && allParts == Split(locale) && Cursor(stage, parts, pos) == Start(locale)
      ensures Valid() && Aligned(source, parts, pos)
    {
      source := locale;
      stage := ParseStage.Language;
      parts := Split(locale);
      pos := 0;
      allParts := Split(locale);
      consumed := 0;
      new;
      JoinSplit(locale);
    }

    /** The rest of the source from the current position, or "" when that is not a character boundary. */
    function Remainder(): (r: Bytes)
      reads this
      ensures |r| <= |source| && r == source[|source| - |r|..]
      ensures IsCharBoundary(source, pos) ==> r == source[pos..]
      ensures !IsCharBoundary(source, pos) ==> r == []
    {
      match GetFrom(source, pos)
      case Some(tail) => tail
      case None => []
    }

    /** `next`: takes the next part and runs the stage loop on it; None once the parts are exhausted. */
    method Next() returns (r: Option<Subtag>)
      requires Valid()
      modifies this
      ensures Valid() && old(consumed) <= consumed
      ensures Step(r, Cursor(stage, parts, pos)) == NextStep(source, Cursor(old(stage), old(parts), old(pos)))
      ensures r.Some? ==> IsSubstring(r.value.tag, source)
    {
      if parts == [] {
        return None;
      }
      ghost var before := Cursor(stage, parts, pos);
      ghost var taken := consumed;
      var part := parts[0];
      DropOne(allParts, consumed);
      parts := parts[1..];
      consumed := consumed + 1;
      r := ParsePart(part);
      if r.Some? {
        TagIsSubstring(source, before, taken);
      }
    }

    /**
     * The `loop` of `next` for `part`, the part just taken, which starts at
     * the current position: each stage either returns or hands the part on
     * to a later stage.
     */
    method ParsePart(part: Bytes) returns (r: Option<Subtag>)
      requires Valid()
      modifies this
      ensures Valid() && old(consumed) <= consumed
      ensures Step(r, Cursor(stage, parts, pos)) == Resume(source, old(stage), part, old(parts), old(pos))
    {
      ghost var goal := Resume(source, stage, part, parts, pos);
      while true
        invariant Valid() && old(consumed) == consumed && old(parts) == parts && old(pos) == pos
        invariant Resume(source, stage, part, parts, pos) == goal
        decreases 5 - stage.Rank()
      {
        var done;
        done, r := RunArm(part);
        if done {
          return;
        }
      }
    }

    /**
     * One pass of the body of that `loop`: the arm of the current stage
     * either returns (`done`) or moves the stage on, leaving the parts and
     * the position as they were.
     */
    method RunArm(part: Bytes) returns (done: bool, r: Option<Subtag>)
      requires Valid()
      modifies this
      ensures Valid() && old(consumed) <= consumed
      ensures var a := Arm(source, old(stage), part, old(parts), old(pos));
        if done then a.Return? && Step(r, Cursor(stage, parts, pos)) == a.step
        else a.FallThrough? && stage == a.stage && parts == old(parts) && pos == old(pos) && consumed == old(consumed)
    {
      var partLen := |part|;
      done := true;
      match stage {
        case Language =>
          stage := ParseStage.Script;
          if partLen == 2 || partLen == 3 {
            pos := pos + partLen + 1;
            return true, Some(Subtag.Language(part));
          }
          return true, None;
        case Script =>
          stage := ParseStage.Region;
          if partLen == 4 && AllAlphabetic(part) {
            pos := pos + partLen + 1;
            return true, Some(Subtag.Script(part));
          }
          return false, None;
        case Region =>
          stage := ParseStage.Variant;
          if partLen == 2 {
            if AllAlphabetic(part) {
              pos := pos + partLen + 1;
              return true, Some(Subtag.Region(part));
            }
          } else if partLen == 3 {
            if AllDigits(part) {
              pos := pos + partLen + 1;
              return true, Some(Subtag.Region(part));
            }
          }
          return false, None;
        case Variant =>
          if partLen == 4 {
            if IsDigitLedVariant(part) {
              pos := pos + partLen + 1;
              return true, Some(Subtag.Variant(part));
            }
            return true, None;
          } else if 5 <= partLen <= 8 {
            if AllAlphanumeric(part) {
              pos := pos + partLen + 1;
              return true, Some(Subtag.Variant(part));
            }
            return true, None;
          } else if partLen == 1 {
            stage := if part[0] == LOWER_X then ParseStage.Private else ParseStage.Extension;
            return false, None;
          }
          return true, None;
        case Extension =>
          if partLen != 1 {
            return true, None;
          }
          r := CloseExtension(part);
        case Private =>
          if partLen != 1 || part[0] != LOWER_X {
            return true, None;
          }
          r := ClosePrivate(part);
      }
    }

    /**
     * The extension arm for the singleton `part` at the current position:
     * after `ScanExtension` has taken the run of parts that follows it, the
     * subtag is the source slice from the singleton to the end of the run.
     */
    method CloseExtension(part: Bytes) returns (r: Option<Subtag>)
      requires Tracking() && |part| == 1 && stage == ParseStage.Extension
      modifies this
      ensures Tracking() && old(consumed) <= consumed
      ensures var n := ExtensionRun(old(parts));
        var stage' := if n < |old(parts)| && IsPrivateSingleton(old(parts)[n]) then ParseStage.Private else ParseStage.Extension;
        Step(r, Cursor(stage, parts, pos)) == CloseSection(source, part, old(parts), n, old(pos), stage', false)
    {
      ghost var before := parts;
      ghost var n := ExtensionRun(before);
      var start := pos;
      var end := ScanExtension(start + |part| + 1);
      end := Min(end - 1, |source|);
      assert end == Min(start + |part| + 1 + Span(before[..n]) - 1, |source|);
      var tag := Get(source, start, end);
      if tag.None? {
        return None;
      }
      pos := end + 1;
      return Some(Subtag.Extension(tag.value));
    }

    /**
     * The `while let Some(subpart) = self.parts.peek()` loop of the extension
     * arm: it consumes the run of 2-8 byte parts, adding each one's length and
     * separator to `end`, and stops at anything else, switching to private use
     * when that is an 'x' singleton.
     */
    method ScanExtension(end0: nat) returns (end: nat)
      requires consumed <= |allParts| && parts == allParts[consumed..] && stage == ParseStage.Extension
      modifies this
      ensures consumed <= |allParts| && parts == allParts[consumed..] && old(consumed) <= consumed && pos == old(pos)
      ensures var n := ExtensionRun(old(parts));
        parts == old(parts)[n..] && end == end0 + Span(old(parts)[..n]) &&
        stage == (if n < |old(parts)| && IsPrivateSingleton(old(parts)[n]) then ParseStage.Private else ParseStage.Extension)
    {
      end := end0;
      ghost var rest := parts;
      ghost var k := 0;
      while parts != []
        invariant consumed <= |allParts| && parts == allParts[consumed..] && old(consumed) <= consumed
        invariant k <= |rest| && parts == rest[k..]
        invariant ExtensionRun(rest) == k + ExtensionRun(parts)
        invariant end == end0 + Span(rest[..k])
        invariant stage == ParseStage.Extension && pos == old(pos)
        decreases |parts|
      {
        var subpart := parts[0];
        var subLen := |subpart|;
        if 2 <= subLen <= 8 {
          DropOne(allParts, consumed);
          DropOne(rest, k);
          SpanSnoc(rest, k);
          parts := parts[1..];
          consumed := consumed + 1;
          end := end + subLen + 1;
          k := k + 1;
        } else if subLen == 1 {
          assert ExtensionRun(parts) == 0;
          if subpart[0] == LOWER_X {
            stage := ParseStage.Private;
          }
          break;
        } else {
          assert ExtensionRun(parts) == 0;
          break;
        }
      }
      assert k == ExtensionRun(rest);
    }

    /**
     * The private-use arm for the 'x' singleton `part` at the current
     * position: after `ScanPrivate` has taken the run of parts that follows
     * it, the subtag is the source slice from the singleton to the end of
     * the run.
     */
    method ClosePrivate(part: Bytes) returns (r: Option<Subtag>)
      requires Tracking() && IsPrivateSingleton(part) && stage == ParseStage.Private
      modifies this
      ensures Tracking() && old(consumed) <= consumed
      ensures Step(r, Cursor(stage, parts, pos)) ==
        CloseSection(source, part, old(parts), PrivateRun(old(parts)), old(pos), ParseStage.Private, true)
    {
      ghost var before := parts;
      ghost var n := PrivateRun(before);
      var start := pos;
      var end := ScanPrivate(start + |part| + 1);
      end := Min(end - 1, |source|);
      assert end == Min(start + |part| + 1 + Span(before[..n]) - 1, |source|);
      var tag := Get(source, start, end);
      if tag.None? {
        return None;
      }
      pos := end + 1;
      return Some(Subtag.Private(tag.value));
    }

    /**
     * The `while let Some(subpart) = self.parts.peek()` loop of the
     * private-use arm: it consumes the run of parts of 2-8 bytes or of one
     * byte other than 'x', adding each one's length and separator to `end`.
     */
    method ScanPrivate(end0: nat) returns (end: nat)
      requires consumed <= |allParts| && parts == allParts[consumed..]
      modifies this
      ensures consumed <= |allParts| && parts == allParts[consumed..] && old(consumed) <= consumed && pos == old(pos) && stage == old(stage)
      ensures var n := PrivateRun(old(parts));
        parts == old(parts)[n..] && end == end0 + Span(old(parts)[..n])
    {
      end := end0;
      ghost var rest := parts;
      ghost var k := 0;
      while parts != []
        invariant consumed <= |allParts| && parts == allParts[consumed..] && old(consumed) <= consumed
        invariant k <= |rest| && parts == rest[k..]
        invariant PrivateRun(rest) == k + PrivateRun(parts)
        invariant end == end0 + Span(rest[..k])
        invariant stage == old(stage) && pos == old(pos)
        decreases |parts|
      {
        var subpart := parts[0];
        var subLen := |subpart|;
        if 2 <= subLen <= 8 || (subLen == 1 && subpart[0] != LOWER_X) {
          DropOne(allParts, consumed);
          DropOne(rest, k);
          SpanSnoc(rest, k);
          parts := parts[1..];
          consumed := consumed + 1;
          end := end + subLen + 1;
          k := k + 1;
        } else {
          assert PrivateRun(parts) == 0;
          break;
        }
      }
      assert k == PrivateRun(rest);
    }
  }
}
