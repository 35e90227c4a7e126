/**
 * The character vocabulary of the cluster parser (src/cluster/char.rs):
 * `SourceChar` is what the parser consumes, `Char` what it produces, and
 * `ShapeClass` the totally ordered shaping class of an output character.
 */
module ClusterChar {
  import opened Options
  import Unicode
  import Info

  /** Arbitrary user data carried along with a character (`UserData = u32`). */
  type UserData = uint32

  /** Shaping class of a character, ordered by declaration. */
  datatype ShapeClass =
    | Reph | Pref | Kinzi | Base | Mark | Halant | MedialRa | VmPre | VPre
    | VBlw | Anusvara | Zwj | Zwnj | Control | Vs | Other
  {
    /** The discriminant (`self as u8`), which the derived ordering compares. */
    function Rank(): (n: nat)
      ensures n < 16
    {
      match this
      case Reph => 0     case Pref => 1    case Kinzi => 2    case Base => 3
      case Mark => 4     case Halant => 5  case MedialRa => 6 case VmPre => 7
      case VPre => 8     case VBlw => 9    case Anusvara => 10 case Zwj => 11
      case Zwnj => 12    case Control => 13 case Vs => 14    case Other => 15
    }
  }

  /** The derived `Ord` of `ShapeClass`: declaration order. */
  predicate Less(a: ShapeClass, b: ShapeClass): (r: bool)
    ensures r ==> a != b
  {
    a.Rank() < b.Rank()
  }

  /** Distinct classes have distinct ranks, so `Less` is a strict total order. */
  lemma RankInjective(a: ShapeClass, b: ShapeClass)
    ensures a.Rank() == b.Rank() <==> a == b
  {
  }

  /** Any two classes are comparable, and exactly one of the three cases holds. */
  lemma LessTotal(a: ShapeClass, b: ShapeClass)
    ensures Less(a, b) || a == b || Less(b, a)
    ensures !(Less(a, b) && Less(b, a)) && !Less(a, a)
  {
    RankInjective(a, b);
  }

  /** `Less` is transitive. */
  lemma LessTransitive(a: ShapeClass, b: ShapeClass, c: ShapeClass)
    requires Less(a, b) && Less(b, c)
    ensures Less(a, c)
  {
  }

  /** The declared order, link by link. */
  lemma DeclarationOrder()
    ensures Less(Reph, Pref) && Less(Pref, Kinzi) && Less(Kinzi, Base) && Less(Base, Mark)
    ensures Less(Mark, Halant) && Less(Halant, MedialRa) && Less(MedialRa, VmPre)
    ensures Less(VmPre, VPre) && Less(VPre, VBlw) && Less(VBlw, Anusvara)
    ensures Less(Anusvara, Zwj) && Less(Zwj, Zwnj) && Less(Zwnj, Control)
    ensures Less(Control, Vs) && Less(Vs, Other)
  {
  }

  /** `ShapeClass::default()`. */
  function DefaultShapeClass(): (s: ShapeClass)
    ensures s == Base
    ensures forall t: ShapeClass :: Less(t, s) <==> t in {Reph, Pref, Kinzi}
  {
    Base
  }

  /** Character output from the cluster parser. */
  datatype Char = Char(
    ch: char,
    offset: nat,
    shapeClass: ShapeClass,
    joiningType: Unicode.JoiningType,
    ignorable: bool,
    contributesToShaping: bool,
    glyphId: uint32,
    data: UserData)

  /** `Char::default()`: a NUL base character that joins nothing and takes part in shaping. */
  function DefaultChar(): (c: Char)
    ensures c.ch == '\0' && c.offset == 0 && c.data == 0 && c.glyphId == 0
    ensures c.shapeClass == DefaultShapeClass() && c.joiningType == Unicode.JoiningType.U
    ensures !c.ignorable && c.contributesToShaping
  {
    Char('\0', 0, Base, Unicode.JoiningType.U, false, true, 0, 0)
  }

  /** Character input to the cluster parser. */
  datatype SourceChar = SourceChar(
    ch: char,
    offset: nat,
    len: uint8,
    info: Info.CharInfo,
    data: UserData)

  /**
   * `SourceChar::default()`: a one-unit NUL character with the default
   * character information, which is no boundary of either kind.
   */
  function DefaultSourceChar(): (c: SourceChar)
    ensures c.ch == '\0' && c.offset == 0 && c.len == 1 && c.data == 0
    ensures c.info == Info.DefaultCharInfo()
    ensures !c.info.IsWordBoundary() && c.info.LineBoundary() == 0
    ensures c.info.props.RecordIndex() == 0
  {
    SourceChar('\0', 0, 1, Info.DefaultCharInfo(), 0)
  }
}
