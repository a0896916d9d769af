/**
 * The augmented kind `Syntax2D<S>`: a caller's kind type `S` extended with the
 * three structural markers Indent, Dedent and Newline, and its encoding into
 * the 32-bit raw kind space of the tree library. The markers take the three
 * highest raw values; every other raw value belongs to the caller's kind type.
 *
 * Both copies of this code (src/lib.rs and cstree2d/src/syntax.rs) are the
 * same, and this module models both.
 */
module Syntax {

  datatype Option<+T> = None | Some(value: T)

  /** `u32::MAX` */
  const U32_MAX: nat := 0xFFFF_FFFF

  /** A raw kind: the `u32` inside `RawSyntaxKind`. */
  type RawKind = x: nat | x <= U32_MAX

  const INDENT_RAW: RawKind := U32_MAX - 2
  const DEDENT_RAW: RawKind := U32_MAX - 1
  const NEWLINE_RAW: RawKind := U32_MAX

  datatype Syntax2D<S> = Indent | Dedent | Newline | Token(inner: S)
  {
    predicate IsMarker() { !Token? }
  }

  /**
   * The caller's implementation of the `Syntax` trait for its own kind type:
   * `from_raw` may panic outside the caller's domain, so it is a partial
   * function; `into_raw` and `static_text` are total.
   */
  datatype InnerSyntax<!S> = InnerSyntax(
    fromRaw: RawKind --> S,
    intoRaw: S -> RawKind,
    staticText: S -> Option<string>)

  /** The caller's encodings stay strictly below the reserved region. */
  ghost predicate BelowMarkers<S(!new)>(sy: InnerSyntax<S>)
  {
    forall s :: sy.intoRaw(s) < INDENT_RAW
  }

  /** The caller's decoder accepts every encoding and inverts it. */
  ghost predicate InnerRoundTrips<S(!new)>(sy: InnerSyntax<S>)
  {
    forall s :: sy.fromRaw.requires(sy.intoRaw(s)) && sy.fromRaw(sy.intoRaw(s)) == s
  }

  /** The caller's encoder inverts its decoder wherever the decoder is defined. */
  ghost predicate InnerDecodeRoundTrips<S>(sy: InnerSyntax<S>)
  {
    forall r: RawKind :: sy.fromRaw.requires(r) ==> sy.intoRaw(sy.fromRaw(r)) == r
  }

  /** What `from_raw` needs of a raw value: the caller's decoder must accept it unless it is a marker. */
  ghost predicate Decodes<S>(sy: InnerSyntax<S>, raw: RawKind)
  {
    raw < INDENT_RAW ==> sy.fromRaw.requires(raw)
  }

  /** One caller kind encodes below the markers and its encoding decodes back to it. */
  ghost predicate InnerKindRoundTrips<S>(sy: InnerSyntax<S>, s: S)
  {
    && sy.intoRaw(s) < INDENT_RAW
    && sy.fromRaw.requires(sy.intoRaw(s))
    && sy.fromRaw(sy.intoRaw(s)) == s
  }

  /** `Syntax2D::from_raw` */
  function FromRaw<S>(sy: InnerSyntax<S>, raw: RawKind): (k: Syntax2D<S>)
    requires Decodes(sy, raw)
    ensures k.Indent? <==> raw == INDENT_RAW
    ensures k.Dedent? <==> raw == DEDENT_RAW
    ensures k.Newline? <==> raw == NEWLINE_RAW
    ensures k.Token? <==> raw < INDENT_RAW
    ensures k.Token? ==> k.inner == sy.fromRaw(raw)
  {
    if raw == INDENT_RAW then Indent
    else if raw == DEDENT_RAW then Dedent
    else if raw == NEWLINE_RAW then Newline
    else Token(sy.fromRaw(raw))
  }

  /** `Syntax2D::into_raw` */
  function IntoRaw<S>(sy: InnerSyntax<S>, k: Syntax2D<S>): (raw: RawKind)
    ensures k.Indent? ==> raw == INDENT_RAW
    ensures k.Dedent? ==> raw == DEDENT_RAW
    ensures k.Newline? ==> raw == NEWLINE_RAW
    ensures k.Token? ==> raw == sy.intoRaw(k.inner)
  {
    match k
    case Indent => INDENT_RAW
    case Dedent => DEDENT_RAW
    case Newline => NEWLINE_RAW
    case Token(s) => sy.intoRaw(s)
  }

  /** `Syntax2D::static_text`: markers have no fixed text; a caller kind has its own. */
  function StaticText<S>(sy: InnerSyntax<S>, k: Syntax2D<S>): (t: Option<string>)
    ensures k.IsMarker() ==> t == None
    ensures k.Token? ==> t == sy.staticText(k.inner)
  {
    match k
    case Token(s) => sy.staticText(s)
    case _ => None
  }

  /** `From<S> for Syntax2D<S>` */
  function FromInner<S(!new)>(sy: InnerSyntax<S>, s: S): (k: Syntax2D<S>)
    ensures k.Token? && k.inner == s
    ensures BelowMarkers(sy) ==> IntoRaw(sy, k) < INDENT_RAW
  {
    Token(s)
  }

  /** A kind the caller's encoding keeps clear of the markers never encodes to a marker value. */
  lemma TokenNeverEncodesMarker<S(!new)>(sy: InnerSyntax<S>, s: S)
    requires BelowMarkers(sy)
    ensures IntoRaw(sy, Token(s)) !in {INDENT_RAW, DEDENT_RAW, NEWLINE_RAW}
  {
    assert sy.intoRaw(s) < INDENT_RAW;
  }

  /** Every encoded kind can be decoded again. */
  lemma EncodedDecodes<S(!new)>(sy: InnerSyntax<S>, k: Syntax2D<S>)
    requires InnerRoundTrips(sy)
    ensures Decodes(sy, IntoRaw(sy, k))
  {
    if k.Token? {
      assert sy.fromRaw.requires(sy.intoRaw(k.inner));
    }
  }

  /**
   * `from_raw(into_raw(k)) == k` for every marker, unconditionally, and for
   * `Token(s)` whenever the caller encodes `s` below the markers and decodes
   * that encoding back to `s`.
   */
  lemma FromRawIntoRaw<S>(sy: InnerSyntax<S>, k: Syntax2D<S>)
    requires k.Token? ==> InnerKindRoundTrips(sy, k.inner)
    ensures Decodes(sy, IntoRaw(sy, k))
    ensures FromRaw(sy, IntoRaw(sy, k)) == k
  {
  }

  /** `into_raw(from_raw(raw)) == raw` for every raw value the decoder accepts. */
  lemma IntoRawFromRaw<S>(sy: InnerSyntax<S>, raw: RawKind)
    requires InnerDecodeRoundTrips(sy)
    requires Decodes(sy, raw)
    ensures IntoRaw(sy, FromRaw(sy, raw)) == raw
  {
    if raw < INDENT_RAW {
      assert sy.intoRaw(sy.fromRaw(raw)) == raw;
    }
  }

  /** With the caller's kinds kept below the markers, the encoding is injective. */
  lemma IntoRawInjective<S(!new)>(sy: InnerSyntax<S>, k1: Syntax2D<S>, k2: Syntax2D<S>)
    requires BelowMarkers(sy) && InnerRoundTrips(sy)
    requires IntoRaw(sy, k1) == IntoRaw(sy, k2)
    ensures k1 == k2
  {
    FromRawIntoRaw(sy, k1);
    FromRawIntoRaw(sy, k2);
  }

  /**
   * A kind read back from its raw encoding keeps its static text: the markers
   * still have none, and a caller kind still has the caller's.
   */
  lemma StaticTextSurvivesEncoding<S(!new)>(sy: InnerSyntax<S>, k: Syntax2D<S>)
    requires BelowMarkers(sy) && InnerRoundTrips(sy)
    ensures Decodes(sy, IntoRaw(sy, k))
    ensures StaticText(sy, FromRaw(sy, IntoRaw(sy, k))) == StaticText(sy, k)
  {
    FromRawIntoRaw(sy, k);
  }

  /** The static text a raw kind decodes to: none in the reserved region, the caller's below it. */
  lemma StaticTextOfRaw<S>(sy: InnerSyntax<S>, raw: RawKind)
    requires Decodes(sy, raw)
    ensures raw >= INDENT_RAW ==> StaticText(sy, FromRaw(sy, raw)) == None
    ensures raw < INDENT_RAW ==> StaticText(sy, FromRaw(sy, raw)) == sy.staticText(sy.fromRaw(raw))
  {
  }
}
