/** The older .NET configuration resolver. Every field of its records is
    nullable (None), a string field overrides only when it is neither null nor
    whitespace, the font size overrides whenever it has a value, and the print
    options are replaced as a whole. Sources themselves are non-null. */
module ConfigCs {
  import opened Text

  datatype PrintOptions = PrintOptions(pageMarginMm: Option<real>, blackOnWhite: Option<bool>)

  datatype TypographyConfig = TypographyConfig(
    baseFontFamily: Option<string>,
    baseFontSizePt: Option<real>,
    headingScale: Option<seq<real>>,
    printOptions: Option<PrintOptions>)

  datatype BibliographyConfig = BibliographyConfig(
    style: Option<string>,
    sortBy: Option<string>,
    groupBy: Option<string>)

  /** `new TypographyConfig()` / `new BibliographyConfig()`: every property null. */
  const EmptyTypography := TypographyConfig(None, None, None, None)
  const EmptyBibliography := BibliographyConfig(None, None, None)

  /** An IConfigurationSource: each getter may return null. */
  datatype Source = Source(typography: Option<TypographyConfig>, bibliography: Option<BibliographyConfig>)

  /** Whether a fragment's value of a field overrides what lies below it. */
  predicate Overrides(f: TypographyField, t: TypographyConfig) {
    match f
    case BaseFontFamily => !IsNullOrWhiteSpace(t.baseFontFamily)
    case BaseFontSizePt => t.baseFontSizePt.Some?
    case HeadingScale => t.headingScale.Some? && |t.headingScale.value| > 0
    case Print => t.printOptions.Some?
  }

  datatype TypographyField = BaseFontFamily | BaseFontSizePt | HeadingScale | Print

  datatype FieldValue = StringValue(s: Option<string>) | RealValue(r: Option<real>)
                      | ScaleValue(scale: Option<seq<real>>) | PrintValue(p: Option<PrintOptions>)

  function TypographyValue(f: TypographyField, t: TypographyConfig): FieldValue {
    match f
    case BaseFontFamily => StringValue(t.baseFontFamily)
    case BaseFontSizePt => RealValue(t.baseFontSizePt)
    case HeadingScale => ScaleValue(t.headingScale)
    case Print => PrintValue(t.printOptions)
  }

  /** One iteration of the typography loop. */
  function MergeTypography(acc: TypographyConfig, t: TypographyConfig): TypographyConfig {
    TypographyConfig(
      if !IsNullOrWhiteSpace(t.baseFontFamily) then t.baseFontFamily else acc.baseFontFamily,
      if t.baseFontSizePt.Some? then t.baseFontSizePt else acc.baseFontSizePt,
      if t.headingScale.Some? && |t.headingScale.value| > 0 then t.headingScale else acc.headingScale,
      if t.printOptions.Some? then t.printOptions else acc.printOptions)
  }

  function EffectiveTypography(sources: seq<Source>): TypographyConfig {
    if sources == [] then EmptyTypography
    else match sources[0].typography
      case None => EffectiveTypography(sources[1..])
      case Some(t) => MergeTypography(EffectiveTypography(sources[1..]), t)
  }

  /** The fragment of the first source whose value of `f` overrides. */
  function FirstTypographySetting(sources: seq<Source>, f: TypographyField): (r: Option<TypographyConfig>)
    ensures r.Some? ==> Overrides(f, r.value)
  {
    if sources == [] then None
    else if sources[0].typography.Some? && Overrides(f, sources[0].typography.value) then
      sources[0].typography
    else FirstTypographySetting(sources[1..], f)
  }

  /** Precedence: each field comes from the first source that overrides it, and
      stays null when none does. */
  lemma {:induction false} TypographyPrecedence(sources: seq<Source>, f: TypographyField)
    ensures TypographyValue(f, EffectiveTypography(sources)) ==
      match FirstTypographySetting(sources, f)
      case Some(t) => TypographyValue(f, t)
      case None => TypographyValue(f, EmptyTypography)
  {
    if sources != [] {
      TypographyPrecedence(sources[1..], f);
    }
  }

  /** A blank family never erases a family set lower down. */
  lemma BlankFamilyKeepsLower(sources: seq<Source>, t: TypographyConfig)
    requires t.baseFontFamily.Some? && AllSpace(t.baseFontFamily.value)
    ensures EffectiveTypography([Source(Some(t), None)] + sources).baseFontFamily
      == EffectiveTypography(sources).baseFontFamily
  {
    assert ([Source(Some(t), None)] + sources)[1..] == sources;
  }

  /** A font size of zero or below still overrides, unlike in the C++ resolver. */
  lemma AnySizeOverrides(sources: seq<Source>, t: TypographyConfig, size: real)
    requires t.baseFontSizePt == Some(size)
    ensures EffectiveTypography([Source(Some(t), None)] + sources).baseFontSizePt == Some(size)
  {
    assert ([Source(Some(t), None)] + sources)[1..] == sources;
  }

  function MergeBibliography(acc: BibliographyConfig, b: BibliographyConfig): BibliographyConfig {
    BibliographyConfig(
      if !IsNullOrWhiteSpace(b.style) then b.style else acc.style,
      if !IsNullOrWhiteSpace(b.sortBy) then b.sortBy else acc.sortBy,
      if !IsNullOrWhiteSpace(b.groupBy) then b.groupBy else acc.groupBy)
  }

  function EffectiveBibliography(sources: seq<Source>): BibliographyConfig {
    if sources == [] then EmptyBibliography
    else match sources[0].bibliography
      case None => EffectiveBibliography(sources[1..])
      case Some(b) => MergeBibliography(EffectiveBibliography(sources[1..]), b)
  }

  datatype BibliographyField = Style | SortBy | GroupBy

  function BibliographyValue(f: BibliographyField, b: BibliographyConfig): Option<string> {
    match f
    case Style => b.style
    case SortBy => b.sortBy
    case GroupBy => b.groupBy
  }

  /** The first value of `f` that is neither null nor whitespace. */
  function FirstBibliographySetting(sources: seq<Source>, f: BibliographyField): (r: Option<string>)
    ensures r.Some? ==> !AllSpace(r.value)
  {
    if sources == [] then None
    else if sources[0].bibliography.Some?
      && !IsNullOrWhiteSpace(BibliographyValue(f, sources[0].bibliography.value)) then
      BibliographyValue(f, sources[0].bibliography.value)
    else FirstBibliographySetting(sources[1..], f)
  }

  /** Precedence: each bibliography field is the first non-blank value in list
      order, and null when there is none. */
  lemma {:induction false} BibliographyPrecedence(sources: seq<Source>, f: BibliographyField)
    ensures BibliographyValue(f, EffectiveBibliography(sources)) == FirstBibliographySetting(sources, f)
  {
    if sources != [] {
      BibliographyPrecedence(sources[1..], f);
    }
  }

  class CompositeConfigurationResolver {
    const sources: seq<Source>

    constructor (sources: seq<Source>)
      ensures this.sources == sources
    {
      this.sources := sources;
    }

    /** GetEffectiveTypography: from the last source to the first, skipping null
        fragments. */
    method GetEffectiveTypography() returns (result: TypographyConfig)
      ensures result == EffectiveTypography(sources)
    {
      result := EmptyTypography;
      var i := |sources|;
      while i > 0
        invariant 0 <= i <= |sources|
        invariant result == EffectiveTypography(sources[i..])
      {
        i := i - 1;
        assert sources[i..][1..] == sources[i + 1..];
        var layer := sources[i].typography;
        if layer.Some? {
          var t := layer.value;
          if !IsNullOrWhiteSpace(t.baseFontFamily) {
            result := result.(baseFontFamily := t.baseFontFamily);
          }
          if t.baseFontSizePt.Some? {
            result := result.(baseFontSizePt := t.baseFontSizePt);
          }
          if t.headingScale.Some? && |t.headingScale.value| > 0 {
            result := result.(headingScale := t.headingScale);
          }
          if t.printOptions.Some? {
            result := result.(printOptions := t.printOptions);
          }
        }
      }
    }

    /** GetEffectiveBibliography */
    method GetEffectiveBibliography() returns (result: BibliographyConfig)
      ensures result == EffectiveBibliography(sources)
    {
      result := EmptyBibliography;
      var i := |sources|;
      while i > 0
        invariant 0 <= i <= |sources|
        invariant result == EffectiveBibliography(sources[i..])
      {
        i := i - 1;
        assert sources[i..][1..] == sources[i + 1..];
        var layer := sources[i].bibliography;
        if layer.Some? {
          var b := layer.value;
          if !IsNullOrWhiteSpace(b.style) {
            result := result.(style := b.style);
          }
          if !IsNullOrWhiteSpace(b.sortBy) {
            result := result.(sortBy := b.sortBy);
          }
          if !IsNullOrWhiteSpace(b.groupBy) {
            result := result.(groupBy := b.groupBy);
          }
        }
      }
    }
  }

  function BibliographySource(style: Option<string>, sortBy: Option<string>, groupBy: Option<string>): Source {
    Source(None, Some(BibliographyConfig(style, sortBy, groupBy)))
  }

  /** The documented examples: session font over user size over system; a
      system layer alone leaves groupBy null; user style and session sort order
      over the system's. */
  lemma Examples()
    ensures var layers := [
      Source(Some(EmptyTypography.(baseFontFamily := Some("SessionFont"))), None),
      Source(Some(EmptyTypography.(baseFontSizePt := Some(14.0))), None),
      Source(Some(EmptyTypography.(baseFontFamily := Some("SystemFont"), baseFontSizePt := Some(12.0))), None)];
      EffectiveTypography(layers).baseFontFamily == Some("SessionFont")
      && EffectiveTypography(layers).baseFontSizePt == Some(14.0)
    ensures EffectiveBibliography([BibliographySource(Some("APA"), Some("author"), None)])
      == BibliographyConfig(Some("APA"), Some("author"), None)
    ensures var layers := [
      BibliographySource(None, Some("year"), None),
      BibliographySource(Some("CMS"), None, None),
      BibliographySource(Some("APA"), Some("author"), None)];
      EffectiveBibliography(layers).style == Some("CMS")
      && EffectiveBibliography(layers).sortBy == Some("year")
  {
    assert !AllSpace("SessionFont") by { assert !IsSpace("SessionFont"[0]); }
    assert !AllSpace("SystemFont") by { assert !IsSpace("SystemFont"[0]); }
    assert !AllSpace("APA") by { assert !IsSpace("APA"[0]); }
    assert !AllSpace("author") by { assert !IsSpace("author"[0]); }
    assert !AllSpace("CMS") by { assert !IsSpace("CMS"[0]); }
    assert !AllSpace("year") by { assert !IsSpace("year"[0]); }
  }
}
