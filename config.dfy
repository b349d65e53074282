/** The layered configuration resolver of the C++ core: an ordered list of
    configuration sources (highest precedence first: session, user profile,
    corpus, system) is folded, from the last to the first, into one effective
    typography record and one effective bibliography record. */
module Config {
  import opened Text

  datatype PrintOptions = PrintOptions(pageMarginMm: real, blackOnWhite: bool)

  datatype TypographyConfig = TypographyConfig(
    baseFontFamily: string,
    baseFontSizePt: real,
    headingScale: seq<real>,
    printOptions: PrintOptions)

  datatype BibliographyConfig = BibliographyConfig(style: string, sortBy: string, groupBy: string)

  /** The records as default-constructed: empty strings, 0.0, an empty list, false. */
  const DefaultTypography := TypographyConfig("", 0.0, [], PrintOptions(0.0, false))
  const DefaultBibliography := BibliographyConfig("", "", "")

  /** A ConfigurationSource: each getter may return a null fragment (None). */
  datatype Source = Source(typography: Option<TypographyConfig>, bibliography: Option<BibliographyConfig>)

  /** An element of the source list, which may itself be null. */
  type Layer = Option<Source>

  function TypographyOf(layer: Layer): Option<TypographyConfig> {
    if layer.Some? then layer.value.typography else None
  }

  function BibliographyOf(layer: Layer): Option<BibliographyConfig> {
    if layer.Some? then layer.value.bibliography else None
  }

  // ---------------------------------------------------------------------------
  // Typography

  /** One iteration of the typography loop: the fragment `t` laid over `acc`. */
  function MergeTypography(acc: TypographyConfig, t: TypographyConfig): TypographyConfig {
    acc.(
      baseFontFamily := if t.baseFontFamily != "" then t.baseFontFamily else acc.baseFontFamily,
      baseFontSizePt := if t.baseFontSizePt > 0.0 then t.baseFontSizePt else acc.baseFontSizePt,
      headingScale := if t.headingScale != [] then t.headingScale else acc.headingScale,
      printOptions := PrintOptions(
        if t.printOptions.pageMarginMm > 0.0 then t.printOptions.pageMarginMm
        else acc.printOptions.pageMarginMm,
        t.printOptions.blackOnWhite))
  }

  /** The effective typography of a list of layers: the tail is resolved first
      and the head laid over it, so the head has the last word. */
  function EffectiveTypography(layers: seq<Layer>): TypographyConfig {
    if layers == [] then DefaultTypography
    else match TypographyOf(layers[0])
      case None => EffectiveTypography(layers[1..])
      case Some(t) => MergeTypography(EffectiveTypography(layers[1..]), t)
  }

  datatype TypographyField = BaseFontFamily | BaseFontSizePt | HeadingScale | PageMarginMm | BlackOnWhite

  datatype FieldValue = StringValue(s: string) | RealValue(r: real) | ScaleValue(scale: seq<real>)
                      | BoolValue(b: bool)

  function TypographyValue(f: TypographyField, t: TypographyConfig): FieldValue {
    match f
    case BaseFontFamily => StringValue(t.baseFontFamily)
    case BaseFontSizePt => RealValue(t.baseFontSizePt)
    case HeadingScale => ScaleValue(t.headingScale)
    case PageMarginMm => RealValue(t.printOptions.pageMarginMm)
    case BlackOnWhite => BoolValue(t.printOptions.blackOnWhite)
  }

  /** Whether a fragment sets a field: a non-empty family or heading scale, a
      positive size or margin; blackOnWhite is set by every fragment. */
  predicate SetsTypography(f: TypographyField, t: TypographyConfig) {
    match f
    case BaseFontFamily => t.baseFontFamily != ""
    case BaseFontSizePt => t.baseFontSizePt > 0.0
    case HeadingScale => t.headingScale != []
    case PageMarginMm => t.printOptions.pageMarginMm > 0.0
    case BlackOnWhite => true
  }

  /** The fragment of the first (highest-precedence) layer that sets `f`. */
  function FirstTypographySetting(layers: seq<Layer>, f: TypographyField): (r: Option<TypographyConfig>)
    ensures r.Some? ==> SetsTypography(f, r.value)
    ensures r.Some? ==> r in TypographyFragments(layers)
  {
    if layers == [] then None
    else if TypographyOf(layers[0]).Some? && SetsTypography(f, TypographyOf(layers[0]).value) then
      TypographyOf(layers[0])
    else FirstTypographySetting(layers[1..], f)
  }

  /** The typography fragments the layers supply. */
  function TypographyFragments(layers: seq<Layer>): set<Option<TypographyConfig>> {
    set i | 0 <= i < |layers| :: TypographyOf(layers[i])
  }

  /** Laying a fragment over a record changes a field exactly when the
      fragment sets it. */
  lemma MergeTypographyField(acc: TypographyConfig, t: TypographyConfig, f: TypographyField)
    ensures TypographyValue(f, MergeTypography(acc, t))
      == if SetsTypography(f, t) then TypographyValue(f, t) else TypographyValue(f, acc)
  {
  }

  /** Precedence: every field of the effective typography comes from the first
      layer that sets it, and keeps its default when no layer does. */
  lemma {:induction false} TypographyPrecedence(layers: seq<Layer>, f: TypographyField)
    ensures TypographyValue(f, EffectiveTypography(layers)) ==
      match FirstTypographySetting(layers, f)
      case Some(t) => TypographyValue(f, t)
      case None => TypographyValue(f, DefaultTypography)
  {
    if layers != [] {
      TypographyPrecedence(layers[1..], f);
      if TypographyOf(layers[0]).Some? {
        MergeTypographyField(EffectiveTypography(layers[1..]), TypographyOf(layers[0]).value, f);
      }
    }
  }

  /** blackOnWhite is overwritten by every fragment, so it is the flag of the
      first layer that supplies a typography fragment, or false. */
  lemma BlackOnWhiteFromFirstFragment(layers: seq<Layer>, i: nat)
    requires i < |layers| && TypographyOf(layers[i]).Some?
    requires forall j :: 0 <= j < i ==> TypographyOf(layers[j]).None?
    ensures EffectiveTypography(layers).printOptions.blackOnWhite
      == TypographyOf(layers[i]).value.printOptions.blackOnWhite
  {
    TypographyPrecedence(layers, BlackOnWhite);
    FirstSettingAt(layers, i);
  }

  lemma {:induction false} FirstSettingAt(layers: seq<Layer>, i: nat)
    requires i < |layers| && TypographyOf(layers[i]).Some?
    requires forall j :: 0 <= j < i ==> TypographyOf(layers[j]).None?
    ensures FirstTypographySetting(layers, BlackOnWhite) == TypographyOf(layers[i])
  {
    if i > 0 { FirstSettingAt(layers[1..], i - 1); }
  }

  /** Layers that supply no fragment (including an empty list) leave the
      default record. */
  lemma {:induction false} SilentLayers(layers: seq<Layer>)
    ensures (forall i :: 0 <= i < |layers| ==> TypographyOf(layers[i]).None?) ==>
      EffectiveTypography(layers) == DefaultTypography
    ensures (forall i :: 0 <= i < |layers| ==> BibliographyOf(layers[i]).None?) ==>
      EffectiveBibliography(layers) == DefaultBibliography
  {
    if layers != [] {
      SilentLayers(layers[1..]);
      assert forall i :: 0 <= i < |layers[1..]| ==> layers[1..][i] == layers[i + 1];
    }
  }

  /** A null layer, or one whose getters return null, has no effect wherever it
      stands in the list. */
  lemma {:induction false} SilentLayerNoEffect(layers: seq<Layer>, i: nat, silent: Layer)
    requires i <= |layers|
    requires TypographyOf(silent).None? && BibliographyOf(silent).None?
    ensures EffectiveTypography(layers[..i] + [silent] + layers[i..]) == EffectiveTypography(layers)
    ensures EffectiveBibliography(layers[..i] + [silent] + layers[i..]) == EffectiveBibliography(layers)
  {
    var l := layers[..i] + [silent] + layers[i..];
    if i == 0 {
      assert l[1..] == layers;
    } else {
      SilentLayerNoEffect(layers[1..], i - 1, silent);
      assert l[0] == layers[0];
      assert l[1..] == layers[1..][..i - 1] + [silent] + layers[1..][i - 1..];
    }
  }

  // ---------------------------------------------------------------------------
  // Bibliography

  function MergeBibliography(acc: BibliographyConfig, b: BibliographyConfig): BibliographyConfig {
    BibliographyConfig(
      if b.style != "" then b.style else acc.style,
      if b.sortBy != "" then b.sortBy else acc.sortBy,
      if b.groupBy != "" then b.groupBy else acc.groupBy)
  }

  function EffectiveBibliography(layers: seq<Layer>): BibliographyConfig {
    if layers == [] then DefaultBibliography
    else match BibliographyOf(layers[0])
      case None => EffectiveBibliography(layers[1..])
      case Some(b) => MergeBibliography(EffectiveBibliography(layers[1..]), b)
  }

  datatype BibliographyField = Style | SortBy | GroupBy

  function BibliographyValue(f: BibliographyField, b: BibliographyConfig): string {
    match f
    case Style => b.style
    case SortBy => b.sortBy
    case GroupBy => b.groupBy
  }

  /** The first non-empty value of `f` among the layers' bibliography fragments. */
  function FirstBibliographySetting(layers: seq<Layer>, f: BibliographyField): (r: Option<string>)
    ensures r.Some? ==> r.value != ""
  {
    if layers == [] then None
    else if BibliographyOf(layers[0]).Some? && BibliographyValue(f, BibliographyOf(layers[0]).value) != "" then
      Some(BibliographyValue(f, BibliographyOf(layers[0]).value))
    else FirstBibliographySetting(layers[1..], f)
  }

  /** Precedence: each bibliography field is the first non-empty value in list
      order, or empty when no layer sets it. */
  lemma {:induction false} BibliographyPrecedence(layers: seq<Layer>, f: BibliographyField)
    ensures BibliographyValue(f, EffectiveBibliography(layers)) ==
      match FirstBibliographySetting(layers, f)
      case Some(v) => v
      case None => ""
  {
    if layers != [] {
      BibliographyPrecedence(layers[1..], f);
    }
  }

  // ---------------------------------------------------------------------------
  // The resolver

  class CompositeConfigurationResolver {
    const sources: seq<Layer>

    constructor (sources: seq<Layer>)
      ensures this.sources == sources
    {
      this.sources := sources;
    }

    /** getEffectiveTypography: walks the layers from the last to the first,
        skipping null layers and null fragments. */
    method GetEffectiveTypography() returns (result: TypographyConfig)
      ensures result == EffectiveTypography(sources)
    {
      result := DefaultTypography;
      var i := |sources|;
      while i > 0
        invariant 0 <= i <= |sources|
        invariant result == EffectiveTypography(sources[i..])
      {
        i := i - 1;
        assert sources[i..][1..] == sources[i + 1..];
        var layer := sources[i];
        if layer.Some? && layer.value.typography.Some? {
          var typography := layer.value.typography.value;
          if typography.baseFontFamily != "" {
            result := result.(baseFontFamily := typography.baseFontFamily);
          }
          if typography.baseFontSizePt > 0.0 {
            result := result.(baseFontSizePt := typography.baseFontSizePt);
          }
          if typography.headingScale != [] {
            result := result.(headingScale := typography.headingScale);
          }
          if typography.printOptions.pageMarginMm > 0.0 {
            result := result.(printOptions := result.printOptions.(pageMarginMm := typography.printOptions.pageMarginMm));
          }
          result := result.(printOptions := result.printOptions.(blackOnWhite := typography.printOptions.blackOnWhite));
        }
      }
    }

    /** getEffectiveBibliography: the same walk over bibliography fragments. */
    method GetEffectiveBibliography() returns (result: BibliographyConfig)
      ensures result == EffectiveBibliography(sources)
    {
      result := DefaultBibliography;
      var i := |sources|;
      while i > 0
        invariant 0 <= i <= |sources|
        invariant result == EffectiveBibliography(sources[i..])
      {
        i := i - 1;
        assert sources[i..][1..] == sources[i + 1..];
        var layer := sources[i];
        if layer.Some? && layer.value.bibliography.Some? {
          var bibliography := layer.value.bibliography.value;
          if bibliography.style != "" {
            result := result.(style := bibliography.style);
          }
          if bibliography.sortBy != "" {
            result := result.(sortBy := bibliography.sortBy);
          }
          if bibliography.groupBy != "" {
            result := result.(groupBy := bibliography.groupBy);
          }
        }
      }
    }
  }

  // ---------------------------------------------------------------------------
  // The documented examples

  function TypographyLayer(t: TypographyConfig): Layer {
    Some(Source(Some(t), None))
  }

  function BibliographyLayer(b: BibliographyConfig): Layer {
    Some(Source(None, Some(b)))
  }

  /** Session sets only the family, user only the size, system both: the
      family comes from the session and the size from the user. */
  lemma TypographyExample()
    ensures var layers := [
      TypographyLayer(DefaultTypography.(baseFontFamily := "SessionFont")),
      TypographyLayer(DefaultTypography.(baseFontSizePt := 14.0)),
      TypographyLayer(DefaultTypography.(baseFontFamily := "SystemFont", baseFontSizePt := 12.0))];
      EffectiveTypography(layers).baseFontFamily == "SessionFont"
      && EffectiveTypography(layers).baseFontSizePt == 14.0
  {
  }

  /** A system layer alone gives its own values and an empty groupBy; with a
      user style and a session sort order above it, style comes from the user
      and sortBy from the session. */
  lemma BibliographyExamples()
    ensures EffectiveBibliography([BibliographyLayer(BibliographyConfig("APA", "author", ""))])
      == BibliographyConfig("APA", "author", "")
    ensures var layers := [
      BibliographyLayer(BibliographyConfig("", "year", "")),
      BibliographyLayer(BibliographyConfig("CMS", "", "")),
      BibliographyLayer(BibliographyConfig("APA", "author", ""))];
      EffectiveBibliography(layers).style == "CMS" && EffectiveBibliography(layers).sortBy == "year"
  {
  }
}
