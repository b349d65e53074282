/** The two reading windows: the main window and the per-cartridge document
    viewer. Both wrap a document's HTML in a `<style>` block built from the
    theme's token table, inserted before the first `</head>`, else before the
    first `<body`, else at the start; both keep a zoom factor clamped to
    [0.25, 5.0]. The main window also registers the configuration sources in
    precedence order Session, User profile, Corpus, System. */
module Viewer {
  import opened Text
  import Config
  import Themes

  // ---------------------------------------------------------------------------
  // Zoom

  const ZoomMin: real := 0.25
  const ZoomMax: real := 5.0
  const ZoomStep: real := 0.1
  const ZoomDefault: real := 1.0

  /** The two guards of setZoomFactor: raise to the minimum, then cap at the
      maximum. */
  function Clamp(factor: real): (r: real)
    ensures ZoomMin <= r <= ZoomMax
    ensures ZoomMin <= factor <= ZoomMax ==> r == factor
    ensures factor < ZoomMin ==> r == ZoomMin
    ensures factor > ZoomMax ==> r == ZoomMax
  {
    var raised := if factor < ZoomMin then ZoomMin else factor;
    if raised > ZoomMax then ZoomMax else raised
  }

  /** Clamping is idempotent and monotone. */
  lemma ClampProperties(a: real, b: real)
    ensures Clamp(Clamp(a)) == Clamp(a)
    ensures a <= b ==> Clamp(a) <= Clamp(b)
  {
  }

  // ---------------------------------------------------------------------------
  // The CSS block

  const CssPrefix: string := "<style>\n:root {\n"

  const CssRules: string :=
    "}\n" + "body {\n" + "  background-color: var(--color-background-primary);\n"
    + "  color: var(--color-text-primary);\n" + "  font-family: var(--font-family-base);\n"
    + "  font-size: var(--font-size-base);\n" + "}\n" + "a {\n" + "  color: var(--color-link);\n"
    + "}\n" + "a:hover {\n" + "  color: var(--color-link-hover);\n" + "}\n" + "</style>\n"

  /** One custom-property declaration: `  key: value;` and a newline. */
  function TokenLine(token: (string, string)): string {
    "  " + token.0 + ": " + token.1 + ";\n"
  }

  /** The declaration lines of a token table, one per token, in the table's
      (key) order. */
  function DeclarationLines(tokens: Themes.TokenMap): (r: seq<string>)
    ensures |r| == |tokens|
  {
    seq(|tokens|, i requires 0 <= i < |tokens| => TokenLine(tokens[i]))
  }

  /** The declarations of a token table, written one after the other. */
  function TokenLines(tokens: Themes.TokenMap): string {
    Concat(DeclarationLines(tokens))
  }

  /** The block wrapContentWithTheme builds. */
  function ThemeCss(tokens: Themes.TokenMap): string {
    CssPrefix + TokenLines(tokens) + CssRules
  }

  lemma DeclarationSlices(tokens: Themes.TokenMap, i: nat)
    requires i <= |tokens|
    ensures DeclarationLines(tokens)[..i] == DeclarationLines(tokens[..i])
    ensures DeclarationLines(tokens)[i..] == DeclarationLines(tokens[i..])
  {
  }

  /** One more token adds its declaration at the end. */
  lemma TokenLinesSnoc(tokens: Themes.TokenMap, i: nat)
    requires i < |tokens|
    ensures TokenLines(tokens[..i + 1]) == TokenLines(tokens[..i]) + TokenLine(tokens[i])
  {
    var lines := DeclarationLines(tokens[..i]);
    assert DeclarationLines(tokens[..i + 1]) == lines + [TokenLine(tokens[i])];
    ConcatSnoc(lines, TokenLine(tokens[i]));
  }

  /** Order: the declaration of the i-th token stands after those of all
      earlier tokens and before those of all later ones. */
  lemma TokenLinesAt(tokens: Themes.TokenMap, i: nat)
    requires i < |tokens|
    ensures TokenLines(tokens) == TokenLines(tokens[..i]) + TokenLine(tokens[i]) + TokenLines(tokens[i + 1..])
  {
    ConcatAt(DeclarationLines(tokens), i);
    DeclarationSlices(tokens, i);
    DeclarationSlices(tokens, i + 1);
  }

  /** The block is the fixed prefix, every declaration of the table in order,
      then the fixed rules: the i-th declaration sits between those of the
      tokens before it and those after it. */
  lemma ThemeCssShape(tokens: Themes.TokenMap, i: nat)
    requires i < |tokens|
    ensures ThemeCss(tokens) == CssPrefix + TokenLines(tokens[..i]) + TokenLine(tokens[i])
      + TokenLines(tokens[i + 1..]) + CssRules
  {
    TokenLinesAt(tokens, i);
  }

  /** The loop of wrapContentWithTheme that builds the block. */
  method BuildCss(tokens: Themes.TokenMap) returns (css: string)
    ensures css == ThemeCss(tokens)
  {
    css := "<style>\n";
    css := css + ":root {\n";
    var i := 0;
    while i < |tokens|
      invariant 0 <= i <= |tokens|
      invariant css == CssPrefix + TokenLines(tokens[..i])
    {
      TokenLinesSnoc(tokens, i);
      AppendAssoc(CssPrefix, TokenLines(tokens[..i]), TokenLine(tokens[i]));
      var line := "  " + tokens[i].0 + ": " + tokens[i].1 + ";\n";
      assert line == TokenLine(tokens[i]);
      css := css + line;
      i := i + 1;
    }
    assert tokens[..i] == tokens;
    css := css + CssRules;
  }

  // ---------------------------------------------------------------------------
  // Insertion into the document

  /** `tag` (lower case) occurs in `html` ignoring case. */
  predicate OccursCI(html: string, tag: string) {
    Occurs(ToLower(html), tag)
  }

  /** `p` is the first case-insensitive occurrence of the lower-case `tag`. */
  predicate FirstMatchCI(html: string, tag: string, p: nat) {
    MatchAt(ToLower(html), tag, p) && forall j :: 0 <= j < p ==> !MatchAt(ToLower(html), tag, j)
  }

  /** Where the block goes: before the first `</head>`, else before the first
      `<body`, else at the start, all matched ignoring case. */
  function InsertionPoint(html: string): (p: nat)
    ensures p <= |html|
    ensures OccursCI(html, "</head>") ==> FirstMatchCI(html, "</head>", p)
    ensures !OccursCI(html, "</head>") && OccursCI(html, "<body") ==> FirstMatchCI(html, "<body", p)
    ensures !OccursCI(html, "</head>") && !OccursCI(html, "<body") ==> p == 0
  {
    assert ToLower("</head>") == "</head>";
    assert ToLower("<body") == "<body";
    match IndexOfCI(html, "</head>")
    case Some(i) => i
    case None =>
      match IndexOfCI(html, "<body")
      case Some(j) => j
      case None => 0
  }

  /** `css` inserted into `html` at position `p`: the result is exactly as
      long as both together, holds the block at `p`, and cutting the block
      out gives back the document. */
  function InsertAt(html: string, css: string, p: nat): (r: string)
    requires p <= |html|
    ensures |r| == |html| + |css|
    ensures r[p..p + |css|] == css
    ensures r[..p] + r[p + |css|..] == html
  {
    var r := html[..p] + css + html[p..];
    assert r[..p] == html[..p] && r[p + |css|..] == html[p..];
    r
  }

  /** The document with the block inserted at the insertion point. */
  function Inject(html: string, css: string): string {
    InsertAt(html, css, InsertionPoint(html))
  }

  /** Text inserted before position `p` moves a match at `p` to just after it. */
  lemma ShiftedMatch(html: string, css: string, p: nat, tag: string)
    requires p <= |html| && MatchAt(ToLower(html), tag, p)
    ensures MatchAt(ToLower(html[..p] + css + html[p..]), tag, p + |css|)
  {
    var r := html[..p] + css + html[p..];
    var lr, lh := ToLower(r), ToLower(html);
    forall j | p <= j < p + |tag| ensures lh[j] == lr[j + |css|] {
      assert r[j + |css|] == html[j];
    }
    assert lr[p + |css|..p + |css| + |tag|] == lh[p..p + |tag|];
  }

  /** The block lands immediately before the tag it was placed against. */
  lemma InsertedBeforeTag(html: string, css: string)
    ensures OccursCI(html, "</head>") ==>
      MatchAt(ToLower(Inject(html, css)), "</head>", InsertionPoint(html) + |css|)
    ensures !OccursCI(html, "</head>") && OccursCI(html, "<body") ==>
      MatchAt(ToLower(Inject(html, css)), "<body", InsertionPoint(html) + |css|)
    ensures !OccursCI(html, "</head>") && !OccursCI(html, "<body") ==>
      Inject(html, css) == css + html
  {
    var p := InsertionPoint(html);
    assert Inject(html, css) == InsertAt(html, css, p) == html[..p] + css + html[p..];
    if OccursCI(html, "</head>") {
      ShiftedMatch(html, css, p, "</head>");
    } else if OccursCI(html, "<body") {
      ShiftedMatch(html, css, p, "<body");
    } else {
      assert html[..0] == [] && html[0..] == html;
    }
  }

  /** The in-place insertion wrapContentWithTheme performs once the block is
      built. */
  method WrapContent(html: string, tokens: Themes.TokenMap) returns (wrapped: string)
    ensures wrapped == Inject(html, ThemeCss(tokens))
  {
    var css := BuildCss(tokens);
    wrapped := html;
    var headEnd := IndexOfCI(wrapped, "</head>");
    if headEnd.Some? {
      wrapped := wrapped[..headEnd.value] + css + wrapped[headEnd.value..];
    } else {
      var bodyStart := IndexOfCI(wrapped, "<body");
      if bodyStart.Some? {
        wrapped := wrapped[..bodyStart.value] + css + wrapped[bodyStart.value..];
      } else {
        wrapped := css + wrapped;
      }
    }
  }

  // ---------------------------------------------------------------------------
  // The main window's configuration sources

  /** SystemConfigSource: Segoe UI at 12 pt and the APA style. */
  const SystemSource: Config.Source := Config.Source(
    Some(Config.DefaultTypography.(baseFontFamily := "Segoe UI", baseFontSizePt := 12.0)),
    Some(Config.DefaultBibliography.(style := "APA")))

  /** CorpusConfigSource: both getters return null. */
  const CorpusSource: Config.Source := Config.Source(None, None)

  /** The values the user-profile source finds in the settings store, each
      absent when the key is missing (an empty list for the heading scales). */
  datatype UserSettings = UserSettings(
    fontFamily: Option<string>, fontSize: Option<real>, headingScales: seq<real>,
    printMargin: Option<real>, blackOnWhite: Option<bool>,
    style: Option<string>, sortBy: Option<string>, groupBy: Option<string>)

  function OrElse<T>(o: Option<T>, default: T): T {
    if o.Some? then o.value else default
  }

  /** UserProfileConfigSource: every stored value, or its default. */
  function UserProfileSource(s: UserSettings): Config.Source {
    Config.Source(
      Some(Config.TypographyConfig(
        OrElse(s.fontFamily, "system-ui"),
        OrElse(s.fontSize, 12.0),
        if s.headingScales == [] then [2.0, 1.75, 1.5, 1.25, 1.1, 1.0] else s.headingScales,
        Config.PrintOptions(OrElse(s.printMargin, 10.0), OrElse(s.blackOnWhite, false)))),
      Some(Config.BibliographyConfig(OrElse(s.style, "APA"), OrElse(s.sortBy, "author"), OrElse(s.groupBy, ""))))
  }

  /** The resolver's list, highest precedence first. */
  function ConfigSources(session: Config.Source, user: UserSettings): seq<Config.Layer> {
    [Some(session), Some(UserProfileSource(user)), Some(CorpusSource), Some(SystemSource)]
  }

  /** Session settings win: every typography field the accepted settings set,
      and every non-empty bibliography field, is the effective value whatever
      the user profile holds. */
  lemma SessionSettingsWin(t: Config.TypographyConfig, b: Config.BibliographyConfig, user: UserSettings,
                           f: Config.TypographyField, g: Config.BibliographyField)
    ensures Config.SetsTypography(f, t) ==>
      Config.TypographyValue(f, Config.EffectiveTypography(ConfigSources(Config.Source(Some(t), Some(b)), user)))
      == Config.TypographyValue(f, t)
    ensures Config.BibliographyValue(g, b) != "" ==>
      Config.BibliographyValue(g, Config.EffectiveBibliography(ConfigSources(Config.Source(Some(t), Some(b)), user)))
      == Config.BibliographyValue(g, b)
  {
    var layers := ConfigSources(Config.Source(Some(t), Some(b)), user);
    Config.TypographyPrecedence(layers, f);
    Config.BibliographyPrecedence(layers, g);
  }

  /** Before any settings are accepted the session layer is silent, so the
      user profile decides: its family (or the system's when the stored family
      is empty), and its style, or APA when none is stored. */
  lemma UserProfileBeforeSession(user: UserSettings)
    ensures Config.EffectiveTypography(ConfigSources(CorpusSource, user)).baseFontFamily
      == if OrElse(user.fontFamily, "system-ui") != "" then OrElse(user.fontFamily, "system-ui") else "Segoe UI"
    ensures Config.EffectiveBibliography(ConfigSources(CorpusSource, user)).style
      == if OrElse(user.style, "APA") != "" then OrElse(user.style, "APA") else "APA"
  {
    var layers := ConfigSources(CorpusSource, user);
    assert layers[3..][1..] == [];
    assert layers[2..][1..] == layers[3..];
    assert layers[1..][1..] == layers[2..];
    assert Config.EffectiveTypography(layers[3..]).baseFontFamily == "Segoe UI";
    assert Config.EffectiveBibliography(layers[3..]).style == "APA";
    assert Config.EffectiveTypography(layers[2..]) == Config.EffectiveTypography(layers[3..]);
    assert Config.EffectiveBibliography(layers[2..]) == Config.EffectiveBibliography(layers[3..]);
    assert Config.EffectiveTypography(layers) == Config.EffectiveTypography(layers[1..]);
    assert Config.EffectiveBibliography(layers) == Config.EffectiveBibliography(layers[1..]);
  }

  // ---------------------------------------------------------------------------
  // The windows

  class MainWindow {
    var zoomFactor: real
    /** The HTML of the document on show, before wrapping. */
    var currentDocumentContent: string
    /** What the web view was last given. */
    var displayedHtml: string
    /** The session source's two pointers. */
    var sessionTypography: Option<Config.TypographyConfig>
    var sessionBibliography: Option<Config.BibliographyConfig>
    const themeManager: Themes.ThemeManager

    ghost predicate Valid()
      reads this
    {
      ZoomMin <= zoomFactor <= ZoomMax
    }

    /** The source list the resolver walks when the settings store holds `user`. */
    function Sources(user: UserSettings): (r: seq<Config.Layer>)
      reads this
    {
      ConfigSources(Config.Source(sessionTypography, sessionBibliography), user)
    }

    /** The constructor: the persisted zoom clamped into range, no document,
        and a session source whose getters return null. */
    constructor (storedZoom: real, themeManager: Themes.ThemeManager)
      ensures Valid()
      ensures zoomFactor == Clamp(storedZoom)
      ensures currentDocumentContent == [] && displayedHtml == []
      ensures sessionTypography.None? && sessionBibliography.None?
      ensures this.themeManager == themeManager
    {
      var zoom := storedZoom;
      if zoom < ZoomMin {
        zoom := ZoomMin;
      }
      if zoom > ZoomMax {
        zoom := ZoomMax;
      }
      zoomFactor := zoom;
      currentDocumentContent := [];
      displayedHtml := [];
      sessionTypography := None;
      sessionBibliography := None;
      this.themeManager := themeManager;
    }

    /** wrapContentWithTheme, with the manager's current token table. */
    method WrapContentWithTheme(html: string) returns (wrapped: string)
      ensures wrapped == Inject(html, ThemeCss(themeManager.tokens))
    {
      wrapped := WrapContent(html, themeManager.tokens);
    }

    /** loadDocument: nothing happens without a loaded cartridge or when the
        document's content is empty; otherwise it is held and shown wrapped. */
    method LoadDocument(cartridgeLoaded: bool, content: string)
      modifies this`currentDocumentContent, this`displayedHtml
      ensures cartridgeLoaded && content != [] ==>
        currentDocumentContent == content && displayedHtml == Inject(content, ThemeCss(themeManager.tokens))
      ensures !(cartridgeLoaded && content != []) ==>
        currentDocumentContent == old(currentDocumentContent) && displayedHtml == old(displayedHtml)
    {
      if !cartridgeLoaded {
        return;
      }
      if content != [] {
        currentDocumentContent := content;
        displayedHtml := WrapContentWithTheme(content);
      }
    }

    /** onSettingsAccepted: the accepted records become the session layer,
        and a held document is re-wrapped. */
    method OnSettingsAccepted(typography: Config.TypographyConfig, bibliography: Config.BibliographyConfig)
      modifies this`sessionTypography, this`sessionBibliography, this`displayedHtml
      ensures sessionTypography == Some(typography) && sessionBibliography == Some(bibliography)
      ensures forall user :: Sources(user) == ConfigSources(Config.Source(Some(typography), Some(bibliography)), user)
      ensures currentDocumentContent != [] ==>
        displayedHtml == Inject(currentDocumentContent, ThemeCss(themeManager.tokens))
      ensures currentDocumentContent == [] ==> displayedHtml == old(displayedHtml)
    {
      sessionTypography := Some(typography);
      sessionBibliography := Some(bibliography);
      if currentDocumentContent != [] {
        displayedHtml := WrapContentWithTheme(currentDocumentContent);
      }
    }

    /** setZoomFactor */
    method SetZoomFactor(factor: real)
      modifies this`zoomFactor
      ensures Valid()
      ensures zoomFactor == Clamp(factor)
    {
      var f := factor;
      if f < ZoomMin {
        f := ZoomMin;
      }
      if f > ZoomMax {
        f := ZoomMax;
      }
      zoomFactor := f;
    }

    /** onZoomIn: one step up, capped at the maximum. */
    method OnZoomIn()
      requires Valid()
      modifies this`zoomFactor
      ensures Valid()
      ensures old(zoomFactor) + ZoomStep <= ZoomMax ==> zoomFactor == old(zoomFactor) + ZoomStep
      ensures old(zoomFactor) + ZoomStep > ZoomMax ==> zoomFactor == ZoomMax
    {
      var newZoom := zoomFactor + ZoomStep;
      if newZoom > ZoomMax {
        newZoom := ZoomMax;
      }
      SetZoomFactor(newZoom);
    }

    /** onZoomOut: one step down, floored at the minimum. */
    method OnZoomOut()
      requires Valid()
      modifies this`zoomFactor
      ensures Valid()
      ensures old(zoomFactor) - ZoomStep >= ZoomMin ==> zoomFactor == old(zoomFactor) - ZoomStep
      ensures old(zoomFactor) - ZoomStep < ZoomMin ==> zoomFactor == ZoomMin
    {
      var newZoom := zoomFactor - ZoomStep;
      if newZoom < ZoomMin {
        newZoom := ZoomMin;
      }
      SetZoomFactor(newZoom);
    }

    /** onZoomReset */
    method OnZoomReset()
      modifies this`zoomFactor
      ensures Valid() && zoomFactor == ZoomDefault
    {
      SetZoomFactor(ZoomDefault);
    }
  }

  class DocumentViewerWindow {
    const cartridgeName: string
    const cartridgePath: string
    /** May be null. */
    const themeManager: Themes.ThemeManager?
    var zoomFactor: real
    var currentDocumentId: string
    var currentDocumentContent: string
    var displayedHtml: string

    /** The constructor keeps the persisted zoom as it finds it. */
    constructor (cartridgeName: string, cartridgePath: string, themeManager: Themes.ThemeManager?,
                 storedZoom: real)
      ensures this.cartridgeName == cartridgeName && this.cartridgePath == cartridgePath
      ensures this.themeManager == themeManager
      ensures zoomFactor == storedZoom
      ensures currentDocumentId == [] && currentDocumentContent == [] && displayedHtml == []
    {
      this.cartridgeName := cartridgeName;
      this.cartridgePath := cartridgePath;
      this.themeManager := themeManager;
      zoomFactor := storedZoom;
      currentDocumentId := [];
      currentDocumentContent := [];
      displayedHtml := [];
    }

    /** wrapContentWithTheme: the input unchanged without a manager. */
    method WrapContentWithTheme(html: string) returns (wrapped: string)
      ensures themeManager == null ==> wrapped == html
      ensures themeManager != null ==> wrapped == Inject(html, ThemeCss(themeManager.tokens))
    {
      if themeManager == null {
        return html;
      }
      wrapped := WrapContent(html, themeManager.tokens);
    }

    /** loadDocument: the id and content are recorded and the content shown. */
    method LoadDocument(documentId: string, content: string)
      modifies this`currentDocumentId, this`currentDocumentContent, this`displayedHtml
      ensures currentDocumentId == documentId && currentDocumentContent == content
      ensures themeManager == null ==> displayedHtml == content
      ensures themeManager != null ==> displayedHtml == Inject(content, ThemeCss(themeManager.tokens))
    {
      currentDocumentId := documentId;
      currentDocumentContent := content;
      displayedHtml := WrapContentWithTheme(content);
    }

    /** updateTheme: the held content is re-wrapped, if there is any. */
    method UpdateTheme()
      modifies this`displayedHtml
      ensures currentDocumentContent == [] ==> displayedHtml == old(displayedHtml)
      ensures currentDocumentContent != [] && themeManager == null ==> displayedHtml == currentDocumentContent
      ensures currentDocumentContent != [] && themeManager != null ==>
        displayedHtml == Inject(currentDocumentContent, ThemeCss(themeManager.tokens))
    {
      if currentDocumentContent != [] {
        displayedHtml := WrapContentWithTheme(currentDocumentContent);
      }
    }

    /** setZoomFactor */
    method SetZoomFactor(factor: real)
      modifies this`zoomFactor
      ensures ZoomMin <= zoomFactor <= ZoomMax
      ensures zoomFactor == Clamp(factor)
    {
      var f := factor;
      if f < ZoomMin {
        f := ZoomMin;
      }
      if f > ZoomMax {
        f := ZoomMax;
      }
      zoomFactor := f;
    }

    /** onZoomIn: one unclamped step handed to setZoomFactor; from a persisted
        zoom above the maximum it lowers the zoom to the maximum. */
    method OnZoomIn()
      modifies this`zoomFactor
      ensures zoomFactor == Clamp(old(zoomFactor) + ZoomStep)
      ensures old(zoomFactor) > ZoomMax ==> zoomFactor == ZoomMax < old(zoomFactor)
    {
      SetZoomFactor(zoomFactor + ZoomStep);
    }

    /** onZoomOut: one unclamped step down handed to setZoomFactor; from a
        persisted zoom below the minimum it raises the zoom to the minimum. */
    method OnZoomOut()
      modifies this`zoomFactor
      ensures zoomFactor == Clamp(old(zoomFactor) - ZoomStep)
      ensures old(zoomFactor) < ZoomMin ==> zoomFactor == ZoomMin > old(zoomFactor)
    {
      SetZoomFactor(zoomFactor - ZoomStep);
    }

    /** onZoomReset */
    method OnZoomReset()
      modifies this`zoomFactor
      ensures zoomFactor == ZoomDefault
    {
      SetZoomFactor(ZoomDefault);
    }
  }
}
