# Codexium Magnus — a verified model of the reader core

Codexium Magnus is a desktop reader for signed document "cartridges" (SQLite
files holding a corpus of documents, a navigation table and a signed
manifest). This project models the logic at the heart of the reader:

- **Signature** — the trusted-key store (`QMap<QByteArray, TrustedKey>`,
  kept sorted by key), its persistence to settings and back, Ed25519
  signature checks with their size guards, manifest field extraction, the
  cartridge hash, and the order of the checks that decide a cartridge's
  trust level.
- **Config / ConfigCs** — the composite configuration resolver of the C++
  core library and of the .NET core library: layered typography and
  bibliography settings, where the first source that sets a field wins.
- **Search** — compilation of a user query into an FTS5 query (escaping,
  control-character removal, wildcard, NEAR and phrase forms), the guard
  order of `performSearch`, the `LIKE` fallback, and hit collection.
- **Links** — the external-link policy: allowed schemes, a normalised
  blocked-domain list kept free of case-insensitive duplicates, and the
  signals `openExternalLink` emits.
- **Cartridge** — the cartridge session: load and unload, base name of
  the path, trust level from the signature service, the navigation tree
  built from the `navigation` rows, and document lookups.
- **Themes** — the theme manager: the three built-in token maps, token
  lookup, the token substitution into stylesheets, theme switching, custom
  themes, and saving and loading the theme preference.
- **Viewer** — the main window and the detached document viewer: zoom
  clamping and stepping, the CSS block of theme tokens, the place where it
  is injected into a document, document loading, and the four
  configuration sources the main window stacks.
- **Reporting / ReportingCs** — the C++ and .NET report writers: an
  append-only entry list rendered as a Markdown table, and (C++) as a JSON
  array.
- **Text** and **Primitives** — shared string operations with the meaning
  of their Qt counterparts (`trimmed`, `toLower`, `replace`, `split`,
  `contains`), and the foreign primitives (Ed25519, SHA-256, Base64, UTF-8,
  JSON parsing) as a record of functions with the laws the proofs rely on.

Classes whose fields the source updates in place (`SignatureService`,
`CartridgeService`, `LinkService`, `ThemeManager`, `MainWindow`,
`DocumentViewerWindow`, both `ReportWriter`s, both resolvers) are Dafny
classes; loops in the source (resolver loops, Markdown and JSON writers,
the blocked-domain scan, the CSS builder, the wildcard term loop) are
`while` loops proved against specification functions.

File system, database, clock, settings store and network answers are
parameters: a `LoadEnv` for the cartridge file, a `Backend` for the search
database, `now`/`generated` strings for timestamps, a `Prefs` record for
`QSettings`, a `desktopOpens` flag for `QDesktopServices::openUrl`.

## Model

| member | source | states |
|---|---|---|
| Signature.Lookup | src/codexium-magnus/Services/SignatureService.cpp:161-168 | a found entry is in the store under that key; nothing is found exactly when no entry has the key |
| Signature.LookupFinds | src/codexium-magnus/Services/SignatureService.cpp:161-168 | in a sorted store every stored entry is found under its own key |
| Signature.Put | src/codexium-magnus/Services/SignatureService.cpp:141-152 | after inserting, the key maps to the new entry, every other key maps to what it did before, and no other entry appears |
| Signature.PutSorted | src/codexium-magnus/Services/SignatureService.cpp:141-152 | insertion keeps the store sorted by key (QMap order) |
| Signature.PutGreatest | src/codexium-magnus/Services/SignatureService.cpp:141-152 | inserting a key above every stored key appends it |
| Signature.Delete | src/codexium-magnus/Services/SignatureService.cpp:155-159 | removing a key leaves every other key's lookup unchanged; removing an absent key changes nothing; removing a present key drops exactly one entry |
| Signature.DeleteSorted | src/codexium-magnus/Services/SignatureService.cpp:155-159 | removal keeps the store sorted and the key is gone afterwards |
| Signature.LevelOfEntries | src/codexium-magnus/Services/SignatureService.cpp:161-168 | a key is Unverified iff no entry has it, Official iff its entry is official, Verified iff its entry is not official |
| Signature.LevelAfterPut | src/codexium-magnus/Services/SignatureService.cpp:141-168 | after adding a key its level is Official or Verified by its flag; other keys keep their level |
| Signature.LevelAfterDelete | src/codexium-magnus/Services/SignatureService.cpp:155-168 | after removing a key it is Unverified; other keys keep their level |
| Signature.Saved | src/codexium-magnus/Services/SignatureService.cpp:265-276 | one settings record per key, in key order, each the Base64 key with its label and flag |
| Signature.LoadedValid | src/codexium-magnus/Services/SignatureService.cpp:241-263 | whatever the settings hold, loading yields a sorted store of 32-byte keys |
| Signature.SaveLoadRoundTrip | src/codexium-magnus/Services/SignatureService.cpp:241-276 | saving a valid store and loading it back gives the same store |
| Signature.VerifySignature | src/codexium-magnus/Services/SignatureService.cpp:113-136 | true only with crypto available, a 64-byte signature and a 32-byte key; with those it is the Ed25519 answer |
| Signature.ExtractField | src/codexium-magnus/Services/SignatureService.cpp:206-238 | a manifest that does not parse yields no bytes |
| Signature.ExtractRoundTrip | src/codexium-magnus/Services/SignatureService.cpp:206-238 | a string field holding the Base64 of some bytes yields exactly those bytes |
| Signature.ExtractAbsent | src/codexium-magnus/Services/SignatureService.cpp:206-238 | a non-object document or a missing field yields no bytes |
| Signature.ExtractNonString | src/codexium-magnus/Services/SignatureService.cpp:206-238 | a field that is not a string yields no bytes |
| Signature.CartridgeHash | src/codexium-magnus/Services/SignatureService.cpp:170-195 | an empty manifest or an unreadable file gives the empty hash |
| Signature.CartridgeHashShape | src/codexium-magnus/Services/SignatureService.cpp:170-195 | the hash is empty iff the manifest is empty or the file unreadable; otherwise it is SHA-256 of manifest followed by contents |
| Signature.FirstFiringAt | src/codexium-magnus/Services/SignatureService.cpp:58-111 | the verdict is that of the first check that fires |
| Signature.SignatureService.constructor | src/codexium-magnus/Services/SignatureService.cpp:26-52 | the store is what loading the settings yields, and it is valid |
| Signature.SignatureService.LoadTrustedKeys | src/codexium-magnus/Services/SignatureService.cpp:241-263 | the store becomes the loaded settings and is valid |
| Signature.SignatureService.SaveTrustedKeys | src/codexium-magnus/Services/SignatureService.cpp:265-276 | the settings become the saved form of the store |
| Signature.SignatureService.AddTrustedKey | src/codexium-magnus/Services/SignatureService.cpp:138-153 | a key that is not 32 bytes changes nothing; otherwise the key is inserted (replacing an old entry) and the store saved; validity is kept |
| Signature.SignatureService.RemoveTrustedKey | src/codexium-magnus/Services/SignatureService.cpp:155-159 | the key is gone; an absent key changes nothing and saves nothing; a present key is removed and the store saved |
| Signature.SignatureService.GetKeyTrustLevel | src/codexium-magnus/Services/SignatureService.cpp:161-168 | Unverified, Official and Verified each characterised by the store's entries, both directions |
| Signature.SignatureService.VerifyCartridge | src/codexium-magnus/Services/SignatureService.cpp:58-111 | the emitted signal carries the returned level; failure signals only Invalid or Unverified; every trusted or Homebrew level is signalled as verified |
| Signature.VerifyCartridgeFirstFiring | src/codexium-magnus/Services/SignatureService.cpp:58-111 | verifyCartridge is the first firing check of its ordered list of checks |
| Signature.TrustedOnlyIfVerified | src/codexium-magnus/Services/SignatureService.cpp:58-111 | Official or Verified only for an existing file whose signature verifies over the hash with a stored key whose flag matches the level |
| Signature.UnsignedIsHomebrew | src/codexium-magnus/Services/SignatureService.cpp:71-79 | an existing cartridge with a manifest but no signature or no key is Homebrew, signalled as verified |
| Signature.StubReaderMakesInvalid | src/codexium-magnus/Services/SignatureService.cpp:64-69 | with the manifest reader returning nothing every cartridge is Invalid |
| Signature.NoCryptoIsUnverified | src/codexium-magnus/Services/SignatureService.cpp:88-105 | a signed cartridge checked without the crypto library is Unverified |
| Config.FirstTypographySetting | src/codexium-magnus-core/Configuration/CompositeConfigurationResolver.cpp:13-36 | the first source that sets a typography field is one of the sources and does set it |
| Config.MergeTypographyField | src/codexium-magnus-core/Configuration/CompositeConfigurationResolver.cpp:21-39 | merging one source takes a field from it iff it sets that field |
| Config.TypographyPrecedence | src/codexium-magnus-core/Configuration/CompositeConfigurationResolver.cpp:11-43 | each effective typography field comes from the first source that sets it, else the default |
| Config.BlackOnWhiteFromFirstFragment | src/codexium-magnus-core/Configuration/CompositeConfigurationResolver.cpp:37-39 | black-on-white printing comes from the first source that has any typography, whatever its value |
| Config.FirstSettingAt | src/codexium-magnus-core/Configuration/CompositeConfigurationResolver.cpp:37-39 | the first source with typography is the one that decides black-on-white |
| Config.SilentLayers | src/codexium-magnus-core/Configuration/CompositeConfigurationResolver.cpp:15-19 | sources without typography (bibliography) leave the defaults |
| Config.SilentLayerNoEffect | src/codexium-magnus-core/Configuration/CompositeConfigurationResolver.cpp:15-19 | inserting a source that provides nothing anywhere changes neither result |
| Config.FirstBibliographySetting | src/codexium-magnus-core/Configuration/CompositeConfigurationResolver.cpp:48-66 | the first non-empty value of a bibliography field is non-empty |
| Config.BibliographyPrecedence | src/codexium-magnus-core/Configuration/CompositeConfigurationResolver.cpp:45-70 | each effective bibliography field is the first non-empty value among the sources, else empty |
| Config.CompositeConfigurationResolver.constructor | src/codexium-magnus-core/Configuration/CompositeConfigurationResolver.cpp:5-8 | the resolver keeps the given sources |
| Config.CompositeConfigurationResolver.GetEffectiveTypography | src/codexium-magnus-core/Configuration/CompositeConfigurationResolver.cpp:10-43 | the loop's result is the effective typography of the sources |
| Config.CompositeConfigurationResolver.GetEffectiveBibliography | src/codexium-magnus-core/Configuration/CompositeConfigurationResolver.cpp:45-70 | the loop's result is the effective bibliography of the sources |
| Config.TypographyExample | tests/codexium-magnus-core-tests/Configuration/CompositeConfigurationResolverTests.cpp:33-57 | session font over profile size over system values |
| Config.BibliographyExamples | tests/codexium-magnus-core-tests/Configuration/CompositeConfigurationResolverTests.cpp:75-98 | a single source is returned as is; fields come from different sources by precedence |
| ConfigCs.FirstTypographySetting | src/CodexiumMagnus.Core/Configuration/CompositeConfigurationResolver.cs:24-48 | the first source that overrides a field does override it |
| ConfigCs.TypographyPrecedence | src/CodexiumMagnus.Core/Configuration/CompositeConfigurationResolver.cs:24-48 | each effective typography field comes from the first source that overrides it, else unset |
| ConfigCs.BlankFamilyKeepsLower | src/CodexiumMagnus.Core/Configuration/CompositeConfigurationResolver.cs:31-32 | a blank font family never overrides a lower source |
| ConfigCs.AnySizeOverrides | src/CodexiumMagnus.Core/Configuration/CompositeConfigurationResolver.cs:34-35 | any font size that is set overrides lower sources |
| ConfigCs.FirstBibliographySetting | src/CodexiumMagnus.Core/Configuration/CompositeConfigurationResolver.cs:50-71 | the first chosen value of a bibliography field is not blank |
| ConfigCs.BibliographyPrecedence | src/CodexiumMagnus.Core/Configuration/CompositeConfigurationResolver.cs:50-71 | each effective bibliography field is the first non-blank value among the sources, else unset |
| ConfigCs.CompositeConfigurationResolver.constructor | src/CodexiumMagnus.Core/Configuration/CompositeConfigurationResolver.cs:19-22 | the resolver keeps the given sources |
| ConfigCs.CompositeConfigurationResolver.GetEffectiveTypography | src/CodexiumMagnus.Core/Configuration/CompositeConfigurationResolver.cs:24-48 | the loop's result is the effective typography of the sources |
| ConfigCs.CompositeConfigurationResolver.GetEffectiveBibliography | src/CodexiumMagnus.Core/Configuration/CompositeConfigurationResolver.cs:50-71 | the loop's result is the effective bibliography of the sources |
| ConfigCs.Examples | tests/CodexiumMagnus.Core.Tests/Configuration/CompositeConfigurationResolverTests.cs:26-122 | the resolver's precedence on the test inputs |
| Search.WildcardTerm | src/codexium-magnus/Services/SearchService.cpp:184-191 | a term vanishes iff it is all stars; otherwise it ends in exactly one star, its only one |
| Search.BuildFtsQuery | src/codexium-magnus/Services/SearchService.cpp:158-221 | the loop-built query equals the compiled query |
| Search.CompiledHasNoControls | src/codexium-magnus/Services/SearchService.cpp:170-174 | no compiled query holds a control character |
| Search.BlankCompilesToEmpty | src/codexium-magnus/Services/SearchService.cpp:162-166 | a blank query compiles to the empty query |
| Search.PhraseRoundTrip | src/codexium-magnus/Services/SearchService.cpp:168-212 | a phrase query is quoted, and undoing the quote and backslash doubling gives back the trimmed query without control characters |
| Search.WildcardsBeatFuzzy | src/codexium-magnus/Services/SearchService.cpp:176-193 | with wildcards on, the fuzzy flag has no effect |
| Search.PlainWords | src/codexium-magnus/Services/SearchService.cpp:176-208 | plain words get a star each in wildcard mode, and are joined by NEAR/10 (or kept alone) in fuzzy mode |
| Search.StarsCompileToEmpty | src/codexium-magnus/Services/SearchService.cpp:176-192 | a query of stars alone compiles to the empty query |
| Search.SpacedStarsCompileToSpace | src/codexium-magnus/Services/SearchService.cpp:184-192 | two star-only terms compile to a single space, which is not empty |
| Search.Hits | src/codexium-magnus/Services/SearchService.cpp:80-92 | one hit per row in order, with the row's title and its snippet, or the title when the snippet is empty; so a snippet is empty only when the title is |
| Search.CollectHits | src/codexium-magnus/Services/SearchService.cpp:80-92 | the loop collects exactly the hits |
| Search.LikePattern | src/codexium-magnus/Services/SearchService.cpp:126-128 | the pattern is the query (lower-cased unless case-sensitive) between two percent signs |
| Search.PerformSearch | src/codexium-magnus/Services/SearchService.cpp:22-109 | the emitted event is the search outcome |
| Search.PerformFallbackSearch | src/codexium-magnus/Services/SearchService.cpp:111-156 | the emitted event is the fallback outcome |
| Search.FirstStopAt | src/codexium-magnus/Services/SearchService.cpp:27-58 | the first failing guard decides the error |
| Search.NoStop | src/codexium-magnus/Services/SearchService.cpp:27-58 | with no failing guard there is no error |
| Search.GuardOrder | src/codexium-magnus/Services/SearchService.cpp:27-108 | the first failing guard's error is reported; with none the FTS query runs |
| Search.BlankQueryReported | src/codexium-magnus/Services/SearchService.cpp:27-31 | a blank query is reported empty, whatever the backend |
| Search.StarsReportedInvalid | src/codexium-magnus/Services/SearchService.cpp:55-58 | a star-only wildcard query on a ready backend is reported invalid |
| Search.FallbackOnlyOnMissingTable | src/codexium-magnus/Services/SearchService.cpp:96-108 | an FTS error falls back to LIKE iff it names a missing table or content_fts; otherwise it is reported |
| Links.Normalize | src/codexium-magnus/Services/LinkService.cpp:68 | the stored form of a domain is lower case |
| Links.RemoveAll | src/codexium-magnus/Services/LinkService.cpp:80 | the element is gone, all others stay, nothing is added; an absent element changes nothing |
| Links.RemoveAllDistinct | src/codexium-magnus/Services/LinkService.cpp:74-81 | removal keeps the list free of case-insensitive duplicates |
| Links.EmptyEntryBlocksAll | src/codexium-magnus/Services/LinkService.cpp:53-58 | an empty entry blocks every host |
| Links.BlankDomainNormalizesEmpty | src/codexium-magnus/Services/LinkService.cpp:63-71 | a whitespace-only domain passes the emptiness check and is stored as the empty entry |
| Links.AddedDomainBlocks | src/codexium-magnus/Services/LinkService.cpp:53-71 | once a domain is added, every host containing it, in any case, is blocked |
| Links.LinkService.constructor | src/codexium-magnus/Services/LinkService.cpp:9-17 | http, https, mailto and ftp are allowed and nothing is blocked |
| Links.LinkService.ShouldOpenExternally | src/codexium-magnus/Services/LinkService.cpp:41-61 | the scan's answer is the policy: valid, allowed scheme, host containing no blocked entry |
| Links.LinkService.AddBlockedDomain | src/codexium-magnus/Services/LinkService.cpp:63-72 | empty input is ignored; a duplicate up to case is not added; otherwise the normalised domain is appended; the list stays normalised and duplicate-free |
| Links.LinkService.RemoveBlockedDomain | src/codexium-magnus/Services/LinkService.cpp:74-81 | empty input is ignored; otherwise every entry equal to the normalised domain is removed; the invariant is kept |
| Links.LinkService.OpenExternalLink | src/codexium-magnus/Services/LinkService.cpp:23-39 | invalid URLs and rejected URLs are blocked with their reasons; an accepted URL is opened or blocked by the desktop's answer; nothing rejected is ever opened |
| Links.DefaultSchemesDecide | tests/codexium-magnus-tests/Services/LinkServiceTests.cpp:15-43 | the default policy opens the four standard schemes and refuses `cdoc` and `file` |
| Cartridge.FileNameShape | src/codexium-magnus/Services/CartridgeService.cpp:33-69 | the file name is the slash-free tail of the path |
| Cartridge.TakeUntil | src/codexium-magnus/Services/CartridgeService.cpp:69 | the longest prefix without the character |
| Cartridge.BaseNameShape | src/codexium-magnus/Services/CartridgeService.cpp:69 | the base name is the file name up to its first dot |
| Cartridge.BaseNameInDirectory | src/codexium-magnus/Services/CartridgeService.cpp:69 | for a file in a directory the base name is its name up to the first dot |
| Cartridge.BaseNameNonEmpty | src/codexium-magnus/Services/CartridgeService.cpp:69 | a file name not starting with a dot has a non-empty base name |
| Cartridge.LatestIndex | src/codexium-magnus/Services/CartridgeService.cpp:176-184 | the item map holds the last earlier row with that id, or none |
| Cartridge.NodeFor | src/codexium-magnus/Services/CartridgeService.cpp:163-185 | a node's parent is always an earlier row |
| Cartridge.Navigation | src/codexium-magnus/Services/CartridgeService.cpp:147-192 | one node per row when the query runs; a single corpus node named after the cartridge when it fails |
| Cartridge.NavigationPlacement | src/codexium-magnus/Services/CartridgeService.cpp:160-185 | each node keeps its row's title, type and id; it hangs under the latest earlier row with its parent id, and at the root iff the parent id is empty or not seen yet |
| Cartridge.ForwardReferenceAtRoot | src/codexium-magnus/Services/CartridgeService.cpp:176-181 | a row whose parent comes later is placed at the root |
| Cartridge.LoadFailure | src/codexium-magnus/Services/CartridgeService.cpp:34-56 | loading fails iff the file is unreadable, the database does not open or the structure query fails |
| Cartridge.CartridgeService.constructor | src/codexium-magnus/Services/CartridgeService.cpp:11-22 | nothing loaded, empty path and name, Unverified, no signature service |
| Cartridge.CartridgeService.SetSignatureService | src/codexium-magnus/Services/CartridgeService.cpp:59-66 | records whether a signature service is present |
| Cartridge.CartridgeService.UnloadCartridge | src/codexium-magnus/Services/CartridgeService.cpp:78-94 | path, name and navigation are cleared, nothing is loaded, the trust level stays; cartridgeUnloaded is emitted exactly when a cartridge was loaded |
| Cartridge.CartridgeService.BuildNavigationModel | src/codexium-magnus/Services/CartridgeService.cpp:147-192 | the navigation becomes the tree of the query's rows |
| Cartridge.CartridgeService.LoadCartridge | src/codexium-magnus/Services/CartridgeService.cpp:28-76 | success iff no load failure; on failure the trust level is kept and the events are the unload signal (if one was loaded) then the error; on success path, base name, trust level (Unverified without a signature service) and navigation are set, and the events are the unload signal, trustLevelDetermined with the new level, then cartridgeLoaded |
| Cartridge.CartridgeService.HasDatabase | src/codexium-magnus/Services/CartridgeService.cpp:108-115 | a database is available iff a cartridge is loaded |
| Cartridge.CartridgeService.GetDocumentContent | src/codexium-magnus/Services/CartridgeService.cpp:121-209 | empty when nothing is loaded or no row matches, else the stored content |
| Cartridge.CartridgeService.GetDocumentList | src/codexium-magnus/Services/CartridgeService.cpp:129-145 | empty when nothing is loaded or the query fails, else the ids in query order |
| Cartridge.FailedReloadKeepsTrust | src/codexium-magnus/Services/CartridgeService.cpp:28-37 | a failed reload unloads the old cartridge but keeps its trust level |
| Themes.Zip | src/codexium-magnus/Theme/ThemeManager.cpp:131-204 | pairs each token name with its value, in order |
| Themes.ThemeTokens | src/codexium-magnus/Theme/ThemeManager.cpp:131-204 | the three built-in themes have 19 tokens each, in key order; a custom theme has none |
| Themes.ThemeTokensSorted | src/codexium-magnus/Theme/ThemeManager.cpp:131-204 | every built-in token map is strictly sorted with non-empty keys |
| Themes.TokenValue | src/codexium-magnus/Theme/ThemeManager.cpp:99-101 | an unknown token reads as empty |
| Themes.TokenValueAt | src/codexium-magnus/Theme/ThemeManager.cpp:99-101 | in a sorted map each token reads as its own value |
| Themes.ApplyTokensAsWritten | src/codexium-magnus/Theme/ThemeManager.cpp:209-218 | the as-written substitution leaves a stylesheet mentioning no token unchanged |
| Themes.AsWrittenReplacesUnnestedToken | src/codexium-magnus/Theme/ThemeManager.cpp:209-218 | in ascending key order a token becomes exactly its value when no other token occurs inside it and no value holds a token |
| Themes.ApplyTokensAbsent | src/codexium-magnus/Theme/ThemeManager.cpp:209-218 | in the corrected (descending key) order, a stylesheet mentioning no token is left unchanged |
| Themes.DescendingOrderReplacesWholeToken | src/codexium-magnus/Theme/ThemeManager.cpp:209-218 | with tokens replaced in descending key order, so that a token goes before any token that is a prefix of it, every token becomes exactly its value |
| Themes.PrefixTokenClobbered | src/codexium-magnus/Theme/ThemeManager.cpp:209-218 | in ascending key order `--color-link-hover` becomes "#0066CC-hover"; descending order gives "#004499" |
| Themes.SavedPrefs | src/codexium-magnus/Theme/ThemeManager.cpp:299-305 | the theme is always written; the custom path only for a custom theme with a path |
| Themes.PreferenceRoundTrip | src/codexium-magnus/Theme/ThemeManager.cpp:299-314 | loading after saving gives back the theme, and the custom path when one was saved |
| Themes.EmptyCustomPathReadsOlder | src/codexium-magnus/Theme/ThemeManager.cpp:299-314 | saving a custom theme without a path reads back the older path |
| Themes.ThemeManager.constructor | src/codexium-magnus/Theme/ThemeManager.cpp:12-20 | the saved preference is loaded, the theme's tokens are set up, and the stylesheet is its file or the generated one with the tokens replaced in ascending key order |
| Themes.ThemeManager.LoadThemeTokens | src/codexium-magnus/Theme/ThemeManager.cpp:131-207 | the tokens become the theme's built-in map and tokensChanged is emitted |
| Themes.ThemeManager.ApplyTokensToStylesheet | src/codexium-magnus/Theme/ThemeManager.cpp:209-218 | the loop's result is the as-written substitution: each token replaced in turn, in ascending key order |
| Themes.ThemeManager.LoadDefaultTheme | src/codexium-magnus/Theme/ThemeManager.cpp:103-129 | tokens of the theme (tokensChanged emitted), and its file's stylesheet or the generated one, with the tokens replaced in ascending key order |
| Themes.ThemeManager.SetTheme | src/codexium-magnus/Theme/ThemeManager.cpp:26-34 | re-selecting the current built-in theme changes nothing and emits nothing; otherwise the theme is loaded (tokensChanged) and themeChanged is emitted once, after it |
| Themes.ThemeManager.LoadCustomTheme | src/codexium-magnus/Theme/ThemeManager.cpp:36-57 | a missing file changes nothing; an existing one becomes the custom theme; a readable one replaces the stylesheet, with the tokens replaced in ascending key order, and themeChanged(Custom) is emitted |
| Themes.ThemeManager.GetToken | src/codexium-magnus/Theme/ThemeManager.cpp:99-101 | the value of the named token, or empty |
| Themes.ThemeManager.SaveThemePreference | src/codexium-magnus/Theme/ThemeManager.cpp:299-305 | the settings become the saved preference |
| Themes.ThemeManager.LoadThemePreference | src/codexium-magnus/Theme/ThemeManager.cpp:307-314 | the theme and, for a custom theme, the path are read from settings |
| Themes.LightTokenLookups | src/codexium-magnus/Theme/ThemeManager.cpp:136-155 | the light theme's link-hover token reads as its colour #004499 |
| Themes.UnknownTokenReadsEmpty | tests/codexium-magnus-tests/Theme/ThemeManagerTests.cpp:109-113 | a name that is no token (such as "nonexistent_token_xyz") reads as the empty string in every theme |
| Viewer.Clamp | src/codexium-magnus/MainWindow.cpp:751-769 | the factor is kept in [0.25, 5.0], unchanged inside, the nearer bound outside |
| Viewer.ClampProperties | src/codexium-magnus/MainWindow.cpp:751-769 | clamping is idempotent and monotone |
| Viewer.TokenLinesAt | src/codexium-magnus/MainWindow.cpp:684-702 | each token's CSS line sits between the lines of earlier and later tokens |
| Viewer.ThemeCssShape | src/codexium-magnus/MainWindow.cpp:684-702 | the CSS block holds one custom-property line per token, in token order, between the fixed prefix and rules |
| Viewer.BuildCss | src/codexium-magnus/MainWindow.cpp:684-702 | the loop-built block is the theme CSS |
| Viewer.InsertionPoint | src/codexium-magnus/MainWindow.cpp:705-722 | before the first `</head>` (any case), else before the first `<body`, else at the start |
| Viewer.InsertAt | src/codexium-magnus/MainWindow.cpp:705-722 | inserting the CSS block at a position keeps the length sum, puts the block at that position, and removing it gives back the document |
| Viewer.InsertedBeforeTag | src/codexium-magnus/MainWindow.cpp:705-722 | the tag found follows the CSS immediately; without either tag the CSS is prepended |
| Viewer.WrapContent | src/codexium-magnus/MainWindow.cpp:679-723 | the wrapped document is the CSS of the tokens injected at the insertion point |
| Viewer.SessionSettingsWin | src/codexium-magnus/MainWindow.cpp:157-167 | a value set in the session overrides profile, corpus and system |
| Viewer.UserProfileBeforeSession | src/codexium-magnus/MainWindow.cpp:55-91 | without session settings the profile (with its own defaults) decides family and style before the system |
| Viewer.MainWindow.constructor | src/codexium-magnus/MainWindow.cpp:137-143 | the stored zoom is clamped; no document and no session settings |
| Viewer.MainWindow.WrapContentWithTheme | src/codexium-magnus/MainWindow.cpp:679-723 | the current theme's CSS injected into the document |
| Viewer.MainWindow.LoadDocument | src/codexium-magnus/MainWindow.cpp:497-507 | with a cartridge and content, the content is shown wrapped; otherwise nothing changes |
| Viewer.MainWindow.OnSettingsAccepted | src/codexium-magnus/MainWindow.cpp:590-615 | the session source is replaced, so the resolver's sources put it first; an open document is re-shown |
| Viewer.MainWindow.SetZoomFactor | src/codexium-magnus/MainWindow.cpp:751-769 | the zoom becomes the clamped factor |
| Viewer.MainWindow.OnZoomIn | src/codexium-magnus/MainWindow.cpp:731-737 | one step up, stopping at the maximum |
| Viewer.MainWindow.OnZoomOut | src/codexium-magnus/MainWindow.cpp:739-745 | one step down, stopping at the minimum |
| Viewer.MainWindow.OnZoomReset | src/codexium-magnus/MainWindow.cpp:747-749 | back to 100% |
| Viewer.DocumentViewerWindow.constructor | src/codexium-magnus/UI/DocumentViewerWindow.cpp:16-31 | name, path and theme manager kept; the stored zoom taken without clamping |
| Viewer.DocumentViewerWindow.WrapContentWithTheme | src/codexium-magnus/UI/DocumentViewerWindow.cpp:169-217 | without a theme manager the document is unchanged; otherwise its CSS is injected |
| Viewer.DocumentViewerWindow.LoadDocument | src/codexium-magnus/UI/DocumentViewerWindow.cpp:91-99 | id and content recorded and the wrapped content shown |
| Viewer.DocumentViewerWindow.UpdateTheme | src/codexium-magnus/UI/DocumentViewerWindow.cpp:101-106 | an open document is re-shown with the current theme; none leaves the view as it is |
| Viewer.DocumentViewerWindow.SetZoomFactor | src/codexium-magnus/UI/DocumentViewerWindow.cpp:108-119 | the zoom becomes the clamped factor |
| Viewer.DocumentViewerWindow.OnZoomIn | src/codexium-magnus/UI/DocumentViewerWindow.cpp:121-123 | the clamped step up; from an unclamped stored zoom above the maximum it lowers the zoom |
| Viewer.DocumentViewerWindow.OnZoomOut | src/codexium-magnus/UI/DocumentViewerWindow.cpp:125-127 | the clamped step down; from a stored zoom below the minimum it raises the zoom |
| Viewer.DocumentViewerWindow.OnZoomReset | src/codexium-magnus/UI/DocumentViewerWindow.cpp:129-131 | back to 100% |
| Reporting.SeverityNameRoundTrip | src/codexium-magnus-core/Reporting/ReportWriter.cpp:47-57 | each severity's spelling reads back as that severity |
| Reporting.SourceCell | src/codexium-magnus-core/Reporting/ReportWriter.cpp:59 | never empty; a non-empty source is written as it is |
| Reporting.TitleCell | src/codexium-magnus-core/Reporting/ReportWriter.cpp:60-61 | same length, no `|`, every other character kept |
| Reporting.Rows | src/codexium-magnus-core/Reporting/ReportWriter.cpp:45-68 | one row per entry |
| Reporting.RowsInOrder | src/codexium-magnus-core/Reporting/ReportWriter.cpp:45-68 | each entry's row follows the rows of earlier entries and precedes later ones |
| Reporting.RowSeparators | src/codexium-magnus-core/Reporting/ReportWriter.cpp:59-67 | a row has five column bars plus those in the timestamp and source; the title adds none |
| Reporting.JsonObject | src/codexium-magnus-core/Reporting/ReportWriter.cpp:78-101 | each object has exactly the five keys |
| Reporting.JsonRoundTrip | src/codexium-magnus-core/Reporting/ReportWriter.cpp:78-101 | reading an entry's object back gives the entry |
| Reporting.ReportWriter.constructor | src/codexium-magnus-core/Reporting/ReportWriter.cpp:12-14 | a new writer has no entries |
| Reporting.ReportWriter.Add | src/codexium-magnus-core/Reporting/ReportWriter.cpp:12-14 | the entry is appended |
| Reporting.ReportWriter.AddFields | src/codexium-magnus-core/Reporting/ReportWriter.cpp:16-25 | an entry stamped with the current time is appended |
| Reporting.ReportWriter.WriteMarkdown | src/codexium-magnus-core/Reporting/ReportWriter.cpp:27-69 | the written text is the header followed by one row per entry in order |
| Reporting.ReportWriter.WriteJson | src/codexium-magnus-core/Reporting/ReportWriter.cpp:71-108 | one object per entry in order, each reading back to its entry |
| ReportingCs.SourceCell | src/CodexiumMagnus.Core/Reporting/ReportWriter.cs:54 | never blank; a non-blank source is written as it is; a null or blank one as "-" |
| ReportingCs.Rows | src/CodexiumMagnus.Core/Reporting/ReportWriter.cs:47-57 | one row per entry |
| ReportingCs.RowsInOrder | src/CodexiumMagnus.Core/Reporting/ReportWriter.cs:47-57 | each entry's row follows the rows of earlier entries and precedes later ones |
| ReportingCs.SourceCellsCompared | src/CodexiumMagnus.Core/Reporting/ReportWriter.cs:54 | the .NET and C++ writers agree except on a whitespace-only source |
| ReportingCs.ReportWriter.constructor | src/CodexiumMagnus.Core/Reporting/ReportWriter.cs:12-16 | a new writer has no entries |
| ReportingCs.ReportWriter.Add | src/CodexiumMagnus.Core/Reporting/ReportWriter.cs:18-22 | a null entry is refused and leaves the list; otherwise the entry is appended |
| ReportingCs.ReportWriter.AddFields | src/CodexiumMagnus.Core/Reporting/ReportWriter.cs:24-33 | an entry stamped with the current time is appended |
| ReportingCs.ReportWriter.WriteMarkdown | src/CodexiumMagnus.Core/Reporting/ReportWriter.cs:35-61 | the written text is the header followed by one row per entry in order |

## Left out

- Ed25519, SHA-256, Base64, UTF-8 and JSON parsing are foreign libraries; they are fields of `Primitives.Suite`, and only the laws stated in `Primitives.Sound` are assumed of them where a lemma requires it.
- `SignatureService::readManifest` is a stub returning nothing; it is modelled by the manifest bytes carried in a cartridge, and `Signature.StubReaderMakesInvalid` states what the stub implies.
- File, database and settings I/O (QFile, QSqlDatabase, QSettings, QStandardPaths) are parameters (`LoadEnv`, `Backend`, `Prefs`, settings records, `themeFile`).
- The signals of the modelled services are returned as lists of events, in the order they are emitted; connections between objects are left out.
- Themes.ThemeManager.constructor: does not return the tokensChanged signal that the constructor's call to loadDefaultTheme emits, because a constructor has no result; no receiver can be connected to the object before it exists.
- Signals of the window code outside the themed display (`windowClosed` of the viewer window's close event, the dialogs and panes) are left out with that code.
- ConfigCs: a null source in the C# resolver's list makes `GetEffectiveTypography` and `GetEffectiveBibliography` throw NullReferenceException; the `Source` type cannot be null, so that exception is not modelled.
- `QStandardItemModel` is modelled as a list of nodes with parent indices; item ownership is left out.
- `Search.PerformSearch`: the `LIMIT 100` and the ranking are the database's; rows are taken as the backend returns them.
- Case mapping (`toLower`, `Qt::CaseInsensitive`) is modelled on ASCII letters only.
- `QString::trimmed` and `String.IsNullOrWhiteSpace` use a fixed whitespace set (`Text.IsSpace`); `\s` in `QRegularExpression` is ASCII whitespace.
- Zoom factors are real numbers, not doubles; rounding of the 0.1 step is left out, and so is the percentage label.
- Config, ConfigCs and Viewer.UserProfileSource: the C++ `double` and C# `double?` typography and print fields, and the `toDouble()` values read from the settings store, are modelled as real numbers; NaN and the infinities are not modelled. So the model cannot express that a NaN size or margin never passes the C++ `> 0` checks, while the C# `HasValue` checks let it win.
- Themes.ThemeManager.LoadThemePreference: the stored theme is modelled as one of the four themes, but the source casts whatever integer is stored to the enum without a range check. A value outside 0..3 is not modelled: the source then loads no tokens (no case of `loadThemeTokens` matches), so the token map stays empty and the stylesheet keeps its raw `--token` names.
- Stylesheet application to the running application (`applyStylesheet`, `currentPalette`) is left out; the processed stylesheet is kept as a value.
- `MainWindow::pushConfigToWebEngine` and the web-engine bridge are left out (they pass the resolved configuration to JavaScript).
- The window's resolver holds pointers to the four sources; the model recomputes the source list from the window's fields, so aliasing is not modelled.
- `ReportingCs`: the .NET `WriteJson` uses the library serializer and is left out; `Environment.NewLine` is a parameter.
- Timestamps are opaque strings supplied by the caller.
- UI construction (menus, toolbars, dialogs, status bars) and window state persistence are left out.

## Findings

| source | as written | input that shows it | evidently intended | confidence | as-written member | corrected member |
|---|---|---|---|---|---|---|
| src/codexium-magnus/Theme/ThemeManager.cpp:209-218 | tokens are replaced in QMap key order, so a token that is a prefix of a longer one is replaced inside it first | light theme tokens `--color-link` = `#0066CC` and `--color-link-hover` = `#004499`; the stylesheet text `--color-link-hover` becomes `#0066CC-hover` | each token name is replaced by its own value (a token before any token that is a prefix of it) | not executed | Themes.PrefixTokenClobbered | Themes.DescendingOrderReplacesWholeToken |

The theme manager runs the substitution as written (`Themes.ApplyTokensAsWritten`), so the stylesheets it holds show the defect; `Themes.ApplyTokens` is the corrected order, and `Themes.DescendingOrderReplacesWholeToken` is proved about it.
