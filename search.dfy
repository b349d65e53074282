/** Full-text search: the compiler from a user query to an FTS5 MATCH
    expression, and the chain of guards, the FTS query and the LIKE fallback
    that turn a query into either a list of (title, snippet) hits or an error
    message. The database is reached only through the outcome functions of a
    `Backend`. */
module Search {
  import opened Text

  // ---------------------------------------------------------------------------
  // Query compilation

  /** The two escapes, in order: backslashes doubled, then double quotes doubled. */
  function Escape(s: string): string {
    ReplaceAll(ReplaceAll(s, "\\", "\\\\"), "\"", "\"\"")
  }

  /** The trimmed query, escaped and with every character below U+0020 removed. */
  function Cleaned(query: string): string {
    StripControls(Escape(Trim(query)))
  }

  /** A wildcard term: every '*' removed, then one '*' appended unless nothing
      is left. */
  function WildcardTerm(term: string): (r: string)
    ensures r == [] <==> forall i :: 0 <= i < |term| ==> term[i] == '*'
    ensures r != [] ==> r[|r| - 1] == '*' && '*' !in r[..|r| - 1]
  {
    var kept := RemoveChar(term, '*');
    RemoveCharEmpty(term, '*');
    if kept == [] then [] else kept + "*"
  }

  function WildcardTerms(terms: seq<string>): (r: seq<string>)
    ensures |r| == |terms|
  {
    seq(|terms|, i requires 0 <= i < |terms| => WildcardTerm(terms[i]))
  }

  /** What buildFtsQuery returns. The case-sensitivity flag plays no part. */
  function CompileQuery(query: string, fuzzy: bool, wildcards: bool): string {
    if Trim(query) == [] then [] else CompileCleaned(Cleaned(query), fuzzy, wildcards)
  }

  /** The mode-dependent last step, applied to the cleaned query. */
  function CompileCleaned(q: string, fuzzy: bool, wildcards: bool): string {
    if wildcards then
      var terms := SplitWords(q);
      if terms == [] then [] else Join(WildcardTerms(terms), " ")
    else if fuzzy then
      var terms := SplitWords(q);
      if terms == [] then [] else if |terms| > 1 then Join(terms, " NEAR/10 ") else terms[0]
    else
      "\"" + q + "\""
  }

  /** buildFtsQuery, step by step as the service runs it. */
  method BuildFtsQuery(query: string, caseSensitive: bool, fuzzy: bool, wildcards: bool)
    returns (ftsQuery: string)
    ensures ftsQuery == CompileQuery(query, fuzzy, wildcards)
  {
    ftsQuery := Trim(query);
    if ftsQuery == [] {
      return [];
    }
    ftsQuery := ReplaceAll(ftsQuery, "\\", "\\\\");
    ftsQuery := ReplaceAll(ftsQuery, "\"", "\"\"");
    ftsQuery := StripControls(ftsQuery);
    if wildcards {
      var terms := SplitWords(ftsQuery);
      if terms == [] {
        return [];
      }
      ghost var split := terms;
      var i := 0;
      while i < |terms|
        invariant 0 <= i <= |terms| == |split|
        invariant forall k :: 0 <= k < i ==> terms[k] == WildcardTerm(split[k])
        invariant forall k :: i <= k < |terms| ==> terms[k] == split[k]
      {
        var term := RemoveChar(terms[i], '*');
        if term != [] {
          term := term + "*";
        }
        terms := terms[i := term];
        i := i + 1;
      }
      assert terms == WildcardTerms(split);
      ftsQuery := Join(terms, " ");
    } else if fuzzy {
      var terms := SplitWords(ftsQuery);
      if terms == [] {
        return [];
      }
      if |terms| > 1 {
        ftsQuery := Join(terms, " NEAR/10 ");
      } else {
        ftsQuery := terms[0];
      }
    } else {
      ftsQuery := "\"" + ftsQuery + "\"";
    }
  }

  lemma {:induction false} RemoveCharEmpty(s: string, c: char)
    ensures RemoveChar(s, c) == [] <==> forall i :: 0 <= i < |s| ==> s[i] == c
  {
    if s != [] {
      RemoveCharEmpty(s[1..], c);
      if s[0] == c {
        assert forall i :: 1 <= i < |s| ==> s[i] == s[1..][i - 1];
      }
    }
  }

  lemma {:induction false} RemoveCharAbsent(s: string, c: char)
    requires c !in s
    ensures RemoveChar(s, c) == s
  {
    if s != [] { RemoveCharAbsent(s[1..], c); }
  }

  // ---------------------------------------------------------------------------
  // Properties of the compiled query

  lemma NoControlJoin(parts: seq<string>, sep: string)
    requires NoControl(sep) && forall k :: 0 <= k < |parts| ==> NoControl(parts[k])
    ensures NoControl(Join(parts, sep))
  {
  }

  lemma {:induction false} SplitWordsInfix(s: string)
    requires NoControl(s)
    ensures forall k :: 0 <= k < |SplitWords(s)| ==> NoControl(SplitWords(s)[k])
    decreases |s|
  {
    if s != [] {
      if IsRegexSpace(s[0]) {
        SplitWordsInfix(s[1..]);
      } else {
        var n := WordLength(s);
        SplitWordsInfix(s[n..]);
        assert SplitWords(s) == [s[..n]] + SplitWords(s[n..]);
      }
    }
  }

  lemma {:induction false} RemoveCharNoControl(s: string, c: char)
    requires NoControl(s)
    ensures NoControl(RemoveChar(s, c))
  {
    if s != [] { RemoveCharNoControl(s[1..], c); }
  }

  /** The compiled query never contains a character below U+0020. */
  lemma CompiledHasNoControls(query: string, fuzzy: bool, wildcards: bool)
    ensures NoControl(CompileQuery(query, fuzzy, wildcards))
  {
    if Trim(query) != [] {
      CleanedHasNoControls(Cleaned(query), fuzzy, wildcards);
    }
  }

  lemma CleanedHasNoControls(q: string, fuzzy: bool, wildcards: bool)
    requires NoControl(q)
    ensures NoControl(CompileCleaned(q, fuzzy, wildcards))
  {
    {
      var terms := SplitWords(q);
      SplitWordsInfix(q);
      if wildcards && terms != [] {
        var w := WildcardTerms(terms);
        forall k | 0 <= k < |w| ensures NoControl(w[k]) {
          RemoveCharNoControl(terms[k], '*');
        }
        NoControlJoin(w, " ");
      } else if fuzzy && |terms| > 1 {
        NoControlJoin(terms, " NEAR/10 ");
      }
    }
  }

  /** A query that is empty after trimming compiles to the empty string. */
  lemma BlankCompilesToEmpty(query: string, fuzzy: bool, wildcards: bool)
    requires AllSpace(query)
    ensures CompileQuery(query, fuzzy, wildcards) == []
  {
    TrimIsInfix(query);
  }

  /** The escaping is faithful: in exact-phrase mode the output is one pair of
      quotes around a body that, with doubled quotes and then doubled
      backslashes read back, is the trimmed query without its control
      characters. */
  lemma PhraseRoundTrip(query: string, fuzzy: bool)
    requires Trim(query) != []
    ensures var r := CompileQuery(query, fuzzy, false);
      fuzzy || (|r| >= 2 && r[0] == '"' && r[|r| - 1] == '"'
        && Undouble(Undouble(r[1..|r| - 1], '"'), '\\') == StripControls(Trim(query)))
  {
    if !fuzzy {
      var t := Trim(query);
      var r := CompileQuery(query, fuzzy, false);
      ReplaceIsDouble(t, '\\');
      ReplaceIsDouble(DoubleChar(t, '\\'), '"');
      assert Escape(t) == DoubleChar(DoubleChar(t, '\\'), '"');
      StripControlsDouble(DoubleChar(t, '\\'), '"');
      StripControlsDouble(t, '\\');
      assert r == "\"" + Cleaned(query) + "\"";
      assert r[1..|r| - 1] == Cleaned(query);
      UndoubleDouble(DoubleChar(StripControls(t), '\\'), '"');
      UndoubleDouble(StripControls(t), '\\');
    }
  }

  /** Wildcard mode wins over fuzzy mode. */
  lemma WildcardsBeatFuzzy(query: string)
    ensures CompileQuery(query, true, true) == CompileQuery(query, false, true)
  {
  }

  /** A query with no whitespace at either end, no quote, no backslash and no
      control character is left as it is by trimming, escaping and cleaning. */
  lemma CleanedPlain(q: string)
    requires q != [] && !IsSpace(q[0]) && !IsSpace(q[|q| - 1])
    requires NoControl(q) && '"' !in q && '\\' !in q
    ensures Trim(q) == q && Cleaned(q) == q
  {
    TrimPlain(q);
    ReplaceIsDouble(q, '\\');
    DoubleAbsent(q, '\\');
    ReplaceIsDouble(q, '"');
    DoubleAbsent(q, '"');
    StripControlsNone(q);
  }

  /** Words free of quotes, backslashes and control characters, written with
      single spaces: wildcard mode gives each word with its stars moved to one
      trailing '*'; fuzzy mode joins the words with NEAR/10 and returns a
      single word as it is. */
  lemma PlainWords(words: seq<string>)
    requires |words| > 0
    requires forall k :: 0 <= k < |words| ==>
      (words[k] != [] && NoRegexSpace(words[k])
      && NoControl(words[k]) && '"' !in words[k] && '\\' !in words[k]
      && !IsSpace(words[k][0]) && !IsSpace(words[k][|words[k]| - 1]))
    ensures CompileQuery(Join(words, " "), false, true) == Join(WildcardTerms(words), " ")
    ensures |words| > 1 ==> CompileQuery(Join(words, " "), true, false) == Join(words, " NEAR/10 ")
    ensures |words| == 1 ==> CompileQuery(Join(words, " "), true, false) == words[0]
  {
    var q := Join(words, " ");
    PlainJoin(words);
    CleanedPlain(q);
    SplitJoin(words);
    assert SplitWords(Cleaned(q)) == words;
    assert CompileQuery(q, false, true) == CompileCleaned(q, false, true);
    assert CompileQuery(q, true, false) == CompileCleaned(q, true, false);
  }

  /** What joining plain words with single spaces contains. */
  lemma {:induction false} PlainJoin(words: seq<string>)
    requires |words| > 0
    requires forall k :: 0 <= k < |words| ==>
      (words[k] != [] && NoControl(words[k]) && '"' !in words[k] && '\\' !in words[k]
      && !IsSpace(words[k][0]) && !IsSpace(words[k][|words[k]| - 1]))
    ensures var q := Join(words, " ");
      q != [] && NoControl(q) && '"' !in q && '\\' !in q && !IsSpace(q[0]) && !IsSpace(q[|q| - 1])
  {
    if |words| > 1 {
      PlainJoin(words[1..]);
      var q := Join(words, " ");
      var rest := Join(words[1..], " ");
      assert q == words[0] + " " + rest;
      assert q[|q| - 1] == rest[|rest| - 1];
    }
  }

  /** A string with no whitespace at either end is its own trim. */
  lemma TrimPlain(s: string)
    requires s != [] && !IsSpace(s[0]) && !IsSpace(s[|s| - 1])
    ensures Trim(s) == s
  {
  }

  /** A single word made only of '*' compiles to the empty string in wildcard
      mode. */
  lemma StarsCompileToEmpty(query: string, fuzzy: bool)
    requires query != [] && forall i :: 0 <= i < |query| ==> query[i] == '*'
    ensures CompileQuery(query, fuzzy, true) == []
  {
    PlainWords([query]);
  }

  /** Two words of stars are two empty terms, and joining them leaves a single
      space, which is not empty. */
  lemma SpacedStarsCompileToSpace()
    ensures CompileQuery("* *", false, true) == " "
  {
    var words := ["*", "*"];
    assert Join(words, " ") == "* *" by { assert Join(words[1..], " ") == "*"; }
    assert WildcardTerm("*") == [];
    assert WildcardTerms(words) == ["", ""];
    PlainWords(words);
    assert Join(["", ""], " ") == " " by { assert Join([""], " ") == ""; }
  }

  // ---------------------------------------------------------------------------
  // Search dispatch

  datatype Row = Row(title: string, snippet: string, documentId: string)

  /** What QSqlQuery::exec and the rows it yields come to: the rows, or the
      text of the error. */
  datatype QueryOutcome = Rows(rows: seq<Row>) | SqlError(text: string)

  /** What performSearch can observe of the rest of the application: whether a
      cartridge service is attached, whether it has a cartridge loaded,
      whether it is the concrete CartridgeService, whether its database is
      open, and what the FTS query (given its bound MATCH expression) and the
      fallback LIKE query (given its bound pattern) return. */
  datatype Backend = Backend(
    hasService: bool,
    cartridgeLoaded: bool,
    isCartridgeService: bool,
    databaseOpen: bool,
    runFts: string -> QueryOutcome,
    runLike: string -> QueryOutcome)

  /** The signal performSearch ends with. */
  datatype SearchEvent = SearchError(message: string) | SearchCompleted(results: seq<(string, string)>)

  /** One hit: the title, and the snippet, or the title when the snippet is empty. */
  function Hit(row: Row): (string, string) {
    (row.title, if row.snippet == [] then row.title else row.snippet)
  }

  function Hits(rows: seq<Row>): (r: seq<(string, string)>)
    ensures |r| == |rows|
    ensures forall i :: 0 <= i < |rows| ==> r[i].0 == rows[i].title
    ensures forall i :: 0 <= i < |rows| && rows[i].snippet != [] ==> r[i].1 == rows[i].snippet
    ensures forall i :: 0 <= i < |rows| && rows[i].snippet == [] ==> r[i].1 == rows[i].title
    ensures forall i :: 0 <= i < |rows| ==> r[i].1 == [] ==> rows[i].title == []
  {
    seq(|rows|, i requires 0 <= i < |rows| => Hit(rows[i]))
  }

  /** The result-reading loop shared by the FTS and the fallback paths. */
  method CollectHits(rows: seq<Row>) returns (results: seq<(string, string)>)
    ensures results == Hits(rows)
  {
    results := [];
    var i := 0;
    while i < |rows|
      invariant 0 <= i <= |rows|
      invariant results == Hits(rows[..i])
    {
      var title := rows[i].title;
      var snippet := rows[i].snippet;
      if snippet == [] {
        snippet := title;
      }
      results := results + [(title, snippet)];
      i := i + 1;
    }
    assert rows[..i] == rows;
  }

  /** The bound LIKE pattern: the query between two '%', lowercased unless the
      search is case-sensitive. */
  function LikePattern(query: string, caseSensitive: bool): (p: string)
    ensures |p| == |query| + 2 && p[0] == '%' && p[|p| - 1] == '%'
    ensures caseSensitive ==> p[1..|p| - 1] == query
    ensures !caseSensitive ==> IsLower(p[1..|p| - 1])
  {
    ToLowerIsLower(query);
    "%" + (if caseSensitive then query else ToLower(query)) + "%"
  }

  /** The FTS error texts that send the search to the fallback. */
  predicate FallsBack(error: string) {
    ContainsCI(error, "no such table") || ContainsCI(error, "content_fts")
  }

  /** The checks performSearch makes, in order, each with whether it stops
      the search and the error it then reports, given the trimmed query and
      the FTS query compiled from it. */
  function Guards(trimmed: string, ftsQuery: string, b: Backend): seq<(bool, string)> {
    [ (trimmed == [], "Search query is empty"),
      (!b.hasService || !b.cartridgeLoaded, "No cartridge loaded"),
      (!b.isCartridgeService, "Invalid cartridge service"),
      (!b.databaseOpen, "Database connection not available"),
      (ftsQuery == [], "Invalid search query") ]
  }

  function FirstStop(guards: seq<(bool, string)>): Option<string> {
    if guards == [] then None
    else if guards[0].0 then Some(guards[0].1)
    else FirstStop(guards[1..])
  }

  /** The event performSearch ends with. */
  function SearchOutcome(query: string, caseSensitive: bool, fuzzy: bool, wildcards: bool, b: Backend)
    : SearchEvent
  {
    var trimmed := Trim(query);
    Dispatch(trimmed, CompileQuery(trimmed, fuzzy, wildcards), caseSensitive, b)
  }

  /** The guard chain of performSearch over the trimmed query and its compiled
      FTS query. */
  function Dispatch(trimmed: string, ftsQuery: string, caseSensitive: bool, b: Backend): SearchEvent {
    if trimmed == [] then SearchError("Search query is empty")
    else if !b.hasService || !b.cartridgeLoaded then SearchError("No cartridge loaded")
    else if !b.isCartridgeService then SearchError("Invalid cartridge service")
    else if !b.databaseOpen then SearchError("Database connection not available")
    else if ftsQuery == [] then SearchError("Invalid search query")
    else FtsOutcome(trimmed, caseSensitive, b, b.runFts(ftsQuery))
  }

  /** The event once the FTS query has run: its hits, the fallback's outcome
      when the error names a missing table, or the error. */
  function FtsOutcome(trimmed: string, caseSensitive: bool, b: Backend, fts: QueryOutcome): SearchEvent {
    match fts
    case Rows(rows) => SearchCompleted(Hits(rows))
    case SqlError(error) =>
      if FallsBack(error) then FallbackOutcome(trimmed, caseSensitive, b)
      else SearchError("Search failed: " + error)
  }

  /** The event of performFallbackSearch. */
  function FallbackOutcome(query: string, caseSensitive: bool, b: Backend): SearchEvent {
    match b.runLike(LikePattern(query, caseSensitive))
    case Rows(rows) => SearchCompleted(Hits(rows))
    case SqlError(e) => SearchError("Fallback search failed: " + e)
  }

  /** performSearch followed into performFallbackSearch when needed. */
  method PerformSearch(query: string, caseSensitive: bool, fuzzy: bool, wildcards: bool, b: Backend)
    returns (event: SearchEvent)
    ensures event == SearchOutcome(query, caseSensitive, fuzzy, wildcards, b)
  {
    var trimmedQuery := Trim(query);
    if trimmedQuery == [] {
      return SearchError("Search query is empty");
    }
    if !b.hasService || !b.cartridgeLoaded {
      return SearchError("No cartridge loaded");
    }
    if !b.isCartridgeService {
      return SearchError("Invalid cartridge service");
    }
    if !b.databaseOpen {
      return SearchError("Database connection not available");
    }
    var ftsQuery := BuildFtsQuery(trimmedQuery, caseSensitive, fuzzy, wildcards);
    if ftsQuery == [] {
      return SearchError("Invalid search query");
    }
    match b.runFts(ftsQuery) {
      case Rows(rows) =>
        var results := CollectHits(rows);
        event := SearchCompleted(results);
      case SqlError(error) =>
        if FallsBack(error) {
          event := PerformFallbackSearch(trimmedQuery, caseSensitive, b);
        } else {
          event := SearchError("Search failed: " + error);
        }
    }
  }

  /** performFallbackSearch */
  method PerformFallbackSearch(query: string, caseSensitive: bool, b: Backend) returns (event: SearchEvent)
    ensures event == FallbackOutcome(query, caseSensitive, b)
  {
    var searchPattern := if caseSensitive then "%" + query + "%" else "%" + ToLower(query) + "%";
    match b.runLike(searchPattern) {
      case Rows(rows) =>
        var results := CollectHits(rows);
        event := SearchCompleted(results);
      case SqlError(error) =>
        event := SearchError("Fallback search failed: " + error);
    }
  }

  lemma {:induction false} FirstStopAt(guards: seq<(bool, string)>, i: nat)
    requires i < |guards| && guards[i].0 && forall j :: 0 <= j < i ==> !guards[j].0
    ensures FirstStop(guards) == Some(guards[i].1)
  {
    if i > 0 { FirstStopAt(guards[1..], i - 1); }
  }

  lemma {:induction false} NoStop(guards: seq<(bool, string)>)
    requires forall j :: 0 <= j < |guards| ==> !guards[j].0
    ensures FirstStop(guards) == None
  {
    if guards != [] { NoStop(guards[1..]); }
  }

  /** The guards are checked in order and the first that stops the search
      decides the error; only when none stops is the FTS query run. */
  lemma GuardOrder(trimmed: string, ftsQuery: string, caseSensitive: bool, b: Backend)
    ensures FirstStop(Guards(trimmed, ftsQuery, b)).Some? ==>
      Dispatch(trimmed, ftsQuery, caseSensitive, b) == SearchError(FirstStop(Guards(trimmed, ftsQuery, b)).value)
    ensures FirstStop(Guards(trimmed, ftsQuery, b)).None? ==>
      Dispatch(trimmed, ftsQuery, caseSensitive, b) == FtsOutcome(trimmed, caseSensitive, b, b.runFts(ftsQuery))
  {
    var guards := Guards(trimmed, ftsQuery, b);
    if guards[0].0 { FirstStopAt(guards, 0); }
    else if guards[1].0 { FirstStopAt(guards, 1); }
    else if guards[2].0 { FirstStopAt(guards, 2); }
    else if guards[3].0 { FirstStopAt(guards, 3); }
    else if guards[4].0 { FirstStopAt(guards, 4); }
    else { NoStop(guards); }
  }

  /** The query check comes before any look at the cartridge: a blank query is
      reported as such whatever the backend. */
  lemma BlankQueryReported(query: string, caseSensitive: bool, fuzzy: bool, wildcards: bool, b: Backend)
    requires AllSpace(query)
    ensures SearchOutcome(query, caseSensitive, fuzzy, wildcards, b) == SearchError("Search query is empty")
  {
    TrimIsInfix(query);
  }

  /** A wildcard query of stars only, against a ready cartridge, is reported as
      an invalid query without reaching the database. */
  lemma StarsReportedInvalid(query: string, caseSensitive: bool, fuzzy: bool, b: Backend)
    requires query != [] && forall i :: 0 <= i < |query| ==> query[i] == '*'
    requires b.hasService && b.cartridgeLoaded && b.isCartridgeService && b.databaseOpen
    ensures SearchOutcome(query, caseSensitive, fuzzy, true, b) == SearchError("Invalid search query")
  {
    TrimPlain(query);
    StarsCompileToEmpty(query, fuzzy);
  }

  /** The fallback runs, with the LIKE pattern of the trimmed query, exactly
      when the FTS query fails with an error naming a missing table or the FTS
      table. */
  lemma FallbackOnlyOnMissingTable(query: string, caseSensitive: bool, fuzzy: bool, wildcards: bool,
                                   b: Backend, error: string)
    requires Trim(query) != [] && b.hasService && b.cartridgeLoaded && b.isCartridgeService && b.databaseOpen
    requires CompileQuery(Trim(query), fuzzy, wildcards) != []
    requires b.runFts(CompileQuery(Trim(query), fuzzy, wildcards)) == SqlError(error)
    ensures FallsBack(error) ==>
      SearchOutcome(query, caseSensitive, fuzzy, wildcards, b) == FallbackOutcome(Trim(query), caseSensitive, b)
    ensures !FallsBack(error) ==>
      SearchOutcome(query, caseSensitive, fuzzy, wildcards, b) == SearchError("Search failed: " + error)
  {
  }
}
