/** The C++ report writer: an append-only list of entries, rendered as a
    Markdown table (one row per entry, in insertion order, after a fixed
    header) or as a JSON array of one object per entry. Timestamps are opaque
    ISO-8601 strings supplied by the caller. */
module Reporting {
  import opened Text

  datatype Severity = Info | Warning | Fatal

  datatype ReportEntry = ReportEntry(
    timestampUtc: string, severity: Severity, title: string, details: string, source: string)

  /** The severity's table and JSON spelling. */
  function SeverityName(s: Severity): string {
    match s
    case Info => "Info"
    case Warning => "Warning"
    case Fatal => "Fatal"
  }

  /** Reading a spelling back. */
  function ParseSeverity(name: string): Option<Severity> {
    if name == "Info" then Some(Info)
    else if name == "Warning" then Some(Warning)
    else if name == "Fatal" then Some(Fatal)
    else None
  }

  lemma SeverityNameRoundTrip(s: Severity)
    ensures ParseSeverity(SeverityName(s)) == Some(s)
  {
  }

  // ---------------------------------------------------------------------------
  // Markdown

  /** The source column: "-" for an empty source, otherwise the source as it is. */
  function SourceCell(source: string): (r: string)
    ensures r != []
    ensures source != [] ==> r == source
  {
    if source == [] then "-" else source
  }

  /** The title column: every '|' becomes '/', so a title never adds a column. */
  function TitleCell(title: string): (r: string)
    ensures |r| == |title| && '|' !in r
    ensures forall i :: 0 <= i < |title| && title[i] != '|' ==> r[i] == title[i]
  {
    ReplaceChar(title, '|', '/')
  }

  function Row(e: ReportEntry): string {
    "| " + e.timestampUtc + " | " + SeverityName(e.severity) + " | " + SourceCell(e.source)
    + " | " + TitleCell(e.title) + " |\n"
  }

  /** The title line, the generation time and the table head. */
  function Header(generated: string): string {
    "# Codexium Magnus Report\n\n" + "Generated: " + generated + "\n\n"
    + "| Time (UTC) | Severity | Source | Title |\n" + "|------------|----------|--------|-------|\n"
  }

  /** The rows of the table, one per entry, in insertion order. */
  function Rows(entries: seq<ReportEntry>): (r: seq<string>)
    ensures |r| == |entries|
  {
    seq(|entries|, i requires 0 <= i < |entries| => Row(entries[i]))
  }

  function Markdown(entries: seq<ReportEntry>, generated: string): string {
    Header(generated) + Concat(Rows(entries))
  }

  lemma RowsSlices(entries: seq<ReportEntry>, i: nat)
    requires i <= |entries|
    ensures Rows(entries)[..i] == Rows(entries[..i])
    ensures Rows(entries)[i..] == Rows(entries[i..])
  {
  }

  lemma RowsSnoc(entries: seq<ReportEntry>, i: nat)
    requires i < |entries|
    ensures Rows(entries[..i + 1]) == Rows(entries[..i]) + [Row(entries[i])]
  {
  }

  /** Insertion order: the row of the i-th entry follows the rows of all
      earlier entries and precedes those of all later ones. */
  lemma RowsInOrder(entries: seq<ReportEntry>, i: nat)
    requires i < |entries|
    ensures Concat(Rows(entries))
      == Concat(Rows(entries[..i])) + Row(entries[i]) + Concat(Rows(entries[i + 1..]))
  {
    ConcatAt(Rows(entries), i);
    RowsSlices(entries, i);
    RowsSlices(entries, i + 1);
  }

  /** Column separators: a row holds the five of the table plus any in the
      timestamp or the source, which is not sanitised; the title adds none. */
  lemma RowSeparators(e: ReportEntry)
    ensures CountChar(Row(e), '|')
      == 5 + CountChar(e.timestampUtc, '|') + CountChar(SourceCell(e.source), '|')
  {
    var sep := " | ";
    assert CountChar(" ", '|') == 0 && CountChar("|", '|') == 1 && CountChar("\n", '|') == 0;
    CountCharAppend(" ", "|", '|');
    assert sep == " |" + " ";
    CountCharAppend(" |", " ", '|');
    assert "| " == "|" + " ";
    CountCharAppend("|", " ", '|');
    assert " |\n" == " |" + "\n";
    CountCharAppend(" |", "\n", '|');
    var severity := SeverityName(e.severity);
    assert '|' !in severity;
    CountCharAbsent(severity, '|');
    CountCharAbsent(TitleCell(e.title), '|');
    var source := SourceCell(e.source);
    var title := TitleCell(e.title);
    CountCharAppend("| ", e.timestampUtc, '|');
    CountCharAppend("| " + e.timestampUtc, sep, '|');
    CountCharAppend("| " + e.timestampUtc + sep, severity, '|');
    CountCharAppend("| " + e.timestampUtc + sep + severity, sep, '|');
    CountCharAppend("| " + e.timestampUtc + sep + severity + sep, source, '|');
    CountCharAppend("| " + e.timestampUtc + sep + severity + sep + source, sep, '|');
    CountCharAppend("| " + e.timestampUtc + sep + severity + sep + source + sep, title, '|');
    CountCharAppend("| " + e.timestampUtc + sep + severity + sep + source + sep + title, " |\n", '|');
  }

  // ---------------------------------------------------------------------------
  // JSON

  /** The object writeJson builds for one entry (a QJsonObject is a map from
      key to value). */
  function JsonObject(e: ReportEntry): (r: map<string, string>)
    ensures r.Keys == {"timestampUtc", "severity", "title", "details", "source"}
  {
    map["timestampUtc" := e.timestampUtc, "severity" := SeverityName(e.severity), "title" := e.title,
        "details" := e.details, "source" := e.source]
  }

  /** Reading an object back into an entry. */
  function EntryFromJson(obj: map<string, string>): Option<ReportEntry> {
    if "timestampUtc" in obj && "severity" in obj && "title" in obj && "details" in obj && "source" in obj
       && ParseSeverity(obj["severity"]).Some? then
      Some(ReportEntry(obj["timestampUtc"], ParseSeverity(obj["severity"]).value, obj["title"],
                       obj["details"], obj["source"]))
    else None
  }

  /** The object keeps every field of the entry: reading it back gives the entry. */
  lemma JsonRoundTrip(e: ReportEntry)
    ensures EntryFromJson(JsonObject(e)) == Some(e)
  {
    var obj := JsonObject(e);
    assert obj["severity"] == SeverityName(e.severity);
    SeverityNameRoundTrip(e.severity);
  }

  // ---------------------------------------------------------------------------
  // The writer

  class ReportWriter {
    var entries: seq<ReportEntry>

    constructor ()
      ensures entries == []
    {
      entries := [];
    }

    /** add(entry): appended at the end. */
    method Add(entry: ReportEntry)
      modifies this
      ensures entries == old(entries) + [entry]
    {
      entries := entries + [entry];
    }

    /** add(severity, title, details, source), stamped with the current time `now`. */
    method AddFields(severity: Severity, title: string, details: string, source: string, now: string)
      modifies this
      ensures entries == old(entries) + [ReportEntry(now, severity, title, details, source)]
    {
      var entry := ReportEntry(now, severity, title, details, source);
      entries := entries + [entry];
    }

    /** writeMarkdown, returning the text it writes; `generated` is the time
        of writing. */
    method WriteMarkdown(generated: string) returns (text: string)
      ensures text == Markdown(entries, generated)
    {
      text := "# Codexium Magnus Report\n\n";
      text := text + "Generated: " + generated + "\n\n";
      text := text + "| Time (UTC) | Severity | Source | Title |\n";
      text := text + "|------------|----------|--------|-------|\n";
      assert text == Header(generated);
      assert entries[..0] == [];
      var i := 0;
      while i < |entries|
        invariant 0 <= i <= |entries|
        invariant text == Header(generated) + Concat(Rows(entries[..i]))
      {
        var entry := entries[i];
        var severityStr := SeverityName(entry.severity);
        var sourceStr := if entry.source == [] then "-" else entry.source;
        var titleStr := ReplaceChar(entry.title, '|', '/');
        var row := "| " + entry.timestampUtc + " | " + severityStr + " | " + sourceStr
          + " | " + titleStr + " |\n";
        assert row == Row(entry);
        RowsSnoc(entries, i);
        ConcatSnoc(Rows(entries[..i]), row);
        AppendAssoc(Header(generated), Concat(Rows(entries[..i])), row);
        text := text + row;
        i := i + 1;
      }
      assert entries[..i] == entries;
    }

    /** writeJson, returning the array it serialises: one object per entry,
        in insertion order. */
    method WriteJson() returns (objects: seq<map<string, string>>)
      ensures |objects| == |entries|
      ensures forall i :: 0 <= i < |entries| ==> EntryFromJson(objects[i]) == Some(entries[i])
      ensures forall i :: 0 <= i < |entries| ==> objects[i] == JsonObject(entries[i])
    {
      objects := [];
      var i := 0;
      while i < |entries|
        invariant 0 <= i <= |entries|
        invariant |objects| == i
        invariant forall k :: 0 <= k < i ==> objects[k] == JsonObject(entries[k])
        invariant forall k :: 0 <= k < i ==> EntryFromJson(objects[k]) == Some(entries[k])
      {
        var entry := entries[i];
        var entryObj: map<string, string> := map[];
        entryObj := entryObj["timestampUtc" := entry.timestampUtc];
        entryObj := entryObj["severity" := SeverityName(entry.severity)];
        entryObj := entryObj["title" := entry.title];
        entryObj := entryObj["details" := entry.details];
        entryObj := entryObj["source" := entry.source];
        JsonRoundTrip(entry);
        objects := objects + [entryObj];
        i := i + 1;
      }
    }
  }
}
