/** The .NET report writer: the same append-only entry list and Markdown
    table as the C++ writer, with nullable details and source, a null check on
    the entry overload, and a source column that treats a whitespace-only
    source like a missing one. */
module ReportingCs {
  import opened Text
  import Reporting

  /** The .NET enum has the same three members, and its ToString gives the
      same spellings as the C++ switch. */
  type Severity = Reporting.Severity

  datatype ReportEntry = ReportEntry(
    timestampUtc: string, severity: Severity, title: string, details: Option<string>, source: Option<string>)

  /** How Add(entry) ends: the entry is appended, or ArgumentNullException. */
  datatype AddOutcome = Added | ArgumentNull

  /** The source column: "-" when the source is null or whitespace. */
  function SourceCell(source: Option<string>): (r: string)
    ensures !AllSpace(r)
    ensures !IsNullOrWhiteSpace(source) ==> r == source.value
    ensures IsNullOrWhiteSpace(source) ==> r == "-"
  {
    assert !IsSpace("-"[0]);
    if IsNullOrWhiteSpace(source) then "-" else source.value
  }

  /** `newline` is the platform's line terminator, which AppendLine writes. */
  function Row(e: ReportEntry, newline: string): string {
    "| " + e.timestampUtc + " | " + Reporting.SeverityName(e.severity) + " | " + SourceCell(e.source)
    + " | " + Reporting.TitleCell(e.title) + " |" + newline
  }

  function Header(generated: string, newline: string): string {
    "# Codexium Magnus Report" + newline + newline + "Generated: " + generated + newline + newline
    + "| Time (UTC) | Severity | Source | Title |" + newline
    + "|------------|----------|--------|-------|" + newline
  }

  function Rows(entries: seq<ReportEntry>, newline: string): (r: seq<string>)
    ensures |r| == |entries|
  {
    seq(|entries|, i requires 0 <= i < |entries| => Row(entries[i], newline))
  }

  function Markdown(entries: seq<ReportEntry>, generated: string, newline: string): string {
    Header(generated, newline) + Concat(Rows(entries, newline))
  }

  lemma RowsSlices(entries: seq<ReportEntry>, i: nat, newline: string)
    requires i <= |entries|
    ensures Rows(entries, newline)[..i] == Rows(entries[..i], newline)
    ensures Rows(entries, newline)[i..] == Rows(entries[i..], newline)
  {
  }

  lemma RowsSnoc(entries: seq<ReportEntry>, i: nat, newline: string)
    requires i < |entries|
    ensures Rows(entries[..i + 1], newline) == Rows(entries[..i], newline) + [Row(entries[i], newline)]
  {
  }

  /** Entry order: the row of the i-th entry follows the rows of all earlier
      entries and precedes those of all later ones. */
  lemma RowsInOrder(entries: seq<ReportEntry>, newline: string, i: nat)
    requires i < |entries|
    ensures Concat(Rows(entries, newline))
      == Concat(Rows(entries[..i], newline)) + Row(entries[i], newline) + Concat(Rows(entries[i + 1..], newline))
  {
    ConcatAt(Rows(entries, newline), i);
    RowsSlices(entries, i, newline);
    RowsSlices(entries, i + 1, newline);
  }

  /** The two writers agree on every source with a non-blank character, and
      on the empty one; a source of only whitespace is written as it is by
      the C++ writer and as "-" by this one. */
  lemma SourceCellsCompared(source: string)
    ensures !AllSpace(source) ==> SourceCell(Some(source)) == Reporting.SourceCell(source) == source
    ensures source == [] ==> SourceCell(Some(source)) == Reporting.SourceCell(source) == "-"
    ensures source != [] && AllSpace(source) ==>
      Reporting.SourceCell(source) == source && SourceCell(Some(source)) == "-"
  {
  }

  class ReportWriter {
    var entries: seq<ReportEntry>

    constructor ()
      ensures entries == []
    {
      entries := [];
    }

    /** The read-only Entries view. */
    function Entries(): seq<ReportEntry>
      reads this
    {
      entries
    }

    /** Add(entry): a null entry throws and leaves the list as it was;
        otherwise the entry is appended. */
    method Add(entry: Option<ReportEntry>) returns (outcome: AddOutcome)
      modifies this
      ensures entry.None? ==> outcome == ArgumentNull && entries == old(entries)
      ensures entry.Some? ==> outcome == Added && entries == old(entries) + [entry.value]
    {
      if entry.None? {
        return ArgumentNull;
      }
      entries := entries + [entry.value];
      outcome := Added;
    }

    /** Add(severity, title, details, source), stamped with the current time `now`. */
    method AddFields(severity: Severity, title: string, details: Option<string>, source: Option<string>,
                     now: string)
      modifies this
      ensures entries == old(entries) + [ReportEntry(now, severity, title, details, source)]
    {
      entries := entries + [ReportEntry(now, severity, title, details, source)];
    }

    /** WriteMarkdown, returning the text it writes. */
    method WriteMarkdown(generated: string, newline: string) returns (text: string)
      ensures text == Markdown(entries, generated, newline)
    {
      text := "# Codexium Magnus Report" + newline;
      text := text + newline;
      text := text + "Generated: " + generated + newline;
      text := text + newline;
      text := text + "| Time (UTC) | Severity | Source | Title |" + newline;
      text := text + "|------------|----------|--------|-------|" + newline;
      assert text == Header(generated, newline);
      assert entries[..0] == [];
      var i := 0;
      while i < |entries|
        invariant 0 <= i <= |entries|
        invariant text == Header(generated, newline) + Concat(Rows(entries[..i], newline))
      {
        var e := entries[i];
        var row := "| " + e.timestampUtc + " | " + Reporting.SeverityName(e.severity) + " | "
          + (if IsNullOrWhiteSpace(e.source) then "-" else e.source.value)
          + " | " + ReplaceChar(e.title, '|', '/') + " |" + newline;
        assert row == Row(e, newline);
        RowsSnoc(entries, i, newline);
        ConcatSnoc(Rows(entries[..i], newline), row);
        AppendAssoc(Header(generated, newline), Concat(Rows(entries[..i], newline)), row);
        text := text + row;
        i := i + 1;
      }
      assert entries[..i] == entries;
    }
  }
}
