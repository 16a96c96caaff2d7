/** The activity-log page: a list of log entries, newest first, shown through a type filter,
    counted per type, extended by `add_log`, cleared on confirmation and exported to a text
    file one line per entry. */
module Logs {
  import opened Base
  import opened Text

  /** One log entry: the dictionary with keys "timestamp", "type" and "message". */
  datatype LogEntry = LogEntry(timestamp: string, kind: string, message: string)

  /** The filter name that shows every entry. */
  const AllFilter := "All"

  // ---------------------------------------------------------------------------
  // Counting and filtering

  /** The entries of type `kind`, in stored order. */
  function OfType(entries: seq<LogEntry>, kind: string): (r: seq<LogEntry>)
    ensures |r| <= |entries|
    ensures forall i :: 0 <= i < |r| ==> r[i].kind == kind
  {
    if entries == [] then []
    else (if entries[0].kind == kind then [entries[0]] else []) + OfType(entries[1..], kind)
  }

  /** The entries `display_logs` shows under `filter`. */
  function Filtered(entries: seq<LogEntry>, filter: string): (r: seq<LogEntry>)
    ensures |r| <= |entries|
    ensures filter != AllFilter ==> forall i :: 0 <= i < |r| ==> r[i].kind == filter
  {
    if filter == AllFilter then entries else OfType(entries, filter)
  }

  /** `count_logs`: every entry for "All", otherwise the entries of that type. */
  function CountOf(entries: seq<LogEntry>, kind: string): (n: nat)
    ensures n == |Filtered(entries, kind)|
  {
    if kind == AllFilter then |entries| else |OfType(entries, kind)|
  }

  /** Filtering a list in two parts filters each part, so stored order is kept. */
  lemma {:induction false} OfTypeConcat(a: seq<LogEntry>, b: seq<LogEntry>, kind: string)
    ensures OfType(a + b, kind) == OfType(a, kind) + OfType(b, kind)
  {
    if a == [] {
      assert a + b == b;
    } else {
      assert (a + b)[0] == a[0] && (a + b)[1..] == a[1..] + b;
      OfTypeConcat(a[1..], b, kind);
      ConcatAssoc(if a[0].kind == kind then [a[0]] else [], OfType(a[1..], kind), OfType(b, kind));
    }
  }

  /** The entries of a type are exactly the stored entries of that type. */
  lemma {:induction false} OfTypeMembers(entries: seq<LogEntry>, kind: string)
    ensures forall i :: 0 <= i < |OfType(entries, kind)| ==> OfType(entries, kind)[i].kind == kind
    ensures forall e :: e in OfType(entries, kind) <==> e in entries && e.kind == kind
    ensures |OfType(entries, kind)| <= |entries|
  {
    if entries != [] {
      OfTypeMembers(entries[1..], kind);
      assert entries == [entries[0]] + entries[1..];
    }
  }

  /** The view under a type filter: exactly the entries of that type, in stored order, and
      never more than all of them. */
  lemma FilteredMeaning(entries: seq<LogEntry>, filter: string, a: seq<LogEntry>, b: seq<LogEntry>)
    ensures filter == AllFilter ==> Filtered(entries, filter) == entries
    ensures filter != AllFilter ==>
      && (forall i :: 0 <= i < |Filtered(entries, filter)| ==> Filtered(entries, filter)[i].kind == filter)
      && (forall e :: e in Filtered(entries, filter) <==> e in entries && e.kind == filter)
      && Filtered(a + b, filter) == Filtered(a, filter) + Filtered(b, filter)
    ensures CountOf(entries, filter) <= |entries|
  {
    OfTypeMembers(entries, filter);
    OfTypeConcat(a, b, filter);
  }

  /** The four kinds the page knows never count more entries together than there are. */
  lemma {:induction false} KnownKindsBounded(entries: seq<LogEntry>)
    ensures |OfType(entries, "Install")| + |OfType(entries, "Remove")| + |OfType(entries, "Update")|
            + |OfType(entries, "Error")| <= |entries|
  {
    if entries != [] {
      KnownKindsBounded(entries[1..]);
    }
  }

  // ---------------------------------------------------------------------------
  // How an entry is shown

  /** The colour of a type's tag: green for Install, red for Remove and Error, amber for
      Update, grey for anything else. */
  function ColorOf(kind: string): (r: string)
    ensures |r| == 7 && r[0] == '#'
  {
    if kind == "Install" then "#10B981"
    else if kind == "Remove" then "#EF4444"
    else if kind == "Update" then "#F59E0B"
    else if kind == "Error" then "#EF4444"
    else DefaultColor
  }

  const DefaultColor := "#8B92A8"

  /** Only the four known types get a colour of their own; removals and errors share red. */
  lemma ColorMeaning(kind: string)
    ensures ColorOf(kind) == DefaultColor <==> kind !in {"Install", "Remove", "Update", "Error"}
    ensures ColorOf("Remove") == ColorOf("Error") != ColorOf("Install")
  {
  }

  /** The paragraph `display_logs` appends for an entry: the timestamp in grey, the type in its
      colour, then the message. */
  function DisplayLine(e: LogEntry): (r: string)
    ensures EndsWith(r, " " + e.message)
  {
    var tags := "<span style=\"color: #6B7280;\">[" + e.timestamp + "]</span> " +
                "<span style=\"color: " + ColorOf(e.kind) + ";\">[" + e.kind + "]</span>";
    assert (tags + (" " + e.message))[|tags|..] == " " + e.message;
    tags + (" " + e.message)
  }

  /** The paragraphs shown for the entries under a filter, one per entry of the view. */
  function View(entries: seq<LogEntry>, filter: string): (lines: seq<string>)
    ensures |lines| == CountOf(entries, filter)
  {
    var f := Filtered(entries, filter);
    seq(|f|, i requires 0 <= i < |f| => DisplayLine(f[i]))
  }

  /** Each shown paragraph ends with its entry's message. */
  lemma ViewMeaning(entries: seq<LogEntry>, filter: string)
    ensures var f := Filtered(entries, filter);
      forall i :: 0 <= i < |f| ==> EndsWith(View(entries, filter)[i], " " + f[i].message)
  {
    var f := Filtered(entries, filter);
    forall i | 0 <= i < |f|
      ensures EndsWith(View(entries, filter)[i], " " + f[i].message)
    {
      assert View(entries, filter)[i] == DisplayLine(f[i]);
    }
  }

  // ---------------------------------------------------------------------------
  // The exported file

  /** The text of an exported line without its newline. */
  function Row(e: LogEntry): string {
    "[" + e.timestamp + "] [" + e.kind + "] " + e.message
  }

  /** `f"[{timestamp}] [{type}] {message}\n"`. */
  function ExportLine(e: LogEntry): string {
    Row(e) + "\n"
  }

  /** The exported file: one line per entry, in stored order. */
  function ExportText(entries: seq<LogEntry>): (r: string)
    ensures |r| >= |entries|
    ensures r == [] <==> entries == []
    ensures r != [] ==> r[|r| - 1] == '\n'
  {
    if entries == [] then [] else ExportLine(entries[0]) + ExportText(entries[1..])
  }

  lemma {:induction false} ExportTextAppend(entries: seq<LogEntry>, e: LogEntry)
    ensures ExportText(entries + [e]) == ExportText(entries) + ExportLine(e)
  {
    if entries == [] {
      assert [e][1..] == [];
      assert ExportLine(e) + [] == ExportLine(e);
    } else {
      assert (entries + [e])[0] == entries[0] && (entries + [e])[1..] == entries[1..] + [e];
      ExportTextAppend(entries[1..], e);
      ConcatAssoc(ExportLine(entries[0]), ExportText(entries[1..]), ExportLine(e));
    }
  }

  /** The text before and after the first `c` in `s`, if there is one. */
  function Cut(s: string, c: char): Option<(string, string)> {
    if s == [] then None
    else if s[0] == c then Some(([], s[1..]))
    else match Cut(s[1..], c)
      case None => None
      case Some(parts) => Some(([s[0]] + parts.0, parts.1))
  }

  lemma {:induction false} CutAt(w: string, t: string, c: char)
    requires c !in w
    ensures Cut(w + [c] + t, c) == Some((w, t))
  {
    if w == [] {
      assert w + [c] + t == [c] + t;
    } else {
      assert (w + [c] + t)[1..] == w[1..] + [c] + t;
      CutAt(w[1..], t, c);
      assert [w[0]] + w[1..] == w;
    }
  }

  /** Reads an exported line back: "[", the timestamp up to the first ']', " [", the type up
      to the next ']', a space, and the message. */
  function ReadRow(line: string): Option<LogEntry> {
    if line == [] || line[0] != '[' then None
    else match Cut(line[1..], ']')
      case None => None
      case Some(first) =>
        var rest := first.1;
        if |rest| < 2 || rest[..2] != " [" then None
        else match Cut(rest[2..], ']')
          case None => None
          case Some(second) =>
            if second.1 == [] || second.1[0] != ' ' then None
            else Some(LogEntry(first.0, second.0, second.1[1..]))
  }

  /** An entry the line format can carry: no ']' in the timestamp or type, no newline anywhere. */
  predicate Exportable(e: LogEntry) {
    ']' !in e.timestamp && ']' !in e.kind &&
    '\n' !in e.timestamp && '\n' !in e.kind && '\n' !in e.message
  }

  /** A line reads back as the entry it was written from. */
  lemma RowRoundTrip(e: LogEntry)
    requires ']' !in e.timestamp && ']' !in e.kind
    ensures ReadRow(Row(e)) == Some(e)
  {
    var tail := " [" + e.kind + "] " + e.message;
    assert Row(e)[1..] == e.timestamp + [']'] + tail;
    CutAt(e.timestamp, tail, ']');
    var tail2 := " " + e.message;
    assert tail[..2] == " [" && tail[2..] == e.kind + [']'] + tail2;
    CutAt(e.kind, tail2, ']');
  }

  /** The rows of an exported file. */
  function Rows(entries: seq<LogEntry>): (rows: seq<string>)
    ensures |rows| == |entries|
  {
    if entries == [] then [] else [Row(entries[0])] + Rows(entries[1..])
  }

  /** Reads every row, failing if any does not read. */
  function ReadRows(lines: seq<string>): Option<seq<LogEntry>> {
    if lines == [] then Some([])
    else match (ReadRow(lines[0]), ReadRows(lines[1..]))
      case (Some(e), Some(rest)) => Some([e] + rest)
      case _ => None
  }

  /** Reads an exported file: its lines up to the final newline. */
  function ReadExport(text: string): Option<seq<LogEntry>> {
    var pieces := SplitOn(text, '\n');
    if pieces[|pieces| - 1] != [] then None else ReadRows(pieces[..|pieces| - 1])
  }

  lemma {:induction false} SplitExport(entries: seq<LogEntry>)
    requires forall i :: 0 <= i < |entries| ==> Exportable(entries[i])
    ensures SplitOn(ExportText(entries), '\n') == Rows(entries) + [[]]
    ensures ReadRows(Rows(entries)) == Some(entries)
  {
    if entries == [] {
      assert SplitOn([], '\n') == [[]];
    } else {
      var e := entries[0];
      SplitExport(entries[1..]);
      assert Exportable(e);
      assert '\n' !in Row(e);
      assert ExportText(entries) == Row(e) + ['\n'] + ExportText(entries[1..]);
      SplitOnConcat(Row(e), ExportText(entries[1..]), '\n');
      ConcatAssoc([Row(e)], Rows(entries[1..]), [[]]);
      RowRoundTrip(e);
      assert [e] + entries[1..] == entries;
    }
  }

  /** The exported file reads back as the entries it was written from. */
  lemma ExportRoundTrip(entries: seq<LogEntry>)
    requires forall i :: 0 <= i < |entries| ==> Exportable(entries[i])
    ensures ReadExport(ExportText(entries)) == Some(entries)
    ensures |SplitOn(ExportText(entries), '\n')| == |entries| + 1
  {
    SplitExport(entries);
    var pieces := SplitOn(ExportText(entries), '\n');
    assert pieces == Rows(entries) + [[]];
    assert pieces[|pieces| - 1] == [] && pieces[..|pieces| - 1] == Rows(entries);
  }

  // ---------------------------------------------------------------------------
  // The sample entries

  /** `load_sample_logs`: six entries, newest first. */
  function SampleLogs(): (r: seq<LogEntry>)
    ensures |r| == 6
    ensures forall i :: 0 <= i < |r| ==> ColorOf(r[i].kind) != DefaultColor
  {
    [ LogEntry("2025-01-15 10:30:45", "Install", "Installed python3 successfully"),
      LogEntry("2025-01-15 10:28:12", "Install", "Installed nodejs successfully"),
      LogEntry("2025-01-15 09:45:00", "Update", "Updated git to version 2.43.0"),
      LogEntry("2025-01-14 16:20:33", "Remove", "Removed vim"),
      LogEntry("2025-01-14 14:15:22", "Error", "Failed to install docker: permission denied"),
      LogEntry("2025-01-14 11:00:00", "Install", "Installed docker successfully") ]
  }

  /** Six entries: three installs, one update, one removal and one error. */
  lemma SampleCounts()
    ensures CountOf(SampleLogs(), AllFilter) == 6
    ensures CountOf(SampleLogs(), "Install") == 3
    ensures CountOf(SampleLogs(), "Update") == 1
    ensures CountOf(SampleLogs(), "Remove") == 1
    ensures CountOf(SampleLogs(), "Error") == 1
  {
    var s := SampleLogs();
    assert s[1..][1..][1..][1..][1..][1..] == [];
  }

  // ---------------------------------------------------------------------------
  // The page

  /** A statistics card: title, count and colour. */
  datatype StatCard = StatCard(title: string, count: nat, color: string)

  /** `create_activity_stats` over the entries it reads: total operations, installations,
      removals and updates. */
  function ActivityStats(entries: seq<LogEntry>): (cards: seq<StatCard>)
    ensures |cards| == 4
    ensures cards[0].count == |entries|
    ensures cards[1].count + cards[2].count + cards[3].count <= cards[0].count
  {
    KnownKindsBounded(entries);
    [ StatCard("Total Operations", CountOf(entries, AllFilter), "#2563EB"),
      StatCard("Installations", CountOf(entries, "Install"), "#10B981"),
      StatCard("Removals", CountOf(entries, "Remove"), "#EF4444"),
      StatCard("Updates", CountOf(entries, "Update"), "#F59E0B") ]
  }

  /** The cards a new page shows were built from the empty list, so they disagree with the
      sample entries it then holds: every card counts 0, and the total is not 6. */
  lemma CardsStaleAtStart()
    ensures forall i :: 0 <= i < 4 ==> ActivityStats([])[i].count == 0
    ensures ActivityStats([])[0].count != ActivityStats(SampleLogs())[0].count
  {
    var empty: seq<LogEntry> := [];
    assert OfType(empty, "Install") == [] && OfType(empty, "Remove") == [] && OfType(empty, "Update") == [];
    assert |SampleLogs()| == 6;
  }

  /** `LogsPage`: the stored entries (newest first), the active filter, the paragraphs the
      log text area shows and the statistics cards on screen. */
  class LogsPage {
    var entries: seq<LogEntry>
    var currentFilter: string
    var shown: seq<string>
    var cards: seq<StatCard>

    /** `__init__`: the filter "All"; `init_ui` builds the cards while the list is still
        empty; then the sample entries are loaded and displayed, and the cards stay. */
    constructor ()
      ensures entries == SampleLogs() && currentFilter == AllFilter && shown == View(SampleLogs(), AllFilter)
      ensures cards == ActivityStats([])
    {
      currentFilter := AllFilter;
      entries := [];
      shown := [];
      cards := ActivityStats([]);
      new;
      LoadSampleLogs();
    }

    /** `load_sample_logs`: the cards are not rebuilt. */
    method LoadSampleLogs()
      modifies this
      ensures entries == SampleLogs() && currentFilter == old(currentFilter)
      ensures shown == View(entries, currentFilter) && cards == old(cards)
    {
      entries := SampleLogs();
      DisplayLogs();
    }

    /** `display_logs`: clear the text area, then append one paragraph per entry of the view. */
    method DisplayLogs()
      modifies this`shown
      ensures shown == View(entries, currentFilter)
    {
      shown := [];
      var filtered := if currentFilter == AllFilter then entries else OfType(entries, currentFilter);
      var i := 0;
      while i < |filtered|
        invariant 0 <= i <= |filtered|
        invariant shown == seq(i, k requires 0 <= k < i => DisplayLine(filtered[k]))
      {
        shown := shown + [DisplayLine(filtered[i])];
        i := i + 1;
      }
    }

    /** `on_filter_clicked`: the filter becomes the clicked name and the view is redrawn; the
        entries stay as they are. */
    method OnFilterClicked(name: string)
      modifies this
      ensures currentFilter == name && entries == old(entries)
      ensures shown == View(entries, name) && cards == old(cards)
    {
      currentFilter := name;
      DisplayLogs();
    }

    /** `add_log`: the new entry goes first, stamped with the current time `now`; the view is
        redrawn but the cards are not rebuilt. */
    method AddLog(now: string, kind: string, message: string)
      modifies this
      ensures entries == [LogEntry(now, kind, message)] + old(entries)
      ensures currentFilter == old(currentFilter) && shown == View(entries, currentFilter)
      ensures cards == old(cards)
    {
      entries := [LogEntry(now, kind, message)] + entries;
      DisplayLogs();
    }

    /** `refresh_logs`: redraw the view, then `update_stats` rebuilds the cards from the
        entries. */
    method RefreshLogs()
      modifies this
      ensures entries == old(entries) && currentFilter == old(currentFilter)
      ensures shown == View(entries, currentFilter) && cards == ActivityStats(entries)
    {
      DisplayLogs();
      cards := ActivityStats(entries);
    }

    /** `clear_logs`, with the answer to the confirmation question: "Yes" empties the list and
        redraws; any other answer changes nothing. */
    method ClearLogs(confirmed: bool)
      modifies this
      ensures confirmed ==> entries == [] && shown == [] && cards == ActivityStats([])
      ensures !confirmed ==> entries == old(entries) && shown == old(shown) && cards == old(cards)
      ensures currentFilter == old(currentFilter)
    {
      if confirmed {
        entries := [];
        DisplayLogs();
        cards := ActivityStats(entries);
      }
    }

    /** `export_logs` with the file name the save dialog returned, and the error opening or
        writing that file raises, if any: nothing is written for an empty name; an error
        escapes; otherwise the file holds one line per entry, in stored order. */
    method ExportLogs(filename: string, failure: Option<string>) returns (r: Outcome<Option<string>>)
      ensures filename == [] ==> r == Return(None)
      ensures filename != [] && failure.Some? ==> r == Throw(failure.value)
      ensures filename != [] && failure.None? ==> r == Return(Some(ExportText(entries)))
    {
      if filename == [] {
        return Return(None);
      }
      if failure.Some? {
        return Throw(failure.value);
      }
      var text := "";
      var i := 0;
      while i < |entries|
        invariant 0 <= i <= |entries|
        invariant text == ExportText(entries[..i])
      {
        ExportTextAppend(entries[..i], entries[i]);
        assert entries[..i + 1] == entries[..i] + [entries[i]];
        text := text + ExportLine(entries[i]);
        i := i + 1;
      }
      assert entries[..|entries|] == entries;
      r := Return(Some(text));
    }
  }

  /** Adding an entry adds one to "All" and to its own type and leaves every other count. */
  lemma AddLogCounts(entries: seq<LogEntry>, e: LogEntry, kind: string)
    ensures CountOf([e] + entries, kind) == CountOf(entries, kind) + (if kind == AllFilter || e.kind == kind then 1 else 0)
  {
    OfTypeConcat([e], entries, kind);
    assert [e][1..] == [];
  }

  /** After adding an entry the view under any filter is the old view, with the new entry
      first if the filter shows it. */
  lemma AddLogView(entries: seq<LogEntry>, e: LogEntry, filter: string)
    ensures Filtered([e] + entries, filter) ==
      (if filter == AllFilter || e.kind == filter then [e] else []) + Filtered(entries, filter)
  {
    OfTypeConcat([e], entries, filter);
    assert [e][1..] == [];
  }

  /** An emptied list counts zero for every type. */
  lemma ClearedCounts(kind: string)
    ensures CountOf([], kind) == 0
  {
  }
}
