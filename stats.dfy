/**
 * The statistics screen: a choice between the two search-log listings, the
 * rendering of the rows an aggregation returns, and its error handling.
 *
 * A row is the document the aggregation returns, with `None` for a key the
 * document lacks. The timestamp text shown is `fmt(timestamp)`, the ISO-8601
 * parse and `%Y-%m-%d %H:%M:%S` format being left to the caller.
 */
module Stats {
  import opened Wrappers
  import opened Sequences
  import opened Text
  import opened SearchLog
  import opened Io

  datatype Kind = RecentKind | PopularKind

  /** An aggregation result document: `_id`, `timestamp`, `search_type`, `count`. */
  datatype Row = Row(id: Option<Params>, timestamp: Option<Timestamp>, searchType: Option<string>, count: Option<int>)

  const Menu: seq<string> := [
    "\nWhich statistics would you like to see?",
    "1 — Last 5 unique requests",
    "2 — Top 5 popular requests"
  ]
  const ChoicePrompt: string := "Enter number (1 or 2): "
  const InvalidChoice: string := "Invalid input. Returning to menu."
  const KeywordType: string := "keyword"
  const UnknownType: string := "unknown"
  const Missing: string := "?"
  /** The width `{search_type:<12}` pads to. */
  const TypeWidth: nat := 12
  /** CPython's text of `KeyError('timestamp')` and `KeyError('_id')`. */
  const NoTimestamp: string := "'timestamp'"
  const NoId: string := "'_id'"

  function Header(kind: Kind): string {
    match kind
    case RecentKind => "\n\U{1F4CC} Last 5 unique requests:"
    case PopularKind => "\n\U{2B50} Top 5 popular requests:"
  }

  /** The line printed when the aggregation itself fails. */
  function AggregationError(kind: Kind, message: string): string {
    (match kind case RecentKind => "Aggregation error (recent): " case PopularKind => "Aggregation error (popular): ")
    + message
  }

  /** The line printed when rendering a row raises KeyError. */
  function RetrievalError(kind: Kind, message: string): string {
    (match kind
     case RecentKind => "Error retrieving recent requests: "
     case PopularKind => "Error retrieving popular requests: ")
    + message
  }

  /** `str(v)` */
  function ValueText(v: Value): string {
    match v
    case Text(t) => t
    case Number(n) => IntToString(n)
  }

  /** `params.get(key, "?")`, shown. */
  function Param(p: Params, key: string): string {
    if key in p then ValueText(p[key]) else Missing
  }

  /** The search type a row is shown with: `r.get("search_type", "unknown")`. */
  function TypeOf(r: Row): string {
    if r.searchType.Some? then r.searchType.value else UnknownType
  }

  function KeywordPart(p: Params): string {
    "\U{1F511} Keyword: '" + Param(p, "keyword") + "'"
  }

  function GenrePart(p: Params): string {
    "\U{1F3AC} Genre: " + Param(p, "genre") + " (" + Param(p, "year_from") + "–" + Param(p, "year_to") + ")"
  }

  /** What a row says about its search: the keyword, or the genre and years. */
  function Describe(p: Params, searchType: string): string {
    if searchType == KeywordType then KeywordPart(p) else GenrePart(p)
  }

  function TypePart(searchType: string): string {
    "\U{1F50D} Type: " + PadRight(searchType, TypeWidth)
  }

  /** The part every row line shares: the padded search type and what was searched for. */
  function Summary(p: Params, searchType: string): string {
    TypePart(searchType) + " | " + Describe(p, searchType)
  }

  /** How a "popular" row ends: its request count. */
  function Tally(count: string): string {
    " → " + count + " requests"
  }

  /** A search type shows a keyword exactly when it is "keyword". */
  lemma DescribeKeyword(p: Params, searchType: string)
    ensures searchType == KeywordType <==> Describe(p, searchType) == KeywordPart(p)
  {
    if searchType != KeywordType {
      assert KeywordPart(p)[0] != GenrePart(p)[0];
    }
  }

  /**
   * The line a row renders as, or the KeyError rendering it raises. A "recent"
   * row reads its timestamp before its `_id`, so a row lacking both reports the
   * timestamp; a "popular" row reads only `_id`, and shows a missing count as "?".
   */
  function RowLine(kind: Kind, r: Row, fmt: Timestamp -> string): (line: Result<string>)
    ensures line.Ok? ==> r.id.Some?
    ensures line.Err? ==> line.message == NoTimestamp || line.message == NoId
    ensures kind.PopularKind? && line.Err? ==> line.message == NoId
  {
    match kind
    case RecentKind =>
      if r.timestamp.None? then Err(NoTimestamp)
      else if r.id.None? then Err(NoId)
      else Ok("\U{1F4C5} Date: " + fmt(r.timestamp.value) + " | " + Summary(r.id.value, TypeOf(r)))
    case PopularKind =>
      if r.id.None? then Err(NoId)
      else
        var count := if r.count.Some? then IntToString(r.count.value) else Missing;
        Ok(Summary(r.id.value, TypeOf(r)) + Tally(count))
  }

  /** The lines of a listing: one per row, up to the first row that raises, which ends it with an error line. */
  function Lines(kind: Kind, rows: seq<Row>, fmt: Timestamp -> string): seq<string> {
    if rows == [] then []
    else match RowLine(kind, rows[0], fmt)
      case Err(e) => [RetrievalError(kind, e)]
      case Ok(line) => [line] + Lines(kind, rows[1..], fmt)
  }

  function RecentRow(g: RecentGroup): Row {
    Row(Some(g.params), Some(g.timestamp), Some(g.searchType), None)
  }

  function PopularRow(g: PopularGroup): Row {
    Row(Some(g.params), None, Some(g.searchType), Some(g.count))
  }

  /** The documents `get_recent_requests` / `get_popular_requests` return; none when the store fails. */
  function Rows(kind: Kind, store: LogStore): (r: seq<Row>)
    ensures |r| <= Limit
    ensures store.Unreachable? ==> r == []
  {
    match store
    case Unreachable(_) => []
    case Reachable(log) =>
      match kind
      case RecentKind => var r := Recent(log); seq(|r|, i requires 0 <= i < |r| => RecentRow(r[i]))
      case PopularKind => var r := Popular(log); seq(|r|, i requires 0 <= i < |r| => PopularRow(r[i]))
  }

  /** What the aggregation helper itself prints. */
  function Diagnostics(kind: Kind, store: LogStore): seq<string> {
    match store
    case Unreachable(e) => [AggregationError(kind, e)]
    case Reachable(_) => []
  }

  /** Everything one listing prints. */
  function Listing(kind: Kind, store: LogStore, fmt: Timestamp -> string): seq<string> {
    Diagnostics(kind, store) + [Header(kind)] + Lines(kind, Rows(kind, store), fmt)
  }

  /** What the screen prints after the user answers `choice`. */
  function Reply(choice: string, store: LogStore, fmt: Timestamp -> string): (r: seq<string>)
    ensures r != []
  {
    var c := Strip(choice);
    if c == "1" then Listing(RecentKind, store, fmt)
    else if c == "2" then Listing(PopularKind, store, fmt)
    else [InvalidChoice]
  }

  // ----- Properties -----

  /** Rows that all render give one line each, in order. */
  lemma {:induction false} LinesAllRender(kind: Kind, rows: seq<Row>, fmt: Timestamp -> string)
    requires forall i :: 0 <= i < |rows| ==> RowLine(kind, rows[i], fmt).Ok?
    ensures |Lines(kind, rows, fmt)| == |rows|
    ensures forall i :: 0 <= i < |rows| ==> Lines(kind, rows, fmt)[i] == RowLine(kind, rows[i], fmt).value
  {
    if rows != [] {
      LinesAllRender(kind, rows[1..], fmt);
      var rest := Lines(kind, rows[1..], fmt);
      forall i | 0 < i < |rows| ensures Lines(kind, rows, fmt)[i] == RowLine(kind, rows[i], fmt).value {
        assert rows[1..][i - 1] == rows[i];
      }
    }
  }

  /**
   * A KeyError at row `i` ends the listing: the rows before it are shown, then
   * the one error line, and no row after it is shown.
   */
  lemma LinesAbort(kind: Kind, rows: seq<Row>, fmt: Timestamp -> string, i: nat)
    requires i < |rows|
    requires forall j :: 0 <= j < i ==> RowLine(kind, rows[j], fmt).Ok?
    requires RowLine(kind, rows[i], fmt).Err?
    ensures |Lines(kind, rows, fmt)| == i + 1
    ensures forall j :: 0 <= j < i ==> Lines(kind, rows, fmt)[j] == RowLine(kind, rows[j], fmt).value
    ensures Lines(kind, rows, fmt)[i] == RetrievalError(kind, RowLine(kind, rows[i], fmt).message)
  {
    var before := rows[..i];
    forall j | 0 <= j < i ensures RowLine(kind, before[j], fmt).Ok? {
      assert before[j] == rows[j];
    }
    LinesAllRender(kind, before, fmt);
    LinesSplit(kind, rows, fmt, i);
    assert rows[i..][0] == rows[i];
    forall j | 0 <= j < i ensures Lines(kind, rows, fmt)[j] == RowLine(kind, rows[j], fmt).value {
      assert before[j] == rows[j];
    }
  }

  /** The rows before `i` all render, so the listing is theirs followed by the one from row `i` on. */
  lemma {:induction false} LinesSplit(kind: Kind, rows: seq<Row>, fmt: Timestamp -> string, i: nat)
    requires i <= |rows|
    requires forall j :: 0 <= j < i ==> RowLine(kind, rows[j], fmt).Ok?
    ensures Lines(kind, rows, fmt) == Lines(kind, rows[..i], fmt) + Lines(kind, rows[i..], fmt)
  {
    if i > 0 {
      var tail := rows[1..];
      forall j | 0 <= j < i - 1 ensures RowLine(kind, tail[j], fmt).Ok? {
        assert tail[j] == rows[j + 1];
      }
      LinesSplit(kind, tail, fmt, i - 1);
      assert rows[..i][1..] == tail[..i - 1];
      assert tail[i - 1..] == rows[i..];
      var first := [RowLine(kind, rows[0], fmt).value];
      assert Lines(kind, rows, fmt) == first + Lines(kind, tail, fmt);
      assert Lines(kind, rows[..i], fmt) == first + Lines(kind, tail[..i - 1], fmt);
      Regroup(first, Lines(kind, tail[..i - 1], fmt), Lines(kind, rows[i..], fmt));
    }
  }

  /**
   * When a row renders, its search type decides its form: exactly the type
   * "keyword" shows the keyword, every other type (a missing one shows as
   * "unknown") shows the genre and years.
   */
  lemma RowLineForm(kind: Kind, r: Row, fmt: Timestamp -> string)
    requires RowLine(kind, r, fmt).Ok?
    ensures r.id.Some?
    ensures r.searchType.None? ==> TypeOf(r) == UnknownType
    ensures kind.RecentKind? ==> EndsWith(RowLine(kind, r, fmt).value, Summary(r.id.value, TypeOf(r)))
    ensures kind.PopularKind? ==> StartsWith(RowLine(kind, r, fmt).value, Summary(r.id.value, TypeOf(r)))
    ensures r.searchType == Some(KeywordType) <==> Describe(r.id.value, TypeOf(r)) == KeywordPart(r.id.value)
  {
    RowLineShows(kind, r, fmt);
    DescribeKeyword(r.id.value, TypeOf(r));
  }

  predicate StartsWith(s: string, part: string) {
    |part| <= |s| && s[..|part|] == part
  }

  predicate EndsWith(s: string, part: string) {
    |part| <= |s| && s[|s| - |part|..] == part
  }

  /** A "recent" line ends with the row's summary, a "popular" line starts with it. */
  lemma RowLineShows(kind: Kind, r: Row, fmt: Timestamp -> string)
    requires RowLine(kind, r, fmt).Ok?
    ensures r.id.Some?
    ensures kind.RecentKind? ==> EndsWith(RowLine(kind, r, fmt).value, Summary(r.id.value, TypeOf(r)))
    ensures kind.PopularKind? ==> StartsWith(RowLine(kind, r, fmt).value, Summary(r.id.value, TypeOf(r)))
  {
    var line := RowLine(kind, r, fmt).value;
    var summary := Summary(r.id.value, TypeOf(r));
    match kind
    case RecentKind =>
      var pre := "\U{1F4C5} Date: " + fmt(r.timestamp.value) + " | ";
      assert line[|pre|..] == summary;
    case PopularKind =>
      var count := if r.count.Some? then IntToString(r.count.value) else Missing;
      assert line[..|summary|] == summary;
  }

  /** Which key a row lacks decides whether it raises, and what the error names. */
  lemma RowLineErrors(kind: Kind, r: Row, fmt: Timestamp -> string)
    ensures kind.RecentKind? ==>
      (RowLine(kind, r, fmt).Err? <==> r.timestamp.None? || r.id.None?) &&
      (r.timestamp.None? ==> RowLine(kind, r, fmt) == Err(NoTimestamp)) &&
      (r.timestamp.Some? && r.id.None? ==> RowLine(kind, r, fmt) == Err(NoId))
    ensures kind.PopularKind? ==>
      (RowLine(kind, r, fmt).Err? <==> r.id.None?) &&
      (r.id.None? ==> RowLine(kind, r, fmt) == Err(NoId))
  {}

  /**
   * The rows the pipelines return always render: every listing of a reachable
   * store shows one line per group, with the group's own search type.
   */
  lemma PipelineRowsRender(kind: Kind, log: seq<LogRecord>, fmt: Timestamp -> string)
    ensures var rows := Rows(kind, Reachable(log));
      && |Lines(kind, rows, fmt)| == |rows| <= Limit
      && forall i :: 0 <= i < |rows| ==>
           RowLine(kind, rows[i], fmt).Ok? && Lines(kind, rows, fmt)[i] == RowLine(kind, rows[i], fmt).value
  {
    var rows := Rows(kind, Reachable(log));
    if kind.RecentKind? { RecentCorrect(log); } else { PopularCorrect(log); }
    LinesAllRender(kind, rows, fmt);
  }

  /**
   * The rows of a reachable store are a correct answer of the chosen pipeline;
   * a store that fails yields no rows and only the aggregation error.
   */
  lemma RowsCorrect(kind: Kind, store: LogStore)
    ensures store.Unreachable? ==> Rows(kind, store) == [] && Diagnostics(kind, store) == [AggregationError(kind, store.error)]
    ensures store.Reachable? && kind.RecentKind? ==>
      Diagnostics(kind, store) == [] &&
      exists r :: IsRecentAnswer(store.records, r) && Rows(kind, store) == seq(|r|, i requires 0 <= i < |r| => RecentRow(r[i]))
    ensures store.Reachable? && kind.PopularKind? ==>
      Diagnostics(kind, store) == [] &&
      exists r :: IsPopularAnswer(store.records, r) && Rows(kind, store) == seq(|r|, i requires 0 <= i < |r| => PopularRow(r[i]))
  {
    if store.Reachable? {
      RecentCorrect(store.records);
      PopularCorrect(store.records);
    }
  }

  /**
   * A choice other than "1" or "2" prints only the invalid-input line and runs
   * no aggregation (the store is never consulted); "1" and "2" always show a header.
   */
  lemma ReplyChoice(choice: string, store: LogStore, other: LogStore, fmt: Timestamp -> string)
    ensures Reply(choice, store, fmt) == [InvalidChoice] <==> Strip(choice) != "1" && Strip(choice) != "2"
    ensures Strip(choice) != "1" && Strip(choice) != "2" ==> Reply(choice, store, fmt) == Reply(choice, other, fmt)
    ensures Strip(choice) == "1" ==> Header(RecentKind) in Reply(choice, store, fmt)
    ensures Strip(choice) == "2" ==> Header(PopularKind) in Reply(choice, store, fmt)
  {
    var c := Strip(choice);
    if c == "1" || c == "2" {
      var kind := if c == "1" then RecentKind else PopularKind;
      var d := Diagnostics(kind, store);
      assert Reply(choice, store, fmt) == d + [Header(kind)] + Lines(kind, Rows(kind, store), fmt);
      assert Reply(choice, store, fmt)[|d|] == Header(kind);
      if d == [] {
        assert Header(kind) != InvalidChoice by { assert Header(kind)[0] == '\n'; }
      } else {
        assert |d| == 1;
      }
    }
  }

  // ----- The screen -----

  /**
   * One row further into a listing whose first `i` rows printed `shown`: a
   * row that raises completes the listing with its error line, and one that
   * renders adds its line, with the rows after it still to come.
   */
  lemma LinesFrom(shown: seq<string>, kind: Kind, rows: seq<Row>, i: nat, fmt: Timestamp -> string)
    requires i < |rows|
    requires shown + Lines(kind, rows[i..], fmt) == Lines(kind, rows, fmt)
    ensures RowLine(kind, rows[i], fmt).Err? ==>
      shown + [RetrievalError(kind, RowLine(kind, rows[i], fmt).message)] == Lines(kind, rows, fmt)
    ensures RowLine(kind, rows[i], fmt).Ok? ==>
      (shown + [RowLine(kind, rows[i], fmt).value]) + Lines(kind, rows[i + 1..], fmt) == Lines(kind, rows, fmt)
  {
    assert rows[i..][1..] == rows[i + 1..];
    if RowLine(kind, rows[i], fmt).Ok? {
      var v := RowLine(kind, rows[i], fmt).value;
      Regroup(shown, [v], Lines(kind, rows[i + 1..], fmt));
    }
  }

  /** `get_recent_requests()` / `get_popular_requests()`: the documents, printing the store's error if any. */
  method Requests(console: Console, kind: Kind, store: LogStore) returns (rows: seq<Row>)
    modifies console
    ensures rows == Rows(kind, store)
    ensures console.pos == old(console.pos)
    ensures console.trace == old(console.trace) + Says(Diagnostics(kind, store))
  {
    match store
    case Unreachable(e) =>
      console.Print(AggregationError(kind, e));
      rows := [];
    case Reachable(log) =>
      rows := Rows(kind, store);
  }

  /** One listing: the store's error if any, the header, then the rows. */
  method PrintListing(console: Console, kind: Kind, store: LogStore, fmt: Timestamp -> string)
    modifies console
    ensures console.pos == old(console.pos)
    ensures console.trace == old(console.trace) + Says(Listing(kind, store, fmt))
  {
    var rows := Requests(console, kind, store);
    console.Print(Header(kind));
    ExtendLine(old(console.trace), Diagnostics(kind, store), Header(kind));
    PrintRows(console, kind, rows, fmt);
    Extend(old(console.trace), Diagnostics(kind, store) + [Header(kind)], Lines(kind, rows, fmt));
  }

  /** One pass of the loop over the rows: the row's line, or the error line for the KeyError it raises. */
  method PrintRow(console: Console, kind: Kind, r: Row, fmt: Timestamp -> string) returns (line: Result<string>)
    modifies console
    ensures line == RowLine(kind, r, fmt)
    ensures console.pos == old(console.pos)
    ensures console.trace == old(console.trace) + [Said(if line.Err? then RetrievalError(kind, line.message) else line.value)]
  {
    line := RowLine(kind, r, fmt);
    if line.Err? {
      console.Print(RetrievalError(kind, line.message));
    } else {
      console.Print(line.value);
    }
  }

  /** The loop over the rows: a line per row, until a row raises KeyError. */
  method PrintRows(console: Console, kind: Kind, rows: seq<Row>, fmt: Timestamp -> string)
    modifies console
    ensures console.pos == old(console.pos)
    ensures console.trace == old(console.trace) + Says(Lines(kind, rows, fmt))
  {
    ghost var shown: seq<string> := [];
    var i := 0;
    while i < |rows|
      invariant 0 <= i <= |rows|
      invariant console.pos == old(console.pos)
      invariant console.trace == old(console.trace) + Says(shown)
      invariant shown + Lines(kind, rows[i..], fmt) == Lines(kind, rows, fmt)
    {
      LinesFrom(shown, kind, rows, i, fmt);
      var line := PrintRow(console, kind, rows[i], fmt);
      ghost var printed := if line.Err? then RetrievalError(kind, line.message) else line.value;
      ExtendLine(old(console.trace), shown, printed);
      shown := shown + [printed];
      if line.Err? {
        return;
      }
      i := i + 1;
    }
    assert rows[i..] == [];
  }

  /**
   * `show_statistics()`: the menu, the choice, then the chosen listing or the
   * invalid-input line. At end of input the EOFError escapes: its message is returned.
   */
  method ShowStatistics(console: Console, store: LogStore, fmt: Timestamp -> string) returns (failure: Option<string>)
    requires console.Valid()
    modifies console
    ensures console.Valid()
    ensures var answer := Next(console.inputs, old(console.pos));
      && console.pos == After(console.inputs, old(console.pos))
      && failure == (if answer.None? then Some(EofMessage) else None)
    ensures var answer := Next(console.inputs, old(console.pos));
      answer.None? ==> console.trace == old(console.trace) + Says(Menu) + [Asked(ChoicePrompt, answer)]
    ensures var answer := Next(console.inputs, old(console.pos));
      answer.Some? ==> console.trace == old(console.trace) + Says(Menu) + [Asked(ChoicePrompt, answer)]
                                        + Says(Reply(answer.value, store, fmt))
  {
    console.PrintAll(Menu);
    var answer := console.Input(ChoicePrompt);
    if answer.None? {
      return Some(EofMessage);
    }
    var choice := Strip(answer.value);
    if choice == "1" {
      PrintListing(console, RecentKind, store, fmt);
    } else if choice == "2" {
      PrintListing(console, PopularKind, store, fmt);
    } else {
      console.Print(InvalidChoice);
      assert Says([InvalidChoice]) == [Said(InvalidChoice)];
    }
    failure := None;
  }
}
