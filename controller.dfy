/**
 * The menu loop of the movie-search tool (`main`): keyword entry, paging
 * through search results with a log entry per page, genre and year selection,
 * and the statistics screen.
 *
 * Every dialog is given twice. A function over the input lines and the cursor
 * `pos` says what the dialog prints, asks and records, how far it reads and
 * what it yields (`Run`); a method does the same step by step on a `Console`
 * and is proved to match it. The film store is a `Catalog`: a search function
 * from a query and an offset to a page of films, the genre list and the year
 * bounds of the film table.
 */
module Controller {
  import opened Wrappers
  import opened Sequences
  import opened Text
  import Formatter
  import opened SearchLog
  import opened Io
  import Stats

  /** A row of the genre list: `category_id` and `name`. */
  datatype Genre = Genre(categoryId: int, name: string)

  /** The film store as the menu loop uses it. */
  datatype Catalog = Catalog(
    search: (Query, nat) -> seq<Formatter.Film>,
    genres: seq<Genre>,
    minYear: int,
    maxYear: int)

  /** A year range chosen by the user. */
  datatype Years = Years(from: int, to: int)

  /** How a dialog ended: normally, or by an EOFError that ends the program. */
  datatype Status = Finished | OutOfInput

  /** How one round of a re-asking loop ends: with a result, or by going round again. */
  datatype Round<T> = Done(result: T) | Repeat

  /** What a dialog did: its events, where it left the input cursor, what it yields. */
  datatype Run<T> = Run(events: seq<Event>, pos: nat, value: T)

  function Prepend<T>(es: seq<Event>, r: Run<T>): Run<T> {
    Run(es + r.events, r.pos, r.value)
  }

  lemma Chain<T>(done: seq<Event>, step: seq<Event>, r: Run<T>)
    ensures Prepend(done, Prepend(step, r)) == Prepend(done + step, r)
  {
    Regroup(done, step, r.events);
  }

  // ----- What the loop prints and asks -----

  const MainMenu: seq<string> := ["\n1 - Search by keyword", "2 - Search by genre and years", "3 - Show statistic", "0 - Exit"]
  const MenuPrompt: string := "Choose option: "
  const InvalidOption: string := "Invalid option. Please enter 1, 2, 3 or 0."
  const KeywordPrompt: string := "Enter keyword: "
  const EmptyKeyword: string := "\U{2757} Keyword cannot be empty. Please enter a keyword for search."
  const DigitsNote: string :=
    "\U{2139}\U{FE0F} Note: You've entered only numbers. Searching for movies with numbers in the title."
  const RetryPrompt: string := "Failed to load results. Try again? (yes/no): "
  const NoMoreResults: string := "No more results found."
  const NextPrompt: string := "\nShow next 10 movies? (1 - yes, 2 - back to menu): "
  /** How far `offset` moves for the next page. */
  const PageSize: nat := 10
  const LoadRetryPrompt: string := "Failed to load genres or years. Try again? (yes/no): "
  const GenrePrompt: string := "Enter genre number: "
  const InvalidGenre: string := "\U{2757} Invalid genre number. Please select a number from the list."
  const GenreNotNumber: string := "\U{2757} Genre must be a number."
  const YearModeMenu: seq<string> := ["\n1 - By single year", "2 - By a range (from and/or to)"]
  const YearModePrompt: string := "Choose option (1 or 2): "
  const BadYearMode: string := "\U{2757} Please enter 1 or 2."
  const YearPrompt: string := "Enter year: "
  const BadYear: string := "\U{2757} Please enter a valid number for the year."
  const BadYears: string := "\U{2757} Please enter a valid number for years."
  const FromAfterTo: string := "\U{2757} 'From year' cannot be after 'To year'. Please enter valid range."
  const KeywordType: string := "keyword"
  const GenreType: string := "genre&years"

  function GenreListing(c: Catalog): seq<string> {
    ["\nAvailable genres:"]
    + seq(|c.genres|, i requires 0 <= i < |c.genres| => IntToString(c.genres[i].categoryId) + ". " + c.genres[i].name)
    + ["\nAvailable year range: " + IntToString(c.minYear) + " - " + IntToString(c.maxYear)]
  }

  function YearOutOfRange(c: Catalog): string {
    "\U{2757} Year must be between " + IntToString(c.minYear) + " and " + IntToString(c.maxYear) + "."
  }

  function RangeOutOfRange(c: Catalog): string {
    "\U{2757} Year must be between " + IntToString(c.minYear) + " and " + IntToString(c.maxYear) + ". Please try again."
  }

  function FromPrompt(c: Catalog): string {
    "From year (press Enter to use " + IntToString(c.minYear) + "): "
  }

  function ToPrompt(c: Catalog): string {
    "To year   (press Enter to use " + IntToString(c.maxYear) + "): "
  }

  function StatsFailed(message: string): string {
    "Failed to load statistics: " + message
  }

  /** The search-log entry written for a page of `count` films found by `q`. */
  function LogEntry(q: Query, count: nat): Event {
    match q
    case KeywordQuery(k) => Logged(KeywordType, map["keyword" := Text(k)], count)
    case GenreQuery(g, f, t) =>
      Logged(GenreType, map["genre" := Text(g), "year_from" := Number(f), "year_to" := Number(t)], count)
  }

  /** `next((g['name'] for g in genres if g['category_id'] == id), None)` */
  function NameOf(genres: seq<Genre>, id: int): Option<string> {
    if genres == [] then None
    else if genres[0].categoryId == id then Some(genres[0].name)
    else NameOf(genres[1..], id)
  }

  /** The name found is that of the first genre with the number; `None` when no genre has it. */
  lemma {:induction false} NameOfSpec(genres: seq<Genre>, id: int)
    ensures NameOf(genres, id).Some? ==>
      exists k :: 0 <= k < |genres| && genres[k].categoryId == id && genres[k].name == NameOf(genres, id).value
                  && forall j :: 0 <= j < k ==> genres[j].categoryId != id
    ensures NameOf(genres, id).None? <==> forall k :: 0 <= k < |genres| ==> genres[k].categoryId != id
  {
    if genres != [] && genres[0].categoryId != id {
      var tail := genres[1..];
      NameOfSpec(tail, id);
      if NameOf(tail, id).Some? {
        var k :| 0 <= k < |tail| && tail[k].categoryId == id && tail[k].name == NameOf(tail, id).value
                 && forall j :: 0 <= j < k ==> tail[j].categoryId != id;
        assert genres[k + 1] == tail[k];
        forall j | 0 <= j < k + 1 ensures genres[j].categoryId != id {
          if j > 0 { assert genres[j] == tail[j - 1]; }
        }
      } else {
        forall k | 0 <= k < |genres| ensures genres[k].categoryId != id {
          if k > 0 { assert genres[k] == tail[k - 1]; }
        }
      }
    }
  }

  /** The genre an answer to the genre prompt selects: a number whose first listed name is non-empty. */
  function Selection(genres: seq<Genre>, answer: string): (r: Option<string>)
    ensures r.Some? ==> r.value != [] && ParseInt(answer).Some?
  {
    match ParseInt(answer)
    case None => None
    case Some(id) =>
      var name := NameOf(genres, id);
      if name.None? || name.value == [] then None else name
  }

  /** A year typed in range mode: blank means the bound `default`. */
  function RangeYear(raw: string, default: int): Option<int> {
    if Strip(raw) == [] then Some(default) else ParseInt(Strip(raw))
  }

  // ----- The dialogs, as functions of the input -----

  /** Lines 17-24: ask until the stripped keyword is non-empty; note an all-digit keyword. */
  function KeywordEntry(ins: seq<string>, pos: nat): (r: Run<Option<string>>)
    requires pos <= |ins|
    ensures pos <= r.pos <= |ins|
    decreases |ins| - pos
  {
    var answer := Next(ins, pos);
    var asked := [Asked(KeywordPrompt, answer)];
    if answer.None? then Run(asked, pos, None)
    else
      var keyword := Strip(answer.value);
      if keyword == [] then Prepend(asked + [Said(EmptyKeyword)], KeywordEntry(ins, pos + 1))
      else if IsDigits(keyword) then Run(asked + [Said(DigitsNote)], pos + 1, Some(keyword))
      else Run(asked, pos + 1, Some(keyword))
  }

  /** How one turn of the paging loop ends: leave it, or go round again at `offset`. */
  datatype Turn = Stop(status: Status) | Again(offset: nat)

  /**
   * One turn of lines 26-47 and 126-152: fetch the page at `offset`; an empty
   * first page offers a retry, a later empty page ends the paging; a non-empty
   * page is logged and shown, and the user may ask for the next one.
   */
  function PageTurn(c: Catalog, q: Query, ins: seq<string>, pos: nat, offset: nat): (r: Run<Turn>)
    requires pos <= |ins|
    ensures pos <= r.pos <= |ins|
    ensures r.value.Again? ==> r.pos == pos + 1
    ensures r.value.Again? ==> r.value.offset == offset + PageSize || r.value.offset == offset == 0
    ensures r.value == Stop(OutOfInput) ==> r.pos == |ins|
  {
    var films := c.search(q, offset);
    var fetched := Fetched(q, offset, |films|);
    if films == [] && offset == 0 then
      var answer := Next(ins, pos);
      var step := [fetched] + [Asked(RetryPrompt, answer)];
      if answer.None? then Run(step, pos, Stop(OutOfInput))
      else if Lower(Strip(answer.value)) == "yes" then Run(step, pos + 1, Again(0))
      else Run(step, pos + 1, Stop(Finished))
    else if films == [] then Run([fetched] + [Said(NoMoreResults)], pos, Stop(Finished))
    else
      var answer := Next(ins, pos);
      var step := [fetched] + Page(q, films) + [Asked(NextPrompt, answer)];
      if answer.None? then Run(step, pos, Stop(OutOfInput))
      else if answer.value == "1" then Run(step, pos + 1, Again(offset + PageSize))
      else Run(step, pos + 1, Stop(Finished))
  }

  /** The paging loop: turns until one of them stops it. */
  function Paging(c: Catalog, q: Query, ins: seq<string>, pos: nat, offset: nat): (r: Run<Status>)
    requires pos <= |ins|
    ensures pos <= r.pos <= |ins|
    decreases |ins| - pos
  {
    var t := PageTurn(c, q, ins, pos, offset);
    match t.value
    case Stop(status) => Run(t.events, t.pos, status)
    case Again(next) => Prepend(t.events, Paging(c, q, ins, t.pos, next))
  }

  /** A non-empty page after its fetch: the log entry, then the films. */
  function Page(q: Query, films: seq<Formatter.Film>): seq<Event> {
    [LogEntry(q, |films|)] + Says(Formatter.Rendered(films))
  }

  /** Lines 50-65: list the genres and the year range, or offer to retry when there are no genres. */
  function GenreLoading(c: Catalog, ins: seq<string>, pos: nat): (r: Run<Status>)
    requires pos <= |ins|
    ensures pos <= r.pos <= |ins|
    decreases |ins| - pos
  {
    if c.genres == [] then
      var answer := Next(ins, pos);
      var asked := [Asked(LoadRetryPrompt, answer)];
      if answer.None? then Run(asked, pos, OutOfInput)
      else if Lower(Strip(answer.value)) == "yes" then Prepend(asked, GenreLoading(c, ins, pos + 1))
      else Run(asked, pos + 1, Finished)
    else Run(Says(GenreListing(c)), pos, Finished)
  }

  /** Lines 68-77: ask for a genre number until it names a listed genre. */
  function GenreChoice(c: Catalog, ins: seq<string>, pos: nat): (r: Run<Option<string>>)
    requires pos <= |ins|
    ensures pos <= r.pos <= |ins|
    decreases |ins| - pos
  {
    var answer := Next(ins, pos);
    var asked := [Asked(GenrePrompt, answer)];
    if answer.None? then Run(asked, pos, None)
    else if ParseInt(answer.value).None? then Prepend(asked + [Said(GenreNotNumber)], GenreChoice(c, ins, pos + 1))
    else if Selection(c.genres, answer.value).None? then Prepend(asked + [Said(InvalidGenre)], GenreChoice(c, ins, pos + 1))
    else Run(asked, pos + 1, Selection(c.genres, answer.value))
  }

  /** Lines 90-100: ask for one year until it is a number within the bounds. */
  function SingleYear(c: Catalog, ins: seq<string>, pos: nat): (r: Run<Option<Years>>)
    requires pos <= |ins|
    ensures pos <= r.pos <= |ins|
    decreases |ins| - pos
  {
    var answer := Next(ins, pos);
    var asked := [Asked(YearPrompt, answer)];
    if answer.None? then Run(asked, pos, None)
    else
      var year := ParseInt(answer.value);
      if year.None? then Prepend(asked + [Said(BadYear)], SingleYear(c, ins, pos + 1))
      else if !(c.minYear <= year.value <= c.maxYear) then Prepend(asked + [Said(YearOutOfRange(c))], SingleYear(c, ins, pos + 1))
      else Run(asked, pos + 1, Some(Years(year.value, year.value)))
  }

  /** What is wrong with the first year of a range, if anything. */
  function FromComplaint(c: Catalog, from: Option<int>): Option<string> {
    if from.None? then Some(BadYears)
    else if !(c.minYear <= from.value <= c.maxYear) then Some(RangeOutOfRange(c))
    else None
  }

  /** What is wrong with the last year of a range starting at `from`, if anything. */
  function ToComplaint(c: Catalog, from: int, to: Option<int>): Option<string> {
    if to.None? then Some(BadYears)
    else if !(c.minYear <= to.value <= c.maxYear) then Some(RangeOutOfRange(c))
    else if from > to.value then Some(FromAfterTo)
    else None
  }

  /**
   * One attempt of lines 103-124: ask for the first and the last year, each
   * defaulting to its bound when left blank; a bad answer is complained about.
   */
  function RangeRound(c: Catalog, ins: seq<string>, pos: nat): (r: Run<Round<Option<Years>>>)
    requires pos <= |ins|
    ensures pos <= r.pos <= |ins|
    ensures r.value.Repeat? ==> pos < r.pos
    ensures r.value == Done(None) ==> r.pos == |ins|
    ensures r.value.Done? && r.value.result.Some? ==> r.pos == pos + 2
  {
    var first := Next(ins, pos);
    var askedFrom := Asked(FromPrompt(c), first);
    if first.None? then Run([askedFrom], pos, Done(None))
    else
      var from := RangeYear(first.value, c.minYear);
      var bad := FromComplaint(c, from);
      if bad.Some? then Run([askedFrom] + [Said(bad.value)], pos + 1, Repeat)
      else
        var last := Next(ins, pos + 1);
        var askedTo := Asked(ToPrompt(c), last);
        if last.None? then Run([askedFrom] + [askedTo], pos + 1, Done(None))
        else
          var to := RangeYear(last.value, c.maxYear);
          var wrong := ToComplaint(c, from.value, to);
          if wrong.Some? then Run([askedFrom] + [askedTo] + [Said(wrong.value)], pos + 2, Repeat)
          else Run([askedFrom] + [askedTo], pos + 2, Done(Some(Years(from.value, to.value))))
  }

  /** Lines 103-124: attempts until one settles; any bad answer starts over from the first year. */
  function YearRange(c: Catalog, ins: seq<string>, pos: nat): (r: Run<Option<Years>>)
    requires pos <= |ins|
    ensures pos <= r.pos <= |ins|
    decreases |ins| - pos
  {
    var t := RangeRound(c, ins, pos);
    match t.value
    case Done(years) => Run(t.events, t.pos, years)
    case Repeat => Prepend(t.events, YearRange(c, ins, t.pos))
  }

  /** Lines 83-124: ask for the year mode until it is "1" or "2", then for the years. */
  function YearMode(c: Catalog, ins: seq<string>, pos: nat): (r: Run<Option<Years>>)
    requires pos <= |ins|
    ensures pos <= r.pos <= |ins|
    decreases |ins| - pos
  {
    var answer := Next(ins, pos);
    var asked := [Asked(YearModePrompt, answer)];
    if answer.None? then Run(asked, pos, None)
    else
      var mode := Strip(answer.value);
      if mode == "1" then Prepend(asked, SingleYear(c, ins, pos + 1))
      else if mode == "2" then Prepend(asked, YearRange(c, ins, pos + 1))
      else Prepend(asked + [Said(BadYearMode)], YearMode(c, ins, pos + 1))
  }

  /** Menu option 1. */
  function KeywordFlow(c: Catalog, ins: seq<string>, pos: nat): (r: Run<Status>)
    requires pos <= |ins|
    ensures pos <= r.pos <= |ins|
  {
    var k := KeywordEntry(ins, pos);
    if k.value.None? then Run(k.events, k.pos, OutOfInput)
    else Prepend(k.events, Paging(c, KeywordQuery(k.value.value), ins, k.pos, 0))
  }

  /** Menu option 2. */
  function GenreFlow(c: Catalog, ins: seq<string>, pos: nat): (r: Run<Status>)
    requires pos <= |ins|
    ensures pos <= r.pos <= |ins|
  {
    var l := GenreLoading(c, ins, pos);
    if l.value.OutOfInput? then l
    else
      var g := GenreChoice(c, ins, l.pos);
      if g.value.None? then Run(l.events + g.events, g.pos, OutOfInput)
      else
        var y := YearMode(c, ins, g.pos);
        var before := l.events + g.events + Says(YearModeMenu) + y.events;
        if y.value.None? then Run(before, y.pos, OutOfInput)
        else Prepend(before, Paging(c, GenreQuery(g.value.value, y.value.value.from, y.value.value.to), ins, y.pos, 0))
  }

  /** Menu option 3: the statistics screen; an EOFError in it is caught and reported. */
  function StatsFlow(store: LogStore, fmt: Timestamp -> string, ins: seq<string>, pos: nat): (r: Run<Status>)
    requires pos <= |ins|
    ensures pos <= r.pos <= |ins|
  {
    var answer := Next(ins, pos);
    var shown := Says(Stats.Menu) + [Asked(Stats.ChoicePrompt, answer)];
    if answer.None? then Run(shown + [Said(StatsFailed(EofMessage))], pos, Finished)
    else Run(shown + Says(Stats.Reply(answer.value, store, fmt)), pos + 1, Finished)
  }

  /** One menu choice other than "0". */
  function Action(c: Catalog, store: LogStore, fmt: Timestamp -> string, choice: string, ins: seq<string>, pos: nat): (r: Run<Status>)
    requires pos <= |ins|
    ensures pos <= r.pos <= |ins|
  {
    if choice == "1" then KeywordFlow(c, ins, pos)
    else if choice == "2" then GenreFlow(c, ins, pos)
    else if choice == "3" then StatsFlow(store, fmt, ins, pos)
    else Run([Said(InvalidOption)], pos, Finished)
  }

  /** One round of lines 9-163: the menu, the choice, and what the choice does. */
  function MenuRound(c: Catalog, store: LogStore, fmt: Timestamp -> string, ins: seq<string>, pos: nat): (r: Run<Round<Status>>)
    requires pos <= |ins|
    ensures pos <= r.pos <= |ins|
    ensures r.value.Repeat? ==> pos < r.pos
    ensures r.value == Done(Finished) ==> r.events != [] && r.events[|r.events| - 1] == Asked(MenuPrompt, Some("0"))
  {
    var answer := Next(ins, pos);
    var menu := Says(MainMenu) + [Asked(MenuPrompt, answer)];
    if answer.None? then Run(menu, pos, Done(OutOfInput))
    else if answer.value == "0" then Run(menu, pos + 1, Done(Finished))
    else
      var action := Action(c, store, fmt, answer.value, ins, pos + 1);
      Run(menu + action.events, action.pos, if action.value.OutOfInput? then Done(OutOfInput) else Repeat)
  }

  /** Lines 9-163: the menu loop, until "0" or the end of the input. */
  function Session(c: Catalog, store: LogStore, fmt: Timestamp -> string, ins: seq<string>, pos: nat): (r: Run<Status>)
    requires pos <= |ins|
    ensures pos <= r.pos <= |ins|
    decreases |ins| - pos
  {
    var t := MenuRound(c, store, fmt, ins, pos);
    match t.value
    case Done(status) => Run(t.events, t.pos, status)
    case Repeat => Prepend(t.events, Session(c, store, fmt, ins, t.pos))
  }

  // ----- The dialogs, step by step on the console -----

  method AskKeyword(console: Console) returns (keyword: Option<string>)
    requires console.Valid()
    modifies console
    ensures console.Valid()
    ensures var r := KeywordEntry(console.inputs, old(console.pos));
      console.trace == old(console.trace) + r.events && console.pos == r.pos && keyword == r.value
  {
    ghost var start := Prepend(console.trace, KeywordEntry(console.inputs, console.pos));
    while true
      invariant console.Valid()
      invariant Prepend(console.trace, KeywordEntry(console.inputs, console.pos)) == start
      decreases |console.inputs| - console.pos
    {
      ghost var before := console.trace;
      var answer := console.Input(KeywordPrompt);
      if answer.None? {
        return None;
      }
      var k := Strip(answer.value);
      if k == [] {
        console.Print(EmptyKeyword);
        Regroup(before, [Asked(KeywordPrompt, answer)], [Said(EmptyKeyword)]);
        Chain(before, [Asked(KeywordPrompt, answer)] + [Said(EmptyKeyword)], KeywordEntry(console.inputs, console.pos));
        continue;
      }
      if IsDigits(k) {
        console.Print(DigitsNote);
        Regroup(before, [Asked(KeywordPrompt, answer)], [Said(DigitsNote)]);
      }
      return Some(k);
    }
  }

  /** The paging loop, for either kind of query. */
  method Browse(console: Console, c: Catalog, q: Query) returns (status: Status)
    requires console.Valid()
    modifies console
    ensures console.Valid()
    ensures var r := Paging(c, q, console.inputs, old(console.pos), 0);
      console.trace == old(console.trace) + r.events && console.pos == r.pos && status == r.value
  {
    ghost var start := Prepend(console.trace, Paging(c, q, console.inputs, console.pos, 0));
    var offset: nat := 0;
    while true
      invariant console.Valid()
      invariant Prepend(console.trace, Paging(c, q, console.inputs, console.pos, offset)) == start
      decreases |console.inputs| - console.pos
    {
      ghost var before := console.trace;
      ghost var t := PageTurn(c, q, console.inputs, console.pos, offset);
      var turn := TurnPage(console, c, q, offset);
      match turn
      case Stop(s) =>
        return s;
      case Again(next) =>
        Chain(before, t.events, Paging(c, q, console.inputs, console.pos, next));
        offset := next;
    }
  }

  /** One turn of the paging loop. */
  method TurnPage(console: Console, c: Catalog, q: Query, offset: nat) returns (turn: Turn)
    requires console.Valid()
    modifies console
    ensures console.Valid()
    ensures var r := PageTurn(c, q, console.inputs, old(console.pos), offset);
      console.trace == old(console.trace) + r.events && console.pos == r.pos && turn == r.value
  {
    ghost var before := console.trace;
    var films := c.search(q, offset);
    var fetched := Fetched(q, offset, |films|);
    console.Record(fetched);
    if films == [] && offset == 0 {
      var retry := console.Input(RetryPrompt);
      Regroup(before, [fetched], [Asked(RetryPrompt, retry)]);
      if retry.None? {
        return Stop(OutOfInput);
      }
      if Lower(Strip(retry.value)) == "yes" {
        return Again(0);
      }
      return Stop(Finished);
    }
    if films == [] {
      console.Print(NoMoreResults);
      Regroup(before, [fetched], [Said(NoMoreResults)]);
      return Stop(Finished);
    }
    PrintPage(console, q, films);
    Regroup(before, [fetched], Page(q, films));
    var next := console.Input(NextPrompt);
    Regroup(before, [fetched] + Page(q, films), [Asked(NextPrompt, next)]);
    if next.None? {
      return Stop(OutOfInput);
    }
    if next.value == "1" {
      return Again(offset + PageSize);
    }
    return Stop(Finished);
  }

  /** Log a non-empty page, then show its films. */
  method PrintPage(console: Console, q: Query, films: seq<Formatter.Film>)
    modifies console
    ensures console.pos == old(console.pos)
    ensures console.trace == old(console.trace) + Page(q, films)
  {
    console.Record(LogEntry(q, |films|));
    var lines := Formatter.PrintMovies(films);
    console.PrintAll(lines);
    Regroup(old(console.trace), [LogEntry(q, |films|)], Says(lines));
  }

  method LoadGenres(console: Console, c: Catalog) returns (status: Status)
    requires console.Valid()
    modifies console
    ensures console.Valid()
    ensures var r := GenreLoading(c, console.inputs, old(console.pos));
      console.trace == old(console.trace) + r.events && console.pos == r.pos && status == r.value
  {
    ghost var start := Prepend(console.trace, GenreLoading(c, console.inputs, console.pos));
    while true
      invariant console.Valid()
      invariant Prepend(console.trace, GenreLoading(c, console.inputs, console.pos)) == start
      decreases |console.inputs| - console.pos
    {
      if c.genres != [] {
        console.PrintAll(GenreListing(c));
        return Finished;
      }
      ghost var before := console.trace;
      var retry := console.Input(LoadRetryPrompt);
      if retry.None? {
        return OutOfInput;
      }
      if Lower(Strip(retry.value)) != "yes" {
        return Finished;
      }
      Chain(before, [Asked(LoadRetryPrompt, retry)], GenreLoading(c, console.inputs, console.pos));
    }
  }

  method AskGenre(console: Console, c: Catalog) returns (genre: Option<string>)
    requires console.Valid()
    modifies console
    ensures console.Valid()
    ensures var r := GenreChoice(c, console.inputs, old(console.pos));
      console.trace == old(console.trace) + r.events && console.pos == r.pos && genre == r.value
  {
    ghost var start := Prepend(console.trace, GenreChoice(c, console.inputs, console.pos));
    while true
      invariant console.Valid()
      invariant Prepend(console.trace, GenreChoice(c, console.inputs, console.pos)) == start
      decreases |console.inputs| - console.pos
    {
      ghost var before := console.trace;
      var answer := console.Input(GenrePrompt);
      if answer.None? {
        return None;
      }
      var id := ParseInt(answer.value);
      if id.None? {
        console.Print(GenreNotNumber);
        Regroup(before, [Asked(GenrePrompt, answer)], [Said(GenreNotNumber)]);
        Chain(before, [Asked(GenrePrompt, answer)] + [Said(GenreNotNumber)], GenreChoice(c, console.inputs, console.pos));
        continue;
      }
      var name := NameOf(c.genres, id.value);
      if name.None? || name.value == [] {
        console.Print(InvalidGenre);
        Regroup(before, [Asked(GenrePrompt, answer)], [Said(InvalidGenre)]);
        Chain(before, [Asked(GenrePrompt, answer)] + [Said(InvalidGenre)], GenreChoice(c, console.inputs, console.pos));
        continue;
      }
      return name;
    }
  }

  method AskSingleYear(console: Console, c: Catalog) returns (years: Option<Years>)
    requires console.Valid()
    modifies console
    ensures console.Valid()
    ensures var r := SingleYear(c, console.inputs, old(console.pos));
      console.trace == old(console.trace) + r.events && console.pos == r.pos && years == r.value
  {
    ghost var start := Prepend(console.trace, SingleYear(c, console.inputs, console.pos));
    while true
      invariant console.Valid()
      invariant Prepend(console.trace, SingleYear(c, console.inputs, console.pos)) == start
      decreases |console.inputs| - console.pos
    {
      ghost var before := console.trace;
      var answer := console.Input(YearPrompt);
      if answer.None? {
        return None;
      }
      var year := ParseInt(answer.value);
      if year.None? {
        console.Print(BadYear);
        Regroup(before, [Asked(YearPrompt, answer)], [Said(BadYear)]);
        Chain(before, [Asked(YearPrompt, answer)] + [Said(BadYear)], SingleYear(c, console.inputs, console.pos));
        continue;
      }
      if !(c.minYear <= year.value <= c.maxYear) {
        console.Print(YearOutOfRange(c));
        Regroup(before, [Asked(YearPrompt, answer)], [Said(YearOutOfRange(c))]);
        Chain(before, [Asked(YearPrompt, answer)] + [Said(YearOutOfRange(c))], SingleYear(c, console.inputs, console.pos));
        continue;
      }
      return Some(Years(year.value, year.value));
    }
  }

  method AskYearRange(console: Console, c: Catalog) returns (years: Option<Years>)
    requires console.Valid()
    modifies console
    ensures console.Valid()
    ensures var r := YearRange(c, console.inputs, old(console.pos));
      console.trace == old(console.trace) + r.events && console.pos == r.pos && years == r.value
  {
    ghost var start := Prepend(console.trace, YearRange(c, console.inputs, console.pos));
    while true
      invariant console.Valid()
      invariant Prepend(console.trace, YearRange(c, console.inputs, console.pos)) == start
      decreases |console.inputs| - console.pos
    {
      ghost var before := console.trace;
      ghost var t := RangeRound(c, console.inputs, console.pos);
      var round := AskRangeOnce(console, c);
      match round
      case Done(result) =>
        return result;
      case Repeat =>
        Chain(before, t.events, YearRange(c, console.inputs, console.pos));
    }
  }

  /** One attempt at a year range. */
  method AskRangeOnce(console: Console, c: Catalog) returns (round: Round<Option<Years>>)
    requires console.Valid()
    modifies console
    ensures console.Valid()
    ensures var r := RangeRound(c, console.inputs, old(console.pos));
      console.trace == old(console.trace) + r.events && console.pos == r.pos && round == r.value
  {
    ghost var before := console.trace;
    var first := console.Input(FromPrompt(c));
    ghost var askedFrom := Asked(FromPrompt(c), first);
    if first.None? {
      return Done(None);
    }
    var from := RangeYear(first.value, c.minYear);
    var bad := FromComplaint(c, from);
    if bad.Some? {
      console.Print(bad.value);
      Regroup(before, [askedFrom], [Said(bad.value)]);
      return Repeat;
    }
    var last := console.Input(ToPrompt(c));
    ghost var askedTo := Asked(ToPrompt(c), last);
    Regroup(before, [askedFrom], [askedTo]);
    if last.None? {
      return Done(None);
    }
    var to := RangeYear(last.value, c.maxYear);
    var wrong := ToComplaint(c, from.value, to);
    if wrong.Some? {
      console.Print(wrong.value);
      Regroup(before, [askedFrom] + [askedTo], [Said(wrong.value)]);
      return Repeat;
    }
    return Done(Some(Years(from.value, to.value)));
  }

  method AskYears(console: Console, c: Catalog) returns (years: Option<Years>)
    requires console.Valid()
    modifies console
    ensures console.Valid()
    ensures var r := YearMode(c, console.inputs, old(console.pos));
      console.trace == old(console.trace) + r.events && console.pos == r.pos && years == r.value
  {
    ghost var start := Prepend(console.trace, YearMode(c, console.inputs, console.pos));
    while true
      invariant console.Valid()
      invariant Prepend(console.trace, YearMode(c, console.inputs, console.pos)) == start
      decreases |console.inputs| - console.pos
    {
      ghost var before := console.trace;
      var answer := console.Input(YearModePrompt);
      if answer.None? {
        return None;
      }
      var mode := Strip(answer.value);
      if mode == "1" {
        ghost var r := SingleYear(c, console.inputs, console.pos);
        years := AskSingleYear(console, c);
        Regroup(before, [Asked(YearModePrompt, answer)], r.events);
        return;
      }
      if mode == "2" {
        ghost var r := YearRange(c, console.inputs, console.pos);
        years := AskYearRange(console, c);
        Regroup(before, [Asked(YearModePrompt, answer)], r.events);
        return;
      }
      console.Print(BadYearMode);
      Regroup(before, [Asked(YearModePrompt, answer)], [Said(BadYearMode)]);
      Chain(before, [Asked(YearModePrompt, answer)] + [Said(BadYearMode)], YearMode(c, console.inputs, console.pos));
    }
  }

  // ----- The menu options and the menu loop on the console -----

  /** Menu option 1: a keyword, then its pages. */
  method SearchByKeyword(console: Console, c: Catalog) returns (status: Status)
    requires console.Valid()
    modifies console
    ensures console.Valid()
    ensures var r := KeywordFlow(c, console.inputs, old(console.pos));
      console.trace == old(console.trace) + r.events && console.pos == r.pos && status == r.value
  {
    ghost var before := console.trace;
    ghost var k := KeywordEntry(console.inputs, console.pos);
    var keyword := AskKeyword(console);
    if keyword.None? {
      return OutOfInput;
    }
    ghost var p := Paging(c, KeywordQuery(keyword.value), console.inputs, console.pos, 0);
    status := Browse(console, c, KeywordQuery(keyword.value));
    Regroup(before, k.events, p.events);
  }

  /** Menu option 2: the genre list, a genre, the years, then the pages. */
  method SearchByGenre(console: Console, c: Catalog) returns (status: Status)
    requires console.Valid()
    modifies console
    ensures console.Valid()
    ensures var r := GenreFlow(c, console.inputs, old(console.pos));
      console.trace == old(console.trace) + r.events && console.pos == r.pos && status == r.value
  {
    ghost var before := console.trace;
    ghost var l := GenreLoading(c, console.inputs, console.pos);
    status := LoadGenres(console, c);
    if status == OutOfInput {
      return;
    }
    ghost var g := GenreChoice(c, console.inputs, console.pos);
    var genre := AskGenre(console, c);
    Regroup(before, l.events, g.events);
    if genre.None? {
      return OutOfInput;
    }
    console.PrintAll(YearModeMenu);
    Regroup(before, l.events + g.events, Says(YearModeMenu));
    ghost var y := YearMode(c, console.inputs, console.pos);
    var years := AskYears(console, c);
    ghost var shown := l.events + g.events + Says(YearModeMenu) + y.events;
    Regroup(before, l.events + g.events + Says(YearModeMenu), y.events);
    if years.None? {
      return OutOfInput;
    }
    var q := GenreQuery(genre.value, years.value.from, years.value.to);
    ghost var p := Paging(c, q, console.inputs, console.pos, 0);
    status := Browse(console, c, q);
    Regroup(before, shown, p.events);
  }

  /** Menu option 3: the statistics screen, reporting an error that escapes it. */
  method Statistics(console: Console, store: LogStore, fmt: Timestamp -> string) returns (status: Status)
    requires console.Valid()
    modifies console
    ensures console.Valid()
    ensures var r := StatsFlow(store, fmt, console.inputs, old(console.pos));
      console.trace == old(console.trace) + r.events && console.pos == r.pos && status == r.value
  {
    ghost var before := console.trace;
    ghost var answer := Next(console.inputs, console.pos);
    var failure := Stats.ShowStatistics(console, store, fmt);
    Regroup(before, Says(Stats.Menu), [Asked(Stats.ChoicePrompt, answer)]);
    if failure.Some? {
      console.Print(StatsFailed(failure.value));
      Regroup(before, Says(Stats.Menu) + [Asked(Stats.ChoicePrompt, answer)], [Said(StatsFailed(failure.value))]);
    } else {
      Regroup(before, Says(Stats.Menu) + [Asked(Stats.ChoicePrompt, answer)], Says(Stats.Reply(answer.value, store, fmt)));
    }
    return Finished;
  }

  /** What a menu choice other than "0" does. */
  method Perform(console: Console, c: Catalog, store: LogStore, fmt: Timestamp -> string, choice: string) returns (status: Status)
    requires console.Valid()
    modifies console
    ensures console.Valid()
    ensures var r := Action(c, store, fmt, choice, console.inputs, old(console.pos));
      console.trace == old(console.trace) + r.events && console.pos == r.pos && status == r.value
  {
    if choice == "1" {
      status := SearchByKeyword(console, c);
    } else if choice == "2" {
      status := SearchByGenre(console, c);
    } else if choice == "3" {
      status := Statistics(console, store, fmt);
    } else {
      console.Print(InvalidOption);
      status := Finished;
    }
  }

  /** One round of the menu loop. */
  method MenuOnce(console: Console, c: Catalog, store: LogStore, fmt: Timestamp -> string) returns (round: Round<Status>)
    requires console.Valid()
    modifies console
    ensures console.Valid()
    ensures var r := MenuRound(c, store, fmt, console.inputs, old(console.pos));
      console.trace == old(console.trace) + r.events && console.pos == r.pos && round == r.value
  {
    ghost var before := console.trace;
    console.PrintAll(MainMenu);
    var choice := console.Input(MenuPrompt);
    ghost var menu := Says(MainMenu) + [Asked(MenuPrompt, choice)];
    Regroup(before, Says(MainMenu), [Asked(MenuPrompt, choice)]);
    if choice.None? {
      return Done(OutOfInput);
    }
    if choice.value == "0" {
      return Done(Finished);
    }
    ghost var action := Action(c, store, fmt, choice.value, console.inputs, console.pos);
    var status := Perform(console, c, store, fmt, choice.value);
    Regroup(before, menu, action.events);
    round := if status == OutOfInput then Done(OutOfInput) else Repeat;
  }

  /** `main()`: the menu loop until "0" is chosen or the input runs out. */
  method RunSession(console: Console, c: Catalog, store: LogStore, fmt: Timestamp -> string) returns (status: Status)
    requires console.Valid()
    modifies console
    ensures console.Valid()
    ensures var r := Session(c, store, fmt, console.inputs, old(console.pos));
      console.trace == old(console.trace) + r.events && console.pos == r.pos && status == r.value
  {
    ghost var start := Prepend(console.trace, Session(c, store, fmt, console.inputs, console.pos));
    while true
      invariant console.Valid()
      invariant Prepend(console.trace, Session(c, store, fmt, console.inputs, console.pos)) == start
      decreases |console.inputs| - console.pos
    {
      ghost var before := console.trace;
      ghost var t := MenuRound(c, store, fmt, console.inputs, console.pos);
      var round := MenuOnce(console, c, store, fmt);
      match round
      case Done(result) =>
        return result;
      case Repeat =>
        Chain(before, t.events, Session(c, store, fmt, console.inputs, console.pos));
    }
  }
}
