# Movie search: a verified model of the console, the film renderer and the search-log statistics

The program is a console tool for searching a film catalog. Its menu loop (`main`) offers:
- a search by keyword;
- a search by genre and years;
- a statistics screen.

Both searches page through the results, moving the offset on by ten for each next page. Every non-empty page is written to a search log before it is shown. The statistics screen lists the five most recent distinct searches, or the five most popular ones, from that log.

This project models three parts in Dafny and proves what each promises:
- **Film rendering** (`print_movies`): module `Formatter`.
- **The two log aggregations, their rendering and the statistics screen**: modules `SearchLog` and `Stats`.
- **The menu loop**: module `Controller`, with the lemmas about it in `ControllerFacts`, `PagingFacts` and `SessionFacts`.

`Text` models the Python string operations the program relies on: `strip`, `lower`, `upper`, `title`, `isdigit`, `int()`, `str(int)` and `<` padding. `Io` models the console.

## How the model is built

- **The console** is a `Console` object. It holds:
  - the lines standard input will deliver (`inputs`);
  - how many of them have been read (`pos`);
  - a `trace` of events: lines printed, prompts asked with their answers, catalog fetches, log entries written.

  `input()` at the end of the lines is the point where Python raises EOFError. In the model the answer is then `None`.
- **Every dialog of the menu loop comes twice:**
  - as a function of the input lines and the cursor (`KeywordEntry`, `PageTurn`/`Paging`, `GenreLoading`, `GenreChoice`, `SingleYear`, `RangeRound`/`YearRange`, `YearMode`, `MenuRound`/`Session`), giving the events, the new cursor and the result;
  - as a method with the source's `while` loops on the console, proved to leave exactly the trace and cursor the function describes.

  The properties of the loop are then lemmas about the functions.
- **The catalog** is a value: a search function from a query and an offset to a page of films, the genre list, and the year bounds.
- **The search log** is a sequence of records with the shape the log writer inserts: timestamp, search type, parameters, result count.
  - Each aggregation is given twice:
    - as a predicate that any correct answer satisfies (`IsRecentAnswer`, `IsPopularAnswer`), leaving ties open;
    - as a function computing one answer (`Recent`, `Popular`): group, sort by insertion, take five.
  - A lemma proves that the function meets the predicate.
- **A film record** distinguishes a missing key from a key holding `None`. `dict.get` substitutes the default only for the first. A `None` that reaches `.upper()`, `.title()` or a slice raises, and the record's `try` turns that into one error line.

Where the code and its documentation disagree, the model follows the code:
- The genre search is logged under the type `"genre&years"` (main.py:140). The log writer's docstring calls it `'genre_years'` (log_writer.py:12).
- Answering anything but "yes" when no genres could be loaded leaves only the loading loop (main.py:54-59). The genre prompt still follows, with an empty list. `SessionFacts.GenreFlowNoGenres` proves that no answer can then select a genre, so that search ends only when the input does.

## Model

| member | source | states |
|---|---|---|
| Text.StripSpec | main.py:18 | `strip()` removes exactly the leading and trailing whitespace: the result is a slice of the input, everything outside it is whitespace, it neither starts nor ends with whitespace, and stripping again changes nothing |
| Text.TrimStartSpec | main.py:18 | removing leading whitespace leaves a suffix of the input that is empty or starts with a non-space, and everything removed is whitespace |
| Text.TrimEndSpec | main.py:18 | removing trailing whitespace leaves a prefix of the input that is empty or ends with a non-space, and everything removed is whitespace |
| Text.TitleAt | formatter.py:29 | `title()` keeps the length; a character is upper-cased at the start or after a non-letter, and lower-cased after a letter |
| Text.TitleFromAt | formatter.py:29 | the same, character by character, for the rest of a string after a cased or an uncased character |
| Text.ParseIntRoundTrip | main.py:70 | reading back a printed integer with `int()` gives the integer again |
| Text.NatToStringValue | formatter.py:34-35 | the decimal digits printed for a natural number denote exactly that number |
| Text.PadRight | log_stats.py:31 | `{s:<12}` is `s` followed by spaces up to width 12, and never cuts `s` |
| Formatter.Truncate | formatter.py:37 | the shown description is never longer than 303 characters, and one of at most 300 is shown unchanged; the rest is stated by TruncateSpec |
| Formatter.FilmLines | formatter.py:24-40 | one record prints between one and six lines; their order and content are stated by FilmLinesShape and FilmLinesFields |
| Formatter.Blocks | formatter.py:23-40 | a non-empty list of records prints something; the layout is stated by BlocksAppend, BlocksLast and BlockOf |
| Formatter.Rendered | formatter.py:19-40 | `print_movies` always prints at least one line; when that is the notice alone is stated by RenderedNotice |
| Formatter.RenderedNotice | formatter.py:19-21 | "No movies found." is the whole output exactly when the list is empty |
| Formatter.TruncateSpec | formatter.py:37 | a description of length L shows its first min(L, 300) characters, followed by "..." exactly when L > 300; one that fits is shown unchanged; nothing shown exceeds 303 characters |
| Formatter.FilmLinesFields | formatter.py:25-37 | title upper-cased ("UNKNOWN TITLE" when missing); actors title-cased (the missing-key default too); each missing key shows its placeholder; a key holding `None` shows "None" in the genre, year and duration lines; the description line carries the truncated description |
| Formatter.FilmLinesShape | formatter.py:24-40 | a `None` title or actors gives only the error line, with the title's error first; otherwise six lines, labelled title, genre, year, duration, actors, description in that order; a `None` description makes the sixth the error line; a record renders fully exactly when its sixth line is the description |
| Formatter.FilmLinesNotNotice | formatter.py:32-40 | no line a record prints is the empty-list notice |
| Formatter.BlocksAppend | formatter.py:23-40 | rendering a list is rendering its two parts one after the other |
| Formatter.BlocksLast | formatter.py:23-40 | the output for a list ends with the block of its last record |
| Formatter.BlockOf | formatter.py:23-40 | record i's block sits whole between the blocks before and after it, so a failing record never suppresses a later one |
| Formatter.PrintMovies | formatter.py:19-40 | the loop prints the rendering of the list; its output is the notice alone exactly for an empty list |
| SearchLog.SortDescSpec | log_stats.py:83 | the `$sort` stage with -1 gives a permutation of its input ordered by key, largest first |
| SearchLog.SortDescSorted | log_stats.py:83 | the sorted sequence is ordered by key, largest first |
| SearchLog.SortDescPerm | log_stats.py:83 | the sorted sequence has the same elements, with the same multiplicities |
| SearchLog.SortDescDistinct | log_stats.py:83 | sorting keeps distinct parameters distinct |
| SearchLog.InsertSpec | log_stats.py:110 | inserting into a sorted sequence keeps it sorted and adds exactly the element |
| SearchLog.InsertBounded | log_stats.py:83 | inserting adds one element and keeps every key under a common bound |
| SearchLog.InsertMultiset | log_stats.py:83 | inserting adds exactly one copy of the element and loses nothing |
| SearchLog.InsertDistinct | log_stats.py:83 | inserting an element whose parameters are new keeps parameters pairwise distinct |
| SearchLog.TakePrefix | log_stats.py:84 | `$limit: 5` keeps a prefix of at most five, and all of a shorter input |
| SearchLog.Top | log_stats.py:83-84 | sort then limit: at most five elements of the input, largest first; an element left out means the answer has five, none with a smaller key |
| SearchLog.TopLeftOut | log_stats.py:83-84 | an element left out by the limit has a key no larger than any kept one, and the answer is full |
| SearchLog.TopDistinct | log_stats.py:83-84 | sort then limit keeps parameters pairwise distinct |
| SearchLog.LatestGroups | log_stats.py:77-82 | the `$group` stage gives at most one group per record, and at least one group for a non-empty log; its grouping is stated by LatestGroupsSpec |
| SearchLog.CountGroups | log_stats.py:105-109 | the `$group` stage gives at most one group per record, and at least one group for a non-empty log; its counting is stated by CountGroupsSpec |
| SearchLog.LatestGroupsSpec | log_stats.py:77-82 | the `$group` stage gives one group per distinct `params`, covering every record; each carries its group's latest timestamp and the search type of a record stamped with it |
| SearchLog.AddLatestStep | log_stats.py:77-82 | folding one more record into the groups keeps that description true |
| SearchLog.AddLatestDistinct | log_stats.py:78-79 | folding in a record keeps one group per distinct `params` |
| SearchLog.AddLatestCovers | log_stats.py:78-79 | after folding in a record, every record seen so far, the new one included, has a group |
| SearchLog.AddLatestLatest | log_stats.py:77-81 | after folding in a record, every group still carries its latest timestamp and a search type stamped with it |
| SearchLog.KeptLatest | log_stats.py:77-81 | a group stays the latest when the new record has other parameters or is no newer |
| SearchLog.NewLatest | log_stats.py:77-81 | a record no older than every record with its parameters is its group's latest |
| SearchLog.GroupOfRecord | log_stats.py:77-82 | every record has a group with its parameters, stamped no earlier than the record |
| SearchLog.CountGroupsSpec | log_stats.py:105-109 | the `$group` stage gives one group per distinct `params`, covering every record; each counts exactly the records with its parameters and carries the search type of one of them |
| SearchLog.AddCountStep | log_stats.py:105-109 | folding one more record into the counts keeps that description true |
| SearchLog.AddCountDistinct | log_stats.py:105-106 | folding in a record keeps one group per distinct `params` |
| SearchLog.AddCountCovers | log_stats.py:105-106 | after folding in a record, every record seen so far, the new one included, has a group |
| SearchLog.AddCountTally | log_stats.py:105-108 | after folding in a record, every group counts exactly the records with its parameters and carries one of their search types |
| SearchLog.CountSnoc | log_stats.py:107 | one more record adds one to the count of its own parameters and nothing to any other |
| SearchLog.CountPositive | log_stats.py:107 | every logged request has been counted at least once |
| SearchLog.CountAbsent | log_stats.py:107 | a request never logged is counted zero times |
| SearchLog.Recent | log_stats.py:76-86 | the "recent" pipeline returns at most five groups; which ones is stated by RecentCorrect |
| SearchLog.RecentGroupsLatest | log_stats.py:76-86 | every group of the "recent" answer carries its group's latest timestamp and that record's search type |
| SearchLog.RecentLeftOut | log_stats.py:76-86 | a record whose group is left out is no newer than any group in the answer, which then has five groups |
| SearchLog.RecentCorrect | log_stats.py:76-86 | "recent" gives at most five groups with pairwise distinct `params`, each with its latest timestamp and search type, newest first, and leaves out only groups no newer than all five kept |
| SearchLog.Popular | log_stats.py:104-113 | the "popular" pipeline returns at most five groups; which ones is stated by PopularCorrect |
| SearchLog.PopularGroupsTally | log_stats.py:104-113 | every group of the "popular" answer counts exactly the records with its `params` |
| SearchLog.PopularLeftOut | log_stats.py:104-113 | a group left out is no more frequent than any group in the answer, which then has five groups |
| SearchLog.PopularCorrect | log_stats.py:104-113 | "popular" gives at most five groups with pairwise distinct `params`, each with its exact count and one of its records' search types, most frequent first, and leaves out only groups no more frequent than all five kept |
| SearchLog.PopularCountsPositive | log_stats.py:104-113 | every count in the "popular" answer is at least 1 |
| Stats.RowLine | log_stats.py:24-57 | a row that renders has an `_id`; a row that raises reports the missing timestamp or the missing `_id`, and a "popular" row only the missing `_id`; the exact cases are stated by RowLineErrors |
| Stats.Lines | log_stats.py:24-39 | the lines of a listing; one per row up to the first row that raises is stated by LinesAllRender, LinesSplit and LinesAbort |
| Stats.Rows | log_stats.py:65-117 | the documents a pipeline returns are at most five, and none when the store fails; which ones is stated by RowsCorrect |
| Stats.Reply | log_stats.py:18-62 | the screen always prints something after the choice; what it prints is stated by ReplyChoice |
| Stats.DescribeKeyword | log_stats.py:29-36 | a row shows a keyword exactly when its search type is "keyword"; every other type, the "genre&years" label and a missing type included, shows the genre and years |
| Stats.RowLineShows | log_stats.py:24-57 | a row that renders has an `_id`; a "recent" line ends with, and a "popular" line starts with, the padded type and the searched parameters |
| Stats.RowLineForm | log_stats.py:26-57 | a missing search type shows as "unknown"; the keyword form is chosen exactly for the type "keyword" |
| Stats.RowLineErrors | log_stats.py:25-27 | a "recent" row raises exactly when it lacks the timestamp or `_id`, and the timestamp is reported first; a "popular" row raises exactly when it lacks `_id` |
| Stats.LinesAllRender | log_stats.py:24-36 | rows that all render give one line each, in order |
| Stats.LinesSplit | log_stats.py:24-39 | once the rows before i have rendered, the listing is their lines followed by the listing from row i on |
| Stats.LinesFrom | log_stats.py:24-39 | once the rows before row i have printed their lines, a row i that raises completes the listing with one error line, and one that renders adds its line with the rows after it still to come |
| Stats.LinesAbort | log_stats.py:38-39 | a KeyError at row i prints the lines of the rows before it, then one error line, and nothing for the rows after it |
| Stats.PipelineRowsRender | log_stats.py:20-57 | rows that come from a pipeline always render: one line per group, at most five |
| Stats.RowsCorrect | log_stats.py:65-117 | a store that fails gives no rows and only the aggregation error; a reachable one gives the rows of a correct "recent" or "popular" answer |
| Stats.ReplyChoice | log_stats.py:18-62 | after stripping, a choice other than "1" or "2" prints only "Invalid input. Returning to menu." and reads nothing from the store; "1" and "2" show their header |
| Stats.Requests | log_stats.py:65-117 | the aggregation helper returns the rows and prints only the store's error, if there is one |
| Stats.PrintListing | log_stats.py:21-39 | a listing prints the store's error if any, the header, then the row lines |
| Stats.PrintRow | log_stats.py:24-39 | one pass of the loop prints the row's line, or the error line for the KeyError the row raises, and yields what the row renders as |
| Stats.PrintRows | log_stats.py:24-39 | the loop over the rows prints exactly the listing's lines and stops at the first KeyError |
| Stats.ShowStatistics | log_stats.py:7-62 | the screen prints its menu and asks for a choice, then prints the reply to it; at end of input it reports the EOFError instead |
| Io.Next | main.py:14 | `input()` gives the next unread line, and nothing exactly when every line has been read |
| Io.After | main.py:14 | one `input()` advances the cursor by one line, or not at all at the end |
| Io.Console.Input | main.py:14 | asking records the prompt and its answer, and advances the cursor past the line read |
| Io.Console.Print | main.py:10-13 | printing adds exactly one line to the trace |
| Io.Console.PrintAll | main.py:10-13 | printing several lines adds exactly those lines, in order, and reads nothing |
| Io.Console.Record | main.py:28-40 | a catalog fetch or a log entry is recorded in the trace and reads nothing |
| Controller.Selection | main.py:70-74 | an answer selects a genre only when `int()` reads it, and then a non-empty name; both directions are stated by SelectionSpec |
| Controller.KeywordEntry | main.py:17-24 | the keyword dialog reads only forward and within the input; what it yields is stated by KeywordEntrySpec |
| Controller.PageTurn | main.py:27-47 | one pass of the paging loop reads forward within the input; going on reads exactly one answer and moves to the next page, or retries the first page; stopping for want of input uses up the input |
| Controller.Paging | main.py:26-47 | the paging loop reads only forward and within the input; its events are stated by PagingRules, PagingOffsets and PagingLogs |
| Controller.GenreLoading | main.py:50-65 | the loading loop reads only forward and within the input; its events are stated by GenreLoadingSpec |
| Controller.GenreChoice | main.py:68-77 | the genre loop reads only forward and within the input; what it yields is stated by GenreChoiceSpec |
| Controller.SingleYear | main.py:90-100 | single-year mode reads only forward and within the input; what it accepts is stated by SingleYearSpec, SingleYearAccepts and SingleYearRejected |
| Controller.RangeRound | main.py:104-121 | one attempt reads forward within the input; starting over reads at least one answer, giving up uses up the input, and settling reads exactly two answers |
| Controller.YearRange | main.py:103-124 | range mode reads only forward and within the input; its result is stated by YearRangeSpec and YearRangeLastRound |
| Controller.YearMode | main.py:83-124 | the year-mode dialog reads only forward and within the input; its result is stated by YearModeSpec |
| Controller.KeywordFlow | main.py:16-47 | menu option 1 reads only forward and within the input; how it ends is stated by KeywordFlowEnd |
| Controller.GenreFlow | main.py:49-152 | menu option 2 reads only forward and within the input; how it ends is stated by GenreFlowEnd and GenreFlowNoGenres |
| Controller.StatsFlow | main.py:154-158 | menu option 3 reads only forward and within the input; the screen itself is stated by ShowStatistics |
| Controller.Action | main.py:16-163 | a menu choice other than "0" reads only forward and within the input; how it ends is stated by ActionEnd |
| Controller.Session | main.py:9-163 | the menu loop reads only forward and within the input; how it ends is stated by SessionEnd and SessionExit |
| Controller.NameOfSpec | main.py:71 | the name found belongs to the first genre with the number, and there is none exactly when no genre has it |
| Controller.MenuRound | main.py:9-163 | one round ends the loop normally only on "0", which is then its last event; a round that goes on has read input |
| Controller.AskKeyword | main.py:17-24 | the keyword loop leaves exactly the trace and cursor of `KeywordEntry` and yields its keyword |
| Controller.Browse | main.py:26-47 | the paging loop, for either query, leaves exactly the trace and cursor of `Paging` |
| Controller.TurnPage | main.py:27-47 | one pass of the paging loop leaves exactly the trace and cursor of `PageTurn` |
| Controller.PrintPage | main.py:40-41 | a non-empty page is logged, then rendered |
| Controller.LoadGenres | main.py:50-65 | the loading loop leaves exactly the trace and cursor of `GenreLoading` |
| Controller.AskGenre | main.py:68-77 | the genre loop leaves exactly the trace and cursor of `GenreChoice` |
| Controller.AskSingleYear | main.py:90-100 | the single-year loop leaves exactly the trace and cursor of `SingleYear` |
| Controller.AskRangeOnce | main.py:104-123 | one attempt of range mode leaves exactly the trace and cursor of `RangeRound` |
| Controller.AskYearRange | main.py:103-124 | the range loop leaves exactly the trace and cursor of `YearRange` |
| Controller.AskYears | main.py:80-124 | the year-mode dialog leaves exactly the trace and cursor of the mode menu and `YearMode` |
| Controller.SearchByKeyword | main.py:16-47 | menu option 1 leaves exactly the trace and cursor of `KeywordFlow` |
| Controller.SearchByGenre | main.py:49-152 | menu option 2 leaves exactly the trace and cursor of `GenreFlow` |
| Controller.Statistics | main.py:154-158 | menu option 3 leaves exactly the trace and cursor of `StatsFlow`: the statistics menu, the choice asked for, then the reply to it, or "Failed to load statistics: ..." for the EOFError the screen lets escape |
| Controller.Perform | main.py:16-163 | a menu choice other than "0" leaves exactly the trace and cursor of `Action` |
| Controller.MenuOnce | main.py:9-163 | one pass of the menu loop leaves exactly the trace and cursor of `MenuRound` |
| Controller.RunSession | main.py:7-163 | the whole menu loop leaves exactly the trace and cursor of `Session` |
| ControllerFacts.KeywordEntrySpec | main.py:17-24 | the keyword is the first answer that is not blank once stripped, stripped; every answer before it was blank; without one the input is used up |
| ControllerFacts.KeywordDigitsNote | main.py:22-23 | the note about an all-digit keyword is printed exactly when the keyword accepted is all digits |
| ControllerFacts.SelectionSpec | main.py:70-74 | an answer selects a genre exactly when `int()` reads it, some listed genre has that number, and the first such genre has a non-empty name; that name is the selection |
| ControllerFacts.GenreChoiceSpec | main.py:68-77 | the genre chosen is the selection of the last answer; every earlier answer selected nothing; without a genre the input is used up |
| ControllerFacts.SingleYearEnd | main.py:90-100 | single-year mode gives up only when the input is used up |
| ControllerFacts.SingleYearSpec | main.py:90-100 | a single year is the number last answered, within the bounds, and the range is that year alone |
| ControllerFacts.SingleYearAccepts | main.py:91-97 | an answer that `int()` reads as a year within the bounds is taken at once, as a range of that year alone, after nothing but the prompt |
| ControllerFacts.SingleYearRejected | main.py:90-100 | every answer single-year mode rejects, before the one it takes or until the input runs out, was not a number or was out of the bounds (that the one taken is accepted is stated by SingleYearSpec) |
| ControllerFacts.RangeYearSpec | main.py:105-112 | a blank answer in range mode stands for the bound; any other is read with `int()` |
| ControllerFacts.RangeRoundSpec | main.py:104-121 | an attempt settles on a range only when the "from" answer gives a year in the bounds, the "to" answer gives one in the bounds, and from <= to |
| ControllerFacts.RangeRoundAccepts | main.py:105-121 | a "from" answer and a "to" answer that give years within the bounds, with from <= to, settle the attempt on exactly those two years |
| ControllerFacts.RangeRoundRejects | main.py:104-121 | an attempt starts over only when the "from" answer is not accepted, reading nothing more, or when the "to" answer together with it is not; a settled attempt had two accepted answers |
| ControllerFacts.YearRangeEnd | main.py:103-124 | range mode gives up only when the input is used up |
| ControllerFacts.YearRangeLastRound | main.py:103-124 | the range range mode settles on is the result of its last attempt |
| ControllerFacts.YearRangeSpec | main.py:103-124 | a range lies within the bounds and does not run backwards |
| ControllerFacts.YearModeSpec | main.py:83-124 | whichever mode is chosen, min_year <= year_from <= year_to <= max_year; without years the input is used up |
| PagingFacts.PageEvents | main.py:40-41 | a page's events are its log entry, recording the number of films, followed only by printed lines |
| PagingFacts.LogEntryShape | main.py:40 | a keyword page is logged with type "keyword" and `{keyword}`; a genre page with type "genre&years" and `{genre, year_from, year_to}`; both with the number of films |
| PagingFacts.TurnEvents | main.py:27-47 | a pass fetches exactly once, at its start, and logs at most once, right after a fetch that found films and with that page |
| PagingFacts.RetryTurn | main.py:29-34 | an empty first page asks whether to retry; "yes" (stripped, lower-cased) fetches offset 0 again, any other answer ends the paging without a log entry |
| PagingFacts.EndTurn | main.py:36-38 | an empty later page prints "No more results found." and ends the paging without a log entry |
| PagingFacts.NextPageRule | main.py:40-47 | a non-empty page is logged and shown, then asked about; "1" fetches the page ten films further on, any other answer ends the paging |
| PagingFacts.PageTurnRule | main.py:40-47 | one pass over a non-empty page follows that rule |
| PagingFacts.TurnRule | main.py:27-47 | one pass follows the rule for what comes after a fetch |
| PagingFacts.PagingStart | main.py:26-28 | the paging starts by fetching the page at its starting offset |
| PagingFacts.PagingRules | main.py:26-47 | every fetch of the paging follows the rule for what comes after a fetch |
| PagingFacts.RulesStep | main.py:27-47 | a pass that follows the rule, followed by a paging that does, makes a paging that does |
| PagingFacts.PagingOffsets | main.py:26-45 | every fetch is at the starting offset or a whole number of pages of ten past it, so from offset 0 a non-negative multiple of 10 |
| PagingFacts.GridStep | main.py:44-45 | a pass at an offset followed by a paging on the grid of the next offset stays on the grid |
| PagingFacts.PagingLogs | main.py:40-41 | every log entry comes right after a fetch that found films and records that query and count, so an empty page is never logged and no page twice |
| PagingFacts.LogsStep | main.py:40-41 | a pass whose log entry follows its fetch, followed by a paging where that holds, makes a paging where it holds |
| PagingFacts.PagingEnd | main.py:26-47 | the paging stops for want of input only once every line has been read |
| SessionFacts.GenreLoadingSpec | main.py:50-65 | with genres to list, loading reads nothing and lists them; without, it only asks whether to retry, and runs out of input only at its end |
| SessionFacts.GenreFlowNoGenres | main.py:54-77 | with no genres, declining the retry still leads to the genre prompt, where no answer is accepted, so the search ends only with the input |
| SessionFacts.KeywordFlowEnd | main.py:16-47 | the keyword search stops for want of input only once every line has been read |
| SessionFacts.GenreFlowEnd | main.py:49-152 | the genre search stops for want of input only once every line has been read |
| SessionFacts.ActionEnd | main.py:16-163 | whatever the choice, it stops for want of input only once every line has been read |
| SessionFacts.MenuRoundSpec | main.py:9-163 | a round ends the loop normally exactly on the answer "0", which is its last event; an answer other than "0" to "3" prints "Invalid option..." and the menu comes again |
| SessionFacts.SessionEnd | main.py:9-163 | the menu loop stops for want of input only once every line has been read |
| SessionFacts.SessionExit | main.py:160-161 | the menu loop ends normally only on the answer "0", and that answer is the last thing that happens |

## Left out

- The MySQL catalog: connections, cursors and the SQL itself, including LIKE collation and row order. The catalog is a function from a query and an offset to a page of films. A failed connection or a MySQL error makes the store's wrapper return an empty list (mysql_connector.py:37-38, 44-46), so a fetch error is the empty page, which is how the model treats it.
- Retries against a recovering store. The catalog is one fixed value for the whole session, so answering "yes" at a retry prompt (main.py:31, 56, 131) fetches the same result again: an empty first page stays empty, and an empty genre list stays empty. A store whose answer changes between attempts is not expressed. `SessionFacts.GenreLoadingSpec` and `SessionFacts.GenreFlowNoGenres` rely on this.
- The number of films fetched per page comes from a configuration value that is not part of this model. Only the page step of 10 (main.py:45) is modelled.
- MongoDB itself: the client, `aggregate`, and the insert with `datetime.now()`. The log is a sequence of records. Each log entry the menu loop writes is an event in the console trace; the statistics screen reads a store given as a parameter, not one fed by that trace.
- Which record a tie keeps. The tie between equal timestamps or counts, and the search type "popular" takes through `$first` without a prior sort, are stated only as "some record of the group" (`IsRecentAnswer`, `IsPopularAnswer`).
- Timestamps are integers that only need to be ordered. The ISO-8601 parse and the `strftime` display are a function parameter `fmt` and are always assumed to succeed. The `ValueError` a malformed timestamp would raise, which only main.py:157 would catch, is not modelled.
- `get_min_max_years` failing or returning `None` bounds (main.py:52-54): the catalog always has integer year bounds. On a store error the wrapper returns an empty list, and unpacking it at main.py:52 raises a ValueError that nothing catches; that crash is not modelled.
- `int()`: signs and surrounding whitespace are modelled. Underscores and non-ASCII digits are not.
- `isdigit`, `upper`, `lower`, `title` and `strip` are modelled on ASCII letters, digits and whitespace only.
- The `search_type` and `_id` a log record could hold but the log writer never writes: a type stored as `None`, or parameters that are not a document.
- The messages printed by the database and Mongo helpers on connection failures; the log writer's own error message.
- ControllerFacts.YearRangeSpec: states the bounds and order of the range but not which answers gave it. That is stated by YearRangeLastRound together with RangeRoundSpec.
- Console: output order between the menu loop and the statistics screen is kept. Interleaving with anything else printed by the process is not modelled.
