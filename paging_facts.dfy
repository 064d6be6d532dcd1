/**
 * What the paging loop of the menu guarantees about the searches it makes,
 * the pages it logs and when it stops, stated on the events of `Paging`.
 */
module PagingFacts {
  import opened Wrappers
  import opened Text
  import opened Io
  import opened Controller
  import SearchLog

  /**
   * The rule for what follows the fetch of a page at the head of `es`, up to
   * the next fetch: an empty first page offers a retry, and "yes" fetches the
   * first page again while any other answer ends the paging; an empty later
   * page says there is nothing more and ends it; a non-empty page is logged
   * and shown, and answering "1" fetches the page ten films further on.
   */
  ghost predicate AfterFetch(c: Catalog, q: Query, es: seq<Event>)
    requires es != [] && es[0].Fetched?
  {
    var o := es[0].offset;
    var films := c.search(q, o);
    && es[0] == Fetched(q, o, |films|)
    && if films == [] && o == 0 then
         && 2 <= |es| && es[1].Asked? && es[1].prompt == RetryPrompt
         && if es[1].answer.Some? && Lower(Strip(es[1].answer.value)) == "yes"
            then 2 < |es| && es[2].Fetched? && es[2].offset == 0
            else |es| == 2
       else if films == [] then
         es[1..] == [Said(NoMoreResults)]
       else
         var k := 1 + |Page(q, films)|;
         && k < |es| && es[1..k] == Page(q, films)
         && es[k].Asked? && es[k].prompt == NextPrompt
         && if es[k].answer == Some("1")
            then k + 1 < |es| && es[k + 1].Fetched? && es[k + 1].offset == o + PageSize
            else |es| == k + 1
  }

  /** Every fetch in `es` follows the rule for what comes after a fetch. */
  ghost predicate FetchRules(c: Catalog, q: Query, es: seq<Event>) {
    forall i :: 0 <= i < |es| && es[i].Fetched? ==> AfterFetch(c, q, es[i..])
  }

  /** Every fetch in `es` is at `offset` or a whole number of pages past it. */
  ghost predicate OnPageGrid(es: seq<Event>, offset: nat) {
    forall i :: 0 <= i < |es| && es[i].Fetched? ==> offset <= es[i].offset && (es[i].offset - offset) % PageSize == 0
  }

  /** Every log entry in `es` comes right after a fetch that found films, and records that page. */
  ghost predicate LogsAfterFetches(q: Query, es: seq<Event>) {
    forall i :: 0 <= i < |es| && es[i].Logged? ==>
      && 0 < i && es[i - 1].Fetched? && es[i - 1].found > 0
      && es[i] == LogEntry(q, es[i - 1].found)
  }

  /** A page as logged and shown: the log entry first, and nothing but printed lines after it. */
  lemma PageEvents(q: Query, films: seq<Formatter.Film>)
    ensures |Page(q, films)| >= 1 && Page(q, films)[0] == LogEntry(q, |films|)
    ensures LogEntry(q, |films|).Logged? && LogEntry(q, |films|).resultsCount == |films|
    ensures forall j :: 0 < j < |Page(q, films)| ==> Page(q, films)[j].Said?
  {
  }

  /**
   * A keyword page is logged under the type "keyword" with the keyword alone; a
   * genre page under another type, with the genre and both years.
   */
  lemma LogEntryShape(q: Query, count: nat)
    ensures LogEntry(q, count).Logged? && LogEntry(q, count).resultsCount == count
    ensures LogEntry(q, count).searchType == "keyword" <==> q.KeywordQuery?
    ensures q.KeywordQuery? ==>
      && LogEntry(q, count).params.Keys == {"keyword"}
      && LogEntry(q, count).params["keyword"] == SearchLog.Text(q.keyword)
    ensures q.GenreQuery? ==>
      && LogEntry(q, count).params.Keys == {"genre", "year_from", "year_to"}
      && LogEntry(q, count).params["genre"] == SearchLog.Text(q.genre)
      && LogEntry(q, count).params["year_from"] == SearchLog.Number(q.yearFrom)
      && LogEntry(q, count).params["year_to"] == SearchLog.Number(q.yearTo)
  {
    if q.GenreQuery? {
      assert |GenreType| != |KeywordType|;
    }
  }

  /** One turn fetches exactly once, at its start, and logs at most once, right after a fetch that found films. */
  lemma TurnEvents(c: Catalog, q: Query, ins: seq<string>, pos: nat, offset: nat)
    requires pos <= |ins|
    ensures var t := PageTurn(c, q, ins, pos, offset);
      && 2 <= |t.events|
      && t.events[0] == Fetched(q, offset, |c.search(q, offset)|)
      && (forall j :: 0 < j < |t.events| ==> !t.events[j].Fetched?)
      && (forall j :: 0 < j < |t.events| && t.events[j].Logged? ==>
            j == 1 && |c.search(q, offset)| > 0 && t.events[j] == LogEntry(q, |c.search(q, offset)|))
  {
    var films := c.search(q, offset);
    if films != [] {
      PageEvents(q, films);
    }
  }

  /** An empty first page: the retry question, then the first page again or the end. */
  lemma RetryTurn(c: Catalog, q: Query, ins: seq<string>, pos: nat, rest: seq<Event>)
    requires pos <= |ins| && c.search(q, 0) == []
    requires var t := PageTurn(c, q, ins, pos, 0);
      && (t.value.Stop? ==> rest == [])
      && (t.value.Again? ==> rest != [] && rest[0].Fetched? && rest[0].offset == t.value.offset)
    ensures var t := PageTurn(c, q, ins, pos, 0);
      t.events + rest != [] && (t.events + rest)[0].Fetched? && AfterFetch(c, q, t.events + rest)
  {
  }

  /** An empty later page: there is nothing more, and the paging ends. */
  lemma EndTurn(c: Catalog, q: Query, ins: seq<string>, pos: nat, offset: nat)
    requires pos <= |ins| && c.search(q, offset) == [] && offset != 0
    ensures var t := PageTurn(c, q, ins, pos, offset);
      t.events != [] && t.events[0].Fetched? && AfterFetch(c, q, t.events)
  {
    var t := PageTurn(c, q, ins, pos, offset);
    assert t.events[1..] == [Said(NoMoreResults)];
  }

  /** A non-empty page, logged and shown, then the question whether to go on, as a rule about its events. */
  lemma NextPageRule(c: Catalog, q: Query, offset: nat, answer: Option<string>, rest: seq<Event>)
    requires c.search(q, offset) != []
    requires answer == Some("1") ==> rest != [] && rest[0].Fetched? && rest[0].offset == offset + PageSize
    requires answer != Some("1") ==> rest == []
    ensures var films := c.search(q, offset);
      var es := [Fetched(q, offset, |films|)] + Page(q, films) + [Asked(NextPrompt, answer)] + rest;
      es[0].Fetched? && AfterFetch(c, q, es)
  {
    var films := c.search(q, offset);
    var page := Page(q, films);
    var head := [Fetched(q, offset, |films|)] + page;
    var es := head + [Asked(NextPrompt, answer)] + rest;
    assert head[1..] == page;
    assert es[..|head|] == head;
    assert es[1..1 + |page|] == head[1..];
    assert es[1 + |page|] == Asked(NextPrompt, answer);
  }

  /** A non-empty page: logged and shown, then the question whether to go on. */
  lemma PageTurnRule(c: Catalog, q: Query, ins: seq<string>, pos: nat, offset: nat, rest: seq<Event>)
    requires pos <= |ins| && c.search(q, offset) != []
    requires var t := PageTurn(c, q, ins, pos, offset);
      && (t.value.Stop? ==> rest == [])
      && (t.value.Again? ==> rest != [] && rest[0].Fetched? && rest[0].offset == t.value.offset)
    ensures var t := PageTurn(c, q, ins, pos, offset);
      t.events + rest != [] && (t.events + rest)[0].Fetched? && AfterFetch(c, q, t.events + rest)
  {
    var films := c.search(q, offset);
    NextPageRule(c, q, offset, Next(ins, pos), rest);
    assert PageTurn(c, q, ins, pos, offset).events == [Fetched(q, offset, |films|)] + Page(q, films) + [Asked(NextPrompt, Next(ins, pos))];
  }

  /** One turn follows the rule for what comes after a fetch, when `rest` is what the paging does next. */
  lemma TurnRule(c: Catalog, q: Query, ins: seq<string>, pos: nat, offset: nat, rest: seq<Event>)
    requires pos <= |ins|
    requires var t := PageTurn(c, q, ins, pos, offset);
      && (t.value.Stop? ==> rest == [])
      && (t.value.Again? ==> rest != [] && rest[0].Fetched? && rest[0].offset == t.value.offset)
    ensures var t := PageTurn(c, q, ins, pos, offset);
      t.events + rest != [] && (t.events + rest)[0].Fetched? && AfterFetch(c, q, t.events + rest)
  {
    var films := c.search(q, offset);
    if films == [] && offset == 0 {
      RetryTurn(c, q, ins, pos, rest);
    } else if films == [] {
      EndTurn(c, q, ins, pos, offset);
      assert PageTurn(c, q, ins, pos, offset).events + rest == PageTurn(c, q, ins, pos, offset).events;
    } else {
      PageTurnRule(c, q, ins, pos, offset, rest);
    }
  }

  /** The paging starts by fetching the page at `offset`. */
  lemma PagingStart(c: Catalog, q: Query, ins: seq<string>, pos: nat, offset: nat)
    requires pos <= |ins|
    ensures var es := Paging(c, q, ins, pos, offset).events;
      es != [] && es[0] == Fetched(q, offset, |c.search(q, offset)|)
  {
    var t := PageTurn(c, q, ins, pos, offset);
    TurnEvents(c, q, ins, pos, offset);
    if t.value.Again? {
      assert Paging(c, q, ins, pos, offset).events == t.events + Paging(c, q, ins, t.pos, t.value.offset).events;
    }
  }

  /** Every fetch the paging makes is followed by what the rule for a fetch says. */
  lemma {:induction false} PagingRules(c: Catalog, q: Query, ins: seq<string>, pos: nat, offset: nat)
    requires pos <= |ins|
    ensures FetchRules(c, q, Paging(c, q, ins, pos, offset).events)
    decreases |ins| - pos
  {
    var t := PageTurn(c, q, ins, pos, offset);
    TurnEvents(c, q, ins, pos, offset);
    match t.value
    case Stop(_) =>
      TurnRule(c, q, ins, pos, offset, []);
      RulesStep(c, q, t.events, []);
      assert Paging(c, q, ins, pos, offset).events == t.events + [];
    case Again(next) =>
      var rest := Paging(c, q, ins, t.pos, next).events;
      PagingStart(c, q, ins, t.pos, next);
      PagingRules(c, q, ins, t.pos, next);
      TurnRule(c, q, ins, pos, offset, rest);
      RulesStep(c, q, t.events, rest);
  }

  /** A turn that fetches only at its start and keeps the rule there, followed by fetches that keep it, keeps it. */
  lemma RulesStep(c: Catalog, q: Query, turn: seq<Event>, rest: seq<Event>)
    requires turn != [] && turn[0].Fetched?
    requires forall j :: 0 < j < |turn| ==> !turn[j].Fetched?
    requires AfterFetch(c, q, turn + rest)
    requires FetchRules(c, q, rest)
    ensures FetchRules(c, q, turn + rest)
  {
    var es := turn + rest;
    forall i | 0 <= i < |es| && es[i].Fetched? ensures AfterFetch(c, q, es[i..]) {
      if i == 0 {
        assert es[0..] == es;
      } else {
        assert i >= |turn|;
        assert es[i..] == rest[i - |turn|..];
      }
    }
  }

  /** Every fetch is at the starting offset or a whole number of pages past it. */
  lemma {:induction false} PagingOffsets(c: Catalog, q: Query, ins: seq<string>, pos: nat, offset: nat)
    requires pos <= |ins|
    ensures OnPageGrid(Paging(c, q, ins, pos, offset).events, offset)
    decreases |ins| - pos
  {
    var t := PageTurn(c, q, ins, pos, offset);
    TurnEvents(c, q, ins, pos, offset);
    match t.value
    case Stop(_) =>
      GridStep(t.events, [], offset, offset);
      assert Paging(c, q, ins, pos, offset).events == t.events + [];
    case Again(next) =>
      PagingOffsets(c, q, ins, t.pos, next);
      GridStep(t.events, Paging(c, q, ins, t.pos, next).events, offset, next);
  }

  /**
   * A turn that fetches only at its start, at `offset`, followed by fetches on
   * the grid of the next turn's offset, stays on the grid of `offset`.
   */
  lemma GridStep(turn: seq<Event>, rest: seq<Event>, offset: nat, next: nat)
    requires turn != [] && turn[0].Fetched? && turn[0].offset == offset
    requires forall j :: 0 < j < |turn| ==> !turn[j].Fetched?
    requires next == offset + PageSize || next == offset
    requires OnPageGrid(rest, next)
    ensures OnPageGrid(turn + rest, offset)
  {
    var es := turn + rest;
    forall i | 0 <= i < |es| && es[i].Fetched?
      ensures offset <= es[i].offset && (es[i].offset - offset) % PageSize == 0
    {
      if i < |turn| {
        assert es[i] == turn[i];
      } else {
        assert es[i] == rest[i - |turn|];
      }
    }
  }

  /** A log entry is written only right after a fetch that found films, and records that page. */
  lemma {:induction false} PagingLogs(c: Catalog, q: Query, ins: seq<string>, pos: nat, offset: nat)
    requires pos <= |ins|
    ensures LogsAfterFetches(q, Paging(c, q, ins, pos, offset).events)
    decreases |ins| - pos
  {
    var t := PageTurn(c, q, ins, pos, offset);
    TurnEvents(c, q, ins, pos, offset);
    match t.value
    case Stop(_) =>
      LogsStep(q, t.events, []);
      assert Paging(c, q, ins, pos, offset).events == t.events + [];
    case Again(next) =>
      PagingStart(c, q, ins, t.pos, next);
      PagingLogs(c, q, ins, t.pos, next);
      LogsStep(q, t.events, Paging(c, q, ins, t.pos, next).events);
  }

  /**
   * A turn that logs only right after its fetch, and only a fetch that found
   * films, followed by a run of turns that starts with a fetch and keeps that
   * rule, keeps it.
   */
  lemma LogsStep(q: Query, turn: seq<Event>, rest: seq<Event>)
    requires turn != [] && turn[0].Fetched?
    requires forall j :: 0 < j < |turn| && turn[j].Logged? ==>
      j == 1 && turn[0].found > 0 && turn[j] == LogEntry(q, turn[0].found)
    requires !turn[0].Logged?
    requires rest == [] || rest[0].Fetched?
    requires LogsAfterFetches(q, rest)
    ensures LogsAfterFetches(q, turn + rest)
  {
    var es := turn + rest;
    forall i | 0 <= i < |es| && es[i].Logged?
      ensures 0 < i && es[i - 1].Fetched? && es[i - 1].found > 0
      ensures es[i] == LogEntry(q, es[i - 1].found)
    {
      if i > |turn| {
        assert es[i] == rest[i - |turn|];
        assert es[i - 1] == rest[i - 1 - |turn|];
      }
    }
  }

  /** The paging stops for want of input only when the input is used up. */
  lemma {:induction false} PagingEnd(c: Catalog, q: Query, ins: seq<string>, pos: nat, offset: nat)
    requires pos <= |ins|
    ensures var r := Paging(c, q, ins, pos, offset);
      r.value == OutOfInput ==> r.pos == |ins|
    decreases |ins| - pos
  {
    var t := PageTurn(c, q, ins, pos, offset);
    if t.value.Again? {
      PagingEnd(c, q, ins, t.pos, t.value.offset);
    }
  }
}
