/**
 * How the menu loop as a whole ends: "0" ends it normally, and it ends for
 * want of input only once every line has been read.
 */
module SessionFacts {
  import opened Wrappers
  import opened Text
  import opened Io
  import opened SearchLog
  import opened Controller
  import opened ControllerFacts
  import opened PagingFacts

  /**
   * With genres to list, loading reads nothing and lists them; without, it
   * only asks whether to try again, and runs out of input only at its end.
   */
  lemma {:induction false} GenreLoadingSpec(c: Catalog, ins: seq<string>, pos: nat)
    requires pos <= |ins|
    ensures var r := GenreLoading(c, ins, pos);
      c.genres != [] ==> r.value == Finished && r.pos == pos && r.events == Says(GenreListing(c))
    ensures var r := GenreLoading(c, ins, pos);
      c.genres == [] ==> forall i :: 0 <= i < |r.events| ==> r.events[i].Asked? && r.events[i].prompt == LoadRetryPrompt
    ensures var r := GenreLoading(c, ins, pos);
      r.value == OutOfInput ==> r.pos == |ins| && c.genres == []
    decreases |ins| - pos
  {
    if c.genres == [] && pos < |ins| && Lower(Strip(ins[pos])) == "yes" {
      var rest := GenreLoading(c, ins, pos + 1);
      GenreLoadingSpec(c, ins, pos + 1);
      var asked := [Asked(LoadRetryPrompt, Some(ins[pos]))];
      assert GenreLoading(c, ins, pos).events == asked + rest.events;
      forall i | 0 <= i < |asked + rest.events|
        ensures (asked + rest.events)[i].Asked? && (asked + rest.events)[i].prompt == LoadRetryPrompt
      {
        if i > 0 {
          assert (asked + rest.events)[i] == rest.events[i - 1];
        }
      }
    }
  }

  /** Searching by keyword runs out of input only once every line has been read. */
  lemma KeywordFlowEnd(c: Catalog, ins: seq<string>, pos: nat)
    requires pos <= |ins|
    ensures var r := KeywordFlow(c, ins, pos);
      r.value == OutOfInput ==> r.pos == |ins|
  {
    var k := KeywordEntry(ins, pos);
    KeywordEntrySpec(ins, pos);
    if k.value.Some? {
      PagingEnd(c, KeywordQuery(k.value.value), ins, k.pos, 0);
    }
  }

  /** Searching by genre and years runs out of input only once every line has been read. */
  lemma GenreFlowEnd(c: Catalog, ins: seq<string>, pos: nat)
    requires pos <= |ins|
    ensures var r := GenreFlow(c, ins, pos);
      r.value == OutOfInput ==> r.pos == |ins|
  {
    var l := GenreLoading(c, ins, pos);
    GenreLoadingSpec(c, ins, pos);
    if l.value.Finished? {
      var g := GenreChoice(c, ins, l.pos);
      GenreChoiceSpec(c, ins, l.pos);
      if g.value.Some? {
        var y := YearMode(c, ins, g.pos);
        YearModeSpec(c, ins, g.pos);
        if y.value.Some? {
          PagingEnd(c, GenreQuery(g.value.value, y.value.value.from, y.value.value.to), ins, y.pos, 0);
        }
      }
    }
  }

  /**
   * Declining to reload an empty genre list still leads to the genre prompt,
   * where no answer can select a genre: the search then only ends with the input.
   */
  lemma GenreFlowNoGenres(c: Catalog, ins: seq<string>, pos: nat)
    requires pos <= |ins| && c.genres == []
    ensures var r := GenreFlow(c, ins, pos);
      r.value == OutOfInput && r.pos == |ins|
  {
    var l := GenreLoading(c, ins, pos);
    GenreLoadingSpec(c, ins, pos);
    if l.value.Finished? {
      GenreChoiceSpec(c, ins, l.pos);
    }
  }

  /** Whatever the choice, it runs out of input only once every line has been read. */
  lemma ActionEnd(c: Catalog, store: LogStore, fmt: Timestamp -> string, choice: string, ins: seq<string>, pos: nat)
    requires pos <= |ins|
    ensures var r := Action(c, store, fmt, choice, ins, pos);
      r.value == OutOfInput ==> r.pos == |ins|
  {
    if choice == "1" {
      KeywordFlowEnd(c, ins, pos);
    } else if choice == "2" {
      GenreFlowEnd(c, ins, pos);
    }
  }

  /**
   * One round of the menu: "0" ends the loop; a choice other than "0" to "3"
   * is complained about and the menu comes again; the loop ends without "0"
   * only once every line has been read.
   */
  lemma MenuRoundSpec(c: Catalog, store: LogStore, fmt: Timestamp -> string, ins: seq<string>, pos: nat)
    requires pos <= |ins|
    ensures var r := MenuRound(c, store, fmt, ins, pos);
      r.value == Done(Finished) <==> pos < |ins| && ins[pos] == "0"
    ensures var r := MenuRound(c, store, fmt, ins, pos);
      r.value == Done(Finished) ==>
        r.pos == pos + 1 && r.events != [] && r.events[|r.events| - 1] == Asked(MenuPrompt, Some("0"))
    ensures var r := MenuRound(c, store, fmt, ins, pos);
      r.value == Done(OutOfInput) ==> r.pos == |ins|
    ensures var r := MenuRound(c, store, fmt, ins, pos);
      pos < |ins| && ins[pos] !in {"0", "1", "2", "3"} ==>
        r.value == Repeat && r.pos == pos + 1 && r.events != [] && r.events[|r.events| - 1] == Said(InvalidOption)
  {
    if pos < |ins| && ins[pos] != "0" {
      ActionEnd(c, store, fmt, ins[pos], ins, pos + 1);
    }
  }

  /** The menu loop ends without "0" only once every line has been read. */
  lemma {:induction false} SessionEnd(c: Catalog, store: LogStore, fmt: Timestamp -> string, ins: seq<string>, pos: nat)
    requires pos <= |ins|
    ensures var r := Session(c, store, fmt, ins, pos);
      r.value == OutOfInput ==> r.pos == |ins|
    decreases |ins| - pos
  {
    var t := MenuRound(c, store, fmt, ins, pos);
    MenuRoundSpec(c, store, fmt, ins, pos);
    if t.value.Repeat? {
      SessionEnd(c, store, fmt, ins, t.pos);
    }
  }

  /** The menu loop ends normally only on the answer "0", and that answer is the last thing that happens. */
  lemma {:induction false} SessionExit(c: Catalog, store: LogStore, fmt: Timestamp -> string, ins: seq<string>, pos: nat)
    requires pos <= |ins|
    ensures var r := Session(c, store, fmt, ins, pos);
      r.value == Finished ==> r.events != [] && r.events[|r.events| - 1] == Asked(MenuPrompt, Some("0"))
    decreases |ins| - pos
  {
    var t := MenuRound(c, store, fmt, ins, pos);
    if t.value.Repeat? {
      SessionExit(c, store, fmt, ins, t.pos);
      PrependLast(t.events, Session(c, store, fmt, ins, t.pos));
    }
  }

  /** Events put in front of a run change neither its last event nor its value. */
  lemma PrependLast<T>(es: seq<Event>, r: Run<T>)
    requires r.events != []
    ensures var p := Prepend(es, r);
      p.value == r.value && p.events != [] && p.events[|p.events| - 1] == r.events[|r.events| - 1]
  {
  }
}
