/**
 * What the dialogs of the menu loop guarantee, stated on the functions that
 * describe them: which answers each dialog accepts, what it makes of them, and
 * that it stops early only when the input runs out.
 */
module ControllerFacts {
  import opened Wrappers
  import opened Text
  import opened Io
  import opened Controller

  // ----- Keyword entry -----

  /**
   * The keyword is the first answer that is not blank once stripped, stripped;
   * every answer before it was blank; without a keyword the input is used up.
   */
  lemma {:induction false} KeywordEntrySpec(ins: seq<string>, pos: nat)
    requires pos <= |ins|
    ensures var r := KeywordEntry(ins, pos);
      r.value.None? ==> r.pos == |ins|
    ensures var r := KeywordEntry(ins, pos);
      r.value.Some? ==> pos < r.pos && r.value.value == Strip(ins[r.pos - 1]) && r.value.value != []
    ensures var r := KeywordEntry(ins, pos);
      forall k :: pos <= k < r.pos && (r.value.None? || k < r.pos - 1) ==> Strip(ins[k]) == []
    decreases |ins| - pos
  {
    if pos < |ins| && Strip(ins[pos]) == [] {
      KeywordEntrySpec(ins, pos + 1);
    }
  }

  /** The two notices of keyword entry are different lines. */
  lemma NotesDiffer()
    ensures DigitsNote != EmptyKeyword
  {
    assert |DigitsNote| != |EmptyKeyword|;
  }

  /** The note about an all-digit keyword is shown exactly when the keyword accepted is all digits. */
  lemma {:induction false} KeywordDigitsNote(ins: seq<string>, pos: nat)
    requires pos <= |ins|
    ensures var r := KeywordEntry(ins, pos);
      r.value.Some? ==> (Said(DigitsNote) in r.events <==> IsDigits(r.value.value))
    decreases |ins| - pos
  {
    if pos < |ins| && Strip(ins[pos]) == [] {
      var rest := KeywordEntry(ins, pos + 1);
      KeywordDigitsNote(ins, pos + 1);
      var step := [Asked(KeywordPrompt, Some(ins[pos]))] + [Said(EmptyKeyword)];
      assert KeywordEntry(ins, pos) == Prepend(step, rest);
      NotesDiffer();
      assert Said(DigitsNote) !in step;
    }
  }

  // ----- Genre choice -----

  /**
   * An answer selects a genre exactly when it is a number, some listed genre
   * has that number, and the first such genre has a non-empty name; the genre
   * selected is that name.
   */
  lemma SelectionSpec(genres: seq<Genre>, answer: string)
    ensures Selection(genres, answer).Some? <==>
      ParseInt(answer).Some? && NameOf(genres, ParseInt(answer).value).Some?
      && NameOf(genres, ParseInt(answer).value).value != []
    ensures Selection(genres, answer).Some? ==>
      var id, name := ParseInt(answer).value, Selection(genres, answer).value;
      name != [] &&
      exists k :: 0 <= k < |genres| && genres[k].categoryId == id && genres[k].name == name
                  && forall j :: 0 <= j < k ==> genres[j].categoryId != id
  {
    if ParseInt(answer).Some? {
      NameOfSpec(genres, ParseInt(answer).value);
    }
  }

  /**
   * The genre chosen is the selection of the last answer read, every answer
   * before it selected nothing, and without a genre the input is used up.
   */
  lemma {:induction false} GenreChoiceSpec(c: Catalog, ins: seq<string>, pos: nat)
    requires pos <= |ins|
    ensures var r := GenreChoice(c, ins, pos);
      r.value.None? ==> r.pos == |ins|
    ensures var r := GenreChoice(c, ins, pos);
      r.value.Some? ==> pos < r.pos && r.value == Selection(c.genres, ins[r.pos - 1])
    ensures var r := GenreChoice(c, ins, pos);
      forall k :: pos <= k < r.pos && (r.value.None? || k < r.pos - 1) ==> Selection(c.genres, ins[k]).None?
    decreases |ins| - pos
  {
    if pos < |ins| && Selection(c.genres, ins[pos]).None? {
      GenreChoiceSpec(c, ins, pos + 1);
    }
  }

  // ----- Years -----

  /** Single-year mode gives up only when the input is used up. */
  lemma {:induction false} SingleYearEnd(c: Catalog, ins: seq<string>, pos: nat)
    requires pos <= |ins|
    ensures var r := SingleYear(c, ins, pos);
      r.value.None? ==> r.pos == |ins|
    decreases |ins| - pos
  {
    if pos < |ins| {
      var year := ParseInt(ins[pos]);
      if year.None? || !(c.minYear <= year.value <= c.maxYear) {
        SingleYearEnd(c, ins, pos + 1);
      }
    }
  }

  /** A single year is the number last answered, within the bounds, and the range is that year alone. */
  lemma {:induction false} SingleYearSpec(c: Catalog, ins: seq<string>, pos: nat)
    requires pos <= |ins|
    ensures var r := SingleYear(c, ins, pos);
      r.value.Some? ==>
        && pos < r.pos
        && ParseInt(ins[r.pos - 1]) == Some(r.value.value.from)
        && r.value.value.from == r.value.value.to
        && c.minYear <= r.value.value.from <= c.maxYear
    decreases |ins| - pos
  {
    if pos < |ins| {
      var year := ParseInt(ins[pos]);
      if year.None? || !(c.minYear <= year.value <= c.maxYear) {
        SingleYearSpec(c, ins, pos + 1);
      }
    }
  }

  /** An answer single-year mode accepts: a number within the bounds. */
  predicate YearAccepted(c: Catalog, answer: string) {
    ParseInt(answer).Some? && c.minYear <= ParseInt(answer).value <= c.maxYear
  }

  /** The first answer that is a number within the bounds is the year taken, after nothing but the prompt. */
  lemma SingleYearAccepts(c: Catalog, ins: seq<string>, pos: nat)
    requires pos < |ins| && YearAccepted(c, ins[pos])
    ensures var y := ParseInt(ins[pos]).value;
      SingleYear(c, ins, pos) == Run([Asked(YearPrompt, Some(ins[pos]))], pos + 1, Some(Years(y, y)))
  {
  }

  /**
   * Every answer single-year mode rejects, before the one it takes or until
   * the input runs out, was not a number or was out of the bounds.
   */
  lemma {:induction false} SingleYearRejected(c: Catalog, ins: seq<string>, pos: nat)
    requires pos <= |ins|
    ensures var r := SingleYear(c, ins, pos);
      forall k :: pos <= k < r.pos && (r.value.None? || k < r.pos - 1) ==> !YearAccepted(c, ins[k])
    decreases |ins| - pos
  {
    if pos < |ins| && !YearAccepted(c, ins[pos]) {
      var rest := SingleYear(c, ins, pos + 1);
      SingleYearRejected(c, ins, pos + 1);
      assert SingleYear(c, ins, pos).pos == rest.pos && SingleYear(c, ins, pos).value == rest.value;
    }
  }

  /** A blank answer in range mode stands for the bound; any other is read as a number. */
  lemma RangeYearSpec(raw: string, default: int)
    ensures Strip(raw) == [] ==> RangeYear(raw, default) == Some(default)
    ensures Strip(raw) != [] ==> RangeYear(raw, default) == ParseInt(raw)
  {
    if Strip(raw) != [] {
      StripSpec(raw);
    }
  }

  /** A round of range mode settles on a range only when both years are in the bounds and in order. */
  lemma RangeRoundSpec(c: Catalog, ins: seq<string>, pos: nat)
    requires pos <= |ins|
    ensures var r := RangeRound(c, ins, pos);
      r.value.Done? && r.value.result.Some? ==>
        var y := r.value.result.value;
        && RangeYear(ins[pos], c.minYear) == Some(y.from)
        && RangeYear(ins[pos + 1], c.maxYear) == Some(y.to)
        && c.minYear <= y.from <= y.to <= c.maxYear
  {
  }

  /** A first year range mode accepts: blank or a number, within the bounds. */
  predicate FromAccepted(c: Catalog, raw: string) {
    RangeYear(raw, c.minYear).Some? && c.minYear <= RangeYear(raw, c.minYear).value <= c.maxYear
  }

  /** Two answers range mode accepts: both years within the bounds, the first not after the last. */
  predicate RangeAccepted(c: Catalog, rawFrom: string, rawTo: string) {
    && FromAccepted(c, rawFrom)
    && RangeYear(rawTo, c.maxYear).Some?
    && c.minYear <= RangeYear(rawTo, c.maxYear).value <= c.maxYear
    && RangeYear(rawFrom, c.minYear).value <= RangeYear(rawTo, c.maxYear).value
  }

  /** Two answers range mode accepts settle the attempt on exactly their years. */
  lemma RangeRoundAccepts(c: Catalog, ins: seq<string>, pos: nat)
    requires pos + 1 < |ins| && RangeAccepted(c, ins[pos], ins[pos + 1])
    ensures var r := RangeRound(c, ins, pos);
      && r.pos == pos + 2
      && r.value == Done(Some(Years(RangeYear(ins[pos], c.minYear).value, RangeYear(ins[pos + 1], c.maxYear).value)))
  {
  }

  /**
   * An attempt of range mode starts over only on a bad answer: a first year
   * it does not accept, after which it reads nothing more, or a last year
   * that together with the first is not accepted.
   */
  lemma RangeRoundRejects(c: Catalog, ins: seq<string>, pos: nat)
    requires pos <= |ins|
    ensures var r := RangeRound(c, ins, pos);
      r.value.Repeat? ==>
        || (pos < |ins| && !FromAccepted(c, ins[pos]) && r.pos == pos + 1)
        || (pos + 1 < |ins| && FromAccepted(c, ins[pos]) && !RangeAccepted(c, ins[pos], ins[pos + 1]) && r.pos == pos + 2)
    ensures var r := RangeRound(c, ins, pos);
      r.value.Done? && r.value.result.Some? ==> pos + 1 < |ins| && RangeAccepted(c, ins[pos], ins[pos + 1])
  {
  }

  /** Range mode gives up only when the input is used up. */
  lemma {:induction false} YearRangeEnd(c: Catalog, ins: seq<string>, pos: nat)
    requires pos <= |ins|
    ensures var r := YearRange(c, ins, pos);
      r.value.None? ==> r.pos == |ins|
    decreases |ins| - pos
  {
    var t := RangeRound(c, ins, pos);
    if t.value.Repeat? {
      YearRangeEnd(c, ins, t.pos);
    }
  }

  /** Range mode settles on the range of its last round. */
  lemma {:induction false} YearRangeLastRound(c: Catalog, ins: seq<string>, pos: nat)
    requires pos <= |ins|
    ensures var r := YearRange(c, ins, pos);
      r.value.Some? ==> exists p :: pos <= p <= |ins| && RangeRound(c, ins, p).pos == r.pos && RangeRound(c, ins, p).value == Done(r.value)
    decreases |ins| - pos
  {
    var t := RangeRound(c, ins, pos);
    if t.value.Repeat? {
      var rest := YearRange(c, ins, t.pos);
      YearRangeLastRound(c, ins, t.pos);
      assert YearRange(c, ins, pos) == Prepend(t.events, rest);
    } else if t.value.result.Some? {
      assert YearRange(c, ins, pos) == Run(t.events, t.pos, t.value.result);
    }
  }

  /**
   * A range is read from two answers, each a number or blank for its bound;
   * it lies within the bounds and does not run backwards.
   */
  lemma YearRangeSpec(c: Catalog, ins: seq<string>, pos: nat)
    requires pos <= |ins|
    ensures var r := YearRange(c, ins, pos);
      r.value.None? ==> r.pos == |ins|
    ensures var r := YearRange(c, ins, pos);
      r.value.Some? ==> c.minYear <= r.value.value.from <= r.value.value.to <= c.maxYear
  {
    var r := YearRange(c, ins, pos);
    YearRangeEnd(c, ins, pos);
    YearRangeLastRound(c, ins, pos);
    if r.value.Some? {
      var p :| pos <= p <= |ins| && RangeRound(c, ins, p).pos == r.pos && RangeRound(c, ins, p).value == Done(r.value);
      RangeRoundSpec(c, ins, p);
    }
  }

  /** Whichever mode is chosen, the years lie within the bounds and in order. */
  lemma {:induction false} YearModeSpec(c: Catalog, ins: seq<string>, pos: nat)
    requires pos <= |ins|
    ensures var r := YearMode(c, ins, pos);
      r.value.None? ==> r.pos == |ins|
    ensures var r := YearMode(c, ins, pos);
      r.value.Some? ==> c.minYear <= r.value.value.from <= r.value.value.to <= c.maxYear
    decreases |ins| - pos
  {
    if pos < |ins| {
      var mode := Strip(ins[pos]);
      if mode == "1" {
        SingleYearEnd(c, ins, pos + 1);
        SingleYearSpec(c, ins, pos + 1);
      } else if mode == "2" {
        YearRangeSpec(c, ins, pos + 1);
      } else {
        YearModeSpec(c, ins, pos + 1);
      }
    }
  }
}
