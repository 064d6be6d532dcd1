/**
 * Rendering a page of film records as console lines (`print_movies`).
 *
 * A record is a dictionary from the catalog store; each of its six keys may be
 * missing, present with `None`, or present with a value. `dict.get(key, default)`
 * substitutes the default only for a MISSING key, so a `None` value reaches the
 * string operations, and where it meets `.upper()`, `.title()` or a slice it
 * raises; the `try` around each record turns that into one error line and the
 * loop goes on with the next record.
 */
module Formatter {
  import opened Wrappers
  import opened Sequences
  import opened Text

  /** One key of a record: missing, present with `None`, or present with a value. */
  datatype Field<T> = Absent | Null | Present(value: T)

  /** A row of the catalog search, as the dictionary cursor hands it over. */
  datatype Film = Film(
    title: Field<string>,
    genre: Field<string>,
    releaseYear: Field<int>,
    length: Field<int>,
    actors: Field<string>,
    description: Field<string>)

  const NoMovies: string := "No movies found."
  const DescriptionLimit: nat := 300
  const Ellipsis: string := "..."

  const TitleLabel: string := "\n\U{1F3AC} "
  const GenreLabel: string := "\U{1F4DA} Genre: "
  const YearLabel: string := "\U{1F4C5} Release year: "
  const DurationLabel: string := "\U{23F1}\U{FE0F} Duration: "
  const Minutes: string := " min"
  const ActorsLabel: string := "\U{1F465} Actors: "
  const DescriptionLabel: string := "\U{1F4DD} Description: "
  const ErrorLabel: string := "Error displaying movie: "

  const DefaultTitle: string := "UNKNOWN TITLE"
  const DefaultGenre: string := "Unknown Genre"
  const DefaultYear: string := "Unknown Year"
  const DefaultDuration: string := "Unknown Duration"
  const DefaultActors: string := "No actors listed"
  const DefaultDescription: string := "No description provided"

  // The messages CPython gives the exceptions raised on a None value.
  const NoneHasNoUpper: string := "'NoneType' object has no attribute 'upper'"
  const NoneHasNoTitle: string := "'NoneType' object has no attribute 'title'"
  const NoneNotSubscriptable: string := "'NoneType' object is not subscriptable"

  /** `record.get(key, default)` for a text key: `None` only when the key holds `None`. */
  function Get(f: Field<string>, default: string): Option<string> {
    match f
    case Absent => Some(default)
    case Null => None
    case Present(s) => Some(s)
  }

  /** What an f-string shows for `record.get(key, placeholder)`; `None` shows as "None". */
  function Shown<T>(f: Field<T>, show: T -> string, placeholder: string): string {
    match f
    case Absent => placeholder
    case Null => "None"
    case Present(v) => show(v)
  }

  function Verbatim(s: string): string { s }

  function Min(a: nat, b: nat): nat { if a < b then a else b }

  /** `description[:300]` followed by `...` when the description was longer than that. */
  function Truncate(d: string): (r: string)
    ensures |r| <= DescriptionLimit + |Ellipsis|
    ensures |d| <= DescriptionLimit ==> r == d
  {
    d[..Min(|d|, DescriptionLimit)] + (if |d| > DescriptionLimit then Ellipsis else "")
  }

  /**
   * The shown description is the first min(L, 300) characters of a description of
   * length L, followed by the ellipsis exactly when L exceeds 300; a description
   * that fits is shown unchanged, and nothing shown is longer than 303 characters.
   */
  lemma TruncateSpec(d: string)
    ensures |Truncate(d)| == Min(|d|, DescriptionLimit) + (if |d| > DescriptionLimit then |Ellipsis| else 0)
    ensures Truncate(d)[..Min(|d|, DescriptionLimit)] == d[..Min(|d|, DescriptionLimit)]
    ensures |d| > DescriptionLimit ==> Truncate(d)[DescriptionLimit..] == Ellipsis
    ensures |d| <= DescriptionLimit ==> Truncate(d) == d
    ensures |Truncate(d)| <= DescriptionLimit + |Ellipsis|
  {
    var cut := Min(|d|, DescriptionLimit);
    assert Truncate(d)[..cut] == d[..cut];
  }

  /** The title as shown: upper-cased, or the exception `.upper()` raises on `None`. */
  function TitleText(m: Film): Result<string> {
    match Get(m.title, DefaultTitle)
    case None => Err(NoneHasNoUpper)
    case Some(t) => Ok(Upper(t))
  }

  /** The actors as shown: title-cased, or the exception `.title()` raises on `None`. */
  function ActorsText(m: Film): Result<string> {
    match Get(m.actors, DefaultActors)
    case None => Err(NoneHasNoTitle)
    case Some(a) => Ok(Title(a))
  }

  function ErrorLine(message: string): string { ErrorLabel + message }

  /** The five lines printed before the description, once title and actors are known. */
  function HeadLines(m: Film, title: string, actors: string): seq<string> {
    [ TitleLabel + title,
      GenreLabel + Shown(m.genre, Verbatim, DefaultGenre),
      YearLabel + Shown(m.releaseYear, IntToString, DefaultYear),
      DurationLabel + Shown(m.length, IntToString, DefaultDuration) + Minutes,
      ActorsLabel + actors ]
  }

  /**
   * The lines one record prints. All six values are computed before the first
   * print, so a failing title or actors value prints only the error line; the
   * description is sliced inside the last print, so a `None` description comes
   * after the five other lines.
   */
  function FilmLines(m: Film): (r: seq<string>)
    ensures 1 <= |r| <= 6
  {
    var title := TitleText(m);
    var actors := ActorsText(m);
    if title.Err? then [ErrorLine(title.message)]
    else if actors.Err? then [ErrorLine(actors.message)]
    else
      HeadLines(m, title.value, actors.value) +
      match Get(m.description, DefaultDescription)
      case None => [ErrorLine(NoneNotSubscriptable)]
      case Some(d) => [DescriptionLabel + Truncate(d)]
  }

  /** The lines of several records, one block after the other. */
  function Blocks(ms: seq<Film>): (r: seq<string>)
    ensures ms != [] ==> r != []
  {
    if ms == [] then [] else Blocks(ms[..|ms| - 1]) + FilmLines(ms[|ms| - 1])
  }

  /** Everything `print_movies` prints for a page. */
  function Rendered(ms: seq<Film>): (r: seq<string>)
    ensures r != []
  {
    if ms == [] then [NoMovies] else Blocks(ms)
  }

  /** A record whose rendering raises nowhere. */
  predicate Renders(m: Film) {
    !m.title.Null? && !m.actors.Null? && !m.description.Null?
  }

  /**
   * Shape of one record's output. A successful record gives six lines in the
   * order title, genre, year, duration, actors, description. A `None` title or
   * `None` actors give the error line alone (the title's error wins when both are
   * `None`). A `None` description alone gives the five other lines and then the
   * error line.
   */
  lemma FilmLinesShape(m: Film)
    ensures m.title.Null? ==> FilmLines(m) == [ErrorLine(NoneHasNoUpper)]
    ensures !m.title.Null? && m.actors.Null? ==> FilmLines(m) == [ErrorLine(NoneHasNoTitle)]
    ensures !m.title.Null? && !m.actors.Null? ==>
      |FilmLines(m)| == 6 &&
      FilmLines(m)[0][..|TitleLabel|] == TitleLabel &&
      FilmLines(m)[1][..|GenreLabel|] == GenreLabel &&
      FilmLines(m)[2][..|YearLabel|] == YearLabel &&
      FilmLines(m)[3][..|DurationLabel|] == DurationLabel &&
      FilmLines(m)[4][..|ActorsLabel|] == ActorsLabel
    ensures !m.title.Null? && !m.actors.Null? && m.description.Null? ==>
      FilmLines(m)[5] == ErrorLine(NoneNotSubscriptable)
    ensures Renders(m) <==> |FilmLines(m)| == 6 && FilmLines(m)[5][..|DescriptionLabel|] == DescriptionLabel
  {
    if !m.title.Null? && !m.actors.Null? {
      var lines := FilmLines(m);
      assert lines[0] == TitleLabel + TitleText(m).value;
      assert lines[4] == ActorsLabel + ActorsText(m).value;
      if m.description.Null? {
        assert lines[5] == ErrorLine(NoneNotSubscriptable);
        assert lines[5][..|DescriptionLabel|] != DescriptionLabel by {
          assert lines[5][0] == 'E' && DescriptionLabel[0] == '\U{1F4DD}';
        }
      }
    }
  }

  /**
   * What each shown value is. The title is upper-cased, and "UNKNOWN TITLE" when
   * the key is missing; the actors are title-cased, the missing-key default
   * included; a missing key shows its fixed placeholder, while a key holding
   * `None` shows "None" in the genre, year and duration lines.
   */
  lemma FilmLinesFields(m: Film)
    requires !m.title.Null? && !m.actors.Null?
    ensures FilmLines(m)[0] == TitleLabel + Upper(if m.title.Absent? then DefaultTitle else m.title.value)
    ensures FilmLines(m)[4] == ActorsLabel + Title(if m.actors.Absent? then DefaultActors else m.actors.value)
    ensures m.genre.Absent? ==> FilmLines(m)[1] == GenreLabel + DefaultGenre
    ensures m.genre.Null? ==> FilmLines(m)[1] == GenreLabel + "None"
    ensures m.genre.Present? ==> FilmLines(m)[1] == GenreLabel + m.genre.value
    ensures m.releaseYear.Absent? ==> FilmLines(m)[2] == YearLabel + DefaultYear
    ensures m.releaseYear.Null? ==> FilmLines(m)[2] == YearLabel + "None"
    ensures m.releaseYear.Present? ==> FilmLines(m)[2] == YearLabel + IntToString(m.releaseYear.value)
    ensures m.length.Absent? ==> FilmLines(m)[3] == DurationLabel + DefaultDuration + Minutes
    ensures m.length.Null? ==> FilmLines(m)[3] == DurationLabel + "None" + Minutes
    ensures m.length.Present? ==> FilmLines(m)[3] == DurationLabel + IntToString(m.length.value) + Minutes
    ensures m.description.Absent? ==> FilmLines(m)[5] == DescriptionLabel + DefaultDescription
    ensures m.description.Present? ==> FilmLines(m)[5] == DescriptionLabel + Truncate(m.description.value)
  {
    var title := TitleText(m).value;
    var actors := ActorsText(m).value;
    assert FilmLines(m)[..5] == HeadLines(m, title, actors);
  }

  /** No line a record prints starts with 'N', so none of them is the empty-page notice. */
  lemma FilmLinesNotNotice(m: Film)
    ensures forall k :: 0 <= k < |FilmLines(m)| ==> |FilmLines(m)[k]| > 0 && FilmLines(m)[k][0] != 'N'
  {
    var lines := FilmLines(m);
    if !m.title.Null? && !m.actors.Null? {
      var title := TitleText(m).value;
      var actors := ActorsText(m).value;
      var head := HeadLines(m, title, actors);
      assert lines[..5] == head;
      assert head[0][0] == '\n';
      assert head[1][0] == '\U{1F4DA}';
      assert head[2][0] == '\U{1F4C5}';
      assert head[3][0] == '\U{23F1}';
      assert head[4][0] == '\U{1F465}';
      assert lines[5][0] == '\U{1F4DD}' || lines[5][0] == 'E';
    }
  }

  /** Rendering a list is rendering its two parts one after the other. */
  lemma {:induction false} BlocksAppend(a: seq<Film>, b: seq<Film>)
    ensures Blocks(a + b) == Blocks(a) + Blocks(b)
    decreases |b|
  {
    if b == [] {
      assert a + b == a;
    } else {
      var b', last := b[..|b| - 1], b[|b| - 1];
      assert (a + b)[..|a + b| - 1] == a + b';
      assert (a + b)[|a + b| - 1] == last;
      BlocksAppend(a, b');
      Regroup(Blocks(a), Blocks(b'), FilmLines(last));
    }
  }

  /**
   * Record i's block sits, whole, between the blocks of the records before it and
   * those after it: a failing record never suppresses a later one.
   */
  lemma BlockOf(ms: seq<Film>, i: nat)
    requires i < |ms|
    ensures Blocks(ms) == Blocks(ms[..i]) + FilmLines(ms[i]) + Blocks(ms[i + 1..])
  {
    var upTo, after := ms[..i + 1], ms[i + 1..];
    SplitAfter(ms, i);
    BlocksAppend(upTo, after);
    BlocksLast(upTo);
    calc {
      Blocks(ms);
      Blocks(upTo + after);
      Blocks(upTo) + Blocks(after);
      Blocks(ms[..i]) + FilmLines(ms[i]) + Blocks(after);
    }
  }

  lemma SplitAfter<T>(s: seq<T>, i: nat)
    requires i < |s|
    ensures s[..i + 1] + s[i + 1..] == s
    ensures s[..i + 1][..i] == s[..i] && s[..i + 1][i] == s[i]
  {}

  lemma BlocksLast(ms: seq<Film>)
    requires ms != []
    ensures Blocks(ms) == Blocks(ms[..|ms| - 1]) + FilmLines(ms[|ms| - 1])
  {}

  /** The "No movies found." notice is printed exactly for an empty page, and alone. */
  lemma RenderedNotice(ms: seq<Film>)
    ensures Rendered(ms) == [NoMovies] <==> ms == []
  {
    if ms != [] {
      var last := ms[|ms| - 1];
      FilmLinesNotNotice(last);
      BlockOf(ms, |ms| - 1);
      var lines := FilmLines(last);
      assert |lines| > 0;
      assert Blocks(ms)[|Blocks(ms)| - 1] == lines[|lines| - 1];
      assert NoMovies[0] == 'N';
    }
  }

  /**
   * `print_movies`: the notice for an empty page, otherwise each record's lines in
   * order, a failing record contributing its error line and the loop going on.
   */
  method PrintMovies(movies: seq<Film>) returns (out: seq<string>)
    ensures out == Rendered(movies)
    ensures out == [NoMovies] <==> movies == []
  {
    RenderedNotice(movies);
    if movies == [] {
      return [NoMovies];
    }
    out := [];
    for i := 0 to |movies|
      invariant out == Blocks(movies[..i])
    {
      assert movies[..i + 1][..i] == movies[..i];
      var m := movies[i];
      var title := Get(m.title, DefaultTitle);
      var actors := Get(m.actors, DefaultActors);
      if title.None? {
        out := out + [ErrorLine(NoneHasNoUpper)];
        continue;
      }
      if actors.None? {
        out := out + [ErrorLine(NoneHasNoTitle)];
        continue;
      }
      var description := Get(m.description, DefaultDescription);
      out := out + HeadLines(m, Upper(title.value), Title(actors.value));
      if description.None? {
        out := out + [ErrorLine(NoneNotSubscriptable)];
      } else {
        out := out + [DescriptionLabel + Truncate(description.value)];
      }
    }
    assert movies[..|movies|] == movies;
  }
}
