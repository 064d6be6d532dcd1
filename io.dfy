/**
 * The console and the two stores as the program sees them.
 *
 * Standard input is a finite sequence of lines; `input(prompt)` shows the
 * prompt and takes the next line, and once the lines are used up it raises
 * EOFError (here: the answer `None`). Everything the program does that can be
 * observed is recorded, in order, as an event: a printed line, a prompt with
 * its answer, a film search with the number of films found, and a search-log
 * entry written.
 */
module Io {
  import opened Wrappers
  import opened Sequences
  import SearchLog

  /** CPython's message for the EOFError `input()` raises at end of input. */
  const EofMessage: string := "EOF when reading a line"

  /** A film search: by keyword in the title, or by genre name and a year range. */
  datatype Query = KeywordQuery(keyword: string) | GenreQuery(genre: string, yearFrom: int, yearTo: int)

  datatype Event =
    | Said(line: string)
    | Asked(prompt: string, answer: Option<string>)
    | Fetched(query: Query, offset: nat, found: nat)
    | Logged(searchType: string, params: SearchLog.Params, resultsCount: nat)

  /** The events of printing `lines`, one line each. */
  function Says(lines: seq<string>): (es: seq<Event>)
    ensures |es| == |lines|
    ensures forall i :: 0 <= i < |es| ==> es[i] == Said(lines[i])
  {
    if lines == [] then [] else [Said(lines[0])] + Says(lines[1..])
  }

  lemma {:induction false} SaysAppend(a: seq<string>, b: seq<string>)
    ensures Says(a + b) == Says(a) + Says(b)
  {
    assert |Says(a + b)| == |Says(a) + Says(b)|;
    forall i | 0 <= i < |Says(a + b)| ensures Says(a + b)[i] == (Says(a) + Says(b))[i] {
      if i < |a| {
        assert (a + b)[i] == a[i];
      } else {
        assert (a + b)[i] == b[i - |a|];
      }
    }
  }

  /** Printing `a` and then `b` after a trace `t` is printing `a + b` after it. */
  lemma Extend(t: seq<Event>, a: seq<string>, b: seq<string>)
    ensures t + Says(a) + Says(b) == t + Says(a + b)
  {
    SaysAppend(a, b);
    Regroup(t, Says(a), Says(b));
  }

  /** Printing `line` after `a` is printing `a + [line]`. */
  lemma ExtendLine(t: seq<Event>, a: seq<string>, line: string)
    ensures t + Says(a) + [Said(line)] == t + Says(a + [line])
  {
    assert Says([line]) == [Said(line)];
    Extend(t, a, [line]);
  }

  /** The answer `input()` gives when `pos` lines of `inputs` are already read. */
  function Next(inputs: seq<string>, pos: nat): (a: Option<string>)
    requires pos <= |inputs|
    ensures a.None? <==> pos == |inputs|
    ensures a.Some? ==> a.value == inputs[pos]
  {
    if pos < |inputs| then Some(inputs[pos]) else None
  }

  /** Where the input cursor stands after one `input()` call. */
  function After(inputs: seq<string>, pos: nat): (p: nat)
    requires pos <= |inputs|
    ensures p <= |inputs|
    ensures p == pos + 1 <==> pos < |inputs|
    ensures p == pos <==> pos == |inputs|
  {
    if pos < |inputs| then pos + 1 else pos
  }

  /** Standard input read up to `pos`, and everything observed so far. */
  class Console {
    const inputs: seq<string>
    var pos: nat
    var trace: seq<Event>

    ghost predicate Valid()
      reads this
    {
      pos <= |inputs|
    }

    constructor(inputs: seq<string>)
      ensures Valid()
      ensures this.inputs == inputs && pos == 0 && trace == []
    {
      this.inputs := inputs;
      pos := 0;
      trace := [];
    }

    /** `print(line)` */
    method Print(line: string)
      modifies this
      ensures pos == old(pos)
      ensures trace == old(trace) + [Said(line)]
    {
      trace := trace + [Said(line)];
    }

    /** `print` each of `lines` in turn. */
    method PrintAll(lines: seq<string>)
      modifies this
      ensures pos == old(pos)
      ensures trace == old(trace) + Says(lines)
    {
      for i := 0 to |lines|
        invariant pos == old(pos)
        invariant trace == old(trace) + Says(lines[..i])
      {
        SaysAppend(lines[..i], [lines[i]]);
        assert lines[..i + 1] == lines[..i] + [lines[i]];
        Print(lines[i]);
      }
      assert lines[..|lines|] == lines;
    }

    /** `input(prompt)`: the next line, or `None` where Python raises EOFError. */
    method Input(prompt: string) returns (answer: Option<string>)
      requires Valid()
      modifies this
      ensures Valid()
      ensures answer == Next(inputs, old(pos))
      ensures pos == After(inputs, old(pos))
      ensures trace == old(trace) + [Asked(prompt, answer)]
    {
      if pos < |inputs| {
        answer := Some(inputs[pos]);
        pos := pos + 1;
      } else {
        answer := None;
      }
      trace := trace + [Asked(prompt, answer)];
    }

    /** Note a search made or a log entry written. */
    method Record(e: Event)
      requires e.Fetched? || e.Logged?
      modifies this
      ensures pos == old(pos)
      ensures trace == old(trace) + [e]
    {
      trace := trace + [e];
    }
  }
}
