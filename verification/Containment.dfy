/** What a client remembers of the first line that a started Engine puts out: it is the acknowledgement
    of the session starter, or it belongs to the Engine. */
module Containment {
  import U = Utf8

  type Line = seq<U.Byte>

  /** Whether an answer about the lines, in the order they came, is right: only the first can be the
      acknowledgement. */
  ghost predicate Answers(lines: seq<Line>, acknowledgement: Line, answers: seq<bool>) {
    |answers| == |lines| && forall i | 0 <= i < |lines| :: answers[i] <==> i == 0 && lines[0] == acknowledgement
  }

  class ContainmentState {
    const acknowledgement: Line
    var seen: bool
    var contains: bool
    ghost var lines: seq<Line>
    ghost var answers: seq<bool>

    ghost predicate Valid()
      reads this
    {
      && (seen <==> lines != [])
      && (contains <==> lines != [] && lines[0] == acknowledgement)
      && Answers(lines, acknowledgement, answers)
    }

    constructor (acknowledgement: Line)
      ensures Valid() && lines == [] && this.acknowledgement == acknowledgement
    {
      this.acknowledgement := acknowledgement;
      seen, contains, lines, answers := false, false, [], [];
    }

    method FirstLine(line: Line) returns (answer: bool)
      requires Valid()
      modifies this
      ensures Valid() && lines == old(lines) + [line] && answers == old(answers) + [answer]
      ensures answer <==> old(lines) == [] && line == acknowledgement
    {
      lines := lines + [line];
      if seen {
        answers := answers + [false];
        return false;
      }
      seen := true;
      contains := line == acknowledgement;
      answers := answers + [contains];
      return contains;
    }
  }

  /** Two lines that were answered with true are the same line, and it came before all others. */
  lemma TrueAtMostOnce(state: ContainmentState, i: nat, j: nat)
    requires state.Valid() && i < |state.answers| && j < |state.answers|
    requires state.answers[i] && state.answers[j]
    ensures i == j == 0 && state.contains
  {
  }
}
