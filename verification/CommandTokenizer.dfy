/** The lines that tell DumpRenderTree which test to run, and how. */
module CommandTokenizer {
  import opened Wrappers
  import opened Splitting

  const SEPARATOR: char := '\''

  /** The pieces of the line before its first empty piece. */
  function LongestFilled(ps: seq<string>): seq<string> {
    if ps == [] || ps[0] == "" then [] else [ps[0]] + LongestFilled(ps[1..])
  }

  /** What pumping leaves: the next token, and where the separator after it is. */
  function Pumped(input: string, position: Option<nat>): (string, Option<nat>)
    requires position.Some? ==> position.value <= |input|
  {
    if position.None? || position.value == |input| then ("", position)
    else
      var start := Start(position.value);
      var i := FirstIndex(input[start..], SEPARATOR);
      if start + i == |input| then (input[start..], None) else (input[start..start + i], Some(start + i))
  }

  function Start(position: nat): nat { if position > 0 then position + 1 else 0 }

  /** A pump that finds no separator takes the rest of the line; one that does leaves what is after it. */
  lemma PumpedPieces(input: string, position: nat)
    requires position < |input|
    ensures var (token, next) := Pumped(input, Some(position));
      && (next.None? ==> SplitAll(input[Start(position)..], SEPARATOR) == [token])
      && (next.Some? ==> Start(position) <= next.value < |input|)
      && (next.Some? ==>
        SplitAll(input[Start(position)..], SEPARATOR) == [token] + SplitAll(input[next.value + 1..], SEPARATOR))
  {
    var line := input[Start(position)..];
    SplitAtFirst(line, SEPARATOR);
    var i := FirstIndex(line, SEPARATOR);
    if i < |line| {
      assert line[i + 1..] == input[Start(position) + i + 1..];
      assert line[..i] == input[Start(position)..Start(position) + i];
    }
  }

  class Tokenizer {
    const input: string
    var upcoming: string
    var position: Option<nat>
    /** The pieces not yet given out, the upcoming one first. */
    ghost var rest: seq<string>

    /** A line that has no first token never gets anywhere. */
    ghost predicate Stuck()
      reads this
    {
      position == Some(0) && upcoming == "" && (input == "" || input[0] == SEPARATOR)
    }

    ghost predicate Valid()
      reads this
    {
      || (Stuck() && rest == [""])
      || (position.None? && rest == [upcoming])
      || (position.None? && rest == [] && upcoming == "")
      || (position.Some? && 0 < position.value < |input| &&
          rest == [upcoming] + SplitAll(input[position.value + 1..], SEPARATOR))
    }

    constructor (input: string)
      ensures this.input == input && Valid()
      ensures LongestFilled(rest) == LongestFilled(SplitAll(input, SEPARATOR))
      ensures upcoming == SplitAll(input, SEPARATOR)[0]
      ensures HasNext() ==> !Stuck() && rest == SplitAll(input, SEPARATOR)
    {
      this.input := input;
      upcoming, position := "", Some(0);
      rest := [""];
      new;
      Pump();
      if |input| > 0 {
        PumpedPieces(input, 0);
        assert input[0..] == input;
        if position != Some(0) {
          rest := SplitAll(input, SEPARATOR);
        }
      }
    }

    method Pump()
      requires position.Some? ==> position.value <= |input|
      modifies this`upcoming, this`position
      ensures (upcoming, position) == Pumped(input, old(position))
    {
      if position.None? || position.value == |input| {
        upcoming := "";
        return;
      }
      var start := Start(position.value);
      var found := FirstIndex(input[start..], SEPARATOR);
      if start + found == |input| {
        upcoming, position := input[start..], None;
      } else {
        upcoming, position := input[start..start + found], Some(start + found);
      }
    }

    predicate HasNext()
      reads this
    {
      upcoming != ""
    }

    /** Gives out the upcoming piece, whether or not there is one, and moves on past it. */
    method Next() returns (token: string)
      requires Valid()
      modifies this
      ensures Valid() && token == old(upcoming)
      ensures old(Stuck()) ==> Stuck() && rest == old(rest)
      ensures !old(Stuck()) ==> !Stuck() && rest == if old(rest) == [] then [] else old(rest)[1..]
      ensures old(HasNext()) ==> LongestFilled(old(rest)) == [token] + LongestFilled(rest)
      ensures old(position).None? ==> position.None?
      ensures old(HasNext()) && old(position).Some? && position.Some? ==> old(position).value < position.value
    {
      token := upcoming;
      ghost var before := position;
      Pump();
      if before.None? {
        rest := if rest == [] then [] else rest[1..];
      } else if before.value > 0 {
        PumpedPieces(input, before.value);
        rest := rest[1..];
      } else {
        assert input[0..] == input;
      }
    }

    lemma NoneLeft()
      requires Valid() && !HasNext()
      ensures LongestFilled(rest) == []
    {
    }
  }
}
