/**
 The order a transcript is rendered in: each level's turns one after another, each turn's own lines before those of its
 conversation, whatever is said standing as deep as the conversation it is said in.
 */
module TranscriptOutline {
  import opened Prelude
  import opened TranscriptFold
  import opened TranscriptRender

  // ---------------------------------------------------------------- what is said, in order

  /** What is said, and how far in, reading the folded turns in order and each conversation where it stands. */
  ghost function Reading(turns: seq<Turn>, indent: nat): seq<(nat, string)>
    decreases Depth(turns), 3, 0
  {
    FoldedNoDeeper(turns);
    ReadingEach(Folded(turns), indent)
  }

  ghost function ReadingEach(turns: seq<Turn>, indent: nat): seq<(nat, string)>
    decreases Depth(turns), 2, |turns|
  {
    if turns == [] then []
    else
      DepthIsMost(turns, Depth(turns));
      DepthIsMost(turns[..|turns| - 1], Depth(turns));
      ReadingEach(turns[..|turns| - 1], indent) + ReadingOne(turns[|turns| - 1], indent)
  }

  /** A call's conversation is two levels in, a sidechain's one. */
  ghost function ReadingOne(t: Turn, indent: nat): seq<(nat, string)>
    decreases DepthAt(t), 1, 0
  {
    if t.kind.ToolCall? && t.side.Some? then Reading(t.side.value.turns, indent + 2)
    else if t.kind.Sidechain? && t.side.Some? then Reading(t.side.value.turns, indent + 1)
    else if t.kind.ToolCall? || t.kind.Sidechain? || (t.kind.Thinking? && t.redacted) then []
    else [(indent + 1, t.text)]
  }

  /** What lines say, in order. */
  ghost function Sayings(lines: seq<Line>): seq<(nat, string)> {
    if lines == [] then [] else SaidBy(lines[0]) + Sayings(lines[1..])
  }

  ghost function SaidBy(line: Line): seq<(nat, string)> {
    if line.content.Said? then [(line.indent, line.content.text)] else []
  }

  lemma {:induction false} SayingsOfBoth(a: seq<Line>, b: seq<Line>)
    ensures Sayings(a + b) == Sayings(a) + Sayings(b)
  {
    hide SaidBy;
    if a == [] {
      assert a + b == b;
    } else {
      assert (a + b)[1..] == a[1..] + b;
      SayingsOfBoth(a[1..], b);
      Grouped(SaidBy(a[0]), Sayings(a[1..]), Sayings(b));
    }
  }

  lemma Grouped<T>(a: seq<T>, b: seq<T>, c: seq<T>)
    ensures a + (b + c) == a + b + c
  {
  }

  /** A tool turn without its tool stands among the folded turns, or in a conversation shown. */
  ghost predicate Toolless(turns: seq<Turn>)
    decreases Depth(turns), 3, 0
  {
    FoldedNoDeeper(turns);
    DepthIsMost(Folded(turns), Depth(turns));
    exists i | 0 <= i < |Folded(turns)| :: ToollessAt(Folded(turns)[i])
  }

  ghost predicate ToollessAt(t: Turn)
    decreases DepthAt(t), 1, 0
  {
    || (t.kind.ToolCall? && t.tool.None?)
    || ((t.kind.ToolCall? || t.kind.Sidechain?) && t.side.Some? && Toolless(t.side.value.turns))
  }

  /** `lines` fail, or say what is read. */
  ghost predicate Says(lines: Lines, fails: bool, reading: seq<(nat, string)>) {
    if fails then lines.Err? else lines.Ok? && Sayings(lines.value) == reading
  }

  lemma SaysBoth(a: Lines, b: Lines, fails: bool, more: bool, reading: seq<(nat, string)>, rest: seq<(nat, string)>)
    requires Says(a, fails, reading) && Says(b, more, rest)
    ensures Says(Chained(a, b), fails || more, reading + rest)
  {
    if !fails && !more {
      SayingsOfBoth(a.value, b.value);
    }
  }

  lemma {:induction false} SaysNothing(lines: seq<Line>)
    requires forall l <- lines :: !l.content.Said?
    ensures Says(Ok(lines), false, [])
  {
    if lines != [] {
      SaysNothing(lines[1..]);
    }
  }

  /** A rendering says, in order and as far in, exactly what is read; it fails exactly on a tool turn without its tool. */
  lemma {:induction false} RendersInOrder(turns: seq<Turn>, indent: nat)
    ensures Says(TurnLines(turns, indent), Toolless(turns), Reading(turns, indent))
    decreases Depth(turns), 3, 0
  {
    hide Folded, Says;
    FoldedNoDeeper(turns);
    EachInOrder(Folded(turns), indent);
  }

  ghost predicate AnyToolless(turns: seq<Turn>) {
    exists i :: 0 <= i < |turns| && ToollessAt(turns[i])
  }

  ghost predicate EachSays(turns: seq<Turn>, indent: nat) {
    Says(AllLines(turns, indent), AnyToolless(turns), ReadingEach(turns, indent))
  }

  lemma {:induction false} EachInOrder(turns: seq<Turn>, indent: nat)
    ensures EachSays(turns, indent)
    decreases Depth(turns), 2, |turns|
  {
    hide *;
    if turns == [] {
      NoneSays(indent);
    } else {
      var n := |turns| - 1;
      DepthIsMost(turns, Depth(turns));
      DepthIsMost(turns[..n], Depth(turns));
      EachInOrder(turns[..n], indent);
      OneInOrder(turns[n], indent);
      LastSays(turns, indent);
    }
  }

  lemma NoneSays(indent: nat)
    ensures EachSays([], indent)
  {
  }

  lemma LastSays(turns: seq<Turn>, indent: nat)
    requires turns != []
    requires var n := |turns| - 1; EachSays(turns[..n], indent) && SaysOne(turns[n], indent)
    ensures EachSays(turns, indent)
  {
    hide Says, LinesOf, ReadingOne, ToollessAt, Chained, AllLines;
    var n := |turns| - 1;
    LinesLast(turns, indent);
    SaysBoth(AllLines(turns[..n], indent), LinesOf(turns[n], indent), AnyToolless(turns[..n]), ToollessAt(turns[n]),
             ReadingEach(turns[..n], indent), ReadingOne(turns[n], indent));
    assert AnyToolless(turns) <==> AnyToolless(turns[..n]) || ToollessAt(turns[n]) by {
      if i: nat :| i < |turns| && ToollessAt(turns[i]) {
        assert i < n ==> turns[..n][i] == turns[i];
      }
    }
  }

  ghost predicate SaysOne(t: Turn, indent: nat) {
    Says(LinesOf(t, indent), ToollessAt(t), ReadingOne(t, indent))
  }

  lemma ChainedBoth(a: Lines, b: Lines, c: Lines)
    ensures Chained(a, Chained(b, c)) == Chained(Chained(a, b), c)
  {
    if a.Ok? && b.Ok? && c.Ok? {
      assert a.value + (b.value + c.value) == a.value + b.value + c.value;
    }
  }

  /** The last turn's lines come last. */
  lemma {:induction false} LinesLast(turns: seq<Turn>, indent: nat)
    requires turns != []
    ensures AllLines(turns, indent) == Chained(AllLines(turns[..|turns| - 1], indent), LinesOf(turns[|turns| - 1], indent))
  {
    hide LinesOf;
    var n := |turns| - 1;
    if n > 0 {
      assert turns[..n][1..] == turns[1..][..n - 1];
      LinesLast(turns[1..], indent);
      ChainedBoth(LinesOf(turns[0], indent), AllLines(turns[1..][..n - 1], indent), LinesOf(turns[n], indent));
    } else {
      assert turns[1..] == [] && turns[..0] == [];
      ChainedNone(LinesOf(turns[0], indent));
    }
  }

  lemma ChainedNone(a: Lines)
    ensures Chained(a, Ok([])) == a == Chained(Ok([]), a)
  {
    if a.Ok? {
      assert a.value + [] == a.value == [] + a.value;
    }
  }

  lemma {:induction false} OneInOrder(t: Turn, indent: nat)
    ensures SaysOne(t, indent)
    decreases DepthAt(t), 1, 1
  {
    hide Says, BodyLines, ToollessAt, ReadingOne, Chained;
    BodyInOrder(t, indent);
    var cut := if t.cut then [Line(indent + 1, Truncated)] else [];
    SaysNothing(cut);
    SaysBoth(BodyLines(t, indent), Ok(cut), ToollessAt(t), false, ReadingOne(t, indent), []);
    assert ReadingOne(t, indent) + [] == ReadingOne(t, indent);
  }

  lemma {:induction false} BodyInOrder(t: Turn, indent: nat)
    ensures Says(BodyLines(t, indent), ToollessAt(t), ReadingOne(t, indent))
    decreases DepthAt(t), 1, 0
  {
    match t.kind
    case ToolCall => ToolInOrder(t, indent);
    case Sidechain => SideInOrder(t, indent);
    case _ =>
      hide TurnLines, Reading, Toolless;
      var lines := BodyLines(t, indent).value;
      assert lines == [lines[0]] + [lines[1]];
      SayingsOfBoth([lines[0]], [lines[1]]);
  }

  lemma {:induction false} SideInOrder(t: Turn, indent: nat)
    requires t.kind.Sidechain?
    ensures Says(BodyLines(t, indent), ToollessAt(t), ReadingOne(t, indent))
    decreases DepthAt(t), 0, 0
  {
    hide Says, TurnLines, Reading, Toolless, Chained;
    var head := [Line(indent, Heading(t.kind, if t.side.Some? then t.side.value.title else ""))];
    SaysNothing(head);
    if t.side.Some? {
      var turns := t.side.value.turns;
      RendersInOrder(turns, indent + 1);
      SaysBoth(Ok(head), TurnLines(turns, indent + 1), false, Toolless(turns), [], Reading(turns, indent + 1));
      assert [] + Reading(turns, indent + 1) == Reading(turns, indent + 1);
    } else {
      SaysNothing([]);
      SaysBoth(Ok(head), Ok([]), false, false, [], []);
    }
  }

  lemma {:induction false} ToolInOrder(t: Turn, indent: nat)
    requires t.kind.ToolCall?
    ensures Says(BodyLines(t, indent), ToollessAt(t), ReadingOne(t, indent))
    decreases DepthAt(t), 0, 0
  {
    hide Says, TurnLines, Reading, Toolless, Chained, CallLines, ToolLines;
    ToolShown(t, indent);
    if t.tool.None? {
      FailsAtOnce(ToolLines(t, indent), ReadingOne(t, indent));
    } else {
      var head := CallLines(t, indent);
      CallSaysNothing(t, indent);
      if t.side.Some? {
        var turns := t.side.value.turns;
        SaysNothing(head + [Line(indent + 1, Conversing(t.side.value.title))]);
        RendersInOrder(turns, indent + 2);
        SaysBoth(Ok(head + [Line(indent + 1, Conversing(t.side.value.title))]), TurnLines(turns, indent + 2),
                 false, Toolless(turns), [], Reading(turns, indent + 2));
        assert [] + Reading(turns, indent + 2) == Reading(turns, indent + 2);
      } else {
        SaysNothing(head);
      }
    }
  }

  lemma FailsAtOnce(lines: Lines, reading: seq<(nat, string)>)
    requires lines.Err?
    ensures Says(lines, true, reading)
  {
  }

  // ---------------------------------------------------------------- a call's own lines

  /** A call's name, what it put out or that it runs, and a mark if that was cut. */
  function CallLines(t: Turn, indent: nat): seq<Line>
    requires t.tool.Some?
  {
    var tool := t.tool.value;
    var shown := match tool.output case Some(text) => Output(text) case None => Running;
    if tool.outputCut
    then [Line(indent, Heading(t.kind, tool.name)), Line(indent + 1, shown), Line(indent + 1, OutputTruncated)]
    else [Line(indent, Heading(t.kind, tool.name)), Line(indent + 1, shown)]
  }

  lemma CallSaysNothing(t: Turn, indent: nat)
    requires t.tool.Some?
    ensures forall l <- CallLines(t, indent) :: !l.content.Said?
  {
  }

  lemma ToolShown(t: Turn, indent: nat)
    ensures t.tool.None? ==> ToolLines(t, indent).Err?
    ensures t.tool.Some? ==>
              ToolLines(t, indent)
              == if t.side.None? then Ok(CallLines(t, indent))
                 else Chained(Ok(CallLines(t, indent) + [Line(indent + 1, Conversing(t.side.value.title))]),
                              TurnLines(t.side.value.turns, indent + 2))
  {
    hide TurnLines;
    if t.tool.Some? {
      var tool := t.tool.value;
      var head := [Line(indent, Heading(t.kind, tool.name)),
                   Line(indent + 1, if tool.output.Some? then Output(tool.output.value) else Running)];
      assert CallLines(t, indent) == head + if tool.outputCut then [Line(indent + 1, OutputTruncated)] else [];
    }
  }

  /** A call is shown by its own lines, then its conversation's title and the conversation two levels in, and last the mark
      of a turn that was cut. */
  lemma CallShown(t: Turn, indent: nat)
    requires t.kind.ToolCall? && t.tool.Some? && LinesOf(t, indent).Ok?
    ensures t.side.Some? ==> TurnLines(t.side.value.turns, indent + 2).Ok?
    ensures LinesOf(t, indent).value
         == CallLines(t, indent)
            + (if t.side.Some?
               then [Line(indent + 1, Conversing(t.side.value.title))] + TurnLines(t.side.value.turns, indent + 2).value
               else [])
            + (if t.cut then [Line(indent + 1, Truncated)] else [])
  {
    hide TurnLines, CallLines, ToolLines;
    ToolShown(t, indent);
    if t.side.Some? {
      var title, talk := [Line(indent + 1, Conversing(t.side.value.title))], TurnLines(t.side.value.turns, indent + 2);
      assert talk.Ok?;
      assert CallLines(t, indent) + title + talk.value == CallLines(t, indent) + (title + talk.value);
    }
  }

  /** Any other turn by its heading, and what it says, or its conversation, one level in. */
  lemma TurnShown(t: Turn, indent: nat)
    requires !t.kind.ToolCall? && LinesOf(t, indent).Ok?
    ensures t.kind.Sidechain? && t.side.Some? ==> TurnLines(t.side.value.turns, indent + 1).Ok?
    ensures LinesOf(t, indent).value
         == [Line(indent, Heading(t.kind, if t.kind.Sidechain? && t.side.Some? then t.side.value.title else ""))]
            + (if t.kind.Sidechain?
               then if t.side.Some? then TurnLines(t.side.value.turns, indent + 1).value else []
               else [Line(indent + 1, if t.kind.Thinking? && t.redacted then Redacted else Said(t.text))])
            + (if t.cut then [Line(indent + 1, Truncated)] else [])
  {
    hide TurnLines;
  }

  // ---------------------------------------------------------------- turn after turn

  /** From one place of `starts` to the next stand the lines of one turn. */
  ghost predicate Stands(turns: seq<Turn>, indent: nat, lines: seq<Line>, starts: seq<nat>) {
    && |starts| == |turns| + 1 && starts[0] == 0 && starts[|turns|] == |lines|
    && forall i | 0 <= i < |turns| :: StandsFrom(turns[i], indent, lines, starts[i], starts[i + 1])
  }

  ghost predicate StandsFrom(t: Turn, indent: nat, lines: seq<Line>, start: nat, end: nat) {
    start <= end <= |lines| && LinesOf(t, indent) == Ok(lines[start..end])
  }

  lemma {:induction false} EachStands(turns: seq<Turn>, indent: nat) returns (starts: seq<nat>)
    requires AllLines(turns, indent).Ok?
    ensures Stands(turns, indent, AllLines(turns, indent).value, starts)
  {
    hide LinesOf;
    if turns == [] {
      starts := [0];
    } else {
      var n := |turns| - 1;
      LinesLast(turns, indent);
      var before := EachStands(turns[..n], indent);
      var lines := AllLines(turns, indent).value;
      starts := before + [|lines|];
      forall i | 0 <= i < |turns| ensures StandsFrom(turns[i], indent, lines, starts[i], starts[i + 1]) {
        if i < n {
          assert StandsFrom(turns[..n][i], indent, AllLines(turns[..n], indent).value, before[i], before[i + 1]);
          assert lines[before[i]..before[i + 1]] == AllLines(turns[..n], indent).value[before[i]..before[i + 1]];
        } else {
          assert lines[starts[n]..starts[n + 1]] == LinesOf(turns[n], indent).value;
        }
      }
    }
  }

  /** The lines of a level are those of its folded turns, one turn after another. */
  lemma TurnsStandInOrder(turns: seq<Turn>, indent: nat) returns (starts: seq<nat>)
    requires TurnLines(turns, indent).Ok?
    ensures Stands(Folded(turns), indent, TurnLines(turns, indent).value, starts)
  {
    starts := EachStands(Folded(turns), indent);
  }
}
