/**
 Rendering a transcript: each level of conversation is folded, then printed turn by turn, a call's conversation and a
 sidechain's recursing into the next level.
 */
module TranscriptRender {
  import opened Prelude
  import opened TranscriptFold
  import opened TranscriptFates
  import opened TranscriptTheorems
  import opened TranscriptWeights

  datatype Content =
    | Heading(kind: Kind, title: string)
    | Said(text: string)
    | Output(text: string)
    | Redacted
    | Running
    | Truncated
    | OutputTruncated
    | Conversing(title: string)

  datatype Line = Line(indent: nat, content: Content)

  /** A tool turn without its tool stops the rendering. */
  datatype Failure = NoTool

  type Lines = Result<seq<Line>, Failure>

  function Chained(a: Lines, b: Lines): Lines {
    if a.Err? then a else if b.Err? then b else Ok(a.value + b.value)
  }

  // ---------------------------------------------------------------- how deep conversations nest

  function Depth(turns: seq<Turn>): nat {
    if turns == [] then 0
    else
      var first, rest := DepthAt(turns[0]), Depth(turns[1..]);
      if first < rest then rest else first
  }

  function DepthAt(t: Turn): nat {
    if t.side.Some? then 1 + Depth(t.side.value.turns) else 0
  }

  lemma {:induction false} DepthIsMost(turns: seq<Turn>, d: nat)
    ensures Depth(turns) <= d <==> forall i | 0 <= i < |turns| :: DepthAt(turns[i]) <= d
  {
    if turns != [] {
      DepthIsMost(turns[1..], d);
      assert forall i | 1 <= i < |turns| :: turns[i] == turns[1..][i - 1];
    }
  }

  lemma DepthOfBoth(a: seq<Turn>, b: seq<Turn>, d: nat)
    requires Depth(a) <= d && Depth(b) <= d
    ensures Depth(a + b) <= d
  {
    hide Depth;
    DepthIsMost(a, d);
    DepthIsMost(b, d);
    DepthIsMost(a + b, d);
  }

  lemma {:induction false} NeverDeeper(turns: seq<Turn>, n: nat, d: nat)
    requires n <= |turns| && Depth(turns) <= d
    ensures forall i | 0 <= i < |turns| :: DepthAt(After(turns, n)[i]) <= d
  {
    hide FateOf, SameCall, Depth, Fated, Met, DepthAt;
    if n == 0 {
      DepthIsMost(turns, d);
    } else {
      hide After;
      NeverDeeper(turns, n - 1, d);
      forall i | 0 <= i < |turns| ensures DepthAt(After(turns, n)[i]) <= d {
        MetNoDeeper(turns, n - 1, i, d);
      }
    }
  }

  lemma MetNoDeeper(turns: seq<Turn>, n: nat, i: nat, d: nat)
    requires n < |turns| && i < |turns|
    requires DepthAt(After(turns, n)[i]) <= d && DepthAt(After(turns, n)[n]) <= d
    ensures DepthAt(After(turns, n + 1)[i]) <= d
  {
    hide FateOf, SameCall, Depth, Met, After;
    TurnMet(turns, n, i);
    if Fated(turns, n) == Joins(i) && After(turns, n)[i].side.Some? {
      DepthOfBoth(Conversation(After(turns, n)[i]), Conversation(After(turns, n)[n]), d - 1);
    }
  }

  /** Folding never makes conversations nest deeper. */
  lemma FoldedNoDeeper(turns: seq<Turn>)
    ensures Depth(Folded(turns)) <= Depth(turns)
  {
    hide FateOf, SameCall, Depth, Fated, After, DepthAt;
    KeptInOrder(turns, |turns|);
    NeverDeeper(turns, |turns|, Depth(turns));
    DepthIsMost(Folded(turns), Depth(turns));
  }

  // ---------------------------------------------------------------- the rendering

  /** `_turn_lines`. */
  function TurnLines(turns: seq<Turn>, indent: nat): Lines
    decreases Depth(turns), 3, 0
  {
    FoldedNoDeeper(turns);
    AllLines(Folded(turns), indent)
  }

  function AllLines(turns: seq<Turn>, indent: nat): Lines
    decreases Depth(turns), 2, |turns|
  {
    if turns == [] then Ok([])
    else
      DepthIsMost(turns, Depth(turns));
      DepthIsMost(turns[1..], Depth(turns));
      Chained(LinesOf(turns[0], indent), AllLines(turns[1..], indent))
  }

  function LinesOf(t: Turn, indent: nat): Lines
    decreases DepthAt(t), 1, 1
  {
    Chained(BodyLines(t, indent), Ok(if t.cut then [Line(indent + 1, Truncated)] else []))
  }

  function BodyLines(t: Turn, indent: nat): Lines
    decreases DepthAt(t), 1, 0
  {
    match t.kind
    case ToolCall => ToolLines(t, indent)
    case Thinking => Ok([Line(indent, Heading(t.kind, "")), Line(indent + 1, if t.redacted then Redacted else Said(t.text))])
    case Sidechain =>
      Chained(Ok([Line(indent, Heading(t.kind, if t.side.Some? then t.side.value.title else ""))]),
              if t.side.Some? then TurnLines(t.side.value.turns, indent + 1) else Ok([]))
    case _ => Ok([Line(indent, Heading(t.kind, "")), Line(indent + 1, Said(t.text))])
  }

  /** `_tool_lines`. */
  function ToolLines(t: Turn, indent: nat): Lines
    decreases DepthAt(t), 0, 0
  {
    if t.tool.None? then Err(NoTool)
    else
      var tool := t.tool.value;
      var head := [Line(indent, Heading(t.kind, tool.name)),
                   Line(indent + 1, if tool.output.Some? then Output(tool.output.value) else Running)];
      var cut := if tool.outputCut then [Line(indent + 1, OutputTruncated)] else [];
      if t.side.None? then Ok(head + cut)
      else
        Chained(Ok(head + cut + [Line(indent + 1, Conversing(t.side.value.title))]),
                TurnLines(t.side.value.turns, indent + 2))
  }

  // ---------------------------------------------------------------- nothing said is lost

  /** Tools stand on the tool turns and no others, and a late result carries no conversation — at every depth. */
  ghost predicate WellFormed(turns: seq<Turn>) {
    forall i | 0 <= i < |turns| :: TurnFormed(turns[i])
  }

  ghost predicate TurnFormed(t: Turn) {
    && (t.tool.Some? <==> t.kind.ToolCall?)
    && (IsPatch(t) ==> t.side.None?)
    && (t.side.Some? ==> WellFormed(t.side.value.turns))
  }

  /** What is said at any depth of the conversations that are shown. */
  ghost function Spoken(turns: seq<Turn>): multiset<string> {
    if turns == [] then multiset{} else SpokenAt(turns[0]) + Spoken(turns[1..])
  }

  ghost function SpokenAt(t: Turn): multiset<string> {
    match t.kind
    case Env => multiset{t.text}
    case Assistant => multiset{t.text}
    case Thinking => if t.redacted then multiset{} else multiset{t.text}
    case _ => if t.side.Some? then Spoken(t.side.value.turns) else multiset{}
  }

  /** What a rendering says. */
  ghost function Texts(lines: seq<Line>): multiset<string> {
    if lines == [] then multiset{}
    else (if lines[0].content.Said? then multiset{lines[0].content.text} else multiset{}) + Texts(lines[1..])
  }

  lemma {:induction false} TextsOfBoth(a: seq<Line>, b: seq<Line>)
    ensures Texts(a + b) == Texts(a) + Texts(b)
  {
    if a == [] {
      assert a + b == b;
    } else {
      assert (a + b)[1..] == a[1..] + b;
      TextsOfBoth(a[1..], b);
    }
  }

  lemma {:induction false} SpokenOfBoth(a: seq<Turn>, b: seq<Turn>)
    ensures Spoken(a + b) == Spoken(a) + Spoken(b)
  {
    if a == [] {
      assert a + b == b;
    } else {
      assert (a + b)[1..] == a[1..] + b;
      SpokenOfBoth(a[1..], b);
      Associates(SpokenAt(a[0]), Spoken(a[1..]), Spoken(b));
    }
  }

  lemma {:induction false} SpokenIsSum(turns: seq<Turn>)
    ensures Spoken(turns) == Sum(Weights(SpokenAt, turns))
  {
    if turns != [] {
      SpokenIsSum(turns[1..]);
      assert Weights(SpokenAt, turns)[1..] == Weights(SpokenAt, turns[1..]);
    }
  }

  /** A call made on a tool turn says what the conversations joined to it say. */
  lemma SpokenWeighs(turns: seq<Turn>)
    requires WellFormed(turns)
    ensures Weighs(SpokenAt, turns)
  {
    hide After, Spoken;
    forall n | 0 <= n < |turns| ensures WeighsAt(SpokenAt, turns, n) {
      SpokenMet(turns, n);
    }
  }

  lemma SpokenMet(turns: seq<Turn>, n: nat)
    requires WellFormed(turns) && n < |turns|
    ensures WeighsAt(SpokenAt, turns, n)
  {
    hide After, Spoken, Fated, WellFormed;
    var now, fate := After(turns, n), Fated(turns, n);
    if !fate.Stays? {
      TurnMet(turns, n, fate.call);
      ToolTurn(turns, n, fate.call);
      if fate.Joins? {
        LateTalkAt(turns, n);
        SpokenOfBoth(Conversation(now[fate.call]), Conversation(now[n]));
        SpokenByConversation(now[fate.call]);
        SpokenByConversation(now[n]);
        SpokenByConversation(Joined(now[fate.call], now[n].side.value));
      }
    }
  }

  lemma ToolTurn(turns: seq<Turn>, n: nat, a: nat)
    requires WellFormed(turns) && n <= |turns| && a < |turns| && IsCall(turns[a])
    ensures After(turns, n)[a].kind.ToolCall?
  {
    assert SameCall(turns[a], After(turns, n)[a]) && TurnFormed(turns[a]);
  }

  lemma LateTalkAt(turns: seq<Turn>, n: nat)
    requires n < |turns| && Fated(turns, n).Joins?
    ensures IsLateTalk(After(turns, n)[n])
  {
  }

  lemma SpokenByConversation(t: Turn)
    requires t.kind.ToolCall? || t.kind.Sidechain?
    ensures SpokenAt(t) == Spoken(Conversation(t))
  {
  }

  /** Folding says exactly what was said. */
  lemma FoldedSpeaks(turns: seq<Turn>)
    requires WellFormed(turns)
    ensures Spoken(Folded(turns)) == Spoken(turns)
  {
    hide After, Fated, Sum, Spoken, Folded, End, WellFormed, TurnFormed;
    SpokenWeighs(turns);
    ConservedExactly(SpokenAt, turns);
    forall i | 0 <= i < |turns| && Carried(turns, i).None? ensures SpokenAt(turns[i]) == multiset{} {
      OnlyResultsShed(turns, i);
    }
    SpokenIsSum(turns);
    SpokenIsSum(Folded(turns));
  }

  /** Of a well-formed transcript only late results are not carried on, and they say nothing. */
  lemma OnlyResultsShed(turns: seq<Turn>, i: nat)
    requires WellFormed(turns) && i < |turns| && Carried(turns, i).None?
    ensures SpokenAt(turns[i]) == multiset{}
  {
    hide Fated, End;
    CallsOnToolTurns(turns);
    NothingIsDroppedOnToolTurns(turns, i);
    FateIsRead(turns, i);
    ReadResult(turns, i);
    assert TurnFormed(turns[i]);
  }

  lemma CallsOnToolTurns(turns: seq<Turn>)
    requires WellFormed(turns)
    ensures CallsAreNotTalk(turns)
  {
    forall i | 0 <= i < |turns| && IsCall(turns[i]) ensures !turns[i].kind.Sidechain? {
      assert TurnFormed(turns[i]);
    }
  }

  lemma {:induction false} StillFormed(turns: seq<Turn>, n: nat)
    requires n <= |turns| && WellFormed(turns)
    ensures WellFormed(After(turns, n))
  {
    hide FateOf, SameCall, Fated, Met, TurnFormed;
    if n > 0 {
      hide After;
      StillFormed(turns, n - 1);
      forall i | 0 <= i < |turns| ensures TurnFormed(After(turns, n)[i]) {
        MetFormed(turns, n - 1, i);
      }
    }
  }

  lemma MetFormed(turns: seq<Turn>, n: nat, i: nat)
    requires n < |turns| && i < |turns|
    requires TurnFormed(After(turns, n)[i]) && TurnFormed(After(turns, n)[n])
    ensures TurnFormed(After(turns, n + 1)[i])
  {
    hide FateOf, Met, After;
    TurnMet(turns, n, i);
    assert SameCall(turns[i], After(turns, n)[i]);
  }

  lemma FoldedFormed(turns: seq<Turn>)
    requires WellFormed(turns)
    ensures WellFormed(Folded(turns))
  {
    hide FateOf, SameCall, Fated, After, TurnFormed;
    KeptInOrder(turns, |turns|);
    StillFormed(turns, |turns|);
  }

  /** A well-formed transcript renders in full: whatever it says, at any depth and however late, is said once. */
  lemma {:induction false} RendersAllSpoken(turns: seq<Turn>, indent: nat)
    requires WellFormed(turns)
    ensures TurnLines(turns, indent).Ok? && Texts(TurnLines(turns, indent).value) == Spoken(turns)
    decreases Depth(turns), 3, 0
  {
    hide Folded, Spoken, Texts;
    FoldedNoDeeper(turns);
    FoldedFormed(turns);
    FoldedSpeaks(turns);
    RendersEach(Folded(turns), indent);
  }

  lemma {:induction false} RendersEach(turns: seq<Turn>, indent: nat)
    requires WellFormed(turns)
    ensures AllLines(turns, indent).Ok? && Texts(AllLines(turns, indent).value) == Spoken(turns)
    decreases Depth(turns), 2, |turns|
  {
    if turns != [] {
      DepthIsMost(turns, Depth(turns));
      DepthIsMost(turns[1..], Depth(turns));
      RendersOne(turns[0], indent);
      RendersEach(turns[1..], indent);
      TextsChained(LinesOf(turns[0], indent), AllLines(turns[1..], indent));
    }
  }

  lemma TextsChained(a: Lines, b: Lines)
    requires a.Ok? && b.Ok?
    ensures Chained(a, b).Ok? && Texts(Chained(a, b).value) == Texts(a.value) + Texts(b.value)
  {
    TextsOfBoth(a.value, b.value);
  }

  lemma {:induction false} Silent(lines: seq<Line>)
    requires forall l <- lines :: !l.content.Said?
    ensures Texts(lines) == multiset{}
  {
    if lines != [] {
      Silent(lines[1..]);
    }
  }

  lemma {:induction false} RendersOne(t: Turn, indent: nat)
    requires TurnFormed(t)
    ensures LinesOf(t, indent).Ok? && Texts(LinesOf(t, indent).value) == SpokenAt(t)
    decreases DepthAt(t), 1, 1
  {
    hide Spoken, Texts, BodyLines, TurnFormed, Chained;
    RendersBody(t, indent);
    var cut := if t.cut then [Line(indent + 1, Truncated)] else [];
    Silent(cut);
    TextsChained(BodyLines(t, indent), Ok(cut));
  }

  lemma {:induction false} RendersBody(t: Turn, indent: nat)
    requires TurnFormed(t)
    ensures BodyLines(t, indent).Ok? && Texts(BodyLines(t, indent).value) == SpokenAt(t)
    decreases DepthAt(t), 1, 0
  {
    hide Spoken, TurnLines, ToolLines, WellFormed, Chained, Texts;
    match t.kind
    case ToolCall =>
      RendersTool(t, indent);
    case Sidechain =>
      var head := [Line(indent, Heading(t.kind, if t.side.Some? then t.side.value.title else ""))];
      Silent(head);
      if t.side.Some? {
        RendersAllSpoken(t.side.value.turns, indent + 1);
        TextsChained(Ok(head), TurnLines(t.side.value.turns, indent + 1));
      } else {
        Silent([]);
        TextsChained(Ok(head), Ok([]));
      }
    case _ =>
      RendersText(t, indent);
  }

  lemma RendersText(t: Turn, indent: nat)
    requires t.kind.Env? || t.kind.Assistant? || t.kind.Thinking?
    ensures BodyLines(t, indent).Ok? && Texts(BodyLines(t, indent).value) == SpokenAt(t)
  {
    hide Spoken, TurnLines, ToolLines;
    var lines := BodyLines(t, indent).value;
    assert lines == [lines[0]] + [lines[1]];
    TextsOfBoth([lines[0]], [lines[1]]);
  }

  lemma {:induction false} RendersTool(t: Turn, indent: nat)
    requires TurnFormed(t) && t.kind.ToolCall?
    ensures ToolLines(t, indent).Ok? && Texts(ToolLines(t, indent).value) == SpokenAt(t)
    decreases DepthAt(t), 0, 0
  {
    hide Spoken, TurnLines, WellFormed, Chained, Texts;
    var tool := t.tool.value;
    var head := [Line(indent, Heading(t.kind, tool.name)),
                 Line(indent + 1, if tool.output.Some? then Output(tool.output.value) else Running)];
    var cut := if tool.outputCut then [Line(indent + 1, OutputTruncated)] else [];
    Silent(head + cut);
    if t.side.Some? {
      var above := head + cut + [Line(indent + 1, Conversing(t.side.value.title))];
      Silent(above);
      RendersAllSpoken(t.side.value.turns, indent + 2);
      TextsChained(Ok(above), TurnLines(t.side.value.turns, indent + 2));
    }
  }
}
