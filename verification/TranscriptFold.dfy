/**
 Folding a transcript's late turns onto the calls they belong to: a late result replaces its call's output, and a late
 subagent conversation joins its call's.
 */
module TranscriptFold {
  import opened Prelude

  datatype Kind = Env | Assistant | Thinking | ToolCall | Sidechain

  /** `useId` is empty when the call has none. */
  datatype Tool = Tool(name: string, useId: string, output: Option<string>, outputCut: bool, patch: bool)

  /** A subagent's conversation; `parent` is empty when it names no call. */
  datatype Side = Side(agent: Option<string>, title: string, parent: string, turns: seq<Turn>)

  datatype Turn = Turn(kind: Kind, text: string, redacted: bool, cut: bool, tool: Option<Tool>, side: Option<Side>)

  // ---------------------------------------------------------------- what one turn is

  /** A call a late turn may name. */
  predicate IsCall(t: Turn) {
    t.tool.Some? && t.tool.value.useId != "" && !t.tool.value.patch
  }

  predicate IsPatch(t: Turn) {
    t.tool.Some? && t.tool.value.patch
  }

  predicate IsLateTalk(t: Turn) {
    t.kind.Sidechain? && t.side.Some? && t.side.value.parent != ""
  }

  /** A call adopts a late conversation unless it has one of some other agent. */
  predicate Adopts(held: Option<Side>, late: Side) {
    held.None? || held.value.agent == late.agent
  }

  /** The call with `patch`'s result, its truncation flag kept once set. */
  function Patched(call: Turn, patch: Tool): Turn
    requires call.tool.Some?
  {
    call.(tool := Some(call.tool.value.(output := patch.output,
                                        outputCut := call.tool.value.outputCut || patch.outputCut)))
  }

  /** The call with `late`'s turns after those it holds. */
  function Joined(call: Turn, late: Side): Turn {
    call.(side := Some(if call.side.Some? then call.side.value.(turns := call.side.value.turns + late.turns) else late))
  }

  // ---------------------------------------------------------------- what folding computes

  predicate IsCallOf(t: Turn, id: string) {
    IsCall(t) && t.tool.value.useId == id
  }

  /** The first call with this id among the first `n` turns. */
  function CallWithin(turns: seq<Turn>, n: nat, id: string): (at: Option<nat>)
    requires n <= |turns|
    ensures at.Some? ==> at.value < n && IsCallOf(turns[at.value], id)
  {
    if n == 0 then None
    else if CallWithin(turns, n - 1, id).Some? then CallWithin(turns, n - 1, id)
    else if IsCallOf(turns[n - 1], id) then Some(n - 1)
    else None
  }

  function CallOf(turns: seq<Turn>, id: string): (at: Option<nat>)
    ensures at.Some? ==> at.value < |turns| && IsCallOf(turns[at.value], id)
  {
    CallWithin(turns, |turns|, id)
  }

  /** It is the first. */
  lemma {:induction false} CallIsFirst(turns: seq<Turn>, n: nat, i: nat)
    requires i < n <= |turns| && IsCall(turns[i])
    ensures CallWithin(turns, n, turns[i].tool.value.useId).Some?
    ensures CallWithin(turns, n, turns[i].tool.value.useId).value <= i
  {
    if i < n - 1 {
      CallIsFirst(turns, n - 1, i);
    }
  }

  /** The call an id names is the first turn with a tool of that id that is no late result; the empty id names none. */
  lemma CallOfExactly(turns: seq<Turn>, id: string, a: nat)
    ensures CallOf(turns, id) == Some(a)
       <==> id != "" && HasId(turns, id, a) && !exists i: nat :: i < a && HasId(turns, id, i)
  {
    if i: nat :| HasId(turns, id, i) && id != "" {
      CallIsFirst(turns, |turns|, i);
    }
    forall i: nat | i < |turns| && id != "" ensures HasId(turns, id, i) <==> IsCallOf(turns[i], id) {
    }
    if CallOf(turns, id).Some? && id != "" {
      forall i: nat | i < |turns| && HasId(turns, id, i) ensures CallOf(turns, id).value <= i {
        CallIsFirst(turns, |turns|, i);
      }
    }
  }

  predicate HasId(turns: seq<Turn>, id: string, i: nat) {
    i < |turns| && turns[i].tool.Some? && turns[i].tool.value.useId == id && !turns[i].tool.value.patch
  }

  /** What becomes of a turn: it stays, or goes onto the call at `call` as a result or as a conversation. */
  datatype Fate = Stays | Patches(call: nat) | Joins(call: nat)

  /** The fate of the turn at `i` among `now`, the turns as they stand, `turns` being the turns as read. */
  function FateOf(turns: seq<Turn>, now: seq<Turn>, i: nat): (fate: Fate)
    requires i < |now| == |turns|
    ensures !fate.Stays? ==> fate.call < |turns| && IsCall(turns[fate.call])
    ensures fate.Patches? ==> IsPatch(now[i]) && CallOf(turns, now[i].tool.value.useId) == Some(fate.call)
    ensures fate.Joins? ==> IsLateTalk(now[i]) && Adopts(now[fate.call].side, now[i].side.value)
    ensures IsPatch(now[i]) && CallOf(turns, now[i].tool.value.useId).Some? ==> fate.Patches?
  {
    var t := now[i];
    var patched := if IsPatch(t) then CallOf(turns, t.tool.value.useId) else None;
    if patched.Some? then Patches(patched.value)
    else
      var parent := if IsLateTalk(t) then CallOf(turns, t.side.value.parent) else None;
      if parent.Some? && Adopts(now[parent.value].side, t.side.value) then Joins(parent.value) else Stays
  }

  /** The turns once the one at `i` has met its fate. */
  function Met(now: seq<Turn>, i: nat, fate: Fate): (met: seq<Turn>)
    requires i < |now|
    requires !fate.Stays? ==> fate.call < |now|
    requires fate.Patches? ==> now[fate.call].tool.Some? && now[i].tool.Some?
    requires fate.Joins? ==> now[i].side.Some?
  {
    match fate
    case Stays => now
    case Patches(a) => now[a := Patched(now[a], now[i].tool.value)]
    case Joins(a) => now[a := Joined(now[a], now[i].side.value)]
  }

  /** The turns as they stand once the first `n` have met their fates. */
  function After(turns: seq<Turn>, n: nat): (now: seq<Turn>)
    requires n <= |turns|
    ensures |now| == |turns|
    ensures forall i | 0 <= i < |turns| :: SameCall(turns[i], now[i])
  {
    if n == 0 then turns
    else
      var now := After(turns, n - 1);
      Met(now, n - 1, FateOf(turns, now, n - 1))
  }

  /** Folding touches only a call's output, its truncation flag, and its conversation. */
  predicate SameCall(was: Turn, now: Turn) {
    && was.(tool := now.tool, side := now.side) == now
    && was.tool.Some? == now.tool.Some?
    && (was.tool.Some? ==>
          was.tool.value.(output := now.tool.value.output, outputCut := now.tool.value.outputCut) == now.tool.value)
  }

  /** What becomes of the turn at `i`. */
  function Fated(turns: seq<Turn>, i: nat): (fate: Fate)
    requires i < |turns|
    ensures !fate.Stays? ==> fate.call < |turns| && IsCall(turns[fate.call])
  {
    FateOf(turns, After(turns, i), i)
  }

  /** Where the turns among the first `n` that stay are. */
  function KeptAt(turns: seq<Turn>, n: nat): seq<nat>
    requires n <= |turns|
  {
    if n == 0 then []
    else if Fated(turns, n - 1).Stays? then KeptAt(turns, n - 1) + [n - 1]
    else KeptAt(turns, n - 1)
  }

  predicate AllBelow(at: seq<nat>, n: nat) {
    forall k | 0 <= k < |at| :: at[k] < n
  }

  /** They are exactly those that stay, in order. */
  lemma {:induction false} KeptInOrder(turns: seq<Turn>, n: nat)
    requires n <= |turns|
    ensures AllBelow(KeptAt(turns, n), n)
    ensures forall j | 0 <= j < |KeptAt(turns, n)| :: Fated(turns, KeptAt(turns, n)[j]).Stays?
    ensures forall i | 0 <= i < n && Fated(turns, i).Stays? :: i in KeptAt(turns, n)
    ensures forall j, k | 0 <= j < k < |KeptAt(turns, n)| :: KeptAt(turns, n)[j] < KeptAt(turns, n)[k]
  {
    hide Fated;
    if n > 0 {
      KeptInOrder(turns, n - 1);
    }
  }

  function Pick(now: seq<Turn>, at: seq<nat>): (picked: seq<Turn>)
    requires AllBelow(at, |now|)
    ensures |picked| == |at| && forall k | 0 <= k < |at| :: picked[k] == now[at[k]]
  {
    seq(|at|, k requires 0 <= k < |at| => now[at[k]])
  }

  function Folded(turns: seq<Turn>): (folded: seq<Turn>)
    ensures |folded| == |KeptAt(turns, |turns|)|
  {
    KeptInOrder(turns, |turns|);
    Pick(After(turns, |turns|), KeptAt(turns, |turns|))
  }

  // ---------------------------------------------------------------- the fold itself

  /** The calls a late turn may name: the first turn with each id. */
  method FindCalls(turns: seq<Turn>) returns (anchors: map<string, nat>)
    ensures forall id :: Lookup(anchors, id) == CallOf(turns, id)
  {
    anchors := map[];
    for i := 0 to |turns|
      invariant forall id :: Lookup(anchors, id) == CallWithin(turns, i, id)
    {
      var t := turns[i];
      if IsCall(t) && t.tool.value.useId !in anchors {
        assert Lookup(anchors, t.tool.value.useId) == None;
        anchors := anchors[t.tool.value.useId := i];
      }
    }
  }

  /** `_folded`: the turns are copied, the calls found, and each late turn rewrites the copy its call's entry in
      `anchors` refers to. `kept` refers to the same copies, so a call kept early still shows what came late. */
  method Fold(turns: seq<Turn>) returns (folded: seq<Turn>)
    ensures folded == Folded(turns)
  {
    hide FateOf, Fated, SameCall;
    var n := |turns|;
    var merged := new Turn[n](i requires 0 <= i < n => turns[i]);
    assert merged[..] == turns;
    var anchors := FindCalls(turns);
    var kept: seq<nat> := [];
    for i := 0 to n
      invariant merged[..] == After(turns, i) && kept == KeptAt(turns, i)
    {
      var stays := FoldOne(turns, merged, anchors, i);
      if stays {
        kept := kept + [i];
      }
    }
    KeptInOrder(turns, n);
    folded := Pick(merged[..], kept);
  }

  /** One turn of the second loop: whether it stays, its call rewritten in place when it does not. */
  method FoldOne(turns: seq<Turn>, merged: array<Turn>, anchors: map<string, nat>, i: nat) returns (stays: bool)
    requires i < |turns| && merged[..] == After(turns, i)
    requires forall id :: Lookup(anchors, id) == CallOf(turns, id)
    modifies merged
    ensures merged[..] == After(turns, i + 1)
    ensures stays == Fated(turns, i).Stays?
  {
    var t := merged[i];
    assert t == After(turns, i)[i];
    if t.tool.Some? && t.tool.value.patch && Lookup(anchors, t.tool.value.useId).Some? {
      var a := anchors[t.tool.value.useId];
      assert merged[a] == After(turns, i)[a];
      merged[a] := Patched(merged[a], t.tool.value);
      return false;
    }
    if t.kind.Sidechain? && t.side.Some? && t.side.value.parent != ""
       && Lookup(anchors, t.side.value.parent).Some? {
      var a := anchors[t.side.value.parent];
      assert merged[a] == After(turns, i)[a];
      if Adopts(merged[a].side, t.side.value) {
        merged[a] := Joined(merged[a], t.side.value);
        return false;
      }
    }
    return true;
  }
}
