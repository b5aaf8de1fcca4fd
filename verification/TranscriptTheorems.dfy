/**
 What folding keeps of any transcript: exactly when a turn is lost, what result a call shows, in what order it holds the
 conversations joined to it, and which late conversations are refused.
 */
module TranscriptTheorems {
  import opened Prelude
  import opened TranscriptFold
  import opened TranscriptFates

  // ---------------------------------------------------------------- what is lost

  /** Where the turn at `i` comes to be: it stays; or its result or conversation goes onto a call that stays; or its
      conversation goes onto a call yet to come, and on with that call's. `None` when it goes onto a call that has itself
      been folded away. */
  function End(turns: seq<Turn>, i: nat): (end: Option<nat>)
    requires i < |turns|
    ensures end.Some? ==> end.value < |turns| && Read(turns, end.value).Stays?
    decreases |turns| - i
  {
    var fate := Read(turns, i);
    if fate.Stays? then Some(i)
    else if Read(turns, fate.call).Stays? then Some(fate.call)
    else if fate.Joins? && i < fate.call then End(turns, fate.call)
    else None
  }

  /** The turn at `i` goes onto the call at `a`, which itself goes onto a call — as a result, or too late to go with it. */
  predicate LostOn(turns: seq<Turn>, i: nat, a: nat) {
    && i < |turns| && a < |turns|
    && (Read(turns, i) == Patches(a) || Read(turns, i) == Joins(a))
    && !Read(turns, a).Stays?
    && (FoldsAsResult(turns, i) || a <= i)
  }

  /** Some turn of a transcript is lost exactly when the turns, as they came, hold one that goes onto a call that itself
      goes onto a call. */
  lemma NothingIsDropped(turns: seq<Turn>)
    ensures (forall i | 0 <= i < |turns| :: End(turns, i).Some?) <==> !exists i: nat, a: nat :: LostOn(turns, i, a)
  {
    hide Read, LostOn, End;
    if i: nat, a: nat :| LostOn(turns, i, a) {
      LostAtOnce(turns, i, a);
    } else {
      forall i | 0 <= i < |turns| ensures End(turns, i).Some? {
        if End(turns, i).None? {
          var j, a := LostSomewhere(turns, i);
        }
      }
    }
  }

  lemma LostAtOnce(turns: seq<Turn>, i: nat, a: nat)
    requires LostOn(turns, i, a)
    ensures i < |turns| && End(turns, i).None?
  {
    hide Read;
    ReadResult(turns, i);
  }

  lemma ReadResult(turns: seq<Turn>, i: nat)
    requires i < |turns|
    ensures Read(turns, i).Patches? <==> FoldsAsResult(turns, i)
  {
  }

  lemma {:induction false} LostSomewhere(turns: seq<Turn>, i: nat) returns (j: nat, a: nat)
    requires i < |turns| && End(turns, i).None?
    ensures LostOn(turns, j, a)
    decreases |turns| - i
  {
    hide Read;
    j, a := i, Read(turns, i).call;
    ReadResult(turns, i);
    if Read(turns, i).Joins? && i < a {
      j, a := LostSomewhere(turns, a);
    }
  }

  /** What is not lost comes to a turn kept, which still says all it said but its result and conversation. */
  lemma EndIsKept(turns: seq<Turn>, i: nat) returns (k: nat)
    requires i < |turns| && End(turns, i).Some?
    ensures k < |Folded(turns)| == |KeptAt(turns, |turns|)|
    ensures KeptAt(turns, |turns|)[k] == End(turns, i).value
    ensures SameCall(turns[End(turns, i).value], Folded(turns)[k])
  {
    hide FateOf, End, Fated, Read;
    FateIsRead(turns, End(turns, i).value);
    KeptInOrder(turns, |turns|);
    k :| 0 <= k < |KeptAt(turns, |turns|)| && KeptAt(turns, |turns|)[k] == End(turns, i).value;
  }

  /** Calls made on tool turns alone: no turn is at once a call and a late conversation. */
  ghost predicate CallsAreNotTalk(turns: seq<Turn>) {
    forall i | 0 <= i < |turns| && IsCall(turns[i]) :: !turns[i].kind.Sidechain?
  }

  lemma CallStays(turns: seq<Turn>, i: nat)
    requires CallsAreNotTalk(turns) && i < |turns| && IsCall(turns[i])
    ensures Fated(turns, i).Stays?
  {
    assert SameCall(turns[i], After(turns, i)[i]);
  }

  /** So nothing is lost where calls are made on tool turns. */
  lemma NothingIsDroppedOnToolTurns(turns: seq<Turn>, i: nat)
    requires CallsAreNotTalk(turns) && i < |turns|
    ensures End(turns, i).Some?
  {
    hide FateOf, Fated, Read;
    if !Read(turns, i).Stays? {
      FateIsRead(turns, Read(turns, i).call);
      CallStays(turns, Read(turns, i).call);
    }
  }

  // Two ways to be lost, in any transcript.

  /** A sidechain call whose own conversation names it folds onto itself. */
  lemma CallNamingItselfIsLost(turns: seq<Turn>, c: nat)
    requires c < |turns| && IsNamed(turns, c) && IsLateTalk(turns[c])
    requires turns[c].side.value.parent == turns[c].tool.value.useId
    ensures Fated(turns, c) == Joins(c) && End(turns, c).None? && c !in KeptAt(turns, |turns|)
  {
    hide Fated, CallOf;
    FateIsRead(turns, c);
    NotKept(turns, c);
  }

  /** A sidechain call with no conversation takes the first late one that names it, with its parent, and so folds onto
      itself: both are lost. */
  lemma CallTakingItsNameIsLost(turns: seq<Turn>, l: nat, c: nat)
    requires l < c < |turns| && IsNamed(turns, c) && turns[c].kind.Sidechain? && turns[c].side.None?
    requires FirstTalk(turns, c, turns[c].tool.value.useId) == Some(l)
    ensures Fated(turns, l) == Fated(turns, c) == Joins(c)
    ensures End(turns, l).None? && End(turns, c).None?
    ensures l !in KeptAt(turns, |turns|) && c !in KeptAt(turns, |turns|)
  {
    hide Fated, CallOf, FirstTalk;
    FateIsRead(turns, l);
    FateIsRead(turns, c);
    NotKept(turns, l);
    NotKept(turns, c);
    FirstTalkBefore(turns, l, c, turns[c].tool.value.useId);
  }

  lemma {:induction false} FirstTalkBefore(turns: seq<Turn>, l: nat, n: nat, id: string)
    requires l < n <= |turns| && FirstTalk(turns, n, id) == Some(l)
    ensures FirstTalk(turns, l, id).None?
  {
    if l < n - 1 {
      FirstTalkBefore(turns, l, n - 1, id);
    }
  }

  lemma NotKept(turns: seq<Turn>, i: nat)
    requires i < |turns|
    ensures !Fated(turns, i).Stays? ==> i !in KeptAt(turns, |turns|)
  {
    hide Fated;
    KeptInOrder(turns, |turns|);
  }

  /** A late conversation whose call is there, but holds another agent's by then: its own, or else the one of the first late
      conversation that named it. */
  predicate Refuses(turns: seq<Turn>, i: nat)
    requires i < |turns|
  {
    && IsLateTalk(turns[i]) && !FoldsAsResult(turns, i)
    && CallOf(turns, turns[i].side.value.parent).Some?
    && var held := Holding(turns, i, CallOf(turns, turns[i].side.value.parent).value);
       held.Some? && held.value.agent != turns[i].side.value.agent
  }

  /** Those are exactly the late conversations that stay where they are though their call is there. */
  lemma RefusedExactly(turns: seq<Turn>, i: nat)
    requires i < |turns|
    ensures Refuses(turns, i)
       <==> IsLateTalk(turns[i]) && CallOf(turns, turns[i].side.value.parent).Some? && Fated(turns, i).Stays?
  {
    hide Fated, CallOf;
    FateIsRead(turns, i);
  }

  // ---------------------------------------------------------------- a call's result

  /** The late results for `id` among the first `n` turns. */
  function Results(turns: seq<Turn>, n: nat, id: string): seq<Tool>
    requires n <= |turns|
  {
    if n == 0 then []
    else if IsPatch(turns[n - 1]) && turns[n - 1].tool.value.useId == id
    then Results(turns, n - 1, id) + [turns[n - 1].tool.value]
    else Results(turns, n - 1, id)
  }

  /** The last result is the one shown, and it reads as truncated if any did. */
  ghost predicate Shows(call: Tool, results: seq<Tool>, now: Tool) {
    && now.(output := call.output, outputCut := call.outputCut) == call
    && now.output == (if results == [] then call.output else results[|results| - 1].output)
    && (now.outputCut <==> call.outputCut || exists r <- results :: r.outputCut)
  }

  lemma ShowsNext(call: Tool, results: seq<Tool>, now: Tool, r: Tool)
    requires Shows(call, results, now)
    ensures Shows(call, results + [r], now.(output := r.output, outputCut := now.outputCut || r.outputCut))
  {
    assert forall x :: x in results + [r] <==> x in results || x == r;
    assert r in results + [r];
  }

  /** The call at `a` shows the results read so far that name it, if it is the one its id names. */
  ghost predicate ResultShown(turns: seq<Turn>, n: nat, a: nat)
    requires n <= |turns| && a < |turns| && IsCall(turns[a])
  {
    var call := turns[a].tool.value;
    Shows(call, if IsNamed(turns, a) then Results(turns, n, call.useId) else [], After(turns, n)[a].tool.value)
  }

  /** A call shows the late results that name it, whether they come before it or after it; a later call with the same id
      shows only its own. */
  lemma {:induction false} CallShowsResults(turns: seq<Turn>, n: nat, a: nat)
    requires n <= |turns| && a < |turns| && IsCall(turns[a])
    ensures ResultShown(turns, n, a)
  {
    hide *;
    if n == 0 {
      OwnResult(turns, a);
    } else {
      CallShowsResults(turns, n - 1, a);
      ResultMeets(turns, n - 1, a);
    }
  }

  lemma OwnResult(turns: seq<Turn>, a: nat)
    requires a < |turns| && IsCall(turns[a])
    ensures ResultShown(turns, 0, a)
  {
    hide CallOf;
  }

  lemma ResultMeets(turns: seq<Turn>, n: nat, a: nat)
    requires n < |turns| && a < |turns| && IsCall(turns[a]) && ResultShown(turns, n, a)
    ensures ResultShown(turns, n + 1, a)
  {
    hide FateOf, Shows;
    var now, id := After(turns, n), turns[a].tool.value.useId;
    assert SameCall(turns[n], now[n]);
    var fate := Fated(turns, n);
    if IsPatch(turns[n]) {
      OnlyCallsChange(turns, n, n);
      if CallOf(turns, id) == Some(a) && turns[n].tool.value.useId == id {
        ShowsNext(turns[a].tool.value, Results(turns, n, id), now[a].tool.value, turns[n].tool.value);
      }
    }
  }

  /** So folded, a call that stays shows its last late result, and is marked truncated if it or any of them was. */
  lemma FoldedCallShowsResults(turns: seq<Turn>, a: nat) returns (k: nat)
    requires a < |turns| && IsCall(turns[a]) && Read(turns, a).Stays?
    ensures k < |Folded(turns)| && Folded(turns)[k].tool.Some? && SameCall(turns[a], Folded(turns)[k])
    ensures var call := turns[a].tool.value;
      Shows(call, if IsNamed(turns, a) then Results(turns, |turns|, call.useId) else [], Folded(turns)[k].tool.value)
  {
    hide After, Fated, Read, Shows, Results, IsNamed;
    FateIsRead(turns, a);
    k := EndIsKept(turns, a);
    CallShowsResults(turns, |turns|, a);
  }

  // ---------------------------------------------------------------- a call's conversation

  /** The subagent turns a turn carries. */
  function Conversation(t: Turn): seq<Turn> {
    if t.side.Some? then t.side.value.turns else []
  }

  /** What the turn at `a` holds once the first `n` turns were read: its own conversation and those joined to it. */
  function Heard(turns: seq<Turn>, n: nat, a: nat): seq<Turn>
    requires n <= |turns| && a < |turns|
    decreases n, 1
  {
    Conversation(turns[a]) + JoinedTo(turns, n, a)
  }

  /** The conversations joined to the call at `a` by the first `n` turns, in order, each with what it held by then. */
  function JoinedTo(turns: seq<Turn>, n: nat, a: nat): seq<Turn>
    requires n <= |turns| && a < |turns|
    decreases n, 0
  {
    if n == 0 then []
    else if Read(turns, n - 1) == Joins(a) then JoinedTo(turns, n - 1, a) + Heard(turns, n - 1, n - 1)
    else JoinedTo(turns, n - 1, a)
  }

  /** Whether the turn at `a` holds what it heard. */
  ghost predicate HoldsHeard(turns: seq<Turn>, n: nat, a: nat)
    requires n <= |turns| && a < |turns|
  {
    Conversation(After(turns, n)[a]) == Heard(turns, n, a)
  }

  /** In any transcript, a call's conversation is its own, and after it each late one joined to it, in the order they came,
      with what had been joined to that one before. */
  lemma {:induction false} CallHearsInOrder(turns: seq<Turn>, n: nat, a: nat)
    requires n <= |turns| && a < |turns|
    ensures HoldsHeard(turns, n, a)
  {
    hide *;
    if n == 0 {
      HearsItsOwn(turns, a);
    } else {
      CallHearsInOrder(turns, n - 1, a);
      CallHearsInOrder(turns, n - 1, n - 1);
      FateIsRead(turns, n - 1);
      CallHearsNext(turns, n - 1, a);
    }
  }

  lemma HearsItsOwn(turns: seq<Turn>, a: nat)
    requires a < |turns|
    ensures HoldsHeard(turns, 0, a)
  {
  }

  lemma CallHearsNext(turns: seq<Turn>, n: nat, a: nat)
    requires n < |turns| && a < |turns| && Fated(turns, n) == Read(turns, n)
    requires HoldsHeard(turns, n, a) && HoldsHeard(turns, n, n)
    ensures HoldsHeard(turns, n + 1, a)
  {
    hide FateOf, SameCall, After, Fated, Read, Heard, Joined;
    TurnMet(turns, n, a);
    if Read(turns, n) == Joins(a) {
      JoinsWithTalk(turns, n);
      TalkJoined(After(turns, n)[a], After(turns, n)[n].side.value);
    }
    HeardMore(turns, n, a);
  }

  lemma HeardMore(turns: seq<Turn>, n: nat, a: nat)
    requires n < |turns| && a < |turns|
    ensures Heard(turns, n + 1, a)
         == if Read(turns, n) == Joins(a) then Heard(turns, n, a) + Heard(turns, n, n) else Heard(turns, n, a)
  {
    hide Read, Conversation;
  }

  lemma JoinsWithTalk(turns: seq<Turn>, n: nat)
    requires n < |turns| && Fated(turns, n).Joins?
    ensures After(turns, n)[n].side.Some?
  {
  }

  lemma TalkJoined(call: Turn, late: Side)
    ensures Conversation(Joined(call, late)) == Conversation(call) + late.turns
  {
  }

  /** So folded, a call that stays holds its own conversation and all that was joined to it, under its own title, agent and
      parent, or, having had none, the first late one's. */
  lemma FoldedCallHears(turns: seq<Turn>, a: nat) returns (k: nat)
    requires a < |turns| && Read(turns, a).Stays?
    ensures k < |Folded(turns)| && SameCall(turns[a], Folded(turns)[k])
    ensures Conversation(Folded(turns)[k]) == Heard(turns, |turns|, a)
    ensures Held(Folded(turns)[k]) == Holding(turns, |turns|, a)
  {
    hide After, Fated, Read;
    k := EndIsKept(turns, a);
    CallHearsInOrder(turns, |turns|, a);
    HeldRead(turns, |turns|, a);
  }

  /** Where calls are made on tool turns, nothing is joined to a conversation that joins. */
  lemma {:induction false} JoinedAsItCame(turns: seq<Turn>, n: nat, a: nat)
    requires CallsAreNotTalk(turns) && n <= |turns| && a < |turns| && Read(turns, a).Joins?
    ensures Heard(turns, n, a) == Conversation(turns[a])
  {
    hide *;
    if n == 0 {
      NoneJoinedYet(turns, a);
    } else {
      JoinedAsItCame(turns, n - 1, a);
      TalkJoinsNone(turns, n - 1, a);
      HeardMore(turns, n - 1, a);
    }
  }

  lemma NoneJoinedYet(turns: seq<Turn>, a: nat)
    requires a < |turns|
    ensures Heard(turns, 0, a) == Conversation(turns[a])
  {
  }

  /** What joins a call is no call itself, so nothing joins it. */
  lemma TalkJoinsNone(turns: seq<Turn>, n: nat, a: nat)
    requires CallsAreNotTalk(turns) && n < |turns| && a < |turns| && Read(turns, a).Joins?
    ensures Read(turns, n) != Joins(a)
  {
    hide Read;
    if Read(turns, n) == Joins(a) {
      FateIsRead(turns, a);
      CallStays(turns, a);
    }
  }
}
