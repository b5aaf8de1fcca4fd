/** Folding a folded transcript changes nothing, and refuses the late conversations the first fold refused. */
module TranscriptAgain {
  import opened Prelude
  import opened TranscriptFold
  import opened TranscriptFates
  import opened TranscriptTheorems

  // ---------------------------------------------------------------- the calls of a folded transcript

  lemma FoldedAt(turns: seq<Turn>, k: nat) returns (i: nat)
    requires k < |Folded(turns)|
    ensures k < |KeptAt(turns, |turns|)| && i == KeptAt(turns, |turns|)[k] < |turns| && Fated(turns, i).Stays?
    ensures Folded(turns)[k] == After(turns, |turns|)[i] && SameCall(turns[i], Folded(turns)[k])
    ensures !IsCall(turns[i]) ==> Folded(turns)[k] == turns[i]
  {
    hide FateOf, Fated, SameCall;
    KeptInOrder(turns, |turns|);
    i := KeptAt(turns, |turns|)[k];
    if !IsCall(turns[i]) {
      OnlyCallsChange(turns, |turns|, i);
    }
  }

  lemma SameId(was: Turn, now: Turn, id: string)
    requires SameCall(was, now)
    ensures IsCallOf(was, id) <==> IsCallOf(now, id)
    ensures IsPatch(was) <==> IsPatch(now)
    ensures was.kind == now.kind
  {
  }

  /** The folded transcript has the same calls, holding what they hold once folded. */
  lemma SameCalls(turns: seq<Turn>, id: string)
    requires CallsAreNotTalk(turns)
    ensures CallOf(Folded(turns), id).Some? <==> CallOf(turns, id).Some?
    ensures CallOf(turns, id).Some? ==>
              Folded(turns)[CallOf(Folded(turns), id).value] == After(turns, |turns|)[CallOf(turns, id).value]
  {
    hide FateOf, Fated, SameCall, CallsAreNotTalk, After, Folded, CallWithin;
    var f := Folded(turns);
    if CallOf(f, id).Some? {
      var i := FoldedAt(turns, CallOf(f, id).value);
      SameId(turns[i], f[CallOf(f, id).value], id);
      CallIsFirst(turns, |turns|, i);
    }
    if CallOf(turns, id).Some? {
      var a := CallOf(turns, id).value;
      CallStays(turns, a);
      FateIsRead(turns, a);
      assert End(turns, a) == Some(a);
      var k := EndIsKept(turns, a);
      SameId(turns[a], f[k], id);
      CallIsFirst(f, |f|, k);
      var i := FoldedAt(turns, k);
      FirstIsFirst(turns, id, k);
    }
  }

  lemma FirstIsFirst(turns: seq<Turn>, id: string, k: nat)
    requires CallOf(turns, id).Some? && CallOf(Folded(turns), id).Some?
    requires CallOf(Folded(turns), id).value <= k < |KeptAt(turns, |turns|)|
    requires KeptAt(turns, |turns|)[k] == CallOf(turns, id).value
    ensures CallOf(Folded(turns), id).value == k
  {
    hide FateOf, Fated, SameCall, After, Folded, CallWithin;
    var j := CallOf(Folded(turns), id).value;
    var i := FoldedAt(turns, j);
    SameId(turns[i], Folded(turns)[j], id);
    CallIsFirst(turns, |turns|, i);
    KeptInOrder(turns, |turns|);
  }

  // ---------------------------------------------------------------- nothing more folds

  /** Once a call holds an agent's conversation, it holds that agent's. */
  lemma {:induction false} AgentStays(turns: seq<Turn>, n: nat, m: nat, a: nat)
    requires n <= m <= |turns| && a < |turns| && After(turns, n)[a].side.Some?
    ensures After(turns, m)[a].side.Some?
    ensures After(turns, m)[a].side.value.agent == After(turns, n)[a].side.value.agent
    decreases m
  {
    hide *;
    if n < m {
      AgentStays(turns, n, m - 1, a);
      AgentStaysOn(turns, m - 1, a);
    }
  }

  lemma AgentStaysOn(turns: seq<Turn>, n: nat, a: nat)
    requires n < |turns| && a < |turns| && After(turns, n)[a].side.Some?
    ensures After(turns, n + 1)[a].side.Some?
    ensures After(turns, n + 1)[a].side.value.agent == After(turns, n)[a].side.value.agent
  {
    hide FateOf, Fated, SameCall, After, Met;
    TurnMet(turns, n, a);
  }

  /** A turn the first fold kept stays where it is in a second, `now` being the folded turns. */
  lemma StaysAgain(turns: seq<Turn>, k: nat)
    requires CallsAreNotTalk(turns) && k < |Folded(turns)|
    ensures FateOf(Folded(turns), Folded(turns), k).Stays?
  {
    hide After, Folded, SameCall, CallOf, Fated;
    var f := Folded(turns);
    var i := FoldedAt(turns, k);
    if IsCall(turns[i]) {
      CallIsNeither(turns, i, f[k]);
    } else {
      KeptFor(turns, i);
      OnlyCallsChange(turns, i, i);
      if IsPatch(turns[i]) {
        SameCalls(turns, turns[i].tool.value.useId);
      }
      if IsLateTalk(turns[i]) {
        var id := turns[i].side.value.parent;
        SameCalls(turns, id);
        if CallOf(turns, id).Some? {
          AgentStays(turns, i, |turns|, CallOf(turns, id).value);
        }
      }
    }
  }

  lemma CallIsNeither(turns: seq<Turn>, i: nat, now: Turn)
    requires CallsAreNotTalk(turns) && i < |turns| && IsCall(turns[i]) && SameCall(turns[i], now)
    ensures !IsPatch(now) && !IsLateTalk(now)
  {
  }

  /** Why a turn that is no call stays: its call is not there, or holds another agent's conversation. */
  lemma KeptFor(turns: seq<Turn>, i: nat)
    requires i < |turns| && Fated(turns, i).Stays? && !IsCall(turns[i])
    ensures IsPatch(turns[i]) ==> CallOf(turns, turns[i].tool.value.useId).None?
    ensures IsLateTalk(turns[i]) && CallOf(turns, turns[i].side.value.parent).Some? ==>
              var held := After(turns, i)[CallOf(turns, turns[i].side.value.parent).value].side;
              held.Some? && held.value.agent != turns[i].side.value.agent
  {
    OnlyCallsChange(turns, i, i);
  }

  lemma {:induction false} NoMoreChange(f: seq<Turn>, n: nat)
    requires n <= |f| && forall k | 0 <= k < |f| :: FateOf(f, f, k).Stays?
    ensures After(f, n) == f && AllBelow(KeptAt(f, n), |f|) && |KeptAt(f, n)| == n
    ensures forall k | 0 <= k < n :: KeptAt(f, n)[k] == k
  {
    hide FateOf, SameCall;
    if n > 0 {
      NoMoreChange(f, n - 1);
      assert Fated(f, n - 1) == FateOf(f, f, n - 1);
    }
  }

  /** Folding is idempotent, and refuses again exactly what it refused. */
  lemma FoldingAgain(turns: seq<Turn>)
    requires CallsAreNotTalk(turns)
    ensures Folded(Folded(turns)) == Folded(turns)
    ensures |KeptAt(turns, |turns|)| == |Folded(turns)| && AllBelow(KeptAt(turns, |turns|), |turns|)
    ensures forall k | 0 <= k < |Folded(turns)| ::
              Refuses(Folded(turns), k) <==> Refuses(turns, KeptAt(turns, |turns|)[k])
  {
    hide FateOf, SameCall, After, CallOf, CallsAreNotTalk, Folded, Refuses, Fated;
    var f := Folded(turns);
    forall k | 0 <= k < |f| ensures FateOf(f, f, k).Stays? {
      StaysAgain(turns, k);
    }
    NoMoreChange(f, |f|);
    FoldedAll(f);
    KeptInOrder(turns, |turns|);
    forall k | 0 <= k < |f| ensures Refuses(f, k) <==> Refuses(turns, KeptAt(turns, |turns|)[k]) {
      NoMoreChange(f, k);
      RefusedAgain(turns, k);
    }
  }

  lemma FoldedAll(f: seq<Turn>)
    requires After(f, |f|) == f && |KeptAt(f, |f|)| == |f|
    requires forall k | 0 <= k < |f| :: KeptAt(f, |f|)[k] == k
    ensures Folded(f) == f
  {
    hide After, KeptAt, Fated, FateOf, SameCall;
  }

  lemma RefusedAgain(turns: seq<Turn>, k: nat)
    requires CallsAreNotTalk(turns) && k < |Folded(turns)| && k < |KeptAt(turns, |turns|)|
    requires KeptAt(turns, |turns|)[k] < |turns|
    requires After(Folded(turns), k) == Folded(turns)
    ensures Refuses(Folded(turns), k) <==> Refuses(turns, KeptAt(turns, |turns|)[k])
  {
    hide FateOf, SameCall, After, CallOf, Folded, Refuses;
    var f := Folded(turns);
    StaysAgain(turns, k);
    var i := FoldedAt(turns, k);
    RefusedExactly(f, k);
    RefusedExactly(turns, i);
    if IsCall(turns[i]) {
      CallIsNeither(turns, i, f[k]);
    } else if IsLateTalk(turns[i]) {
      SameCalls(turns, turns[i].side.value.parent);
    }
  }

  /** It takes calls made on tool turns: a sidechain call without a conversation is kept with one that comes late, and
      then names itself, so that a second fold loses both. */
  lemma LostOnlyAgain(c: Turn, l: Turn)
    requires IsCall(c) && c.kind.Sidechain? && c.side.None?
    requires IsLateTalk(l) && l.tool.None? && l.side.value.parent == c.tool.value.useId
    ensures Folded([c, l]) == [Joined(c, l.side.value)] && Folded(Folded([c, l])) == []
  {
    var turns, call := [c, l], Joined(c, l.side.value);
    assert CallWithin(turns, 1, c.tool.value.useId) == Some(0);
    assert Fated(turns, 0) == Stays && Fated(turns, 1) == Joins(0);
    assert After(turns, 1) == turns && After(turns, 2) == [call, l];
    assert KeptAt(turns, 1) == [0] && KeptAt(turns, 2) == [0];
    assert CallWithin([call], 1, call.tool.value.useId) == Some(0);
    CallNamingItselfIsLost([call], 0);
    assert KeptAt([call], 1) == [];
  }

  // ---------------------------------------------------------------- exactly when nothing more folds

  /** The first of the calls with this id among the first `n` turns that stays. */
  function KeptCall(turns: seq<Turn>, n: nat, id: string): (at: Option<nat>)
    requires n <= |turns|
    ensures at.Some? ==> at.value < n
  {
    if n == 0 then None
    else if KeptCall(turns, n - 1, id).Some? then KeptCall(turns, n - 1, id)
    else if IsCallOf(turns[n - 1], id) && Read(turns, n - 1).Stays? then Some(n - 1)
    else None
  }

  /** The turn at `i` is kept, but a second fold folds it: its conversation, its own or the one it took, names a call kept
      that in the end holds none, or the same agent's. */
  predicate FoldsAgain(turns: seq<Turn>, i: nat) {
    && i < |turns| && Read(turns, i).Stays? && turns[i].kind.Sidechain? && Holding(turns, |turns|, i).Some?
    && var late := Holding(turns, |turns|, i).value;
    && late.parent != "" && KeptCall(turns, |turns|, late.parent).Some?
    && var held := Holding(turns, |turns|, KeptCall(turns, |turns|, late.parent).value);
       held.None? || held.value.agent == late.agent
  }

  lemma {:induction false} KeptPrefix(turns: seq<Turn>, n: nat, m: nat)
    requires n <= m <= |turns|
    ensures |KeptAt(turns, n)| <= |KeptAt(turns, m)| && KeptAt(turns, m)[..|KeptAt(turns, n)|] == KeptAt(turns, n)
    decreases m
  {
    hide Fated;
    if n < m {
      KeptPrefix(turns, n, m - 1);
    }
  }

  /** Among the first `n` turns, the first call kept is the first call of those kept. */
  ghost predicate CallsAlike(turns: seq<Turn>, n: nat, id: string)
    requires n <= |turns|
  {
    && |KeptAt(turns, n)| <= |Folded(turns)|
    && var call := CallWithin(Folded(turns), |KeptAt(turns, n)|, id);
       KeptCall(turns, n, id) == if call.None? then None else Some(KeptAt(turns, |turns|)[call.value])
  }

  /** The calls of a folded transcript are the calls kept. */
  lemma {:induction false} CallsKept(turns: seq<Turn>, n: nat, id: string)
    requires n <= |turns|
    ensures CallsAlike(turns, n, id)
  {
    hide *;
    if n == 0 {
      NoCallYet(turns, id);
    } else {
      CallsKept(turns, n - 1, id);
      FateIsRead(turns, n - 1);
      CallMet(turns, n - 1, id);
    }
  }

  lemma NoCallYet(turns: seq<Turn>, id: string)
    ensures CallsAlike(turns, 0, id)
  {
  }

  lemma CallMet(turns: seq<Turn>, n: nat, id: string)
    requires n < |turns| && CallsAlike(turns, n, id) && Fated(turns, n) == Read(turns, n)
    ensures CallsAlike(turns, n + 1, id)
  {
    hide Folded, Fated, Read, IsCallOf, FateOf;
    if Fated(turns, n).Stays? {
      KeptPrefix(turns, n + 1, |turns|);
      KeptThere(turns, n, id);
    }
  }

  lemma KeptThere(turns: seq<Turn>, n: nat, id: string)
    requires n < |turns| && Fated(turns, n).Stays?
    ensures var k := |KeptAt(turns, n)|;
      && KeptAt(turns, n + 1) == KeptAt(turns, n) + [n]
      && k < |Folded(turns)| == |KeptAt(turns, |turns|)| && KeptAt(turns, |turns|)[k] == n
      && (IsCallOf(Folded(turns)[k], id) <==> IsCallOf(turns[n], id))
  {
    hide Folded, Fated, Read, IsCallOf, FateOf, SameCall;
    KeptPrefix(turns, n + 1, |turns|);
    var k := |KeptAt(turns, n)|;
    assert KeptAt(turns, n + 1)[k] == n;
    var i := FoldedAt(turns, k);
    SameId(turns[n], Folded(turns)[k], id);
  }

  /** A kept turn's fate in a second fold, `now` being the folded turns. */
  lemma FateAgain(turns: seq<Turn>, k: nat)
    requires k < |Folded(turns)|
    ensures k < |KeptAt(turns, |turns|)|
    ensures FateOf(Folded(turns), Folded(turns), k).Stays? <==> !FoldsAgain(turns, KeptAt(turns, |turns|)[k])
  {
    hide After, Folded, CallWithin, Fated, Holding, KeptAt, Read;
    var f, n := Folded(turns), |turns|;
    var i := FoldedAt(turns, k);
    FateIsRead(turns, i);
    HeldRead(turns, n, i);
    if IsPatch(f[k]) {
      NoCallKept(turns, i, f[k].tool.value.useId);
    }
    if IsLateTalk(f[k]) {
      var id := f[k].side.value.parent;
      CallsKept(turns, n, id);
      if CallOf(f, id).Some? {
        var a := FoldedAt(turns, CallOf(f, id).value);
        HeldRead(turns, n, a);
      }
    }
  }

  lemma NoCallKept(turns: seq<Turn>, i: nat, id: string)
    requires i < |turns| && Read(turns, i).Stays? && IsPatch(turns[i]) && turns[i].tool.value.useId == id
    ensures CallOf(Folded(turns), id).None?
  {
    hide Folded, Fated;
    CallsKept(turns, |turns|, id);
    if CallOf(Folded(turns), id).Some? {
      var k := CallOf(Folded(turns), id).value;
      var a := FoldedAt(turns, k);
      SameId(turns[a], Folded(turns)[k], id);
      CallIsFirst(turns, |turns|, a);
    }
  }

  /** Once a turn folds, fewer turns are kept than were there. */
  lemma {:induction false} FewerKept(f: seq<Turn>, n: nat, k: nat)
    requires k < n <= |f| && !Fated(f, k).Stays?
    ensures |KeptAt(f, n)| < n
  {
    hide Fated;
    KeptCount(f, k);
    if k < n - 1 {
      FewerKept(f, n - 1, k);
    }
  }

  lemma {:induction false} KeptCount(f: seq<Turn>, n: nat)
    requires n <= |f|
    ensures |KeptAt(f, n)| <= n
  {
    hide Fated;
    if n > 0 {
      KeptCount(f, n - 1);
    }
  }

  /** The first turn to fold again, if any, meets the folded turns as they are. */
  lemma {:induction false} FirstToFold(f: seq<Turn>, n: nat) returns (k: Option<nat>)
    requires n <= |f|
    ensures k.None? ==> After(f, n) == f && forall j | 0 <= j < n :: FateOf(f, f, j).Stays?
    ensures k.Some? ==> k.value < n && !FateOf(f, f, k.value).Stays? && !Fated(f, k.value).Stays?
  {
    hide FateOf, SameCall;
    if n == 0 {
      k := None;
    } else {
      k := FirstToFold(f, n - 1);
      if k.None? && !FateOf(f, f, n - 1).Stays? {
        k := Some(n - 1);
      }
    }
  }

  /** Of any transcript, folding twice is folding once exactly when no turn that is kept folds again. */
  lemma FoldingAgainExactly(turns: seq<Turn>)
    ensures Folded(Folded(turns)) == Folded(turns) <==> !exists i: nat :: FoldsAgain(turns, i)
  {
    hide FateOf, SameCall, After, CallOf, Folded, FoldsAgain, Fated, KeptAt;
    var f := Folded(turns);
    var k := FirstToFold(f, |f|);
    if k.Some? {
      FateAgain(turns, k.value);
      FewerKept(f, |f|, k.value);
    } else {
      NoMoreChange(f, |f|);
      FoldedAll(f);
      if i: nat :| FoldsAgain(turns, i) {
        var j := KeptPlace(turns, i);
        FateAgain(turns, j);
      }
    }
  }

  lemma KeptPlace(turns: seq<Turn>, i: nat) returns (k: nat)
    requires FoldsAgain(turns, i)
    ensures k < |Folded(turns)| == |KeptAt(turns, |turns|)| && KeptAt(turns, |turns|)[k] == i
  {
    hide Fated, Folded;
    FateIsRead(turns, i);
    KeptInOrder(turns, |turns|);
    k :| 0 <= k < |KeptAt(turns, |turns|)| && KeptAt(turns, |turns|)[k] == i;
  }
}
