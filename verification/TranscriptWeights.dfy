/**
 What folding conserves of any transcript: whatever a result does not change and a joined conversation adds is carried on
 by the turns kept, but for what was lost.
 */
module TranscriptWeights {
  import opened Prelude
  import opened TranscriptFold
  import opened TranscriptFates
  import opened TranscriptTheorems

  ghost function Sum<T>(weights: seq<multiset<T>>): multiset<T> {
    if weights == [] then multiset{} else weights[0] + Sum(weights[1..])
  }

  lemma Associates<T>(a: multiset<T>, b: multiset<T>, c: multiset<T>)
    ensures a + b + c == a + (b + c)
  {
  }

  lemma {:induction false} SumUpdated<T>(weights: seq<multiset<T>>, i: nat, w: multiset<T>)
    requires i < |weights|
    ensures Sum(weights[i := w]) + weights[i] == Sum(weights) + w
  {
    if i == 0 {
      assert weights[0 := w][1..] == weights[1..];
    } else {
      var rest := weights[1..];
      assert weights[i := w][1..] == rest[i - 1 := w];
      SumUpdated(rest, i - 1, w);
      Associates(weights[0], Sum(rest[i - 1 := w]), weights[i]);
      Associates(weights[0], Sum(rest), w);
    }
  }

  lemma {:induction false} SumAppended<T>(weights: seq<multiset<T>>, w: multiset<T>)
    ensures Sum(weights + [w]) == Sum(weights) + w
  {
    if weights == [] {
      assert weights + [w] == [w];
    } else {
      assert (weights + [w])[1..] == weights[1..] + [w];
      SumAppended(weights[1..], w);
    }
  }

  ghost function Weights<T>(w: Turn -> multiset<T>, turns: seq<Turn>): (weights: seq<multiset<T>>)
    ensures |weights| == |turns| && forall i | 0 <= i < |turns| :: weights[i] == w(turns[i])
  {
    seq(|turns|, i requires 0 <= i < |turns| => w(turns[i]))
  }

  /** Along the fold, `w` is a weight a result does not change and a joined conversation adds its own to. */
  ghost predicate Weighs<T>(w: Turn -> multiset<T>, turns: seq<Turn>) {
    forall n | 0 <= n < |turns| :: WeighsAt(w, turns, n)
  }

  ghost predicate WeighsAt<T>(w: Turn -> multiset<T>, turns: seq<Turn>, n: nat)
    requires n < |turns|
  {
    var now, fate := After(turns, n), Fated(turns, n);
    && (fate.Patches? ==> w(After(turns, n + 1)[fate.call]) == w(now[fate.call]))
    && (fate.Joins? ==> w(After(turns, n + 1)[fate.call]) == w(now[fate.call]) + w(now[n]))
  }

  /** Where what the turn at `n` holds goes when it is read: it stays, or goes onto a call not yet folded away. */
  ghost function Goes(turns: seq<Turn>, n: nat): (to: Option<nat>)
    requires n < |turns|
    ensures to.Some? ==> to.value < |turns|
  {
    match Fated(turns, n)
    case Stays => Some(n)
    case Patches(_) => None
    case Joins(a) => if n < a || Fated(turns, a).Stays? then Some(a) else None
  }

  /** What each turn holds once the first `n` were read, and what was shed by then. */
  ghost function Left<T>(w: Turn -> multiset<T>, turns: seq<Turn>, n: nat): (left: seq<multiset<T>>)
    requires n <= |turns|
    ensures |left| == |turns|
  {
    if n == 0 then Weights(w, turns) else Passed(Left(w, turns, n - 1), n - 1, Goes(turns, n - 1))
  }

  ghost function Passed<T>(left: seq<multiset<T>>, n: nat, to: Option<nat>): (passed: seq<multiset<T>>)
    requires n < |left| && (to.Some? ==> to.value < |left|)
    ensures |passed| == |left|
  {
    if to == Some(n) then left
    else if to.None? then left[n := multiset{}]
    else left[n := multiset{}][to.value := left[to.value] + left[n]]
  }

  ghost function Shed<T>(w: Turn -> multiset<T>, turns: seq<Turn>, n: nat): multiset<T>
    requires n <= |turns|
  {
    if n == 0 then multiset{}
    else if Goes(turns, n - 1).None? then Shed(w, turns, n - 1) + Left(w, turns, n - 1)[n - 1]
    else Shed(w, turns, n - 1)
  }

  // ---------------------------------------------------------------- nothing is made up

  lemma NextLeft<T>(w: Turn -> multiset<T>, turns: seq<Turn>, n: nat)
    requires n < |turns|
    ensures Left(w, turns, n + 1) == Passed(Left(w, turns, n), n, Goes(turns, n))
    ensures Shed(w, turns, n + 1)
         == if Goes(turns, n).None? then Shed(w, turns, n) + Left(w, turns, n)[n] else Shed(w, turns, n)
  {
    hide Goes, Passed, Weights;
  }

  lemma NoneLeft<T>(w: Turn -> multiset<T>, turns: seq<Turn>)
    ensures Left(w, turns, 0) == Weights(w, turns) && Shed(w, turns, 0) == multiset{}
  {
    hide Weights;
  }

  lemma Moved<T>(now: multiset<T>, gone: multiset<T>, was: multiset<T>, onto: multiset<T>, moved: multiset<T>)
    requires now + onto == gone + (onto + moved) && gone + moved == was + multiset{}
    ensures now == was
  {
    forall e ensures now[e] == was[e] {
      assert (now + onto)[e] == (gone + (onto + moved))[e] && (gone + moved)[e] == (was + multiset{})[e];
    }
  }

  lemma Shifted<T>(gone: multiset<T>, was: multiset<T>, shed: multiset<T>, moved: multiset<T>)
    requires gone + moved == was + multiset{}
    ensures gone + (shed + moved) == was + shed
  {
    forall e ensures (gone + (shed + moved))[e] == (was + shed)[e] {
      assert (gone + moved)[e] == (was + multiset{})[e];
    }
  }

  lemma {:induction false} LeftKept<T>(w: Turn -> multiset<T>, turns: seq<Turn>, n: nat)
    requires n <= |turns|
    ensures Sum(Left(w, turns, n)) + Shed(w, turns, n) == Sum(Weights(w, turns))
  {
    hide *;
    if n == 0 {
      NoneLeft(w, turns);
    } else {
      LeftKept(w, turns, n - 1);
      NextLeft(w, turns, n - 1);
      PassedKept(Left(w, turns, n - 1), Shed(w, turns, n - 1), n - 1, Goes(turns, n - 1));
    }
  }

  lemma PassedKept<T>(left: seq<multiset<T>>, shed: multiset<T>, n: nat, to: Option<nat>)
    requires n < |left| && (to.Some? ==> to.value < |left|)
    ensures Sum(Passed(left, n, to)) + (if to.None? then shed + left[n] else shed) == Sum(left) + shed
  {
    hide Sum;
    var gone := left[n := multiset{}];
    SumUpdated(left, n, multiset{});
    if to.None? {
      Shifted(Sum(gone), Sum(left), shed, left[n]);
    } else if to.value != n {
      SumUpdated(gone, to.value, left[to.value] + left[n]);
      Moved(Sum(Passed(left, n, to)), Sum(gone), Sum(left), left[to.value], left[n]);
    }
  }

  /** What is left of the turn at `i` is what it weighs now, or nothing once it went elsewhere. */
  ghost predicate LeftRight<T>(w: Turn -> multiset<T>, turns: seq<Turn>, n: nat, i: nat)
    requires n <= |turns| && i < |turns|
  {
    Left(w, turns, n)[i] == if n <= i || Fated(turns, i).Stays? then w(After(turns, n)[i]) else multiset{}
  }

  lemma {:induction false} LeftWeighs<T>(w: Turn -> multiset<T>, turns: seq<Turn>, n: nat, i: nat)
    requires Weighs(w, turns) && n <= |turns| && i < |turns|
    ensures LeftRight(w, turns, n, i)
  {
    hide *;
    if n == 0 {
      LeftStarts(w, turns, i);
    } else {
      LeftWeighs(w, turns, n - 1, i);
      LeftWeighs(w, turns, n - 1, n - 1);
      LeftMet(w, turns, n - 1, i);
    }
  }

  lemma LeftStarts<T>(w: Turn -> multiset<T>, turns: seq<Turn>, i: nat)
    requires i < |turns|
    ensures LeftRight(w, turns, 0, i)
  {
    hide Left, Shed, Fated;
    NoneLeft(w, turns);
  }

  lemma LeftMet<T>(w: Turn -> multiset<T>, turns: seq<Turn>, n: nat, i: nat)
    requires Weighs(w, turns) && n < |turns| && i < |turns|
    requires LeftRight(w, turns, n, i) && LeftRight(w, turns, n, n)
    ensures LeftRight(w, turns, n + 1, i)
  {
    hide Left, After, SameCall, Fated, Patched, Joined;
    NextLeft(w, turns, n);
    TurnMet(turns, n, i);
    assert WeighsAt(w, turns, n);
  }

  lemma {:induction false} LeftPicked<T>(w: Turn -> multiset<T>, turns: seq<Turn>, n: nat)
    requires Weighs(w, turns) && n <= |turns|
    ensures AllBelow(KeptAt(turns, n), n)
    ensures Sum(Left(w, turns, |turns|)[..n]) == Sum(Weights(w, Pick(After(turns, |turns|), KeptAt(turns, n))))
  {
    hide *;
    KeptInOrder(turns, n);
    if n == 0 {
      PickedNone(w, turns);
    } else {
      KeptInOrder(turns, n - 1);
      LeftPicked(w, turns, n - 1);
      LeftWeighs(w, turns, |turns|, n - 1);
      PickedMore(w, turns, Left(w, turns, |turns|), n - 1);
    }
  }

  lemma PickedNone<T>(w: Turn -> multiset<T>, turns: seq<Turn>)
    ensures Sum(Left(w, turns, |turns|)[..0]) == Sum(Weights(w, Pick(After(turns, |turns|), KeptAt(turns, 0))))
  {
    hide After, Left, Sum;
    assert Left(w, turns, |turns|)[..0] == [];
    assert Weights(w, Pick(After(turns, |turns|), KeptAt(turns, 0))) == [];
  }

  lemma PickedMore<T>(w: Turn -> multiset<T>, turns: seq<Turn>, left: seq<multiset<T>>, n: nat)
    requires n < |turns| == |left| && LeftRight(w, turns, |turns|, n) && left == Left(w, turns, |turns|)
    requires AllBelow(KeptAt(turns, n), n) && AllBelow(KeptAt(turns, n + 1), n + 1)
    requires Sum(left[..n]) == Sum(Weights(w, Pick(After(turns, |turns|), KeptAt(turns, n))))
    ensures Sum(left[..n + 1]) == Sum(Weights(w, Pick(After(turns, |turns|), KeptAt(turns, n + 1))))
  {
    hide FateOf, Fated, Sum, After, Left, SameCall;
    var now := After(turns, |turns|);
    assert left[..n + 1] == left[..n] + [left[n]];
    SumAppended(left[..n], left[n]);
    if Fated(turns, n).Stays? {
      var before := Weights(w, Pick(now, KeptAt(turns, n)));
      assert Weights(w, Pick(now, KeptAt(turns, n + 1))) == before + [left[n]];
      SumAppended(before, left[n]);
    } else {
      assert Sum(left[..n]) + multiset{} == Sum(left[..n]);
    }
  }

  // ---------------------------------------------------------------- where each turn's own weight comes to be

  /** Where what the turn at `i` carries besides a result comes to be, if it is not lost. */
  function Carried(turns: seq<Turn>, i: nat): Option<nat>
    requires i < |turns|
  {
    if FoldsAsResult(turns, i) then None else End(turns, i)
  }

  /** Where each turn's own weight is once the first `n` were read. */
  ghost function At(turns: seq<Turn>, n: nat): (at: seq<Option<nat>>)
    requires n <= |turns|
    ensures |at| == |turns|
  {
    if n == 0 then seq(|turns|, i => Some(i)) else Redirected(At(turns, n - 1), n - 1, Goes(turns, n - 1))
  }

  ghost function Redirected(at: seq<Option<nat>>, n: nat, to: Option<nat>): (redirected: seq<Option<nat>>)
    ensures |redirected| == |at|
    ensures forall i | 0 <= i < |at| :: redirected[i] == if at[i] == Some(n) then to else at[i]
  {
    seq(|at|, i requires 0 <= i < |at| => if at[i] == Some(n) then to else at[i])
  }

  /** Where it is now leads to where it comes to be. */
  ghost predicate OnItsWay(turns: seq<Turn>, n: nat, i: nat, at: Option<nat>)
    requires i < |turns|
  {
    match at
    case None => Carried(turns, i).None?
    case Some(x) => x < |turns| && Carried(turns, i) == if x < n then Some(x) else Carried(turns, x)
  }

  lemma {:induction false} AllOnTheirWay(turns: seq<Turn>, n: nat, i: nat)
    requires n <= |turns| && i < |turns|
    ensures OnItsWay(turns, n, i, At(turns, n)[i])
  {
    hide Carried, Goes;
    if n > 0 {
      AllOnTheirWay(turns, n - 1, i);
      NextOnTheirWay(turns, n - 1, i, At(turns, n - 1)[i]);
    }
  }

  lemma NextOnTheirWay(turns: seq<Turn>, n: nat, i: nat, at: Option<nat>)
    requires n < |turns| && i < |turns| && OnItsWay(turns, n, i, at)
    ensures OnItsWay(turns, n + 1, i, if at == Some(n) then Goes(turns, n) else at)
  {
    hide Fated, Read;
    FateIsRead(turns, n);
    ReadResult(turns, n);
    if at == Some(n) && Read(turns, n).Joins? {
      var a := Read(turns, n).call;
      FateIsRead(turns, a);
      ReadResult(turns, a);
      CallIsNoResult(turns, a);
    }
  }

  lemma CallIsNoResult(turns: seq<Turn>, a: nat)
    requires a < |turns| && IsCall(turns[a])
    ensures !Read(turns, a).Patches?
  {
  }

  /** The weights of the turns among the first `m` that are at `x`. */
  ghost function SumAt<T>(weights: seq<multiset<T>>, at: seq<Option<nat>>, x: Option<nat>, m: nat): multiset<T>
    requires m <= |at| == |weights|
  {
    if m == 0 then multiset{}
    else if at[m - 1] == x then SumAt(weights, at, x, m - 1) + weights[m - 1]
    else SumAt(weights, at, x, m - 1)
  }

  lemma {:induction false} SumAtStart<T>(weights: seq<multiset<T>>, x: Option<nat>, m: nat)
    requires m <= |weights|
    ensures SumAt(weights, seq(|weights|, i => Some(i)), x, m)
         == if x.Some? && x.value < m then weights[x.value] else multiset{}
  {
    if m > 0 {
      SumAtStart(weights, x, m - 1);
    }
  }

  lemma {:induction false} SumRedirected<T>(weights: seq<multiset<T>>, at: seq<Option<nat>>, n: nat, to: Option<nat>,
                                            x: Option<nat>, m: nat)
    requires m <= |at| == |weights| && to != Some(n)
    ensures SumAt(weights, Redirected(at, n, to), x, m)
         == if x == to then SumAt(weights, at, to, m) + SumAt(weights, at, Some(n), m)
            else if x == Some(n) then multiset{}
            else SumAt(weights, at, x, m)
  {
    if m > 0 {
      SumRedirected(weights, at, n, to, x, m - 1);
    }
  }

  ghost predicate FromOrigins<T>(w: Turn -> multiset<T>, turns: seq<Turn>, n: nat)
    requires n <= |turns|
  {
    && Shed(w, turns, n) == SumAt(Weights(w, turns), At(turns, n), None, |turns|)
    && forall x | 0 <= x < |turns| :: Left(w, turns, n)[x] == SumAt(Weights(w, turns), At(turns, n), Some(x), |turns|)
  }

  /** What a turn holds is what the turns that are there carried of their own, and what was shed is what the lost did. */
  lemma {:induction false} AllFromOrigins<T>(w: Turn -> multiset<T>, turns: seq<Turn>, n: nat)
    requires n <= |turns|
    ensures FromOrigins(w, turns, n)
  {
    hide *;
    if n == 0 {
      FirstFromOrigins(w, turns);
    } else {
      AllFromOrigins(w, turns, n - 1);
      NextFromOrigins(w, turns, n - 1);
    }
  }

  lemma FirstFromOrigins<T>(w: Turn -> multiset<T>, turns: seq<Turn>)
    ensures FromOrigins(w, turns, 0)
  {
    hide SumAt, Left, Shed, Weights;
    NoneLeft(w, turns);
    SumAtStart(Weights(w, turns), None, |turns|);
    forall x | 0 <= x < |turns|
      ensures Left(w, turns, 0)[x] == SumAt(Weights(w, turns), At(turns, 0), Some(x), |turns|)
    {
      SumAtStart(Weights(w, turns), Some(x), |turns|);
    }
  }

  lemma NextFromOrigins<T>(w: Turn -> multiset<T>, turns: seq<Turn>, n: nat)
    requires n < |turns| && FromOrigins(w, turns, n)
    ensures FromOrigins(w, turns, n + 1)
  {
    hide SumAt, Left, Shed, Weights, Goes, Redirected;
    var ws, at, to := Weights(w, turns), At(turns, n), Goes(turns, n);
    NextLeft(w, turns, n);
    assert At(turns, n + 1) == Redirected(at, n, to);
    if to == Some(n) {
      assert Redirected(at, n, to) == at;
    } else {
      SumRedirected(ws, at, n, to, None, |turns|);
      forall x | 0 <= x < |turns| ensures Left(w, turns, n + 1)[x] == SumAt(ws, At(turns, n + 1), Some(x), |turns|) {
        SumRedirected(ws, at, n, to, Some(x), |turns|);
      }
    }
  }

  ghost function Carries(turns: seq<Turn>): (at: seq<Option<nat>>)
    ensures |at| == |turns| && forall i | 0 <= i < |turns| :: at[i] == Carried(turns, i)
  {
    seq(|turns|, i requires 0 <= i < |turns| => Carried(turns, i))
  }

  /** Whatever folding weighs the same is conserved, but for what the lost carried: of the turns that went onto a call as
      results, and of those that went onto a call folded away. */
  lemma WeightConserved<T>(w: Turn -> multiset<T>, turns: seq<Turn>)
    requires Weighs(w, turns)
    ensures Sum(Weights(w, Folded(turns))) + SumAt(Weights(w, turns), Carries(turns), None, |turns|)
         == Sum(Weights(w, turns))
  {
    hide Sum, Shed, SumAt, Left, Weights, Carried, At, Fated, Weighs;
    LeftKept(w, turns, |turns|);
    LeftPicked(w, turns, |turns|);
    assert Left(w, turns, |turns|)[..|turns|] == Left(w, turns, |turns|);
    AllFromOrigins(w, turns, |turns|);
    forall i | 0 <= i < |turns| ensures At(turns, |turns|)[i] == Carried(turns, i) {
      AllOnTheirWay(turns, |turns|, i);
    }
    assert At(turns, |turns|) == Carries(turns);
  }

  lemma {:induction false} SumAtNothing<T>(weights: seq<multiset<T>>, at: seq<Option<nat>>, x: Option<nat>, m: nat)
    requires m <= |at| == |weights|
    ensures SumAt(weights, at, x, m) == multiset{} <==> forall i | 0 <= i < m && at[i] == x :: weights[i] == multiset{}
  {
    if m > 0 {
      SumAtNothing(weights, at, x, m - 1);
      assert |SumAt(weights, at, x, m - 1) + weights[m - 1]| == |SumAt(weights, at, x, m - 1)| + |weights[m - 1]|;
    }
  }

  lemma Nothing<T>(a: multiset<T>, b: multiset<T>, c: multiset<T>)
    requires a + b == c
    ensures a == c <==> b == multiset{}
  {
    assert |a + b| == |a| + |b|;
  }

  /** A weight is conserved exactly when the lost carried none of it. */
  lemma ConservedExactly<T>(w: Turn -> multiset<T>, turns: seq<Turn>)
    requires Weighs(w, turns)
    ensures Sum(Weights(w, Folded(turns))) == Sum(Weights(w, turns))
       <==> forall i | 0 <= i < |turns| && Carried(turns, i).None? :: w(turns[i]) == multiset{}
  {
    hide Sum, SumAt, Carried, Weighs, Folded;
    WeightConserved(w, turns);
    SumAtNothing(Weights(w, turns), Carries(turns), None, |turns|);
    Nothing(Sum(Weights(w, Folded(turns))), SumAt(Weights(w, turns), Carries(turns), None, |turns|),
            Sum(Weights(w, turns)));
  }

  // ---------------------------------------------------------------- the subagents' turns

  ghost function Talk(t: Turn): multiset<Turn> {
    multiset(Conversation(t))
  }

  lemma TalkWeighs(turns: seq<Turn>)
    ensures Weighs(Talk, turns)
  {
    hide After, SameCall;
    forall n | 0 <= n < |turns| ensures WeighsAt(Talk, turns, n) {
      var now, fate := After(turns, n), Fated(turns, n);
      if !fate.Stays? {
        TurnMet(turns, n, fate.call);
      }
      if fate.Joins? {
        assert Conversation(Joined(now[fate.call], now[n].side.value))
            == Conversation(now[fate.call]) + Conversation(now[n]);
      }
    }
  }

  /** Of any transcript, every subagent turn is carried on by a turn kept, as often as it was — exactly when no turn that
      carries a conversation is lost, or goes onto a call as a result. */
  lemma TalkConserved(turns: seq<Turn>)
    ensures Sum(Weights(Talk, Folded(turns))) == Sum(Weights(Talk, turns))
       <==> forall i | 0 <= i < |turns| && Conversation(turns[i]) != [] ::
              !FoldsAsResult(turns, i) && End(turns, i).Some?
  {
    hide Sum, Weights, End, FoldsAsResult, Folded;
    TalkWeighs(turns);
    ConservedExactly(Talk, turns);
    forall i | 0 <= i < |turns|
      ensures Carried(turns, i).None? <==> FoldsAsResult(turns, i) || End(turns, i).None?
      ensures Talk(turns[i]) == multiset{} <==> Conversation(turns[i]) == []
    {
      assert Conversation(turns[i]) != [] ==> Conversation(turns[i])[0] in Talk(turns[i]);
    }
  }

  /** Where calls are made on tool turns: exactly when no late result that names a call carries a conversation. */
  lemma TalkConservedOnToolTurns(turns: seq<Turn>)
    requires CallsAreNotTalk(turns)
    ensures Sum(Weights(Talk, Folded(turns))) == Sum(Weights(Talk, turns))
       <==> forall i | 0 <= i < |turns| && FoldsAsResult(turns, i) :: Conversation(turns[i]) == []
  {
    hide Sum, Weights, End, Fated, FoldsAsResult, Folded, CallsAreNotTalk;
    TalkConserved(turns);
    forall i | 0 <= i < |turns| ensures End(turns, i).Some? {
      NothingIsDroppedOnToolTurns(turns, i);
    }
  }
}
