/**
 What becomes of each turn of any transcript, read off the turns as they came: their kinds, ids, parents and agents. The
 fold decides it one turn at a time on turns it has rewritten so far; here it is known beforehand.
 */
module TranscriptFates {
  import opened Prelude
  import opened TranscriptFold

  /** A late result whose call is there. */
  predicate FoldsAsResult(turns: seq<Turn>, i: nat)
    requires i < |turns|
  {
    turns[i].tool.Some? && turns[i].tool.value.patch && CallOf(turns, turns[i].tool.value.useId).Some?
  }

  /** A conversation that came late and names the call `id`. */
  predicate Talks(turns: seq<Turn>, i: nat, id: string)
    requires i < |turns|
  {
    IsLateTalk(turns[i]) && turns[i].side.value.parent == id && !FoldsAsResult(turns, i)
  }

  /** The first of them among the first `n` turns. */
  function FirstTalk(turns: seq<Turn>, n: nat, id: string): (at: Option<nat>)
    requires n <= |turns|
    ensures at.Some? ==> at.value < n && Talks(turns, at.value, id)
  {
    if n == 0 then None
    else if FirstTalk(turns, n - 1, id).Some? then FirstTalk(turns, n - 1, id)
    else if Talks(turns, n - 1, id) then Some(n - 1)
    else None
  }

  /** The call at `a` is the one its id names. */
  predicate IsNamed(turns: seq<Turn>, a: nat)
    requires a < |turns|
  {
    IsCall(turns[a]) && CallOf(turns, turns[a].tool.value.useId) == Some(a)
  }

  /** Whose a conversation is, and what it names: all but its turns. */
  function Shell(side: Side): Side {
    side.(turns := [])
  }

  /** Whose conversation the turn at `a` holds once the first `n` turns were read: its own, or else, for a call, the first
      late one's that named it. */
  function Holding(turns: seq<Turn>, n: nat, a: nat): (held: Option<Side>)
    requires n <= |turns| && a < |turns|
  {
    if turns[a].side.Some? then Some(Shell(turns[a].side.value))
    else if !IsNamed(turns, a) then None
    else
      var first := FirstTalk(turns, n, turns[a].tool.value.useId);
      if first.None? then None else Some(Shell(turns[first.value].side.value))
  }

  /** What becomes of the turn at `i`. */
  function Read(turns: seq<Turn>, i: nat): (fate: Fate)
    requires i < |turns|
    ensures !fate.Stays? ==> fate.call < |turns| && IsNamed(turns, fate.call)
  {
    if FoldsAsResult(turns, i) then Patches(CallOf(turns, turns[i].tool.value.useId).value)
    else if !turns[i].kind.Sidechain? || Holding(turns, i, i).None? then Stays
    else
      var late := Holding(turns, i, i).value;
      var call := if late.parent == "" then None else CallOf(turns, late.parent);
      if call.None? then Stays
      else
        var held := Holding(turns, i, call.value);
        if held.None? || held.value.agent == late.agent then Joins(call.value) else Stays
  }

  // ---------------------------------------------------------------- the fold does what is read

  /** A turn that is not a call is never rewritten. */
  lemma {:induction false} OnlyCallsChange(turns: seq<Turn>, n: nat, i: nat)
    requires n <= |turns| && i < |turns| && !IsCall(turns[i])
    ensures After(turns, n)[i] == turns[i]
  {
    hide FateOf, SameCall;
    if n > 0 {
      OnlyCallsChange(turns, n - 1, i);
    }
  }

  /** What the turn at `n` does to the one at `a`. */
  lemma TurnMet(turns: seq<Turn>, n: nat, a: nat)
    requires n < |turns| && a < |turns|
    ensures var now, fate := After(turns, n), Fated(turns, n);
      After(turns, n + 1)[a]
      == if fate == Patches(a) then Patched(now[a], now[n].tool.value)
         else if fate == Joins(a) then Joined(now[a], now[n].side.value)
         else now[a]
  {
    hide FateOf;
    assert After(turns, n + 1) == Met(After(turns, n), n, Fated(turns, n));
  }

  function Held(t: Turn): Option<Side> {
    if t.side.Some? then Some(Shell(t.side.value)) else None
  }

  ghost predicate HeldAsRead(turns: seq<Turn>, n: nat, a: nat)
    requires n <= |turns| && a < |turns|
  {
    Held(After(turns, n)[a]) == Holding(turns, n, a)
  }

  /** Given what the turns hold by now, the fate decided is the fate read. */
  lemma FateRead(turns: seq<Turn>, i: nat)
    requires i < |turns|
    requires forall a | 0 <= a < |turns| :: HeldAsRead(turns, i, a)
    ensures Fated(turns, i) == Read(turns, i)
  {
    hide After, CallOf, Holding;
    var now := After(turns, i);
    assert SameCall(turns[i], now[i]) && HeldAsRead(turns, i, i);
    if !FoldsAsResult(turns, i) && IsLateTalk(now[i]) && CallOf(turns, now[i].side.value.parent).Some? {
      var a := CallOf(turns, now[i].side.value.parent).value;
      assert HeldAsRead(turns, i, a);
    }
  }

  lemma {:induction false} HeldRead(turns: seq<Turn>, n: nat, a: nat)
    requires n <= |turns| && a < |turns|
    ensures HeldAsRead(turns, n, a)
    decreases n
  {
    hide *;
    if n == 0 {
      HeldFirst(turns, a);
    } else {
      var m := n - 1;
      forall b | 0 <= b < |turns| ensures HeldAsRead(turns, m, b) {
        HeldRead(turns, m, b);
      }
      FateRead(turns, m);
      HeldNext(turns, m, a);
    }
  }

  lemma HeldFirst(turns: seq<Turn>, a: nat)
    requires a < |turns|
    ensures HeldAsRead(turns, 0, a)
  {
    hide CallOf;
  }

  lemma HeldNext(turns: seq<Turn>, n: nat, a: nat)
    requires n < |turns| && a < |turns| && Fated(turns, n) == Read(turns, n)
    requires HeldAsRead(turns, n, a) && HeldAsRead(turns, n, n)
    ensures HeldAsRead(turns, n + 1, a)
  {
    hide After, Fated, FateOf, SameCall, CallOf;
    TurnMet(turns, n, a);
    NamedOnce(turns, a, n);
  }

  /** A late conversation naming a call that holds none yet joins it. */
  lemma NamedOnce(turns: seq<Turn>, a: nat, n: nat)
    requires n < |turns| && a < |turns|
    ensures IsNamed(turns, a) && Holding(turns, n, a).None? && Talks(turns, n, turns[a].tool.value.useId) ==>
              Read(turns, n) == Joins(a)
  {
    hide CallOf;
  }

  /** Whatever the transcript, the fate decided turn by turn is the one read off the turns as they came. */
  lemma FateIsRead(turns: seq<Turn>, i: nat)
    requires i < |turns|
    ensures Fated(turns, i) == Read(turns, i)
  {
    hide *;
    forall a | 0 <= a < |turns| ensures HeldAsRead(turns, i, a) {
      HeldRead(turns, i, a);
    }
    FateRead(turns, i);
  }
}
