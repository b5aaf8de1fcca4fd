/**
 What the switch sweep means: on a template printed from a tree of nested blocks, it reports exactly the switches whose
 own branches hold no `@default`.
 */
module SwitchTemplates {
  import opened SwitchSweep

  datatype Kind = OtherBlock | DefaultBlock | SwitchBlock(lines: nat)

  /** A stretch of a template: characters, and blocks with a head (a condition, say) and a body. */
  datatype Nodes =
    | End
    | Plain(token: Token, rest: Nodes)
    | Block(kind: Kind, head: Template, body: Nodes, rest: Nodes)

  predicate IsPlain(t: Token) {
    t.Text? || t.Newline?
  }

  predicate AllPlain(head: Template) {
    forall i | 0 <= i < |head| :: IsPlain(head[i])
  }

  /** Characters and heads hold no brace and neither keyword. */
  predicate WellFormed(n: Nodes) {
    match n
    case End => true
    case Plain(token, rest) => IsPlain(token) && WellFormed(rest)
    case Block(_, head, body, rest) => AllPlain(head) && WellFormed(body) && WellFormed(rest)
  }

  function Keyword(kind: Kind): Template {
    match kind
    case OtherBlock => []
    case DefaultBlock => [Default]
    case SwitchBlock(lines) => [Switch(lines)]
  }

  /** `n` printed before `s`. */
  function PrintOn(n: Nodes, s: Template): Template {
    match n
    case End => s
    case Plain(token, rest) => [token] + PrintOn(rest, s)
    case Block(kind, head, body, rest) =>
      Keyword(kind) + (head + ([LeftBrace] + PrintOn(body, [RightBrace] + PrintOn(rest, s))))
  }

  /** `body` printed in its braces before `s`. */
  function Braced(body: Nodes, s: Template): Template {
    [LeftBrace] + PrintOn(body, [RightBrace] + s)
  }

  function Print(n: Nodes): Template {
    PrintOn(n, [])
  }

  /** A `@default` among `n`'s own branches: one that no switch within `n` encloses. */
  predicate HasDefault(n: Nodes) {
    match n
    case End => false
    case Plain(_, rest) => HasDefault(rest)
    case Block(kind, _, body, rest) =>
      || kind.DefaultBlock?
      || (!kind.SwitchBlock? && HasDefault(body))
      || HasDefault(rest)
  }

  /** The line breaks within `n`. */
  function Height(n: Nodes): nat {
    match n
    case End => 0
    case Plain(token, rest) => Breaks(token) + Height(rest)
    case Block(kind, head, body, rest) => Lines(Keyword(kind)) + Lines(head) + Height(body) + Height(rest)
  }

  /** The lines of the switches that have no default but perhaps in a nested one, in order, `n` beginning on `line`. */
  function Undefaulted(n: Nodes, line: nat): seq<nat> {
    match n
    case End => []
    case Plain(token, rest) => Undefaulted(rest, line + Breaks(token))
    case Block(kind, head, body, rest) =>
      var inside := line + Lines(Keyword(kind)) + Lines(head);
      (if kind.SwitchBlock? && !HasDefault(body) then [line] else [])
      + (Undefaulted(body, inside) + Undefaulted(rest, inside + Height(body)))
  }

  /** `n` without its switches: what stripping is to leave. */
  function Unswitched(n: Nodes): Nodes {
    match n
    case End => End
    case Plain(token, rest) => Plain(token, Unswitched(rest))
    case Block(kind, head, body, rest) =>
      if kind.SwitchBlock? then Unswitched(rest) else Block(kind, head, Unswitched(body), Unswitched(rest))
  }

  lemma {:induction false} PrintOnIs(n: Nodes, s: Template)
    ensures PrintOn(n, s) == Print(n) + s
  {
    hide PrintOn;
    match n
    case End =>
      EndPrints(s);
    case Plain(token, rest) =>
      PrintOnIs(rest, s);
      PlainPrints(token, rest, s);
      PlainPrints(token, rest, []);
      Joined([token], Print(rest), s);
    case Block(kind, head, body, rest) =>
      PrintOnIs(rest, s);
      PrintOnIs(body, [RightBrace] + PrintOn(rest, s));
      PrintOnIs(body, [RightBrace] + Print(rest));
      BlockPrints(kind, head, body, rest, s);
      BlockPrints(kind, head, body, rest, []);
      Joined([RightBrace], Print(rest), s);
      Joined(Print(body), [RightBrace] + Print(rest), s);
      Joined([LeftBrace], Print(body) + ([RightBrace] + Print(rest)), s);
      Joined(head, [LeftBrace] + (Print(body) + ([RightBrace] + Print(rest))), s);
      Joined(Keyword(kind), head + ([LeftBrace] + (Print(body) + ([RightBrace] + Print(rest)))), s);
  }

  lemma EndPrints(s: Template)
    ensures PrintOn(End, s) == Print(End) + s
  {
  }

  lemma PlainPrints(token: Token, rest: Nodes, s: Template)
    ensures PrintOn(Plain(token, rest), s) == [token] + PrintOn(rest, s)
  {
  }

  lemma BlockPrints(kind: Kind, head: Template, body: Nodes, rest: Nodes, s: Template)
    ensures PrintOn(Block(kind, head, body, rest), s)
         == Keyword(kind) + (head + ([LeftBrace] + PrintOn(body, [RightBrace] + PrintOn(rest, s))))
  {
  }

  // ---------------------------------------------------------------- one token at a time

  lemma ClosingCons(t: Token, s: Template, depth: int)
    ensures Closing([t] + s, depth)
         == if t == RightBrace && depth == 1 then 0
            else 1 + Closing(s, if t == LeftBrace then depth + 1 else if t == RightBrace then depth - 1 else depth)
  {
    assert ([t] + s)[1..] == s;
  }

  lemma {:induction false} ClosingSkips(head: Template, s: Template, depth: int)
    requires forall i | 0 <= i < |head| :: head[i] != LeftBrace && head[i] != RightBrace
    ensures Closing(head + s, depth) == |head| + Closing(s, depth)
  {
    hide Closing;
    if head == [] {
      assert head + s == s;
    } else {
      assert head + s == [head[0]] + (head[1..] + s);
      ClosingCons(head[0], head[1..] + s, depth);
      ClosingSkips(head[1..], s, depth);
    }
  }

  lemma {:induction false} BraceSkips(head: Template, s: Template)
    requires forall i | 0 <= i < |head| :: head[i] != LeftBrace
    ensures Brace(head + s) == |head| + Brace(s)
  {
    if head == [] {
      assert head + s == s;
    } else {
      assert (head + s)[1..] == head[1..] + s;
      BraceSkips(head[1..], s);
    }
  }

  lemma StrippedCons(t: Token, s: Template)
    requires !t.Switch?
    ensures Stripped([t] + s) == [t] + Stripped(s)
  {
    assert ([t] + s)[1..] == s;
  }

  lemma {:induction false} StrippedSkips(head: Template, s: Template)
    requires forall i | 0 <= i < |head| :: !head[i].Switch?
    ensures Stripped(head + s) == head + Stripped(s)
  {
    hide Stripped;
    if head == [] {
      assert head + s == s;
    } else {
      assert head + s == [head[0]] + (head[1..] + s);
      StrippedCons(head[0], head[1..] + s);
      StrippedSkips(head[1..], s);
      assert head + Stripped(s) == [head[0]] + (head[1..] + Stripped(s));
    }
  }

  lemma BareCons(t: Token, s: Template, line: nat)
    ensures Bare([t] + s, line)
         == (if t.Switch? && IsBare([t] + s) then [line] else []) + Bare(s, line + Breaks(t))
  {
    hide IsBare, Lines;
    assert ([t] + s)[1..] == s;
  }

  lemma {:induction false} BareSkips(head: Template, s: Template, line: nat)
    requires forall i | 0 <= i < |head| :: !head[i].Switch?
    ensures Bare(head + s, line) == Bare(s, line + Lines(head))
  {
    hide Bare, IsBare;
    if head == [] {
      assert head + s == s;
    } else {
      assert head + s == [head[0]] + (head[1..] + s);
      BareCons(head[0], head[1..] + s, line);
      BareSkips(head[1..], s, line + Breaks(head[0]));
    }
  }

  // ---------------------------------------------------------------- printed blocks balance

  lemma ClosingBraced(body: Nodes, s: Template, depth: int)
    requires 0 <= depth
    requires Closing(PrintOn(body, [RightBrace] + s), depth + 1) == |Print(body)| + Closing([RightBrace] + s, depth + 1)
    ensures Closing(Braced(body, s), depth) == |Print(body)| + 1 + if depth == 0 then 0 else 1 + Closing(s, depth)
  {
    ClosingCons(LeftBrace, PrintOn(body, [RightBrace] + s), depth);
    ClosingCons(RightBrace, s, depth + 1);
  }

  lemma PrintLength(kind: Kind, head: Template, body: Nodes, rest: Nodes)
    ensures |Print(Block(kind, head, body, rest))|
         == |Keyword(kind)| + |head| + 1 + |Print(body)| + 1 + |Print(rest)|
  {
    PrintOnIs(body, [RightBrace] + Print(rest));
  }

  lemma {:induction false} ClosingSkipsPrint(n: Nodes, s: Template, depth: int)
    requires WellFormed(n) && 1 <= depth
    ensures Closing(PrintOn(n, s), depth) == |Print(n)| + Closing(s, depth)
  {
    hide Closing;
    match n
    case End =>
    case Plain(token, rest) =>
      ClosingCons(token, PrintOn(rest, s), depth);
      ClosingSkipsPrint(rest, s, depth);
    case Block(kind, head, body, rest) =>
      ClosingSkipsPrint(body, [RightBrace] + PrintOn(rest, s), depth + 1);
      ClosingSkipsPrint(rest, s, depth);
      ClosingSkipsBlock(kind, head, body, rest, s, depth);
  }

  lemma ClosingSkipsBlock(kind: Kind, head: Template, body: Nodes, rest: Nodes, s: Template, depth: int)
    requires AllPlain(head) && 1 <= depth
    requires var after := [RightBrace] + PrintOn(rest, s);
      Closing(PrintOn(body, after), depth + 1) == |Print(body)| + Closing(after, depth + 1)
    requires Closing(PrintOn(rest, s), depth) == |Print(rest)| + Closing(s, depth)
    ensures var n := Block(kind, head, body, rest); Closing(PrintOn(n, s), depth) == |Print(n)| + Closing(s, depth)
  {
    hide Closing, PrintOn, Print;
    var after := PrintOn(rest, s);
    BlockPrints(kind, head, body, rest, s);
    ClosingBraced(body, after, depth);
    ClosingSkips(head, Braced(body, after), depth);
    ClosingSkips(Keyword(kind), head + Braced(body, after), depth);
    PrintLength(kind, head, body, rest);
  }

  /** A printed block's extent, found from before its head. */
  lemma BlockFound(head: Template, body: Nodes, s: Template)
    requires (forall i | 0 <= i < |head| :: head[i] != LeftBrace && head[i] != RightBrace) && WellFormed(body)
    ensures var block := head + Braced(body, s);
      && Open(block) == |head|
      && Close(block) == |head| + 1 + |Print(body)| < |block|
      && block[Open(block) + 1..Close(block)] == Print(body)
      && block[Close(block) + 1..] == s
  {
    hide Closing, PrintOn, WellFormed;
    var block := head + Braced(body, s);
    BraceSkips(head, Braced(body, s));
    assert Brace(Braced(body, s)) == 0;
    assert block[|head|..] == Braced(body, s);
    ClosingSkipsPrint(body, [RightBrace] + s, 1);
    ClosingBraced(body, s, 0);
    PrintOnIs(body, [RightBrace] + s);
    BlockCut(head, Print(body), s);
  }

  lemma BlockCut(head: Template, inner: Template, s: Template)
    ensures var block := head + ([LeftBrace] + (inner + ([RightBrace] + s)));
      block[|head| + 1..|head| + 1 + |inner|] == inner && block[|head| + 1 + |inner| + 1..] == s
  {
  }

  // ---------------------------------------------------------------- stripping takes out exactly the switches

  lemma {:induction false} UnswitchedWellFormed(n: Nodes)
    requires WellFormed(n)
    ensures WellFormed(Unswitched(n))
  {
    match n
    case End =>
    case Plain(_, rest) => UnswitchedWellFormed(rest);
    case Block(_, _, body, rest) => UnswitchedWellFormed(body); UnswitchedWellFormed(rest);
  }

  lemma {:induction false} StrippedPrint(n: Nodes, s: Template)
    requires WellFormed(n)
    ensures Stripped(PrintOn(n, s)) == PrintOn(Unswitched(n), Stripped(s))
  {
    match n
    case End =>
    case Plain(token, rest) =>
      StrippedCons(token, PrintOn(rest, s));
      StrippedPrint(rest, s);
    case Block(kind, head, body, rest) =>
      var after := PrintOn(rest, s);
      StrippedSkips(head, Braced(body, after));
      StrippedCons(LeftBrace, PrintOn(body, [RightBrace] + after));
      StrippedPrint(body, [RightBrace] + after);
      StrippedCons(RightBrace, after);
      StrippedPrint(rest, s);
      assert Stripped(head + Braced(body, after)) == head + Braced(Unswitched(body), Stripped(after));
      if kind.SwitchBlock? {
        UnswitchedWellFormed(body);
        StrippedSwitch(kind.lines, head, Unswitched(body), head + Braced(body, after), Stripped(after));
      } else {
        StrippedSkips(Keyword(kind), head + Braced(body, after));
      }
  }

  lemma StrippedSwitch(lines: nat, head: Template, body: Nodes, source: Template, s: Template)
    requires AllPlain(head) && WellFormed(body) && Stripped(source) == head + Braced(body, s)
    ensures Stripped([Switch(lines)] + source) == s
  {
    hide Stripped, Closing, Brace, PrintOn, Braced, WellFormed;
    BlockFound([Switch(lines)] + head, body, s);
    assert [Switch(lines)] + (head + Braced(body, s)) == ([Switch(lines)] + head) + Braced(body, s);
    assert ([Switch(lines)] + source)[1..] == source;
    StrippedOne([Switch(lines)] + source);
  }

  lemma {:induction false} DefaultKept(n: Nodes)
    requires WellFormed(n)
    ensures Default in Print(Unswitched(n)) <==> HasDefault(n)
  {
    match n
    case End =>
    case Plain(_, rest) => DefaultKept(rest);
    case Block(kind, head, body, rest) =>
      DefaultKept(body);
      DefaultKept(rest);
      if !kind.SwitchBlock? {
        PrintOnIs(Unswitched(body), [RightBrace] + Print(Unswitched(rest)));
        assert Default !in head;
        assert Print(Unswitched(n))
            == Keyword(kind) + (head + ([LeftBrace] + (Print(Unswitched(body)) + ([RightBrace] + Print(Unswitched(rest))))));
        if kind.DefaultBlock? { assert Print(Unswitched(n))[0] == Default; }
      }
  }

  // ---------------------------------------------------------------- what is reported

  lemma StrippedNothing()
    ensures Stripped([]) == []
  {
  }

  /** The switch that begins a printed block is bare exactly when its own branches hold no default. */
  lemma SwitchBareExactly(lines: nat, head: Template, body: Nodes, s: Template)
    requires AllPlain(head) && WellFormed(body)
    ensures IsBare([Switch(lines)] + (head + Braced(body, s))) == !HasDefault(body)
  {
    hide Stripped, Closing, Brace, PrintOn, Braced, WellFormed, HasDefault, Unswitched;
    BlockFound([Switch(lines)] + head, body, s);
    assert [Switch(lines)] + (head + Braced(body, s)) == ([Switch(lines)] + head) + Braced(body, s);
    StrippedNothing();
    StrippedPrint(body, []);
    DefaultKept(body);
  }

  lemma {:induction false} BarePrint(n: Nodes, s: Template, line: nat)
    requires WellFormed(n)
    ensures Bare(PrintOn(n, s), line) == Undefaulted(n, line) + Bare(s, line + Height(n))
  {
    hide Bare, HasDefault, Lines;
    match n
    case End =>
    case Plain(token, rest) =>
      TokenLines(token);
      BareSkips([token], PrintOn(rest, s), line);
      BarePrint(rest, s, line + Breaks(token));
    case Block(kind, head, body, rest) =>
      var inside := line + Lines(Keyword(kind)) + Lines(head);
      BarePrint(body, [RightBrace] + PrintOn(rest, s), inside);
      BarePrint(rest, s, inside + Height(body));
      BareBlockPrint(kind, head, body, rest, s, line);
  }

  lemma TokenLines(token: Token)
    ensures Lines([token]) == Breaks(token)
  {
  }

  lemma BareBlockPrint(kind: Kind, head: Template, body: Nodes, rest: Nodes, s: Template, line: nat)
    requires AllPlain(head) && WellFormed(body)
    requires var inside := line + Lines(Keyword(kind)) + Lines(head);
      var after := PrintOn(rest, s);
      && Bare(PrintOn(body, [RightBrace] + after), inside)
         == Undefaulted(body, inside) + Bare([RightBrace] + after, inside + Height(body))
      && Bare(after, inside + Height(body))
         == Undefaulted(rest, inside + Height(body)) + Bare(s, inside + Height(body) + Height(rest))
    ensures var n := Block(kind, head, body, rest);
      Bare(PrintOn(n, s), line) == Undefaulted(n, line) + Bare(s, line + Height(n))
  {
    hide Bare, HasDefault, Lines, WellFormed, Keyword;
    var inside := line + Lines(Keyword(kind)) + Lines(head);
    var after := PrintOn(rest, s);
    var own := if kind.SwitchBlock? && !HasDefault(body) then [line] else [];
    var u, v := Undefaulted(body, inside), Undefaulted(rest, inside + Height(body));
    var w := Bare(s, inside + Height(body) + Height(rest));
    BareBlock(kind, head, body, after, line);
    BareCloses(after, inside + Height(body));
    Joined(u, v, w);
    Joined(own, u + v, w);
    assert Undefaulted(Block(kind, head, body, rest), line) == own + (u + v);
  }

  lemma BareCloses(s: Template, line: nat)
    ensures Bare([RightBrace] + s, line) == Bare(s, line)
  {
    hide Bare, IsBare;
    BareCons(RightBrace, s, line);
  }

  lemma Joined<T>(a: seq<T>, b: seq<T>, c: seq<T>)
    ensures a + (b + c) == (a + b) + c
  {
  }

  lemma KeywordLines(kind: Kind)
    ensures Lines(Keyword(kind)) == if kind.SwitchBlock? then kind.lines else 0
  {
  }

  /** A block's own line, if it is a bare switch's, comes before what its body reports. */
  lemma BareBlock(kind: Kind, head: Template, body: Nodes, s: Template, line: nat)
    requires AllPlain(head) && WellFormed(body)
    ensures Bare(Keyword(kind) + (head + Braced(body, s)), line)
         == (if kind.SwitchBlock? && !HasDefault(body) then [line] else [])
            + Bare(PrintOn(body, [RightBrace] + s), line + Lines(Keyword(kind)) + Lines(head))
  {
    hide Bare, IsBare, PrintOn, WellFormed, HasDefault, Lines;
    var tail := head + Braced(body, s);
    KeywordLines(kind);
    BareSkips(head, Braced(body, s), line + Lines(Keyword(kind)));
    BareCons(LeftBrace, PrintOn(body, [RightBrace] + s), line + Lines(Keyword(kind)) + Lines(head));
    if kind.SwitchBlock? {
      SwitchBareExactly(kind.lines, head, body, s);
      BareCons(Switch(kind.lines), tail, line);
    } else {
      BareSkips(Keyword(kind), tail, line);
    }
  }

  /** On every template printed from nested blocks, the sweep reports, in document order, exactly the lines of the
      switches with no default of their own — however deeply switches nest in one another's branches. */
  lemma SweepExact(n: Nodes)
    requires WellFormed(n)
    ensures Bare(Print(n), 1) == Undefaulted(n, 1)
  {
    hide Bare, PrintOn, Undefaulted, Height;
    BarePrint(n, [], 1);
    BareNothing(1 + Height(n));
  }
}
