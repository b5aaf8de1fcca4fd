/**
 The template half of the open-vocabulary sweep: which `@switch` blocks have no `@default` of their own.

 A template is a sequence of tokens: the two keywords the sweep's patterns match, the braces, line breaks, and any other
 character.
 */
module SwitchSweep {

  /** `Switch` is `@switch` up to its opening parenthesis, `lines` the line breaks within it. */
  datatype Token = Switch(lines: nat) | Default | LeftBrace | RightBrace | Newline | Text(c: char)

  type Template = seq<Token>

  function Breaks(t: Token): nat {
    match t
    case Newline => 1
    case Switch(lines) => lines
    case _ => 0
  }

  function Lines(s: Template): nat {
    if s == [] then 0 else Breaks(s[0]) + Lines(s[1..])
  }

  /** The characters a token stands for, a keyword's line breaks before its parenthesis. */
  function Spelled(t: Token): string {
    match t
    case Switch(lines) => "@switch" + seq(lines, i => '\n') + "("
    case Default => "@default"
    case LeftBrace => "{"
    case RightBrace => "}"
    case Newline => "\n"
    case Text(c) => [c]
  }

  function AllSpelled(s: Template): string {
    if s == [] then "" else Spelled(s[0]) + AllSpelled(s[1..])
  }

  function LineBreaks(text: string): nat {
    if text == "" then 0 else (if text[0] == '\n' then 1 else 0) + LineBreaks(text[1..])
  }

  lemma {:induction false} LineBreaksBoth(a: string, b: string)
    ensures LineBreaks(a + b) == LineBreaks(a) + LineBreaks(b)
  {
    if a == "" {
      assert a + b == b;
    } else {
      assert (a + b)[1..] == a[1..] + b;
      LineBreaksBoth(a[1..], b);
    }
  }

  lemma {:induction false} NoLineBreaks(text: string)
    requires '\n' !in text
    ensures LineBreaks(text) == 0
  {
    if text != "" {
      NoLineBreaks(text[1..]);
    }
  }

  lemma {:induction false} OnlyLineBreaks(n: nat)
    ensures LineBreaks(seq(n, i => '\n')) == n
  {
    if n > 0 {
      assert seq(n, i => '\n')[1..] == seq(n - 1, i => '\n');
      OnlyLineBreaks(n - 1);
    }
  }

  lemma SpelledBreaks(t: Token)
    requires t.Text? ==> t.c != '\n'
    ensures LineBreaks(Spelled(t)) == Breaks(t)
  {
    hide LineBreaks;
    match t
    case Switch(lines) =>
      OnlyLineBreaks(lines);
      LineBreaksBoth("@switch" + seq(lines, i => '\n'), "(");
      LineBreaksBoth("@switch", seq(lines, i => '\n'));
      NoLineBreaks("@switch");
      NoLineBreaks("(");
    case Newline =>
      OnlyLineBreaks(1);
      assert seq(1, i => '\n') == "\n";
    case _ => NoLineBreaks(Spelled(t));
  }

  /** Lines are counted by the line breaks there are. */
  lemma {:induction false} LinesCount(s: Template)
    requires forall t <- s :: t.Text? ==> t.c != '\n'
    ensures Lines(s) == LineBreaks(AllSpelled(s))
  {
    hide Spelled, Breaks;
    if s != [] {
      LinesCount(s[1..]);
      SpelledBreaks(s[0]);
      LineBreaksBoth(Spelled(s[0]), AllSpelled(s[1..]));
    }
  }

  // ---------------------------------------------------------------- what the scanners compute

  /** How far the first opening brace is, or the length when there is none. */
  function Brace(s: Template): (at: nat)
    ensures at <= |s| && (at < |s| ==> s[at] == LeftBrace)
  {
    if s == [] || s[0] == LeftBrace then 0 else 1 + Brace(s[1..])
  }

  /** How far the brace is that brings `depth` open blocks to none, or the length when there is none. */
  function Closing(s: Template, depth: int): (at: nat)
    ensures at <= |s| && (at < |s| ==> s[at] == RightBrace)
  {
    if s == [] || (s[0] == RightBrace && depth == 1) then 0
    else 1 + Closing(s[1..], if s[0] == LeftBrace then depth + 1 else if s[0] == RightBrace then depth - 1 else depth)
  }

  /** Where the block that begins `s` opens, and where it closes: the length when it never does. */
  function Open(s: Template): (at: nat)
    ensures at <= |s|
  {
    Brace(s)
  }

  function Close(s: Template): (at: nat)
    ensures Open(s) <= at <= |s|
    ensures at < |s| ==> Open(s) < at
  {
    Brace(s) + Closing(s[Brace(s)..], 0)
  }

  /** `s` with every `@switch` block taken out, the last first. */
  function Stripped(s: Template): Template {
    if s == [] then []
    else
      var rest := [s[0]] + Stripped(s[1..]);
      if s[0].Switch? && Close(rest) < |rest| then rest[Close(rest) + 1..] else rest
  }

  /** The `@switch` that begins `s` has a block, and no `@default` of its own in it. */
  predicate IsBare(s: Template) {
    Close(s) < |s| && Default !in Stripped(s[Open(s) + 1..Close(s)])
  }

  /** The lines of the bare switches in `s`, whose first token stands on `line`. */
  function Bare(s: Template, line: nat): seq<nat> {
    if s == [] then []
    else (if s[0].Switch? && IsBare(s) then [line] else []) + Bare(s[1..], line + Breaks(s[0]))
  }

  // ---------------------------------------------------------------- the scanners

  method LineOf(source: Template, index: nat) returns (line: nat)
    requires index <= |source|
    ensures line == 1 + Lines(source[..index])
  {
    line := 1;
    for i := 0 to index
      invariant line == 1 + Lines(source[..i])
    {
      LinesAppend(source[..i], source[i]);
      assert source[..i + 1] == source[..i] + [source[i]];
      line := line + Breaks(source[i]);
    }
  }

  lemma {:induction false} LinesAppend(s: Template, t: Token)
    ensures Lines(s + [t]) == Lines(s) + Breaks(t)
  {
    if s != [] {
      assert (s + [t])[1..] == s[1..] + [t];
      LinesAppend(s[1..], t);
    }
  }

  /** `source.indexOf("{", start)`. */
  method IndexOfBrace(source: Template, start: nat) returns (at: int)
    requires start <= |source|
    ensures at == if Brace(source[start..]) < |source| - start then start + Brace(source[start..]) else -1
  {
    var i := start;
    while i < |source|
      invariant start <= i <= |source| && start + Brace(source[start..]) == i + Brace(source[i..])
    {
      if source[i] == LeftBrace {
        return i;
      }
      assert source[i..][1..] == source[i + 1..];
      i := i + 1;
    }
    return -1;
  }

  /** Past the token at `i`, the depth being what it leaves it at. */
  lemma ClosingPast(source: Template, i: nat, depth: int)
    requires i < |source|
    ensures var t := source[i];
      Closing(source[i..], depth)
      == if t == RightBrace && depth == 1 then 0
         else 1 + Closing(source[i + 1..], if t == LeftBrace then depth + 1
                                           else if t == RightBrace then depth - 1 else depth)
  {
    assert source[i..][1..] == source[i + 1..] && source[i..][0] == source[i];
  }

  lemma ClosingAtEnd(source: Template, depth: int)
    ensures Closing(source[|source|..], depth) == 0
  {
  }

  method ClosingBrace(source: Template, open: nat) returns (at: int)
    requires open <= |source|
    ensures at == if Closing(source[open..], 0) < |source| - open then open + Closing(source[open..], 0) else -1
  {
    hide *;
    var depth := 0;
    var i := open;
    while i < |source|
      invariant open <= i <= |source| && open + Closing(source[open..], 0) == i + Closing(source[i..], depth)
    {
      ClosingPast(source, i, depth);
      if source[i] == LeftBrace {
        depth := depth + 1;
      } else if source[i] == RightBrace {
        depth := depth - 1;
        if depth == 0 {
          return i;
        }
      }
      i := i + 1;
    }
    ClosingAtEnd(source, depth);
    return -1;
  }

  /** The block of the switch at `start`: where it opens, and where it closes or -1. */
  method BlockAt(source: Template, start: nat) returns (open: int, close: int)
    requires start <= |source|
    ensures if Close(source[start..]) < |source| - start
            then open == start + Open(source[start..]) && close == start + Close(source[start..])
            else close == -1
  {
    open := IndexOfBrace(source, start);
    close := -1;
    if open != -1 {
      close := ClosingBrace(source, open);
      assert source[start..][open - start..] == source[open..];
    }
  }

  /** The buffer once the walk has come down to `index`. */
  function Walked(body: Template, index: nat): Template
    requires index <= |body|
  {
    body[..index] + Stripped(body[index..])
  }

  /** One step of the walk, the buffer cut at `index`. */
  lemma WalkedOne(body: Template, index: nat) returns (before: Template, rest: Template)
    requires index < |body|
    ensures |before| == index && Walked(body, index + 1) == before + rest
    ensures Walked(body, index)
         == before + (if body[index].Switch? && Close(rest) < |rest| then rest[Close(rest) + 1..] else rest)
  {
    hide Stripped, Close;
    before, rest := body[..index], [body[index]] + Stripped(body[index + 1..]);
    Recut(body[..index], body[index], body[..index + 1], Stripped(body[index + 1..]));
    StrippedAt(body, index);
  }

  lemma Recut<T>(before: seq<T>, x: T, upTo: seq<T>, after: seq<T>)
    requires upTo == before + [x]
    ensures upTo + after == before + ([x] + after)
  {
  }

  lemma StrippedAt(body: Template, index: nat)
    requires index < |body|
    ensures var rest := [body[index]] + Stripped(body[index + 1..]);
      Stripped(body[index..]) == if body[index].Switch? && Close(rest) < |rest| then rest[Close(rest) + 1..] else rest
  {
    hide Stripped, Close;
    assert body[index..][1..] == body[index + 1..];
    StrippedOne(body[index..]);
  }

  lemma CutAt<T>(a: seq<T>, b: seq<T>, c: nat)
    requires c <= |b|
    ensures (a + b)[..|a|] == a && (a + b)[|a|..] == b && (a + b)[|a| + c..] == b[c..]
  {
  }

  lemma StrippedOne(s: Template)
    requires s != []
    ensures var rest := [s[0]] + Stripped(s[1..]);
      Stripped(s) == if s[0].Switch? && Close(rest) < |rest| then rest[Close(rest) + 1..] else rest
  {
    hide Close;
  }

  lemma WalkedEnds(body: Template)
    ensures Walked(body, |body|) == body && Walked(body, 0) == Stripped(body)
  {
    assert body[|body|..] == [] && body[0..] == body;
  }

  /** What the walk's step at `index` comes to, `close` being where the block there closes in the buffer, or -1. */
  lemma WalkedOver(body: Template, index: nat, own: Template, close: int)
    requires index < |body| && own == Walked(body, index + 1)
    requires index <= |own| &&
             (body[index].Switch? ==>
               close == if Close(own[index..]) < |own| - index then index + Close(own[index..]) else -1)
    ensures -1 <= close < |own| || !body[index].Switch?
    ensures Walked(body, index)
         == if body[index].Switch? && close != -1 then own[..index] + own[close + 1..] else own
  {
    hide Walked, Stripped, Close;
    var before, rest := WalkedOne(body, index);
    CutAt(before, rest, if Close(rest) < |rest| then Close(rest) + 1 else 0);
  }

  lemma WalkedLong(body: Template, index: nat)
    requires index < |body|
    ensures index <= |Walked(body, index + 1)|
  {
  }

  /** Blanks every nested `@switch` block of `body`: the keywords are those `body` held before any was blanked, taken in
      reverse, while the buffer shrinks behind the walk. */
  method StripSwitches(body: Template) returns (own: Template)
    ensures own == Stripped(body)
  {
    hide *;
    own := body;
    var index := |body|;
    WalkedEnds(body);
    while 0 < index
      invariant 0 <= index <= |body| && own == Walked(body, index)
    {
      index := index - 1;
      WalkedLong(body, index);
      if !body[index].Switch? {
        WalkedOver(body, index, own, -1);
      } else {
        var open, close := BlockAt(own, index);
        WalkedOver(body, index, own, close);
        if close != -1 {
          own := own[..index] + own[close + 1..];
        }
      }
    }
  }

  /** Where, line by line, a switch leaves some value of its vocabulary unhandled: it has a block, but no default there. */
  method BareTemplateSwitches(template: Template) returns (lines: seq<nat>)
    ensures lines == Bare(template, 1)
  {
    hide Bare, IsBare, Lines;
    lines := [];
    BareFromEnds(template);
    for start := 0 to |template|
      invariant Bare(template, 1) == lines + BareFrom(template, start)
    {
      BareHere(template, start);
      if template[start].Switch? {
        var bare := SwitchIsBare(template, start);
        if bare {
          var line := LineOf(template, start);
          lines := lines + [line];
        }
      }
    }
  }

  /** Whether the switch at `start` is one to report. */
  method SwitchIsBare(template: Template, start: nat) returns (bare: bool)
    requires start <= |template|
    ensures bare == IsBare(template[start..])
  {
    var open, close := BlockAt(template, start);
    if close == -1 {
      return false;
    }
    assert template[start..][open - start + 1..close - start] == template[open + 1..close];
    var own := StripSwitches(template[open + 1..close]);
    return Default !in own;
  }

  /** What is reported from `i` on. */
  function BareFrom(s: Template, i: nat): seq<nat>
    requires i <= |s|
  {
    Bare(s[i..], 1 + Lines(s[..i]))
  }

  lemma BareFromEnds(s: Template)
    ensures BareFrom(s, 0) == Bare(s, 1) && BareFrom(s, |s|) == []
  {
    hide Bare, Lines;
    assert s[0..] == s && s[|s|..] == [] && s[..0] == [];
    LinesNothing();
    BareNothing(1 + Lines(s[..|s|]));
  }

  lemma LinesNothing()
    ensures Lines([]) == 0
  {
  }

  lemma BareNothing(line: nat)
    ensures Bare([], line) == []
  {
  }

  lemma BareHere(s: Template, i: nat)
    requires i < |s|
    ensures BareFrom(s, i)
         == (if s[i].Switch? && IsBare(s[i..]) then [1 + Lines(s[..i])] else []) + BareFrom(s, i + 1)
  {
    hide Bare, IsBare, Lines;
    assert s[i..][1..] == s[i + 1..];
    assert s[..i + 1] == s[..i] + [s[i]];
    LinesAppend(s[..i], s[i]);
    BareOne(s[i..], 1 + Lines(s[..i]));
  }

  lemma BareOne(s: Template, line: nat)
    requires s != []
    ensures Bare(s, line) == (if s[0].Switch? && IsBare(s) then [line] else []) + Bare(s[1..], line + Breaks(s[0]))
  {
    hide IsBare;
  }
}
