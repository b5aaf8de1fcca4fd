/**
 Blanking the string and template literals of TypeScript source in place, so that comments can be found in it by
 position: the index loop that does it, and the automaton it agrees with.
 */
module LiteralBlanker {
  import opened Prelude

  // ---------------------------------------------------------------- the automaton

  /** Where a scan of the source stands between two characters. `Slash` is code just past a slash, `Star` a block comment
      just past a star, `Dollar` a template just past a dollar; `depth` counts a template's open substitutions. */
  datatype State =
    | Code | Slash
    | LineComment | Block | Star
    | Quote(mark: char) | QuoteEscape(mark: char)
    | Template(depth: nat) | Dollar(depth: nat) | TemplateEscape(depth: nat)
  {
    predicate InLiteral() {
      Quote? || QuoteEscape? || Template? || Dollar? || TemplateEscape?
    }

    predicate InComment() {
      LineComment? || Block? || Star?
    }
  }

  function FromCode(c: char): State {
    if c == '/' then Slash
    else if c == '\'' || c == '"' then Quote(c)
    else if c == '`' then Template(0)
    else Code
  }

  function FromTemplate(depth: nat, c: char): State {
    if c == '\\' then TemplateEscape(depth)
    else if c == '`' && depth == 0 then Code
    else if c == '$' then Dollar(depth)
    else if c == '}' && depth > 0 then Template(depth - 1)
    else Template(depth)
  }

  function Step(s: State, c: char): State {
    match s
    case Code => FromCode(c)
    case Slash => if c == '/' then LineComment else if c == '*' then Block else FromCode(c)
    case LineComment => if c == '\n' then Code else LineComment
    case Block => if c == '*' then Star else Block
    case Star => if c == '/' then Code else if c == '*' then Star else Block
    case Quote(mark) => if c == mark then Code else if c == '\\' then QuoteEscape(mark) else s
    case QuoteEscape(mark) => Quote(mark)
    case Template(depth) => FromTemplate(depth, c)
    case Dollar(depth) => if c == '{' then Template(depth + 1) else FromTemplate(depth, c)
    case TemplateEscape(depth) => Template(depth)
  }

  function Run(text: string, s: State): State {
    if text == "" then s else Run(text[1..], Step(s, text[0]))
  }

  /** A literal's characters are those the scan enters, stays in or leaves a literal by. */
  function Blanked(c: char): char {
    if c == '\n' then c else ' '
  }

  function Erased(text: string, s: State): (erased: string)
    ensures |erased| == |text|
  {
    if text == "" then ""
    else
      var next := Step(s, text[0]);
      [if s.InLiteral() || next.InLiteral() then Blanked(text[0]) else text[0]] + Erased(text[1..], next)
  }

  /** The scan ends inside an escape in a template, past which the loop steps out of the text. */
  predicate Fails(text: string, s: State) {
    Run(text, s).TemplateEscape?
  }

  // ---------------------------------------------------------------- the scanner

  /** Scanning from `s` at `i` comes to `t` at `j`, the text between blanked or kept. */
  ghost predicate Comes(src: string, s: State, i: nat, t: State, j: nat, blank: bool)
    requires i <= j <= |src|
  {
    && (Fails(src[i..], s) <==> Fails(src[j..], t))
    && Erased(src[i..], s) == (if blank then AllBlanked(src[i..j]) else src[i..j]) + Erased(src[j..], t)
  }

  function AllBlanked(text: string): string {
    seq(|text|, k requires 0 <= k < |text| => Blanked(text[k]))
  }

  lemma ComesNowhere(src: string, s: State, i: nat, blank: bool)
    requires i <= |src|
    ensures Comes(src, s, i, s, i, blank)
  {
    assert src[i..i] == "" && AllBlanked("") == "";
  }

  /** One more character scanned. */
  lemma ComesOn(src: string, s: State, i: nat, t: State, j: nat, blank: bool)
    requires i <= j < |src| && Comes(src, s, i, t, j, blank)
    requires blank == (t.InLiteral() || Step(t, src[j]).InLiteral())
    ensures Comes(src, s, i, Step(t, src[j]), j + 1, blank)
  {
    hide Erased, Fails, Step;
    var c, next := src[j], Step(t, src[j]);
    ScanOne(src, j, t);
    assert src[i..j + 1] == src[i..j] + [c];
    assert AllBlanked(src[i..j + 1]) == AllBlanked(src[i..j]) + [Blanked(c)];
    var before, d := if blank then AllBlanked(src[i..j]) else src[i..j], if blank then Blanked(c) else c;
    assert before + ([d] + Erased(src[j + 1..], next)) == (before + [d]) + Erased(src[j + 1..], next);
  }

  lemma ScanOne(src: string, j: nat, t: State)
    requires j < |src|
    ensures var next := Step(t, src[j]);
      && (Fails(src[j..], t) <==> Fails(src[j + 1..], next))
      && Erased(src[j..], t)
      == [if t.InLiteral() || next.InLiteral() then Blanked(src[j]) else src[j]] + Erased(src[j + 1..], next)
  {
    hide Step;
    assert src[j..][1..] == src[j + 1..];
  }

  /** From here on the two states scan alike: the next character leads on from both to the same, or there is none. */
  predicate Alike(src: string, i: nat, s: State, t: State)
    requires i <= |src|
  {
    if i == |src| then !s.TemplateEscape? && !t.TemplateEscape?
    else
      && Step(s, src[i]) == Step(t, src[i])
      && ((s.InLiteral() || Step(s, src[i]).InLiteral()) <==> (t.InLiteral() || Step(t, src[i]).InLiteral()))
  }

  lemma ComesAlike(src: string, s: State, i: nat, t: State, j: nat, u: State, blank: bool)
    requires i <= j <= |src| && Comes(src, s, i, t, j, blank) && Alike(src, j, t, u)
    ensures Comes(src, s, i, u, j, blank)
  {
  }

  /** The two characters at `i`, as far as there are. */
  function Two(src: string, i: nat): string
    requires i <= |src|
  {
    src[i..if i + 2 <= |src| then i + 2 else |src|]
  }

  lemma TwoThere(src: string, i: nat)
    requires i < |src|
    ensures Two(src, i) == if i + 1 < |src| then [src[i], src[i + 1]] else [src[i]]
  {
  }

  /** The end of the line comment at `i`. */
  method LineCommentEnd(src: string, i: nat) returns (j: nat)
    requires i < |src| && Two(src, i) == "//"
    ensures i < j <= |src| && Comes(src, Code, i, Code, j, false)
  {
    hide Comes;
    assert src[i] == Two(src, i)[0] && src[i + 1] == Two(src, i)[1];
    j := i;
    ghost var t := Code;
    ComesNowhere(src, Code, i, false);
    while j < |src| && src[j] != '\n'
      invariant i <= j <= |src| && Comes(src, Code, i, t, j, false)
      invariant t == if j == i then Code else if j == i + 1 then Slash else LineComment
    {
      ComesOn(src, Code, i, t, j, false);
      t := Step(t, src[j]);
      j := j + 1;
    }
    ComesAlike(src, Code, i, t, j, Code, false);
  }

  method BlockCommentEnd(src: string, i: nat) returns (j: nat)
    requires i < |src| && Two(src, i) == "/*"
    ensures i < j <= |src| && Comes(src, Code, i, Code, j, false)
  {
    hide Comes;
    assert src[i] == Two(src, i)[0] && src[i + 1] == Two(src, i)[1];
    j := i + 2;
    ghost var t := Block;
    ComesNowhere(src, Code, i, false);
    ComesOn(src, Code, i, Code, i, false);
    ComesOn(src, Code, i, Slash, i + 1, false);
    while j < |src| && Two(src, j) != "*/"
      invariant i + 2 <= j <= |src| && Comes(src, Code, i, t, j, false)
      invariant t == Block || (t == Star && (j < |src| ==> src[j] != '/'))
    {
      TwoThere(src, j);
      ComesOn(src, Code, i, t, j, false);
      t := Step(t, src[j]);
      j := j + 1;
    }
    if j < |src| {
      assert Two(src, j)[0] == '*' && Two(src, j)[1] == '/';
      ComesOn(src, Code, i, t, j, false);
      assert Step(t, src[j]) == Star;
      ComesOn(src, Code, i, Star, j + 1, false);
      j := j + 2;
    } else {
      ComesAlike(src, Code, i, t, j, Code, false);
    }
  }

  method QuoteEnd(src: string, i: nat) returns (j: nat)
    requires i < |src| && (src[i] == '\'' || src[i] == '"')
    ensures i < j <= |src| && Comes(src, Code, i, Code, j, true)
  {
    hide Comes;
    var mark := src[i];
    var k := i + 1;
    ghost var t := Quote(mark);
    ComesNowhere(src, Code, i, true);
    ComesOn(src, Code, i, Code, i, true);
    while k < |src| && src[k] != mark
      invariant i < k <= |src| + 1
      invariant if k <= |src| then t == Quote(mark) && Comes(src, Code, i, t, k, true)
                else t == QuoteEscape(mark) && Comes(src, Code, i, t, |src|, true)
      decreases |src| + 1 - k
    {
      ComesOn(src, Code, i, t, k, true);
      t := Step(t, src[k]);
      if src[k] == '\\' && k + 1 < |src| {
        ComesOn(src, Code, i, t, k + 1, true);
        t := Quote(mark);
      }
      k := k + if src[k] == '\\' then 2 else 1;
    }
    if k < |src| {
      ComesOn(src, Code, i, t, k, true);
      j := k + 1;
    } else {
      j := |src|;
      ComesAlike(src, Code, i, t, j, Code, true);
    }
  }

  /** The end of the template at `i`, or one past the text when the text ends inside an escape. */
  method TemplateEnd(src: string, i: nat) returns (j: nat)
    requires i < |src| && src[i] == '`'
    ensures i < j <= |src| + 1
    ensures if j <= |src| then Comes(src, Code, i, Code, j, true) else Fails(src[i..], Code)
  {
    hide Comes, Fails;
    j := i + 1;
    var depth := 0;
    ghost var t := Template(0);
    ComesNowhere(src, Code, i, true);
    ComesOn(src, Code, i, Code, i, true);
    while j < |src|
      invariant i < j <= |src| && Comes(src, Code, i, t, j, true)
      invariant t == Template(depth) || (t == Dollar(depth) && (j < |src| ==> src[j] != '{'))
    {
      ComesOn(src, Code, i, t, j, true);
      t := Step(t, src[j]);
      if src[j] == '\\' {
        if j + 1 == |src| {
          EndsEscaped(src, i, t);
          return j + 2;
        }
        ComesOn(src, Code, i, t, j + 1, true);
        t := Template(depth);
        j := j + 2;
        continue;
      }
      if src[j] == '`' && depth == 0 {
        return j + 1;
      }
      if Two(src, j) == "${" {
        assert src[j] == Two(src, j)[0] && src[j + 1] == Two(src, j)[1];
        ComesOn(src, Code, i, t, j + 1, true);
        depth := depth + 1;
        t := Template(depth);
        j := j + 2;
        continue;
      }
      TwoThere(src, j);
      if src[j] == '}' && depth > 0 {
        depth := depth - 1;
      }
      j := j + 1;
    }
    ComesAlike(src, Code, i, t, j, Code, true);
  }

  lemma EndsEscaped(src: string, i: nat, t: State)
    requires i <= |src| && t.TemplateEscape? && Comes(src, Code, i, t, |src|, true)
    ensures Fails(src[i..], Code)
  {
  }

  /** Overwrites `out[start..end]`, or fails as an index past the end does. */
  method BlankRange(out: array<char>, start: nat, end: nat) returns (ok: bool)
    requires start <= end && start <= out.Length
    modifies out
    ensures ok <==> end <= out.Length
    ensures ok ==> out[..] == old(out[..start]) + AllBlanked(old(out[start..end])) + old(out[end..])
  {
    var k := start;
    while k < end
      invariant start <= k <= end && k <= out.Length
      invariant out[..start] == old(out[..start]) && out[k..] == old(out[k..])
      invariant forall l | start <= l < k :: out[l] == Blanked(old(out[l]))
    {
      if k == out.Length {
        return false;
      }
      if out[k] != '\n' {
        out[k] := ' ';
      }
      k := k + 1;
    }
    assert out[start..end] == AllBlanked(old(out[start..end]));
    assert out[..] == out[..start] + out[start..end] + out[end..];
    return true;
  }

  datatype Failure = IndexOutOfRange

  /** `_ts_blank_literals`: the literals blanked, line breaks kept — or a failure when the source ends inside an escape
      in a template that is never closed. */
  method BlankLiterals(src: string) returns (blanked: Result<string, Failure>)
    ensures blanked == if Fails(src, Code) then Err(IndexOutOfRange) else Ok(Erased(src, Code))
  {
    hide Comes, Fails, Step;
    var n := |src|;
    var out := new char[n](k requires 0 <= k < n => src[k]);
    var i := 0;
    assert out[..] == src;
    ScannedNone(src, out[..]);
    while i < n
      invariant 0 <= i <= n == out.Length && Scanned(src, i, out[..])
      decreases n - i
    {
      ghost var was := out[..];
      var two, c := Two(src, i), src[i];
      if two == "//" {
        var j := LineCommentEnd(src, i);
        ScannedKept(src, i, j, was);
        i := j;
      } else if two == "/*" {
        var j := BlockCommentEnd(src, i);
        ScannedKept(src, i, j, was);
        i := j;
      } else if c == '\'' || c == '"' {
        var j := QuoteEnd(src, i);
        var _ := BlankRange(out, i, j);
        ScannedBlanked(src, i, j, was, out[..]);
        i := j;
      } else if c == '`' {
        var j := TemplateEnd(src, i);
        var ok := BlankRange(out, i, j);
        if !ok {
          ScannedFails(src, i, was);
          return Err(IndexOutOfRange);
        }
        ScannedBlanked(src, i, j, was, out[..]);
        i := j;
      } else {
        CodeComes(src, i);
        ScannedKept(src, i, i + 1, was);
        i := i + 1;
      }
    }
    ScannedAll(src, out[..]);
    return Ok(out[..]);
  }

  /** The text scanned up to `i` is as it will be, and the rest as it was. */
  ghost predicate Scanned(src: string, i: nat, out: string) {
    && i <= |src| == |out|
    && out[i..] == src[i..]
    && Erased(src, Code) == out[..i] + Erased(src[i..], Code)
    && (Fails(src, Code) <==> Fails(src[i..], Code))
  }

  lemma ScannedNone(src: string, out: string)
    requires out == src
    ensures Scanned(src, 0, out)
  {
    assert src[0..] == src;
  }

  lemma ScannedKept(src: string, i: nat, j: nat, out: string)
    requires Scanned(src, i, out) && i <= j <= |src| && Comes(src, Code, i, Code, j, false)
    ensures Scanned(src, j, out)
  {
    hide Erased, Fails;
    assert out[j..] == out[i..][j - i..] == src[i..][j - i..] == src[j..];
    assert out[i..j] == out[i..][..j - i] == src[i..][..j - i] == src[i..j];
    assert out[..j] == out[..i] + out[i..j];
    assert out[..i] + (out[i..j] + Erased(src[j..], Code)) == out[..i] + out[i..j] + Erased(src[j..], Code);
  }

  lemma ScannedBlanked(src: string, i: nat, j: nat, was: string, out: string)
    requires Scanned(src, i, was) && i <= j <= |src| && Comes(src, Code, i, Code, j, true)
    requires out == was[..i] + AllBlanked(was[i..j]) + was[j..]
    ensures Scanned(src, j, out)
  {
    hide Erased, Fails;
    assert was[j..] == was[i..][j - i..] == src[i..][j - i..] == src[j..];
    assert was[i..j] == was[i..][..j - i] == src[i..][..j - i] == src[i..j];
    var blank := AllBlanked(src[i..j]);
    assert out[..j] == was[..i] + blank && out[j..] == src[j..];
    assert was[..i] + (blank + Erased(src[j..], Code)) == was[..i] + blank + Erased(src[j..], Code);
  }

  lemma ScannedFails(src: string, i: nat, out: string)
    requires Scanned(src, i, out) && Fails(src[i..], Code)
    ensures Fails(src, Code)
  {
  }

  lemma ScannedAll(src: string, out: string)
    requires Scanned(src, |src|, out)
    ensures out == Erased(src, Code) && !Fails(src, Code)
  {
    assert out[..|src|] == out && src[|src|..] == "";
  }

  /** A character that opens no comment and no literal. */
  lemma CodeComes(src: string, i: nat)
    requires i < |src| && Two(src, i) != "//" && Two(src, i) != "/*"
    requires src[i] != '\'' && src[i] != '"' && src[i] != '`'
    ensures Comes(src, Code, i, Code, i + 1, false)
  {
    hide Comes;
    ComesNowhere(src, Code, i, false);
    ComesOn(src, Code, i, Code, i, false);
    if src[i] == '/' {
      TwoThere(src, i);
      ComesAlike(src, Code, i, Slash, i + 1, Code, false);
    }
  }

  // ---------------------------------------------------------------- what blanking keeps

  /** Where the scan of `text` stands before the character at `k`. */
  function StateAt(text: string, k: nat): State
    requires k <= |text|
  {
    Run(text[..k], Code)
  }

  lemma {:induction false} RunBoth(a: string, b: string, s: State)
    ensures Run(a + b, s) == Run(b, Run(a, s))
  {
    if a == "" {
      assert a + b == b;
    } else {
      assert (a + b)[1..] == a[1..] + b;
      RunBoth(a[1..], b, Step(s, a[0]));
    }
  }

  lemma StateNext(text: string, k: nat)
    requires k < |text|
    ensures StateAt(text, k + 1) == Step(StateAt(text, k), text[k])
  {
    assert text[..k + 1] == text[..k] + [text[k]];
    RunBoth(text[..k], [text[k]], Code);
  }

  /** Each character is blanked exactly when it opens, is in or closes a literal, and is no line break. */
  lemma ErasedAt(text: string, k: nat)
    requires k < |text|
    ensures Erased(text, Code)[k]
         == if StateAt(text, k).InLiteral() || StateAt(text, k + 1).InLiteral() then Blanked(text[k]) else text[k]
  {
    ErasedFrom(text, Code, k);
  }

  lemma {:induction false} ErasedFrom(text: string, s: State, k: nat)
    requires k < |text|
    ensures Erased(text, s)[k]
         == if Run(text[..k], s).InLiteral() || Run(text[..k + 1], s).InLiteral() then Blanked(text[k]) else text[k]
  {
    assert text[..k + 1][1..] == text[1..][..k];
    if k > 0 {
      assert text[..k][1..] == text[1..][..k - 1];
      ErasedFrom(text[1..], Step(s, text[0]), k - 1);
    }
  }

  /** The output keeps every position: its length, its line breaks, and every character of a comment. */
  lemma BlankingKeepsPositions(text: string, k: nat)
    requires k < |text|
    ensures |Erased(text, Code)| == |text|
    ensures Erased(text, Code)[k] == text[k] || (Erased(text, Code)[k] == ' ' && text[k] != '\n')
    ensures Erased(text, Code)[k] == '\n' <==> text[k] == '\n'
    ensures StateAt(text, k).InComment() ==> Erased(text, Code)[k] == text[k]
  {
    ErasedAt(text, k);
    StateNext(text, k);
  }

  // ---------------------------------------------------------------- scanning the output

  /** How the scan of the output stands where the scan of the source stands at `s`. */
  function Bare(s: State): State {
    if s.InLiteral() then Code else s
  }

  lemma {:induction false} ErasedScans(text: string, s: State)
    ensures Run(Erased(text, s), Bare(s)) == Bare(Run(text, s))
    ensures Erased(Erased(text, s), Bare(s)) == Erased(text, s)
  {
    if text != "" {
      var next := Step(s, text[0]);
      assert Erased(text, s)[1..] == Erased(text[1..], next);
      assert Step(Bare(s), Erased(text, s)[0]) == Bare(next);
      ErasedScans(text[1..], next);
    }
  }

  /** The output holds no literal, and the same comments at the same positions: a scan of it stands in a comment just
      where the source's does, and nowhere in a literal. */
  lemma OutputScansAlike(text: string, k: nat)
    requires k <= |text|
    ensures StateAt(Erased(text, Code), k) == Bare(StateAt(text, k))
  {
    ErasedPrefix(text, Code, k);
    ErasedScans(text[..k], Code);
  }

  lemma {:induction false} ErasedPrefix(text: string, s: State, k: nat)
    requires k <= |text|
    ensures Erased(text, s)[..k] == Erased(text[..k], s)
  {
    if k > 0 {
      assert text[..k][1..] == text[1..][..k - 1];
      ErasedPrefix(text[1..], Step(s, text[0]), k - 1);
      assert Erased(text, s)[..k] == [Erased(text, s)[0]] + Erased(text[1..], Step(s, text[0]))[..k - 1];
    }
  }

  /** Blanking is idempotent, and what it made never fails. */
  lemma BlankingAgain(text: string)
    ensures !Fails(Erased(text, Code), Code) && Erased(Erased(text, Code), Code) == Erased(text, Code)
  {
    ErasedScans(text, Code);
  }

  /** The shortest source it fails on: a backtick and a backslash. */
  lemma FailsOnTrailingEscape()
    ensures Fails("`\\", Code)
  {
    assert "`\\"[1..] == "\\";
  }
}
