/**
 What blanking does to a source read as a program: code, comments, quoted literals with escapes, and templates whose
 substitutions nest. Nothing here scans; each literal is blanked whole, because it is a literal.
 */
module LiteralPrograms {
  import opened LiteralBlanker

  /** A character of a quoted literal, or one after a backslash. */
  datatype Char = Raw(c: char) | Escaped(c: char)

  /** A part of a template: a character, one after a backslash, or a substitution with its parts. */
  datatype Part = Letter(c: char) | Escape(c: char) | Substitution(parts: seq<Part>)

  datatype Piece =
    | Other(c: char)
    | LineNote(text: string)
    | BlockNote(text: string)
    | Quoted(mark: char, chars: seq<Char>)
    | Templated(parts: seq<Part>)

  /** How a source may stop short: in a block comment, in a quoted literal, or in a template with each open substitution's
      parts; a last backslash escapes nothing. */
  datatype Ending =
    | Finished
    | OpenNote(text: string)
    | OpenQuote(mark: char, chars: seq<Char>, escaping: bool)
    | OpenTemplate(levels: seq<seq<Part>>, escaping: bool)

  // ---------------------------------------------------------------- how a program is written

  function CharsText(chars: seq<Char>): string {
    if chars == [] then "" else CharText(chars[0]) + CharsText(chars[1..])
  }

  function CharText(letter: Char): string {
    match letter
    case Raw(c) => [c]
    case Escaped(c) => ['\\', c]
  }

  function PartText(part: Part): string {
    match part
    case Letter(c) => [c]
    case Escape(c) => ['\\', c]
    case Substitution(parts) => "${" + PartsText(parts) + "}"
  }

  function PartsText(parts: seq<Part>): string {
    if parts == [] then "" else PartText(parts[0]) + PartsText(parts[1..])
  }

  function PieceText(piece: Piece): string {
    match piece
    case Other(c) => [c]
    case LineNote(text) => "//" + text
    case BlockNote(text) => "/*" + text + "*/"
    case Quoted(mark, chars) => [mark] + CharsText(chars) + [mark]
    case Templated(parts) => "`" + PartsText(parts) + "`"
  }

  function PiecesText(pieces: seq<Piece>): string {
    if pieces == [] then "" else PieceText(pieces[0]) + PiecesText(pieces[1..])
  }

  function LevelsText(levels: seq<seq<Part>>): string {
    if levels == [] then ""
    else if |levels| == 1 then PartsText(levels[0])
    else PartsText(levels[0]) + "${" + LevelsText(levels[1..])
  }

  function EndingText(ending: Ending): string {
    match ending
    case Finished => ""
    case OpenNote(text) => "/*" + text
    case OpenQuote(mark, chars, escaping) => [mark] + CharsText(chars) + if escaping then "\\" else ""
    case OpenTemplate(levels, escaping) => "`" + LevelsText(levels) + if escaping then "\\" else ""
  }

  // ---------------------------------------------------------------- what may be written so

  predicate IsQuote(c: char) {
    c == '\'' || c == '"'
  }

  predicate CharsFormed(mark: char, chars: seq<Char>) {
    forall i | 0 <= i < |chars| :: chars[i].Raw? ==> chars[i].c != mark && chars[i].c != '\\'
  }

  /** Outside a substitution a letter does not close the template, inside one it does not close that; a dollar is no brace's
      dollar. */
  predicate PartsFormed(parts: seq<Part>, inside: bool) {
    parts == []
    || (&& (match parts[0]
            case Letter(c) =>
              && c != '\\' && c != (if inside then '}' else '`')
              && (c == '$' ==> |parts| == 1 || parts[1] != Letter('{'))
            case Escape(_) => true
            case Substitution(body) => PartsFormed(body, true))
        && PartsFormed(parts[1..], inside))
  }

  predicate Closes(text: string, k: nat)
    requires k < |text|
  {
    text[k] == '*' && k + 1 < |text| && text[k + 1] == '/'
  }

  predicate NoteFormed(text: string) {
    forall k | 0 <= k < |text| :: !Closes(text, k)
  }

  /** `after` is what is written next: no slash begins a comment, and a line comment ends with its line. */
  predicate PieceFormed(piece: Piece, after: string) {
    match piece
    case Other(c) =>
      && !IsQuote(c) && c != '`'
      && (c == '/' ==> after == "" || (after[0] != '/' && after[0] != '*'))
    case LineNote(text) => '\n' !in text && (after == "" || after[0] == '\n')
    case BlockNote(text) => NoteFormed(text)
    case Quoted(mark, chars) => IsQuote(mark) && CharsFormed(mark, chars)
    case Templated(parts) => PartsFormed(parts, false)
  }

  predicate PiecesFormed(pieces: seq<Piece>, after: string) {
    pieces == [] || (PieceFormed(pieces[0], PiecesText(pieces[1..]) + after) && PiecesFormed(pieces[1..], after))
  }

  predicate LevelsFormed(levels: seq<seq<Part>>, inside: bool) {
    levels != [] && PartsFormed(levels[0], inside) && (|levels| == 1 || LevelsFormed(levels[1..], true))
  }

  predicate EndingFormed(ending: Ending) {
    match ending
    case Finished => true
    case OpenNote(text) => NoteFormed(text)
    case OpenQuote(mark, chars, _) => IsQuote(mark) && CharsFormed(mark, chars)
    case OpenTemplate(levels, _) => LevelsFormed(levels, false)
  }

  // ---------------------------------------------------------------- the program, its literals blanked

  function PieceBlanked(piece: Piece): string {
    if piece.Quoted? || piece.Templated? then AllBlanked(PieceText(piece)) else PieceText(piece)
  }

  function PiecesBlanked(pieces: seq<Piece>): string {
    if pieces == [] then "" else PieceBlanked(pieces[0]) + PiecesBlanked(pieces[1..])
  }

  function EndingBlanked(ending: Ending): string {
    if ending.OpenQuote? || ending.OpenTemplate? then AllBlanked(EndingText(ending)) else EndingText(ending)
  }

  // ---------------------------------------------------------------- scanning what is written

  /** A scan that stands at `s` before `text` and `rest` goes on from `t` at `rest`, all of `text` blanked or all kept. */
  ghost predicate Scans(text: string, s: State, t: State, rest: string, blank: bool) {
    && Erased(text + rest, s) == (if blank then AllBlanked(text) else text) + Erased(rest, t)
    && (Fails(text + rest, s) <==> Fails(rest, t))
  }

  lemma ScansNone(s: State, rest: string, blank: bool)
    ensures Scans("", s, s, rest, blank)
  {
    assert "" + rest == rest && AllBlanked("") == "";
  }

  lemma ScansOne(c: char, s: State, rest: string, blank: bool)
    requires blank == (s.InLiteral() || Step(s, c).InLiteral())
    ensures Scans([c], s, Step(s, c), rest, blank)
  {
    hide Step;
    assert ([c] + rest)[1..] == rest && AllBlanked([c]) == [Blanked(c)];
  }

  lemma ScansBoth(a: string, b: string, s: State, t: State, u: State, rest: string, blank: bool)
    requires Scans(a, s, t, b + rest, blank) && Scans(b, t, u, rest, blank)
    ensures Scans(a + b, s, u, rest, blank)
  {
    hide Erased, Fails;
    assert a + (b + rest) == (a + b) + rest;
    assert AllBlanked(a + b) == AllBlanked(a) + AllBlanked(b);
    var x, y := if blank then AllBlanked(a) else a, if blank then AllBlanked(b) else b;
    assert x + (y + Erased(rest, u)) == (x + y) + Erased(rest, u);
  }

  lemma ScansTwo(c: char, d: char, s: State, rest: string, blank: bool)
    requires blank == (s.InLiteral() || Step(s, c).InLiteral())
    requires blank == (Step(s, c).InLiteral() || Step(Step(s, c), d).InLiteral())
    ensures Scans([c, d], s, Step(Step(s, c), d), rest, blank)
  {
    hide Step, Scans;
    ScansOne(c, s, [d] + rest, blank);
    ScansOne(d, Step(s, c), rest, blank);
    ScansBoth([c], [d], s, Step(s, c), Step(Step(s, c), d), rest, blank);
    assert [c] + [d] == [c, d];
  }

  /** Where the next character leads on from two states to the same, it makes no difference which. */
  lemma ScansAlike(text: string, s: State, t: State, u: State, rest: string, blank: bool)
    requires Scans(text, s, t, rest, blank) && Alike(rest, 0, t, u)
    ensures Scans(text, s, u, rest, blank)
  {
  }

  // ---------------------------------------------------------------- literals

  lemma {:induction false} CharsScan(mark: char, chars: seq<Char>, rest: string)
    requires CharsFormed(mark, chars) && IsQuote(mark)
    ensures Scans(CharsText(chars), Quote(mark), Quote(mark), rest, true)
  {
    hide Scans, Step;
    if chars == [] {
      ScansNone(Quote(mark), rest, true);
    } else {
      var more := CharsText(chars[1..]);
      CharScan(mark, chars[0], more + rest);
      CharsScan(mark, chars[1..], rest);
      ScansBoth(CharText(chars[0]), more, Quote(mark), Quote(mark), Quote(mark), rest, true);
    }
  }

  lemma CharScan(mark: char, letter: Char, rest: string)
    requires letter.Raw? ==> letter.c != mark && letter.c != '\\'
    requires IsQuote(mark)
    ensures Scans(CharText(letter), Quote(mark), Quote(mark), rest, true)
  {
    hide Scans;
    match letter
    case Raw(c) => ScansOne(c, Quote(mark), rest, true);
    case Escaped(c) => ScansTwo('\\', c, Quote(mark), rest, true);
  }

  /** Read on, `rest` is no brace a dollar before it would open. */
  predicate NoBrace(rest: string) {
    rest == "" || rest[0] != '{'
  }

  /** A template's parts bring the scan back to the depth they are at. */
  lemma {:induction false} PartsScan(parts: seq<Part>, depth: nat, rest: string)
    requires PartsFormed(parts, depth > 0) && NoBrace(rest)
    ensures Scans(PartsText(parts), Template(depth), Template(depth), rest, true)
    decreases parts, 1
  {
    hide Scans, Step;
    if parts == [] {
      ScansNone(Template(depth), rest, true);
    } else {
      var more := PartsText(parts[1..]);
      if parts[0].Letter? {
        if parts[0].c == '$' {
          NextPart(parts, depth > 0, rest);
        }
        LetterScan(parts[0].c, depth, more + rest);
      } else if parts[0].Escape? {
        EscapeScan(parts[0].c, depth, more + rest);
      } else {
        SubstitutionScan(parts[0].parts, depth, more + rest);
      }
      PartsScan(parts[1..], depth, rest);
      ScansBoth(PartText(parts[0]), more, Template(depth), Template(depth), Template(depth), rest, true);
    }
  }

  lemma NextPart(parts: seq<Part>, inside: bool, rest: string)
    requires PartsFormed(parts, inside) && NoBrace(rest) && parts != [] && parts[0] == Letter('$')
    ensures NoBrace(PartsText(parts[1..]) + rest)
  {
  }

  lemma LetterScan(c: char, depth: nat, rest: string)
    requires c != '\\' && c != (if depth > 0 then '}' else '`') && (c == '$' ==> NoBrace(rest))
    ensures Scans([c], Template(depth), Template(depth), rest, true)
  {
    hide Scans;
    ScansOne(c, Template(depth), rest, true);
    if c == '$' {
      ScansAlike([c], Template(depth), Dollar(depth), Template(depth), rest, true);
    }
  }

  lemma EscapeScan(c: char, depth: nat, rest: string)
    ensures Scans(['\\', c], Template(depth), Template(depth), rest, true)
  {
    hide Scans;
    ScansTwo('\\', c, Template(depth), rest, true);
  }

  lemma {:induction false} SubstitutionScan(parts: seq<Part>, depth: nat, rest: string)
    requires PartsFormed(parts, true)
    ensures Scans("${" + PartsText(parts) + "}", Template(depth), Template(depth), rest, true)
    decreases parts, 2
  {
    hide Scans;
    var body, d := PartsText(parts), Template(depth);
    Opens(depth, body + ("}" + rest));
    PartsScan(parts, depth + 1, "}" + rest);
    ScansOne('}', Template(depth + 1), rest, true);
    assert body + ("}" + rest) == (body + "}") + rest;
    ScansBoth(body, "}", Template(depth + 1), Template(depth + 1), d, rest, true);
    ScansBoth("${", body + "}", d, Template(depth + 1), d, rest, true);
    assert "${" + (body + "}") == "${" + body + "}";
  }

  lemma Opens(depth: nat, rest: string)
    ensures Scans("${", Template(depth), Template(depth + 1), rest, true)
  {
    hide Scans;
    ScansTwo('$', '{', Template(depth), rest, true);
  }

  // ---------------------------------------------------------------- comments and code

  lemma {:induction false} LineScan(text: string, rest: string)
    requires '\n' !in text
    ensures Scans(text, LineComment, LineComment, rest, false)
  {
    hide Scans;
    if text == "" {
      ScansNone(LineComment, rest, false);
    } else {
      ScansOne(text[0], LineComment, text[1..] + rest, false);
      LineScan(text[1..], rest);
      ScansBoth([text[0]], text[1..], LineComment, LineComment, LineComment, rest, false);
      assert [text[0]] + text[1..] == text;
    }
  }

  /** A comment's text comes to its end at most past a star. */
  lemma {:induction false} NoteScan(text: string, s: State, rest: string) returns (t: State)
    requires NoteFormed(text) && (s == Block || (s == Star && (text != "" ==> text[0] != '/')))
    ensures (t == Block || t == Star) && Scans(text, s, t, rest, false)
  {
    hide Scans;
    if text == "" {
      t := s;
      ScansNone(s, rest, false);
    } else {
      var next := Step(s, text[0]);
      assert next == Block || (next == Star && (text[1..] != "" ==> text[1..][0] != '/')) by {
        assert !Closes(text, 0);
      }
      forall k | 0 <= k < |text[1..]| ensures !Closes(text[1..], k) {
        assert !Closes(text, k + 1);
      }
      ScansOne(text[0], s, text[1..] + rest, false);
      t := NoteScan(text[1..], next, rest);
      ScansBoth([text[0]], text[1..], s, next, t, rest, false);
      assert [text[0]] + text[1..] == text;
    }
  }

  lemma OpenNoteScan(text: string, rest: string) returns (t: State)
    requires NoteFormed(text)
    ensures (t == Block || t == Star) && Scans("/*" + text, Code, t, rest, false)
  {
    hide Scans;
    ScansTwo('/', '*', Code, text + rest, false);
    t := NoteScan(text, Block, rest);
    ScansBoth("/*", text, Code, Block, t, rest, false);
  }

  /** One piece, read on. */
  lemma PieceScan(piece: Piece, rest: string)
    requires PieceFormed(piece, rest)
    ensures Scans(PieceText(piece), Code, Code, rest, piece.Quoted? || piece.Templated?)
  {
    hide Scans;
    match piece
    case Other(c) =>
      ScansOne(c, Code, rest, false);
      if c == '/' {
        ScansAlike([c], Code, Slash, Code, rest, false);
      }
    case LineNote(text) =>
      ScansTwo('/', '/', Code, text + rest, false);
      LineScan(text, rest);
      ScansBoth("//", text, Code, LineComment, LineComment, rest, false);
      ScansAlike("//" + text, Code, LineComment, Code, rest, false);
    case BlockNote(text) =>
      BlockScan(text, rest);
    case Quoted(mark, chars) =>
      QuotedScan(mark, chars, rest);
    case Templated(parts) =>
      TemplateScan(parts, rest);
  }

  lemma BlockScan(text: string, rest: string)
    requires NoteFormed(text)
    ensures Scans("/*" + text + "*/", Code, Code, rest, false)
  {
    hide Scans;
    var t := OpenNoteScan(text, "*/" + rest);
    ScansTwo('*', '/', t, rest, false);
    ScansBoth("/*" + text, "*/", Code, t, Code, rest, false);
  }

  lemma QuotedScan(mark: char, chars: seq<Char>, rest: string)
    requires IsQuote(mark) && CharsFormed(mark, chars)
    ensures Scans([mark] + CharsText(chars) + [mark], Code, Code, rest, true)
  {
    hide Scans;
    OpenQuoteScan(mark, chars, [mark] + rest);
    ScansOne(mark, Quote(mark), rest, true);
    ScansBoth([mark] + CharsText(chars), [mark], Code, Quote(mark), Code, rest, true);
  }

  lemma OpenQuoteScan(mark: char, chars: seq<Char>, rest: string)
    requires IsQuote(mark) && CharsFormed(mark, chars)
    ensures Scans([mark] + CharsText(chars), Code, Quote(mark), rest, true)
  {
    hide Scans;
    ScansOne(mark, Code, CharsText(chars) + rest, true);
    CharsScan(mark, chars, rest);
    ScansBoth([mark], CharsText(chars), Code, Quote(mark), Quote(mark), rest, true);
  }

  lemma TemplateScan(parts: seq<Part>, rest: string)
    requires PartsFormed(parts, false)
    ensures Scans("`" + PartsText(parts) + "`", Code, Code, rest, true)
  {
    hide Scans;
    ScansOne('`', Code, PartsText(parts) + ("`" + rest), true);
    PartsScan(parts, 0, "`" + rest);
    ScansBoth("`", PartsText(parts), Code, Template(0), Template(0), "`" + rest, true);
    ScansOne('`', Template(0), rest, true);
    ScansBoth("`" + PartsText(parts), "`", Code, Template(0), Code, rest, true);
  }

  // ---------------------------------------------------------------- whole programs

  /** A scan of the pieces and `rest` blanks their literals, and goes on at `rest` as it would begin there. */
  ghost predicate PiecesScanned(pieces: seq<Piece>, rest: string) {
    && Erased(PiecesText(pieces) + rest, Code) == PiecesBlanked(pieces) + Erased(rest, Code)
    && (Fails(PiecesText(pieces) + rest, Code) <==> Fails(rest, Code))
  }

  lemma {:induction false} PiecesScan(pieces: seq<Piece>, rest: string)
    requires PiecesFormed(pieces, rest)
    ensures PiecesScanned(pieces, rest)
  {
    hide *;
    if pieces == [] {
      NoPieces(rest);
    } else {
      FirstFormed(pieces, rest);
      PieceScan(pieces[0], PiecesText(pieces[1..]) + rest);
      PiecesScan(pieces[1..], rest);
      OnePieceMore(pieces, rest);
    }
  }

  lemma NoPieces(rest: string)
    ensures PiecesScanned([], rest)
  {
    assert "" + rest == rest && "" + Erased(rest, Code) == Erased(rest, Code);
  }

  lemma FirstFormed(pieces: seq<Piece>, rest: string)
    requires pieces != [] && PiecesFormed(pieces, rest)
    ensures PieceFormed(pieces[0], PiecesText(pieces[1..]) + rest) && PiecesFormed(pieces[1..], rest)
  {
    hide PieceFormed;
  }

  lemma OnePieceMore(pieces: seq<Piece>, rest: string)
    requires pieces != [] && PiecesScanned(pieces[1..], rest)
    requires Scans(PieceText(pieces[0]), Code, Code, PiecesText(pieces[1..]) + rest, pieces[0].Quoted? || pieces[0].Templated?)
    ensures PiecesScanned(pieces, rest)
  {
    hide Erased, Fails, PieceText, AllBlanked;
    var first, more := PieceText(pieces[0]), PiecesText(pieces[1..]);
    assert first + more + rest == first + (more + rest);
    var a, b := PieceBlanked(pieces[0]), PiecesBlanked(pieces[1..]);
    assert a + (b + Erased(rest, Code)) == a + b + Erased(rest, Code);
  }

  /** Levels open one substitution after another, and end within the last. */
  lemma {:induction false} LevelsScan(levels: seq<seq<Part>>, depth: nat, rest: string)
    requires LevelsFormed(levels, depth > 0) && NoBrace(rest)
    ensures Scans(LevelsText(levels), Template(depth), Template(depth + |levels| - 1), rest, true)
    decreases |levels|
  {
    hide Scans, PartsFormed;
    if |levels| == 1 {
      PartsScan(levels[0], depth, rest);
    } else {
      var first, more := PartsText(levels[0]), LevelsText(levels[1..]);
      LevelsScan(levels[1..], depth + 1, rest);
      Opens(depth, more + rest);
      ScansBoth("${", more, Template(depth), Template(depth + 1), Template(depth + |levels| - 1), rest, true);
      assert ("${" + more + rest)[0] == '$';
      PartsScan(levels[0], depth, "${" + more + rest);
      ScansBoth(first, "${" + more, Template(depth), Template(depth), Template(depth + |levels| - 1), rest, true);
      assert first + "${" + more == first + ("${" + more);
    }
  }

  /** A source that stops short is blanked as far as it goes, and fails exactly when a backslash stops it in a template. */
  lemma EndingScan(ending: Ending)
    requires EndingFormed(ending)
    ensures Erased(EndingText(ending), Code) == EndingBlanked(ending)
    ensures Fails(EndingText(ending), Code) <==> ending.OpenTemplate? && ending.escaping
  {
    match ending
    case Finished =>
    case OpenNote(text) =>
      var t := OpenNoteScan(text, "");
      ScansAll(EndingText(ending), t, false);
    case OpenQuote(mark, chars, escaping) =>
      var text := [mark] + CharsText(chars);
      OpenQuoteScan(mark, chars, if escaping then "\\" else "");
      EscapesLast(text, Quote(mark), escaping);
    case OpenTemplate(levels, escaping) =>
      var after := if escaping then "\\" else "";
      ScansOne('`', Code, LevelsText(levels) + after, true);
      LevelsScan(levels, 0, after);
      ScansBoth("`", LevelsText(levels), Code, Template(0), Template(|levels| - 1), after, true);
      EscapesLast("`" + LevelsText(levels), Template(|levels| - 1), escaping);
  }

  lemma ScansAll(text: string, t: State, blank: bool)
    requires Scans(text, Code, t, "", blank)
    ensures Erased(text, Code) == if blank then AllBlanked(text) else text
    ensures Fails(text, Code) <==> t.TemplateEscape?
  {
    assert text + "" == text;
  }

  lemma EscapesLast(text: string, t: State, escaping: bool)
    requires t.Quote? || t.Template?
    requires Scans(text, Code, t, if escaping then "\\" else "", true)
    ensures var all := text + if escaping then "\\" else "";
      Erased(all, Code) == AllBlanked(all) && (Fails(all, Code) <==> escaping && t.Template?)
  {
    hide Scans;
    if escaping {
      assert "\\" + "" == "\\";
      ScansOne('\\', t, "", true);
      ScansBoth(text, "\\", Code, t, Step(t, '\\'), "", true);
      ScansAll(text + "\\", Step(t, '\\'), true);
    } else {
      ScansAll(text, t, true);
      assert text + "" == text;
    }
  }

  /** Of every program written so, finished or not, exactly the literals are blanked: quoted ones to the mark no backslash
      escapes, templates with all their substitutions hold. It fails exactly when it stops at a backslash in a template. */
  lemma ProgramBlanked(pieces: seq<Piece>, ending: Ending)
    requires PiecesFormed(pieces, EndingText(ending)) && EndingFormed(ending)
    ensures Erased(PiecesText(pieces) + EndingText(ending), Code) == PiecesBlanked(pieces) + EndingBlanked(ending)
    ensures Fails(PiecesText(pieces) + EndingText(ending), Code) <==> ending.OpenTemplate? && ending.escaping
  {
    hide Erased, Fails, PiecesFormed, EndingFormed;
    PiecesScan(pieces, EndingText(ending));
    EndingScan(ending);
  }

  // ---------------------------------------------------------------- every source is such a program

  lemma {:induction false} ReadLine(text: string) returns (k: nat)
    ensures k <= |text| && '\n' !in text[..k] && (text[k..] == "" || text[k..][0] == '\n')
  {
    if text == "" || text[0] == '\n' {
      k := 0;
    } else {
      var n := ReadLine(text[1..]);
      k := n + 1;
      assert text[..k] == [text[0]] + text[1..][..n] && text[k..] == text[1..][n..];
    }
  }

  /** The comment's text up to its close, or all there is. */
  lemma {:induction false} ReadNote(text: string) returns (k: nat)
    ensures k <= |text| && NoteFormed(text[..k])
    ensures k < |text| ==> Closes(text, k)
  {
    if text == "" || Closes(text, 0) {
      k := 0;
    } else {
      var n := ReadNote(text[1..]);
      k := n + 1;
      var note := text[..k];
      forall i | 0 <= i < |note| ensures !Closes(note, i) {
        if i == 0 {
          assert !Closes(text, 0);
        } else {
          assert !Closes(text[1..][..n], i - 1);
          assert note[1..] == text[1..][..n];
        }
      }
      assert k < |text| ==> Closes(text[1..], n);
    }
  }

  /** What a quoted literal's text is read as: its characters up to the mark, or as far as there are. */
  predicate CharsReadAs(text: string, mark: char, chars: seq<Char>, closed: bool, escaping: bool, rest: string) {
    && CharsFormed(mark, chars)
    && text == CharsText(chars) + if closed then [mark] + rest else if escaping then "\\" else ""
  }

  lemma {:induction false} ReadChars(text: string, mark: char)
    returns (chars: seq<Char>, closed: bool, escaping: bool, rest: string)
    requires IsQuote(mark)
    ensures CharsReadAs(text, mark, chars, closed, escaping, rest)
    decreases |text|
  {
    if text == "" {
      chars, closed, escaping, rest := [], false, false, "";
    } else if text[0] == mark {
      chars, closed, escaping, rest := [], true, false, text[1..];
      assert text == [mark] + rest;
    } else if text == "\\" {
      chars, closed, escaping, rest := [], false, true, "";
    } else {
      hide CharsReadAs;
      var letter := if text[0] == '\\' then Escaped(text[1]) else Raw(text[0]);
      var more, after;
      after := text[|CharText(letter)|..];
      more, closed, escaping, rest := ReadChars(after, mark);
      assert text == CharText(letter) + after;
      CharsMore(after, mark, letter, more, closed, escaping, rest);
      chars := [letter] + more;
    }
  }

  lemma CharsMore(text: string, mark: char, letter: Char, chars: seq<Char>, closed: bool, escaping: bool, rest: string)
    requires CharsReadAs(text, mark, chars, closed, escaping, rest)
    requires letter.Raw? ==> letter.c != mark && letter.c != '\\'
    ensures CharsReadAs(CharText(letter) + text, mark, [letter] + chars, closed, escaping, rest)
  {
    hide CharText;
    assert ([letter] + chars)[1..] == chars;
    var end := if closed then [mark] + rest else if escaping then "\\" else "";
    assert CharText(letter) + (CharsText(chars) + end) == CharText(letter) + CharsText(chars) + end;
  }

  /** What a template's or a substitution's text is read as. */
  datatype Reading = Shut(parts: seq<Part>, rest: string) | Stopped(levels: seq<seq<Part>>, escaping: bool)

  function Close(inside: bool): char {
    if inside then '}' else '`'
  }

  predicate ReadAs(text: string, inside: bool, reading: Reading) {
    match reading
    case Shut(parts, rest) => PartsFormed(parts, inside) && text == PartsText(parts) + ([Close(inside)] + rest)
    case Stopped(levels, escaping) =>
      LevelsFormed(levels, inside) && text == LevelsText(levels) + if escaping then "\\" else ""
  }

  /** With one more part before. */
  function Prefixed(part: Part, reading: Reading): Reading {
    match reading
    case Shut(parts, rest) => Shut([part] + parts, rest)
    case Stopped(levels, escaping) =>
      if levels == [] then reading else Stopped([[part] + levels[0]] + levels[1..], escaping)
  }

  predicate PartFits(part: Part, inside: bool, text: string) {
    match part
    case Letter(c) => c != '\\' && c != Close(inside) && (c == '$' ==> NoBrace(text))
    case Escape(_) => true
    case Substitution(body) => PartsFormed(body, true)
  }

  lemma ReadMore(text: string, inside: bool, part: Part, reading: Reading)
    requires ReadAs(text, inside, reading) && PartFits(part, inside, text)
    ensures ReadAs(PartText(part) + text, inside, Prefixed(part, reading))
  {
    hide PartText, PartsText, LevelsText, PartsFormed;
    match reading
    case Shut(parts, rest) =>
      PartsMore(part, parts, inside, [Close(inside)] + rest);
      assert PartText(part) + (PartsText(parts) + ([Close(inside)] + rest))
          == PartText(part) + PartsText(parts) + ([Close(inside)] + rest);
    case Stopped(levels, escaping) =>
      var after := if escaping then "\\" else "";
      LevelsMore(part, levels, inside, after);
      assert PartText(part) + (LevelsText(levels) + after) == PartText(part) + LevelsText(levels) + after;
  }

  lemma PartsMore(part: Part, parts: seq<Part>, inside: bool, after: string)
    requires PartsFormed(parts, inside) && PartFits(part, inside, PartsText(parts) + after)
    ensures PartsFormed([part] + parts, inside) && PartsText([part] + parts) == PartText(part) + PartsText(parts)
  {
    assert ([part] + parts)[1..] == parts;
    if parts != [] && parts[0] == Letter('{') {
      BraceFirst(parts, after);
    }
  }

  lemma BraceFirst(parts: seq<Part>, after: string)
    requires parts != [] && parts[0] == Letter('{')
    ensures !NoBrace(PartsText(parts) + after)
  {
    assert PartsText(parts)[0] == '{';
  }

  lemma LevelsMore(part: Part, levels: seq<seq<Part>>, inside: bool, after: string)
    requires LevelsFormed(levels, inside) && PartFits(part, inside, LevelsText(levels) + after)
    ensures var more := [[part] + levels[0]] + levels[1..];
      LevelsFormed(more, inside) && LevelsText(more) == PartText(part) + LevelsText(levels)
  {
    hide PartText, PartsText, PartsFormed;
    var more := [[part] + levels[0]] + levels[1..];
    assert more[1..] == levels[1..];
    var rest := if |levels| == 1 then "" else "${" + LevelsText(levels[1..]);
    assert LevelsText(levels) == PartsText(levels[0]) + rest;
    assert PartsText(levels[0]) + rest + after == PartsText(levels[0]) + (rest + after);
    PartsMore(part, levels[0], inside, rest + after);
    assert LevelsText(more) == PartText(part) + PartsText(levels[0]) + rest;
  }

  lemma {:induction false} ReadParts(text: string, inside: bool) returns (reading: Reading)
    ensures ReadAs(text, inside, reading)
    decreases |text|
  {
    if text == "" || text == "\\" {
      reading := Stopped([[]], text != "");
    } else if text[0] == Close(inside) {
      reading := Shut([], text[1..]);
      assert text == [text[0]] + text[1..];
    } else if |text| > 1 && text[0] == '$' && text[1] == '{' {
      reading := ReadSubstitution(text, inside);
    } else {
      var part := if text[0] == '\\' then Escape(text[1]) else Letter(text[0]);
      var rest := text[|PartText(part)|..];
      reading := ReadParts(rest, inside);
      ReadMore(rest, inside, part, reading);
      reading := Prefixed(part, reading);
      assert text == PartText(part) + rest;
    }
  }

  lemma {:induction false} ReadSubstitution(text: string, inside: bool) returns (reading: Reading)
    requires |text| > 1 && text[0] == '$' && text[1] == '{'
    ensures ReadAs(text, inside, reading)
    decreases |text|, 0
  {
    var body := ReadParts(text[2..], true);
    assert text == "${" + text[2..];
    if body.Shut? {
      reading := ReadParts(body.rest, inside);
      ReadMore(body.rest, inside, Substitution(body.parts), reading);
      reading := Prefixed(Substitution(body.parts), reading);
      assert "${" + (PartsText(body.parts) + ("}" + body.rest)) == "${" + PartsText(body.parts) + "}" + body.rest;
    } else {
      reading := Stopped([[]] + body.levels, body.escaping);
      assert ([[]] + body.levels)[1..] == body.levels;
    }
  }

  predicate SourceReadAs(text: string, pieces: seq<Piece>, ending: Ending) {
    && text == PiecesText(pieces) + EndingText(ending)
    && PiecesFormed(pieces, EndingText(ending)) && EndingFormed(ending)
  }

  lemma SourceMore(piece: Piece, text: string, pieces: seq<Piece>, ending: Ending)
    requires SourceReadAs(text, pieces, ending) && PieceFormed(piece, text)
    ensures SourceReadAs(PieceText(piece) + text, [piece] + pieces, ending)
  {
    hide PieceText, PieceFormed, EndingText, EndingFormed;
    assert ([piece] + pieces)[1..] == pieces;
    assert PieceText(piece) + (PiecesText(pieces) + EndingText(ending))
        == PieceText(piece) + PiecesText(pieces) + EndingText(ending);
  }

  /** The first piece of a source and what comes after it, or the ending it all is. */
  lemma ReadPiece(text: string) returns (piece: Piece, rest: string, ending: Ending)
    requires text != ""
    ensures if ending == Finished
            then |rest| < |text| && text == PieceText(piece) + rest && PieceFormed(piece, rest)
            else text == EndingText(ending) && EndingFormed(ending)
  {
    hide PartsText, LevelsText, PartsFormed, LevelsFormed, CharsText, CharsFormed, NoteFormed;
    piece, rest, ending := Other(' '), text[1..], Finished;
    assert text == [text[0]] + rest;
    var second := if |text| > 1 then text[1] else ' ';
    if text[0] == '/' && second == '/' {
      var k := ReadLine(text[2..]);
      piece, rest := LineNote(text[2..][..k]), text[2..][k..];
      assert text == "//" + text[2..][..k] + text[2..][k..];
    } else if text[0] == '/' && second == '*' {
      piece, rest, ending := ReadBlock(text);
    } else if IsQuote(text[0]) {
      var chars, closed, escaping, after := ReadChars(text[1..], text[0]);
      if closed {
        piece, rest := Quoted(text[0], chars), after;
        assert [text[0]] + (CharsText(chars) + ([text[0]] + after)) == [text[0]] + CharsText(chars) + [text[0]] + after;
      } else {
        ending := OpenQuote(text[0], chars, escaping);
        var last := if escaping then "\\" else "";
        assert [text[0]] + (CharsText(chars) + last) == [text[0]] + CharsText(chars) + last;
      }
    } else if text[0] == '`' {
      piece, rest, ending := ReadTemplate(text);
    } else {
      piece := Other(text[0]);
    }
  }

  lemma ReadBlock(text: string) returns (piece: Piece, rest: string, ending: Ending)
    requires |text| > 1 && text[0] == '/' && text[1] == '*'
    ensures if ending == Finished
            then |rest| < |text| && text == PieceText(piece) + rest && PieceFormed(piece, rest)
            else text == EndingText(ending) && EndingFormed(ending)
  {
    var after := text[2..];
    var k := ReadNote(after);
    assert text == "/*" + after;
    if k < |after| {
      piece, rest, ending := BlockNote(after[..k]), after[k + 2..], Finished;
      assert after == after[..k] + "*/" + after[k + 2..];
      assert "/*" + (after[..k] + "*/" + rest) == "/*" + after[..k] + "*/" + rest;
    } else {
      piece, rest, ending := Other(' '), "", OpenNote(after);
      assert after[..k] == after;
    }
  }

  lemma ReadTemplate(text: string) returns (piece: Piece, rest: string, ending: Ending)
    requires text != "" && text[0] == '`'
    ensures if ending == Finished
            then |rest| < |text| && text == PieceText(piece) + rest && PieceFormed(piece, rest)
            else text == EndingText(ending) && EndingFormed(ending)
  {
    hide PartsText, LevelsText, PartsFormed, LevelsFormed;
    assert text == "`" + text[1..];
    var reading := ReadParts(text[1..], false);
    if reading.Shut? {
      piece, rest, ending := Templated(reading.parts), reading.rest, Finished;
      assert "`" + (PartsText(reading.parts) + ("`" + rest)) == "`" + PartsText(reading.parts) + "`" + rest;
    } else {
      piece, rest, ending := Other(' '), "", OpenTemplate(reading.levels, reading.escaping);
      var last := if reading.escaping then "\\" else "";
      assert "`" + (LevelsText(reading.levels) + last) == "`" + LevelsText(reading.levels) + last;
    }
  }

  /** Every text is a program, finished or stopping short. */
  lemma {:induction false} EverySourceReads(text: string) returns (pieces: seq<Piece>, ending: Ending)
    ensures SourceReadAs(text, pieces, ending)
    decreases |text|
  {
    if text == "" {
      pieces, ending := [], Finished;
    } else {
      var piece, rest, end := ReadPiece(text);
      if end == Finished {
        pieces, ending := EverySourceReads(rest);
        SourceMore(piece, rest, pieces, ending);
        pieces := [piece] + pieces;
      } else {
        pieces, ending := [], end;
        assert "" + EndingText(end) == EndingText(end);
      }
    }
  }

  /** So whatever the source, it is a program of which exactly the literals are blanked. */
  lemma EverySourceBlanked(text: string) returns (pieces: seq<Piece>, ending: Ending)
    ensures SourceReadAs(text, pieces, ending)
    ensures Erased(text, Code) == PiecesBlanked(pieces) + EndingBlanked(ending)
    ensures Fails(text, Code) <==> ending.OpenTemplate? && ending.escaping
  {
    pieces, ending := EverySourceReads(text);
    ProgramBlanked(pieces, ending);
  }
}
