/**
 What `Shell.Lex` accepts, and what it means.

 An `Item` is one lexical element of a command. `AcceptsExactlyTheGrammar` says that the lexer
 accepts exactly the renderings of legal item lists, with the words those items mean.
 */
module ShellGrammar {
  import opened Common
  import opened Wrappers
  import opened Text
  import opened Shell

  /** One element inside double quotes: a character, an escaped one, or a backslash that stays. */
  datatype Piece = Raw(c: char) | Escaped(c: char) | Backslashed(c: char)

  datatype Item =
    | Space(c: char)
    | Bar
    | Bare(c: char)
    | Pattern(c: char)
    | Escape(c: char)
    | Single(text: string)
    | Double(pieces: seq<Piece>)
    | Stderr(target: string)

  predicate Printable(text: string) {
    forall i :: 0 <= i < |text| ==> !IsControl(text[i])
  }

  /** A character with no meaning of its own outside quotes. */
  predicate Ordinary(c: char) {
    && !IsBlank(c) && !IsGlob(c) && !IsForm(c) && !IsControl(c)
    && c != '|' && c != '\'' && c != '"' && c != '\\'
  }

  /** A `$` may only stand last, where the closing quote follows it. */
  predicate LegalPieces(pieces: seq<Piece>) {
    pieces == [] ||
    (&& !IsControl(pieces[0].c)
     && LegalPieces(pieces[1..])
     && match pieces[0]
        case Raw(c) => c != '"' && c != '\\' && c != '`' && (c == '$' ==> |pieces| == 1)
        case Escaped(c) => IsEscapable(c)
        case Backslashed(c) => !IsEscapable(c))
  }

  function RenderPieces(pieces: seq<Piece>): string {
    if pieces == [] then ""
    else (if pieces[0].Raw? then [pieces[0].c] else ['\\', pieces[0].c]) + RenderPieces(pieces[1..])
  }

  function PiecesText(pieces: seq<Piece>): string {
    if pieces == [] then ""
    else (if pieces[0].Backslashed? then ['\\', pieces[0].c] else [pieces[0].c]) + PiecesText(pieces[1..])
  }

  function RenderItem(item: Item): string {
    match item
    case Space(c) => [c]
    case Bar => "|"
    case Bare(c) => [c]
    case Pattern(c) => [c]
    case Escape(c) => ['\\', c]
    case Single(text) => "'" + (text + "'")
    case Double(pieces) => "\"" + (RenderPieces(pieces) + "\"")
    case Stderr(target) => ">" + target
  }

  function RenderItems(items: seq<Item>): string {
    if items == [] then "" else RenderItem(items[0]) + RenderItems(items[1..])
  }

  /** Whether `item` may stand where the lexer is in `st`, with `rest` after it. */
  predicate LegalItem(st: State, item: Item, rest: string) {
    match item
    case Space(c) => IsBlank(c)
    case Bar => st.words != [] || st.word.Some?
    case Bare(c) => Ordinary(c) || (c == '~' && st.word == None)
    case Pattern(c) => IsGlob(c) && MayGlob(st)
    case Escape(c) => !IsControl(c)
    case Single(text) => Printable(text) && '\'' !in text
    case Double(pieces) => LegalPieces(pieces)
    case Stderr(target) => (target == "/dev/null" || target == "&1") && IsTwo(st) && EndsTarget(rest)
  }

  /** What `item` adds to what is read: its characters, or the end of a word or a command. */
  function Apply(st: State, item: Item): State {
    match item
    case Space(_) => EndWordOf(st)
    case Bar => var ended := EndWordOf(st); ended.(commands := ended.commands + [ended.words], words := [])
    case Bare(c) => Append(st, [c])
    case Pattern(c) => st.(word := Some(Word(WordOr(st.word).text + [c], true)))
    case Escape(c) => Append(st, [c]).(quoted := true)
    case Single(text) => Append(st, text).(quoted := true)
    case Double(pieces) => Append(st, PiecesText(pieces)).(quoted := true)
    case Stderr(_) => st.(word := None)
  }

  predicate Legal(st: State, items: seq<Item>)
    decreases |items|
  {
    items == [] ||
    (LegalItem(st, items[0], RenderItems(items[1..])) && Legal(Apply(st, items[0]), items[1..]))
  }

  function Meaning(st: State, items: seq<Item>): State
    decreases |items|
  {
    if items == [] then st else Meaning(Apply(st, items[0]), items[1..])
  }

  /** The commands that legal `items`, to the end of the text, mean. */
  function Commands(st: State, items: seq<Item>): Result<seq<seq<Word>>, ShellError> {
    match EndCommandOf(Meaning(st, items)) case Err(e) => Err(e) case Ok(ended) => Ok(ended.commands)
  }

  // Quoted texts.

  lemma {:induction false} SingleReadBack(text: string, rest: string)
    requires Printable(text) && '\'' !in text
    ensures SingleText(text + "'" + rest) == Ok((text, rest))
  {
    if text == "" {
      assert ("" + "'" + rest)[1..] == rest;
    } else {
      assert (text + "'" + rest)[1..] == text[1..] + "'" + rest;
      SingleReadBack(text[1..], rest);
      assert [text[0]] + text[1..] == text;
    }
  }

  lemma {:induction false} SingleSplit(rest: string)
    requires SingleText(rest).Ok?
    ensures var (text, after) := SingleText(rest).value;
      Printable(text) && '\'' !in text && rest == text + "'" + after
  {
    if rest[0] == '\'' {
      assert rest == "" + "'" + rest[1..];
    } else {
      SingleSplit(rest[1..]);
      var (text, after) := SingleText(rest[1..]).value;
      assert rest == [rest[0]] + rest[1..];
      assert [rest[0]] + (text + "'" + after) == [rest[0]] + text + "'" + after;
    }
  }

  lemma {:induction false} DoubleReadBack(pieces: seq<Piece>, rest: string)
    requires LegalPieces(pieces)
    ensures DoubleText(RenderPieces(pieces) + "\"" + rest) == Ok((PiecesText(pieces), rest))
  {
    var text := RenderPieces(pieces) + "\"" + rest;
    if pieces == [] {
      assert text[1..] == rest;
    } else {
      DoubleReadBack(pieces[1..], rest);
      var more := RenderPieces(pieces[1..]) + "\"" + rest;
      if pieces[0].Raw? {
        assert text == [pieces[0].c] + more;
        assert text[1..] == more;
      } else {
        assert text == ['\\', pieces[0].c] + more;
        assert text[1..] == [pieces[0].c] + more && text[2..] == more;
      }
    }
  }

  lemma {:induction false} DoubleSplit(rest: string) returns (pieces: seq<Piece>)
    requires DoubleText(rest).Ok?
    ensures LegalPieces(pieces) && PiecesText(pieces) == DoubleText(rest).value.0
    ensures rest == RenderPieces(pieces) + "\"" + DoubleText(rest).value.1
    decreases |rest|
  {
    var after := DoubleText(rest).value.1;
    if rest[0] == '"' {
      pieces := [];
      assert rest == "" + "\"" + rest[1..];
    } else {
      var skip := if rest[0] == '\\' then 2 else 1;
      var piece := if rest[0] != '\\' then Raw(rest[0]) else if IsEscapable(rest[1]) then Escaped(rest[1])
          else Backslashed(rest[1]);
      var more := DoubleSplit(rest[skip..]);
      pieces := [piece] + more;
      assert pieces[1..] == more;
      assert rest == rest[..skip] + rest[skip..];
      assert RenderPieces(pieces) == rest[..skip] + RenderPieces(more);
      assert rest[..skip] + (RenderPieces(more) + "\"" + after) == rest[..skip] + RenderPieces(more) + "\"" + after;
    }
  }

  // The grammar and the lexer.

  lemma StepOfQuote(st: State, item: Item, rest: string)
    requires (item.Single? || item.Double?) && LegalItem(st, item, rest)
    ensures var s := RenderItem(item) + rest;
      Step(st, s[0], s[1..]) == Ok((Apply(st, item), rest))
  {
    var s := RenderItem(item) + rest;
    if item.Single? {
      assert s[1..] == item.text + "'" + rest;
      SingleReadBack(item.text, rest);
    } else {
      assert s[1..] == RenderPieces(item.pieces) + "\"" + rest;
      DoubleReadBack(item.pieces, rest);
    }
  }

  lemma StepOfRedirection(st: State, target: string, rest: string)
    requires LegalItem(st, Stderr(target), rest)
    ensures Step(st, '>', target + rest) == Ok((st.(word := None), rest))
  {
    assert (target + rest)[|target|..] == rest;
  }

  lemma StepOfItem(st: State, item: Item, rest: string)
    requires LegalItem(st, item, rest)
    ensures var s := RenderItem(item) + rest;
      s != "" && Step(st, s[0], s[1..]) == Ok((Apply(st, item), rest))
  {
    match item
    case Single(_) => StepOfQuote(st, item, rest);
    case Double(_) => StepOfQuote(st, item, rest);
    case Stderr(target) =>
      StepOfRedirection(st, target, rest);
      assert (">" + target + rest)[1..] == target + rest;
    case Escape(c) => assert (['\\', c] + rest)[1..] == [c] + rest && ([c] + rest)[1..] == rest;
    case _ => assert (RenderItem(item) + rest)[1..] == rest;
  }

  lemma {:induction false} GrammarIsAccepted(st: State, items: seq<Item>)
    requires Legal(st, items)
    ensures Lex(st, RenderItems(items)) == Commands(st, items)
    decreases |items|
  {
    if items != [] {
      StepOfItem(st, items[0], RenderItems(items[1..]));
      GrammarIsAccepted(Apply(st, items[0]), items[1..]);
    }
  }

  lemma SingleItem(rest: string) returns (item: Item)
    requires SingleText(rest).Ok?
    ensures item == Single(SingleText(rest).value.0) && Printable(item.text) && '\'' !in item.text
    ensures "'" + rest == RenderItem(item) + SingleText(rest).value.1
  {
    var (text, after) := SingleText(rest).value;
    SingleSplit(rest);
    item := Single(text);
    assert "'" + (text + "'" + after) == "'" + (text + "'") + after;
  }

  lemma DoubleItem(rest: string) returns (item: Item)
    requires DoubleText(rest).Ok?
    ensures item.Double? && LegalPieces(item.pieces) && PiecesText(item.pieces) == DoubleText(rest).value.0
    ensures "\"" + rest == RenderItem(item) + DoubleText(rest).value.1
  {
    var after := DoubleText(rest).value.1;
    var pieces := DoubleSplit(rest);
    item := Double(pieces);
    assert "\"" + (RenderPieces(pieces) + "\"" + after) == "\"" + (RenderPieces(pieces) + "\"") + after;
  }

  /** The item the lexer's next step reads. */
  lemma ItemOfStep(st: State, c: char, rest: string) returns (item: Item)
    requires Step(st, c, rest).Ok?
    ensures var (next, after) := Step(st, c, rest).value;
      LegalItem(st, item, after) && Apply(st, item) == next && [c] + rest == RenderItem(item) + after
  {
    var after := Step(st, c, rest).value.1;
    if IsBlank(c) {
      item := Space(c);
    } else if c == '|' {
      item := Bar;
    } else if c == '>' {
      item := Stderr(rest[..|rest| - |after|]);
    } else if c == '\'' {
      item := SingleItem(rest);
    } else if c == '"' {
      item := DoubleItem(rest);
    } else if c == '\\' {
      item := Escape(rest[0]);
    } else if IsGlob(c) && !(c == '~' && st.word == None) {
      item := Pattern(c);
    } else {
      item := Bare(c);
    }
  }

  lemma {:induction false} AcceptedIsGrammar(st: State, s: string) returns (items: seq<Item>)
    requires Lex(st, s).Ok?
    ensures Legal(st, items) && RenderItems(items) == s && Commands(st, items) == Lex(st, s)
    decreases |s|
  {
    if s == "" {
      items := [];
    } else {
      var (next, after) := Step(st, s[0], s[1..]).value;
      var item := ItemOfStep(st, s[0], s[1..]);
      var more := AcceptedIsGrammar(next, after);
      items := [item] + more;
      assert items[1..] == more;
      assert s == [s[0]] + s[1..];
    }
  }

  /** The lexer accepts a command with some words exactly when its items are legal and mean them. */
  lemma {:induction false} AcceptsExactlyTheGrammar(s: string, commands: seq<seq<Word>>)
    ensures Lex(Start, s) == Ok(commands) <==>
            exists items :: Legal(Start, items) && RenderItems(items) == s && Commands(Start, items) == Ok(commands)
  {
    if Lex(Start, s) == Ok(commands) {
      var items := AcceptedIsGrammar(Start, s);
    }
    forall items | Legal(Start, items) && RenderItems(items) == s && Commands(Start, items) == Ok(commands)
      ensures Lex(Start, s) == Ok(commands)
    {
      GrammarIsAccepted(Start, items);
    }
  }

  // What holds of every accepted command.

  /** A word the guard may rely on: printable, and if it is a pattern, one that matches no option. */
  predicate SafeWord(word: Word) {
    && Printable(word.text)
    && (word.globs ==> word.text != "" && word.text[0] != '-' && word.text[0] != '~')
  }

  ghost predicate SafeWords(words: seq<Word>) {
    forall j :: 0 <= j < |words| ==> SafeWord(words[j])
  }

  ghost predicate SafeCommands(commands: seq<seq<Word>>) {
    forall i :: 0 <= i < |commands| ==> commands[i] != [] && SafeWords(commands[i])
  }

  ghost predicate SafeState(st: State) {
    SafeCommands(st.commands) && SafeWords(st.words) && (st.word.Some? ==> SafeWord(st.word.value))
  }

  lemma {:induction false} PiecesPrintable(pieces: seq<Piece>)
    requires LegalPieces(pieces)
    ensures Printable(PiecesText(pieces))
  {
    if pieces != [] {
      PiecesPrintable(pieces[1..]);
    }
  }

  lemma ApplyIsSafe(st: State, item: Item, rest: string)
    requires SafeState(st) && LegalItem(st, item, rest)
    ensures SafeState(Apply(st, item))
  {
    if item.Double? {
      PiecesPrintable(item.pieces);
    }
  }

  lemma {:induction false} MeaningIsSafe(st: State, items: seq<Item>)
    requires SafeState(st) && Legal(st, items)
    ensures SafeState(Meaning(st, items))
    decreases |items|
  {
    if items != [] {
      ApplyIsSafe(st, items[0], RenderItems(items[1..]));
      MeaningIsSafe(Apply(st, items[0]), items[1..]);
    }
  }

  /** Every command of an accepted pipe has words, and they are safe. */
  lemma {:induction false} AcceptedIsSafe(s: string)
    requires Lex(Start, s).Ok?
    ensures Lex(Start, s).value != [] && SafeCommands(Lex(Start, s).value)
  {
    var items := AcceptedIsGrammar(Start, s);
    MeaningIsSafe(Start, items);
  }

  // Printing a pipe and splitting it again.

  /** `word` for the shell, as `hook_command` writes it: each `'` as `'\''`. */
  function Quote(word: string): string {
    "'" + Replaced(word) + "'"
  }

  function Replaced(word: string): string {
    if word == "" then "" else (if word[0] == '\'' then "'\\''" else [word[0]]) + Replaced(word[1..])
  }

  function PrintCommand(words: seq<string>): string
    requires words != []
  {
    if |words| == 1 then Quote(words[0]) else Quote(words[0]) + (" " + PrintCommand(words[1..]))
  }

  function PrintPipe(commands: seq<seq<string>>): string
    requires commands != [] && forall i :: 0 <= i < |commands| ==> commands[i] != []
  {
    if |commands| == 1 then PrintCommand(commands[0]) else PrintCommand(commands[0]) + ("|" + PrintPipe(commands[1..]))
  }

  function Plain(words: seq<string>): (r: seq<Word>)
    ensures |r| == |words| && forall i :: 0 <= i < |r| ==> r[i] == Word(words[i], false)
  {
    seq(|words|, i requires 0 <= i < |words| => Word(words[i], false))
  }

  function PlainCommands(commands: seq<seq<string>>): (r: seq<seq<Word>>)
    ensures |r| == |commands| && forall i :: 0 <= i < |r| ==> r[i] == Plain(commands[i])
  {
    seq(|commands|, i requires 0 <= i < |commands| => Plain(commands[i]))
  }

  function Texts(words: seq<Word>): (r: seq<string>)
    ensures |r| == |words| && forall i :: 0 <= i < |r| ==> r[i] == words[i].text
  {
    seq(|words|, i requires 0 <= i < |words| => words[i].text)
  }

  function CommandTexts(commands: seq<seq<Word>>): (r: seq<seq<string>>)
    ensures |r| == |commands| && forall i :: 0 <= i < |r| ==> r[i] == Texts(commands[i])
  {
    seq(|commands|, i requires 0 <= i < |commands| => Texts(commands[i]))
  }

  /** The single-quoted stretch up to the next `'` of `word`, and then the rest of it. */
  lemma {:induction false} StretchOf(word: string) returns (stretch: string)
    ensures stretch <= word && '\'' !in stretch
    ensures stretch == word || (word[|stretch|] == '\'' &&
              Replaced(word) == stretch + ("'\\''" + Replaced(word[|stretch| + 1..])))
    ensures stretch == word ==> Replaced(word) == word
  {
    stretch := "";
    if word != "" && word[0] != '\'' {
      var more := StretchOf(word[1..]);
      stretch := [word[0]] + more;
      if more != word[1..] {
        assert word[1..][|more| + 1..] == word[|stretch| + 1..];
        var tail := "'\\''" + Replaced(word[|stretch| + 1..]);
        assert [word[0]] + (more + tail) == stretch + tail;
      }
    }
  }

  /** A quoted word that holds a `'`: a quoted stretch, an escaped `'`, and a quoted word. */
  lemma {:induction false} QuoteText(word: string, stretch: string, rest: string)
    requires |stretch| < |word|
    requires Replaced(word) == stretch + ("'\\''" + Replaced(word[|stretch| + 1..]))
    ensures Quote(word) + rest == "'" + (stretch + "'") + ("\\'" + (Quote(word[|stretch| + 1..]) + rest))
  {
    assert "'\\''" == "'" + "\\'" + "'";
  }

  lemma LexItem(st: State, item: Item, rest: string)
    requires LegalItem(st, item, rest)
    ensures Lex(st, RenderItem(item) + rest) == Lex(Apply(st, item), rest)
  {
    StepOfItem(st, item, rest);
  }

  /** Appending `word` by its stretch, the `'` after it and its tail. */
  lemma AppendParts(st: State, word: string, stretch: string)
    requires |stretch| < |word| && stretch <= word && word[|stretch|] == '\''
    ensures Append(Append(Append(st, stretch).(quoted := true), "'").(quoted := true),
        word[|stretch| + 1..]).(quoted := true)
            == Append(st, word).(quoted := true)
  {
    AppendTwice(st, stretch, "'");
    AppendTwice(st, stretch + "'", word[|stretch| + 1..]);
    assert stretch + "'" + word[|stretch| + 1..] == word;
  }

  lemma LexQuotedQuote(st: State, stretch: string, rest: string)
    requires Printable(stretch) && '\'' !in stretch
    ensures Lex(st, "'" + (stretch + "'") + ("\\'" + rest)) ==
            Lex(Append(Append(st, stretch).(quoted := true), "'").(quoted := true), rest)
  {
    LexItem(st, Single(stretch), "\\'" + rest);
    LexItem(Append(st, stretch).(quoted := true), Escape('\''), rest);
  }

  lemma {:induction false} QuoteReadsBack(st: State, word: string, rest: string)
    requires Printable(word)
    ensures Lex(st, Quote(word) + rest) == Lex(Append(st, word).(quoted := true), rest)
    decreases |word|
  {
    var stretch := StretchOf(word);
    if stretch == word {
      LexItem(st, Single(word), rest);
      Associate("'", word, "'");
    } else {
      var tail := word[|stretch| + 1..];
      QuoteText(word, stretch, rest);
      LexQuotedQuote(st, stretch, Quote(tail) + rest);
      QuoteReadsBack(Append(Append(st, stretch).(quoted := true), "'").(quoted := true), tail, rest);
      AppendParts(st, word, stretch);
    }
  }

  lemma FirstWord(st: State, words: seq<string>)
    requires words != [] && st.word == None
    ensures EndWordOf(Append(st, words[0]).(quoted := true)) ==
        EndWordOf(st).(words := st.words + [Word(words[0], false)])
    ensures st.words + [Word(words[0], false)] + Plain(words[1..]) == st.words + Plain(words)
    ensures |words| == 1 ==> st.words + [Word(words[0], false)] == st.words + Plain(words)
  {
    assert "" + words[0] == words[0];
  }

  lemma {:induction false} CommandReadsBack(st: State, words: seq<string>, rest: string) returns (last: State)
    requires words != [] && forall i :: 0 <= i < |words| ==> Printable(words[i])
    requires st.word == None
    ensures last.word.Some? && EndWordOf(last) == EndWordOf(st).(words := st.words + Plain(words))
    ensures Lex(st, PrintCommand(words) + rest) == Lex(last, rest)
    decreases |words|
  {
    last := Append(st, words[0]).(quoted := true);
    FirstWord(st, words);
    if |words| == 1 {
      QuoteReadsBack(st, words[0], rest);
    } else {
      var more := PrintCommand(words[1..]) + rest;
      assert PrintCommand(words) + rest == Quote(words[0]) + (" " + more);
      QuoteReadsBack(st, words[0], " " + more);
      LexItem(last, Space(' '), more);
      last := CommandReadsBack(EndWordOf(last), words[1..], rest);
    }
  }

  /** A command read to its end, at `|` or at the end of the text. */
  lemma CommandEnds(st: State, words: seq<string>, last: State)
    requires st.words == [] && words != [] && last.word.Some?
    requires EndWordOf(last) == EndWordOf(st).(words := st.words + Plain(words))
    ensures EndCommandOf(last) == Ok(State(st.commands + [Plain(words)], [], None, false))
  {
    assert [] + Plain(words) == Plain(words);
  }

  lemma PlainOfFirst(done: seq<seq<Word>>, commands: seq<seq<string>>)
    requires commands != []
    ensures done + [Plain(commands[0])] + PlainCommands(commands[1..]) == done + PlainCommands(commands)
  {
  }

  lemma {:induction false} PipeReadsBack(st: State, commands: seq<seq<string>>)
    requires commands != [] && forall i :: 0 <= i < |commands| ==> commands[i] != []
    requires forall i, j :: 0 <= i < |commands| && 0 <= j < |commands[i]| ==> Printable(commands[i][j])
    requires st.word == None && st.words == []
    ensures Lex(st, PrintPipe(commands)) == Ok(st.commands + PlainCommands(commands))
    decreases |commands|
  {
    var next := State(st.commands + [Plain(commands[0])], [], None, false);
    var more := if |commands| == 1 then "" else "|" + PrintPipe(commands[1..]);
    assert PrintPipe(commands) == PrintCommand(commands[0]) + more;
    var last := CommandReadsBack(st, commands[0], more);
    CommandEnds(st, commands[0], last);
    PlainOfFirst(st.commands, commands);
    if |commands| == 1 {
      assert next.commands + PlainCommands(commands[1..]) == next.commands;
    } else {
      LexItem(last, Bar, PrintPipe(commands[1..]));
      PipeReadsBack(next, commands[1..]);
    }
  }

  /** A printed pipe of words splits into exactly those words, none of them a pattern. */
  lemma {:induction false} PrintThenSplit(commands: seq<seq<string>>)
    requires commands != [] && forall i :: 0 <= i < |commands| ==> commands[i] != []
    requires forall i, j :: 0 <= i < |commands| && 0 <= j < |commands[i]| ==> Printable(commands[i][j])
    ensures Lex(Start, PrintPipe(commands)) == Ok(PlainCommands(commands))
  {
    PipeReadsBack(Start, commands);
    assert [] + PlainCommands(commands) == PlainCommands(commands);
  }

  /** Printing and splitting again any accepted command yields the same words. */
  lemma {:induction false} SplitThenPrintThenSplit(s: string)
    requires Lex(Start, s).Ok?
    ensures var commands := CommandTexts(Lex(Start, s).value);
      && commands != [] && (forall i :: 0 <= i < |commands| ==> commands[i] != [])
      && Lex(Start, PrintPipe(commands)) == Ok(PlainCommands(commands))
  {
    AcceptedIsSafe(s);
    var accepted := Lex(Start, s).value;
    var commands := CommandTexts(accepted);
    forall i, j | 0 <= i < |commands| && 0 <= j < |commands[i]|
      ensures Printable(commands[i][j])
    {
      assert SafeWord(accepted[i][j]);
    }
    PrintThenSplit(commands);
  }
}
