/**
 `crates/fork-guard/src/shell.rs`: a fork's shell command, split into the words of the commands
 of its pipe.

 `Lexer` is the source's lexer, proved against `Lex`; `Item` is a grammar of the commands
 accepted, with the words each means; `Quote` is how `crates/codex-hooks/src/install.rs` writes a
 word for the shell.
 */
module Shell {
  import opened Wrappers
  import opened Text

  datatype Word = Word(text: string, globs: bool)

  datatype ShellError = Form(c: char) | LeadingGlob(c: char) | Control | Unclosed | Empty

  predicate IsForm(c: char) {
    c == ';' || c == '&' || c == '>' || c == '<' || c == '$' || c == '`' || c == '(' || c == ')' || c == '{' || c == '}'
  }

  predicate IsGlob(c: char) {
    c == '*' || c == '?' || c == '[' || c == '~' || c == '^' || c == '#'
  }

  predicate IsBlank(c: char) {
    c == ' ' || c == '\t'
  }

  /** What a backslash escapes inside double quotes. */
  predicate IsEscapable(c: char) {
    c == '$' || c == '`' || c == '"' || c == '\\'
  }

  // What the lexer computes.

  datatype State = State(commands: seq<seq<Word>>, words: seq<Word>, word: Option<Word>, quoted: bool)

  const Start := State([], [], None, false)

  function WordOr(word: Option<Word>): Word {
    if word.Some? then word.value else Word("", false)
  }

  function Append(st: State, text: string): State {
    var word := WordOr(st.word);
    st.(word := Some(word.(text := word.text + text)))
  }

  function EndWordOf(st: State): State {
    st.(quoted := false, word := None, words := if st.word.Some? then st.words + [st.word.value] else st.words)
  }

  function EndCommandOf(st: State): Result<State, ShellError> {
    var ended := EndWordOf(st);
    if ended.words == [] then Err(Empty) else Ok(ended.(commands := ended.commands + [ended.words], words := []))
  }

  function NonControl(c: char): Result<char, ShellError> {
    if IsControl(c) then Err(Control) else Ok(c)
  }

  function Literal(rest: string): Result<char, ShellError> {
    if rest == "" then Err(Unclosed) else NonControl(rest[0])
  }

  /** The text up to the closing single quote, and what follows the quote. */
  function SingleText(rest: string): (r: Result<(string, string), ShellError>)
    ensures r.Ok? ==> |r.value.1| < |rest|
  {
    match Literal(rest)
    case Err(e) => Err(e)
    case Ok('\'') => Ok(("", rest[1..]))
    case Ok(c) => Prefixed([c], SingleText(rest[1..]))
  }

  /** The text up to the closing double quote, its backslashes removed, and what follows. */
  function DoubleText(rest: string): (r: Result<(string, string), ShellError>)
    ensures r.Ok? ==> |r.value.1| < |rest|
  {
    match Literal(rest)
    case Err(e) => Err(e)
    case Ok(c) =>
      if c == '"' then Ok(("", rest[1..]))
      else if c == '\\' then
        match Literal(rest[1..])
        case Err(e) => Err(e)
        case Ok(d) => Prefixed(if IsEscapable(d) then [d] else [c, d], DoubleText(rest[2..]))
      else if c == '`' || (c == '$' && !("\"" <= rest[1..])) then Err(Form(c))
      else Prefixed([c], DoubleText(rest[1..]))
  }

  function Prefixed(text: string, r: Result<(string, string), ShellError>): Result<(string, string), ShellError> {
    match r
    case Err(e) => Err(e)
    case Ok((more, after)) => Ok((text + more, after))
  }

  /** Whether `rest` may follow the target of a redirection. */
  predicate EndsTarget(rest: string) {
    rest == "" || IsBlank(rest[0]) || rest[0] == '|'
  }

  predicate IsTarget(rest: string, target: string) {
    target <= rest && EndsTarget(rest[|target|..])
  }

  /** What follows the target of `2>` at the start of `rest`, if one of the two is there. */
  function AfterTarget(rest: string): (r: Option<string>)
    ensures r.Some? ==> |r.value| < |rest|
  {
    if IsTarget(rest, "/dev/null") then Some(rest[9..])
    else if IsTarget(rest, "&1") then Some(rest[2..])
    else None
  }

  /** Whether the unquoted `2` of `2>` is the word read so far. */
  predicate IsTwo(st: State) {
    !st.quoted && st.word.Some? && st.word.value.text == "2"
  }

  /** Whether the word read so far may hold a glob. */
  predicate MayGlob(st: State) {
    st.word.Some? && st.word.value.text != "" && st.word.value.text[0] != '-' && st.word.value.text[0] != '~'
  }

  /** The state after `c` outside quotes, and what is left of `rest`. */
  function Step(st: State, c: char, rest: string): (r: Result<(State, string), ShellError>)
    ensures r.Ok? ==> |r.value.1| <= |rest|
  {
    if IsBlank(c) then Ok((EndWordOf(st), rest))
    else if c == '|' then
      match EndCommandOf(st) case Err(e) => Err(e) case Ok(ended) => Ok((ended, rest))
    else if c == '>' then
      var after := AfterTarget(rest);
      if after.Some? && IsTwo(st) then Ok((st.(word := None), after.value)) else Err(Form('>'))
    else if c == '\'' then
      match SingleText(rest)
      case Err(e) => Err(e)
      case Ok((text, after)) => Ok((Append(st, text).(quoted := true), after))
    else if c == '"' then
      match DoubleText(rest)
      case Err(e) => Err(e)
      case Ok((text, after)) => Ok((Append(st, text).(quoted := true), after))
    else if c == '\\' then
      match Literal(rest)
      case Err(e) => Err(e)
      case Ok(escaped) => Ok((Append(st, [escaped]).(quoted := true), rest[1..]))
    else if c == '~' && st.word == None then Ok((Append(st, [c]), rest))
    else if IsGlob(c) then
      if MayGlob(st) then Ok((Append(st, [c]).(word := Some(Word(st.word.value.text + [c], true))), rest))
      else Err(LeadingGlob(c))
    else if IsForm(c) then Err(Form(c))
    else
      match NonControl(c)
      case Err(e) => Err(e)
      case Ok(_) => Ok((Append(st, [c]), rest))
  }

  function Lex(st: State, s: string): Result<seq<seq<Word>>, ShellError>
    decreases |s|
  {
    if s == "" then
      match EndCommandOf(st) case Err(e) => Err(e) case Ok(ended) => Ok(ended.commands)
    else
      match Step(st, s[0], s[1..])
      case Err(e) => Err(e)
      case Ok((next, rest)) => Lex(next, rest)
  }

  // The lexer.

  class Lexer {
    var chars: string
    var commands: seq<seq<Word>>
    var words: seq<Word>
    var word: Option<Word>
    var quoted: bool

    constructor (command: string)
      ensures chars == command && Now() == Start
    {
      chars, commands, words, word, quoted := command, [], [], None, false;
    }

    ghost function Now(): State
      reads this
    {
      State(commands, words, word, quoted)
    }

    method Unquoted(character: char) returns (error: Option<ShellError>)
      modifies this
      ensures match Step(old(Now()), character, old(chars))
              case Err(e) => error == Some(e)
              case Ok((next, rest)) => error == None && Now() == next && chars == rest
    {
      error := None;
      if IsBlank(character) {
        EndWord();
      } else if character == '|' {
        error := EndCommand();
      } else if character == '>' {
        error := StderrRedirection();
      } else if character == '\'' {
        error := SingleQuoted();
      } else if character == '"' {
        error := DoubleQuoted();
      } else if character == '\\' {
        quoted := true;
        var escaped := NextLiteral();
        match escaped {
          case Err(e) => error := Some(e);
          case Ok(c) => Push(c);
        }
      } else if character == '~' && word == None {
        Push(character);
      } else if IsGlob(character) {
        error := Glob(character);
      } else if IsForm(character) {
        error := Some(Form(character));
      } else {
        match NonControl(character) {
          case Err(e) => error := Some(e);
          case Ok(c) => Push(c);
        }
      }
    }

    method SingleQuoted() returns (error: Option<ShellError>)
      modifies this
      ensures match SingleText(old(chars))
              case Err(e) => error == Some(e)
              case Ok((text, rest)) =>
                error == None && Now() == Append(old(Now()), text).(quoted := true) && chars == rest
    {
      word := Some(WordOr(word));
      quoted := true;
      ghost var text := "";
      AppendNothing(old(Now()));
      PrefixedNothing(SingleText(chars));
      while true
        invariant Now() == Append(old(Now()), text).(quoted := true)
        invariant SingleText(old(chars)) == Prefixed(text, SingleText(chars))
        decreases |chars|
      {
        var literal := NextLiteral();
        match literal {
          case Err(e) => return Some(e);
          case Ok(c) =>
            if c == '\'' {
              assert text + "" == text;
              return None;
            }
            Push(c);
            AppendTwice(old(Now()), text, [c]);
            PrefixedTwice(text, [c], SingleText(chars));
            text := text + [c];
        }
      }
    }

    method DoubleQuoted() returns (error: Option<ShellError>)
      modifies this
      ensures match DoubleText(old(chars))
              case Err(e) => error == Some(e)
              case Ok((text, rest)) =>
                error == None && Now() == Append(old(Now()), text).(quoted := true) && chars == rest
    {
      word := Some(WordOr(word));
      quoted := true;
      ghost var text := "";
      AppendNothing(old(Now()));
      PrefixedNothing(DoubleText(chars));
      while true
        invariant Now() == Append(old(Now()), text).(quoted := true)
        invariant DoubleText(old(chars)) == Prefixed(text, DoubleText(chars))
        decreases |chars|
      {
        ghost var added;
        var literal := NextLiteral();
        match literal {
          case Err(e) => return Some(e);
          case Ok(c) =>
            if c == '"' {
              assert text + "" == text;
              return None;
            } else if c == '\\' {
              var next := NextLiteral();
              match next {
                case Err(e) => return Some(e);
                case Ok(d) =>
                  added := if IsEscapable(d) then [d] else [c, d];
                  if !IsEscapable(d) {
                    Push('\\');
                    AppendTwice(old(Now()), text, [c]);
                    AppendTwice(old(Now()), text + [c], [d]);
                    assert text + [c] + [d] == text + added;
                  }
                  Push(d);
              }
            } else if c == '$' && "\"" <= chars {
              added := [c];
              Push(c);
            } else if c == '$' || c == '`' {
              return Some(Form(c));
            } else {
              added := [c];
              Push(c);
            }
        }
        AppendTwice(old(Now()), text, added);
        PrefixedTwice(text, added, DoubleText(chars));
        text := text + added;
      }
    }

    method StderrRedirection() returns (error: Option<ShellError>)
      modifies this
      ensures var after := AfterTarget(old(chars));
              if after.Some? && IsTwo(old(Now()))
              then error == None && Now() == old(Now()).(word := None) && chars == after.value
              else error == Some(Form('>'))
    {
      var after := AfterTarget(chars);
      if after.Some? && !quoted && word.Some? && word.value.text == "2" {
        word := None;
        chars := after.value;
        return None;
      }
      return Some(Form('>'));
    }

    method Glob(character: char) returns (error: Option<ShellError>)
      modifies this
      ensures chars == old(chars)
      ensures if MayGlob(old(Now()))
              then error == None && Now() == old(Now()).(word := Some(Word(old(word).value.text + [character], true)))
              else error == Some(LeadingGlob(character))
    {
      if word.Some? && word.value.text != "" && word.value.text[0] != '-' && word.value.text[0] != '~' {
        word := Some(Word(word.value.text + [character], true));
        return None;
      }
      return Some(LeadingGlob(character));
    }

    method NextLiteral() returns (r: Result<char, ShellError>)
      modifies this
      ensures Now() == old(Now()) && r == Literal(old(chars))
      ensures r.Ok? ==> chars == old(chars)[1..]
    {
      if chars == "" {
        return Err(Unclosed);
      }
      r := NonControl(chars[0]);
      chars := chars[1..];
    }

    method Push(character: char)
      modifies this
      ensures Now() == Append(old(Now()), [character]) && chars == old(chars)
    {
      var read := WordOr(word);
      word := Some(read.(text := read.text + [character]));
    }

    method EndWord()
      modifies this
      ensures Now() == EndWordOf(old(Now())) && chars == old(chars)
    {
      quoted := false;
      if word.Some? {
        words := words + [word.value];
      }
      word := None;
    }

    method EndCommand() returns (error: Option<ShellError>)
      modifies this
      ensures chars == old(chars)
      ensures match EndCommandOf(old(Now()))
              case Err(e) => error == Some(e)
              case Ok(ended) => error == None && Now() == ended
    {
      EndWord();
      if words == [] {
        return Some(Empty);
      }
      commands := commands + [words];
      words := [];
      return None;
    }
  }

  method SplitPipe(command: string) returns (r: Result<seq<seq<Word>>, ShellError>)
    ensures r == Lex(Start, command)
  {
    var lexer := new Lexer(command);
    while lexer.chars != ""
      invariant fresh(lexer)
      invariant Lex(lexer.Now(), lexer.chars) == Lex(Start, command)
      decreases |lexer.chars|
    {
      var character := lexer.chars[0];
      lexer.chars := lexer.chars[1..];
      var error := lexer.Unquoted(character);
      if error.Some? {
        return Err(error.value);
      }
    }
    var error := lexer.EndCommand();
    if error.Some? {
      return Err(error.value);
    }
    return Ok(lexer.commands);
  }

  lemma PrefixedTwice(a: string, b: string, r: Result<(string, string), ShellError>)
    ensures Prefixed(a, Prefixed(b, r)) == Prefixed(a + b, r)
  {
    if r.Ok? {
      assert a + (b + r.value.0) == a + b + r.value.0;
    }
  }

  lemma PrefixedNothing(r: Result<(string, string), ShellError>)
    ensures Prefixed("", r) == r
  {
    if r.Ok? {
      assert "" + r.value.0 == r.value.0;
    }
  }

  lemma AppendTwice(st: State, a: string, b: string)
    ensures Append(Append(st, a).(quoted := true), b).(quoted := true) == Append(st, a + b).(quoted := true)
  {
    assert WordOr(st.word).text + a + b == WordOr(st.word).text + (a + b);
  }

  lemma AppendNothing(st: State)
    ensures Append(st, "").word == Some(WordOr(st.word))
  {
    assert WordOr(st.word).text + "" == WordOr(st.word).text;
  }
}
