/**
 `crates/fork-guard/src/sed.rs`: the arguments of `sed` that print lines and nothing else.

 `Argument` is a grammar of the argument lists GNU sed reads; `PrintsOnly` accepts exactly those
 that are quiet and whose scripts are all in the grammar of `Sed`.
 */
module SedArguments {
  import opened Wrappers
  import opened Shell
  import Sed

  /** Whether the word before `--` is an option: `-` itself is standard input. */
  predicate IsOption(text: string) {
    |text| > 1 && text[0] == '-'
  }

  predicate IsQuietOption(text: string) {
    text == "--quiet" || text == "--silent"
  }

  predicate IsNeutralOption(text: string) {
    || text == "--regexp-extended" || text == "--separate" || text == "--null-data"
    || text == "--unbuffered" || text == "--posix" || text == "--sandbox"
  }

  predicate IsSwitchLetter(c: char) {
    c == 'n' || c == 'E' || c == 'r' || c == 's' || c == 'u' || c == 'z'
  }

  // What the options read.

  /** The options read so far, and the words left to read. */
  datatype Progress = Progress(quiet: bool, scripts: seq<Word>, rest: seq<Word>)

  function ReadScript(r: Progress): Option<Progress> {
    if r.rest == [] then None else Some(Progress(r.quiet, r.scripts + [r.rest[0]], r.rest[1..]))
  }

  function ReadBundle(letters: string, r: Progress): Option<Progress>
    decreases |letters|
  {
    if letters == "" then Some(r)
    else if letters[0] == 'n' then ReadBundle(letters[1..], r.(quiet := true))
    else if IsSwitchLetter(letters[0]) then ReadBundle(letters[1..], r)
    else if letters == "e" then ReadScript(r)
    else None
  }

  function ReadOption(text: string, r: Progress): Option<Progress>
    requires IsOption(text)
  {
    if IsQuietOption(text) then Some(r.(quiet := true))
    else if IsNeutralOption(text) then Some(r)
    else if text == "--expression" then ReadScript(r)
    else ReadBundle(text[1..], r)
  }

  class Options {
    var quiet: bool
    var scripts: seq<Word>

    constructor ()
      ensures !quiet && scripts == []
    {
      quiet, scripts := false, [];
    }

    /** Reads the option `text`, and its value from `words` when it takes one. */
    method Read(text: string, words: seq<Word>) returns (ok: bool, rest: seq<Word>)
      requires IsOption(text)
      modifies this
      ensures var r := ReadOption(text, Progress(old(quiet), old(scripts), words));
        ok == r.Some? && (ok ==> r.value == Progress(quiet, scripts, rest))
    {
      rest := words;
      if IsQuietOption(text) {
        quiet := true;
      } else if IsNeutralOption(text) {
      } else if text == "--expression" {
        ok, rest := Script(words);
        return;
      } else {
        ok, rest := Bundle(text[1..], words);
        return;
      }
      ok := true;
    }

    method Bundle(letters: string, words: seq<Word>) returns (ok: bool, rest: seq<Word>)
      modifies this
      ensures var r := ReadBundle(letters, Progress(old(quiet), old(scripts), words));
        ok == r.Some? && (ok ==> r.value == Progress(quiet, scripts, rest))
    {
      rest := words;
      for index := 0 to |letters|
        invariant scripts == old(scripts) && rest == words
        invariant ReadBundle(letters, Progress(old(quiet), old(scripts), words)) ==
                  ReadBundle(letters[index..], Progress(quiet, scripts, rest))
      {
        var letter := letters[index];
        assert letters[index..][1..] == letters[index + 1..];
        if letter == 'n' {
          quiet := true;
        } else if IsSwitchLetter(letter) {
        } else if letter == 'e' {
          if index + 1 != |letters| {
            ok := false;
          } else {
            assert letters[index..] == "e";
            ok, rest := Script(words);
          }
          return;
        } else {
          return false, rest;
        }
      }
      ok := true;
    }

    method Script(words: seq<Word>) returns (ok: bool, rest: seq<Word>)
      modifies this
      ensures var r := ReadScript(Progress(old(quiet), old(scripts), words));
        ok == r.Some? && (ok ==> r.value == Progress(quiet, scripts, rest))
    {
      if words == [] {
        return false, words;
      }
      scripts := scripts + [words[0]];
      return true, words[1..];
    }
  }

  /** What all the arguments read: the options, and the operands in `rest`. */
  function ReadAll(r: Progress, operands: seq<Word>): (o: Option<Progress>)
    decreases |r.rest|
  {
    if r.rest == [] then Some(r.(rest := operands))
    else
      var word := r.rest[0];
      var left := r.(rest := r.rest[1..]);
      if word.text == "--" then Some(r.(rest := operands + left.rest))
      else if IsOption(word.text) then
        match ReadOption(word.text, left)
        case None => None
        case Some(next) => ReadKeepsOrder(word.text, left); ReadAll(next, operands)
      else ReadAll(left, operands + [word])
  }

  lemma ReadKeepsOrder(text: string, r: Progress)
    requires IsOption(text)
    ensures ReadOption(text, r).Some? ==> |ReadOption(text, r).value.rest| <= |r.rest|
  {
    BundleKeepsOrder(text[1..], r);
  }

  lemma BundleKeepsOrder(letters: string, r: Progress)
    ensures ReadBundle(letters, r).Some? ==> |ReadBundle(letters, r).value.rest| <= |r.rest|
    decreases |letters|
  {
  }

  /** The scripts sed runs: those the options give, or else the first operand. */
  function Chosen(scripts: seq<Word>, operands: seq<Word>): seq<Word> {
    if scripts != [] then scripts else if operands != [] then [operands[0]] else []
  }

  ghost predicate AllPrintLines(scripts: seq<Word>) {
    forall i :: 0 <= i < |scripts| ==> PrintsLines(scripts[i])
  }

  ghost predicate AcceptsRead(r: Progress) {
    var scripts := Chosen(r.scripts, r.rest);
    r.quiet && scripts != [] && AllPrintLines(scripts)
  }

  method PrintsOnly(arguments: seq<Word>) returns (ok: bool)
    ensures ok <==> InGrammar(arguments)
  {
    AcceptsExactlyTheGrammar(arguments);
    var options := new Options();
    var operands := [];
    var words := arguments;
    ghost var all := ReadAll(Progress(false, [], arguments), []);
    while words != []
      invariant fresh(options)
      invariant all == ReadAll(Progress(options.quiet, options.scripts, words), operands)
      decreases |words|
    {
      var word := words[0];
      words := words[1..];
      if word.text == "--" {
        operands := operands + words;
        words := [];
      } else if IsOption(word.text) {
        ReadKeepsOrder(word.text, Progress(options.quiet, options.scripts, words));
        var read;
        read, words := options.Read(word.text, words);
        if !read {
          return false;
        }
      } else {
        operands := operands + [word];
      }
    }
    if options.scripts == [] {
      options.scripts := if operands != [] then [operands[0]] else [];
    }
    var allPrint := AllPrint(options.scripts);
    return options.quiet && options.scripts != [] && allPrint;
  }

  method AllPrint(scripts: seq<Word>) returns (ok: bool)
    ensures ok <==> AllPrintLines(scripts)
  {
    for index := 0 to |scripts|
      invariant forall i :: 0 <= i < index ==> PrintsLines(scripts[i])
    {
      var prints := Sed.Prints(scripts[index].text);
      if scripts[index].globs || !prints {
        return false;
      }
    }
    return true;
  }

  // The grammar of the argument lists.

  /** An operand, an option that takes no value, or an option and the word it takes as a script. */
  datatype Argument = Operand(word: Word) | Switch(word: Word) | WithScript(word: Word, script: Word)

  /** The arguments, then `--` and the operands after it when it is given. */
  datatype Line = Line(arguments: seq<Argument>, dashes: Option<Word>, operands: seq<Word>)

  ghost predicate Switches(letters: string) {
    forall i :: 0 <= i < |letters| ==> IsSwitchLetter(letters[i])
  }

  ghost predicate WellFormedArgument(a: Argument) {
    var text := a.word.text;
    match a
    case Operand(_) => !IsOption(text)
    case Switch(_) =>
      IsQuietOption(text) || IsNeutralOption(text) || (IsOption(text) && Switches(text[1..]))
    case WithScript(_, _) =>
      || text == "--expression"
      || (IsOption(text) && Switches(text[1..|text| - 1]) && text[|text| - 1] == 'e')
  }

  ghost predicate WellFormed(line: Line) {
    && (forall i :: 0 <= i < |line.arguments| ==> WellFormedArgument(line.arguments[i]))
    && (if line.dashes.Some? then line.dashes.value.text == "--" else line.operands == [])
  }

  function RenderArguments(arguments: seq<Argument>): seq<Word> {
    if arguments == [] then []
    else
      [arguments[0].word] + (if arguments[0].WithScript? then [arguments[0].script] else [])
      + RenderArguments(arguments[1..])
  }

  function Render(line: Line): seq<Word> {
    RenderArguments(line.arguments) + (if line.dashes.Some? then [line.dashes.value] else []) + line.operands
  }

  /** Whether the option makes sed quiet. */
  ghost predicate Quiets(a: Argument) {
    && !a.Operand?
    && var text := a.word.text;
       IsQuietOption(text) || (a.word.text != "--expression" && !IsNeutralOption(text) && 'n' in text)
  }

  function Scripts(arguments: seq<Argument>): seq<Word> {
    if arguments == [] then []
    else (if arguments[0].WithScript? then [arguments[0].script] else []) + Scripts(arguments[1..])
  }

  function Operands(arguments: seq<Argument>): seq<Word> {
    if arguments == [] then []
    else (if arguments[0].Operand? then [arguments[0].word] else []) + Operands(arguments[1..])
  }

  ghost predicate PrintsLines(script: Word) {
    !script.globs && Sed.InGrammar(script.text)
  }

  /** Sed is quiet, and each script it runs, the first operand when no option gives one, only prints. */
  ghost predicate OnlyPrints(line: Line) {
    var scripts := Chosen(Scripts(line.arguments), Operands(line.arguments) + line.operands);
    AnyQuiets(line.arguments) && scripts != [] && AllPrintLines(scripts)
  }

  /** Whether one of `arguments` makes sed quiet. */
  ghost predicate AnyQuiets(arguments: seq<Argument>) {
    exists a :: a in arguments && Quiets(a)
  }

  /** Whether `arguments` make a line that only prints lines. */
  ghost predicate InGrammar(arguments: seq<Word>) {
    exists line: Line :: WellFormed(line) && Render(line) == arguments && OnlyPrints(line)
  }

  // The reading and the grammar agree.

  lemma {:induction false} SwitchesReadBack(letters: string, tail: string, r: Progress)
    requires Switches(letters)
    ensures ReadBundle(letters + tail, r) == ReadBundle(tail, r.(quiet := r.quiet || 'n' in letters))
    decreases |letters|
  {
    if letters == "" {
      assert letters + tail == tail;
    } else {
      assert (letters + tail)[1..] == letters[1..] + tail;
      SwitchesReadBack(letters[1..], tail, r.(quiet := r.quiet || letters[0] == 'n'));
    }
  }

  lemma {:induction false} BundleSplit(letters: string, r: Progress)
    requires ReadBundle(letters, r).Some?
    ensures Switches(letters) || (letters != "" && Switches(letters[..|letters| - 1]) && letters[|letters| - 1] == 'e')
    ensures !Switches(letters) ==> r.rest != []
    decreases |letters|
  {
    if letters != "" && letters[0] != 'e' {
      BundleSplit(letters[1..], r.(quiet := r.quiet || letters[0] == 'n'));
    }
  }

  lemma DashIsNoSwitch(text: string)
    requires |text| >= 2 && text[1] == '-'
    ensures !Switches(text[1..]) && (|text| > 2 ==> !Switches(text[1..|text| - 1]))
  {
    assert text[1..][0] == '-';
    if |text| > 2 {
      assert text[1..|text| - 1][0] == '-';
    }
  }

  lemma BundleReadBack(text: string, script: bool, r: Progress)
    requires IsOption(text)
    requires if script then Switches(text[1..|text| - 1]) && text[|text| - 1] == 'e' else Switches(text[1..])
    ensures ReadBundle(text[1..], r) ==
            var next := r.(quiet := r.quiet || 'n' in text); if script then ReadScript(next) else Some(next)
  {
    if script {
      var letters := text[1..|text| - 1];
      SwitchesReadBack(letters, "e", r);
      assert text[1..] == letters + "e";
      assert text == ['-'] + letters + ['e'];
    } else {
      SwitchesReadBack(text[1..], "", r);
      assert text[1..] + "" == text[1..];
      assert text == ['-'] + text[1..];
    }
  }

  lemma {:induction false} OptionReadBack(a: Argument, r: Progress)
    requires WellFormedArgument(a) && !a.Operand?
    ensures IsOption(a.word.text) && a.word.text != "--"
    ensures ReadOption(a.word.text, r) ==
            var next := r.(quiet := r.quiet || Quiets(a)); if a.Switch? then Some(next) else ReadScript(next)
  {
    var text := a.word.text;
    if |text| >= 2 && text[1] == '-' {
      DashIsNoSwitch(text);
    }
    if !IsQuietOption(text) && !IsNeutralOption(text) && text != "--expression" {
      BundleReadBack(text, a.WithScript?, r);
    }
  }

  lemma {:induction false} OptionSplit(word: Word, r: Progress) returns (a: Argument)
    requires IsOption(word.text) && ReadOption(word.text, r).Some?
    ensures WellFormedArgument(a) && !a.Operand? && a.word == word
    ensures a.WithScript? ==> r.rest != [] && a.script == r.rest[0]
  {
    var text := word.text;
    if IsQuietOption(text) || IsNeutralOption(text) {
      a := Switch(word);
    } else if text == "--expression" {
      a := WithScript(word, r.rest[0]);
    } else {
      BundleSplit(text[1..], r);
      if Switches(text[1..]) {
        a := Switch(word);
      } else {
        a := WithScript(word, r.rest[0]);
        assert text[1..][..|text| - 2] == text[1..|text| - 1];
      }
    }
  }

  /** The words of `line` after its first argument. */
  lemma RenderOfFirst(line: Line)
    requires line.arguments != []
    ensures var a := line.arguments[0];
      Render(line) == [a.word] +
          ((if a.WithScript? then [a.script] else []) + Render(line.(arguments := line.arguments[1..])))
  {
  }

  /** What reading `line` adds to `r` and `operands`. */
  ghost function Reading(line: Line, r: Progress, operands: seq<Word>): Progress {
    Progress(
      r.quiet || AnyQuiets(line.arguments),
      r.scripts + Scripts(line.arguments),
      operands + Operands(line.arguments) + line.operands)
  }

  lemma ReadingOfFirst(line: Line, r: Progress, operands: seq<Word>)
    requires line.arguments != []
    ensures var a := line.arguments[0];
      Reading(line, r, operands) == Reading(
        line.(arguments := line.arguments[1..]),
        r.(quiet := r.quiet || Quiets(a), scripts := if a.WithScript? then r.scripts + [a.script] else r.scripts),
        if a.Operand? then operands + [a.word] else operands)
  {
    var a := line.arguments[0];
  }

  lemma NoArguments(line: Line, r: Progress, operands: seq<Word>)
    requires WellFormed(line) && line.arguments == [] && r.rest == Render(line)
    ensures ReadAll(r, operands) == Some(Reading(line, r, operands))
  {
    assert operands + [] == operands && r.scripts + [] == r.scripts;
    if line.dashes.Some? {
      assert r.rest[1..] == line.operands;
    }
  }

  lemma {:induction false} LineReadBack(line: Line, r: Progress, operands: seq<Word>)
    requires WellFormed(line) && r.rest == Render(line)
    ensures ReadAll(r, operands) == Some(Reading(line, r, operands))
    decreases |line.arguments|
  {
    if line.arguments == [] {
      NoArguments(line, r, operands);
    } else {
      var a := line.arguments[0];
      var next := line.(arguments := line.arguments[1..]);
      RenderOfFirst(line);
      ReadingOfFirst(line, r, operands);
      var left := r.(rest := r.rest[1..]);
      if a.Operand? {
        LineReadBack(next, left, operands + [a.word]);
      } else {
        OptionReadBack(a, left);
        LineReadBack(next, ReadOption(a.word.text, left).value, operands);
      }
    }
  }

  lemma OptionStep(word: Word, r: Progress) returns (a: Argument, next: Progress)
    requires IsOption(word.text) && ReadOption(word.text, r).Some?
    ensures next == ReadOption(word.text, r).value && |next.rest| <= |r.rest|
    ensures WellFormedArgument(a) && a.word == word && r.rest == (if a.WithScript? then [a.script] else []) + next.rest
  {
    a := OptionSplit(word, r);
    next := ReadOption(word.text, r).value;
    OptionReadBack(a, r);
  }

  /** The words of a line that its argument `a`, read first, leaves. */
  lemma WordsLeft(words: seq<Word>, a: Argument) returns (rest: seq<Word>)
    requires words != [] && a.word == words[0]
    requires a.WithScript? ==> |words| > 1 && a.script == words[1]
    ensures words == [a.word] + ((if a.WithScript? then [a.script] else []) + rest)
    ensures rest == if a.WithScript? then words[1..][1..] else words[1..]
  {
    rest := if a.WithScript? then words[1..][1..] else words[1..];
    if a.WithScript? {
      assert words[1..] == [a.script] + rest;
    } else {
      assert [] + rest == rest;
    }
  }

  lemma {:induction false} LineSplit(r: Progress, operands: seq<Word>) returns (line: Line)
    requires ReadAll(r, operands).Some?
    ensures WellFormed(line) && Render(line) == r.rest
    decreases |r.rest|
  {
    if r.rest == [] {
      line := Line([], None, []);
    } else {
      var word := r.rest[0];
      var left := r.(rest := r.rest[1..]);
      if word.text == "--" {
        line := Line([], Some(word), left.rest);
      } else {
        var a, next := Operand(word), left;
        if IsOption(word.text) {
          a, next := OptionStep(word, left);
        }
        var rest := WordsLeft(r.rest, a);
        assert next.rest == rest;
        var more := LineSplit(next, if IsOption(word.text) then operands else operands + [word]);
        line := Prepend(a, more);
      }
    }
  }

  lemma Prepend(a: Argument, more: Line) returns (line: Line)
    requires WellFormed(more) && WellFormedArgument(a)
    ensures WellFormed(line)
    ensures Render(line) == [a.word] + ((if a.WithScript? then [a.script] else []) + Render(more))
  {
    line := Line([a] + more.arguments, more.dashes, more.operands);
    assert line.arguments[1..] == more.arguments;
    assert forall i :: 0 < i < |line.arguments| ==> line.arguments[i] == more.arguments[i - 1];
    RenderOfFirst(line);
  }

  /** What the reading accepts of a line is what the grammar says of it. */
  lemma AcceptsReading(line: Line)
    requires WellFormed(line)
    ensures var read := ReadAll(Progress(false, [], Render(line)), []);
      read.Some? && (AcceptsRead(read.value) <==> OnlyPrints(line))
  {
    LineReadBack(line, Progress(false, [], Render(line)), []);
    var given := Scripts(line.arguments);
    var operands := Operands(line.arguments) + line.operands;
    assert [] + given == given && [] + Operands(line.arguments) == Operands(line.arguments);
  }

  lemma {:induction false} AcceptsExactlyTheGrammar(arguments: seq<Word>)
    ensures var read := ReadAll(Progress(false, [], arguments), []);
      (read.Some? && AcceptsRead(read.value)) <==>
      InGrammar(arguments)
  {
    var read := ReadAll(Progress(false, [], arguments), []);
    if read.Some? && AcceptsRead(read.value) {
      var line := LineSplit(Progress(false, [], arguments), []);
      AcceptsReading(line);
    }
    forall line: Line | WellFormed(line) && Render(line) == arguments && OnlyPrints(line)
      ensures read.Some? && AcceptsRead(read.value)
    {
      AcceptsReading(line);
    }
  }
}
