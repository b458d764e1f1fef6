/**
 The arguments of `sed` as GNU sed takes them: its options, each spelled out, the scripts that options
 take, and the operands (`crates/fork-guard/src/sed.rs`).

 `GivenBy` reads the words by these names and letters alone; `SedArguments` accepts exactly the lists
 whose reading only prints.
 */
module SedOptions {
  import opened Wrappers
  import opened Shell
  import Sed
  import opened SedArguments

  /** The options, the scripts they take, the operands, and whether each option has the script it takes. */
  datatype Given = Given(options: seq<string>, scripts: seq<Word>, operands: seq<Word>, whole: bool)

  /** `--expression`, and short options that end in `e`. */
  predicate TakesScript(option: string) {
    option == "--expression" || (|option| > 1 && option[1] != '-' && option[|option| - 1] == 'e')
  }

  function GivenBy(words: seq<Word>): Given {
    if words == [] then Given([], [], [], true)
    else
      var word := words[0];
      if word.text == "--" then Given([], [], words[1..], true)
      else if |word.text| < 2 || word.text[0] != '-' then
        var more := GivenBy(words[1..]);
        more.(operands := [word] + more.operands)
      else if !TakesScript(word.text) then
        var more := GivenBy(words[1..]);
        more.(options := [word.text] + more.options)
      else if |words| == 1 then Given([word.text], [], [], false)
      else
        var more := GivenBy(words[2..]);
        more.(options := [word.text] + more.options, scripts := [words[1]] + more.scripts)
  }

  ghost predicate AreShort(letters: string) {
    forall i :: 0 <= i < |letters| ==> letters[i] in "nErsuz" || (letters[i] == 'e' && i == |letters| - 1)
  }

  /** One of the nine long options; or short ones, of which `e`, the one that takes a script, is last. */
  ghost predicate IsPermitted(option: string) {
    || option in ["--quiet", "--silent", "--regexp-extended", "--separate", "--null-data", "--unbuffered", "--posix",
                  "--sandbox", "--expression"]
    || (option != "" && option[0] == '-' && AreShort(option[1..]))
  }

  ghost predicate Silences(option: string) {
    || option == "--quiet" || option == "--silent"
    || (|option| > 1 && option[0] == '-' && option[1] != '-' && 'n' in option)
  }

  ghost predicate AnySilences(options: seq<string>) {
    exists option :: option in options && Silences(option)
  }

  ghost predicate ArePermitted(options: seq<string>) {
    forall option :: option in options ==> IsPermitted(option)
  }

  ghost predicate IsScript(word: Word) {
    !word.globs && Sed.InGrammar(word.text)
  }

  /**
   Every option is permitted and has its script, one makes sed quiet, and what sed runs only prints: the
   scripts of its options, or else the first operand.
   */
  ghost predicate OnlyPrintsLines(arguments: seq<Word>) {
    var given := GivenBy(arguments);
    && given.whole && ArePermitted(given.options) && AnySilences(given.options)
    && (if given.scripts != [] then forall script :: script in given.scripts ==> IsScript(script)
        else given.operands != [] && IsScript(given.operands[0]))
  }

  // The reading of `SedArguments` is that of the names.

  lemma {:induction false} BundleIs(letters: string, r: Progress)
    ensures var next := r.(quiet := r.quiet || 'n' in letters);
      ReadBundle(letters, r) ==
      if !AreShort(letters) then None
      else if letters != "" && letters[|letters| - 1] == 'e' then ReadScript(next)
      else Some(next)
    decreases |letters|
  {
    if letters != "" && letters[0] in "nErsuz" {
      var more := letters[1..];
      BundleIs(more, r.(quiet := r.quiet || letters[0] == 'n'));
      assert letters == [letters[0]] + more;
      assert AreShort(letters) <==> AreShort(more);
    }
  }

  lemma {:induction false} OptionIs(option: string, r: Progress)
    requires IsOption(option) && option != "--"
    ensures var next := r.(quiet := r.quiet || Silences(option));
      ReadOption(option, r) ==
      if !IsPermitted(option) then None else if TakesScript(option) then ReadScript(next) else Some(next)
  {
    BundleIs(option[1..], r);
    assert option == ['-'] + option[1..];
    if option[1] == '-' {
      assert option[1..][0] == '-';
    }
  }

  lemma {:induction false} ReadsWhatIsGiven(r: Progress, operands: seq<Word>)
    ensures var given, read := GivenBy(r.rest), ReadAll(r, operands);
      && (read.Some? <==> given.whole && ArePermitted(given.options))
      && (read.Some? ==>
            && read.value.quiet == (r.quiet || AnySilences(given.options))
            && read.value.scripts == r.scripts + given.scripts && read.value.rest == operands + given.operands)
    decreases |r.rest|
  {
    hide ReadOption, IsPermitted, Silences, TakesScript;
    if r.rest != [] {
      var word, left := r.rest[0], r.(rest := r.rest[1..]);
      var given := GivenBy(r.rest);
      if word.text != "--" {
        if IsOption(word.text) {
          OptionIs(word.text, left);
          ReadKeepsOrder(word.text, left);
          if ReadOption(word.text, left).Some? {
            var next := ReadOption(word.text, left).value;
            ReadsWhatIsGiven(next, operands);
            assert given.options == [word.text] + GivenBy(next.rest).options;
          }
        } else {
          ReadsWhatIsGiven(left, operands + [word]);
        }
      }
    }
  }

  /** The lists accepted are those whose options, by name, are permitted and whose scripts only print. */
  lemma {:induction false} AcceptsExactlyThese(arguments: seq<Word>)
    ensures InGrammar(arguments) <==> OnlyPrintsLines(arguments)
  {
    var start := Progress(false, [], arguments);
    AcceptsExactlyTheGrammar(arguments);
    ReadsWhatIsGiven(start, []);
    hide ReadAll, GivenBy, ArePermitted, AnySilences, InGrammar;
    var given := GivenBy(arguments);
    assert [] + given.scripts == given.scripts && [] + given.operands == given.operands;
    if ReadAll(start, []).Some? {
      var scripts := Chosen(given.scripts, given.operands);
      assert AllPrintLines(scripts) ==> forall script :: script in scripts ==> IsScript(script);
      assert (forall i :: 0 <= i < |scripts| ==> IsScript(scripts[i])) ==> AllPrintLines(scripts);
    }
  }
}
