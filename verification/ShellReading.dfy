/**
 A shell's own reading of a command, one character at a time: what each character means depends on how
 it is quoted. `Shell.SplitPipe` reads the same words, so that what the guard reads is what the shell
 runs (`crates/fork-guard/src/shell.rs`).
 */
module ShellReading {
  import opened Common
  import opened Wrappers
  import opened Text
  import opened Shell

  /** How the next character is quoted. */
  datatype Quoting = Bare | Escaped | Singly | Doubly | DoublyEscaped

  /** The word being read: its text, and the characters of the command that are it. None are: no word. */
  datatype Reading = Reading(
    commands: seq<seq<Word>>, words: seq<Word>, text: string, globs: bool, raw: string, quoting: Quoting)

  const Nothing := Reading([], [], "", false, "", Bare)

  /** A character that is part of the word without being in its text: a quote, or a backslash. */
  function Marked(r: Reading, c: char, quoting: Quoting): Reading {
    r.(raw := r.raw + [c], quoting := quoting)
  }

  function Taken(r: Reading, c: char, text: string, quoting: Quoting): Reading {
    r.(raw := r.raw + [c], text := r.text + text, quoting := quoting)
  }

  function WordEnded(r: Reading): Reading {
    Reading(r.commands, if r.raw == "" then r.words else r.words + [Word(r.text, r.globs)], "", false, "", Bare)
  }

  function CommandEnded(r: Reading): Option<Reading> {
    var ended := WordEnded(r);
    if ended.words == [] then None else Some(ended.(commands := ended.commands + [ended.words], words := []))
  }

  predicate IsRedirected(target: string, rest: string) {
    target <= rest && (rest == target || rest[|target|] in " \t|")
  }

  /**
   The commands of `s` and their words; none when `s` leaves a quote open, a command is empty, or `s`
   holds a control character, a form outside quotes, a substitution in double quotes, a glob that may
   match an option, or a redirection but `2>/dev/null` and `2>&1`.
   */
  function Read(r: Reading, s: string): Option<seq<seq<Word>>>
    decreases |s|, 0
  {
    if s == "" then
      if r.quoting != Bare || CommandEnded(r) == None then None else Some(CommandEnded(r).value.commands)
    else
      var c, rest := s[0], s[1..];
      if c == '\t' && r.quoting == Bare then Read(WordEnded(r), rest)
      else if c < ' ' || '\U{007F}' <= c <= '\U{009F}' then None
      else
        match r.quoting
        case Bare => ReadBare(r, c, rest)
        case Escaped => Read(Taken(r, c, [c], Bare), rest)
        case Singly => Read(if c == '\'' then Marked(r, c, Bare) else Taken(r, c, [c], Singly), rest)
        case Doubly =>
          if c == '"' then Read(Marked(r, c, Bare), rest)
          else if c == '\\' then Read(Marked(r, c, DoublyEscaped), rest)
          else if c == '`' || (c == '$' && (rest == "" || rest[0] != '"')) then None
          else Read(Taken(r, c, [c], Doubly), rest)
        case DoublyEscaped => Read(Taken(r, c, if c in "$`\"\\" then [c] else ['\\', c], Doubly), rest)
  }

  function ReadBare(r: Reading, c: char, rest: string): Option<seq<seq<Word>>>
    decreases |rest|, 1
  {
    if c == ' ' then Read(WordEnded(r), rest)
    else if c == '|' then if CommandEnded(r) == None then None else Read(CommandEnded(r).value, rest)
    else if c == '\\' then Read(Marked(r, c, Escaped), rest)
    else if c == '\'' then Read(Marked(r, c, Singly), rest)
    else if c == '"' then Read(Marked(r, c, Doubly), rest)
    else if c in ";&<$`(){}" then None
    else if c == '>' then
      if r.raw != "2" then None
      else if IsRedirected("/dev/null", rest) then Read(r.(text := "", globs := false, raw := ""), rest[9..])
      else if IsRedirected("&1", rest) then Read(r.(text := "", globs := false, raw := ""), rest[2..])
      else None
    else if c in "*?[^#" || (c == '~' && r.raw != "") then
      if r.text == "" || r.text[0] in "-~" then None else Read(Taken(r, c, [c], Bare).(globs := true), rest)
    else Read(Taken(r, c, [c], Bare), rest)
  }

  // The lexer reads the same.

  /** The lexer in `st` read what the shell read in `r`. */
  ghost predicate Agree(st: State, r: Reading) {
    && r.quoting == Bare && r.commands == st.commands && r.words == st.words
    && (if r.raw == "" then st.word == None && r.text == "" && !r.globs else st.word == Some(Word(r.text, r.globs)))
    && (if st.quoted then |r.raw| > 1 else r.text == r.raw)
  }

  function ResultOf<T, E>(r: Result<T, E>): Option<T> {
    if r.Ok? then Some(r.value) else None
  }

  /** The characters up to the closing quote were read after `r`. */
  function Closed(r: Reading, text: string, raw: string): Reading {
    r.(text := r.text + text, raw := r.raw + raw, quoting := Bare)
  }

  lemma ClosedMore(r: Reading, a: string, text: string, rawOf: string, raw: string, quoting: Quoting)
    ensures Closed(r.(text := r.text + a, raw := r.raw + rawOf, quoting := quoting), text, raw)
         == Closed(r, a + text, rawOf + raw)
  {
    Associate(r.text, a, text);
    Associate(r.raw, rawOf, raw);
  }

  lemma {:induction false} SinglyReads(r: Reading, rest: string)
    requires r.quoting == Singly
    ensures if SingleText(rest).Err? then Read(r, rest) == None
            else
              var (text, after) := SingleText(rest).value;
              |after| < |rest| && Read(r, rest) == Read(Closed(r, text, rest[..|rest| - |after|]), after)
    decreases |rest|
  {
    if rest != "" {
      var c, more := rest[0], rest[1..];
      if c == '\'' {
        assert rest[..1] == [c] && r.text + "" == r.text;
      } else if !IsControl(c) {
        var next := Taken(r, c, [c], Singly);
        SinglyReads(next, more);
        if SingleText(more).Ok? {
          var (text, after) := SingleText(more).value;
          var raw := more[..|more| - |after|];
          ClosedMore(r, [c], text, [c], raw, Singly);
          assert rest[..|rest| - |after|] == [c] + raw;
        }
      }
    }
  }

  /** The character, or the escaped one, that double-quoted text starts with. */
  lemma {:induction false} DoublyReads(r: Reading, rest: string)
    requires r.quoting == Doubly
    ensures if DoubleText(rest).Err? then Read(r, rest) == None
            else
              var (text, after) := DoubleText(rest).value;
              |after| < |rest| && Read(r, rest) == Read(Closed(r, text, rest[..|rest| - |after|]), after)
    decreases |rest|
  {
    if rest != "" && !IsControl(rest[0]) {
      var c, more := rest[0], rest[1..];
      if c == '"' {
        assert rest[..1] == [c] && r.text + "" == r.text;
      } else if c == '\\' {
        if more != "" && !IsControl(more[0]) {
          var added := if IsEscapable(more[0]) then [more[0]] else [c, more[0]];
          DoublyReadsOn(r, rest, 2, added);
          Associate(r.raw, [c], [more[0]]);
          assert more[1..] == rest[2..] && rest[..2] == [c] + [more[0]];
        }
      } else if c != '`' && (c != '$' || "\"" <= more) {
        DoublyReadsOn(r, rest, 1, [c]);
        assert rest[..1] == [c];
      }
    }
  }

  lemma DoublyReadsOn(r: Reading, rest: string, taken: nat, added: string)
    requires r.quoting == Doubly && 0 < taken <= |rest|
    ensures var next, more := r.(text := r.text + added, raw := r.raw + rest[..taken]), rest[taken..];
      if DoubleText(more).Err? then Read(next, more) == None
      else
        var (text, after) := DoubleText(more).value;
        |after| < |more| && Read(next, more) == Read(Closed(r, added + text, rest[..|rest| - |after|]), after)
    decreases |rest|, 0
  {
    var next, more := r.(text := r.text + added, raw := r.raw + rest[..taken]), rest[taken..];
    DoublyReads(next, more);
    if DoubleText(more).Ok? {
      var (text, after) := DoubleText(more).value;
      var raw := more[..|more| - |after|];
      ClosedMore(r, added, text, rest[..taken], raw, Doubly);
      assert rest[..|rest| - |after|] == rest[..taken] + raw;
    }
  }

  lemma EndsAgree(st: State, r: Reading)
    requires Agree(st, r)
    ensures Agree(EndWordOf(st), WordEnded(r))
    ensures EndCommandOf(st).Ok? <==> CommandEnded(r).Some?
    ensures CommandEnded(r).Some? ==> Agree(EndCommandOf(st).value, CommandEnded(r).value)
  {
  }

  /** A quoted part of a word: its text was appended, and its characters are `raw`. */
  lemma QuotedAgrees(st: State, r: Reading, text: string, raw: string)
    requires Agree(st, r) && |raw| > 1
    ensures Agree(Append(st, text).(quoted := true), Closed(r, text, raw))
  {
    if r.raw == "" {
      assert "" + text == text;
    }
  }

  lemma PlainAgrees(st: State, r: Reading, c: char)
    requires Agree(st, r)
    ensures Agree(Append(st, [c]), Taken(r, c, [c], Bare))
  {
  }

  lemma EscapeReads(st: State, r: Reading, rest: string) returns (next: Reading)
    requires Agree(st, r) && rest != "" && !IsControl(rest[0])
    ensures Agree(Append(st, [rest[0]]).(quoted := true), next)
    ensures Read(r, "\\" + rest) == Read(next, rest[1..])
  {
    assert ("\\" + rest)[1..] == rest;
    assert Read(r, "\\" + rest) == Read(Marked(r, '\\', Escaped), rest);
    next := Closed(r, [rest[0]], ['\\', rest[0]]);
    QuotedAgrees(st, r, [rest[0]], ['\\', rest[0]]);
    Associate(r.raw, "\\", [rest[0]]);
    assert "\\" + [rest[0]] == ['\\', rest[0]];
  }

  lemma QuoteReads(st: State, r: Reading, c: char, rest: string) returns (next: Reading)
    requires Agree(st, r) && (c == '\'' || c == '"')
    ensures var quoted := if c == '"' then DoubleText(rest) else SingleText(rest);
      if quoted.Err? then Read(r, [c] + rest) == None
      else
        var (text, after) := quoted.value;
        Agree(Append(st, text).(quoted := true), next) && Read(r, [c] + rest) == Read(next, after)
  {
    assert ([c] + rest)[1..] == rest;
    var quoted := if c == '"' then DoubleText(rest) else SingleText(rest);
    var begun := Marked(r, c, if c == '"' then Doubly else Singly);
    if c == '"' {
      DoublyReads(begun, rest);
    } else {
      SinglyReads(begun, rest);
    }
    next := r;
    if quoted.Ok? {
      var (text, after) := quoted.value;
      var raw := rest[..|rest| - |after|];
      ClosedMore(r, "", text, [c], raw, begun.quoting);
      assert r.text + "" == r.text && "" + text == text;
      next := Closed(r, text, [c] + raw);
      QuotedAgrees(st, r, text, [c] + raw);
    }
  }

  lemma TwoAgrees(st: State, r: Reading)
    requires Agree(st, r)
    ensures IsTwo(st) <==> r.raw == "2"
    ensures r.raw == "2" ==> Agree(st.(word := None), r.(text := "", globs := false, raw := ""))
  {
  }

  lemma RedirectionReads(st: State, r: Reading, rest: string) returns (next: Reading)
    requires Agree(st, r)
    ensures var after := AfterTarget(rest);
      if after.Some? && IsTwo(st) then
        Agree(st.(word := None), next) && Read(r, ">" + rest) == Read(next, after.value)
      else Read(r, ">" + rest) == None
  {
    TwoAgrees(st, r);
    next := r.(text := "", globs := false, raw := "");
    assert (">" + rest)[1..] == rest;
  }

  lemma GlobReads(st: State, r: Reading, c: char, rest: string) returns (next: Reading)
    requires Agree(st, r) && IsGlob(c) && (c == '~' ==> st.word.Some?)
    ensures if MayGlob(st) then
              && Agree(Append(st, [c]).(word := Some(Word(st.word.value.text + [c], true))), next)
              && Read(r, [c] + rest) == Read(next, rest)
            else Read(r, [c] + rest) == None
  {
    next := Taken(r, c, [c], Bare).(globs := true);
    assert ([c] + rest)[1..] == rest;
  }

  /** A step of the lexer, and what the shell reads of it. */
  lemma {:induction false} StepReads(st: State, r: Reading, c: char, rest: string) returns (next: Reading)
    requires Agree(st, r)
    ensures if Step(st, c, rest).Err? then Read(r, [c] + rest) == None
            else
              var (after, left) := Step(st, c, rest).value;
              Agree(after, next) && Read(r, [c] + rest) == Read(next, left)
  {
    assert ([c] + rest)[1..] == rest;
    next := r;
    if IsBlank(c) || c == '|' {
      EndsAgree(st, r);
      next := if IsBlank(c) then WordEnded(r) else if CommandEnded(r).Some? then CommandEnded(r).value else r;
    } else if c == '>' {
      next := RedirectionReads(st, r, rest);
    } else if c == '\'' || c == '"' {
      next := QuoteReads(st, r, c, rest);
    } else if c == '\\' {
      if Literal(rest).Ok? {
        next := EscapeReads(st, r, rest);
      } else {
        assert Read(r, [c] + rest) == Read(Marked(r, c, Escaped), rest);
      }
    } else if IsGlob(c) && !(c == '~' && st.word == None) {
      next := GlobReads(st, r, c, rest);
    } else {
      PlainAgrees(st, r, c);
      next := Taken(r, c, [c], Bare);
    }
  }

  lemma {:induction false} LexerReads(st: State, r: Reading, s: string)
    requires Agree(st, r)
    ensures ResultOf(Lex(st, s)) == Read(r, s)
    decreases |s|
  {
    if s == "" {
      EndsAgree(st, r);
    } else {
      assert s == [s[0]] + s[1..];
      var next := StepReads(st, r, s[0], s[1..]);
      if Step(st, s[0], s[1..]).Ok? {
        var (after, left) := Step(st, s[0], s[1..]).value;
        LexerReads(after, next, left);
      }
    }
  }

  /** What the lexer accepts, and the words it gives, are what the shell reads. */
  lemma {:induction false} ReadsAsTheShell(s: string)
    ensures ResultOf(Lex(Start, s)) == Read(Nothing, s)
  {
    LexerReads(Start, Nothing, s);
  }

  // The characters that stand outside quotes.

  function NextQuoting(quoting: Quoting, c: char): Quoting {
    match quoting
    case Bare => if c == '\\' then Escaped else if c == '\'' then Singly else if c == '"' then Doubly else Bare
    case Escaped => Bare
    case Singly => if c == '\'' then Bare else Singly
    case Doubly => if c == '"' then Bare else if c == '\\' then DoublyEscaped else Doubly
    case DoublyEscaped => Doubly
  }

  /** How the character `s[at]` is quoted. */
  function QuotingAt(s: string, at: nat): Quoting
    requires at <= |s|
  {
    if at == 0 then Bare else NextQuoting(QuotingAt(s, at - 1), s[at - 1])
  }

  /** A character outside quotes: no form but `2>/dev/null` and `2>&1`, and no control character but a tab. */
  ghost predicate IsHarmless(s: string, at: nat)
    requires at < |s|
  {
    QuotingAt(s, at) == Bare ==>
      && s[at] !in ";<$`(){}"
      && (s[at] == '\t' || !(s[at] < ' ' || '\U{007F}' <= s[at] <= '\U{009F}'))
      && (s[at] == '>' ==>
            at > 0 && s[at - 1] == '2' &&
            (IsRedirected("/dev/null", s[at + 1..]) || IsRedirected("&1", s[at + 1..])))
      && (s[at] == '&' ==> at > 1 && s[at - 2] == '2' && s[at - 1] == '>' && IsRedirected("&1", s[at..]))
  }

  lemma {:induction false} TargetIsHarmless(s: string, at: nat, target: string, n: nat)
    requires (target == "/dev/null" || target == "&1") && n <= |target|
    requires 1 < at <= |s| && IsRedirected(target, s[at..]) && s[at - 2] == '2' && s[at - 1] == '>'
    requires QuotingAt(s, at) == Bare
    ensures at + n <= |s| && QuotingAt(s, at + n) == Bare
    ensures forall k :: at <= k < at + n ==> IsHarmless(s, k)
  {
    if n > 0 {
      TargetIsHarmless(s, at, target, n - 1);
      assert s[at..][n - 1] == target[n - 1];
    }
  }

  /** The word being read ends where the rest of the command starts. */
  ghost predicate IsAt(r: Reading, s: string, at: nat) {
    && at <= |s| && r.quoting == QuotingAt(s, at)
    && |r.raw| <= at && r.raw == s[at - |r.raw|..at]
  }

  /** What is read after a character that is not a redirection's. */
  function NextRead(r: Reading, c: char, rest: string): Reading
    requires Read(r, [c] + rest).Some?
  {
    match r.quoting
    case Bare =>
      if c == ' ' || c == '\t' then WordEnded(r)
      else if c == '|' && CommandEnded(r).Some? then CommandEnded(r).value
      else if c in "\\'\"" then Marked(r, c, NextQuoting(Bare, c))
      else if c in "*?[^#" || (c == '~' && r.raw != "") then Taken(r, c, [c], Bare).(globs := true)
      else Taken(r, c, [c], Bare)
    case Escaped => Taken(r, c, [c], Bare)
    case Singly => if c == '\'' then Marked(r, c, Bare) else Taken(r, c, [c], Singly)
    case Doubly => if c in "\\\"" then Marked(r, c, NextQuoting(Doubly, c)) else Taken(r, c, [c], Doubly)
    case DoublyEscaped => Taken(r, c, if c in "$`\"\\" then [c] else ['\\', c], Doubly)
  }

  lemma NextReadIs(r: Reading, c: char, rest: string)
    requires Read(r, [c] + rest).Some? && !(r.quoting == Bare && c == '>')
    ensures var next := NextRead(r, c, rest);
      && Read(r, [c] + rest) == Read(next, rest) && next.quoting == NextQuoting(r.quoting, c)
      && (next.raw == "" || next.raw == r.raw + [c])
    ensures r.quoting == Bare ==>
              c !in ";&<>$`(){}" && (c == '\t' || !(c < ' ' || '\U{007F}' <= c <= '\U{009F}'))
  {
    assert ([c] + rest)[1..] == rest;
  }

  lemma RedirectionIs(r: Reading, rest: string) returns (target: string)
    requires r.quoting == Bare && Read(r, ">" + rest).Some?
    ensures r.raw == "2" && (target == "/dev/null" || target == "&1") && IsRedirected(target, rest)
    ensures Read(r, ">" + rest) == Read(r.(text := "", globs := false, raw := ""), rest[|target|..])
  {
    assert (">" + rest)[1..] == rest;
    target := if IsRedirected("/dev/null", rest) then "/dev/null" else "&1";
  }

  lemma CharacterIsHarmless(r: Reading, s: string, at: nat) returns (next: Reading)
    requires IsAt(r, s, at) && at < |s| && Read(r, s[at..]).Some? && !(r.quoting == Bare && s[at] == '>')
    ensures IsHarmless(s, at) && IsAt(next, s, at + 1) && Read(next, s[at + 1..]).Some?
  {
    hide Read, NextRead, IsRedirected;
    assert s[at..] == [s[at]] + s[at + 1..];
    NextReadIs(r, s[at], s[at + 1..]);
    next := NextRead(r, s[at], s[at + 1..]);
  }

  lemma RedirectionIsHarmless(r: Reading, s: string, at: nat) returns (end: nat)
    requires IsAt(r, s, at) && at < |s| && Read(r, s[at..]).Some? && r.quoting == Bare && s[at] == '>'
    ensures var next := r.(text := "", globs := false, raw := "");
      at < end && IsAt(next, s, end) && Read(next, s[end..]).Some?
    ensures forall k :: at <= k < end ==> IsHarmless(s, k)
  {
    hide Read, IsRedirected;
    var rest := s[at + 1..];
    assert s[at..] == ">" + rest;
    var target := RedirectionIs(r, rest);
    end := at + 1 + |target|;
    assert s[at - 1] == r.raw[0] && QuotingAt(s, at + 1) == Bare;
    TargetIsHarmless(s, at + 1, target, |target|);
    assert rest[|target|..] == s[end..];
  }

  lemma {:induction false} RestIsHarmless(r: Reading, s: string, at: nat)
    requires IsAt(r, s, at) && Read(r, s[at..]).Some?
    ensures forall k :: at <= k < |s| ==> IsHarmless(s, k)
    ensures QuotingAt(s, |s|) == Bare
    decreases |s| - at
  {
    hide Read, NextRead, IsHarmless;
    if at == |s| {
      assert s[at..] == "";
      EndIsBare(r);
    } else if r.quoting == Bare && s[at] == '>' {
      var end := RedirectionIsHarmless(r, s, at);
      RestIsHarmless(r.(text := "", globs := false, raw := ""), s, end);
    } else {
      var next := CharacterIsHarmless(r, s, at);
      RestIsHarmless(next, s, at + 1);
    }
  }

  lemma EndIsBare(r: Reading)
    requires Read(r, "").Some?
    ensures r.quoting == Bare
  {
  }

  /**
   An accepted command leaves no quote open, and outside quotes holds no form but the two redirections, and
   no control character but tabs.
   */
  lemma {:induction false} AcceptedIsHarmless(s: string)
    requires Lex(Start, s).Ok?
    ensures QuotingAt(s, |s|) == Bare && forall k :: 0 <= k < |s| ==> IsHarmless(s, k)
  {
    ReadsAsTheShell(s);
    assert s[0..] == s;
    RestIsHarmless(Nothing, s, 0);
  }
}
