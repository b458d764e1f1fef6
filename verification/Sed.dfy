/**
 `crates/fork-guard/src/sed.rs`: the sed scripts and arguments a fork may run, which only print
 lines.

 The scripts `Prints` accepts are given a grammar of their own (`Script`, `Render`), and the
 claim of the file's header is proved against `MayRead`, every reader that may stay inside a
 bracket expression, and so may end a regular expression later than `RegexEnd` does.
 */
module Sed {
  import opened Wrappers
  import opened Text

  // The recogniser.

  /** What follows the `/` that closes the regex `text` starts. */
  function AfterRegex(text: string): (r: Option<string>)
    ensures r.Some? ==> |r.value| < |text|
  {
    if text == "" then None
    else if text[0] == '/' then Some(text[1..])
    else if text[0] == '\\' then if |text| < 2 then None else AfterRegex(text[2..])
    else AfterRegex(text[1..])
  }

  method RegexEnd(text: string) returns (r: Option<string>)
    ensures r == AfterRegex(text)
  {
    var index := 0;
    while index < |text|
      invariant index <= |text|
      invariant AfterRegex(text) == AfterRegex(text[index..])
    {
      var character := text[index];
      index := index + 1;
      if character == '/' {
        return Some(text[index..]);
      } else if character == '\\' {
        if index == |text| {
          return None;
        }
        index := index + 1;
        assert text[index - 2..][2..] == text[index..];
      }
    }
    return None;
  }

  function SkipDigits(text: string): (r: string)
    ensures |r| <= |text|
  {
    if text != "" && IsDigit(text[0]) then SkipDigits(text[1..]) else text
  }

  function Digits(text: string): (r: Option<string>)
    ensures r.Some? ==> |r.value| < |text|
  {
    var rest := SkipDigits(text);
    if |rest| < |text| then Some(rest) else None
  }

  function Address(text: string, end: bool): (r: Option<string>)
    ensures r.Some? ==> |r.value| < |text|
  {
    if text != "" && text[0] == '/' then AfterRegex(text[1..])
    else if text != "" && text[0] == '$' then Some(text[1..])
    else if end && text != "" && (text[0] == '+' || text[0] == '~') then Digits(text[1..])
    else
      match Digits(text)
      case None => None
      case Some(rest) =>
        if rest != "" && rest[0] == '~' && Digits(rest[1..]).Some? then Digits(rest[1..]) else Some(rest)
  }

  function PrintCommand(text: string): (r: Option<string>)
    ensures r.Some? ==> |r.value| < |text|
  {
    match Address(text, false)
    case None => AfterP(text)
    case Some(rest) =>
      if rest != "" && rest[0] == ',' then
        match Address(rest[1..], true)
        case None => None
        case Some(after) => AfterP(after)
      else AfterP(rest)
  }

  function AfterP(rest: string): (r: Option<string>)
    ensures r.Some? ==> |r.value| < |rest|
  {
    StripPrefix(TrimStart(rest), "p")
  }

  /** Whether `script` is read to its end as `p` commands, as the loop of `Prints` reads it. */
  predicate OnlyPrints(script: string)
    decreases |script|
  {
    match PrintCommand(TrimStart(script))
    case None => false
    case Some(after) =>
      match StripPrefix(TrimStart(after), ";")
      case Some(next) => Trim(next) == "" || OnlyPrints(next)
      case None => Trim(after) == ""
  }

  method Prints(script: string) returns (ok: bool)
    ensures ok <==> InGrammar(script)
  {
    PrintsExactlyTheGrammar(script);
    var rest := script;
    while true
      invariant OnlyPrints(script) == OnlyPrints(rest)
      decreases |rest|
    {
      var after := PrintCommand(TrimStart(rest));
      if after == None {
        return false;
      }
      match StripPrefix(TrimStart(after.value), ";") {
        case Some(next) =>
          if Trim(next) == "" {
            return true;
          }
          rest := next;
        case None => return Trim(after.value) == "";
      }
    }
  }

  // The grammar of the scripts accepted.

  datatype Place =
    | Regex(body: string)
    | Last
    | Line(number: string)
    | EveryStep(first: string, step: string)
    | Count(number: string)
    | Multiple(number: string)

  datatype Addresses = Nowhere | At(place: Place) | Range(from: Place, to: Place)

  /** A `p` command: white space, where it prints, white space, `p`, white space. */
  datatype Command = Command(before: string, addresses: Addresses, gap: string, after: string)

  datatype Script =
    | Only(command: Command)
    | Closed(command: Command, blank: string)
    | Then(command: Command, next: Script)

  /** The text of a regex: a backslash escapes the next character, and no other `/` is in it. */
  ghost predicate RegexBody(body: string) {
    || body == ""
    || (body[0] == '\\' && |body| >= 2 && RegexBody(body[2..]))
    || (body[0] != '\\' && body[0] != '/' && RegexBody(body[1..]))
  }

  ghost predicate Number(s: string) {
    s != "" && forall i :: 0 <= i < |s| ==> IsDigit(s[i])
  }

  ghost predicate WellFormedPlace(place: Place, end: bool) {
    match place
    case Regex(body) => RegexBody(body)
    case Last => true
    case Line(number) => Number(number)
    case EveryStep(first, step) => Number(first) && Number(step)
    case Count(number) => end && Number(number)
    case Multiple(number) => end && Number(number)
  }

  ghost predicate WellFormedCommand(c: Command) {
    && Blank(c.before) && Blank(c.gap) && Blank(c.after)
    && WellFormedAddresses(c.addresses)
    && (c.addresses == Nowhere ==> c.gap == "")
  }

  ghost predicate WellFormed(t: Script) {
    match t
    case Only(command) => WellFormedCommand(command)
    case Closed(command, blank) => WellFormedCommand(command) && Blank(blank)
    case Then(command, next) => WellFormedCommand(command) && WellFormed(next)
  }

  function RenderPlace(place: Place): (s: string)
  {
    match place
    case Regex(body) => "/" + body + "/"
    case Last => "$"
    case Line(number) => number
    case EveryStep(first, step) => first + "~" + step
    case Count(number) => "+" + number
    case Multiple(number) => "~" + number
  }

  function RenderAddresses(addresses: Addresses): string {
    match addresses
    case Nowhere => ""
    case At(place) => RenderPlace(place)
    case Range(from, to) => RenderPlace(from) + "," + RenderPlace(to)
  }

  function RenderCommand(c: Command): string {
    c.before + RenderAddresses(c.addresses) + c.gap + "p" + c.after
  }

  function Render(t: Script): string {
    match t
    case Only(command) => RenderCommand(command)
    case Closed(command, blank) => RenderCommand(command) + ";" + blank
    case Then(command, next) => RenderCommand(command) + ";" + Render(next)
  }

  /** Whether `script` is a list of `p` commands with optional addresses, separated by `;`. */
  ghost predicate InGrammar(script: string) {
    exists t :: WellFormed(t) && Render(t) == script
  }

  // The recogniser reads the grammar back.

  lemma {:induction false} RegexReadBack(body: string, rest: string)
    requires RegexBody(body)
    ensures AfterRegex(body + "/" + rest) == Some(rest)
  {
    var text := body + "/" + rest;
    if body == "" {
      assert text[1..] == rest;
    } else if body[0] == '\\' {
      assert text[2..] == body[2..] + "/" + rest;
      RegexReadBack(body[2..], rest);
    } else {
      assert text[1..] == body[1..] + "/" + rest;
      RegexReadBack(body[1..], rest);
    }
  }

  lemma {:induction false} RegexSplit(text: string) returns (body: string)
    requires AfterRegex(text).Some?
    ensures RegexBody(body) && text == body + "/" + AfterRegex(text).value
  {
    if text[0] == '/' {
      body := "";
    } else if text[0] == '\\' {
      var tail := RegexSplit(text[2..]);
      body := text[..2] + tail;
      assert body[2..] == tail;
    } else {
      var tail := RegexSplit(text[1..]);
      body := text[..1] + tail;
      assert body[1..] == tail;
    }
  }

  lemma {:induction false} DigitsReadBack(number: string, rest: string)
    requires Number(number)
    requires rest == "" || !IsDigit(rest[0])
    ensures SkipDigits(number + rest) == rest && Digits(number + rest) == Some(rest)
  {
    assert (number + rest)[1..] == number[1..] + rest;
    if |number| > 1 {
      DigitsReadBack(number[1..], rest);
    } else {
      assert number[1..] + rest == rest;
    }
  }

  lemma {:induction false} DigitsSplit(text: string) returns (number: string)
    requires Digits(text).Some?
    ensures Number(number) && text == number + Digits(text).value
    ensures Digits(text).value == "" || !IsDigit(Digits(text).value[0])
  {
    number := text[..1];
    if Digits(text[1..]).Some? {
      var more := DigitsSplit(text[1..]);
      number := number + more;
    } else {
      assert SkipDigits(text[1..]) == text[1..] by {
        SkipDigitsKeeps(text[1..]);
      }
    }
  }

  lemma SkipDigitsKeeps(text: string)
    ensures |SkipDigits(text)| == |text| ==> SkipDigits(text) == text
  {
  }

  lemma NumberAfterSign(sign: char, number: string, rest: string)
    requires Number(number) && (rest == "" || !IsDigit(rest[0]))
    ensures Digits(([sign] + number + rest)[1..]) == Some(rest)
  {
    assert ([sign] + number + rest)[1..] == number + rest;
    DigitsReadBack(number, rest);
  }

  lemma StepReadBack(first: string, step: string, rest: string)
    requires Number(first) && Number(step) && (rest == "" || !IsDigit(rest[0]))
    ensures Address(first + "~" + step + rest, false) == Some(rest)
    ensures Address(first + "~" + step + rest, true) == Some(rest)
  {
    var tail := "~" + step + rest;
    assert first + "~" + step + rest == first + tail;
    DigitsReadBack(first, tail);
    NumberAfterSign('~', step, rest);
    assert IsDigit(first[0]) && (first + tail)[0] == first[0];
  }

  lemma RegexAddressReadBack(body: string, end: bool, rest: string)
    requires RegexBody(body)
    ensures Address("/" + body + "/" + rest, end) == Some(rest)
  {
    assert ("/" + body + "/" + rest)[1..] == body + "/" + rest;
    RegexReadBack(body, rest);
  }

  lemma {:induction false} AddressReadBack(place: Place, end: bool, rest: string)
    requires WellFormedPlace(place, end)
    requires rest == "" || (!IsDigit(rest[0]) && rest[0] != '~')
    ensures Address(RenderPlace(place) + rest, end) == Some(rest)
  {
    match place
    case Regex(body) => RegexAddressReadBack(body, end, rest);
    case Last => assert ("$" + rest)[1..] == rest;
    case Line(number) =>
      DigitsReadBack(number, rest);
      assert IsDigit(number[0]) && (number + rest)[0] == number[0];
    case EveryStep(first, step) => StepReadBack(first, step, rest);
    case Count(number) => NumberAfterSign('+', number, rest);
    case Multiple(number) => NumberAfterSign('~', number, rest);
  }

  lemma {:induction false} AddressSplit(text: string, end: bool) returns (place: Place)
    requires Address(text, end).Some?
    ensures WellFormedPlace(place, end) && text == RenderPlace(place) + Address(text, end).value
  {
    if text[0] == '/' {
      var body := RegexSplit(text[1..]);
      place := Regex(body);
    } else if text[0] == '$' {
      place := Last;
    } else if end && (text[0] == '+' || text[0] == '~') {
      var number := DigitsSplit(text[1..]);
      place := if text[0] == '+' then Count(number) else Multiple(number);
    } else {
      var first := DigitsSplit(text);
      var rest := Digits(text).value;
      if rest != "" && rest[0] == '~' && Digits(rest[1..]).Some? {
        var step := DigitsSplit(rest[1..]);
        place := EveryStep(first, step);
      } else {
        place := Line(first);
      }
    }
  }

  ghost predicate WellFormedAddresses(addresses: Addresses) {
    match addresses
    case Nowhere => true
    case At(place) => WellFormedPlace(place, false)
    case Range(from, to) => WellFormedPlace(from, false) && WellFormedPlace(to, true)
  }

  lemma AddressesReadBack(addresses: Addresses, tail: string)
    requires WellFormedAddresses(addresses)
    requires tail != "" && !IsDigit(tail[0]) && tail[0] != '~' && tail[0] != ','
    requires addresses == Nowhere ==> tail[0] == 'p'
    ensures PrintCommand(RenderAddresses(addresses) + tail) == AfterP(tail)
  {
    match addresses
    case Nowhere => assert "" + tail == tail;
    case At(place) => AddressReadBack(place, false, tail);
    case Range(from, to) =>
      var end := RenderPlace(to) + tail;
      assert RenderAddresses(addresses) + tail == RenderPlace(from) + ("," + end);
      AddressReadBack(from, false, "," + end);
      assert ("," + end)[1..] == end;
      AddressReadBack(to, true, tail);
  }

  /** A command's text, taken apart from the front. */
  lemma CommandText(c: Command, rest: string)
    ensures RenderCommand(c) + rest == c.before + (RenderAddresses(c.addresses) + (c.gap + ("p" + (c.after + rest))))
  {
    var before, addresses := c.before, RenderAddresses(c.addresses);
    var tail := "p" + (c.after + rest);
    assert (before + addresses) + (c.gap + tail) == before + (addresses + (c.gap + tail));
    assert before + addresses + c.gap + tail == (before + addresses) + (c.gap + tail);
    assert before + addresses + c.gap + "p" + (c.after + rest) == before + addresses + c.gap + ("p" + (c.after + rest));
  }

  lemma {:induction false} CommandReadBack(c: Command, rest: string)
    requires WellFormedCommand(c)
    ensures PrintCommand(TrimStart(RenderCommand(c) + rest)) == Some(c.after + rest)
  {
    CommandText(c, rest);
    var tail := c.gap + ("p" + (c.after + rest));
    TailHead(c.gap, c.after + rest);
    AddressesReadBack(c.addresses, tail);
    AfterPReadBack(c.gap, c.after + rest);
    AddressesHead(c.addresses, tail);
    TrimStartOf(c.before, RenderAddresses(c.addresses) + tail);
  }

  lemma AddressesHead(addresses: Addresses, tail: string)
    requires WellFormedAddresses(addresses)
    requires addresses == Nowhere ==> tail != "" && tail[0] == 'p'
    ensures var text := RenderAddresses(addresses) + tail; text != "" && !IsWhitespace(text[0])
  {
    if addresses != Nowhere {
      var place := if addresses.At? then addresses.place else addresses.from;
      assert RenderPlace(place) <= RenderAddresses(addresses);
      PlaceHead(place, false);
    }
  }

  lemma PlaceHead(place: Place, end: bool)
    requires WellFormedPlace(place, end)
    ensures RenderPlace(place) != "" && !IsWhitespace(RenderPlace(place)[0])
  {
  }

  lemma AfterPReadBack(gap: string, rest: string)
    requires Blank(gap)
    ensures AfterP(gap + ("p" + rest)) == Some(rest)
  {
    TrimStartOf(gap, "p" + rest);
  }

  lemma TailHead(gap: string, rest: string)
    requires Blank(gap)
    ensures var tail := gap + ("p" + rest);
      tail != "" && !IsDigit(tail[0]) && tail[0] != '~' && tail[0] != ',' && (gap == "" ==> tail[0] == 'p')
  {
    if gap != "" {
      assert IsWhitespace(gap[0]);
    }
  }

  lemma {:induction false} CommandSplit(text: string) returns (c: Command, rest: string)
    requires PrintCommand(TrimStart(text)).Some?
    ensures rest == TrimStart(PrintCommand(TrimStart(text)).value)
    ensures WellFormedCommand(c) && text == RenderCommand(c) + rest
  {
    var start := TrimStart(text);
    var before := TrimStartSplit(text);
    var addresses, tail := AddressesSplit(start);
    var gap := TrimStartSplit(tail);
    var after := AfterP(tail).value;
    rest := TrimStart(after);
    var blank := TrimStartSplit(after);
    if addresses == Nowhere {
      c := Command(before + gap, Nowhere, "", blank);
      CommandText(c, rest);
      Regroup(before, gap, "p" + (blank + rest));
    } else {
      c := Command(before, addresses, gap, blank);
      CommandText(c, rest);
    }
  }

  lemma Regroup(a: string, b: string, c: string)
    ensures a + ("" + (b + c)) == (a + b) + ("" + ("" + c))
  {
  }

  lemma AddressesSplit(start: string) returns (addresses: Addresses, tail: string)
    requires PrintCommand(start).Some?
    ensures start == RenderAddresses(addresses) + tail && AfterP(tail) == PrintCommand(start)
    ensures WellFormedAddresses(addresses)
  {
    if Address(start, false) == None {
      addresses, tail := Nowhere, start;
    } else {
      var from := AddressSplit(start, false);
      var mid := Address(start, false).value;
      if mid != "" && mid[0] == ',' {
        var to := AddressSplit(mid[1..], true);
        addresses, tail := Range(from, to), Address(mid[1..], true).value;
        RangeText(from, to, tail);
        assert mid == "," + mid[1..];
      } else {
        addresses, tail := At(from), mid;
      }
    }
  }

  lemma RangeText(from: Place, to: Place, tail: string)
    ensures RenderPlace(from) + ("," + (RenderPlace(to) + tail)) == RenderAddresses(Range(from, to)) + tail
  {
  }

  /** What follows the first command of `t`. */
  function Remainder(t: Script): string {
    match t
    case Only(_) => ""
    case Closed(_, blank) => ";" + blank
    case Then(_, next) => ";" + Render(next)
  }

  lemma RenderParts(t: Script)
    ensures Render(t) == RenderCommand(t.command) + Remainder(t)
  {
  }

  /** Whether the recogniser accepts what follows a `p`. */
  predicate OnlyPrintsAfter(after: string) {
    match StripPrefix(TrimStart(after), ";")
    case Some(next) => Trim(next) == "" || OnlyPrints(next)
    case None => Trim(after) == ""
  }

  lemma {:induction false} GrammarIsAccepted(t: Script)
    requires WellFormed(t)
    ensures OnlyPrints(Render(t))
  {
    RenderParts(t);
    CommandReadBack(t.command, Remainder(t));
    assert OnlyPrintsAfter(t.command.after + Remainder(t)) by {
      TrimStartOf(t.command.after, Remainder(t));
      match t {
        case Only(_) =>
          assert t.command.after + "" == t.command.after;
          TrimIsEmpty(t.command.after);
        case Closed(_, blank) =>
          TrimIsEmpty(blank);
        case Then(_, next) =>
          GrammarIsAccepted(next);
      }
    }
  }

  lemma {:induction false} AcceptedIsGrammar(script: string) returns (t: Script)
    requires OnlyPrints(script)
    ensures WellFormed(t) && Render(t) == script
    decreases |script|
  {
    var after := PrintCommand(TrimStart(script)).value;
    var c, rest := CommandSplit(script);
    var next := StripPrefix(rest, ";");
    if next == None {
      TrimIsEmpty(after);
      t := Only(c);
    } else if Trim(next.value) == "" {
      TrimIsEmpty(next.value);
      t := Closed(c, next.value);
    } else {
      var more := AcceptedIsGrammar(next.value);
      t := Then(c, more);
    }
    RenderParts(t);
  }

  /** The recogniser accepts exactly the lists of `p` commands with optional addresses. */
  lemma {:induction false} PrintsExactlyTheGrammar(script: string)
    ensures OnlyPrints(script) <==> InGrammar(script)
  {
    if OnlyPrints(script) {
      var t := AcceptedIsGrammar(script);
    }
    forall t | WellFormed(t) && Render(t) == script
      ensures OnlyPrints(script)
    {
      GrammarIsAccepted(t);
    }
  }

  // Readers that end a regex later.

  datatype Mode = Outside | InRegex | Escaped | InBracket

  /** What stands outside a regex without being a command: blanks, numbers and separators. */
  predicate Filler(c: char) {
    IsWhitespace(c) || IsDigit(c) || c in "$+~,;"
  }

  /**
   Whether some reader in `mode`, with `s` left, may read exactly `commands` before it stops or
   rejects the script. Outside a regex, a character that is neither filler nor `/` is a command.
   A `[` in a regex may open a bracket expression, where `/` and `\` may be ordinary, and which
   may end after any `]`.
   */
  ghost predicate MayRead(mode: Mode, s: string, commands: string)
    decreases |s|
  {
    || commands == ""
    || (s != "" &&
        match mode
        case Outside =>
          if Filler(s[0]) then MayRead(Outside, s[1..], commands)
          else if s[0] == '/' then MayRead(InRegex, s[1..], commands)
          else commands[0] == s[0] && MayRead(Outside, s[1..], commands[1..])
        case InRegex =>
          if s[0] == '/' then MayRead(Outside, s[1..], commands)
          else if s[0] == '\\' then MayRead(Escaped, s[1..], commands)
          else MayRead(InRegex, s[1..], commands) || (s[0] == '[' && MayRead(InBracket, s[1..], commands))
        case Escaped => MayRead(InRegex, s[1..], commands)
        case InBracket =>
          MayRead(InBracket, s[1..], commands) || (s[0] == ']' && MayRead(InRegex, s[1..], commands)))
  }

  /** The mode in which `RegexEnd`'s reading, which knows no bracket, leaves `s`. */
  ghost function ModeAfter(mode: Mode, s: string): Mode
    requires mode != InBracket
    ensures ModeAfter(mode, s) != InBracket
    decreases |s|
  {
    if s == "" then mode else ModeAfter(NextMode(mode, s[0]), s[1..])
  }

  function NextMode(mode: Mode, c: char): (m: Mode)
    requires mode != InBracket
    ensures m != InBracket
  {
    match mode
    case Outside => if c == '/' then InRegex else Outside
    case InRegex => if c == '/' then Outside else if c == '\\' then Escaped else InRegex
    case Escaped => InRegex
  }

  /** How many commands that reading finds in `s`; `None` when one of them is not `p`. */
  ghost function PrintCount(mode: Mode, s: string): Option<nat>
    requires mode != InBracket
    decreases |s|
  {
    if s == "" then Some(0)
    else
      var rest := PrintCount(NextMode(mode, s[0]), s[1..]);
      if rest == None then None
      else if mode != Outside || Filler(s[0]) || s[0] == '/' then rest
      else if s[0] == 'p' then Some(rest.value + 1)
      else None
  }

  /** The alignment: where any reader is outside a bracket, it is in `RegexEnd`'s mode. */
  lemma {:induction false} ReadersStayAligned(mode: Mode, reader: Mode, s: string, commands: string)
    requires mode != InBracket && (reader == mode || reader == InBracket)
    requires PrintCount(mode, s).Some?
    requires MayRead(reader, s, commands)
    ensures |commands| <= PrintCount(mode, s).value
    ensures forall i :: 0 <= i < |commands| ==> commands[i] == 'p'
    decreases |s|
  {
    if commands != "" {
      var next := NextMode(mode, s[0]);
      if reader == Outside && !Filler(s[0]) && s[0] != '/' {
        ReadersStayAligned(next, Outside, s[1..], commands[1..]);
      } else if reader == InBracket && !MayRead(InBracket, s[1..], commands) {
        ReadersStayAligned(next, InRegex, s[1..], commands);
      } else if reader == InRegex && s[0] == '[' && MayRead(InBracket, s[1..], commands) {
        ReadersStayAligned(next, InBracket, s[1..], commands);
      } else {
        ReadersStayAligned(next, if reader == InBracket then InBracket else next, s[1..], commands);
      }
    }
  }

  function Plus(a: Option<nat>, b: Option<nat>): Option<nat> {
    if a.Some? && b.Some? then Some(a.value + b.value) else None
  }

  lemma {:induction false} CountConcat(mode: Mode, a: string, b: string)
    requires mode != InBracket
    ensures ModeAfter(mode, a + b) == ModeAfter(ModeAfter(mode, a), b)
    ensures PrintCount(mode, a + b) == Plus(PrintCount(mode, a), PrintCount(ModeAfter(mode, a), b))
    decreases |a|
  {
    if a == "" {
      assert a + b == b;
    } else {
      assert (a + b)[1..] == a[1..] + b;
      CountConcat(NextMode(mode, a[0]), a[1..], b);
    }
  }

  /** Whether that reading finds `n` commands in `s`, all of them `p`, and is outside a regex after. */
  ghost predicate Counts(s: string, n: nat) {
    ModeAfter(Outside, s) == Outside && PrintCount(Outside, s) == Some(n)
  }

  lemma CountsConcat(a: string, n: nat, b: string, m: nat)
    requires Counts(a, n) && Counts(b, m)
    ensures Counts(a + b, n + m)
  {
    CountConcat(Outside, a, b);
  }

  lemma {:induction false} FillerCount(s: string)
    requires forall i :: 0 <= i < |s| ==> Filler(s[i])
    ensures Counts(s, 0)
  {
    if s != "" {
      assert Filler(s[0]);
      FillerCount(s[1..]);
    }
  }

  lemma {:induction false} RegexCount(body: string)
    requires RegexBody(body)
    ensures ModeAfter(InRegex, body) == InRegex && PrintCount(InRegex, body) == Some(0)
  {
    if body != "" {
      if body[0] == '\\' {
        assert body[1..][1..] == body[2..];
        RegexCount(body[2..]);
      } else {
        RegexCount(body[1..]);
      }
    }
  }

  lemma PlaceCount(place: Place, end: bool)
    requires WellFormedPlace(place, end)
    ensures Counts(RenderPlace(place), 0)
  {
    if place.Regex? {
      RegexCount(place.body);
      CountConcat(Outside, "/" + place.body, "/");
      CountConcat(Outside, "/", place.body);
    } else {
      FillerCount(RenderPlace(place));
    }
  }

  lemma AddressesCount(c: Command)
    requires WellFormedCommand(c)
    ensures Counts(RenderAddresses(c.addresses), 0)
  {
    match c.addresses
    case Nowhere =>
    case At(place) => PlaceCount(place, false);
    case Range(from, to) =>
      PlaceCount(from, false);
      PlaceCount(to, true);
      FillerCount(",");
      CountsConcat(RenderPlace(from), 0, ",", 0);
      CountsConcat(RenderPlace(from) + ",", 0, RenderPlace(to), 0);
  }

  lemma CommandCount(c: Command)
    requires WellFormedCommand(c)
    ensures Counts(RenderCommand(c), 1)
  {
    var addresses := RenderAddresses(c.addresses);
    AddressesCount(c);
    FillerCount(c.before);
    FillerCount(c.gap);
    FillerCount(c.after);
    CountsConcat(c.before, 0, addresses, 0);
    CountsConcat(c.before + addresses, 0, c.gap, 0);
    CountsConcat(c.before + addresses + c.gap, 0, "p", 1);
    CountsConcat(c.before + addresses + c.gap + "p", 1, c.after, 0);
  }

  ghost function Commands(t: Script): nat {
    if t.Then? then 1 + Commands(t.next) else 1
  }

  lemma SeparatedCount(c: Command, separator: string, rest: string, n: nat)
    requires WellFormedCommand(c) && Counts(separator, 0) && Counts(rest, n)
    ensures Counts(RenderCommand(c) + separator + rest, 1 + n)
  {
    CommandCount(c);
    CountsConcat(RenderCommand(c), 1, separator, 0);
    CountsConcat(RenderCommand(c) + separator, 1, rest, n);
  }

  lemma {:induction false} ScriptCount(t: Script)
    requires WellFormed(t)
    ensures Counts(Render(t), Commands(t))
  {
    match t
    case Only(command) => CommandCount(command);
    case Closed(command, blank) =>
      FillerCount(";");
      FillerCount(blank);
      SeparatedCount(command, ";", blank, 0);
    case Then(command, next) =>
      FillerCount(";");
      ScriptCount(next);
      SeparatedCount(command, ";", Render(next), Commands(next));
  }

  /** Every reader reads nothing but `p` from an accepted script, and no more commands than it has. */
  lemma {:induction false} EveryReaderOnlyPrints(t: Script, commands: string)
    requires WellFormed(t) && MayRead(Outside, Render(t), commands)
    ensures |commands| <= Commands(t)
    ensures forall i :: 0 <= i < |commands| ==> commands[i] == 'p'
  {
    ScriptCount(t);
    ReadersStayAligned(Outside, Outside, Render(t), commands);
  }

  /** So of any script the recogniser accepts, whatever its characters. */
  lemma {:induction false} AcceptedScriptOnlyPrints(script: string, commands: string)
    requires OnlyPrints(script) && MayRead(Outside, script, commands)
    ensures forall i :: 0 <= i < |commands| ==> commands[i] == 'p'
  {
    var t := AcceptedIsGrammar(script);
    EveryReaderOnlyPrints(t, commands);
  }

  /** The script GNU sed runs when several are given: each on a line of its own. */
  function Joined(scripts: seq<Script>): string {
    if scripts == [] then "" else Render(scripts[0]) + "\n" + Joined(scripts[1..])
  }

  ghost function AllCommands(scripts: seq<Script>): nat {
    if scripts == [] then 0 else Commands(scripts[0]) + AllCommands(scripts[1..])
  }

  lemma LineCount(t: Script, rest: string, n: nat)
    requires WellFormed(t) && Counts(rest, n)
    ensures Counts(Render(t) + "\n" + rest, Commands(t) + n)
  {
    ScriptCount(t);
    FillerCount("\n");
    CountsConcat(Render(t), Commands(t), "\n", 0);
    CountsConcat(Render(t) + "\n", Commands(t), rest, n);
  }

  lemma {:induction false} JoinedCount(scripts: seq<Script>)
    requires forall t :: t in scripts ==> WellFormed(t)
    ensures Counts(Joined(scripts), AllCommands(scripts))
  {
    if scripts != [] {
      JoinedCount(scripts[1..]);
      LineCount(scripts[0], Joined(scripts[1..]), AllCommands(scripts[1..]));
    }
  }

  /** So too when accepted scripts are joined, even by a bracket one of them leaves open. */
  lemma {:induction false} EveryReaderOnlyPrintsJoined(scripts: seq<Script>, commands: string)
    requires forall t :: t in scripts ==> WellFormed(t)
    requires MayRead(Outside, Joined(scripts), commands)
    ensures |commands| <= AllCommands(scripts)
    ensures forall i :: 0 <= i < |commands| ==> commands[i] == 'p'
  {
    JoinedCount(scripts);
    ReadersStayAligned(Outside, Outside, Joined(scripts), commands);
  }

  /** The reader that knows no bracket, as `RegexEnd`, reads all the commands of a script. */
  lemma {:induction false} BracketlessReaderReadsAll(mode: Mode, s: string)
    requires mode != InBracket && PrintCount(mode, s).Some?
    ensures MayRead(mode, s, seq(PrintCount(mode, s).value, _ => 'p'))
    decreases |s|
  {
    if s != "" {
      BracketlessReaderReadsAll(NextMode(mode, s[0]), s[1..]);
      var commands := seq(PrintCount(mode, s).value, _ => 'p');
      var more := seq(PrintCount(NextMode(mode, s[0]), s[1..]).value, _ => 'p');
      if mode == Outside && !Filler(s[0]) && s[0] != '/' {
        assert commands[1..] == more;
      } else {
        assert commands == more;
      }
    }
  }
}
