/**
 `crates/claude-fork/src/arguments.rs`: the arguments of the pane agent that a fork keeps.

 An argument list is read as `Item`s, prompts and options with the values they took; `Keep`, the
 source's loop, keeps those whose fate is `Kept`.
 */
module Arguments {
  import opened Common
  import opened Text
  import opened Wrappers

  datatype Values = NoValue | One | Optional | Many

  datatype Fate = Kept | Dropped | Refused

  /** What the agent's table says of an option, when it knows it. */
  type Table = string -> Option<(Values, Fate)>

  datatype Failure = Unknown(option: string) | Unforkable(option: string)

  /** An argument as it is read: its option's name, its value after `=`, and the values it took. */
  datatype Item =
    | Prompt(argument: string)
    | Given(argument: string, option: string, inline: Option<string>, fate: Fate, taken: seq<string>)

  predicate IsDash(argument: string) {
    argument != "" && argument[0] == '-'
  }

  predicate IsPrompt(argument: string) {
    !IsDash(argument) || argument == "-"
  }

  /** The option an argument names, and its value after `=`, which only a long option takes. */
  function OptionOf(argument: string): (string, Option<string>) {
    match SplitOnce(argument, "=")
    case Some((option, value)) => if "--" <= option then (option, Some(value)) else (argument, None)
    case None => (argument, None)
  }

  /** How many of the first arguments of `rest` are not options. */
  function Plain(rest: seq<string>): (n: nat)
    ensures n <= |rest| && (forall i :: 0 <= i < n ==> !IsDash(rest[i]))
    ensures n < |rest| ==> IsDash(rest[n])
  {
    if rest == [] || IsDash(rest[0]) then 0 else 1 + Plain(rest[1..])
  }

  /** How many values an option that takes `values` takes of `rest`. */
  function Taken(values: Values, rest: seq<string>): (n: nat)
    ensures n <= |rest|
  {
    match values
    case NoValue => 0
    case One => Min(1, |rest|)
    case Optional => Min(1, Plain(rest))
    case Many => Plain(rest)
  }

  /** The first item of a list of arguments, and the arguments after it. */
  function ReadOne(table: Table, arguments: seq<string>): (r: Result<(Item, seq<string>), Failure>)
    requires arguments != []
    ensures r.Ok? ==> |r.value.1| < |arguments|
  {
    var argument, rest := arguments[0], arguments[1..];
    if IsPrompt(argument) then Ok((Prompt(argument), rest))
    else
      var (option, inline) := OptionOf(argument);
      match table(option)
      case None => Err(Unknown(option))
      case Some((values, fate)) =>
        if fate == Refused then Err(Unforkable(option))
        else
          var taken := if inline == None then Taken(values, rest) else 0;
          Ok((Given(argument, option, inline, fate, rest[..taken]), rest[taken..]))
  }

  function Read(table: Table, arguments: seq<string>): Result<seq<Item>, Failure>
    decreases |arguments|
  {
    if arguments == [] then Ok([])
    else
      match ReadOne(table, arguments)
      case Err(failure) => Err(failure)
      case Ok((item, rest)) =>
        match Read(table, rest)
        case Err(failure) => Err(failure)
        case Ok(items) => Ok([item] + items)
  }

  predicate IsKept(item: Item) {
    item.Given? && item.fate == Kept
  }

  /** The options kept, in order, with their values. */
  function KeptItems(items: seq<Item>): seq<Item> {
    if items == [] then [] else (if IsKept(items[0]) then [items[0]] else []) + KeptItems(items[1..])
  }

  function Written(item: Item): seq<string> {
    if item.Given? then [item.argument] + item.taken else [item.argument]
  }

  function Write(items: seq<Item>): seq<string> {
    if items == [] then [] else Written(items[0]) + Write(items[1..])
  }

  /** The model after an item, when `model` was named before it. */
  function ModelAfter(item: Item, model: Option<string>): Option<string> {
    if !(item.Given? && item.option == "--model") then model
    else if item.inline.Some? then item.inline
    else if item.taken != [] then Some(item.taken[0])
    else None
  }

  /** The model named last, `model` when none is. */
  function ModelOf(items: seq<Item>, model: Option<string>): Option<string>
    decreases |items|
  {
    if items == [] then model else ModelOf(items[1..], ModelAfter(items[0], model))
  }

  /** What is kept of `arguments`, after `kept` and `model` were before them. */
  function Summary(table: Table, arguments: seq<string>, kept: seq<string>, model: Option<string>):
    Result<(seq<string>, Option<string>), Failure>
  {
    match Read(table, arguments)
    case Err(failure) => Err(failure)
    case Ok(items) => Ok((kept + Write(KeptItems(items)), ModelOf(items, model)))
  }

  method TakePlain(arguments: seq<string>) returns (taken: seq<string>, rest: seq<string>)
    ensures taken == arguments[..Plain(arguments)] && rest == arguments[Plain(arguments)..]
  {
    taken, rest := [], arguments;
    while rest != [] && !IsDash(rest[0])
      invariant |taken| + |rest| == |arguments|
      invariant taken == arguments[..|taken|] && rest == arguments[|taken|..]
      invariant Plain(arguments) == |taken| + Plain(rest)
      decreases |rest|
    {
      taken, rest := taken + [rest[0]], rest[1..];
    }
  }

  /** The values an option takes, from the front of the arguments after it. */
  method OptionValues(values: Values, arguments: seq<string>) returns (taken: seq<string>, rest: seq<string>)
    ensures taken == arguments[..Taken(values, arguments)] && rest == arguments[Taken(values, arguments)..]
  {
    taken, rest := [], arguments;
    match values {
      case NoValue =>
      case One =>
        if rest != [] {
          taken, rest := [rest[0]], rest[1..];
        }
      case Optional =>
        if rest != [] && !IsDash(rest[0]) {
          taken, rest := [rest[0]], rest[1..];
        }
      case Many =>
        taken, rest := TakePlain(arguments);
    }
  }

  /** The arguments a fork keeps and the model they name; or why the agent cannot be forked. */
  method Keep(table: Table, arguments: seq<string>) returns (r: Result<(seq<string>, Option<string>), Failure>)
    ensures r == match Read(table, arguments)
                 case Err(failure) => Err(failure)
                 case Ok(items) => Ok((Write(KeptItems(items)), ModelOf(items, None)))
  {
    hide Summary, Read, KeptItems, Write, ModelOf;
    var kept, model, rest := [], None, arguments;
    NothingBefore(table, arguments);
    while rest != []
      invariant Summary(table, arguments, [], None) == Summary(table, rest, kept, model)
      decreases |rest|
    {
      SummaryStep(table, rest, kept, model);
      var argument := rest[0];
      ghost var before := rest;
      rest := rest[1..];
      if IsPrompt(argument) {
        assert kept + [] == kept;
        continue;
      }
      var (option, inline) := OptionOf(argument);
      var known := table(option);
      if known == None {
        return Err(Unknown(option));
      }
      var (values, fate) := known.value;
      if fate == Refused {
        return Err(Unforkable(option));
      }
      var taken := [];
      if inline == None {
        taken, rest := OptionValues(values, rest);
      }
      ghost var item := Given(argument, option, inline, fate, taken);
      assert ReadOne(table, before) == Ok((item, rest));
      if option == "--model" {
        model := if inline.Some? then inline else if taken != [] then Some(taken[0]) else None;
      }
      if fate == Kept {
        assert kept + Written(item) == kept + [argument] + taken;
        kept := kept + [argument] + taken;
      } else {
        assert kept + [] == kept;
      }
    }
    NothingAfter(table, kept, model);
    return Ok((kept, model));
  }

  lemma NothingBefore(table: Table, arguments: seq<string>)
    ensures Summary(table, arguments, [], None)
         == match Read(table, arguments)
            case Err(failure) => Err(failure)
            case Ok(items) => Ok((Write(KeptItems(items)), ModelOf(items, None)))
  {
    if Read(table, arguments).Ok? {
      assert [] + Write(KeptItems(Read(table, arguments).value)) == Write(KeptItems(Read(table, arguments).value));
    }
  }

  lemma NothingAfter(table: Table, kept: seq<string>, model: Option<string>)
    ensures Summary(table, [], kept, model) == Ok((kept, model))
  {
    assert kept + [] == kept;
  }

  lemma KeepFirst(item: Item, items: seq<Item>)
    ensures KeptItems([item] + items) == if IsKept(item) then [item] + KeptItems(items) else KeptItems(items)
    ensures Write(KeptItems([item] + items))
         == (if IsKept(item) then Written(item) else []) + Write(KeptItems(items))
  {
    if IsKept(item) {
    } else {
      assert [] + KeptItems(items) == KeptItems(items);
      assert [] + Write(KeptItems(items)) == Write(KeptItems(items));
    }
  }

  lemma SummaryStep(table: Table, arguments: seq<string>, kept: seq<string>, model: Option<string>)
    requires arguments != []
    ensures Summary(table, arguments, kept, model)
         == match ReadOne(table, arguments)
            case Err(failure) => Err(failure)
            case Ok((item, rest)) =>
              Summary(table, rest, kept + (if IsKept(item) then Written(item) else []), ModelAfter(item, model))
  {
    if ReadOne(table, arguments).Ok? {
      var (item, rest) := ReadOne(table, arguments).value;
      if Read(table, rest).Ok? {
        var items := Read(table, rest).value;
        KeepFirst(item, items);
        Associate(kept, if IsKept(item) then Written(item) else [], Write(KeptItems(items)));
      }
    }
  }

  // Reading what is kept.

  /** The start of what follows an option: nothing, or another option. */
  predicate StartsWithOption(arguments: seq<string>) {
    arguments == [] || IsDash(arguments[0])
  }

  /** What is read, written again, is what was read. */
  lemma {:induction false} WriteRead(table: Table, arguments: seq<string>)
    requires Read(table, arguments).Ok?
    ensures Write(Read(table, arguments).value) == arguments
    decreases |arguments|
  {
    if arguments != [] {
      var (item, rest) := ReadOne(table, arguments).value;
      WriteRead(table, rest);
    }
  }

  lemma {:induction false} KeptStartsWithOption(table: Table, arguments: seq<string>)
    requires Read(table, arguments).Ok?
    ensures StartsWithOption(Write(KeptItems(Read(table, arguments).value)))
    decreases |arguments|
  {
    if arguments != [] {
      var (item, rest) := ReadOne(table, arguments).value;
      KeptStartsWithOption(table, rest);
      var items := Read(table, rest).value;
      KeepFirst(item, items);
      if !IsKept(item) {
        assert [] + Write(KeptItems(items)) == Write(KeptItems(items));
      }
    }
  }

  /** Values taken before other arguments are taken again before what is kept of those. */
  lemma TakenAgain(values: Values, rest: seq<string>, after: seq<string>)
    requires StartsWithOption(after)
    requires Taken(values, rest) == |rest| ==> after == []
    ensures Taken(values, rest[..Taken(values, rest)] + after) == Taken(values, rest)
  {
    var n := Taken(values, rest);
    if values == Many || values == Optional {
      PlainIs(rest[..n] + after, n);
    }
  }

  lemma {:induction false} PlainIs(arguments: seq<string>, n: nat)
    requires n <= |arguments| && (forall i :: 0 <= i < n ==> !IsDash(arguments[i]))
    requires n < |arguments| ==> IsDash(arguments[n])
    ensures Plain(arguments) == n
    decreases n
  {
    if n > 0 {
      PlainIs(arguments[1..], n - 1);
    }
  }

  /** An option is read from its written form as it was, with the same values. */
  lemma {:induction false} ReadOneAgain(table: Table, arguments: seq<string>, after: seq<string>)
    requires arguments != [] && ReadOne(table, arguments).Ok?
    requires ReadOne(table, arguments).value.0.Given?
    requires StartsWithOption(after) && (ReadOne(table, arguments).value.1 == [] ==> after == [])
    ensures var item := ReadOne(table, arguments).value.0;
      ReadOne(table, Written(item) + after) == Ok((item, after))
  {
    hide OptionOf, IsPrompt, Taken;
    var (item, rest) := ReadOne(table, arguments).value;
    var (values, fate) := table(item.option).value;
    if item.inline == None {
      TakenAgain(values, arguments[1..], after);
    }
    ReadOneOf(table, item, values, after);
  }

  /** An option is read from the argument that names it, the values it takes, and other arguments. */
  lemma ReadOneOf(table: Table, item: Item, values: Values, after: seq<string>)
    requires item.Given? && !IsPrompt(item.argument) && OptionOf(item.argument) == (item.option, item.inline)
    requires table(item.option) == Some((values, item.fate)) && item.fate != Refused
    requires (if item.inline == None then Taken(values, item.taken + after) else 0) == |item.taken|
    ensures ReadOne(table, Written(item) + after) == Ok((item, after))
  {
    hide OptionOf, IsPrompt, Taken;
    assert (Written(item) + after)[1..] == item.taken + after;
    SplitAt(item.taken, after);
  }

  lemma {:induction false} ReadKept(table: Table, arguments: seq<string>)
    requires Read(table, arguments).Ok?
    ensures var kept := KeptItems(Read(table, arguments).value); Read(table, Write(kept)) == Ok(kept)
    decreases |arguments|
  {
    if arguments != [] {
      var (item, rest) := ReadOne(table, arguments).value;
      ReadKept(table, rest);
      var items := Read(table, rest).value;
      KeepFirst(item, items);
      var after := Write(KeptItems(items));
      if IsKept(item) {
        KeptStartsWithOption(table, rest);
        ReadOneAgain(table, arguments, after);
      } else {
        assert [] + after == after;
      }
    }
  }

  lemma {:induction false} KeptOfKept(items: seq<Item>)
    ensures KeptItems(KeptItems(items)) == KeptItems(items)
  {
    if items != [] {
      KeptOfKept(items[1..]);
      assert items == [items[0]] + items[1..];
      KeepFirst(items[0], items[1..]);
      KeepFirst(items[0], KeptItems(items[1..]));
    }
  }

  lemma {:induction false} NoModelKept(table: Table, arguments: seq<string>, model: Option<string>)
    requires Read(table, arguments).Ok? && (table("--model").Some? ==> table("--model").value.1 != Kept)
    ensures ModelOf(KeptItems(Read(table, arguments).value), model) == model
    decreases |arguments|
  {
    if arguments != [] {
      var (item, rest) := ReadOne(table, arguments).value;
      NoModelKept(table, rest, model);
      var items := Read(table, rest).value;
      KeepFirst(item, items);
    }
  }

  /**
   Whenever arguments are kept, reading those kept gives exactly the options kept, in order and with
   their values; so they are kept as they are, and name no model.
   */
  lemma {:induction false} KeepingTwice(table: Table, arguments: seq<string>)
    requires Read(table, arguments).Ok? && (table("--model").Some? ==> table("--model").value.1 != Kept)
    ensures var kept := KeptItems(Read(table, arguments).value);
      && Read(table, Write(kept)) == Ok(kept)
      && KeptItems(kept) == kept
      && ModelOf(kept, None) == None
  {
    ReadKept(table, arguments);
    KeptOfKept(Read(table, arguments).value);
    NoModelKept(table, arguments, None);
  }

  /** `claude`'s options, with the values each takes and its fate in a fork. */
  function ClaudeOption(option: string): Option<(Values, Fate)> {
    if option in {
      "--debug-file", "--environment", "--input-format", "--json-schema", "--model", "--name", "-n", "--output-format",
      "--permission-prompts", "--remote-control-session-name-prefix", "--session-id"
    } then Some((One, Dropped))
    else if option in {
      "--allow-dangerously-skip-permissions", "--ax-screen-reader", "--bare", "--brief", "--chrome",
      "--dangerously-skip-permissions", "--disable-slash-commands", "--exclude-dynamic-system-prompt-sections",
      "--no-chrome", "--restricted", "--safe-mode", "--strict-mcp-config"
    } then Some((NoValue, Kept))
    else if option in {
      "--agent", "--agents", "--append-system-prompt", "--append-system-prompt-file", "--autocompact", "--effort",
      "--fallback-model", "--max-budget-usd", "--max-turns", "--permission-mode", "--permission-prompt-tool",
      "--plugin-dir", "--plugin-url", "--setting-sources", "--system-prompt", "--system-prompt-file",
      "--system-prompt-snapshot"
    } then Some((One, Kept))
    else if option in {
      "--add-dir", "--allowedTools", "--allowed-tools", "--betas", "--disallowedTools", "--disallowed-tools",
      "--mcp-config", "--tools"
    } then Some((Many, Kept))
    else if option in {
      "--bg", "--background", "--continue", "-c", "--desktop", "--fork-session", "--forward-subagent-text", "--ide",
      "--include-hook-events", "--include-partial-messages", "--no-session-persistence", "--print", "-p",
      "--replay-user-messages", "--tmux", "--verbose"
    } then Some((NoValue, Dropped))
    else if option in {
      "--cloud", "--debug", "-d", "--from-pr", "--prompt-suggestions", "--remote-control", "--resume", "-r",
      "--teleport", "--worktree", "-w"
    } then Some((Optional, Dropped))
    else if option == "--file" then Some((Many, Dropped))
    else if option == "--settings" then Some((One, Refused))
    else None
  }

  /** What a fork of `claude` keeps of a command line, it keeps again unchanged, naming no model. */
  lemma {:induction false} ClaudeKeepingTwice(arguments: seq<string>)
    requires Read(ClaudeOption, arguments).Ok?
    ensures var kept := KeptItems(Read(ClaudeOption, arguments).value);
      && Read(ClaudeOption, Write(kept)) == Ok(kept)
      && KeptItems(kept) == kept
      && ModelOf(kept, None) == None
  {
    KeepingTwice(ClaudeOption, arguments);
  }

}
