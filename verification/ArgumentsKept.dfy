/**
 What a fork keeps of an argument list, told of each argument by its place: whether it is an option, or the
 value of one before it (`crates/claude-fork/src/arguments.rs`).
 */
module ArgumentsKept {
  import opened Common
  import opened Text
  import opened Wrappers
  import opened Arguments

  /** The option that an argument names: all of it, but for what is after the `=` of a long option. */
  ghost predicate Names(argument: string, option: string, inline: Option<string>) {
    match inline
    case None => option == argument && !("--" <= argument && '=' in argument)
    case Some(value) => "--" <= argument && argument == option + ("=" + value) && '=' !in option
  }

  /** Whether an argument that is no value is an option: it starts with `-`, and is not `-` alone. */
  predicate NamesOption(argument: string) {
    |argument| > 1 && argument[0] == '-'
  }

  /** The values the option `of` may take, when it has none after `=`. */
  function ValuesOf(table: Table, of: string): Values {
    var (option, inline) := OptionOf(of);
    if inline.Some? || table(option) == None then NoValue else table(option).value.0
  }

  function FateOf(table: Table, of: string): Option<Fate> {
    var known := table(OptionOf(of).0);
    if known == None then None else Some(known.value.1)
  }

  /**
   The option that takes the argument `at` as a value: the one just before it, or any before that and its
   values when it takes many; but one that takes any number of values takes none that starts with `-`.
   */
  function OptionTaking(table: Table, arguments: seq<string>, at: nat): (r: Option<nat>)
    requires at < |arguments|
    ensures r.Some? ==> r.value < at
    decreases at
  {
    if at == 0 then None
    else
      var dash := arguments[at] != "" && arguments[at][0] == '-';
      match OptionTaking(table, arguments, at - 1)
      case Some(of) =>
        if ValuesOf(table, arguments[of]) == Many && !dash then Some(of) else None
      case None =>
        if !NamesOption(arguments[at - 1]) then None
        else
          match ValuesOf(table, arguments[at - 1])
          case NoValue => None
          case One => Some(at - 1)
          case Optional => if dash then None else Some(at - 1)
          case Many => if dash then None else Some(at - 1)
  }

  predicate IsOption(table: Table, arguments: seq<string>, at: nat)
    requires at < |arguments|
  {
    NamesOption(arguments[at]) && OptionTaking(table, arguments, at) == None
  }

  /** Whether a fork keeps the argument: an option it keeps, or a value of one. */
  predicate KeepsAt(table: Table, arguments: seq<string>, at: nat)
    requires at < |arguments|
  {
    match OptionTaking(table, arguments, at)
    case Some(of) => FateOf(table, arguments[of]) == Some(Kept)
    case None => NamesOption(arguments[at]) && FateOf(table, arguments[at]) == Some(Kept)
  }

  /** The arguments kept of the first `n`, in order. */
  function KeptOf(table: Table, arguments: seq<string>, n: nat): seq<string>
    requires n <= |arguments|
  {
    if n == 0 then []
    else KeptOf(table, arguments, n - 1) + if KeepsAt(table, arguments, n - 1) then [arguments[n - 1]] else []
  }

  /** The model that the last of the first `n` arguments to name one names: after its `=`, or its first value. */
  function ModelNamed(table: Table, arguments: seq<string>, n: nat): Option<string>
    requires n <= |arguments|
  {
    if n == 0 then None
    else if IsOption(table, arguments, n - 1) && OptionOf(arguments[n - 1]).0 == "--model" then
      if OptionOf(arguments[n - 1]).1.Some? then OptionOf(arguments[n - 1]).1
      else if n < |arguments| && OptionTaking(table, arguments, n) == Some(n - 1) then Some(arguments[n])
      else None
    else ModelNamed(table, arguments, n - 1)
  }

  /** Whether a fork knows the argument, when it is an option, and is not refused for it. */
  predicate Allows(table: Table, arguments: seq<string>, at: nat)
    requires at < |arguments|
  {
    IsOption(table, arguments, at) ==> FateOf(table, arguments[at]) !in {None, Some(Refused)}
  }

  // What is read.

  lemma {:induction false} OptionOfIs(argument: string)
    ensures Names(argument, OptionOf(argument).0, OptionOf(argument).1)
  {
    var found := Find(argument, "=");
    if found.Some? {
      var k := found.value;
      var (option, value) := (argument[..k], argument[k + 1..]);
      assert argument[k..k + 1] == "=";
      assert argument == option + ("=" + value);
      if "--" <= argument {
        assert argument[0] == '-' && argument[1] == '-';
        assert k >= 2 && option[..2] == "--";
      }
      forall i | 0 <= i < k
        ensures option[i] != '='
      {
        assert !OccursAt(argument, "=", i) && argument[i..i + 1] == [argument[i]];
      }
    } else if '=' in argument {
      var i :| 0 <= i < |argument| && argument[i] == '=';
      assert OccursAt(argument, "=", i);
    }
  }

  /** What follows the option `at`, when it takes `n` values. */
  ghost predicate TakesNext(table: Table, arguments: seq<string>, at: nat, n: nat) {
    && at + n < |arguments|
    && (forall k: nat :: at < k <= at + n ==> OptionTaking(table, arguments, k) == Some(at))
    && (at + n + 1 < |arguments| ==> OptionTaking(table, arguments, at + n + 1) == None)
  }

  lemma {:induction false} ManyTaken(table: Table, arguments: seq<string>, at: nat, n: nat)
    requires at + n < |arguments| && IsOption(table, arguments, at) && ValuesOf(table, arguments[at]) == Many
    requires n <= Plain(arguments[at + 1..])
    ensures forall k: nat :: at < k <= at + n ==> OptionTaking(table, arguments, k) == Some(at)
    decreases n
  {
    if n > 0 {
      ManyTaken(table, arguments, at, n - 1);
      assert arguments[at + 1..][n - 1] == arguments[at + n];
    }
  }

  lemma EndsAfter(table: Table, arguments: seq<string>, at: nat, n: nat)
    requires at < |arguments| && IsOption(table, arguments, at)
    requires n == Taken(ValuesOf(table, arguments[at]), arguments[at + 1..]) && at + n + 1 < |arguments|
    requires n > 0 ==> OptionTaking(table, arguments, at + n) == Some(at)
    ensures OptionTaking(table, arguments, at + n + 1) == None
  {
    assert arguments[at + 1..][n] == arguments[at + n + 1];
    hide ValuesOf;
  }

  lemma TakesFirst(table: Table, arguments: seq<string>, at: nat)
    requires at < |arguments| && IsOption(table, arguments, at)
    requires Taken(ValuesOf(table, arguments[at]), arguments[at + 1..]) > 0
    ensures OptionTaking(table, arguments, at + 1) == Some(at)
  {
    assert arguments[at + 1..][0] == arguments[at + 1];
    hide ValuesOf;
  }

  /** An option takes the values that the reading of the list takes. */
  lemma OptionTakes(table: Table, arguments: seq<string>, at: nat)
    requires at < |arguments| && IsOption(table, arguments, at)
    ensures TakesNext(table, arguments, at, Taken(ValuesOf(table, arguments[at]), arguments[at + 1..]))
  {
    hide OptionTaking, ValuesOf, Plain;
    var values := ValuesOf(table, arguments[at]);
    var n := Taken(values, arguments[at + 1..]);
    if n > 0 {
      TakesFirst(table, arguments, at);
    }
    if values == Many {
      ManyTaken(table, arguments, at, n);
    }
    if at + n + 1 < |arguments| {
      EndsAfter(table, arguments, at, n);
    }
  }

  lemma PromptTakes(table: Table, arguments: seq<string>, at: nat)
    requires at < |arguments| && OptionTaking(table, arguments, at) == None && IsPrompt(arguments[at])
    ensures TakesNext(table, arguments, at, 0) && !IsOption(table, arguments, at)
  {
  }

  lemma KeepsWith(table: Table, arguments: seq<string>, at: nat, value: nat)
    requires at < |arguments| && value < |arguments|
    requires OptionTaking(table, arguments, at) == None && NamesOption(arguments[at])
    requires OptionTaking(table, arguments, value) == Some(at)
    ensures KeepsAt(table, arguments, value) == KeepsAt(table, arguments, at)
  {
  }

  lemma {:induction false} KeptSpan(table: Table, arguments: seq<string>, at: nat, n: nat)
    requires at + n < |arguments| && OptionTaking(table, arguments, at) == None
    requires forall k: nat :: at < k <= at + n ==> OptionTaking(table, arguments, k) == Some(at)
    requires n > 0 ==> NamesOption(arguments[at])
    ensures KeptOf(table, arguments, at + 1 + n) == KeptOf(table, arguments, at) +
              if KeepsAt(table, arguments, at) then [arguments[at]] + arguments[at + 1..at + 1 + n] else []
    decreases n
  {
    hide OptionTaking, KeepsAt, NamesOption;
    var before := KeptOf(table, arguments, at);
    if n > 0 {
      KeptSpan(table, arguments, at, n - 1);
      KeepsWith(table, arguments, at, at + n);
      var values, last := arguments[at + 1..at + n], [arguments[at + n]];
      assert arguments[at + 1..at + 1 + n] == values + last;
      Associate(before, [arguments[at]] + values, last);
      Associate([arguments[at]], values, last);
    } else {
      assert arguments[at + 1..at + 1] == [];
    }
  }

  lemma {:induction false} ModelSpan(table: Table, arguments: seq<string>, at: nat, n: nat)
    requires at + n < |arguments|
    requires forall k: nat :: at < k <= at + n ==> OptionTaking(table, arguments, k) == Some(at)
    ensures ModelNamed(table, arguments, at + 1 + n) == ModelNamed(table, arguments, at + 1)
    decreases n
  {
    hide OptionTaking, OptionOf;
    if n > 0 {
      ModelSpan(table, arguments, at, n - 1);
      assert !IsOption(table, arguments, at + n);
    }
  }

  lemma OptionItem(table: Table, arguments: seq<string>, at: nat, item: Item, rest: seq<string>)
    requires at < |arguments| && NamesOption(arguments[at]) && ReadOne(table, arguments[at..]) == Ok((item, rest))
    ensures var n := Taken(ValuesOf(table, arguments[at]), arguments[at + 1..]);
      && item.Given? && item.argument == arguments[at] && (item.option, item.inline) == OptionOf(arguments[at])
      && item.taken == arguments[at + 1..at + 1 + n] && rest == arguments[at + 1 + n..]
      && FateOf(table, arguments[at]) == Some(item.fate) && item.fate != Refused
  {
    assert arguments[at..][1..] == arguments[at + 1..];
    hide Plain, OptionOf;
  }

  /** The first item from `at` on ends before `end`: what is kept of it, and the model it names. */
  ghost predicate IsItem(table: Table, arguments: seq<string>, at: nat, item: Item, end: nat) {
    && at < end <= |arguments| && (end < |arguments| ==> OptionTaking(table, arguments, end) == None)
    && (forall k: nat :: at <= k < end ==> Allows(table, arguments, k))
    && KeptOf(table, arguments, end) == KeptOf(table, arguments, at) + (if IsKept(item) then Written(item) else [])
    && ModelNamed(table, arguments, end) == ModelAfter(item, ModelNamed(table, arguments, at))
  }

  lemma PromptIs(table: Table, arguments: seq<string>, at: nat, item: Item)
    requires at < |arguments| && OptionTaking(table, arguments, at) == None
    requires IsPrompt(arguments[at]) && item == Prompt(arguments[at])
    ensures IsItem(table, arguments, at, item, at + 1)
  {
    hide OptionTaking, OptionOf, FateOf;
    PromptTakes(table, arguments, at);
    assert !IsOption(table, arguments, at) && !KeepsAt(table, arguments, at);
    hide KeepsAt, IsPrompt, IsOption;
    assert KeptOf(table, arguments, at) + [] == KeptOf(table, arguments, at);
    assert KeptOf(table, arguments, at + 1) == KeptOf(table, arguments, at) + [];
  }

  lemma TakenAreAllowed(table: Table, arguments: seq<string>, at: nat, n: nat)
    requires at < |arguments| && IsOption(table, arguments, at) && TakesNext(table, arguments, at, n)
    requires FateOf(table, arguments[at]) !in {None, Some(Refused)}
    ensures forall k: nat :: at <= k < at + 1 + n ==> Allows(table, arguments, k)
  {
    hide OptionTaking, FateOf;
  }

  lemma GivenIs(table: Table, arguments: seq<string>, at: nat, n: nat, item: Item)
    requires at < |arguments| && IsOption(table, arguments, at) && TakesNext(table, arguments, at, n)
    requires item.Given? && item.argument == arguments[at] && (item.option, item.inline) == OptionOf(arguments[at])
    requires item.taken == arguments[at + 1..at + 1 + n]
    requires FateOf(table, arguments[at]) == Some(item.fate) && item.fate != Refused
    ensures IsItem(table, arguments, at, item, at + 1 + n)
  {
    KeptSpan(table, arguments, at, n);
    ModelSpan(table, arguments, at, n);
    ModelIs(table, arguments, at, n, item);
    TakenAreAllowed(table, arguments, at, n);
    hide OptionTaking, OptionOf, FateOf, KeptOf, ModelNamed, Allows;
  }

  lemma ItemIs(table: Table, arguments: seq<string>, at: nat, item: Item, rest: seq<string>) returns (end: nat)
    requires at < |arguments| && OptionTaking(table, arguments, at) == None
    requires ReadOne(table, arguments[at..]) == Ok((item, rest))
    ensures IsItem(table, arguments, at, item, end) && arguments[end..] == rest
  {
    hide OptionTaking, Taken, OptionOf, FateOf, IsItem;
    if IsPrompt(arguments[at]) {
      end := at + 1;
      assert arguments[at..][1..] == arguments[end..];
      PromptIs(table, arguments, at, item);
    } else {
      hide ReadOne;
      OptionTakes(table, arguments, at);
      OptionItem(table, arguments, at, item, rest);
      end := at + 1 + Taken(ValuesOf(table, arguments[at]), arguments[at + 1..]);
      GivenIs(table, arguments, at, end - at - 1, item);
    }
  }

  lemma ModelIs(table: Table, arguments: seq<string>, at: nat, n: nat, item: Item)
    requires at < |arguments| && IsOption(table, arguments, at) && TakesNext(table, arguments, at, n)
    requires item.Given? && (item.option, item.inline) == OptionOf(arguments[at])
    requires item.taken == arguments[at + 1..at + 1 + n]
    ensures ModelNamed(table, arguments, at + 1) == ModelAfter(item, ModelNamed(table, arguments, at))
  {
    hide OptionTaking, OptionOf;
    if n > 0 {
      assert OptionTaking(table, arguments, at + 1) == Some(at) && item.taken[0] == arguments[at + 1];
    }
  }

  /** Why a list cannot be forked: its first option that is not allowed. */
  ghost predicate FailsAt(table: Table, arguments: seq<string>, at: nat, failure: Failure) {
    && at < |arguments| && IsOption(table, arguments, at) && !Allows(table, arguments, at)
    && failure == if FateOf(table, arguments[at]) == None then Unknown(OptionOf(arguments[at]).0)
                  else Unforkable(OptionOf(arguments[at]).0)
  }

  ghost predicate AllAllowed(table: Table, arguments: seq<string>, n: nat)
    requires n <= |arguments|
  {
    forall k: nat :: k < n ==> Allows(table, arguments, k)
  }

  lemma FirstFails(table: Table, arguments: seq<string>, at: nat)
    requires at < |arguments| && OptionTaking(table, arguments, at) == None && ReadOne(table, arguments[at..]).Err?
    ensures FailsAt(table, arguments, at, ReadOne(table, arguments[at..]).error)
  {
    hide OptionTaking, Taken, OptionOf;
  }

  /** The reading from `at` on, which starts an item: its failure, or what is kept and the model named. */
  ghost predicate ReadsFrom(table: Table, arguments: seq<string>, at: nat)
    requires at <= |arguments|
  {
    match Read(table, arguments[at..])
    case Err(failure) =>
      exists k: nat :: FailsAt(table, arguments, k, failure) && AllAllowed(table, arguments, k)
    case Ok(items) =>
      && AllAllowed(table, arguments, |arguments|)
      && KeptOf(table, arguments, |arguments|) == KeptOf(table, arguments, at) + Write(KeptItems(items))
      && ModelNamed(table, arguments, |arguments|) == ModelOf(items, ModelNamed(table, arguments, at))
  }

  lemma {:induction false} ReadIs(table: Table, arguments: seq<string>, at: nat)
    requires at <= |arguments| && (at < |arguments| ==> OptionTaking(table, arguments, at) == None)
    requires AllAllowed(table, arguments, at)
    ensures ReadsFrom(table, arguments, at)
    decreases |arguments| - at
  {
    hide OptionTaking, ReadOne, FailsAt, KeptOf, ModelNamed, Allows;
    if at < |arguments| {
      if ReadOne(table, arguments[at..]).Err? {
        FirstFails(table, arguments, at);
      } else {
        var (item, rest) := ReadOne(table, arguments[at..]).value;
        var end := ItemIs(table, arguments, at, item, rest);
        ReadIs(table, arguments, end);
        if Read(table, rest).Ok? {
          ItemsJoin(table, arguments, at, item, Read(table, rest).value);
        }
      }
    } else {
      assert arguments[at..] == [];
      assert KeptOf(table, arguments, at) + [] == KeptOf(table, arguments, at);
    }
  }

  lemma ItemsJoin(table: Table, arguments: seq<string>, at: nat, item: Item, items: seq<Item>)
    requires at <= |arguments|
    ensures var before, first := KeptOf(table, arguments, at), if IsKept(item) then Written(item) else [];
      && before + first + Write(KeptItems(items)) == before + Write(KeptItems([item] + items))
      && ModelOf([item] + items, ModelNamed(table, arguments, at))
         == ModelOf(items, ModelAfter(item, ModelNamed(table, arguments, at)))
  {
    KeepFirst(item, items);
    Associate(KeptOf(table, arguments, at), if IsKept(item) then Written(item) else [], Write(KeptItems(items)));
  }

  /**
   A list that a fork can have keeps, in order, the arguments that are kept by their place, and the model
   named last; and one that it cannot have fails for its first option that is unknown or refused.
   */
  lemma {:induction false} KeepsByPlace(table: Table, arguments: seq<string>)
    ensures match Read(table, arguments)
            case Err(failure) =>
              exists k: nat :: FailsAt(table, arguments, k, failure) && AllAllowed(table, arguments, k)
            case Ok(items) =>
              && AllAllowed(table, arguments, |arguments|)
              && Write(KeptItems(items)) == KeptOf(table, arguments, |arguments|)
              && ModelOf(items, None) == ModelNamed(table, arguments, |arguments|)
  {
    ReadIs(table, arguments, 0);
    assert arguments[0..] == arguments;
    if Read(table, arguments).Ok? {
      assert [] + Write(KeptItems(Read(table, arguments).value)) == Write(KeptItems(Read(table, arguments).value));
    }
  }
}
