# Models of the reviewer's decision and state code

Dafny models of the parts of the progressive reviewer that decide something without I/O, with proofs
of what the rest of the repository relies on. `dafny verify dfyconfig.toml` checks everything.

| files | what is modelled |
|---|---|
| `Sed.dfy`, `SedArguments.dfy`, `SedOptions.dfy` | the guard's recogniser of `sed -n` scripts and arguments that only print |
| `Shell.dfy`, `ShellGrammar.dfy`, `ShellReading.dfy` | the guard's splitter of shell pipes |
| `DiffSearch.dfy`, `DiffSearchRuns.dfy`, `DiffSearchStepping.dfy`, `DiffSearchJumps.dfy` | the search of a diff, its matches computed by a worker |
| `Drafts.dfy`, `DraftsRuns.dfy`, `DraftsPosts.dfy` | the drafts of a reviewer |
| `EditorWrap.dfy`, `EditorView.dfy`, `EditorCursor.dfy` | the rows of a comment editor, and those on screen |
| `EventBus.dfy`, `EventBusRuns.dfy`, `EventBusHandlers.dfy` | the bus between the application's components |
| `MarkdownHtml.dfy`, `MarkdownNesting.dfy`, `MarkdownContent.dfy` | the rewriting of Markdown events for HTML |
| `Arguments.dfy`, `ArgumentsKept.dfy` | the arguments of an agent that its fork keeps |
| `PackageGraph.dfy`, `Planner.dfy`, `PlannerFiles.dfy` | which checks a change reaches |
| `NetworkTokens.dfy` | the tokens of the page beyond this machine |
| `Pastes.dfy` | the pastes in a prompt that Claude Code reports |
| `Roster.dfy` | the arrivals and departures of agents |
| `DiffWrap.dfy` | the wrapping of diff lines |
| `Expectations.dfy` | what a reviewer expects of its agents' hooks |
| `Text.dfy`, `Wrappers.dfy`, `Common.dfy` | the parts of `str`, `Option`, `Result` and arithmetic these use |

An object the code updates in place is a class, each of whose methods is proved against a function of
the object's value. The theorems about whole runs are then lemmas about those functions: a run is a
sequence of steps, one for each operation and each thing that may happen around it, in any order.
What each operation computes is told a second time without those functions: by the letters of an
option, by the characters of a command as a shell reads them, by what the handlers return, by the
events around an event, by the place of an argument, by the editor's row and column. Where the two
are proved equal, an error in a function shows.

## What is assumed

- Diff search: request identities are fresh, a worker's answer to a request of this viewer is what a
  direct search of its texts finds, and a search gives matches in strictly increasing order, in the
  texts there are. Results of other viewers' requests may be anything. Equal handles of texts stand for
  the same allocation.
- Drafts: universally unique identities are never drawn twice, and those met in saves, threads and
  books were drawn before. The editor keeps a text but for carriage returns and control characters.
- Markdown: the parser's events are well nested, and between the start and the end of a table cell only
  inline markup opens and closes. The HTML writer closes a cell as the table state it keeps says.
- Event bus: a handler is a function of its component and the event. What it publishes joins the queue
  when it returns, which is the same: nothing is delivered meanwhile. A matcher of input is a function of
  its state, its component and the input, and publishes nothing; the handler runs on what it resolves.
- Tokens: a random token is never drawn twice. An operation under the lock takes effect when it reads
  the running round; a find reads the round before it locks, with any steps in between.
- Diff wrapping: the bar `▌` is one column wide. Widths and lengths do not reach the limits of `usize`.

## What the proofs found

- `crates/fork-guard/src/sed.rs:5-8`: the claim that GNU sed reads only `p` from an accepted script holds
  for every script, also with control characters in it, and for several scripts sed joins.
- `crates/diff-search/src/lib.rs:356-386`: a refresh that finds the same texts keeps the matches as they
  were. By the crate's interface, a document renamed without a new text keeps its old path in them:
  `DiffSearchRuns.RenamedDocumentKeepsItsPath`, and `DiffSearchRuns.MatchesAreDirectSearch` says when
  that happens. It does not in the diff viewer, whose documents keep their paths
  (`crates/components/diff/src/document.rs:265`): `DiffSearchRuns.RefreshIsDirectSearch`.
- `crates/review-drafts/src/lib.rs:248-297`: a recovered draft is compared by its editor's text, which the
  editor cleaned. A draft saved with a lone carriage return and posted exactly so comes back as a draft:
  `DraftsRuns.ReturnComesBack`, and `DraftsRuns.RecoveredIsSettled` says when.
- `crates/agent-hooks/src/listener.rs:120-122` documents `Stopped` as said of the reviewer's prompt as it
  was typed. By `crates/agent-hooks/src/listener.rs:419-422` a prompt joined to more is `Stopped` too when
  it reached another session, and one typed alone is when any other expectation blocks it:
  `Expectations.JoinedElsewhereIsStopped` is such a prompt, and `Expectations.PromptIsHeard` has the exact
  cases.
- `crates/review-explore-page-host/src/network.rs:330-331` says that the token of a round no longer running
  opens nothing, even before the next token is made. A find reads the running round before it locks
  (`crates/review-explore-page-host/src/network.rs:463-465`), so one in flight when the round ends still
  opens the page: `NetworkTokens.EndedRoundOpensInFlight`. `NetworkTokens.OpensForRoundIff` says exactly
  when a round's token opens; a find that reads after the end opens nothing with it
  (`NetworkTokens.EndedRoundOpensNothing`), nor does any find after the next renewal
  (`NetworkTokens.RenewalClosesEndedRound`).

## Model

| member | source | states |
|---|---|---|
| Sed.RegexEnd | crates/fork-guard/src/sed.rs:140-152 | The scan over the characters of a regex stops right after the first `/` that no backslash escapes, and gives nothing when there is none; it agrees with reading the regex recursively. |
| Sed.RegexReadBack | crates/fork-guard/src/sed.rs:140-152 | Any text in which every `/` is escaped, and a `/` after it, is read as a whole regex: what follows it is left. |
| Sed.RegexSplit | crates/fork-guard/src/sed.rs:140-152 | Whatever is read as a regex is such a text and the `/` that closes it. |
| Sed.DigitsReadBack | crates/fork-guard/src/sed.rs:133-138 | A number is read to its last digit, whatever other than a digit follows. |
| Sed.DigitsSplit | crates/fork-guard/src/sed.rs:133-138 | What is read as a number is one or more digits, all there are. |
| Sed.AddressReadBack | crates/fork-guard/src/sed.rs:118-131 | Each form of address (line, `$`, regex, and as the end of a range `+n` and `~n`; a step `first~step`) is read exactly, leaving what follows. |
| Sed.AddressSplit | crates/fork-guard/src/sed.rs:118-131 | Whatever is read as an address is one of those forms; `+` and `~` only at the end of a range. |
| Sed.CommandReadBack | crates/fork-guard/src/sed.rs:105-116 | A `p` command with no, one or two addresses and any white space around is read exactly. |
| Sed.CommandSplit | crates/fork-guard/src/sed.rs:105-116 | Whatever is read as a command is such a command, with what follows it. |
| Sed.Prints | crates/fork-guard/src/sed.rs:90-103 | The loop accepts a script exactly when it reads to its end as `p` commands separated by `;`, the last of them possibly empty. |
| Sed.GrammarIsAccepted | crates/fork-guard/src/sed.rs:90-152 | Every script of the grammar of `;`-separated `p` commands with optional addresses is accepted. |
| Sed.AcceptedIsGrammar | crates/fork-guard/src/sed.rs:90-152 | Every accepted script is the text of a script of that grammar, which is given. |
| Sed.PrintsExactlyTheGrammar | crates/fork-guard/src/sed.rs:90-152 | Accepted scripts are exactly those of the grammar, of all strings. |
| Sed.ScriptCount | crates/fork-guard/src/sed.rs:90-152 | The reading that knows no bracket finds in an accepted script its commands, all of them `p`, and is outside every regex at its end. |
| Sed.ReadersStayAligned | crates/fork-guard/src/sed.rs:5-8 | The alignment the header argues: any reader that may stay in a bracket expression, and leave it after any `]`, is in the same regex as this module's reading whenever it is outside a bracket; so it finds no command but `p`, and no more of them. |
| Sed.EveryReaderOnlyPrints | crates/fork-guard/src/sed.rs:5-8 | Every such reader of an accepted script rejects it or reads nothing but `p`, at most as many as were read here. |
| Sed.AcceptedScriptOnlyPrints | crates/fork-guard/src/sed.rs:5-8 | So for every string the recogniser accepts, control characters included. |
| Sed.EveryReaderOnlyPrintsJoined | crates/fork-guard/src/sed.rs:5-8 | So also when sed joins several accepted scripts by line breaks, even when a bracket one of them opens ends in another. |
| Sed.BracketlessReaderReadsAll | crates/fork-guard/src/sed.rs:5-8 | The reader that knows no bracket is one of those readers, and reads every command: the bound is met. |
| SedArguments.Options.Read | crates/fork-guard/src/sed.rs:53-66 | An option is read as quiet, neutral, a script's or a bundle, with the options and the words left exactly as the recursive reading says. |
| SedArguments.Options.Bundle | crates/fork-guard/src/sed.rs:68-80 | A bundle of letters is read letter by letter: `n` quiets, `E`, `r`, `s`, `u` and `z` change nothing, `e` takes the next word and must stand last, and any other letter refuses. |
| SedArguments.Options.Script | crates/fork-guard/src/sed.rs:82-88 | The next word becomes a script; none left refuses. |
| SedArguments.PrintsOnly | crates/fork-guard/src/sed.rs:15-41 | Accepts exactly the grammar's lists; which options, scripts and operands these are, spelled out, is `SedOptions.AcceptsExactlyThese`. |
| SedArguments.AllPrint | crates/fork-guard/src/sed.rs:15-41 | Each script is no pattern and only prints. |
| SedArguments.OptionReadBack | crates/fork-guard/src/sed.rs:53-80 | Each form of option, rendered, is read as itself. |
| SedArguments.OptionSplit | crates/fork-guard/src/sed.rs:53-80 | Whatever is read as an option is one of those forms. |
| SedArguments.LineReadBack | crates/fork-guard/src/sed.rs:15-88 | A line of options, operands and `--`, rendered, is read as itself. |
| SedArguments.LineSplit | crates/fork-guard/src/sed.rs:15-88 | Whatever words are read are the rendering of such a line, which is given. |
| SedArguments.AcceptsExactlyTheGrammar | crates/fork-guard/src/sed.rs:15-88 | The accepted arguments are exactly the lines that quiet sed and whose scripts are `p` scripts of the grammar above. |
| SedOptions.BundleIs | crates/fork-guard/src/sed.rs:68-80 | A bundle is read exactly when its letters are of `nErsuz` with at most one last `e`, which takes the next word; it is quiet exactly with an `n`. |
| SedOptions.OptionIs | crates/fork-guard/src/sed.rs:53-66 | An option is read exactly when it is one of the nine long ones or such a bundle. |
| SedOptions.AcceptsExactlyThese | crates/fork-guard/src/sed.rs:12-41 | The lists accepted are exactly those that, read by the names and letters alone, hold no other option, one that silences sed, a script after each option that takes one, and only scripts of the grammar that are no patterns: those of the options, or without any the first operand. |
| Shell.Lexer.Unquoted | crates/fork-guard/src/shell.rs:73-92 | One step outside quotes does what its specification says, for every character: quotes, escapes, blanks, pipes, redirections, forms, globs and text. |
| Shell.Lexer.SingleQuoted | crates/fork-guard/src/shell.rs:94-105 | Takes the text up to the next `'` into the word, marks it quoted, and refuses control characters and an open quote. |
| Shell.Lexer.DoubleQuoted | crates/fork-guard/src/shell.rs:107-128 | Takes the text up to the closing `"`, a backslash taken off only before what it escapes there, and refuses substitutions, control characters and an open quote. |
| Shell.Lexer.StderrRedirection | crates/fork-guard/src/shell.rs:130-150 | Takes `/dev/null` or `&1` after the unquoted word `2` and `>` when a blank, a pipe or the end follows, and refuses any other redirection. |
| Shell.Lexer.Glob | crates/fork-guard/src/shell.rs:152-162 | A glob is kept in the word as a pattern where it cannot match an option, and refused elsewhere. |
| Shell.Lexer.NextLiteral | crates/fork-guard/src/shell.rs:164-166 | The next character, unless it is a control character or there is none. |
| Shell.Lexer.EndWord | crates/fork-guard/src/shell.rs:172-175 | The word read so far, if any, joins the command's words. |
| Shell.Lexer.EndCommand | crates/fork-guard/src/shell.rs:177-186 | A command with no word is refused; another joins the commands. |
| Shell.SplitPipe | crates/fork-guard/src/shell.rs:47-60 | Splitting a command gives what the lexer's specification gives on its whole text, error for error. |
| ShellGrammar.SingleSplit | crates/fork-guard/src/shell.rs:94-105 | What is read inside single quotes is a printable text without `'`. |
| ShellGrammar.DoubleReadBack | crates/fork-guard/src/shell.rs:107-128 | Any legal sequence of characters, escapes and kept backslashes inside double quotes is read as its text. |
| ShellGrammar.DoubleSplit | crates/fork-guard/src/shell.rs:107-128 | Whatever is read inside double quotes is such a sequence, which is given. |
| ShellGrammar.GrammarIsAccepted | crates/fork-guard/src/shell.rs:47-194 | Every legal sequence of items (text, quotes, escapes, blanks, pipes, redirections, globs) is accepted and means what its items mean. |
| ShellGrammar.AcceptedIsGrammar | crates/fork-guard/src/shell.rs:47-194 | Every accepted command is the text of a legal sequence of items, which is given. |
| ShellGrammar.AcceptsExactlyTheGrammar | crates/fork-guard/src/shell.rs:47-194 | A command is accepted with some words if and only if it is a legal sequence of items with that meaning. |
| ShellGrammar.AcceptedIsSafe | crates/fork-guard/src/shell.rs:47-194 | Every accepted pipe has commands, every command words, and every word is printable and, when it is a pattern, starts so that it matches no option. |
| ShellGrammar.QuoteReadsBack | crates/codex-hooks/src/install.rs:100-103 | A word single-quoted as the hook command is, each `'` written `'\''`, is read as exactly that word, quoted, from any state. |
| ShellGrammar.PrintThenSplit | crates/fork-guard/src/shell.rs:47-194 | For every non-empty pipe of non-empty lists of control-free words, quoting, joining with spaces and pipes, and splitting gives back exactly those words, none a pattern. |
| ShellGrammar.SplitThenPrintThenSplit | crates/fork-guard/src/shell.rs:47-194 | Printing and splitting again any accepted command gives the same words. |
| ShellReading.SinglyReads | crates/fork-guard/src/shell.rs:94-105 | Single-quoted text is what a shell reads character by character up to the quote, and is refused together. |
| ShellReading.DoublyReads | crates/fork-guard/src/shell.rs:107-128 | So is double-quoted text, with its escapes, dollars and backticks. |
| ShellReading.StepReads | crates/fork-guard/src/shell.rs:73-92 | Each step of the lexer reads what a shell does in one or more characters, with each character's meaning spelled out. |
| ShellReading.ReadsAsTheShell | crates/fork-guard/src/shell.rs:1-7 | For every command, the guard's words are exactly those of a shell that reads one character at a time, by how it is quoted; and it is refused exactly when that reading meets a form, a control character, an open quote, an empty command or an unsafe glob. |
| ShellReading.AcceptedIsHarmless | crates/fork-guard/src/shell.rs:39-45 | An accepted command leaves no quote open; unquoted, it has none of ``; < $ ` ( ) { }``, no control character but tabs, `>` only after `2` and before one of the two targets, and `&` only in `2>&1`. |
| DiffSearch.ActiveSearch.Refresh | crates/diff-search/src/lib.rs:356-386 | The whole new state and the intent of a refresh: nothing when what is pending or matched is still of the query and texts, an answer at once for small texts, else a request with a fresh identity; the old matches are dropped. |
| DiffSearch.ActiveSearch.Accept | crates/diff-search/src/lib.rs:388-391 | The pending request becomes the matched one, with the results' matches. |
| DiffSearch.ActiveSearch.ReplaceMatches | crates/diff-search/src/lib.rs:393-410 | The matches become those given, located in the documents. |
| DiffSearch.Search.Begin | crates/diff-search/src/lib.rs:102-129 | A search begins anew: the pending request of the old one is cancelled first, then the new query searched for, the origin remembered. |
| DiffSearch.Search.Edit | crates/diff-search/src/lib.rs:132-162 | Typing, deleting, pasting on one line, accepting and cancelling: the query, the state and every intent, in order. |
| DiffSearch.Search.Step | crates/diff-search/src/lib.rs:165-176 | A step from the cursor once the query is not edited: where it leads is `DiffSearchJumps.StepMoves`. |
| DiffSearch.Search.Clear | crates/diff-search/src/lib.rs:178-184 | The search ends, its pending request cancelled. |
| DiffSearch.Search.Refresh | crates/diff-search/src/lib.rs:186-195 | The search, if any, is refreshed; the request or the cancellation this makes is the only intent. |
| DiffSearch.Search.DocumentsLoaded | crates/diff-search/src/lib.rs:197-207 | The search is always refreshed; while its query is edited or the repository loads, it also jumps to the first match from its origin. |
| DiffSearch.Search.Resume | crates/diff-search/src/lib.rs:224-237 | A pending request is asked again as it is, the search unchanged; a search without one is refreshed. |
| DiffSearch.Search.Complete | crates/diff-search/src/lib.rs:239-262 | Results not awaited change nothing; those of the current documents are accepted, with the jump of a search that navigates; those of others lead to a new search that still navigates. |
| DiffSearch.Search.Retain | crates/diff-search/src/lib.rs:264-275 | Without a viewer, awaited results are accepted, or forgotten when stale. |
| DiffSearchRuns.GoodStays | crates/diff-search/src/lib.rs:102-129 | Every step keeps: never a request pending and one matched; both of the current query; the matches the direct search of what was matched, empty when nothing was; and the pending request exactly the last one emitted that was neither cancelled nor answered. |
| DiffSearchRuns.RunsAreGood | crates/diff-search/src/lib.rs:239-275 | So over every interleaving of edits, document changes and results delivered late, twice, never, or of other requests. |
| DiffSearchRuns.RunsRefresh | crates/diff-search/src/lib.rs:356-386 | After any run and a refresh, a request for the query in the current texts is pending, or the matches are its direct search, with the paths of the documents they were computed in. |
| DiffSearchRuns.RefreshIsDirectSearch | crates/diff-search/src/lib.rs:356-386 | Over every run in which no text changes its path, after any refresh a request for the query in the current documents is pending, or the matches are exactly their direct search. |
| DiffSearchRuns.MatchesAreDirectSearch | crates/diff-search/src/lib.rs:356-386 | A refreshed search that waits for nothing equals the direct search of the current documents if and only if no matched document was renamed, its text the same, since the matches were computed. |
| DiffSearchRuns.RenamedDocumentKeepsItsPath | crates/diff-search/src/lib.rs:356-386 | A run after which it does not: a renamed document whose text is the same allocation keeps its old path in the matches, even after a refresh. |
| DiffSearchStepping.MatchesAreSorted | crates/diff-search/src/lib.rs:393-410 | In every reachable state the located matches are strictly increasing. |
| DiffSearchStepping.StepsAround | crates/diff-search/src/lib.rs:424-448 | A forward step from a match leads to the next one and a backward step to the one before, around the ends. |
| DiffSearchStepping.StepsToNearest | crates/diff-search/src/lib.rs:424-448 | From any location, a forward step leads to the first match after it, or around the end to the first of all; a backward step to the last match before it, or to the last of all. |
| DiffSearchStepping.ForwardReaches | crates/diff-search/src/lib.rs:424-448 | Forward steps from any match reach every match. |
| DiffSearchStepping.ForwardRepeatsNone | crates/diff-search/src/lib.rs:424-448 | They reach none twice before they are back: stepping is one cycle. |
| DiffSearchStepping.BackwardUndoesForward | crates/diff-search/src/lib.rs:424-448 | Backward stepping is the inverse of forward stepping. |
| DiffSearchJumps.FirstAfterIsNext | crates/diff-search/src/lib.rs:435-440 | What comes after a place is the first match after it, or else the first of all, told by the order alone. |
| DiffSearchJumps.EditedQueryIs | crates/diff-search/src/lib.rs:136-141 | A typed character is added, a backspace takes one off, a pasted text is added with its line ends as spaces. |
| DiffSearchJumps.MovesAre | crates/diff-search/src/lib.rs:83-262 | In every good state, where every input moves the cursor: a found word to its next match, an edit and a loaded document to the match after the search's start, a cancelled search back there, fresh results awaited as they were asked for, and nothing else. |
| DiffSearchJumps.StepMoves | crates/diff-search/src/lib.rs:165-176 | A step leads to the nearest match in its direction, around the ends, and nowhere while the query is edited. |
| DiffSearchJumps.NavigationIs | crates/diff-search/src/lib.rs:356-386 | Whether results pending will move the cursor: those of a search begun do, those of a new request when the query is edited or the repository loads, and a stale request's as before. |
| DiffSearchJumps.WorkerIsAskedForLarge | crates/diff-search/src/lib.rs:356-386 | A changed search asks the worker exactly when its texts have more than 64 KiB, and is answered at once otherwise. |
| Drafts.Drafts.Start | crates/review-drafts/src/lib.rs:135-140 | A new slot with a draft as given; every other slot unchanged. |
| Drafts.Drafts.Reply | crates/review-drafts/src/lib.rs:142-152 | A new draft under a fresh message identity; none, and nothing changed, when an open draft composes for the thread or the thread is a round conversation. |
| Drafts.Drafts.Edit | crates/review-drafts/src/lib.rs:94-105 | An edit is refused while the draft is posted, saves the draft only when its text changed, and changes no other slot. |
| Drafts.Drafts.Park | crates/review-drafts/src/lib.rs:192-201 | A blank draft that loses focus is closed as dropped, unless it is being posted. |
| Drafts.Drafts.CancelDraft | crates/review-drafts/src/lib.rs:221-230 | A draft not being posted is closed as dropped and its save discarded. |
| Drafts.Drafts.SubmitDraft | crates/review-drafts/src/lib.rs:203-219 | A draft that is not blank becomes the one posted, a blank one is cancelled; what is posted is `DraftsPosts.CommandsAre`, and over runs `DraftsPosts.AcknowledgedWasPosted`. |
| Drafts.Drafts.AcknowledgePost | crates/review-drafts/src/lib.rs:232-239 | The post's own draft is settled with the text that was posted. |
| Drafts.Drafts.FailPost | crates/review-drafts/src/lib.rs:241-246 | The post's own draft is a draft again, its text kept. |
| Drafts.Drafts.RecoverDrafts | crates/review-drafts/src/lib.rs:248-262 | Each saved draft that is not blank, and neither an identity nor an open thread of the review, becomes an open draft, in order. |
| Drafts.Drafts.PublishedDrafts | crates/review-drafts/src/lib.rs:264-274 | The open drafts of the review whose message the book holds, in order, with the text published. |
| Drafts.Drafts.ReconcileDrafts | crates/review-drafts/src/lib.rs:264-278 | Those are settled one after the other, their commands in order. |
| Drafts.Drafts.SettleDraft | crates/review-drafts/src/lib.rs:280-297 | A draft whose text is the one published is closed as posted; another retires its identity and is saved under a fresh one. |
| Drafts.Drafts.Find | crates/review-drafts/src/lib.rs:299-309 | The first slot that matches. |
| DraftsRuns.StepKeeps | crates/review-drafts/src/lib.rs:116-125 | Every operation keeps: no two slots of a review share an identity, no two open drafts of it a thread, a draft being posted has its editor's text; and slots stay, a closed one as it is. |
| DraftsRuns.EveryRunIsGood | crates/review-drafts/src/lib.rs:280-345 | So over every run of operations, with identities drawn elsewhere in between. |
| DraftsRuns.ClosedStaysClosed | crates/review-drafts/src/lib.rs:248-261 | An identity once closed stays closed with its ending, and no later run, however stale the saves it recovers, composes it again. |
| DraftsRuns.RecoverIsComplete | crates/review-drafts/src/lib.rs:248-262 | After a recovery every saved draft is blank, known or open. |
| DraftsRuns.RecoverTwice | crates/review-drafts/src/lib.rs:248-262 | A recovery done twice is the recovery done once. |
| DraftsRuns.ReconcileDoes | crates/review-drafts/src/lib.rs:264-297 | What a reconciliation does to each slot: settled if it is open and in the book, untouched otherwise. |
| DraftsRuns.ReconcileSettles | crates/review-drafts/src/lib.rs:264-297 | Afterwards no open draft of the review has a message the book holds, each slot is as just said, and each renewed draft is saved exactly once, oldest first. |
| DraftsRuns.NoTextIsLost | crates/review-drafts/src/lib.rs:193-238 | A draft that is not blank stays open with its text through every operation, unless the reviewer edits or cancels it or its exact text is published. |
| DraftsRuns.AcknowledgedIsPosted | crates/review-drafts/src/lib.rs:232-239 | The acknowledgement of a post always closes its draft as posted. |
| DraftsRuns.CleanOfClean | crates/review-drafts/src/lib.rs:248-262 | An editor keeps the text of another editor unchanged. |
| DraftsRuns.RecoveredIsSettled | crates/review-drafts/src/lib.rs:248-297 | A recovered draft found published with its saved text is closed as posted if and only if its editor keeps that text as it is. |
| DraftsRuns.ReturnComesBack | crates/review-drafts/src/lib.rs:248-297 | A saved text with a lone carriage return is not: it comes back as a draft though it was posted exactly. |
| DraftsRuns.CleanOfBoth | crates/review-drafts/src/lib.rs:248-262 | An editor keeps a text piece by piece, unless it is split inside a line break. |
| DraftsRuns.CleanOfOne | crates/review-drafts/src/lib.rs:248-262 | Of a single character, control characters but tabs and line feeds are dropped; a line break is one line feed. |
| DraftsPosts.CommandsAre | crates/review-drafts/src/lib.rs:94-105 | The commands of every step: a submission of an open draft with text posts that text under the draft's message, thread, target and reply, and nothing else posts; a cancelled or blank draft's thread is discarded; an edit saves the new text exactly when it changed, and a reconciliation each draft it renewed. |
| DraftsPosts.SlotsBecome | crates/review-drafts/src/lib.rs:94-297 | What every step makes of every slot: the draft edited, posted, cancelled, parked blank, acknowledged, failed or reconciled changes so, and every other stays as it is. |
| DraftsPosts.NewSlotsAre | crates/review-drafts/src/lib.rs:107-152 | What every step puts into a new slot: a thread or reply begun with identities just drawn, a saved draft recovered, or an identity posted. |
| DraftsPosts.PostingWasPosted | crates/review-drafts/src/lib.rs:203-219 | In every run, a draft being posted is exactly what was posted last for its message, with the text its editor holds. |
| DraftsPosts.AcknowledgedWasPosted | crates/review-drafts/src/lib.rs:203-239 | In every run, an acknowledgement closes the draft as posted, and what was posted last for its message is that draft with its editor's text. |
| EditorWrap.NewGlyph | crates/comment-editor/src/view.rs:270-294 | A glyph is never wider than the editor: a tab is at most two columns, a symbol too wide is replaced by one column. |
| EditorWrap.MakeGlyphs | crates/comment-editor/src/view.rs:167-184 | One glyph a grapheme, each at its column of the line, the cursor on the grapheme that covers it. |
| EditorWrap.WrapEnd | crates/comment-editor/src/view.rs:296-326 | The two loops end a row where the specification of its end says. |
| EditorWrap.BreakEndIs | crates/comment-editor/src/view.rs:296-312 | Where a row breaks: after all that fits, or after its last white space; inside a word only when what fits has no white space. |
| EditorWrap.RowEndIs | crates/comment-editor/src/view.rs:296-326 | A row is a part no wider than the width and then only white space that does not hold the cursor; it breaks inside a word only when it has no white space; and it is as long as such a row can be. |
| EditorWrap.ShowRow | crates/comment-editor/src/view.rs:195-218 | A row's positions are the columns of its glyphs on screen, its cursor the column of its cursor's glyph, at most the last. |
| EditorWrap.WrapGlyphs | crates/comment-editor/src/view.rs:193-218 | The rows are those from each row's end to the next, to the last glyph: the loop ends. |
| EditorWrap.Wrap | crates/comment-editor/src/view.rs:151-253 | The rows of a line as the specification has them; what each shows, and where the cursor is, is `EditorCursor.LineGlyphIs` and `EditorCursor.LineRowIs`. |
| EditorWrap.Document | crates/comment-editor/src/view.rs:138-149 | The rows of all lines in order; of an editor without lines, the one row of an empty line. |
| EditorView.RowsPartition | crates/comment-editor/src/view.rs:193-218 | A line's rows without anything else are its glyphs, in order. |
| EditorView.RowsAreRows | crates/comment-editor/src/view.rs:193-218 | Each of them is a row as `RowEndIs` says, starting where the one before ends. |
| EditorView.WrappedKeepsGlyphs | crates/comment-editor/src/view.rs:151-253 | So with the cursor placed after the line. |
| EditorView.DocumentShowsCursor | crates/comment-editor/src/view.rs:137-253 | Exactly one row of the document shows the cursor. |
| EditorView.DocumentInOrder | crates/comment-editor/src/view.rs:138-253 | The rows are in the order of the lines, never none, and a cursor's column is below the width. |
| EditorView.CursorColumnIsExact | crates/comment-editor/src/view.rs:201-210 | In its row, a cursor on a glyph that is seen is exactly where the glyph starts. |
| EditorCursor.GlyphIs | crates/comment-editor/src/view.rs:270-294 | Each glyph has the width and kind of its grapheme, a tab two columns, and its own column in the line. |
| EditorCursor.LineGlyphIs | crates/comment-editor/src/view.rs:158-184 | For every line, the glyphs of its rows are its graphemes in order, and the one with the cursor is on the cursor's line the one whose characters hold the editor's column, or outside insert mode past the line the last. |
| EditorCursor.PositionsAre | crates/comment-editor/src/view.rs:195-208 | A row has a position for each glyph that starts inside the width: its column there and in the line. |
| EditorCursor.LineRowIs | crates/comment-editor/src/view.rs:151-253 | Every row of a line: the cursor where its glyph starts; past the line in insert mode at the end of the last row and nowhere else; and there one more position, where the row has room. |
| EditorCursor.OwnRowIsNeeded | crates/comment-editor/src/view.rs:232-253 | A row without glyphs comes only after a full one, for the cursor past the line in insert mode. |
| EditorCursor.DocumentShowsEditorsCursor | crates/comment-editor/src/view.rs:137-253 | The row of the document that shows a cursor is of the editor's row, and shows it on the character at the editor's column or after the line. |
| EditorView.EditorViewport.FirstFrom | crates/comment-editor/src/view.rs:106-111 | The first row of the line asked for, or of a later one; else the row of the cursor. |
| EditorView.EditorViewport.FindCursor | crates/comment-editor/src/view.rs:101-104 | The row of the cursor. |
| EditorView.EditorViewport.Scroll | crates/comment-editor/src/view.rs:105-115 | The top row becomes the nearest, to where the rows were or to the line asked for, that leaves the cursor's row on screen. |
| EditorView.EditorViewport.Show | crates/comment-editor/src/view.rs:105-122 | The rows shown are in bounds and hold the cursor's row; the first line shown and how many lines are shown are told. |
| EditorView.EditorViewport.Render | crates/comment-editor/src/view.rs:87-122 | So for the document of any editor and any area. |
| EventBus.ComponentEventBus.Mount | crates/component-core/src/lib.rs:400-421 | A component gets the next number, its subscriptions go after all others of their event, and what it published while constructed waits. |
| EventBus.ComponentEventBus.Remove | crates/component-core/src/lib.rs:423-433 | A component and all its subscriptions are gone, no others; removing one that is not mounted changes nothing. |
| EventBus.ComponentEventBus.InvokeHandler | crates/component-core/src/lib.rs:632-642 | A subscription's matcher and handler are run on its component, which is checked first; what becomes of what they return is `EventBusHandlers.RunAnswers`. |
| EventBus.ComponentEventBus.DeliverPendingEvents | crates/component-core/src/lib.rs:592-616 | Events are delivered first in, first out, those handlers publish behind, up to the limit, where the queue is cleared. |
| EventBus.ComponentEventBus.PublishEvent | crates/component-core/src/lib.rs:459-466 | A publication queues its event and delivers. |
| EventBus.ComponentEventBus.DispatchInput | crates/component-core/src/lib.rs:468-502 | Input goes to the focused component's handlers, and to the global ones only when none of those claims it. |
| EventBus.ComponentEventBus.DispatchEnclosingInput | crates/component-core/src/lib.rs:504-524 | Input goes to the enclosing handlers of every component but the focused one; unclaimed, it delivers no event. |
| EventBus.ComponentEventBus.DispatchGlobalInput | crates/component-core/src/lib.rs:526-534 | Input goes to the global handlers, and tells whether one awaits more. |
| EventBus.ComponentEventBus.DispatchHoveredInput | crates/component-core/src/lib.rs:536-558 | Input goes to the hovered component's handlers alone. |
| EventBusRuns.HandlersAreSubscribers | crates/component-core/src/lib.rs:618-630 | The handlers of an event are exactly its subscriptions that are not to input, each once and in the list's order, all of mounted components of their type. |
| EventBusRuns.SubscriptionsAreDeclared | crates/component-core/src/lib.rs:265-335 | In every history, the subscriptions to an event are those the components still mounted declare: in mount order, each component's in the order of its registrations, each as often as registered. |
| EventBusRuns.UnresolvedRunsNothing | crates/component-core/src/lib.rs:318-324 | Input that no matcher resolves runs no handler: nothing changes but the states of matchers. |
| EventBusRuns.PublicationIsCascade | crates/component-core/src/lib.rs:592-616 | A publication succeeds exactly when the unbounded cascade it starts drains within 1024 events, then with that cascade's results and state; the limit is the only error; and nothing is pending either way. |
| EventBusRuns.MountKeeps | crates/component-core/src/lib.rs:400-421 | Mounting keeps every subscription one of a mounted component of its type, in mount order; it adds one component under a new number, and queues what it published last. |
| EventBusRuns.RemoveKeeps | crates/component-core/src/lib.rs:423-433 | So does removing, which takes that component and its subscriptions and no other, and no event. |
| EventBusRuns.DispatchEnclosingKeeps | crates/component-core/src/lib.rs:504-524 | So does enclosing input; claimed, it leaves nothing pending; unclaimed, it changes nothing but matchers, so nothing is pending after it exactly when nothing was before. |
| EventBusRuns.StepKeeps | crates/component-core/src/lib.rs:400-642 | Every operation keeps it and meets no error but the limit, so never an unknown component; publications and input deliver what is pending, but for enclosing input unclaimed; only constructions and publishers outside handlers leave more pending. |
| EventBusRuns.HistoriesAreGood | crates/component-core/src/lib.rs:400-642 | So over every history of mounts, removals, publications, input, publishers and changed components. |
| EventBusHandlers.RunHandles | crates/component-core/src/lib.rs:632-642 | Handlers of an event run in turn, each on the state its component is in: the states after are those they return, what they publish in turn waits behind what was pending, the results are their actions, and no matcher changes. |
| EventBusHandlers.RunAnswers | crates/component-core/src/lib.rs:318-335 | Input in turn to each matcher on its own state and its component's, and what it resolves to the handler: matcher states, component states, events published, actions and whether one awaits more are exactly what they return. |
| EventBusHandlers.CascadeSpreads | crates/component-core/src/lib.rs:592-616 | A cascade of the bus is that of the handlers alone: states, pending events and results. |
| EventBusHandlers.FirstInFirstOut | crates/component-core/src/lib.rs:592-616 | In such a cascade no event is lost, doubled or overtaken: what was pending and then what handlers published is what was delivered and then what is pending. |
| EventBusHandlers.PublicationSpreads | crates/component-core/src/lib.rs:459-466 | A publication gives exactly the results and states of the cascade of its event after those pending, or the limit's error when events are left. |
| EventBusHandlers.FocusedInputIs | crates/component-core/src/lib.rs:468-502 | Focused input is answered by the focused component's handlers and then delivers; when none claims it, only their matchers changed and it is global input. |
| EventBusHandlers.GlobalInputIs | crates/component-core/src/lib.rs:526-534 | Global input is answered by every global handler, delivers, and tells whether one awaits more. |
| EventBusHandlers.EnclosingInputIs | crates/component-core/src/lib.rs:504-524 | Enclosing input is answered by the other components' handlers and delivers, or none claims it. |
| EventBusHandlers.HoveredInputIs | crates/component-core/src/lib.rs:536-558 | Hovered input is answered by the hovered component's handlers and delivers. |
| MarkdownHtml.Rewrite.Run | crates/markdown-html/src/lib.rs:145-155 | The rewriter takes all events and ends in the state of the specification; what the page then holds is `MarkdownContent.OutputIsWhatIsShown`. |
| MarkdownHtml.Rewrite.StartTag | crates/markdown-html/src/lib.rs:175-211 | What each opening tag writes and remembers: links judged, images dropped, headings shifted, HTML blocks as paragraphs, table state. |
| MarkdownHtml.Rewrite.EndTag | crates/markdown-html/src/lib.rs:213-242 | What each closing tag writes, by the tag that opened it. |
| MarkdownHtml.Rewrite.Quote | crates/markdown-html/src/lib.rs:251-288 | A quote that starts with a callout's marker becomes the callout, its marker and an emptied first paragraph gone; another stays a quote. |
| MarkdownHtml.Rewrite.Cell | crates/markdown-html/src/lib.rs:290-330 | A cell is written by hand with its column's alignment, a status at its start as a label. |
| MarkdownNesting.OutputIsWellNested | crates/markdown-html/src/lib.rs:145-330 | Every well-nested sequence of parser events is rewritten into well-nested HTML, callouts' `div`s and hand-written cells counted as tags, all of it closed. |
| MarkdownNesting.RewriteNests | crates/markdown-html/src/lib.rs:145-330 | So from any state whose open tags the page mirrors, through lookahead, dropped tags and removed paragraphs. |
| MarkdownNesting.QuoteKeeps | crates/markdown-html/src/lib.rs:251-288 | A quote or callout keeps that mirror. |
| MarkdownNesting.CellKeeps | crates/markdown-html/src/lib.rs:290-330 | A cell keeps it. |
| MarkdownNesting.EndKeeps | crates/markdown-html/src/lib.rs:213-242 | A closing tag keeps it, though its opening was dropped, shifted or written as HTML. |
| MarkdownNesting.InlineFormIsWellNested | crates/markdown-html/src/lib.rs:45-60 | The inline form is well nested, with inline tags and text only. |
| MarkdownNesting.OutputIsSafe | crates/markdown-html/src/lib.rs:145-338 | Whatever the events, the only HTML is the fixed forms the rewriter writes, every link is a web or mail link, no image is left, and no heading is above its place. |
| MarkdownContent.StripIs | crates/markdown-marks/src/lib.rs:33-45 | A mark is found with the text after it exactly when its marker, in any case and after white space, opens the text. |
| MarkdownContent.WebLinksAre | crates/markdown-html/src/lib.rs:332-338 | A link stays one exactly when its destination starts with `http://`, `https://` or `mailto:`, in any case. |
| MarkdownContent.OutputIsWhatIsShown | crates/markdown-html/src/lib.rs:145-330 | For every list of events, all the page holds but closing tags is, in order, what each event becomes by itself and its neighbours: text, code, breaks, rules and task markers as they are, HTML as text, a marker replaced by its title or status and the text after it, a bare marker's break gone, cells with their column's alignment, headings shifted, links kept or dropped. |
| MarkdownContent.TextIsKept | crates/markdown-html/src/lib.rs:145-155 | Without markers, the page has exactly the text, code, breaks, rules and task markers of the events, HTML as text. |
| MarkdownContent.InlineKeepsWords | crates/markdown-html/src/lib.rs:45-60 | The inline form keeps all text and code, with breaks as spaces, and every emphasis and link. |
| Arguments.OptionValues | crates/claude-fork/src/arguments.rs:165-189 | The values an option takes from the arguments after it, for each kind of option, and the arguments left. |
| Arguments.Keep | crates/claude-fork/src/arguments.rs:128-163 | The loop keeps the `Kept` options with their values, in order, and the last model named; or refuses with the first unknown or unforkable option. |
| Arguments.WriteRead | crates/claude-fork/src/arguments.rs:128-163 | Reading loses nothing: what was read, written again, is the command line. |
| Arguments.ReadOneAgain | crates/claude-fork/src/arguments.rs:128-189 | An option written before what is kept of the rest is read as it was, with the same values: none is taken from the next option. |
| Arguments.ReadKept | crates/claude-fork/src/arguments.rs:128-189 | Reading what is kept gives exactly the kept options, in order, with the same inline and taken values. |
| Arguments.KeepingTwice | crates/claude-fork/src/arguments.rs:128-189 | So what is kept is kept again unchanged, and names no model, for every table that does not keep `--model`. |
| Arguments.ClaudeKeepingTwice | crates/claude-fork/src/arguments.rs:30-189 | So for `claude`'s own options. |
| ArgumentsKept.OptionOfIs | crates/claude-fork/src/arguments.rs:128-163 | An argument names itself, or when it is long what is before its first `=`. |
| ArgumentsKept.KeepsByPlace | crates/claude-fork/src/arguments.rs:128-189 | What is kept, told of each argument by its place: an option that is kept, or a value of one, in order; the model that the last option to name one names; or the failure of the first option that is unknown or refused. |
| PackageGraph.Dependents | crates/check-changed/src/workspace.rs:130-142 | The nested loops give the dependency graph the other way: every step, no other, and no empty entry. |
| PackageGraph.BuiltBy | crates/check-changed/src/workspace.rs:144-161 | The worklist gives exactly the packages reached from the root over built dependencies; a root that is no package is the error. |
| PackageGraph.NextBuilt | crates/check-changed/src/workspace.rs:130-161 | A step of the graphs leads exactly to what a package lists as its dependencies, built or of any kind. |
| PackageGraph.Read | crates/check-changed/src/workspace.rs:34-49 | The workspace of two dependency graphs, and when there is none. |
| Planner.Innermost | crates/check-changed/src/plan.rs:188-192 | The longest directory of a package that holds a path, or none holds it. |
| Planner.InnermostPackageOwns | crates/check-changed/src/plan.rs:171-200 | A file in a crate's directory, Markdown included, belongs to the innermost package: no table comes before. |
| Planner.Of | crates/check-changed/src/plan.rs:140-166 | The changed packages and suites are exactly those a changed file belongs to, with the lock's; every check runs exactly when a changed file reaches every check, is in no table, or is an unreadable lock. |
| Planner.Reached | crates/check-changed/src/plan.rs:258-270 | The worklist gives exactly the packages from which the dependents' graph is walked to. |
| Planner.Plan | crates/check-changed/src/plan.rs:203-247 | The checks and the reasons are exactly those of the specification by chains of dependencies, in order, linting first when there is any. |
| Planner.PlanCovers | crates/check-changed/src/plan.rs:203-247 | A member is tested exactly when everything runs or it depends on a change, a suite runs exactly when everything runs, its harness changed or it builds such a package, and linting goes with any check. |
| Planner.CoverageIsReachability | crates/check-changed/src/plan.rs:203-270 | In the repository's own dependency graph: a package counts exactly when a chain of dependencies of any kind leads from it to a changed one, and a suite exactly when it builds one. |
| Planner.MoreChangesMoreChecks | crates/check-changed/src/plan.rs:203-247 | Changing more files, or a lock less readable, never leaves a check out. |
| PlannerFiles.OwnerIs | crates/check-changed/src/plan.rs:169-200 | What every path belongs to, by the first of the names spelled out: the lock, what all checks read, documentation, a suite's harness, the innermost package, what no check reads, or nothing known. |
| PlannerFiles.MarkdownIs | crates/check-changed/src/plan.rs:178-184 | A file is Markdown when its name ends in `.md`, in any case, and is more than that. |
| PlannerFiles.ReachIs | crates/check-changed/src/plan.rs:140-166 | When every check runs, and which packages and suites change, by what the changed files belong to. |
| PlannerFiles.ReasonsAre | crates/check-changed/src/plan.rs:140-166 | Every check runs for one reason for each file that reaches every check or is in no map, and for a lock that cannot be read. |
| PlannerFiles.PlanReasonsAre | crates/check-changed/src/plan.rs:203-247 | Otherwise for the packages changed when one is tested, for each suite's harness, or else its build, that changed; or nothing is read by a check. |
| NetworkTokens.RoundTokens.Renew | crates/review-explore-page-host/src/network.rs:438-459 | The token goes to the running round: kept, bound or replaced, announced only when it or its round changed; nothing once closed. |
| NetworkTokens.RoundTokens.TokenOf | crates/review-explore-page-host/src/network.rs:402-412 | The token of a round exactly when it runs and the tokens are open, then bound to it. |
| NetworkTokens.RoundTokens.AnnounceTo | crates/review-explore-page-host/src/network.rs:414-423 | Announces the current token at once, and from then on where told. |
| NetworkTokens.RoundTokens.Close | crates/review-explore-page-host/src/network.rs:425-432 | No token, no announcer, and closed. |
| NetworkTokens.RoundTokens.Find | crates/review-explore-page-host/src/network.rs:371-377 | A presented token opens exactly when it is the current one, and bound to the round read as running or to none yet. |
| NetworkTokens.RoundTokens.AfterReset | crates/review-explore-page-host/src/network.rs:473-484 | A token exactly when no round runs and the tokens are open: one no round has, and not that of the round reset. |
| NetworkTokens.EveryRunIsGood | crates/review-explore-page-host/src/network.rs:328-484 | Over every interleaving: the last announced address carries the current token; a token opened the page only for the round its find read as running, or before any round had it; no token opened two rounds. |
| NetworkTokens.TokensBecome | crates/review-explore-page-host/src/network.rs:402-459 | What every step does to the token, the announcer and the announcements: an address is announced exactly when there is an announcer and a token and one of them is set or changed. |
| NetworkTokens.TokenKeepsItsRound | crates/review-explore-page-host/src/network.rs:438-459 | A token once bound to a round is never another's. |
| NetworkTokens.ReplacedOpensNothing | crates/review-explore-page-host/src/network.rs:328-333 | A token replaced or closed opens nothing ever again, whatever a find read before. |
| NetworkTokens.EndedRoundOpensNothing | crates/review-explore-page-host/src/network.rs:328-333 | A find that reads the running round while a round does not run opens nothing with the token of that round, even before the next token is made. |
| NetworkTokens.OpensForRoundIff | crates/review-explore-page-host/src/network.rs:463-471 | Over every run, a find opens with the token of a round, running or not, if and only if that round ran when the find read it last and the token is still current. |
| NetworkTokens.EndedRoundOpensInFlight | crates/review-explore-page-host/src/network.rs:328-333 | A run after which the token of an ended round opened the page, for a find that had read the round while it ran. |
| NetworkTokens.RenewalClosesEndedRound | crates/review-explore-page-host/src/network.rs:438-459 | The first renewal after a round ended closes its token to every find, in flight or not. |
| NetworkTokens.RoundKeepsItsToken | crates/review-explore-page-host/src/network.rs:388-395 | The token made while no round ran opens the page of the round that starts, for as long as it runs. |
| NetworkTokens.ClosedStaysClosed | crates/review-explore-page-host/src/network.rs:425-432 | Once closed, nothing opens and nothing is announced. |
| NetworkTokens.NowhereAnnouncesNothing | crates/review-explore-page-host/src/network.rs:414-423 | Once announced to nowhere, nothing is announced until an announcer is set. |
| Pastes.UnwrapPastes | crates/claude-hooks/src/lib.rs:111-131 | The loop ends on every string, with every paste unwrapped from the left until one is not whole. |
| Pastes.UnwrappedIsSaid | crates/claude-hooks/src/lib.rs:111-131 | A prompt of plain text without the opening tag and pastes with numeric identities whose text lacks its own closing tag, wrapped as reported, is unwrapped to what it says. |
| Pastes.UnfinishedIsKept | crates/claude-hooks/src/lib.rs:111-131 | A prompt whose first paste lacks its end is left as it is. |
| Roster.Roster.constructor | crates/hc-client/src/events.rs:95-102 | The last record of each terminal of the snapshot. |
| Roster.Roster.Observe | crates/hc-client/src/events.rs:105-138 | What is known after each kind of event, the error for unreadable data, which changes nothing, and what is told: it takes the agents a listener held to those the roster holds. |
| Roster.ToldIsHeld | crates/hc-client/src/events.rs:148-170 | So for every state and event. |
| Roster.KnownIs | crates/hc-client/src/events.rs:105-138 | What is known of every terminal after every event, kind by kind, and when it is known at all. |
| Roster.AgentIs | crates/hc-client/src/events.rs:72-90 | A terminal holds an agent exactly when its tab and a status are known, in that workspace and by its program's name, `claude` for Claude Code. |
| Roster.SilenceIsNoChange | crates/hc-client/src/events.rs:145-170 | Over all events, nothing is told exactly when none of the agents changes its presence, workspace or name and none moves to another tab. |
| Roster.DepartureIsOfHeld | crates/hc-client/src/events.rs:151-157 | A departure is of an agent held, with its workspace, name and the status its last state tells. |
| Roster.ListenersHoldTheAgents | crates/hc-client/src/events.rs:92-170 | For every sequence of events, folding what is told over the snapshot's agents gives exactly the roster's agents with their workspaces and names. |
| Roster.DeparturesAreOfHeld | crates/hc-client/src/events.rs:92-170 | Over every run, a departure is told only of an agent the fold holds, as the fold has it. |
| DiffWrap.FindWrapEnd | crates/diff-rendering/src/lib.rs:170-207 | The loop ends a row where the specification says, and its width is the columns between. |
| DiffWrap.ContinuationPrefix | crates/diff-rendering/src/lib.rs:209-230 | The bar of the line, if it starts with one, and blanks up to the indent. |
| DiffWrap.PrefixIs | crates/diff-rendering/src/lib.rs:145-230 | Every row but the first has the bar of a changed line and blanks up to the indent, as far as its first grapheme leaves room, in that grapheme's style. |
| DiffWrap.WrapLine | crates/diff-rendering/src/lib.rs:129-168 | The rows follow each other from the start of the line to its end, each with its prefix; the empty line is one empty row; the loop ends. |
| DiffWrap.RowEndIsOne | crates/diff-rendering/src/lib.rs:170-207 | There is one place where a row may end. |
| DiffWrap.RowsBreak | crates/diff-rendering/src/lib.rs:170-207 | Every row of a line but the last ends after white space outside the first `continuation_indent` columns that follows text of the row, or, when none of what fits ends a word, where the next grapheme does not fit. |
| DiffWrap.RowsJoin | crates/diff-rendering/src/lib.rs:148-167 | The rows without their prefixes are the line. |
| DiffWrap.RowFits | crates/diff-rendering/src/lib.rs:149-162 | A row with its prefix fits the width, unless it is one grapheme wider than that, not indented. |
| DiffWrap.RowsFit | crates/diff-rendering/src/lib.rs:129-168 | When every grapheme fits the width, so does every row with its prefix. |
| Expectations.Expectations.Expect | crates/agent-hooks/src/listener.rs:268-286 | The expectation is armed last of its agent's, with a number of its own. |
| Expectations.Expectations.ExpectResume | crates/agent-hooks/src/listener.rs:234-246 | A resume of the session is expected under the name the agent goes by. |
| Expectations.Expectations.ExpectPrompt | crates/agent-hooks/src/listener.rs:252-266 | A pane's prompt is expected on the session reported, Codex's expectation is its session's already. |
| Expectations.Expectations.Submitted | crates/agent-hooks/src/listener.rs:366-382 | A prompt is blocked for the reason of the first expectation that blocks it, each expectation that had heard nothing hears it, and waiters are woken exactly when one heard something. |
| Expectations.Expectations.Resumed | crates/agent-hooks/src/listener.rs:348-362 | The expectations of that session that had heard nothing hear it, and waiters are woken exactly when one did. |
| Expectations.Expectations.Drop | crates/agent-hooks/src/listener.rs:460-470 | That expectation is gone, and its agent's entry when it was the last. |
| Expectations.BlockedByExpected | crates/agent-hooks/src/listener.rs:366-395 | After every run, a prompt is blocked exactly when an expectation of its agent was armed and not dropped since, and awaits a resume, or has heard nothing of a prompt of another text or on another session; and the reason told is that of such an expectation. |
| Expectations.GoesOnIsHeard | crates/agent-hooks/src/listener.rs:409-430 | When a prompt goes on, every expectation of its agent that had heard nothing hears it was submitted. |
| Expectations.PromptIsHeard | crates/agent-hooks/src/listener.rs:385-430 | Exactly when an expected prompt hears nothing, stopped, joined and submitted, in terms of the text, the session and the other expectations. |
| Expectations.ResumeIsHeard | crates/agent-hooks/src/listener.rs:348-412 | An expected resume hears that its session resumed and no other's, and of a prompt that it was blocked. |
| Expectations.JoinedElsewhereIsStopped | crates/agent-hooks/src/listener.rs:414-423 | A prompt joined to more that reached another session than expected is heard as stopped, not as joined. |
| Expectations.HeardOnce | crates/agent-hooks/src/listener.rs:366-382 | Over every run, an expectation waits for the same, and hears at most one thing, never overwritten. |
| Expectations.HeardHasCause | crates/agent-hooks/src/listener.rs:348-430 | Over every run, what was heard has its cause: submitted only of a prompt that trims to the armed text on the expected session and that nobody blocked; joined with the blocked prompt without the first occurrence of the text, trimmed. |
| Expectations.ArmedWasExpected | crates/agent-hooks/src/listener.rs:268-286 | Over every run, what is armed was expected and not dropped since. |
| Expectations.ExpectedIsArmed | crates/agent-hooks/src/listener.rs:268-286 | And what was expected and not dropped since is armed. |
| Expectations.DropDisarms | crates/agent-hooks/src/listener.rs:460-470 | A drop disarms one expectation and no other, for ever. |
| Text.SplitOnceOf | crates/claude-hooks/src/lib.rs:117-123 | Text without a part that cannot overlap itself, followed by the part, is split there. |

## Left out

- Shell: Zsh's extended globs, and what a glob matches.
- Sed: the options of other commands the guard allows, which are tables.
- Diff search: the search of a text itself, which is not shown, and the texts shown of a search's status.
- Drafts: the source and anchor a draft carries, and the keys of the editor: an edit is its new text.
- Comment editor: styles, selections, search highlights, drawing, and the cursor's moves between rows.
- Event bus: the erasure of types beyond a tag, the panic when component numbers run out, and that the
  matchers of one component do not see each other's state, which the model keeps together.
- Markdown: parsing, merging of text events, and the escaping and writing of HTML.
- Arguments: the texts of the refusals.
- Check planner: the texts of the reasons, reading `cargo metadata` and `Cargo.lock`, which are inputs, and the list of unmapped files.
- Network tokens: sockets, interfaces, the tunnel and the making of random tokens.
- Expectations: waiting and its limits, sockets and wire formats, and the wrap-around of 64-bit numbers. An
  expectation takes its number and its place at once, where the code takes the number first.
- Roster: JSON; an event's data is what it reads as.
- Diff wrapping: styles beyond those of a prefix's blanks, frames, and the rows of a target.
- Agent forks, daemons, page servers, installers, transports and everything else that is mostly I/O.
