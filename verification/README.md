# pysam command dispatcher, modelled in Dafny

pysam exposes the samtools and bcftools command lines as Python callables.
Each subcommand is a `PysamDispatcher`. It fronts one `collection` (the tool
family, e.g. `samtools`) and one `dispatch` name (the subcommand, e.g.
`view`), and holds an ordered list of parser rules. A call does five things:

1. It hands the arguments to the native invoker.
2. It optionally splits stdout and stderr into lines.
3. It raises a `SamtoolsError` on a nonzero exit status.
4. On success, it remembers this call's stderr for `get_messages`.
5. It optionally passes stdout to the first parser whose options all appear
   among the arguments.

The model is functional. The dispatcher is an immutable record. `Call` takes
that record plus the invoker's result, an `Invocation(retval, stderr, stdout)`.
It returns the next record and an outcome: either `Returned(value)` or
`Raised(SamtoolsError(...))`. The raise (pysam/utils.py:65-72) comes before
the assignment of `self.stderr` (pysam/utils.py:74), so a failed call leaves
the remembered stderr untouched. Python's `str`-or-`list` values are the
`Output` datatype (`Str` or `List`), and their truthiness is written out.
Parsers are opaque, so a parsed result is `Parsed(ruleIndex, input)`. It
records which rule fired and what that rule's parser was given. Otherwise the
result is `Raw(stdout)`.

Files:
- `text_lines.dfy` (module `TextLines`): line splitting (`str.splitlines` on `'\n'`) and `sep.join`, with their round trips.
- `dispatcher.dfy` (module `PysamDispatcher`): the data model, `__init__`, `__call__`, `get_messages` and the first-match parser scan.
- `dispatcher_properties.dfy` (module `DispatcherProperties`): properties of single calls and of call sequences.

Two consequences of the code's order of operations:
- With `split_lines`, the selected parser receives the list of lines. The split
  (pysam/utils.py:60-61) happens before the parser call (pysam/utils.py:83).
- With `split_lines`, `raw` or an empty stdout returns the list (`[]` for
  empty output), not the text.

## Model

| member | source | states |
|---|---|---|
| PysamDispatcher.Init | pysam/utils.py:39-43 | a new dispatcher keeps its collection, dispatch name and parser list, and holds the empty list as its messages |
| PysamDispatcher.Call | pysam/utils.py:45-85 | the call raises exactly when the exit status is nonzero, and the error carries the collection, that status, and the `"\n".join` texts of the split-if-asked stdout and stderr; a failed call leaves the dispatcher unchanged; a successful call sets the stored stderr to this call's split-if-asked stderr; a raw result is stdout after the optional split; a parsed result comes from the first rule whose options all appear in args, and is fed stdout after the optional split |
| PysamDispatcher.SplitStdout | pysam/utils.py:60-61 | with `split_lines`, stdout always becomes a list of newline-free lines whose terminated join is the text, with a final newline added if it lacked one; otherwise it stays the same string; it is truthy exactly when the text is non-empty |
| PysamDispatcher.SplitStderr | pysam/utils.py:60-63 | stderr becomes a list only with `split_lines` and non-empty text; an empty stderr stays the empty string; a split stderr is a non-empty list of newline-free lines whose terminated join is the text, with a final newline added if it lacked one |
| PysamDispatcher.GetMessages | pysam/utils.py:87-88 | `get_messages` reports the stored stderr slot as it is, with no side effect; `RunMessages` states what that slot holds after any sequence of calls |
| PysamDispatcher.TruthyIffIterationNonEmpty | pysam/utils.py:62-77 | the truthiness tests `if stderr:` and `stdout and ...` hold exactly when iterating the value yields at least one element |
| PysamDispatcher.MessageText | pysam/utils.py:71-72 | `"\n".join` of a falsy value is empty; of a non-empty list, it plus a newline is the terminated concatenation of the items; of a non-empty string, it has length 2n-1 with the characters at even positions and newlines between them |
| PysamDispatcher.FirstMatch | pysam/utils.py:77-83 | the selected index is a rule whose options all occur in args, with no earlier rule satisfied; nothing is selected exactly when no rule is satisfied |
| PysamDispatcher.ScanParsers | pysam/utils.py:78-83 | the nested for/break/else scan finds a rule exactly when some rule is satisfied; it picks the first one, the same index as `FirstMatch` |
| PysamDispatcher.FirstMatchUnique | pysam/utils.py:78-83 | the first satisfied rule is unique, so any index with the first-match property is the one selected |
| TextLines.SplitLines | pysam/utils.py:61 | `splitlines` gives no lines for the empty text only; no line holds a terminator; terminating and concatenating the lines restores the text, with a final newline added if it lacked one |
| TextLines.JoinLength | pysam/utils.py:71-72 | `sep.join` of n > 0 items has their total length plus n-1 separators |
| TextLines.JoinCharactersRestores | pysam/utils.py:71-72 | the characters a string yields when iterated, concatenated, give the string back |
| TextLines.SplitJoinTerminated | pysam/utils.py:61 | splitting the terminated concatenation of terminator-free lines returns those lines |
| TextLines.JoinIsJoinTerminatedLessLast | pysam/utils.py:71-72 | joining non-empty lines with a newline equals their terminated concatenation minus its last newline |
| TextLines.JoinSplitLines | pysam/utils.py:61-72 | `"\n".join` of a split text is the text again, minus one trailing newline |
| TextLines.JoinCharactersInterleaves | pysam/utils.py:71-72 | `"\n".join` of a plain string has length 2n-1, with the characters at even positions and newlines between them |
| DispatcherProperties.Run | pysam/utils.py:74 | a sequence of calls changes only the stored stderr, never the collection, dispatch name or parsers |
| DispatcherProperties.FailureKeepsMessages | pysam/utils.py:65-74 | a nonzero exit status raises, and `get_messages` still reports the pre-call value |
| DispatcherProperties.SuccessReplacesMessages | pysam/utils.py:74-88 | a zero exit status returns, and `get_messages` reports exactly this call's stderr; the call's effect does not depend on the previously stored stderr, so the value is replaced and not appended |
| DispatcherProperties.RunMessages | pysam/utils.py:65-88 | after any sequence of calls, `get_messages` reports the stderr of the last successful call, or the earlier value when every call failed |
| DispatcherProperties.MessagesBeforeAnySuccess | pysam/utils.py:39-43 | until some call succeeds, `get_messages` on a new dispatcher reports the empty list |
| DispatcherProperties.SplitLinesShapes | pysam/utils.py:60-63 | with `split_lines`, stdout is always the list of its lines; an empty stderr stays the empty string; a non-empty stderr becomes its lines |
| DispatcherProperties.BypassReturnsStdout | pysam/utils.py:77-85 | with `raw`, an empty stdout (including the `[]` it splits to) or no parsers, a successful call returns stdout after the optional split |
| DispatcherProperties.NoMatchReturnsStdout | pysam/utils.py:78-85 | when no rule is satisfied by args, a successful call returns stdout after the optional split |
| DispatcherProperties.ParsedIff | pysam/utils.py:77-83 | a call returns parser `i`'s result on input `x` if and only if: the status is zero; `raw` is unset; stdout is non-empty; rule `i` is the first satisfied rule; and `x` is stdout after the optional split |
| DispatcherProperties.ParserReceivesLines | pysam/utils.py:60-83 | with `split_lines`, the chosen parser receives the list of lines |
| DispatcherProperties.EmptyRuleMatches | pysam/utils.py:78-83 | a rule with no options is satisfied by any args, so selection stops at that rule or an earlier one |
| DispatcherProperties.EarlierRuleShadows | pysam/utils.py:78-83 | a later rule is never selected when an earlier rule is satisfied |
| DispatcherProperties.ErrorTextInterleavesCharacters | pysam/utils.py:65-72 | without `split_lines`, the stdout part of the error message has a newline between every two characters |
| DispatcherProperties.ErrorTextRejoinsLines | pysam/utils.py:65-72 | with `split_lines`, the stdout part of the error message is the stdout text minus one trailing newline |
| DispatcherProperties.ErrorStderrInterleavesCharacters | pysam/utils.py:65-72 | without `split_lines`, the stderr part of the error message has a newline between every two characters |
| DispatcherProperties.ErrorStderrRejoinsLines | pysam/utils.py:60-72 | with `split_lines`, the stderr part of the error message is the stderr text minus one trailing newline |
| DispatcherProperties.ErrorStderrEmpty | pysam/utils.py:60-72 | an empty stderr gives an empty stderr part of the error message, with or without `split_lines` |
| DispatcherProperties.FirstDeclaredRuleWins | pysam/utils.py:77-83 | with rules `[{-c}, {-c,-v}]` and args `-c -v`, rule 0 fires; with `raw`, stdout is returned as is |
| DispatcherProperties.SplitLinesExample | pysam/utils.py:60-85 | with `split_lines` and no rules, `"a\nb\n"` returns `["a", "b"]` and `""` returns `[]` |

## Left out

- `usage()` (pysam/utils.py:90-94) is a bare foreign call with no logic. As written it names `csamtools`, which this file never imports, so it would raise `NameError`.
- `_pysam_dispatch` (`pysam.cutils`) is not part of this model. Its result is the `Invocation` input to `Call`. It is given the collection, the dispatch name and the args verbatim, plus `catch_stdout`, which defaults to true. `catch_stdout` has no other effect in `__call__`, so the options record keeps it only for that pass-through. Launch failures it may raise are not modelled.
- The parser functions are not part of this model. They are opaque rule indices, so a parser's own exceptions are not modelled either.
- PysamDispatcher.Call: the error keeps the collection, the status and the two `"\n".join` texts, but not the `%`-formatted message string. `SamtoolsError.__str__`/`repr` are not modelled either. Both are Python string formatting.
- TextLines.SplitLines: splits on `'\n'` only. Python's `str.splitlines` also breaks on `\r`, `\r\n`, `\v`, `\f`, `\x1c`-`\x1e`, `\x85`, `\u2028` and `\u2029`.
- `parsers=None` is modelled as the empty rule list. Both are falsy at line 77, so `__call__` never iterates them.
- `raw` and `split_lines` are modelled as booleans, standing for the truthiness of whatever keyword value is passed. Arguments and options are modelled as strings.
- The stored parser list and the stderr slot are Python objects shared with callers. `__init__` stores `parsers` by reference (pysam/utils.py:42), and `get_messages` returns the stored list itself (pysam/utils.py:88). The model treats both as values, so `Run`, `RunMessages` and `MessagesBeforeAnySuccess` assume no caller mutates them in place between calls.
- Concurrent calls on one instance are not modelled. Nothing in `__call__` serialises them, so they race on the single assignment at pysam/utils.py:74 and the last write wins. `Run` covers any one order in which those writes land.
