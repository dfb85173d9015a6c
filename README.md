# awesomebread-cli command-line engine, modelled in Dafny

This project models the core of the awesomebread-cli library. The library turns a
command line into calls of registered command handlers. It has four parts:

- **The token segmenter** (`CommandLineCollector.splitBySeparator`). It is a stream
  collector that cuts a token list into groups at every token a predicate marks as a
  separator, keeping or dropping the separator. Here it is a `GroupAccumulator` class
  whose methods mutate the group list as the Java accumulator and combiner do. They are
  proved against the spec function `Split`, and the list laws are proved about `Split`.
- **The options binder and options help** (`CommandOptions`). Reflection over the
  options class becomes an explicit ordered descriptor: a sequence of `FieldSpec`s with
  name, kind, optional `@Flag` alias, required-ness and modifiers. An options instance
  is a map from field name to value; an absent key is a field still at its default.
  `OptionsObject` is the mutable options object. Its methods `ParseArgsToOptions`,
  `ApplyArgsToFields`, `AssignObjectField` and `Help` are proved against the pure
  functions `ParseArgs`, `AssignPositional`, `AssignField` and `HelpText`.
- **The dispatcher** (`CliRunner`). The command registry (an ordered list of bean name
  and command), the runner descriptions, the `COMMAND_NEXT` token and the bean
  validator are inputs. `CliRunner.Run` returns an `Outcome`, which is one of:
  - the handler calls, in order;
  - a process exit code, with the help text logged before it;
  - an uncaught exception.
- **The command help header and `execute`** (`Command`). These are pure functions in
  module `Commands`.

The model follows the code, quirks included:

- A flag is any token starting with `-`. Its identifier is the token with every `-`
  removed, so `--dry-run` names `dryrun`.
- The first group of the flag-split arguments is read before it is checked. Empty
  arguments, or arguments starting with a flag, end in an `IndexOutOfBoundsException`.
- The positional converter is looked up by the argument's class, which is always
  `String`. So every positional value is stored as raw text, and a positional token
  aimed at an `Integer`/`int` field raises `IllegalArgumentException`.
- `applyArgsToFields` always returns an empty list, so the surplus tokens of a flag span
  are dropped.
- Nested help lines print the outer field's type name.
- A flag whose identifier is blank (`-`, `--`, `---`, ...) makes `getDeclaredField`
  throw `IllegalArgumentException` before any alias is looked at.
- A field found by its own name is made accessible only when it is not public. So
  setting a public field that Java refuses to write (a public final instance field)
  fails with "Could not assign field". A field found through its `@Flag` alias is never
  made accessible.
- `run` parses and validates every segment before any handler runs
  (`runner/CliRunner.java:63-66`). A late failure therefore means no handler ran, and
  handlers are never interleaved with parsing.
- A command whose options class is not CommandOptions, or has no no-arg constructor,
  never reaches exit 2. Its `InvalidOptionsException` is caught, but the `help()` call
  that follows renders that command's own help, which throws, so the run ends in that
  exception.
- A command with an options class named without arguments, or directly followed by a
  flag, ends the run in an uncaught `IndexOutOfBoundsException`.
- A token that cannot be stored in an `Integer` field is an uncaught
  `IllegalArgumentException`, not `InvalidOptions`.
- Global help is more than the command help blocks. It starts with `"\n\n"`, then the
  trimmed runner descriptions, then `"\n\nUsage:\n"`, and only then the blocks.

A binding error is a `BindError`. An uncaught exception is `RuntimeFailure(cause)` in
the binder and `Crashed(cause)` in the outcome. `InvalidOptionsException` is
`InvalidOptions(message)`.

Several functions have no row of their own, because another member's row states what
they promise:

- `ParseArgs`, `BindSpan` and `BindSpans` specify `OptionsObject.ParseArgsToOptions`.
  Their promises are in the rows of the `CommandOptions` lemmas about them, from
  `BindSpansFailsOnUnknownHead` to `PositionalStream`.
- `Commands.Header` is stated by `Commands.Help`.
- `Commands.Execute` (`execute`) and `Runner.Calls` are stated by
  `Runner.HandlersRunOnlyAfterAllParse` and `Runner.CliRunner.ExecuteAll`.
- `Runner.IsOptionsValid` is stated by `Runner.ParseOptions` and
  `Runner.HandlersOnlySeeValidOptions`.
- `Runner.ParseAll` is stated by `Runner.ParseAllSucceeds`, `Runner.FirstFailureStops`
  and `Runner.CliRunner.ParseAndValidate`.
- `Runner.Descriptions` is stated by `Runner.CliRunner.AppendDescriptions`.
- `Runner.UsageBlocks` is stated by `Runner.UsageBlocksRender` and
  `Runner.UsageListsEveryCommand`.
- `Runner.GlobalHelp` is stated by `Runner.GlobalHelpRenders` and
  `Runner.CliRunner.Help`.
- `Runner.Segments` and `Runner.IsEqual` are stated by `Runner.SegmentsDropSeparators`.
- `Runner.RunOutcome` specifies `Runner.CliRunner.Run`. Its promises are in the rows
  from `Runner.HelpFlagShortCircuits` to `Runner.HandlersOnlySeeValidOptions`.

Source paths below are relative to `awesomebread-cli-core/src/main/java/com/awesomebread/cli/`
and are written out in full in the table.

Files: `wrappers.dfy` (Option, Result), `command_line_collector.dfy`,
`command_options.dfy`, `command.dfy`, `cli_runner.dfy`.

## Model

| member | source | states |
|---|---|---|
| CommandLineCollector.Accumulate | awesomebread-cli-core/src/main/java/com/awesomebread/cli/util/CommandLineCollector.java:17-26 | A separator adds one group and leaves all earlier groups as they were. Any other token changes only the last group. The result is never empty. |
| CommandLineCollector.Split | awesomebread-cli-core/src/main/java/com/awesomebread/cli/util/CommandLineCollector.java:14-33 | The collector's result has exactly one more group than the input has separators. Empty input gives exactly `[[]]`. |
| CommandLineCollector.Combine | awesomebread-cli-core/src/main/java/com/awesomebread/cli/util/CommandLineCollector.java:27-31 | The combiner merges b's first group into a's last group, so the result has `|a| + |b| - 1` groups. |
| CommandLineCollector.SplitKeepingSeparatorsFlattens | awesomebread-cli-core/src/main/java/com/awesomebread/cli/util/CommandLineCollector.java:17-26 | When separators are kept, concatenating all groups gives back the input exactly, in order. |
| CommandLineCollector.SplitDroppingSeparatorsJoins | awesomebread-cli-core/src/main/java/com/awesomebread/cli/util/CommandLineCollector.java:18-26 | When separators are dropped, joining the groups with the input's separators put back between them reconstructs the input. |
| CommandLineCollector.SplitDroppingSeparatorsHasNone | awesomebread-cli-core/src/main/java/com/awesomebread/cli/util/CommandLineCollector.java:18-22 | When separators are dropped, no group holds a separator token. |
| CommandLineCollector.SplitKeepingSeparatorsShape | awesomebread-cli-core/src/main/java/com/awesomebread/cli/util/CommandLineCollector.java:18-25 | When separators are kept: the first group holds no separator; every later group is non-empty and starts with a separator; no other position holds one. |
| CommandLineCollector.SplitWithoutSeparators | awesomebread-cli-core/src/main/java/com/awesomebread/cli/util/CommandLineCollector.java:23-25 | A token list without separators is collected into one group equal to the input. |
| CommandLineCollector.SeparatorHeadsAGroup | awesomebread-cli-core/src/main/java/com/awesomebread/cli/util/CommandLineCollector.java:18-22 | When separators are kept, every separator token of the input is the first token of some group after the first. |
| CommandLineCollector.LeadingSeparatorLeavesFirstGroupEmpty | awesomebread-cli-core/src/main/java/com/awesomebread/cli/util/CommandLineCollector.java:16-22 | A separator at the front leaves the initial group empty, and at least two groups result. |
| CommandLineCollector.SplitAtOneSeparator | awesomebread-cli-core/src/main/java/com/awesomebread/cli/util/CommandLineCollector.java:17-26 | When separators are kept, `before ++ [sep] ++ after`, with no separator in `before` or `after`, gives exactly `[before, [sep] ++ after]`. |
| CommandLineCollector.AccumulateCommutesWithCombine | awesomebread-cli-core/src/main/java/com/awesomebread/cli/util/CommandLineCollector.java:17-31 | Accumulating a token after combining gives the same result as accumulating it into the right operand first. |
| CommandLineCollector.CombineSplits | awesomebread-cli-core/src/main/java/com/awesomebread/cli/util/CommandLineCollector.java:27-31 | The combiner law: `combine(split(a), split(b)) == split(a ++ b)`. |
| CommandLineCollector.GroupAccumulator.constructor | awesomebread-cli-core/src/main/java/com/awesomebread/cli/util/CommandLineCollector.java:16 | The supplier starts with a single empty group. |
| CommandLineCollector.GroupAccumulator.Accept | awesomebread-cli-core/src/main/java/com/awesomebread/cli/util/CommandLineCollector.java:17-26 | The in-place accumulator leaves the groups equal to one `Accumulate` step on the old groups, and keeps them non-empty. |
| CommandLineCollector.GroupAccumulator.CombineWith | awesomebread-cli-core/src/main/java/com/awesomebread/cli/util/CommandLineCollector.java:27-31 | This accumulator's groups become `Combine(old, other)`. The other accumulator loses its first group, as `list2.remove(0)` does. |
| CommandLineCollector.SplitBySeparator | awesomebread-cli-core/src/main/java/com/awesomebread/cli/util/CommandLineCollector.java:14-33 | Collecting the tokens one at a time through the accumulator yields `Split(tokens)`. |
| CommandLineCollector.SplitBySeparatorDroppingSeparator | awesomebread-cli-core/src/main/java/com/awesomebread/cli/util/CommandLineCollector.java:10-12 | The one-argument overload is the two-argument form with `includeSeparator = false`, and no group holds a separator. |
| CommandOptions.ConvertArg | awesomebread-cli-core/src/main/java/com/awesomebread/cli/interfaces/CommandOptions.java:29-35 | The converter is looked up in `SUPPORTED_TYPES` by the argument's own class, `String`, which selects the identity converter, so the stored value is exactly the token's text. |
| CommandOptions.SupportedIffNotObject | awesomebread-cli-core/src/main/java/com/awesomebread/cli/interfaces/CommandOptions.java:29-35 | `SUPPORTED_TYPES` has a converter for a field type iff it is String, Integer/int or Boolean/boolean, not a class type. |
| CommandOptions.IsFlagIffLeadingDash | awesomebread-cli-core/src/main/java/com/awesomebread/cli/interfaces/CommandOptions.java:40-43 | A token is a flag iff it starts with `-`. The `--` test is subsumed. |
| CommandOptions.FlagIdentifierDropsEveryDash | awesomebread-cli-core/src/main/java/com/awesomebread/cli/interfaces/CommandOptions.java:44 | The flag identifier, `replace("-", "")` followed by `replace("--", "")`, is the token with every `-` removed. |
| CommandOptions.FindByName | awesomebread-cli-core/src/main/java/com/awesomebread/cli/interfaces/CommandOptions.java:45 | Finds the first declared field with exactly that name, or reports that none has it. |
| CommandOptions.FindByAlias | awesomebread-cli-core/src/main/java/com/awesomebread/cli/interfaces/CommandOptions.java:47-51 | Finds the first field whose `@Flag` alias equals the identifier, or reports that none has it. |
| CommandOptions.Resolve | awesomebread-cli-core/src/main/java/com/awesomebread/cli/interfaces/CommandOptions.java:45-52 | A flag resolves to the field with that exact name when there is one. Otherwise it resolves to the first field with that alias. It resolves to nothing iff no field has that name or alias. |
| CommandOptions.AssignField | awesomebread-cli-core/src/main/java/com/awesomebread/cli/interfaces/CommandOptions.java:104-110 | Assignment succeeds iff the field is not static final and access was forced or is not needed. On success the set fields are the old ones plus this one, which holds the new value, and every other field keeps its value. Otherwise it fails with "Could not assign field". |
| CommandOptions.AssignFieldLastWins | awesomebread-cli-core/src/main/java/com/awesomebread/cli/interfaces/CommandOptions.java:104-110 | Setting the same field twice leaves only the second value. |
| CommandOptions.Eligible | awesomebread-cli-core/src/main/java/com/awesomebread/cli/interfaces/CommandOptions.java:84-89 | The eligible fields are never more than the declared ones, and each is neither static final nor boolean, and has a converter. |
| CommandOptions.EligibleMembers | awesomebread-cli-core/src/main/java/com/awesomebread/cli/interfaces/CommandOptions.java:84-89 | A field is eligible iff it is declared and is not static final and is of type String or Integer/int. |
| CommandOptions.EligibleAppend | awesomebread-cli-core/src/main/java/com/awesomebread/cli/interfaces/CommandOptions.java:84-89 | The filter keeps declaration order: the eligible fields of `a ++ b` are those of `a`, then those of `b`. |
| CommandOptions.AssignPositionalFailsOnInteger | awesomebread-cli-core/src/main/java/com/awesomebread/cli/interfaces/CommandOptions.java:91-99 | Positional binding fails iff a field that receives a token is Integer/int. The failure is the `IllegalArgumentException`. |
| CommandOptions.AssignPositionalKeys | awesomebread-cli-core/src/main/java/com/awesomebread/cli/interfaces/CommandOptions.java:91-99 | After positional binding, the set fields are the old ones plus exactly the first `min(fields, tokens)` eligible fields. |
| CommandOptions.AssignPositionalKeepsOthers | awesomebread-cli-core/src/main/java/com/awesomebread/cli/interfaces/CommandOptions.java:91-99 | A field that receives no token keeps its value. |
| CommandOptions.AssignPositionalStoresInOrder | awesomebread-cli-core/src/main/java/com/awesomebread/cli/interfaces/CommandOptions.java:91-99 | The i-th token is stored, as raw text, in the i-th eligible field. |
| CommandOptions.SurplusTokensIgnored | awesomebread-cli-core/src/main/java/com/awesomebread/cli/interfaces/CommandOptions.java:93 | Tokens beyond the number of eligible fields never affect the result. |
| CommandOptions.NewFlagValue | awesomebread-cli-core/src/main/java/com/awesomebread/cli/interfaces/CommandOptions.java:59-72 | A flagged Integer/int field, or a class type without a no-arg constructor, gives "Could not initialize options object". Otherwise the value is a fresh text or nested instance. |
| CommandOptions.BindSpansFailsOnUnknownHead | awesomebread-cli-core/src/main/java/com/awesomebread/cli/interfaces/CommandOptions.java:42-52 | Binding succeeds only if every span is non-empty and every flag heading a span names a field or alias. |
| CommandOptions.UnknownFlagNeverBinds | awesomebread-cli-core/src/main/java/com/awesomebread/cli/interfaces/CommandOptions.java:45-52 | A flag anywhere in the arguments that names neither a field nor an alias makes parsing fail. |
| CommandOptions.UnknownFlagMessage | awesomebread-cli-core/src/main/java/com/awesomebread/cli/interfaces/CommandOptions.java:44-51 | For a single flag after plain tokens: when its identifier is not blank and names neither a field nor an alias, parsing fails with InvalidOptions "Unknown option <identifier> passed in". |
| CommandOptions.BlankFlagCrashes | awesomebread-cli-core/src/main/java/com/awesomebread/cli/interfaces/CommandOptions.java:44-45 | For a single flag after plain tokens: when its identifier is blank, such as `-` or `--`, parsing fails with the `IllegalArgumentException` of `getDeclaredField`. |
| CommandOptions.BindSpansFirstFailure | awesomebread-cli-core/src/main/java/com/awesomebread/cli/interfaces/CommandOptions.java:42-77 | When the spans before span k bind and span k does not, span k's error is the result of binding all spans: later spans are never looked at. |
| CommandOptions.UnknownFlagStopsParsing | awesomebread-cli-core/src/main/java/com/awesomebread/cli/interfaces/CommandOptions.java:44-51 | With any number of flags: when the flags before it bind, a flag whose identifier is not blank and names neither a field nor an alias makes parsing fail with InvalidOptions "Unknown option <identifier> passed in". |
| CommandOptions.BlankFlagStopsParsing | awesomebread-cli-core/src/main/java/com/awesomebread/cli/interfaces/CommandOptions.java:44-45 | With any number of flags: when the flags before it bind, a flag with a blank identifier makes parsing fail with the `IllegalArgumentException` of `getDeclaredField`. |
| CommandOptions.EmptyOrLeadingFlagFails | awesomebread-cli-core/src/main/java/com/awesomebread/cli/interfaces/CommandOptions.java:39-43 | Empty arguments, or arguments starting with a flag, fail with `IndexOutOfBoundsException`. |
| CommandOptions.PlainArgsBindPositionally | awesomebread-cli-core/src/main/java/com/awesomebread/cli/interfaces/CommandOptions.java:74-79 | Arguments without any flag are exactly a positional binding onto the instance. |
| CommandOptions.PlainThenFlagSpan | awesomebread-cli-core/src/main/java/com/awesomebread/cli/interfaces/CommandOptions.java:42-79 | For plain tokens followed by one flag span: the plain tokens pass through, the flag span's binding decides the instance and the tail handed back, and positional binding runs once at the end. |
| CommandOptions.SwitchFlagReturnsItsTail | awesomebread-cli-core/src/main/java/com/awesomebread/cli/interfaces/CommandOptions.java:56-58 | For a single flag with a non-blank identifier: a flag on a boolean field sets it to true, and its span's tail is appended, in order, to the positional tokens. |
| CommandOptions.ObjectFlagKeepsItsTail | awesomebread-cli-core/src/main/java/com/awesomebread/cli/interfaces/CommandOptions.java:59-65 | For a single flag with a non-blank identifier: a class-typed field gets a fresh instance, filled positionally from the tail. The tail never reaches the positional stream, and a nested failure is the result. |
| CommandOptions.BindSpansStream | awesomebread-cli-core/src/main/java/com/awesomebread/cli/interfaces/CommandOptions.java:42-77 | For any number of spans, the tokens handed to the positional stream are the starting ones, then each span's contribution in order: a plain span itself, a boolean flag's tail, nothing for a class-typed flag. |
| CommandOptions.PositionalStream | awesomebread-cli-core/src/main/java/com/awesomebread/cli/interfaces/CommandOptions.java:39-79 | For arguments with any number of flags that bind: the first span holds no flag and every later one starts with one; the positional tokens are the first span, then each boolean flag's tail in order; and the result is the positional binding of those tokens onto the flag-bound instance. |
| CommandOptions.NestedHelpLineCount | awesomebread-cli-core/src/main/java/com/awesomebread/cli/interfaces/CommandOptions.java:147-164 | Nested help prints one line per nested field that is not static final. |
| CommandOptions.FieldHelpLines | awesomebread-cli-core/src/main/java/com/awesomebread/cli/interfaces/CommandOptions.java:114-165 | A visible field prints one line, plus one per visible nested field when it is flagged and not boolean. A static-final field prints none. |
| CommandOptions.HelpLineCount | awesomebread-cli-core/src/main/java/com/awesomebread/cli/interfaces/CommandOptions.java:112-169 | Help prints exactly the expected number of lines, one level deep. |
| CommandOptions.HelpListsFieldsInOrder | awesomebread-cli-core/src/main/java/com/awesomebread/cli/interfaces/CommandOptions.java:114-166 | Each field's help block follows the blocks of all fields declared before it. |
| CommandOptions.OptionsObject.AssignObjectField | awesomebread-cli-core/src/main/java/com/awesomebread/cli/interfaces/CommandOptions.java:104-110 | Setting a field in place. On success the new values are `AssignField` of the old ones. On failure the values are unchanged. |
| CommandOptions.OptionsObject.ApplyArgsToFields | awesomebread-cli-core/src/main/java/com/awesomebread/cli/interfaces/CommandOptions.java:82-102 | The index loop leaves the values equal to `AssignPositional` over the eligible fields, or reports its failure. It always returns no leftovers. |
| CommandOptions.OptionsObject.ParseArgsToOptions | awesomebread-cli-core/src/main/java/com/awesomebread/cli/interfaces/CommandOptions.java:37-80 | The span loop followed by the positional pass leaves the values equal to `ParseArgs` of the old values, or reports its failure. |
| CommandOptions.OptionsObject.NestedHelpLines | awesomebread-cli-core/src/main/java/com/awesomebread/cli/interfaces/CommandOptions.java:147-164 | The inner loop builds exactly the nested lines: the nested name, the outer type name, and " - REQUIRED" when required. |
| CommandOptions.OptionsObject.FieldHelpBlock | awesomebread-cli-core/src/main/java/com/awesomebread/cli/interfaces/CommandOptions.java:117-165 | One field's appended text is its help block: indent, label, type and REQUIRED mark, then its nested lines. |
| CommandOptions.OptionsObject.Help | awesomebread-cli-core/src/main/java/com/awesomebread/cli/interfaces/CommandOptions.java:112-169 | The builder loop yields `HelpText` of the descriptor. This is independent of the bound values. |
| Commands.Help | awesomebread-cli-core/src/main/java/com/awesomebread/cli/interfaces/Command.java:22-49 | Help throws iff the command has an options class that lacks a no-arg constructor or is not CommandOptions; the cause names the missing constructor exactly when there is none. Otherwise the text starts with "Command:", eight spaces and the name, and it is that header alone iff the command takes no options. For an options class it is the header, then "\nOptions:\n", then the options help `HelpText` of the fields. |
| Commands.HelpLines | awesomebread-cli-core/src/main/java/com/awesomebread/cli/interfaces/Command.java:43-45 | A command's help has two line breaks from the Options heading, plus one per options help line. |
| Runner.Lookup | awesomebread-cli-core/src/main/java/com/awesomebread/cli/runner/CliRunner.java:77 | The registry lookup finds a registered command iff the name is registered. |
| Runner.ParseOptions | awesomebread-cli-core/src/main/java/com/awesomebread/cli/runner/CliRunner.java:107-146 | A Void command gives null with no args and InvalidOptions otherwise. A class that is not CommandOptions, or has no no-arg constructor, gives InvalidOptions. Otherwise the options are returned iff binding onto a fresh instance succeeds and the result is valid, and a binding failure of either kind is the result unchanged. |
| Runner.ParseSegment | awesomebread-cli-core/src/main/java/com/awesomebread/cli/runner/CliRunner.java:75-91 | The first token names the command. An empty segment crashes, and an unregistered name stops as UnknownCommand. For a registered name, options become the pair, InvalidOptions becomes Invalid with its message, and any other exception of `parseOptions` becomes a Crash with its cause. |
| Runner.ParseAllStopsEarly | awesomebread-cli-core/src/main/java/com/awesomebread/cli/runner/CliRunner.java:72-94 | Once a prefix of the segment results fails, the later segments are never looked at. |
| Runner.ParseAllSucceeds | awesomebread-cli-core/src/main/java/com/awesomebread/cli/runner/CliRunner.java:72-94 | Parsing succeeds iff every segment parses. It then yields each segment's command and options, in segment order. |
| Runner.FirstFailureStops | awesomebread-cli-core/src/main/java/com/awesomebread/cli/runner/CliRunner.java:72-94 | The first failing segment's stop is the result of parsing. |
| Runner.FirstVisible | awesomebread-cli-core/src/main/java/com/awesomebread/cli/runner/CliRunner.java:100 | Where `trim` starts: every character skipped is at most a space, and the one it stops at is not. |
| Runner.VisibleEnd | awesomebread-cli-core/src/main/java/com/awesomebread/cli/runner/CliRunner.java:100 | Where `trim` ends: every character cut from the back is at most a space, and the last one kept is not, without passing the start. |
| Runner.Trim | awesomebread-cli-core/src/main/java/com/awesomebread/cli/runner/CliRunner.java:100 | The trimmed description is an infix of the original. It neither starts nor ends with a character up to the space, and everything cut off is such a character. |
| Runner.UsageBlocksRender | awesomebread-cli-core/src/main/java/com/awesomebread/cli/runner/CliRunner.java:103 | The usage section renders iff every help block in it renders. |
| Runner.GlobalHelpRenders | awesomebread-cli-core/src/main/java/com/awesomebread/cli/runner/CliRunner.java:96-105 | Global help renders iff no command's help throws. |
| Runner.UsageListsEveryCommand | awesomebread-cli-core/src/main/java/com/awesomebread/cli/runner/CliRunner.java:103 | Each help block follows a line break after the blocks before it, in order, and that prefix begins the whole usage section. |
| Runner.UsageBlocksFirstFailure | awesomebread-cli-core/src/main/java/com/awesomebread/cli/runner/CliRunner.java:103 | The usage section throws the exception of the first help block, in order, that throws. |
| Runner.GlobalHelpFirstFailure | awesomebread-cli-core/src/main/java/com/awesomebread/cli/runner/CliRunner.java:96-105 | Global help throws the exception of the first registered command whose help throws. |
| Runner.SegmentsDropSeparators | awesomebread-cli-core/src/main/java/com/awesomebread/cli/runner/CliRunner.java:63-64 | Splitting on `Predicate.isEqual(COMMAND_NEXT)` leaves no `COMMAND_NEXT` token in any segment. Putting one back between each two segments gives the command line again. |
| Runner.HelpFlagShortCircuits | awesomebread-cli-core/src/main/java/com/awesomebread/cli/runner/CliRunner.java:57-60 | A `-h` or `--help` token anywhere gives global help and exit 0, and no command is parsed or run. |
| Runner.HandlersRunOnlyAfterAllParse | awesomebread-cli-core/src/main/java/com/awesomebread/cli/runner/CliRunner.java:63-66 | Handlers run only if every segment parsed and validated. Then each segment's command runs exactly once, in segment order, through `execute`, which hands it the options bound from its own arguments unchanged. |
| Runner.LateFailureRunsNothing | awesomebread-cli-core/src/main/java/com/awesomebread/cli/runner/CliRunner.java:63-66 | A failing segment, however late, means no handler runs. The first failing segment decides the outcome. |
| Runner.UnknownCommandExitsWithOne | awesomebread-cli-core/src/main/java/com/awesomebread/cli/runner/CliRunner.java:82-85 | An unregistered command name gives help and exit 1. |
| Runner.InvalidOptionsExitWithTwo | awesomebread-cli-core/src/main/java/com/awesomebread/cli/runner/CliRunner.java:86-90 | InvalidOptions while parsing or validating a segment gives help and exit 2. |
| Runner.MisconfiguredOptionsCrashRun | awesomebread-cli-core/src/main/java/com/awesomebread/cli/runner/CliRunner.java:82-90 | When the segments before it parse, a segment whose command's options class is not CommandOptions, or has no no-arg constructor, makes global help throw. The run ends in that exception and never reaches exit 2: the InvalidOptions is caught, but `help()` calls that command's own help, which throws. |
| Runner.MisconfiguredBuildCrashes | awesomebread-cli-core/src/main/java/com/awesomebread/cli/runner/CliRunner.java:82-90 | For `build` registered with an options class lacking a no-arg constructor, the command line `build` ends in the `RuntimeException` wrapping `NoSuchMethodException`. |
| Runner.BinderCrashCrashesRun | awesomebread-cli-core/src/main/java/com/awesomebread/cli/runner/CliRunner.java:75-91 | When the segments before it parse, a segment whose binding throws anything but InvalidOptions ends the run in that exception: `parseAndValidate` does not catch it. |
| Runner.MissingPlainArgumentCrashesRun | awesomebread-cli-core/src/main/java/com/awesomebread/cli/runner/CliRunner.java:75-91 | A command with a well-formed options class named without arguments, or followed directly by a flag, ends the run in `IndexOutOfBoundsException`. |
| Runner.BuildWithoutArgumentsCrashes | awesomebread-cli-core/src/main/java/com/awesomebread/cli/runner/CliRunner.java:75-91 | For `build` registered with a well-formed options class, the command line `build` ends in `IndexOutOfBoundsException`. |
| Runner.HandlersOnlySeeValidOptions | awesomebread-cli-core/src/main/java/com/awesomebread/cli/runner/CliRunner.java:140-151 | A handler receives null only when its command takes no options. Otherwise it receives an instance for which the validator reports no violation. |
| Runner.CliRunner.constructor | awesomebread-cli-core/src/main/java/com/awesomebread/cli/runner/CliRunner.java:44-52 | The runner keeps its registry, descriptions, separator and validator. |
| Runner.CliRunner.AppendDescriptions | awesomebread-cli-core/src/main/java/com/awesomebread/cli/runner/CliRunner.java:99-101 | The loop appends every runner description, trimmed, in order. |
| Runner.CliRunner.AppendUsage | awesomebread-cli-core/src/main/java/com/awesomebread/cli/runner/CliRunner.java:103 | The loop appends a line break and each command's help, in registry order. It stops at the first help that throws. |
| Runner.CliRunner.Help | awesomebread-cli-core/src/main/java/com/awesomebread/cli/runner/CliRunner.java:96-105 | The logged help text is `GlobalHelp`: "\n\n", the descriptions, "\n\nUsage:\n", then the command blocks. |
| Runner.CliRunner.ParseAndValidate | awesomebread-cli-core/src/main/java/com/awesomebread/cli/runner/CliRunner.java:72-94 | The loop over the segments yields `ParseAll`: every pair in order, or the first stop. |
| Runner.CliRunner.ExecuteAll | awesomebread-cli-core/src/main/java/com/awesomebread/cli/runner/CliRunner.java:66 | Each parsed command's handler is called once, in order, with that command's own options: the calls are `Calls` of the pairs. |
| Runner.CliRunner.Run | awesomebread-cli-core/src/main/java/com/awesomebread/cli/runner/CliRunner.java:54-70 | The run ends in `RunOutcome`, which the lemmas above characterize: help check, split on the separator, parse everything, then call the handlers. |

## Left out

- Java reflection becomes the explicit descriptor, with a per-type flag for "has a no-arg constructor". This covers `getDeclaredFields`, `FieldUtils`, `getConstructor().newInstance()` and Guava's `TypeToken` in `getOptionsClass`. Inheritance of fields is not modelled: the descriptor lists the fields `getDeclaredField` and `getFieldsListWithAnnotation` would see.
- `setAccessible` and Java access control are reduced to three flags per field: `staticFinal`; `declaredPublic`, since `getDeclaredField(cls, name, true)` makes only a non-public field accessible; and `writableWithoutForce`, whether `Field.set` succeeds on a field that was not made accessible (a public field, or any field found through its alias). Positional binding calls `setAccessible(true)` itself and never sees a static final field, so it always assigns.
- Jakarta Bean Validation is an abstract function from descriptor and instance to a set of violations. The `@NotNull`/`@NotEmpty`/`@NotBlank` annotations appear only as the `required` flag that help prints.
- Spring wiring (the application context, `getBeansWithAnnotation`, `context.close()`) is not modelled. The registry and runner descriptions are plain inputs, and so is the value of `COMMAND_NEXT`, since the constants file is not part of this model.
- `System.exit` and logging are replaced by the `Exited(code, helpText)` outcome.
- Runner.Lookup: the registry is a sequence of name and command pairs, and a name registered twice resolves to its first entry. The Java `commands` map holds each bean name once, so this case does not arise there; the model does not require distinct names.
- Handler bodies (`Command.run`) are user code. An outcome records each call with its options.
- JVM-specific failures are causes in `RuntimeFailure`/`Crashed`, not modelled semantics. These are:
  - a flag aimed at a `String` field with a non-empty tail (`String`'s own fields are reflected into);
  - the `IllegalArgumentException` of storing text in an `Integer`/`int` field;
  - the other `RuntimeException` wrappers.
- CommandOptions.HelpText: for a flagged `String` or `Integer` field, the real `help` lists the JDK class's own declared fields. The model lists none, because those fields are not part of the program.
- Runner.ParseOptions: the exception messages use the class's simple name where Java prints `Class.toString()`. The validation message uses the command's name where Java prints the command object and the argument list. Only the runner's log shows them.
- Commands.Execute: the cast to the options class is not modelled. It cannot fail for options the runner bound for the same command.
- CommandLineCollector.GroupAccumulator.CombineWith: the groups are values, so the aliasing of inner lists between the two accumulators is not modelled.
- Parallel evaluation of the collector is not modelled. Only the combiner's law is proved.
- Values produced by `Integer::parseInt` and `Boolean::parseBoolean` never occur: `SUPPORTED_TYPES` is looked up only with the argument's class, which is `String`. Those two converters are present in the map as `ParseInt` and `ParseBoolean`, but their parsing is not modelled, because no lookup reaches them.
