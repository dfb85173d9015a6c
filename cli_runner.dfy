/** The dispatcher: splits the command line into one segment per command,
    parses and validates every segment, and only then runs the handlers in
    order. The registry, the runner descriptions, the command separator
    token and the bean validator are inputs. */
module Runner {
  import opened Wrappers
  import CommandLineCollector
  import opened CommandOptions
  import opened Commands

  const HELP_SHORT: string := "-h"
  const HELP_LONG: string := "--help"

  const EXIT_HELP: int := 0
  const EXIT_UNKNOWN_COMMAND: int := 1
  const EXIT_INVALID_OPTIONS: int := 2

  const HELP_START: string := "\n\n"
  const USAGE_HEADING: string := "\n\nUsage:\n"

  const VOID_WITH_ARGUMENTS: string := "Void options called with arguments"
  const NOT_COMMAND_OPTIONS_SUFFIX: string := " does not implement CommandOptions"
  const NO_DEFAULT_CONSTRUCTOR_PREFIX: string := "No default constructor found for "
  const NOT_VALID_PREFIX: string := "Unable to parse and validate options for command "

  /** The command beans in registration order, keyed by bean name. */
  type Registry = seq<(string, Command)>

  /** The bean validator: the constraint violations of a bound options
      instance of the class with the given fields. */
  type Validator = (Descriptor, Instance) -> set<string>

  /** Why parsing a segment stopped: an unregistered command name, an
      `InvalidOptionsException`, or an unchecked exception nobody catches. */
  datatype Stop = UnknownCommand(name: string) | Invalid(message: string) | Crash(cause: string)

  /** How `run` ends: the handlers it called, in order; a process exit with
      the help text logged before it; or an uncaught exception. */
  datatype Outcome = Executed(calls: seq<HandlerCall>) | Exited(code: int, helpText: string) | Crashed(cause: string)

  // ---------------------------------------------------------------------
  // Registry lookup and option parsing
  // ---------------------------------------------------------------------

  /** `commands.get(name)`: the first command registered under `name`. */
  function Lookup(registry: Registry, name: string): (r: Option<Command>)
    ensures r.None? <==> forall i :: 0 <= i < |registry| ==> registry[i].0 != name
    ensures r.Some? ==> (name, r.value) in registry
  {
    if registry == [] then None
    else if registry[0].0 == name then Some(registry[0].1)
    else Lookup(registry[1..], name)
  }

  /** `isOptionsValid`: the validator reports no violation. */
  function IsOptionsValid(validator: Validator, fields: Descriptor, options: Instance): (r: bool)
    ensures r <==> |validator(fields, options)| == 0
  {
    validator(fields, options) == {}
  }

  /** `parseOptions`: a `Void` command takes no argument and gets null;
      otherwise a fresh default instance is bound from the arguments and
      returned only if it is valid. */
  function ParseOptions(cmd: Command, args: seq<string>, validator: Validator): (r: Result<Option<Instance>, BindError>)
    ensures cmd.options.NoOptions? ==>
      r == if args == [] then Success(None) else Failure(InvalidOptions(VOID_WITH_ARGUMENTS))
    ensures cmd.options.OptionsClass? && r.Success? ==>
      && r.value.Some?
      && cmd.options.implementsCommandOptions && cmd.options.hasNoArgConstructor
      && ParseArgs(cmd.options.fields, args, map[]) == Success(r.value.value)
      && IsOptionsValid(validator, cmd.options.fields, r.value.value)
    ensures cmd.options.OptionsClass? && cmd.options.implementsCommandOptions && cmd.options.hasNoArgConstructor
         && ParseArgs(cmd.options.fields, args, map[]).Success?
         && IsOptionsValid(validator, cmd.options.fields, ParseArgs(cmd.options.fields, args, map[]).value)
         ==> r.Success?
    ensures cmd.options.OptionsClass? && !(cmd.options.implementsCommandOptions && cmd.options.hasNoArgConstructor) ==>
      r.Failure? && r.error.InvalidOptions?
    ensures r.Failure? && r.error.RuntimeFailure? ==> ParseArgs(cmd.options.fields, args, map[]) == Failure(r.error)
    ensures cmd.options.OptionsClass? && cmd.options.implementsCommandOptions && cmd.options.hasNoArgConstructor
         && ParseArgs(cmd.options.fields, args, map[]).Failure?
         ==> r == Failure(ParseArgs(cmd.options.fields, args, map[]).error)
  {
    match cmd.options
    case NoOptions =>
      if args != [] then Failure(InvalidOptions(VOID_WITH_ARGUMENTS)) else Success(None)
    case OptionsClass(simpleName, fields, hasNoArgConstructor, implementsCommandOptions) =>
      if !implementsCommandOptions then Failure(InvalidOptions("class " + simpleName + NOT_COMMAND_OPTIONS_SUFFIX))
      else if !hasNoArgConstructor then Failure(InvalidOptions(NO_DEFAULT_CONSTRUCTOR_PREFIX + "class " + simpleName))
      else
        var options :- ParseArgs(fields, args, map[]);
        if IsOptionsValid(validator, fields, options) then Success(Some(options))
        else Failure(InvalidOptions(NOT_VALID_PREFIX + cmd.name))
  }

  /** One segment: its first token names the command, the rest are its
      arguments. The first token is read unchecked. */
  function ParseSegment(registry: Registry, validator: Validator, segment: seq<string>): (r: Result<(Command, Option<Instance>), Stop>)
    ensures segment == [] ==> r == Failure(Crash(INDEX_OUT_OF_BOUNDS))
    ensures segment != [] && Lookup(registry, segment[0]).None? ==> r == Failure(UnknownCommand(segment[0]))
    ensures r.Success? ==>
      && segment != []
      && Lookup(registry, segment[0]) == Some(r.value.0)
      && ParseOptions(r.value.0, segment[1..], validator) == Success(r.value.1)
    ensures r.Failure? && r.error.Invalid? ==>
      segment != [] && Lookup(registry, segment[0]).Some?
      && ParseOptions(Lookup(registry, segment[0]).value, segment[1..], validator) == Failure(InvalidOptions(r.error.message))
    ensures segment != [] && Lookup(registry, segment[0]).Some? ==>
      match ParseOptions(Lookup(registry, segment[0]).value, segment[1..], validator)
      case Success(options) => r == Success((Lookup(registry, segment[0]).value, options))
      case Failure(InvalidOptions(message)) => r == Failure(Invalid(message))
      case Failure(RuntimeFailure(cause)) => r == Failure(Crash(cause))
  {
    if segment == [] then Failure(Crash(INDEX_OUT_OF_BOUNDS))
    else
      match Lookup(registry, segment[0])
      case None => Failure(UnknownCommand(segment[0]))
      case Some(cmd) =>
        match ParseOptions(cmd, segment[1..], validator)
        case Success(options) => Success((cmd, options))
        case Failure(InvalidOptions(message)) => Failure(Invalid(message))
        case Failure(RuntimeFailure(cause)) => Failure(Crash(cause))
  }

  /** A segment's command and the options bound for it. */
  type Parsed = (Command, Option<Instance>)

  /** The outcome of `ParseSegment` on every segment, in order. */
  function SegmentResults(registry: Registry, validator: Validator, segments: seq<seq<string>>): (r: seq<Result<Parsed, Stop>>)
    ensures |r| == |segments|
    ensures forall i :: 0 <= i < |segments| ==> r[i] == ParseSegment(registry, validator, segments[i])
  {
    seq(|segments|, i requires 0 <= i < |segments| => ParseSegment(registry, validator, segments[i]))
  }

  /** The results in order; the first failure stops the collection. */
  function Collect(results: seq<Result<Parsed, Stop>>): Result<seq<Parsed>, Stop>
    decreases |results|
  {
    if results == [] then Success([])
    else
      var pairs :- Collect(results[..|results| - 1]);
      var pair :- results[|results| - 1];
      Success(pairs + [pair])
  }

  /** `parseAndValidate`: the segments in order; the first one that fails
      stops the whole run. */
  function ParseAll(registry: Registry, validator: Validator, segments: seq<seq<string>>): Result<seq<Parsed>, Stop>
  {
    Collect(SegmentResults(registry, validator, segments))
  }

  /** One step of the collection: all but the last result, then the last. */
  lemma CollectStep(results: seq<Result<Parsed, Stop>>)
    requires results != []
    ensures Collect(results).Success?
        <==> Collect(results[..|results| - 1]).Success? && results[|results| - 1].Success?
    ensures Collect(results).Success? ==>
      Collect(results).value == Collect(results[..|results| - 1]).value + [results[|results| - 1].value]
    ensures Collect(results[..|results| - 1]).Success? && results[|results| - 1].Failure? ==>
      Collect(results) == Failure(results[|results| - 1].error)
  {
  }

  /** Once a prefix of the results fails, the later results are never
      looked at. */
  lemma {:induction false} ParseAllStopsEarly(results: seq<Result<Parsed, Stop>>, k: nat)
    requires k <= |results| && Collect(results[..k]).Failure?
    ensures Collect(results) == Collect(results[..k])
    decreases |results| - k
  {
    if k < |results| {
      var n := |results|;
      assert results[..n] == results;
      assert results[..n - 1][..k] == results[..k];
      ParseAllStopsEarly(results[..n - 1], k);
    } else {
      assert results[..k] == results;
    }
  }

  /** Collection succeeds exactly when every result does, and then yields
      their values in order. */
  lemma {:induction false} CollectSucceeds(results: seq<Result<Parsed, Stop>>)
    ensures Collect(results).Success? <==> forall i :: 0 <= i < |results| ==> results[i].Success?
    ensures Collect(results).Success? ==>
      && |Collect(results).value| == |results|
      && forall i :: 0 <= i < |results| ==> results[i] == Success(Collect(results).value[i])
    decreases |results|
  {
    if results != [] {
      var n := |results|;
      var init := results[..n - 1];
      CollectSucceeds(init);
      CollectStep(results);
      assert forall i :: 0 <= i < n - 1 ==> init[i] == results[i];
    }
  }

  /** Parsing succeeds exactly when every segment parses, and then yields
      each segment's command and options in order. */
  lemma ParseAllSucceeds(registry: Registry, validator: Validator, segments: seq<seq<string>>)
    ensures ParseAll(registry, validator, segments).Success?
        <==> forall i :: 0 <= i < |segments| ==> ParseSegment(registry, validator, segments[i]).Success?
    ensures ParseAll(registry, validator, segments).Success? ==>
      && |ParseAll(registry, validator, segments).value| == |segments|
      && forall i :: 0 <= i < |segments| ==>
           ParseSegment(registry, validator, segments[i]) == Success(ParseAll(registry, validator, segments).value[i])
  {
    CollectSucceeds(SegmentResults(registry, validator, segments));
  }

  /** The first failing segment decides how parsing fails. */
  lemma FirstFailureStops(registry: Registry, validator: Validator, segments: seq<seq<string>>, k: nat)
    requires k < |segments|
    requires forall j :: 0 <= j < k ==> ParseSegment(registry, validator, segments[j]).Success?
    requires ParseSegment(registry, validator, segments[k]).Failure?
    ensures ParseAll(registry, validator, segments) == Failure(ParseSegment(registry, validator, segments[k]).error)
  {
    CollectFirstFailure(SegmentResults(registry, validator, segments), k);
  }

  lemma CollectFirstFailure(results: seq<Result<Parsed, Stop>>, k: nat)
    requires k < |results|
    requires forall j :: 0 <= j < k ==> results[j].Success?
    requires results[k].Failure?
    ensures Collect(results) == Failure(results[k].error)
  {
    var prefix := results[..k + 1];
    CollectSucceeds(results[..k]);
    assert forall j :: 0 <= j < k ==> results[..k][j] == results[j];
    assert prefix[..k] == results[..k] && prefix[k] == results[k];
    CollectStep(prefix);
    ParseAllStopsEarly(results, k + 1);
  }

  // ---------------------------------------------------------------------
  // Global help
  // ---------------------------------------------------------------------

  /** Where `String.trim` starts the result: the first index from `i` on
      whose character is above the space, or the end. */
  function FirstVisible(s: string, i: nat): (n: nat)
    requires i <= |s|
    ensures i <= n <= |s|
    ensures forall k :: i <= k < n ==> s[k] <= ' '
    ensures n < |s| ==> s[n] > ' '
    decreases |s| - i
  {
    if i < |s| && s[i] <= ' ' then FirstVisible(s, i + 1) else i
  }

  /** Where `String.trim` ends the result: `end` moved back over characters
      up to the space, but not below `start`. */
  function VisibleEnd(s: string, start: nat, end: nat): (n: nat)
    requires start <= end <= |s|
    ensures start <= n <= end
    ensures forall k :: n <= k < end ==> s[k] <= ' '
    ensures start < n ==> s[n - 1] > ' '
    decreases end
  {
    if start < end && s[end - 1] <= ' ' then VisibleEnd(s, start, end - 1) else end
  }

  /** `String.trim`: `s` without its leading and trailing characters up to
      and including the space. */
  function Trim(s: string): (r: string)
    ensures r == [] || (r[0] > ' ' && r[|r| - 1] > ' ')
    ensures FirstVisible(s, 0) + |r| <= |s| && r == s[FirstVisible(s, 0)..FirstVisible(s, 0) + |r|]
    ensures forall i :: 0 <= i < FirstVisible(s, 0) ==> s[i] <= ' '
    ensures forall i :: FirstVisible(s, 0) + |r| <= i < |s| ==> s[i] <= ' '
  {
    var start := FirstVisible(s, 0);
    s[start..VisibleEnd(s, start, |s|)]
  }

  /** The runner descriptions, each trimmed, run together. */
  function Descriptions(descriptions: seq<string>): string
  {
    if descriptions == [] then ""
    else Descriptions(descriptions[..|descriptions| - 1]) + Trim(descriptions[|descriptions| - 1])
  }

  /** The outcome of every registered command's `help()`, in registry
      order. */
  function HelpResults(registry: Registry): (r: seq<Result<string, string>>)
    ensures |r| == |registry|
    ensures forall i :: 0 <= i < |registry| ==> r[i] == Commands.Help(registry[i].1)
  {
    seq(|registry|, i requires 0 <= i < |registry| => Commands.Help(registry[i].1))
  }

  /** A line break and each help block, in order; the first help that
      throws ends the rendering. */
  function UsageBlocks(helps: seq<Result<string, string>>): Result<string, string>
  {
    if helps == [] then Success("")
    else
      var init :- UsageBlocks(helps[..|helps| - 1]);
      var block :- helps[|helps| - 1];
      Success(init + "\n" + block)
  }

  /** `help()`: two line breaks, the descriptions, the usage heading, then
      the commands' help blocks. */
  function GlobalHelp(descriptions: seq<string>, registry: Registry): Result<string, string>
  {
    var usage :- UsageBlocks(HelpResults(registry));
    Success(HELP_START + Descriptions(descriptions) + USAGE_HEADING + usage)
  }

  lemma {:induction false} UsageBlocksStopEarly(helps: seq<Result<string, string>>, k: nat)
    requires k <= |helps| && UsageBlocks(helps[..k]).Failure?
    ensures UsageBlocks(helps) == UsageBlocks(helps[..k])
    decreases |helps| - k
  {
    if k < |helps| {
      var n := |helps|;
      assert helps[..n] == helps;
      assert helps[..n - 1][..k] == helps[..k];
      UsageBlocksStopEarly(helps[..n - 1], k);
    } else {
      assert helps[..k] == helps;
    }
  }

  /** One step of the rendering: the blocks of all but the last help, then
      the last one. */
  lemma UsageBlocksStep(helps: seq<Result<string, string>>)
    requires helps != []
    ensures UsageBlocks(helps).Success?
        <==> UsageBlocks(helps[..|helps| - 1]).Success? && helps[|helps| - 1].Success?
    ensures UsageBlocks(helps).Success? ==>
      UsageBlocks(helps).value == UsageBlocks(helps[..|helps| - 1]).value + "\n" + helps[|helps| - 1].value
  {
  }

  lemma {:induction false} UsageBlocksRender(helps: seq<Result<string, string>>)
    ensures UsageBlocks(helps).Success? <==> forall i :: 0 <= i < |helps| ==> helps[i].Success?
    decreases |helps|
  {
    if helps != [] {
      var init := helps[..|helps| - 1];
      UsageBlocksRender(init);
      UsageBlocksStep(helps);
      assert forall i :: 0 <= i < |init| ==> init[i] == helps[i];
    }
  }

  /** Global help renders exactly when every registered command's help
      renders. */
  lemma GlobalHelpRenders(descriptions: seq<string>, registry: Registry)
    ensures GlobalHelp(descriptions, registry).Success?
        <==> forall i :: 0 <= i < |registry| ==> Commands.Help(registry[i].1).Success?
  {
    UsageBlocksRender(HelpResults(registry));
  }

  /** The help blocks follow the heading in order: each one is a line of its
      own after the previous ones. */
  lemma {:induction false} UsageListsEveryCommand(helps: seq<Result<string, string>>, k: nat)
    requires k < |helps| && UsageBlocks(helps).Success?
    ensures UsageBlocks(helps[..k]).Success? && helps[k].Success?
    ensures UsageBlocks(helps[..k + 1]).Success?
    ensures UsageBlocks(helps[..k + 1]).value == UsageBlocks(helps[..k]).value + "\n" + helps[k].value
    ensures UsageBlocks(helps[..k + 1]).value <= UsageBlocks(helps).value
    decreases |helps| - k
  {
    var n := |helps|;
    var prefix := helps[..k + 1];
    assert prefix[..k] == helps[..k] && prefix[k] == helps[k];
    UsageBlocksStep(prefix);
    if k + 1 < n {
      var init := helps[..n - 1];
      assert init[..k + 1] == prefix;
      assert init[..k] == helps[..k];
      assert init[k] == helps[k];
      UsageBlocksStep(helps);
      UsageListsEveryCommand(init, k);
    } else {
      assert prefix == helps;
    }
  }

  // ---------------------------------------------------------------------
  // The whole run
  // ---------------------------------------------------------------------

  predicate IsHelpFlag(token: string)
  {
    token == HELP_SHORT || token == HELP_LONG
  }

  predicate HelpRequested(args: seq<string>)
  {
    exists i :: 0 <= i < |args| && IsHelpFlag(args[i])
  }

  /** `Predicate.isEqual(target)` */
  function IsEqual(target: string): (p: string -> bool)
    ensures forall t :: p(t) <==> t == target
  {
    t => t == target
  }

  /** The command line cut at every separator token, which is dropped. */
  function Segments(args: seq<string>, commandNext: string): seq<seq<string>>
  {
    CommandLineCollector.Split(args, IsEqual(commandNext), false)
  }

  /** The segments never hold the separator token, and putting one back
      between each two of them gives the command line again. */
  lemma SegmentsDropSeparators(args: seq<string>, commandNext: string)
    ensures var segments := Segments(args, commandNext);
      var separators := CommandLineCollector.Separators(args, IsEqual(commandNext));
      && (forall i, j :: 0 <= i < |segments| && 0 <= j < |segments[i]| ==> segments[i][j] != commandNext)
      && (forall i :: 0 <= i < |separators| ==> separators[i] == commandNext)
      && |segments| == |separators| + 1
      && CommandLineCollector.Join(segments, separators) == args
  {
    var p := IsEqual(commandNext);
    CommandLineCollector.SplitDroppingSeparatorsHasNone(args, p);
    CommandLineCollector.SplitDroppingSeparatorsJoins(args, p);
    CommandLineCollector.SeparatorsAreSeparators(args, p);
  }

  /** Help is logged, then the process exits with `code`; if rendering help
      throws, the exception ends the run instead. */
  function HelpExit(code: int, help: Result<string, string>): Outcome
  {
    if help.Failure? then Crashed(help.error) else Exited(code, help.value)
  }

  function StopOutcome(stop: Stop, help: Result<string, string>): Outcome
  {
    match stop
    case UnknownCommand(_) => HelpExit(EXIT_UNKNOWN_COMMAND, help)
    case Invalid(_) => HelpExit(EXIT_INVALID_OPTIONS, help)
    case Crash(cause) => Crashed(cause)
  }

  /** The handlers called for the parsed pairs, one each, in order. */
  function Calls(pairs: seq<(Command, Option<Instance>)>): (r: seq<HandlerCall>)
    ensures |r| == |pairs|
    ensures forall i :: 0 <= i < |pairs| ==> r[i] == Execute(pairs[i].0, pairs[i].1)
  {
    seq(|pairs|, i requires 0 <= i < |pairs| => Execute(pairs[i].0, pairs[i].1))
  }

  /** `run(args)` */
  function RunOutcome(registry: Registry, descriptions: seq<string>, commandNext: string, validator: Validator, args: seq<string>): Outcome
  {
    if HelpRequested(args) then HelpExit(EXIT_HELP, GlobalHelp(descriptions, registry))
    else
      match ParseAll(registry, validator, Segments(args, commandNext))
      case Failure(stop) => StopOutcome(stop, GlobalHelp(descriptions, registry))
      case Success(pairs) => Executed(Calls(pairs))
  }

  /** A help flag anywhere wins over everything else: help and exit 0, and
      no command is parsed or run. */
  lemma HelpFlagShortCircuits(registry: Registry, descriptions: seq<string>, commandNext: string, validator: Validator, args: seq<string>, i: nat)
    requires i < |args| && IsHelpFlag(args[i])
    requires forall k :: 0 <= k < |registry| ==> Commands.Help(registry[k].1).Success?
    ensures GlobalHelp(descriptions, registry).Success?
    ensures RunOutcome(registry, descriptions, commandNext, validator, args)
         == Exited(EXIT_HELP, GlobalHelp(descriptions, registry).value)
  {
    GlobalHelpRenders(descriptions, registry);
  }

  /** Handlers run only when every segment parsed and validated; then each
      segment's command runs exactly once, in segment order, with the
      options bound from that segment. */
  lemma HandlersRunOnlyAfterAllParse(registry: Registry, descriptions: seq<string>, commandNext: string, validator: Validator, args: seq<string>)
    requires RunOutcome(registry, descriptions, commandNext, validator, args).Executed?
    ensures !HelpRequested(args)
    ensures var segments := Segments(args, commandNext);
      var calls := RunOutcome(registry, descriptions, commandNext, validator, args).calls;
      && |calls| == |segments|
      && forall i :: 0 <= i < |segments| ==>
           && segments[i] != []
           && Lookup(registry, segments[i][0]) == Some(calls[i].handler)
           && ParseOptions(calls[i].handler, segments[i][1..], validator) == Success(calls[i].options)
  {
    var segments := Segments(args, commandNext);
    ParseAllSucceeds(registry, validator, segments);
  }

  /** A failing segment means no handler runs at all, however late it comes;
      the first failing segment decides the outcome. */
  lemma LateFailureRunsNothing(registry: Registry, descriptions: seq<string>, commandNext: string, validator: Validator, args: seq<string>, k: nat)
    requires !HelpRequested(args)
    requires k < |Segments(args, commandNext)|
    requires forall j :: 0 <= j < k ==> ParseSegment(registry, validator, Segments(args, commandNext)[j]).Success?
    requires ParseSegment(registry, validator, Segments(args, commandNext)[k]).Failure?
    ensures RunOutcome(registry, descriptions, commandNext, validator, args)
         == StopOutcome(ParseSegment(registry, validator, Segments(args, commandNext)[k]).error, GlobalHelp(descriptions, registry))
    ensures !RunOutcome(registry, descriptions, commandNext, validator, args).Executed?
  {
    FirstFailureStops(registry, validator, Segments(args, commandNext), k);
  }

  /** An unregistered command name exits with code 1 after help, once every
      earlier segment has parsed. */
  lemma UnknownCommandExitsWithOne(registry: Registry, descriptions: seq<string>, commandNext: string, validator: Validator, args: seq<string>, k: nat)
    requires !HelpRequested(args)
    requires k < |Segments(args, commandNext)| && Segments(args, commandNext)[k] != []
    requires forall j :: 0 <= j < k ==> ParseSegment(registry, validator, Segments(args, commandNext)[j]).Success?
    requires Lookup(registry, Segments(args, commandNext)[k][0]).None?
    requires GlobalHelp(descriptions, registry).Success?
    ensures RunOutcome(registry, descriptions, commandNext, validator, args)
         == Exited(EXIT_UNKNOWN_COMMAND, GlobalHelp(descriptions, registry).value)
  {
    LateFailureRunsNothing(registry, descriptions, commandNext, validator, args, k);
  }

  /** Options that fail to bind or to validate exit with code 2 after help,
      once every earlier segment has parsed. */
  lemma InvalidOptionsExitWithTwo(registry: Registry, descriptions: seq<string>, commandNext: string, validator: Validator, args: seq<string>, k: nat)
    requires !HelpRequested(args)
    requires k < |Segments(args, commandNext)| && Segments(args, commandNext)[k] != []
    requires forall j :: 0 <= j < k ==> ParseSegment(registry, validator, Segments(args, commandNext)[j]).Success?
    requires Lookup(registry, Segments(args, commandNext)[k][0]).Some?
    requires ParseOptions(Lookup(registry, Segments(args, commandNext)[k][0]).value, Segments(args, commandNext)[k][1..], validator).Failure?
    requires ParseOptions(Lookup(registry, Segments(args, commandNext)[k][0]).value, Segments(args, commandNext)[k][1..], validator).error.InvalidOptions?
    requires GlobalHelp(descriptions, registry).Success?
    ensures RunOutcome(registry, descriptions, commandNext, validator, args)
         == Exited(EXIT_INVALID_OPTIONS, GlobalHelp(descriptions, registry).value)
  {
    LateFailureRunsNothing(registry, descriptions, commandNext, validator, args, k);
  }

  /** An options binding that throws anything but `InvalidOptionsException`
      (an empty argument list or a leading flag, for instance) is not caught
      by `parseAndValidate`: the run ends in that exception, once the
      segments before it parse. */
  lemma BinderCrashCrashesRun(registry: Registry, descriptions: seq<string>, commandNext: string, validator: Validator, args: seq<string>, k: nat)
    requires !HelpRequested(args)
    requires k < |Segments(args, commandNext)| && Segments(args, commandNext)[k] != []
    requires forall j :: 0 <= j < k ==> ParseSegment(registry, validator, Segments(args, commandNext)[j]).Success?
    requires Lookup(registry, Segments(args, commandNext)[k][0]).Some?
    requires var cmd := Lookup(registry, Segments(args, commandNext)[k][0]).value;
      && cmd.options.OptionsClass? && cmd.options.implementsCommandOptions && cmd.options.hasNoArgConstructor
      && ParseArgs(cmd.options.fields, Segments(args, commandNext)[k][1..], map[]).Failure?
      && ParseArgs(cmd.options.fields, Segments(args, commandNext)[k][1..], map[]).error.RuntimeFailure?
    ensures RunOutcome(registry, descriptions, commandNext, validator, args)
         == Crashed(ParseArgs(Lookup(registry, Segments(args, commandNext)[k][0]).value.options.fields,
                              Segments(args, commandNext)[k][1..], map[]).error.cause)
  {
    LateFailureRunsNothing(registry, descriptions, commandNext, validator, args, k);
  }

  /** A command with options named without any argument, or followed
      directly by a flag, crashes the run with the
      `IndexOutOfBoundsException` of the binder. */
  lemma MissingPlainArgumentCrashesRun(registry: Registry, descriptions: seq<string>, commandNext: string, validator: Validator, args: seq<string>, k: nat)
    requires !HelpRequested(args)
    requires k < |Segments(args, commandNext)| && Segments(args, commandNext)[k] != []
    requires forall j :: 0 <= j < k ==> ParseSegment(registry, validator, Segments(args, commandNext)[j]).Success?
    requires Lookup(registry, Segments(args, commandNext)[k][0]).Some?
    requires var cmd := Lookup(registry, Segments(args, commandNext)[k][0]).value;
      cmd.options.OptionsClass? && cmd.options.implementsCommandOptions && cmd.options.hasNoArgConstructor
    requires |Segments(args, commandNext)[k]| == 1 || IsFlag(Segments(args, commandNext)[k][1])
    ensures RunOutcome(registry, descriptions, commandNext, validator, args) == Crashed(INDEX_OUT_OF_BOUNDS)
  {
    var segment := Segments(args, commandNext)[k];
    var cmd := Lookup(registry, segment[0]).value;
    EmptyOrLeadingFlagFails(cmd.options.fields, segment[1..], map[]);
    BinderCrashCrashesRun(registry, descriptions, commandNext, validator, args, k);
  }

  /** The usage section fails with the first help that throws. */
  lemma UsageBlocksFirstFailure(helps: seq<Result<string, string>>, m: nat)
    requires m < |helps| && helps[m].Failure?
    requires forall i :: 0 <= i < m ==> helps[i].Success?
    ensures UsageBlocks(helps) == Failure(helps[m].error)
  {
    var prefix := helps[..m + 1];
    assert prefix[..|prefix| - 1] == helps[..m];
    UsageBlocksRender(helps[..m]);
    assert UsageBlocks(prefix) == Failure(helps[m].error);
    UsageBlocksStopEarly(helps, m + 1);
  }

  /** Global help throws the exception of the first command, in registry
      order, whose own help throws. */
  lemma GlobalHelpFirstFailure(descriptions: seq<string>, registry: Registry, m: nat)
    requires m < |registry| && Commands.Help(registry[m].1).Failure?
    requires forall i :: 0 <= i < m ==> Commands.Help(registry[i].1).Success?
    ensures GlobalHelp(descriptions, registry) == Failure(Commands.Help(registry[m].1).error)
  {
    UsageBlocksFirstFailure(HelpResults(registry), m);
  }

  /** An options class that is not CommandOptions, or that has no no-arg
      constructor, makes `parseOptions` throw `InvalidOptionsException`.
      The runner catches it and calls `help()`, but that command's own
      help throws as well, so the run ends in the exception of global help
      instead of exit 2. */
  lemma MisconfiguredOptionsCrashRun(registry: Registry, descriptions: seq<string>, commandNext: string, validator: Validator, args: seq<string>, k: nat)
    requires !HelpRequested(args)
    requires k < |Segments(args, commandNext)| && Segments(args, commandNext)[k] != []
    requires forall j :: 0 <= j < k ==> ParseSegment(registry, validator, Segments(args, commandNext)[j]).Success?
    requires Lookup(registry, Segments(args, commandNext)[k][0]).Some?
    requires var options := Lookup(registry, Segments(args, commandNext)[k][0]).value.options;
      options.OptionsClass? && !(options.implementsCommandOptions && options.hasNoArgConstructor)
    ensures GlobalHelp(descriptions, registry).Failure?
    ensures RunOutcome(registry, descriptions, commandNext, validator, args)
         == Crashed(GlobalHelp(descriptions, registry).error)
  {
    var segment := Segments(args, commandNext)[k];
    var cmd := Lookup(registry, segment[0]).value;
    var i :| 0 <= i < |registry| && registry[i] == (segment[0], cmd);
    assert Commands.Help(registry[i].1).Failure?;
    GlobalHelpRenders(descriptions, registry);
    LateFailureRunsNothing(registry, descriptions, commandNext, validator, args, k);
  }

  /** `build` alone, for a command whose options class has no no-arg
      constructor: the run ends in the exception of that command's help. */
  lemma MisconfiguredBuildCrashes(validator: Validator)
    ensures var build := Command("build", OptionsClass("BuildOptions", [], false, true));
      RunOutcome([("build", build)], [], "--next", validator, ["build"]) == Crashed(NO_DEFAULT_CONSTRUCTOR_CAUSE)
  {
    var build := Command("build", OptionsClass("BuildOptions", [], false, true));
    var registry := [("build", build)];
    var args := ["build"];
    CommandLineCollector.SplitWithoutSeparators(args, IsEqual("--next"), false);
    assert !IsHelpFlag(args[0]);
    MisconfiguredOptionsCrashRun(registry, [], "--next", validator, args, 0);
    GlobalHelpFirstFailure([], registry, 0);
  }

  /** `build` alone, for a command whose options class is well formed: the
      binder reads the first plain argument, which is missing. */
  lemma BuildWithoutArgumentsCrashes(validator: Validator)
    ensures var build := Command("build", OptionsClass("BuildOptions", [], true, true));
      RunOutcome([("build", build)], [], "--next", validator, ["build"]) == Crashed(INDEX_OUT_OF_BOUNDS)
  {
    var build := Command("build", OptionsClass("BuildOptions", [], true, true));
    var args := ["build"];
    CommandLineCollector.SplitWithoutSeparators(args, IsEqual("--next"), false);
    assert !IsHelpFlag(args[0]);
    MissingPlainArgumentCrashesRun([("build", build)], [], "--next", validator, args, 0);
  }

  /** A handler only ever receives null (for a command without options) or
      a bound instance the validator accepted. */
  lemma HandlersOnlySeeValidOptions(registry: Registry, descriptions: seq<string>, commandNext: string, validator: Validator, args: seq<string>, i: nat)
    requires RunOutcome(registry, descriptions, commandNext, validator, args).Executed?
    requires i < |RunOutcome(registry, descriptions, commandNext, validator, args).calls|
    ensures var call := RunOutcome(registry, descriptions, commandNext, validator, args).calls[i];
      if call.handler.options.NoOptions? then call.options.None?
      else call.options.Some? && IsOptionsValid(validator, call.handler.options.fields, call.options.value)
  {
    HandlersRunOnlyAfterAllParse(registry, descriptions, commandNext, validator, args);
  }

  // ---------------------------------------------------------------------
  // The runner object
  // ---------------------------------------------------------------------

  /** The runner bean with its collaborators. */
  class CliRunner {
    const registry: Registry
    const descriptions: seq<string>
    const commandNext: string
    const validator: Validator

    constructor (registry: Registry, descriptions: seq<string>, commandNext: string, validator: Validator)
      ensures this.registry == registry && this.descriptions == descriptions
      ensures this.commandNext == commandNext && this.validator == validator
    {
      this.registry := registry;
      this.descriptions := descriptions;
      this.commandNext := commandNext;
      this.validator := validator;
    }

    /** The trimmed descriptions of the runner beans, appended in turn. */
    static method AppendDescriptions(descriptions: seq<string>) returns (text: string)
      ensures text == Descriptions(descriptions)
    {
      text := "";
      for i := 0 to |descriptions|
        invariant text == Descriptions(descriptions[..i])
      {
        assert descriptions[..i + 1][..i] == descriptions[..i];
        text := text + Trim(descriptions[i]);
      }
      assert descriptions[..|descriptions|] == descriptions;
    }

    /** A line break and each command's help block, appended in registry
        order; the first help that throws ends the loop. */
    static method AppendUsage(registry: Registry) returns (r: Result<string, string>)
      ensures r == UsageBlocks(HelpResults(registry))
    {
      ghost var helps := HelpResults(registry);
      var usage := "";
      for i := 0 to |registry|
        invariant UsageBlocks(helps[..i]) == Success(usage)
      {
        var block := Commands.Help(registry[i].1);
        assert helps[..i + 1][..i] == helps[..i] && helps[..i + 1][i] == block;
        UsageBlocksStep(helps[..i + 1]);
        if block.Failure? {
          UsageBlocksStopEarly(helps, i + 1);
          return Failure(block.error);
        }
        usage := usage + "\n" + block.value;
      }
      assert helps[..|registry|] == helps;
      r := Success(usage);
    }

    /** `help()`: the text it logs, or the exception a command's help
        throws. */
    method Help() returns (r: Result<string, string>)
      ensures r == GlobalHelp(descriptions, registry)
    {
      var described := AppendDescriptions(descriptions);
      var usage := AppendUsage(registry);
      if usage.Failure? {
        return Failure(usage.error);
      }
      r := Success(HELP_START + described + USAGE_HEADING + usage.value);
    }

    /** `parseAndValidate`: every segment in order, stopping at the first
        one that fails. */
    method ParseAndValidate(segments: seq<seq<string>>) returns (r: Result<seq<Parsed>, Stop>)
      ensures r == ParseAll(registry, validator, segments)
    {
      ghost var results := SegmentResults(registry, validator, segments);
      var pairs := [];
      for i := 0 to |segments|
        invariant Collect(results[..i]) == Success(pairs)
      {
        var step := ParseSegment(registry, validator, segments[i]);
        assert results[..i + 1][..i] == results[..i] && results[..i + 1][i] == step;
        CollectStep(results[..i + 1]);
        if step.Failure? {
          ParseAllStopsEarly(results, i + 1);
          return Failure(step.error);
        }
        pairs := pairs + [step.value];
      }
      assert results[..|segments|] == results;
      r := Success(pairs);
    }

    /** `run(args)`: help on a help flag; otherwise split, parse and
        validate everything, and only then call the handlers in order. */
    method Run(args: seq<string>) returns (outcome: Outcome)
      ensures outcome == RunOutcome(registry, descriptions, commandNext, validator, args)
    {
      if HelpRequested(args) {
        var help := Help();
        return HelpExit(EXIT_HELP, help);
      }
      var segments := CommandLineCollector.SplitBySeparatorDroppingSeparator(args, IsEqual(commandNext));
      var parsed := ParseAndValidate(segments);
      if parsed.Failure? {
        var help := Help();
        return StopOutcome(parsed.error, help);
      }
      var calls := ExecuteAll(parsed.value);
      outcome := Executed(calls);
    }

    /** The `forEach` over the parsed pairs: each command's `execute`
        with its own options, in order. */
    static method ExecuteAll(pairs: seq<(Command, Option<Instance>)>) returns (calls: seq<HandlerCall>)
      ensures calls == Calls(pairs)
    {
      calls := [];
      for i := 0 to |pairs|
        invariant |calls| == i
        invariant forall j :: 0 <= j < i ==> calls[j] == Execute(pairs[j].0, pairs[j].1)
      {
        calls := calls + [Execute(pairs[i].0, pairs[i].1)];
      }
    }
  }
}
