/** A registered command: its name, the options class its handler takes,
    the help block it prints and the forwarding call that runs it. */
module Commands {
  import opened Wrappers
  import opened CommandOptions

  /** The header prefix: "Command:" followed by eight spaces. */
  const HEADER_PREFIX: string := "Command:        "
  const OPTIONS_HEADING: string := "\nOptions:\n"

  /** Causes of the unchecked exceptions help can raise. */
  const NO_DEFAULT_CONSTRUCTOR_CAUSE: string := "RuntimeException(NoSuchMethodException)"
  const NOT_COMMAND_OPTIONS_CAUSE: string := "ClassCastException"

  /** The options class a handler takes: `Void` for a command without
      options, otherwise a class described by its declared fields. */
  datatype OptionsType =
    | NoOptions
    | OptionsClass(simpleName: string, fields: Descriptor, hasNoArgConstructor: bool, implementsCommandOptions: bool)

  /** A command bean; `name` is the value of its command annotation. */
  datatype Command = Command(name: string, options: OptionsType)

  /** A handler invocation: the command whose `run` is called, with the
      options it receives (`None` is Java's null). */
  datatype HandlerCall = HandlerCall(handler: Command, options: Option<Instance>)

  function Header(cmd: Command): (r: string)
    ensures |r| == |HEADER_PREFIX| + |cmd.name|
    ensures r[..|HEADER_PREFIX|] == HEADER_PREFIX && r[|HEADER_PREFIX|..] == cmd.name
  {
    HEADER_PREFIX + cmd.name
  }

  /** `help()`: the header line, and for a command with an options class
      the options section, rendered from a fresh default instance. Every
      block starts with the header, and is the header alone exactly when
      the command takes no options. It throws only for an options class it
      cannot instantiate as command options. The options help depends on the
      descriptor only, never on bound values. */
  function Help(cmd: Command): (r: Result<string, string>)
    ensures r.Failure? <==> cmd.options.OptionsClass? && !(cmd.options.hasNoArgConstructor && cmd.options.implementsCommandOptions)
    ensures r.Failure? ==> (r.error == NO_DEFAULT_CONSTRUCTOR_CAUSE <==> !cmd.options.hasNoArgConstructor)
    ensures r.Success? ==>
      && |Header(cmd)| <= |r.value|
      && r.value[..|HEADER_PREFIX|] == HEADER_PREFIX
      && r.value[|HEADER_PREFIX|..|Header(cmd)|] == cmd.name
      && (r.value == Header(cmd) <==> cmd.options.NoOptions?)
    ensures r.Success? && cmd.options.OptionsClass? ==>
      r.value == Header(cmd) + OPTIONS_HEADING + HelpText(cmd.options.fields)
  {
    match cmd.options
    case NoOptions => Success(Header(cmd))
    case OptionsClass(_, fields, hasNoArgConstructor, implementsCommandOptions) =>
      if !hasNoArgConstructor then Failure(NO_DEFAULT_CONSTRUCTOR_CAUSE)
      else if !implementsCommandOptions then Failure(NOT_COMMAND_OPTIONS_CAUSE)
      else
        var h := Header(cmd);
        var v := h + OPTIONS_HEADING + HelpText(fields);
        assert v[..|h|] == h;
        assert v[..|HEADER_PREFIX|] == h[..|HEADER_PREFIX|];
        assert v[|HEADER_PREFIX|..|h|] == h[|HEADER_PREFIX|..];
        Success(v)
  }

  /** The number of line breaks in a help block: none in the header, two in
      the options heading, then one per line the options help prints. */
  lemma HelpLines(cmd: Command)
    requires Help(cmd).Success? && '\n' !in cmd.name
    requires cmd.options.OptionsClass? ==> SingleLineNames(cmd.options.fields)
    ensures NewlineCount(Help(cmd).value)
         == if cmd.options.NoOptions? then 0 else 2 + ExpectedLines(cmd.options.fields)
  {
    HeaderLines(cmd.name);
    if cmd.options.OptionsClass? {
      var fields := cmd.options.fields;
      assert Help(cmd).value == Header(cmd) + OPTIONS_HEADING + HelpText(fields);
      HeadedLines(Header(cmd), HelpText(fields));
      HelpLineCount(fields);
    }
  }

  /** The header holds no line break when the name holds none. */
  lemma HeaderLines(name: string)
    requires '\n' !in name
    ensures NewlineCount(HEADER_PREFIX + name) == 0
  {
    assert '\n' !in HEADER_PREFIX;
    NewlineCountNone(HEADER_PREFIX + name);
  }

  /** The options heading adds two line breaks between a header and the
      options help. */
  lemma HeadedLines(header: string, body: string)
    requires NewlineCount(header) == 0
    ensures NewlineCount(header + OPTIONS_HEADING + body) == 2 + NewlineCount(body)
  {
    NewlineCountAppend(header, OPTIONS_HEADING);
    NewlineCountAppend(header + OPTIONS_HEADING, body);
    assert NewlineCount(OPTIONS_HEADING) == 2;
  }

  /** `execute(options)`: the handler's `run` receives the options object
      unchanged. The cast to the options class cannot fail here, since the
      runner only passes what it bound for this very command. */
  function Execute(cmd: Command, options: Option<Instance>): (r: HandlerCall)
    ensures r.handler == cmd && r.options == options
  {
    HandlerCall(cmd, options)
  }
}
