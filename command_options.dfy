/** The options binder and the options help renderer.

    Java reflection over an options class is replaced by an explicit,
    ordered descriptor of its declared fields, and an options instance by a
    map from field name to the value the binder stored there; a field that
    is absent from the map still holds the value its class's no-argument
    constructor gave it. */
module CommandOptions {
  import opened Wrappers
  import CommandLineCollector

  /** The short flag prefix. */
  const FLAG: string := "-"
  /** The long flag prefix. */
  const VERBOSE_FLAG: string := "--"
  /** The indent in front of every top-level help line (16 spaces). */
  const HELP_INDENT: string := "                "

  const UNKNOWN_OPTION_PREFIX: string := "Unknown option "
  const UNKNOWN_OPTION_SUFFIX: string := " passed in"
  const CANNOT_INITIALIZE: string := "Could not initialize options object"
  const CANNOT_ASSIGN: string := "Could not assign field"

  /** Causes of the unchecked exceptions that escape the binder. */
  const INDEX_OUT_OF_BOUNDS: string := "IndexOutOfBoundsException"
  const ILLEGAL_ARGUMENT: string := "IllegalArgumentException"
  const STRING_INTERNALS: string := "reflective access to the fields of java.lang.String"

  // ---------------------------------------------------------------------
  // Descriptor and instance model
  // ---------------------------------------------------------------------

  /** The declared type of a field. `primitive` tells `int` from `Integer`
      and `boolean` from `Boolean`; any other class is an ObjectType with
      its own declared fields and whether it has a public no-argument
      constructor. */
  datatype Kind =
    | StringType
    | IntegerType(primitive: bool)
    | BooleanType(primitive: bool)
    | ObjectType(simpleName: string, fields: seq<FieldSpec>, hasNoArgConstructor: bool)

  /** A declared field, in declaration order. `flag` is the value of its
      `@Flag` annotation; `required` says it carries `@NotNull`, `@NotEmpty`
      or `@NotBlank`; `declaredPublic` says the field is declared `public`;
      `writableWithoutForce` says reflection can set it without first making
      it accessible (a public, non-final field of a public class). */
  datatype FieldSpec = FieldSpec(
    name: string,
    kind: Kind,
    flag: Option<string>,
    required: bool,
    staticFinal: bool,
    declaredPublic: bool,
    writableWithoutForce: bool)

  type Descriptor = seq<FieldSpec>

  datatype Value = Text(text: string) | Switch(on: bool) | Nested(fields: map<string, Value>)

  type Instance = map<string, Value>

  /** `InvalidOptions` is `InvalidOptionsException`, the error the runner
      catches; `RuntimeFailure` stands for any other exception, which
      nobody catches. */
  datatype BindError = InvalidOptions(message: string) | RuntimeFailure(cause: string)

  predicate DistinctNames(desc: Descriptor)
  {
    forall i, j :: 0 <= i < j < |desc| ==> desc[i].name != desc[j].name
  }

  /** The classes SUPPORTED_TYPES is keyed by. */
  datatype JavaClass = StringClass | IntegerClass | IntClass | BooleanClass | BooleanPrimitiveClass

  /** The converters SUPPORTED_TYPES maps to: `string -> string`,
      `Integer::parseInt` and `Boolean::parseBoolean`. */
  datatype Converter = Identity | ParseInt | ParseBoolean

  const SUPPORTED_TYPES: map<JavaClass, Converter> := map[
    StringClass := Identity,
    IntegerClass := ParseInt,
    IntClass := ParseInt,
    BooleanClass := ParseBoolean,
    BooleanPrimitiveClass := ParseBoolean]

  /** The class object of a field's declared type, when it is one of the
      five SUPPORTED_TYPES can name. */
  function TypeClass(kind: Kind): Option<JavaClass>
  {
    match kind
    case StringType => Some(StringClass)
    case IntegerType(primitive) => Some(if primitive then IntClass else IntegerClass)
    case BooleanType(primitive) => Some(if primitive then BooleanPrimitiveClass else BooleanClass)
    case ObjectType(_, _, _) => None
  }

  /** `SUPPORTED_TYPES.containsKey(field.getType())` */
  predicate Supported(kind: Kind)
  {
    TypeClass(kind).Some? && TypeClass(kind).value in SUPPORTED_TYPES
  }

  /** Only the options-class and nested-class types lack a converter. */
  lemma SupportedIffNotObject(kind: Kind)
    ensures Supported(kind) <==> !kind.ObjectType?
  {
  }

  /** The simple name of a field's type, as help prints it. */
  function SimpleName(kind: Kind): string
  {
    match kind
    case StringType => "String"
    case IntegerType(primitive) => if primitive then "int" else "Integer"
    case BooleanType(primitive) => if primitive then "boolean" else "Boolean"
    case ObjectType(name, _, _) => name
  }

  /** `arg.getClass()`: a command-line token is always a String. */
  function TokenClass(token: string): JavaClass
  {
    StringClass
  }

  /** `SUPPORTED_TYPES.get(arg.getClass()).apply(arg)`: the converter is
      chosen by the class of the token, not of the field, so it is always
      the identity and the stored value is the token's raw text. */
  function ConvertArg(token: string): (v: Value)
    ensures v == Text(token)
  {
    match SUPPORTED_TYPES[TokenClass(token)]
    case Identity => Text(token)
    case ParseInt => assert false; Text(token)
    case ParseBoolean => assert false; Text(token)
  }

  // ---------------------------------------------------------------------
  // Flags
  // ---------------------------------------------------------------------

  predicate StartsWith(s: string, prefix: string)
  {
    |prefix| <= |s| && s[..|prefix|] == prefix
  }

  /** A token opens a flag span when it starts with FLAG or VERBOSE_FLAG. */
  predicate IsFlag(token: string)
  {
    StartsWith(token, FLAG) || StartsWith(token, VERBOSE_FLAG)
  }

  /** Java's `String.replace(pattern, "")`: every non-overlapping
      occurrence of `pattern`, scanning left to right, is removed. */
  function RemoveAll(s: string, pattern: string): string
    requires |pattern| > 0
    decreases |s|
  {
    if |s| < |pattern| then s
    else if s[..|pattern|] == pattern then RemoveAll(s[|pattern|..], pattern)
    else [s[0]] + RemoveAll(s[1..], pattern)
  }

  /** Java's `Character.isWhitespace`: the space separators other than the
      non-breaking ones, the line and paragraph separators, and the control
      characters TAB to CR and FS to US. */
  predicate IsWhitespace(c: char)
  {
    || c == ' ' || ('\t' <= c <= '\r') || ('\U{1C}' <= c <= '\U{1F}')
    || c == '\U{1680}' || ('\U{2000}' <= c <= '\U{200A}' && c != '\U{2007}')
    || c == '\U{2028}' || c == '\U{2029}' || c == '\U{205F}' || c == '\U{3000}'
  }

  /** `StringUtils.isBlank`: empty or whitespace only. */
  predicate IsBlank(s: string)
  {
    forall i :: 0 <= i < |s| ==> IsWhitespace(s[i])
  }

  /** The field identifier a flag token names. */
  function FlagIdentifier(token: string): string
  {
    RemoveAll(RemoveAll(token, FLAG), VERBOSE_FLAG)
  }

  /** `s` with every '-' character taken out. */
  function WithoutDashes(s: string): (r: string)
    ensures '-' !in r
  {
    if s == [] then [] else (if s[0] == '-' then [] else [s[0]]) + WithoutDashes(s[1..])
  }

  /** The VERBOSE_FLAG test is subsumed: a token is a flag exactly when it
      starts with '-'. */
  lemma IsFlagIffLeadingDash(token: string)
    ensures IsFlag(token) <==> |token| > 0 && token[0] == '-'
  {
    if |token| > 0 && token[0] == '-' {
      assert token[..1] == FLAG;
    }
  }

  lemma {:induction false} RemoveDashIsWithoutDashes(s: string)
    ensures RemoveAll(s, FLAG) == WithoutDashes(s)
    decreases |s|
  {
    if s != [] {
      RemoveDashIsWithoutDashes(s[1..]);
      assert s[..1] == FLAG <==> s[0] == '-';
    }
  }

  lemma {:induction false} RemoveAllWithoutDash(s: string)
    requires '-' !in s
    ensures RemoveAll(s, VERBOSE_FLAG) == s
    decreases |s|
  {
    if |s| >= 2 {
      assert s[..2] != VERBOSE_FLAG by { assert s[0] in s; }
      assert '-' !in s[1..] by {
        forall c | c in s[1..] ensures c in s { }
      }
      RemoveAllWithoutDash(s[1..]);
      assert [s[0]] + s[1..] == s;
    }
  }

  /** The identifier of a flag token is the token with every '-' removed,
      wherever it stands: `--dry-run` names `dryrun`. */
  lemma FlagIdentifierDropsEveryDash(token: string)
    ensures FlagIdentifier(token) == WithoutDashes(token)
  {
    RemoveDashIsWithoutDashes(token);
    RemoveAllWithoutDash(WithoutDashes(token));
  }

  // ---------------------------------------------------------------------
  // Resolving a flag to a field
  // ---------------------------------------------------------------------

  /** The first declared field named `id`. */
  function FindByName(desc: Descriptor, id: string): (r: Option<nat>)
    ensures r.Some? ==> r.value < |desc| && desc[r.value].name == id
    ensures r.Some? ==> forall j :: 0 <= j < r.value ==> desc[j].name != id
    ensures r.None? ==> forall j :: 0 <= j < |desc| ==> desc[j].name != id
  {
    if desc == [] then None
    else if desc[0].name == id then Some(0)
    else match FindByName(desc[1..], id)
      case None => None
      case Some(i) => Some(i + 1)
  }

  /** The first declared field whose `@Flag` value is `id`. */
  function FindByAlias(desc: Descriptor, id: string): (r: Option<nat>)
    ensures r.Some? ==> r.value < |desc| && desc[r.value].flag == Some(id)
    ensures r.Some? ==> forall j :: 0 <= j < r.value ==> desc[j].flag != Some(id)
    ensures r.None? ==> forall j :: 0 <= j < |desc| ==> desc[j].flag != Some(id)
  {
    if desc == [] then None
    else if desc[0].flag == Some(id) then Some(0)
    else match FindByAlias(desc[1..], id)
      case None => None
      case Some(i) => Some(i + 1)
  }

  datatype Resolved = Resolved(index: nat, field: FieldSpec, viaAlias: bool)

  /** A flag resolves first to the field with that exact name, else to the
      first field whose alias equals it. */
  function Resolve(desc: Descriptor, id: string): (r: Option<Resolved>)
    ensures r.None? <==> forall j :: 0 <= j < |desc| ==> desc[j].name != id && desc[j].flag != Some(id)
    ensures r.Some? ==> r.value.index < |desc| && desc[r.value.index] == r.value.field
    ensures r.Some? && !r.value.viaAlias ==>
      && r.value.field.name == id
      && forall j :: 0 <= j < r.value.index ==> desc[j].name != id
    ensures r.Some? && r.value.viaAlias ==>
      && r.value.field.flag == Some(id)
      && (forall j :: 0 <= j < |desc| ==> desc[j].name != id)
      && (forall j :: 0 <= j < r.value.index ==> desc[j].flag != Some(id))
  {
    match FindByName(desc, id)
    case Some(i) => Some(Resolved(i, desc[i], false))
    case None =>
      match FindByAlias(desc, id)
      case Some(i) => Some(Resolved(i, desc[i], true))
      case None => None
  }

  /** `getDeclaredField(cls, name, true)` makes a field accessible only
      when it is not public; a field found through its alias is never made
      accessible. */
  predicate ForcedAccess(target: Resolved)
  {
    !target.viaAlias && !target.field.declaredPublic
  }

  /** `Field.set` succeeds when the field is not static final and either
      access was forced or the field is writable without force. */
  predicate Assignable(target: Resolved)
  {
    !target.field.staticFinal && (ForcedAccess(target) || target.field.writableWithoutForce)
  }

  /** `assignObjectField`: the named field takes the value and every other
      field keeps its own; an `IllegalAccessException` from `Field.set`
      becomes "Could not assign field". */
  function AssignField(inst: Instance, target: Resolved, v: Value): (r: Result<Instance, BindError>)
    ensures r.Success? <==> Assignable(target)
    ensures r.Failure? ==> r.error == InvalidOptions(CANNOT_ASSIGN)
    ensures r.Success? ==>
      && r.value.Keys == inst.Keys + {target.field.name}
      && r.value[target.field.name] == v
      && forall k :: k in inst && k != target.field.name ==> r.value[k] == inst[k]
  {
    if target.field.staticFinal then Failure(InvalidOptions(CANNOT_ASSIGN))
    else if !target.viaAlias && !target.field.declaredPublic then Success(inst[target.field.name := v])
    else if target.field.writableWithoutForce then Success(inst[target.field.name := v])
    else Failure(InvalidOptions(CANNOT_ASSIGN))
  }

  /** Assigning a field twice keeps only the second value. */
  lemma AssignFieldLastWins(inst: Instance, target: Resolved, v: Value, w: Value)
    requires Assignable(target)
    ensures AssignField(AssignField(inst, target, v).value, target, w) == AssignField(inst, target, w)
  {
    var name := target.field.name;
    assert AssignField(inst, target, v) == Success(inst[name := v]);
    assert AssignField(inst[name := v], target, w) == Success(inst[name := v][name := w]);
    assert inst[name := v][name := w] == inst[name := w];
  }

  // ---------------------------------------------------------------------
  // Positional binding (applyArgsToFields)
  // ---------------------------------------------------------------------

  /** A field receives positional tokens when it is not static final and
      its type is a supported one other than boolean/Boolean. */
  predicate PositionallyBindable(f: FieldSpec)
  {
    !f.staticFinal && Supported(f.kind) && !f.kind.BooleanType?
  }

  /** The positionally bindable fields, in declaration order. */
  function Eligible(desc: Descriptor): (r: Descriptor)
    ensures |r| <= |desc|
    ensures forall i :: 0 <= i < |r| ==> PositionallyBindable(r[i])
  {
    if desc == [] then []
    else (if PositionallyBindable(desc[0]) then [desc[0]] else []) + Eligible(desc[1..])
  }

  /** Exactly the positionally bindable declared fields are eligible. */
  lemma {:induction false} EligibleMembers(desc: Descriptor)
    ensures forall f :: f in Eligible(desc) <==> f in desc && PositionallyBindable(f)
    decreases |desc|
  {
    if desc != [] {
      EligibleMembers(desc[1..]);
      assert forall f :: f in desc <==> f == desc[0] || f in desc[1..];
    }
  }

  /** Filtering keeps declaration order: the eligible fields of two runs
      of fields are those of the first run, then those of the second. */
  lemma {:induction false} EligibleAppend(a: Descriptor, b: Descriptor)
    ensures Eligible(a + b) == Eligible(a) + Eligible(b)
    decreases |a|
  {
    if a != [] {
      var head := if PositionallyBindable(a[0]) then [a[0]] else [];
      assert (a + b)[0] == a[0] && (a + b)[1..] == a[1..] + b;
      assert Eligible(a + b) == head + Eligible(a[1..] + b);
      assert Eligible(a) == head + Eligible(a[1..]);
      EligibleAppend(a[1..], b);
      assert head + (Eligible(a[1..]) + Eligible(b)) == (head + Eligible(a[1..])) + Eligible(b);
    } else {
      assert a + b == b;
    }
  }

  /** The i-th token goes to the i-th field; tokens beyond the last field
      are ignored. Every stored value is raw text, so reaching an Integer
      or int field makes the reflective set throw. */
  function AssignPositional(fields: Descriptor, args: seq<string>, inst: Instance): Result<Instance, BindError>
    decreases |args|
  {
    if fields == [] || args == [] then Success(inst)
    else if fields[0].kind.IntegerType? then Failure(RuntimeFailure(ILLEGAL_ARGUMENT))
    else AssignPositional(fields[1..], args[1..], inst[fields[0].name := ConvertArg(args[0])])
  }

  function Min(a: nat, b: nat): nat
  {
    if a <= b then a else b
  }

  /** Positional binding ends once either the fields or the tokens run
      out. */
  lemma PositionalDone(fields: Descriptor, args: seq<string>, inst: Instance)
    requires fields == [] || args == []
    ensures AssignPositional(fields, args, inst) == Success(inst)
  {
  }

  /** One positional step: the i-th token into the i-th field, or the
      failure an integer field raises. */
  lemma PositionalStep(fields: Descriptor, args: seq<string>, i: nat, inst: Instance)
    requires i < |fields| && i < |args|
    ensures fields[i].kind.IntegerType? ==>
      AssignPositional(fields[i..], args[i..], inst) == Failure(RuntimeFailure(ILLEGAL_ARGUMENT))
    ensures !fields[i].kind.IntegerType? ==>
      AssignPositional(fields[i..], args[i..], inst)
        == AssignPositional(fields[i + 1..], args[i + 1..], inst[fields[i].name := ConvertArg(args[i])])
  {
    assert fields[i..][0] == fields[i] && args[i..][0] == args[i];
    assert fields[i..][1..] == fields[i + 1..];
    assert args[i..][1..] == args[i + 1..];
  }

  /** The names of the fields of `desc`. */
  function Names(desc: Descriptor): (r: set<string>)
    ensures forall i :: 0 <= i < |desc| ==> desc[i].name in r
    ensures forall x :: x in r ==> exists i :: 0 <= i < |desc| && desc[i].name == x
  {
    if desc == [] then {} else {desc[0].name} + Names(desc[1..])
  }

  lemma NamesOfPrefix(fields: Descriptor, n: nat)
    requires 0 < n <= |fields|
    ensures Names(fields[..n]) == {fields[0].name} + Names(fields[1..][..n - 1])
  {
    assert fields[..n][1..] == fields[1..][..n - 1];
  }

  /** Positional binding fails exactly when one of the fields that receive
      a token is an Integer or int field. */
  lemma {:induction false} AssignPositionalFailsOnInteger(fields: Descriptor, args: seq<string>, inst: Instance)
    ensures AssignPositional(fields, args, inst).Failure?
        <==> exists j :: 0 <= j < Min(|fields|, |args|) && fields[j].kind.IntegerType?
    ensures AssignPositional(fields, args, inst).Failure? ==>
      AssignPositional(fields, args, inst).error == RuntimeFailure(ILLEGAL_ARGUMENT)
    decreases |args|
  {
    if fields != [] && args != [] && !fields[0].kind.IntegerType? {
      var n := Min(|fields|, |args|);
      AssignPositionalFailsOnInteger(fields[1..], args[1..], inst[fields[0].name := Text(args[0])]);
      if exists j :: 0 <= j < n && fields[j].kind.IntegerType? {
        var j :| 0 <= j < n && fields[j].kind.IntegerType?;
        assert j > 0 && fields[1..][j - 1].kind.IntegerType?;
      }
      if exists j :: 0 <= j < n - 1 && fields[1..][j].kind.IntegerType? {
        var j :| 0 <= j < n - 1 && fields[1..][j].kind.IntegerType?;
        assert fields[j + 1].kind.IntegerType?;
      }
    }
  }

  /** A successful positional binding adds exactly the names of the fields
      that received a token. */
  lemma {:induction false} AssignPositionalKeys(fields: Descriptor, args: seq<string>, inst: Instance)
    requires AssignPositional(fields, args, inst).Success?
    ensures AssignPositional(fields, args, inst).value.Keys == inst.Keys + Names(fields[..Min(|fields|, |args|)])
    decreases |args|
  {
    var n := Min(|fields|, |args|);
    if fields != [] && args != [] {
      var inst' := inst[fields[0].name := Text(args[0])];
      assert AssignPositional(fields, args, inst) == AssignPositional(fields[1..], args[1..], inst');
      assert Min(|fields[1..]|, |args[1..]|) == n - 1;
      AssignPositionalKeys(fields[1..], args[1..], inst');
      NamesOfPrefix(fields, n);
      assert inst'.Keys == inst.Keys + {fields[0].name};
    } else {
      assert fields[..n] == [];
    }
  }

  /** A successful positional binding leaves every field that received no
      token as it was. */
  lemma {:induction false} AssignPositionalKeepsOthers(fields: Descriptor, args: seq<string>, inst: Instance, k: string)
    requires AssignPositional(fields, args, inst).Success?
    requires k in inst && k !in Names(fields[..Min(|fields|, |args|)])
    ensures k in AssignPositional(fields, args, inst).value
    ensures AssignPositional(fields, args, inst).value[k] == inst[k]
    decreases |args|
  {
    var n := Min(|fields|, |args|);
    if fields != [] && args != [] {
      var inst' := inst[fields[0].name := Text(args[0])];
      assert AssignPositional(fields, args, inst) == AssignPositional(fields[1..], args[1..], inst');
      assert Min(|fields[1..]|, |args[1..]|) == n - 1;
      NamesOfPrefix(fields, n);
      assert k != fields[0].name && k !in Names(fields[1..][..n - 1]);
      AssignPositionalKeepsOthers(fields[1..], args[1..], inst', k);
    }
  }

  /** A successful positional binding stores the i-th token, as raw text,
      in the i-th field. */
  lemma {:induction false} AssignPositionalStoresInOrder(fields: Descriptor, args: seq<string>, inst: Instance, i: nat)
    requires DistinctNames(fields)
    requires AssignPositional(fields, args, inst).Success?
    requires i < Min(|fields|, |args|)
    ensures fields[i].name in AssignPositional(fields, args, inst).value
    ensures AssignPositional(fields, args, inst).value[fields[i].name] == Text(args[i])
    decreases |args|
  {
    var n := Min(|fields|, |args|);
    var inst' := inst[fields[0].name := Text(args[0])];
    assert DistinctNames(fields[1..]);
    if i == 0 {
      var rest := fields[1..][..n - 1];
      forall x | x in Names(rest) ensures x != fields[0].name {
        var j :| 0 <= j < |rest| && rest[j].name == x;
        assert rest[j] == fields[j + 1];
      }
      AssignPositionalKeepsOthers(fields[1..], args[1..], inst', fields[0].name);
    } else {
      AssignPositionalStoresInOrder(fields[1..], args[1..], inst', i - 1);
    }
  }

  /** Tokens beyond the number of fields never matter. */
  lemma {:induction false} SurplusTokensIgnored(fields: Descriptor, args: seq<string>, inst: Instance)
    ensures AssignPositional(fields, args, inst) == AssignPositional(fields, args[..Min(|fields|, |args|)], inst)
    decreases |args|
  {
    if fields != [] && args != [] && !fields[0].kind.IntegerType? {
      var n := Min(|fields|, |args|);
      SurplusTokensIgnored(fields[1..], args[1..], inst[fields[0].name := Text(args[0])]);
      assert args[..n][1..] == args[1..][..n - 1];
      assert args[..n][0] == args[0];
    }
  }

  // ---------------------------------------------------------------------
  // Binding flag spans (parseArgsToOptions)
  // ---------------------------------------------------------------------

  /** The value a non-boolean flagged field receives: a freshly constructed
      instance of its type, positionally filled from the span's tail. */
  function NewFlagValue(kind: Kind, tail: seq<string>): (r: Result<Value, BindError>)
    requires !kind.BooleanType?
    ensures kind.IntegerType? ==> r == Failure(InvalidOptions(CANNOT_INITIALIZE))
    ensures kind.ObjectType? && !kind.hasNoArgConstructor ==> r == Failure(InvalidOptions(CANNOT_INITIALIZE))
    ensures r.Success? ==> r.value.Text? || r.value.Nested?
  {
    match kind
    case StringType =>
      // `new String()` is "", but filling it reflects into String's own fields
      if tail == [] then Success(Text("")) else Failure(RuntimeFailure(STRING_INTERNALS))
    case IntegerType(_) =>
      Failure(InvalidOptions(CANNOT_INITIALIZE))
    case ObjectType(_, nested, hasNoArgConstructor) =>
      if !hasNoArgConstructor then Failure(InvalidOptions(CANNOT_INITIALIZE))
      else
        match AssignPositional(Eligible(nested), tail, map[])
        case Success(m) => Success(Nested(m))
        case Failure(e) => Failure(e)
  }

  /** One group of the flag-split arguments, bound onto `inst`; the second
      component is what the group hands back to the positional stream. */
  function BindSpan(desc: Descriptor, span: seq<string>, inst: Instance): Result<(Instance, seq<string>), BindError>
  {
    if span == [] then Failure(RuntimeFailure(INDEX_OUT_OF_BOUNDS))
    else if !IsFlag(span[0]) then Success((inst, span))
    else
      var id := FlagIdentifier(span[0]);
      // `getDeclaredField` rejects a blank name before any lookup
      if IsBlank(id) then Failure(RuntimeFailure(ILLEGAL_ARGUMENT))
      else match Resolve(desc, id)
      case None => Failure(InvalidOptions(UNKNOWN_OPTION_PREFIX + id + UNKNOWN_OPTION_SUFFIX))
      case Some(target) =>
        var tail := span[1..];
        if target.field.kind.BooleanType? then
          var inst' :- AssignField(inst, target, Switch(true));
          Success((inst', tail))
        else
          var v :- NewFlagValue(target.field.kind, tail);
          var inst' :- AssignField(inst, target, v);
          // applyArgsToFields never reports leftovers
          Success((inst', []))
  }

  /** The spans bound in order; the first failure ends the binding. */
  function BindSpans(desc: Descriptor, spans: seq<seq<string>>, inst: Instance, topLevel: seq<string>): Result<(Instance, seq<string>), BindError>
    decreases |spans|
  {
    if spans == [] then Success((inst, topLevel))
    else
      var step :- BindSpan(desc, spans[0], inst);
      BindSpans(desc, spans[1..], step.0, topLevel + step.1)
  }

  /** `parseArgsToOptions`: split on flags keeping the flag, bind every
      span, then bind the collected plain tokens positionally. */
  function ParseArgs(desc: Descriptor, args: seq<string>, inst: Instance): Result<Instance, BindError>
  {
    var bound :- BindSpans(desc, CommandLineCollector.Split(args, IsFlag, true), inst, []);
    AssignPositional(Eligible(desc), bound.1, bound.0)
  }

  /** The flag token `t` has a non-blank identifier that names a declared
      field or alias. */
  predicate KnownFlag(desc: Descriptor, t: string)
  {
    !IsBlank(FlagIdentifier(t)) && Resolve(desc, FlagIdentifier(t)).Some?
  }

  lemma {:induction false} BindSpansFailsOnUnknownHead(desc: Descriptor, spans: seq<seq<string>>, inst: Instance, topLevel: seq<string>)
    requires BindSpans(desc, spans, inst, topLevel).Success?
    ensures forall k :: 0 <= k < |spans| ==> |spans[k]| > 0 && (IsFlag(spans[k][0]) ==> KnownFlag(desc, spans[k][0]))
    decreases |spans|
  {
    if spans != [] {
      var step := BindSpan(desc, spans[0], inst).value;
      BindSpansFailsOnUnknownHead(desc, spans[1..], step.0, topLevel + step.1);
      forall k | 0 < k < |spans| ensures |spans[k]| > 0 && (IsFlag(spans[k][0]) ==> KnownFlag(desc, spans[k][0])) {
        assert spans[k] == spans[1..][k - 1];
      }
    }
  }

  /** Binding succeeds only when every flag token among the arguments has a
      non-blank identifier naming a declared field or alias: an unknown or
      blank flag is never silently skipped. */
  lemma UnknownFlagNeverBinds(desc: Descriptor, args: seq<string>, inst: Instance, t: string)
    requires t in args && IsFlag(t) && !KnownFlag(desc, t)
    ensures ParseArgs(desc, args, inst).Failure?
  {
    var spans := CommandLineCollector.Split(args, IsFlag, true);
    if BindSpans(desc, spans, inst, []).Success? {
      BindSpansFailsOnUnknownHead(desc, spans, inst, []);
      CommandLineCollector.SeparatorHeadsAGroup(args, IsFlag, t);
    }
  }

  /** The first group is read before it is checked: with no arguments, or
      with a flag first, it is empty and the read throws. */
  lemma EmptyOrLeadingFlagFails(desc: Descriptor, args: seq<string>, inst: Instance)
    requires args == [] || IsFlag(args[0])
    ensures ParseArgs(desc, args, inst) == Failure(RuntimeFailure(INDEX_OUT_OF_BOUNDS))
  {
    if args != [] {
      CommandLineCollector.LeadingSeparatorLeavesFirstGroupEmpty(args, IsFlag, true);
    }
  }

  /** Arguments without any flag are bound positionally onto the instance. */
  lemma PlainArgsBindPositionally(desc: Descriptor, args: seq<string>, inst: Instance)
    requires args != [] && forall j :: 0 <= j < |args| ==> !IsFlag(args[j])
    ensures ParseArgs(desc, args, inst) == AssignPositional(Eligible(desc), args, inst)
  {
    CommandLineCollector.SplitWithoutSeparators(args, IsFlag, true);
    assert BindSpan(desc, args, inst) == Success((inst, args));
    assert [args][1..] == [];
    assert BindSpans(desc, [args], inst, []) == Success((inst, [] + args));
    assert [] + args == args;
  }

  /** Two spans, the first of them plain: the plain span passes through,
      and the second span decides the rest. */
  lemma BindPlainThenSpan(desc: Descriptor, plain: seq<string>, span: seq<string>, inst: Instance)
    requires plain != [] && !IsFlag(plain[0])
    ensures BindSpans(desc, [plain, span], inst, [])
         == if BindSpan(desc, span, inst).Failure? then Failure(BindSpan(desc, span, inst).error)
            else Success((BindSpan(desc, span, inst).value.0, plain + BindSpan(desc, span, inst).value.1))
  {
    var spans := [plain, span];
    assert BindSpan(desc, plain, inst) == Success((inst, plain));
    assert spans[1..] == [span] && spans[1..][1..] == [];
    var r := BindSpan(desc, span, inst);
    if r.Failure? {
      assert BindSpans(desc, spans[1..], inst, plain) == Failure(r.error);
    } else {
      var step := r.value;
      assert BindSpans(desc, spans[1..][1..], step.0, plain + step.1) == Success((step.0, plain + step.1));
      assert BindSpans(desc, spans[1..], inst, plain) == Success((step.0, plain + step.1));
      assert [] + plain == plain;
      assert BindSpans(desc, spans, inst, []) == BindSpans(desc, spans[1..], inst, [] + plain);
    }
  }

  /** Plain tokens followed by one flag span: the plain tokens pass
      through, and the flag span decides the rest. */
  lemma PlainThenFlagSpan(desc: Descriptor, plain: seq<string>, flag: string, tail: seq<string>, inst: Instance)
    requires plain != [] && IsFlag(flag)
    requires forall j :: 0 <= j < |plain| ==> !IsFlag(plain[j])
    requires forall j :: 0 <= j < |tail| ==> !IsFlag(tail[j])
    ensures ParseArgs(desc, plain + [flag] + tail, inst)
         == if BindSpan(desc, [flag] + tail, inst).Failure? then Failure(BindSpan(desc, [flag] + tail, inst).error)
            else AssignPositional(Eligible(desc), plain + BindSpan(desc, [flag] + tail, inst).value.1, BindSpan(desc, [flag] + tail, inst).value.0)
  {
    CommandLineCollector.SplitAtOneSeparator(plain, flag, tail, IsFlag);
    BindPlainThenSpan(desc, plain, [flag] + tail, inst);
  }

  /** A flag whose identifier is blank (`-`, `--`) is rejected by the field
      lookup itself with an uncaught `IllegalArgumentException`. */
  lemma BlankFlagCrashes(desc: Descriptor, plain: seq<string>, flag: string, tail: seq<string>, inst: Instance)
    requires plain != [] && IsFlag(flag) && IsBlank(FlagIdentifier(flag))
    requires forall j :: 0 <= j < |plain| ==> !IsFlag(plain[j])
    requires forall j :: 0 <= j < |tail| ==> !IsFlag(tail[j])
    ensures ParseArgs(desc, plain + [flag] + tail, inst) == Failure(RuntimeFailure(ILLEGAL_ARGUMENT))
  {
    assert ([flag] + tail)[0] == flag;
    PlainThenFlagSpan(desc, plain, flag, tail, inst);
  }

  /** A flag with a non-blank identifier that names neither a field nor an
      alias stops the binding with "Unknown option <identifier> passed in". */
  lemma UnknownFlagMessage(desc: Descriptor, plain: seq<string>, flag: string, tail: seq<string>, inst: Instance)
    requires plain != [] && IsFlag(flag) && !IsBlank(FlagIdentifier(flag)) && Resolve(desc, FlagIdentifier(flag)).None?
    requires forall j :: 0 <= j < |plain| ==> !IsFlag(plain[j])
    requires forall j :: 0 <= j < |tail| ==> !IsFlag(tail[j])
    ensures ParseArgs(desc, plain + [flag] + tail, inst)
         == Failure(InvalidOptions(UNKNOWN_OPTION_PREFIX + FlagIdentifier(flag) + UNKNOWN_OPTION_SUFFIX))
  {
    assert ([flag] + tail)[0] == flag;
    PlainThenFlagSpan(desc, plain, flag, tail, inst);
  }

  /** The spans bind one after the other: when the spans before span `k`
      bind and span `k` does not, span `k`'s error is the result and no
      later span is looked at. */
  lemma {:induction false} BindSpansFirstFailure(desc: Descriptor, spans: seq<seq<string>>, inst: Instance, topLevel: seq<string>, k: nat)
    requires k < |spans|
    requires BindSpans(desc, spans[..k], inst, topLevel).Success?
    requires BindSpan(desc, spans[k], BindSpans(desc, spans[..k], inst, topLevel).value.0).Failure?
    ensures BindSpans(desc, spans, inst, topLevel)
         == Failure(BindSpan(desc, spans[k], BindSpans(desc, spans[..k], inst, topLevel).value.0).error)
    decreases k
  {
    if k == 0 {
      assert spans[..0] == [];
    } else {
      assert spans[..k][0] == spans[0] && spans[..k][1..] == spans[1..][..k - 1];
      var step := BindSpan(desc, spans[0], inst).value;
      assert BindSpans(desc, spans[..k], inst, topLevel) == BindSpans(desc, spans[1..][..k - 1], step.0, topLevel + step.1);
      BindSpansFirstFailure(desc, spans[1..], step.0, topLevel + step.1, k - 1);
    }
  }

  /** Wherever it stands, the first flag that names neither a field nor an
      alias stops parsing with "Unknown option <identifier> passed in",
      provided the flags before it bind. */
  lemma UnknownFlagStopsParsing(desc: Descriptor, args: seq<string>, inst: Instance, k: nat)
    requires var spans := CommandLineCollector.Split(args, IsFlag, true);
      && k < |spans| && spans[k] != [] && IsFlag(spans[k][0])
      && !IsBlank(FlagIdentifier(spans[k][0])) && Resolve(desc, FlagIdentifier(spans[k][0])).None?
      && BindSpans(desc, spans[..k], inst, []).Success?
    ensures ParseArgs(desc, args, inst) == Failure(InvalidOptions(
      UNKNOWN_OPTION_PREFIX + FlagIdentifier(CommandLineCollector.Split(args, IsFlag, true)[k][0]) + UNKNOWN_OPTION_SUFFIX))
  {
    var spans := CommandLineCollector.Split(args, IsFlag, true);
    var before := BindSpans(desc, spans[..k], inst, []).value.0;
    assert BindSpan(desc, spans[k], before)
        == Failure(InvalidOptions(UNKNOWN_OPTION_PREFIX + FlagIdentifier(spans[k][0]) + UNKNOWN_OPTION_SUFFIX));
    BindSpansFirstFailure(desc, spans, inst, [], k);
  }

  /** Wherever it stands, the first flag with a blank identifier ends
      parsing with the `IllegalArgumentException` of the field lookup,
      provided the flags before it bind. */
  lemma BlankFlagStopsParsing(desc: Descriptor, args: seq<string>, inst: Instance, k: nat)
    requires var spans := CommandLineCollector.Split(args, IsFlag, true);
      && k < |spans| && spans[k] != [] && IsFlag(spans[k][0]) && IsBlank(FlagIdentifier(spans[k][0]))
      && BindSpans(desc, spans[..k], inst, []).Success?
    ensures ParseArgs(desc, args, inst) == Failure(RuntimeFailure(ILLEGAL_ARGUMENT))
  {
    var spans := CommandLineCollector.Split(args, IsFlag, true);
    var before := BindSpans(desc, spans[..k], inst, []).value.0;
    assert BindSpan(desc, spans[k], before) == Failure(RuntimeFailure(ILLEGAL_ARGUMENT));
    BindSpansFirstFailure(desc, spans, inst, [], k);
  }

  /** A flag naming a boolean field sets it to true and hands every token of
      its span back to the positional stream, after the leading tokens. */
  lemma SwitchFlagReturnsItsTail(desc: Descriptor, plain: seq<string>, flag: string, tail: seq<string>, inst: Instance)
    requires plain != [] && IsFlag(flag)
    requires forall j :: 0 <= j < |plain| ==> !IsFlag(plain[j])
    requires forall j :: 0 <= j < |tail| ==> !IsFlag(tail[j])
    requires !IsBlank(FlagIdentifier(flag)) && Resolve(desc, FlagIdentifier(flag)).Some?
    requires Resolve(desc, FlagIdentifier(flag)).value.field.kind.BooleanType?
    requires Assignable(Resolve(desc, FlagIdentifier(flag)).value)
    ensures ParseArgs(desc, plain + [flag] + tail, inst)
         == AssignPositional(Eligible(desc), plain + tail, inst[Resolve(desc, FlagIdentifier(flag)).value.field.name := Switch(true)])
  {
    var target := Resolve(desc, FlagIdentifier(flag)).value;
    assert ([flag] + tail)[0] == flag && ([flag] + tail)[1..] == tail;
    assert BindSpan(desc, [flag] + tail, inst) == Success((inst[target.field.name := Switch(true)], tail));
    PlainThenFlagSpan(desc, plain, flag, tail, inst);
  }

  /** A flag naming a class-typed field gets a fresh instance filled from its
      span's tail; none of the tail reaches the positional stream, so the
      tokens the nested class has no field for are dropped. */
  lemma ObjectFlagKeepsItsTail(desc: Descriptor, plain: seq<string>, flag: string, tail: seq<string>, inst: Instance)
    requires plain != [] && IsFlag(flag)
    requires forall j :: 0 <= j < |plain| ==> !IsFlag(plain[j])
    requires forall j :: 0 <= j < |tail| ==> !IsFlag(tail[j])
    requires !IsBlank(FlagIdentifier(flag)) && Resolve(desc, FlagIdentifier(flag)).Some?
    requires Resolve(desc, FlagIdentifier(flag)).value.field.kind.ObjectType?
    requires Resolve(desc, FlagIdentifier(flag)).value.field.kind.hasNoArgConstructor
    requires Assignable(Resolve(desc, FlagIdentifier(flag)).value)
    ensures var target := Resolve(desc, FlagIdentifier(flag)).value;
      var nested := AssignPositional(Eligible(target.field.kind.fields), tail, map[]);
      ParseArgs(desc, plain + [flag] + tail, inst)
        == if nested.Failure? then Failure(nested.error)
           else AssignPositional(Eligible(desc), plain, inst[target.field.name := Nested(nested.value)])
  {
    var target := Resolve(desc, FlagIdentifier(flag)).value;
    var nested := AssignPositional(Eligible(target.field.kind.fields), tail, map[]);
    assert ([flag] + tail)[0] == flag && ([flag] + tail)[1..] == tail;
    if nested.Failure? {
      assert BindSpan(desc, [flag] + tail, inst) == Failure(nested.error);
    } else {
      assert BindSpan(desc, [flag] + tail, inst) == Success((inst[target.field.name := Nested(nested.value)], []));
      assert plain + [] == plain;
    }
    PlainThenFlagSpan(desc, plain, flag, tail, inst);
  }

  /** What one span hands to the positional stream once it has bound: a
      plain span all of itself, a boolean flag span its tail, any other flag
      span nothing. */
  function HandedBack(desc: Descriptor, span: seq<string>): seq<string>
  {
    if span == [] || !IsFlag(span[0]) then span
    else match Resolve(desc, FlagIdentifier(span[0]))
      case Some(target) => if target.field.kind.BooleanType? then span[1..] else []
      case None => []
  }

  /** The spans' contributions to the positional stream, in span order. */
  function HandedBackAll(desc: Descriptor, spans: seq<seq<string>>): seq<string>
    decreases |spans|
  {
    if spans == [] then [] else HandedBack(desc, spans[0]) + HandedBackAll(desc, spans[1..])
  }

  /** What one span that binds hands back to the positional stream. */
  lemma BindSpanHandsBack(desc: Descriptor, span: seq<string>, inst: Instance)
    requires BindSpan(desc, span, inst).Success?
    ensures BindSpan(desc, span, inst).value.1 == HandedBack(desc, span)
  {
  }

  /** Binding any number of spans appends, in order, what each span hands
      back. */
  lemma {:induction false} BindSpansStream(desc: Descriptor, spans: seq<seq<string>>, inst: Instance, topLevel: seq<string>)
    requires BindSpans(desc, spans, inst, topLevel).Success?
    ensures BindSpans(desc, spans, inst, topLevel).value.1 == topLevel + HandedBackAll(desc, spans)
    decreases |spans|
  {
    if spans != [] {
      var step := BindSpan(desc, spans[0], inst).value;
      BindSpanHandsBack(desc, spans[0], inst);
      assert BindSpans(desc, spans, inst, topLevel) == BindSpans(desc, spans[1..], step.0, topLevel + step.1);
      BindSpansStream(desc, spans[1..], step.0, topLevel + step.1);
      assert topLevel + step.1 + HandedBackAll(desc, spans[1..]) == topLevel + (step.1 + HandedBackAll(desc, spans[1..]));
    }
  }

  /** Whatever the number of flags: once every span has bound, the tokens
      bound positionally are the leading plain tokens, then the tail of each
      boolean flag's span, in order; the spans of all other flags hand back
      nothing. */
  lemma PositionalStream(desc: Descriptor, args: seq<string>, inst: Instance)
    requires BindSpans(desc, CommandLineCollector.Split(args, IsFlag, true), inst, []).Success?
    ensures var spans := CommandLineCollector.Split(args, IsFlag, true);
      var bound := BindSpans(desc, spans, inst, []).value;
      && |spans| > 0
      && (forall j :: 0 <= j < |spans[0]| ==> !IsFlag(spans[0][j]))
      && (forall k :: 1 <= k < |spans| ==> |spans[k]| > 0 && IsFlag(spans[k][0]))
      && bound.1 == spans[0] + HandedBackAll(desc, spans[1..])
      && ParseArgs(desc, args, inst) == AssignPositional(Eligible(desc), bound.1, bound.0)
  {
    var spans := CommandLineCollector.Split(args, IsFlag, true);
    CommandLineCollector.SplitKeepingSeparatorsShape(args, IsFlag);
    BindSpansStream(desc, spans, inst, []);
    BindSpansFailsOnUnknownHead(desc, spans, inst, []);
    assert HandedBack(desc, spans[0]) == spans[0];
    assert [] + HandedBackAll(desc, spans) == spans[0] + HandedBackAll(desc, spans[1..]);
  }

  // ---------------------------------------------------------------------
  // Help text
  // ---------------------------------------------------------------------

  function RequiredMark(required: bool): string
  {
    if required then " - REQUIRED" else ""
  }

  function Label(f: FieldSpec): string
  {
    match f.flag
    case Some(alias) => "--" + f.name + ", -" + alias
    case None => f.name
  }

  /** The top-level line of a field. */
  function FieldLine(f: FieldSpec): string
  {
    HELP_INDENT + Label(f) + " - " + SimpleName(f.kind) + RequiredMark(f.required) + "\n"
  }

  /** The declared fields help lists under a flagged field. */
  function NestedFields(kind: Kind): Descriptor
  {
    if kind.ObjectType? then kind.fields else []
  }

  /** A nested line names the nested field but prints the OUTER field's
      type name, and has no indent. */
  function NestedLine(nested: FieldSpec, outer: Kind): string
  {
    if nested.staticFinal then ""
    else nested.name + " - " + SimpleName(outer) + RequiredMark(nested.required) + "\n"
  }

  function NestedHelp(nested: Descriptor, outer: Kind): string
  {
    if nested == [] then ""
    else NestedHelp(nested[..|nested| - 1], outer) + NestedLine(nested[|nested| - 1], outer)
  }

  predicate ListsNested(f: FieldSpec)
  {
    f.flag.Some? && !f.kind.BooleanType?
  }

  function FieldHelp(f: FieldSpec): string
  {
    if f.staticFinal then ""
    else FieldLine(f) + (if ListsNested(f) then NestedHelp(NestedFields(f.kind), f.kind) else "")
  }

  /** `help()`: the fields' blocks in declaration order. */
  function HelpText(desc: Descriptor): string
  {
    if desc == [] then ""
    else HelpText(desc[..|desc| - 1]) + FieldHelp(desc[|desc| - 1])
  }

  function NewlineCount(s: string): nat
  {
    if s == [] then 0 else (if s[0] == '\n' then 1 else 0) + NewlineCount(s[1..])
  }

  function VisibleCount(desc: Descriptor): nat
  {
    if desc == [] then 0
    else VisibleCount(desc[..|desc| - 1]) + (if desc[|desc| - 1].staticFinal then 0 else 1)
  }

  /** The number of lines help prints: one per visible field, plus one per
      visible nested field of every flagged non-boolean field. */
  function ExpectedLines(desc: Descriptor): nat
  {
    if desc == [] then 0
    else
      var f := desc[|desc| - 1];
      ExpectedLines(desc[..|desc| - 1])
        + (if f.staticFinal then 0 else 1 + (if ListsNested(f) then VisibleCount(NestedFields(f.kind)) else 0))
  }

  /** No name, alias or type name that help prints for `f` holds a line
      break. */
  predicate SingleLineField(f: FieldSpec)
  {
    && '\n' !in f.name
    && (f.flag.Some? ==> '\n' !in f.flag.value)
    && '\n' !in SimpleName(f.kind)
    && forall j :: 0 <= j < |NestedFields(f.kind)| ==> '\n' !in NestedFields(f.kind)[j].name
  }

  predicate SingleLineNames(desc: Descriptor)
  {
    forall i :: 0 <= i < |desc| ==> SingleLineField(desc[i])
  }

  lemma {:induction false} NewlineCountAppend(a: string, b: string)
    ensures NewlineCount(a + b) == NewlineCount(a) + NewlineCount(b)
    decreases |a|
  {
    if a != [] {
      NewlineCountAppend(a[1..], b);
      assert (a + b)[0] == a[0];
      assert (a + b)[1..] == a[1..] + b;
    } else {
      assert a + b == b;
    }
  }

  lemma {:induction false} NewlineCountNone(s: string)
    requires '\n' !in s
    ensures NewlineCount(s) == 0
    decreases |s|
  {
    if s != [] {
      assert s[0] in s;
      assert forall c :: c in s[1..] ==> c in s;
      NewlineCountNone(s[1..]);
    }
  }

  /** A line built from single-line pieces followed by "\n" counts once. */
  lemma OneLine(pieces: string)
    requires '\n' !in pieces
    ensures NewlineCount(pieces + "\n") == 1
  {
    NewlineCountAppend(pieces, "\n");
    NewlineCountNone(pieces);
  }

  lemma {:induction false} NestedHelpLineCount(nested: Descriptor, outer: Kind)
    requires forall j :: 0 <= j < |nested| ==> '\n' !in nested[j].name
    requires '\n' !in SimpleName(outer)
    ensures NewlineCount(NestedHelp(nested, outer)) == VisibleCount(nested)
    decreases |nested|
  {
    if nested != [] {
      var last := nested[|nested| - 1];
      NestedHelpLineCount(nested[..|nested| - 1], outer);
      NewlineCountAppend(NestedHelp(nested[..|nested| - 1], outer), NestedLine(last, outer));
      if !last.staticFinal {
        OneLine(last.name + " - " + SimpleName(outer) + RequiredMark(last.required));
      }
    }
  }

  lemma FieldHelpLines(f: FieldSpec)
    requires SingleLineField(f)
    ensures NewlineCount(FieldHelp(f))
         == if f.staticFinal then 0 else 1 + (if ListsNested(f) then VisibleCount(NestedFields(f.kind)) else 0)
  {
    if !f.staticFinal {
      var line := HELP_INDENT + Label(f) + " - " + SimpleName(f.kind) + RequiredMark(f.required);
      assert '\n' !in Label(f);
      assert '\n' !in RequiredMark(f.required);
      OneLine(line);
      var rest := if ListsNested(f) then NestedHelp(NestedFields(f.kind), f.kind) else "";
      NewlineCountAppend(line + "\n", rest);
      if ListsNested(f) {
        NestedHelpLineCount(NestedFields(f.kind), f.kind);
      }
    }
  }

  /** help prints exactly one line per visible field and one per visible
      nested field of each flagged non-boolean field, one level deep. */
  lemma {:induction false} HelpLineCount(desc: Descriptor)
    requires SingleLineNames(desc)
    ensures NewlineCount(HelpText(desc)) == ExpectedLines(desc)
    decreases |desc|
  {
    if desc != [] {
      var init, last := desc[..|desc| - 1], desc[|desc| - 1];
      assert SingleLineNames(init) by {
        forall i | 0 <= i < |init| ensures SingleLineField(init[i]) { assert init[i] == desc[i]; }
      }
      assert SingleLineField(last);
      HelpLineCount(init);
      NewlineCountAppend(HelpText(init), FieldHelp(last));
      FieldHelpLines(last);
    }
  }

  /** help lists the fields in declaration order: the block of field `i`
      follows the blocks of the fields before it. */
  lemma {:induction false} HelpListsFieldsInOrder(desc: Descriptor, i: nat)
    requires i < |desc|
    ensures HelpText(desc[..i]) + FieldHelp(desc[i]) <= HelpText(desc)
    decreases |desc| - i
  {
    var n := |desc|;
    var init := desc[..n - 1];
    assert HelpText(desc) == HelpText(init) + FieldHelp(desc[n - 1]);
    if i + 1 < n {
      assert init[..i] == desc[..i] && init[i] == desc[i];
      HelpListsFieldsInOrder(init, i);
      PrefixGrows(HelpText(desc[..i]) + FieldHelp(desc[i]), HelpText(init), FieldHelp(desc[n - 1]));
    } else {
      assert init == desc[..i];
    }
  }

  lemma PrefixGrows(x: string, a: string, b: string)
    requires x <= a
    ensures x <= a + b
  {
    assert (a + b)[..|a|] == a;
  }

  // ---------------------------------------------------------------------
  // The mutable options object
  // ---------------------------------------------------------------------

  function FailureOf<T>(r: Result<T, BindError>): Option<BindError>
  {
    if r.Success? then None else Some(r.error)
  }

  /** An options object: its class's descriptor and the fields the binder
      has set so far. */
  class OptionsObject {
    const fields: Descriptor
    var values: Instance

    /** The no-argument constructor: nothing has been bound yet. */
    constructor (fields: Descriptor)
      ensures this.fields == fields && values == map[]
    {
      this.fields := fields;
      values := map[];
    }

    method AssignObjectField(target: Resolved, value: Value) returns (failure: Option<BindError>)
      modifies this
      ensures failure == FailureOf(AssignField(old(values), target, value))
      ensures failure.None? ==> values == AssignField(old(values), target, value).value
      ensures failure.Some? ==> values == old(values)
    {
      var forced := !target.viaAlias && !target.field.declaredPublic;
      if target.field.staticFinal || (!forced && !target.field.writableWithoutForce) {
        failure := Some(InvalidOptions(CANNOT_ASSIGN));
      } else {
        values := values[target.field.name := value];
        failure := None;
      }
    }

    /** `applyArgsToFields` on this object: the i-th token into the i-th
        positionally bindable field. The leftover list is always empty. */
    method ApplyArgsToFields(args: seq<string>) returns (leftOverArgs: seq<string>, failure: Option<BindError>)
      modifies this
      ensures leftOverArgs == []
      ensures failure == FailureOf(AssignPositional(Eligible(fields), args, old(values)))
      ensures failure.None? ==> values == AssignPositional(Eligible(fields), args, old(values)).value
    {
      leftOverArgs := [];
      failure := None;
      var eligible := Eligible(fields);
      ghost var expected := AssignPositional(eligible, args, values);
      ghost var bound := 0;
      var i := 0;
      while i < |args|
        invariant 0 <= i <= |args|
        invariant bound == if i <= |eligible| then i else |eligible|
        invariant expected == AssignPositional(eligible[bound..], args[bound..], values)
      {
        if i < |eligible| {
          var arg := args[i];
          var field := eligible[i];
          PositionalStep(eligible, args, i, values);
          if field.kind.IntegerType? {
            failure := Some(RuntimeFailure(ILLEGAL_ARGUMENT));
            return;
          }
          values := values[field.name := ConvertArg(arg)];
          bound := i + 1;
        }
        i := i + 1;
      }
      PositionalDone(eligible[bound..], args[bound..], values);
    }

    /** `parseArgsToOptions`: the flag spans in order, each either setting a
        switch or a freshly filled field, then the collected plain tokens
        positionally onto this object. */
    method ParseArgsToOptions(args: seq<string>) returns (failure: Option<BindError>)
      modifies this
      ensures failure == FailureOf(ParseArgs(fields, args, old(values)))
      ensures failure.None? ==> values == ParseArgs(fields, args, old(values)).value
    {
      var topLevelArgs: seq<string> := [];
      var separatedArgs := CommandLineCollector.SplitBySeparator(args, IsFlag, true);
      var i := 0;
      while i < |separatedArgs|
        invariant 0 <= i <= |separatedArgs|
        invariant BindSpans(fields, separatedArgs, old(values), [])
               == BindSpans(fields, separatedArgs[i..], values, topLevelArgs)
      {
        var argList := separatedArgs[i];
        assert separatedArgs[i..][1..] == separatedArgs[i + 1..];
        if argList == [] {
          return Some(RuntimeFailure(INDEX_OUT_OF_BOUNDS));
        }
        if IsFlag(argList[0]) {
          var command := FlagIdentifier(argList[0]);
          if IsBlank(command) {
            return Some(RuntimeFailure(ILLEGAL_ARGUMENT));
          }
          var field := Resolve(fields, command);
          if field.None? {
            return Some(InvalidOptions(UNKNOWN_OPTION_PREFIX + command + UNKNOWN_OPTION_SUFFIX));
          }
          var argsToApply := argList[1..];
          if field.value.field.kind.BooleanType? {
            failure := AssignObjectField(field.value, Switch(true));
            if failure.Some? {
              return;
            }
            topLevelArgs := topLevelArgs + argsToApply;
          } else {
            var fieldValue: Value;
            match field.value.field.kind {
              case StringType =>
                if argsToApply != [] {
                  return Some(RuntimeFailure(STRING_INTERNALS));
                }
                fieldValue := Text("");
              case IntegerType(_) =>
                return Some(InvalidOptions(CANNOT_INITIALIZE));
              case ObjectType(_, nestedFields, hasNoArgConstructor) =>
                if !hasNoArgConstructor {
                  return Some(InvalidOptions(CANNOT_INITIALIZE));
                }
                var nested := new OptionsObject(nestedFields);
                var leftOver, nestedFailure := nested.ApplyArgsToFields(argsToApply);
                if nestedFailure.Some? {
                  return nestedFailure;
                }
                topLevelArgs := topLevelArgs + leftOver;
                fieldValue := Nested(nested.values);
            }
            failure := AssignObjectField(field.value, fieldValue);
            if failure.Some? {
              return;
            }
            assert topLevelArgs + [] == topLevelArgs;
          }
        } else {
          topLevelArgs := topLevelArgs + argList;
        }
        i := i + 1;
      }
      var _, positionalFailure := ApplyArgsToFields(topLevelArgs);
      failure := positionalFailure;
    }

    /** The inner loop of `help()`: one line per nested field that is not
        static final, naming the outer field's type. */
    static method NestedHelpLines(nested: Descriptor, outer: Kind) returns (lines: string)
      ensures lines == NestedHelp(nested, outer)
    {
      lines := "";
      for j := 0 to |nested|
        invariant lines == NestedHelp(nested[..j], outer)
      {
        var nestedField := nested[j];
        assert nested[..j + 1][..j] == nested[..j];
        if !nestedField.staticFinal {
          var line := nestedField.name + " - " + SimpleName(outer);
          if nestedField.required {
            line := line + " - REQUIRED";
          }
          line := line + "\n";
          assert line == NestedLine(nestedField, outer);
          lines := lines + line;
        }
      }
      assert nested[..|nested|] == nested;
    }

    /** The lines `help()` prints for one field. */
    static method FieldHelpBlock(field: FieldSpec) returns (block: string)
      ensures block == FieldHelp(field)
    {
      if field.staticFinal {
        return "";
      }
      var fieldLabel := field.name;
      if field.flag.Some? {
        fieldLabel := "--" + field.name + ", -" + field.flag.value;
      }
      assert fieldLabel == Label(field);
      var line := HELP_INDENT + fieldLabel + " - " + SimpleName(field.kind);
      if field.required {
        line := line + " - REQUIRED";
      }
      line := line + "\n";
      assert line == FieldLine(field);
      var nestedLines := "";
      if field.flag.Some? && !field.kind.BooleanType? {
        nestedLines := NestedHelpLines(NestedFields(field.kind), field.kind);
      }
      block := line + nestedLines;
    }

    /** `help()`: one line per field that is not static final, and for a
        flagged non-boolean field one line per nested field. */
    method Help() returns (text: string)
      ensures text == HelpText(fields)
    {
      text := "";
      for i := 0 to |fields|
        invariant text == HelpText(fields[..i])
      {
        assert fields[..i + 1][..i] == fields[..i];
        var block := FieldHelpBlock(fields[i]);
        text := text + block;
      }
      assert fields[..|fields|] == fields;
    }
  }
}
