/**
 * How one developer-written parameter declaration becomes one argparse
 * argument: the type-name resolution, the type policy that keeps free-form
 * strings out, the option strings and the argument group, and the loop
 * that adds every declaration to the parser.
 */
module Arguments {
  import opened Wrappers
  import opened Python
  import opened Text

  /** A parameter declaration: a dict with `name`, `short`, `type`, ... */
  type Param = Dict

  /** Actions whose arguments take no user-supplied value. */
  const ActionWhitelist: set<string> := {"store_true", "store_false", "store_const", "append_const", "count"}

  /** Declaration keys that are meaningful to the library only and never reach argparse. */
  const LibraryKeys: set<string> := {"depends_on", "positional", "short", "name", "prompt", "prompt_options"}

  const IntType: Value := PyClass("int", false)
  const StrType: Value := PyClass("str", true)
  const TypesModule: string := "paternoster.types."

  const NoTypeMessage: string := "a type must be specified for each user-supplied argument"
  const StrTypeMessage: string := "restricted_str instead of str or unicode must be used for all string arguments"

  /** `param['name']` used as a string. */
  function NameOf(p: Param): Result<string, Error>
  {
    if "name" !in p then Failure(KeyError("name"))
    else if p["name"].PyStr? then Success(p["name"].s)
    else Failure(TypeError)
  }

  /** The argparse action of a set of argument options, `'store'` by default. */
  function ActionOf(options: Dict): Value
  {
    Get(options, "action", PyStr("store"))
  }

  predicate Whitelisted(action: Value)
  {
    action.PyStr? && action.s in ActionWhitelist
  }

  /** `t` is a class and a string class: `str`, `unicode` or a subclass of one. */
  predicate IsStringType(t: Value)
  {
    t.PyClass? && t.isStringType
  }

  /**
   * The type policy: an argument that takes a user-supplied value must be
   * given a type, and that type must not be a plain string class.
   */
  function CheckType(options: Dict): (r: Outcome<Error>)
    ensures r.Pass? <==>
      Whitelisted(ActionOf(options)) || ("type" in options && !IsStringType(options["type"]))
    ensures r.Fail? ==>
      r.error == ValueError(PyStr(if "type" in options then StrTypeMessage else NoTypeMessage))
  {
    var action := ActionOf(options);
    if "type" !in options && !Whitelisted(action) then Fail(ValueError(PyStr(NoTypeMessage)))
    else if IsStringType(Get(options, "type", StrType)) && !Whitelisted(action) then
      Fail(ValueError(PyStr(StrTypeMessage)))
    else Pass
  }

  predicate IsTypeName(t: string)
  {
    t == "int" || t == "str" || StartsWith(t, TypesModule)
  }

  /**
   * Resolves a type given by name and drops `type_params`. The options are
   * a fresh copy of the declaration, so the in-place `pop`s and item
   * assignment are modelled as a new dict.
   */
  function ConvertType(options: Dict): (r: Result<Dict, Error>)
    // which names raise
    ensures r.Failure? <==>
      "type" in options && options["type"].PyStr? &&
      (!IsTypeName(options["type"].s) ||
       (StartsWith(options["type"].s, TypesModule) && !Get(options, "type_params", PyDict(map[])).PyDict?))
    ensures r.Failure? && !IsTypeName(options["type"].s) ==> r.error == Exception("unknown type " + options["type"].s)
    ensures r.Failure? && IsTypeName(options["type"].s) ==> r.error == TypeError
    // type_params always goes, every key other than type is kept as it was
    ensures r.Success? ==> "type_params" !in r.value
    ensures r.Success? ==> forall k :: k in options && k != "type" && k != "type_params" ==>
      k in r.value && r.value[k] == options[k]
    ensures r.Success? ==> forall k :: k in r.value ==> k == "type" || k in options
    // a type is left exactly when a truthy one was given, and it is never a name
    ensures r.Success? ==> ("type" in r.value <==> "type" in options && Truthy(options["type"]))
    ensures r.Success? && "type" in r.value ==> !r.value["type"].PyStr?
    ensures r.Success? && "type" in options && !options["type"].PyStr? && Truthy(options["type"]) ==>
      r.value["type"] == options["type"]
    // how names resolve
    ensures r.Success? && "type" in options && options["type"] == PyStr("int") ==> r.value["type"] == IntType
    ensures r.Success? && "type" in options && options["type"] == PyStr("str") ==> r.value["type"] == StrType
    ensures r.Success? && "type" in options && options["type"].PyStr? && StartsWith(options["type"].s, TypesModule) ==>
      r.value["type"] == PyObject(AfterLast(options["type"].s, '.'), Get(options, "type_params", PyDict(map[])).entries)
  {
    var t := Get(options, "type", PyNone);
    var typeParams := Get(options, "type_params", PyDict(map[]));
    var rest := options - {"type", "type_params"};
    if t.PyStr? then
      if t.s == "int" then Success(rest["type" := IntType])
      else if t.s == "str" then Success(rest["type" := StrType])
      else if StartsWith(t.s, TypesModule) then
        if typeParams.PyDict? then Success(rest["type" := PyObject(AfterLast(t.s, '.'), typeParams.entries)])
        else Failure(TypeError)
      else Failure(Exception("unknown type " + t.s))
    else if Truthy(t) then Success(rest["type" := t])
    else Success(rest)
  }

  predicate IsPositional(p: Param)
  {
    Truthy(Get(p, "positional", PyBool(false)))
  }

  predicate IsRequired(p: Param)
  {
    Truthy(Get(p, "required", PyBool(false))) || IsPositional(p)
  }

  /** The option strings: the bare name for a positional, `-short` and `--name` otherwise. */
  function OptionStrings(p: Param): Result<seq<string>, Error>
  {
    if IsPositional(p) then
      var name :- NameOf(p);
      Success([name])
    else if "short" !in p then Failure(KeyError("short"))
    else if !p["short"].PyStr? then Failure(TypeError)
    else
      var name :- NameOf(p);
      Success(["-" + p["short"].s, "--" + name])
  }

  datatype Group = Required | Optional

  /** One `add_argument` call: the option strings, the group and the keyword options. */
  datatype Argument = Argument(flags: seq<string>, group: Group, options: Dict)

  function PromptConflictMessage(name: string): string
  {
    "'--" + name + "' is required and can't be combined with prompt"
  }

  /** The argument one declaration adds to the parser, or how building stops. */
  function AddArgument(p: Param): (r: Result<Argument, Halt>)
    // accepted exactly when the type resolves, passes the policy, the option strings
    // can be formed, and a required declaration asks for no prompt
    ensures r.Success? <==>
      && ConvertType(p - LibraryKeys).Success?
      && CheckType(ConvertType(p - LibraryKeys).value).Pass?
      && OptionStrings(p).Success?
      && !(IsRequired(p) && Truthy(Get(p, "prompt", PyNone)))
    ensures r.Success? ==> r.value.options == ConvertType(p - LibraryKeys).value
    ensures ConvertType(p - LibraryKeys).Failure? ==> r == Failure(Raise(ConvertType(p - LibraryKeys).error))
    ensures ConvertType(p - LibraryKeys).Success? && CheckType(ConvertType(p - LibraryKeys).value).Fail? ==>
      r == Failure(Raise(CheckType(ConvertType(p - LibraryKeys).value).error))
    ensures && ConvertType(p - LibraryKeys).Success?
            && CheckType(ConvertType(p - LibraryKeys).value).Pass?
            && OptionStrings(p).Success?
            && IsRequired(p) && Truthy(Get(p, "prompt", PyNone)) ==>
      NameOf(p).Success? && r == Failure(Exit(2, PyStr(PromptConflictMessage(NameOf(p).value))))
    // the library's own keys and type_params are never forwarded; every other key is
    ensures r.Success? ==> r.value.options.Keys !! LibraryKeys && "type_params" !in r.value.options
    ensures r.Success? ==> forall k :: k in p && k !in LibraryKeys && k != "type" && k != "type_params" ==>
      k in r.value.options && r.value.options[k] == p[k]
    // naming and grouping
    ensures r.Success? ==> NameOf(p).Success?
    ensures r.Success? && IsPositional(p) ==> r.value.flags == [NameOf(p).value]
    ensures r.Success? && !IsPositional(p) ==>
      "short" in p && p["short"].PyStr? && r.value.flags == ["-" + p["short"].s, "--" + NameOf(p).value]
    ensures r.Success? ==> (r.value.group == Required <==> IsRequired(p))
    // a required argument cannot be prompted for
    ensures IsRequired(p) && Truthy(Get(p, "prompt", PyNone)) ==> r.Failure?
    ensures r.Failure? && r.error.Exit? ==>
      IsRequired(p) && Truthy(Get(p, "prompt", PyNone)) && NameOf(p).Success? &&
      r.error == Exit(2, PyStr(PromptConflictMessage(NameOf(p).value)))
    // the injection guard: a user-supplied value always goes through a non-string type
    ensures r.Success? && !Whitelisted(ActionOf(r.value.options)) ==>
      "type" in r.value.options && !IsStringType(r.value.options["type"])
    ensures r.Success? ==> CheckType(r.value.options).Pass?
  {
    match ConvertType(p - LibraryKeys)
    case Failure(e) => Failure(Raise(e))
    case Success(options) =>
      match CheckType(options)
      case Fail(e) => Failure(Raise(e))
      case Pass =>
        match OptionStrings(p)
        case Failure(e) => Failure(Raise(e))
        case Success(flags) =>
          if IsRequired(p) then
            if Truthy(Get(p, "prompt", PyNone)) then Failure(Exit(2, PyStr(PromptConflictMessage(NameOf(p).value))))
            else Success(Argument(flags, Required, options))
          else Success(Argument(flags, Optional, options))
  }

  const HelpArgument: Argument :=
    Argument(["-h", "--help"], Optional,
             map["action" := PyStr("help"), "default" := PyStr("==SUPPRESS=="),
                 "help" := PyStr("show this help message and exit")])

  const VerboseArgument: Argument :=
    Argument(["-v", "--verbose"], Optional,
             map["action" := PyStr("count"), "default" := PyInt(0),
                 "help" := PyStr("run with a lot of debugging output")])

  predicate AllAccepted(params: seq<Param>)
  {
    forall i :: 0 <= i < |params| ==> AddArgument(params[i]).Success?
  }

  /** Declaration `i` is the first one the parser cannot take. */
  predicate FirstRejected(params: seq<Param>, i: int)
  {
    0 <= i < |params| && AddArgument(params[i]).Failure? &&
    forall j :: 0 <= j < i ==> AddArgument(params[j]).Success?
  }

  /** How building the parser stops: the error of the first declaration it cannot take, if any. */
  function Rejection(params: seq<Param>): (r: Option<Halt>)
    ensures r.None? <==> AllAccepted(params)
    ensures r.Some? ==> exists i :: FirstRejected(params, i) && r.value == AddArgument(params[i]).error
  {
    if params == [] then None
    else match AddArgument(params[0])
      case Failure(e) =>
        assert FirstRejected(params, 0);
        Some(e)
      case Success(_) =>
        var rest := Rejection(params[1..]);
        if rest.Some? then
          var i :| FirstRejected(params[1..], i) && rest.value == AddArgument(params[1..][i]).error;
          assert FirstRejected(params, i + 1);
          rest
        else
          assert AllAccepted(params) by {
            forall i | 0 <= i < |params| ensures AddArgument(params[i]).Success? {
              if i > 0 { assert params[i] == params[1..][i - 1]; }
            }
          }
          None
  }

  /** The parser's arguments once every declaration is accepted: help, one per declaration, verbose. */
  function ParserArguments(params: seq<Param>): (r: seq<Argument>)
    requires AllAccepted(params)
    ensures |r| == |params| + 2
  {
    [HelpArgument] + seq(|params|, i requires 0 <= i < |params| => AddArgument(params[i]).value) + [VerboseArgument]
  }

  /**
   * The parser's arguments, in the order they are added: help, one per
   * declaration, verbose; or the failure of the first declaration that
   * cannot be added.
   */
  method BuildArgparser(params: seq<Param>) returns (r: Result<seq<Argument>, Halt>)
    ensures r.Success? <==> AllAccepted(params)
    ensures r.Success? ==> |r.value| == |params| + 2
    ensures r.Success? ==> r.value[0] == HelpArgument && r.value[|params| + 1] == VerboseArgument
    ensures r.Success? ==> forall i :: 0 <= i < |params| ==> AddArgument(params[i]) == Success(r.value[i + 1])
    ensures r.Failure? ==> exists i :: FirstRejected(params, i) && r.error == AddArgument(params[i]).error
    ensures r == (if AllAccepted(params) then Success(ParserArguments(params)) else Failure(Rejection(params).value))
  {
    var arguments := [HelpArgument];
    var i := 0;
    while i < |params|
      invariant 0 <= i <= |params|
      invariant |arguments| == i + 1 && arguments[0] == HelpArgument
      invariant forall j :: 0 <= j < i ==> AddArgument(params[j]) == Success(arguments[j + 1])
    {
      var added := AddArgument(params[i]);
      if added.Failure? {
        assert FirstRejected(params, i);
        FirstRejectedUnique(params, i);
        return Failure(added.error);
      }
      arguments := arguments + [added.value];
      i := i + 1;
    }
    r := Success(arguments + [VerboseArgument]);
    assert r.value == ParserArguments(params);
  }

  /** Only one declaration is the first one rejected; it determines how building stops. */
  lemma FirstRejectedUnique(params: seq<Param>, i: int)
    requires FirstRejected(params, i)
    ensures Rejection(params) == Some(AddArgument(params[i]).error)
  {
    var j :| FirstRejected(params, j) && Rejection(params).value == AddArgument(params[j]).error;
    assert FirstRejected(params, i) && FirstRejected(params, j);
    assert AddArgument(params[i]).Failure? && AddArgument(params[j]).Failure?;
    if j < i {
      assert false;
    } else if i < j {
      assert false;
    }
  }

  /** With the default action, a declaration typed by the name 'str' is refused. */
  lemma StrTypeNameRefused(p: Param)
    requires "type" in p && p["type"] == PyStr("str")
    requires "action" !in p
    ensures AddArgument(p) == Failure(Raise(ValueError(PyStr(StrTypeMessage))))
  {
    var options := p - LibraryKeys;
    assert "type" in options && options["type"] == PyStr("str");
    assert ConvertType(options).Success? && ConvertType(options).value["type"] == StrType;
  }
}
