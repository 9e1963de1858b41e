/**
 * The `Paternoster` object and its top-level control flow: the user
 * check, privilege elevation, parsing (build the parser, parse, prompt
 * for what is missing, check dependencies), running the playbook, and the
 * exit status of `auto()`.
 */
module Control {
  import opened Wrappers
  import opened Python
  import opened Arguments
  import opened Dependencies
  import opened Prompting
  import opened Marshalling

  /**
   * What the object reaches outside itself. `script` and `args` are
   * `sys.argv[0]` and `sys.argv[1:]`; `input` holds the lines typed at the
   * prompts, in order; `isUser` and `become` are the privilege helpers
   * (`become` yields the sudo user, or the argument of the ValueError it
   * raises); `parse` is `parse_args` of the parser holding the given
   * arguments; `run` is the runner, given the variables and the verbosity.
   */
  datatype Env = Env(
    script: string,
    args: seq<string>,
    input: seq<string>,
    isUser: string -> bool,
    become: string -> Result<string, Value>,
    parse: (seq<Argument>, seq<string>) -> Result<Namespace, Halt>,
    run: (seq<(string, Value)>, Value) -> Value)

  function WrongUserMessage(user: string): string
  {
    "This script can only be used by the user " + user
  }

  function NotFoundMessage(fname: string): string
  {
    "Parameter " + fname + " could not be found"
  }

  /** The declaration is named `fname`, by its name or by its short name. */
  predicate Matches(p: Param, fname: string)
    requires "name" in p
  {
    p["name"] == PyStr(fname) || Get(p, "short", PyNone) == PyStr(fname)
  }

  /** Declaration `i` is named `fname`, and every declaration before it has a name other than `fname`. */
  predicate FoundAt(params: seq<Param>, fname: string, i: int)
  {
    && 0 <= i < |params|
    && "name" in params[i] && Matches(params[i], fname)
    && forall j :: 0 <= j < i ==> "name" in params[j] && !Matches(params[j], fname)
  }

  /** Declaration `i` has no name, and every declaration before it has a name other than `fname`. */
  predicate NamelessAt(params: seq<Param>, fname: string, i: int)
  {
    && 0 <= i < |params|
    && "name" !in params[i]
    && forall j :: 0 <= j < i ==> "name" in params[j] && !Matches(params[j], fname)
  }

  /**
   * The declaration `_find_param` returns: the first one whose name or
   * short name is `fname`. Reading the name of a declaration that has
   * none raises KeyError('name'); when no declaration matches, the
   * KeyError names the missing parameter.
   */
  function Lookup(params: seq<Param>, fname: string): (r: Result<Param, Error>)
    ensures forall i :: FoundAt(params, fname, i) ==> r == Success(params[i])
    ensures r.Success? <==> exists i :: FoundAt(params, fname, i)
    ensures r == Failure(KeyError("name")) <==> exists i :: NamelessAt(params, fname, i)
    ensures r.Failure? ==> r.error == KeyError("name") || r.error == KeyError(NotFoundMessage(fname))
    ensures r == Failure(KeyError(NotFoundMessage(fname))) <==>
      forall i :: 0 <= i < |params| ==> "name" in params[i] && !Matches(params[i], fname)
  {
    if params == [] then Failure(KeyError(NotFoundMessage(fname)))
    else if "name" !in params[0] then
      assert |NotFoundMessage(fname)| != |"name"|;
      assert NamelessAt(params, fname, 0);
      Failure(KeyError("name"))
    else if Matches(params[0], fname) then
      assert FoundAt(params, fname, 0);
      Success(params[0])
    else
      var tail := params[1..];
      var r := Lookup(tail, fname);
      assert forall j :: 1 <= j < |params| ==> params[j] == tail[j - 1];
      assert forall i :: FoundAt(params, fname, i) ==> i > 0 && FoundAt(tail, fname, i - 1);
      assert forall i :: NamelessAt(params, fname, i) ==> i > 0 && NamelessAt(tail, fname, i - 1);
      assert forall i :: FoundAt(tail, fname, i) ==> FoundAt(params, fname, i + 1);
      assert forall i :: NamelessAt(tail, fname, i) ==> NamelessAt(params, fname, i + 1);
      if r.Success? then
        var i :| FoundAt(tail, fname, i);
        assert FoundAt(params, fname, i + 1);
        r
      else r
  }

  /** The handler of `parse_args`: a ValueError becomes exit status 3 with its message; any other way of stopping goes through. */
  function CatchValueError(h: Halt): (r: Halt)
    ensures !(r.Raise? && r.error.ValueError?)
    ensures h.Raise? && h.error.ValueError? ==> r == Exit(3, h.error.arg)
    ensures !(h.Raise? && h.error.ValueError?) ==> r == h
  {
    if h.Raise? && h.error.ValueError? then Exit(3, h.error.arg) else h
  }

  /** What `parser.parse_args(argv)` reads: `argv`, or `sys.argv[1:]` when it is None. */
  function FirstArgv(argv: Option<seq<string>>, sysArgs: seq<string>): seq<string>
  {
    if argv.Some? then argv.value else sysArgs
  }

  /** The answers prompting gathers once the command line parsed; none when it did not. */
  function Answers(params: seq<Param>, arguments: seq<Argument>, argv: Option<seq<string>>, env: Env): map<string, string>
  {
    match env.parse(arguments, FirstArgv(argv, env.args))
    case Failure(_) => map[]
    case Success(first) =>
      match Collect(params, first, env.input, Collected(map[], 0))
      case Failure(_) => map[]
      case Success(c) => c.answers
  }

  /**
   * The body of the `try` in `parse_args`: parse, prompt for what is
   * missing (re-parsing with the answers added in the order `pairs`),
   * then check the dependencies.
   */
  function Attempt(params: seq<Param>, arguments: seq<Argument>, argv: Option<seq<string>>, env: Env,
                   pairs: seq<(string, string)>): Result<Namespace, Halt>
  {
    var first :- env.parse(arguments, FirstArgv(argv, env.args));
    match Collect(params, first, env.input, Collected(map[], 0))
    case Failure(e) => Failure(Raise(e))
    case Success(c) =>
      var args :- if c.answers == map[] then Success(first)
                  else env.parse(arguments, BaseArgv(argv, env.args) + Flatten(pairs));
      match Violation(params, args)
      case Fail(h) => Failure(h)
      case Pass => Success(args)
  }

  /** `pairs` is an order the answers can be added in: one pair per answer (none when nothing is asked). */
  predicate OrderFits(params: seq<Param>, argv: Option<seq<string>>, env: Env, pairs: seq<(string, string)>)
  {
    if AllAccepted(params) then OnePairEach(pairs, Answers(params, ParserArguments(params), argv, env))
    else pairs == []
  }

  /**
   * `parse_args(argv)`: the parsed arguments, or how it stops. Building
   * the parser happens before the `try`, so what it raises escapes; inside
   * the `try`, a ValueError becomes exit status 3.
   */
  function ParseOutcome(params: seq<Param>, argv: Option<seq<string>>, env: Env,
                        pairs: seq<(string, string)>): Result<Namespace, Halt>
  {
    match Rejection(params)
    case Some(h) => Failure(h)
    case None =>
      match Attempt(params, ParserArguments(params), argv, env, pairs)
      case Failure(h) => Failure(CatchValueError(h))
      case Success(ns) => Success(ns)
  }

  /** What `parse_args` keeps satisfies every dependency, and every declaration made it into the parser. */
  lemma ParsedArgumentsMeetDependencies(params: seq<Param>, argv: Option<seq<string>>, env: Env, pairs: seq<(string, string)>)
    requires ParseOutcome(params, argv, env, pairs).Success?
    ensures AllAccepted(params)
    ensures DependenciesHold(params, ParseOutcome(params, argv, env, pairs).value)
  {
    var arguments := ParserArguments(params);
    var ns := Attempt(params, arguments, argv, env, pairs).value;
    var first := env.parse(arguments, FirstArgv(argv, env.args)).value;
    var c := Collect(params, first, env.input, Collected(map[], 0)).value;
    assert Violation(params, ns).Pass?;
  }

  /**
   * Once the parser is built, no ValueError leaves `parse_args`: one raised
   * by the first parse, by prompting (a confirmation mismatch) or by the
   * parse again with the answers is exit status 3 with its message.
   */
  lemma ValueErrorsExitThree(params: seq<Param>, argv: Option<seq<string>>, env: Env, pairs: seq<(string, string)>)
    requires AllAccepted(params)
    ensures var r := ParseOutcome(params, argv, env, pairs);
      r.Failure? ==> !(r.error.Raise? && r.error.error.ValueError?)
    ensures var r := ParseOutcome(params, argv, env, pairs);
      var first := env.parse(ParserArguments(params), FirstArgv(argv, env.args));
      first.Success? && Collect(params, first.value, env.input, Collected(map[], 0)).Failure? &&
      Collect(params, first.value, env.input, Collected(map[], 0)).error.ValueError? ==>
        r == Failure(Exit(3, Collect(params, first.value, env.input, Collected(map[], 0)).error.arg))
    ensures var r := ParseOutcome(params, argv, env, pairs);
      var first := env.parse(ParserArguments(params), FirstArgv(argv, env.args));
      first.Failure? && first.error.Raise? && first.error.error.ValueError? ==>
        r == Failure(Exit(3, first.error.error.arg))
    ensures var r := ParseOutcome(params, argv, env, pairs);
      var first := env.parse(ParserArguments(params), FirstArgv(argv, env.args));
      first.Success? && Collect(params, first.value, env.input, Collected(map[], 0)).Success? &&
      Collect(params, first.value, env.input, Collected(map[], 0)).value.answers != map[] ==>
        var again := env.parse(ParserArguments(params), BaseArgv(argv, env.args) + Flatten(pairs));
        again.Failure? && again.error.Raise? && again.error.error.ValueError? ==>
          r == Failure(Exit(3, again.error.error.arg))
  {
  }

  /**
   * A declaration typed by the name 'str' with the default action stops
   * `parse_args` with the policy's ValueError, uncaught (exit status 1
   * with a traceback, not 3), when every declaration before it is accepted.
   */
  lemma StrTypedDeclarationEscapes(params: seq<Param>, i: int, argv: Option<seq<string>>, env: Env,
                                   pairs: seq<(string, string)>)
    requires 0 <= i < |params|
    requires forall j :: 0 <= j < i ==> AddArgument(params[j]).Success?
    requires "type" in params[i] && params[i]["type"] == PyStr("str") && "action" !in params[i]
    ensures ParseOutcome(params, argv, env, pairs) == Failure(Raise(ValueError(PyStr(StrTypeMessage))))
  {
    StrTypeNameRefused(params[i]);
    FirstRejectedUnique(params, i);
  }

  /** With no declaration asking for a prompt, nothing is read from the terminal and the command line is parsed once. */
  lemma NoPromptNoAnswers(params: seq<Param>, argv: Option<seq<string>>, env: Env)
    requires AllAccepted(params)
    requires forall i :: 0 <= i < |params| ==> !WantsPrompt(params[i])
    ensures Answers(params, ParserArguments(params), argv, env) == map[]
  {
    var first := env.parse(ParserArguments(params), FirstArgv(argv, env.args));
    if first.Success? {
      CollectWithoutPrompts(params, first.value, env.input, Collected(map[], 0));
    }
  }

  /**
   * The body of the `try` in `parse_args` with the parser's arguments
   * built; `pairs` is the order in which the prompted pairs were added.
   */
  method TryParse(params: seq<Param>, arguments: seq<Argument>, argv: Option<seq<string>>, env: Env)
    returns (r: Result<Namespace, Halt>, ghost pairs: seq<(string, string)>)
    ensures OnePairEach(pairs, Answers(params, arguments, argv, env))
    ensures r == Attempt(params, arguments, argv, env, pairs)
  {
    pairs := [];
    var first := env.parse(arguments, FirstArgv(argv, env.args));
    if first.Failure? {
      return Failure(first.error), pairs;
    }
    var args, reparsed := PromptForMissing(params, argv, env.args, first.value, env.input, a => env.parse(arguments, a));
    ghost var c := Collect(params, first.value, env.input, Collected(map[], 0));
    if c.Success? && c.value.answers != map[] {
      pairs :| OnePairEach(pairs, c.value.answers) && reparsed.value == BaseArgv(argv, env.args) + Flatten(pairs);
    }
    if args.Failure? {
      return args, pairs;
    }
    var checked := CheckArgDependencies(params, args.value);
    if checked.Fail? {
      return Failure(checked.error), pairs;
    }
    return args, pairs;
  }

  /** What the runner returns for what `parse_args` gave, when that has a verbosity. */
  function Status(env: Env, user: string, parsed: Result<Namespace, Halt>): Option<Value>
  {
    if parsed.Failure? then None
    else match GetAttr(parsed.value, "verbose")
      case None => None
      case Some(verbose) => Some(env.run(RunnerVariables(user, env.script, parsed.value), verbose))
  }

  /** How `auto()` ends after the privilege steps, and what it prints. */
  function Finish(env: Env, user: string, successMsg: string, parsed: Result<Namespace, Halt>): (Halt, seq<string>)
  {
    if parsed.Failure? then (parsed.error, [])
    else match Status(env, user, parsed)
      case None => (Raise(AttributeError("verbose")), [])
      case Some(status) =>
        (Exit(if Truthy(status) then 0 else 1, PyNone),
         if Truthy(status) && successMsg != "" then [successMsg] else [])
  }

  class Paternoster {
    const parameters: seq<Param>
    const becomeUser: string
    const checkUser: string
    const successMsg: string
    /** The user the privileges were elevated from; "" while unset. */
    var sudoUser: string
    /** The namespace `parse_args` kept; None before it succeeds. */
    var parsedArgs: Option<Namespace>

    /** The declarations default to none; unset names and messages are "". */
    constructor(parameters: Option<seq<Param>>, becomeUser: string, checkUser: string, successMsg: string)
      ensures this.parameters == (if parameters.Some? then parameters.value else [])
      ensures this.becomeUser == becomeUser && this.checkUser == checkUser && this.successMsg == successMsg
      ensures sudoUser == "" && parsedArgs.None?
    {
      this.parameters := if parameters.Some? then parameters.value else [];
      this.becomeUser := becomeUser;
      this.checkUser := checkUser;
      this.successMsg := successMsg;
      sudoUser := "";
      parsedArgs := None;
    }

    /** `_find_param(fname)`: looks the declarations up in order. */
    method FindParam(fname: string) returns (r: Result<Param, Error>)
      ensures r == Lookup(parameters, fname)
    {
      var i := 0;
      while i < |parameters|
        invariant 0 <= i <= |parameters|
        invariant Lookup(parameters, fname) == Lookup(parameters[i..], fname)
      {
        assert parameters[i..][1..] == parameters[i + 1..];
        var p := parameters[i];
        if "name" !in p {
          return Failure(KeyError("name"));
        }
        if Matches(p, fname) {
          return Success(p);
        }
        i := i + 1;
      }
      return Failure(KeyError(NotFoundMessage(fname)));
    }

    /** `check_user()`: nothing when no user is required; exit status 1 for anybody else. */
    method CheckUser(isUser: string -> bool) returns (h: Option<Halt>)
      ensures h.None? <==> checkUser == "" || isUser(checkUser)
      ensures h.Some? ==> h.value == Exit(1, PyStr(WrongUserMessage(checkUser)))
    {
      if checkUser == "" {
        return None;
      }
      if !isUser(checkUser) {
        return Some(Exit(1, PyStr(WrongUserMessage(checkUser))));
      }
      return None;
    }

    /**
     * `become_user()`: nothing when no user is configured; otherwise the
     * elevation's sudo user is kept, and its ValueError is exit status 1.
     */
    method BecomeUser(become: string -> Result<string, Value>) returns (h: Option<Halt>)
      modifies this`sudoUser
      ensures becomeUser == "" ==> h.None? && sudoUser == old(sudoUser)
      ensures becomeUser != "" && become(becomeUser).Success? ==> h.None? && sudoUser == become(becomeUser).value
      ensures becomeUser != "" && become(becomeUser).Failure? ==>
        h == Some(Exit(1, become(becomeUser).error)) && sudoUser == old(sudoUser)
    {
      if becomeUser == "" {
        return None;
      }
      var elevated := become(becomeUser);
      if elevated.Failure? {
        return Some(Exit(1, elevated.error));
      }
      sudoUser := elevated.value;
      return None;
    }

    /**
     * `parse_args(argv)`: keeps the namespace when parsing, prompting and
     * the dependency check succeed, and otherwise stops as `ParseOutcome`
     * says, for the order in which the prompted pairs were added.
     */
    method ParseArgs(argv: Option<seq<string>>, env: Env) returns (h: Option<Halt>)
      modifies this`parsedArgs
      ensures exists pairs ::
                && OrderFits(parameters, argv, env, pairs)
                && (var outcome := ParseOutcome(parameters, argv, env, pairs);
                    && (outcome.Success? ==> h.None? && parsedArgs == Some(outcome.value))
                    && (outcome.Failure? ==> h == Some(outcome.error) && parsedArgs == old(parsedArgs)))
    {
      var built := BuildArgparser(parameters);
      if built.Failure? {
        assert OrderFits(parameters, argv, env, []);
        return Some(built.error);
      }
      var attempt, pairs := TryParse(parameters, built.value, argv, env);
      assert OrderFits(parameters, argv, env, pairs);
      if attempt.Failure? {
        return Some(CatchValueError(attempt.error));
      }
      parsedArgs := Some(attempt.value);
      return None;
    }

    /**
     * `execute()`: runs with the runner variables and the parsed verbosity,
     * and prints the success message only when the status is truthy and a
     * message is configured.
     */
    method Execute(script: string, run: (seq<(string, Value)>, Value) -> Value)
      returns (r: Result<Value, Halt>, stdout: seq<string>)
      ensures parsedArgs.None? ==> r == Failure(Raise(AttributeError("_parsed_args")))
      ensures parsedArgs.Some? && GetAttr(parsedArgs.value, "verbose").None? ==>
        r == Failure(Raise(AttributeError("verbose")))
      ensures parsedArgs.Some? && GetAttr(parsedArgs.value, "verbose").Some? ==>
        r == Success(run(RunnerVariables(sudoUser, script, parsedArgs.value), GetAttr(parsedArgs.value, "verbose").value))
      ensures stdout == (if r.Success? && Truthy(r.value) && successMsg != "" then [successMsg] else [])
    {
      if parsedArgs.None? {
        return Failure(Raise(AttributeError("_parsed_args"))), [];
      }
      var ns := parsedArgs.value;
      var verbose := GetAttr(ns, "verbose");
      if verbose.None? {
        return Failure(Raise(AttributeError("verbose"))), [];
      }
      var status := run(RunnerVariables(sudoUser, script, ns), verbose.value);
      stdout := [];
      if Truthy(status) && successMsg != "" {
        stdout := [successMsg];
      }
      return Success(status), stdout;
    }

    /** `check_user()` stops the run. */
    predicate Refused(env: Env)
    {
      checkUser != "" && !env.isUser(checkUser)
    }

    /** `become_user()` stops the run. */
    predicate ElevationFails(env: Env)
    {
      becomeUser != "" && env.become(becomeUser).Failure?
    }

    /** The sudo user after `become_user()`, from `sudo` before it. */
    function ElevatedUser(env: Env, sudo: string): string
    {
      if becomeUser != "" && env.become(becomeUser).Success? then env.become(becomeUser).value else sudo
    }

    /**
     * What the runner returns in `auto()`, when the run gets that far;
     * `sudo` is the sudo user from before `auto()` began.
     */
    function RunStatus(env: Env, sudo: string, pairs: seq<(string, string)>): Option<Value>
    {
      if Refused(env) || ElevationFails(env) then None
      else Status(env, ElevatedUser(env, sudo), ParseOutcome(parameters, None, env, pairs))
    }

    /** How `auto()` ends, and what it prints to stdout. */
    function AutoOutcome(env: Env, sudo: string, pairs: seq<(string, string)>): (Halt, seq<string>)
    {
      if Refused(env) then (Exit(1, PyStr(WrongUserMessage(checkUser))), [])
      else if ElevationFails(env) then (Exit(1, env.become(becomeUser).error), [])
      else Finish(env, ElevatedUser(env, sudo), successMsg, ParseOutcome(parameters, None, env, pairs))
    }

    /**
     * The exit status of `auto()`: once the runner has run, 0 exactly when
     * its status is truthy and 1 otherwise, with the success message
     * printed only on 0; before that, the first step that stops decides:
     * the user check, then the elevation, then parsing.
     */
    lemma AutoExitStatus(env: Env, sudo: string, pairs: seq<(string, string)>)
      ensures var (h, stdout) := AutoOutcome(env, sudo, pairs);
        var status := RunStatus(env, sudo, pairs);
        && (status.Some? ==> h == Exit(if Truthy(status.value) then 0 else 1, PyNone))
        && (status.Some? && Truthy(status.value) ==> stdout == (if successMsg != "" then [successMsg] else []))
        && (stdout != [] ==> status.Some? && Truthy(status.value))
        && (Refused(env) ==> h == Exit(1, PyStr(WrongUserMessage(checkUser))))
        && (!Refused(env) && ElevationFails(env) ==> h == Exit(1, env.become(becomeUser).error))
        && (!Refused(env) && !ElevationFails(env) && ParseOutcome(parameters, None, env, pairs).Failure? ==>
              h == ParseOutcome(parameters, None, env, pairs).error)
        && (status.None? ==> stdout == [])
    {
    }

    /**
     * `auto()`: check the user, elevate, parse `sys.argv[1:]`, run, and exit
     * with 0 or 1 by the runner's status. A refused user stops before
     * anything is elevated or parsed.
     */
    method Auto(env: Env) returns (h: Halt, stdout: seq<string>)
      modifies this`sudoUser, this`parsedArgs
      ensures exists pairs ::
                && OrderFits(parameters, None, env, pairs)
                && (h, stdout) == AutoOutcome(env, old(sudoUser), pairs)
                && (var outcome := ParseOutcome(parameters, None, env, pairs);
                    && (!Refused(env) && !ElevationFails(env) && outcome.Success? ==> parsedArgs == Some(outcome.value))
                    && (Refused(env) || ElevationFails(env) || outcome.Failure? ==> parsedArgs == old(parsedArgs)))
      ensures Refused(env) ==> sudoUser == old(sudoUser)
      ensures !Refused(env) ==> sudoUser == ElevatedUser(env, old(sudoUser))
    {
      ghost var anyOrder: seq<(string, string)> := [];
      if AllAccepted(parameters) {
        anyOrder := PairsExist(Answers(parameters, ParserArguments(parameters), None, env));
      }
      assert OrderFits(parameters, None, env, anyOrder);
      var refused := CheckUser(env.isUser);
      if refused.Some? {
        return refused.value, [];
      }
      var failed := BecomeUser(env.become);
      if failed.Some? {
        assert (failed.value, []) == AutoOutcome(env, old(sudoUser), anyOrder);
        return failed.value, [];
      }
      assert sudoUser == ElevatedUser(env, old(sudoUser));
      h, stdout := ParseAndExecute(env);
      ghost var pairs :| OrderFits(parameters, None, env, pairs) &&
        (h, stdout) == Finish(env, sudoUser, successMsg, ParseOutcome(parameters, None, env, pairs)) &&
        var outcome := ParseOutcome(parameters, None, env, pairs);
        && (outcome.Success? ==> parsedArgs == Some(outcome.value))
        && (outcome.Failure? ==> parsedArgs == old(parsedArgs));
    }

    /** The rest of `auto()` once the privilege steps passed: parse, run, and exit by the status. */
    method ParseAndExecute(env: Env) returns (h: Halt, stdout: seq<string>)
      modifies this`parsedArgs
      ensures exists pairs ::
                && OrderFits(parameters, None, env, pairs)
                && (h, stdout) == Finish(env, sudoUser, successMsg, ParseOutcome(parameters, None, env, pairs))
                && (var outcome := ParseOutcome(parameters, None, env, pairs);
                    && (outcome.Success? ==> parsedArgs == Some(outcome.value))
                    && (outcome.Failure? ==> parsedArgs == old(parsedArgs)))
    {
      var stopped := ParseArgs(None, env);
      ghost var pairs :| OrderFits(parameters, None, env, pairs) &&
        var outcome := ParseOutcome(parameters, None, env, pairs);
        && (outcome.Success? ==> stopped.None? && parsedArgs == Some(outcome.value))
        && (outcome.Failure? ==> stopped == Some(outcome.error) && parsedArgs == old(parsedArgs));
      ghost var parsed := ParseOutcome(parameters, None, env, pairs);
      if stopped.Some? {
        return stopped.value, [];
      }
      var status, printed := Execute(env.script, env.run);
      assert Status(env, sudoUser, parsed) == if status.Success? then Some(status.value) else None;
      if status.Failure? {
        return status.error, [];
      }
      return Exit(if Truthy(status.value) then 0 else 1, PyNone), printed;
    }
  }
}
