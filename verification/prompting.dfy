/**
 * Prompting for missing values: how one value is read from the terminal
 * (`get_input`) and how every declaration that asks for a prompt and was
 * left unset is filled in and added to the command line before it is
 * parsed again (`_prompt_for_missing`). The terminal is the sequence of
 * lines the user types, in order.
 */
module Prompting {
  import opened Wrappers
  import opened Python
  import opened Text
  import opened Arguments

  const DefaultConfirmPrompt: string := "Please confirm: "
  const DefaultConfirmError: string := "ERROR: input does not match its confirmation"

  /** The declaration's prompt options, an empty dict by default, are a dict; otherwise looking one up raises AttributeError. */
  predicate HasOptionsDict(p: Param)
  {
    Get(p, "prompt_options", PyDict(map[])).PyDict?
  }

  function OptionsOf(p: Param): Dict
  {
    var options := Get(p, "prompt_options", PyDict(map[]));
    if options.PyDict? then options.entries else map[]
  }

  /** The truth of one prompt option: accept_empty, no_echo or strip. */
  predicate Flag(p: Param, key: string)
  {
    Truthy(Get(OptionsOf(p), key, PyNone))
  }

  /** How `get_input` prompts for one declaration. */
  datatype Settings = Settings(
    text: string,         // the prompt
    confirm: bool,        // whether a confirmation is asked
    confirmText: string,  // the confirmation prompt
    confirmError: Value,  // what the ValueError for a mismatch carries
    acceptEmpty: bool,
    noEcho: bool,
    strip: bool)

  /**
   * The settings `get_input` derives before it prompts: the prompt is
   * `prompt` when that is a string and the title-cased name followed by
   * ': ' otherwise; confirmation is asked when `confirm` is truthy and a
   * bool or a string, with `confirm` itself as its prompt when it is a
   * string; a mismatch reports `confirm_error` when that is truthy.
   */
  function SettingsOf(p: Param): (r: Result<Settings, Error>)
    ensures r.Failure? <==>
      "name" !in p || !HasOptionsDict(p) || (!Get(p, "prompt", PyNone).PyStr? && !p["name"].PyStr?)
    ensures "name" !in p ==> r == Failure(KeyError("name"))
    ensures r.Success? && Get(p, "prompt", PyNone).PyStr? ==> r.value.text == Get(p, "prompt", PyNone).s
    ensures r.Success? && !Get(p, "prompt", PyNone).PyStr? ==> r.value.text == Title(p["name"].s) + ": "
    ensures r.Success? ==>
      var confirm := Get(OptionsOf(p), "confirm", PyNone);
      && (r.value.confirm <==> Truthy(confirm) && (confirm.PyBool? || confirm.PyStr?))
      && r.value.confirmText == (if confirm.PyStr? then confirm.s else DefaultConfirmPrompt)
    ensures r.Success? ==>
      var error := Get(OptionsOf(p), "confirm_error", PyNone);
      r.value.confirmError == (if Truthy(error) then error else PyStr(DefaultConfirmError))
    ensures r.Success? ==>
      && r.value.acceptEmpty == Flag(p, "accept_empty")
      && r.value.noEcho == Flag(p, "no_echo")
      && r.value.strip == Flag(p, "strip")
  {
    if "name" !in p then Failure(KeyError("name"))
    else if !HasOptionsDict(p) then Failure(AttributeError("get"))
    else
      var prompt := Get(p, "prompt", PyNone);
      if !prompt.PyStr? && !p["name"].PyStr? then Failure(AttributeError("title"))
      else
        var options := OptionsOf(p);
        var confirm := Get(options, "confirm", PyNone);
        var error := Get(options, "confirm_error", PyNone);
        Success(Settings(
          text := if prompt.PyStr? then prompt.s else Title(p["name"].s) + ": ",
          confirm := Truthy(confirm) && (confirm.PyBool? || confirm.PyStr?),
          confirmText := if confirm.PyStr? then confirm.s else DefaultConfirmPrompt,
          confirmError := if Truthy(error) then error else PyStr(DefaultConfirmError),
          acceptEmpty := Flag(p, "accept_empty"),
          noEcho := Flag(p, "no_echo"),
          strip := Flag(p, "strip")))
  }

  /** The value one typed line gives: stripped when `strip` is set. */
  function Answer(s: Settings, line: string): string
  {
    if s.strip then Strip(line) else line
  }

  /** A line ends the re-prompting unless its value is empty and `accept_empty` is unset. */
  predicate Accepts(s: Settings, line: string)
  {
    Answer(s, line) != "" || s.acceptEmpty
  }

  /** The index of the first line that ends the re-prompting, if any. */
  function FirstAnswer(s: Settings, input: seq<string>): (k: Option<nat>)
    ensures k.Some? ==> k.value < |input| && Accepts(s, input[k.value])
    ensures k.Some? ==> forall j :: 0 <= j < k.value ==> !Accepts(s, input[j])
    ensures k.None? ==> forall j :: 0 <= j < |input| ==> !Accepts(s, input[j])
  {
    if input == [] then None
    else if Accepts(s, input[0]) then Some(0)
    else match FirstAnswer(s, input[1..])
      case None => None
      case Some(j) => Some(j + 1)
  }

  datatype Prompt = Prompt(text: string, noEcho: bool)

  /** What reading one value did: its result, the lines it consumed and the prompts it showed. */
  datatype Reply = Reply(result: Result<string, Error>, used: nat, shown: seq<Prompt>)

  function Repeat(prompt: Prompt, n: nat): seq<Prompt>
  {
    seq(n, _ => prompt)
  }

  /**
   * Reading a value once the settings are known: re-prompt while the
   * value is refused, then read the confirmation. Running out of lines is
   * the EOFError that `input()` raises.
   */
  function ReadAnswer(s: Settings, input: seq<string>): (r: Reply)
    ensures r.used <= |input|
  {
    var ask := Prompt(s.text, s.noEcho);
    var confirm := Prompt(s.confirmText, s.noEcho);
    match FirstAnswer(s, input)
    case None => Reply(Failure(EOFError), |input|, Repeat(ask, |input| + 1))
    case Some(k) =>
      var value := Answer(s, input[k]);
      var asked := Repeat(ask, k + 1);
      if !s.confirm then Reply(Success(value), k + 1, asked)
      else if k + 1 == |input| then Reply(Failure(EOFError), k + 1, asked + [confirm])
      else if input[k + 1] != value then Reply(Failure(ValueError(s.confirmError)), k + 2, asked + [confirm])
      else Reply(Success(value), k + 2, asked + [confirm])
  }

  /** `get_input(param)` on the lines `input`. */
  function ReadInput(p: Param, input: seq<string>): (r: Reply)
    ensures r.used <= |input|
  {
    match SettingsOf(p)
    case Failure(e) => Reply(Failure(e), 0, [])
    case Success(s) => ReadAnswer(s, input)
  }

  /** The number of lines read before the value: the value's own line is `input[ValueLine(s, r)]`. */
  function ValueLine(s: Settings, r: Reply): int
  {
    r.used - (if s.confirm then 2 else 1)
  }

  /**
   * A value `get_input` returns is the first line whose value is not
   * empty (any line with `accept_empty`), stripped when `strip` is set;
   * every earlier line gave an empty value; with confirmation on, the raw
   * line after it equals the value.
   */
  lemma ReadAnswerValue(s: Settings, input: seq<string>)
    requires ReadAnswer(s, input).result.Success?
    ensures var r := ReadAnswer(s, input);
      var k := ValueLine(s, r);
      && 0 <= k < |input|
      && r.result.value == Answer(s, input[k])
      && (r.result.value != "" || s.acceptEmpty)
      && (forall j :: 0 <= j < k ==> Answer(s, input[j]) == "" && !s.acceptEmpty)
      && (s.confirm ==> k + 1 < |input| && input[k + 1] == r.result.value)
  {
    var k := FirstAnswer(s, input).value;
    assert ValueLine(s, ReadAnswer(s, input)) == k;
  }

  /** With `strip` set, a value read has no whitespace at either end, and is not empty unless `accept_empty` is set. */
  lemma StrippedAnswerIsTrimmed(s: Settings, input: seq<string>)
    requires s.strip
    requires ReadAnswer(s, input).result.Success?
    ensures var v := ReadAnswer(s, input).result.value;
      && (v != "" || s.acceptEmpty)
      && (v != "" ==> !IsSpace(v[0]) && !IsSpace(v[|v| - 1]))
  {
    ReadAnswerValue(s, input);
    var k := ValueLine(s, ReadAnswer(s, input));
    var v := Strip(input[k]);
  }

  /** One prompt is shown per line read: the prompt text for each value line, then the confirmation prompt. */
  lemma ReadAnswerPrompts(s: Settings, input: seq<string>)
    ensures var r := ReadAnswer(s, input);
      r.result.Success? ==>
        r.shown == Repeat(Prompt(s.text, s.noEcho), ValueLine(s, r) + 1) +
                   (if s.confirm then [Prompt(s.confirmText, s.noEcho)] else [])
    ensures |ReadAnswer(s, input).shown| == ReadAnswer(s, input).used + (if ReadAnswer(s, input).result == Failure(EOFError) then 1 else 0)
  {
    var k := FirstAnswer(s, input);
  }

  /**
   * Reading fails with a ValueError only on a confirmation that differs
   * from an accepted value, carrying the confirmation error; and with an
   * EOFError only once every line is used.
   */
  lemma ReadAnswerErrors(s: Settings, input: seq<string>)
    ensures var r := ReadAnswer(s, input);
      && (r.result.Failure? && r.result.error.ValueError? ==>
            && s.confirm
            && 2 <= r.used
            && Accepts(s, input[r.used - 2])
            && input[r.used - 1] != Answer(s, input[r.used - 2])
            && r.result.error == ValueError(s.confirmError))
      && (r.result == Failure(EOFError) ==> r.used == |input|)
      && (r.result.Failure? ==> r.result.error.ValueError? || r.result.error == EOFError)
  {
    var k := FirstAnswer(s, input);
  }

  /**
   * When reading a value returns and when it raises: input that runs out
   * before an accepted line, or before the confirmation, is an EOFError;
   * without confirmation the first accepted line gives the value; with it,
   * a matching confirmation returns the value and a differing one raises
   * the confirmation error.
   */
  lemma ReadAnswerOutcome(s: Settings, input: seq<string>)
    ensures FirstAnswer(s, input).None? ==> ReadAnswer(s, input).result == Failure(EOFError)
    ensures FirstAnswer(s, input).Some? ==>
      var k := FirstAnswer(s, input).value;
      var value := Answer(s, input[k]);
      var r := ReadAnswer(s, input).result;
      && (!s.confirm ==> r == Success(value))
      && (s.confirm && k + 1 == |input| ==> r == Failure(EOFError))
      && (s.confirm && k + 1 < |input| ==>
            r == if input[k + 1] == value then Success(value) else Failure(ValueError(s.confirmError)))
  {
  }

  /** `get_input`, reading one line per prompt. */
  method GetInput(p: Param, input: seq<string>) returns (reply: Reply)
    ensures reply == ReadInput(p, input)
  {
    var settings := SettingsOf(p);
    if settings.Failure? {
      return Reply(Failure(settings.error), 0, []);
    }
    reply := Ask(settings.value, input);
  }

  /** The prompting loop of `get_input` once its settings are known. */
  method Ask(s: Settings, input: seq<string>) returns (reply: Reply)
    ensures reply == ReadAnswer(s, input)
  {
    var ask := Prompt(s.text, s.noEcho);
    var shown: seq<Prompt> := [];
    var used := 0;
    var value := "";
    while true
      invariant used <= |input|
      invariant shown == Repeat(ask, used)
      invariant forall j :: 0 <= j < used ==> !Accepts(s, input[j])
      decreases |input| - used
    {
      shown := shown + [ask];
      if used == |input| {
        return Reply(Failure(EOFError), used, shown);
      }
      value := Answer(s, input[used]);
      used := used + 1;
      if value != "" || s.acceptEmpty {
        break;
      }
    }
    assert FirstAnswer(s, input) == Some(used - 1);
    if !s.confirm {
      return Reply(Success(value), used, shown);
    }
    shown := shown + [Prompt(s.confirmText, s.noEcho)];
    if used == |input| {
      return Reply(Failure(EOFError), used, shown);
    }
    var confirmed := input[used];
    used := used + 1;
    if value != confirmed {
      return Reply(Failure(ValueError(s.confirmError)), used, shown);
    }
    return Reply(Success(value), used, shown);
  }

  /**
   * With `strip` and `confirm` set, typing " pw" twice is refused: the
   * value is stripped to "pw" but the confirmation is compared as typed.
   */
  lemma ConfirmationIsNotStripped(s: Settings)
    requires s.strip && s.confirm
    ensures ReadAnswer(s, [" pw", " pw"]).result == Failure(ValueError(s.confirmError))
  {
    assert Strip(" pw") == "pw" by {
      assert LeadingSpaces(" pw") == 1;
    }
    assert FirstAnswer(s, [" pw", " pw"]) == Some(0);
  }

  /** The prompt key asks for prompting when it is truthy and a bool or a string. */
  predicate WantsPrompt(p: Param)
  {
    var prompt := Get(p, "prompt", PyNone);
    Truthy(prompt) && (prompt.PyBool? || prompt.PyStr?)
  }

  /**
   * Whether `_prompt_for_missing` selects the declaration: it wants a
   * prompt and `getattr(args, name)` is None (a missing attribute raises).
   */
  function PromptNeeded(p: Param, args: Namespace): (r: Result<bool, Error>)
    ensures r == Success(true) <==>
      WantsPrompt(p) && NameOf(p).Success? && GetAttr(args, NameOf(p).value) == Some(PyNone)
    ensures !WantsPrompt(p) ==> r == Success(false)
  {
    if !WantsPrompt(p) then Success(false)
    else match NameOf(p)
      case Failure(e) => Failure(e)
      case Success(name) =>
        match GetAttr(args, name)
        case None => Failure(AttributeError(name))
        case Some(v) => Success(v == PyNone)
  }

  /** The answers gathered so far, by parameter name, and the lines consumed. */
  datatype Collected = Collected(answers: map<string, string>, used: nat)

  /** The prompting loop of `_prompt_for_missing`, from `acc` on. */
  function Collect(params: seq<Param>, args: Namespace, input: seq<string>, acc: Collected): (r: Result<Collected, Error>)
    requires acc.used <= |input|
    decreases |params|
  {
    if params == [] then Success(acc)
    else match PromptNeeded(params[0], args)
      case Failure(e) => Failure(e)
      case Success(needed) =>
        if !needed then Collect(params[1..], args, input, acc)
        else
          var reply := ReadInput(params[0], input[acc.used..]);
          match reply.result
          case Failure(e) => Failure(e)
          case Success(value) =>
            Collect(params[1..], args, input,
                    Collected(acc.answers[NameOf(params[0]).value := value], acc.used + reply.used))
  }

  /** The names of the declarations that are prompted for. */
  function PromptedNames(params: seq<Param>, args: Namespace): set<string>
  {
    set i | 0 <= i < |params| && PromptNeeded(params[i], args) == Success(true) :: NameOf(params[i]).value
  }

  lemma PromptedNamesCons(params: seq<Param>, args: Namespace)
    requires params != []
    ensures PromptedNames(params, args) ==
      PromptedNames(params[1..], args) +
      (if PromptNeeded(params[0], args) == Success(true) then {NameOf(params[0]).value} else {})
  {
    var tail := params[1..];
    forall n | n in PromptedNames(params, args)
      ensures n in PromptedNames(tail, args) || (PromptNeeded(params[0], args) == Success(true) && n == NameOf(params[0]).value)
    {
      var i :| 0 <= i < |params| && PromptNeeded(params[i], args) == Success(true) && NameOf(params[i]).value == n;
      if i > 0 { assert tail[i - 1] == params[i]; }
    }
    forall n | n in PromptedNames(tail, args) ensures n in PromptedNames(params, args) {
      var i :| 0 <= i < |tail| && PromptNeeded(tail[i], args) == Success(true) && NameOf(tail[i]).value == n;
      assert params[i + 1] == tail[i];
    }
  }

  /** Prompting answers exactly the declarations selected, and consumes lines only from `acc.used` on. */
  lemma {:induction false} CollectAnswersSelected(params: seq<Param>, args: Namespace, input: seq<string>, acc: Collected)
    requires acc.used <= |input|
    requires Collect(params, args, input, acc).Success?
    ensures acc.used <= Collect(params, args, input, acc).value.used <= |input|
    ensures Collect(params, args, input, acc).value.answers.Keys == acc.answers.Keys + PromptedNames(params, args)
    decreases |params|
  {
    if params != [] {
      PromptedNamesCons(params, args);
      if PromptNeeded(params[0], args).value {
        var reply := ReadInput(params[0], input[acc.used..]);
        var next := Collected(acc.answers[NameOf(params[0]).value := reply.result.value], acc.used + reply.used);
        CollectAnswersSelected(params[1..], args, input, next);
      } else {
        CollectAnswersSelected(params[1..], args, input, acc);
      }
    }
  }

  /** Declaration `i` was prompted for under the name `n`, and `value` is an answer it accepts. */
  predicate AnsweredBy(params: seq<Param>, args: Namespace, i: int, n: string, value: string)
  {
    && 0 <= i < |params|
    && PromptNeeded(params[i], args) == Success(true)
    && NameOf(params[i]).value == n
    && (value != "" || Flag(params[i], "accept_empty"))
  }

  /**
   * Every answer prompting holds is either one it started with, unchanged,
   * or an accepted value of a selected declaration of that name.
   */
  lemma {:induction false} CollectAnswersAccepted(params: seq<Param>, args: Namespace, input: seq<string>, acc: Collected)
    requires acc.used <= |input|
    requires Collect(params, args, input, acc).Success?
    ensures var c := Collect(params, args, input, acc).value;
      forall n :: n in c.answers ==>
        (n in acc.answers && c.answers[n] == acc.answers[n]) ||
        exists i :: AnsweredBy(params, args, i, n, c.answers[n])
    decreases |params|
  {
    if params != [] {
      var tail := params[1..];
      var c := Collect(params, args, input, acc).value;
      var next := acc;
      if PromptNeeded(params[0], args).value {
        var reply := ReadInput(params[0], input[acc.used..]);
        var settings := SettingsOf(params[0]).value;
        ReadAnswerValue(settings, input[acc.used..]);
        next := Collected(acc.answers[NameOf(params[0]).value := reply.result.value], acc.used + reply.used);
        assert AnsweredBy(params, args, 0, NameOf(params[0]).value, reply.result.value);
      }
      assert c == Collect(tail, args, input, next).value;
      CollectAnswersAccepted(tail, args, input, next);
      forall n | n in c.answers
        ensures (n in acc.answers && c.answers[n] == acc.answers[n]) ||
                exists i :: AnsweredBy(params, args, i, n, c.answers[n])
      {
        if !(n in next.answers && c.answers[n] == next.answers[n]) {
          var i :| AnsweredBy(tail, args, i, n, c.answers[n]);
          assert params[i + 1] == tail[i];
          assert AnsweredBy(params, args, i + 1, n, c.answers[n]);
        }
      }
    }
  }

  /** The command line `_prompt_for_missing` extends: `argv` unless it is None or empty, else `sys.argv[1:]`. */
  function BaseArgv(argv: Option<seq<string>>, sysArgs: seq<string>): seq<string>
  {
    if argv.Some? && argv.value != [] then argv.value else sysArgs
  }

  /** Each `(name, value)` becomes `--name value`. */
  function Flatten(pairs: seq<(string, string)>): (r: seq<string>)
    ensures |r| == 2 * |pairs|
  {
    if pairs == [] then []
    else Flatten(pairs[..|pairs| - 1]) + ["--" + pairs[|pairs| - 1].0, pairs[|pairs| - 1].1]
  }

  /** `pairs` lists every entry of `answers` exactly once, in some order. */
  predicate OnePairEach(pairs: seq<(string, string)>, answers: map<string, string>)
  {
    && (forall i :: 0 <= i < |pairs| ==> pairs[i].0 in answers && answers[pairs[i].0] == pairs[i].1)
    && (forall n :: n in answers ==> exists i :: 0 <= i < |pairs| && pairs[i].0 == n)
    && (forall i, j :: 0 <= i < j < |pairs| ==> pairs[i].0 != pairs[j].0)
  }

  /** Every set of answers can be listed one pair each, in some order. */
  lemma PairsExist(answers: map<string, string>) returns (pairs: seq<(string, string)>)
    ensures OnePairEach(pairs, answers)
    decreases |answers|
  {
    if answers == map[] {
      pairs := [];
    } else {
      var n :| n in answers;
      var rest := answers - {n};
      assert |rest| < |answers| by {
        assert rest.Keys + {n} == answers.Keys;
      }
      var tail := PairsExist(rest);
      pairs := tail + [(n, answers[n])];
      forall i | 0 <= i < |pairs| ensures pairs[i].0 in answers && answers[pairs[i].0] == pairs[i].1 {
        if i < |tail| {
          assert pairs[i] == tail[i];
        }
      }
      forall m | m in answers ensures exists i :: 0 <= i < |pairs| && pairs[i].0 == m {
        if m == n {
          assert pairs[|tail|].0 == m;
        } else {
          assert m in rest;
          var i :| 0 <= i < |tail| && tail[i].0 == m;
          assert pairs[i].0 == m;
        }
      }
      forall i, j | 0 <= i < j < |pairs| ensures pairs[i].0 != pairs[j].0 {
        assert pairs[i] == tail[i];
        if j < |tail| {
          assert pairs[j] == tail[j];
        } else {
          assert tail[i].0 in rest;
        }
      }
    }
  }

  /** With no declaration asking for a prompt, prompting reads nothing and answers nothing. */
  lemma {:induction false} CollectWithoutPrompts(params: seq<Param>, args: Namespace, input: seq<string>, acc: Collected)
    requires acc.used <= |input|
    requires forall i :: 0 <= i < |params| ==> !WantsPrompt(params[i])
    ensures Collect(params, args, input, acc) == Success(acc)
    decreases |params|
  {
    if params != [] {
      assert !WantsPrompt(params[0]);
      assert forall i :: 0 <= i < |params[1..]| ==> params[1..][i] == params[i + 1];
      CollectWithoutPrompts(params[1..], args, input, acc);
    }
  }

  /**
   * `_prompt_for_missing(argv, parser, args)`: prompts for every selected
   * declaration; when something was prompted for, parses again the
   * command line extended by one `--name value` pair per answer (`reparsed`),
   * in the unspecified order of a dict, and otherwise returns `args`.
   */
  method PromptForMissing(params: seq<Param>, argv: Option<seq<string>>, sysArgs: seq<string>, args: Namespace,
                          input: seq<string>, parse: seq<string> -> Result<Namespace, Halt>)
    returns (r: Result<Namespace, Halt>, reparsed: Option<seq<string>>)
    ensures var c := Collect(params, args, input, Collected(map[], 0));
      && (c.Failure? ==> r == Failure(Raise(c.error)) && reparsed.None?)
      && (c.Success? && c.value.answers == map[] ==> r == Success(args) && reparsed.None?)
      && (c.Success? && c.value.answers != map[] ==>
            && reparsed.Some?
            && r == parse(reparsed.value)
            && exists pairs :: OnePairEach(pairs, c.value.answers) &&
                 reparsed.value == BaseArgv(argv, sysArgs) + Flatten(pairs))
  {
    var collected := PromptAll(params, args, input);
    if collected.Failure? {
      return Failure(Raise(collected.error)), None;
    }
    var data := collected.value.answers;
    if data == map[] {
      return Success(args), None;
    }
    var extended, pairs := ExtendArgv(BaseArgv(argv, sysArgs), data);
    return parse(extended), Some(extended);
  }

  /** The prompting loop of `_prompt_for_missing`. */
  method PromptAll(params: seq<Param>, args: Namespace, input: seq<string>) returns (r: Result<Collected, Error>)
    ensures r == Collect(params, args, input, Collected(map[], 0))
  {
    var data: map<string, string> := map[];
    var consumed: nat := 0;
    var i := 0;
    while i < |params|
      invariant 0 <= i <= |params|
      invariant consumed <= |input|
      invariant Collect(params, args, input, Collected(map[], 0)) == Collect(params[i..], args, input, Collected(data, consumed))
    {
      assert params[i..][1..] == params[i + 1..];
      var needed := PromptNeeded(params[i], args);
      if needed.Failure? {
        return Failure(needed.error);
      }
      if needed.value {
        var reply := GetInput(params[i], input[consumed..]);
        if reply.result.Failure? {
          return Failure(reply.result.error);
        }
        data := data[NameOf(params[i]).value := reply.result.value];
        consumed := consumed + reply.used;
      }
      i := i + 1;
    }
    return Success(Collected(data, consumed));
  }

  /** `argv` extended by one `--name value` pair per answer, taken in an unspecified order. */
  method ExtendArgv(argv: seq<string>, data: map<string, string>) returns (extended: seq<string>, ghost pairs: seq<(string, string)>)
    ensures OnePairEach(pairs, data)
    ensures extended == argv + Flatten(pairs)
  {
    extended := argv;
    pairs := [];
    var names := data.Keys;
    while names != {}
      invariant names <= data.Keys
      invariant extended == argv + Flatten(pairs)
      invariant forall k :: 0 <= k < |pairs| ==> pairs[k].0 in data && pairs[k].0 !in names && data[pairs[k].0] == pairs[k].1
      invariant forall n :: n in data && n !in names ==> exists k :: 0 <= k < |pairs| && pairs[k].0 == n
      invariant forall k, l :: 0 <= k < l < |pairs| ==> pairs[k].0 != pairs[l].0
      decreases names
    {
      var name :| name in names;
      extended := extended + ["--" + name, data[name]];
      assert (pairs + [(name, data[name])])[..|pairs|] == pairs;
      pairs := pairs + [(name, data[name])];
      names := names - {name};
    }
  }
}
