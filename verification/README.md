# Paternoster argument handling and control flow, in Dafny

Paternoster runs a playbook on behalf of a user whose privileges are
elevated. Its `Paternoster` class turns a developer-written list of
parameter declarations (dicts with `name`, `short`, `type`, `prompt`,
`depends_on`, ...) into command-line arguments. It enforces a type policy
so that no free-form string reaches the playbook, prompts for values left
out, checks the dependencies between arguments and hands the result to the
runner as `param_<name>` variables. This project models that class and
proves what its rules promise.

Modules, each in its own file:

- `Wrappers`: `Option`, `Result` and `Outcome`.
- `Python`: the slice of Python the class relies on. Values and their
  truthiness, `dict.get`, the exceptions raised, a parsed namespace as
  name/value pairs with distinct names, and `Halt`. A `Halt` is the way a
  run stops: an exit status with its message, or an uncaught exception.
- `Text`: `str.strip`, `str.title`, `str.startswith` and the text after
  the last separator (`os.path.basename`, `str.rpartition`), over ASCII.
- `Arguments`: type-name resolution, the type policy, option strings and
  argument groups, and the loop that adds every declaration to the parser.
- `Dependencies`: the `depends_on` rule, checked after parsing.
- `Prompting`: reading one value from the terminal (`get_input`) and
  prompting for every selected declaration (`_prompt_for_missing`). The
  terminal is the sequence of lines the user types.
- `Marshalling`: the variables handed to the runner.
- `Control`: the `Paternoster` class and its fields `sudoUser` and
  `parsedArgs`. Also `parse_args`, `execute` and `auto` with their exit
  statuses.

Everything the class reaches outside itself is a parameter, bundled in
`Control.Env`:

- `sys.argv`;
- the typed lines;
- `check_user` and `become_user` from `paternoster.root`;
- argparse's `parse_args` for the built arguments;
- the runner's `run`.

Where the dict order of the prompted answers is unspecified, the methods
choose an order nondeterministically. Their contracts hold for every order
and say "for some order `pairs` with one pair per answer".

Points where the code's behaviour is easy to misread; the model follows
the code:

- `parser.error` exits with status 2; it does not raise a ValueError. So a
  dependency violation ends `parse_args` with status 2, not 3. So does a
  required declaration that also asks for a prompt.
- The parser is built before the `try` of `parse_args`. So the type
  policy's ValueError, and the exception for an unknown type name, are
  not turned into status 3. They escape as uncaught exceptions
  (`Control.StrTypedDeclarationEscapes`).
- An empty string given as `prompt` is used as the prompt text. Only a
  non-string falls back to the title-cased name.
- `get_input` compares the confirmation unstripped, even with `strip` set
  (`Prompting.ConfirmationIsNotStripped`).

## Model

| member | source | states |
|---|---|---|
| `Arguments.CheckType` | paternoster/paternoster.py:45-57 | Passes exactly when the action (default `store`) is whitelisted, or a type is given and it is not a string class. Otherwise the ValueError carries the missing-type or the string-type message. |
| `Arguments.ConvertType` | paternoster/paternoster.py:59-74 | 'int' and 'str' resolve to the classes. `paternoster.types.X` becomes an `X` built from `type_params`, and non-dict params raise a TypeError. Any other name raises 'unknown type'. A non-string truthy type is kept, and a falsy or missing type leaves no `type` key. `type_params` is always removed and no other key changes. |
| `Arguments.AddArgument` | paternoster/paternoster.py:89-115 | A declaration is accepted exactly when its type resolves, the resolved options pass the type policy, its option strings can be formed, and it is not both required and prompted. The options forwarded are the resolved ones: the library's own keys and `type_params` are never forwarded, and every other key is. A resolution error or a policy error is raised as it is. A positional gets `[name]`, any other `['-'+short, '--'+name]`. A required or positional declaration goes into the required group. One that also has a prompt is refused with exit status 2 and the conflict message. |
| `Arguments.Rejection` | paternoster/paternoster.py:89-115 | Building stops exactly when some declaration is refused, and then with the first refused declaration's error. |
| `Arguments.BuildArgparser` | paternoster/paternoster.py:76-122 | Help first, one argument per declaration in order, verbose last, or the first refused declaration's error. Succeeds exactly when every declaration is accepted. |
| `Arguments.FirstRejectedUnique` | paternoster/paternoster.py:89-115 | The first refused declaration alone decides how building stops. |
| `Arguments.StrTypeNameRefused` | paternoster/paternoster.py:53-67 | A declaration typed 'str' with the default action is refused with the string-type ValueError. |
| `Dependencies.CheckParam` | paternoster/paternoster.py:159-166 | Fails with exit status 2 exactly when the parameter is truthy, declares `depends_on`, and its dependency is absent or falsy. The message names both parameters. A missing or non-string name, or a non-string `depends_on`, raises. A named declaration without `depends_on` never fails. |
| `Dependencies.Violation` | paternoster/paternoster.py:158-166 | Passes exactly when every declaration's check passes. Otherwise it is the first failing declaration's outcome. |
| `Dependencies.CheckArgDependencies` | paternoster/paternoster.py:158-166 | The loop stops at the first failing declaration. It passes exactly when all dependencies hold. |
| `Dependencies.DependencyCheckIgnoresOrder` | paternoster/paternoster.py:159-166 | Whether the check passes does not depend on the order of the declarations. |
| `Dependencies.MailserverScenario` | paternoster/paternoster.py:158-166 | A namespace given without the flag it depends on is refused with the two names. With the flag, it is accepted. |
| `Prompting.SettingsOf` | paternoster/paternoster.py:264-282 | The prompt is `prompt` when that is a string, otherwise the title-cased name plus ': '. Confirmation is asked when `confirm` is truthy and a bool or string, with a string `confirm` as its prompt. A mismatch reports `confirm_error` when that is truthy, else the default message. The three prompt options are the truth of their keys. A missing name raises KeyError('name'). It also fails when the options are not a dict, or when a non-string name would have to be title-cased. |
| `Prompting.FirstAnswer` | paternoster/paternoster.py:284-290 | The first line that ends the re-prompting: its value is non-empty, or `accept_empty` is set. Every earlier line was refused. |
| `Prompting.ReadAnswerValue` | paternoster/paternoster.py:284-302 | A returned value is the first accepted line, stripped when `strip` is set. It is non-empty unless `accept_empty` is set, and with confirmation on, the next raw line equals it. |
| `Prompting.StrippedAnswerIsTrimmed` | paternoster/paternoster.py:287-290 | With `strip` set, a returned value has no whitespace at either end. |
| `Prompting.ReadAnswerPrompts` | paternoster/paternoster.py:284-294 | One prompt per line read: the prompt text for each attempt, then the confirmation prompt. |
| `Prompting.ReadAnswerErrors` | paternoster/paternoster.py:292-300 | A ValueError comes only from a confirmation that differs from the accepted value, and carries `confirm_error` or the default message. An EOFError comes only once every line is used. |
| `Prompting.ReadAnswerOutcome` | paternoster/paternoster.py:284-302 | Input that runs out before an accepted line, or before the confirmation, is an EOFError. Without confirmation the first accepted line is returned. With it, a matching confirmation returns the value and a differing one raises the confirmation error. |
| `Prompting.GetInput` | paternoster/paternoster.py:243-302 | The settings' errors are raised before anything is read. Otherwise the value is read by the loop, proved against `ReadInput`. |
| `Prompting.Ask` | paternoster/paternoster.py:284-302 | The re-prompt loop and the confirmation, proved against `ReadAnswer`. |
| `Prompting.ConfirmationIsNotStripped` | paternoster/paternoster.py:287-295 | With `strip` and `confirm` set, ' pw' typed twice is refused. |
| `Prompting.PromptNeeded` | paternoster/paternoster.py:134-139 | A declaration is selected exactly when `prompt` is truthy and a bool or string, and its parsed value is None. |
| `Prompting.CollectAnswersSelected` | paternoster/paternoster.py:141-144 | Prompting answers exactly the selected names. |
| `Prompting.CollectAnswersAccepted` | paternoster/paternoster.py:141-144 | Every answer is an accepted value of a selected declaration of that name. |
| `Prompting.CollectWithoutPrompts` | paternoster/paternoster.py:134-144 | With no declaration asking for a prompt, nothing is read and nothing is answered. |
| `Prompting.PairsExist` | paternoster/paternoster.py:149-151 | Every set of answers can be listed as one pair per answer. |
| `Prompting.PromptAll` | paternoster/paternoster.py:141-144 | The prompting loop, proved against `Collect`. |
| `Prompting.ExtendArgv` | paternoster/paternoster.py:148-151 | The command line gets one `--name value` pair per answer, exactly once each, in some order. |
| `Prompting.PromptForMissing` | paternoster/paternoster.py:124-156 | With nothing to prompt for, `args` comes back unchanged and nothing is re-parsed. Otherwise the re-parsed command line is `argv` (or `sys.argv[1:]` when `argv` is empty or None) followed by one pair per answer. A prompting error is raised. |
| `Marshalling.RunnerVariables` | paternoster/paternoster.py:203-213 | `sudo_user` comes first and only when set. `script_name` is the basename of `argv[0]`. Then one `param_<name>` per attribute, in order. |
| `Marshalling.RunnerVariablesKeepNamespace` | paternoster/paternoster.py:209-213 | Reading the `param_` variables back gives the parsed namespace exactly. |
| `Marshalling.RunnerVariableNamesDistinct` | paternoster/paternoster.py:203-213 | Every variable name is yielded once. |
| `Control.Lookup` | paternoster/paternoster.py:37-43 | A declaration named `fname` (by name or short name) with only other named declarations before it is returned. The lookup succeeds exactly when such a declaration exists. It raises KeyError('name') exactly when a nameless declaration comes before any match. It raises the not-found KeyError exactly when every declaration has a name and none matches. |
| `Control.CatchValueError` | paternoster/paternoster.py:199-201 | A ValueError becomes exit status 3 with its message. Every other stop passes unchanged. |
| `Control.ParsedArgumentsMeetDependencies` | paternoster/paternoster.py:192-201 | What `parse_args` keeps satisfies every dependency, and every declaration was accepted. |
| `Control.ValueErrorsExitThree` | paternoster/paternoster.py:192-201 | Once the parser is built, no ValueError leaves `parse_args`. A ValueError from the first parse, from prompting (a confirmation mismatch) or from the parse with the answers added is exit status 3 with its message. |
| `Control.StrTypedDeclarationEscapes` | paternoster/paternoster.py:192-193 | The type policy's ValueError raised while building the parser escapes `parse_args` uncaught. |
| `Control.NoPromptNoAnswers` | paternoster/paternoster.py:133-156 | Without prompting declarations nothing is answered, so the command line is not parsed a second time. |
| `Control.TryParse` | paternoster/paternoster.py:194-198 | Parse, prompt and check dependencies, proved against `Attempt`. |
| `Control.Paternoster.constructor` | paternoster/paternoster.py:18-35 | No declarations defaults to an empty list. No sudo user and no parsed namespace yet. |
| `Control.Paternoster.FindParam` | paternoster/paternoster.py:37-43 | The lookup loop, proved against `Lookup`. |
| `Control.Paternoster.CheckUser` | paternoster/paternoster.py:168-173 | Does nothing when no user is configured or the user matches. Otherwise exit status 1 with the message. |
| `Control.Paternoster.BecomeUser` | paternoster/paternoster.py:175-183 | Does nothing when no user is configured. Otherwise the elevation's sudo user is kept, and its ValueError is exit status 1 with `sudoUser` unchanged. |
| `Control.Paternoster.ParseArgs` | paternoster/paternoster.py:192-201 | Keeps the namespace exactly when parsing succeeds, as `ParseOutcome` says. Otherwise it stops and leaves `parsedArgs` unchanged. |
| `Control.Paternoster.Execute` | paternoster/paternoster.py:215-219 | Runs with the runner variables and the parsed verbosity. Prints the success message only when the status is truthy and a message is set. |
| `Control.Paternoster.AutoExitStatus` | paternoster/paternoster.py:185-190 | Once the runner ran, `auto` exits with 0 exactly when its status is truthy, and 1 otherwise. A refused user exits with 1, then a failed elevation with 1, then a parse stop as it is. |
| `Control.Paternoster.Auto` | paternoster/paternoster.py:185-190 | Check, elevate, parse, run and exit as `AutoOutcome` says. Once the user check passes, `sudoUser` is the elevation's user, or unchanged when no user is configured or the elevation fails. `parsedArgs` holds the parsed namespace exactly when the privilege steps and parsing succeed, and is unchanged otherwise. A refused user changes no state. |
| `Control.Paternoster.ParseAndExecute` | paternoster/paternoster.py:187-190 | Parse, then run and exit by the status, as `Finish` says. `parsedArgs` holds the parsed namespace when parsing succeeds, and is unchanged when it stops. |
| `Text.Strip` | paternoster/paternoster.py:287-288 | The result is empty exactly when the input is all whitespace. It has no whitespace at either end and is the slice left after cutting whitespace only. |
| `Text.StripIdempotent` | paternoster/paternoster.py:287-288 | Stripping twice is stripping once. |
| `Text.Title` | paternoster/paternoster.py:273-274 | Each cased character is upper case at the start of a word and lower case inside one. |
| `Text.TitleIdempotent` | paternoster/paternoster.py:273-274 | Title-casing twice is title-casing once. |
| `Text.AfterLast` | paternoster/paternoster.py:69 | The longest suffix free of the separator, which is preceded by the separator when shorter than the input. |

## Left out

- argparse itself is left out: parsing, help output and `parser.error`'s own output. It is the `Env.parse` parameter, and the built arguments are data (`Arguments.Argument`). The argparse mapping of `-` to `_` in attribute names is not modelled either.
- `paternoster.types` and `paternoster.root` are not part of this model. A validator class is an opaque `PyObject` named after the text after the last dot. Looking a name up in `paternoster.types` cannot fail in the model, where the real lookup can raise AttributeError. `check_user` is a boolean function. `become_user` gives a user name or the argument of its ValueError; its other exceptions are not modelled.
- The runner (`AnsibleRunner`) and the `runner_class`/`runner_parameters` arguments are left out. `run` is an uninterpreted function of the variables and the verbosity. `description` only reaches the help text and is left out.
- Terminal I/O (`prompt`, `getpass`, `input`) is left out. So are echo control and the exit with status 3 on KeyboardInterrupt. The typed lines are a sequence, and running out of them is an EOFError.
- Output is returned, not printed. Printing to stdout is the `stdout` out-parameter of `Execute` and `Auto`. Printing to stderr is the message of an `Exit`, and `sys.exit` is a `Halt`.
- The Python 2 `decode('utf-8')` of string values in `_get_runner_variables` is text-encoding plumbing and is left out.
- The iteration order of the prompted answers is not fixed: the model allows every order.
- setup.py holds packaging metadata only.
- `Text.Strip` removes the whitespace of Python 2 byte strings (space, \t, \n, \r, \v, \f). Python 3 `str.strip()` also removes '\x1c' to '\x1f' and Unicode whitespace, which are not modelled. `Text.Title` covers ASCII case only.
- User names, the sudo user and the success message are strings, with "" for unset. A non-string configured value, and `become_user` returning a non-string, are not modelled.
- `Arguments.OptionStrings` treats a non-string name of a positional declaration as a TypeError, where argparse would receive the value as it is.
- `Arguments.BuildArgparser` does not model argparse's own refusals inside `add_argument`. These are option strings that clash with `-h`/`--help` or `-v`/`--verbose` (short 'h' or 'v', name 'help' or 'verbose'), or with each other, under the default conflict handler. They also include `required` on a positional (TypeError) and an unknown action (ValueError). Each escapes `parse_args` uncaught, while the model builds the arguments.
- `Arguments.ConvertType` returns the converted dict. The source pops keys from the copy in place.
- `Control.Paternoster.Execute` models `vars(self._parsed_args)` as the namespace's attribute list, in its order.
