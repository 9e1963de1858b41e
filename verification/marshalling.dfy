/**
 * The variables handed to the runner (`_get_runner_variables`): who
 * elevated the privileges, the script's own name, and every parsed
 * argument under a `param_` prefix.
 */
module Marshalling {
  import opened Python
  import opened Text

  const SudoUserKey: string := "sudo_user"
  const ScriptNameKey: string := "script_name"
  const ParamPrefix: string := "param_"

  /** The runner variable for the parsed attribute `attr`. */
  function ParamVariable(attr: (string, Value)): (string, Value)
  {
    (ParamPrefix + attr.0, attr.1)
  }

  /** The variables yielded before the parsed arguments: `sudo_user` when set, then `script_name`. */
  function Head(sudoUser: string, script: string): (r: seq<(string, Value)>)
    ensures |r| == if sudoUser != "" then 2 else 1
  {
    var name := (ScriptNameKey, PyStr(AfterLast(script, '/')));
    if sudoUser != "" then [(SudoUserKey, PyStr(sudoUser)), name] else [name]
  }

  /** One `param_<name>` variable per attribute, in the namespace's order. */
  function ParamVariables(attrs: seq<(string, Value)>): (r: seq<(string, Value)>)
    ensures |r| == |attrs|
    ensures forall i :: 0 <= i < |attrs| ==> r[i] == ParamVariable(attrs[i])
  {
    seq(|attrs|, i requires 0 <= i < |attrs| => ParamVariable(attrs[i]))
  }

  /**
   * The variables in the order they are yielded: `sudo_user` first and
   * only when elevation set a user, then `script_name` as the basename of
   * `argv[0]`, then one `param_<name>` per attribute of the namespace.
   */
  function RunnerVariables(sudoUser: string, script: string, ns: Namespace): (r: seq<(string, Value)>)
    ensures var offset := if sudoUser != "" then 1 else 0;
      && |r| == offset + 1 + |ns|
      && (sudoUser != "" ==> r[0] == (SudoUserKey, PyStr(sudoUser)))
      && r[offset] == (ScriptNameKey, PyStr(AfterLast(script, '/')))
      && forall i :: 0 <= i < |ns| ==> r[offset + 1 + i] == ParamVariable(ns[i])
  {
    var head := Head(sudoUser, script);
    var params := ParamVariables(ns);
    assert forall i :: 0 <= i < |head| ==> (head + params)[i] == head[i];
    assert forall i :: 0 <= i < |ns| ==> (head + params)[|head| + i] == params[i];
    head + params
  }

  /** The namespace a runner reads back: the `param_` variables with their prefix removed. */
  function ParsedFrom(vars: seq<(string, Value)>): (r: seq<(string, Value)>)
    ensures |r| <= |vars|
  {
    if vars == [] then []
    else
      var last := vars[|vars| - 1];
      ParsedFrom(vars[..|vars| - 1]) +
      (if StartsWith(last.0, ParamPrefix) then [(last.0[|ParamPrefix|..], last.1)] else [])
  }

  lemma {:induction false} ParsedFromAppend(vars: seq<(string, Value)>, more: seq<(string, Value)>)
    ensures ParsedFrom(vars + more) == ParsedFrom(vars) + ParsedFrom(more)
    decreases |more|
  {
    if more == [] {
      assert vars + more == vars;
    } else {
      var init := more[..|more| - 1];
      assert (vars + more)[..|vars + more| - 1] == vars + init;
      ParsedFromAppend(vars, init);
    }
  }

  lemma {:induction false} ParsedFromParams(attrs: seq<(string, Value)>)
    ensures ParsedFrom(ParamVariables(attrs)) == attrs
    decreases |attrs|
  {
    var vars := ParamVariables(attrs);
    if attrs != [] {
      var init := attrs[..|attrs| - 1];
      assert vars[..|vars| - 1] == ParamVariables(init);
      ParsedFromParams(init);
      var last := vars[|vars| - 1];
      assert StartsWith(last.0, ParamPrefix);
      assert last.0[|ParamPrefix|..] == attrs[|attrs| - 1].0;
    }
  }

  lemma HeadHasNoParams(sudoUser: string, script: string)
    ensures ParsedFrom(Head(sudoUser, script)) == []
  {
    var named := [(ScriptNameKey, PyStr(AfterLast(script, '/')))];
    assert ScriptNameKey[1] != ParamPrefix[1];
    assert ParsedFrom(named) == ParsedFrom([]);
    if sudoUser != "" {
      var sudo := [(SudoUserKey, PyStr(sudoUser))];
      assert SudoUserKey[1] != ParamPrefix[1];
      assert ParsedFrom(sudo) == ParsedFrom([]);
      ParsedFromAppend(sudo, named);
    } else {
      assert Head(sudoUser, script) == named;
    }
  }

  /**
   * Nothing of the namespace is lost or added: reading the `param_`
   * variables back gives every parsed attribute, with its value, in order.
   */
  lemma RunnerVariablesKeepNamespace(sudoUser: string, script: string, ns: Namespace)
    ensures ParsedFrom(RunnerVariables(sudoUser, script, ns)) == ns
  {
    ParsedFromAppend(Head(sudoUser, script), ParamVariables(ns));
    HeadHasNoParams(sudoUser, script);
    ParsedFromParams(ns);
  }

  lemma ParamNamesDistinct(ns: Namespace)
    ensures DistinctNames(ParamVariables(ns))
    ensures forall i :: 0 <= i < |ns| ==> StartsWith(ParamVariables(ns)[i].0, ParamPrefix)
  {
    var params := ParamVariables(ns);
    forall i, j | 0 <= i < j < |params| ensures params[i].0 != params[j].0 {
      assert params[i].0[|ParamPrefix|..] == ns[i].0;
      assert params[j].0[|ParamPrefix|..] == ns[j].0;
    }
    forall i | 0 <= i < |ns| ensures StartsWith(params[i].0, ParamPrefix) {
      assert params[i].0[..|ParamPrefix|] == ParamPrefix;
    }
  }

  lemma DistinctAppend(a: seq<(string, Value)>, b: seq<(string, Value)>)
    requires DistinctNames(a) && DistinctNames(b)
    requires forall i, j :: 0 <= i < |a| && 0 <= j < |b| ==> a[i].0 != b[j].0
    ensures DistinctNames(a + b)
  {
    var r := a + b;
    forall i, j | 0 <= i < j < |r| ensures r[i].0 != r[j].0 {
      if j >= |a| {
        assert r[j] == b[j - |a|];
        if i >= |a| {
          assert r[i] == b[i - |a|];
        }
      }
    }
  }

  /** Each variable name is yielded once: a runner may read them into a dict without losing any. */
  lemma RunnerVariableNamesDistinct(sudoUser: string, script: string, ns: Namespace)
    ensures DistinctNames(RunnerVariables(sudoUser, script, ns))
  {
    var head := Head(sudoUser, script);
    var params := ParamVariables(ns);
    ParamNamesDistinct(ns);
    assert SudoUserKey[1] != ScriptNameKey[1];
    forall i, j | 0 <= i < |head| && 0 <= j < |params| ensures head[i].0 != params[j].0 {
      assert head[i].0[1] != ParamPrefix[1];
      assert params[j].0[..|ParamPrefix|] == ParamPrefix;
    }
    DistinctAppend(head, params);
  }
}
