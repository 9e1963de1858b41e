/**
 * The post-parse dependency rule: a parameter that was given a truthy
 * value and declares `depends_on` needs a truthy value for the parameter
 * it depends on.
 */
module Dependencies {
  import opened Wrappers
  import opened Python
  import opened Arguments

  function DependencyMessage(name: string, dependency: string): string
  {
    "argument --" + name + " requires --" + dependency + " to be present."
  }

  /** `getattr(args, name, None)` is truthy. */
  predicate Given(ns: Namespace, name: string)
  {
    Truthy(GetAttrOrNone(ns, name))
  }

  /**
   * The check of one declaration against the parsed namespace. It fails
   * with argparse's usage error (exit status 2) exactly when the
   * parameter is given, declares a dependency, and that dependency is
   * absent or falsy; the message names both parameters. A declaration
   * without `depends_on` never fails the check.
   */
  function CheckParam(p: Param, ns: Namespace): (r: Outcome<Halt>)
    ensures (r.Fail? && r.error.Exit?) <==>
      NameOf(p).Success? && "depends_on" in p && p["depends_on"].PyStr? &&
      Given(ns, NameOf(p).value) && !Given(ns, p["depends_on"].s)
    ensures r.Fail? && r.error.Exit? ==>
      NameOf(p).Success? && "depends_on" in p && p["depends_on"].PyStr? &&
      r.error == Exit(2, PyStr(DependencyMessage(NameOf(p).value, p["depends_on"].s)))
    ensures (r.Fail? && r.error.Raise?) <==>
      NameOf(p).Failure? || ("depends_on" in p && !p["depends_on"].PyStr?)
    ensures "depends_on" !in p && NameOf(p).Success? ==> r.Pass?
  {
    match NameOf(p)
    case Failure(e) => Fail(Raise(e))
    case Success(name) =>
      if "depends_on" !in p then Pass
      else if !p["depends_on"].PyStr? then Fail(Raise(TypeError))
      else if Given(ns, name) && !Given(ns, p["depends_on"].s) then
        Fail(Exit(2, PyStr(DependencyMessage(name, p["depends_on"].s))))
      else Pass
  }

  predicate DependenciesHold(params: seq<Param>, ns: Namespace)
  {
    forall i :: 0 <= i < |params| ==> CheckParam(params[i], ns).Pass?
  }

  /** The outcome of the first declaration whose check fails, or Pass when every check passes. */
  function Violation(params: seq<Param>, ns: Namespace): (r: Outcome<Halt>)
    ensures r.Pass? <==> DependenciesHold(params, ns)
    ensures r.Fail? ==> exists i :: 0 <= i < |params| && r == CheckParam(params[i], ns) &&
                                    forall j :: 0 <= j < i ==> CheckParam(params[j], ns).Pass?
  {
    if params == [] then Pass
    else
      var first := CheckParam(params[0], ns);
      if first.Fail? then first
      else
        var rest := Violation(params[1..], ns);
        assert forall j :: 1 <= j < |params| ==> params[j] == params[1..][j - 1];
        if rest.Fail? then
          var i :| 0 <= i < |params[1..]| && rest == CheckParam(params[1..][i], ns) &&
                   forall j :: 0 <= j < i ==> CheckParam(params[1..][j], ns).Pass?;
          assert forall j :: 0 <= j < i + 1 ==> CheckParam(params[j], ns).Pass?;
          rest
        else rest
  }

  /**
   * Checks the declarations in order and stops at the first one that
   * fails.
   */
  method CheckArgDependencies(params: seq<Param>, ns: Namespace) returns (r: Outcome<Halt>)
    ensures r.Pass? <==> DependenciesHold(params, ns)
    ensures r.Fail? ==> exists i :: 0 <= i < |params| && r == CheckParam(params[i], ns) &&
                                    forall j :: 0 <= j < i ==> CheckParam(params[j], ns).Pass?
    ensures r == Violation(params, ns)
  {
    var i := 0;
    while i < |params|
      invariant 0 <= i <= |params|
      invariant forall j :: 0 <= j < i ==> CheckParam(params[j], ns).Pass?
      invariant Violation(params, ns) == Violation(params[i..], ns)
    {
      assert params[i..][1..] == params[i + 1..];
      var checked := CheckParam(params[i], ns);
      if checked.Fail? {
        return checked;
      }
      i := i + 1;
    }
    return Pass;
  }

  /** Whether the check passes does not depend on the order of the declarations. */
  lemma {:induction false} DependencyCheckIgnoresOrder(params: seq<Param>, others: seq<Param>, ns: Namespace)
    requires multiset(params) == multiset(others)
    ensures DependenciesHold(params, ns) <==> DependenciesHold(others, ns)
  {
    if DependenciesHold(params, ns) {
      forall i | 0 <= i < |others| ensures CheckParam(others[i], ns).Pass? {
        assert others[i] in multiset(params);
        var j :| 0 <= j < |params| && params[j] == others[i];
      }
    }
    if DependenciesHold(others, ns) {
      forall i | 0 <= i < |params| ensures CheckParam(params[i], ns).Pass? {
        assert params[i] in multiset(others);
        var j :| 0 <= j < |others| && others[j] == params[i];
      }
    }
  }

  const Mailserver: Param := map["name" := PyStr("mailserver"), "short" := PyStr("m"), "action" := PyStr("store_true")]
  const NamespaceParam: Param :=
    map["name" := PyStr("namespace"), "short" := PyStr("e"),
        "type" := PyObject("restricted_str", map["allowed_chars" := PyStr("a-z0-9")]),
        "depends_on" := PyStr("mailserver")]

  /**
   * A flag `mailserver` and a restricted `namespace` that depends on it:
   * `-e myns` alone is refused, `-m -e myns` is accepted.
   */
  lemma MailserverScenario(alone: Namespace, both: Namespace)
    requires alone == [("mailserver", PyBool(false)), ("namespace", PyStr("myns")), ("verbose", PyInt(0))]
    requires both == [("mailserver", PyBool(true)), ("namespace", PyStr("myns")), ("verbose", PyInt(0))]
    ensures CheckParam(NamespaceParam, alone) == Fail(Exit(2, PyStr(DependencyMessage("namespace", "mailserver"))))
    ensures DependenciesHold([Mailserver, NamespaceParam], both)
  {
    assert GetAttr(alone, "namespace") == Some(PyStr("myns"));
    assert GetAttr(alone, "mailserver") == Some(PyBool(false));
    assert GetAttr(both, "mailserver") == Some(PyBool(true));
  }
}
