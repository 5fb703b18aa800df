/**
 From resolved parameters to environment variables (pkg/runtime/parameters.go and
 internal/containers/parameters.go).
 */
module ParameterVariables {
  import opened Wrappers
  import opened Containers
  import P = Parameters
  import ScanPod

  predicate IsPlain(ch: char) { 'a' <= ch <= 'z' || 'A' <= ch <= 'Z' || '0' <= ch <= '9' || ch == '_' }

  /** The variable of a parameter: characters that a variable cannot have become underscores. */
  function Variable(name: string): string {
    ScanPod.PARAMETER_PREFIX + seq(|name|, k requires 0 <= k < |name| => if IsPlain(name[k]) then name[k] else '_')
  }

  /** The loop over the characters. */
  method ParameterToEnvironmentVariable(name: string) returns (variable: string)
    ensures variable == Variable(name)
    ensures |variable| == |"OCULAR_PARAM_"| + |name| && "OCULAR_PARAM_" <= variable
    ensures forall k :: 0 <= k < |name| ==>
      variable[|"OCULAR_PARAM_"| + k] == if IsPlain(name[k]) then name[k] else '_'
  {
    var result := "";
    for k := 0 to |name|
      invariant |result| == k
      invariant forall j :: 0 <= j < k ==> result[j] == if IsPlain(name[j]) then name[j] else '_'
    {
      var nextChar := '_';
      if IsPlain(name[k]) {
        nextChar := name[k];
      }
      result := result + [nextChar];
    }
    variable := "OCULAR_PARAM_" + result;
  }

  /** Two parameters share a variable if and only if their names have the same length and differ only where
      both have characters that stand for an underscore. */
  lemma SameVariableIff(a: string, b: string)
    ensures Variable(a) == Variable(b) <==>
      && |a| == |b|
      && forall k :: 0 <= k < |a| ==> a[k] == b[k] || (Blank(a[k]) && Blank(b[k]))
  {
    var prefix := |ScanPod.PARAMETER_PREFIX|;
    assert forall k :: 0 <= k < |a| ==> Variable(a)[prefix + k] == if IsPlain(a[k]) then a[k] else '_';
    assert forall k :: 0 <= k < |b| ==> Variable(b)[prefix + k] == if IsPlain(b[k]) then b[k] else '_';
    if Variable(a) == Variable(b) {
      forall k | 0 <= k < |a| ensures a[k] == b[k] || (Blank(a[k]) && Blank(b[k])) {
        assert Variable(a)[prefix + k] == Variable(b)[prefix + k];
      }
    }
  }

  predicate Blank(ch: char) { ch == '_' || !IsPlain(ch) }

  /** The variables `env` carry the values `params`, one each, in the order `order`. */
  ghost predicate Carries(env: seq<EnvVar>, order: seq<string>, params: P.Values) {
    && |env| == |order| && (forall n :: n in order <==> n in params) && Distinct(order)
    && forall k :: 0 <= k < |order| ==> env[k] == EnvVar(Variable(order[k]), params[order[k]])
  }

  ghost predicate Distinct(order: seq<string>) { forall j, k :: 0 <= j < k < |order| ==> order[j] != order[k] }

  /** Every parameter as a variable, in any order. */
  method ParseParameterEnvVars(defs: seq<P.Definition>, settings: seq<P.Setting>, parent: Option<P.Values>)
    returns (env: seq<EnvVar>, ghost order: seq<string>)
    ensures Carries(env, order, P.Resolve(defs, settings, parent)) && ScanPod.AreParameters(env)
  {
    var params := P.ParseParameters(defs, settings, parent);
    env, order := EnvVarsOf(params);
    CarriedAreParameters(env, order, params);
  }

  method EnvVarsOf(params: P.Values) returns (env: seq<EnvVar>, ghost order: seq<string>)
    ensures Carries(env, order, params)
  {
    env, order := [], [];
    var left := params.Keys;
    while left != {}
      invariant left <= params.Keys && |env| == |order| && Distinct(order)
      invariant forall n :: n in order <==> n in params && n !in left
      invariant forall k :: 0 <= k < |order| ==> order[k] in order
      invariant forall k :: 0 <= k < |order| ==> env[k] == EnvVar(Variable(order[k]), params[order[k]])
      decreases left
    {
      var n :| n in left;
      var variable := ParameterToEnvironmentVariable(n);
      env, order := env + [EnvVar(variable, params[n])], order + [n];
      left := left - {n};
    }
  }

  lemma CarriedAreParameters(env: seq<EnvVar>, order: seq<string>, params: P.Values)
    requires Carries(env, order, params)
    ensures ScanPod.AreParameters(env)
  {
    forall e | e in env ensures ScanPod.PARAMETER_PREFIX <= e.name {
      var k :| 0 <= k < |env| && env[k] == e;
      assert env[k].name == Variable(order[k]);
    }
  }

  ghost predicate NamesDiffer(params: P.Values) {
    forall m, n :: m in params && n in params && Variable(m) == Variable(n) ==> m == n
  }

  /** In the built pod an uploader finds the resolved value of every parameter under its variable, as long as
      no two of its parameters share one. */
  lemma UploaderGetsValues(i: ScanPod.Input, u: ScanPod.Uploader, order: seq<string>, params: P.Values, n: string)
    requires Carries(u.parameters, order, params) && ScanPod.AreParameters(u.parameters)
    requires NamesDiffer(params) && n in params
    ensures Lookup(ScanPod.UploaderContainer(i, u).env, Variable(n)) == params[n]
  {
    var k :| 0 <= k < |order| && order[k] == n;
    forall j | k < j < |u.parameters| ensures u.parameters[j].name != u.parameters[k].name {
      assert order[j] in params && order[j] != order[k];
    }
    ScanPod.UploaderSeesParameters(i, u, k);
  }

  /** So does a scanner. */
  lemma ScannerGetsValues(i: ScanPod.Input, c: Container, order: seq<string>, params: P.Values, n: string)
    requires Carries(i.scannerParameters, order, params) && ScanPod.AreParameters(i.scannerParameters)
    requires NamesDiffer(params) && n in params
    ensures Lookup(ScanPod.ScannerContainer(i, c).env, Variable(n)) == params[n]
  {
    var k :| 0 <= k < |order| && order[k] == n;
    forall j | k < j < |i.scannerParameters| ensures i.scannerParameters[j].name != i.scannerParameters[k].name {
      assert order[j] in params && order[j] != order[k];
    }
    ScanPod.ScannerSeesParameters(i, c, k);
  }

  /** Of two parameters that share a variable one is lost: the order, which the source leaves to the map,
      decides which. */
  lemma SharedVariableLosesOne(order: seq<string>, env: seq<EnvVar>, params: P.Values, a: string, b: string)
    requires Carries(env, order, params) && a in params && b in params && a != b && Variable(a) == Variable(b)
    requires params[a] != params[b]
    ensures Lookup(env, Variable(a)) != params[a] || Lookup(env, Variable(b)) != params[b]
  {
  }
}
