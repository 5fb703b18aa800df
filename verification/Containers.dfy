/** Container options (internal/containers/options.go). */
module Containers {

  datatype EnvVar = EnvVar(name: string, value: string)

  datatype Container = Container(
    name: string, command: seq<string>, args: seq<string>, env: seq<EnvVar>, workingDir: string, mounts: seq<string>)

  const CONTAINER_NAME := "OCULAR_CONTAINER_NAME"

  /** The option closures of the source, as data. */
  datatype Edit =
    | AdditionalEnvVars(envs: seq<EnvVar>)
    | AdditionalArgs(args: seq<string>)
    | NamePrefix(prefix: string)
    | WrapCommand(entrypoint: seq<string>)
    | AdditionalVolumeMounts(mounts: seq<string>)
    | WorkingDir(dir: string)
    | ContainerNameEnvVar

  function Apply(e: Edit, c: Container): Container {
    match e
    case AdditionalEnvVars(envs) => c.(env := c.env + envs)
    case AdditionalArgs(args) => c.(args := c.args + args)
    case NamePrefix(prefix) => c.(name := prefix + c.name)
    case WrapCommand(entrypoint) => c.(args := c.command + c.args, command := entrypoint)
    case AdditionalVolumeMounts(mounts) => c.(mounts := c.mounts + mounts)
    case WorkingDir(dir) => c.(workingDir := dir)
    case ContainerNameEnvVar => c.(env := c.env + [EnvVar(CONTAINER_NAME, c.name)])
  }

  /** The options one after the other. */
  function ApplyAll(c: Container, edits: seq<Edit>): Container {
    if edits == [] then c
    else Apply(edits[|edits| - 1], ApplyAll(c, edits[..|edits| - 1]))
  }

  lemma {:induction false} ApplyAllConcat(c: Container, first: seq<Edit>, second: seq<Edit>)
    ensures ApplyAll(c, first + second) == ApplyAll(ApplyAll(c, first), second)
  {
    if second == [] {
      assert first + second == first;
    } else {
      var k := |second| - 1;
      ApplyAllConcat(c, first, second[..k]);
      assert (first + second)[..|first| + k] == first + second[..k];
    }
  }

  /** An option works on its own copy of the container struct. */
  method ApplyOptionsTo(c: Container, options: seq<Edit>) returns (r: Container)
    ensures r == ApplyAll(c, options)
  {
    r := c;
    for k := 0 to |options|
      invariant r == ApplyAll(c, options[..k])
    {
      assert options[..k + 1][..k] == options[..k];
      r := Apply(options[k], r);
    }
    assert options[..|options|] == options;
  }

  /** The options are applied to every element of the slice, in place. */
  method ApplyOptionsToAll(containers: array<Container>, options: seq<Edit>)
    modifies containers
    ensures forall i :: 0 <= i < containers.Length ==> containers[i] == ApplyAll(old(containers[i]), options)
  {
    for i := 0 to containers.Length
      invariant forall j :: 0 <= j < i ==> containers[j] == ApplyAll(old(containers[j]), options)
      invariant forall j :: i <= j < containers.Length ==> containers[j] == old(containers[j])
    {
      for k := 0 to |options|
        invariant containers[i] == ApplyAll(old(containers[i]), options[..k])
        invariant forall j :: 0 <= j < i ==> containers[j] == ApplyAll(old(containers[j]), options)
        invariant forall j :: i < j < containers.Length ==> containers[j] == old(containers[j])
      {
        assert options[..k + 1][..k] == options[..k];
        containers[i] := Apply(options[k], containers[i]);
      }
      assert options[..|options|] == options;
    }
  }

  /** What the last definition of a variable says; later entries win. */
  function Lookup(env: seq<EnvVar>, name: string): string {
    if env == [] then ""
    else if env[|env| - 1].name == name then env[|env| - 1].value
    else Lookup(env[..|env| - 1], name)
  }

  lemma {:induction false} LookupConcat(a: seq<EnvVar>, b: seq<EnvVar>, name: string)
    requires forall e :: e in b ==> e.name != name
    ensures Lookup(a + b, name) == Lookup(a, name)
  {
    if b == [] {
      assert a + b == a;
    } else {
      var k := |b| - 1;
      LookupConcat(a, b[..k], name);
      assert (a + b)[..|a| + k] == a + b[..k];
    }
  }

  // ----- options that leave a field alone -----

  predicate KeepsCommand(e: Edit) { !e.WrapCommand? && !e.AdditionalArgs? }

  lemma {:induction false} CommandKept(c: Container, edits: seq<Edit>)
    requires forall e :: e in edits ==> KeepsCommand(e)
    ensures ApplyAll(c, edits).command == c.command && ApplyAll(c, edits).args == c.args
  {
    if edits != [] {
      assert KeepsCommand(edits[|edits| - 1]);
      CommandKept(c, edits[..|edits| - 1]);
    }
  }

  lemma {:induction false} NameKept(c: Container, edits: seq<Edit>)
    requires forall e :: e in edits ==> !e.NamePrefix?
    ensures ApplyAll(c, edits).name == c.name
  {
    if edits != [] {
      assert !edits[|edits| - 1].NamePrefix?;
      NameKept(c, edits[..|edits| - 1]);
    }
  }
}
