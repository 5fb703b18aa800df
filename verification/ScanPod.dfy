/**
 The scan pod of a pipeline: how `populateScanPod` wraps scanner and uploader containers
 (internal/controller/pipeline_controller.go) and what the wrapped processes see.
 */
module ScanPod {
  import opened Containers
  import Words

  const SIDECAR := "/var/run/ocular/bin/sidecar"
  const BINARY_DIRECTORY := "/var/run/ocular/bin"
  const PROCESS_DIRECTORY := "/var/run/ocular/proc"
  const TARGET_DIRECTORY := "/mnt/target"
  const RESULTS_DIRECTORY := "/mnt/results"
  const METADATA_DIRECTORY := "/mnt/metadata"
  const SCANNER_PREFIX := "scanner-"
  const UPLOADER_PREFIX := "uploader-"
  const DOWNLOADER_PREFIX := "downloader-"
  const SIDECAR_INIT := "sidecar-init"
  const PROCESS_DIR := "OCULAR_PROCESS_DIR"
  const SIDECAR_PATH := "OCULAR_SIDECAR_PATH"
  const UPLOADER_NAME := "OCULAR_UPLOADER_NAME"
  const SCAN_CONTAINER_NAMES := "OCULAR_SCAN_CONTAINER_NAMES"
  const PARAMETER_PREFIX := "OCULAR_PARAM_"

  /** A resolved uploader reference: the container and the environment of its parameters. */
  datatype Uploader = Uploader(name: string, container: Container, parameters: seq<EnvVar>)

  /** The variables that carry parameters all have the parameter prefix. */
  predicate AreParameters(env: seq<EnvVar>) {
    forall e :: e in env ==> PARAMETER_PREFIX <= e.name
  }

  /** What every container of the pod is told about its pipeline. */
  datatype Facts = Facts(
    target: string, version: string, downloader: string, profile: string, pipeline: string, pod: string,
    namespace: string)

  /** What the pod is built from. */
  datatype Input = Input(
    scanners: seq<Container>, scannerParameters: seq<EnvVar>, uploaders: seq<Uploader>,
    downloader: Container, downloaderParameters: seq<EnvVar>, facts: Facts, artifactArgs: seq<string>)

  function BaseEnv(i: Input): seq<EnvVar> {
    [EnvVar("OCULAR_TARGET_IDENTIFIER", i.facts.target),
     EnvVar("OCULAR_TARGET_VERSION", i.facts.version),
     EnvVar("OCULAR_DOWNLOADER_NAME", i.facts.downloader),
     EnvVar("OCULAR_PROFILE_NAME", i.facts.profile),
     EnvVar("OCULAR_PIPELINE_NAME", i.facts.pipeline),
     EnvVar("OCULAR_POD_NAME", i.facts.pod),
     EnvVar("OCULAR_TARGET_DIR", TARGET_DIRECTORY),
     EnvVar("OCULAR_RESULTS_DIR", RESULTS_DIRECTORY),
     EnvVar("OCULAR_METADATA_DIR", METADATA_DIRECTORY),
     EnvVar("OCULAR_NAMESPACE_NAME", i.facts.namespace),
     EnvVar(PROCESS_DIR, PROCESS_DIRECTORY),
     EnvVar(SIDECAR_PATH, SIDECAR)]
  }

  function BaseOptions(i: Input): seq<Edit> {
    [AdditionalEnvVars(BaseEnv(i)),
     AdditionalVolumeMounts([METADATA_DIRECTORY]),
     AdditionalVolumeMounts([RESULTS_DIRECTORY]),
     AdditionalVolumeMounts([PROCESS_DIRECTORY]),
     AdditionalVolumeMounts([BINARY_DIRECTORY])]
  }

  function DownloaderOptions(i: Input): seq<Edit> {
    [WorkingDir(TARGET_DIRECTORY),
     AdditionalEnvVars(i.downloaderParameters),
     AdditionalVolumeMounts([TARGET_DIRECTORY]),
     NamePrefix(DOWNLOADER_PREFIX)]
  }

  /** The first init container copies the wrapper binary into the pod. */
  const SIDECAR_CONTAINER := Container(SIDECAR_INIT, [], ["init"], [], "", [])

  function ScannerOptions(i: Input): seq<Edit> {
    BaseOptions(i) + [
      WrapCommand([SIDECAR, "scanner"]),
      WorkingDir(TARGET_DIRECTORY),
      AdditionalEnvVars(i.scannerParameters),
      AdditionalVolumeMounts([TARGET_DIRECTORY]),
      NamePrefix(SCANNER_PREFIX)]
  }

  function UploaderOptions(i: Input, names: seq<string>): seq<Edit> {
    BaseOptions(i) + [
      WrapCommand([SIDECAR, "await-scanners"]),
      AdditionalArgs(i.artifactArgs),
      WorkingDir(RESULTS_DIRECTORY),
      AdditionalEnvVars([EnvVar(SCAN_CONTAINER_NAMES, Words.Join(names))]),
      NamePrefix(UPLOADER_PREFIX)]
  }

  function OwnUploaderOptions(u: Uploader): seq<Edit> {
    [AdditionalEnvVars(u.parameters), AdditionalEnvVars([EnvVar(UPLOADER_NAME, u.name)])]
  }

  const STANDARD_OPTIONS := [ContainerNameEnvVar]

  function ScannerContainer(i: Input, c: Container): Container {
    ApplyAll(ApplyAll(c, ScannerOptions(i)), STANDARD_OPTIONS)
  }

  function ScannerNames(i: Input): seq<string> {
    seq(|i.scanners|, k requires 0 <= k < |i.scanners| => ApplyAll(i.scanners[k], ScannerOptions(i)).name)
  }

  function UploaderContainer(i: Input, u: Uploader): Container {
    ApplyAll(ApplyAll(ApplyAll(u.container, OwnUploaderOptions(u)), UploaderOptions(i, ScannerNames(i))),
      STANDARD_OPTIONS)
  }

  /** The uploader containers with the options that differ between them. */
  method OwnOptionsApplied(uploaders: seq<Uploader>) returns (containers: seq<Container>)
    ensures |containers| == |uploaders|
    ensures forall j :: 0 <= j < |uploaders| ==>
      containers[j] == ApplyAll(uploaders[j].container, OwnUploaderOptions(uploaders[j]))
  {
    containers := [];
    for k := 0 to |uploaders|
      invariant |containers| == k
      invariant forall j :: 0 <= j < k ==>
        containers[j] == ApplyAll(uploaders[j].container, OwnUploaderOptions(uploaders[j]))
    {
      var c := ApplyOptionsTo(uploaders[k].container, OwnUploaderOptions(uploaders[k]));
      containers := containers + [c];
    }
  }

  /** The wrapped scanner containers and, from them, the names that the uploaders await. */
  method WrapScanners(i: Input) returns (scanners: array<Container>, names: seq<string>)
    ensures fresh(scanners) && scanners.Length == |i.scanners| && names == ScannerNames(i)
    ensures forall k :: 0 <= k < |i.scanners| ==> scanners[k] == ApplyAll(i.scanners[k], ScannerOptions(i))
  {
    scanners := new Container[|i.scanners|](k requires 0 <= k < |i.scanners| => i.scanners[k]);
    assert scanners[..] == i.scanners;
    ApplyOptionsToAll(scanners, ScannerOptions(i));
    names := [];
    for k := 0 to scanners.Length
      invariant |names| == k
      invariant forall j :: 0 <= j < k ==> names[j] == scanners[j].name
    {
      names := names + [scanners[k].name];
    }
  }

  /** A scanner and an uploader as they are in the built pod, field by field. */
  function BuiltScanner(i: Input, c: Container): Container {
    Container("scanner-" + c.name, [SIDECAR, "scanner"], c.command + c.args,
      c.env + BaseEnv(i) + i.scannerParameters + [EnvVar(CONTAINER_NAME, "scanner-" + c.name)], TARGET_DIRECTORY,
      c.mounts + [METADATA_DIRECTORY, RESULTS_DIRECTORY, PROCESS_DIRECTORY, BINARY_DIRECTORY, TARGET_DIRECTORY])
  }

  function BuiltUploader(i: Input, u: Uploader): Container {
    var c := u.container;
    Container("uploader-" + c.name, [SIDECAR, "await-scanners"], c.command + c.args + i.artifactArgs,
      c.env + u.parameters + [EnvVar("OCULAR_UPLOADER_NAME", u.name)] + BaseEnv(i)
      + [EnvVar("OCULAR_SCAN_CONTAINER_NAMES", Words.Join(ScannerNames(i))),
         EnvVar(CONTAINER_NAME, "uploader-" + c.name)],
      RESULTS_DIRECTORY,
      c.mounts + [METADATA_DIRECTORY, RESULTS_DIRECTORY, PROCESS_DIRECTORY, BINARY_DIRECTORY])
  }

  /** The init containers of the pod: the one that brings the wrapper, and the downloader. */
  method PopulateInitContainers(i: Input) returns (init: array<Container>)
    ensures fresh(init) && init.Length == 2
    ensures init[0] == Container("sidecar-init", [], ["init"],
      BaseEnv(i) + [EnvVar(CONTAINER_NAME, "sidecar-init")], "",
      [METADATA_DIRECTORY, RESULTS_DIRECTORY, PROCESS_DIRECTORY, BINARY_DIRECTORY])
    ensures var name := "downloader-" + i.downloader.name;
      init[1] == Container(name, i.downloader.command, i.downloader.args,
        i.downloader.env + i.downloaderParameters + BaseEnv(i) + [EnvVar(CONTAINER_NAME, name)], TARGET_DIRECTORY,
        i.downloader.mounts +
        [TARGET_DIRECTORY, METADATA_DIRECTORY, RESULTS_DIRECTORY, PROCESS_DIRECTORY, BINARY_DIRECTORY])
  {
    var downloader := ApplyOptionsTo(i.downloader, DownloaderOptions(i));
    init := new Container[2](k => if k == 0 then SIDECAR_CONTAINER else downloader);
    ApplyOptionsToAll(init, BaseOptions(i));
    ApplyOptionsToAll(init, STANDARD_OPTIONS);
    InitContainersAre(i);
  }

  /** The pod: its init containers, and then scanners first and uploaders after them, each with its name,
      command line, environment, working directory and mounts. */
  method PopulateScanPod(i: Input) returns (init: array<Container>, pod: array<Container>)
    ensures fresh(init) && init.Length == 2 && init[0].name == "sidecar-init"
    ensures init[1].name == "downloader-" + i.downloader.name && init[1].workingDir == TARGET_DIRECTORY
    ensures fresh(pod) && pod.Length == |i.scanners| + |i.uploaders|
    ensures forall k :: 0 <= k < |i.scanners| ==> pod[k] == BuiltScanner(i, i.scanners[k])
    ensures forall k :: 0 <= k < |i.uploaders| ==> pod[|i.scanners| + k] == BuiltUploader(i, i.uploaders[k])
  {
    init := PopulateInitContainers(i);
    pod := PopulateContainers(i);
    ContainersAre(i);
  }

  /** The containers that run together. */
  method PopulateContainers(i: Input) returns (pod: array<Container>)
    ensures fresh(pod) && pod.Length == |i.scanners| + |i.uploaders|
    ensures forall k :: 0 <= k < |i.scanners| ==> pod[k] == ScannerContainer(i, i.scanners[k])
    ensures forall k :: 0 <= k < |i.uploaders| ==> pod[|i.scanners| + k] == UploaderContainer(i, i.uploaders[k])
  {
    var scanners, names := WrapScanners(i);
    ghost var built := scanners[..];

    var wrapped := OwnOptionsApplied(i.uploaders);
    var uploaders := new Container[|wrapped|](k requires 0 <= k < |wrapped| => wrapped[k]);
    ApplyOptionsToAll(uploaders, UploaderOptions(i, names));

    assert scanners[..] == built;
    var all := scanners[..] + uploaders[..];
    pod := new Container[|all|](k requires 0 <= k < |all| => all[k]);
    assert forall k :: 0 <= k < |i.scanners| ==> pod[k] == built[k];
    assert forall k :: 0 <= k < |i.uploaders| ==> pod[|i.scanners| + k] == uploaders[k];
    ApplyOptionsToAll(pod, STANDARD_OPTIONS);
  }

  /** The built containers, field by field. */
  lemma ContainersAre(i: Input)
    ensures forall k :: 0 <= k < |i.scanners| ==> ScannerContainer(i, i.scanners[k]) == BuiltScanner(i, i.scanners[k])
    ensures forall k :: 0 <= k < |i.uploaders| ==>
      UploaderContainer(i, i.uploaders[k]) == BuiltUploader(i, i.uploaders[k])
    ensures ScannerNames(i) == seq(|i.scanners|, j requires 0 <= j < |i.scanners| => "scanner-" + i.scanners[j].name)
  {
    forall k | 0 <= k < |i.scanners|
      ensures ScannerContainer(i, i.scanners[k]) == BuiltScanner(i, i.scanners[k])
      ensures ScannerNames(i)[k] == "scanner-" + i.scanners[k].name
    {
      ScannerContainerIs(i, i.scanners[k]);
    }
    forall k | 0 <= k < |i.uploaders|
      ensures UploaderContainer(i, i.uploaders[k]) == BuiltUploader(i, i.uploaders[k])
    {
      UploaderContainerIs(i, i.uploaders[k]);
    }
  }

  // ----- what the wrapped processes see -----

  /** The argument vector of a container's process, with the wrapper as first word. */
  function Argv(c: Container): seq<string> { c.command + c.args }

  /** The argument vector the wrapper starts, after its own path and subcommand. */
  function ChildArgv(c: Container): seq<string> { if |Argv(c)| < 2 then [] else Argv(c)[2..] }

  predicate RunsSubcommand(c: Container, subcommand: string) {
    |Argv(c)| >= 2 && Argv(c)[0] == SIDECAR && Argv(c)[1] == subcommand
  }

  /** Unfolding an explicit list of options. */
  lemma ApplyLast(c: Container, edits: seq<Edit>, last: Edit)
    ensures ApplyAll(c, edits + [last]) == Apply(last, ApplyAll(c, edits))
  {
    assert (edits + [last])[..|edits|] == edits;
  }

  lemma ApplyBase(c: Container, i: Input)
    ensures ApplyAll(c, BaseOptions(i)) == c.(env := c.env + BaseEnv(i), mounts := c.mounts + BASE_MOUNTS)
  {
    ApplyFive(c, [], AdditionalEnvVars(BaseEnv(i)), AdditionalVolumeMounts([METADATA_DIRECTORY]),
              AdditionalVolumeMounts([RESULTS_DIRECTORY]), AdditionalVolumeMounts([PROCESS_DIRECTORY]),
              AdditionalVolumeMounts([BINARY_DIRECTORY]));
    assert [] + BaseOptions(i) == BaseOptions(i);
    assert c.mounts + [METADATA_DIRECTORY] + [RESULTS_DIRECTORY] + [PROCESS_DIRECTORY] + [BINARY_DIRECTORY]
      == c.mounts + BASE_MOUNTS;
  }

  const BASE_MOUNTS := [METADATA_DIRECTORY, RESULTS_DIRECTORY, PROCESS_DIRECTORY, BINARY_DIRECTORY]

  lemma ApplyFive(c: Container, base: seq<Edit>, a: Edit, b: Edit, d: Edit, e: Edit, f: Edit)
    ensures ApplyAll(c, base + [a, b, d, e, f]) == Apply(f, Apply(e, Apply(d, Apply(b, Apply(a, ApplyAll(c, base))))))
  {
    ApplyTwo(c, base, a, b);
    ApplyTwo(c, base + [a, b], d, e);
    ApplyLast(c, base + [a, b] + [d, e], f);
    assert base + [a, b] + [d, e] + [f] == base + [a, b, d, e, f];
  }

  lemma ApplyTwo(c: Container, base: seq<Edit>, a: Edit, b: Edit)
    ensures ApplyAll(c, base + [a, b]) == Apply(b, Apply(a, ApplyAll(c, base)))
  {
    ApplyLast(c, base, a);
    ApplyLast(c, base + [a], b);
    assert base + [a] + [b] == base + [a, b];
  }

  lemma ApplyStandard(c: Container)
    ensures ApplyAll(c, STANDARD_OPTIONS) == c.(env := c.env + [EnvVar(CONTAINER_NAME, c.name)])
  {
    ApplyLast(c, [], ContainerNameEnvVar);
    assert [] + [ContainerNameEnvVar] == STANDARD_OPTIONS;
  }

  lemma ScannerContainerIs(i: Input, c: Container)
    ensures ScannerContainer(i, c) == BuiltScanner(i, c)
    ensures ApplyAll(c, ScannerOptions(i)).name == "scanner-" + c.name
  {
    ApplyBase(c, i);
    ApplyFive(c, BaseOptions(i), WrapCommand([SIDECAR, "scanner"]), WorkingDir(TARGET_DIRECTORY),
              AdditionalEnvVars(i.scannerParameters), AdditionalVolumeMounts([TARGET_DIRECTORY]),
              NamePrefix(SCANNER_PREFIX));
    ApplyStandard(ApplyAll(c, ScannerOptions(i)));
    assert c.mounts + BASE_MOUNTS + [TARGET_DIRECTORY] == BuiltScanner(i, c).mounts;
  }

  /** An uploader's own variables come first, then its parameters, then its name. */
  lemma OwnOptionsAre(u: Uploader)
    ensures ApplyAll(u.container, OwnUploaderOptions(u)) ==
      u.container.(env := u.container.env + u.parameters + [EnvVar("OCULAR_UPLOADER_NAME", u.name)])
  {
    ApplyTwo(u.container, [], OwnUploaderOptions(u)[0], OwnUploaderOptions(u)[1]);
    assert [] + [OwnUploaderOptions(u)[0], OwnUploaderOptions(u)[1]] == OwnUploaderOptions(u);
  }

  lemma UploaderContainerIs(i: Input, u: Uploader)
    ensures UploaderContainer(i, u) == BuiltUploader(i, u)
  {
    var own := ApplyAll(u.container, OwnUploaderOptions(u));
    OwnOptionsAre(u);
    ApplyBase(own, i);
    var names := [EnvVar(SCAN_CONTAINER_NAMES, Words.Join(ScannerNames(i)))];
    ApplyFive(own, BaseOptions(i), WrapCommand([SIDECAR, "await-scanners"]), AdditionalArgs(i.artifactArgs),
              WorkingDir(RESULTS_DIRECTORY), AdditionalEnvVars(names), NamePrefix(UPLOADER_PREFIX));
    ApplyStandard(ApplyAll(own, UploaderOptions(i, ScannerNames(i))));
    var self := [EnvVar(CONTAINER_NAME, "uploader-" + u.container.name)];
    assert own.env + BaseEnv(i) + names + self == own.env + BaseEnv(i) + (names + self);
  }

  lemma InitContainersAre(i: Input)
    ensures var d := ApplyAll(i.downloader, DownloaderOptions(i));
      var name := "downloader-" + i.downloader.name;
      ApplyAll(ApplyAll(d, BaseOptions(i)), STANDARD_OPTIONS) == Container(name, i.downloader.command,
        i.downloader.args,
        i.downloader.env + i.downloaderParameters + BaseEnv(i) + [EnvVar(CONTAINER_NAME, name)], TARGET_DIRECTORY,
        i.downloader.mounts +
        [TARGET_DIRECTORY, METADATA_DIRECTORY, RESULTS_DIRECTORY, PROCESS_DIRECTORY, BINARY_DIRECTORY])
    ensures ApplyAll(ApplyAll(SIDECAR_CONTAINER, BaseOptions(i)), STANDARD_OPTIONS) == Container("sidecar-init", [],
      ["init"], BaseEnv(i) + [EnvVar(CONTAINER_NAME, "sidecar-init")], "",
      [METADATA_DIRECTORY, RESULTS_DIRECTORY, PROCESS_DIRECTORY, BINARY_DIRECTORY])
  {
    var d := ApplyAll(i.downloader, DownloaderOptions(i));
    var edits := DownloaderOptions(i);
    ApplyTwo(i.downloader, [], edits[0], edits[1]);
    ApplyTwo(i.downloader, [] + [edits[0], edits[1]], edits[2], edits[3]);
    assert [] + [edits[0], edits[1]] + [edits[2], edits[3]] == edits;
    ApplyBase(d, i);
    ApplyStandard(ApplyAll(d, BaseOptions(i)));
    ApplyBase(SIDECAR_CONTAINER, i);
    ApplyStandard(ApplyAll(SIDECAR_CONTAINER, BaseOptions(i)));
    assert i.downloader.mounts + [TARGET_DIRECTORY] + BASE_MOUNTS == i.downloader.mounts +
      [TARGET_DIRECTORY, METADATA_DIRECTORY, RESULTS_DIRECTORY, PROCESS_DIRECTORY, BINARY_DIRECTORY];
    assert [] + BASE_MOUNTS == BASE_MOUNTS && [] + BaseEnv(i) == BaseEnv(i);
  }

  lemma LastWins(env: seq<EnvVar>, e: EnvVar)
    ensures Lookup(env + [e], e.name) == e.value
  {
  }

  /** What tells the names of variables apart: the length and the two letters after the common prefix. */
  function Tag(name: string): (int, char, char)
    requires |name| > 8
  {
    (|name|, name[7], name[8])
  }

  lemma BaseTags(i: Input)
    ensures forall e :: e in BaseEnv(i) ==> |e.name| > 8
    ensures Tag(BaseEnv(i)[0].name) == (24, 'T', 'A') && Tag(BaseEnv(i)[1].name) == (21, 'T', 'A')
    ensures Tag(BaseEnv(i)[2].name) == (22, 'D', 'O') && Tag(BaseEnv(i)[3].name) == (19, 'P', 'R')
    ensures Tag(BaseEnv(i)[4].name) == (20, 'P', 'I') && Tag(BaseEnv(i)[5].name) == (15, 'P', 'O')
    ensures Tag(BaseEnv(i)[6].name) == (17, 'T', 'A') && Tag(BaseEnv(i)[7].name) == (18, 'R', 'E')
    ensures Tag(BaseEnv(i)[8].name) == (19, 'M', 'E') && Tag(BaseEnv(i)[9].name) == (21, 'N', 'A')
    ensures Tag(BaseEnv(i)[10].name) == (18, 'P', 'R') && Tag(BaseEnv(i)[11].name) == (19, 'S', 'I')
  {
  }

  /** The names of the base variables are distinct, and neither parameters nor variables added later. */
  lemma BaseNamesDiffer(env: seq<EnvVar>)
    requires |env| == 12 && forall e :: e in env ==> |e.name| > 8
    requires Tag(env[0].name) == (24, 'T', 'A') && Tag(env[1].name) == (21, 'T', 'A')
    requires Tag(env[2].name) == (22, 'D', 'O') && Tag(env[3].name) == (19, 'P', 'R')
    requires Tag(env[4].name) == (20, 'P', 'I') && Tag(env[5].name) == (15, 'P', 'O')
    requires Tag(env[6].name) == (17, 'T', 'A') && Tag(env[7].name) == (18, 'R', 'E')
    requires Tag(env[8].name) == (19, 'M', 'E') && Tag(env[9].name) == (21, 'N', 'A')
    requires Tag(env[10].name) == (18, 'P', 'R') && Tag(env[11].name) == (19, 'S', 'I')
    ensures DistinctNames(env) && forall e :: e in env ==> IsBaseName(e.name)
  {
  }

  /** No variable of this name is a parameter or is added by the controller after the base variables. */
  predicate IsBaseName(name: string) {
    |name| > 8 && name[7] != 'U' && name[7] != 'C' && !(name[7] == 'P' && name[8] == 'A')
    && !(name[7] == 'S' && name[8] == 'C')
  }

  lemma BaseNames(i: Input)
    ensures DistinctNames(BaseEnv(i))
    ensures forall e :: e in BaseEnv(i) ==> IsBaseName(e.name)
  {
    BaseTags(i);
    BaseNamesDiffer(BaseEnv(i));
  }

  ghost predicate DistinctNames(env: seq<EnvVar>) {
    forall j, k :: 0 <= j < k < |env| ==> env[j].name != env[k].name
  }

  /** Whatever comes before variables with distinct names, each of them has its own value. */
  lemma IsSeen(before: seq<EnvVar>, env: seq<EnvVar>, e: EnvVar)
    requires e in env && DistinctNames(env)
    ensures Lookup(before + env, e.name) == e.value
  {
    var k :| 0 <= k < |env| && env[k] == e;
    LookupAt(before + env, |before| + k);
  }

  /** The environment tells about the pipeline and where things are in the pod. */
  ghost predicate KnowsPipeline(env: seq<EnvVar>, facts: Facts) {
    && Lookup(env, "OCULAR_TARGET_IDENTIFIER") == facts.target
    && Lookup(env, "OCULAR_TARGET_VERSION") == facts.version
    && Lookup(env, "OCULAR_DOWNLOADER_NAME") == facts.downloader
    && Lookup(env, "OCULAR_PROFILE_NAME") == facts.profile
    && Lookup(env, "OCULAR_PIPELINE_NAME") == facts.pipeline
    && Lookup(env, "OCULAR_POD_NAME") == facts.pod
    && Lookup(env, "OCULAR_TARGET_DIR") == "/mnt/target"
    && Lookup(env, "OCULAR_RESULTS_DIR") == "/mnt/results"
    && Lookup(env, "OCULAR_METADATA_DIR") == "/mnt/metadata"
    && Lookup(env, "OCULAR_NAMESPACE_NAME") == facts.namespace
    && Lookup(env, "OCULAR_PROCESS_DIR") == "/var/run/ocular/proc"
    && Lookup(env, "OCULAR_SIDECAR_PATH") == "/var/run/ocular/bin/sidecar"
  }

  lemma SeesBase(env: seq<EnvVar>, i: Input)
    requires forall k :: 0 <= k < |BaseEnv(i)| ==> Lookup(env, BaseEnv(i)[k].name) == BaseEnv(i)[k].value
    ensures KnowsPipeline(env, i.facts)
  {
    var base := BaseEnv(i);
    assert |base| == 12;
    assert Lookup(env, base[0].name) == base[0].value && Lookup(env, base[1].name) == base[1].value;
    assert Lookup(env, base[2].name) == base[2].value && Lookup(env, base[3].name) == base[3].value;
    assert Lookup(env, base[4].name) == base[4].value && Lookup(env, base[5].name) == base[5].value;
    assert Lookup(env, base[6].name) == base[6].value && Lookup(env, base[7].name) == base[7].value;
    assert Lookup(env, base[8].name) == base[8].value && Lookup(env, base[9].name) == base[9].value;
    assert Lookup(env, base[10].name) == base[10].value && Lookup(env, base[11].name) == base[11].value;
  }

  /** Every scanner and every uploader knows its pipeline, whatever variables the user set. */
  lemma ContainersKnowPipeline(i: Input, c: Container, u: Uploader)
    requires AreParameters(i.scannerParameters)
    ensures KnowsPipeline(ScannerContainer(i, c).env, i.facts)
    ensures KnowsPipeline(UploaderContainer(i, u).env, i.facts)
  {
    forall e | e in BaseEnv(i) ensures Lookup(ScannerContainer(i, c).env, e.name) == e.value {
      ScannerSeesBase(i, c, e);
    }
    UploaderSeesItself(i, u);
    SeesBase(ScannerContainer(i, c).env, i);
    SeesBase(UploaderContainer(i, u).env, i);
  }

  /** The last definition of a variable is the one that counts. */
  lemma {:induction false} LookupAt(env: seq<EnvVar>, k: nat)
    requires k < |env| && forall j :: k < j < |env| ==> env[j].name != env[k].name
    ensures Lookup(env, env[k].name) == env[k].value
  {
    if k < |env| - 1 { LookupAt(env[..|env| - 1], k); }
  }

  lemma ParametersHideNothing(env: seq<EnvVar>, parameters: seq<EnvVar>, name: string)
    requires AreParameters(parameters) && !(PARAMETER_PREFIX <= name)
    ensures Lookup(env + parameters, name) == Lookup(env, name)
  {
    LookupConcat(env, parameters, name);
  }

  /** The name of a variable that is neither a parameter nor written by the controller itself. */
  lemma ParameterNames()
    ensures |PARAMETER_PREFIX| == 13 && PARAMETER_PREFIX[7] == 'P' && PARAMETER_PREFIX[8] == 'A'
    ensures |UPLOADER_NAME| > 8 && |CONTAINER_NAME| > 8 && |SCAN_CONTAINER_NAMES| > 8
    ensures UPLOADER_NAME[7] == 'U' && CONTAINER_NAME[7] == 'C'
    ensures SCAN_CONTAINER_NAMES[7] == 'S' && SCAN_CONTAINER_NAMES[8] == 'C'
  {
  }

  /** A scanner's wrapper starts exactly the command and arguments of the profile, and writes its mark
      under the container's own name in the process directory, whatever variables the user set. */
  lemma ScannerMeaningPreserved(i: Input, k: nat)
    requires k < |i.scanners| && AreParameters(i.scannerParameters)
    ensures var built := ScannerContainer(i, i.scanners[k]);
            && RunsSubcommand(built, "scanner")
            && ChildArgv(built) == i.scanners[k].command + i.scanners[k].args
            && Lookup(built.env, CONTAINER_NAME) == built.name == ScannerNames(i)[k]
              == SCANNER_PREFIX + i.scanners[k].name
            && Lookup(built.env, PROCESS_DIR) == PROCESS_DIRECTORY
  {
    var c := i.scanners[k];
    ScannerContainerIs(i, c);
    LastWins(c.env + BaseEnv(i) + i.scannerParameters, EnvVar(CONTAINER_NAME, SCANNER_PREFIX + c.name));
    assert EnvVar(PROCESS_DIR, PROCESS_DIRECTORY) == BaseEnv(i)[10];
    ScannerSeesBase(i, c, EnvVar(PROCESS_DIR, PROCESS_DIRECTORY));
  }

  /** A scanner sees every base variable with its value. */
  lemma ScannerSeesBase(i: Input, c: Container, e: EnvVar)
    requires AreParameters(i.scannerParameters) && e in BaseEnv(i)
    ensures Lookup(ScannerContainer(i, c).env, e.name) == e.value
  {
    ScannerContainerIs(i, c);
    BaseNames(i);
    IsSeen(c.env, BaseEnv(i), e);
    ParameterNames();
    ParametersHideNothing(c.env + BaseEnv(i), i.scannerParameters, e.name);
    LookupConcat(c.env + BaseEnv(i) + i.scannerParameters, [EnvVar(CONTAINER_NAME, SCANNER_PREFIX + c.name)], e.name);
  }

  /** Among other variables every parameter has the last value given for it. */
  lemma SeesParameter(before: seq<EnvVar>, parameters: seq<EnvVar>, rest: seq<EnvVar>, k: nat)
    requires k < |parameters| && AreParameters(parameters)
    requires forall j :: k < j < |parameters| ==> parameters[j].name != parameters[k].name
    requires forall e :: e in rest ==> !(PARAMETER_PREFIX <= e.name)
    ensures Lookup(before + parameters + rest, parameters[k].name) == parameters[k].value
  {
    var name := parameters[k].name;
    LookupConcat(before + parameters, rest, name);
    LookupAt(before + parameters, |before| + k);
  }

  /** Variables whose names do not go on as parameters do after the common prefix. */
  lemma NoParameter(name: string)
    requires |name| > 8 && !(name[7] == 'P' && name[8] == 'A')
    ensures !(PARAMETER_PREFIX <= name)
  {
    if PARAMETER_PREFIX <= name { ParameterLetters(name); }
  }

  lemma ParameterLetters(name: string)
    requires PARAMETER_PREFIX <= name
    ensures |name| > 8 && name[7] == 'P' && name[8] == 'A'
  {
    ParameterNames();
    assert name[7] == PARAMETER_PREFIX[7] && name[8] == PARAMETER_PREFIX[8];
  }

  lemma LookupBetween(before: seq<EnvVar>, e: EnvVar, rest: seq<EnvVar>)
    requires forall x :: x in rest ==> x.name != e.name
    ensures Lookup(before + [e] + rest, e.name) == e.value
  {
    LastWins(before, e);
    LookupConcat(before + [e], rest, e.name);
  }

  /** A scanner sees the parameters of its profile: each variable has the last value given for it, whatever
      variables its container defines. */
  lemma ScannerSeesParameters(i: Input, c: Container, k: nat)
    requires AreParameters(i.scannerParameters) && k < |i.scannerParameters|
    requires forall j :: k < j < |i.scannerParameters| ==>
      i.scannerParameters[j].name != i.scannerParameters[k].name
    ensures Lookup(ScannerContainer(i, c).env, i.scannerParameters[k].name) == i.scannerParameters[k].value
  {
    ScannerContainerIs(i, c);
    ParameterNames();
    NoParameter(CONTAINER_NAME);
    SeesParameter(c.env + BaseEnv(i), i.scannerParameters, [EnvVar(CONTAINER_NAME, SCANNER_PREFIX + c.name)], k);
  }

  /** So does an uploader see its own parameters. */
  lemma UploaderSeesParameters(i: Input, u: Uploader, k: nat)
    requires AreParameters(u.parameters) && k < |u.parameters|
    requires forall j :: k < j < |u.parameters| ==> u.parameters[j].name != u.parameters[k].name
    ensures Lookup(UploaderContainer(i, u).env, u.parameters[k].name) == u.parameters[k].value
  {
    UploaderContainerIs(i, u);
    AfterParameters(i, u);
    SeesParameter(u.container.env, u.parameters, OwnVariables(i, u), k);
  }

  /** What follows the parameters in an uploader's environment. */
  function OwnVariables(i: Input, u: Uploader): seq<EnvVar> {
    [EnvVar(UPLOADER_NAME, u.name)] + (BaseEnv(i) + AddedLater(i, u))
  }

  function AddedLater(i: Input, u: Uploader): seq<EnvVar> {
    [EnvVar(SCAN_CONTAINER_NAMES, Words.Join(ScannerNames(i))),
     EnvVar(CONTAINER_NAME, UPLOADER_PREFIX + u.container.name)]
  }

  lemma AfterParameters(i: Input, u: Uploader)
    ensures BuiltUploader(i, u).env == u.container.env + u.parameters + OwnVariables(i, u)
    ensures forall e :: e in OwnVariables(i, u) ==> !(PARAMETER_PREFIX <= e.name)
  {
    NamesAddedLater(i, u);
    EnvironmentIs(u.container.env + u.parameters, EnvVar(UPLOADER_NAME, u.name), BaseEnv(i), AddedLater(i, u));
    forall e | e in OwnVariables(i, u) ensures !(PARAMETER_PREFIX <= e.name) { NoParameter(e.name); }
  }

  lemma EnvironmentIs(before: seq<EnvVar>, name: EnvVar, base: seq<EnvVar>, later: seq<EnvVar>)
    ensures before + [name] + base + later == before + ([name] + (base + later))
  {
  }

  /** An uploader sees its name, that of its container, the awaited names, and every base variable. */
  lemma UploaderSeesItself(i: Input, u: Uploader)
    ensures Lookup(UploaderContainer(i, u).env, "OCULAR_UPLOADER_NAME") == u.name
    ensures Lookup(UploaderContainer(i, u).env, "OCULAR_CONTAINER_NAME") == "uploader-" + u.container.name
    ensures Lookup(UploaderContainer(i, u).env, "OCULAR_SCAN_CONTAINER_NAMES") == Words.Join(ScannerNames(i))
    ensures forall e :: e in BaseEnv(i) ==> Lookup(UploaderContainer(i, u).env, e.name) == e.value
  {
    UploaderContainerIs(i, u);
    NamesAddedLater(i, u);
    BaseNames(i);
    AllSeen(u.container.env + u.parameters, EnvVar(UPLOADER_NAME, u.name), BaseEnv(i), AddedLater(i, u)[0],
            AddedLater(i, u)[1]);
    assert AddedLater(i, u) == [AddedLater(i, u)[0], AddedLater(i, u)[1]];
  }

  lemma AllSeen(before: seq<EnvVar>, name: EnvVar, base: seq<EnvVar>, names: EnvVar, self: EnvVar)
    requires DistinctNames(base) && names.name != self.name
    requires forall e :: e in base + [names, self] ==> e.name != name.name
    requires forall e :: e in base ==> e.name != names.name && e.name != self.name
    ensures var env := before + [name] + base + [names, self];
            && Lookup(env, name.name) == name.value && Lookup(env, names.name) == names.value
            && Lookup(env, self.name) == self.value
            && forall e :: e in base ==> Lookup(env, e.name) == e.value
  {
    var env := before + [name] + base + [names, self];
    LookupBetween(before, name, base + [names, self]);
    assert env == before + [name] + (base + [names, self]);
    LookupBetween(before + [name] + base, names, [self]);
    LastWins(before + [name] + base + [names], self);
    assert env == before + [name] + base + [names] + [self];
    forall e | e in base ensures Lookup(env, e.name) == e.value {
      IsSeen(before + [name], base, e);
      LookupConcat(before + [name] + base, [names, self], e.name);
    }
  }

  lemma NamesAddedLater(i: Input, u: Uploader)
    ensures forall e :: e in BaseEnv(i) + AddedLater(i, u) ==> e.name != UPLOADER_NAME
    ensures forall e, x :: e in BaseEnv(i) && x in AddedLater(i, u) ==> x.name != e.name
    ensures SCAN_CONTAINER_NAMES != CONTAINER_NAME
    ensures forall e :: e in OwnVariables(i, u) ==> |e.name| > 8 && !(e.name[7] == 'P' && e.name[8] == 'A')
  {
    BaseNames(i);
    ParameterNames();
    LettersDiffer(BaseEnv(i), EnvVar(UPLOADER_NAME, u.name), AddedLater(i, u));
  }

  lemma LettersDiffer(base: seq<EnvVar>, name: EnvVar, later: seq<EnvVar>)
    requires (forall e :: e in base ==> IsBaseName(e.name)) && |later| == 2 && |name.name| > 8 && name.name[7] == 'U'
    requires |later[0].name| > 8 && later[0].name[7] == 'S' && later[0].name[8] == 'C'
    requires |later[1].name| > 8 && later[1].name[7] == 'C'
    ensures forall e :: e in base + later ==> e.name != name.name
    ensures forall e, x :: e in base && x in later ==> x.name != e.name
    ensures later[0].name != later[1].name
    ensures forall e :: e in [name] + (base + later) ==> |e.name| > 8 && !(e.name[7] == 'P' && e.name[8] == 'A')
  {
  }

  lemma ScannerNamesCommaFree(i: Input)
    requires forall c :: c in i.scanners ==> IsDnsLabel(c.name)
    ensures forall n :: n in ScannerNames(i) ==> Words.CommaFree(n)
  {
    forall n | n in ScannerNames(i) ensures Words.CommaFree(n) {
      var k :| 0 <= k < |i.scanners| && ScannerNames(i)[k] == n;
      ScannerContainerIs(i, i.scanners[k]);
      assert IsDnsLabel(i.scanners[k].name);
      assert Words.COMMA !in SCANNER_PREFIX;
    }
  }

  /** Container names are DNS labels in Kubernetes: lower-case letters, digits and dashes. */
  predicate IsDnsLabel(name: string) {
    name != "" && forall ch :: ch in name ==> 'a' <= ch <= 'z' || '0' <= ch <= '9' || ch == '-'
  }

  /** An uploader's wrapper starts the command and arguments of the uploader followed by the artifact
      arguments, and awaits exactly the names under which the scanners write their marks, in the same
      directory. */
  lemma UploaderMeaningPreserved(i: Input, k: nat)
    requires k < |i.uploaders|
    requires i.scanners != [] && forall c :: c in i.scanners ==> IsDnsLabel(c.name)
    ensures var built := UploaderContainer(i, i.uploaders[k]);
            var own := i.uploaders[k].container;
            && RunsSubcommand(built, "await-scanners")
            && ChildArgv(built) == own.command + own.args + i.artifactArgs
            && Words.Split(Lookup(built.env, SCAN_CONTAINER_NAMES)) == ScannerNames(i)
            && Lookup(built.env, PROCESS_DIR) == PROCESS_DIRECTORY
  {
    var u := i.uploaders[k];
    UploaderContainerIs(i, u);
    UploaderSeesItself(i, u);
    assert EnvVar(PROCESS_DIR, PROCESS_DIRECTORY) == BaseEnv(i)[10];
    ScannerNamesCommaFree(i);
    Words.RoundTrip(ScannerNames(i));
  }

  /** Distinct containers keep distinct names. */
  lemma ScannerNamesDistinct(i: Input, j: nat, k: nat)
    requires j < |i.scanners| && k < |i.scanners| && i.scanners[j].name != i.scanners[k].name
    ensures ScannerNames(i)[j] != ScannerNames(i)[k]
  {
    ScannerContainerIs(i, i.scanners[j]);
    ScannerContainerIs(i, i.scanners[k]);
    assert (SCANNER_PREFIX + i.scanners[j].name)[|SCANNER_PREFIX|..] == i.scanners[j].name;
    assert (SCANNER_PREFIX + i.scanners[k].name)[|SCANNER_PREFIX|..] == i.scanners[k].name;
  }
}
