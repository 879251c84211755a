/**
 * The CI tester container: it splits test targets into shards, runs each
 * non-empty shard in its own docker container with one shell script, and
 * reports whether every run exited with status 0. Docker, processes,
 * temporary directories and uploads are outside the model: the shard
 * split, the GPU split, the temporary directory, the platform name and the
 * exit status of a run are parameters.
 */
module CiTester {
  import opened Wrappers
  import opened Text

  const TRAP_CLEANUP := "trap cleanup EXIT"
  const WINDOWS_NETWORKING := "powershell ci/pipeline/fix-windows-container-networking.ps1"
  const UNSET_COMPILERS := "unset CC CXX"
  const PREFIX_WORDS: seq<string> := ["bazel", "test", "--jobs=1", "--config=ci", "$(./ci/run/bazel_export_options)"]
  /** `bazel test --jobs=1 --config=ci $(./ci/run/bazel_export_options) `, spelled as its words. */
  const TEST_PREFIX := Unwords(PREFIX_WORDS)

  /** The shell function that makes the bazel logs readable when the script exits. */
  function CleanupCommand(bazelLogDir: string): string {
    "cleanup() { chmod -R a+r \"" + bazelLogDir + "\"; }"
  }

  /** The bazel `--config` words each build type adds; other build types add none. */
  function ConfigWords(buildType: Option<string>): seq<string> {
    match buildType
    case None => []
    case Some(bt) =>
      if bt == "debug" then ["--config=ci-debug"]
      else if bt == "asan" then ["--config=asan", "--config=asan-buildkite"]
      else if bt == "clang" then ["--config=llvm"]
      else if bt == "asan-clang" then ["--config=asan-clang"]
      else if bt == "ubsan" then ["--config=ubsan"]
      else if bt == "tsan-clang" then ["--config=tsan-clang"]
      else []
  }

  /** Each word followed by one space. */
  function Unwords(ws: seq<string>): (s: string)
    ensures ws == [] ==> s == []
  {
    if ws == [] then [] else ws[0] + " " + Unwords(ws[1..])
  }

  /** The flags that pass each test environment variable, in order. */
  function EnvFlags(envs: seq<string>): string {
    if envs == [] then [] else "--test_env " + envs[0] + " " + EnvFlags(envs[1..])
  }

  function EnvWords(envs: seq<string>): (ws: seq<string>)
    ensures |ws| == 2 * |envs|
  {
    if envs == [] then [] else ["--test_env", envs[0]] + EnvWords(envs[1..])
  }

  /** `--test_arg` with its argument, only when the argument is present and not empty. */
  function ArgWords(testArg: Option<string>): seq<string> {
    if testArg.Some? && testArg.value != [] then ["--test_arg", testArg.value] else []
  }

  /** The bazel command line of one run, as a string. */
  function TestCommand(buildType: Option<string>, envs: seq<string>, testArg: Option<string>, targets: seq<string>): (cmd: string)
    ensures TEST_PREFIX <= cmd
    ensures |Join(targets, " ")| <= |cmd| && cmd[|cmd| - |Join(targets, " ")|..] == Join(targets, " ")
  {
    TEST_PREFIX + Unwords(ConfigWords(buildType)) + EnvFlags(envs) + Unwords(ArgWords(testArg)) + Join(targets, " ")
  }

  /** The word list the bazel command line is meant to consist of. */
  function CommandWords(buildType: Option<string>, envs: seq<string>, testArg: Option<string>, targets: seq<string>): seq<string> {
    PREFIX_WORDS + ConfigWords(buildType) + EnvWords(envs) + ArgWords(testArg) + targets
  }

  /**
   * The script of one run: the cleanup handler and its trap first, then the
   * optional platform and compiler lines (`DockerScriptLines`), and the test
   * command last.
   */
  function DockerScript(bazelLogDir: string, buildType: Option<string>, platformSystem: string,
                        envs: seq<string>, testArg: Option<string>, targets: seq<string>): (script: seq<string>)
    ensures 3 <= |script| <= 5
    ensures script[0] == CleanupCommand(bazelLogDir) && script[1] == TRAP_CLEANUP
    ensures script[|script| - 1] == TestCommand(buildType, envs, testArg, targets)
  {
    [CleanupCommand(bazelLogDir), TRAP_CLEANUP]
    + (if platformSystem == "Windows" then [WINDOWS_NETWORKING] else [])
    + (if buildType == Some("ubsan") then [UNSET_COMPILERS] else [])
    + [TestCommand(buildType, envs, testArg, targets)]
  }

  /** What one run hands to docker: the script, the GPUs, the network and the log volume. */
  datatype RunRequest = RunRequest(commands: seq<string>, gpuIds: seq<int>, network: Option<string>, volumes: seq<string>)

  /** Python's `list(range(n))`. */
  function Range(n: int): (r: seq<int>)
    ensures |r| == if n > 0 then n else 0
    ensures forall i :: 0 <= i < |r| ==> r[i] == i
  {
    if n <= 0 then [] else Range(n - 1) + [n - 1]
  }

  /** The shards of the requested ids, in id order, with the empty ones left out. */
  function NonEmptyShards(targets: seq<string>, shardCount: int, shardIds: seq<int>,
                          shardTests: (seq<string>, int, int) -> seq<string>): (chunks: seq<seq<string>>)
    ensures |chunks| <= |shardIds|
  {
    if shardIds == [] then []
    else
      var c := shardTests(targets, shardCount, shardIds[0]);
      (if |c| > 0 then [c] else []) + NonEmptyShards(targets, shardCount, shardIds[1..], shardTests)
  }

  /**
   * `_get_bazel_log_mount_dir`: the host path of a log directory created
   * under the container's artifact mount is that path with every occurrence
   * of the container mount replaced by the host mount.
   */
  function BazelLogMountDir(artifactHost: string, artifactContainer: string, containerDir: string): (mount: (string, string))
    ensures mount.1 == containerDir
    ensures artifactContainer != [] && !Occurs(artifactContainer, containerDir) ==> mount.0 == containerDir
  {
    var host := ReplaceAll(containerDir, artifactContainer, artifactHost);
    assert artifactContainer != [] && !Occurs(artifactContainer, containerDir) ==> host == containerDir by {
      if artifactContainer != [] && !Occurs(artifactContainer, containerDir) {
        ReplaceAllAbsent(containerDir, artifactContainer, artifactHost);
      }
    }
    (host, containerDir)
  }

  predicate GpusSuffice(gpus: int, shardCount: int) {
    gpus == 0 || gpus >= shardCount
  }

  class TesterContainer {
    var bazelLogDir: string
    var shardCount: int
    var shardIds: seq<int>
    var testEnvs: seq<string>
    var buildType: Option<string>
    var network: Option<string>
    var gpus: int

    /** `__init__` once its assertion holds: absent shard ids and test envs become empty lists. */
    constructor (bazelLogDir: string, shardCount: int, gpus: int, network: Option<string>,
                 testEnvs: Option<seq<string>>, shardIds: Option<seq<int>>, buildType: Option<string>)
      requires GpusSuffice(gpus, shardCount)
      ensures this.bazelLogDir == bazelLogDir && this.shardCount == shardCount && this.gpus == gpus
      ensures this.shardIds == shardIds.GetOr([]) && this.testEnvs == testEnvs.GetOr([])
      ensures this.buildType == buildType && this.network == network
    {
      this.bazelLogDir := bazelLogDir;
      this.shardCount := shardCount;
      this.shardIds := shardIds.GetOr([]);
      this.testEnvs := testEnvs.GetOr([]);
      this.buildType := buildType;
      this.network := network;
      this.gpus := gpus;
    }

    /**
     * `__init__` with its assertion: fails with the source's message exactly
     * when there are GPUs but fewer than shards.
     */
    static method Create(bazelLogDir: string, shardCount: int, gpus: int, network: Option<string>,
                         testEnvs: Option<seq<string>>, shardIds: Option<seq<int>>, buildType: Option<string>)
      returns (r: Result<TesterContainer, string>)
      ensures r.Failure? <==> !GpusSuffice(gpus, shardCount)
      ensures r.Failure? ==> r.error == "Not enough gpus (" + IntToString(gpus) + " provided) for "
                                        + IntToString(shardCount) + " shards"
      ensures r.Success? ==> fresh(r.value) && r.value.shardCount == shardCount && r.value.gpus == gpus
                             && r.value.shardIds == shardIds.GetOr([]) && r.value.testEnvs == testEnvs.GetOr([])
                             && r.value.bazelLogDir == bazelLogDir && r.value.buildType == buildType
                             && r.value.network == network
    {
      if !GpusSuffice(gpus, shardCount) {
        return Failure("Not enough gpus (" + IntToString(gpus) + " provided) for " + IntToString(shardCount) + " shards");
      }
      var c := new TesterContainer(bazelLogDir, shardCount, gpus, network, testEnvs, shardIds, buildType);
      r := Success(c);
    }

    /**
     * `_run_tests_in_docker`: builds the script line by line and the test
     * command flag by flag, and returns what it hands to docker.
     */
    method RunTestsInDocker(testTargets: seq<string>, gpuIds: seq<int>, bazelLogDirHost: string,
                            envs: seq<string>, testArg: Option<string>, platformSystem: string)
      returns (run: RunRequest)
      ensures run.commands == DockerScript(bazelLogDir, buildType, platformSystem, envs, testArg, testTargets)
      ensures run.gpuIds == gpuIds && run.network == network
      ensures run.volumes == [bazelLogDirHost + ":" + bazelLogDir]
    {
      var commands := [CleanupCommand(bazelLogDir), TRAP_CLEANUP];
      if platformSystem == "Windows" {
        commands := commands + [WINDOWS_NETWORKING];
      }
      assert commands == [CleanupCommand(bazelLogDir), TRAP_CLEANUP]
                         + (if platformSystem == "Windows" then [WINDOWS_NETWORKING] else []);
      if buildType == Some("ubsan") {
        commands := commands + [UNSET_COMPILERS];
      }
      var testCmd := BuildTestCommand(testTargets, envs, testArg);
      commands := commands + [testCmd];
      run := RunRequest(commands, gpuIds, network, [bazelLogDirHost + ":" + bazelLogDir]);
    }

    /**
     * The bazel command line of a run: the fixed prefix, the config flags,
     * one `--test_env` flag per variable, the test argument when it is
     * present and not empty, and the targets joined by spaces.
     */
    method BuildTestCommand(testTargets: seq<string>, envs: seq<string>, testArg: Option<string>)
      returns (testCmd: string)
      ensures testCmd == TestCommand(buildType, envs, testArg, testTargets)
    {
      var config := ConfigFlags();
      var envFlags := "";
      for i := 0 to |envs|
        invariant envFlags == EnvFlags(envs[..i])
      {
        EnvFlagsSnoc(envs[..i], envs[i]);
        assert envs[..i + 1] == envs[..i] + [envs[i]];
        envFlags := envFlags + "--test_env " + envs[i] + " ";
      }
      assert envs[..|envs|] == envs;
      var argFlag := "";
      if testArg.Some? && testArg.value != [] {
        ArgFlag(testArg.value);
        argFlag := "--test_arg " + testArg.value + " ";
      }
      testCmd := TEST_PREFIX + config + envFlags + argFlag + Join(testTargets, " ");
    }

    /** The build-type part of the test command: one independent check per known build type. */
    method ConfigFlags() returns (flags: string)
      ensures flags == Unwords(ConfigWords(buildType))
    {
      flags := "";
      if buildType == Some("debug") {
        flags := flags + "--config=ci-debug ";
      }
      if buildType == Some("asan") {
        flags := flags + "--config=asan --config=asan-buildkite ";
      }
      if buildType == Some("clang") {
        flags := flags + "--config=llvm ";
      }
      if buildType == Some("asan-clang") {
        flags := flags + "--config=asan-clang ";
      }
      if buildType == Some("ubsan") {
        flags := flags + "--config=ubsan ";
      }
      if buildType == Some("tsan-clang") {
        flags := flags + "--config=tsan-clang ";
      }
      ConfigWordsFlags(buildType);
    }

    /**
     * `run_tests`: one run per non-empty shard, the GPUs split evenly among
     * the runs; true when no shard is left to run, and otherwise exactly
     * when every run exits with status 0.
     */
    method RunTests(testTargets: seq<string>, testArg: Option<string>, platformSystem: string,
                    shardTests: (seq<string>, int, int) -> seq<string>,
                    chunkIntoN: (seq<int>, int) -> seq<seq<int>>,
                    artifactHost: string, artifactContainer: string, tempDir: string,
                    exitCode: (nat, RunRequest) -> int)
      returns (passed: bool, runs: seq<RunRequest>)
      requires forall xs: seq<int>, n: int :: n > 0 ==> |chunkIntoN(xs, n)| == n
      ensures var chunks := NonEmptyShards(testTargets, shardCount, shardIds, shardTests);
        && |runs| == |chunks|
        && (chunks == [] ==> passed)
        && (forall i :: 0 <= i < |runs| ==> |chunks[i]| > 0)
        && (forall i :: 0 <= i < |runs| ==>
              runs[i] == RunRequest(
                DockerScript(bazelLogDir, buildType, platformSystem, testEnvs, testArg, chunks[i]),
                chunkIntoN(Range(gpus), |chunks|)[i], network,
                [BazelLogMountDir(artifactHost, artifactContainer, tempDir).0 + ":" + bazelLogDir]))
      ensures passed <==> forall i :: 0 <= i < |runs| ==> exitCode(i, runs[i]) == 0
    {
      var chunks := ShardChunks(testTargets, shardTests);
      NonEmptyShardsAreNonEmpty(testTargets, shardCount, shardIds, shardTests);
      if chunks == [] {
        return true, [];
      }
      var gpuIds := chunkIntoN(Range(gpus), |chunks|);
      var (bazelLogDirHost, bazelLogDirContainer) := BazelLogMountDir(artifactHost, artifactContainer, tempDir);
      runs := StartRuns(chunks, gpuIds, bazelLogDirHost, testArg, platformSystem);
      passed := AllExitZero(runs, exitCode);
    }

    /** One docker run per chunk, the `i`-th with the `i`-th GPU group, all sharing the log volume. */
    method StartRuns(chunks: seq<seq<string>>, gpuIds: seq<seq<int>>, bazelLogDirHost: string,
                     testArg: Option<string>, platformSystem: string)
      returns (runs: seq<RunRequest>)
      requires |gpuIds| >= |chunks|
      ensures |runs| == |chunks|
      ensures forall i :: 0 <= i < |runs| ==>
        runs[i] == RunRequest(DockerScript(bazelLogDir, buildType, platformSystem, testEnvs, testArg, chunks[i]),
                              gpuIds[i], network, [bazelLogDirHost + ":" + bazelLogDir])
    {
      runs := [];
      for i := 0 to |chunks|
        invariant |runs| == i
        invariant forall j :: 0 <= j < i ==>
          runs[j] == RunRequest(DockerScript(bazelLogDir, buildType, platformSystem, testEnvs, testArg, chunks[j]),
                                gpuIds[j], network, [bazelLogDirHost + ":" + bazelLogDir])
      {
        var run := RunTestsInDocker(chunks[i], gpuIds[i], bazelLogDirHost, testEnvs, testArg, platformSystem);
        runs := runs + [run];
      }
    }

    /** The non-empty shards of this container's shard ids, collected in id order. */
    method ShardChunks(testTargets: seq<string>, shardTests: (seq<string>, int, int) -> seq<string>)
      returns (chunks: seq<seq<string>>)
      ensures chunks == NonEmptyShards(testTargets, shardCount, shardIds, shardTests)
    {
      chunks := [];
      for k := 0 to |shardIds|
        invariant chunks == NonEmptyShards(testTargets, shardCount, shardIds[..k], shardTests)
      {
        var c := shardTests(testTargets, shardCount, shardIds[k]);
        NonEmptyShardsSnoc(testTargets, shardCount, shardIds[..k], shardIds[k], shardTests);
        assert shardIds[..k + 1] == shardIds[..k] + [shardIds[k]];
        if |c| > 0 {
          chunks := chunks + [c];
        }
      }
      assert shardIds[..|shardIds|] == shardIds;
    }
  }

  /**
   * Waits for every run in turn, then reports whether all of them exited
   * with status 0; `exitCode(i, run)` is the status the `i`-th container
   * exits with.
   */
  method AllExitZero(runs: seq<RunRequest>, exitCode: (nat, RunRequest) -> int) returns (passed: bool)
    ensures passed <==> forall i :: 0 <= i < |runs| ==> exitCode(i, runs[i]) == 0
  {
    var exits: seq<int> := [];
    for i := 0 to |runs|
      invariant |exits| == i
      invariant forall j :: 0 <= j < i ==> exits[j] == exitCode(j, runs[j])
    {
      exits := exits + [exitCode(i, runs[i])];
    }
    passed := true;
    for i := 0 to |exits|
      invariant passed <==> forall j :: 0 <= j < i ==> exits[j] == 0
    {
      passed := passed && exits[i] == 0;
    }
  }

  /** The config flags of each known build type, as the command line spells them. */
  lemma ConfigWordsFlags(buildType: Option<string>)
    ensures Unwords(ConfigWords(buildType)) ==
      if buildType == Some("debug") then "--config=ci-debug "
      else if buildType == Some("asan") then "--config=asan --config=asan-buildkite "
      else if buildType == Some("clang") then "--config=llvm "
      else if buildType == Some("asan-clang") then "--config=asan-clang "
      else if buildType == Some("ubsan") then "--config=ubsan "
      else if buildType == Some("tsan-clang") then "--config=tsan-clang "
      else ""
  {
    var ws := ConfigWords(buildType);
    if buildType == Some("asan") {
      AsanFlags();
    } else if |ws| == 1 {
      assert ws[1..] == [];
    }
  }

  lemma ArgFlag(arg: string)
    requires arg != []
    ensures Unwords(ArgWords(Some(arg))) == "--test_arg " + arg + " "
  {
    var ws := ArgWords(Some(arg));
    assert ws[1..][1..] == [];
    assert Unwords(ws) == "--test_arg" + " " + (arg + " ");
    assert "--test_arg" + " " == "--test_arg ";
  }

  lemma AsanFlags()
    ensures Unwords(["--config=asan", "--config=asan-buildkite"]) == "--config=asan --config=asan-buildkite "
  {
    var ws := ["--config=asan", "--config=asan-buildkite"];
    assert ws[1..][1..] == [];
    var x := ws[0] + " " + (ws[1] + " ");
    var y := "--config=asan --config=asan-buildkite ";
    assert |x| == |y|;
    assert forall i | 0 <= i < |x| :: x[i] == y[i];
  }

  lemma {:induction false} EnvFlagsSnoc(envs: seq<string>, e: string)
    ensures EnvFlags(envs + [e]) == EnvFlags(envs) + "--test_env " + e + " "
  {
    if envs == [] {
      assert envs + [e] == [e];
    } else {
      EnvFlagsSnoc(envs[1..], e);
      assert (envs + [e])[1..] == envs[1..] + [e];
    }
  }

  lemma {:induction false} NonEmptyShardsSnoc(targets: seq<string>, shardCount: int, shardIds: seq<int>, id: int,
                                              shardTests: (seq<string>, int, int) -> seq<string>)
    ensures var c := shardTests(targets, shardCount, id);
      NonEmptyShards(targets, shardCount, shardIds + [id], shardTests)
      == NonEmptyShards(targets, shardCount, shardIds, shardTests) + (if |c| > 0 then [c] else [])
  {
    var ids := shardIds + [id];
    if shardIds == [] {
      assert ids[1..] == [];
    } else {
      NonEmptyShardsSnoc(targets, shardCount, shardIds[1..], id, shardTests);
      assert ids[0] == shardIds[0];
      assert ids[1..] == shardIds[1..] + [id];
      var c0 := shardTests(targets, shardCount, shardIds[0]);
      var head: seq<seq<string>> := if |c0| > 0 then [c0] else [];
      assert NonEmptyShards(targets, shardCount, ids, shardTests)
          == head + NonEmptyShards(targets, shardCount, shardIds[1..] + [id], shardTests);
      assert NonEmptyShards(targets, shardCount, shardIds, shardTests)
          == head + NonEmptyShards(targets, shardCount, shardIds[1..], shardTests);
    }
  }

  /** Every shard kept is non-empty. */
  lemma {:induction false} NonEmptyShardsAreNonEmpty(targets: seq<string>, shardCount: int, shardIds: seq<int>,
                                                     shardTests: (seq<string>, int, int) -> seq<string>)
    ensures forall c :: c in NonEmptyShards(targets, shardCount, shardIds, shardTests) ==> |c| > 0
  {
    if shardIds != [] {
      NonEmptyShardsAreNonEmpty(targets, shardCount, shardIds[1..], shardTests);
    }
  }

  /** The positions in `shardIds` whose shard is not empty, in increasing order. */
  function KeptPositions(targets: seq<string>, shardCount: int, shardIds: seq<int>,
                         shardTests: (seq<string>, int, int) -> seq<string>): seq<nat>
    decreases |shardIds|
  {
    if shardIds == [] then []
    else
      var n := |shardIds| - 1;
      KeptPositions(targets, shardCount, shardIds[..n], shardTests)
      + (if |shardTests(targets, shardCount, shardIds[n])| > 0 then [n] else [])
  }

  lemma KeptPositionsSnoc(targets: seq<string>, shardCount: int, shardIds: seq<int>,
                          shardTests: (seq<string>, int, int) -> seq<string>)
    requires shardIds != []
    ensures var n := |shardIds| - 1;
      KeptPositions(targets, shardCount, shardIds, shardTests)
      == KeptPositions(targets, shardCount, shardIds[..n], shardTests)
         + (if |shardTests(targets, shardCount, shardIds[n])| > 0 then [n] else [])
  {
  }

  /** Every kept position is a position of `shardIds` whose shard is non-empty. */
  lemma {:induction false} KeptPositionsNonEmpty(targets: seq<string>, shardCount: int, shardIds: seq<int>,
                                                 shardTests: (seq<string>, int, int) -> seq<string>, j: int)
    requires 0 <= j < |KeptPositions(targets, shardCount, shardIds, shardTests)|
    ensures var k := KeptPositions(targets, shardCount, shardIds, shardTests)[j];
      k < |shardIds| && |shardTests(targets, shardCount, shardIds[k])| > 0
    decreases |shardIds|
  {
    var n := |shardIds| - 1;
    var front := shardIds[..n];
    KeptPositionsSnoc(targets, shardCount, shardIds, shardTests);
    var ks0 := KeptPositions(targets, shardCount, front, shardTests);
    if j < |ks0| {
      KeptPositionsNonEmpty(targets, shardCount, front, shardTests, j);
      assert front[ks0[j]] == shardIds[ks0[j]];
    }
  }

  /** The kept positions increase strictly. */
  lemma {:induction false} KeptPositionsIncrease(targets: seq<string>, shardCount: int, shardIds: seq<int>,
                                                 shardTests: (seq<string>, int, int) -> seq<string>, j: int, j': int)
    requires 0 <= j < j' < |KeptPositions(targets, shardCount, shardIds, shardTests)|
    ensures KeptPositions(targets, shardCount, shardIds, shardTests)[j] < KeptPositions(targets, shardCount, shardIds, shardTests)[j']
    decreases |shardIds|
  {
    var n := |shardIds| - 1;
    var front := shardIds[..n];
    KeptPositionsSnoc(targets, shardCount, shardIds, shardTests);
    var ks0 := KeptPositions(targets, shardCount, front, shardTests);
    KeptPositionsNonEmpty(targets, shardCount, front, shardTests, j);
    if j' < |ks0| {
      KeptPositionsIncrease(targets, shardCount, front, shardTests, j, j');
    }
  }

  /** Every position whose shard is non-empty is kept. */
  lemma {:induction false} KeptPositionsComplete(targets: seq<string>, shardCount: int, shardIds: seq<int>,
                                                 shardTests: (seq<string>, int, int) -> seq<string>, k: int)
    requires 0 <= k < |shardIds| && |shardTests(targets, shardCount, shardIds[k])| > 0
    ensures k in KeptPositions(targets, shardCount, shardIds, shardTests)
    decreases |shardIds|
  {
    var n := |shardIds| - 1;
    var front := shardIds[..n];
    KeptPositionsSnoc(targets, shardCount, shardIds, shardTests);
    if k < n {
      assert front[k] == shardIds[k];
      KeptPositionsComplete(targets, shardCount, front, shardTests, k);
    }
  }

  /**
   * The kept shards are the shards of the kept positions, in that order: so
   * `NonEmptyShards` holds exactly the non-empty shards of the requested ids,
   * in id order.
   */
  lemma {:induction false} NonEmptyShardsPositions(targets: seq<string>, shardCount: int, shardIds: seq<int>,
                                                   shardTests: (seq<string>, int, int) -> seq<string>)
    ensures var chunks := NonEmptyShards(targets, shardCount, shardIds, shardTests);
      var ks := KeptPositions(targets, shardCount, shardIds, shardTests);
      && |ks| == |chunks|
      && forall j :: 0 <= j < |ks| ==> ks[j] < |shardIds| && chunks[j] == shardTests(targets, shardCount, shardIds[ks[j]])
    decreases |shardIds|
  {
    if shardIds != [] {
      var n := |shardIds| - 1;
      var front := shardIds[..n];
      var id := shardIds[n];
      NonEmptyShardsPositions(targets, shardCount, front, shardTests);
      NonEmptyShardsSnoc(targets, shardCount, front, id, shardTests);
      KeptPositionsSnoc(targets, shardCount, shardIds, shardTests);
      assert front + [id] == shardIds;
      var chunks0 := NonEmptyShards(targets, shardCount, front, shardTests);
      var chunks := NonEmptyShards(targets, shardCount, shardIds, shardTests);
      var ks0 := KeptPositions(targets, shardCount, front, shardTests);
      var ks := KeptPositions(targets, shardCount, shardIds, shardTests);
      forall j | 0 <= j < |ks| ensures ks[j] < |shardIds| && chunks[j] == shardTests(targets, shardCount, shardIds[ks[j]]) {
        if j < |ks0| {
          assert chunks[j] == chunks0[j] && ks[j] == ks0[j] && front[ks0[j]] == shardIds[ks0[j]];
        }
      }
    }
  }

  /** The shard of every requested id is kept exactly when it is not empty. */
  lemma {:induction false} NonEmptyShardsKeep(targets: seq<string>, shardCount: int, shardIds: seq<int>,
                                              shardTests: (seq<string>, int, int) -> seq<string>, k: int)
    requires 0 <= k < |shardIds|
    requires |shardTests(targets, shardCount, shardIds[k])| > 0
    ensures shardTests(targets, shardCount, shardIds[k]) in NonEmptyShards(targets, shardCount, shardIds, shardTests)
  {
    if k > 0 {
      NonEmptyShardsKeep(targets, shardCount, shardIds[1..], shardTests, k - 1);
    }
  }

  /** The environment flags are the environment words, each followed by a space. */
  lemma {:induction false} EnvFlagsWords(envs: seq<string>)
    ensures EnvFlags(envs) == Unwords(EnvWords(envs))
  {
    if envs != [] {
      EnvFlagsWords(envs[1..]);
      var ws := ["--test_env", envs[0]] + EnvWords(envs[1..]);
      assert ws[1..][1..] == EnvWords(envs[1..]);
      assert Unwords(ws) == "--test_env" + " " + (envs[0] + " " + Unwords(EnvWords(envs[1..])));
    }
  }

  lemma {:induction false} UnwordsAppend(a: seq<string>, b: seq<string>)
    ensures Unwords(a + b) == Unwords(a) + Unwords(b)
  {
    if a == [] {
      assert a + b == b;
    } else {
      UnwordsAppend(a[1..], b);
      assert (a + b)[1..] == a[1..] + b;
    }
  }

  /** Splitting words-with-spaces followed by `rest` yields the words, then the split of `rest`. */
  lemma {:induction false} SplitUnwords(ws: seq<string>, rest: string)
    requires forall i :: 0 <= i < |ws| ==> ' ' !in ws[i]
    ensures Split(Unwords(ws) + rest, ' ') == ws + Split(rest, ' ')
  {
    if ws != [] {
      calc {
        Split(Unwords(ws) + rest, ' ');
        == { assert Unwords(ws) + rest == ws[0] + [' '] + (Unwords(ws[1..]) + rest); }
        Split(ws[0] + [' '] + (Unwords(ws[1..]) + rest), ' ');
        == { SplitAtSeparator(ws[0], ' ', Unwords(ws[1..]) + rest); }
        [ws[0]] + Split(Unwords(ws[1..]) + rest, ' ');
        == { SplitUnwords(ws[1..], rest); }
        [ws[0]] + (ws[1..] + Split(rest, ' '));
        == { assert [ws[0]] + ws[1..] == ws; }
        ws + Split(rest, ' ');
      }
    } else {
      assert Unwords(ws) + rest == rest;
    }
  }

  lemma PrefixWordsHaveNoSpace()
    ensures forall i :: 0 <= i < |PREFIX_WORDS| ==> ' ' !in PREFIX_WORDS[i]
  {
  }

  lemma ConfigWordsHaveNoSpace(buildType: Option<string>)
    ensures forall i :: 0 <= i < |ConfigWords(buildType)| ==> ' ' !in ConfigWords(buildType)[i]
  {
  }

  lemma {:induction false} EnvWordsHaveNoSpace(envs: seq<string>)
    requires forall i :: 0 <= i < |envs| ==> ' ' !in envs[i]
    ensures forall i :: 0 <= i < |EnvWords(envs)| ==> ' ' !in EnvWords(envs)[i]
  {
    if envs != [] {
      EnvWordsHaveNoSpace(envs[1..]);
      var ws := ["--test_env", envs[0]] + EnvWords(envs[1..]);
      forall i | 0 <= i < |ws| ensures ' ' !in ws[i] {
        if i >= 2 { assert ws[i] == EnvWords(envs[1..])[i - 2]; }
      }
    }
  }

    /** No word before the targets contains a space. */
  lemma HeadWordsHaveNoSpace(buildType: Option<string>, envs: seq<string>, testArg: Option<string>)
    requires forall i :: 0 <= i < |envs| ==> ' ' !in envs[i]
    requires testArg.Some? ==> ' ' !in testArg.value
    ensures var head := PREFIX_WORDS + ConfigWords(buildType) + EnvWords(envs) + ArgWords(testArg);
      forall i :: 0 <= i < |head| ==> ' ' !in head[i]
  {
    var head := PREFIX_WORDS + ConfigWords(buildType) + EnvWords(envs) + ArgWords(testArg);
    PrefixWordsHaveNoSpace();
    ConfigWordsHaveNoSpace(buildType);
    EnvWordsHaveNoSpace(envs);
    forall i | 0 <= i < |head| ensures ' ' !in head[i] {
      var p := |PREFIX_WORDS|;
      var c := |ConfigWords(buildType)|;
      var e := |EnvWords(envs)|;
      if i < p { assert head[i] == PREFIX_WORDS[i]; }
      else if i < p + c { assert head[i] == ConfigWords(buildType)[i - p]; }
      else if i < p + c + e { assert head[i] == EnvWords(envs)[i - p - c]; }
      else { assert head[i] == ArgWords(testArg)[i - p - c - e]; }
    }
  }

/**
   * What the shell sees: when no environment variable, test argument or
   * target contains a space and there is at least one target, the words of
   * the test command are the fixed bazel prefix, the build type's config
   * flags, `--test_env <env>` per environment variable in order,
   * `--test_arg <arg>` when the argument is present and not empty, and the
   * targets.
   */
  lemma TestCommandWords(buildType: Option<string>, envs: seq<string>, testArg: Option<string>, targets: seq<string>)
    requires forall i :: 0 <= i < |envs| ==> ' ' !in envs[i]
    requires testArg.Some? ==> ' ' !in testArg.value
    requires targets != [] && forall i :: 0 <= i < |targets| ==> ' ' !in targets[i]
    ensures Split(TestCommand(buildType, envs, testArg, targets), ' ') == CommandWords(buildType, envs, testArg, targets)
  {
    var head := PREFIX_WORDS + ConfigWords(buildType) + EnvWords(envs) + ArgWords(testArg);
    EnvFlagsWords(envs);
    UnwordsAppend(PREFIX_WORDS, ConfigWords(buildType));
    UnwordsAppend(PREFIX_WORDS + ConfigWords(buildType), EnvWords(envs));
    UnwordsAppend(PREFIX_WORDS + ConfigWords(buildType) + EnvWords(envs), ArgWords(testArg));
    assert TestCommand(buildType, envs, testArg, targets) == Unwords(head) + Join(targets, " ");
    HeadWordsHaveNoSpace(buildType, envs, testArg);
    SplitUnwords(head, Join(targets, " "));
    SplitJoin(targets, ' ');
  }


  /**
   * The host log directory is the container one with the container mount
   * prefix swapped for the host mount, when the rest of the path does not
   * contain the container mount again.
   */
  lemma BazelLogMountDirSwapsPrefix(artifactHost: string, artifactContainer: string, tail: string)
    requires artifactContainer != []
    requires !Occurs(artifactContainer, tail)
    ensures BazelLogMountDir(artifactHost, artifactContainer, artifactContainer + tail)
         == (artifactHost + tail, artifactContainer + tail)
  {
    ReplaceAllLeading(artifactContainer, tail, artifactHost);
  }

  /**
   * Between the trap and the test command, a script holds the Windows
   * networking line exactly on Windows and `unset CC CXX` exactly for ubsan
   * builds, and no other line.
   */
  lemma DockerScriptLines(bazelLogDir: string, buildType: Option<string>, platformSystem: string,
                          envs: seq<string>, testArg: Option<string>, targets: seq<string>)
    ensures var script := DockerScript(bazelLogDir, buildType, platformSystem, envs, testArg, targets);
      && (WINDOWS_NETWORKING in script[2..|script| - 1] <==> platformSystem == "Windows")
      && (UNSET_COMPILERS in script[2..|script| - 1] <==> buildType == Some("ubsan"))
      && (forall k :: 2 <= k < |script| - 1 ==> script[k] == WINDOWS_NETWORKING || script[k] == UNSET_COMPILERS)
  {
    var script := DockerScript(bazelLogDir, buildType, platformSystem, envs, testArg, targets);
    var windows := platformSystem == "Windows";
    var ubsan := buildType == Some("ubsan");
    assert WINDOWS_NETWORKING != UNSET_COMPILERS by {
      assert |WINDOWS_NETWORKING| != |UNSET_COMPILERS|;
    }
    var mid := script[2..|script| - 1];
    if windows && ubsan {
      assert mid == [WINDOWS_NETWORKING, UNSET_COMPILERS];
    } else if windows {
      assert mid == [WINDOWS_NETWORKING];
    } else if ubsan {
      assert mid == [UNSET_COMPILERS];
    } else {
      assert mid == [];
    }
  }
}
