# Ray node reporter and CI tester container, in Dafny

This project models two pieces of the Ray repository and proves properties of them.

**The dashboard reporter agent of a node.** Each poll it turns one stats snapshot into gauge records (`_record_stats`):

- the shared-memory gauge;
- per-component USS (MB) and CPU-percentage gauges for the raylet, the dashboard agent and every `ray::` worker;
- four gauges per indexed GPU.

A worker component that disappears between two polls is reported once more with zeros (the reset). Across polls the agent also tracks the raylet's worker processes by (pid, create time), so that each one gets a CPU percentage (`_get_workers`). Inside a Kubernetes pod it replaces the root disk usage by a dummy entry unless K8s disk usage is enabled (`_get_disk_usage`).

`reporter_agent.py` is not part of this model. Its behaviour is taken from what `dashboard/modules/reporter/tests/test_reporter.py` asserts about it, and the model is a reference model of that behaviour. The scenarios of that test file are stated as lemmas about the model in `reporter_scenarios.dfy`.

**The CI tester container (`ci/ray_ci/tester_container.py`).**

- Its constructor, together with its assertion that there are either no GPUs or at least one per shard.
- `run_tests`:
  - shards the test targets and drops the empty shards;
  - splits the GPUs among the remaining shards and starts one docker run per shard;
  - succeeds exactly when every run exits with status 0.
- `_run_tests_in_docker`: builds the shell script of one run, that is the cleanup trap, the optional platform and compiler lines, and the `bazel test` command line.
- `_get_bazel_log_mount_dir`: maps the container log path to the host path.

The container is a class whose fields are the constructor's attributes. The shard split (`shard_tests`), the GPU split (`chunk_into_n`), the temporary directory, the platform name and the exit status of a run are parameters. A run is represented by the request handed to docker (`RunRequest`).

Files:

| file | contents |
|---|---|
| `wrappers.dfy` | `Option` and `Result` |
| `text.dfy` | decimal rendering and parsing, Python's `str.join`, `str.split` on one character and `str.replace` |
| `metrics.dfy` | gauge records and the queries the tests make over them |
| `gpu_stats.dfy` | GPU records |
| `component_stats.dfy` | component usage records and the reset |
| `reporter_agent.dfy` | the reporter agent class and the laws of one poll and of several |
| `reporter_scenarios.dfy` | the tests' scenarios |
| `tester_container.dfy` | the CI tester container |

## Model

| member | source | states |
|---|---|---|
| Text.ParseNatToString | dashboard/modules/reporter/tests/test_reporter.py:415-418 | the decimal string a GPU index is tagged with parses back to that index |
| Text.SplitJoin | ci/ray_ci/tester_container.py:210 | joining non-empty targets with one space and splitting on that space gives back the targets when none contains a space |
| Text.ReplaceAllLeading | ci/ray_ci/tester_container.py:66-68 | replacing the container mount in "mount + rest" gives "host mount + rest" when the mount does not occur again in the rest |
| GpuStats.GpuTags | dashboard/modules/reporter/tests/test_reporter.py:408-420 | a device's tags are ip and GpuIndex, plus GpuDeviceName exactly when the device has a name; the index tag is the decimal index |
| GpuStats.IndexedMembers | dashboard/modules/reporter/tests/test_reporter.py:372-395 | the devices that get records are exactly the sampled devices that have an index |
| GpuStats.DeviceRecordsNamed | dashboard/modules/reporter/tests/test_reporter.py:396-400 | each indexed device yields exactly four GPU-named records |
| GpuStats.DeviceRecordsValues | dashboard/modules/reporter/tests/test_reporter.py:422-427 | per device: available 1, utilisation its utilisation, used its memory used, available memory total minus used |
| GpuStats.GpuRecordsDropUnindexed | dashboard/modules/reporter/tests/test_reporter.py:394-400 | devices without an index add no record; there are 4 GPU records per indexed device and no other |
| GpuStats.GpuRecords | dashboard/modules/reporter/tests/test_reporter.py:394-400 | the GPU records of a poll number four per sample that carries an index |
| GpuStats.GpuRecordsSound | dashboard/modules/reporter/tests/test_reporter.py:402-406 | every GPU record comes from an indexed device and carries a GPU metric name |
| GpuStats.GpuRecordsComplete | dashboard/modules/reporter/tests/test_reporter.py:408-427 | every indexed device has a record for each GPU metric, with that device's tags and value |
| GpuStats.GpuRecordsTotal | dashboard/modules/reporter/tests/test_reporter.py:429-435 | the values of each GPU metric sum to that metric's total over the indexed devices |
| GpuStats.AvailableTotalIsDeviceCount | dashboard/modules/reporter/tests/test_reporter.py:424-432 | summed availability equals the number of devices |
| ComponentStats.NonWorkerIgnored | dashboard/modules/reporter/tests/test_reporter.py:589-612 | a process whose first command-line word does not start with `ray::`, wherever it stands among the workers, leaves the component records of the poll exactly as they would be without it |
| ComponentStats.WorkerNames | dashboard/modules/reporter/tests/test_reporter.py:546-551 | the reported worker names are distinct, all `ray::`-prefixed, and are exactly the names of the classified workers |
| ComponentStats.UssMb | dashboard/modules/reporter/tests/test_reporter.py:552-559 | a process's USS in megabytes times 10^6 is its USS figure; a process without a USS figure reads 0 |
| ComponentStats.Stale | dashboard/modules/reporter/tests/test_reporter.py:566-587 | the names to reset are exactly those reported last poll and absent now, without repeats |
| ComponentStats.UsageRecordsQuery | dashboard/modules/reporter/tests/test_reporter.py:518-529 | one component's usage pair is found under its Component tag for each usage metric, and under no other tag |
| ComponentStats.ProcRecordsQuery | dashboard/modules/reporter/tests/test_reporter.py:546-560 | the raylet or agent reports its USS in MB and its CPU percentage when present and nothing when absent |
| ComponentStats.WorkerRecordsQuery | dashboard/modules/reporter/tests/test_reporter.py:546-560 | each current worker name is reported once, with the summed usage of the workers of that name |
| ComponentStats.ResetRecordsQuery | dashboard/modules/reporter/tests/test_reporter.py:578-587 | each stale name is reported once with USS 0 and CPU 0 |
| ComponentStats.FixedRecordsQuery | dashboard/modules/reporter/tests/test_reporter.py:546-560 | the raylet and agent records answer only for the names `raylet` and `agent` |
| ComponentStats.WorkerPartQuery | dashboard/modules/reporter/tests/test_reporter.py:562-587 | worker records answer current names with their usage, stale names with 0, and nothing else |
| ComponentStats.ComponentRecordsQuery | dashboard/modules/reporter/tests/test_reporter.py:534-612 | the component records of a poll give, per name and usage metric, exactly the expected values (raylet/agent figures, current worker usage, 0 for a stale worker, none otherwise) |
| ComponentStats.ComponentRecords | dashboard/modules/reporter/tests/test_reporter.py:534-612 | one record pair for the raylet and for the agent when present, for each distinct worker name of the poll, and for each worker name of the previous poll that has disappeared |
| ComponentStats.WorkerRecordsNamed | dashboard/modules/reporter/tests/test_reporter.py:518-529 | worker records are only component_uss_mb or component_cpu_percentage gauges |
| ComponentStats.ResetRecordsNamed | dashboard/modules/reporter/tests/test_reporter.py:518-529 | reset records are only component_uss_mb or component_cpu_percentage gauges |
| ComponentStats.ComponentRecordsNamed | dashboard/modules/reporter/tests/test_reporter.py:518-529 | all component records are one of the two usage gauges |
| Reporter.CpuPercent | dashboard/modules/reporter/tests/test_reporter.py:658-673 | 0 the first time a worker key is seen or when no wall time passed; otherwise percentage times elapsed wall time equals 100 times the CPU seconds used since the baseline |
| Reporter.ShmRecords | dashboard/modules/reporter/tests/test_reporter.py:264-269 | the shared-memory gauge carries the snapshot's shm value, and exists only when there is one |
| Reporter.StatsRecords | dashboard/modules/reporter/tests/test_reporter.py:249-286 | every record of a poll is the shared-memory gauge, one of the two component usage gauges or one of the four GPU gauges |
| Reporter.GetDiskUsage | dashboard/modules/reporter/tests/test_reporter.py:615-631 | inside a pod without K8s disk usage the root entry alone, total 1 and free 1; otherwise the probed usage unchanged |
| Reporter.ReporterAgent.constructor | dashboard/modules/reporter/tests/test_reporter.py:249-253 | a new agent tracks no worker and remembers no reported worker name |
| Reporter.ReporterAgent.GetWorkers | dashboard/modules/reporter/tests/test_reporter.py:634-689 | one entry per child of the raylet other than the agent process, in the children's order, each with its CPU percentage measured against the old baseline; no entry has the agent's key; an entry whose key was not tracked reads 0; the tracker becomes `Tracked` of the children |
| Reporter.NonAgent | dashboard/modules/reporter/tests/test_reporter.py:642-646 | the listed children are exactly the children whose key is not the agent's |
| Reporter.TrackedKeys | dashboard/modules/reporter/tests/test_reporter.py:675-689 | after a poll the tracker never holds the agent's key, holds the key of every other child, and holds only keys of current children with a baseline taken from them now: a dead worker is no longer tracked |
| Reporter.ReporterAgent.RecordStats | dashboard/modules/reporter/tests/test_reporter.py:534-612 | the records are those of the snapshot given the names reported last poll; this poll's worker names are remembered; the tracker is untouched |
| Reporter.StatsShm | dashboard/modules/reporter/tests/test_reporter.py:264-269 | the node_mem_shared_bytes values of a poll are exactly [shm], or none without shm |
| Reporter.StatsGpuCount | dashboard/modules/reporter/tests/test_reporter.py:394-400 | a poll has exactly 4 GPU-named records per indexed device |
| Reporter.StatsGpuTotal | dashboard/modules/reporter/tests/test_reporter.py:429-435 | each GPU metric of a poll sums to its total over the indexed devices |
| Reporter.StatsComponents | dashboard/modules/reporter/tests/test_reporter.py:518-560 | the component values of a poll are the expected values, unaffected by the shm and GPU records |
| Reporter.ResetLaw | dashboard/modules/reporter/tests/test_reporter.py:562-587 | a worker reported in one poll and gone in the next is reported there with 0, and not at all in the poll after |
| Reporter.UnmanagedProcessNotReported | dashboard/modules/reporter/tests/test_reporter.py:589-612 | a name without the `ray::` prefix (other than raylet and agent) gets no component records |
| ReporterScenarios.IndexedTestGpus | dashboard/modules/reporter/tests/test_reporter.py:311-387 | of the five test devices the four first are indexed and the last is dropped |
| ReporterScenarios.TestGpuTotals | dashboard/modules/reporter/tests/test_reporter.py:432-435 | the test devices total availability 4, utilisation 6, memory used 6, memory available 4·22731−6 |
| ReporterScenarios.ReportStatsGpuTotals | dashboard/modules/reporter/tests/test_reporter.py:394-435 | a poll of the test devices has 16 GPU-named records with those four sums |
| ReporterScenarios.TestGpuAt | dashboard/modules/reporter/tests/test_reporter.py:311-371 | an indexed test device has index below 4, name NVIDIA A10G except index 3, and utilisation and memory used equal to its index |
| ReporterScenarios.DeviceRecordAsTested | dashboard/modules/reporter/tests/test_reporter.py:408-427 | a record of such a device has the tags and the value the test expects for its index |
| ReporterScenarios.ReportStatsGpuRecords | dashboard/modules/reporter/tests/test_reporter.py:402-427 | every GPU record of the test devices matches the test's expected tags and value for some index below 4 |
| ReporterScenarios.FirstPollWorkerNames | dashboard/modules/reporter/tests/test_reporter.py:505 | the first poll's worker names are ray::IDLE and ray::func |
| ReporterScenarios.SecondPollWorkerNames | dashboard/modules/reporter/tests/test_reporter.py:567 | the second poll's worker names are ray::IDLE alone |
| ReporterScenarios.ThirdPollWorkerNames | dashboard/modules/reporter/tests/test_reporter.py:607 | the third poll's worker names are ray::IDLE alone: `python mock` is not a worker |
| ReporterScenarios.PerComponentFirstPollFixed | dashboard/modules/reporter/tests/test_reporter.py:534-560 | raylet and agent report USS 51.428381 MB and CPU 4 and 6 |
| ReporterScenarios.FirstPollTotals | dashboard/modules/reporter/tests/test_reporter.py:446-505 | in the first poll the summed USS of ray::IDLE and of ray::func is 51.428381 MB each, and their CPU 5 and 6 |
| ReporterScenarios.PerComponentFirstPollIdle | dashboard/modules/reporter/tests/test_reporter.py:534-560 | ray::IDLE reports USS 51.428381 MB and CPU 5 |
| ReporterScenarios.PerComponentFirstPollFunc | dashboard/modules/reporter/tests/test_reporter.py:534-560 | ray::func reports USS 51.428381 MB and CPU 6 |
| ReporterScenarios.SecondPollTotals | dashboard/modules/reporter/tests/test_reporter.py:566-576 | in the second poll ray::IDLE alone sums to USS 51.428381 MB and CPU 5 |
| ReporterScenarios.PerComponentSecondPollIdle | dashboard/modules/reporter/tests/test_reporter.py:566-576 | after ray::func exits, ray::IDLE keeps USS 51.428381 MB and CPU 5 |
| ReporterScenarios.SecondPollFuncStale | dashboard/modules/reporter/tests/test_reporter.py:566-587 | after the second poll ray::func is neither raylet, agent nor a live worker, so for either usage metric it is expected once with 0 |
| ReporterScenarios.PerComponentSecondPollFunc | dashboard/modules/reporter/tests/test_reporter.py:566-587 | after ray::func exits it is reported once more with USS 0 and CPU 0 |
| ReporterScenarios.PerComponentThirdPoll | dashboard/modules/reporter/tests/test_reporter.py:589-612 | `python mock` has no USS and no CPU record |
| ReporterScenarios.ReportStatsShm | dashboard/modules/reporter/tests/test_reporter.py:264-269 | the template's shared memory is reported as 456 |
| ReporterScenarios.EnableK8sDiskUsageDisabled | dashboard/modules/reporter/tests/test_reporter.py:628-631 | in a pod with K8s disk usage disabled the root disk reads total 1 and free 1 |
| ReporterScenarios.WorkerCpuPercent | dashboard/modules/reporter/tests/test_reporter.py:634-673 | with the agent process among the raylet's children, a fresh tracker reports exactly the two children, each at 0 and neither with the agent's pid; a later poll still registers both children; then `KillPolls` |
| ReporterScenarios.KillPolls | dashboard/modules/reporter/tests/test_reporter.py:675-689 | after the first child is killed its pid is gone and the other's remains; after both are killed, neither remains |
| CiTester.Range | ci/ray_ci/tester_container.py:94 | `list(range(gpus))`: the ids 0 to gpus−1, and none for a non-positive count |
| CiTester.NonEmptyShards | ci/ray_ci/tester_container.py:79-88 | at most one chunk per requested shard id |
| CiTester.KeptPositionsNonEmpty | ci/ray_ci/tester_container.py:79-88 | every kept position is a requested position whose shard is non-empty |
| CiTester.KeptPositionsIncrease | ci/ray_ci/tester_container.py:79-88 | the kept positions increase strictly, so the chunks keep the order of the shard ids |
| CiTester.KeptPositionsComplete | ci/ray_ci/tester_container.py:79-88 | every requested position whose shard is non-empty is kept |
| CiTester.NonEmptyShardsPositions | ci/ray_ci/tester_container.py:79-88 | the chunks are the shards of the kept positions, one for one and in that order |
| CiTester.TesterContainer.constructor | ci/ray_ci/tester_container.py:24-52 | the attributes are the arguments, with absent shard ids and test envs read as empty lists |
| CiTester.TesterContainer.Create | ci/ray_ci/tester_container.py:50-52 | fails exactly when there are GPUs but fewer than shards, with the message "Not enough gpus (g provided) for n shards"; otherwise a new container with those attributes |
| CiTester.TesterContainer.RunTestsInDocker | ci/ray_ci/tester_container.py:169-219 | the script is cleanup, trap, the Windows networking fix, `unset CC CXX` for ubsan, then the test command; the run gets the given GPUs, the container's network and the log volume host:container |
| CiTester.TesterContainer.BuildTestCommand | ci/ray_ci/tester_container.py:193-210 | the command is the bazel prefix, the build type's config flags, one --test_env per variable in order, --test_arg when the argument is non-empty, then the targets joined by spaces |
| CiTester.TesterContainer.ConfigFlags | ci/ray_ci/tester_container.py:194-205 | the config flags of the six known build types, none for any other |
| CiTester.TesterContainer.RunTests | ci/ray_ci/tester_container.py:71-105 | one run per non-empty shard, in shard order, with that shard's GPU chunk and the host log volume; true with no run when all shards are empty; otherwise true exactly when every run exits 0 |
| CiTester.TesterContainer.ShardChunks | ci/ray_ci/tester_container.py:79-88 | the chunks are the shards of the requested ids, in order, without the empty ones |
| CiTester.TesterContainer.StartRuns | ci/ray_ci/tester_container.py:95-101 | one run per chunk, in chunk order, the i-th with the i-th GPU group, the container's script, network and the host log volume |
| CiTester.AllExitZero | ci/ray_ci/tester_container.py:102-105 | true exactly when the exit status of every run, the i-th with its own status, is 0 |
| CiTester.ConfigWordsFlags | ci/ray_ci/tester_container.py:194-205 | the flag string per build type: debug, asan (two flags), clang (llvm), asan-clang, ubsan, tsan-clang, otherwise empty |
| CiTester.ArgFlag | ci/ray_ci/tester_container.py:208-209 | a non-empty test argument becomes `--test_arg <arg> ` |
| CiTester.NonEmptyShardsAreNonEmpty | ci/ray_ci/tester_container.py:79-88 | no chunk that is run is empty |
| CiTester.NonEmptyShardsKeep | ci/ray_ci/tester_container.py:79-88 | every requested shard that is not empty is run |
| CiTester.EnvFlagsWords | ci/ray_ci/tester_container.py:206-207 | the environment flags are the words `--test_env <env>` per variable, each followed by a space |
| CiTester.TestCommandWords | ci/ray_ci/tester_container.py:193-210 | with no space inside an env, the argument or a target, the shell words of the command are the bazel prefix, the config flags, the env flags, the test-arg flag and exactly the targets |
| CiTester.DockerScript | ci/ray_ci/tester_container.py:178-211 | a script has three to five lines: cleanup and trap first, the test command last |
| CiTester.DockerScriptLines | ci/ray_ci/tester_container.py:178-192 | between trap and test command, the Windows line is present iff the platform is Windows and `unset CC CXX` iff the build is ubsan, and no other line |
| CiTester.TestCommand | ci/ray_ci/tester_container.py:193-210 | the test command starts with the bazel prefix and ends with the joined targets |
| CiTester.BazelLogMountDirSwapsPrefix | ci/ray_ci/tester_container.py:58-69 | a log directory under the container mount maps to the same path under the host mount, and the container path is kept |
| CiTester.BazelLogMountDir | ci/ray_ci/tester_container.py:58-69 | the container path is returned unchanged as the second part; a path in which the container mount does not occur maps to itself on the host |

## Left out

- `reporter_agent.py` is not part of this model. The reporter model follows what `test_reporter.py` asserts. The reporter's other node gauges are out: CPU, memory, disk, network, the autoscaler gauges and the rss/vms component gauges. The tests' total record counts (33, 30, 34, 32) depend on those gauges and are not stated.
- Process inspection through psutil is out, and so are rounding of the CPU percentage and zombie or access-denied processes. The children of the raylet come in as a list of samples, and the clock as a parameter.
- The raylet and the agent are not reset when they disappear: an absent one simply yields no records. Several workers with the same name are summed into one pair; the tests only use distinct worker names. A missing USS figure counts as 0: the template's raylet and agent (`test_reporter.py` lines 64-89) carry no `memory_full_info`, and `test_report_stats` records them (lines 264-286) without asserting their component values.
- Availability of a GPU is 1 for every indexed device, busy or idle, and there are no node-wide GPU aggregate gauges: `test_reporter.py` expects availability 1 for devices with non-zero utilisation (lines 424-425 and 432) and exactly 16 GPU-named records for four devices (line 400).
- `ReporterScenarios.EnableK8sDiskUsageDisabled`: the enabled case of the test (real values differ from 1) depends on the host's disk and is stated only as "the probe is passed through" in `Reporter.GetDiskUsage`.
- `ReporterScenarios.WorkerCpuPercent`: the test polls ten times before the kills; one later poll stands for them. Its "subsequent polls are positive" comparison depends on real CPU work (and is not asserted in the test); only the zero first poll and the pid bookkeeping are stated.
- `Reporter.ReporterAgent.GetWorkers`: entries come in the order of the children list. The order `_get_workers` returns them in is not visible from the test, which compares pid sets only.
- `Reporter.ReporterAgent.GetWorkers`: the agent process is identified by its key and skipped. The test always has it among the raylet's children (lines 635-656); what `_get_workers` does when it is missing is not modelled.
- `CiTester.NonEmptyShards`: its own contract only bounds the number of chunks. Which chunks are kept, and in which order, is stated by `CiTester.NonEmptyShardsPositions` and the three `CiTester.KeptPositions…` lemmas.
- TesterContainer: the following are outside the model:
  - `install_ray` and `skip_ray_installation`;
  - `_init_bazel_log_dir`;
  - `get_artifact_mount`, `get_run_command` and `subprocess.Popen`/`wait`;
  - `persist_test_results` and `_upload_build_info`;
  - `_upload_test_results` and `_get_test_result_events`, which read files and JSON and are defined twice in the source;
  - the `logger` calls.

  The following are parameters: `shard_tests`, `chunk_into_n`, `tempfile.mkdtemp` (its result), `platform.system()` and the exit status of a run.
- `CiTester.TesterContainer.constructor`: the source's parameter list names `bazel_log_dir` twice (lines 26 and 29), which Python rejects. The model takes a single `bazel_log_dir`.
- `CiTester.TesterContainer.RunTests`: requires that `chunk_into_n(xs, n)` returns `n` chunks for positive `n`, which is what that helper promises. Indexing its result is otherwise unchecked in the source.
- `ci/ray_ci/automation/check_nightly_ray_commit.py` is not part of this model.
