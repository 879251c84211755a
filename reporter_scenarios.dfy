/**
 * The scenarios of the reporter's unit tests, replayed on the model: the
 * stats template with four indexed GPUs and one without an index, three
 * successive polls with changing workers, the Kubernetes disk override, and
 * worker tracking across polls.
 */
module ReporterScenarios {
  import opened Wrappers
  import opened Text
  import opened Metrics
  import opened GpuStats
  import opened ComponentStats
  import opened Reporter

  const IP := "127.0.0.1"
  const GPU_MEMORY := 22731
  const A10G := "NVIDIA A10G"
  const USS := 51428381

  /** A command line whose first token is `first`, padded as the test's are. */
  function Cmdline(first: string): seq<string> {
    [first, "", "", "", "", "", "", "", "", "", "", ""]
  }

  /** Four indexed devices (the last one unnamed) and one sample without an index. */
  function TestGpus(): seq<GpuSample> {
    [ GpuSample(Some(0), Some(A10G), 0, 0, GPU_MEMORY),
      GpuSample(Some(1), Some(A10G), 1, 1, GPU_MEMORY),
      GpuSample(Some(2), Some(A10G), 2, 2, GPU_MEMORY),
      GpuSample(Some(3), None, 3, 3, GPU_MEMORY),
      GpuSample(None, Some(A10G), 3, 3, GPU_MEMORY) ]
  }

  function IdleWorker(cpu: real): ProcStats {
    ProcStats(7174, 1614826391.338613, Cmdline("ray::IDLE"), cpu, Some(USS))
  }

  /** The stats template: one idle worker, raylet and agent without USS, `shm` 456. */
  function Template(gpus: seq<GpuSample>): Snapshot {
    Snapshot(IP, Some(456), [IdleWorker(0.0)],
      Some(ProcStats(7153, 1614826390.274854, ["fake raylet cmdline"], 0.0, None)),
      Some(ProcStats(7154, 1614826390.274854, ["fake raylet cmdline"], 0.0, None)),
      gpus)
  }

  lemma IndexedTestGpus()
    ensures Indexed(TestGpus()) == TestGpus()[..4]
  {
    var g := TestGpus();
    assert Indexed(g[4..]) == [] by { assert g[4..][1..] == []; }
    assert g[3..][1..] == g[4..];
    assert g[2..][1..] == g[3..];
    assert g[1..][1..] == g[2..];
  }

  lemma TestGpuTotals()
    ensures MetricTotal(TestGpus()[..4], GPUS_AVAILABLE) == 4.0
    ensures MetricTotal(TestGpus()[..4], GPUS_UTILIZATION) == 6.0
    ensures MetricTotal(TestGpus()[..4], GRAM_USED) == 6.0
    ensures MetricTotal(TestGpus()[..4], GRAM_AVAILABLE) == (GPU_MEMORY * 4 - 6) as real
  {
    var d := TestGpus()[..4];
    AvailableTotalIsDeviceCount(d);
    assert d[3..][1..] == [] && d[2..][1..] == d[3..] && d[1..][1..] == d[2..];
  }

  /**
   * The GPU test: for any snapshot carrying the test's five samples, the
   * four indexed ones give sixteen GPU-named records, and summed over them
   * availability is 4, utilization 6, memory used 6 and memory available
   * 4 * 22731 - 6.
   */
  lemma ReportStatsGpuTotals(s: Snapshot, previous: seq<string>)
    requires s.gpus == TestGpus()
    ensures CountNamed(StatsRecords(s, previous), GpuMetricNames()) == 16
    ensures Sum(Values(StatsRecords(s, previous), GPUS_AVAILABLE)) == 4.0
    ensures Sum(Values(StatsRecords(s, previous), GPUS_UTILIZATION)) == 6.0
    ensures Sum(Values(StatsRecords(s, previous), GRAM_USED)) == 6.0
    ensures Sum(Values(StatsRecords(s, previous), GRAM_AVAILABLE)) == (GPU_MEMORY * 4 - 6) as real
  {
    IndexedTestGpus();
    TestGpuTotals();
    StatsGpuCount(s, previous);
    StatsGpuTotal(s, previous, GPUS_AVAILABLE);
    StatsGpuTotal(s, previous, GPUS_UTILIZATION);
    StatsGpuTotal(s, previous, GRAM_USED);
    StatsGpuTotal(s, previous, GRAM_AVAILABLE);
  }

  /**
   * What the GPU test expects of a record of device k: tags ip, `GpuIndex`
   * "k" and the device name, except device 3 whose tags are exactly ip and
   * `GpuIndex`; value 1 for availability, 22731 - k for memory available and
   * k for utilization and memory used.
   */
  predicate RecordAsTested(ip: string, r: GaugeRecord, k: nat) {
    && r.tags == (if k == 3 then map["ip" := ip, "GpuIndex" := "3"]
                  else map["ip" := ip, "GpuIndex" := NatToString(k), "GpuDeviceName" := A10G])
    && r.value == if r.name == GPUS_AVAILABLE then 1.0
                  else if r.name == GRAM_AVAILABLE then (GPU_MEMORY - k) as real
                  else k as real
  }

  lemma TestGpuAt(gpus: seq<GpuSample>, g: GpuSample)
    requires gpus == TestGpus()
    requires g in gpus && g.index.Some?
    ensures g.index.value < 4
    ensures g == GpuSample(g.index, if g.index.value == 3 then None else Some(A10G),
                           g.index.value, g.index.value, GPU_MEMORY)
  {
    var i :| 0 <= i < 5 && gpus[i] == g;
  }

  lemma DeviceRecordAsTested(ip: string, g: GpuSample, r: GaugeRecord)
    requires g.index.Some? && g.index.value < 4
    requires g == GpuSample(g.index, if g.index.value == 3 then None else Some(A10G),
                            g.index.value, g.index.value, GPU_MEMORY)
    requires r.name in GpuMetricNames()
    requires r.tags == GpuTags(ip, g) && r.value == MetricValue(r.name, g)
    ensures RecordAsTested(ip, r, g.index.value)
  {
    var k := g.index.value;
    if k == 3 {
      assert NatToString(3) == "3";
      assert GpuTags(ip, g) == map["ip" := ip, "GpuIndex" := "3"];
    } else {
      assert GpuTags(ip, g) == map["ip" := ip, "GpuIndex" := NatToString(k), "GpuDeviceName" := A10G];
    }
  }

  /** The GPU test, record by record: every GPU record is as the test expects of some device 0..3. */
  lemma ReportStatsGpuRecords(ip: string, gpus: seq<GpuSample>, r: GaugeRecord)
    requires gpus == TestGpus()
    requires r in GpuRecords(ip, gpus)
    ensures exists k: nat :: k < 4 && RecordAsTested(ip, r, k)
  {
    GpuRecordsSound(ip, gpus, r);
    var g :| g in gpus && g.index.Some? && r.name in GpuMetricNames()
             && r.tags == GpuTags(ip, g) && r.value == MetricValue(r.name, g);
    TestGpuAt(gpus, g);
    DeviceRecordAsTested(ip, g, r);
  }

  /** Three polls of the per-component test: workers `ray::IDLE` and `ray::func`, then `ray::IDLE` alone, then `ray::IDLE` with an unmanaged process. */
  function IdleStats(): ProcStats { ProcStats(7174, 1614826391.338613, Cmdline("ray::IDLE"), 5.0, Some(USS)) }
  function FuncStats(): ProcStats { ProcStats(7175, 1614826391.338613, Cmdline("ray::func"), 6.0, Some(USS)) }
  function UnknownStats(): ProcStats { ProcStats(7175, 1614826391.338613, Cmdline("python mock"), 6.0, Some(USS)) }

  function RayletStats(): ProcStats { ProcStats(7153, 1614826390.274854, ["fake raylet cmdline"], 4.0, Some(USS)) }
  function AgentStats(): ProcStats { ProcStats(7156, 1614826390.274854, ["fake raylet cmdline"], 6.0, Some(USS)) }

  /** A poll of the per-component test: the test's raylet and agent, and the given workers. */
  predicate ComponentPoll(s: Snapshot, workers: seq<ProcStats>) {
    s.workers == workers && s.raylet == Some(RayletStats()) && s.agent == Some(AgentStats())
  }

  /** The worker names the first poll remembers. */
  lemma FirstPollWorkerNames()
    ensures WorkerNames([IdleStats(), FuncStats()]) == ["ray::IDLE", "ray::func"]
  {
    assert [IdleStats(), FuncStats()][..1] == [IdleStats()];
    assert [IdleStats()][..0] == [];
  }

  /** The per-component totals of the first poll: each worker is its own component. */
  lemma FirstPollTotals()
    ensures NameUss([IdleStats(), FuncStats()], "ray::IDLE") == USS as real / 1000000.0
    ensures NameCpu([IdleStats(), FuncStats()], "ray::IDLE") == 5.0
    ensures NameUss([IdleStats(), FuncStats()], "ray::func") == USS as real / 1000000.0
    ensures NameCpu([IdleStats(), FuncStats()], "ray::func") == 6.0
  {
    var ws := [IdleStats(), FuncStats()];
    assert ws[1..] == [FuncStats()] && ws[1..][1..] == [];
    assert "ray::IDLE"[5] != "ray::func"[5];
  }

  /** The worker names the second poll remembers. */
  lemma SecondPollWorkerNames()
    ensures WorkerNames([IdleStats()]) == ["ray::IDLE"]
  {
    assert [IdleStats()][..0] == [];
  }

  lemma SecondPollTotals()
    ensures NameUss([IdleStats()], "ray::IDLE") == USS as real / 1000000.0
    ensures NameCpu([IdleStats()], "ray::IDLE") == 5.0
  {
    assert [IdleStats()][1..] == [];
  }

  /** The third poll remembers only `ray::IDLE`: `python mock` is not a worker name. */
  lemma ThirdPollWorkerNames()
    ensures WorkerNames([IdleStats(), UnknownStats()]) == ["ray::IDLE"]
  {
    assert [IdleStats(), UnknownStats()][..1] == [IdleStats()];
    SecondPollWorkerNames();
    assert "python mock"[0] != WORKER_PREFIX[0];
  }

  /**
   * First poll of the per-component test, on a fresh agent: the raylet and
   * the agent report their USS in megabytes (`uss / 1e6`) and their own CPU
   * percentages.
   */
  lemma PerComponentFirstPollFixed(s: Snapshot)
    requires ComponentPoll(s, [IdleStats(), FuncStats()])
    ensures TaggedValues(StatsRecords(s, []), COMPONENT_USS_MB, COMPONENT_TAG, "raylet") == [USS as real / 1000000.0]
    ensures TaggedValues(StatsRecords(s, []), COMPONENT_CPU_PERCENTAGE, COMPONENT_TAG, "raylet") == [4.0]
    ensures TaggedValues(StatsRecords(s, []), COMPONENT_USS_MB, COMPONENT_TAG, "agent") == [USS as real / 1000000.0]
    ensures TaggedValues(StatsRecords(s, []), COMPONENT_CPU_PERCENTAGE, COMPONENT_TAG, "agent") == [6.0]
  {
    StatsComponents(s, [], COMPONENT_USS_MB, "raylet");
    StatsComponents(s, [], COMPONENT_CPU_PERCENTAGE, "raylet");
    StatsComponents(s, [], COMPONENT_USS_MB, "agent");
    StatsComponents(s, [], COMPONENT_CPU_PERCENTAGE, "agent");
  }

  /** First poll: the `ray::IDLE` worker reports its own USS in megabytes and CPU percentage. */
  lemma PerComponentFirstPollIdle(s: Snapshot)
    requires ComponentPoll(s, [IdleStats(), FuncStats()])
    ensures TaggedValues(StatsRecords(s, []), COMPONENT_USS_MB, COMPONENT_TAG, "ray::IDLE") == [USS as real / 1000000.0]
    ensures TaggedValues(StatsRecords(s, []), COMPONENT_CPU_PERCENTAGE, COMPONENT_TAG, "ray::IDLE") == [5.0]
  {
    FirstPollWorkerNames();
    FirstPollTotals();
    StatsComponents(s, [], COMPONENT_USS_MB, "ray::IDLE");
    StatsComponents(s, [], COMPONENT_CPU_PERCENTAGE, "ray::IDLE");
  }

  /** First poll: the `ray::func` worker reports its own USS in megabytes and CPU percentage. */
  lemma PerComponentFirstPollFunc(s: Snapshot)
    requires ComponentPoll(s, [IdleStats(), FuncStats()])
    ensures TaggedValues(StatsRecords(s, []), COMPONENT_USS_MB, COMPONENT_TAG, "ray::func") == [USS as real / 1000000.0]
    ensures TaggedValues(StatsRecords(s, []), COMPONENT_CPU_PERCENTAGE, COMPONENT_TAG, "ray::func") == [6.0]
  {
    FirstPollWorkerNames();
    FirstPollTotals();
    StatsComponents(s, [], COMPONENT_USS_MB, "ray::func");
    StatsComponents(s, [], COMPONENT_CPU_PERCENTAGE, "ray::func");
  }

  /** Second poll: `ray::IDLE` is still running and keeps its values. */
  lemma PerComponentSecondPollIdle(s: Snapshot)
    requires ComponentPoll(s, [IdleStats()])
    ensures TaggedValues(StatsRecords(s, ["ray::IDLE", "ray::func"]), COMPONENT_USS_MB, COMPONENT_TAG, "ray::IDLE") == [USS as real / 1000000.0]
    ensures TaggedValues(StatsRecords(s, ["ray::IDLE", "ray::func"]), COMPONENT_CPU_PERCENTAGE, COMPONENT_TAG, "ray::IDLE") == [5.0]
  {
    SecondPollWorkerNames();
    SecondPollTotals();
    var previous := ["ray::IDLE", "ray::func"];
    assert WorkerNameList(previous);
    StatsComponents(s, previous, COMPONENT_USS_MB, "ray::IDLE");
    StatsComponents(s, previous, COMPONENT_CPU_PERCENTAGE, "ray::IDLE");
  }

  /** Second poll: `ray::func` has exited and is reported once more with USS 0 and CPU 0. */
  lemma PerComponentSecondPollFunc(s: Snapshot)
    requires ComponentPoll(s, [IdleStats()])
    ensures TaggedValues(StatsRecords(s, ["ray::IDLE", "ray::func"]), COMPONENT_USS_MB, COMPONENT_TAG, "ray::func") == [0.0]
    ensures TaggedValues(StatsRecords(s, ["ray::IDLE", "ray::func"]), COMPONENT_CPU_PERCENTAGE, COMPONENT_TAG, "ray::func") == [0.0]
  {
    var previous := ["ray::IDLE", "ray::func"];
    assert WorkerNameList(previous);
    SecondPollFuncStale(COMPONENT_USS_MB);
    SecondPollFuncStale(COMPONENT_CPU_PERCENTAGE);
    StatsComponents(s, previous, COMPONENT_USS_MB, "ray::func");
    StatsComponents(s, previous, COMPONENT_CPU_PERCENTAGE, "ray::func");
  }

  /** After the second poll `ray::func` is neither a fixed component nor a live worker, only a remembered one. */
  lemma SecondPollFuncStale(metric: string)
    ensures ExpectedValues(Some(RayletStats()), Some(AgentStats()), [IdleStats()], ["ray::IDLE", "ray::func"], metric, "ray::func") == [0.0]
  {
    SecondPollWorkerNames();
    assert "ray::func"[5] != "ray::IDLE"[5] && "ray::func"[3] != RAYLET[3] && "ray::func"[0] != AGENT[0];
  }

  /** Third poll: a worker whose command line is `python mock` gets no component records. */
  lemma PerComponentThirdPoll(s: Snapshot)
    requires ComponentPoll(s, [IdleStats(), UnknownStats()])
    ensures TaggedValues(StatsRecords(s, ["ray::IDLE"]), COMPONENT_USS_MB, COMPONENT_TAG, "python mock") == []
    ensures TaggedValues(StatsRecords(s, ["ray::IDLE"]), COMPONENT_CPU_PERCENTAGE, COMPONENT_TAG, "python mock") == []
  {
    assert "python mock"[0] != WORKER_PREFIX[0];
    FixedNamesAreNotWorkers();
    assert WorkerNameList(["ray::IDLE"]);
    UnmanagedProcessNotReported(s, ["ray::IDLE"], COMPONENT_USS_MB, "python mock");
    UnmanagedProcessNotReported(s, ["ray::IDLE"], COMPONENT_CPU_PERCENTAGE, "python mock");
  }

  /** The template reports its `shm` figure, 456, as shared memory. */
  lemma ReportStatsShm(previous: seq<string>)
    ensures Values(StatsRecords(Template([]), previous), SHM_METRIC) == [456.0]
  {
    StatsShm(Template([]), previous);
  }

  /** In a pod with K8s disk usage disabled, the root disk reads total 1 and free 1. */
  lemma EnableK8sDiskUsageDisabled(probed: map<string, DiskUsage>)
    ensures "/" in GetDiskUsage(true, false, probed)
    ensures GetDiskUsage(true, false, probed)["/"].total == 1
    ensures GetDiskUsage(true, false, probed)["/"].free == 1
  {
  }

  /**
   * The worker-CPU test: the agent process is itself a child of the raylet
   * but is never reported. The first poll of a fresh agent reports exactly
   * the two children, each at 0; a later poll still registers both; then
   * the two children are killed one after the other (`KillPolls`).
   */
  method WorkerCpuPercent(agentProc: ProcSample, child0: ProcSample, child1: ProcSample, t0: real, t1: real, t2: real, t3: real)
    returns (first: seq<ProcStats>, later: seq<ProcStats>, afterKill0: seq<ProcStats>, afterKill1: seq<ProcStats>)
    requires agentProc.pid != child0.pid && agentProc.pid != child1.pid && child0.pid != child1.pid
    ensures |first| == 2 && forall w :: w in first ==> w.cpuPercent == 0.0 && w.pid != agentProc.pid
    ensures (exists w :: w in first && w.pid == child0.pid) && (exists w :: w in first && w.pid == child1.pid)
    ensures (exists w :: w in later && w.pid == child0.pid) && (exists w :: w in later && w.pid == child1.pid)
    ensures (exists w :: w in afterKill0 && w.pid == child1.pid) && forall w :: w in afterKill0 ==> w.pid != child0.pid
    ensures forall w :: w in afterKill1 ==> w.pid != child0.pid && w.pid != child1.pid
  {
    var agent := new ReporterAgent();
    var agentKey := Key(agentProc);
    NonAgentOfPoll(agentProc, child0, child1);
    first := agent.GetWorkers([agentProc, child0, child1], agentKey, t0);
    assert first == [first[0], first[1]];
    assert first[0].pid == child0.pid && first[1].pid == child1.pid;
    later := agent.GetWorkers([agentProc, child0, child1], agentKey, t1);
    assert later[0] in later && later[1] in later;
    assert later[0].pid == child0.pid && later[1].pid == child1.pid;
    afterKill0, afterKill1 := KillPolls(agent, agentProc, child0, child1, t2, t3);
  }

  /**
   * The second half of the worker-CPU test, whatever the agent tracked
   * before: once the first child is killed only the second is reported, and
   * once both are killed neither is.
   */
  method KillPolls(agent: ReporterAgent, agentProc: ProcSample, child0: ProcSample, child1: ProcSample, t2: real, t3: real)
    returns (afterKill0: seq<ProcStats>, afterKill1: seq<ProcStats>)
    requires agentProc.pid != child0.pid && agentProc.pid != child1.pid && child0.pid != child1.pid
    modifies agent
    ensures (exists w :: w in afterKill0 && w.pid == child1.pid) && forall w :: w in afterKill0 ==> w.pid != child0.pid
    ensures forall w :: w in afterKill1 ==> w.pid != child0.pid && w.pid != child1.pid
  {
    var agentKey := Key(agentProc);
    NonAgentOfKill(agentProc, child1);
    afterKill0 := agent.GetWorkers([agentProc, child1], agentKey, t2);
    assert afterKill0 == [afterKill0[0]];
    assert afterKill0[0].pid == child1.pid;
    NonAgentOfAgent(agentProc);
    afterKill1 := agent.GetWorkers([agentProc], agentKey, t3);
    assert afterKill1 == [];
  }

  lemma NonAgentOfPoll(agentProc: ProcSample, child0: ProcSample, child1: ProcSample)
    requires agentProc.pid != child0.pid && agentProc.pid != child1.pid
    ensures NonAgent([agentProc, child0, child1], Key(agentProc)) == [child0, child1]
  {
    assert Key(child0) != Key(agentProc) && Key(child1) != Key(agentProc);
    NonAgentOfAgent(agentProc);
    assert [agentProc, child0][..1] == [agentProc];
    assert NonAgent([agentProc, child0], Key(agentProc)) == [child0];
    assert [agentProc, child0, child1][..2] == [agentProc, child0];
  }

  lemma NonAgentOfKill(agentProc: ProcSample, child1: ProcSample)
    requires agentProc.pid != child1.pid
    ensures NonAgent([agentProc, child1], Key(agentProc)) == [child1]
  {
    assert Key(child1) != Key(agentProc);
    NonAgentOfAgent(agentProc);
    assert [agentProc, child1][..1] == [agentProc];
  }

  lemma NonAgentOfAgent(agentProc: ProcSample)
    ensures NonAgent([agentProc], Key(agentProc)) == []
  {
    assert [agentProc][..0] == [];
  }
}
