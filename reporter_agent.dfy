/**
 * The reporter agent of a node: per poll it turns one stats snapshot into
 * gauge records (`_record_stats`), tracks the raylet's worker processes
 * across polls to give each a CPU percentage (`_get_workers`), and reads
 * disk usage with the Kubernetes override (`_get_disk_usage`).
 */
module Reporter {
  import opened Wrappers
  import opened Metrics
  import opened GpuStats
  import opened ComponentStats

  const SHM_METRIC := "node_mem_shared_bytes"

  /** The parts of one stats snapshot that the modelled records are made from. */
  datatype Snapshot = Snapshot(
    ip: string,
    shm: Option<nat>,
    workers: seq<ProcStats>,
    raylet: Option<ProcStats>,
    agent: Option<ProcStats>,
    gpus: seq<GpuSample>)

  /** Identity of a worker across polls: a pid is reused by the OS, a (pid, creation time) pair is not. */
  datatype WorkerKey = WorkerKey(pid: int, createTime: real)

  /** What the tracker remembers of a worker: its cumulative CPU seconds and when they were read. */
  datatype Baseline = Baseline(cpuSeconds: real, wallTime: real)

  /** A child process of the raylet as the OS lists it in this poll. */
  datatype ProcSample = ProcSample(
    pid: int,
    createTime: real,
    cmdline: seq<string>,
    cpuSeconds: real,
    uss: Option<nat>)

  function Key(p: ProcSample): WorkerKey {
    WorkerKey(p.pid, p.createTime)
  }

  /**
   * The CPU percentage of a worker in this poll: 0 the first time its key is
   * seen and when no wall time has passed; otherwise the CPU seconds it used
   * since its baseline over the wall seconds since then, as a percentage.
   */
  function CpuPercent(tracked: map<WorkerKey, Baseline>, p: ProcSample, now: real): (pct: real)
    ensures Key(p) !in tracked ==> pct == 0.0
    ensures Key(p) in tracked && now <= tracked[Key(p)].wallTime ==> pct == 0.0
    ensures Key(p) in tracked && now > tracked[Key(p)].wallTime
            ==> pct * (now - tracked[Key(p)].wallTime) == 100.0 * (p.cpuSeconds - tracked[Key(p)].cpuSeconds)
  {
    if Key(p) !in tracked then 0.0
    else
      var b := tracked[Key(p)];
      if now - b.wallTime <= 0.0 then 0.0
      else 100.0 * (p.cpuSeconds - b.cpuSeconds) / (now - b.wallTime)
  }

  /** The stats the tracker returns for one worker. */
  function Observe(tracked: map<WorkerKey, Baseline>, p: ProcSample, now: real): (s: ProcStats)
    ensures s.pid == p.pid && s.createTime == p.createTime && s.cmdline == p.cmdline && s.uss == p.uss
    ensures s.cpuPercent == CpuPercent(tracked, p, now)
  {
    ProcStats(p.pid, p.createTime, p.cmdline, CpuPercent(tracked, p, now), p.uss)
  }

  /** The shared-memory gauge: present exactly when the platform reports shared memory. */
  function ShmRecords(ip: string, shm: Option<nat>): (rs: seq<GaugeRecord>)
    ensures Values(rs, SHM_METRIC) == if shm.Some? then [shm.value as real] else []
    ensures forall r :: r in rs ==> r.name == SHM_METRIC
  {
    match shm
    case Some(v) => [GaugeRecord(SHM_METRIC, v as real, map["ip" := ip])]
    case None => []
  }

  /**
   * The modelled records of one poll, given the worker names the previous
   * poll reported. Every record is the shared-memory gauge, one of the two
   * component usage gauges or one of the four GPU gauges.
   */
  function StatsRecords(s: Snapshot, previous: seq<string>): (recs: seq<GaugeRecord>)
    ensures forall r :: r in recs ==> r.name == SHM_METRIC || UsageMetric(r.name) || r.name in GpuMetricNames()
  {
    ComponentRecordsNamed(s.ip, s.raylet, s.agent, s.workers, previous);
    GpuRecordsNamed(s.ip, s.gpus);
    ShmRecords(s.ip, s.shm)
    + ComponentRecords(s.ip, s.raylet, s.agent, s.workers, previous)
    + GpuRecords(s.ip, s.gpus)
  }

  /** Usage of one root filesystem, as `psutil.disk_usage` reports it. */
  datatype DiskUsage = DiskUsage(total: int, used: int, free: int, percent: real)

  /**
   * `_get_disk_usage`: inside a Kubernetes pod, unless K8s disk usage is
   * explicitly enabled, only a dummy root entry with total 1 and free 1;
   * otherwise what the disk probe reports, unchanged.
   */
  function GetDiskUsage(inKubernetesPod: bool, enableK8sDiskUsage: bool, probed: map<string, DiskUsage>)
    : (usage: map<string, DiskUsage>)
    ensures inKubernetesPod && !enableK8sDiskUsage
            ==> usage.Keys == {"/"} && usage["/"].total == 1 && usage["/"].free == 1
    ensures !(inKubernetesPod && !enableK8sDiskUsage) ==> usage == probed
  {
    if inKubernetesPod && !enableK8sDiskUsage then map["/" := DiskUsage(1, 0, 1, 0.0)]
    else probed
  }

  /** The children of the raylet other than the process with the agent's key, in their order. */
  function NonAgent(children: seq<ProcSample>, agentKey: WorkerKey): (listed: seq<ProcSample>)
    ensures forall p :: p in listed <==> p in children && Key(p) != agentKey
    decreases |children|
  {
    if children == [] then []
    else
      var last := children[|children| - 1];
      var front := children[..|children| - 1];
      assert children == front + [last];
      NonAgent(front, agentKey) + (if Key(last) != agentKey then [last] else [])
  }

  /**
   * The tracker `_get_workers` leaves behind: the key of every child other
   * than the agent, mapped to a baseline taken now (a later duplicate key
   * overwrites an earlier one).
   */
  function Tracked(children: seq<ProcSample>, agentKey: WorkerKey, now: real): map<WorkerKey, Baseline>
    decreases |children|
  {
    if children == [] then map[]
    else
      var last := children[|children| - 1];
      var front := Tracked(children[..|children| - 1], agentKey, now);
      if Key(last) != agentKey then front[Key(last) := Baseline(last.cpuSeconds, now)] else front
  }

  /**
   * The tracker holds exactly the keys of the children other than the
   * agent, each with a baseline taken from one of those children now: dead
   * workers drop out and the agent is never tracked.
   */
  lemma {:induction false} TrackedKeys(children: seq<ProcSample>, agentKey: WorkerKey, now: real)
    ensures agentKey !in Tracked(children, agentKey, now)
    ensures forall i :: 0 <= i < |children| && Key(children[i]) != agentKey ==> Key(children[i]) in Tracked(children, agentKey, now)
    ensures forall k :: k in Tracked(children, agentKey, now) ==>
              exists i :: 0 <= i < |children| && Key(children[i]) == k
                          && Tracked(children, agentKey, now)[k] == Baseline(children[i].cpuSeconds, now)
    decreases |children|
  {
    if children != [] {
      var n := |children| - 1;
      var front := children[..n];
      TrackedKeys(front, agentKey, now);
      var m := Tracked(children, agentKey, now);
      forall i | 0 <= i < |children| && Key(children[i]) != agentKey ensures Key(children[i]) in m {
        if i < n {
          assert front[i] == children[i];
        }
      }
      forall k | k in m
        ensures exists i :: 0 <= i < |children| && Key(children[i]) == k && m[k] == Baseline(children[i].cpuSeconds, now)
      {
        if Key(children[n]) != agentKey && k == Key(children[n]) {
          assert Key(children[n]) == k && m[k] == Baseline(children[n].cpuSeconds, now);
        } else {
          var i :| 0 <= i < n && Key(front[i]) == k && Tracked(front, agentKey, now)[k] == Baseline(front[i].cpuSeconds, now);
          assert children[i] == front[i];
        }
      }
    }
  }

  /** The per-poll state of the reporter agent. */
  class ReporterAgent {
    /** The tracked workers of the raylet, by (pid, create time). */
    var workers: map<WorkerKey, Baseline>
    /** The worker component names the last `RecordStats` reported. */
    var reportedWorkerNames: seq<string>

    ghost predicate Valid()
      reads this
    {
      WorkerNameList(reportedWorkerNames)
    }

    constructor ()
      ensures Valid()
      ensures workers == map[] && reportedWorkerNames == []
    {
      workers := map[];
      reportedWorkerNames := [];
    }

    /**
     * `_get_workers`: one entry per child of the raylet other than the
     * dashboard agent itself, its CPU percentage measured against the
     * baseline kept for its key (0 on first sight). Afterwards exactly those
     * children are tracked, each with a fresh baseline: a worker that has
     * died is no longer tracked, and the agent never is.
     */
    method GetWorkers(children: seq<ProcSample>, agentKey: WorkerKey, now: real) returns (result: seq<ProcStats>)
      modifies this
      ensures var listed := NonAgent(children, agentKey);
        |result| == |listed| && forall j :: 0 <= j < |listed| ==> result[j] == Observe(old(workers), listed[j], now)
      ensures forall w :: w in result ==> WorkerKey(w.pid, w.createTime) != agentKey
      ensures forall w :: w in result && WorkerKey(w.pid, w.createTime) !in old(workers) ==> w.cpuPercent == 0.0
      ensures workers == Tracked(children, agentKey, now)
      ensures reportedWorkerNames == old(reportedWorkerNames)
    {
      var tracked := workers;
      var next: map<WorkerKey, Baseline> := map[];
      result := [];
      for i := 0 to |children|
        invariant |result| == |NonAgent(children[..i], agentKey)|
        invariant forall j :: 0 <= j < |result| ==> result[j] == Observe(tracked, NonAgent(children[..i], agentKey)[j], now)
        invariant next == Tracked(children[..i], agentKey, now)
      {
        var p := children[i];
        assert children[..i + 1][..i] == children[..i];
        if Key(p) != agentKey {
          result := result + [Observe(tracked, p, now)];
          next := next[Key(p) := Baseline(p.cpuSeconds, now)];
        }
      }
      assert children[..|children|] == children;
      workers := next;
      forall w | w in result ensures WorkerKey(w.pid, w.createTime) != agentKey {
        var j :| 0 <= j < |result| && result[j] == w;
        assert NonAgent(children, agentKey)[j] in NonAgent(children, agentKey);
      }
    }

    /**
     * `_record_stats`: the records of this poll, worker components that
     * disappeared since the previous poll reported once with zeros; the
     * worker names of this poll are remembered for the next one.
     */
    method RecordStats(s: Snapshot) returns (records: seq<GaugeRecord>)
      requires Valid()
      modifies this
      ensures Valid()
      ensures records == StatsRecords(s, old(reportedWorkerNames))
      ensures reportedWorkerNames == WorkerNames(s.workers)
      ensures workers == old(workers)
    {
      var current := WorkerNames(s.workers);
      records := ShmRecords(s.ip, s.shm);
      records := records + ComponentRecords(s.ip, s.raylet, s.agent, s.workers, reportedWorkerNames);
      records := records + GpuRecords(s.ip, s.gpus);
      reportedWorkerNames := current;
    }
  }

  lemma GpuRecordsNamed(ip: string, gpus: seq<GpuSample>)
    ensures forall r :: r in GpuRecords(ip, gpus) ==> r.name in GpuMetricNames()
  {
    forall r | r in GpuRecords(ip, gpus) ensures r.name in GpuMetricNames() {
      GpuRecordsSound(ip, gpus, r);
    }
  }

  /** GPU records carry nothing under any other name. */
  lemma GpuRecordsSilent(ip: string, gpus: seq<GpuSample>, name: string, key: string, tagValue: string)
    requires name !in GpuMetricNames()
    ensures Values(GpuRecords(ip, gpus), name) == []
    ensures TaggedValues(GpuRecords(ip, gpus), name, key, tagValue) == []
  {
    GpuRecordsNamed(ip, gpus);
    ValuesAbsent(GpuRecords(ip, gpus), name);
    TaggedValuesAbsent(GpuRecords(ip, gpus), name, key, tagValue);
  }

  /** Component records carry nothing under a name other than the two usage metrics. */
  lemma ComponentRecordsSilent(ip: string, raylet: Option<ProcStats>, agent: Option<ProcStats>,
                               workers: seq<ProcStats>, previous: seq<string>, name: string, names: set<string>)
    requires !UsageMetric(name)
    requires COMPONENT_USS_MB !in names && COMPONENT_CPU_PERCENTAGE !in names
    ensures Values(ComponentRecords(ip, raylet, agent, workers, previous), name) == []
    ensures CountNamed(ComponentRecords(ip, raylet, agent, workers, previous), names) == 0
  {
    var b := ComponentRecords(ip, raylet, agent, workers, previous);
    ComponentRecordsNamed(ip, raylet, agent, workers, previous);
    ValuesAbsent(b, name);
    CountNamedAbsent(b, names);
  }

  /** The shared-memory record carries nothing under any other name. */
  lemma ShmRecordsSilent(ip: string, shm: Option<nat>, name: string, key: string, tagValue: string, names: set<string>)
    requires name != SHM_METRIC && SHM_METRIC !in names
    ensures Values(ShmRecords(ip, shm), name) == []
    ensures TaggedValues(ShmRecords(ip, shm), name, key, tagValue) == []
    ensures CountNamed(ShmRecords(ip, shm), names) == 0
  {
    ValuesAbsent(ShmRecords(ip, shm), name);
    TaggedValuesAbsent(ShmRecords(ip, shm), name, key, tagValue);
    CountNamedAbsent(ShmRecords(ip, shm), names);
  }

  lemma MetricNamesDiffer()
    ensures !UsageMetric(SHM_METRIC) && SHM_METRIC !in GpuMetricNames()
    ensures COMPONENT_USS_MB !in GpuMetricNames() && COMPONENT_CPU_PERCENTAGE !in GpuMetricNames()
  {
  }

  /** The shared-memory value of a poll is the snapshot's `shm`, and is omitted when it has none. */
  lemma StatsShm(s: Snapshot, previous: seq<string>)
    ensures Values(StatsRecords(s, previous), SHM_METRIC) == if s.shm.Some? then [s.shm.value as real] else []
  {
    var a := ShmRecords(s.ip, s.shm);
    var b := ComponentRecords(s.ip, s.raylet, s.agent, s.workers, previous);
    var c := GpuRecords(s.ip, s.gpus);
    MetricNamesDiffer();
    ComponentRecordsSilent(s.ip, s.raylet, s.agent, s.workers, previous, SHM_METRIC, {});
    GpuRecordsSilent(s.ip, s.gpus, SHM_METRIC, COMPONENT_TAG, "");
    ValuesOfParts(a, b, c, SHM_METRIC);
  }

  /** The GPU-named records of a poll are four per indexed sample and no more. */
  lemma StatsGpuCount(s: Snapshot, previous: seq<string>)
    ensures CountNamed(StatsRecords(s, previous), GpuMetricNames()) == 4 * |Indexed(s.gpus)|
  {
    var a := ShmRecords(s.ip, s.shm);
    var b := ComponentRecords(s.ip, s.raylet, s.agent, s.workers, previous);
    var c := GpuRecords(s.ip, s.gpus);
    MetricNamesDiffer();
    ShmRecordsSilent(s.ip, s.shm, "", COMPONENT_TAG, "", GpuMetricNames());
    ComponentRecordsSilent(s.ip, s.raylet, s.agent, s.workers, previous, SHM_METRIC, GpuMetricNames());
    CountNamedOfParts(a, b, c, GpuMetricNames());
    GpuRecordsDropUnindexed(s.ip, s.gpus);
  }

  /** Each GPU metric of a poll sums to its total over the indexed samples. */
  lemma StatsGpuTotal(s: Snapshot, previous: seq<string>, metric: string)
    requires metric in GpuMetricNames()
    ensures Sum(Values(StatsRecords(s, previous), metric)) == MetricTotal(Indexed(s.gpus), metric)
  {
    var a := ShmRecords(s.ip, s.shm);
    var b := ComponentRecords(s.ip, s.raylet, s.agent, s.workers, previous);
    var c := GpuRecords(s.ip, s.gpus);
    MetricNamesDiffer();
    ShmRecordsSilent(s.ip, s.shm, metric, COMPONENT_TAG, "", {});
    ComponentRecordsSilent(s.ip, s.raylet, s.agent, s.workers, previous, metric, {});
    ValuesOfParts(a, b, c, metric);
    GpuRecordsTotal(s.ip, s.gpus, metric);
    assert Values(a, metric) + Values(b, metric) + Values(c, metric) == Values(c, metric);
  }

  /** The component values of a poll are those of its component records alone. */
  lemma StatsComponents(s: Snapshot, previous: seq<string>, metric: string, n: string)
    requires WorkerNameList(previous)
    requires UsageMetric(metric)
    ensures TaggedValues(StatsRecords(s, previous), metric, COMPONENT_TAG, n)
         == ExpectedValues(s.raylet, s.agent, s.workers, previous, metric, n)
  {
    var a := ShmRecords(s.ip, s.shm);
    var b := ComponentRecords(s.ip, s.raylet, s.agent, s.workers, previous);
    var c := GpuRecords(s.ip, s.gpus);
    MetricNamesDiffer();
    ShmRecordsSilent(s.ip, s.shm, metric, COMPONENT_TAG, n, {});
    GpuRecordsSilent(s.ip, s.gpus, metric, COMPONENT_TAG, n);
    TaggedValuesOfParts(a, b, c, metric, COMPONENT_TAG, n);
    ComponentRecordsQuery(s.ip, s.raylet, s.agent, s.workers, previous, metric, n);
    assert TaggedValues(a, metric, COMPONENT_TAG, n) + TaggedValues(b, metric, COMPONENT_TAG, n)
           + TaggedValues(c, metric, COMPONENT_TAG, n) == TaggedValues(b, metric, COMPONENT_TAG, n);
  }

  /**
   * The reset law over three polls: a worker component reported in one poll
   * and absent from the next is reported there with value 0; if it is still
   * absent from the poll after that, nothing is reported for it.
   */
  lemma ResetLaw(s1: Snapshot, s2: Snapshot, s3: Snapshot, previous: seq<string>, metric: string, n: string)
    requires WorkerNameList(previous)
    requires UsageMetric(metric)
    requires n in WorkerNames(s1.workers)
    requires n !in WorkerNames(s2.workers) && n !in WorkerNames(s3.workers)
    ensures TaggedValues(StatsRecords(s1, previous), metric, COMPONENT_TAG, n)
         == [Pick(metric, NameUss(s1.workers, n), NameCpu(s1.workers, n))]
    ensures TaggedValues(StatsRecords(s2, WorkerNames(s1.workers)), metric, COMPONENT_TAG, n) == [0.0]
    ensures TaggedValues(StatsRecords(s3, WorkerNames(s2.workers)), metric, COMPONENT_TAG, n) == []
  {
    FixedNamesAreNotWorkers();
    assert WorkerNameList(WorkerNames(s1.workers)) && WorkerNameList(WorkerNames(s2.workers));
    assert WORKER_PREFIX <= n;
    assert n != RAYLET && n != AGENT;
    StatsComponents(s1, previous, metric, n);
    StatsComponents(s2, WorkerNames(s1.workers), metric, n);
    assert ExpectedValues(s2.raylet, s2.agent, s2.workers, WorkerNames(s1.workers), metric, n) == [0.0];
    StatsComponents(s3, WorkerNames(s2.workers), metric, n);
    assert ExpectedValues(s3.raylet, s3.agent, s3.workers, WorkerNames(s2.workers), metric, n) == [];
  }

  /**
   * A process whose command line does not start with `ray::` gets no
   * component records under its name (unless that name is `raylet` or
   * `agent`, which stand for those two processes).
   */
  lemma UnmanagedProcessNotReported(s: Snapshot, previous: seq<string>, metric: string, n: string)
    requires WorkerNameList(previous)
    requires UsageMetric(metric)
    requires !(WORKER_PREFIX <= n) && n != RAYLET && n != AGENT
    ensures TaggedValues(StatsRecords(s, previous), metric, COMPONENT_TAG, n) == []
  {
    StatsComponents(s, previous, metric, n);
  }
}
