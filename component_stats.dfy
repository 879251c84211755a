/**
 * Per-component usage records of the reporter agent. The raylet and the
 * agent are components under those fixed names; a worker process is a
 * component named by the first token of its command line when that token
 * starts with `ray::`, and contributes nothing otherwise. Each component
 * present in a poll gets one `component_uss_mb` record (USS in megabytes)
 * and one `component_cpu_percentage` record. A worker component reported by
 * the previous poll but absent now is reported once more, with both values 0.
 */
module ComponentStats {
  import opened Wrappers
  import opened Metrics

  /** A process as the poll describes it; `uss` is absent when `memory_full_info` is. */
  datatype ProcStats = ProcStats(
    pid: int,
    createTime: real,
    cmdline: seq<string>,
    cpuPercent: real,
    uss: Option<nat>)

  const WORKER_PREFIX := "ray::"
  const RAYLET := "raylet"
  const AGENT := "agent"
  const COMPONENT_USS_MB := "component_uss_mb"
  const COMPONENT_CPU_PERCENTAGE := "component_cpu_percentage"
  const COMPONENT_TAG := "Component"

  predicate Distinct(names: seq<string>) {
    forall i, j :: 0 <= i < j < |names| ==> names[i] != names[j]
  }

  /** Names the reporter may carry from one poll to the next: distinct worker names. */
  predicate WorkerNameList(names: seq<string>) {
    Distinct(names) && forall n :: n in names ==> WORKER_PREFIX <= n
  }

  /** The component a worker process is attributed to, if any. */
  function Classify(p: ProcStats): (c: Option<string>)
    ensures c.Some? <==> |p.cmdline| > 0 && WORKER_PREFIX <= p.cmdline[0]
    ensures c.Some? ==> c.value == p.cmdline[0]
  {
    if |p.cmdline| > 0 && WORKER_PREFIX <= p.cmdline[0] then Some(p.cmdline[0]) else None
  }

  /** `uss / 1e6`, or 0 when the process has no USS figure. */
  function UssMb(p: ProcStats): (mb: real)
    ensures p.uss.Some? ==> mb * 1000000.0 == p.uss.value as real
    ensures p.uss.None? ==> mb == 0.0
    ensures mb >= 0.0
  {
    match p.uss
    case Some(u) => u as real / 1000000.0
    case None => 0.0
  }

  /**
   * The worker component names of a poll, each once, in order of first
   * appearance: exactly the classified names of the workers.
   */
  function WorkerNames(ws: seq<ProcStats>): (names: seq<string>)
    ensures WorkerNameList(names)
    ensures forall n :: n in names <==> exists k :: 0 <= k < |ws| && Classify(ws[k]) == Some(n)
    decreases |ws|
  {
    if ws == [] then []
    else
      var prior := WorkerNames(ws[..|ws| - 1]);
      assert forall k :: 0 <= k < |ws| - 1 ==> ws[..|ws| - 1][k] == ws[k];
      AddName(prior, ws[|ws| - 1])
  }

  /** The component names after one more worker: its name is added unless already there. */
  function AddName(prior: seq<string>, p: ProcStats): seq<string> {
    match Classify(p)
    case Some(n) => if n in prior then prior else prior + [n]
    case None => prior
  }

  lemma WorkerNamesSnoc(ws: seq<ProcStats>, p: ProcStats)
    ensures WorkerNames(ws + [p]) == AddName(WorkerNames(ws), p)
  {
    assert (ws + [p])[..|ws|] == ws;
  }

  /** Total USS (megabytes) of the workers attributed to component `n`. */
  function NameUss(ws: seq<ProcStats>, n: string): real {
    if ws == [] then 0.0
    else (if Classify(ws[0]) == Some(n) then UssMb(ws[0]) else 0.0) + NameUss(ws[1..], n)
  }

  /** Total CPU percentage of the workers attributed to component `n`. */
  function NameCpu(ws: seq<ProcStats>, n: string): real {
    if ws == [] then 0.0
    else (if Classify(ws[0]) == Some(n) then ws[0].cpuPercent else 0.0) + NameCpu(ws[1..], n)
  }

  /** The pair of records of one component. */
  function UsageRecords(ip: string, component: string, ussMb: real, cpu: real): seq<GaugeRecord> {
    var tags := map["ip" := ip, COMPONENT_TAG := component];
    [GaugeRecord(COMPONENT_USS_MB, ussMb, tags), GaugeRecord(COMPONENT_CPU_PERCENTAGE, cpu, tags)]
  }

  function ProcRecords(ip: string, component: string, p: Option<ProcStats>): seq<GaugeRecord> {
    match p
    case Some(s) => UsageRecords(ip, component, UssMb(s), s.cpuPercent)
    case None => []
  }

  function WorkerRecords(ip: string, names: seq<string>, ws: seq<ProcStats>): (rs: seq<GaugeRecord>)
    ensures |rs| == 2 * |names|
  {
    if names == [] then []
    else UsageRecords(ip, names[0], NameUss(ws, names[0]), NameCpu(ws, names[0]))
         + WorkerRecords(ip, names[1..], ws)
  }

  function ResetRecords(ip: string, names: seq<string>): (rs: seq<GaugeRecord>)
    ensures |rs| == 2 * |names|
  {
    if names == [] then []
    else UsageRecords(ip, names[0], 0.0, 0.0) + ResetRecords(ip, names[1..])
  }

  /** The names of `previous` that are not in `current`, in their order. */
  function Stale(previous: seq<string>, current: seq<string>): (r: seq<string>)
    ensures forall n :: n in r <==> n in previous && n !in current
    ensures Distinct(previous) ==> Distinct(r)
  {
    if previous == [] then []
    else
      var rest := Stale(previous[1..], current);
      assert forall n :: n in previous[1..] ==> n in previous;
      if previous[0] in current then rest else [previous[0]] + rest
  }

  /**
   * The component records of one poll, given the worker names the previous
   * poll reported: one pair of records for the raylet and for the agent when
   * present, for each worker component of this poll, and for each worker
   * component of the previous poll that has disappeared.
   */
  function ComponentRecords(
    ip: string, raylet: Option<ProcStats>, agent: Option<ProcStats>,
    workers: seq<ProcStats>, previous: seq<string>): (recs: seq<GaugeRecord>)
    ensures |recs| == 2 * ((if raylet.Some? then 1 else 0) + (if agent.Some? then 1 else 0)
                           + |WorkerNames(workers)| + |Stale(previous, WorkerNames(workers))|)
  {
    var current := WorkerNames(workers);
    ProcRecords(ip, RAYLET, raylet) + ProcRecords(ip, AGENT, agent)
    + WorkerRecords(ip, current, workers) + ResetRecords(ip, Stale(previous, current))
  }

  /** The value a component reports under `metric`, if it is one of the two usage metrics. */
  function Pick(metric: string, ussMb: real, cpu: real): real {
    if metric == COMPONENT_USS_MB then ussMb else cpu
  }

  predicate UsageMetric(metric: string) {
    metric == COMPONENT_USS_MB || metric == COMPONENT_CPU_PERCENTAGE
  }

  lemma UsageRecordsQuery(ip: string, component: string, ussMb: real, cpu: real, metric: string, n: string)
    requires UsageMetric(metric)
    ensures TaggedValues(UsageRecords(ip, component, ussMb, cpu), metric, COMPONENT_TAG, n)
         == if component == n then [Pick(metric, ussMb, cpu)] else []
  {
    var rs := UsageRecords(ip, component, ussMb, cpu);
    assert rs[1..][1..] == [];
  }

  lemma {:induction false} WorkerRecordsQuery(ip: string, names: seq<string>, ws: seq<ProcStats>, metric: string, n: string)
    requires Distinct(names)
    requires UsageMetric(metric)
    ensures TaggedValues(WorkerRecords(ip, names, ws), metric, COMPONENT_TAG, n)
         == if n in names then [Pick(metric, NameUss(ws, n), NameCpu(ws, n))] else []
  {
    if names != [] {
      var m := names[0];
      assert Distinct(names[1..]);
      assert m in names[1..] ==> false;
      WorkerRecordsQuery(ip, names[1..], ws, metric, n);
      UsageRecordsQuery(ip, m, NameUss(ws, m), NameCpu(ws, m), metric, n);
      TaggedValuesAppend(UsageRecords(ip, m, NameUss(ws, m), NameCpu(ws, m)),
                         WorkerRecords(ip, names[1..], ws), metric, COMPONENT_TAG, n);
      assert n in names <==> n == m || n in names[1..];
    }
  }

  lemma {:induction false} ResetRecordsQuery(ip: string, names: seq<string>, metric: string, n: string)
    requires Distinct(names)
    requires UsageMetric(metric)
    ensures TaggedValues(ResetRecords(ip, names), metric, COMPONENT_TAG, n)
         == if n in names then [0.0] else []
  {
    if names != [] {
      var m := names[0];
      assert Distinct(names[1..]);
      assert m in names[1..] ==> false;
      ResetRecordsQuery(ip, names[1..], metric, n);
      UsageRecordsQuery(ip, m, 0.0, 0.0, metric, n);
      TaggedValuesAppend(UsageRecords(ip, m, 0.0, 0.0), ResetRecords(ip, names[1..]), metric, COMPONENT_TAG, n);
      assert n in names <==> n == m || n in names[1..];
    }
  }

  lemma ProcRecordsQuery(ip: string, component: string, p: Option<ProcStats>, metric: string, n: string)
    requires UsageMetric(metric)
    ensures TaggedValues(ProcRecords(ip, component, p), metric, COMPONENT_TAG, n)
         == if component == n && p.Some? then [Pick(metric, UssMb(p.value), p.value.cpuPercent)] else []
  {
    if p.Some? {
      UsageRecordsQuery(ip, component, UssMb(p.value), p.value.cpuPercent, metric, n);
    }
  }

  /**
   * What a poll reports for component `n` under either usage metric:
   * the raylet's and the agent's own figures when they are present; the
   * summed figures of the workers named `n` when there are any; 0 when `n`
   * was reported by the previous poll and has disappeared; and nothing at all
   * otherwise. Each present component gets exactly one value.
   */
  function ExpectedValues(
    raylet: Option<ProcStats>, agent: Option<ProcStats>,
    workers: seq<ProcStats>, previous: seq<string>, metric: string, n: string): seq<real>
  {
    if n == RAYLET then
      (if raylet.Some? then [Pick(metric, UssMb(raylet.value), raylet.value.cpuPercent)] else [])
    else if n == AGENT then
      (if agent.Some? then [Pick(metric, UssMb(agent.value), agent.value.cpuPercent)] else [])
    else if n in WorkerNames(workers) then [Pick(metric, NameUss(workers, n), NameCpu(workers, n))]
    else if n in previous then [0.0]
    else []
  }

  lemma FixedNamesAreNotWorkers()
    ensures !(WORKER_PREFIX <= RAYLET) && !(WORKER_PREFIX <= AGENT) && RAYLET != AGENT
  {
    assert RAYLET[4] != WORKER_PREFIX[4];
    assert AGENT[0] != WORKER_PREFIX[0];
  }

  function FixedRecords(ip: string, raylet: Option<ProcStats>, agent: Option<ProcStats>): seq<GaugeRecord> {
    ProcRecords(ip, RAYLET, raylet) + ProcRecords(ip, AGENT, agent)
  }

  function WorkerPart(ip: string, workers: seq<ProcStats>, previous: seq<string>): seq<GaugeRecord> {
    var current := WorkerNames(workers);
    WorkerRecords(ip, current, workers) + ResetRecords(ip, Stale(previous, current))
  }

  lemma FixedRecordsQuery(ip: string, raylet: Option<ProcStats>, agent: Option<ProcStats>, metric: string, n: string)
    requires UsageMetric(metric)
    ensures TaggedValues(FixedRecords(ip, raylet, agent), metric, COMPONENT_TAG, n)
         == if n == RAYLET && raylet.Some? then [Pick(metric, UssMb(raylet.value), raylet.value.cpuPercent)]
            else if n == AGENT && agent.Some? then [Pick(metric, UssMb(agent.value), agent.value.cpuPercent)]
            else []
  {
    FixedNamesAreNotWorkers();
    ProcRecordsQuery(ip, RAYLET, raylet, metric, n);
    ProcRecordsQuery(ip, AGENT, agent, metric, n);
    TaggedValuesAppend(ProcRecords(ip, RAYLET, raylet), ProcRecords(ip, AGENT, agent), metric, COMPONENT_TAG, n);
  }

  lemma WorkerPartQuery(ip: string, workers: seq<ProcStats>, previous: seq<string>, metric: string, n: string)
    requires WorkerNameList(previous)
    requires UsageMetric(metric)
    ensures TaggedValues(WorkerPart(ip, workers, previous), metric, COMPONENT_TAG, n)
         == if n in WorkerNames(workers) then [Pick(metric, NameUss(workers, n), NameCpu(workers, n))]
            else if n in previous then [0.0]
            else []
  {
    var current := WorkerNames(workers);
    var stale := Stale(previous, current);
    WorkerRecordsQuery(ip, current, workers, metric, n);
    ResetRecordsQuery(ip, stale, metric, n);
    TaggedValuesAppend(WorkerRecords(ip, current, workers), ResetRecords(ip, stale), metric, COMPONENT_TAG, n);
  }

  lemma ComponentRecordsQuery(
    ip: string, raylet: Option<ProcStats>, agent: Option<ProcStats>,
    workers: seq<ProcStats>, previous: seq<string>, metric: string, n: string)
    requires WorkerNameList(previous)
    requires UsageMetric(metric)
    ensures TaggedValues(ComponentRecords(ip, raylet, agent, workers, previous), metric, COMPONENT_TAG, n)
         == ExpectedValues(raylet, agent, workers, previous, metric, n)
  {
    var fixed := FixedRecords(ip, raylet, agent);
    var part := WorkerPart(ip, workers, previous);
    assert ComponentRecords(ip, raylet, agent, workers, previous) == fixed + part;
    TaggedValuesAppend(fixed, part, metric, COMPONENT_TAG, n);
    FixedRecordsQuery(ip, raylet, agent, metric, n);
    WorkerPartQuery(ip, workers, previous, metric, n);
    if n == RAYLET || n == AGENT {
      FixedNamesAreNotWorkers();
      assert n !in WorkerNames(workers) && n !in previous;
    }
  }

  lemma {:induction false} WorkerRecordsNamed(ip: string, names: seq<string>, ws: seq<ProcStats>)
    ensures forall r :: r in WorkerRecords(ip, names, ws) ==> UsageMetric(r.name)
  {
    if names != [] {
      WorkerRecordsNamed(ip, names[1..], ws);
    }
  }

  lemma {:induction false} ResetRecordsNamed(ip: string, names: seq<string>)
    ensures forall r :: r in ResetRecords(ip, names) ==> UsageMetric(r.name)
  {
    if names != [] {
      ResetRecordsNamed(ip, names[1..]);
    }
  }

  /** Component records carry only the two usage metric names. */
  lemma ComponentRecordsNamed(
    ip: string, raylet: Option<ProcStats>, agent: Option<ProcStats>,
    workers: seq<ProcStats>, previous: seq<string>)
    ensures forall r :: r in ComponentRecords(ip, raylet, agent, workers, previous) ==> UsageMetric(r.name)
  {
    var current := WorkerNames(workers);
    WorkerRecordsNamed(ip, current, workers);
    ResetRecordsNamed(ip, Stale(previous, current));
  }

  lemma {:induction false} WorkerNamesSkip(ws1: seq<ProcStats>, p: ProcStats, ws2: seq<ProcStats>)
    requires Classify(p).None?
    ensures WorkerNames(ws1 + [p] + ws2) == WorkerNames(ws1 + ws2)
    decreases |ws2|
  {
    if ws2 == [] {
      calc {
        WorkerNames(ws1 + [p] + ws2);
        { assert ws1 + [p] + ws2 == ws1 + [p]; }
        WorkerNames(ws1 + [p]);
        { WorkerNamesSnoc(ws1, p); }
        AddName(WorkerNames(ws1), p);
        { assert ws1 + ws2 == ws1; }
        WorkerNames(ws1 + ws2);
      }
    } else {
      var front := ws2[..|ws2| - 1];
      var last := ws2[|ws2| - 1];
      calc {
        WorkerNames(ws1 + [p] + ws2);
        { assert ws1 + [p] + ws2 == (ws1 + [p] + front) + [last]; }
        WorkerNames((ws1 + [p] + front) + [last]);
        { WorkerNamesSnoc(ws1 + [p] + front, last); }
        AddName(WorkerNames(ws1 + [p] + front), last);
        { WorkerNamesSkip(ws1, p, front); }
        AddName(WorkerNames(ws1 + front), last);
        { WorkerNamesSnoc(ws1 + front, last); }
        WorkerNames((ws1 + front) + [last]);
        { assert ws1 + ws2 == (ws1 + front) + [last]; }
        WorkerNames(ws1 + ws2);
      }
    }
  }

  lemma {:induction false} NameTotalsSkip(ws1: seq<ProcStats>, p: ProcStats, ws2: seq<ProcStats>, n: string)
    requires Classify(p).None?
    ensures NameUss(ws1 + [p] + ws2, n) == NameUss(ws1 + ws2, n)
    ensures NameCpu(ws1 + [p] + ws2, n) == NameCpu(ws1 + ws2, n)
    decreases |ws1|
  {
    if ws1 == [] {
      assert ws1 + [p] + ws2 == [p] + ws2 && ([p] + ws2)[1..] == ws2;
      assert ws1 + ws2 == ws2;
    } else {
      NameTotalsSkip(ws1[1..], p, ws2, n);
      assert (ws1 + [p] + ws2)[1..] == ws1[1..] + [p] + ws2;
      assert (ws1 + ws2)[1..] == ws1[1..] + ws2;
    }
  }

  lemma {:induction false} WorkerRecordsSkip(ip: string, names: seq<string>, ws1: seq<ProcStats>, p: ProcStats, ws2: seq<ProcStats>)
    requires Classify(p).None?
    ensures WorkerRecords(ip, names, ws1 + [p] + ws2) == WorkerRecords(ip, names, ws1 + ws2)
  {
    if names != [] {
      NameTotalsSkip(ws1, p, ws2, names[0]);
      WorkerRecordsSkip(ip, names[1..], ws1, p, ws2);
    }
  }

  /**
   * A process whose command line does not start with a `ray::` token is
   * invisible: wherever it stands among the workers, the component records
   * of the poll are exactly those it would have without it.
   */
  lemma NonWorkerIgnored(
    ip: string, raylet: Option<ProcStats>, agent: Option<ProcStats>,
    ws1: seq<ProcStats>, p: ProcStats, ws2: seq<ProcStats>, previous: seq<string>)
    requires |p.cmdline| == 0 || !(WORKER_PREFIX <= p.cmdline[0])
    ensures ComponentRecords(ip, raylet, agent, ws1 + [p] + ws2, previous)
         == ComponentRecords(ip, raylet, agent, ws1 + ws2, previous)
  {
    WorkerNamesSkip(ws1, p, ws2);
    WorkerRecordsSkip(ip, WorkerNames(ws1 + ws2), ws1, p, ws2);
  }
}
