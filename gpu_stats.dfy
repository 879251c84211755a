/**
 * GPU record generation of the reporter agent: every raw per-device sample
 * that carries an `index` becomes four gauge records tagged with the node ip,
 * the index as a string and, when the sample has one, the device name.
 * Samples without an index are dropped. No node-level aggregate record is
 * produced; totals are what a consumer gets by summing the per-device records.
 */
module GpuStats {
  import opened Wrappers
  import opened Text
  import opened Metrics

  /** One row of the GPU probe; `index` and `name` may be missing from it. */
  datatype GpuSample = GpuSample(
    index: Option<nat>,
    name: Option<string>,
    utilizationGpu: int,
    memoryUsed: int,
    memoryTotal: int)

  const GPUS_AVAILABLE := "node_gpus_available"
  const GPUS_UTILIZATION := "node_gpus_utilization"
  const GRAM_USED := "node_gram_used"
  const GRAM_AVAILABLE := "node_gram_available"

  /** The four per-device metric names, in the order a device emits them. */
  const GPU_METRICS: seq<string> := [GPUS_AVAILABLE, GPUS_UTILIZATION, GRAM_USED, GRAM_AVAILABLE]

  function GpuMetricNames(): (names: set<string>)
    ensures forall m :: m in names <==> m in GPU_METRICS
  {
    {GPUS_AVAILABLE, GPUS_UTILIZATION, GRAM_USED, GRAM_AVAILABLE}
  }

  /**
   * The tags of a device's records: exactly `ip` and `GpuIndex` (the index
   * rendered as a string), plus `GpuDeviceName` when the sample names the device.
   */
  function GpuTags(ip: string, g: GpuSample): (tags: map<string, string>)
    requires g.index.Some?
    ensures g.name.None? ==> tags.Keys == {"ip", "GpuIndex"}
    ensures g.name.Some? ==> tags.Keys == {"ip", "GpuIndex", "GpuDeviceName"}
    ensures tags["ip"] == ip
    ensures ParseNat(tags["GpuIndex"]) == g.index
    ensures g.name.Some? ==> tags["GpuDeviceName"] == g.name.value
  {
    ParseNatToString(g.index.value);
    var base := map["ip" := ip, "GpuIndex" := NatToString(g.index.value)];
    if g.name.Some? then base["GpuDeviceName" := g.name.value] else base
  }

  /**
   * What a device reports under each GPU metric: availability 1 (for every
   * indexed device, busy or not), utilization, memory used, and memory
   * available as total minus used.
   */
  function MetricValue(metric: string, g: GpuSample): real {
    if metric == GPUS_AVAILABLE then 1.0
    else if metric == GPUS_UTILIZATION then g.utilizationGpu as real
    else if metric == GRAM_USED then g.memoryUsed as real
    else if metric == GRAM_AVAILABLE then (g.memoryTotal - g.memoryUsed) as real
    else 0.0
  }

  /** The four records of one indexed device. */
  function DeviceRecords(ip: string, g: GpuSample): (rs: seq<GaugeRecord>)
    requires g.index.Some?
    ensures |rs| == |GPU_METRICS|
  {
    var tags := GpuTags(ip, g);
    [ GaugeRecord(GPUS_AVAILABLE, MetricValue(GPUS_AVAILABLE, g), tags),
      GaugeRecord(GPUS_UTILIZATION, MetricValue(GPUS_UTILIZATION, g), tags),
      GaugeRecord(GRAM_USED, MetricValue(GRAM_USED, g), tags),
      GaugeRecord(GRAM_AVAILABLE, MetricValue(GRAM_AVAILABLE, g), tags) ]
  }

  /** The samples that carry an index, in their original order. */
  function Indexed(gpus: seq<GpuSample>): (r: seq<GpuSample>)
    ensures |r| <= |gpus|
  {
    if gpus == [] then []
    else (if gpus[0].index.Some? then [gpus[0]] else []) + Indexed(gpus[1..])
  }

  /** The indexed samples are exactly the samples that carry an index. */
  lemma {:induction false} IndexedMembers(gpus: seq<GpuSample>, g: GpuSample)
    ensures g in Indexed(gpus) <==> g in gpus && g.index.Some?
  {
    if gpus != [] {
      IndexedMembers(gpus[1..], g);
      assert g in gpus <==> g == gpus[0] || g in gpus[1..];
    }
  }

  /** All GPU records of one poll: four for each sample that carries an index. */
  function GpuRecords(ip: string, gpus: seq<GpuSample>): (rs: seq<GaugeRecord>)
    ensures |rs| == 4 * |Indexed(gpus)|
  {
    if gpus == [] then []
    else (if gpus[0].index.Some? then DeviceRecords(ip, gpus[0]) else []) + GpuRecords(ip, gpus[1..])
  }

  /** Total of `metric` over a list of devices. */
  function MetricTotal(gpus: seq<GpuSample>, metric: string): real {
    if gpus == [] then 0.0 else MetricValue(metric, gpus[0]) + MetricTotal(gpus[1..], metric)
  }

  lemma DeviceRecordsNamed(ip: string, g: GpuSample)
    requires g.index.Some?
    ensures CountNamed(DeviceRecords(ip, g), GpuMetricNames()) == 4
  {
    var rs := DeviceRecords(ip, g);
    var names := GpuMetricNames();
    assert rs[3..][1..] == [];
    assert CountNamed(rs[3..], names) == 1;
    assert rs[2..][1..] == rs[3..];
    assert CountNamed(rs[2..], names) == 2;
    assert rs[1..][1..] == rs[2..];
    assert CountNamed(rs[1..], names) == 3;
  }

  lemma DeviceRecordsValues(ip: string, g: GpuSample, metric: string)
    requires g.index.Some?
    ensures Values(DeviceRecords(ip, g), metric)
         == if metric in GpuMetricNames() then [MetricValue(metric, g)] else []
  {
    var rs := DeviceRecords(ip, g);
    var v := MetricValue(metric, g);
    assert rs[3..][1..] == [];
    assert Values(rs[3..], metric) == (if metric == GRAM_AVAILABLE then [v] else []);
    assert rs[2..][1..] == rs[3..];
    assert Values(rs[2..], metric) == (if metric in {GRAM_USED, GRAM_AVAILABLE} then [v] else []);
    assert rs[1..][1..] == rs[2..];
    assert Values(rs[1..], metric) == (if metric in {GPUS_UTILIZATION, GRAM_USED, GRAM_AVAILABLE} then [v] else []);
  }

  /**
   * A sample without an index yields no record: the records of a poll are
   * those of its indexed samples alone, four per sample.
   */
  lemma {:induction false} GpuRecordsDropUnindexed(ip: string, gpus: seq<GpuSample>)
    ensures GpuRecords(ip, gpus) == GpuRecords(ip, Indexed(gpus))
    ensures |GpuRecords(ip, gpus)| == 4 * |Indexed(gpus)|
    ensures CountNamed(GpuRecords(ip, gpus), GpuMetricNames()) == 4 * |Indexed(gpus)|
  {
    if gpus != [] {
      GpuRecordsDropUnindexed(ip, gpus[1..]);
      var g := gpus[0];
      var rest := Indexed(gpus[1..]);
      if g.index.Some? {
        assert Indexed(gpus) == [g] + rest;
        assert ([g] + rest)[1..] == rest;
        DeviceRecordsNamed(ip, g);
        CountNamedAppend(DeviceRecords(ip, g), GpuRecords(ip, gpus[1..]), GpuMetricNames());
      } else {
        assert Indexed(gpus) == rest;
        assert GpuRecords(ip, gpus) == GpuRecords(ip, gpus[1..]);
      }
    }
  }

  /**
   * Every GPU record comes from an indexed sample of the poll, carries one of
   * the four metric names, that sample's tags and that sample's value.
   */
  lemma {:induction false} GpuRecordsSound(ip: string, gpus: seq<GpuSample>, r: GaugeRecord)
    requires r in GpuRecords(ip, gpus)
    ensures exists g :: g in gpus && g.index.Some? && r.name in GpuMetricNames()
                        && r.tags == GpuTags(ip, g) && r.value == MetricValue(r.name, g)
  {
    var g := gpus[0];
    if g.index.Some? && r in DeviceRecords(ip, g) {
      var k :| 0 <= k < 4 && DeviceRecords(ip, g)[k] == r;
      assert r.name == GPU_METRICS[k];
    } else {
      GpuRecordsSound(ip, gpus[1..], r);
      var h :| h in gpus[1..] && h.index.Some? && r.name in GpuMetricNames()
               && r.tags == GpuTags(ip, h) && r.value == MetricValue(r.name, h);
      assert h in gpus;
    }
  }

  /** Every indexed sample emits each of the four metrics with its own tags and value. */
  lemma {:induction false} GpuRecordsComplete(ip: string, gpus: seq<GpuSample>, g: GpuSample, metric: string)
    requires g in gpus && g.index.Some?
    requires metric in GpuMetricNames()
    ensures GaugeRecord(metric, MetricValue(metric, g), GpuTags(ip, g)) in GpuRecords(ip, gpus)
  {
    var want := GaugeRecord(metric, MetricValue(metric, g), GpuTags(ip, g));
    if gpus[0] == g {
      var k :| 0 <= k < 4 && GPU_METRICS[k] == metric;
      assert DeviceRecords(ip, g)[k] == want;
    } else {
      GpuRecordsComplete(ip, gpus[1..], g, metric);
    }
  }

  /** Summing a GPU metric over the poll's records gives its total over the indexed devices. */
  lemma {:induction false} GpuRecordsTotal(ip: string, gpus: seq<GpuSample>, metric: string)
    requires metric in GpuMetricNames()
    ensures Sum(Values(GpuRecords(ip, gpus), metric)) == MetricTotal(Indexed(gpus), metric)
  {
    if gpus != [] {
      GpuRecordsTotal(ip, gpus[1..], metric);
      var g := gpus[0];
      var rest := Indexed(gpus[1..]);
      if g.index.Some? {
        assert Indexed(gpus) == [g] + rest;
        assert ([g] + rest)[1..] == rest;
        DeviceRecordsValues(ip, g, metric);
        ValuesAppend(DeviceRecords(ip, g), GpuRecords(ip, gpus[1..]), metric);
        SumAppend([MetricValue(metric, g)], Values(GpuRecords(ip, gpus[1..]), metric));
      } else {
        assert Indexed(gpus) == rest;
        assert GpuRecords(ip, gpus) == GpuRecords(ip, gpus[1..]);
      }
    }
  }

  /** Every indexed device counts as one available GPU. */
  lemma {:induction false} AvailableTotalIsDeviceCount(gpus: seq<GpuSample>)
    ensures MetricTotal(gpus, GPUS_AVAILABLE) == |gpus| as real
  {
    if gpus != [] {
      AvailableTotalIsDeviceCount(gpus[1..]);
    }
  }
}
