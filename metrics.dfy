/**
 * Gauge records, the output of one poll of the reporter, and the queries the
 * reporter's tests run over them: the values recorded under one metric name,
 * optionally narrowed to one tag value, and their sum.
 */
module Metrics {

  /** One tagged gauge observation; its timestamp is the poll's and is not modelled. */
  datatype GaugeRecord = GaugeRecord(name: string, value: real, tags: map<string, string>)

  /** The values recorded under metric `name`, in record order. */
  function Values(records: seq<GaugeRecord>, name: string): (vs: seq<real>)
    ensures |vs| <= |records|
  {
    if records == [] then []
    else (if records[0].name == name then [records[0].value] else []) + Values(records[1..], name)
  }

  /** The values recorded under metric `name` whose tag `key` is `tagValue`. */
  function TaggedValues(records: seq<GaugeRecord>, name: string, key: string, tagValue: string): (vs: seq<real>)
    ensures |vs| <= |Values(records, name)|
  {
    if records == [] then []
    else
      var r := records[0];
      (if r.name == name && key in r.tags && r.tags[key] == tagValue then [r.value] else [])
      + TaggedValues(records[1..], name, key, tagValue)
  }

  /** The number of records whose metric name is one of `names`. */
  function CountNamed(records: seq<GaugeRecord>, names: set<string>): (n: nat)
    ensures n <= |records|
  {
    if records == [] then 0
    else (if records[0].name in names then 1 else 0) + CountNamed(records[1..], names)
  }

  function Sum(xs: seq<real>): real {
    if xs == [] then 0.0 else xs[0] + Sum(xs[1..])
  }

  lemma {:induction false} SumAppend(xs: seq<real>, ys: seq<real>)
    ensures Sum(xs + ys) == Sum(xs) + Sum(ys)
  {
    if xs != [] {
      SumAppend(xs[1..], ys);
      assert (xs + ys)[1..] == xs[1..] + ys;
    } else {
      assert xs + ys == ys;
    }
  }

  lemma {:induction false} ValuesAppend(a: seq<GaugeRecord>, b: seq<GaugeRecord>, name: string)
    ensures Values(a + b, name) == Values(a, name) + Values(b, name)
  {
    if a != [] {
      ValuesAppend(a[1..], b, name);
      assert (a + b)[1..] == a[1..] + b;
    } else {
      assert a + b == b;
    }
  }

  lemma {:induction false} TaggedValuesAppend(a: seq<GaugeRecord>, b: seq<GaugeRecord>, name: string, key: string, tagValue: string)
    ensures TaggedValues(a + b, name, key, tagValue) == TaggedValues(a, name, key, tagValue) + TaggedValues(b, name, key, tagValue)
  {
    if a != [] {
      TaggedValuesAppend(a[1..], b, name, key, tagValue);
      assert (a + b)[1..] == a[1..] + b;
    } else {
      assert a + b == b;
    }
  }

  lemma {:induction false} CountNamedAppend(a: seq<GaugeRecord>, b: seq<GaugeRecord>, names: set<string>)
    ensures CountNamed(a + b, names) == CountNamed(a, names) + CountNamed(b, names)
  {
    if a != [] {
      CountNamedAppend(a[1..], b, names);
      assert (a + b)[1..] == a[1..] + b;
    } else {
      assert a + b == b;
    }
  }

  /** Records none of which is named `name` contribute no value under it. */
  lemma {:induction false} ValuesAbsent(records: seq<GaugeRecord>, name: string)
    requires forall r :: r in records ==> r.name != name
    ensures Values(records, name) == []
  {
    if records != [] {
      assert records[0] in records;
      ValuesAbsent(records[1..], name);
    }
  }

  lemma {:induction false} TaggedValuesAbsent(records: seq<GaugeRecord>, name: string, key: string, tagValue: string)
    requires forall r :: r in records ==> r.name != name
    ensures TaggedValues(records, name, key, tagValue) == []
  {
    if records != [] {
      assert records[0] in records;
      TaggedValuesAbsent(records[1..], name, key, tagValue);
    }
  }

  lemma {:induction false} CountNamedAbsent(records: seq<GaugeRecord>, names: set<string>)
    requires forall r :: r in records ==> r.name !in names
    ensures CountNamed(records, names) == 0
  {
    if records != [] {
      assert records[0] in records;
      CountNamedAbsent(records[1..], names);
    }
  }

  /** The values under `name` of three record lists in a row. */
  lemma ValuesOfParts(a: seq<GaugeRecord>, b: seq<GaugeRecord>, c: seq<GaugeRecord>, name: string)
    ensures Values(a + b + c, name) == Values(a, name) + Values(b, name) + Values(c, name)
  {
    ValuesAppend(a, b, name);
    ValuesAppend(a + b, c, name);
  }

  lemma TaggedValuesOfParts(a: seq<GaugeRecord>, b: seq<GaugeRecord>, c: seq<GaugeRecord>,
                            name: string, key: string, tagValue: string)
    ensures TaggedValues(a + b + c, name, key, tagValue)
         == TaggedValues(a, name, key, tagValue) + TaggedValues(b, name, key, tagValue) + TaggedValues(c, name, key, tagValue)
  {
    TaggedValuesAppend(a, b, name, key, tagValue);
    TaggedValuesAppend(a + b, c, name, key, tagValue);
  }

  lemma CountNamedOfParts(a: seq<GaugeRecord>, b: seq<GaugeRecord>, c: seq<GaugeRecord>, names: set<string>)
    ensures CountNamed(a + b + c, names) == CountNamed(a, names) + CountNamed(b, names) + CountNamed(c, names)
  {
    CountNamedAppend(a, b, names);
    CountNamedAppend(a + b, c, names);
  }
}
