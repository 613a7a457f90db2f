/**
 * `cluster_logs` of analysis/clustering.py: a `defaultdict(list)` keyed by
 * each log's "service" value, filled by one pass over the logs.
 *
 * A Python dict finds a key by `==`, so services such as `1`, `1.0` and
 * `True` share one entry, whose key stays the first of them inserted. The
 * model keeps the dict's keys, in insertion order, as Python shows them, and
 * indexes the lists by the keys' representatives under `==` (`PyKey`).
 */
module Clustering {
  import opened Wrappers
  import opened Records

  /**
   * The returned dict: its keys in insertion order, and the list of logs of
   * each key, found under the key's representative `PyKey(key)`.
   */
  datatype Clusters = Clusters(keys: seq<Value>, groups: map<Value, seq<Record>>)

  /** The key every log is grouped by, and the key of the `KeyError` raised when it is missing. */
  const ServiceKey: string := "service"

  /** Every log has a "service" field. */
  predicate AllHaveService(logs: seq<Record>) {
    forall i :: 0 <= i < |logs| ==> ServiceKey in logs[i]
  }

  /** Every prefix of logs that all have a service has the same property. */
  lemma ServicePrefix(logs: seq<Record>, n: nat)
    requires AllHaveService(logs) && n <= |logs|
    ensures AllHaveService(logs[..n])
  {
    forall i | 0 <= i < n
      ensures ServiceKey in logs[..n][i]
    {
      assert logs[..n][i] == logs[i];
    }
  }

  /** The representatives of the values ks, in order. */
  function Norm(ks: seq<Value>): (r: seq<Value>)
    ensures |r| == |ks|
    ensures forall i :: 0 <= i < |ks| ==> r[i] == PyKey(ks[i])
  {
    seq(|ks|, i requires 0 <= i < |ks| => PyKey(ks[i]))
  }

  /** One more key adds its representative at the end. */
  lemma NormSnoc(ks: seq<Value>, k: Value)
    ensures Norm(ks + [k]) == Norm(ks) + [PyKey(k)]
  {
    assert forall i :: 0 <= i < |ks| ==> (ks + [k])[i] == ks[i];
  }

  /** The logs whose service is `==` to k, in input order. */
  function Group(logs: seq<Record>, k: Value): (g: seq<Record>)
    requires AllHaveService(logs)
    ensures |g| <= |logs|
  {
    if logs == [] then []
    else
      var init := logs[..|logs| - 1];
      var last := logs[|logs| - 1];
      ServicePrefix(logs, |logs| - 1);
      Group(init, k) + (if PyEq(last[ServiceKey], k) then [last] else [])
  }

  /** The dict's keys: for each class of services under `==`, the first one met, in order of first occurrence. */
  function Keys(logs: seq<Record>): (ks: seq<Value>)
    requires AllHaveService(logs)
  {
    if logs == [] then []
    else
      var init := logs[..|logs| - 1];
      var last := logs[|logs| - 1];
      ServicePrefix(logs, |logs| - 1);
      Keys(init) + (if PyKey(last[ServiceKey]) in Norm(Keys(init)) then [] else [last[ServiceKey]])
  }

  /** Appending a log adds it to the group of k iff its service is `==` to k. */
  lemma GroupSnoc(logs: seq<Record>, log: Record, k: Value)
    requires AllHaveService(logs) && ServiceKey in log && AllHaveService(logs + [log])
    ensures Group(logs + [log], k) == Group(logs, k) + (if PyEq(log[ServiceKey], k) then [log] else [])
  {
    assert (logs + [log])[..|logs|] == logs;
  }

  /**
   * The keys after one more log: unchanged when its service is `==` to a key,
   * else its service is the new last key.
   */
  lemma KeysSnoc(logs: seq<Record>)
    requires logs != [] && AllHaveService(logs)
    ensures AllHaveService(logs[..|logs| - 1])
    ensures var init := logs[..|logs| - 1]; var s := logs[|logs| - 1][ServiceKey];
      && (PyKey(s) in Norm(Keys(init)) ==> Keys(logs) == Keys(init))
      && (PyKey(s) !in Norm(Keys(init)) ==> Keys(logs) == Keys(init) + [s])
      && (forall x :: x in Norm(Keys(logs)) <==> x in Norm(Keys(init)) || x == PyKey(s))
  {
    var init := logs[..|logs| - 1];
    var s := logs[|logs| - 1][ServiceKey];
    ServicePrefix(logs, |logs| - 1);
    NormSnoc(Keys(init), s);
  }

  /**
   * `cluster_logs(logs)`: the `for` loop appending each log to the list of
   * its service. A log without "service" raises `KeyError('service')`.
   */
  method ClusterLogs(logs: seq<Record>) returns (r: Result<Clusters, string>)
    ensures r.Failure? <==> !AllHaveService(logs)
    ensures r.Failure? ==> r.error == ServiceKey
    ensures r.Success? ==>
      && AllHaveService(logs)
      && r.value.keys == Keys(logs)
      && (forall c :: c in r.value.groups <==> c in Norm(Keys(logs)))
      && (forall c :: c in r.value.groups ==> r.value.groups[c] == Group(logs, c))
  {
    var keys: seq<Value> := [];
    var groups: map<Value, seq<Record>> := map[];
    for i := 0 to |logs|
      invariant AllHaveService(logs[..i])
      invariant Grouped(logs[..i], keys, groups)
    {
      var log := logs[i];
      if ServiceKey !in log {
        return Failure(ServiceKey);
      }
      var k := log[ServiceKey];
      var c := PyKey(k);
      GroupedSnoc(logs[..i], log, keys, groups);
      assert logs[..i + 1] == logs[..i] + [log];
      if c !in groups {
        keys := keys + [k];
        groups := groups[c := []];
      }
      groups := groups[c := groups[c] + [log]];
    }
    assert logs[..|logs|] == logs;
    return Success(Clusters(keys, groups));
  }

  /** The keys and the groups are those of the logs so far. */
  ghost predicate Grouped(logs: seq<Record>, keys: seq<Value>, groups: map<Value, seq<Record>>)
    requires AllHaveService(logs)
  {
    && keys == Keys(logs)
    && (forall c :: c in groups <==> c in Norm(keys))
    && (forall c :: c in groups ==> groups[c] == Group(logs, c))
  }

  /** One loop step: appending a log to the list of its service keeps the groups those of the logs so far. */
  lemma GroupedSnoc(logs: seq<Record>, log: Record, keys: seq<Value>, groups: map<Value, seq<Record>>)
    requires AllHaveService(logs) && ServiceKey in log && Grouped(logs, keys, groups)
    ensures AllHaveService(logs + [log])
    ensures var k := log[ServiceKey]; var c := PyKey(k);
      Grouped(logs + [log],
        if c in groups then keys else keys + [k],
        groups[c := (if c in groups then groups[c] else []) + [log]])
  {
    var all := logs + [log];
    var k := log[ServiceKey];
    var c := PyKey(k);
    assert AllHaveService(all) by {
      forall i | 0 <= i < |all|
        ensures ServiceKey in all[i]
      {
        if i < |logs| {
          assert all[i] == logs[i];
        }
      }
    }
    assert all[..|logs|] == logs;
    NormSnoc(keys, k);
    var groups' := groups[c := (if c in groups then groups[c] else []) + [log]];
    forall c' | c' in groups'
      ensures groups'[c'] == Group(all, c')
    {
      GroupSnoc(logs, log, c');
      if c' == c {
        PyKeyIdempotent(k);
        assert PyEq(k, c');
        if c !in groups {
          assert c !in Norm(Keys(logs));
          NoGroupWithoutKey(logs, c');
        }
      } else {
        assert c' in groups && c' in Norm(keys);
        var j :| 0 <= j < |keys| && Norm(keys)[j] == c';
        PyKeyIdempotent(keys[j]);
        assert !PyEq(k, c');
        assert groups'[c'] == groups[c'] == Group(logs, c');
      }
    }
  }

  /** A service whose class has no key has no logs. */
  lemma {:induction false} NoGroupWithoutKey(logs: seq<Record>, k: Value)
    requires AllHaveService(logs)
    requires PyKey(k) !in Norm(Keys(logs))
    ensures Group(logs, k) == []
  {
    if logs != [] {
      var init := logs[..|logs| - 1];
      KeysSnoc(logs);
      NoGroupWithoutKey(init, k);
    }
  }

  /** The logs in the group of k are exactly those whose service is `==` to k. */
  lemma {:induction false} GroupMembers(logs: seq<Record>, k: Value, x: Record)
    requires AllHaveService(logs)
    ensures x in Group(logs, k) <==> x in logs && ServiceKey in x && PyEq(x[ServiceKey], k)
  {
    if logs != [] {
      var init := logs[..|logs| - 1];
      ServicePrefix(logs, |logs| - 1);
      GroupMembers(init, k, x);
      assert logs == init + [logs[|logs| - 1]];
    }
  }

  /** The classes, under `==`, of the services that occur in logs. */
  function Services(logs: seq<Record>): set<Value>
    requires AllHaveService(logs)
  {
    set i | 0 <= i < |logs| :: PyKey(logs[i][ServiceKey])
  }

  /** There is one key for exactly each class of services that occurs. */
  lemma {:induction false} KeysAreServices(logs: seq<Record>)
    requires AllHaveService(logs)
    ensures forall c :: c in Norm(Keys(logs)) <==> c in Services(logs)
  {
    if logs != [] {
      var n := |logs| - 1;
      var init := logs[..n];
      var s := logs[n][ServiceKey];
      ServicePrefix(logs, n);
      KeysAreServices(init);
      KeysSnoc(logs);
      assert Services(logs) == Services(init) + {PyKey(s)} by {
        forall c | c in Services(logs)
          ensures c in Services(init) + {PyKey(s)}
        {
          var i :| 0 <= i < |logs| && PyKey(logs[i][ServiceKey]) == c;
          if i < n {
            assert init[i] == logs[i];
          }
        }
        forall c | c in Services(init)
          ensures c in Services(logs)
        {
          var i :| 0 <= i < |init| && PyKey(init[i][ServiceKey]) == c;
          assert logs[i] == init[i];
        }
      }
    }
  }

  /** Log i is the first whose service falls in its class. */
  predicate FirstOfClass(logs: seq<Record>, i: nat)
    requires AllHaveService(logs) && i < |logs|
  {
    forall j :: 0 <= j < i ==> !PyEq(logs[j][ServiceKey], logs[i][ServiceKey])
  }

  /** Below n, the prefix of length n has the same services and the same first-of-class logs. */
  lemma FirstOfClassPrefix(logs: seq<Record>, n: nat, i: nat)
    requires AllHaveService(logs) && i < n <= |logs|
    ensures AllHaveService(logs[..n])
    ensures logs[..n][i] == logs[i]
    ensures FirstOfClass(logs[..n], i) == FirstOfClass(logs, i)
  {
    ServicePrefix(logs, n);
    assert forall j :: 0 <= j <= i ==> logs[..n][j] == logs[j];
  }

  /** A last log that is first of its class adds its service as a key. */
  lemma LastFirstIsKey(logs: seq<Record>)
    requires AllHaveService(logs) && logs != [] && FirstOfClass(logs, |logs| - 1)
    ensures logs[|logs| - 1][ServiceKey] in Keys(logs)
  {
    var n := |logs| - 1;
    var init := logs[..n];
    var s := logs[n][ServiceKey];
    ServicePrefix(logs, n);
    forall j | 0 <= j < n
      ensures PyKey(init[j][ServiceKey]) != PyKey(s)
    {
      assert logs[j] == init[j];
    }
    assert PyKey(s) !in Services(init);
    KeysAreServices(init);
    assert Keys(logs) == Keys(init) + [s];
  }

  /** The service of every log that is first of its class is a key. */
  lemma {:induction false} FirstsAreKeys(logs: seq<Record>, i: nat)
    requires AllHaveService(logs) && i < |logs| && FirstOfClass(logs, i)
    ensures logs[i][ServiceKey] in Keys(logs)
  {
    var n := |logs| - 1;
    if i < n {
      var init := logs[..n];
      FirstOfClassPrefix(logs, n, i);
      FirstsAreKeys(init, i);
      assert Keys(logs)[..|Keys(init)|] == Keys(init);
    } else {
      LastFirstIsKey(logs);
    }
  }

  /** Every key is the service of a log that is first of its class. */
  lemma {:induction false} KeysAreFirsts(logs: seq<Record>, k: Value)
    requires AllHaveService(logs) && k in Keys(logs)
    ensures exists i :: 0 <= i < |logs| && logs[i][ServiceKey] == k && FirstOfClass(logs, i)
  {
    var n := |logs| - 1;
    var init := logs[..n];
    var s := logs[n][ServiceKey];
    KeysSnoc(logs);
    if k in Keys(init) {
      KeysAreFirsts(init, k);
      var i :| 0 <= i < |init| && init[i][ServiceKey] == k && FirstOfClass(init, i);
      FirstOfClassPrefix(logs, n, i);
    } else {
      assert k == s && PyKey(s) !in Norm(Keys(init));
      KeysAreServices(init);
      forall j | 0 <= j < n
        ensures !PyEq(logs[j][ServiceKey], s)
      {
        assert logs[j] == init[j];
        assert PyKey(init[j][ServiceKey]) in Services(init);
      }
      assert FirstOfClass(logs, n);
    }
  }

  /** The keys are exactly the services of the logs that are first of their class: the dict keeps the first key it was given. */
  lemma KeysFirstSeen(logs: seq<Record>, k: Value)
    requires AllHaveService(logs)
    ensures k in Keys(logs) <==> exists i :: 0 <= i < |logs| && logs[i][ServiceKey] == k && FirstOfClass(logs, i)
  {
    if k in Keys(logs) {
      KeysAreFirsts(logs, k);
    }
    if exists i :: 0 <= i < |logs| && logs[i][ServiceKey] == k && FirstOfClass(logs, i) {
      var i :| 0 <= i < |logs| && logs[i][ServiceKey] == k && FirstOfClass(logs, i);
      FirstsAreKeys(logs, i);
    }
  }

  /** No two values in s are `==`. */
  predicate Distinct(s: seq<Value>) {
    forall i, j :: 0 <= i < j < |s| ==> s[i] != s[j]
  }

  /** No two keys are `==`, as no two keys of a dict are. */
  lemma {:induction false} KeysDistinct(logs: seq<Record>)
    requires AllHaveService(logs)
    ensures Distinct(Norm(Keys(logs)))
  {
    if logs != [] {
      var init := logs[..|logs| - 1];
      var s := logs[|logs| - 1][ServiceKey];
      ServicePrefix(logs, |logs| - 1);
      KeysDistinct(init);
      KeysSnoc(logs);
      if PyKey(s) !in Norm(Keys(init)) {
        NormSnoc(Keys(init), s);
      }
    }
  }

  /** The sum of the group sizes over the keys ks. */
  function Total(logs: seq<Record>, ks: seq<Value>): nat
    requires AllHaveService(logs)
  {
    if ks == [] then 0 else |Group(logs, ks[0])| + Total(logs, ks[1..])
  }

  /** One more log adds one to the total over pairwise unequal keys when its service is `==` to one of them, and nothing otherwise. */
  lemma {:induction false} TotalSnoc(logs: seq<Record>, ks: seq<Value>)
    requires logs != [] && AllHaveService(logs) && Distinct(Norm(ks))
    ensures AllHaveService(logs[..|logs| - 1])
    ensures Total(logs, ks) == Total(logs[..|logs| - 1], ks) + (if PyKey(logs[|logs| - 1][ServiceKey]) in Norm(ks) then 1 else 0)
  {
    ServicePrefix(logs, |logs| - 1);
    if ks != [] {
      var rest := ks[1..];
      assert Norm(ks) == [PyKey(ks[0])] + Norm(rest);
      assert Distinct(Norm(rest)) by {
        forall i, j | 0 <= i < j < |rest|
          ensures Norm(rest)[i] != Norm(rest)[j]
        {
          assert Norm(rest)[i] == Norm(ks)[i + 1] && Norm(rest)[j] == Norm(ks)[j + 1];
        }
      }
      TotalSnoc(logs, rest);
      var c := PyKey(logs[|logs| - 1][ServiceKey]);
      if c == PyKey(ks[0]) {
        assert c !in Norm(rest) by {
          forall j | 0 <= j < |rest|
            ensures Norm(rest)[j] != c
          {
            assert Norm(rest)[j] == Norm(ks)[j + 1];
          }
        }
      }
    }
  }

  /** The total over a key list with one more key at the end. */
  lemma {:induction false} TotalAppend(logs: seq<Record>, ks: seq<Value>, k: Value)
    requires AllHaveService(logs)
    ensures Total(logs, ks + [k]) == Total(logs, ks) + |Group(logs, k)|
  {
    if ks != [] {
      assert (ks + [k])[1..] == ks[1..] + [k];
      TotalAppend(logs, ks[1..], k);
    }
  }

  /** The groups partition the logs: their sizes add up to the number of logs. */
  lemma {:induction false} GroupSizesSum(logs: seq<Record>)
    requires AllHaveService(logs)
    ensures Total(logs, Keys(logs)) == |logs|
  {
    if logs != [] {
      var n := |logs| - 1;
      var init := logs[..n];
      var s := logs[n][ServiceKey];
      ServicePrefix(logs, n);
      GroupSizesSum(init);
      KeysDistinct(init);
      TotalSnoc(logs, Keys(init));
      if PyKey(s) !in Norm(Keys(init)) {
        assert Keys(logs) == Keys(init) + [s];
        TotalAppend(logs, Keys(init), s);
        NoGroupWithoutKey(init, s);
        assert Group(logs, s) == Group(init, s) + [logs[n]];
      } else {
        assert Keys(logs) == Keys(init);
      }
    }
  }

  /** Services `1` and `True` are one dict key, `1`, and its list holds both logs, in order. */
  lemma OneAndTrueShareAGroup()
    ensures var logs := [map[ServiceKey := Int(1)], map[ServiceKey := Bool(true)]];
      AllHaveService(logs) && Keys(logs) == [Int(1)]
      && Group(logs, Int(1)) == logs && Group(logs, Real(1.0)) == logs
  {
    var logs := [map[ServiceKey := Int(1)], map[ServiceKey := Bool(true)]];
    var first := logs[..1];
    assert first == [map[ServiceKey := Int(1)]];
    assert first[..0] == [];
    assert Keys(first) == [Int(1)];
    assert Norm(Keys(first)) == [Int(1)];
    assert PyKey(Bool(true)) == Int(1);
    assert Keys(logs) == Keys(first);
    assert Group(first, Int(1)) == first;
    assert Group(first, Real(1.0)) == first;
  }
}
