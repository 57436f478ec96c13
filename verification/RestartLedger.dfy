/**
 * Restart accounting: what a sequence of container observations ought to add to the high-water
 * marks and the CPU counter.
 */
module RestartLedger {
  import opened Workflows

  datatype CpuLabels = CpuLabels(namespace: string, workflow: string, node: string, container: string)

  /** One container status with a termination record, as a collector sees it. */
  datatype Observation = Observation(key: string, count: int, labels: CpuLabels, duration: int)

  datatype Ledger = Ledger(marks: map<string, int>, cpu: map<CpuLabels, int>)

  function Mark(l: Ledger, key: string): int { if key in l.marks then l.marks[key] else 0 }

  function Cpu(l: Ledger, labels: CpuLabels): int { if labels in l.cpu then l.cpu[labels] else 0 }

  function Charge(cpu: map<CpuLabels, int>, labels: CpuLabels, duration: int): map<CpuLabels, int>
  {
    cpu[labels := (if labels in cpu then cpu[labels] else 0) + duration]
  }

  /** The check-and-raise of the mark, and the charge that a raise entails. */
  function Observe(l: Ledger, o: Observation): Ledger
  {
    if o.count <= Mark(l, o.key) then l
    else Ledger(l.marks[o.key := o.count], if o.duration > 0 then Charge(l.cpu, o.labels, o.duration) else l.cpu)
  }

  function ObserveAll(l: Ledger, os: seq<Observation>): Ledger
  {
    if os == [] then l else Observe(ObserveAll(l, os[..|os| - 1]), os[|os| - 1])
  }

  lemma ObserveOne(l: Ledger, os: seq<Observation>, o: Observation)
    ensures ObserveAll(l, os + [o]) == Observe(ObserveAll(l, os), o)
  {}

  /** One observation moves its own mark up, never down, and charges its own labels if it does. */
  lemma ObserveEffect(l: Ledger, o: Observation, key: string, labels: CpuLabels)
    ensures Mark(Observe(l, o), key) == if o.key == key && o.count > Mark(l, key) then o.count else Mark(l, key)
    ensures Cpu(Observe(l, o), labels) ==
      Cpu(l, labels) + if o.labels == labels && o.count > Mark(l, o.key) && o.duration > 0 then o.duration else 0
  {}

  lemma {:induction false} ObserveJoin(l: Ledger, os: seq<Observation>, ps: seq<Observation>)
    ensures ObserveAll(l, os + ps) == ObserveAll(ObserveAll(l, os), ps)
    decreases |ps|
  {
    if ps == [] {
      assert os + ps == os;
    } else {
      var n := |ps| - 1;
      assert os + ps == (os + ps[..n]) + [ps[n]];
      ObserveOne(l, os + ps[..n], ps[n]);
      ObserveJoin(l, os, ps[..n]);
    }
  }

  /** The mark is the highest count there ever was: where it started, or the largest one observed. */
  lemma {:induction false} MarkIsMaximum(l: Ledger, os: seq<Observation>, key: string)
    ensures var mark := Mark(ObserveAll(l, os), key);
      && mark >= Mark(l, key)
      && (forall i :: 0 <= i < |os| && os[i].key == key ==> os[i].count <= mark)
      && (mark == Mark(l, key) || exists i :: 0 <= i < |os| && os[i].key == key && os[i].count == mark)
    decreases |os|
  {
    if os != [] {
      var n := |os| - 1;
      MarkIsMaximum(l, os[..n], key);
      var mark := Mark(ObserveAll(l, os[..n]), key);
      if mark != Mark(l, key) {
        var i :| 0 <= i < n && os[..n][i].key == key && os[..n][i].count == mark;
        assert os[i].key == key && os[i].count == mark;
      }
      forall i | 0 <= i < n && os[i].key == key ensures os[i].count <= mark {
        assert os[..n][i] == os[i];
      }
    }
  }

  /** Observation `i` is a record: above the starting mark and above every earlier count of its container. */
  ghost predicate IsRecord(l: Ledger, os: seq<Observation>, i: nat)
    requires i < |os|
  {
    && os[i].count > Mark(l, os[i].key)
    && forall j :: 0 <= j < i && os[j].key == os[i].key ==> os[j].count < os[i].count
  }

  /** The positive durations at the records with these labels, added up. */
  ghost function RecordDurations(l: Ledger, os: seq<Observation>, n: nat, labels: CpuLabels): int
    requires n <= |os|
  {
    if n == 0 then 0 else
      RecordDurations(l, os, n - 1, labels)
      + if IsRecord(l, os, n - 1) && os[n - 1].labels == labels && os[n - 1].duration > 0 then os[n - 1].duration else 0
  }

  ghost function Records(l: Ledger, os: seq<Observation>, n: nat, key: string): nat
    requires n <= |os|
  {
    if n == 0 then 0 else
      Records(l, os, n - 1, key) + if IsRecord(l, os, n - 1) && os[n - 1].key == key then 1 else 0
  }

  /** An observation raises the mark exactly when it is a record. */
  lemma RaisesIffRecord(l: Ledger, os: seq<Observation>, n: nat)
    requires n < |os|
    ensures os[n].count > Mark(ObserveAll(l, os[..n]), os[n].key) <==> IsRecord(l, os, n)
  {
    var key := os[n].key;
    MarkIsMaximum(l, os[..n], key);
    forall i | 0 <= i < n && os[i].key == key ensures os[i].count <= Mark(ObserveAll(l, os[..n]), key) {
      assert os[..n][i] == os[i];
    }
    if IsRecord(l, os, n) && Mark(ObserveAll(l, os[..n]), key) != Mark(l, key) {
      var i :| 0 <= i < n && os[..n][i].key == key && os[..n][i].count == Mark(ObserveAll(l, os[..n]), key);
      assert os[i].key == key;
    }
  }

  /** The CPU counter grows by the durations at the records, and by nothing else. */
  lemma {:induction false} CpuCountsRecords(l: Ledger, os: seq<Observation>, n: nat, labels: CpuLabels)
    requires n <= |os|
    ensures Cpu(ObserveAll(l, os[..n]), labels) == Cpu(l, labels) + RecordDurations(l, os, n, labels)
  {
    if n > 0 {
      CpuCountsRecords(l, os, n - 1, labels);
      assert os[..n][..n - 1] == os[..n - 1];
      RaisesIffRecord(l, os, n - 1);
    }
  }

  /** A container is charged at most once for each unit its mark has risen. */
  lemma {:induction false} RecordsBounded(l: Ledger, os: seq<Observation>, n: nat, key: string)
    requires n <= |os|
    ensures Records(l, os, n, key) <= Mark(ObserveAll(l, os[..n]), key) - Mark(l, key)
  {
    if n > 0 {
      RecordsBounded(l, os, n - 1, key);
      assert os[..n][..n - 1] == os[..n - 1];
      RaisesIffRecord(l, os, n - 1);
    }
  }

  /** Observing again what has been observed already changes nothing, in whatever order. */
  lemma {:induction false} ObservedAgain(l: Ledger, os: seq<Observation>, again: seq<Observation>)
    requires forall i :: 0 <= i < |again| ==> again[i] in os
    ensures ObserveAll(ObserveAll(l, os), again) == ObserveAll(l, os)
    decreases |again|
  {
    if again != [] {
      var n := |again| - 1;
      forall i | 0 <= i < n ensures again[..n][i] in os {
        assert again[..n][i] == again[i];
      }
      ObservedAgain(l, os, again[..n]);
      MarkIsMaximum(l, os, again[n].key);
      assert again[n] in os;
    }
  }

  // ----- state keys -----

  function StateKey(namespace: string, uid: string, name: string, container: string): string
  {
    namespace + "/" + uid + "/" + name + "/" + container
  }

  /** With slash-free parts a state key names one container of one pod. */
  lemma StateKeyInjective(ns1: string, uid1: string, n1: string, c1: string,
                          ns2: string, uid2: string, n2: string, c2: string)
    requires SlashFree(ns1) && SlashFree(uid1) && SlashFree(n1) && SlashFree(ns2) && SlashFree(uid2) && SlashFree(n2)
    ensures StateKey(ns1, uid1, n1, c1) == StateKey(ns2, uid2, n2, c2) <==>
      ns1 == ns2 && uid1 == uid2 && n1 == n2 && c1 == c2
  {
    assert StateKey(ns1, uid1, n1, c1) == Key(ns1, Key(uid1, Key(n1, c1)));
    assert StateKey(ns2, uid2, n2, c2) == Key(ns2, Key(uid2, Key(n2, c2)));
    KeyInjective(ns1, Key(uid1, Key(n1, c1)), ns2, Key(uid2, Key(n2, c2)));
    KeyInjective(uid1, Key(n1, c1), uid2, Key(n2, c2));
    KeyInjective(n1, c1, n2, c2);
  }
}
