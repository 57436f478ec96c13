/** The collector's three operations, by their effect on the cache. */
module Operations {
  import opened Wrappers
  import opened Workflows
  import opened Readings

  /** An optional workflow is Go's possibly nil pointer. */
  datatype Operation =
    | Add(wf: Option<Workflow>)
    | Delete(wf: Option<Workflow>)
    | Replace(wfs: seq<Option<Workflow>>)

  /** The cache a list of objects builds: nil entries are skipped, later entries win. */
  function Filed(wfs: seq<Option<Workflow>>): Cache
  {
    if wfs == [] then map[] else
      var front, last := Filed(wfs[..|wfs| - 1]), wfs[|wfs| - 1];
      if last.None? then front else front[KeyOf(last.value) := last.value]
  }

  function Apply(cache: Cache, op: Operation): Cache
  {
    match op
    case Add(wf) => if wf.None? then cache else cache[KeyOf(wf.value) := wf.value]
    case Delete(wf) => if wf.None? then cache else cache - {KeyOf(wf.value)}
    case Replace(wfs) => Filed(wfs)
  }

  function ApplyAll(cache: Cache, ops: seq<Operation>): Cache
  {
    if ops == [] then cache else Apply(ApplyAll(cache, ops[..|ops| - 1]), ops[|ops| - 1])
  }

  /** What the clock shows when the workflow under each key is collected. */
  type Clock = string -> Time

  /** The clock reading behind each cached workflow: only what an operation brings is collected anew. */
  function Stamped(at: map<string, Time>, op: Operation, clock: Clock): map<string, Time>
  {
    match op
    case Add(wf) => if wf.None? then at else at[KeyOf(wf.value) := clock(KeyOf(wf.value))]
    case Delete(wf) => if wf.None? then at else at - {KeyOf(wf.value)}
    case Replace(wfs) => map k | k in Filed(wfs) :: clock(k)
  }

  function StampedAll(at: map<string, Time>, ops: seq<Operation>, clocks: seq<Clock>): map<string, Time>
    requires |clocks| == |ops|
  {
    if ops == [] then at else
      var n := |ops| - 1;
      Stamped(StampedAll(at, ops[..n], clocks[..n]), ops[n], clocks[n])
  }

  // ----- key by key: what a list files, and what a run of operations leaves -----

  predicate EntryAt(wfs: seq<Option<Workflow>>, i: nat, key: string)
  {
    i < |wfs| && wfs[i].Some? && KeyOf(wfs[i].value) == key
  }

  /** The list has an object with this key. */
  ghost predicate Files(wfs: seq<Option<Workflow>>, key: string)
  {
    exists i :: EntryAt(wfs, i, key)
  }

  /** A list files exactly the keys of its objects. */
  lemma {:induction false} FiledKeys(wfs: seq<Option<Workflow>>, key: string)
    ensures key in Filed(wfs) <==> Files(wfs, key)
    decreases |wfs|
  {
    if wfs != [] {
      var n := |wfs| - 1;
      FiledKeys(wfs[..n], key);
      if wfs[n].Some? && KeyOf(wfs[n].value) == key {
        assert EntryAt(wfs, n, key);
      } else {
        forall i: nat ensures EntryAt(wfs, i, key) <==> EntryAt(wfs[..n], i, key) {}
      }
    }
  }

  /** Under each key it files the last object with that key. */
  lemma {:induction false} FiledLast(wfs: seq<Option<Workflow>>, i: nat, key: string)
    requires EntryAt(wfs, i, key) && forall j :: i < j ==> !EntryAt(wfs, j, key)
    ensures key in Filed(wfs) && Filed(wfs)[key] == wfs[i].value
    decreases |wfs|
  {
    var n := |wfs| - 1;
    if i < n {
      assert EntryAt(wfs[..n], i, key);
      forall j | i < j ensures !EntryAt(wfs[..n], j, key) {
        assert !EntryAt(wfs, j, key);
      }
      FiledLast(wfs[..n], i, key);
      assert !EntryAt(wfs, n, key);
    }
  }

  /** The operation puts an object under the key. */
  ghost predicate Brings(op: Operation, key: string)
  {
    match op
    case Add(wf) => wf.Some? && KeyOf(wf.value) == key
    case Delete(_) => false
    case Replace(wfs) => Files(wfs, key)
  }

  /** The operation leaves no object under the key. */
  ghost predicate Drops(op: Operation, key: string)
  {
    match op
    case Add(_) => false
    case Delete(wf) => wf.Some? && KeyOf(wf.value) == key
    case Replace(wfs) => !Files(wfs, key)
  }

  ghost predicate Concerns(op: Operation, key: string)
  {
    Brings(op, key) || Drops(op, key)
  }

  /** Operation `i` is the last one about the key. */
  ghost predicate LastAbout(ops: seq<Operation>, i: nat, key: string)
  {
    i < |ops| && Concerns(ops[i], key) && forall j :: i < j < |ops| ==> !Concerns(ops[j], key)
  }

  lemma OneOperation(cache: Cache, at: map<string, Time>, op: Operation, clock: Clock, key: string)
    ensures Brings(op, key) ==> key in Stamped(at, op, clock) && Stamped(at, op, clock)[key] == clock(key)
    ensures Brings(op, key) ==> key in Apply(cache, op)
    ensures op.Add? && Brings(op, key) ==> Apply(cache, op)[key] == op.wf.value
    ensures op.Replace? && Brings(op, key) ==> key in Filed(op.wfs) && Apply(cache, op)[key] == Filed(op.wfs)[key]
    ensures Drops(op, key) ==> key !in Apply(cache, op) && key !in Stamped(at, op, clock)
    ensures !Concerns(op, key) ==> (key in Apply(cache, op) <==> key in cache)
    ensures !Concerns(op, key) && key in cache ==> Apply(cache, op)[key] == cache[key]
    ensures !Concerns(op, key) ==> (key in Stamped(at, op, clock) <==> key in at)
    ensures !Concerns(op, key) && key in at ==> Stamped(at, op, clock)[key] == at[key]
  {
    if op.Replace? {
      FiledKeys(op.wfs, key);
    }
  }

  /** After a run, a key is in the cache exactly if the last operation about it brought it; then with its object. */
  lemma {:induction false} RunLeaves(cache: Cache, ops: seq<Operation>, i: nat, key: string)
    requires LastAbout(ops, i, key)
    ensures key in ApplyAll(cache, ops) <==> Brings(ops[i], key)
    ensures Brings(ops[i], key) && ops[i].Add? ==> ApplyAll(cache, ops)[key] == ops[i].wf.value
    ensures Brings(ops[i], key) && ops[i].Replace? ==>
      key in Filed(ops[i].wfs) && ApplyAll(cache, ops)[key] == Filed(ops[i].wfs)[key]
    decreases |ops|
  {
    var n := |ops| - 1;
    OneOperation(ApplyAll(cache, ops[..n]), map[], ops[n], _ => 0, key);
    if i < n {
      assert LastAbout(ops[..n], i, key);
      RunLeaves(cache, ops[..n], i, key);
      assert !Concerns(ops[n], key);
    }
  }

  /** And it was collected at the reading the clock showed in that operation. */
  lemma {:induction false} RunStamps(at: map<string, Time>, ops: seq<Operation>, clocks: seq<Clock>, i: nat, key: string)
    requires |clocks| == |ops| && LastAbout(ops, i, key)
    ensures key in StampedAll(at, ops, clocks) <==> Brings(ops[i], key)
    ensures Brings(ops[i], key) ==> StampedAll(at, ops, clocks)[key] == clocks[i](key)
    decreases |ops|
  {
    var n := |ops| - 1;
    OneOperation(map[], StampedAll(at, ops[..n], clocks[..n]), ops[n], clocks[n], key);
    if i < n {
      assert LastAbout(ops[..n], i, key);
      RunStamps(at, ops[..n], clocks[..n], i, key);
      assert !Concerns(ops[n], key);
    }
  }

  /** A key that no operation is about stays as it was. */
  lemma {:induction false} RunLeavesAlone(cache: Cache, at: map<string, Time>, ops: seq<Operation>,
                                          clocks: seq<Clock>, key: string)
    requires |clocks| == |ops| && forall i :: 0 <= i < |ops| ==> !Concerns(ops[i], key)
    ensures key in ApplyAll(cache, ops) <==> key in cache
    ensures key in cache ==> ApplyAll(cache, ops)[key] == cache[key]
    ensures key in StampedAll(at, ops, clocks) <==> key in at
    ensures key in at ==> StampedAll(at, ops, clocks)[key] == at[key]
    decreases |ops|
  {
    if ops != [] {
      var n := |ops| - 1;
      forall i | 0 <= i < n ensures !Concerns(ops[..n][i], key) {
        assert !Concerns(ops[i], key);
      }
      RunLeavesAlone(cache, at, ops[..n], clocks[..n], key);
      OneOperation(ApplyAll(cache, ops[..n]), StampedAll(at, ops[..n], clocks[..n]), ops[n], clocks[n], key);
    }
  }
}
