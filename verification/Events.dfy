/** Histories of store changes, and what replaying them does to a cache. */
module Events {
  import opened Wrappers
  import opened Workflows
  import opened Readings
  import opened Operations

  /** A well-formed notification: an add or update carries the new object, a delete the last known one. */
  datatype Event =
    | Upsert(wf: Workflow)
    | Remove(wf: Workflow)

  /** The collector operation a worker performs for an event. */
  function OperationOf(e: Event): Operation
  {
    if e.Upsert? then Add(Some(e.wf)) else Delete(Some(e.wf))
  }

  function Replay(cache: Cache, es: seq<Event>): Cache
  {
    if es == [] then cache else Apply(Replay(cache, es[..|es| - 1]), OperationOf(es[|es| - 1]))
  }

  lemma ReplayOne(cache: Cache, es: seq<Event>, e: Event)
    ensures Replay(cache, es + [e]) == Apply(Replay(cache, es), OperationOf(e))
  {}

  lemma {:induction false} ReplayJoin(cache: Cache, es: seq<Event>, fs: seq<Event>)
    ensures Replay(cache, es + fs) == Replay(Replay(cache, es), fs)
    decreases |fs|
  {
    if fs == [] {
      assert es + fs == es;
    } else {
      var n := |fs| - 1;
      assert es + fs == (es + fs[..n]) + [fs[n]];
      ReplayOne(cache, es + fs[..n], fs[n]);
      ReplayJoin(cache, es, fs[..n]);
    }
  }

  // ----- one key at a time -----

  function At(cache: Cache, key: string): Option<Workflow>
  {
    if key in cache then Some(cache[key]) else None
  }

  lemma SameEntries(c: Cache, d: Cache)
    requires forall k :: At(c, k) == At(d, k)
    ensures c == d
  {
    forall k ensures k in c <==> k in d {
      assert At(c, k) == At(d, k);
    }
    forall k | k in c ensures c[k] == d[k] {
      assert At(c, k) == At(d, k);
    }
  }

  predicate Touches(es: seq<Event>, key: string)
  {
    exists i :: 0 <= i < |es| && KeyOf(es[i].wf) == key
  }

  /** What an event says about its key: the object it carries, or that there is none. */
  function Said(e: Event): Option<Workflow>
  {
    if e.Upsert? then Some(e.wf) else None
  }

  /** What the last event about a key says; nothing if there is none. */
  function LastSaid(es: seq<Event>, key: string): Option<Workflow>
  {
    if es == [] then None
    else if KeyOf(es[|es| - 1].wf) == key then Said(es[|es| - 1])
    else LastSaid(es[..|es| - 1], key)
  }

  lemma TouchesFront(es: seq<Event>, key: string)
    requires Touches(es, key) && KeyOf(es[|es| - 1].wf) != key
    ensures Touches(es[..|es| - 1], key)
  {}

  /** A replay leaves at each key what the last event about it says, or what was there before. */
  lemma {:induction false} ReplayAt(cache: Cache, es: seq<Event>, key: string)
    ensures At(Replay(cache, es), key) == if Touches(es, key) then LastSaid(es, key) else At(cache, key)
    decreases |es|
  {
    if es != [] {
      var n := |es| - 1;
      ReplayAt(cache, es[..n], key);
      if KeyOf(es[n].wf) != key {
        if Touches(es, key) {
          TouchesFront(es, key);
        } else {
          assert forall i :: 0 <= i < n ==> es[..n][i] == es[i];
        }
      }
    }
  }

  /** The last event about a key is the one after which nothing is about it. */
  lemma {:induction false} LastSaidIs(es: seq<Event>, key: string, i: nat)
    requires i < |es| && KeyOf(es[i].wf) == key
    requires forall j :: i < j < |es| ==> KeyOf(es[j].wf) != key
    ensures Touches(es, key) && LastSaid(es, key) == Said(es[i])
    decreases |es|
  {
    if i < |es| - 1 {
      LastSaidIs(es[..|es| - 1], key, i);
    }
  }

  lemma {:induction false} LastTouch(es: seq<Event>, key: string) returns (i: nat)
    requires Touches(es, key)
    ensures i < |es| && KeyOf(es[i].wf) == key && forall j :: i < j < |es| ==> KeyOf(es[j].wf) != key
    decreases |es|
  {
    i := |es| - 1;
    if KeyOf(es[i].wf) != key {
      TouchesFront(es, key);
      i := LastTouch(es[..i], key);
      assert forall j :: i < j < |es| - 1 ==> es[j] == es[..|es| - 1][j];
    }
  }

  /** The last word on a key stands in the last part of a history that touches it. */
  lemma LastSaidOfSuffix(es: seq<Event>, i: nat, key: string)
    requires i <= |es| && Touches(es[i..], key)
    ensures Touches(es, key) && LastSaid(es, key) == LastSaid(es[i..], key)
  {
    var j := LastTouch(es[i..], key);
    LastSaidIs(es[i..], key, j);
    forall k | i + j < k < |es| ensures KeyOf(es[k].wf) != key {
      assert es[k] == es[i..][k - i];
    }
    LastSaidIs(es, key, i + j);
  }

  /** Replaying any suffix of a history over its own outcome changes nothing. */
  lemma SuffixReplayIsIdle(cache: Cache, es: seq<Event>, i: nat)
    requires i <= |es|
    ensures Replay(Replay(cache, es), es[i..]) == Replay(cache, es)
  {
    forall k ensures At(Replay(Replay(cache, es), es[i..]), k) == At(Replay(cache, es), k) {
      ReplayAt(Replay(cache, es), es[i..], k);
      if Touches(es[i..], k) {
        LastSaidOfSuffix(es, i, k);
        ReplayAt(cache, es, k);
      }
    }
    SameEntries(Replay(Replay(cache, es), es[i..]), Replay(cache, es));
  }

  /**
   * Replaying the history from position `i` over some other starting point gives the outcome of the
   * whole history exactly when the starting point is right about every key the replay does not touch.
   */
  lemma SuffixReplayCatchesUp(cache: Cache, es: seq<Event>, i: nat, start: Cache)
    requires i <= |es|
    ensures Replay(start, es[i..]) == Replay(cache, es) <==>
      forall k :: !Touches(es[i..], k) ==> At(start, k) == At(Replay(cache, es), k)
  {
    var caught, whole := Replay(start, es[i..]), Replay(cache, es);
    forall k ensures At(caught, k) == if Touches(es[i..], k) then At(whole, k) else At(start, k) {
      ReplayAt(start, es[i..], k);
      if Touches(es[i..], k) {
        LastSaidOfSuffix(es, i, k);
        ReplayAt(cache, es, k);
      }
    }
    if forall k :: !Touches(es[i..], k) ==> At(start, k) == At(whole, k) {
      SameEntries(caught, whole);
    }
  }

  // ----- namespace filters -----

  /** The part of a cache, or of the informer's store, in the namespaces a replica is responsible for. */
  function Filtered(cache: Cache, admits: string -> bool): Cache
  {
    map k | k in cache && admits(cache[k].namespace) :: cache[k]
  }

  function Admitted(es: seq<Event>, admits: string -> bool): seq<Event>
  {
    if es == [] then []
    else Admitted(es[..|es| - 1], admits) + if admits(es[|es| - 1].wf.namespace) then [es[|es| - 1]] else []
  }

  predicate Named(e: Event) { SlashFree(e.wf.namespace) }

  predicate AllNamed(es: seq<Event>) { forall i :: 0 <= i < |es| ==> Named(es[i]) }

  predicate NamedCache(cache: Cache)
  {
    forall k :: k in cache ==> k == KeyOf(cache[k]) && SlashFree(cache[k].namespace)
  }

  /** Filtering a cache commutes with applying an event to it. */
  lemma FilterStep(cache: Cache, e: Event, admits: string -> bool)
    requires NamedCache(cache) && Named(e)
    ensures NamedCache(Apply(cache, OperationOf(e)))
    ensures Filtered(Apply(cache, OperationOf(e)), admits) ==
      if admits(e.wf.namespace) then Apply(Filtered(cache, admits), OperationOf(e)) else Filtered(cache, admits)
  {
    var key := KeyOf(e.wf);
    if key in cache {
      KeyInjective(e.wf.namespace, e.wf.name, cache[key].namespace, cache[key].name);
    }
  }

  /** A replica that filters events ends with the filtered part of the unfiltered outcome. */
  lemma {:induction false} ReplayAdmitted(es: seq<Event>, admits: string -> bool)
    requires AllNamed(es)
    ensures NamedCache(Replay(map[], es))
    ensures Replay(map[], Admitted(es, admits)) == Filtered(Replay(map[], es), admits)
    decreases |es|
  {
    if es != [] {
      var n := |es| - 1;
      ReplayAdmitted(es[..n], admits);
      FilterStep(Replay(map[], es[..n]), es[n], admits);
      if admits(es[n].wf.namespace) {
        ReplayOne(map[], Admitted(es[..n], admits), es[n]);
      } else {
        assert Admitted(es, admits) == Admitted(es[..n], admits);
      }
    }
  }
}
